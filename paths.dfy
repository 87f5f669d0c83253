// Path handling of the Python standard library, as the modelled code uses it:
// `os.path.split`, `os.path.splitext`, `os.path.join` on POSIX path strings,
// and `pathlib.PurePosixPath` values as sequences of parts.
module Paths {
  import opened Text

  // ---------------------------------------------------------------------
  // `os.path` on strings

  /** `os.path.split(p)`: the directory part and the final component. */
  function PosixSplit(p: string): (r: (string, string))
    ensures '/' !in r.1
    ensures |r.1| <= |p| && r.0 <= p && p[|p| - |r.1|..] == r.1
    ensures forall k :: |r.0| <= k < |p| - |r.1| ==> p[k] == '/'
  {
    var i := RFind(p, '/') + 1;
    var head, tail := p[..i], p[i..];
    assert '/' !in tail by {
      forall k | 0 <= k < |tail| ensures tail[k] != '/' { assert tail[k] == p[i + k]; }
    }
    if head != [] && exists k :: 0 <= k < |head| && head[k] != '/' then
      (RStrip(head, {'/'}), tail)
    else (head, tail)
  }

  /**
   * `os.path.splitext(p)`: the extension is the part from the last dot of
   * the final component, provided that component has a character other
   * than a dot before that dot; otherwise the extension is empty.
   */
  function SplitExt(p: string): (r: (string, string))
    ensures r.0 + r.1 == p
    ensures r.1 == [] || (r.1[0] == '.' && '.' !in r.1[1..] && '/' !in r.1)
  {
    var sep := RFind(p, '/');
    var dot := RFind(p, '.');
    if dot > sep && exists k :: sep + 1 <= k < dot && p[k] != '.' then
      var ext := p[dot..];
      assert '.' !in ext[1..] by {
        forall k | 1 <= k < |ext| ensures ext[k] != '.' { assert ext[k] == p[dot + k]; }
      }
      assert '/' !in ext by {
        forall k | 0 <= k < |ext| ensures ext[k] != '/' { assert ext[k] == p[dot + k]; }
      }
      (p[..dot], ext)
    else (p, [])
  }

  /** `os.path.join(a, b)`. */
  function PosixJoin(a: string, b: string): (r: string)
    ensures b != [] && b[0] == '/' ==> r == b
  {
    if b != [] && b[0] == '/' then b
    else if a == [] || a[|a| - 1] == '/' then a + b
    else a + "/" + b
  }

  // ---------------------------------------------------------------------
  // `pathlib` paths

  /** A `PurePosixPath`, as its parts; an absolute path's first part is "/". */
  type Path = seq<string>

  function PartsOf(segments: seq<string>): (r: seq<string>)
    ensures forall k :: 0 <= k < |r| ==> r[k] != "" && r[k] != "." && r[k] in segments
  {
    if segments == [] then []
    else (if segments[0] == "" || segments[0] == "." then [] else [segments[0]]) + PartsOf(segments[1..])
  }

  /**
   * `PurePosixPath(s)`: empty and "." components vanish, a leading slash becomes the root part.
   * Exactly two leading slashes, which POSIX paths keep as the root "//", are read as "/" here.
   */
  function ToPath(s: string): (r: Path)
    ensures forall k :: 0 <= k < |r| ==> r[k] != "" && r[k] != "."
  {
    (if s != [] && s[0] == '/' then ["/"] else []) + PartsOf(Split(s, '/'))
  }

  /** `str(p)`. */
  function PathString(p: Path): string
  {
    if p == [] then "."
    else if p[0] == "/" then "/" + Join(p[1..], '/')
    else Join(p, '/')
  }

  predicate IsAbsolute(p: Path) { p != [] && p[0] == "/" }

  /** `a / b`: an absolute right-hand side replaces the left-hand side. */
  function Concat(a: Path, b: Path): (r: Path)
    ensures !IsAbsolute(b) ==> a <= r
  {
    if IsAbsolute(b) then b else a + b
  }

  /** `p.is_relative_to(q)`: `q` is `p` or one of its parents. */
  predicate IsRelativeTo(p: Path, q: Path)
  {
    q <= p
  }

  /** `p.parent`'s chain: the proper ancestors of `p`. */
  predicate IsStrictAncestor(a: Path, p: Path)
  {
    a <= p && |a| < |p|
  }

  lemma RelativeToConcat(a: Path, b: Path)
    requires !IsAbsolute(b)
    ensures IsRelativeTo(Concat(a, b), a)
  {
  }

  lemma {:induction false} RelativeToTransitive(p: Path, q: Path, r: Path)
    requires IsRelativeTo(p, q) && IsRelativeTo(q, r)
    ensures IsRelativeTo(p, r)
  {
    assert p[..|r|] == q[..|r|];
  }

  /** A name with no `/` in it, other than `""` and `.`, is a path of one part. */
  lemma SinglePart(s: string)
    requires '/' !in s && s != "" && s != "."
    ensures ToPath(s) == [s]
  {
    assert Split(s, '/') == [s];
    assert PartsOf([s]) == [s] + PartsOf([]);
  }

  /** A name that does not start with `/` makes a relative path. */
  lemma RelativeName(s: string)
    requires s == "" || s[0] != '/'
    ensures !IsAbsolute(ToPath(s))
  {
    var r := ToPath(s);
    if r != [] {
      assert r == PartsOf(Split(s, '/'));
      assert r[0] in Split(s, '/');
      assert '/' !in r[0] && '/' in "/";
    }
  }
}
