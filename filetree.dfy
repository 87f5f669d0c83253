// A directory tree as a map from paths to the kind of entry found there, and
// the one shape of recursive deletion both workspace deleters share: visit a
// path; leave it (and everything below it) alone when it is to be kept;
// otherwise remove a file outright, and for a directory first treat every
// child the same way and then remove the directory only if it is now empty.
module FileTree {
  import opened Paths

  datatype Kind = File | Dir | Symlink

  type Tree = map<Path, Kind>

  /** Every proper, non-empty prefix of an entry is a directory entry. */
  predicate Valid(t: Tree)
  {
    && [] !in t
    && forall q, k :: q in t && 0 < k < |q| ==> q[..k] in t && t[q[..k]] == Dir
  }

  /** The entries at or below `p`. */
  function Subtree(t: Tree, p: Path): set<Path>
  {
    set q | q in t && p <= q
  }

  /** The entries directly inside `p`: what `iterdir` lists. */
  function Children(t: Tree, p: Path): set<Path>
  {
    set q | q in t && |q| == |p| + 1 && p <= q
  }

  /**
   * Whether `q` is still there after deleting `p` with the keep test `stop`:
   * it is outside `p`, or some kept entry below `p` is `q` itself, an
   * ancestor of `q` (so `q` is never visited) or a descendant of `q` (so the
   * directory `q` never becomes empty).
   */
  predicate Survives(t: Tree, p: Path, stop: Path -> bool, q: Path)
  {
    !(p <= q) || exists r :: r in t && p <= r && stop(r) && (r <= q || q <= r)
  }

  /** The tree after deleting `p`. */
  function AfterDelete(t: Tree, p: Path, stop: Path -> bool): Tree
  {
    map q | q in t && Survives(t, p, stop, q) :: t[q]
  }

  /** The tree after deleting each child in `done`, one after the other. */
  function Restrict(t: Tree, done: set<Path>, stop: Path -> bool): Tree
  {
    map q | q in t && (forall c :: c in done ==> Survives(t, c, stop, q)) :: t[q]
  }

  lemma PrefixesComparable(a: Path, b: Path, c: Path)
    requires a <= c && b <= c
    ensures a <= b || b <= a
  {
    if |a| <= |b| {
      assert a == c[..|a|] == b[..|a|];
    } else {
      assert b == c[..|b|] == a[..|b|];
    }
  }

  /** Deleting never adds an entry nor changes the kind of one it keeps. */
  lemma AfterDeleteShrinks(t: Tree, p: Path, stop: Path -> bool)
    ensures forall q :: q in AfterDelete(t, p, stop) ==> q in t && AfterDelete(t, p, stop)[q] == t[q]
  {
  }

  /** Deleting keeps the tree well formed: a directory goes only once it is empty. */
  lemma AfterDeleteValid(t: Tree, p: Path, stop: Path -> bool)
    requires Valid(t)
    ensures Valid(AfterDelete(t, p, stop))
  {
    var a := AfterDelete(t, p, stop);
    forall q, k | q in a && 0 < k < |q|
      ensures q[..k] in a && a[q[..k]] == Dir
    {
      var q' := q[..k];
      assert q' <= q;
      if p <= q' {
        assert Survives(t, p, stop, q);
        var r :| r in t && p <= r && stop(r) && (r <= q || q <= r);
        if r <= q {
          PrefixesComparable(r, q', q);
        }
        assert Survives(t, p, stop, q');
      }
    }
  }

  /** What survives a deletion keeps its ancestors with it. */
  lemma SurvivesPrefix(t: Tree, p: Path, stop: Path -> bool, q: Path, q': Path)
    requires Survives(t, p, stop, q) && q' <= q
    ensures Survives(t, p, stop, q')
  {
    if p <= q' {
      var r :| r in t && p <= r && stop(r) && (r <= q || q <= r);
      if r <= q {
        PrefixesComparable(r, q', q);
      }
    }
  }

  /** Deleting siblings one after the other keeps the tree well formed. */
  lemma RestrictValid(t: Tree, done: set<Path>, stop: Path -> bool)
    requires Valid(t)
    ensures Valid(Restrict(t, done, stop))
  {
    var a := Restrict(t, done, stop);
    forall q, k | q in a && 0 < k < |q|
      ensures q[..k] in a && a[q[..k]] == Dir
    {
      forall c | c in done
        ensures Survives(t, c, stop, q[..k])
      {
        SurvivesPrefix(t, c, stop, q, q[..k]);
      }
    }
  }

  /** A kept path at or below `p` is never deleted. */
  lemma KeptSurvives(t: Tree, p: Path, stop: Path -> bool, r: Path)
    requires r in t && stop(r)
    ensures r in AfterDelete(t, p, stop)
  {
    if p <= r {
      assert Survives(t, p, stop, r);
    }
  }

  /** Nothing below a kept path below `p` is deleted. */
  lemma BelowKeptSurvives(t: Tree, p: Path, stop: Path -> bool, r: Path, q: Path)
    requires r in t && stop(r) && p <= r && r <= q && q in t
    ensures q in AfterDelete(t, p, stop)
  {
    assert Survives(t, p, stop, q);
  }

  /** Entries outside `p` are untouched. */
  lemma OutsideUntouched(t: Tree, p: Path, stop: Path -> bool, q: Path)
    requires q in t && !(p <= q)
    ensures q in AfterDelete(t, p, stop) && AfterDelete(t, p, stop)[q] == t[q]
  {
  }

  /** A path the keep test does not accept, with nothing kept below it, is gone. */
  lemma UnkeptRemoved(t: Tree, p: Path, stop: Path -> bool, q: Path)
    requires p <= q && forall r :: r in t && p <= r && (r <= q || q <= r) ==> !stop(r)
    ensures q !in AfterDelete(t, p, stop)
  {
  }

  /** Deleting the same path twice leaves what deleting it once left. */
  lemma AfterDeleteIdempotent(t: Tree, p: Path, stop: Path -> bool)
    ensures AfterDelete(AfterDelete(t, p, stop), p, stop) == AfterDelete(t, p, stop)
  {
    var a := AfterDelete(t, p, stop);
    forall q | q in a
      ensures Survives(a, p, stop, q)
    {
      if p <= q {
        var r :| r in t && p <= r && stop(r) && (r <= q || q <= r);
        KeptSurvives(t, p, stop, r);
      }
    }
  }

  /** Every proper, non-empty prefix of an entry of a well-formed tree is a directory. */
  lemma PrefixIsDir(t: Tree, q: Path, p: Path)
    requires Valid(t) && q in t && p <= q && p != [] && p != q
    ensures p in t && t[p] == Dir
  {
    assert q[..|p|] == p;
  }

  /** A non-empty path with an entry at or below it is itself an entry. */
  lemma AncestorPresent(t: Tree, q: Path, p: Path)
    requires Valid(t) && q in t && p <= q && p != []
    ensures p in t
  {
    if p != q {
      PrefixIsDir(t, q, p);
    }
  }

  /** Two prefixes of the same length of one path are equal. */
  lemma SameLengthPrefix(c: Path, d: Path, r: Path)
    requires c <= r && d <= r && |c| == |d|
    ensures c == d
  {
    assert c == r[..|c|] == d;
  }

  /** No entry lies at or below a missing path of a well-formed tree. */
  lemma MissingHasNoSubtree(t: Tree, p: Path)
    requires Valid(t) && p != []
    ensures p !in t ==> Subtree(t, p) == {}
  {
    forall q | q in Subtree(t, p)
      ensures p in t
    {
      AncestorPresent(t, q, p);
    }
  }

  /** Deleting a missing path changes nothing. */
  lemma MissingStep(t: Tree, p: Path, stop: Path -> bool)
    requires Valid(t) && p != [] && p !in t
    ensures AfterDelete(t, p, stop) == t
  {
    MissingHasNoSubtree(t, p);
    assert forall q :: q in t ==> !(p <= q) by {
      forall q | q in t ensures !(p <= q) {
        assert q !in Subtree(t, p);
      }
    }
  }

  /** Deleting a kept path changes nothing. */
  lemma KeptStep(t: Tree, p: Path, stop: Path -> bool)
    requires Valid(t) && p != [] && stop(p)
    ensures AfterDelete(t, p, stop) == t
  {
    if p in t {
      forall q | q in t && p <= q
        ensures Survives(t, p, stop, q)
      {
      }
    } else {
      MissingStep(t, p, stop);
    }
  }

  /** Nothing lies below a file or a link. */
  lemma LeafHasNothingBelow(t: Tree, p: Path)
    requires Valid(t) && p in t
    ensures t[p] != Dir ==> forall q :: q in t && p <= q ==> q == p
  {
    forall q | q in t && p <= q && q != p
      ensures t[p] == Dir
    {
      PrefixIsDir(t, q, p);
    }
  }

  /** Deleting a file or a link that is not kept removes exactly that entry. */
  lemma LeafStep(t: Tree, p: Path, stop: Path -> bool)
    requires Valid(t) && p in t && t[p] != Dir && !stop(p)
    ensures AfterDelete(t, p, stop) == t - {p}
  {
    LeafHasNothingBelow(t, p);
  }

  /** Deleting one more child of `p`: the children's subtrees do not overlap. */
  lemma SiblingStep(t: Tree, p: Path, done: set<Path>, c: Path, stop: Path -> bool)
    requires c in Children(t, p) && done <= Children(t, p) && c !in done
    ensures c in Restrict(t, done, stop)
    ensures AfterDelete(Restrict(t, done, stop), c, stop) == Restrict(t, done + {c}, stop)
  {
    var s := Restrict(t, done, stop);
    forall r | r in t && c <= r
      ensures r in s
    {
      forall d | d in done && d <= r
        ensures d == c
      {
        SameLengthPrefix(d, c, r);
      }
    }
    forall q | q in s
      ensures Survives(s, c, stop, q) <==> Survives(t, c, stop, q)
    {
      if c <= q && Survives(t, c, stop, q) {
        var r :| r in t && c <= r && stop(r) && (r <= q || q <= r);
        assert r in s;
      }
    }
  }

  lemma RestrictNone(t: Tree, stop: Path -> bool)
    ensures Restrict(t, {}, stop) == t
  {
  }

  /**
   * After every child of a directory `p` that is not kept has been deleted,
   * the tree is the one deleting `p` leaves, once `p` itself is removed if and
   * only if it has no child left.
   */
  lemma DirStep(t: Tree, p: Path, stop: Path -> bool)
    requires Valid(t) && p in t && t[p] == Dir && !stop(p)
    ensures var r := Restrict(t, Children(t, p), stop);
      && p in r
      && (Children(r, p) == {} ==> r - {p} == AfterDelete(t, p, stop))
      && (Children(r, p) != {} ==> r == AfterDelete(t, p, stop))
  {
    var cs := Children(t, p);
    var r := Restrict(t, cs, stop);
    var a := AfterDelete(t, p, stop);
    forall c | c in cs
      ensures Survives(t, c, stop, p)
    {
    }
    assert p in r;
    forall q | q in t && q != p
      ensures q in r <==> q in a
    {
      DirEntryStep(t, p, stop, q);
    }
    DirStaysIffChildStays(t, p, stop);
    if Children(r, p) == {} {
      assert r - {p} == a;
    } else {
      assert r == a;
    }
  }

  /** Below a directory, deleting each child removes what deleting the directory removes. */
  lemma DirEntryStep(t: Tree, p: Path, stop: Path -> bool, q: Path)
    requires Valid(t) && p in t && !stop(p) && q in t && q != p
    ensures q in Restrict(t, Children(t, p), stop) <==> Survives(t, p, stop, q)
  {
    var cs := Children(t, p);
    forall d | d in cs && d <= q
      ensures p <= q
    {
      assert d[..|p|] == p;
    }
    if p <= q {
      var c := q[..|p| + 1];
      assert p <= c && c <= q;
      AncestorPresent(t, q, c);
      assert c in cs;
      forall d | d in cs && d <= q
        ensures d == c
      {
        SameLengthPrefix(d, c, q);
      }
      assert Survives(t, c, stop, q) <==> Survives(t, p, stop, q) by {
        if Survives(t, p, stop, q) {
          var w :| w in t && p <= w && stop(w) && (w <= q || q <= w);
          assert w != p;
          if w <= q {
            assert w[..|p| + 1] == c;
          } else {
            assert w[..|c|] == c;
          }
        }
      }
    }
  }

  /** A directory keeps a child after its loop exactly when something below it is kept. */
  lemma DirStaysIffChildStays(t: Tree, p: Path, stop: Path -> bool)
    requires Valid(t) && p in t && !stop(p)
    ensures Children(Restrict(t, Children(t, p), stop), p) != {} <==> Survives(t, p, stop, p)
  {
    var cs := Children(t, p);
    var r := Restrict(t, cs, stop);
    forall c | c in Children(r, p)
      ensures Survives(t, p, stop, p)
    {
      assert Survives(t, c, stop, c);
      var w :| w in t && c <= w && stop(w) && (w <= c || c <= w);
    }
    if Survives(t, p, stop, p) {
      var w :| w in t && p <= w && stop(w) && (w <= p || p <= w);
      assert w != p;
      var c := w[..|p| + 1];
      assert p <= c && c <= w;
      AncestorPresent(t, w, c);
      assert c in cs;
      assert Survives(t, c, stop, c);
      forall d | d in cs && d <= c
        ensures d == c
      {
        SameLengthPrefix(d, c, c);
      }
      assert c in Children(r, p);
    }
  }

  /** Deleting a directory takes less than the tree below it. */
  lemma ChildSubtreeSmaller(t: Tree, done: set<Path>, stop: Path -> bool, p: Path, c: Path)
    requires p in t && c in Children(t, p)
    ensures |Subtree(Restrict(t, done, stop), c)| < |Subtree(t, p)|
  {
    var a, b := Subtree(Restrict(t, done, stop), c), Subtree(t, p);
    assert a <= b;
    assert p in b && p !in a;
    assert b == a + (b - a);
    assert p in b - a;
  }

  /** Deleting each path of `ps` in turn. */
  function DeleteEach(t: Tree, ps: seq<Path>, stop: Path -> bool): Tree
    decreases |ps|
  {
    if ps == [] then t else DeleteEach(AfterDelete(t, ps[0], stop), ps[1..], stop)
  }

  /** Deleting siblings one after the other deletes each of them from the original tree. */
  lemma {:induction false} DeleteEachSiblings(t: Tree, p: Path, done: set<Path>, ps: seq<Path>, stop: Path -> bool)
    requires done <= Children(t, p)
    requires forall i :: 0 <= i < |ps| ==> ps[i] in Children(t, p) && ps[i] !in done
    requires forall i, j :: 0 <= i < j < |ps| ==> ps[i] != ps[j]
    ensures DeleteEach(Restrict(t, done, stop), ps, stop) == Restrict(t, done + (set x | x in ps), stop)
    decreases |ps|
  {
    if ps != [] {
      SiblingStep(t, p, done, ps[0], stop);
      DeleteEachSiblings(t, p, done + {ps[0]}, ps[1..], stop);
      ElementsOfTail(done, ps);
    }
  }

  lemma ElementsOfTail(done: set<Path>, ps: seq<Path>)
    requires ps != []
    ensures done + {ps[0]} + (set x | x in ps[1..]) == done + (set x | x in ps)
  {
    assert ps == [ps[0]] + ps[1..];
  }

  /** Deleting paths in turn never deletes a kept entry. */
  lemma {:induction false} DeleteEachKeeps(t: Tree, ps: seq<Path>, stop: Path -> bool, r: Path)
    requires r in t && stop(r)
    ensures r in DeleteEach(t, ps, stop) && DeleteEach(t, ps, stop)[r] == t[r]
    decreases |ps|
  {
    if ps != [] {
      KeptSurvives(t, ps[0], stop, r);
      DeleteEachKeeps(AfterDelete(t, ps[0], stop), ps[1..], stop, r);
    }
  }

  /** Deleting paths in turn never adds an entry nor changes the kind of one it keeps. */
  lemma {:induction false} DeleteEachShrinks(t: Tree, ps: seq<Path>, stop: Path -> bool, q: Path)
    requires q in DeleteEach(t, ps, stop)
    ensures q in t && DeleteEach(t, ps, stop)[q] == t[q]
    decreases |ps|
  {
    if ps != [] {
      DeleteEachShrinks(AfterDelete(t, ps[0], stop), ps[1..], stop, q);
    }
  }

  /** Entries outside every deleted path are untouched. */
  lemma {:induction false} DeleteEachOutside(t: Tree, ps: seq<Path>, stop: Path -> bool, q: Path)
    requires q in t && forall i :: 0 <= i < |ps| ==> !(ps[i] <= q)
    ensures q in DeleteEach(t, ps, stop) && DeleteEach(t, ps, stop)[q] == t[q]
    decreases |ps|
  {
    if ps != [] {
      DeleteEachOutside(AfterDelete(t, ps[0], stop), ps[1..], stop, q);
    }
  }

  /** Deleting paths in turn keeps the tree well formed. */
  lemma {:induction false} DeleteEachValid(t: Tree, ps: seq<Path>, stop: Path -> bool)
    requires Valid(t)
    ensures Valid(DeleteEach(t, ps, stop))
    decreases |ps|
  {
    if ps != [] {
      AfterDeleteValid(t, ps[0], stop);
      DeleteEachValid(AfterDelete(t, ps[0], stop), ps[1..], stop);
    }
  }

  lemma {:induction false} DeleteEachSnoc(t: Tree, ps: seq<Path>, p: Path, stop: Path -> bool)
    ensures DeleteEach(t, ps + [p], stop) == AfterDelete(DeleteEach(t, ps, stop), p, stop)
    decreases |ps|
  {
    if ps == [] {
      assert [] + [p] == [p];
    } else {
      DeleteEachSnoc(AfterDelete(t, ps[0], stop), ps[1..], p, stop);
      assert (ps + [p])[1..] == ps[1..] + [p];
    }
  }

  /** The regular files of a tree: what a walk without directories lists. */
  function Files(t: Tree): set<Path>
  {
    set q | q in t && t[q] == File
  }
}
