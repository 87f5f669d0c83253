// The storage part of the status report: where usage is measured, and how the
// output of `du` and `df` is read. Running a command is a parameter that maps
// the argument list to the decoded output.
module Status {
  import opened Wrappers
  import opened Text

  /** The characters `str.split()` without arguments treats as whitespace. */
  const Whitespace := {' ', '\t', '\n', '\r', '\U{000B}', '\U{000C}', '\U{001C}', '\U{001D}', '\U{001E}', '\U{001F}',
                       '\U{0085}', '\U{00A0}', '\U{1680}', '\U{2000}', '\U{2001}', '\U{2002}', '\U{2003}', '\U{2004}',
                       '\U{2005}', '\U{2006}', '\U{2007}', '\U{2008}', '\U{2009}', '\U{200A}', '\U{2028}', '\U{2029}',
                       '\U{202F}', '\U{205F}', '\U{3000}'}

  /** The characters `str.splitlines()` ends a line at; `\r\n` counts as one break. */
  const LineBreaks := {'\n', '\r', '\U{000B}', '\U{000C}', '\U{001C}', '\U{001D}', '\U{001E}', '\U{0085}', '\U{2028}', '\U{2029}'}

  /** The trailing characters `execute_cmd` strips. */
  const CrLf := {'\r', '\n'}

  type Run = seq<string> -> string

  /** `execute_cmd`: the command's output without trailing carriage returns and newlines. */
  function ExecuteCmd(run: Run, cmd: seq<string>): (out: string)
    ensures out <= run(cmd)
    ensures out == [] || out[|out| - 1] !in CrLf
    ensures forall k :: |out| <= k < |run(cmd)| ==> run(cmd)[k] in CrLf
  {
    RStrip(run(cmd), CrLf)
  }

  predicate NoSpace(w: string)
  {
    forall k :: 0 <= k < |w| ==> w[k] !in Whitespace
  }

  /** A word: non-empty, without whitespace. */
  predicate IsWord(w: string)
  {
    w != [] && NoSpace(w)
  }

  /** The length of the word `s` starts with. */
  function WordLength(s: string): (n: nat)
    requires s != [] && s[0] !in Whitespace
    ensures 1 <= n <= |s| && NoSpace(s[..n]) && (n == |s| || s[n] in Whitespace)
  {
    if |s| == 1 || s[1] in Whitespace then 1
    else
      var m := WordLength(s[1..]);
      assert s[..m + 1] == [s[0]] + s[1..][..m];
      m + 1
  }

  /** `s.split()`: the words of `s`, in order. */
  function Words(s: string): (r: seq<string>)
    ensures forall k :: 0 <= k < |r| ==> IsWord(r[k])
    decreases |s|
  {
    if s == [] then []
    else if s[0] in Whitespace then Words(s[1..])
    else
      var n := WordLength(s);
      [s[..n]] + Words(s[n..])
  }

  lemma {:induction false} WordLengthOf(w: string, rest: string)
    requires IsWord(w) && (rest == [] || rest[0] in Whitespace)
    ensures WordLength(w + rest) == |w|
  {
    var s := w + rest;
    if |w| > 1 {
      assert s[1..] == w[1..] + rest;
      WordLengthOf(w[1..], rest);
    }
  }

  /** A word followed by whitespace or the end is the first word. */
  lemma WordsCons(w: string, rest: string)
    requires IsWord(w) && (rest == [] || rest[0] in Whitespace)
    ensures Words(w + rest) == [w] + Words(rest)
  {
    WordLengthOf(w, rest);
    var s := w + rest;
    assert s[..|w|] == w && s[|w|..] == rest;
  }

  const Space := " "

  /** Splitting words joined by single spaces gives the words back. */
  lemma {:induction false} WordsJoin(ws: seq<string>)
    requires forall k :: 0 <= k < |ws| ==> IsWord(ws[k])
    ensures Words(JoinWith(ws, Space)) == ws
  {
    if |ws| == 1 {
      WordsCons(ws[0], []);
      assert ws[0] + [] == ws[0];
    } else if |ws| > 1 {
      var rest := JoinWith(ws[1..], Space);
      WordsJoin(ws[1..]);
      assert (Space + rest)[0] == ' ';
      WordsCons(ws[0], Space + rest);
      assert (Space + rest)[1..] == rest;
      assert ws[0] + Space + rest == ws[0] + (Space + rest);
      assert ws == [ws[0]] + ws[1..];
    }
  }

  /** The length of the first line of `s`, without its break. */
  function LineLength(s: string): (n: nat)
    ensures n <= |s| && (n == |s| || s[n] in LineBreaks)
    ensures forall k :: 0 <= k < n ==> s[k] !in LineBreaks
  {
    if s == [] || s[0] in LineBreaks then 0 else 1 + LineLength(s[1..])
  }

  /** The length of the line break `t` starts with. */
  function BreakLength(t: string): (n: nat)
    requires t != []
    ensures 1 <= n <= |t|
  {
    if t[0] == '\r' && |t| > 1 && t[1] == '\n' then 2 else 1
  }

  /** `s.splitlines()`: the lines of `s`, without their breaks and with no empty line after a final break. */
  function Lines(s: string): (r: seq<string>)
    ensures forall k, i :: 0 <= k < |r| && 0 <= i < |r[k]| ==> r[k][i] !in LineBreaks
    decreases |s|
  {
    if s == [] then []
    else
      var n := LineLength(s);
      if n == |s| then [s]
      else [s[..n]] + Lines(s[n + BreakLength(s[n..])..])
  }

  predicate NoBreak(s: string)
  {
    forall k :: 0 <= k < |s| ==> s[k] !in LineBreaks
  }

  lemma {:induction false} LineLengthOf(a: string, rest: string)
    requires NoBreak(a) && (rest == [] || rest[0] in LineBreaks)
    ensures LineLength(a + rest) == |a|
  {
    if a != [] {
      assert (a + rest)[1..] == a[1..] + rest;
      LineLengthOf(a[1..], rest);
    }
  }

  const Newline := "\n"

  /** A line ended by `\n` is the first line; the lines after it are those of the rest. */
  lemma LinesCons(a: string, t: string)
    requires NoBreak(a)
    ensures Lines(a + Newline + t) == [a] + Lines(t)
  {
    var s := a + Newline + t;
    assert Newline[0] == '\n';
    assert s == a + (Newline + t);
    LineLengthOf(a, Newline + t);
    assert s[|a|] == '\n';
    assert s[..|a|] == a;
    assert s[|a|..] == Newline + t;
    assert s[|a| + 1..] == t;
  }

  /** The last line, followed by nothing or by a line break. */
  lemma LinesLast(b: string, tail: string)
    requires NoBreak(b) && b != [] && (tail == [] || tail[0] in LineBreaks)
    ensures Lines(b + tail) != [] && Lines(b + tail)[0] == b
  {
    var s := b + tail;
    LineLengthOf(b, tail);
    assert s[..|b|] == b;
  }

  // ---------------------------------------------------------------------
  // `StorageStatus`
  // ---------------------------------------------------------------------

  datatype User = User(workspacePath: string)

  const UsersSuffix := "/users"

  /** `_get_path`: the user's workspace, or the users directory of the shared volume. */
  function GetPath(user: Option<User>, sharedVolumePath: string): (p: string)
    ensures user.Some? ==> p == user.value.workspacePath
    ensures user.None? ==> p == sharedVolumePath + UsersSuffix
  {
    if user.Some? then user.value.workspacePath else sharedVolumePath + UsersSuffix
  }

  /** How reading a command's output can fail. */
  datatype StatusError = IndexError | ValueError

  const Du := "du"
  const Df := "df"
  const Human := "-h"
  const MaxDepth := "--max-depth="
  const Depth: nat := 0

  /** The `du` call: human-readable sizes, totals only, of the path. */
  function DuCommand(path: string): seq<string>
  {
    [Du, Human, MaxDepth + NatToString(Depth), path]
  }

  function DfCommand(sharedVolumePath: string): seq<string>
  {
    [Df, Human, sharedVolumePath]
  }

  /** The first word of the `du` output. */
  function DirectorySize(output: string): (r: Result<string, StatusError>)
    ensures r.Ok? <==> Words(output) != []
    ensures r.Ok? ==> IsWord(r.value) && r.value == Words(output)[0]
  {
    var words := Words(output);
    if words == [] then Err(IndexError) else Ok(words[0])
  }

  /** There is no size exactly when the output is all whitespace. */
  lemma {:induction false} NoWordsIffBlank(s: string)
    ensures Words(s) == [] <==> forall k :: 0 <= k < |s| ==> s[k] in Whitespace
    decreases |s|
  {
    if s != [] && s[0] in Whitespace {
      NoWordsIffBlank(s[1..]);
      assert forall k :: 1 <= k < |s| ==> s[k] == s[1..][k - 1];
    }
  }

  /** `users_directory_size`. */
  function UsersDirectorySize(user: Option<User>, sharedVolumePath: string, run: Run): Result<string, StatusError>
  {
    DirectorySize(ExecuteCmd(run, DuCommand(GetPath(user, sharedVolumePath))))
  }

  /** The size `du` prints first on its line is what is reported, whatever follows it. */
  lemma SizeIsFirstWord(size: string, rest: string)
    requires IsWord(size) && (rest == [] || rest[0] in Whitespace)
    ensures DirectorySize(size + rest) == Ok(size)
  {
    WordsCons(size, rest);
  }

  /** `list.index`: the first position of `x`, or `None`. */
  function IndexOf(xs: seq<string>, x: string): (r: Option<nat>)
    ensures r.Some? ==> r.value < |xs| && xs[r.value] == x && x !in xs[..r.value]
    ensures r.None? ==> x !in xs
  {
    if xs == [] then None
    else if xs[0] == x then Some(0)
    else
      var i := IndexOf(xs[1..], x);
      if i.None? then None
      else
        assert xs[..i.value + 1] == [xs[0]] + xs[1..][..i.value];
        Some(i.value + 1)
  }

  const Used := "Used"
  const Avail := "Avail"
  const UsePercent := "Use%"
  const Slash := "/"
  const OpenParen := " ("
  const CloseParen := ")"

  /** The report for the values under the three columns. */
  function HealthText(used: string, avail: string, percentage: string): string
  {
    used + Slash + avail + OpenParen + percentage + CloseParen
  }

  /** The report from the header's words and the row's words. */
  function HealthOfRow(headers: seq<string>, values: seq<string>): (r: Result<string, StatusError>)
    ensures r == Err(ValueError) <==> Used !in headers || Avail !in headers || UsePercent !in headers
  {
    var u := IndexOf(headers, Used);
    var a := IndexOf(headers, Avail);
    var p := IndexOf(headers, UsePercent);
    if u.None? || a.None? || p.None? then Err(ValueError)
    else if u.value >= |values| || a.value >= |values| || p.value >= |values| then Err(IndexError)
    else Ok(HealthText(values[u.value], values[a.value], values[p.value]))
  }

  /** The first two lines of the `df` output: the header, and the shared volume's row. */
  function Health(output: string): Result<string, StatusError>
  {
    var lines := Lines(output);
    if |lines| < 2 then Err(IndexError)
    else HealthOfRow(Words(lines[0]), Words(lines[1]))
  }

  /** `shared_volume_health`. */
  function SharedVolumeHealth(sharedVolumePath: string, run: Run): Result<string, StatusError>
  {
    Health(ExecuteCmd(run, DfCommand(sharedVolumePath)))
  }

  predicate AllWords(ws: seq<string>)
  {
    forall k :: 0 <= k < |ws| ==> IsWord(ws[k])
  }

  lemma JoinedWordsNoBreak(ws: seq<string>)
    requires AllWords(ws)
    ensures NoBreak(JoinWith(ws, Space))
  {
    if |ws| > 1 {
      JoinedWordsNoBreak(ws[1..]);
      var j := JoinWith(ws, Space);
      assert j == ws[0] + Space + JoinWith(ws[1..], Space);
      assert forall k :: 0 <= k < |ws[0]| ==> ws[0][k] in Whitespace || ws[0][k] !in LineBreaks;
    }
  }

  /**
   * A header row and a value row, words separated by spaces: the report takes
   * the values standing under `Used`, `Avail` and `Use%`, by the first header
   * of each name.
   */
  lemma HealthOfTable(headers: seq<string>, values: seq<string>, tail: string, u: nat, a: nat, p: nat)
    requires AllWords(headers) && AllWords(values) && values != []
    requires tail == [] || tail[0] in LineBreaks
    requires IndexOf(headers, Used) == Some(u) && IndexOf(headers, Avail) == Some(a) && IndexOf(headers, UsePercent) == Some(p)
    requires u < |values| && a < |values| && p < |values|
    ensures Health(JoinWith(headers, Space) + Newline + JoinWith(values, Space) + tail)
         == Ok(HealthText(values[u], values[a], values[p]))
  {
    var h := JoinWith(headers, Space);
    var v := JoinWith(values, Space);
    JoinedWordsNoBreak(headers);
    JoinedWordsNoBreak(values);
    JoinNonEmpty(values);
    TwoLines(h, v, tail);
    WordsJoin(headers);
    WordsJoin(values);
  }

  lemma TwoLines(h: string, v: string, tail: string)
    requires NoBreak(h) && NoBreak(v) && v != [] && (tail == [] || tail[0] in LineBreaks)
    ensures var lines := Lines(h + Newline + v + tail); |lines| >= 2 && lines[0] == h && lines[1] == v
  {
    LinesCons(h, v + tail);
    assert h + Newline + v + tail == h + Newline + (v + tail);
    LinesLast(v, tail);
  }

  lemma JoinNonEmpty(ws: seq<string>)
    requires AllWords(ws) && ws != []
    ensures JoinWith(ws, Space) != []
  {
  }

  /** Without its header the report fails, whatever the rows hold. */
  lemma MissingHeaderFails(output: string)
    requires |Lines(output)| >= 2 && Used !in Words(Lines(output)[0])
    ensures Health(output) == Err(ValueError)
  {
  }

  /** The header alone, with no row under it, is an index error. */
  lemma HeaderOnlyFails(header: string)
    requires NoBreak(header)
    ensures Health(header) == Err(IndexError)
  {
    if header != [] {
      LineLengthOf(header, []);
      assert header + [] == header;
    }
  }
}
