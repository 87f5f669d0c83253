// Deleting every top-level entry of a workspace, and the four workspaces of
// the deleter's own test cases worked through.
module DeleterCases {
  import opened Paths
  import opened FileTree
  import opened Deleter

  /**
   * Deleting every top-level entry, in whatever order they are listed, keeps
   * a file exactly when the file or one of the directories above it is kept.
   */
  lemma {:induction false} TopLevelDeletion(t: Tree, ps: seq<Path>, stop: Path -> bool)
    requires Valid(t)
    requires forall q :: q in ps <==> q in Children(t, [])
    requires forall i, j :: 0 <= i < j < |ps| ==> ps[i] != ps[j]
    ensures DeleteEach(t, ps, stop) == Restrict(t, Children(t, []), stop)
  {
    RestrictNone(t, stop);
    DeleteEachSiblings(t, [], {}, ps, stop);
    assert {} + (set x | x in ps) == Children(t, []);
  }

  lemma FileSurvivesTopLevel(t: Tree, stop: Path -> bool, q: Path)
    requires Valid(t) && q in t && t[q] != Dir
    ensures q in Restrict(t, Children(t, []), stop) <==> exists k :: 1 <= k <= |q| && stop(q[..k])
  {
    assert q != [];
    var c := q[..1];
    AncestorPresent(t, q, c);
    assert c in Children(t, []);
    forall d | d in Children(t, []) && d <= q
      ensures d == c
    {
      SameLengthPrefix(d, c, q);
    }
    LeafHasNothingBelow(t, q);
    if exists k :: 1 <= k <= |q| && stop(q[..k]) {
      var k :| 1 <= k <= |q| && stop(q[..k]);
      AncestorPresent(t, q, q[..k]);
      assert Survives(t, c, stop, q);
    }
    if Survives(t, c, stop, q) {
      var r :| r in t && c <= r && stop(r) && (r <= q || q <= r);
      assert r == q[..|r|];
    }
  }

  /** A name of one path part. */
  predicate Plain(s: string)
  {
    '/' !in s && s != "" && s != "."
  }

  /** The names the deleter's test cases use, all of one part and all different. */
  datatype Names = Names(inputFile: string, inputDir: string, outputFile: string, outputDir: string,
                         input1: string, input2: string, output1: string, temp: string)

  /** The four declared names are of one part, and the top-level names and the two inputs differ. */
  predicate Distinct(n: Names)
  {
    && Plain(n.inputFile) && Plain(n.inputDir) && Plain(n.outputFile) && Plain(n.outputDir)
    && n.inputFile != n.inputDir && n.inputFile != n.outputFile && n.inputFile != n.outputDir
    && n.inputDir != n.outputFile && n.inputDir != n.outputDir && n.outputFile != n.outputDir
    && n.temp != n.inputFile && n.temp != n.inputDir && n.temp != n.outputFile && n.temp != n.outputDir
    && n.input1 != n.input2
  }

  /** The test workflow declares one input file and directory, and one output file and directory. */
  function TestSpecification(n: Names): Specification
  {
    Specification(Declared([n.inputFile], [n.inputDir]), Declared([n.outputFile], [n.outputDir]))
  }

  lemma DeclaredOne(p: Path, f: string, d: string)
    requires Plain(f) && Plain(d)
    ensures IsDeclared(p, Declared([f], [d])) <==> p == [f] || (p != [] && p[0] == d)
  {
    SinglePart(f);
    SinglePart(d);
    assert IsDeclaredFile(p, [f]) <==> p == ToPath(f) by {
      assert forall x :: x in [f] <==> x == f;
    }
    assert IsUnderDeclaredDirectory(p, [d]) <==> IsRelativeTo(p, ToPath(d)) by {
      assert forall x :: x in [d] <==> x == d;
    }
  }

  /** Whether a path of one or two parts is kept in a given mode, for the test declarations. */
  lemma TestKeeps(n: Names, m: InOrOut, p: Path)
    requires Distinct(n) && 1 <= |p| <= 2
    ensures var inp, out := m == Inputs || m == InputsOutputs, m == Outputs || m == InputsOutputs;
      KeepTest(TestSpecification(n), m)(p) <==>
      || (inp && (p == [n.inputFile] || p[0] == n.inputDir))
      || (out && (p == [n.outputFile] || p[0] == n.outputDir))
  {
    DeclaredOne(p, n.inputFile, n.inputDir);
    DeclaredOne(p, n.outputFile, n.outputDir);
  }

  /** The files of a workspace that survive deleting all its top-level entries in mode `m`. */
  function Remaining(n: Names, t: Tree, m: InOrOut): set<Path>
  {
    Files(Restrict(t, Children(t, []), KeepTest(TestSpecification(n), m)))
  }

  /** A file one or two levels down survives iff it or its top-level directory is kept. */
  lemma ShallowFileRemains(n: Names, t: Tree, m: InOrOut, q: Path)
    requires Valid(t) && q in t && t[q] == File && 1 <= |q| <= 2
    ensures var keep := KeepTest(TestSpecification(n), m);
      q in Remaining(n, t, m) <==> keep(q[..1]) || keep(q)
  {
    var keep := KeepTest(TestSpecification(n), m);
    FileSurvivesTopLevel(t, keep, q);
    assert q[..|q|] == q;
    if exists k :: 1 <= k <= |q| && keep(q[..k]) {
      var k :| 1 <= k <= |q| && keep(q[..k]);
      assert k == 1 || k == 2;
    }
  }

  /** `inputs/input1.txt`, `inputs/input2.txt`, `outputs/output1.txt` and `temp.txt`. */
  function BaseTree(n: Names): Tree
  {
    map[[n.inputDir] := Dir, [n.inputDir, n.input1] := File, [n.inputDir, n.input2] := File,
        [n.outputDir] := Dir, [n.outputDir, n.output1] := File, [n.temp] := File]
  }

  lemma BaseTreeValid(n: Names)
    requires Distinct(n)
    ensures Valid(BaseTree(n))
  {
    var t := BaseTree(n);
    forall q, k | q in t && 0 < k < |q|
      ensures q[..k] in t && t[q[..k]] == Dir
    {
      assert k == 1 && |q| == 2;
      assert q[..k] == [q[0]];
    }
  }

  lemma WithTopFileValid(t: Tree, name: string)
    requires Valid(t) && [name] !in t
    ensures Valid(t[[name] := File])
  {
  }

  /** Remaining files are exactly those of `t` that pass `ShallowFileRemains`. */
  lemma RemainingOf(n: Names, t: Tree, m: InOrOut, expected: set<Path>)
    requires Distinct(n) && Valid(t)
    requires forall q :: q in t ==> 1 <= |q| <= 2
    requires forall q :: q in expected ==> q in t && t[q] == File
    requires forall q :: q in t && t[q] == File && q !in expected ==>
      var keep := KeepTest(TestSpecification(n), m); !keep(q[..1]) && !keep(q)
    requires forall q :: q in expected ==>
      var keep := KeepTest(TestSpecification(n), m); keep(q[..1]) || keep(q)
    ensures Remaining(n, t, m) == expected
  {
    forall q | q in t && t[q] == File
      ensures q in Remaining(n, t, m) <==> q in expected
    {
      ShallowFileRemains(n, t, m, q);
    }
    assert forall q :: q in Remaining(n, t, m) ==> q in t && t[q] == File;
  }

  /** The test-case argument: `expected` is what remains of `t` in mode `m`. */
  lemma CaseHolds(n: Names, t: Tree, m: InOrOut, expected: set<Path>)
    requires Distinct(n) && Valid(t)
    requires forall q :: q in t ==> 1 <= |q| <= 2
    requires forall q :: q in expected ==> q in t && t[q] == File
    requires forall q :: q in t && t[q] == File ==>
      var inp, out := m == Inputs || m == InputsOutputs, m == Outputs || m == InputsOutputs;
      (q in expected <==>
        || (inp && (q[0] == n.inputFile || q[0] == n.inputDir))
        || (out && (q[0] == n.outputFile || q[0] == n.outputDir)))
    ensures Remaining(n, t, m) == expected
  {
    var keep := KeepTest(TestSpecification(n), m);
    forall q | q in t && t[q] == File && q !in expected
      ensures !keep(q[..1]) && !keep(q)
    {
      TestKeeps(n, m, q[..1]);
      TestKeeps(n, m, q);
    }
    forall q | q in expected
      ensures keep(q[..1]) || keep(q)
    {
      TestKeeps(n, m, q[..1]);
      TestKeeps(n, m, q);
    }
    RemainingOf(n, t, m, expected);
  }

  /** Keeping inputs and outputs: both input files and the output file remain, `temp.txt` goes. */
  lemma KeepInputsOutputsCase(n: Names)
    requires Distinct(n)
    ensures Remaining(n, BaseTree(n), InputsOutputs)
      == {[n.inputDir, n.input1], [n.outputDir, n.output1], [n.inputDir, n.input2]}
  {
    BaseTreeValid(n);
    CaseHolds(n, BaseTree(n), InputsOutputs, {[n.inputDir, n.input1], [n.outputDir, n.output1], [n.inputDir, n.input2]});
  }

  /**
   * Keeping inputs, with `input.txt` added and `temp.txt` standing for the
   * test's `output.txttemp.txt`: the input directory and `input.txt` remain.
   */
  lemma KeepInputsCase(n: Names)
    requires Distinct(n)
    ensures Remaining(n, BaseTree(n)[[n.inputFile] := File], Inputs)
      == {[n.inputDir, n.input1], [n.inputDir, n.input2], [n.inputFile]}
  {
    BaseTreeValid(n);
    WithTopFileValid(BaseTree(n), n.inputFile);
    CaseHolds(n, BaseTree(n)[[n.inputFile] := File], Inputs, {[n.inputDir, n.input1], [n.inputDir, n.input2], [n.inputFile]});
  }

  /** Keeping outputs: only the output file remains. */
  lemma KeepOutputsCase(n: Names)
    requires Distinct(n)
    ensures Remaining(n, BaseTree(n), Outputs) == {[n.outputDir, n.output1]}
  {
    BaseTreeValid(n);
    CaseHolds(n, BaseTree(n), Outputs, {[n.outputDir, n.output1]});
  }

  /** Keeping nothing: no file remains, `input.txt` and `output.txt` included. */
  lemma KeepNothingCase(n: Names)
    requires Distinct(n)
    ensures Remaining(n, BaseTree(n)[[n.inputFile] := File][[n.outputFile] := File], Neither) == {}
  {
    BaseTreeValid(n);
    WithTopFileValid(BaseTree(n), n.inputFile);
    WithTopFileValid(BaseTree(n)[[n.inputFile] := File], n.outputFile);
    CaseHolds(n, BaseTree(n)[[n.inputFile] := File][[n.outputFile] := File], Neither, {});
  }

  /** The names of the test cases meet the assumptions of the four lemmas above. */
  lemma TestNamesDistinct()
    ensures Distinct(Names("input.txt", "inputs", "output.txt", "outputs", "input1.txt", "input2.txt", "output1.txt", "temp.txt"))
    ensures Distinct(Names("input.txt", "inputs", "output.txt", "outputs", "input1.txt", "input2.txt", "output1.txt", "output.txttemp.txt"))
  {
  }
}
