// Deleting the files of a workflow's workspace while keeping its declared
// inputs, its declared outputs, both or neither. Paths are relative to the
// workspace, as `pathlib` parts.
module Deleter {
  import opened Paths
  import opened FileTree

  /** Which declared files are kept. */
  datatype InOrOut = Inputs | Outputs | InputsOutputs | Neither

  /**
   * The `files` and `directories` a specification declares under one key;
   * a missing key, or a missing list, declares nothing.
   */
  datatype Declared = Declared(files: seq<string>, directories: seq<string>)

  /** The `inputs` and `outputs` parts of a workflow's specification. */
  datatype Specification = Specification(inputs: Declared, outputs: Declared)

  /** The file loop: whether some declared file names exactly `p`. */
  function IsDeclaredFile(p: Path, files: seq<string>): bool
  {
    if files == [] then false
    else p == ToPath(files[0]) || IsDeclaredFile(p, files[1..])
  }

  lemma {:induction false} IsDeclaredFileIff(p: Path, files: seq<string>)
    ensures IsDeclaredFile(p, files) <==> exists f :: f in files && p == ToPath(f)
  {
    if files != [] {
      IsDeclaredFileIff(p, files[1..]);
      assert files == [files[0]] + files[1..];
    }
  }

  /** The directory loop: whether `p` lies at or below some declared directory. */
  function IsUnderDeclaredDirectory(p: Path, directories: seq<string>): bool
  {
    if directories == [] then false
    else IsRelativeTo(p, ToPath(directories[0])) || IsUnderDeclaredDirectory(p, directories[1..])
  }

  lemma {:induction false} IsUnderDeclaredDirectoryIff(p: Path, directories: seq<string>)
    ensures IsUnderDeclaredDirectory(p, directories) <==> exists d :: d in directories && IsRelativeTo(p, ToPath(d))
  {
    if directories != [] {
      IsUnderDeclaredDirectoryIff(p, directories[1..]);
      assert directories == [directories[0]] + directories[1..];
    }
  }

  predicate IsDeclared(p: Path, d: Declared)
  {
    IsDeclaredFile(p, d.files) || IsUnderDeclaredDirectory(p, d.directories)
  }

  /** The keys `is_input_output_check` looks at, in order. */
  function KeysToCheck(spec: Specification, toCheck: InOrOut): (r: seq<Declared>)
    ensures spec.inputs in r <==> toCheck == Inputs || toCheck == InputsOutputs || (toCheck == Outputs && spec.outputs == spec.inputs)
    ensures forall d :: d in r ==> d == spec.inputs || d == spec.outputs
  {
    match toCheck
    case Inputs => [spec.inputs]
    case Outputs => [spec.outputs]
    case InputsOutputs => [spec.inputs, spec.outputs]
    case Neither => []
  }

  function AnyDeclares(p: Path, keys: seq<Declared>): bool
  {
    if keys == [] then false else IsDeclared(p, keys[0]) || AnyDeclares(p, keys[1..])
  }

  lemma {:induction false} AnyDeclaresIff(p: Path, keys: seq<Declared>)
    ensures AnyDeclares(p, keys) <==> exists d :: d in keys && IsDeclared(p, d)
  {
    if keys != [] {
      AnyDeclaresIff(p, keys[1..]);
      assert keys == [keys[0]] + keys[1..];
    }
  }

  /**
   * `is_input_output_check`: `p` equals a declared file or lies under a
   * declared directory of the selected keys; nothing is selected by `Neither`.
   */
  function IsInputOutputCheck(spec: Specification, toCheck: InOrOut, p: Path): (r: bool)
    ensures toCheck == Neither ==> !r
    ensures toCheck == Inputs ==> (r <==> IsDeclared(p, spec.inputs))
    ensures toCheck == Outputs ==> (r <==> IsDeclared(p, spec.outputs))
    ensures toCheck == InputsOutputs ==> (r <==> IsDeclared(p, spec.inputs) || IsDeclared(p, spec.outputs))
  {
    AnyDeclaresShort(p, spec.inputs, spec.outputs);
    AnyDeclaresShort(p, spec.outputs, spec.inputs);
    AnyDeclares(p, KeysToCheck(spec, toCheck))
  }

  lemma AnyDeclaresShort(p: Path, a: Declared, b: Declared)
    ensures AnyDeclares(p, [a]) == IsDeclared(p, a)
    ensures AnyDeclares(p, [a, b]) == (IsDeclared(p, a) || IsDeclared(p, b))
  {
    assert [a][1..] == [] && [b][1..] == [] && [a, b][1..] == [b];
  }

  function IsInput(spec: Specification, p: Path): bool
  {
    IsInputOutputCheck(spec, Inputs, p)
  }

  function IsOutput(spec: Specification, p: Path): bool
  {
    IsInputOutputCheck(spec, Outputs, p)
  }

  /** The two tests `delete_files` makes before it deletes anything. */
  predicate Preserved(spec: Specification, whichToKeep: InOrOut, p: Path)
  {
    || ((whichToKeep == Inputs || whichToKeep == InputsOutputs) && IsInput(spec, p))
    || ((whichToKeep == Outputs || whichToKeep == InputsOutputs) && IsOutput(spec, p))
  }

  /** `delete_files` keeps exactly what `is_input_output_check` selects for the same mode. */
  lemma PreservedIsCheck(spec: Specification, whichToKeep: InOrOut, p: Path)
    ensures Preserved(spec, whichToKeep, p) == IsInputOutputCheck(spec, whichToKeep, p)
  {
  }

  /** Everything below a declared directory is preserved in turn. */
  lemma PreservedBelowDirectory(spec: Specification, whichToKeep: InOrOut, d: string, p: Path, q: Path)
    requires whichToKeep == InputsOutputs
    requires d in spec.inputs.directories || d in spec.outputs.directories
    requires IsRelativeTo(p, ToPath(d)) && IsRelativeTo(q, p)
    ensures Preserved(spec, whichToKeep, p) && Preserved(spec, whichToKeep, q)
  {
    RelativeToTransitive(q, p, ToPath(d));
    IsUnderDeclaredDirectoryIff(p, spec.inputs.directories);
    IsUnderDeclaredDirectoryIff(q, spec.inputs.directories);
    IsUnderDeclaredDirectoryIff(p, spec.outputs.directories);
    IsUnderDeclaredDirectoryIff(q, spec.outputs.directories);
  }

  function KeepTest(spec: Specification, whichToKeep: InOrOut): Path -> bool
  {
    p => Preserved(spec, whichToKeep, p)
  }

  class Deleter {
    const specification: Specification
    /** The workspace: every entry below it, by its path relative to it. */
    var entries: Tree

    constructor (specification: Specification, entries: Tree)
      ensures this.specification == specification && this.entries == entries
    {
      this.specification := specification;
      this.entries := entries;
    }

    /**
     * `delete_files`: leave a preserved path alone, else delete the children
     * of a directory first and then the path itself; a directory that is not
     * empty by then stays (`ENOTEMPTY`), and a path that is gone is skipped.
     */
    method DeleteFiles(whichToKeep: InOrOut, p: Path)
      requires Valid(entries) && p != []
      modifies this
      ensures Valid(entries)
      ensures entries == AfterDelete(old(entries), p, KeepTest(specification, whichToKeep))
      decreases |Subtree(entries, p)|, 2
    {
      ghost var stop := KeepTest(specification, whichToKeep);
      ghost var t := entries;
      if (whichToKeep == Inputs || whichToKeep == InputsOutputs) && IsInput(specification, p) {
        KeptStep(t, p, stop);
        return;
      }
      if (whichToKeep == Outputs || whichToKeep == InputsOutputs) && IsOutput(specification, p) {
        KeptStep(t, p, stop);
        return;
      }
      if p in entries && entries[p] == Dir {
        DeleteChildren(whichToKeep, p);
        DirStep(t, p, stop);
        if Children(entries, p) == {} {
          entries := entries - {p};
        }
      } else if p in entries {
        LeafStep(t, p, stop);
        entries := entries - {p};
      } else {
        MissingStep(t, p, stop);
      }
      AfterDeleteValid(t, p, stop);
    }

    /** The loop of `delete_files` over the entries `iterdir` lists for a directory. */
    method DeleteChildren(whichToKeep: InOrOut, p: Path)
      requires Valid(entries) && p in entries
      modifies this
      ensures Valid(entries)
      ensures entries == Restrict(old(entries), Children(old(entries), p), KeepTest(specification, whichToKeep))
      decreases |Subtree(entries, p)|, 1
    {
      ghost var stop := KeepTest(specification, whichToKeep);
      ghost var t := entries;
      var children := Children(entries, p);
      ghost var done: set<Path> := {};
      RestrictNone(t, stop);
      while children != {}
        invariant children <= Children(t, p) && done == Children(t, p) - children
        invariant entries == Restrict(t, done, stop)
        decreases |children|
      {
        var c :| c in children;
        DeleteChild(whichToKeep, p, t, done, c);
        children := children - {c};
        done := done + {c};
      }
      RestrictValid(t, done, stop);
    }

    /** One turn of that loop: `delete_files` on one child. */
    method DeleteChild(whichToKeep: InOrOut, p: Path, ghost t: Tree, ghost done: set<Path>, c: Path)
      requires Valid(t) && p in t && c in Children(t, p) && done <= Children(t, p) && c !in done
      requires entries == Restrict(t, done, KeepTest(specification, whichToKeep))
      modifies this
      ensures entries == Restrict(t, done + {c}, KeepTest(specification, whichToKeep))
      decreases |Subtree(t, p)|, 0
    {
      ghost var stop := KeepTest(specification, whichToKeep);
      RestrictValid(t, done, stop);
      ChildSubtreeSmaller(t, done, stop, p, c);
      DeleteFiles(whichToKeep, c);
      SiblingStep(t, p, done, c, stop);
    }
  }

  /** A preserved path, and everything below it, is not deleted. */
  lemma NothingPreservedDeleted(t: Tree, spec: Specification, whichToKeep: InOrOut, p: Path, r: Path, q: Path)
    requires r in t && Preserved(spec, whichToKeep, r)
    requires p <= r && r <= q && q in t
    ensures r in AfterDelete(t, p, KeepTest(spec, whichToKeep))
    ensures q in AfterDelete(t, p, KeepTest(spec, whichToKeep))
  {
    KeptSurvives(t, p, KeepTest(spec, whichToKeep), r);
    BelowKeptSurvives(t, p, KeepTest(spec, whichToKeep), r, q);
  }

  /** With nothing to keep, a path is deleted with everything below it. */
  lemma KeepNothingDeletesAll(t: Tree, spec: Specification, p: Path, q: Path)
    requires p <= q
    ensures q !in AfterDelete(t, p, KeepTest(spec, Neither))
  {
    UnkeptRemoved(t, p, KeepTest(spec, Neither), q);
  }

  /** A directory holding a preserved entry stays, even though it is not itself preserved. */
  lemma AncestorOfPreservedStays(t: Tree, spec: Specification, whichToKeep: InOrOut, p: Path, q: Path, r: Path)
    requires r in t && Preserved(spec, whichToKeep, r)
    requires p <= q && q <= r && q in t
    ensures q in AfterDelete(t, p, KeepTest(spec, whichToKeep))
  {
    assert Survives(t, p, KeepTest(spec, whichToKeep), q);
  }

  /** Deleting a path a second time changes nothing. */
  lemma DeleteTwiceHarmless(t: Tree, spec: Specification, whichToKeep: InOrOut, p: Path)
    ensures var stop := KeepTest(spec, whichToKeep);
      AfterDelete(AfterDelete(t, p, stop), p, stop) == AfterDelete(t, p, stop)
  {
    AfterDeleteIdempotent(t, p, KeepTest(spec, whichToKeep));
  }
}
