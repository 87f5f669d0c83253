// Applying a workspace retention rule: every file and directory the rule's
// pattern matches is deleted, except what lies outside the workspace once
// links are resolved and the workflow's declared inputs and outputs. Paths
// here are absolute, and the tree is the whole file system.
module Retention {
  import opened Paths
  import opened FileTree
  import opened Deleter

  /** The file loop: whether `p` is `workspace / file` for a declared file. */
  function IsWorkspaceFile(workspace: Path, p: Path, files: seq<string>): (r: bool)
    ensures r <==> exists f :: f in files && p == Concat(workspace, ToPath(f))
  {
    if files == [] then false
    else p == Concat(workspace, ToPath(files[0])) || IsWorkspaceFile(workspace, p, files[1..])
  }

  /** The directory loop: whether `p` lies at or below `workspace / directory` for a declared directory. */
  function IsInWorkspaceDirectory(workspace: Path, p: Path, directories: seq<string>): (r: bool)
    ensures r <==> exists d :: d in directories && IsRelativeTo(p, Concat(workspace, ToPath(d)))
  {
    if directories == [] then false
    else IsRelativeTo(p, Concat(workspace, ToPath(directories[0]))) || IsInWorkspaceDirectory(workspace, p, directories[1..])
  }

  predicate IsDeclaredIn(workspace: Path, p: Path, d: Declared)
  {
    IsWorkspaceFile(workspace, p, d.files) || IsInWorkspaceDirectory(workspace, p, d.directories)
  }

  /** `is_input_output`: the inputs are looked at, then the outputs. */
  function IsInputOutput(spec: Specification, workspace: Path, p: Path): (r: bool)
    ensures r <==> IsDeclaredIn(workspace, p, spec.inputs) || IsDeclaredIn(workspace, p, spec.outputs)
  {
    var keys := [spec.inputs, spec.outputs];
    assert |keys| == 2 && keys[0] == spec.inputs && keys[1] == spec.outputs;
    AnyDeclaredIn(workspace, p, keys)
  }

  function AnyDeclaredIn(workspace: Path, p: Path, keys: seq<Declared>): (r: bool)
    ensures r <==> exists i :: 0 <= i < |keys| && IsDeclaredIn(workspace, p, keys[i])
  {
    if keys == [] then false
    else IsDeclaredIn(workspace, p, keys[0]) || AnyDeclaredIn(workspace, p, keys[1..])
  }

  /** `is_inside_workspace`: `resolve` is `Path.resolve`, which follows links. */
  predicate IsInsideWorkspace(resolve: Path -> Path, workspace: Path, p: Path)
  {
    IsRelativeTo(resolve(p), resolve(workspace))
  }

  /** What `delete_keeping_inputs_outputs` leaves alone, with everything below it. */
  predicate Kept(spec: Specification, workspace: Path, resolve: Path -> Path, p: Path)
  {
    !IsInsideWorkspace(resolve, workspace, p) || IsInputOutput(spec, workspace, p)
  }

  function RetentionTest(spec: Specification, workspace: Path, resolve: Path -> Path): Path -> bool
  {
    p => Kept(spec, workspace, resolve, p)
  }

  class RetentionRuleDeleter {
    const specification: Specification
    const workspace: Path
    const resolve: Path -> Path
    /** The file system, by absolute path. */
    var entries: Tree

    constructor (specification: Specification, workspace: Path, resolve: Path -> Path, entries: Tree)
      ensures this.specification == specification && this.workspace == workspace
      ensures this.resolve == resolve && this.entries == entries
    {
      this.specification := specification;
      this.workspace := workspace;
      this.resolve := resolve;
      this.entries := entries;
    }

    /**
     * `delete_keeping_inputs_outputs`: a path outside the workspace or an
     * input or output stays; a file or a link is unlinked; a directory has its
     * children treated first and is removed if nothing is left in it.
     */
    method DeleteKeepingInputsOutputs(p: Path)
      requires Valid(entries) && p in entries
      modifies this
      ensures Valid(entries)
      ensures entries == AfterDelete(old(entries), p, RetentionTest(specification, workspace, resolve))
      decreases |Subtree(entries, p)|, 2
    {
      ghost var stop := RetentionTest(specification, workspace, resolve);
      ghost var t := entries;
      if !IsInsideWorkspace(resolve, workspace, p) {
        KeptStep(t, p, stop);
      } else if IsInputOutput(specification, workspace, p) {
        KeptStep(t, p, stop);
      } else if entries[p] == File || entries[p] == Symlink {
        LeafStep(t, p, stop);
        entries := entries - {p};
      } else {
        DeleteChildren(p);
        DirStep(t, p, stop);
        if Children(entries, p) == {} {
          entries := entries - {p};
        }
        AfterDeleteValid(t, p, stop);
      }
    }

    /** The loop over `iterdir()` of a directory. */
    method DeleteChildren(p: Path)
      requires Valid(entries) && p in entries
      modifies this
      ensures Valid(entries)
      ensures entries == Restrict(old(entries), Children(old(entries), p), RetentionTest(specification, workspace, resolve))
      decreases |Subtree(entries, p)|, 1
    {
      ghost var stop := RetentionTest(specification, workspace, resolve);
      ghost var t := entries;
      var children := Children(entries, p);
      ghost var done: set<Path> := {};
      RestrictNone(t, stop);
      while children != {}
        invariant children <= Children(t, p) && done == Children(t, p) - children
        invariant entries == Restrict(t, done, stop)
        decreases |children|
      {
        var child :| child in children;
        DeleteChild(p, t, done, child);
        children := children - {child};
        done := done + {child};
      }
      RestrictValid(t, done, stop);
    }

    /** One turn of that loop: `delete_keeping_inputs_outputs` on one child. */
    method DeleteChild(p: Path, ghost t: Tree, ghost done: set<Path>, child: Path)
      requires Valid(t) && p in t && child in Children(t, p) && done <= Children(t, p) && child !in done
      requires entries == Restrict(t, done, RetentionTest(specification, workspace, resolve))
      modifies this
      ensures entries == Restrict(t, done + {child}, RetentionTest(specification, workspace, resolve))
      decreases |Subtree(t, p)|, 0
    {
      ghost var stop := RetentionTest(specification, workspace, resolve);
      RestrictValid(t, done, stop);
      ChildSubtreeSmaller(t, done, stop, p, child);
      SiblingStep(t, p, done, child, stop);
      DeleteKeepingInputsOutputs(child);
    }

    /** `apply_rule`: each match of the rule's pattern that still exists is deleted in turn. */
    method ApplyRule(matches: seq<Path>)
      requires Valid(entries)
      requires forall i :: 0 <= i < |matches| ==> matches[i] != []
      modifies this
      ensures Valid(entries)
      ensures entries == DeleteEach(old(entries), matches, RetentionTest(specification, workspace, resolve))
    {
      ghost var stop := RetentionTest(specification, workspace, resolve);
      ghost var t := entries;
      for i := 0 to |matches|
        invariant Valid(entries)
        invariant entries == DeleteEach(t, matches[..i], stop)
      {
        var p := matches[i];
        DeleteEachSnoc(t, matches[..i], p, stop);
        assert matches[..i + 1] == matches[..i] + [p];
        if p !in entries {
          MissingStep(entries, p, stop);
          continue;
        }
        DeleteKeepingInputsOutputs(p);
      }
      assert matches[..|matches|] == matches;
    }
  }

  /** A path outside the workspace, once resolved, is never touched by a rule. */
  lemma OutsideNeverTouched(spec: Specification, workspace: Path, resolve: Path -> Path,
                            t: Tree, matches: seq<Path>, q: Path)
    requires q in t && !IsInsideWorkspace(resolve, workspace, q)
    ensures var after := DeleteEach(t, matches, RetentionTest(spec, workspace, resolve));
      q in after && after[q] == t[q]
  {
    DeleteEachKeeps(t, matches, RetentionTest(spec, workspace, resolve), q);
  }

  /** A declared input or output is never deleted by a rule. */
  lemma InputsOutputsNeverDeleted(spec: Specification, workspace: Path, resolve: Path -> Path,
                                  t: Tree, matches: seq<Path>, q: Path)
    requires q in t && IsInputOutput(spec, workspace, q)
    ensures var after := DeleteEach(t, matches, RetentionTest(spec, workspace, resolve));
      q in after && after[q] == t[q]
  {
    DeleteEachKeeps(t, matches, RetentionTest(spec, workspace, resolve), q);
  }

  /** Everything below a declared directory is an input or output in turn. */
  lemma DeclaredDirectorySubtree(spec: Specification, workspace: Path, d: string, p: Path)
    requires d in spec.inputs.directories || d in spec.outputs.directories
    requires IsRelativeTo(p, Concat(workspace, ToPath(d)))
    ensures IsInputOutput(spec, workspace, p)
  {
  }

  /** Everything below a kept path inside a match stays with it. */
  lemma KeptSubtreeStays(spec: Specification, workspace: Path, resolve: Path -> Path,
                         t: Tree, p: Path, r: Path, q: Path)
    requires r in t && Kept(spec, workspace, resolve, r) && p <= r && r <= q && q in t
    ensures q in AfterDelete(t, p, RetentionTest(spec, workspace, resolve))
  {
    BelowKeptSurvives(t, p, RetentionTest(spec, workspace, resolve), r, q);
  }

  /**
   * A file or link inside a match, with nothing kept on the way down to it,
   * is unlinked; a directory there stays exactly when something below it is kept.
   */
  lemma WhatAMatchRemoves(spec: Specification, workspace: Path, resolve: Path -> Path,
                          t: Tree, p: Path, q: Path)
    requires Valid(t) && q in t && p <= q
    requires forall r :: r in t && p <= r && r <= q ==> !Kept(spec, workspace, resolve, r)
    ensures var after := AfterDelete(t, p, RetentionTest(spec, workspace, resolve));
      && (t[q] != Dir ==> q !in after)
      && (q in after <==> exists r :: r in t && q <= r && Kept(spec, workspace, resolve, r))
  {
    var stop := RetentionTest(spec, workspace, resolve);
    LeafHasNothingBelow(t, q);
    if exists r :: r in t && q <= r && Kept(spec, workspace, resolve, r) {
      var r :| r in t && q <= r && Kept(spec, workspace, resolve, r);
      assert Survives(t, p, stop, q);
    }
  }

  /** Names that do not start with `/`: joined to the workspace they stay below it. */
  predicate RelativeNames(names: seq<string>)
  {
    forall f :: f in names ==> f == "" || f[0] != '/'
  }

  lemma JoinedName(workspace: Path, p: Path, f: string)
    requires f == "" || f[0] != '/'
    ensures Concat(workspace, ToPath(f)) == workspace + ToPath(f)
    ensures workspace + p == workspace + ToPath(f) <==> p == ToPath(f)
    ensures IsRelativeTo(workspace + p, workspace + ToPath(f)) <==> IsRelativeTo(p, ToPath(f))
  {
    RelativeName(f);
    if workspace + p == workspace + ToPath(f) {
      assert p == (workspace + p)[|workspace|..];
    }
    if IsRelativeTo(workspace + p, workspace + ToPath(f)) {
      assert ToPath(f) == (workspace + ToPath(f))[|workspace|..];
      assert p[..|ToPath(f)|] == (workspace + p)[|workspace|..|workspace| + |ToPath(f)|];
    }
  }

  lemma DeclaredAgrees(workspace: Path, p: Path, d: Declared)
    requires RelativeNames(d.files) && RelativeNames(d.directories)
    ensures IsDeclaredIn(workspace, workspace + p, d) == IsDeclared(p, d)
  {
    forall f | f in d.files || f in d.directories
      ensures Concat(workspace, ToPath(f)) == workspace + ToPath(f)
      ensures workspace + p == workspace + ToPath(f) <==> p == ToPath(f)
      ensures IsRelativeTo(workspace + p, workspace + ToPath(f)) <==> IsRelativeTo(p, ToPath(f))
    {
      JoinedName(workspace, p, f);
    }
    IsDeclaredFileIff(p, d.files);
    IsUnderDeclaredDirectoryIff(p, d.directories);
  }

  /**
   * For declarations that are relative names, the retention rule and the
   * workspace deleter agree on what is an input or output inside the workspace.
   */
  lemma AgreesWithDeleter(spec: Specification, workspace: Path, p: Path)
    requires RelativeNames(spec.inputs.files) && RelativeNames(spec.inputs.directories)
    requires RelativeNames(spec.outputs.files) && RelativeNames(spec.outputs.directories)
    ensures IsInputOutput(spec, workspace, workspace + p) == IsInputOutputCheck(spec, InputsOutputs, p)
  {
    DeclaredAgrees(workspace, p, spec.inputs);
    DeclaredAgrees(workspace, p, spec.outputs);
  }
}
