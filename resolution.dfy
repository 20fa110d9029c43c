/** `getDependenciesFromImports`: from a list of Go import paths to the workspace
    projects they belong to. */
module Resolution {
  import opened Wrappers
  import opened Strings
  import opened OrderedSets
  import opened Roots

  /** The import-path prefix of the workspace's own packages. */
  const WorkspaceModuleRoot: string := "getmega.com"

  /** `i.substring(WorkspaceModuleRoot.length + 1)`: drops the first twelve characters,
      whatever the twelfth is; "" when there are no more. */
  function RelativePath(i: string): (rel: string)
    ensures |i| > |WorkspaceModuleRoot| ==> i == i[..|WorkspaceModuleRoot| + 1] + rel
    ensures |i| <= |WorkspaceModuleRoot| + 1 ==> rel == ""
  {
    if |i| > |WorkspaceModuleRoot| then i[|WorkspaceModuleRoot| + 1..] else ""
  }

  /** `roots[k]` is the first root in list order that `rel` starts with. */
  predicate IsFirstMatch(roots: seq<string>, rel: string, k: int) {
    0 <= k < |roots| && StartsWith(rel, roots[k]) && forall j :: 0 <= j < k ==> !StartsWith(rel, roots[j])
  }

  /** Where `projectRoots.find(r => rel.startsWith(r))` stops: the index of the first
      matching root, or -1 when no root matches. */
  function FindRootIndex(roots: seq<string>, rel: string): (k: int)
    ensures -1 <= k < |roots|
    ensures 0 <= k ==> IsFirstMatch(roots, rel, k)
    ensures k < 0 ==> forall j :: 0 <= j < |roots| ==> !StartsWith(rel, roots[j])
  {
    if |roots| == 0 then -1
    else if StartsWith(rel, roots[0]) then 0
    else
      var k := FindRootIndex(roots[1..], rel);
      if k < 0 then -1 else k + 1
  }

  /** The project one import contributes, if any: the import must start with the module
      root; the first root that the rest of it starts with names the project; a missing
      or empty name, and the importing project itself, contribute nothing. */
  function ResolveImport(i: string, selfProject: string, index: RootIndex): (r: Option<string>)
    ensures !StartsWith(i, WorkspaceModuleRoot) ==> r.None?
    ensures r.Some? ==> r.value != "" && r.value != selfProject
    ensures r.Some? ==> exists k ::
      IsFirstMatch(index.roots, RelativePath(i), k) && index.roots[k] in index.lookup && index.lookup[index.roots[k]] == r.value
  {
    if !StartsWith(i, WorkspaceModuleRoot) then None
    else
      var k := FindRootIndex(index.roots, RelativePath(i));
      if k < 0 || index.roots[k] !in index.lookup then None
      else
        var name := index.lookup[index.roots[k]];
        if name != "" && name != selfProject then Some(name) else None
  }

  /** A kept import resolves through its first matching root, both ways: it yields a
      name exactly when that root maps to a non-empty name other than the importing
      project, and then it yields that name; with no matching root it yields nothing. */
  lemma ResolveImportFirstMatch(i: string, selfProject: string, index: RootIndex)
    ensures StartsWith(i, WorkspaceModuleRoot) ==> forall k :: IsFirstMatch(index.roots, RelativePath(i), k) ==>
      var name := ResolveImport(i, selfProject, index);
      (name.Some? <==> index.roots[k] in index.lookup && index.lookup[index.roots[k]] != ""
                       && index.lookup[index.roots[k]] != selfProject)
      && (name.Some? ==> name.value == index.lookup[index.roots[k]])
    ensures (forall k :: 0 <= k < |index.roots| ==> !StartsWith(RelativePath(i), index.roots[k])) ==>
      ResolveImport(i, selfProject, index).None?
  {
    var rel := RelativePath(i);
    forall k | IsFirstMatch(index.roots, rel, k)
      ensures FindRootIndex(index.roots, rel) == k
    {
    }
  }

  /** The dependencies found in `imports`, in the order each was first found. */
  function DependenciesFromImports(imports: seq<string>, selfProject: string, index: RootIndex): (deps: seq<string>)
    ensures Distinct(deps)
    ensures selfProject !in deps && "" !in deps
  {
    if imports == [] then []
    else
      var prev := DependenciesFromImports(imports[..|imports| - 1], selfProject, index);
      match ResolveImport(imports[|imports| - 1], selfProject, index)
      case None => prev
      case Some(name) => Add(prev, name)
  }

  /** `getDependenciesFromImports` (lines 148-164). */
  method GetDependenciesFromImports(imports: seq<string>, selfProject: string, index: RootIndex)
    returns (deps: seq<string>)
    ensures deps == DependenciesFromImports(imports, selfProject, index)
  {
    var dependentProjects: seq<string> := [];
    for n := 0 to |imports|
      invariant dependentProjects == DependenciesFromImports(imports[..n], selfProject, index)
    {
      assert imports[..n + 1][..n] == imports[..n];
      var i := imports[n];
      if !StartsWith(i, WorkspaceModuleRoot) {
        continue;
      }
      var rootDir := RelativePath(i);
      var k := FindRootIndex(index.roots, rootDir);
      if 0 <= k && index.roots[k] in index.lookup {
        var projectName := index.lookup[index.roots[k]];
        if projectName != "" && projectName != selfProject {
          dependentProjects := Add(dependentProjects, projectName);
        }
      }
    }
    assert imports[..|imports|] == imports;
    deps := dependentProjects;
  }

  /** `imports[k]` resolves to `name`. */
  predicate FoundAt(imports: seq<string>, k: int, selfProject: string, index: RootIndex, name: string) {
    0 <= k < |imports| && ResolveImport(imports[k], selfProject, index) == Some(name)
  }

  /** Resolution depends only on the import itself, not on the imports beside it. */
  lemma FoundAtPrefix(imports: seq<string>, m: nat, selfProject: string, index: RootIndex)
    requires m <= |imports|
    ensures forall k, name :: 0 <= k < m ==>
      (FoundAt(imports[..m], k, selfProject, index, name) <==> FoundAt(imports, k, selfProject, index, name))
  {
  }

  /** Whatever an import resolves to is among the dependencies. */
  lemma {:induction false} FoundIsDependency(imports: seq<string>, k: int, selfProject: string, index: RootIndex, name: string)
    ensures FoundAt(imports, k, selfProject, index, name) ==> name in DependenciesFromImports(imports, selfProject, index)
  {
    if FoundAt(imports, k, selfProject, index, name) {
      var init := imports[..|imports| - 1];
      if k < |init| {
        assert FoundAt(init, k, selfProject, index, name);
        FoundIsDependency(init, k, selfProject, index, name);
      }
    }
  }

  /** Every dependency was found at some import; `k` is the first such import. */
  lemma {:induction false} DependencyFound(imports: seq<string>, selfProject: string, index: RootIndex, name: string)
    returns (k: int)
    requires name in DependenciesFromImports(imports, selfProject, index)
    ensures FoundAt(imports, k, selfProject, index, name)
    ensures forall j :: 0 <= j < k ==> !FoundAt(imports, j, selfProject, index, name)
  {
    var init := imports[..|imports| - 1];
    if name in DependenciesFromImports(init, selfProject, index) {
      k := DependencyFound(init, selfProject, index, name);
      assert init[k] == imports[k];
      forall j | 0 <= j < k
        ensures !FoundAt(imports, j, selfProject, index, name)
      {
        assert !FoundAt(init, j, selfProject, index, name);
        assert init[j] == imports[j];
      }
    } else {
      k := NewDependencyFoundLast(imports, selfProject, index, name);
    }
  }

  /** A dependency that the imports before the last do not yield is first found at the
      last import. */
  lemma NewDependencyFoundLast(imports: seq<string>, selfProject: string, index: RootIndex, name: string)
    returns (k: int)
    requires imports != []
    requires name in DependenciesFromImports(imports, selfProject, index)
    requires name !in DependenciesFromImports(imports[..|imports| - 1], selfProject, index)
    ensures k == |imports| - 1
    ensures FoundAt(imports, k, selfProject, index, name)
    ensures forall j :: 0 <= j < k ==> !FoundAt(imports, j, selfProject, index, name)
  {
    var init := imports[..|imports| - 1];
    k := |init|;
    forall j | 0 <= j < |init|
      ensures !FoundAt(imports, j, selfProject, index, name)
    {
      FoundIsDependency(init, j, selfProject, index, name);
      assert init[j] == imports[j];
    }
  }

  /** A name is a dependency exactly when some import resolves to it. */
  lemma DependenciesMembership(imports: seq<string>, selfProject: string, index: RootIndex)
    ensures forall name :: name in DependenciesFromImports(imports, selfProject, index) <==>
      exists k :: FoundAt(imports, k, selfProject, index, name)
  {
    forall name
      ensures name in DependenciesFromImports(imports, selfProject, index) <==>
        exists k :: FoundAt(imports, k, selfProject, index, name)
    {
      if name in DependenciesFromImports(imports, selfProject, index) {
        var k := DependencyFound(imports, selfProject, index, name);
      }
      if exists k :: FoundAt(imports, k, selfProject, index, name) {
        var k :| FoundAt(imports, k, selfProject, index, name);
        FoundIsDependency(imports, k, selfProject, index, name);
      }
    }
  }

  /** Every dependency is the name the lookup gives a root of the list that some import
      under the module root starts with, once the module root and one more character
      are dropped. */
  lemma DependenciesAreLookupNames(imports: seq<string>, selfProject: string, index: RootIndex)
    ensures forall name :: name in DependenciesFromImports(imports, selfProject, index) ==>
      exists k, j :: (0 <= k < |imports| && StartsWith(imports[k], WorkspaceModuleRoot)
        && 0 <= j < |index.roots| && StartsWith(RelativePath(imports[k]), index.roots[j])
        && index.roots[j] in index.lookup && index.lookup[index.roots[j]] == name)
  {
    DependenciesMembership(imports, selfProject, index);
    forall name | name in DependenciesFromImports(imports, selfProject, index)
      ensures exists k, j :: (0 <= k < |imports| && StartsWith(imports[k], WorkspaceModuleRoot)
        && 0 <= j < |index.roots| && StartsWith(RelativePath(imports[k]), index.roots[j])
        && index.roots[j] in index.lookup && index.lookup[index.roots[j]] == name)
    {
      var k :| FoundAt(imports, k, selfProject, index, name);
      var j :| IsFirstMatch(index.roots, RelativePath(imports[k]), j)
        && index.roots[j] in index.lookup && index.lookup[index.roots[j]] == name;
    }
  }

  /** The dependencies come out in the order in which they were first found: an earlier
      one was found at an import before any import that yields a later one. */
  lemma {:induction false} DependenciesFirstFoundOrder(imports: seq<string>, selfProject: string, index: RootIndex)
    ensures forall a, b :: 0 <= a < b < |DependenciesFromImports(imports, selfProject, index)| ==>
      FoundBefore(imports, selfProject, index, DependenciesFromImports(imports, selfProject, index)[a],
                  DependenciesFromImports(imports, selfProject, index)[b])
  {
    if imports != [] {
      var init := imports[..|imports| - 1];
      var prev := DependenciesFromImports(init, selfProject, index);
      var deps := DependenciesFromImports(imports, selfProject, index);
      assert imports == init + [imports[|imports| - 1]];
      DependenciesAppend(init, imports[|imports| - 1], selfProject, index);
      DependenciesFirstFoundOrder(init, selfProject, index);
      DependenciesMembership(init, selfProject, index);
      FoundAtPrefix(imports, |init|, selfProject, index);
      assert |prev| <= |deps| && deps[..|prev|] == prev;
      forall a, b | 0 <= a < b < |deps|
        ensures FoundBefore(imports, selfProject, index, deps[a], deps[b])
      {
        assert deps[a] == prev[a] && prev[a] in prev;
        if b < |prev| {
          assert deps[b] == prev[b];
          assert FoundBefore(init, selfProject, index, prev[a], prev[b]);
          var k :| FoundAt(init, k, selfProject, index, prev[a])
            && forall j :: 0 <= j <= k ==> !FoundAt(init, j, selfProject, index, prev[b]);
          assert FoundAt(imports, k, selfProject, index, deps[a]);
        } else {
          assert deps[b] !in prev;
          var k :| FoundAt(init, k, selfProject, index, prev[a]);
          assert FoundAt(imports, k, selfProject, index, deps[a]);
        }
      }
    }
  }

  /** `first` is found at some import before any import where `second` is found. */
  ghost predicate FoundBefore(imports: seq<string>, selfProject: string, index: RootIndex, first: string, second: string) {
    exists k :: FoundAt(imports, k, selfProject, index, first)
      && forall j :: 0 <= j <= k ==> !FoundAt(imports, j, selfProject, index, second)
  }

  /** One more import: the dependencies grow by what it resolves to, if anything. */
  lemma DependenciesAppend(imports: seq<string>, i: string, selfProject: string, index: RootIndex)
    ensures DependenciesFromImports(imports + [i], selfProject, index) ==
      match ResolveImport(i, selfProject, index)
      case None => DependenciesFromImports(imports, selfProject, index)
      case Some(name) => Add(DependenciesFromImports(imports, selfProject, index), name)
  {
    assert (imports + [i])[..|imports|] == imports;
  }

  /** An import that resolves to nothing can be removed from anywhere in the list
      without changing the result. */
  lemma {:induction false} UnresolvedImportContributesNothing(
    before: seq<string>, i: string, after: seq<string>, selfProject: string, index: RootIndex)
    requires ResolveImport(i, selfProject, index).None?
    ensures DependenciesFromImports(before + [i] + after, selfProject, index)
         == DependenciesFromImports(before + after, selfProject, index)
    decreases |after|
  {
    if after == [] {
      assert before + [i] + after == before + [i];
      assert before + after == before;
      DependenciesAppend(before, i, selfProject, index);
    } else {
      var after' := after[..|after| - 1];
      var x := after[|after| - 1];
      UnresolvedImportContributesNothing(before, i, after', selfProject, index);
      assert before + [i] + after == (before + [i] + after') + [x];
      assert before + after == (before + after') + [x];
      DependenciesAppend(before + [i] + after', x, selfProject, index);
      DependenciesAppend(before + after', x, selfProject, index);
    }
  }

  /** An import outside the module root contributes nothing. */
  lemma ExternalImportContributesNothing(
    before: seq<string>, i: string, after: seq<string>, selfProject: string, index: RootIndex)
    requires !StartsWith(i, WorkspaceModuleRoot)
    ensures DependenciesFromImports(before + [i] + after, selfProject, index)
         == DependenciesFromImports(before + after, selfProject, index)
  {
    UnresolvedImportContributesNothing(before, i, after, selfProject, index);
  }

  /** `roots` is listed from the longest root to the shortest. */
  predicate SortedByDescendingLength(roots: seq<string>) {
    forall a, b :: 0 <= a < b < |roots| ==> |roots[a]| >= |roots[b]|
  }

  /** `roots[k]` is a longest root that `rel` starts with. */
  predicate IsLongestMatch(roots: seq<string>, rel: string, k: int) {
    0 <= k < |roots| && StartsWith(rel, roots[k])
    && forall j :: 0 <= j < |roots| && StartsWith(rel, roots[j]) ==> |roots[j]| <= |roots[k]|
  }

  /** With the roots sorted by descending length, the first match is the longest match,
      and every longest match is the same root string. */
  lemma FirstMatchIsLongestWhenSorted(roots: seq<string>, rel: string)
    requires SortedByDescendingLength(roots)
    ensures 0 <= FindRootIndex(roots, rel) ==> IsLongestMatch(roots, rel, FindRootIndex(roots, rel))
    ensures forall k :: IsLongestMatch(roots, rel, k) ==> roots[k] == roots[FindRootIndex(roots, rel)]
  {
    var first := FindRootIndex(roots, rel);
    forall k | IsLongestMatch(roots, rel, k)
      ensures roots[k] == roots[first]
    {
      assert 0 <= first;
      SamePrefixLength(rel, roots[k], roots[first]);
    }
  }

  /** First match is not longest match: with "pkg/a" listed before "pkg/a/b", an import
      under "pkg/a/b" resolves to the project of "pkg/a". */
  lemma FirstMatchNotLongest()
    ensures var index := RootIndex(["pkg/a", "pkg/a/b"], map["pkg/a" := "a", "pkg/a/b" := "b"]);
      ResolveImport("getmega.com/pkg/a/b/sub", "app", index) == Some("a")
  {
    var index := RootIndex(["pkg/a", "pkg/a/b"], map["pkg/a" := "a", "pkg/a/b" := "b"]);
    assert StartsWith("getmega.com/pkg/a/b/sub", WorkspaceModuleRoot);
    var rel := RelativePath("getmega.com/pkg/a/b/sub");
    assert rel == "pkg/a/b/sub";
    assert StartsWith(rel, "pkg/a");
    assert FindRootIndex(index.roots, rel) == 0;
  }

  /** There is no path-segment boundary check: root "foo" takes "foobar", and the
      character after the module root is dropped whatever it is. */
  lemma NoSegmentBoundary()
    ensures var index := RootIndex(["foo"], map["foo" := "foo-project"]);
      && ResolveImport("getmega.com/foobar", "app", index) == Some("foo-project")
      && ResolveImport("getmega.comXfoo", "app", index) == Some("foo-project")
  {
    assert RelativePath("getmega.com/foobar") == "foobar";
    assert StartsWith("foobar", "foo");
    assert RelativePath("getmega.comXfoo") == "foo";
  }

  /** A file of libA importing a package of libB, one of its own and an external one
      depends on libB alone. */
  lemma ScenarioDependencies()
    ensures var index := RootIndex(["packages/libA", "packages/libB"],
                                   map["packages/libA" := "libA", "packages/libB" := "libB"]);
      DependenciesFromImports(["getmega.com/packages/libB/sub", "getmega.com/packages/libA/util",
                               "github.com/external/pkg"], "libA", index) == ["libB"]
  {
    var index := RootIndex(["packages/libA", "packages/libB"],
                           map["packages/libA" := "libA", "packages/libB" := "libB"]);
    var imports := ["getmega.com/packages/libB/sub", "getmega.com/packages/libA/util", "github.com/external/pkg"];
    assert RelativePath(imports[0]) == "packages/libB/sub";
    assert "packages/libB/sub"[12] != "packages/libA"[12];
    assert !StartsWith("packages/libB/sub", "packages/libA");
    assert StartsWith("packages/libB/sub", "packages/libB");
    assert ResolveImport(imports[0], "libA", index) == Some("libB");
    assert RelativePath(imports[1]) == "packages/libA/util";
    assert StartsWith("packages/libA/util", "packages/libA");
    assert ResolveImport(imports[1], "libA", index) == None;
    assert imports[2][1] != WorkspaceModuleRoot[1];
    assert !StartsWith(imports[2], WorkspaceModuleRoot);
    var one, two := imports[..1], imports[..2];
    assert one[..0] == [];
    assert DependenciesFromImports(one, "libA", index) == ["libB"];
    assert two[..1] == one;
    assert DependenciesFromImports(two, "libA", index) == ["libB"];
    assert imports[..2] == two;
  }
}
