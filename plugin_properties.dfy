/** What the edges of a run mean: every edge added comes from a `.go` file of the
    project and a dependency its imports resolve to, every such dependency is added when
    no `go list` throws, and a run fails exactly when one does. */
module PluginProperties {
  import opened Wrappers
  import opened Paths
  import opened Graph
  import opened Roots
  import opened GoList
  import opened Resolution
  import opened Plugin

  /** `target` is one of the projects `getPackageDependencies` returns for `goPackage`. */
  predicate PackageYields(goPackage: string, project: string, index: RootIndex, goList: Oracle, target: string) {
    PackageDependencies(goPackage, project, index, goList).Success?
    && target in PackageDependencies(goPackage, project, index, goList).value
  }

  /** `target` is one of the projects `getFileDependencies` returns for `file`. */
  predicate FileYields(file: string, project: string, index: RootIndex, goList: Oracle, target: string) {
    FileDependencies(file, project, index, goList).Success?
    && target in FileDependencies(file, project, index, goList).value
  }

  /** A yielded project is a project of the graph the index was built from. */
  lemma YieldedIsProject(imports: seq<string>, project: string, nodes: seq<ProjectNode>, target: string)
    requires target in DependenciesFromImports(imports, project, RootIndexOf(nodes))
    ensures exists k :: 0 <= k < |nodes| && nodes[k].name == target
  {
    var index := RootIndexOf(nodes);
    DependenciesMembership(imports, project, index);
    var k :| FoundAt(imports, k, project, index, target);
    var j :| IsFirstMatch(index.roots, RelativePath(imports[k]), j)
      && index.roots[j] in index.lookup && index.lookup[index.roots[j]] == target;
    RootIndexNames(nodes);
  }

  // ---------------------------------------------------------------------------------
  // The packages of one project (lines 60-71)
  // ---------------------------------------------------------------------------------

  /** Every edge is an implicit edge from `project` to a project one of its packages
      yields. */
  lemma {:induction false} PackagesRunSound(project: string, packages: seq<string>, index: RootIndex, goList: Oracle)
    ensures forall e :: e in PackagesRun(project, packages, index, goList).edges ==>
      e.Implicit? && e.source == project && exists p :: p in packages && PackageYields(p, project, index, goList, e.target)
  {
    if packages != [] {
      var init := packages[..|packages| - 1];
      var last := packages[|packages| - 1];
      assert packages == init + [last];
      PackagesRunSound(project, init, index, goList);
      var prev := PackagesRun(project, init, index, goList);
      forall e | e in PackagesRun(project, packages, index, goList).edges
        ensures e.Implicit? && e.source == project && exists p :: p in packages && PackageYields(p, project, index, goList, e.target)
      {
        if e in prev.edges {
          var p :| p in init && PackageYields(p, project, index, goList, e.target);
          assert p in packages;
        } else {
          assert e in ImplicitEdges(project, PackageDependencies(last, project, index, goList).value);
          assert PackageYields(last, project, index, goList, e.target);
        }
      }
    }
  }

  /** When no `go list` throws, every project a package yields gets its edge. */
  lemma {:induction false} PackagesRunComplete(project: string, packages: seq<string>, index: RootIndex, goList: Oracle)
    ensures !PackagesRun(project, packages, index, goList).failed ==>
      forall p, t :: p in packages && PackageYields(p, project, index, goList, t) ==>
        Implicit(project, t) in PackagesRun(project, packages, index, goList).edges
  {
    if packages != [] && !PackagesRun(project, packages, index, goList).failed {
      var init := packages[..|packages| - 1];
      var last := packages[|packages| - 1];
      assert packages == init + [last];
      PackagesRunComplete(project, init, index, goList);
      var prev := PackagesRun(project, init, index, goList);
      var deps := PackageDependencies(last, project, index, goList).value;
      assert PackagesRun(project, packages, index, goList).edges == prev.edges + ImplicitEdges(project, deps);
      forall p, t | p in packages && PackageYields(p, project, index, goList, t)
        ensures Implicit(project, t) in PackagesRun(project, packages, index, goList).edges
      {
        if p == last {
          assert Implicit(project, t) in ImplicitEdges(project, deps);
        } else {
          assert p in init;
        }
      }
    }
  }

  /** The run fails exactly when `go list` throws for one of the packages. */
  lemma {:induction false} PackagesRunFailure(project: string, packages: seq<string>, index: RootIndex, goList: Oracle)
    ensures PackagesRun(project, packages, index, goList).failed <==> exists p :: p in packages && goList(p).Failure?
  {
    if packages != [] {
      var init := packages[..|packages| - 1];
      var last := packages[|packages| - 1];
      assert packages == init + [last];
      PackagesRunFailure(project, init, index, goList);
      assert forall p :: p in packages <==> p in init || p == last;
    }
  }

  // ---------------------------------------------------------------------------------
  // All projects (lines 59-72)
  // ---------------------------------------------------------------------------------

  lemma {:induction false} GroupsRunSound(groups: seq<ProjectPackages>, index: RootIndex, goList: Oracle)
    ensures forall e :: e in GroupsRun(groups, index, goList).edges ==>
      exists g :: g in groups && e in PackagesRun(g.project, g.packages, index, goList).edges
  {
    if groups != [] {
      var init := groups[..|groups| - 1];
      var last := groups[|groups| - 1];
      assert groups == init + [last];
      GroupsRunSound(init, index, goList);
      forall e | e in GroupsRun(groups, index, goList).edges
        ensures exists g :: g in groups && e in PackagesRun(g.project, g.packages, index, goList).edges
      {
        if e in GroupsRun(init, index, goList).edges {
          var g :| g in init && e in PackagesRun(g.project, g.packages, index, goList).edges;
          assert g in groups;
        } else {
          assert last in groups;
        }
      }
    }
  }

  lemma {:induction false} GroupsRunComplete(groups: seq<ProjectPackages>, index: RootIndex, goList: Oracle)
    ensures !GroupsRun(groups, index, goList).failed ==>
      forall g, e :: g in groups && e in PackagesRun(g.project, g.packages, index, goList).edges ==>
        e in GroupsRun(groups, index, goList).edges
  {
    if groups != [] && !GroupsRun(groups, index, goList).failed {
      var init := groups[..|groups| - 1];
      var last := groups[|groups| - 1];
      assert groups == init + [last];
      GroupsRunComplete(init, index, goList);
      forall g, e | g in groups && e in PackagesRun(g.project, g.packages, index, goList).edges
        ensures e in GroupsRun(groups, index, goList).edges
      {
        if g != last {
          assert g in init;
        }
      }
    }
  }

  lemma {:induction false} GroupsRunFailure(groups: seq<ProjectPackages>, index: RootIndex, goList: Oracle)
    ensures GroupsRun(groups, index, goList).failed <==>
      exists g :: g in groups && PackagesRun(g.project, g.packages, index, goList).failed
  {
    if groups != [] {
      var init := groups[..|groups| - 1];
      var last := groups[|groups| - 1];
      assert groups == init + [last];
      GroupsRunFailure(init, index, goList);
      assert forall g :: g in groups <==> g in init || g == last;
    }
  }

  // ---------------------------------------------------------------------------------
  // `buildDependenciesUsingPackages` in terms of the changed files
  // ---------------------------------------------------------------------------------

  /** Every edge is an implicit edge from a project of the context to a project that
      the directory of one of its `.go` files yields; never to itself, never to "". */
  lemma PackageEdgesSound(context: seq<ProjectFiles>, index: RootIndex, goList: Oracle)
    ensures forall e :: e in GroupsRun(GoPackageGroups(context), index, goList).edges ==>
      e.Implicit? && e.target != e.source && e.target != "" && exists k, f ::
        0 <= k < |context| && f in context[k].files && IsGoFile(f) && e.source == context[k].project
        && PackageYields(DirName(f), e.source, index, goList, e.target)
  {
    var groups := GoPackageGroups(context);
    GroupsRunSound(groups, index, goList);
    forall e | e in GroupsRun(groups, index, goList).edges
      ensures e.Implicit? && e.target != e.source && e.target != "" && exists k, f ::
        0 <= k < |context| && f in context[k].files && IsGoFile(f) && e.source == context[k].project
        && PackageYields(DirName(f), e.source, index, goList, e.target)
    {
      var g :| g in groups && e in PackagesRun(g.project, g.packages, index, goList).edges;
      var k :| 0 <= k < |groups| && groups[k] == g;
      PackagesRunSound(g.project, g.packages, index, goList);
      var p :| p in g.packages && PackageYields(p, g.project, index, goList, e.target);
      GoPackagesOfContents(context[k].files);
      var f :| f in context[k].files && IsGoFile(f) && DirName(f) == p;
    }
  }

  /** When no `go list` throws, every project that the directory of a `.go` file of a
      project yields gets its implicit edge from that project. */
  lemma PackageEdgesComplete(context: seq<ProjectFiles>, index: RootIndex, goList: Oracle)
    ensures !GroupsRun(GoPackageGroups(context), index, goList).failed ==>
      forall k, f, t :: (0 <= k < |context| && f in context[k].files && IsGoFile(f)
        && PackageYields(DirName(f), context[k].project, index, goList, t)) ==>
        Implicit(context[k].project, t) in GroupsRun(GoPackageGroups(context), index, goList).edges
  {
    var groups := GoPackageGroups(context);
    if !GroupsRun(groups, index, goList).failed {
      GroupsRunComplete(groups, index, goList);
      GroupsRunFailure(groups, index, goList);
      forall k, f, t | 0 <= k < |context| && f in context[k].files && IsGoFile(f)
        && PackageYields(DirName(f), context[k].project, index, goList, t)
        ensures Implicit(context[k].project, t) in GroupsRun(groups, index, goList).edges
      {
        var g := groups[k];
        assert g in groups;
        GoPackagesOfContents(context[k].files);
        assert DirName(f) in g.packages;
        PackagesRunComplete(g.project, g.packages, index, goList);
      }
    }
  }

  /** The run fails exactly when `go list` throws for the directory of a `.go` file of
      the context. */
  lemma PackageEdgesFailure(context: seq<ProjectFiles>, index: RootIndex, goList: Oracle)
    ensures GroupsRun(GoPackageGroups(context), index, goList).failed <==>
      exists k, f :: 0 <= k < |context| && f in context[k].files && IsGoFile(f) && goList(DirName(f)).Failure?
  {
    var groups := GoPackageGroups(context);
    GroupsRunFailure(groups, index, goList);
    if GroupsRun(groups, index, goList).failed {
      var g :| g in groups && PackagesRun(g.project, g.packages, index, goList).failed;
      var k :| 0 <= k < |groups| && groups[k] == g;
      PackagesRunFailure(g.project, g.packages, index, goList);
      var p :| p in g.packages && goList(p).Failure?;
      GoPackagesOfContents(context[k].files);
      var f :| f in context[k].files && IsGoFile(f) && DirName(f) == p;
    }
    if exists k, f :: 0 <= k < |context| && f in context[k].files && IsGoFile(f) && goList(DirName(f)).Failure? {
      var k, f :| 0 <= k < |context| && f in context[k].files && IsGoFile(f) && goList(DirName(f)).Failure?;
      var g := groups[k];
      assert g in groups;
      GoPackagesOfContents(context[k].files);
      assert DirName(f) in g.packages;
      PackagesRunFailure(g.project, g.packages, index, goList);
    }
  }

  /** `processProjectGraph` only adds edges to projects of the graph. */
  lemma PackageEdgesTargetProjects(graph: ProjectGraph, context: seq<ProjectFiles>, goList: Oracle)
    ensures forall e :: e in GroupsRun(GoPackageGroups(context), RootIndexOf(graph.nodes), goList).edges ==>
      exists k :: 0 <= k < |graph.nodes| && graph.nodes[k].name == e.target
  {
    var index := RootIndexOf(graph.nodes);
    PackageEdgesSound(context, index, goList);
    forall e | e in GroupsRun(GoPackageGroups(context), index, goList).edges
      ensures exists k :: 0 <= k < |graph.nodes| && graph.nodes[k].name == e.target
    {
      var k, f :| 0 <= k < |context| && f in context[k].files && IsGoFile(f) && e.source == context[k].project
        && PackageYields(DirName(f), e.source, index, goList, e.target);
      YieldedIsProject(OrEmpty(goList(DirName(f)).value.imports), e.source, graph.nodes, e.target);
    }
  }

  // ---------------------------------------------------------------------------------
  // `buildDependenciesUsingFiles` (lines 83-99)
  // ---------------------------------------------------------------------------------

  /** Every edge is an explicit edge from `project`, through one of its `.go` files, to a
      project that file yields. */
  lemma {:induction false} FilesRunSound(project: string, files: seq<string>, index: RootIndex, goList: Oracle)
    ensures forall e :: e in FilesRun(project, files, index, goList).edges ==>
      e.Explicit? && e.source == project && e.file in files && IsGoFile(e.file)
      && FileYields(e.file, project, index, goList, e.target)
  {
    if files != [] {
      var init := files[..|files| - 1];
      var last := files[|files| - 1];
      assert files == init + [last];
      FilesRunSound(project, init, index, goList);
      forall e | e in FilesRun(project, files, index, goList).edges
        ensures e.Explicit? && e.source == project && e.file in files && IsGoFile(e.file)
          && FileYields(e.file, project, index, goList, e.target)
      {
        if e in FilesRun(project, init, index, goList).edges {
          assert e.file in init;
        } else {
          assert e in ExplicitEdges(project, last, FileDependencies(last, project, index, goList).value);
        }
      }
    }
  }

  /** The `.go` file `files[i]` and one project it yields. */
  lemma {:induction false} FilesRunCompleteAt(project: string, files: seq<string>, i: nat, t: string,
                                              index: RootIndex, goList: Oracle)
    requires !FilesRun(project, files, index, goList).failed
    requires i < |files| && IsGoFile(files[i]) && FileYields(files[i], project, index, goList, t)
    ensures Explicit(project, files[i], t) in FilesRun(project, files, index, goList).edges
    decreases |files|
  {
    FilesRunStep(project, files, index, goList);
    if i < |files| - 1 {
      var init := files[..|files| - 1];
      assert init[i] == files[i];
      FilesRunCompleteAt(project, init, i, t, index, goList);
    } else {
      var deps := FileDependencies(files[i], project, index, goList).value;
      assert Explicit(project, files[i], t) in ExplicitEdges(project, files[i], deps);
    }
  }

  /** The last file: a run that has not failed kept the edges of the files before it
      and, for a `.go` file, appended one explicit edge per dependency of that file. */
  lemma FilesRunStep(project: string, files: seq<string>, index: RootIndex, goList: Oracle)
    requires files != []
    ensures var prev := FilesRun(project, files[..|files| - 1], index, goList);
      var run := FilesRun(project, files, index, goList);
      var last := files[|files| - 1];
      (!run.failed ==> !prev.failed && forall e :: e in prev.edges ==> e in run.edges)
      && (!run.failed && IsGoFile(last) ==>
            FileDependencies(last, project, index, goList).Success?
            && run.edges == prev.edges + ExplicitEdges(project, last, FileDependencies(last, project, index, goList).value))
  {
  }

  /** When no `go list` throws, every project a `.go` file yields gets its edge. */
  lemma FilesRunComplete(project: string, files: seq<string>, index: RootIndex, goList: Oracle)
    ensures !FilesRun(project, files, index, goList).failed ==>
      forall f, t :: f in files && IsGoFile(f) && FileYields(f, project, index, goList, t) ==>
        Explicit(project, f, t) in FilesRun(project, files, index, goList).edges
  {
    forall f, t | !FilesRun(project, files, index, goList).failed && f in files && IsGoFile(f)
      && FileYields(f, project, index, goList, t)
      ensures Explicit(project, f, t) in FilesRun(project, files, index, goList).edges
    {
      var i :| 0 <= i < |files| && files[i] == f;
      FilesRunCompleteAt(project, files, i, t, index, goList);
    }
  }

  /** The run fails exactly when `go list` throws for one of the `.go` files. */
  lemma {:induction false} FilesRunFailure(project: string, files: seq<string>, index: RootIndex, goList: Oracle)
    ensures FilesRun(project, files, index, goList).failed <==> exists f :: f in files && IsGoFile(f) && goList(f).Failure?
  {
    if files != [] {
      var init := files[..|files| - 1];
      var last := files[|files| - 1];
      assert files == init + [last];
      FilesRunFailure(project, init, index, goList);
      assert forall f :: f in files <==> f in init || f == last;
    }
  }

  /** Every edge is an explicit edge from a project of the context, through one of its
      `.go` files, to a project that file yields; never to itself, never to "". */
  lemma {:induction false} FileEdgesSound(context: seq<ProjectFiles>, index: RootIndex, goList: Oracle)
    ensures forall e :: e in ContextFilesRun(context, index, goList).edges ==>
      e.Explicit? && e.target != e.source && e.target != "" && IsGoFile(e.file) && exists k ::
        0 <= k < |context| && e.source == context[k].project && e.file in context[k].files
        && FileYields(e.file, e.source, index, goList, e.target)
  {
    if context != [] {
      var init := context[..|context| - 1];
      var last := context[|context| - 1];
      FileEdgesSound(init, index, goList);
      FilesRunSound(last.project, last.files, index, goList);
      forall e | e in ContextFilesRun(context, index, goList).edges
        ensures e.Explicit? && e.target != e.source && e.target != "" && IsGoFile(e.file) && exists k ::
          0 <= k < |context| && e.source == context[k].project && e.file in context[k].files
          && FileYields(e.file, e.source, index, goList, e.target)
      {
        if e in ContextFilesRun(init, index, goList).edges {
          var k :| 0 <= k < |init| && e.source == init[k].project && e.file in init[k].files
            && FileYields(e.file, e.source, index, goList, e.target);
          assert context[k] == init[k];
        } else {
          assert context[|context| - 1] == last;
        }
      }
    }
  }

  /** When no `go list` throws, every project a `.go` file of a project yields gets its
      explicit edge from that project through that file. */
  lemma {:induction false} FileEdgesComplete(context: seq<ProjectFiles>, index: RootIndex, goList: Oracle)
    ensures !ContextFilesRun(context, index, goList).failed ==>
      forall k, f, t :: (0 <= k < |context| && f in context[k].files && IsGoFile(f)
        && FileYields(f, context[k].project, index, goList, t)) ==>
        Explicit(context[k].project, f, t) in ContextFilesRun(context, index, goList).edges
  {
    if context != [] && !ContextFilesRun(context, index, goList).failed {
      var init := context[..|context| - 1];
      var last := context[|context| - 1];
      FileEdgesComplete(init, index, goList);
      FilesRunComplete(last.project, last.files, index, goList);
      assert !ContextFilesRun(init, index, goList).failed;
      assert ContextFilesRun(context, index, goList).edges
          == ContextFilesRun(init, index, goList).edges + FilesRun(last.project, last.files, index, goList).edges;
      forall k, f, t | 0 <= k < |context| && f in context[k].files && IsGoFile(f)
        && FileYields(f, context[k].project, index, goList, t)
        ensures Explicit(context[k].project, f, t) in ContextFilesRun(context, index, goList).edges
      {
        if k < |init| {
          assert context[k] == init[k];
        } else {
          assert context[k] == last;
        }
      }
    }
  }

  /** The run fails exactly when `go list` throws for a `.go` file of the context. */
  lemma {:induction false} FileEdgesFailure(context: seq<ProjectFiles>, index: RootIndex, goList: Oracle)
    ensures ContextFilesRun(context, index, goList).failed <==>
      exists k, f :: 0 <= k < |context| && f in context[k].files && IsGoFile(f) && goList(f).Failure?
  {
    if context != [] {
      var init := context[..|context| - 1];
      var last := context[|context| - 1];
      FileEdgesFailure(init, index, goList);
      FilesRunFailure(last.project, last.files, index, goList);
      if ContextFilesRun(init, index, goList).failed {
        var k, f :| 0 <= k < |init| && f in init[k].files && IsGoFile(f) && goList(f).Failure?;
        assert init[k] == context[k];
      } else if FilesRun(last.project, last.files, index, goList).failed {
        var f :| f in last.files && IsGoFile(f) && goList(f).Failure?;
        assert context[|context| - 1] == last;
      } else {
        forall k, f | 0 <= k < |context| && f in context[k].files && IsGoFile(f)
          ensures !goList(f).Failure?
        {
          if k < |init| {
            assert init[k] == context[k];
          } else {
            assert k == |context| - 1;
          }
        }
      }
    }
  }
}
