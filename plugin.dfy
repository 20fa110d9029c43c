/** The project-graph plugin: group the changed files, ask `go list` for their imports,
    resolve the imports to projects and add one edge per dependency. */
module Plugin {
  import opened Wrappers
  import opened Paths
  import opened OrderedSets
  import opened Graph
  import opened Roots
  import opened GoList
  import opened Resolution

  /** One entry of `context.filesToProcess`: a project and the paths of its changed files. */
  datatype ProjectFiles = ProjectFiles(project: string, files: seq<string>)

  /** One entry of the `goPackages` object: a project and its package directories. */
  datatype ProjectPackages = ProjectPackages(project: string, packages: seq<string>)

  /** The edges a run added, and whether it stopped on a `go list` that threw. */
  datatype Run = Run(edges: seq<Edge>, failed: bool)

  predicate IsGoFile(file: string) {
    ExtName(file) == ".go"
  }

  // ---------------------------------------------------------------------------------
  // Grouping the changed files by package directory (lines 42-56)
  // ---------------------------------------------------------------------------------

  /** The set of package directories of `files`, in insertion order: the `dirname` of
      each `.go` file. */
  function GoPackagesOf(files: seq<string>): (packages: seq<string>)
    ensures Distinct(packages)
  {
    if files == [] then []
    else
      var prev := GoPackagesOf(files[..|files| - 1]);
      var f := files[|files| - 1];
      if IsGoFile(f) then Add(prev, DirName(f)) else prev
  }

  /** A directory is in the set exactly when it is the `dirname` of one of the `.go`
      files; other files are ignored. */
  lemma {:induction false} GoPackagesOfContents(files: seq<string>)
    ensures forall d :: d in GoPackagesOf(files) <==> exists f :: f in files && IsGoFile(f) && DirName(f) == d
  {
    if files != [] {
      var init := files[..|files| - 1];
      GoPackagesOfContents(init);
      assert forall f :: f in files <==> f in init || f == files[|files| - 1];
    }
  }

  /** The `goPackages` object: one entry per project of `context`, in the same order. */
  function GoPackageGroups(context: seq<ProjectFiles>): (groups: seq<ProjectPackages>)
    ensures |groups| == |context|
    ensures forall k :: 0 <= k < |context| ==>
      groups[k] == ProjectPackages(context[k].project, GoPackagesOf(context[k].files))
  {
    if context == [] then []
    else
      var init, last := context[..|context| - 1], context[|context| - 1];
      assert forall k :: 0 <= k < |init| ==> init[k] == context[k];
      GoPackageGroups(init) + [ProjectPackages(last.project, GoPackagesOf(last.files))]
  }

  /** Lines 42-56 of `buildDependenciesUsingPackages`. */
  method GroupGoPackages(filesToProcess: seq<ProjectFiles>) returns (goPackages: seq<ProjectPackages>)
    ensures goPackages == GoPackageGroups(filesToProcess)
  {
    goPackages := [];
    for k := 0 to |filesToProcess|
      invariant goPackages == GoPackageGroups(filesToProcess[..k])
    {
      assert filesToProcess[..k + 1][..k] == filesToProcess[..k];
      var packages := CollectGoPackages(filesToProcess[k].files);
      goPackages := goPackages + [ProjectPackages(filesToProcess[k].project, packages)];
    }
    assert filesToProcess[..|filesToProcess|] == filesToProcess;
  }

  /** Lines 48-55: add the `dirname` of every `.go` file to the project's set. */
  method CollectGoPackages(files: seq<string>) returns (packages: seq<string>)
    ensures packages == GoPackagesOf(files)
  {
    packages := [];
    for n := 0 to |files|
      invariant packages == GoPackagesOf(files[..n])
    {
      assert files[..n + 1][..n] == files[..n];
      if !IsGoFile(files[n]) {
        continue;
      }
      packages := Add(packages, DirName(files[n]));
    }
    assert files[..|files|] == files;
  }

  // ---------------------------------------------------------------------------------
  // Dependencies of a package and of a file (lines 174-190)
  // ---------------------------------------------------------------------------------

  /** `getPackageDependencies`: Failure when `go list` throws, else the projects the
      package's production imports resolve to. */
  function PackageDependencies(goPackage: string, selfProject: string, index: RootIndex, goList: Oracle)
    : (r: Result<seq<string>>)
    ensures r.Failure? <==> goList(goPackage).Failure?
    ensures r.Success? ==> r.value == DependenciesFromImports(OrEmpty(goList(goPackage).value.imports), selfProject, index)
  {
    match ImportsOfPackage(goList, goPackage)
    case Failure => Failure
    case Success(imports) => Success(DependenciesFromImports(imports, selfProject, index))
  }

  method GetPackageDependencies(goPackage: string, selfProject: string, index: RootIndex, goList: Oracle)
    returns (r: Result<seq<string>>)
    ensures r == PackageDependencies(goPackage, selfProject, index, goList)
  {
    var imports := ImportsOfPackage(goList, goPackage);
    if imports.Failure? {
      return Failure;
    }
    var deps := GetDependenciesFromImports(imports.value, selfProject, index);
    return Success(deps);
  }

  /** `getFileDependencies`: Failure when `go list` throws, else the projects the file's
      imports resolve to, its test imports when it is a test file. */
  function FileDependencies(file: string, selfProject: string, index: RootIndex, goList: Oracle)
    : (r: Result<seq<string>>)
    ensures r.Failure? <==> goList(file).Failure?
    ensures r.Success? && IsTestFile(file) ==>
      r.value == DependenciesFromImports(OrEmpty(goList(file).value.testImports), selfProject, index)
    ensures r.Success? && !IsTestFile(file) ==>
      r.value == DependenciesFromImports(OrEmpty(goList(file).value.imports), selfProject, index)
  {
    match ImportsOfFile(goList, file)
    case Failure => Failure
    case Success(imports) => Success(DependenciesFromImports(imports, selfProject, index))
  }

  method GetFileDependencies(file: string, selfProject: string, index: RootIndex, goList: Oracle)
    returns (r: Result<seq<string>>)
    ensures r == FileDependencies(file, selfProject, index, goList)
  {
    var imports := ImportsOfFile(goList, file);
    if imports.Failure? {
      return Failure;
    }
    var deps := GetDependenciesFromImports(imports.value, selfProject, index);
    return Success(deps);
  }

  // ---------------------------------------------------------------------------------
  // Edges, and what a run adds
  // ---------------------------------------------------------------------------------

  /** One implicit edge from `project` per dependency, in order. */
  function ImplicitEdges(project: string, deps: seq<string>): (edges: seq<Edge>)
    ensures forall e :: e in edges <==> e.Implicit? && e.source == project && e.target in deps
  {
    if deps == [] then []
    else ImplicitEdges(project, deps[..|deps| - 1]) + [Implicit(project, deps[|deps| - 1])]
  }

  /** The dependencies of one package are distinct, so the edges added for it are too.
      Nothing removes duplicates across packages or files: two packages of a project
      that depend on the same project each add the same edge. */
  lemma {:induction false} ImplicitEdgesDistinct(project: string, deps: seq<string>)
    requires Distinct(deps)
    ensures Distinct(ImplicitEdges(project, deps))
    ensures |ImplicitEdges(project, deps)| == |deps|
  {
    if deps != [] {
      var init := deps[..|deps| - 1];
      ImplicitEdgesDistinct(project, init);
      assert deps[|deps| - 1] !in init;
    }
  }

  /** One explicit edge from `file` of `project` per dependency, in order. */
  function ExplicitEdges(project: string, file: string, deps: seq<string>): (edges: seq<Edge>)
    ensures forall e :: e in edges <==> e.Explicit? && e.source == project && e.file == file && e.target in deps
  {
    if deps == [] then []
    else ExplicitEdges(project, file, deps[..|deps| - 1]) + [Explicit(project, file, deps[|deps| - 1])]
  }

  /** The edges lines 61-71 add for the packages of one project, stopping at the first
      package whose `go list` throws. */
  function PackagesRun(project: string, packages: seq<string>, index: RootIndex, goList: Oracle): Run
  {
    if packages == [] then Run([], false)
    else
      var prev := PackagesRun(project, packages[..|packages| - 1], index, goList);
      if prev.failed then prev
      else
        match PackageDependencies(packages[|packages| - 1], project, index, goList)
        case Failure => Run(prev.edges, true)
        case Success(deps) => Run(prev.edges + ImplicitEdges(project, deps), false)
  }

  /** The edges lines 59-72 add for all projects, stopping at the first failure. */
  function GroupsRun(groups: seq<ProjectPackages>, index: RootIndex, goList: Oracle): Run
  {
    if groups == [] then Run([], false)
    else
      var prev := GroupsRun(groups[..|groups| - 1], index, goList);
      if prev.failed then prev
      else
        var last := groups[|groups| - 1];
        var run := PackagesRun(last.project, last.packages, index, goList);
        Run(prev.edges + run.edges, run.failed)
  }

  /** The edges lines 83-99 add for the files of one project, stopping at the first file
      whose `go list` throws. */
  function FilesRun(project: string, files: seq<string>, index: RootIndex, goList: Oracle): Run
  {
    if files == [] then Run([], false)
    else
      var prev := FilesRun(project, files[..|files| - 1], index, goList);
      var file := files[|files| - 1];
      if prev.failed || !IsGoFile(file) then prev
      else
        match FileDependencies(file, project, index, goList)
        case Failure => Run(prev.edges, true)
        case Success(deps) => Run(prev.edges + ExplicitEdges(project, file, deps), false)
  }

  /** The edges `buildDependenciesUsingFiles` adds for all projects. */
  function ContextFilesRun(context: seq<ProjectFiles>, index: RootIndex, goList: Oracle): Run
  {
    if context == [] then Run([], false)
    else
      var prev := ContextFilesRun(context[..|context| - 1], index, goList);
      if prev.failed then prev
      else
        var last := context[|context| - 1];
        var run := FilesRun(last.project, last.files, index, goList);
        Run(prev.edges + run.edges, run.failed)
  }

  /** Once a run has thrown, the later items change nothing. */
  lemma {:induction false} PackagesRunFailedPrefix(project: string, packages: seq<string>, m: nat, index: RootIndex, goList: Oracle)
    requires m <= |packages|
    requires PackagesRun(project, packages[..m], index, goList).failed
    ensures PackagesRun(project, packages, index, goList) == PackagesRun(project, packages[..m], index, goList)
    decreases |packages| - m
  {
    if m < |packages| {
      var init := packages[..|packages| - 1];
      assert init[..m] == packages[..m];
      PackagesRunFailedPrefix(project, init, m, index, goList);
    } else {
      assert packages[..m] == packages;
    }
  }

  lemma {:induction false} GroupsRunFailedPrefix(groups: seq<ProjectPackages>, m: nat, index: RootIndex, goList: Oracle)
    requires m <= |groups|
    requires GroupsRun(groups[..m], index, goList).failed
    ensures GroupsRun(groups, index, goList) == GroupsRun(groups[..m], index, goList)
    decreases |groups| - m
  {
    if m < |groups| {
      var init := groups[..|groups| - 1];
      assert init[..m] == groups[..m];
      GroupsRunFailedPrefix(init, m, index, goList);
    } else {
      assert groups[..m] == groups;
    }
  }

  lemma {:induction false} FilesRunFailedPrefix(project: string, files: seq<string>, m: nat, index: RootIndex, goList: Oracle)
    requires m <= |files|
    requires FilesRun(project, files[..m], index, goList).failed
    ensures FilesRun(project, files, index, goList) == FilesRun(project, files[..m], index, goList)
    decreases |files| - m
  {
    if m < |files| {
      var init := files[..|files| - 1];
      assert init[..m] == files[..m];
      FilesRunFailedPrefix(project, init, m, index, goList);
    } else {
      assert files[..m] == files;
    }
  }

  lemma {:induction false} ContextFilesRunFailedPrefix(context: seq<ProjectFiles>, m: nat, index: RootIndex, goList: Oracle)
    requires m <= |context|
    requires ContextFilesRun(context[..m], index, goList).failed
    ensures ContextFilesRun(context, index, goList) == ContextFilesRun(context[..m], index, goList)
    decreases |context| - m
  {
    if m < |context| {
      var init := context[..|context| - 1];
      assert init[..m] == context[..m];
      ContextFilesRunFailedPrefix(init, m, index, goList);
    } else {
      assert context[..m] == context;
    }
  }

  /** The edge log grows by appending: `(a + b) + c == a + (b + c)`. */
  lemma AppendAssoc<T>(a: seq<T>, b: seq<T>, c: seq<T>)
    ensures (a + b) + c == a + (b + c)
  {
  }

  // ---------------------------------------------------------------------------------
  // The builders (lines 19-31, 39-73, 81-100)
  // ---------------------------------------------------------------------------------

  /** `buildDependenciesUsingPackages`: returns false when a `go list` threw. The
      exception ends the whole run, so the loops stop at the first failure. */
  method BuildDependenciesUsingPackages(context: seq<ProjectFiles>, builder: ProjectGraphBuilder, index: RootIndex, goList: Oracle)
    returns (ok: bool)
    modifies builder
    ensures builder.nodes == old(builder.nodes)
    ensures builder.edges == old(builder.edges) + GroupsRun(GoPackageGroups(context), index, goList).edges
    ensures ok == !GroupsRun(GoPackageGroups(context), index, goList).failed
  {
    var goPackages := GroupGoPackages(context);
    ok := true;
    var k := 0;
    while k < |goPackages| && ok
      invariant 0 <= k <= |goPackages|
      invariant builder.nodes == old(builder.nodes)
      invariant builder.edges == old(builder.edges) + GroupsRun(goPackages[..k], index, goList).edges
      invariant ok == !GroupsRun(goPackages[..k], index, goList).failed
    {
      assert goPackages[..k + 1][..k] == goPackages[..k];
      ghost var prev := GroupsRun(goPackages[..k], index, goList).edges;
      ok := AddPackageDependencies(builder, goPackages[k].project, goPackages[k].packages, index, goList);
      AppendAssoc(old(builder.edges), prev, PackagesRun(goPackages[k].project, goPackages[k].packages, index, goList).edges);
      k := k + 1;
    }
    if ok {
      assert goPackages[..k] == goPackages;
    } else {
      GroupsRunFailedPrefix(goPackages, k, index, goList);
    }
  }

  /** Lines 60-71: the dependencies of each package of one project. */
  method AddPackageDependencies(builder: ProjectGraphBuilder, projectName: string, packagesToProcess: seq<string>,
                                index: RootIndex, goList: Oracle)
    returns (ok: bool)
    modifies builder
    ensures builder.nodes == old(builder.nodes)
    ensures builder.edges == old(builder.edges) + PackagesRun(projectName, packagesToProcess, index, goList).edges
    ensures ok == !PackagesRun(projectName, packagesToProcess, index, goList).failed
  {
    ok := true;
    var j := 0;
    while j < |packagesToProcess| && ok
      invariant 0 <= j <= |packagesToProcess|
      invariant builder.nodes == old(builder.nodes)
      invariant builder.edges == old(builder.edges) + PackagesRun(projectName, packagesToProcess[..j], index, goList).edges
      invariant ok == !PackagesRun(projectName, packagesToProcess[..j], index, goList).failed
    {
      assert packagesToProcess[..j + 1][..j] == packagesToProcess[..j];
      var dependencies := GetPackageDependencies(packagesToProcess[j], projectName, index, goList);
      if dependencies.Failure? {
        ok := false;
      } else if |dependencies.value| == 0 {
        assert ImplicitEdges(projectName, dependencies.value) == [];
      } else {
        ghost var prev := PackagesRun(projectName, packagesToProcess[..j], index, goList).edges;
        AddImplicitDependencies(builder, projectName, dependencies.value);
        AppendAssoc(old(builder.edges), prev, ImplicitEdges(projectName, dependencies.value));
      }
      j := j + 1;
    }
    if ok {
      assert packagesToProcess[..j] == packagesToProcess;
    } else {
      PackagesRunFailedPrefix(projectName, packagesToProcess, j, index, goList);
    }
  }

  /** Lines 68-70: one `addImplicitDependency` per dependency, in order. */
  method AddImplicitDependencies(builder: ProjectGraphBuilder, projectName: string, dependencies: seq<string>)
    modifies builder
    ensures builder.nodes == old(builder.nodes)
    ensures builder.edges == old(builder.edges) + ImplicitEdges(projectName, dependencies)
  {
    for n := 0 to |dependencies|
      invariant builder.nodes == old(builder.nodes)
      invariant builder.edges == old(builder.edges) + ImplicitEdges(projectName, dependencies[..n])
    {
      assert dependencies[..n + 1][..n] == dependencies[..n];
      builder.AddImplicitDependency(projectName, dependencies[n]);
    }
    assert dependencies[..|dependencies|] == dependencies;
  }

  /** `buildDependenciesUsingFiles`: returns false when a `go list` threw. The exception
      ends the whole run, so the loops stop at the first failure. */
  method BuildDependenciesUsingFiles(context: seq<ProjectFiles>, builder: ProjectGraphBuilder, index: RootIndex, goList: Oracle)
    returns (ok: bool)
    modifies builder
    ensures builder.nodes == old(builder.nodes)
    ensures builder.edges == old(builder.edges) + ContextFilesRun(context, index, goList).edges
    ensures ok == !ContextFilesRun(context, index, goList).failed
  {
    ok := true;
    var k := 0;
    while k < |context| && ok
      invariant 0 <= k <= |context|
      invariant builder.nodes == old(builder.nodes)
      invariant builder.edges == old(builder.edges) + ContextFilesRun(context[..k], index, goList).edges
      invariant ok == !ContextFilesRun(context[..k], index, goList).failed
    {
      assert context[..k + 1][..k] == context[..k];
      ghost var prev := ContextFilesRun(context[..k], index, goList).edges;
      ok := AddFileDependencies(builder, context[k].project, context[k].files, index, goList);
      AppendAssoc(old(builder.edges), prev, FilesRun(context[k].project, context[k].files, index, goList).edges);
      k := k + 1;
    }
    if ok {
      assert context[..k] == context;
    } else {
      ContextFilesRunFailedPrefix(context, k, index, goList);
    }
  }

  /** Lines 84-98: the dependencies of each `.go` file of one project. */
  method AddFileDependencies(builder: ProjectGraphBuilder, projectName: string, files: seq<string>,
                             index: RootIndex, goList: Oracle)
    returns (ok: bool)
    modifies builder
    ensures builder.nodes == old(builder.nodes)
    ensures builder.edges == old(builder.edges) + FilesRun(projectName, files, index, goList).edges
    ensures ok == !FilesRun(projectName, files, index, goList).failed
  {
    ok := true;
    var j := 0;
    while j < |files| && ok
      invariant 0 <= j <= |files|
      invariant builder.nodes == old(builder.nodes)
      invariant builder.edges == old(builder.edges) + FilesRun(projectName, files[..j], index, goList).edges
      invariant ok == !FilesRun(projectName, files[..j], index, goList).failed
    {
      FilesRunNext(projectName, files, j, index, goList);
      var file := files[j];
      if IsGoFile(file) {
        var dependencies := GetFileDependencies(file, projectName, index, goList);
        if dependencies.Failure? {
          ok := false;
        } else if |dependencies.value| == 0 {
          assert ExplicitEdges(projectName, file, dependencies.value) == [];
        } else {
          ghost var prev := FilesRun(projectName, files[..j], index, goList).edges;
          AddExplicitDependencies(builder, projectName, file, dependencies.value);
          AppendAssoc(old(builder.edges), prev, ExplicitEdges(projectName, file, dependencies.value));
        }
      }
      j := j + 1;
    }
    if ok {
      assert files[..j] == files;
    } else {
      FilesRunFailedPrefix(projectName, files, j, index, goList);
    }
  }

  /** The run over the first `j + 1` files, from the run over the first `j`. */
  lemma FilesRunNext(project: string, files: seq<string>, j: nat, index: RootIndex, goList: Oracle)
    requires j < |files|
    ensures var prev := FilesRun(project, files[..j], index, goList);
      FilesRun(project, files[..j + 1], index, goList) ==
        if prev.failed || !IsGoFile(files[j]) then prev
        else match FileDependencies(files[j], project, index, goList)
          case Failure => Run(prev.edges, true)
          case Success(deps) => Run(prev.edges + ExplicitEdges(project, files[j], deps), false)
  {
    assert files[..j + 1][..j] == files[..j];
  }

  /** Lines 95-97: one `addExplicitDependency` per dependency, in order. */
  method AddExplicitDependencies(builder: ProjectGraphBuilder, projectName: string, file: string, dependencies: seq<string>)
    modifies builder
    ensures builder.nodes == old(builder.nodes)
    ensures builder.edges == old(builder.edges) + ExplicitEdges(projectName, file, dependencies)
  {
    for n := 0 to |dependencies|
      invariant builder.nodes == old(builder.nodes)
      invariant builder.edges == old(builder.edges) + ExplicitEdges(projectName, file, dependencies[..n])
    {
      assert dependencies[..n + 1][..n] == dependencies[..n];
      builder.AddExplicitDependency(projectName, file, dependencies[n]);
    }
    assert dependencies[..|dependencies|] == dependencies;
  }

  /** `processProjectGraph`: the input graph with the package-level edges appended, or
      Failure when a `go list` threw. */
  method ProcessProjectGraph(graph: ProjectGraph, context: seq<ProjectFiles>, goList: Oracle)
    returns (r: Result<ProjectGraph>)
    ensures var run := GroupsRun(GoPackageGroups(context), RootIndexOf(graph.nodes), goList);
      r == if run.failed then Failure else Success(ProjectGraph(graph.nodes, graph.dependencies + run.edges))
  {
    var index := BuildRootIndex(graph.nodes);
    var builder := new ProjectGraphBuilder(graph);
    var ok := BuildDependenciesUsingPackages(context, builder, index, goList);
    if !ok {
      return Failure;
    }
    return Success(builder.GetUpdatedProjectGraph());
  }
}
