# Go project-graph plugin for Nx, modelled in Dafny

This project models the Nx project-graph plugin in `tools/project-graph.js`. The plugin
adds edges between the projects of a workspace from the import lists of their Go code:

- It builds a root index: the array of project roots in node order, and a map from each
  root to its project's name (`processProjectGraph`).
- It groups each project's changed files into the set of package directories of its
  `.go` files (`buildDependenciesUsingPackages`).
- It asks `go list` for each package's imports. The per-file variant
  (`buildDependenciesUsingFiles`) asks per `.go` file instead, and reads `TestImports`
  for a `_test` file.
- It resolves every import to at most one workspace project (`getDependenciesFromImports`).
- It adds one edge per dependency through the graph builder.

Modules, one per component:

- `Strings`, `Paths`: the JavaScript string and Node `path` operations the plugin uses.
- `OrderedSets`: a JavaScript `Set` as its elements in insertion order.
- `Graph`: the project graph and an edge-log model of `ProjectGraphBuilder`.
- `Roots`: the root index.
- `GoList`: `go list` as an oracle, and the import list the plugin reads from it.
- `Resolution`: `getDependenciesFromImports` and its properties.
- `Plugin`: grouping, the per-package and per-file builders, and `processProjectGraph`.
- `PluginProperties`: what the edges of a run mean.

Each loop of the source is a method proved equal to a specification function. The
functions are defined element by element from the last element, so each loop invariant
reads "the state so far is the function of the prefix". Lemmas then state the
properties of those functions.

The model follows the code. Where the code differs from a longest-prefix,
boundary-aware resolver that skips only the package whose query fails, the model keeps
what the code does:

- Resolution takes the FIRST root in node order that the import's remainder starts
  with, not the longest one.
- There is no path-segment boundary check: root `foo` matches `foobar`.
- `substring(len + 1)` drops exactly one character after `getmega.com`, whatever that
  character is.
- The module root is the constant `getmega.com`, not a value derived from `go list`.
- A `go list` that exits non-zero, or whose output does not parse, throws. The
  exception ends the whole run rather than skipping one package. The model returns
  `Failure` for the run. What becomes of the edges already sent to the builder is not
  modelled: the builder is built on the caller's own `graph` (line 27) and may have
  changed it in place.
- The builder is not asked to deduplicate. Each package's dependencies are distinct,
  but two packages of one project that depend on the same project each add that edge.

`FirstMatchNotLongest` and `NoSegmentBoundary` exhibit the first two points on concrete
inputs. `FirstMatchIsLongestWhenSorted` shows that first match and longest match agree
when the roots are listed by descending length.

## Model

| member | source | states |
|---|---|---|
| `OrderedSets.Add` | tools/project-graph.js:149-159 | `Set.add`: a new element goes last, a present one changes nothing, distinctness is kept, membership is old ∪ {x} |
| `Strings.StartsWith` | tools/project-graph.js:151 | `s.startsWith(prefix)`: `prefix` is no longer than `s` and equals its first `|prefix|` characters (also used at line 156) |
| `Strings.EndsWith` | tools/project-graph.js:125 | `s.endsWith(suffix)`: `suffix` is no longer than `s` and equals its last `|suffix|` characters |
| `Paths.LastSegment` | tools/project-graph.js:2 | what follows the last '/' of the path; its meaning is stated by `LastSegmentShape` |
| `Paths.LastSegmentShape` | tools/project-graph.js:2 | the last segment is a suffix of the path without a '/', preceded by a '/' when shorter than the path |
| `Paths.ExtName` | tools/project-graph.js:50 | `path.extname`; its meaning is stated by `ExtNameShape` and `ExtNameIsGo` |
| `Paths.ExtNameShape` | tools/project-graph.js:50 | the extension is "" exactly when the last segment is ".." or has no '.' after its first character; otherwise it starts at the last '.' of that segment and is a proper suffix of it |
| `Paths.ExtNameIsGo` | tools/project-graph.js:50 | `extname(f) === '.go'` exactly when the last segment ends in ".go" after at least one more character |
| `Paths.DirName` | tools/project-graph.js:54 | `path.dirname`; its meaning is stated by `DirNameShape` |
| `Paths.BaseName` | tools/project-graph.js:125 | `path.basename(p, ext)`; its meaning is stated by `BaseNameShape` |
| `Paths.DirNameShape` | tools/project-graph.js:54 | `dirname` is "." without a '/'; "/" when the only '/' is the first character; otherwise a non-empty directory that, joined to the last segment by '/', gives back the path |
| `Paths.BaseNameShape` | tools/project-graph.js:125 | `basename(p, ext)` is "" when `p == ext`; otherwise base name + ext is the last segment when ext is a proper suffix of it, and the base name is the whole segment when not |
| `Graph.ProjectGraphBuilder.constructor` | tools/project-graph.js:27 | the builder starts from the graph's nodes and existing edges |
| `Graph.ProjectGraphBuilder.AddImplicitDependency` | tools/project-graph.js:69 | appends one implicit edge (source, target) to the log; nodes unchanged |
| `Graph.ProjectGraphBuilder.AddExplicitDependency` | tools/project-graph.js:96 | appends one explicit edge (source, file, target) to the log; nodes unchanged |
| `Graph.ProjectGraphBuilder.GetUpdatedProjectGraph` | tools/project-graph.js:30 | the graph returned holds the builder's nodes and its whole edge log |
| `Roots.RootIndexOf` | tools/project-graph.js:20-25 | the index after visiting the nodes in order: each appends its root and sets its root to its name; its meaning is stated by the four lemmas below |
| `Roots.BuildRootIndex` | tools/project-graph.js:20-25 | the loop fills the root array and the root-to-name map exactly as `RootIndexOf` of the nodes |
| `Roots.RootIndexRoots` | tools/project-graph.js:24 | the root array holds one root per node, in node order |
| `Roots.RootIndexKeys` | tools/project-graph.js:20-25 | the map's keys are exactly the roots in the array |
| `Roots.RootIndexLastWins` | tools/project-graph.js:23 | a root maps to the name of the last node that has it; a later duplicate root overwrites the earlier name |
| `Roots.RootIndexNames` | tools/project-graph.js:22-23 | every name in the map is the name of a node with that root |
| `GoList.OrEmpty` | tools/project-graph.js:115 | an absent import list reads as empty, a present one as itself |
| `GoList.ImportsOfPackage` | tools/project-graph.js:107-116 | fails exactly when `go list` on the package fails; otherwise its production imports, empty if absent |
| `GoList.ImportsOfFile` | tools/project-graph.js:123-138 | fails exactly when `go list` on the file fails; a test file gets its `TestImports`, any other file its `Imports`, empty if absent |
| `GoList.IsTestFile` | tools/project-graph.js:125 | the test-file check of `getImportsOfFile`; characterized for `.go` files by `GoFileIsTestExactly` |
| `GoList.GoFileIsTestExactly` | tools/project-graph.js:125 | for a `.go` file, `basename(f, '.go')` ends in `_test` exactly when the path ends in `_test.go` |
| `Resolution.RelativePath` | tools/project-graph.js:155 | the import is its first twelve characters followed by the result, whatever the twelfth is; "" for shorter imports |
| `Resolution.FindRootIndex` | tools/project-graph.js:156 | `find` returns the index of the first root in list order that is a prefix, or -1 exactly when none is |
| `Resolution.ResolveImport` | tools/project-graph.js:150-160 | an import outside `getmega.com` yields nothing; a yielded name is non-empty, not the importing project, and is the lookup of the first matching root |
| `Resolution.ResolveImportFirstMatch` | tools/project-graph.js:151-160 | the converse, both ways: for a kept import whose first matching root is `roots[k]`, a name is yielded exactly when `roots[k]` maps to a name that is non-empty and not the importing project, and then it is that name; with no matching root nothing is yielded |
| `Resolution.DependenciesFromImports` | tools/project-graph.js:148-164 | the result has no duplicates and contains neither the importing project nor "" |
| `Resolution.GetDependenciesFromImports` | tools/project-graph.js:148-164 | the loop over the imports returns exactly `DependenciesFromImports` |
| `Resolution.FoundIsDependency` | tools/project-graph.js:158-159 | whatever an import resolves to is among the dependencies |
| `Resolution.DependencyFound` | tools/project-graph.js:149-163 | every dependency was resolved from some import; the one returned is the first such import |
| `Resolution.DependenciesMembership` | tools/project-graph.js:150-163 | a name is a dependency if and only if some import resolves to it |
| `Resolution.DependenciesAreLookupNames` | tools/project-graph.js:155-159 | every dependency is the lookup name of a listed root that some import under `getmega.com`, once stripped, starts with |
| `Resolution.DependenciesFirstFoundOrder` | tools/project-graph.js:149-163 | dependencies come out in the order each was first found: an earlier one was found at an import before any import yielding a later one |
| `Resolution.DependenciesAppend` | tools/project-graph.js:150-161 | one more import grows the result by what it resolves to, if anything, through `Set.add` |
| `Resolution.UnresolvedImportContributesNothing` | tools/project-graph.js:151-160 | removing an import that resolves to nothing, from anywhere in the list, leaves the result unchanged |
| `Resolution.ExternalImportContributesNothing` | tools/project-graph.js:151-153 | an import not starting with `getmega.com` can be removed without changing the result |
| `Resolution.FirstMatchIsLongestWhenSorted` | tools/project-graph.js:156 | with roots listed by descending length, the first matching root is a longest match, and every longest match is that same root |
| `Resolution.FirstMatchNotLongest` | tools/project-graph.js:155-157 | with roots `pkg/a` then `pkg/a/b`, `getmega.com/pkg/a/b/sub` resolves to `pkg/a`'s project |
| `Resolution.NoSegmentBoundary` | tools/project-graph.js:151-156 | root `foo` takes `getmega.com/foobar`, and `getmega.comXfoo` passes the prefix test and resolves too |
| `Resolution.ScenarioDependencies` | tools/project-graph.js:148-164 | a libA file importing a libB package, a libA package and an external one depends on libB alone |
| `Plugin.IsGoFile` | tools/project-graph.js:50 | `extname(file) === '.go'`; characterized by `Paths.ExtNameIsGo` |
| `Plugin.GoPackagesOf` | tools/project-graph.js:49-55 | the package set of a project's files has no duplicates |
| `Plugin.GoPackagesOfContents` | tools/project-graph.js:49-55 | a directory is in the set exactly when it is the `dirname` of one of the `.go` files; other files are ignored |
| `Plugin.GoPackageGroups` | tools/project-graph.js:43-56 | every project of the context gets an entry, possibly empty, in the same order, holding the package set of its files |
| `Plugin.CollectGoPackages` | tools/project-graph.js:48-55 | the inner loop computes exactly `GoPackagesOf` of the files |
| `Plugin.GroupGoPackages` | tools/project-graph.js:42-56 | the grouping loops compute exactly `GoPackageGroups` of the context |
| `Plugin.PackageDependencies` | tools/project-graph.js:174-177 | fails exactly when `go list` on the package fails; otherwise the resolution of its production imports |
| `Plugin.GetPackageDependencies` | tools/project-graph.js:174-177 | computes exactly `PackageDependencies` |
| `Plugin.FileDependencies` | tools/project-graph.js:187-190 | fails exactly when `go list` on the file fails; otherwise the resolution of its test imports for a test file, of its production imports otherwise |
| `Plugin.GetFileDependencies` | tools/project-graph.js:187-190 | computes exactly `FileDependencies` |
| `Plugin.ImplicitEdges` | tools/project-graph.js:68-70 | the edges are exactly the implicit edges from the project to each dependency |
| `Plugin.ExplicitEdges` | tools/project-graph.js:95-97 | the edges are exactly the explicit edges from the project and file to each dependency |
| `Plugin.ImplicitEdgesDistinct` | tools/project-graph.js:61-70 | the edges added for one package are distinct, one per dependency |
| `Plugin.PackagesRun` | tools/project-graph.js:61-71 | the edges added for one project's packages, in order, and whether a `go list` threw; its meaning is stated by `PackagesRunSound`, `PackagesRunComplete` and `PackagesRunFailure` |
| `Plugin.GroupsRun` | tools/project-graph.js:59-72 | the edges added for all projects' packages, stopping at the first throw; its meaning is stated by `GroupsRunSound`, `GroupsRunComplete`, `GroupsRunFailure` and the `PackageEdges` lemmas |
| `Plugin.FilesRun` | tools/project-graph.js:85-98 | the edges added for one project's `.go` files, in order, and whether a `go list` threw; its meaning is stated by `FilesRunSound`, `FilesRunComplete` and `FilesRunFailure` |
| `Plugin.ContextFilesRun` | tools/project-graph.js:83-99 | the edges added for all projects' files, stopping at the first throw; its meaning is stated by the `FileEdges` lemmas |
| `Plugin.PackagesRunFailedPrefix` | tools/project-graph.js:109-111 | once a package's `go list` throws, the packages after it change nothing |
| `Plugin.GroupsRunFailedPrefix` | tools/project-graph.js:59-72 | once a project's run throws, the projects after it change nothing |
| `Plugin.FilesRunFailedPrefix` | tools/project-graph.js:131-133 | once a file's `go list` throws, the files after it change nothing |
| `Plugin.ContextFilesRunFailedPrefix` | tools/project-graph.js:83-99 | once a project's file run throws, the projects after it change nothing |
| `Plugin.AddImplicitDependencies` | tools/project-graph.js:68-70 | the builder's log grows by exactly `ImplicitEdges` of the dependencies |
| `Plugin.AddExplicitDependencies` | tools/project-graph.js:95-97 | the builder's log grows by exactly `ExplicitEdges` of the dependencies |
| `Plugin.AddPackageDependencies` | tools/project-graph.js:60-71 | the log grows by the edges of each package in turn, stopping at the first `go list` that throws; reports whether none did |
| `Plugin.BuildDependenciesUsingPackages` | tools/project-graph.js:39-73 | the log grows by `GroupsRun` of the grouped files; reports whether no `go list` threw |
| `Plugin.AddFileDependencies` | tools/project-graph.js:84-98 | the log grows by the edges of each `.go` file in turn, stopping at the first `go list` that throws |
| `Plugin.BuildDependenciesUsingFiles` | tools/project-graph.js:81-100 | the log grows by `ContextFilesRun` of the context; reports whether no `go list` threw |
| `Plugin.ProcessProjectGraph` | tools/project-graph.js:19-31 | the result is the input graph with the package-level edges of the run appended, or a failure when a `go list` threw |
| `PluginProperties.YieldedIsProject` | tools/project-graph.js:156-159 | every dependency found through an index built from the nodes is the name of one of those nodes |
| `PluginProperties.PackagesRunSound` | tools/project-graph.js:61-71 | every edge of a project's package run is an implicit edge from that project to something one of its packages yields |
| `PluginProperties.PackagesRunComplete` | tools/project-graph.js:61-71 | when no `go list` throws, every project a package yields gets its implicit edge |
| `PluginProperties.PackagesRunFailure` | tools/project-graph.js:61-62 | a project's package run fails exactly when `go list` fails on one of its packages |
| `PluginProperties.GroupsRunSound` | tools/project-graph.js:59-72 | every edge comes from the package run of one of the projects |
| `PluginProperties.GroupsRunComplete` | tools/project-graph.js:59-72 | when nothing throws, every edge of every project's package run is in the result |
| `PluginProperties.GroupsRunFailure` | tools/project-graph.js:59-72 | the run fails exactly when one project's package run fails |
| `PluginProperties.PackageEdgesSound` | tools/project-graph.js:43-72 | every edge is an implicit edge from a context project to a project, not itself and not "", that the directory of one of its `.go` files yields |
| `PluginProperties.PackageEdgesComplete` | tools/project-graph.js:43-72 | when nothing throws, every project that the directory of a `.go` file of a project yields gets its implicit edge |
| `PluginProperties.PackageEdgesFailure` | tools/project-graph.js:49-62 | the run fails exactly when `go list` fails on the directory of some `.go` file of the context |
| `PluginProperties.PackageEdgesTargetProjects` | tools/project-graph.js:19-31 | every edge `processProjectGraph` adds targets a node of the graph |
| `PluginProperties.FilesRunSound` | tools/project-graph.js:85-97 | every edge of a project's file run is an explicit edge from that project, through one of its `.go` files, to something that file yields |
| `PluginProperties.FilesRunStep` | tools/project-graph.js:85-97 | a file run that has not failed keeps the edges of the earlier files, and for a `.go` last file appends its explicit edges |
| `PluginProperties.FilesRunCompleteAt` | tools/project-graph.js:85-97 | when nothing throws, a given `.go` file's yielded project gets its explicit edge |
| `PluginProperties.FilesRunComplete` | tools/project-graph.js:85-97 | when nothing throws, every project that a `.go` file yields gets its explicit edge |
| `PluginProperties.FilesRunFailure` | tools/project-graph.js:86-92 | a project's file run fails exactly when `go list` fails on one of its `.go` files |
| `PluginProperties.FileEdgesSound` | tools/project-graph.js:83-99 | every edge is an explicit edge from a context project, through one of its `.go` files, to a project, not itself and not "", that the file yields |
| `PluginProperties.FileEdgesComplete` | tools/project-graph.js:83-99 | when nothing throws, every project a `.go` file of a project yields gets its explicit edge through that file |
| `PluginProperties.FileEdgesFailure` | tools/project-graph.js:83-99 | the file run fails exactly when `go list` fails on some `.go` file of the context |

## Left out

- `go list` itself, the shell `cd`, the Go template strings and `JSON.parse`
  (tools/project-graph.js:107-116, 131-136). They are process I/O and a foreign
  parser. `GoList.Oracle` stands in for them: a function from a directory or file to the
  package it reports, or `Failure` when the process exits non-zero or its output does
  not parse.
- `ProjectGraphBuilder` internals. The library is not visible, so the builder is an
  append-only edge log. The model claims no deduplication and no cycle check.
- Node `path` helpers, beyond `/`-separated paths without a trailing '/'. `extname`,
  `dirname` and `basename(p, ext)` are simplified: no trailing-slash stripping, and no
  `//` root case.
- `graph.nodes` and `context.filesToProcess` are JavaScript objects. They are modelled as
  sequences in `for…in` order, with distinct keys, and the second loop visits the
  projects in the first loop's order.
- Project names are assumed not to be names that `Object.prototype` already provides
  (`constructor`, `toString`, `valueOf`, `hasOwnProperty`, `__proto__`, …). With such a
  name, `goPackages[projectName]` at line 44 is already truthy, no `Set` is created, and
  line 54 throws a TypeError on that project's first `.go` file. The model gives every
  project a fresh empty package set instead.
- Every node is assumed to have a string `data.root`. The source reads it unchecked
  (lines 23-24). For a node without one, `undefined` goes into the root list and becomes
  a map key; `startsWith(undefined)` then tests the prefix "undefined", and an import
  under `getmega.com` that matches no root reaches `projectRootLookup.get(undefined)` at
  line 157 and yields that node's name. The model yields nothing when no root matches.
- Strings are sequences of Unicode scalar values, not UTF-16 code units. `RelativePath`
  drops one scalar where `substring(12)` (line 155) drops one code unit; the two agree on
  the ASCII-only import paths Go accepts, and non-ASCII imports are not modelled.
- `buildDependenciesUsingFiles` is modelled, but `processProjectGraph` uses only the
  package variant, as in the source (line 28 is commented out).
- tools/project-graph-plugins/get-package-metadata.go is not part of this model. It is
  I/O plumbing around `go list -m -json all`, and its filtering exists only as comments.
- Concurrency and timeouts: the plugin is synchronous and has neither.
