/** The host project graph and the builder the plugin adds edges through. The builder is
    modelled only as an append-only log of the edges it was asked to add. */
module Graph {

  /** A workspace project: its name (the key in `graph.nodes`) and its root directory. */
  datatype ProjectNode = ProjectNode(name: string, root: string)

  /** `addImplicitDependency(source, target)` or `addExplicitDependency(source, file, target)`. */
  datatype Edge =
    | Implicit(source: string, target: string)
    | Explicit(source: string, file: string, target: string)

  /** A project graph: its nodes in `for…in` order and the edges it holds. */
  datatype ProjectGraph = ProjectGraph(nodes: seq<ProjectNode>, dependencies: seq<Edge>)

  class ProjectGraphBuilder {
    var nodes: seq<ProjectNode>
    var edges: seq<Edge>

    constructor (graph: ProjectGraph)
      ensures nodes == graph.nodes && edges == graph.dependencies
    {
      nodes := graph.nodes;
      edges := graph.dependencies;
    }

    method AddImplicitDependency(source: string, target: string)
      modifies this
      ensures nodes == old(nodes)
      ensures edges == old(edges) + [Implicit(source, target)]
    {
      edges := edges + [Implicit(source, target)];
    }

    method AddExplicitDependency(source: string, file: string, target: string)
      modifies this
      ensures nodes == old(nodes)
      ensures edges == old(edges) + [Explicit(source, file, target)]
    {
      edges := edges + [Explicit(source, file, target)];
    }

    function GetUpdatedProjectGraph(): (g: ProjectGraph)
      reads this
      ensures g.nodes == nodes && g.dependencies == edges
    {
      ProjectGraph(nodes, edges)
    }
  }
}
