/** The root index `processProjectGraph` builds from the graph's nodes: the array of
    roots in node order and the map from root to project name. */
module Roots {
  import opened Graph

  datatype RootIndex = RootIndex(roots: seq<string>, lookup: map<string, string>)

  /** The index after visiting `nodes` in order: each node appends its root, and sets its
      root to its name, overwriting what an earlier node with the same root set. */
  function RootIndexOf(nodes: seq<ProjectNode>): (index: RootIndex)
  {
    if nodes == [] then RootIndex([], map[])
    else
      var prev := RootIndexOf(nodes[..|nodes| - 1]);
      var node := nodes[|nodes| - 1];
      RootIndex(prev.roots + [node.root], prev.lookup[node.root := node.name])
  }

  /** No node after `nodes[k]` has the same root. */
  predicate LastWithRoot(nodes: seq<ProjectNode>, k: int) {
    0 <= k < |nodes| && forall j :: k < j < |nodes| ==> nodes[j].root != nodes[k].root
  }

  /** One root per node, in node order. */
  lemma {:induction false} RootIndexRoots(nodes: seq<ProjectNode>)
    ensures |RootIndexOf(nodes).roots| == |nodes|
    ensures forall k :: 0 <= k < |nodes| ==> RootIndexOf(nodes).roots[k] == nodes[k].root
  {
    if nodes != [] {
      RootIndexRoots(nodes[..|nodes| - 1]);
    }
  }

  /** The map's keys are exactly the roots in the array. */
  lemma {:induction false} RootIndexKeys(nodes: seq<ProjectNode>)
    ensures forall r :: r in RootIndexOf(nodes).lookup <==> r in RootIndexOf(nodes).roots
  {
    if nodes != [] {
      RootIndexKeys(nodes[..|nodes| - 1]);
    }
  }

  /** A root maps to the name of the last node that has it: a later duplicate root
      overwrites the earlier name. */
  lemma {:induction false} RootIndexLastWins(nodes: seq<ProjectNode>)
    ensures forall k :: LastWithRoot(nodes, k) ==>
      nodes[k].root in RootIndexOf(nodes).lookup && RootIndexOf(nodes).lookup[nodes[k].root] == nodes[k].name
  {
    if nodes != [] {
      var init := nodes[..|nodes| - 1];
      var last := nodes[|nodes| - 1];
      RootIndexLastWins(init);
      var prev := RootIndexOf(init);
      assert RootIndexOf(nodes).lookup == prev.lookup[last.root := last.name];
      forall k | LastWithRoot(nodes, k)
        ensures nodes[k].root in RootIndexOf(nodes).lookup && RootIndexOf(nodes).lookup[nodes[k].root] == nodes[k].name
      {
        if k < |init| {
          assert init[k] == nodes[k];
          assert nodes[k].root != last.root;
          assert LastWithRoot(init, k);
        }
      }
    }
  }

  /** Every name in the map belongs to a node with that root. */
  lemma {:induction false} RootIndexNames(nodes: seq<ProjectNode>)
    ensures forall r :: r in RootIndexOf(nodes).lookup ==> exists k ::
      0 <= k < |nodes| && nodes[k].root == r && nodes[k].name == RootIndexOf(nodes).lookup[r]
  {
    if nodes != [] {
      var init := nodes[..|nodes| - 1];
      var last := nodes[|nodes| - 1];
      RootIndexNames(init);
      forall r | r in RootIndexOf(nodes).lookup
        ensures exists k :: 0 <= k < |nodes| && nodes[k].root == r && nodes[k].name == RootIndexOf(nodes).lookup[r]
      {
        if r != last.root {
          assert RootIndexOf(nodes).lookup == RootIndexOf(init).lookup[last.root := last.name];
          assert r in RootIndexOf(init).lookup;
          var k :| 0 <= k < |init| && init[k].root == r && init[k].name == RootIndexOf(init).lookup[r];
          assert nodes[k] == init[k];
        }
      }
    }
  }

  /** `processProjectGraph`, lines 20-25: fill the map and the array in one pass. */
  method BuildRootIndex(nodes: seq<ProjectNode>) returns (index: RootIndex)
    ensures index == RootIndexOf(nodes)
  {
    var projectRootLookup: map<string, string> := map[];
    var projectRoots: seq<string> := [];
    for k := 0 to |nodes|
      invariant RootIndex(projectRoots, projectRootLookup) == RootIndexOf(nodes[..k])
    {
      assert nodes[..k + 1][..k] == nodes[..k];
      projectRootLookup := projectRootLookup[nodes[k].root := nodes[k].name];
      projectRoots := projectRoots + [nodes[k].root];
    }
    assert nodes[..|nodes|] == nodes;
    index := RootIndex(projectRoots, projectRootLookup);
  }
}
