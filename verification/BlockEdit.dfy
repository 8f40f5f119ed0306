/** How an edge enters the graph, leaves it and moves from one node to another (block.c). */
module BlockEdit {
  import opened Lists
  import opened Reach
  import opened BlockGraph

  /** `bdrv_replace_child_noperm` for an edge that points nowhere yet. */
  function AddUser(g: Graph, e: EdgeId, edge: Edge): (r: Graph)
    requires edge.bs in g.nodes
  {
    var n := g.nodes[edge.bs];
    Graph(g.nodes[edge.bs := n.(parents := [e] + n.parents)], g.edges[e := edge])
  }

  /** The last step of `bdrv_attach_child`. */
  function AddChild(g: Graph, p: NodeId, e: EdgeId): (r: Graph)
    requires p in g.nodes
  {
    g.(nodes := g.nodes[p := g.nodes[p].(children := [e] + g.nodes[p].children)])
  }

  /** `bdrv_detach_child`: out of the owner's list and out of the target's list. */
  function RemoveEdge(g: Graph, c: EdgeId): (r: Graph) {
    Graph(map n | n in g.nodes ::
            g.nodes[n].(children := Without(g.nodes[n].children, c), parents := Without(g.nodes[n].parents, c)),
          g.edges - {c})
  }

  /** `bdrv_replace_child_noperm` from one node to another. */
  function MoveEdge(g: Graph, c: EdgeId, to: NodeId): (r: Graph)
    requires c in g.edges && g.edges[c].bs in g.nodes && to in g.nodes
  {
    var from := g.edges[c].bs;
    var nodes1 := g.nodes[from := g.nodes[from].(parents := Without(g.nodes[from].parents, c))];
    Graph(nodes1[to := nodes1[to].(parents := [c] + nodes1[to].parents)], g.edges[c := g.edges[c].(bs := to)])
  }

  /** The loop of `bdrv_replace_node` over the collected edges. */
  function MoveEdges(g: Graph, cs: seq<EdgeId>, to: NodeId): (r: Graph)
    requires to in g.nodes && forall c :: c in cs ==> c in g.edges && g.edges[c].bs in g.nodes
    ensures r.nodes.Keys == g.nodes.Keys && r.edges.Keys == g.edges.Keys
    decreases |cs|
  {
    if cs == [] then g else MoveEdges(MoveEdge(g, cs[0], to), cs[1..], to)
  }

  /** What a node is, apart from its lists. */
  function Traits(n: Node): Node {
    n.(children := [], parents := [])
  }

  ghost predicate SameTraits(g: Graph, g': Graph) {
    g'.nodes.Keys == g.nodes.Keys && forall n :: n in g.nodes ==> Traits(g'.nodes[n]) == Traits(g.nodes[n])
  }

  // ------------------------------------------------------------------ a new user

  lemma AddUserNode(g: Graph, e: EdgeId, edge: Edge, n: NodeId)
    requires WellFormed(g) && e !in g.edges && edge.bs in g.nodes && n in g.nodes
    ensures var g' := AddUser(g, e, edge);
            NodeOk(g', n) && Targets(g', g.nodes[n].children) == Targets(g, g.nodes[n].children)
  {
    assert NodeOk(g, n);
  }

  lemma AddUserWellFormed(g: Graph, e: EdgeId, edge: Edge)
    requires WellFormed(g) && e !in g.edges && edge.bs in g.nodes
    ensures WellFormed(AddUser(g, e, edge))
  {
    var g' := AddUser(g, e, edge);
    forall n | n in g.nodes ensures NodeOk(g', n) {
      AddUserNode(g, e, edge, n);
    }
    forall d | d in g'.edges ensures EdgeOk(g', d) {
      assert d in g.edges ==> EdgeOk(g, d);
    }
    forall n, m, d | n in g.nodes && m in g.nodes ensures OneOwner(g', n, m, d) {
      assert OneOwner(g, n, m, d);
    }
  }

  lemma AddUserLinks(g: Graph, e: EdgeId, edge: Edge)
    requires Ok(g) && e !in g.edges && edge.bs in g.nodes && WellFormed(AddUser(g, e, edge))
    ensures var g' := AddUser(g, e, edge); Links(g') == Links(g) && Live(g') == Live(g)
  {
    var g' := AddUser(g, e, edge);
    forall n | n in g.nodes ensures Links(g')[n] == Links(g)[n] && Live(g')[n] == Live(g)[n] {
      AddUserNode(g, e, edge, n);
    }
  }

  lemma AddUserOk(g: Graph, e: EdgeId, edge: Edge)
    requires Ok(g) && e !in g.edges && edge.bs in g.nodes
    ensures var g' := AddUser(g, e, edge); Ok(g') && Links(g') == Links(g) && Live(g') == Live(g)
  {
    AddUserWellFormed(g, e, edge);
    AddUserLinks(g, e, edge);
  }

  // ------------------------------------------------------------------ a new child

  lemma AddChildNode(g: Graph, p: NodeId, e: EdgeId, n: NodeId)
    requires WellFormed(g) && p in g.nodes && e in g.edges && g.nodes[p].drv.DefaultPerms? && n in g.nodes
    requires e !in g.nodes[p].children
    ensures NodeOk(AddChild(g, p, e), n)
  {
    assert NodeOk(g, n);
  }

  lemma AddChildOk(g: Graph, p: NodeId, e: EdgeId)
    requires Ok(g) && p in g.nodes && e in g.edges && g.nodes[p].drv.DefaultPerms?
    requires forall n :: n in g.nodes ==> e !in g.nodes[n].children
    requires !Reaches(Links(g), g.edges[e].bs, p)
    ensures Ok(AddChild(g, p, e))
  {
    var g' := AddChild(g, p, e);
    forall n | n in g.nodes ensures NodeOk(g', n) {
      AddChildNode(g, p, e, n);
    }
    forall d | d in g'.edges ensures EdgeOk(g', d) {
      assert EdgeOk(g, d);
    }
    forall n, m, d | n in g.nodes && m in g.nodes ensures OneOwner(g', n, m, d) {
      assert OneOwner(g, n, m, d);
    }
    RedirectAcyclic(Links(g), Links(g'), g.edges[e].bs);
  }

  // ------------------------------------------------------------------ an edge less

  lemma RemoveEdgeNode(g: Graph, c: EdgeId, n: NodeId)
    requires WellFormed(g) && n in g.nodes
    ensures NodeOk(RemoveEdge(g, c), n)
  {
    assert NodeOk(g, n);
  }

  lemma RemoveEdgeOk(g: Graph, c: EdgeId)
    requires Ok(g)
    ensures Ok(RemoveEdge(g, c))
  {
    var g' := RemoveEdge(g, c);
    forall n | n in g.nodes ensures NodeOk(g', n) {
      RemoveEdgeNode(g, c, n);
    }
    forall d | d in g'.edges ensures EdgeOk(g', d) {
      assert EdgeOk(g, d);
    }
    forall n, m, d | n in g.nodes && m in g.nodes ensures OneOwner(g', n, m, d) {
      assert OneOwner(g, n, m, d);
    }
    RedirectAcyclic(Links(g), Links(g'), 0);
  }

  // ------------------------------------------------------------------ edges moved to another node

  lemma MoveEdgeNode(g: Graph, c: EdgeId, to: NodeId, n: NodeId)
    requires WellFormed(g) && c in g.edges && g.edges[c].bs in g.nodes && to in g.nodes && n in g.nodes
    ensures NodeOk(MoveEdge(g, c, to), n)
  {
    assert NodeOk(g, n) && NodeOk(g, g.edges[c].bs) && NodeOk(g, to);
  }

  lemma MoveEdgeWellFormed(g: Graph, c: EdgeId, to: NodeId)
    requires WellFormed(g) && c in g.edges && g.edges[c].bs in g.nodes && to in g.nodes
    ensures WellFormed(MoveEdge(g, c, to))
  {
    var g' := MoveEdge(g, c, to);
    forall n | n in g.nodes ensures NodeOk(g', n) {
      MoveEdgeNode(g, c, to, n);
    }
    forall d | d in g'.edges ensures EdgeOk(g', d) {
      assert EdgeOk(g, d);
    }
    forall n, m, d | n in g.nodes && m in g.nodes ensures OneOwner(g', n, m, d) {
      assert OneOwner(g, n, m, d);
    }
  }

  /** Nothing but the target of the edges in `cs` and the parent lists changed. */
  ghost predicate Moved(g: Graph, g': Graph, cs: set<EdgeId>, to: NodeId) {
    && g'.nodes.Keys == g.nodes.Keys
    && g'.edges.Keys == g.edges.Keys
    && (forall n :: n in g.nodes ==> g'.nodes[n].(parents := []) == g.nodes[n].(parents := []))
    && (forall e :: e in g.edges ==> g'.edges[e] == if e in cs then g.edges[e].(bs := to) else g.edges[e])
  }

  lemma MovedTwice(g: Graph, g1: Graph, g2: Graph, cs: set<EdgeId>, ds: set<EdgeId>, to: NodeId)
    requires Moved(g, g1, cs, to) && Moved(g1, g2, ds, to)
    ensures Moved(g, g2, cs + ds, to)
  {
  }

  lemma {:induction false} MoveEdgesMoves(g: Graph, cs: seq<EdgeId>, to: NodeId)
    requires WellFormed(g) && to in g.nodes && forall c :: c in cs ==> c in g.edges && g.edges[c].bs in g.nodes
    ensures WellFormed(MoveEdges(g, cs, to)) && Moved(g, MoveEdges(g, cs, to), Elems(cs), to)
    decreases |cs|
  {
    if cs != [] {
      var g1, rest := MoveEdge(g, cs[0], to), cs[1..];
      MoveEdgeMoves(g, cs[0], to);
      assert forall c :: c in rest ==> c in cs;
      MoveEdgesMoves(g1, rest, to);
      assert Elems(cs) == {cs[0]} + Elems(rest);
      MovedTwice(g, g1, MoveEdges(g1, rest, to), {cs[0]}, Elems(rest), to);
    }
  }

  lemma MoveEdgeMoves(g: Graph, c: EdgeId, to: NodeId)
    requires WellFormed(g) && to in g.nodes && c in g.edges && g.edges[c].bs in g.nodes
    ensures WellFormed(MoveEdge(g, c, to)) && Moved(g, MoveEdge(g, c, to), {c}, to)
  {
    MoveEdgeWellFormed(g, c, to);
  }

  /** Where the graph leads after some edges were redirected to `to`. */
  lemma MovedRedirects(g: Graph, g': Graph, cs: set<EdgeId>, to: NodeId)
    requires Moved(g, g', cs, to) && to in g.nodes
    requires forall n, c :: n in g.nodes && c in g.nodes[n].children && c in cs ==> !Reaches(Links(g), to, n)
    ensures Redirected(Links(g), Links(g'), to)
  {
    forall a, b | a in Links(g') && b in Links(g')[a] && b !in Links(g)[a] ensures b == to && !Reaches(Links(g), to, a) {
      var e :| e in g'.nodes[a].children && e in g'.edges && g'.edges[e].bs == b;
      assert g'.nodes[a].children == g.nodes[a].children;
      assert e in cs;
    }
  }

  /** Node replacement creates no loop: all edges that do not start in the subtree of `to`
      may be redirected to `to` at once. */
  lemma MoveEdgesOk(g: Graph, cs: seq<EdgeId>, to: NodeId)
    requires Ok(g) && to in g.nodes && forall c :: c in cs ==> c in g.edges && g.edges[c].bs in g.nodes
    requires forall n, c :: n in g.nodes && c in g.nodes[n].children && c in cs ==> !Reaches(Links(g), to, n)
    ensures Ok(MoveEdges(g, cs, to)) && Moved(g, MoveEdges(g, cs, to), Elems(cs), to)
  {
    MoveEdgesMoves(g, cs, to);
    MovedRedirects(g, MoveEdges(g, cs, to), Elems(cs), to);
    RedirectAcyclic(Links(g), Links(MoveEdges(g, cs, to)), to);
  }
}
