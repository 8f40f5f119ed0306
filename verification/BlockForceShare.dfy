/** A block graph in which replacing a node breaks the permission invariant, because the
    new node does not have the `force_share` of the old one. */
module BlockForceShare {
  import opened Lists
  import opened Reach
  import opened BlockGraph
  import opened BlockPerms
  import opened BlockRollback
  import opened BlockCompat
  import opened BlockLoosen
  import opened BlockEdit
  import opened BlockOps
  import opened BlockChange
  import opened BlockReplace
  import opened BlockSafety

  /** Node 0 filters node 1, which was opened read-only with `force_share`; node 2 is to
      replace node 1. Of the two users of node 0 the first tolerates no writer, the second
      tolerates everything. */
  function Before(): State {
    State(Graph(map[0 := Node([10], [20, 21], DefaultPerms, true, false, false, true, false),
                    1 := Node([], [10], Childless, false, false, false, true, true),
                    2 := Node([], [], Childless, true, false, false, true, false)],
                map[10 := Edge(1, Filtered, false, false), 20 := Edge(0, Filtered, false, false), 21 := Edge(0, Filtered, false, false)]),
          map[10 := PermState(Use({}, ALL), None), 20 := PermState(Use({}, {WriteUnchanged}), None), 21 := PermState(Use({}, ALL), None)])
  }

  lemma BeforeNode(n: NodeId)
    requires n in Before().g.nodes
    ensures NodeOk(Before().g, n)
  {
    var g := Before().g;
    assert g.nodes[0].children == [10] && g.nodes[0].parents == [20, 21] && g.nodes[1].parents == [10];
  }

  lemma BeforeWellFormed()
    ensures WellFormed(Before().g)
  {
    var g := Before().g;
    forall n | n in g.nodes ensures NodeOk(g, n) {
      BeforeNode(n);
    }
    forall e | e in g.edges ensures EdgeOk(g, e) {}
    forall n, m, e | n in g.nodes && m in g.nodes ensures OneOwner(g, n, m, e) {}
  }

  lemma BeforeOk()
    ensures Ok(Before().g)
  {
    var g := Before().g;
    BeforeWellFormed();
    LinksClosed(g);
    forall a, b | a in Links(g) && b in Links(g)[a] ensures !Reaches(Links(g), b, a) {
      assert a == 0 && b == 1;
      if Reaches(Links(g), 1, 0) {
        var m := FirstStep(Links(g), 1, 0);
      }
    }
  }

  lemma BeforeCompat()
    ensures Before().st.Keys == Before().g.edges.Keys && Compat(Before().g, Before().st, {})
  {
  }

  lemma BeforeTight(k: NodeId)
    requires Covers(Before().g, Before().st) && k in Before().g.nodes
    ensures TightAt(Before().g, Before().st, k)
  {
    var s := Before();
    forall c | c in Kids(s.g, k) ensures KidTight(s.g, s.st, k, c, Cum(s.st, Parents(s.g, k))) {
      assert k == 0 && c == 10;
    }
  }

  lemma BeforeInv()
    ensures Inv(Before().g, Before().st)
  {
    BeforeOk();
    BeforeCompat();
    var s := Before();
    forall k | k in s.g.nodes ensures TightAt(s.g, s.st, k) {
      BeforeTight(k);
    }
  }

  lemma Edge10Moves()
    ensures Movable(Before().g, [10], 2) && Kids(Before().g, 0) == [10]
  {
    BeforeOk();
    var g := Before().g;
    forall n ensures !Holds(g, 10, 2, n) {
      if Holds(g, 10, 2, n) {
        assert n == 0;
        LinksClosed(g);
        var m := FirstStep(Links(g), 2, 0);
      }
    }
  }

  lemma CheckSucceeds(drv: DriverCheck)
    requires Covers(Before().g, Before().st)
    ensures CheckUpdatePerm(Before().g, drv, Before().st, 2, Cum(Before().st, {10}), {10}).ok
  {
    var g, st := Before().g, Before().st;
    assert Kids(g, 2) == [] && Parents(g, 2) - {10} == {};
    assert Cum(st, {10}).perm == {};
  }

  lemma NotStillTight()
    requires Covers(Before().g, Before().st)
    ensures !StillTight(Before().g, Before().st, 0, 10, 2)
  {
    var s := Before();
    assert 20 in Parents(s.g, 0) && Resize !in s.st[20].use.shared;
    assert Resize !in Cum(s.st, Parents(s.g, 0)).shared;
  }

  /** The replacement succeeds, and afterwards the edge from node 0 tolerates more than the
      user of node 0 does. */
  lemma ForceShareLost(drv: DriverCheck)
    ensures var s := Before();
            && Inv(s.g, s.st) && Movable(s.g, [10], 2)
            && CheckUpdatePerm(s.g, drv, s.st, 2, Cum(s.st, Elems([10])), Elems([10])).ok
            && var r := ReplaceNode(s, drv, [10], 2); r.g.edges[10].bs == 2 && !Inv(r.g, r.st)
  {
    var s := Before();
    BeforeInv();
    Edge10Moves();
    assert Elems([10]) == {10};
    CheckSucceeds(drv);
    ReplaceKeepsInv(s, drv, [10], 1, 2);
    NotStillTight();
  }

  // ------------------------------------------------------------------ what follows

  lemma NothingBelowTwo(e: EdgeId)
    requires Ok(Before().g)
    ensures e !in EdgesOf(Before().g, Below(Before().g, 2))
  {
    var g := Before().g;
    LiveOk(g);
    forall k | k in Below(g, 2) ensures k == 2 {
      if k != 2 {
        var m := FirstStep(Live(g), 2, k);
      }
    }
    assert Kids(g, 2) == [];
  }

  /** The graph after the replacement. */
  function Moved(): Graph {
    MoveEdge(Before().g, 10, 2)
  }

  lemma MoveShape()
    ensures MoveEdges(Before().g, [10], 2) == Moved()
  {
    assert [10][1..] == [];
  }

  /** Edge 10 leads from node 0 to node 2, and 20 is the only user of node 0. */
  ghost predicate Arranged(g: Graph) {
    && 0 in g.nodes && 2 in g.nodes && 10 in g.edges && 20 in g.edges
    && g.nodes[0].children == [10] && g.nodes[0].drv.DefaultPerms? && g.nodes[0].parents == [20]
    && g.nodes[2].parents == [10] && !g.nodes[2].forceShare
    && g.edges[10].bs == 2 && g.edges[10].role.Filtered?
  }

  lemma MovedNodes()
    ensures var g := Moved();
            && 0 in g.nodes && 2 in g.nodes && g.nodes[0] == Before().g.nodes[0] && g.nodes[2] == Before().g.nodes[2].(parents := [10])
            && 10 in g.edges && 20 in g.edges && 21 in g.edges && g.edges[10] == Edge(2, Filtered, false, false) && g.edges[21].bs == 0
  {}

  lemma Removals()
    ensures Without([10], 21) == [10] && Without([20, 21], 21) == [20]
  {
    assert [10][..0] == [] && [20, 21][..1] == [20] && [20][..0] == [];
    assert Without([20], 21) == [20];
  }

  lemma DetachShape()
    ensures Arranged(RemoveEdge(Moved(), 21))
  {
    Removals();
    MovedNodes();
    var g := Moved();
    assert g.nodes[0].children == [10] && g.nodes[0].parents == [20, 21];
    RemovedNode(g, 21, 0);
    RemovedNode(g, 21, 2);
  }

  lemma RemovedNode(g: Graph, c: EdgeId, n: NodeId)
    requires n in g.nodes
    ensures var r := RemoveEdge(g, c);
            n in r.nodes && r.nodes[n] == g.nodes[n].(children := Without(g.nodes[n].children, c), parents := Without(g.nodes[n].parents, c))
  {}

  lemma UseKept(drv: DriverCheck, e: EdgeId)
    requires e in Before().g.edges && Movable(Before().g, [10], 2) && Covers(Before().g, Before().st)
    ensures var r := ReplaceNode(Before(), drv, [10], 2); e in r.st && r.st[e].use == Before().st[e].use
  {
    assert Elems([10]) == {10};
    CheckSucceeds(drv);
    NothingBelowTwo(e);
    ReplacedUses(Before(), drv, [10], 2, e);
  }

  lemma MovedSafe(drv: DriverCheck)
    requires Movable(Before().g, [10], 2) && Inv(Before().g, Before().st)
    ensures var r := ReplaceNode(Before(), drv, [10], 2); r.g == MoveEdges(Before().g, [10], 2) && Safe(r.g, r.st)
  {
    assert Elems([10]) == {10};
    CheckSucceeds(drv);
    ReplaceKeepsSafe(Before(), drv, [10], 1, 2);
  }

  /** An edge that tolerates everything, under a node with a user that does not. */
  lemma {:induction false} LoosenedTightens(g: Graph, drv: DriverCheck, st: PermMap, n: NodeId, m: NodeId, c: EdgeId, e: EdgeId)
    requires Covers(g, st) && n in g.nodes && m in g.nodes && c in g.edges && g.edges[c].bs == m && g.edges[c].role.Filtered?
    requires Kids(g, n) == [c] && Parents(g, n) == {e} && Parents(g, m) == {c} && g.nodes[n].drv.DefaultPerms? && !g.nodes[m].forceShare
    requires st[c].use == Use({}, ALL) && st[e].use.perm == {} && Resize !in st[e].use.shared
    ensures CheckPerm(g, drv, st, n, Cum(st, Parents(g, n)), {}).tighten
  {
    var cum := Cum(st, Parents(g, n));
    assert e in Parents(g, n) && Resize !in cum.shared && cum.perm == {};
    var u := KidUse(g, n, c, cum);
    assert Resize !in u.shared && Resize in Cum(st, Parents(g, m)).shared;
    assert CheckUpdatePerm(g, drv, st, m, u, {} + {c}).tighten;
    assert ChildCheckPerm(g, drv, st, c, u, {}).tighten;
    assert [c][1..] == [];
    assert CheckChildren(g, drv, st, n, [c], cum, {}).tighten;
  }

  /** Removing edge 21 from `s` makes the update of its node report tightening. */
  ghost predicate DetachTightens(s: State, drv: DriverCheck) {
    && 21 in s.g.edges && s.g.edges[21].bs == 0
    && var g, st := RemoveEdge(s.g, 21), s.st - {21};
       Covers(g, st) && 0 in g.nodes && CheckPerm(g, drv, st, 0, Cum(st, Parents(g, 0)), {}).tighten
  }

  lemma ArrangedTightens(s: State, drv: DriverCheck)
    requires Covers(s.g, s.st) && 21 in s.g.edges && s.g.edges[21].bs == 0
    requires Arranged(RemoveEdge(s.g, 21)) && 10 in s.st && 20 in s.st
    requires s.st[10].use == Use({}, ALL) && s.st[20].use == Use({}, {WriteUnchanged})
    ensures DetachTightens(s, drv)
  {
    RemoveEdgeOk(s.g, 21);
    var g := RemoveEdge(s.g, 21);
    assert Parents(g, 0) == {20} && Parents(g, 2) == {10};
    LoosenedTightens(g, drv, s.st - {21}, 0, 2, 10, 20);
  }

  lemma ReplacementIs(drv: DriverCheck)
    ensures Movable(Before().g, [10], 2) && Covers(Before().g, Before().st)
    ensures var r := ReplaceNode(Before(), drv, [10], 2);
            Safe(r.g, r.st) && r.g == Moved() && 10 in r.st && 20 in r.st
            && r.st[10].use == Use({}, ALL) && r.st[20].use == Use({}, {WriteUnchanged})
  {
    BeforeInv();
    Edge10Moves();
    MovedSafe(drv);
    UseKept(drv, 10);
    UseKept(drv, 20);
    MoveShape();
  }

  /** What the loss leads to: after the replacement, removing the user that tolerates
      everything makes the update of node 0 report tightening, which the assertion in
      `bdrv_replace_child` rules out. */
  lemma AssertionFails(drv: DriverCheck)
    ensures Movable(Before().g, [10], 2) && Covers(Before().g, Before().st)
    ensures var r := ReplaceNode(Before(), drv, [10], 2); Safe(r.g, r.st) && DetachTightens(r, drv)
  {
    ReplacementIs(drv);
    MovedNodes();
    DetachShape();
    ArrangedTightens(ReplaceNode(Before(), drv, [10], 2), drv);
  }
}
