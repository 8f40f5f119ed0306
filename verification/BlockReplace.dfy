/** `bdrv_replace_node` (block.c): all users of one node are moved to another, except those
    that must stay and those that would create a loop. */
module BlockReplace {
  import opened Reach
  import opened BlockGraph
  import opened BlockPerms
  import opened BlockRollback
  import opened BlockCompat
  import opened BlockExact
  import opened BlockLoosen
  import opened BlockEdit
  import opened BlockOps
  import opened BlockChange

  // ------------------------------------------------------------------ which edges to move

  /** `c` belongs to a node in the subtree of `to`. */
  ghost predicate InSubtree(g: Graph, c: EdgeId, to: NodeId) {
    exists n :: Holds(g, c, to, n)
  }

  ghost predicate Holds(g: Graph, c: EdgeId, to: NodeId, n: NodeId) {
    n in g.nodes && Reaches(Links(g), to, n) && c in g.nodes[n].children
  }

  ghost predicate Accepts(g: Graph, c: EdgeId, to: NodeId)
    requires c in g.edges
  {
    !g.edges[c].stayAtNode && !InSubtree(g, c, to)
  }

  /** The breadth-first search. Everything in `found` is reachable from `to`; a node that
      was found and is no longer in the queue has all its children found, unless `c` turned
      up among them. */
  ghost predicate Searched(g: Graph, to: NodeId, found: set<NodeId>, queue: seq<NodeId>) {
    && to in found
    && (forall n :: n in found ==> n in g.nodes && Reaches(Links(g), to, n))
    && (forall n :: n in queue ==> n in found)
  }

  ghost predicate Expanded(g: Graph, c: EdgeId, found: set<NodeId>, n: NodeId)
    requires n in g.nodes
  {
    forall e :: e in g.nodes[n].children && e in g.edges ==> e != c && g.edges[e].bs in found
  }

  lemma {:induction false} ClosedUnderPaths(g: Graph, c: EdgeId, to: NodeId, found: set<NodeId>, p: seq<nat>)
    requires WellFormed(g) && Searched(g, to, found, []) && (forall n :: n in found ==> Expanded(g, c, found, n))
    requires IsPath(Links(g), p) && p[0] == to
    ensures p[|p| - 1] in found
    decreases |p|
  {
    if |p| > 1 {
      var q := p[..|p| - 1];
      assert IsPath(Links(g), q);
      ClosedUnderPaths(g, c, to, found, q);
      var a, b := p[|p| - 2], p[|p| - 2 + 1];
      assert b in Links(g)[a] && Expanded(g, c, found, a);
    }
  }

  lemma SearchComplete(g: Graph, c: EdgeId, to: NodeId, found: set<NodeId>)
    requires WellFormed(g) && c in g.edges && Searched(g, to, found, []) && forall n :: n in found ==> Expanded(g, c, found, n)
    ensures !InSubtree(g, c, to)
  {
    forall n ensures !Holds(g, c, to, n) {
      if Holds(g, c, to, n) {
        var p :| Connects(Links(g), p, to, n);
        ClosedUnderPaths(g, c, to, found, p);
      }
    }
  }

  /** `should_update_child`: an edge is left alone exactly when its class asks for it or when
      it lies anywhere in the subtree of `to`. */
  method ShouldUpdateChild(g: Graph, c: EdgeId, to: NodeId) returns (ret: bool)
    requires WellFormed(g) && c in g.edges && to in g.nodes
    ensures ret <==> Accepts(g, c, to)
  {
    if g.edges[c].stayAtNode {
      return false;
    }
    ret := true;
    var found: set<NodeId>, queue: seq<NodeId> := {to}, [to];
    Refl(Links(g), to);
    while queue != []
      invariant Searched(g, to, found, queue)
      invariant !ret ==> InSubtree(g, c, to)
      invariant ret ==> forall n :: n in found && n !in queue ==> Expanded(g, c, found, n)
      decreases g.nodes.Keys - found, |queue|
    {
      var v := queue[0];
      ghost var found0, queue0 := found, queue;
      queue := queue[1..];
      assert NodeOk(g, v);
      var children, i := g.nodes[v].children, 0;
      while i < |children|
        invariant 0 <= i <= |children|
        invariant Searched(g, to, found, queue) && v in found
        invariant found0 <= found && (found == found0 ==> queue == queue0[1..])
        invariant forall n :: n in queue0[1..] ==> n in queue
        invariant forall n :: n in found ==> n in found0 || n in queue
        invariant !ret ==> InSubtree(g, c, to)
        invariant forall k :: 0 <= k < i ==> children[k] != c && children[k] in g.edges && g.edges[children[k]].bs in found
      {
        var c2 := children[i];
        assert EdgeOk(g, c2);
        if c2 == c {
          ret := false;
          assert Holds(g, c, to, v);
          break;
        }
        var m := g.edges[c2].bs;
        if m !in found {
          Step(Links(g), v, m);
          Trans(Links(g), to, v, m);
          queue := queue + [m];
          found := found + {m};
        }
        i := i + 1;
      }
      forall n | ret && n in found && n !in queue ensures Expanded(g, c, found, n) {
        if n != v {
          assert n in found0 && n !in queue0 && Expanded(g, c, found0, n);
        }
      }
    }
    if ret {
      SearchComplete(g, c, to, found);
    }
  }

  // ------------------------------------------------------------------ the replacement

  /** `bdrv_replace_node` once the list of edges is known. */
  function ReplaceNode(s: State, drv: DriverCheck, list: seq<EdgeId>, to: NodeId): (r: State)
    requires Movable(s.g, list, to) && Covers(s.g, s.st)
  {
    var c := CheckUpdatePerm(s.g, drv, s.st, to, Cum(s.st, Elems(list)), Elems(list));
    if !c.ok then State(s.g, AbortPerm(s.g, c.st, to))
    else
      MovableOk(s.g, list, to);
      var g' := MoveEdges(s.g, list, to);
      State(g', SetPerm(g', c.st, to, Cum(c.st, Parents(g', to))))
  }

  /** The edges that the first loop of `bdrv_replace_node` collects. */
  ghost predicate Movable(g: Graph, list: seq<EdgeId>, to: NodeId) {
    && Ok(g) && to in g.nodes
    && forall c :: c in list ==> c in g.edges && g.edges[c].bs in g.nodes && !InSubtree(g, c, to)
  }

  lemma MovableOk(g: Graph, list: seq<EdgeId>, to: NodeId)
    requires Movable(g, list, to)
    ensures Ok(MoveEdges(g, list, to)) && Moved(g, MoveEdges(g, list, to), Elems(list), to)
  {
    forall n, c | n in g.nodes && c in g.nodes[n].children && c in list ensures !Reaches(Links(g), to, n) {
      assert !Holds(g, c, to, n);
    }
    MoveEdgesOk(g, list, to);
  }

  lemma ListNotBelow(g: Graph, list: seq<EdgeId>, to: NodeId)
    requires Movable(g, list, to)
    ensures Elems(list) !! EdgesOf(g, Below(g, to))
  {
    forall c, k | c in list && k in Below(g, to) ensures c !in Kids(g, k) {
      assert !Holds(g, c, to, k);
      LiveReaches(g, to, k);
    }
  }

  /** The graph after the move, seen from one node. */
  lemma MovedNode(g: Graph, g': Graph, cs: set<EdgeId>, to: NodeId, k: NodeId)
    requires Ok(g) && Ok(g') && Moved(g, g', cs, to) && k in g.nodes && cs <= g.edges.Keys
    ensures Parents(g', k) == if k == to then Parents(g, k) + cs else Parents(g, k) - cs
    ensures Kids(g', k) == Kids(g, k) && Traits(g'.nodes[k]) == Traits(g.nodes[k])
  {
    ParentsAre(g, k);
    ParentsAre(g', k);
    assert g'.nodes[k].(parents := []) == g.nodes[k].(parents := []);
  }

  lemma MovedLive(g: Graph, g': Graph, cs: set<EdgeId>, to: NodeId, k: NodeId)
    requires Ok(g) && Ok(g') && Moved(g, g', cs, to) && k in g.nodes && forall c :: c in Kids(g, k) ==> c !in cs
    ensures Live(g')[k] == Live(g)[k]
  {
    assert g'.nodes[k].(parents := []) == g.nodes[k].(parents := []);
  }

  lemma MovedBelow(g: Graph, g': Graph, cs: set<EdgeId>, to: NodeId, n: NodeId)
    requires Ok(g) && Ok(g') && Moved(g, g', cs, to) && n in g.nodes && cs !! EdgesOf(g, Below(g, n))
    ensures Below(g', n) == Below(g, n) && EdgesOf(g', Below(g', n)) == EdgesOf(g, Below(g, n))
  {
    LiveOk(g);
    forall k | k in Down(Live(g), n) ensures Live(g')[k] == Live(g)[k] && Kids(g', k) == Kids(g, k) {
      assert g'.nodes[k].(parents := []) == g.nodes[k].(parents := []);
      MovedLive(g, g', cs, to, k);
    }
    DownAgrees(Live(g), Live(g'), n);
  }

  lemma CumUnion(st: PermMap, a: set<EdgeId>, b: set<EdgeId>)
    requires a <= st.Keys && b <= st.Keys
    ensures Cum(st, a + b) == Join(Cum(st, a), Cum(st, b))
  {
    var l, r := Cum(st, a + b), Join(Cum(st, a), Cum(st, b));
    assert l.perm == r.perm;
    assert l.shared == r.shared;
  }

  /** The users of `to` after the move: the moved edges and those it had. */
  lemma UsersAfterMove(g: Graph, drv: DriverCheck, st: PermMap, list: seq<EdgeId>, to: NodeId)
    requires Movable(g, list, to) && Covers(g, st)
    ensures var l, st1 := Elems(list), CheckUpdatePerm(g, drv, st, to, Cum(st, Elems(list)), Elems(list)).st;
            && Ok(MoveEdges(g, list, to))
            && Cum(st1, Parents(MoveEdges(g, list, to), to)) == Join(Cum(st, l), Cum(st, Parents(g, to) - l))
  {
    var l, u := Elems(list), Cum(st, Elems(list));
    var st1 := CheckUpdatePerm(g, drv, st, to, u, l).st;
    MovableOk(g, list, to);
    MovedNode(g, MoveEdges(g, list, to), l, to, to);
    CheckUpdateStages(g, drv, st, to, u, l);
    ListNotBelow(g, list, to);
    forall e | e in l + Parents(g, to) ensures st1[e].use == st[e].use {
      if e in Parents(g, to) {
        ParentNotBelow(g, to, e);
      }
    }
    CumFrame(st, st1, l);
    CumFrame(st, st1, Parents(g, to) - l);
    CumUnion(st1, l, Parents(g, to) - l);
    assert Parents(g, to) + l == l + (Parents(g, to) - l);
  }

  lemma MovedExactAt(g: Graph, g': Graph, st: PermMap, cs: set<EdgeId>, to: NodeId, k: NodeId)
    requires Covers(g, st) && Ok(g') && Moved(g, g', cs, to) && to in g.nodes && cs <= g.edges.Keys && k in g.nodes && k != to
    requires (forall c :: c in Kids(g, k) ==> c !in cs)
    requires ExactAt(g, st, cs, k)
    ensures Covers(g', st) && ExactAt(g', st, {}, k)
  {
    MovedNode(g, g', cs, to, k);
    assert NodeOk(g, k);
    forall c | c in Kids(g', k) ensures SameTarget(g, g', c) {
      assert EdgeOk(g, c) && EdgeOk(g', c);
      assert Traits(g'.nodes[g.edges[c].bs]) == Traits(g.nodes[g.edges[c].bs]) by {
        MovedNode(g, g', cs, to, g.edges[c].bs);
      }
    }
    forall n | n in g.nodes ensures Traits(g'.nodes[n]) == Traits(g.nodes[n]) {
      MovedNode(g, g', cs, to, n);
    }
    ExactTransfer(g, st, g', st, cs, k);
  }

  lemma MovedExactBelow(g: Graph, g': Graph, st: PermMap, cs: set<EdgeId>, to: NodeId, m: NodeId)
    requires Covers(g, st) && Ok(g') && Moved(g, g', cs, to) && to in g.nodes && cs <= g.edges.Keys && m in g.nodes
    requires cs !! EdgesOf(g, Below(g, m)) && to !in Below(g, m)
    requires ExactBelow(g, st, cs, m)
    ensures Covers(g', st) && ExactBelow(g', st, {}, m)
  {
    MovedBelow(g, g', cs, to, m);
    forall k | k in Below(g', m) && k in g'.nodes ensures ExactAt(g', st, {}, k) {
      assert ExactAt(g, st, cs, k);
      MovedExactAt(g, g', st, cs, to, k);
    }
  }

  lemma MovedExactKids(g: Graph, g': Graph, st: PermMap, cs: set<EdgeId>, to: NodeId, cum: Use)
    requires Covers(g, st) && Ok(g') && Moved(g, g', cs, to) && to in g.nodes && cs <= g.edges.Keys
    requires cs !! EdgesOf(g, Below(g, to))
    requires ExactKids(g, st, to, Kids(g, to), cum, cs)
    ensures Covers(g', st) && ExactKids(g', st, to, Kids(g', to), cum, {})
  {
    MovedNode(g, g', cs, to, to);
    Refl(Live(g), to);
    forall d | d in Kids(g', to) ensures IsKidUse(g', st, to, d, cum) && d in g'.edges && ExactBelow(g', st, {}, g'.edges[d].bs) {
      KidBelow(g, to, d);
      UnderKidsBelow(g, to, d);
      assert d in UnderEdge(g, d);
      var m := g.edges[d].bs;
      assert IsKidUse(g, st, to, d, cum) && ExactBelow(g, st, cs, m);
      MovedNode(g, g', cs, to, m);
      assert Traits(g'.nodes[m]) == Traits(g.nodes[m]);
      KidUseTransfer(g, g', to, d, cum);
      MovedExactBelow(g, g', st, cs, to, m);
    }
  }

  lemma ReplaceExact(g: Graph, drv: DriverCheck, st: PermMap, list: seq<EdgeId>, to: NodeId)
    requires Movable(g, list, to) && Covers(g, st) && CheckUpdatePerm(g, drv, st, to, Cum(st, Elems(list)), Elems(list)).ok
    ensures var g', st1 := MoveEdges(g, list, to), CheckUpdatePerm(g, drv, st, to, Cum(st, Elems(list)), Elems(list)).st;
            Covers(g', st1) && ExactBelow(g', st1, {}, to)
  {
    var l, u := Elems(list), Cum(st, Elems(list));
    var g', st1 := MoveEdges(g, list, to), CheckUpdatePerm(g, drv, st, to, u, l).st;
    MovableOk(g, list, to);
    ListNotBelow(g, list, to);
    CheckUpdateExact(g, drv, st, to, u, l, l);
    var cum := Join(u, Cum(st, Parents(g, to) - l));
    MovedExactKids(g, g', st1, l, to, cum);
    UsersAfterMove(g, drv, st, list, to);
    assert Parents(g', to) - {} == Parents(g', to);
    ExactFromKids(g', st1, to, cum, {});
  }

  /** A moved edge tolerates every user that `to` had, and the other way round. */
  lemma MovedUserCompatible(g: Graph, drv: DriverCheck, st: PermMap, list: seq<EdgeId>, to: NodeId, a: EdgeId, b: EdgeId)
    requires Movable(g, list, to) && Covers(g, st) && CheckUpdatePerm(g, drv, st, to, Cum(st, Elems(list)), Elems(list)).ok
    requires a in list && b in Parents(g, to) && b !in list
    ensures var st1 := CheckUpdatePerm(g, drv, st, to, Cum(st, Elems(list)), Elems(list)).st;
            st1[a] == st[a] && Compatible(st1[a].use, st1[b].use)
  {
    var l, u := Elems(list), Cum(st, Elems(list));
    ListNotBelow(g, list, to);
    CheckUpdateStages(g, drv, st, to, u, l);
    ParentsAre(g, to);
    CheckedUsers(g, drv, st, to, u, l, b);
    assert a in l && Looser(st[a].use, u);
  }

  /** Two users of the same node after the move. */
  lemma MovedPair(g: Graph, drv: DriverCheck, st: PermMap, list: seq<EdgeId>, from: NodeId, to: NodeId, a: EdgeId, b: EdgeId)
    requires Movable(g, list, to) && Covers(g, st) && Compat(g, st, {}) && (forall c :: c in list ==> g.edges[c].bs == from)
    requires CheckUpdatePerm(g, drv, st, to, Cum(st, Elems(list)), Elems(list)).ok
    requires a in g.edges && b in g.edges && a != b
    requires (if a in list then to else g.edges[a].bs) == (if b in list then to else g.edges[b].bs)
    ensures var st1 := CheckUpdatePerm(g, drv, st, to, Cum(st, Elems(list)), Elems(list)).st;
            st1[a].use.perm <= st1[b].use.shared
  {
    var l, u := Elems(list), Cum(st, Elems(list));
    if a in list && b in list {
      ListNotBelow(g, list, to);
      CheckUpdateStages(g, drv, st, to, u, l);
      assert CheckUpdatePerm(g, drv, st, to, u, l).st[a] == st[a];
    } else if a in list {
      ParentsAre(g, to);
      MovedUserCompatible(g, drv, st, list, to, a, b);
    } else if b in list {
      ParentsAre(g, to);
      MovedUserCompatible(g, drv, st, list, to, b, a);
    } else {
      CheckUpdateCompat(g, drv, st, to, u, l, l);
    }
  }

  lemma ReplaceCompat(g: Graph, drv: DriverCheck, st: PermMap, list: seq<EdgeId>, from: NodeId, to: NodeId)
    requires Movable(g, list, to) && Covers(g, st) && Compat(g, st, {}) && (forall c :: c in list ==> g.edges[c].bs == from)
    requires CheckUpdatePerm(g, drv, st, to, Cum(st, Elems(list)), Elems(list)).ok
    ensures var g', st1 := MoveEdges(g, list, to), CheckUpdatePerm(g, drv, st, to, Cum(st, Elems(list)), Elems(list)).st;
            st1.Keys == g'.edges.Keys && Compat(g', st1, {})
  {
    var l, u := Elems(list), Cum(st, Elems(list));
    var g', st1 := MoveEdges(g, list, to), CheckUpdatePerm(g, drv, st, to, u, l).st;
    MovableOk(g, list, to);
    forall a, b | a in g'.edges && b in g'.edges && a != b && g'.edges[a].bs == g'.edges[b].bs
      ensures st1[a].use.perm <= st1[b].use.shared
    {
      MovedPair(g, drv, st, list, from, to, a, b);
    }
  }

  /** The moved edge `c`, if node `k` owns it, is still as tight as `k` needs. Only the
      `force_share` of the old target can make a difference: it made the edge tolerate
      everything, and the edge keeps its permissions when it moves. */
  ghost predicate StillTight(g: Graph, st: PermMap, k: NodeId, c: EdgeId, to: NodeId)
    requires Covers(g, st) && k in g.nodes && c in g.edges && to in g.nodes && g.edges[c].bs in g.nodes
  {
    g.nodes[g.edges[c].bs].forceShare && !g.nodes[to].forceShare ==>
      st[c].use.shared <= DefaultChildPerms(g.nodes[k], g.edges[c].role, Cum(st, Parents(g, k))).shared
  }

  lemma MovedKidTight(g: Graph, g': Graph, st: PermMap, st': PermMap, cs: set<EdgeId>, to: NodeId, k: NodeId, c: EdgeId)
    requires Covers(g, st) && Covers(g', st') && Moved(g, g', cs, to) && to in g.nodes && cs <= g.edges.Keys
    requires k in g.nodes && c in Kids(g, k) && c in Kids(g', k) && c in g.edges && g.edges[c].bs in g.nodes && st'[c].use == st[c].use
    requires Looser(Cum(st', Parents(g', k)), Cum(st, Parents(g, k))) && TightAt(g, st, k)
    requires c in cs ==> StillTight(g, st, k, c, to)
    ensures KidTight(g', st', k, c, Cum(st', Parents(g', k)))
  {
    var cum, cum' := Cum(st, Parents(g, k)), Cum(st', Parents(g', k));
    assert EdgeOk(g', c) && KidTight(g, st, k, c, cum);
    MovedNode(g, g', cs, to, k);
    MovedNode(g, g', cs, to, to);
    MovedNode(g, g', cs, to, g.edges[c].bs);
    ChildPermMonotone(g.nodes[k], g.nodes[g.edges[c].bs], g.edges[c].role, cum', cum);
    ChildPermMonotone(g.nodes[k], g.nodes[to], g.edges[c].role, cum', cum);
    KidUseMoved(g, g', k, c, cum');
    forall p ensures p in ALL {
      InAll(p);
    }
  }

  /** The permissions that the new graph asks of an edge. */
  lemma KidUseMoved(g: Graph, g': Graph, k: NodeId, c: EdgeId, cum: Use)
    requires k in g.nodes && k in g'.nodes && Traits(g'.nodes[k]) == Traits(g.nodes[k])
    requires c in g.edges && c in g'.edges && g'.edges[c].bs in g'.nodes && g'.edges[c].bs in g.nodes && g'.edges[c].role == g.edges[c].role
    requires Traits(g'.nodes[g'.edges[c].bs]) == Traits(g.nodes[g'.edges[c].bs])
    ensures KidUse(g', k, c, cum) == ChildPerm(g.nodes[k], g.nodes[g'.edges[c].bs], g.edges[c].role, cum)
  {
    assert g'.nodes[g'.edges[c].bs].forceShare == Traits(g'.nodes[g'.edges[c].bs]).forceShare;
    assert DefaultChildPerms(g'.nodes[k], g.edges[c].role, cum) == DefaultChildPerms(g.nodes[k], g.edges[c].role, cum);
  }

  lemma UsersOutside(g: Graph, g': Graph, st: PermMap, st': PermMap, cs: set<EdgeId>, to: NodeId, k: NodeId)
    requires Covers(g, st) && Covers(g', st') && Moved(g, g', cs, to) && to in g.nodes && cs <= g.edges.Keys
    requires k in g.nodes && k !in Below(g, to) && k != to
    requires forall e :: e in g.edges && e !in EdgesOf(g, Below(g, to)) ==> st'[e].use == st[e].use
    ensures Kids(g', k) == Kids(g, k) && Looser(Cum(st', Parents(g', k)), Cum(st, Parents(g, k)))
    ensures (forall c :: c in cs ==> g.edges[c].bs != k) ==> Cum(st', Parents(g', k)) == Cum(st, Parents(g, k))
    ensures forall c :: c in Kids(g, k) ==> c in g.edges && st'[c].use == st[c].use
  {
    MovedNode(g, g', cs, to, k);
    assert NodeOk(g, k);
    ParentsAre(g, k);
    forall e | e in Parents(g, k) || e in Kids(g, k) ensures e in g.edges && st'[e].use == st[e].use {
      OutsideSubtree(g, to, k, e);
    }
    FewerUsers(st, st', Parents(g, k), Parents(g', k));
    if forall c :: c in cs ==> g.edges[c].bs != k {
      assert Parents(g', k) == Parents(g, k);
      CumFrame(st, st', Parents(g, k));
    }
  }

  lemma ReplaceTightOutside(g: Graph, g': Graph, st: PermMap, st': PermMap, cs: set<EdgeId>, to: NodeId, k: NodeId)
    requires Covers(g, st) && Covers(g', st') && Moved(g, g', cs, to) && to in g.nodes && cs <= g.edges.Keys
    requires forall e :: e in g.edges && e !in EdgesOf(g, Below(g, to)) ==> st'[e].use == st[e].use
    requires k in g.nodes && k !in Below(g, to) && k != to && TightAt(g, st, k)
    requires forall c :: c in Kids(g, k) && c in cs && c in g.edges && g.edges[c].bs in g.nodes ==> StillTight(g, st, k, c, to)
    ensures TightAt(g', st', k)
  {
    UsersOutside(g, g', st, st', cs, to, k);
    forall c | c in Kids(g', k) ensures KidTight(g', st', k, c, Cum(st', Parents(g', k))) {
      assert EdgeOk(g, c);
      MovedKidTight(g, g', st, st', cs, to, k, c);
    }
  }

  lemma ReplaceStagedBelow(s: State, drv: DriverCheck, list: seq<EdgeId>, to: NodeId)
    requires Covers(s.g, s.st) && NothingStaged(s.st) && Movable(s.g, list, to)
    ensures var g', st1 := MoveEdges(s.g, list, to), CheckUpdatePerm(s.g, drv, s.st, to, Cum(s.st, Elems(list)), Elems(list)).st;
            && Below(g', to) == Below(s.g, to)
            && forall d :: d in st1 && st1[d].backup.Some? ==> d in EdgesOf(g', Below(g', to))
  {
    var l, u := Elems(list), Cum(s.st, Elems(list));
    MovableOk(s.g, list, to);
    ListNotBelow(s.g, list, to);
    MovedBelow(s.g, MoveEdges(s.g, list, to), l, to, to);
    CheckUpdateStages(s.g, drv, s.st, to, u, l);
  }

  lemma ReplaceShares(s: State, drv: DriverCheck, list: seq<EdgeId>, to: NodeId)
    requires Covers(s.g, s.st) && AllShare(s.st) && Movable(s.g, list, to)
    ensures AllShare(CheckUpdatePerm(s.g, drv, s.st, to, Cum(s.st, Elems(list)), Elems(list)).st)
  {
    CumShares(s.st, Elems(list));
    CheckUpdateShares(s.g, drv, s.st, to, Cum(s.st, Elems(list)), Elems(list));
  }

  ghost predicate AllStillTight(s: State, list: seq<EdgeId>, to: NodeId)
    requires Covers(s.g, s.st) && to in s.g.nodes
  {
    forall k, c :: k in s.g.nodes && c in Kids(s.g, k) && c in list && c in s.g.edges && s.g.edges[c].bs in s.g.nodes
      ==> StillTight(s.g, s.st, k, c, to)
  }

  lemma ReplaceSucceeds(s: State, drv: DriverCheck, list: seq<EdgeId>, from: NodeId, to: NodeId)
    requires Inv(s.g, s.st) && Movable(s.g, list, to) && (forall c :: c in list ==> s.g.edges[c].bs == from)
    requires AllStillTight(s, list, to)
    requires CheckUpdatePerm(s.g, drv, s.st, to, Cum(s.st, Elems(list)), Elems(list)).ok
    ensures var r := ReplaceNode(s, drv, list, to); Inv(r.g, r.st) && r.g == MoveEdges(s.g, list, to)
  {
    var l, u := Elems(list), Cum(s.st, Elems(list));
    var g', st1 := MoveEdges(s.g, list, to), CheckUpdatePerm(s.g, drv, s.st, to, u, l).st;
    MovableOk(s.g, list, to);
    ReplaceExact(s.g, drv, s.st, list, to);
    ReplaceCompat(s.g, drv, s.st, list, from, to);
    ReplaceStagedBelow(s, drv, list, to);
    ReplaceShares(s, drv, list, to);
    CheckUpdateStages(s.g, drv, s.st, to, u, l);
    Refl(Live(s.g), to);
    forall k | k in g'.nodes && k !in Below(g', to) ensures TightAt(g', st1, k) {
      ReplaceTightOutside(s.g, g', s.st, st1, l, to, k);
    }
    ConfirmedInv(g', st1, to);
  }

  lemma ReplacedUses(s: State, drv: DriverCheck, list: seq<EdgeId>, to: NodeId, e: EdgeId)
    requires Covers(s.g, s.st) && Movable(s.g, list, to) && e in s.g.edges && e !in EdgesOf(s.g, Below(s.g, to))
    requires CheckUpdatePerm(s.g, drv, s.st, to, Cum(s.st, Elems(list)), Elems(list)).ok
    ensures var r := ReplaceNode(s, drv, list, to); e in r.st && r.st[e].use == s.st[e].use
  {
    var u, l := Cum(s.st, Elems(list)), Elems(list);
    MovableOk(s.g, list, to);
    ReplaceExact(s.g, drv, s.st, list, to);
    CheckUpdateStages(s.g, drv, s.st, to, u, l);
    SetConfirms(MoveEdges(s.g, list, to), CheckUpdatePerm(s.g, drv, s.st, to, u, l).st, to);
  }

  lemma OwnerOfMoved(g: Graph, list: seq<EdgeId>, to: NodeId, k: NodeId, c: EdgeId)
    requires Movable(g, list, to) && k in g.nodes && c in Kids(g, k) && c in list
    ensures k !in Below(g, to) && k != to && g.edges[c].bs != k
  {
    Refl(Links(g), to);
    if Reaches(Live(g), to, k) {
      LiveReaches(g, to, k);
    }
    assert !Holds(g, c, to, k);
    KidBelow(g, k, c);
  }

  lemma NecessarilyStillTight(s: State, drv: DriverCheck, list: seq<EdgeId>, from: NodeId, to: NodeId, k: NodeId, c: EdgeId)
    requires Inv(s.g, s.st) && Movable(s.g, list, to) && (forall c :: c in list ==> s.g.edges[c].bs == from)
    requires CheckUpdatePerm(s.g, drv, s.st, to, Cum(s.st, Elems(list)), Elems(list)).ok
    requires k in s.g.nodes && c in Kids(s.g, k) && c in list
    requires var r := ReplaceNode(s, drv, list, to); Inv(r.g, r.st)
    ensures StillTight(s.g, s.st, k, c, to)
  {
    var r, cs := ReplaceNode(s, drv, list, to), Elems(list);
    MovableOk(s.g, list, to);
    OwnerOfMoved(s.g, list, to, k, c);
    forall e | e in s.g.edges && e !in EdgesOf(s.g, Below(s.g, to)) ensures r.st[e].use == s.st[e].use {
      ReplacedUses(s, drv, list, to, e);
    }
    UsersOutside(s.g, r.g, s.st, r.st, cs, to, k);
    MovedNode(s.g, r.g, cs, to, k);
    MovedNode(s.g, r.g, cs, to, to);
    assert TightAt(r.g, r.st, k) && KidTight(r.g, r.st, k, c, Cum(r.st, Parents(r.g, k)));
    KidUseMoved(s.g, r.g, k, c, Cum(s.st, Parents(s.g, k)));
  }

  /** Replacing a node keeps the graph free of loops and moves exactly the listed edges; if
      the permissions cannot be granted, nothing changes. The permission invariant holds
      afterwards if and only if every moved edge that a node owns is still tight, which can
      fail only when `force_share` is lost. */
  lemma ReplaceKeepsInv(s: State, drv: DriverCheck, list: seq<EdgeId>, from: NodeId, to: NodeId)
    requires Inv(s.g, s.st) && Movable(s.g, list, to) && (forall c :: c in list ==> s.g.edges[c].bs == from)
    ensures var r, ok := ReplaceNode(s, drv, list, to), CheckUpdatePerm(s.g, drv, s.st, to, Cum(s.st, Elems(list)), Elems(list)).ok;
            && Ok(r.g)
            && (ok ==> forall e :: e in s.g.edges ==> e in r.g.edges && r.g.edges[e].bs == if e in list then to else s.g.edges[e].bs)
            && (ok ==> (Inv(r.g, r.st) <==> AllStillTight(s, list, to)))
            && (!ok ==> r == s)
  {
    if CheckUpdatePerm(s.g, drv, s.st, to, Cum(s.st, Elems(list)), Elems(list)).ok {
      MovableOk(s.g, list, to);
      if AllStillTight(s, list, to) {
        ReplaceSucceeds(s, drv, list, from, to);
      } else {
        var k, c :| k in s.g.nodes && c in Kids(s.g, k) && c in list && c in s.g.edges && s.g.edges[c].bs in s.g.nodes
                    && !StillTight(s.g, s.st, k, c, to);
        var r := ReplaceNode(s, drv, list, to);
        if Inv(r.g, r.st) {
          NecessarilyStillTight(s, drv, list, from, to, k, c);
        }
      }
    } else {
      ExactRollback(s.g, drv, s.st, to, Cum(s.st, Elems(list)), Elems(list));
    }
  }
}
