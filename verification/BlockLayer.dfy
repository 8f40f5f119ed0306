/** The block graph operations of block.c in place: the methods update the permission
    record of the edges and the lists of the nodes as the source does, loop by loop. */
module BlockLayer {
  import opened BlockGraph
  import opened BlockEdit
  import opened BlockChange
  import opened BlockReplace
  import P = BlockPerms
  import O = BlockOps
  import X = BlockExact
  import R = BlockRefresh

  class Layer {
    var graph: Graph
    var perms: P.PermMap

    constructor (graph: Graph, perms: P.PermMap)
      ensures this.graph == graph && this.perms == perms
    {
      this.graph, this.perms := graph, perms;
    }

    /** `bdrv_get_cumulative_perm`. */
    method GetCumulativePerm(n: NodeId) returns (u: P.Use)
      requires P.Covers(graph, perms) && n in graph.nodes
      ensures u == P.Cum(perms, P.Parents(graph, n))
    {
      var ps, i := graph.nodes[n].parents, 0;
      assert NodeOk(graph, n);
      u := P.Use({}, P.ALL);
      while i < |ps|
        invariant 0 <= i <= |ps| && u == P.Cum(perms, Elems(ps[..i]))
      {
        assert Elems(ps[..i + 1]) == Elems(ps[..i]) + {ps[i]};
        X.CumInsert(perms, Elems(ps[..i]), ps[i]);
        u := P.Join(perms[ps[i]].use, u);
        i := i + 1;
      }
      assert ps[..i] == ps && Elems(ps) == P.Parents(graph, n);
    }

    /** The loop of `bdrv_check_update_perm` over the users of a node. */
    method CheckUsers(n: NodeId, u: P.Use, ignore: set<EdgeId>) returns (conflict: bool, cum: P.Use)
      requires P.Covers(graph, perms) && n in graph.nodes
      ensures conflict <==> P.Conflicts(perms, P.Parents(graph, n) - ignore, u)
      ensures !conflict ==> cum == P.Join(u, P.Cum(perms, P.Parents(graph, n) - ignore))
    {
      var ps, i := graph.nodes[n].parents, 0;
      UsersOf(graph, perms, n);
      cum := u;
      JoinNobody(perms, u);
      assert Elems(ps[..0]) - ignore == {};
      while i < |ps|
        invariant 0 <= i <= |ps| && cum == P.Join(u, P.Cum(perms, Elems(ps[..i]) - ignore))
        invariant !P.Conflicts(perms, Elems(ps[..i]) - ignore, u)
      {
        var c := ps[i];
        NextUser(perms, ps, i, u, ignore);
        if c !in ignore {
          if !P.Compatible(u, perms[c].use) {
            return true, cum;
          }
          cum := P.Join(cum, perms[c].use);
        }
        i := i + 1;
      }
      assert ps[..i] == ps;
      conflict := false;
    }

    /** `bdrv_check_update_perm`. */
    method CheckUpdatePerm(drv: P.DriverCheck, n: NodeId, u: P.Use, ignore: set<EdgeId>) returns (ok: bool, tighten: bool)
      requires P.Covers(graph, perms) && n in graph.nodes
      modifies this`perms
      ensures P.Outcome(ok, tighten, perms) == P.CheckUpdatePerm(graph, drv, old(perms), n, u, ignore)
      decreases Below(graph, n), 2
    {
      var conflict, cum := CheckUsers(n, u, ignore);
      if conflict {
        return false, true;
      }
      ok, tighten := CheckPerm(drv, n, cum, ignore);
    }

    /** `bdrv_check_perm`. */
    method CheckPerm(drv: P.DriverCheck, n: NodeId, cum: P.Use, ignore: set<EdgeId>) returns (ok: bool, tighten: bool)
      requires P.Covers(graph, perms) && n in graph.nodes
      modifies this`perms
      ensures P.Outcome(ok, tighten, perms) == P.CheckPerm(graph, drv, old(perms), n, cum, ignore)
      decreases Below(graph, n), 1
    {
      var current := GetCumulativePerm(n);
      tighten := cum.perm - current.perm != {} || current.shared - cum.shared != {};
      NoneMissing(cum.perm, current.perm);
      NoneMissing(current.shared, cum.shared);
      var node := graph.nodes[n];
      if (P.Write in cum.perm || P.WriteUnchanged in cum.perm) && !node.writable {
        return false, tighten;
      }
      if (P.Write in cum.perm || P.WriteUnchanged in cum.perm) && P.Resize !in cum.perm && !node.sizeAligned {
        return false, tighten;
      }
      if node.drv.OwnCheck? {
        return drv(n, cum), tighten;
      }
      if node.drv.NoDriver? {
        return true, tighten;
      }
      var t: bool;
      ok, t := CheckKids(drv, n, cum, ignore);
      tighten := tighten || t;
    }

    /** The loop of `bdrv_check_perm` over the children. */
    method CheckKids(drv: P.DriverCheck, n: NodeId, cum: P.Use, ignore: set<EdgeId>) returns (ok: bool, tighten: bool)
      requires P.Covers(graph, perms) && n in graph.nodes && !graph.nodes[n].drv.NoDriver?
      modifies this`perms
      ensures P.Outcome(ok, tighten, perms) == P.CheckChildren(graph, drv, old(perms), n, Kids(graph, n), cum, ignore)
      decreases Below(graph, n), 0
    {
      var cs, i := graph.nodes[n].children, 0;
      ok, tighten := true, false;
      while i < |cs|
        invariant 0 <= i <= |cs| && ok && P.Covers(graph, perms)
        invariant var r := P.CheckChildren(graph, drv, perms, n, cs[i..], cum, ignore);
                  P.CheckChildren(graph, drv, old(perms), n, cs, cum, ignore) == r.(tighten := tighten || r.tighten)
      {
        KidBelow(graph, n, cs[i]);
        assert cs[i..][1..] == cs[i + 1..];
        var t: bool;
        ok, t := ChildCheckPerm(drv, cs[i], P.KidUse(graph, n, cs[i], cum), ignore);
        tighten := tighten || t;
        if !ok {
          return;
        }
        i := i + 1;
      }
    }

    /** `bdrv_child_check_perm`. */
    method ChildCheckPerm(drv: P.DriverCheck, c: EdgeId, u: P.Use, ignore: set<EdgeId>) returns (ok: bool, tighten: bool)
      requires P.Covers(graph, perms) && c in graph.edges
      modifies this`perms
      ensures P.Outcome(ok, tighten, perms) == P.ChildCheckPerm(graph, drv, old(perms), c, u, ignore)
      decreases Below(graph, graph.edges[c].bs), 3
    {
      assert EdgeOk(graph, c);
      ok, tighten := CheckUpdatePerm(drv, graph.edges[c].bs, u, ignore + {c});
      if ok {
        if perms[c].backup.None? {
          perms := perms[c := perms[c].(backup := Some(perms[c].use))];
        }
        perms := perms[c := perms[c].(use := u)];
      }
    }

    /** `bdrv_abort_perm_update`. */
    method AbortPermUpdate(n: NodeId)
      requires P.Covers(graph, perms) && n in graph.nodes
      modifies this`perms
      ensures perms == P.AbortPerm(graph, old(perms), n)
      decreases Below(graph, n), 1
    {
      if graph.nodes[n].drv.NoDriver? {
        return;
      }
      var cs, i := graph.nodes[n].children, 0;
      while i < |cs|
        invariant 0 <= i <= |cs| && P.Covers(graph, perms)
        invariant P.AbortPerm(graph, old(perms), n) == P.AbortChildren(graph, perms, n, cs[i..])
      {
        KidBelow(graph, n, cs[i]);
        assert cs[i..][1..] == cs[i + 1..];
        ChildAbortPermUpdate(cs[i]);
        i := i + 1;
      }
    }

    /** `bdrv_child_abort_perm_update`. */
    method ChildAbortPermUpdate(c: EdgeId)
      requires P.Covers(graph, perms) && c in graph.edges
      modifies this`perms
      ensures perms == P.ChildAbortPerm(graph, old(perms), c)
      decreases Below(graph, graph.edges[c].bs), 2
    {
      assert EdgeOk(graph, c);
      ghost var st := perms;
      if perms[c].backup.Some? {
        perms := perms[c := P.PermState(perms[c].backup.value, None)];
      }
      assert perms == st[c := P.Unstage(st[c])];
      AbortPermUpdate(graph.edges[c].bs);
    }

    /** `bdrv_set_perm`. */
    method SetPerm(n: NodeId, cum: P.Use)
      requires P.Covers(graph, perms) && n in graph.nodes
      modifies this`perms
      ensures perms == P.SetPerm(graph, old(perms), n, cum)
      decreases Below(graph, n), 1
    {
      if graph.nodes[n].drv.NoDriver? {
        return;
      }
      var cs, i := graph.nodes[n].children, 0;
      while i < |cs|
        invariant 0 <= i <= |cs| && P.Covers(graph, perms)
        invariant P.SetPerm(graph, old(perms), n, cum) == P.SetChildren(graph, perms, n, cs[i..], cum)
      {
        KidBelow(graph, n, cs[i]);
        assert cs[i..][1..] == cs[i + 1..];
        ChildSetPerm(cs[i], P.KidUse(graph, n, cs[i], cum));
        i := i + 1;
      }
    }

    /** `bdrv_child_set_perm`. */
    method ChildSetPerm(c: EdgeId, u: P.Use)
      requires P.Covers(graph, perms) && c in graph.edges
      modifies this`perms
      ensures perms == P.ChildSetPerm(graph, old(perms), c, u)
      decreases Below(graph, graph.edges[c].bs), 2
    {
      assert EdgeOk(graph, c);
      perms := perms[c := P.PermState(u, None)];
      var cum := GetCumulativePerm(graph.edges[c].bs);
      SetPerm(graph.edges[c].bs, cum);
    }

    /** `bdrv_child_try_set_perm`. */
    method TrySetPerm(drv: P.DriverCheck, c: EdgeId, u: P.Use) returns (ok: bool)
      requires P.Covers(graph, perms) && c in graph.edges
      modifies this`perms
      ensures O.SetResult(ok, perms) == O.TrySetPerm(graph, drv, old(perms), c, u)
    {
      var tighten: bool;
      ok, tighten := ChildCheckPerm(drv, c, u, {});
      if !ok {
        ChildAbortPermUpdate(c);
        return !tighten;
      }
      ChildSetPerm(c, u);
    }

    /** `bdrv_child_refresh_perms`. */
    method RefreshPerms(drv: P.DriverCheck, bs: NodeId, c: EdgeId) returns (ok: bool)
      requires P.Covers(graph, perms) && bs in graph.nodes && c in Kids(graph, bs)
      modifies this`perms
      ensures O.SetResult(ok, perms) == R.RefreshPerms(graph, drv, old(perms), bs, c)
    {
      KidBelow(graph, bs, c);
      var cum := GetCumulativePerm(bs);
      var u := P.ChildPerm(graph.nodes[bs], graph.nodes[graph.edges[c].bs], graph.edges[c].role, cum);
      ok := TrySetPerm(drv, c, u);
    }

    /** The part of `bdrv_replace_child` that updates the node that lost a user. The assertion
        of the source that nothing is tightened is the first clause of `BlockOps.RecheckKeepsInv`. */
    method LoosenOldNode(drv: P.DriverCheck, n: NodeId)
      requires P.Covers(graph, perms) && n in graph.nodes
      modifies this`perms
      ensures perms == O.Recheck(graph, drv, old(perms), n)
    {
      var cum := GetCumulativePerm(n);
      var ok, _ := CheckPerm(drv, n, cum, {});
      if !ok {
        AbortPermUpdate(n);
      } else {
        SetPerm(n, cum);
      }
    }

    /** `bdrv_detach_child`. */
    method DetachChild(drv: P.DriverCheck, c: EdgeId)
      requires P.Covers(graph, perms) && c in graph.edges
      modifies this
      ensures State(graph, perms) == Detach(State(old(graph), old(perms)), drv, c)
    {
      RemoveEdgeOk(graph, c);
      assert EdgeOk(graph, c);
      var n := graph.edges[c].bs;
      graph, perms := RemoveEdge(graph, c), perms - {c};
      LoosenOldNode(drv, n);
    }

    /** `bdrv_root_attach_child`; `aioOk` says whether the AioContexts could be reconciled. */
    method RootAttachChild(drv: P.DriverCheck, e: EdgeId, edge: Edge, u: P.Use, aioOk: bool) returns (ok: bool)
      requires P.Covers(graph, perms) && e !in graph.edges && edge.bs in graph.nodes
      modifies this
      ensures State(graph, perms) == RootAttach(State(old(graph), old(perms)), drv, e, edge, u, aioOk)
      ensures ok <==> e in graph.edges
    {
      var tighten: bool;
      ok, tighten := CheckUpdatePerm(drv, edge.bs, u, {});
      if !ok || !aioOk {
        AbortPermUpdate(edge.bs);
        return false;
      }
      AddUserOk(graph, e, edge);
      graph, perms := AddUser(graph, e, edge), perms[e := P.PermState(u, None)];
      var cum := GetCumulativePerm(edge.bs);
      SetPerm(edge.bs, cum);
    }

    /** `bdrv_attach_child`. */
    method AttachChild(drv: P.DriverCheck, p: NodeId, e: EdgeId, edge: Edge, aioOk: bool) returns (ok: bool)
      requires P.Covers(graph, perms) && e !in graph.edges && edge.bs in graph.nodes && p in graph.nodes
      modifies this
      ensures State(graph, perms) == BlockChange.AttachChild(State(old(graph), old(perms)), drv, p, e, edge, aioOk)
      ensures ok <==> e in graph.edges
    {
      var cum := GetCumulativePerm(p);
      var u := P.ChildPerm(graph.nodes[p], graph.nodes[edge.bs], edge.role, cum);
      ok := RootAttachChild(drv, e, edge, u, aioOk);
      if !ok {
        return;
      }
      graph := AddChild(graph, p, e);
    }

    /** The first loop of `bdrv_replace_node`: the users of `from` that have to move. A frozen
        one among them stops the operation. */
    method CollectUsers(from: NodeId, to: NodeId) returns (ok: bool, list: seq<EdgeId>)
      requires Ok(graph) && from in graph.nodes && to in graph.nodes
      ensures ok <==> forall c :: c in P.Parents(graph, from) && Accepts(graph, c, to) ==> !graph.edges[c].frozen
      ensures ok ==> forall c :: c in list <==> c in P.Parents(graph, from) && Accepts(graph, c, to)
    {
      var ps, i := graph.nodes[from].parents, 0;
      assert NodeOk(graph, from);
      ok, list := true, [];
      while i < |ps|
        invariant 0 <= i <= |ps| && ok
        invariant forall c :: c in list <==> c in ps[..i] && c in graph.edges && Accepts(graph, c, to)
        invariant forall c :: c in list ==> !graph.edges[c].frozen
      {
        var c := ps[i];
        var update := ShouldUpdateChild(graph, c, to);
        if update {
          if graph.edges[c].frozen {
            return false, list;
          }
          list := [c] + list;
        }
        i := i + 1;
      }
      assert ps[..i] == ps;
    }

    /** The loop of `bdrv_replace_node` that moves the collected edges. */
    method MoveUsers(list: seq<EdgeId>, to: NodeId)
      requires to in graph.nodes && forall c :: c in list ==> c in graph.edges && graph.edges[c].bs in graph.nodes
      modifies this`graph
      ensures graph == MoveEdges(old(graph), list, to)
    {
      var i := 0;
      while i < |list|
        invariant 0 <= i <= |list| && to in graph.nodes
        invariant forall c :: c in list ==> c in graph.edges && graph.edges[c].bs in graph.nodes
        invariant MoveEdges(old(graph), list, to) == MoveEdges(graph, list[i..], to)
      {
        assert list[i..][1..] == list[i + 1..];
        graph := MoveEdge(graph, list[i], to);
        i := i + 1;
      }
    }

    /** `bdrv_replace_node`. */
    method ReplaceNode(drv: P.DriverCheck, from: NodeId, to: NodeId) returns (ok: bool, list: seq<EdgeId>)
      requires P.Covers(graph, perms) && from in graph.nodes && to in graph.nodes
      modifies this
      ensures ok <==> forall c :: c in P.Parents(old(graph), from) && Accepts(old(graph), c, to) ==> !old(graph).edges[c].frozen
      ensures !ok ==> graph == old(graph) && perms == old(perms)
      ensures ok ==> forall c :: c in list <==> c in P.Parents(old(graph), from) && Accepts(old(graph), c, to)
      ensures ok ==> Movable(old(graph), list, to)
      ensures ok ==> State(graph, perms) == BlockReplace.ReplaceNode(State(old(graph), old(perms)), drv, list, to)
    {
      assert NodeOk(graph, from);
      ok, list := CollectUsers(from, to);
      if !ok {
        return;
      }
      var u := CumulativeOf(list);
      var granted, _ := CheckUpdatePerm(drv, to, u, Elems(list));
      if !granted {
        AbortPermUpdate(to);
        return;
      }
      MovableOk(graph, list, to);
      MoveUsers(list, to);
      u := GetCumulativePerm(to);
      SetPerm(to, u);
    }

    /** The permissions that `bdrv_replace_node` gathers while it collects the edges. */
    method CumulativeOf(list: seq<EdgeId>) returns (u: P.Use)
      requires Elems(list) <= perms.Keys
      ensures u == P.Cum(perms, Elems(list))
    {
      var i := 0;
      u := P.Use({}, P.ALL);
      while i < |list|
        invariant 0 <= i <= |list| && u == P.Cum(perms, Elems(list[..i]))
      {
        assert Elems(list[..i + 1]) == Elems(list[..i]) + {list[i]};
        X.CumInsert(perms, Elems(list[..i]), list[i]);
        u := P.Join(perms[list[i]].use, u);
        i := i + 1;
      }
      assert list[..i] == list;
    }
  }

  lemma UsersOf(g: Graph, st: P.PermMap, n: NodeId)
    requires P.Covers(g, st) && n in g.nodes
    ensures Elems(g.nodes[n].parents) == P.Parents(g, n) && Elems(g.nodes[n].parents) <= st.Keys
  {
    assert NodeOk(g, n);
  }

  lemma JoinSwaps(a: P.Use, b: P.Use, c: P.Use)
    ensures P.Join(P.Join(a, b), c) == P.Join(a, P.Join(c, b))
  {
    assert a.perm + b.perm + c.perm == a.perm + (c.perm + b.perm);
    assert a.shared * b.shared * c.shared == a.shared * (c.shared * b.shared);
  }

  /** One round of the loop over the users of a node: an ignored user adds nothing. */
  lemma NextUser(st: P.PermMap, ps: seq<EdgeId>, i: nat, u: P.Use, ignore: set<EdgeId>)
    requires i < |ps| && Elems(ps) <= st.Keys
    ensures ps[i] in st && Elems(ps[..i]) - ignore <= st.Keys && Elems(ps[..i + 1]) - ignore <= st.Keys
    ensures var before, after := Elems(ps[..i]) - ignore, Elems(ps[..i + 1]) - ignore;
            if ps[i] in ignore then after == before
            else
              && P.Join(u, P.Cum(st, after)) == P.Join(P.Join(u, P.Cum(st, before)), st[ps[i]].use)
              && (P.Conflicts(st, after, u) <==> P.Conflicts(st, before, u) || !P.Compatible(u, st[ps[i]].use))
              && (P.Compatible(u, st[ps[i]].use) || P.Conflicts(st, Elems(ps) - ignore, u))
  {
    var before, after := Elems(ps[..i]) - ignore, Elems(ps[..i + 1]) - ignore;
    if ps[i] in ignore {
      assert after == before;
    } else {
      assert after == before + {ps[i]};
      assert ps[i] in Elems(ps) - ignore;
      X.CumInsert(st, before, ps[i]);
      JoinSwaps(u, P.Cum(st, before), st[ps[i]].use);
    }
  }

  lemma JoinNobody(st: P.PermMap, u: P.Use)
    ensures P.Join(u, P.Cum(st, {})) == u
  {
    var cum := P.Cum(st, {});
    assert u.perm + cum.perm == u.perm;
    forall p ensures p in u.shared * cum.shared <==> p in u.shared {
      P.InAll(p);
    }
    assert u.shared * cum.shared == u.shared;
  }

  lemma NoneMissing(a: set<P.Perm>, b: set<P.Perm>)
    ensures a - b == {} <==> a <= b
  {
    if a - b == {} {
      forall p | p in a ensures p in b {
        assert p !in a - b;
      }
    }
  }
}
