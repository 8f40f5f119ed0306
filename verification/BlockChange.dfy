/** Attaching and detaching an edge (block.c), with the permission updates that go with it. */
module BlockChange {
  import opened Reach
  import opened BlockGraph
  import opened BlockPerms
  import opened BlockRollback
  import opened BlockCompat
  import opened BlockExact
  import opened BlockLoosen
  import opened BlockEdit
  import opened BlockOps

  datatype State = State(g: Graph, st: PermMap)

  // ------------------------------------------------------------------ detach

  /** `bdrv_detach_child`. */
  function Detach(s: State, drv: DriverCheck, c: EdgeId): (r: State)
    requires Covers(s.g, s.st) && c in s.g.edges
  {
    RemoveEdgeOk(s.g, c);
    assert EdgeOk(s.g, c);
    var g' := RemoveEdge(s.g, c);
    State(g', Recheck(g', drv, s.st - {c}, s.g.edges[c].bs))
  }

  lemma WithoutEdgeKids(g: Graph, c: EdgeId, k: NodeId)
    requires Ok(g) && k in g.nodes
    ensures SameKids(g, RemoveEdge(g, c), k)
    ensures Parents(RemoveEdge(g, c), k) <= Parents(g, k)
  {
    assert NodeOk(g, k);
    forall d | d in Kids(RemoveEdge(g, c), k) ensures SameTarget(g, RemoveEdge(g, c), d) {
      assert EdgeOk(g, d);
    }
  }

  lemma WithoutEdgeInv(g: Graph, st: PermMap, c: EdgeId)
    requires Inv(g, st)
    ensures Inv(RemoveEdge(g, c), st - {c})
  {
    var g', st' := RemoveEdge(g, c), st - {c};
    RemoveEdgeOk(g, c);
    assert Covers(g', st');
    forall k | k in g'.nodes ensures TightAt(g', st', k) {
      WithoutEdgeKids(g, c, k);
      FewerUsers(st, st', Parents(g, k), Parents(g', k));
      TightTransfer(g, st, g', st', k);
    }
  }

  /** Removing an edge keeps the invariant, and the update of the node it pointed to never
      reports tightening: the assertion in `bdrv_replace_child` holds. */
  lemma DetachKeepsInv(s: State, drv: DriverCheck, c: EdgeId)
    requires Inv(s.g, s.st) && c in s.g.edges
    ensures var r, n := Detach(s, drv, c), s.g.edges[c].bs;
            && Inv(r.g, r.st)
            && c !in r.g.edges
            && n in r.g.nodes
            && !CheckPerm(r.g, drv, s.st - {c}, n, Cum(s.st - {c}, Parents(r.g, n)), {}).tighten
  {
    assert EdgeOk(s.g, c);
    RemoveEdgeOk(s.g, c);
    WithoutEdgeInv(s.g, s.st, c);
    RecheckKeepsInv(RemoveEdge(s.g, c), drv, s.st - {c}, s.g.edges[c].bs);
  }

  // ------------------------------------------------------------------ attach

  /** `bdrv_root_attach_child`. `aioOk` says whether node and user can be brought into one
      AioContext. */
  function RootAttach(s: State, drv: DriverCheck, e: EdgeId, edge: Edge, u: Use, aioOk: bool): (r: State)
    requires Covers(s.g, s.st) && e !in s.g.edges && edge.bs in s.g.nodes
  {
    var c := CheckUpdatePerm(s.g, drv, s.st, edge.bs, u, {});
    if !c.ok || !aioOk then State(s.g, AbortPerm(s.g, c.st, edge.bs))
    else
      AddUserOk(s.g, e, edge);
      var g', st' := AddUser(s.g, e, edge), c.st[e := PermState(u, None)];
      State(g', SetPerm(g', st', edge.bs, Cum(st', Parents(g', edge.bs))))
  }

  /** Facts about the graph with one user more. */
  lemma UserAdded(g: Graph, e: EdgeId, edge: Edge, k: NodeId)
    requires Ok(g) && e !in g.edges && edge.bs in g.nodes && k in g.nodes
    ensures var g' := AddUser(g, e, edge);
            && Parents(g', k) == (if k == edge.bs then Parents(g, k) + {e} else Parents(g, k))
            && Kids(g', k) == Kids(g, k) && SameKids(g, g', k) && e !in Kids(g, k)
  {
    assert NodeOk(g, k);
    var g' := AddUser(g, e, edge);
    forall d | d in Kids(g', k) ensures SameTarget(g, g', d) {
      assert EdgeOk(g, d);
    }
  }

  lemma AttachedBelow(g: Graph, e: EdgeId, edge: Edge)
    requires Ok(g) && e !in g.edges && edge.bs in g.nodes
    ensures var g', n := AddUser(g, e, edge), edge.bs;
            Below(g', n) == Below(g, n) && EdgesOf(g', Below(g', n)) == EdgesOf(g, Below(g, n))
  {
    AddUserOk(g, e, edge);
    var g' := AddUser(g, e, edge);
    assert forall k :: k in g.nodes ==> Kids(g', k) == Kids(g, k);
  }

  lemma AttachExact(g: Graph, drv: DriverCheck, st: PermMap, e: EdgeId, edge: Edge, u: Use)
    requires Covers(g, st) && e !in g.edges && edge.bs in g.nodes && CheckUpdatePerm(g, drv, st, edge.bs, u, {}).ok
    ensures Ok(AddUser(g, e, edge))
    ensures ExactBelow(AddUser(g, e, edge), CheckUpdatePerm(g, drv, st, edge.bs, u, {}).st[e := PermState(u, None)], {}, edge.bs)
  {
    var n, st1 := edge.bs, CheckUpdatePerm(g, drv, st, edge.bs, u, {}).st;
    var g', st2 := AddUser(g, e, edge), st1[e := PermState(u, None)];
    AddUserOk(g, e, edge);
    CheckUpdateExact(g, drv, st, n, u, {}, {});
    CheckUpdateStages(g, drv, st, n, u, {});
    UsersUntouched(g, st, st1, n);
    assert Parents(g, n) - {} == Parents(g, n);
    var cum := Join(u, Cum(st, Parents(g, n)));
    AttachKids(g, st1, e, edge, u, cum);
    UserAdded(g, e, edge, n);
    CumFrame(st1, st2, Parents(g, n));
    CumInsert(st2, Parents(g, n), e);
    assert Parents(g', n) - {} == Parents(g', n);
    ExactFromKids(g', st2, n, cum, {});
  }

  /** What is exact below the kids of the node stays so when the node gets a user. */
  lemma AttachKids(g: Graph, st: PermMap, e: EdgeId, edge: Edge, u: Use, cum: Use)
    requires Covers(g, st) && e !in g.edges && edge.bs in g.nodes && ExactKids(g, st, edge.bs, Kids(g, edge.bs), cum, {})
    ensures var g', st' := AddUser(g, e, edge), st[e := PermState(u, None)];
            Covers(g', st') && ExactKids(g', st', edge.bs, Kids(g', edge.bs), cum, {})
  {
    var g', st', n := AddUser(g, e, edge), st[e := PermState(u, None)], edge.bs;
    AddUserOk(g, e, edge);
    UserAdded(g, e, edge, n);
    forall c | c in Kids(g', n) ensures IsKidUse(g', st', n, c, cum) && c in g'.edges && ExactBelow(g', st', {}, g'.edges[c].bs) {
      assert IsKidUse(g, st, n, c, cum) && SameTarget(g, g', c) && ExactBelow(g, st, {}, g.edges[c].bs);
      KidUseTransfer(g, g', n, c, cum);
      KidBelow(g, n, c);
      forall k | k in Below(g', g'.edges[c].bs) && k in g'.nodes ensures ExactAt(g', st', {}, k) {
        AttachOutside(g, st, e, edge, u, k);
      }
    }
  }

  lemma AttachOutside(g: Graph, st: PermMap, e: EdgeId, edge: Edge, u: Use, k: NodeId)
    requires Covers(g, st) && e !in g.edges && edge.bs in g.nodes && k in g.nodes && k != edge.bs && ExactAt(g, st, {}, k)
    ensures Covers(AddUser(g, e, edge), st[e := PermState(u, None)])
    ensures ExactAt(AddUser(g, e, edge), st[e := PermState(u, None)], {}, k)
  {
    var g', st' := AddUser(g, e, edge), st[e := PermState(u, None)];
    AddUserOk(g, e, edge);
    UserAdded(g, e, edge, k);
    assert Parents(g, k) - {} == Parents(g, k);
    CumFrame(st, st', Parents(g, k));
    ExactTransfer(g, st, g', st', {}, k);
  }

  lemma AttachCompat(g: Graph, drv: DriverCheck, st: PermMap, e: EdgeId, edge: Edge, u: Use)
    requires Covers(g, st) && Compat(g, st, {}) && e !in g.edges && edge.bs in g.nodes && CheckUpdatePerm(g, drv, st, edge.bs, u, {}).ok
    ensures Compat(AddUser(g, e, edge), CheckUpdatePerm(g, drv, st, edge.bs, u, {}).st[e := PermState(u, None)], {})
  {
    var st1 := CheckUpdatePerm(g, drv, st, edge.bs, u, {}).st;
    CheckUpdateCompat(g, drv, st, edge.bs, u, {}, {});
    ParentsAre(g, edge.bs);
    forall b | b in Parents(g, edge.bs) ensures Compatible(u, st1[b].use) {
      CheckedUsers(g, drv, st, edge.bs, u, {}, b);
    }
  }

  lemma AttachTight(g: Graph, st: PermMap, e: EdgeId, edge: Edge, u: Use, k: NodeId)
    requires Covers(g, st) && e !in g.edges && edge.bs in g.nodes && k in g.nodes && k != edge.bs && TightAt(g, st, k)
    ensures Covers(AddUser(g, e, edge), st[e := PermState(u, None)])
    ensures TightAt(AddUser(g, e, edge), st[e := PermState(u, None)], k)
  {
    var g', st' := AddUser(g, e, edge), st[e := PermState(u, None)];
    AddUserOk(g, e, edge);
    UserAdded(g, e, edge, k);
    FewerUsers(st, st', Parents(g, k), Parents(g, k));
    TightTransfer(g, st, g', st', k);
  }

  lemma AttachOutsideTight(s: State, drv: DriverCheck, e: EdgeId, edge: Edge, u: Use, k: NodeId)
    requires Inv(s.g, s.st) && e !in s.g.edges && edge.bs in s.g.nodes && k in s.g.nodes && k !in Below(s.g, edge.bs)
    ensures var g', st' := AddUser(s.g, e, edge), CheckUpdatePerm(s.g, drv, s.st, edge.bs, u, {}).st[e := PermState(u, None)];
            Covers(g', st') && TightAt(g', st', k)
  {
    var st1 := CheckUpdatePerm(s.g, drv, s.st, edge.bs, u, {}).st;
    CheckUpdateStages(s.g, drv, s.st, edge.bs, u, {});
    Refl(Live(s.g), edge.bs);
    TightOutsideNode(s.g, s.st, st1, edge.bs, k);
    AttachTight(s.g, st1, e, edge, u, k);
  }

  lemma AttachStagedBelow(s: State, drv: DriverCheck, e: EdgeId, edge: Edge, u: Use)
    requires Covers(s.g, s.st) && NothingStaged(s.st) && e !in s.g.edges && edge.bs in s.g.nodes
    ensures var g', st' := AddUser(s.g, e, edge), CheckUpdatePerm(s.g, drv, s.st, edge.bs, u, {}).st[e := PermState(u, None)];
            forall d :: d in st' && st'[d].backup.Some? ==> d in EdgesOf(g', Below(g', edge.bs))
  {
    CheckUpdateStages(s.g, drv, s.st, edge.bs, u, {});
    AttachedBelow(s.g, e, edge);
  }

  lemma AttachShares(s: State, drv: DriverCheck, e: EdgeId, edge: Edge, u: Use)
    requires Inv(s.g, s.st) && e !in s.g.edges && edge.bs in s.g.nodes && WriteUnchanged in u.shared
    ensures var g', st' := AddUser(s.g, e, edge), CheckUpdatePerm(s.g, drv, s.st, edge.bs, u, {}).st[e := PermState(u, None)];
            Covers(g', st') && AllShare(st')
  {
    AddUserOk(s.g, e, edge);
    CheckUpdateShares(s.g, drv, s.st, edge.bs, u, {});
  }

  lemma AttachSucceeds(s: State, drv: DriverCheck, e: EdgeId, edge: Edge, u: Use)
    requires Inv(s.g, s.st) && e !in s.g.edges && edge.bs in s.g.nodes && WriteUnchanged in u.shared
    requires CheckUpdatePerm(s.g, drv, s.st, edge.bs, u, {}).ok
    ensures var r := RootAttach(s, drv, e, edge, u, true);
            Inv(r.g, r.st) && r.g == AddUser(s.g, e, edge) && r.st[e].use == u
  {
    var n := edge.bs;
    var g', st' := AddUser(s.g, e, edge), CheckUpdatePerm(s.g, drv, s.st, n, u, {}).st[e := PermState(u, None)];
    AttachExact(s.g, drv, s.st, e, edge, u);
    AttachCompat(s.g, drv, s.st, e, edge, u);
    AttachShares(s, drv, e, edge, u);
    AttachStagedBelow(s, drv, e, edge, u);
    AttachedBelow(s.g, e, edge);
    forall k | k in g'.nodes && k !in Below(g', n) ensures TightAt(g', st', k) {
      AttachOutsideTight(s, drv, e, edge, u, k);
    }
    ConfirmedInv(g', st', n);
    SetConfirms(g', st', n);
  }

  /** Attaching a user keeps the invariant; if the permissions or the AioContext stand in
      the way, graph and permissions are exactly as before. */
  lemma RootAttachKeepsInv(s: State, drv: DriverCheck, e: EdgeId, edge: Edge, u: Use, aioOk: bool)
    requires Inv(s.g, s.st) && e !in s.g.edges && edge.bs in s.g.nodes && WriteUnchanged in u.shared
    ensures var r, ok := RootAttach(s, drv, e, edge, u, aioOk), aioOk && CheckUpdatePerm(s.g, drv, s.st, edge.bs, u, {}).ok;
            && Inv(r.g, r.st)
            && (ok ==> r.g == AddUser(s.g, e, edge) && r.st[e].use == u)
            && (!ok ==> r == s)
  {
    if aioOk && CheckUpdatePerm(s.g, drv, s.st, edge.bs, u, {}).ok {
      AttachSucceeds(s, drv, e, edge, u);
    } else {
      ExactRollback(s.g, drv, s.st, edge.bs, u, {});
    }
  }

  /** Edges outside the subtree of the node keep their permissions. */
  lemma AttachLeavesAlone(s: State, drv: DriverCheck, e: EdgeId, edge: Edge, u: Use, d: EdgeId)
    requires Inv(s.g, s.st) && e !in s.g.edges && edge.bs in s.g.nodes && WriteUnchanged in u.shared
    requires d in s.st && d !in EdgesOf(s.g, Below(s.g, edge.bs))
    ensures var r := RootAttach(s, drv, e, edge, u, true); d in r.st && r.st[d].use == s.st[d].use
  {
    var n := edge.bs;
    if CheckUpdatePerm(s.g, drv, s.st, n, u, {}).ok {
      AttachExact(s.g, drv, s.st, e, edge, u);
      AttachShares(s, drv, e, edge, u);
      CheckUpdateStages(s.g, drv, s.st, n, u, {});
      SetConfirms(AddUser(s.g, e, edge), CheckUpdatePerm(s.g, drv, s.st, n, u, {}).st[e := PermState(u, None)], n);
    } else {
      ExactRollback(s.g, drv, s.st, n, u, {});
    }
  }

  // ------------------------------------------------------------------ bdrv_attach_child

  function NeededUse(g: Graph, st: PermMap, p: NodeId, edge: Edge): Use
    requires Covers(g, st) && p in g.nodes && edge.bs in g.nodes
  {
    ChildPerm(g.nodes[p], g.nodes[edge.bs], edge.role, Cum(st, Parents(g, p)))
  }

  /** `bdrv_attach_child`: the parent `p` gets the new edge `e`. The source does not check
      for loops; its callers must not ask for one. */
  function AttachChild(s: State, drv: DriverCheck, p: NodeId, e: EdgeId, edge: Edge, aioOk: bool): (r: State)
    requires Covers(s.g, s.st) && e !in s.g.edges && edge.bs in s.g.nodes && p in s.g.nodes
  {
    var r := RootAttach(s, drv, e, edge, NeededUse(s.g, s.st, p, edge), aioOk);
    if e in r.g.edges && p in r.g.nodes then State(AddChild(r.g, p, e), r.st) else r
  }

  lemma ChildAdded(g: Graph, p: NodeId, e: EdgeId, k: NodeId)
    requires Ok(g) && p in g.nodes && Ok(AddChild(g, p, e)) && e in g.edges && k in g.nodes && !g.nodes[p].drv.NoDriver?
    ensures var g' := AddChild(g, p, e);
            && Parents(g', k) == Parents(g, k)
            && Kids(g', k) == (if k == p then [e] else []) + Kids(g, k)
            && (forall c :: c in Kids(g, k) ==> SameTarget(g, g', c))
            && Traits(g'.nodes[k]) == Traits(g.nodes[k])
  {
    assert NodeOk(g, k);
    forall c | c in Kids(g, k) ensures SameTarget(g, AddChild(g, p, e), c) {
      assert EdgeOk(g, c);
    }
  }

  lemma ChildAddedTight(g: Graph, st: PermMap, p: NodeId, e: EdgeId, k: NodeId)
    requires Covers(g, st) && p in g.nodes && Ok(AddChild(g, p, e)) && e in g.edges && !g.nodes[p].drv.NoDriver? && g.edges[e].bs in g.nodes
    requires Looser(KidUse(g, p, e, Cum(st, Parents(g, p))), st[e].use)
    requires k in g.nodes && TightAt(g, st, k)
    ensures TightAt(AddChild(g, p, e), st, k)
  {
    var g' := AddChild(g, p, e);
    ChildAdded(g, p, e, k);
    forall c | c in Kids(g', k) ensures KidTight(g', st, k, c, Cum(st, Parents(g', k))) {
      if c in Kids(g, k) {
        assert SameTarget(g, g', c) && KidTight(g, st, k, c, Cum(st, Parents(g, k)));
      } else {
        assert SameTarget(g, g', e);
      }
      KidUseTransfer(g, g', k, c, Cum(st, Parents(g, k)));
    }
  }

  lemma OwnerUsersKept(s: State, drv: DriverCheck, p: NodeId, e: EdgeId, edge: Edge, u: Use)
    requires Inv(s.g, s.st) && e !in s.g.edges && edge.bs in s.g.nodes && WriteUnchanged in u.shared
    requires p in s.g.nodes && !Reaches(Links(s.g), edge.bs, p)
    ensures var r := RootAttach(s, drv, e, edge, u, true);
            Parents(s.g, p) <= r.st.Keys && Cum(r.st, Parents(s.g, p)) == Cum(s.st, Parents(s.g, p))
  {
    var r := RootAttach(s, drv, e, edge, u, true);
    if p in Below(s.g, edge.bs) {
      LiveReaches(s.g, edge.bs, p);
    }
    forall d | d in Parents(s.g, p) ensures d in r.st && r.st[d].use == s.st[d].use {
      OutsideSubtree(s.g, edge.bs, p, d);
      AttachLeavesAlone(s, drv, e, edge, u, d);
    }
    CumFrame(s.st, r.st, Parents(s.g, p));
  }

  lemma NeededUseShares(g: Graph, st: PermMap, p: NodeId, edge: Edge)
    requires Inv(g, st) && p in g.nodes && edge.bs in g.nodes
    ensures WriteUnchanged in NeededUse(g, st, p, edge).shared
  {
    CumShares(st, Parents(g, p));
    ChildPermSharesUnchanged(g.nodes[p], g.nodes[edge.bs], edge.role, Cum(st, Parents(g, p)));
  }

  /** The new edge is as tight as its owner needs it. */
  lemma NewEdgeTight(s: State, drv: DriverCheck, p: NodeId, e: EdgeId, edge: Edge)
    requires Inv(s.g, s.st) && e !in s.g.edges && edge.bs in s.g.nodes
    requires p in s.g.nodes && !Reaches(Links(s.g), edge.bs, p)
    requires CheckUpdatePerm(s.g, drv, s.st, edge.bs, NeededUse(s.g, s.st, p, edge), {}).ok
    ensures var r := RootAttach(s, drv, e, edge, NeededUse(s.g, s.st, p, edge), true);
            && Covers(r.g, r.st) && p in r.g.nodes && e in r.g.edges && r.g.edges[e].bs in r.g.nodes
            && Looser(KidUse(r.g, p, e, Cum(r.st, Parents(r.g, p))), r.st[e].use)
  {
    var u := NeededUse(s.g, s.st, p, edge);
    var r := RootAttach(s, drv, e, edge, u, true);
    NeededUseShares(s.g, s.st, p, edge);
    AttachSucceeds(s, drv, e, edge, u);
    OwnerUsersKept(s, drv, p, e, edge, u);
    Refl(Links(s.g), edge.bs);
    UserAdded(s.g, e, edge, p);
    assert Traits(r.g.nodes[p]) == Traits(s.g.nodes[p]);
    assert Traits(r.g.nodes[edge.bs]) == Traits(s.g.nodes[edge.bs]);
  }

  /** Attaching a child to a node keeps the invariant and changes nothing when it fails. */
  lemma AttachChildKeepsInv(s: State, drv: DriverCheck, p: NodeId, e: EdgeId, edge: Edge, aioOk: bool)
    requires Inv(s.g, s.st) && e !in s.g.edges && edge.bs in s.g.nodes && p in s.g.nodes && s.g.nodes[p].drv.DefaultPerms?
    requires !Reaches(Links(s.g), edge.bs, p)
    ensures var r := AttachChild(s, drv, p, e, edge, aioOk);
            Inv(r.g, r.st) && (r == s || (e in r.g.edges && e in r.g.nodes[p].children))
  {
    var u := NeededUse(s.g, s.st, p, edge);
    NeededUseShares(s.g, s.st, p, edge);
    RootAttachKeepsInv(s, drv, e, edge, u, aioOk);
    if aioOk && CheckUpdatePerm(s.g, drv, s.st, edge.bs, u, {}).ok {
      var r := RootAttach(s, drv, e, edge, u, true);
      AddUserOk(s.g, e, edge);
      NewEdgeTight(s, drv, p, e, edge);
      forall n | n in r.g.nodes ensures e !in r.g.nodes[n].children {
        assert NodeOk(s.g, n);
      }
      AddChildOk(r.g, p, e);
      var g' := AddChild(r.g, p, e);
      forall k | k in g'.nodes ensures TightAt(g', r.st, k) {
        ChildAddedTight(r.g, r.st, p, e, k);
      }
    }
  }
}
