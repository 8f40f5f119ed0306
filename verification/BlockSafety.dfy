/** What every operation on the block graph keeps, whatever it is asked for: no loops, no
    update left pending, and users that tolerate each other. Nothing is asked about how
    tight the edges are. */
module BlockSafety {
  import opened Reach
  import opened BlockGraph
  import opened BlockPerms
  import opened BlockRollback
  import opened BlockCompat
  import opened BlockExact
  import opened BlockEdit
  import opened BlockOps
  import opened BlockChange
  import opened BlockReplace

  ghost predicate Safe(g: Graph, st: PermMap) {
    Covers(g, st) && NothingStaged(st) && Compat(g, st, {})
  }

  lemma ClearedSafe(g: Graph, st: PermMap, es: set<EdgeId>)
    requires Covers(g, st) && Compat(g, st, {}) && forall e :: e in st && st[e].backup.Some? ==> e in es
    ensures Safe(g, Cleared(st, es))
  {
  }

  /** Setting the permissions that a check has staged below a node. */
  lemma SetKeepsSafe(g: Graph, st: PermMap, n: NodeId)
    requires Covers(g, st) && n in g.nodes && ExactBelow(g, st, {}, n) && Compat(g, st, {})
    requires forall e :: e in st && st[e].backup.Some? ==> e in EdgesOf(g, Below(g, n))
    ensures Safe(g, SetPerm(g, st, n, Cum(st, Parents(g, n))))
  {
    SetConfirms(g, st, n);
    ClearedSafe(g, st, EdgesOf(g, Below(g, n)));
  }

  /** A permission change, also one that is looser than the owner of the edge needs. */
  lemma TrySetKeepsSafe(g: Graph, drv: DriverCheck, st: PermMap, c: EdgeId, u: Use)
    requires Safe(g, st) && c in g.edges
    ensures Safe(g, TrySetPerm(g, drv, st, c, u).st)
  {
    var r := ChildCheckPerm(g, drv, st, c, u, {});
    if r.ok {
      ChangeConfirmed(g, drv, st, c, u);
      CheckChildStages(g, drv, st, c, u, {});
      CheckChildCompat(g, drv, st, c, u, {}, {});
      ClearedSafe(g, r.st, UnderEdge(g, c));
    } else {
      ExactChildRollback(g, drv, st, c, u, {});
    }
  }

  lemma RecheckExact(g: Graph, drv: DriverCheck, st: PermMap, n: NodeId)
    requires Covers(g, st) && n in g.nodes && CheckPerm(g, drv, st, n, Cum(st, Parents(g, n)), {}).ok
    ensures var st1 := CheckPerm(g, drv, st, n, Cum(st, Parents(g, n)), {}).st;
            ExactBelow(g, st1, {}, n) && Cum(st1, Parents(g, n)) == Cum(st, Parents(g, n))
  {
    var cum := Cum(st, Parents(g, n));
    var st1 := CheckPerm(g, drv, st, n, cum, {}).st;
    CheckExact(g, drv, st, n, cum, {}, {});
    CheckStages(g, drv, st, n, cum, {});
    UsersUntouched(g, st, st1, n);
    assert Parents(g, n) - {} == Parents(g, n);
    ExactFromKids(g, st1, n, cum, {});
  }

  /** The update of a node that lost a user, whether or not it tightens anything. */
  lemma RecheckKeepsSafe(g: Graph, drv: DriverCheck, st: PermMap, n: NodeId)
    requires Safe(g, st) && n in g.nodes
    ensures Safe(g, Recheck(g, drv, st, n))
  {
    var cum := Cum(st, Parents(g, n));
    var r := CheckPerm(g, drv, st, n, cum, {});
    CheckStages(g, drv, st, n, cum, {});
    if r.ok {
      CheckCompat(g, drv, st, n, cum, {}, {});
      RecheckExact(g, drv, st, n);
      SetKeepsSafe(g, r.st, n);
    } else {
      AbortRestores(g, r.st, n);
      StagedThenRestored(st, r.st, EdgesOf(g, Below(g, n)));
    }
  }

  lemma DetachKeepsSafe(s: State, drv: DriverCheck, c: EdgeId)
    requires Safe(s.g, s.st) && c in s.g.edges
    ensures var r := Detach(s, drv, c); Safe(r.g, r.st)
  {
    assert EdgeOk(s.g, c);
    RemoveEdgeOk(s.g, c);
    var g', st' := RemoveEdge(s.g, c), s.st - {c};
    assert Safe(g', st');
    RecheckKeepsSafe(g', drv, st', s.g.edges[c].bs);
  }

  lemma RootAttachKeepsSafe(s: State, drv: DriverCheck, e: EdgeId, edge: Edge, u: Use, aioOk: bool)
    requires Safe(s.g, s.st) && e !in s.g.edges && edge.bs in s.g.nodes
    ensures var r := RootAttach(s, drv, e, edge, u, aioOk);
            Safe(r.g, r.st) && (r == s || r.g == AddUser(s.g, e, edge))
  {
    if aioOk && CheckUpdatePerm(s.g, drv, s.st, edge.bs, u, {}).ok {
      var g', st' := AddUser(s.g, e, edge), CheckUpdatePerm(s.g, drv, s.st, edge.bs, u, {}).st[e := PermState(u, None)];
      AttachExact(s.g, drv, s.st, e, edge, u);
      AttachCompat(s.g, drv, s.st, e, edge, u);
      AttachStagedBelow(s, drv, e, edge, u);
      SetKeepsSafe(g', st', edge.bs);
    } else {
      ExactRollback(s.g, drv, s.st, edge.bs, u, {});
    }
  }

  lemma AttachChildKeepsSafe(s: State, drv: DriverCheck, p: NodeId, e: EdgeId, edge: Edge, aioOk: bool)
    requires Safe(s.g, s.st) && e !in s.g.edges && edge.bs in s.g.nodes && p in s.g.nodes && s.g.nodes[p].drv.DefaultPerms?
    requires !Reaches(Links(s.g), edge.bs, p)
    ensures var r := AttachChild(s, drv, p, e, edge, aioOk); Safe(r.g, r.st)
  {
    var u := NeededUse(s.g, s.st, p, edge);
    RootAttachKeepsSafe(s, drv, e, edge, u, aioOk);
    var r := RootAttach(s, drv, e, edge, u, aioOk);
    if r != s {
      AddUserOk(s.g, e, edge);
      forall n | n in r.g.nodes ensures e !in r.g.nodes[n].children {
        assert NodeOk(s.g, n);
      }
      AddChildOk(r.g, p, e);
    }
  }

  /** Whatever happens to the tightness of edges, any two users of a node still tolerate each
      other after a replacement. */
  lemma ReplaceKeepsSafe(s: State, drv: DriverCheck, list: seq<EdgeId>, from: NodeId, to: NodeId)
    requires Safe(s.g, s.st) && Movable(s.g, list, to) && (forall c :: c in list ==> s.g.edges[c].bs == from)
    ensures var r := ReplaceNode(s, drv, list, to); Safe(r.g, r.st)
  {
    if CheckUpdatePerm(s.g, drv, s.st, to, Cum(s.st, Elems(list)), Elems(list)).ok {
      MovableOk(s.g, list, to);
      ReplaceExact(s.g, drv, s.st, list, to);
      ReplaceCompat(s.g, drv, s.st, list, from, to);
      ReplaceStagedBelow(s, drv, list, to);
      SetKeepsSafe(MoveEdges(s.g, list, to), CheckUpdatePerm(s.g, drv, s.st, to, Cum(s.st, Elems(list)), Elems(list)).st, to);
    } else {
      ExactRollback(s.g, drv, s.st, to, Cum(s.st, Elems(list)), Elems(list));
    }
  }
}
