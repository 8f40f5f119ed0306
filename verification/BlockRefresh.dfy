/** How the permissions of an edge are changed in practice: by the user that holds a root
    edge, or by `bdrv_child_refresh_perms` for an edge that a node owns. */
module BlockRefresh {
  import opened BlockGraph
  import opened BlockPerms
  import opened BlockRollback
  import opened BlockExact
  import opened BlockOps
  import opened BlockSafety

  /** No node owns the edge. */
  ghost predicate IsRoot(g: Graph, c: EdgeId) {
    forall k :: k in g.nodes ==> c !in g.nodes[k].children
  }

  /** Whatever the user of a root edge asks for, every edge stays as tight as its owner needs. */
  lemma RootSetKeepsInv(g: Graph, drv: DriverCheck, st: PermMap, c: EdgeId, u: Use)
    requires Inv(g, st) && c in g.edges && WriteUnchanged in u.shared && IsRoot(g, c)
    ensures Inv(g, TrySetPerm(g, drv, st, c, u).st)
  {
    TrySetKeepsInv(g, drv, st, c, u);
  }

  /** What the users of `k` need from its child edge `c`. */
  function NeededNow(g: Graph, st: PermMap, k: NodeId, c: EdgeId): (u: Use)
    requires Covers(g, st) && k in g.nodes && c in Kids(g, k)
  {
    KidBelow(g, k, c);
    KidUse(g, k, c, Cum(st, Parents(g, k)))
  }

  /** `bdrv_child_refresh_perms`. */
  function RefreshPerms(g: Graph, drv: DriverCheck, st: PermMap, k: NodeId, c: EdgeId): (r: SetResult)
    requires Covers(g, st) && k in g.nodes && c in Kids(g, k)
  {
    KidBelow(g, k, c);
    TrySetPerm(g, drv, st, c, NeededNow(g, st, k, c))
  }

  lemma OwnerAgreesToNeed(g: Graph, st: PermMap, k: NodeId, c: EdgeId)
    requires Covers(g, st) && k in g.nodes && c in Kids(g, k)
    ensures c in g.edges && g.edges[c].bs in g.nodes && OwnerAgrees(g, st, c, NeededNow(g, st, k, c))
  {
    KidBelow(g, k, c);
    forall m | m in g.nodes && c in Kids(g, m) ensures m == k {
      assert OneOwner(g, k, m, c);
    }
  }

  lemma NeedShares(g: Graph, st: PermMap, k: NodeId, c: EdgeId)
    requires Covers(g, st) && AllShare(st) && k in g.nodes && c in Kids(g, k)
    ensures WriteUnchanged in NeededNow(g, st, k, c).shared
  {
    KidBelow(g, k, c);
    CumShares(st, Parents(g, k));
    ChildPermSharesUnchanged(g.nodes[k], g.nodes[g.edges[c].bs], g.edges[c].role, Cum(st, Parents(g, k)));
  }

  /** A refresh keeps the invariant; one that is granted also restores it for an edge that was
      looser than its owner needs. */
  lemma RefreshKeepsInv(g: Graph, drv: DriverCheck, st: PermMap, k: NodeId, c: EdgeId)
    requires InvExcept(g, st, c) && k in g.nodes && c in Kids(g, k)
    ensures c in g.edges
    ensures Inv(g, st) ==> Inv(g, RefreshPerms(g, drv, st, k, c).st)
    ensures ChildCheckPerm(g, drv, st, c, NeededNow(g, st, k, c), {}).ok ==> Inv(g, RefreshPerms(g, drv, st, k, c).st)
    ensures !ChildCheckPerm(g, drv, st, c, NeededNow(g, st, k, c), {}).ok ==> RefreshPerms(g, drv, st, k, c).st == st
  {
    OwnerAgreesToNeed(g, st, k, c);
    NeedShares(g, st, k, c);
    var u := NeededNow(g, st, k, c);
    if ChildCheckPerm(g, drv, st, c, u, {}).ok {
      GrantedKeepsInv(g, drv, st, c, u);
    } else {
      ExactChildRollback(g, drv, st, c, u, {});
    }
  }

  /** From any safe state, a refresh that is granted gives the edge exactly what the users of
      its owner need, and every edge below what its own owner needs. */
  lemma RefreshIsExact(g: Graph, drv: DriverCheck, st: PermMap, k: NodeId, c: EdgeId)
    requires Safe(g, st) && k in g.nodes && c in Kids(g, k) && c in g.edges
    requires ChildCheckPerm(g, drv, st, c, NeededNow(g, st, k, c), {}).ok
    ensures var st' := RefreshPerms(g, drv, st, k, c).st;
            && Safe(g, st') && IsKidUse(g, st', k, c, Cum(st', Parents(g, k)))
            && ExactBelow(g, st', {}, g.edges[c].bs)
  {
    var u := NeededNow(g, st, k, c);
    var st1, st' := ChildCheckPerm(g, drv, st, c, u, {}).st, RefreshPerms(g, drv, st, k, c).st;
    TrySetKeepsSafe(g, drv, st, c, u);
    ChangeConfirmed(g, drv, st, c, u);
    CheckChildStages(g, drv, st, c, u, {});
    UsersOfOwner(g, st, st', k, c);
    forall m | m in Below(g, g.edges[c].bs) && m in g.nodes ensures ExactAt(g, st', {}, m) {
      assert ExactAt(g, st1, {}, m) && NodeOk(g, m);
      ExactFrame(g, st1, st', {}, m);
    }
  }
}
