/** Operations that change the block graph (block.c), on values: attaching and detaching an
    edge, changing the permissions of an edge, replacing a node. All of them keep the graph
    invariant and the permission invariant. */
module BlockOps {
  import opened Reach
  import opened BlockGraph
  import opened BlockPerms
  import opened BlockRollback
  import opened BlockCompat
  import opened BlockExact
  import opened BlockLoosen
  import opened BlockEdit

  // ------------------------------------------------------------------ the permission invariant

  /** Between operations: no update is pending, any two users of a node tolerate each other,
      every edge is at least as tight as the users of its owner require, and everybody
      tolerates WRITE_UNCHANGED. */
  ghost predicate Inv(g: Graph, st: PermMap) {
    && Covers(g, st)
    && NothingStaged(st)
    && Compat(g, st, {})
    && (forall k {:trigger TightAt(g, st, k)} :: k in g.nodes ==> TightAt(g, st, k))
    && AllShare(st)
  }

  ghost predicate AllShare(st: PermMap) {
    forall e :: e in st ==> WriteUnchanged in st[e].use.shared
  }

  lemma CumShares(st: PermMap, es: set<EdgeId>)
    requires es <= st.Keys && AllShare(st)
    ensures WriteUnchanged in Cum(st, es).shared
  {}

  /** The assertion at the start of `bdrv_check_update_perm` holds at every level of the
      recursion, and every staged value satisfies it. */
  lemma {:induction false} CheckChildShares(g: Graph, drv: DriverCheck, st: PermMap, c: EdgeId, u: Use, ignore: set<EdgeId>)
    requires Covers(g, st) && c in g.edges && AllShare(st) && WriteUnchanged in u.shared
    ensures AllShare(ChildCheckPerm(g, drv, st, c, u, ignore).st)
    decreases Below(g, g.edges[c].bs), 3
  {
    assert EdgeOk(g, c);
    CheckUpdateShares(g, drv, st, g.edges[c].bs, u, ignore + {c});
  }

  lemma {:induction false} CheckUpdateShares(g: Graph, drv: DriverCheck, st: PermMap, n: NodeId, u: Use, ignore: set<EdgeId>)
    requires Covers(g, st) && n in g.nodes && AllShare(st) && WriteUnchanged in u.shared
    ensures AllShare(CheckUpdatePerm(g, drv, st, n, u, ignore).st)
    decreases Below(g, n), 2
  {
    CumShares(st, Parents(g, n) - ignore);
    CheckShares(g, drv, st, n, Join(u, Cum(st, Parents(g, n) - ignore)), ignore);
  }

  lemma {:induction false} CheckShares(g: Graph, drv: DriverCheck, st: PermMap, n: NodeId, cum: Use, ignore: set<EdgeId>)
    requires Covers(g, st) && n in g.nodes && AllShare(st) && WriteUnchanged in cum.shared
    ensures AllShare(CheckPerm(g, drv, st, n, cum, ignore).st)
    decreases Below(g, n), 1
  {
    CheckChildrenShares(g, drv, st, n, Kids(g, n), cum, ignore);
  }

  lemma {:induction false} CheckChildrenShares(g: Graph, drv: DriverCheck, st: PermMap, n: NodeId, cs: seq<EdgeId>, cum: Use, ignore: set<EdgeId>)
    requires Covers(g, st) && n in g.nodes && (forall c :: c in cs ==> c in Kids(g, n)) && AllShare(st) && WriteUnchanged in cum.shared
    ensures AllShare(CheckChildren(g, drv, st, n, cs, cum, ignore).st)
    decreases Below(g, n), 0, |cs|
  {
    if cs != [] {
      KidBelow(g, n, cs[0]);
      var u := KidUse(g, n, cs[0], cum);
      ChildPermSharesUnchanged(g.nodes[n], g.nodes[g.edges[cs[0]].bs], g.edges[cs[0]].role, cum);
      CheckChildShares(g, drv, st, cs[0], u, ignore);
      var r := ChildCheckPerm(g, drv, st, cs[0], u, ignore);
      if r.ok {
        CheckChildrenShares(g, drv, r.st, n, cs[1..], cum, ignore);
      }
    }
  }

  // ------------------------------------------------------------------ bdrv_child_try_set_perm

  datatype SetResult = SetResult(ok: bool, st: PermMap)

  function TrySetPerm(g: Graph, drv: DriverCheck, st: PermMap, c: EdgeId, u: Use): (r: SetResult)
    requires Covers(g, st) && c in g.edges
  {
    var r := ChildCheckPerm(g, drv, st, c, u, {});
    if !r.ok then SetResult(!r.tighten, ChildAbortPerm(g, r.st, c))
    else SetResult(true, ChildSetPerm(g, r.st, c, u))
  }

  /** A successful change is exactly the staged state without its backups. */
  lemma ChangeConfirmed(g: Graph, drv: DriverCheck, st: PermMap, c: EdgeId, u: Use)
    requires Covers(g, st) && c in g.edges && ChildCheckPerm(g, drv, st, c, u, {}).ok
    ensures var st1 := ChildCheckPerm(g, drv, st, c, u, {}).st;
            && ChildSetPerm(g, st1, c, u) == Cleared(st1, UnderEdge(g, c))
            && st1[c].use == u && ExactBelow(g, st1, {}, g.edges[c].bs)
  {
    CheckChildExact(g, drv, st, c, u, {}, {});
    ChildSetConfirms(g, ChildCheckPerm(g, drv, st, c, u, {}).st, c, u);
  }

  /** If a node owns `c`, the request is at least as tight as the users of that node need. */
  ghost predicate OwnerAgrees(g: Graph, st: PermMap, c: EdgeId, u: Use)
    requires Covers(g, st) && c in g.edges && g.edges[c].bs in g.nodes
  {
    forall k :: k in g.nodes && c in Kids(g, k) ==> Looser(KidUse(g, k, c, Cum(st, Parents(g, k))), u)
  }

  /** The edges out of `k` are tight, except perhaps `c`. */
  ghost predicate TightExcept(g: Graph, st: PermMap, k: NodeId, c: EdgeId)
    requires Covers(g, st) && k in g.nodes
  {
    forall d :: d in Kids(g, k) && d != c ==> KidTight(g, st, k, d, Cum(st, Parents(g, k)))
  }

  /** The invariant, except that `c` may be looser than its owner needs. */
  ghost predicate InvExcept(g: Graph, st: PermMap, c: EdgeId) {
    && Covers(g, st) && NothingStaged(st) && Compat(g, st, {}) && AllShare(st)
    && (forall k {:trigger TightExcept(g, st, k, c)} :: k in g.nodes ==> TightExcept(g, st, k, c))
  }

  lemma TightAfterChange(g: Graph, st: PermMap, st': PermMap, c: EdgeId, u: Use, k: NodeId)
    requires Covers(g, st) && Covers(g, st') && c in g.edges && g.edges[c].bs in g.nodes && OwnerAgrees(g, st, c, u)
    requires Stages(st, st', UnderEdge(g, c)) && st'[c].use == u && ExactBelow(g, st', {}, g.edges[c].bs)
    requires k in g.nodes && TightExcept(g, st, k, c)
    ensures TightAt(g, st', k)
  {
    var n := g.edges[c].bs;
    if k in Below(g, n) {
      ExactIsTight(g, st', k);
    } else {
      Refl(Live(g), n);
      assert NodeOk(g, k);
      forall e | (e in Parents(g, k) || e in Kids(g, k)) && e != c ensures e in g.edges && st'[e] == st[e] {
        OutsideSubtree(g, n, k, e);
      }
      ParentsAre(g, k);
      CumFrame(st, st', Parents(g, k));
      forall d | d in Kids(g, k) ensures KidTight(g, st', k, d, Cum(st', Parents(g, k))) {
        assert d != c ==> KidTight(g, st, k, d, Cum(st, Parents(g, k)));
      }
    }
  }

  /** Forgetting the backups of a staged state that satisfies the rest of the invariant. */
  lemma ClearedInv(g: Graph, st: PermMap, es: set<EdgeId>)
    requires Covers(g, st) && Compat(g, st, {}) && AllShare(st)
    requires forall e :: e in st && st[e].backup.Some? ==> e in es
    requires forall k {:trigger TightAt(g, st, k)} :: k in g.nodes ==> TightAt(g, st, k)
    ensures Inv(g, Cleared(st, es))
  {
    var st2 := Cleared(st, es);
    assert Covers(g, st2);
    forall k | k in g.nodes ensures TightAt(g, st2, k) {
      assert NodeOk(g, k);
      TightFrame(g, st, st2, k);
    }
  }

  /** An update below a child edge does not touch the users of its owner. */
  lemma UsersOfOwner(g: Graph, st: PermMap, st': PermMap, k: NodeId, c: EdgeId)
    requires Covers(g, st) && Covers(g, st') && k in g.nodes && c in Kids(g, k) && c in g.edges
    requires forall e :: e in g.edges && e !in UnderEdge(g, c) ==> st'[e].use == st[e].use
    ensures Cum(st', Parents(g, k)) == Cum(st, Parents(g, k))
  {
    KidBelow(g, k, c);
    assert NodeOk(g, k);
    forall e | e in Parents(g, k) ensures e in g.edges && st'[e].use == st[e].use {
      OutsideSubtree(g, g.edges[c].bs, k, e);
      ParentNotBelow(g, k, e);
      assert e != c;
    }
    CumFrame(st, st', Parents(g, k));
  }

  /** An edge that a node owns is tight after the change only if the request agrees with it. */
  lemma TightOnlyIfAgreed(g: Graph, st: PermMap, st': PermMap, c: EdgeId, u: Use, k: NodeId)
    requires Covers(g, st) && Covers(g, st') && c in g.edges && g.edges[c].bs in g.nodes && k in g.nodes && c in Kids(g, k)
    requires (forall e :: e in g.edges && e !in UnderEdge(g, c) ==> st'[e].use == st[e].use) && st'[c].use == u && TightAt(g, st', k)
    ensures Looser(KidUse(g, k, c, Cum(st, Parents(g, k))), u)
  {
    UsersOfOwner(g, st, st', k, c);
    assert KidTight(g, st', k, c, Cum(st', Parents(g, k)));
  }

  /** A granted request that the owner can agree to makes the edge tight, even one that was
      not. */
  lemma GrantedKeepsInv(g: Graph, drv: DriverCheck, st: PermMap, c: EdgeId, u: Use)
    requires InvExcept(g, st, c) && c in g.edges && WriteUnchanged in u.shared && g.edges[c].bs in g.nodes && OwnerAgrees(g, st, c, u)
    requires ChildCheckPerm(g, drv, st, c, u, {}).ok
    ensures Inv(g, TrySetPerm(g, drv, st, c, u).st)
  {
    var r := ChildCheckPerm(g, drv, st, c, u, {});
    ChangeConfirmed(g, drv, st, c, u);
    CheckChildStages(g, drv, st, c, u, {});
    CheckChildCompat(g, drv, st, c, u, {}, {});
    CheckChildShares(g, drv, st, c, u, {});
    forall k | k in g.nodes ensures TightAt(g, r.st, k) {
      assert TightExcept(g, st, k, c);
      TightAfterChange(g, st, r.st, c, u, k);
    }
    ClearedInv(g, r.st, UnderEdge(g, c));
  }

  lemma InvIsEnough(g: Graph, st: PermMap, c: EdgeId)
    requires Inv(g, st)
    ensures InvExcept(g, st, c)
  {
    forall k | k in g.nodes ensures TightExcept(g, st, k, c) {
      assert TightAt(g, st, k);
    }
  }

  /** A granted change of the permissions of an edge keeps the invariant if and only if the
      owner of the edge can agree to it; a change that is refused leaves every edge as it was. */
  lemma TrySetKeepsInv(g: Graph, drv: DriverCheck, st: PermMap, c: EdgeId, u: Use)
    requires Inv(g, st) && c in g.edges && WriteUnchanged in u.shared
    ensures var r := TrySetPerm(g, drv, st, c, u);
            && g.edges[c].bs in g.nodes
            && (ChildCheckPerm(g, drv, st, c, u, {}).ok ==>
                  r.ok && r.st[c].use == u && (Inv(g, r.st) <==> OwnerAgrees(g, st, c, u)))
            && (!ChildCheckPerm(g, drv, st, c, u, {}).ok ==> r.st == st)
  {
    assert EdgeOk(g, c);
    var r := ChildCheckPerm(g, drv, st, c, u, {});
    if r.ok {
      ChangeConfirmed(g, drv, st, c, u);
      CheckChildStages(g, drv, st, c, u, {});
      var st' := TrySetPerm(g, drv, st, c, u).st;
      if OwnerAgrees(g, st, c, u) {
        InvIsEnough(g, st, c);
        GrantedKeepsInv(g, drv, st, c, u);
      } else if Inv(g, st') {
        forall k | k in g.nodes && c in Kids(g, k) ensures Looser(KidUse(g, k, c, Cum(st, Parents(g, k))), u) {
          assert TightAt(g, st', k);
          TightOnlyIfAgreed(g, st, st', c, u, k);
        }
      }
    } else {
      ExactChildRollback(g, drv, st, c, u, {});
    }
  }

  /** A request that only loosens is always granted, even when a driver refuses it: then
      the tighter permissions stay and the caller sees success. */
  lemma LooseningNeverFails(g: Graph, drv: DriverCheck, st: PermMap, c: EdgeId, u: Use)
    requires Inv(g, st) && c in g.edges && Looser(u, st[c].use)
    ensures TrySetPerm(g, drv, st, c, u).ok
  {
    LoosenChild(g, drv, st, c, u, {});
  }

  // ------------------------------------------------------------------ from one graph to another

  /** The edge `c` of both graphs has the same role, and its new target tolerates foreign
      writers whenever its old target did. */
  ghost predicate SameTarget(g: Graph, g': Graph, c: EdgeId) {
    && c in g.edges && c in g'.edges
    && g.edges[c].bs in g.nodes && g'.edges[c].bs in g'.nodes
    && g'.edges[c].role == g.edges[c].role
    && (g.nodes[g.edges[c].bs].forceShare ==> g'.nodes[g'.edges[c].bs].forceShare)
  }

  /** All edges out of `k` were there before. */
  ghost predicate SameKids(g: Graph, g': Graph, k: NodeId)
    requires k in g.nodes && k in g'.nodes
  {
    && Traits(g'.nodes[k]) == Traits(g.nodes[k])
    && (forall c :: c in Kids(g', k) ==> c in Kids(g, k) && SameTarget(g, g', c))
  }

  lemma KidUseTransfer(g: Graph, g': Graph, k: NodeId, c: EdgeId, cum: Use)
    requires k in g.nodes && k in g'.nodes && Traits(g'.nodes[k]) == Traits(g.nodes[k]) && SameTarget(g, g', c)
    ensures Looser(KidUse(g', k, c, cum), KidUse(g, k, c, cum))
    ensures g'.nodes[g'.edges[c].bs].forceShare == g.nodes[g.edges[c].bs].forceShare ==>
              KidUse(g', k, c, cum) == KidUse(g, k, c, cum)
  {
    assert DefaultChildPerms(g'.nodes[k], g.edges[c].role, cum) == DefaultChildPerms(g.nodes[k], g.edges[c].role, cum);
    forall p ensures p in ALL {
      InAll(p);
    }
  }

  lemma ExactTransfer(g: Graph, st: PermMap, g': Graph, st': PermMap, except: set<EdgeId>, k: NodeId)
    requires Covers(g, st) && Covers(g', st') && k in g.nodes && k in g'.nodes && SameKids(g, g', k) && SameTraits(g, g')
    requires forall c :: c in Kids(g', k) && c in g.edges && c in g'.edges ==> st'[c].use == st[c].use && g'.edges[c].bs == g.edges[c].bs
    requires Cum(st', Parents(g', k)) == Cum(st, Parents(g, k) - except)
    requires ExactAt(g, st, except, k)
    ensures ExactAt(g', st', {}, k)
  {
    var cum := Cum(st, Parents(g, k) - except);
    assert Parents(g', k) - {} == Parents(g', k);
    forall c | c in Kids(g', k) ensures IsKidUse(g', st', k, c, cum) {
      assert IsKidUse(g, st, k, c, cum) && SameTarget(g, g', c);
      KidUseTransfer(g, g', k, c, cum);
      assert Traits(g'.nodes[g'.edges[c].bs]) == Traits(g.nodes[g.edges[c].bs]);
    }
  }

  /** What was tight is tight for users that ask for no more. */
  lemma TightTransfer(g: Graph, st: PermMap, g': Graph, st': PermMap, k: NodeId)
    requires Covers(g, st) && Covers(g', st') && k in g.nodes && k in g'.nodes && SameKids(g, g', k)
    requires forall c :: c in Kids(g', k) && c in g.edges && c in g'.edges ==> st'[c].use == st[c].use
    requires Looser(Cum(st', Parents(g', k)), Cum(st, Parents(g, k)))
    requires TightAt(g, st, k)
    ensures TightAt(g', st', k)
  {
    var cum := Cum(st', Parents(g', k));
    forall c | c in Kids(g', k) ensures KidTight(g', st', k, c, cum) {
      assert SameTarget(g, g', c);
      LooserKid(g, st, k, c, cum);
      KidUseTransfer(g, g', k, c, cum);
    }
  }

  lemma FewerUsers(st: PermMap, st': PermMap, es: set<EdgeId>, es': set<EdgeId>)
    requires es' <= es <= st.Keys && es' <= st'.Keys && forall e :: e in es' ==> st'[e].use == st[e].use
    ensures Looser(Cum(st', es'), Cum(st, es))
  {}

  /** The second phase of an update of `n`, after which the invariant holds everywhere. */
  lemma ConfirmedInv(g: Graph, st: PermMap, n: NodeId)
    requires Covers(g, st) && n in g.nodes && ExactBelow(g, st, {}, n) && Compat(g, st, {}) && AllShare(st)
    requires forall e :: e in st && st[e].backup.Some? ==> e in EdgesOf(g, Below(g, n))
    requires forall k {:trigger TightAt(g, st, k)} :: k in g.nodes && k !in Below(g, n) ==> TightAt(g, st, k)
    ensures Inv(g, SetPerm(g, st, n, Cum(st, Parents(g, n))))
  {
    SetConfirms(g, st, n);
    forall k | k in g.nodes && k in Below(g, n) ensures TightAt(g, st, k) {
      ExactIsTight(g, st, k);
    }
    ClearedInv(g, st, EdgesOf(g, Below(g, n)));
  }

  // ------------------------------------------------------------------ a node loses a user

  /** What `bdrv_replace_child` does to the node that lost a user. */
  function Recheck(g: Graph, drv: DriverCheck, st: PermMap, n: NodeId): (r: PermMap)
    requires Covers(g, st) && n in g.nodes
  {
    var cum := Cum(st, Parents(g, n));
    var r := CheckPerm(g, drv, st, n, cum, {});
    if r.ok then SetPerm(g, r.st, n, cum) else AbortPerm(g, r.st, n)
  }

  lemma UsersUntouched(g: Graph, st: PermMap, st': PermMap, n: NodeId)
    requires Covers(g, st) && Covers(g, st') && n in g.nodes && Stages(st, st', EdgesOf(g, Below(g, n)))
    ensures Cum(st', Parents(g, n)) == Cum(st, Parents(g, n))
  {
    forall e | e in Parents(g, n) ensures st'[e].use == st[e].use {
      ParentNotBelow(g, n, e);
    }
    CumFrame(st, st', Parents(g, n));
  }

  lemma TightOutsideNode(g: Graph, st: PermMap, st': PermMap, n: NodeId, k: NodeId)
    requires Covers(g, st) && Covers(g, st') && n in g.nodes && Stages(st, st', EdgesOf(g, Below(g, n)))
    requires k in g.nodes && k !in Below(g, n) && TightAt(g, st, k)
    ensures TightAt(g, st', k)
  {
    assert NodeOk(g, k);
    forall e | e in Parents(g, k) || e in Kids(g, k) ensures e in g.edges && st'[e] == st[e] {
      OutsideSubtree(g, n, k, e);
    }
    TightFrame(g, st, st', k);
  }

  /** Recomputing the permissions of a node never reports tightening, and keeps the
      invariant whether or not the drivers go along. */
  lemma RecheckKeepsInv(g: Graph, drv: DriverCheck, st: PermMap, n: NodeId)
    requires Inv(g, st) && n in g.nodes
    ensures !CheckPerm(g, drv, st, n, Cum(st, Parents(g, n)), {}).tighten
    ensures Inv(g, Recheck(g, drv, st, n))
  {
    var cum := Cum(st, Parents(g, n));
    var r := CheckPerm(g, drv, st, n, cum, {});
    LoosenNode(g, drv, st, n, cum, {});
    CheckStages(g, drv, st, n, cum, {});
    if r.ok {
      CumShares(st, Parents(g, n));
      CheckShares(g, drv, st, n, cum, {});
      CheckCompat(g, drv, st, n, cum, {}, {});
      CheckExact(g, drv, st, n, cum, {}, {});
      UsersUntouched(g, st, r.st, n);
      assert Parents(g, n) - {} == Parents(g, n);
      ExactFromKids(g, r.st, n, cum, {});
      forall k | k in g.nodes && k !in Below(g, n) ensures TightAt(g, r.st, k) {
        TightOutsideNode(g, st, r.st, n, k);
      }
      ConfirmedInv(g, r.st, n);
    } else {
      AbortRestores(g, r.st, n);
      StagedThenRestored(st, r.st, EdgesOf(g, Below(g, n)));
    }
  }
}
