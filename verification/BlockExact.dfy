/** A successful check leaves every edge of the subtree at exactly the value that the users
    above it require, on graphs of any shape; confirming it then changes nothing but the
    backups. */
module BlockExact {
  import opened Lists
  import opened Reach
  import opened BlockGraph
  import opened BlockPerms
  import opened BlockRollback
  import opened BlockCompat

  /** The edges out of `k` have the value that the users of `k`, apart from `except`, ask for. */
  ghost predicate ExactAt(g: Graph, st: PermMap, except: set<EdgeId>, k: NodeId)
    requires Covers(g, st) && k in g.nodes
  {
    forall c :: c in Kids(g, k) ==> IsKidUse(g, st, k, c, Cum(st, Parents(g, k) - except))
  }

  ghost predicate IsKidUse(g: Graph, st: PermMap, k: NodeId, c: EdgeId, cum: Use)
    requires Covers(g, st) && k in g.nodes && c in Kids(g, k)
  {
    KidBelow(g, k, c);
    st[c].use == KidUse(g, k, c, cum)
  }

  ghost predicate ExactBelow(g: Graph, st: PermMap, except: set<EdgeId>, n: NodeId)
    requires Covers(g, st)
  {
    forall k {:trigger ExactAt(g, st, except, k)} :: k in Below(g, n) && k in g.nodes ==> ExactAt(g, st, except, k)
  }

  lemma CumFrame(st: PermMap, st': PermMap, es: set<EdgeId>)
    requires es <= st.Keys && es <= st'.Keys && forall e :: e in es ==> st'[e].use == st[e].use
    ensures Cum(st', es) == Cum(st, es)
  {}

  lemma ExactFrame(g: Graph, st: PermMap, st': PermMap, except: set<EdgeId>, k: NodeId)
    requires Covers(g, st) && Covers(g, st') && k in g.nodes && ExactAt(g, st, except, k)
    requires forall e :: e in Parents(g, k) || e in Kids(g, k) ==> e in g.edges && st'[e].use == st[e].use
    ensures ExactAt(g, st', except, k)
  {
    CumFrame(st, st', Parents(g, k) - except);
    forall c | c in Kids(g, k) ensures IsKidUse(g, st', k, c, Cum(st', Parents(g, k) - except)) {
      assert IsKidUse(g, st, k, c, Cum(st, Parents(g, k) - except));
    }
  }

  /** A node outside the subtree of `n` has no edge, in or out, that starts in it. */
  lemma OutsideSubtree(g: Graph, n: NodeId, k: NodeId, e: EdgeId)
    requires Ok(g) && n in g.nodes && k in g.nodes && k !in Below(g, n) && (e in Parents(g, k) || e in Kids(g, k))
    ensures e !in EdgesOf(g, Below(g, n))
  {
    LiveOk(g);
    ParentsAre(g, k);
    forall m | m in Below(g, n) ensures e !in Kids(g, m) {
      assert OneOwner(g, m, k, e);
      if e in Kids(g, m) && e in Parents(g, k) {
        assert k in Live(g)[m];
        DownStep(Live(g), m, k);
        DownTrans(Live(g), n, m);
      }
    }
  }

  /** Edges in and out of `k` that a check of the edge `c` leaves alone. */
  lemma OutsideEdge(g: Graph, n: NodeId, c: EdgeId, k: NodeId, e: EdgeId)
    requires Ok(g) && n in g.nodes && c in Kids(g, n) && k in g.nodes && k != n && (e in Parents(g, k) || e in Kids(g, k))
    requires c in g.edges && k !in Below(g, g.edges[c].bs)
    ensures e !in UnderEdge(g, c)
  {
    KidBelow(g, n, c);
    OutsideSubtree(g, g.edges[c].bs, k, e);
    ParentsAre(g, k);
    assert OneOwner(g, n, k, e);
  }

  lemma ExactOutsideChildren(g: Graph, st: PermMap, st': PermMap, n: NodeId, cs: seq<EdgeId>, except: set<EdgeId>, k: NodeId)
    requires Covers(g, st) && Covers(g, st') && n in g.nodes && (forall c :: c in cs ==> c in Kids(g, n))
    requires k in g.nodes && k != n && ExactAt(g, st, except, k) && Stages(st, st', Under(g, cs))
    requires forall c :: c in cs ==> c in g.edges && k !in Below(g, g.edges[c].bs)
    ensures ExactAt(g, st', except, k)
  {
    assert NodeOk(g, k);
    forall e | e in Parents(g, k) || e in Kids(g, k) ensures e in g.edges && st'[e] == st[e] {
      forall c | c in cs ensures e !in UnderEdge(g, c) {
        OutsideEdge(g, n, c, k, e);
      }
    }
    ExactFrame(g, st, st', except, k);
  }

  /** A kid of `n` that was staged stays as it is while its later siblings are checked. */
  lemma SiblingUntouched(g: Graph, n: NodeId, c: EdgeId, cs: seq<EdgeId>)
    requires Ok(g) && n in g.nodes && c in Kids(g, n) && c !in cs && forall d :: d in cs ==> d in Kids(g, n)
    ensures c !in Under(g, cs)
  {
    forall d | d in cs && d in g.edges ensures c !in UnderEdge(g, d) {
      KidBelow(g, n, d);
      forall k | k in Below(g, g.edges[d].bs) ensures c !in Kids(g, k) {
        assert OneOwner(g, n, k, c);
      }
    }
  }

  // ------------------------------------------------------------------ a successful check is exact

  ghost predicate ExactKids(g: Graph, st: PermMap, n: NodeId, cs: seq<EdgeId>, cum: Use, except: set<EdgeId>)
    requires Covers(g, st) && n in g.nodes && forall c :: c in cs ==> c in Kids(g, n)
  {
    forall c :: c in cs ==> IsKidUse(g, st, n, c, cum) && c in g.edges && ExactBelow(g, st, except, g.edges[c].bs)
  }

  lemma {:induction false} CheckChildrenExact(g: Graph, drv: DriverCheck, st: PermMap, n: NodeId, cs: seq<EdgeId>, cum: Use,
                                              ignore: set<EdgeId>, except: set<EdgeId>)
    requires Covers(g, st) && n in g.nodes && (forall c :: c in cs ==> c in Kids(g, n)) && NoDups(cs)
    requires PathTo(g, ignore, except, n) && except !! EdgesOf(g, Below(g, n))
    ensures var r := CheckChildren(g, drv, st, n, cs, cum, ignore);
            r.ok ==> ExactKids(g, r.st, n, cs, cum, except)
    decreases Below(g, n), 0, |cs|
  {
    if cs != [] {
      var c := cs[0];
      KidBelow(g, n, c);
      PathStep(g, ignore, except, n, c);
      UnderKidsBelow(g, n, c);
      var u := KidUse(g, n, c, cum);
      var r := ChildCheckPerm(g, drv, st, c, u, ignore);
      CheckChildExact(g, drv, st, c, u, ignore, except);
      if r.ok {
        var rest := CheckChildren(g, drv, r.st, n, cs[1..], cum, ignore);
        CheckChildrenExact(g, drv, r.st, n, cs[1..], cum, ignore, except);
        CheckChildrenStages(g, drv, r.st, n, cs[1..], cum, ignore);
        if rest.ok {
          KeepFirstKid(g, r.st, rest.st, n, cs, cum, except);
        }
      }
    }
  }

  lemma KeepFirstKid(g: Graph, st: PermMap, st': PermMap, n: NodeId, cs: seq<EdgeId>, cum: Use, except: set<EdgeId>)
    requires Covers(g, st) && Covers(g, st') && n in g.nodes && (forall c :: c in cs ==> c in Kids(g, n)) && NoDups(cs)
    requires cs != [] && cs[0] in g.edges && Stages(st, st', Under(g, cs[1..]))
    requires IsKidUse(g, st, n, cs[0], cum) && ExactBelow(g, st, except, g.edges[cs[0]].bs)
    requires ExactKids(g, st', n, cs[1..], cum, except)
    ensures ExactKids(g, st', n, cs, cum, except)
  {
    SiblingUntouched(g, n, cs[0], cs[1..]);
    KidBelow(g, n, cs[0]);
    forall k | k in Below(g, g.edges[cs[0]].bs) && k in g.nodes ensures ExactAt(g, st', except, k) {
      assert NodeOk(g, n);
      if c :| c in cs[1..] && k in Below(g, g.edges[c].bs) {
        assert IsKidUse(g, st', n, c, cum) && ExactBelow(g, st', except, g.edges[c].bs);
      } else {
        ExactOutsideChildren(g, st, st', n, cs[1..], except, k);
      }
    }
    assert IsKidUse(g, st', n, cs[0], cum);
    forall c | c in cs ensures IsKidUse(g, st', n, c, cum) && ExactBelow(g, st', except, g.edges[c].bs) {
      assert c == cs[0] || c in cs[1..];
    }
  }

  /** Seen from `n`, every node below it is `n` itself or below one of its kids. */
  lemma ExactFromKids(g: Graph, st: PermMap, n: NodeId, cum: Use, except: set<EdgeId>)
    requires Covers(g, st) && n in g.nodes && ExactKids(g, st, n, Kids(g, n), cum, except)
    requires cum == Cum(st, Parents(g, n) - except)
    ensures ExactBelow(g, st, except, n)
  {
    LiveOk(g);
    forall k | k in Below(g, n) && k in g.nodes ensures ExactAt(g, st, except, k) {
      if k != n {
        var m := FirstStep(Live(g), n, k);
        var c :| c in Kids(g, n) && c in g.edges && g.edges[c].bs == m;
        assert ExactBelow(g, st, except, g.edges[c].bs);
      }
    }
  }

  lemma CumInsert(st: PermMap, es: set<EdgeId>, c: EdgeId)
    requires es <= st.Keys && c in st
    ensures Cum(st, es + {c}) == Join(st[c].use, Cum(st, es))
  {
    var l, r := Cum(st, es + {c}), Join(st[c].use, Cum(st, es));
    assert c in es + {c};
    assert l.perm == r.perm;
    forall p ensures p in l.shared <==> p in r.shared {
      InAll(p);
    }
  }

  /** The users of the node that `c` points to, once `c` has the value `u`. */
  lemma CumAfterStaging(g: Graph, st: PermMap, st': PermMap, c: EdgeId, u: Use, ignore: set<EdgeId>, except: set<EdgeId>)
    requires Covers(g, st) && Covers(g, st') && c in g.edges && c !in except && Path(g, ignore, except, g.edges[c].bs)
    requires Stages(st, st', EdgesOf(g, Below(g, g.edges[c].bs)))
    ensures g.edges[c].bs in g.nodes
    ensures var n := g.edges[c].bs;
            Cum(st'[c := Stage(st'[c], u)], Parents(g, n) - except) == Join(u, Cum(st, Parents(g, n) - (ignore + {c})))
  {
    assert EdgeOk(g, c);
    var n := g.edges[c].bs;
    var others, st2 := Parents(g, n) - (ignore + {c}), st'[c := Stage(st'[c], u)];
    ParentsAre(g, n);
    Refl(Live(g), n);
    assert Parents(g, n) - except == others + {c};
    forall e | e in others ensures st2[e].use == st[e].use {
      ParentNotBelow(g, n, e);
    }
    CumFrame(st, st2, others);
    CumInsert(st2, others, c);
  }

  lemma StagedOutside(g: Graph, st: PermMap, c: EdgeId, u: Use, k: NodeId, except: set<EdgeId>)
    requires Covers(g, st) && c in g.edges && g.edges[c].bs in g.nodes && k in g.nodes
    requires k in Below(g, g.edges[c].bs) && k != g.edges[c].bs && ExactAt(g, st, except, k)
    ensures ExactAt(g, st[c := Stage(st[c], u)], except, k)
  {
    ParentsAre(g, k);
    ParentsAre(g, g.edges[c].bs);
    ParentNotBelow(g, g.edges[c].bs, c);
    assert NodeOk(g, k);
    ExactFrame(g, st, st[c := Stage(st[c], u)], except, k);
  }

  /** Staging an edge above the subtree does not disturb the nodes in it. */
  lemma ExactKidsAfterStaging(g: Graph, st: PermMap, c: EdgeId, u: Use, cum: Use, except: set<EdgeId>)
    requires Covers(g, st) && c in g.edges && g.edges[c].bs in g.nodes
    requires ExactKids(g, st, g.edges[c].bs, Kids(g, g.edges[c].bs), cum, except)
    ensures ExactKids(g, st[c := Stage(st[c], u)], g.edges[c].bs, Kids(g, g.edges[c].bs), cum, except)
  {
    var n, st2 := g.edges[c].bs, st[c := Stage(st[c], u)];
    ParentsAre(g, n);
    ParentNotBelow(g, n, c);
    forall d | d in Kids(g, n) ensures IsKidUse(g, st2, n, d, cum) && d in g.edges && ExactBelow(g, st2, except, g.edges[d].bs) {
      KidBelow(g, n, d);
      assert IsKidUse(g, st, n, d, cum);
      forall k | k in Below(g, g.edges[d].bs) && k in g.nodes ensures ExactAt(g, st2, except, k) {
        StagedOutside(g, st, c, u, k, except);
      }
    }
  }

  lemma {:induction false} CheckUpdateExact(g: Graph, drv: DriverCheck, st: PermMap, n: NodeId, u: Use, ignore: set<EdgeId>, except: set<EdgeId>)
    requires Covers(g, st) && n in g.nodes && PathTo(g, ignore, except, n) && except !! EdgesOf(g, Below(g, n))
    ensures var r := CheckUpdatePerm(g, drv, st, n, u, ignore);
            r.ok ==> ExactKids(g, r.st, n, Kids(g, n), Join(u, Cum(st, Parents(g, n) - ignore)), except)
    decreases Below(g, n), 2
  {
    CheckExact(g, drv, st, n, Join(u, Cum(st, Parents(g, n) - ignore)), ignore, except);
  }

  lemma {:induction false} CheckExact(g: Graph, drv: DriverCheck, st: PermMap, n: NodeId, cum: Use, ignore: set<EdgeId>, except: set<EdgeId>)
    requires Covers(g, st) && n in g.nodes && PathTo(g, ignore, except, n) && except !! EdgesOf(g, Below(g, n))
    ensures var r := CheckPerm(g, drv, st, n, cum, ignore);
            r.ok ==> ExactKids(g, r.st, n, Kids(g, n), cum, except)
    decreases Below(g, n), 1
  {
    assert NodeOk(g, n);
    CheckChildrenExact(g, drv, st, n, Kids(g, n), cum, ignore, except);
  }

  lemma {:induction false} CheckChildExact(g: Graph, drv: DriverCheck, st: PermMap, c: EdgeId, u: Use, ignore: set<EdgeId>, except: set<EdgeId>)
    requires Covers(g, st) && c in g.edges && Path(g, ignore, except, g.edges[c].bs) && except !! UnderEdge(g, c)
    ensures var r := ChildCheckPerm(g, drv, st, c, u, ignore);
            r.ok ==> r.st[c].use == u && ExactBelow(g, r.st, except, g.edges[c].bs)
    decreases Below(g, g.edges[c].bs), 3
  {
    assert EdgeOk(g, c);
    var n := g.edges[c].bs;
    var r := CheckUpdatePerm(g, drv, st, n, u, ignore + {c});
    var cum := Join(u, Cum(st, Parents(g, n) - (ignore + {c})));
    CheckUpdateExact(g, drv, st, n, u, ignore + {c}, except);
    CheckUpdateStages(g, drv, st, n, u, ignore + {c});
    if r.ok {
      CumAfterStaging(g, st, r.st, c, u, ignore, except);
      ExactKidsAfterStaging(g, r.st, c, u, cum, except);
      ExactFromKids(g, r.st[c := Stage(r.st[c], u)], n, cum, except);
    }
  }

  // ------------------------------------------------------------------ confirming an exact state

  ghost function Cleared(st: PermMap, es: set<EdgeId>): (r: PermMap) {
    map e | e in st :: if e in es then PermState(st[e].use, None) else st[e]
  }

  lemma ClearedTwice(st: PermMap, es1: set<EdgeId>, es2: set<EdgeId>)
    ensures Cleared(Cleared(st, es1), es2) == Cleared(st, es1 + es2)
  {}

  lemma ClearedStaysExact(g: Graph, st: PermMap, es: set<EdgeId>, n: NodeId)
    requires Covers(g, st) && ExactBelow(g, st, {}, n)
    ensures Covers(g, Cleared(st, es)) && ExactBelow(g, Cleared(st, es), {}, n)
  {
    assert Covers(g, Cleared(st, es));
    forall k | k in Below(g, n) && k in g.nodes ensures ExactAt(g, Cleared(st, es), {}, k) {
      assert NodeOk(g, k);
      ExactFrame(g, st, Cleared(st, es), {}, k);
    }
  }

  lemma ExactInKid(g: Graph, st: PermMap, n: NodeId, c: EdgeId)
    requires Covers(g, st) && n in g.nodes && c in Kids(g, n) && ExactBelow(g, st, {}, n)
    ensures IsKidUse(g, st, n, c, Cum(st, Parents(g, n))) && c in g.edges && ExactBelow(g, st, {}, g.edges[c].bs)
  {
    KidBelow(g, n, c);
    assert ExactAt(g, st, {}, n) && Parents(g, n) - {} == Parents(g, n);
  }

  /** Once the staged values are exact, the second phase computes the same values again and
      only forgets the backups. */
  lemma {:induction false} SetConfirms(g: Graph, st: PermMap, n: NodeId)
    requires Covers(g, st) && n in g.nodes && ExactBelow(g, st, {}, n)
    ensures SetPerm(g, st, n, Cum(st, Parents(g, n))) == Cleared(st, EdgesOf(g, Below(g, n)))
    decreases Below(g, n), 1
  {
    SetChildrenConfirms(g, st, n, Kids(g, n), Cum(st, Parents(g, n)));
    UnderKids(g, n);
  }

  lemma {:induction false} SetChildrenConfirms(g: Graph, st: PermMap, n: NodeId, cs: seq<EdgeId>, cum: Use)
    requires Covers(g, st) && n in g.nodes && (forall c :: c in cs ==> c in Kids(g, n))
    requires ExactBelow(g, st, {}, n) && cum == Cum(st, Parents(g, n))
    ensures SetChildren(g, st, n, cs, cum) == Cleared(st, Under(g, cs))
    decreases Below(g, n), 0, |cs|
  {
    if cs == [] {
      assert Under(g, cs) == {};
    } else {
      ExactInKid(g, st, n, cs[0]);
      KidBelow(g, n, cs[0]);
      ChildSetConfirms(g, st, cs[0], st[cs[0]].use);
      var st1 := Cleared(st, UnderEdge(g, cs[0]));
      ClearedStaysExact(g, st, UnderEdge(g, cs[0]), n);
      CumFrame(st, st1, Parents(g, n));
      SetChildrenConfirms(g, st1, n, cs[1..], cum);
      UnderSplit(g, cs);
      ClearedTwice(st, UnderEdge(g, cs[0]), Under(g, cs[1..]));
    }
  }

  lemma {:induction false} ChildSetConfirms(g: Graph, st: PermMap, c: EdgeId, u: Use)
    requires Covers(g, st) && c in g.edges && u == st[c].use && ExactBelow(g, st, {}, g.edges[c].bs)
    ensures ChildSetPerm(g, st, c, u) == Cleared(st, UnderEdge(g, c))
    decreases Below(g, g.edges[c].bs), 2
  {
    assert EdgeOk(g, c);
    var n, st1 := g.edges[c].bs, Cleared(st, {c});
    assert st1 == st[c := PermState(u, None)];
    ClearedStaysExact(g, st, {c}, n);
    SetConfirms(g, st1, n);
    ClearedTwice(st, {c}, EdgesOf(g, Below(g, n)));
  }
}
