/** Asking for less never fails: a request that neither adds a permission nor takes back a
    shared one never reports `tighten_restrictions`, anywhere in the subtree. */
module BlockLoosen {
  import opened Lists
  import opened Reach
  import opened BlockGraph
  import opened BlockPerms
  import opened BlockRollback
  import opened BlockCompat
  import opened BlockExact

  /** The edges out of `k` are at least as tight as the users of `k` require. */
  ghost predicate TightAt(g: Graph, st: PermMap, k: NodeId)
    requires Covers(g, st) && k in g.nodes
  {
    forall c :: c in Kids(g, k) ==> KidTight(g, st, k, c, Cum(st, Parents(g, k)))
  }

  ghost predicate KidTight(g: Graph, st: PermMap, k: NodeId, c: EdgeId, cum: Use)
    requires Covers(g, st) && k in g.nodes && c in Kids(g, k)
  {
    KidBelow(g, k, c);
    Looser(KidUse(g, k, c, cum), st[c].use)
  }

  ghost predicate TightBelow(g: Graph, st: PermMap, n: NodeId)
    requires Covers(g, st)
  {
    forall k {:trigger TightAt(g, st, k)} :: k in Below(g, n) && k in g.nodes ==> TightAt(g, st, k)
  }

  lemma ExactIsTight(g: Graph, st: PermMap, k: NodeId)
    requires Covers(g, st) && k in g.nodes && ExactAt(g, st, {}, k)
    ensures TightAt(g, st, k)
  {
    assert Parents(g, k) - {} == Parents(g, k);
    forall c | c in Kids(g, k) ensures KidTight(g, st, k, c, Cum(st, Parents(g, k))) {
      assert IsKidUse(g, st, k, c, Cum(st, Parents(g, k)));
    }
  }

  lemma TightFrame(g: Graph, st: PermMap, st': PermMap, k: NodeId)
    requires Covers(g, st) && Covers(g, st') && k in g.nodes && TightAt(g, st, k)
    requires forall e :: e in Parents(g, k) || e in Kids(g, k) ==> e in g.edges && st'[e].use == st[e].use
    ensures TightAt(g, st', k)
  {
    CumFrame(st, st', Parents(g, k));
    forall c | c in Kids(g, k) ensures KidTight(g, st', k, c, Cum(st', Parents(g, k))) {
      assert KidTight(g, st, k, c, Cum(st, Parents(g, k)));
    }
  }

  /** What is tight for some users stays tight when they ask for less. */
  lemma LooserKid(g: Graph, st: PermMap, n: NodeId, c: EdgeId, cum: Use)
    requires Covers(g, st) && n in g.nodes && c in Kids(g, n) && TightAt(g, st, n) && Looser(cum, Cum(st, Parents(g, n)))
    ensures KidTight(g, st, n, c, cum)
  {
    KidBelow(g, n, c);
    assert KidTight(g, st, n, c, Cum(st, Parents(g, n)));
    ChildPermMonotone(g.nodes[n], g.nodes[g.edges[c].bs], g.edges[c].role, cum, Cum(st, Parents(g, n)));
  }

  lemma LooserCum(st: PermMap, others: set<EdgeId>, c: EdgeId, u: Use)
    requires others <= st.Keys && c in st && Looser(u, st[c].use)
    ensures Looser(Join(u, Cum(st, others)), Cum(st, others + {c}))
  {
    CumInsert(st, others, c);
  }

  /** Nodes outside the subtree of the kid `c` of `n` stay tight while `c` is checked. */
  lemma TightOutside(g: Graph, st: PermMap, st': PermMap, n: NodeId, c: EdgeId, k: NodeId)
    requires Covers(g, st) && Covers(g, st') && n in g.nodes && c in Kids(g, n) && c in g.edges
    requires k in g.nodes && k != n && k !in Below(g, g.edges[c].bs) && TightAt(g, st, k) && Stages(st, st', UnderEdge(g, c))
    ensures TightAt(g, st', k)
  {
    assert NodeOk(g, k);
    forall e | e in Parents(g, k) || e in Kids(g, k) ensures e in g.edges && st'[e] == st[e] {
      OutsideEdge(g, n, c, k, e);
    }
    TightFrame(g, st, st', k);
  }

  ghost predicate LoosenKids(g: Graph, st: PermMap, n: NodeId, cs: seq<EdgeId>, cum: Use)
    requires Covers(g, st) && n in g.nodes && forall c :: c in cs ==> c in Kids(g, n)
  {
    forall c :: c in cs ==> KidTight(g, st, n, c, cum) && c in g.edges && TightBelow(g, st, g.edges[c].bs)
  }

  /** After the first kid was loosened successfully, its siblings can still be loosened. */
  lemma LoosenNext(g: Graph, drv: DriverCheck, st: PermMap, n: NodeId, cs: seq<EdgeId>, cum: Use, ignore: set<EdgeId>)
    requires Covers(g, st) && n in g.nodes && (forall c :: c in cs ==> c in Kids(g, n)) && NoDups(cs) && cs != []
    requires LoosenKids(g, st, n, cs, cum) && PathTo(g, ignore, {}, n) && cs[0] in g.edges && g.edges[cs[0]].bs in g.nodes
    requires ChildCheckPerm(g, drv, st, cs[0], KidUse(g, n, cs[0], cum), ignore).ok
    ensures LoosenKids(g, ChildCheckPerm(g, drv, st, cs[0], KidUse(g, n, cs[0], cum), ignore).st, n, cs[1..], cum)
  {
    var c, u := cs[0], KidUse(g, n, cs[0], cum);
    var st' := ChildCheckPerm(g, drv, st, c, u, ignore).st;
    PathStep(g, ignore, {}, n, c);
    CheckChildExact(g, drv, st, c, u, ignore, {});
    CheckChildStages(g, drv, st, c, u, ignore);
    forall d | d in cs[1..] ensures KidTight(g, st', n, d, cum) && d in g.edges && TightBelow(g, st', g.edges[d].bs) {
      assert KidTight(g, st, n, d, cum) && d in g.edges && TightBelow(g, st, g.edges[d].bs);
      SiblingUntouched(g, n, d, [c]);
      assert d !in UnderEdge(g, c);
      KidBelow(g, n, d);
      forall k | k in Below(g, g.edges[d].bs) && k in g.nodes ensures TightAt(g, st', k) {
        if k in Below(g, g.edges[c].bs) {
          ExactIsTight(g, st', k);
        } else {
          TightOutside(g, st, st', n, c, k);
        }
      }
    }
  }

  lemma {:induction false} LoosenChildren(g: Graph, drv: DriverCheck, st: PermMap, n: NodeId, cs: seq<EdgeId>, cum: Use, ignore: set<EdgeId>)
    requires Covers(g, st) && n in g.nodes && (forall c :: c in cs ==> c in Kids(g, n)) && NoDups(cs)
    requires LoosenKids(g, st, n, cs, cum) && PathTo(g, ignore, {}, n) && Compat(g, st, {})
    ensures !CheckChildren(g, drv, st, n, cs, cum, ignore).tighten
    decreases Below(g, n), 0, |cs|
  {
    if cs != [] {
      KidBelow(g, n, cs[0]);
      assert KidTight(g, st, n, cs[0], cum);
      var u := KidUse(g, n, cs[0], cum);
      PathStep(g, ignore, {}, n, cs[0]);
      LoosenChild(g, drv, st, cs[0], u, ignore);
      var r := ChildCheckPerm(g, drv, st, cs[0], u, ignore);
      if r.ok {
        CheckChildCompat(g, drv, st, cs[0], u, ignore, {});
        LoosenNext(g, drv, st, n, cs, cum, ignore);
        LoosenChildren(g, drv, r.st, n, cs[1..], cum, ignore);
      }
    }
  }

  lemma {:induction false} LoosenNode(g: Graph, drv: DriverCheck, st: PermMap, n: NodeId, cum: Use, ignore: set<EdgeId>)
    requires Covers(g, st) && n in g.nodes && TightBelow(g, st, n) && PathTo(g, ignore, {}, n) && Compat(g, st, {})
    requires Looser(cum, Cum(st, Parents(g, n)))
    ensures !CheckPerm(g, drv, st, n, cum, ignore).tighten
    decreases Below(g, n), 1
  {
    Refl(Live(g), n);
    assert NodeOk(g, n) && TightAt(g, st, n);
    forall c | c in Kids(g, n) ensures KidTight(g, st, n, c, cum) && c in g.edges && TightBelow(g, st, g.edges[c].bs) {
      LooserKid(g, st, n, c, cum);
      KidBelow(g, n, c);
    }
    LoosenChildren(g, drv, st, n, Kids(g, n), cum, ignore);
  }

  lemma {:induction false} LoosenChild(g: Graph, drv: DriverCheck, st: PermMap, c: EdgeId, u: Use, ignore: set<EdgeId>)
    requires Covers(g, st) && c in g.edges && TightBelow(g, st, g.edges[c].bs) && Path(g, ignore, {}, g.edges[c].bs)
    requires Compat(g, st, {}) && Looser(u, st[c].use)
    ensures !ChildCheckPerm(g, drv, st, c, u, ignore).tighten
    decreases Below(g, g.edges[c].bs), 3
  {
    assert EdgeOk(g, c);
    var n := g.edges[c].bs;
    ParentsAre(g, n);
    Refl(Live(g), n);
    var others := Parents(g, n) - (ignore + {c});
    assert others + {c} == Parents(g, n);
    forall e | e in others ensures Compatible(u, st[e].use) {
      assert st[c].use.perm <= st[e].use.shared && st[e].use.perm <= st[c].use.shared;
    }
    LooserCum(st, others, c, u);
    LoosenNode(g, drv, st, n, Join(u, Cum(st, others)), ignore + {c});
  }
}
