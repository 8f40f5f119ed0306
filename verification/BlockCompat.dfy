/** Every check keeps the users of every node compatible with each other. */
module BlockCompat {
  import opened Reach
  import opened BlockGraph
  import opened BlockPerms
  import opened BlockRollback

  /** Any two users of the same node, apart from the edges in `except`, tolerate each other. */
  ghost predicate Compat(g: Graph, st: PermMap, except: set<EdgeId>)
    requires st.Keys == g.edges.Keys
  {
    forall a, b ::
      a in g.edges && b in g.edges && a != b && a !in except && b !in except && g.edges[a].bs == g.edges[b].bs
      ==> st[a].use.perm <= st[b].use.shared
  }

  /** The ignore list of a recursive check of the subtree of `n`: the edges the caller gave,
      and edges on the path down to `n`, which all end above that subtree. */
  ghost predicate Path(g: Graph, ignore: set<EdgeId>, except: set<EdgeId>, n: NodeId) {
    except <= ignore && forall e :: e in ignore && e in g.edges && e !in except ==> g.edges[e].bs !in Below(g, n)
  }

  /** The same at a node whose own users may be ignored as well. */
  ghost predicate PathTo(g: Graph, ignore: set<EdgeId>, except: set<EdgeId>, n: NodeId) {
    && except <= ignore
    && forall e :: e in ignore && e in g.edges && e !in except && g.edges[e].bs in Below(g, n) ==> g.edges[e].bs == n
  }

  lemma PathStep(g: Graph, ignore: set<EdgeId>, except: set<EdgeId>, n: NodeId, c: EdgeId)
    requires Ok(g) && n in g.nodes && c in Kids(g, n)
    requires PathTo(g, ignore, except, n)
    ensures c in g.edges && Path(g, ignore, except, g.edges[c].bs)
  {
    KidBelow(g, n, c);
  }

  /** No edge into a node starts below it. */
  lemma ParentNotBelow(g: Graph, n: NodeId, e: EdgeId)
    requires Ok(g) && n in g.nodes && e in Parents(g, n)
    ensures e !in EdgesOf(g, Below(g, n))
  {
    ParentsAre(g, n);
    forall k | k in Below(g, n) ensures e !in Kids(g, k) {
      if e in Kids(g, k) {
        assert n in Live(g)[k];
        LiveOk(g);
      }
    }
  }

  lemma StagingKeepsCompat(g: Graph, st: PermMap, c: EdgeId, u: Use, except: set<EdgeId>)
    requires st.Keys == g.edges.Keys && c in g.edges && Compat(g, st, except)
    requires forall b :: b in g.edges && b != c && b !in except && g.edges[b].bs == g.edges[c].bs ==> Compatible(u, st[b].use)
    ensures Compat(g, st[c := Stage(st[c], u)], except)
  {}

  /** A check that succeeded found every user of the node compatible, and the recursion
      changed none of them. */
  lemma CheckedUsers(g: Graph, drv: DriverCheck, st: PermMap, n: NodeId, u: Use, ignore: set<EdgeId>, b: EdgeId)
    requires Covers(g, st) && n in g.nodes && b in Parents(g, n)
    ensures var r := CheckUpdatePerm(g, drv, st, n, u, ignore);
            r.st[b] == st[b] && (r.ok && b !in ignore ==> Compatible(u, r.st[b].use))
  {
    CheckUpdateStages(g, drv, st, n, u, ignore);
    ParentNotBelow(g, n, b);
    assert b !in ignore ==> b in Parents(g, n) - ignore;
  }

  lemma {:induction false} CheckChildCompat(g: Graph, drv: DriverCheck, st: PermMap, c: EdgeId, u: Use, ignore: set<EdgeId>, except: set<EdgeId>)
    requires Covers(g, st) && c in g.edges && Path(g, ignore, except, g.edges[c].bs) && Compat(g, st, except)
    ensures Compat(g, ChildCheckPerm(g, drv, st, c, u, ignore).st, except)
    decreases Below(g, g.edges[c].bs), 3
  {
    assert EdgeOk(g, c);
    var n := g.edges[c].bs;
    ParentsAre(g, n);
    var r := CheckUpdatePerm(g, drv, st, n, u, ignore + {c});
    CheckUpdateCompat(g, drv, st, n, u, ignore + {c}, except);
    if r.ok {
      Refl(Live(g), n);
      forall b | b in g.edges && b != c && b !in except && g.edges[b].bs == n ensures Compatible(u, r.st[b].use) {
        CheckedUsers(g, drv, st, n, u, ignore + {c}, b);
      }
      StagingKeepsCompat(g, r.st, c, u, except);
    }
  }

  lemma {:induction false} CheckUpdateCompat(g: Graph, drv: DriverCheck, st: PermMap, n: NodeId, u: Use, ignore: set<EdgeId>, except: set<EdgeId>)
    requires Covers(g, st) && n in g.nodes && Compat(g, st, except) && PathTo(g, ignore, except, n)
    ensures Compat(g, CheckUpdatePerm(g, drv, st, n, u, ignore).st, except)
    decreases Below(g, n), 2
  {
    var others := Parents(g, n) - ignore;
    if !Conflicts(st, others, u) {
      CheckCompat(g, drv, st, n, Join(u, Cum(st, others)), ignore, except);
    }
  }

  lemma {:induction false} CheckCompat(g: Graph, drv: DriverCheck, st: PermMap, n: NodeId, cum: Use, ignore: set<EdgeId>, except: set<EdgeId>)
    requires Covers(g, st) && n in g.nodes && Compat(g, st, except) && PathTo(g, ignore, except, n)
    ensures Compat(g, CheckPerm(g, drv, st, n, cum, ignore).st, except)
    decreases Below(g, n), 1
  {
    CheckChildrenCompat(g, drv, st, n, Kids(g, n), cum, ignore, except);
  }

  lemma {:induction false} CheckChildrenCompat(g: Graph, drv: DriverCheck, st: PermMap, n: NodeId, cs: seq<EdgeId>, cum: Use, ignore: set<EdgeId>, except: set<EdgeId>)
    requires Covers(g, st) && n in g.nodes && (forall c :: c in cs ==> c in Kids(g, n)) && Compat(g, st, except) && PathTo(g, ignore, except, n)
    ensures Compat(g, CheckChildren(g, drv, st, n, cs, cum, ignore).st, except)
    decreases Below(g, n), 0, |cs|
  {
    if cs != [] {
      KidBelow(g, n, cs[0]);
      var u := KidUse(g, n, cs[0], cum);
      var r := ChildCheckPerm(g, drv, st, cs[0], u, ignore);
      PathStep(g, ignore, except, n, cs[0]);
      CheckChildCompat(g, drv, st, cs[0], u, ignore, except);
      if r.ok {
        CheckChildrenCompat(g, drv, r.st, n, cs[1..], cum, ignore, except);
      }
    }
  }
}
