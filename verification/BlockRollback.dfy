/** Which edges a permission update may touch, and that aborting it restores them. */
module BlockRollback {
  import opened Reach
  import opened BlockGraph
  import opened BlockPerms

  ghost function EdgesOf(g: Graph, ns: set<NodeId>): (r: set<EdgeId>) {
    set n, e | n in ns && e in Kids(g, n) :: e
  }

  /** An edge and all edges in the subtree it leads to. */
  ghost function UnderEdge(g: Graph, c: EdgeId): (r: set<EdgeId>)
    requires c in g.edges
  {
    {c} + EdgesOf(g, Below(g, g.edges[c].bs))
  }

  ghost function Under(g: Graph, cs: seq<EdgeId>): (r: set<EdgeId>) {
    set c, e | c in cs && c in g.edges && e in UnderEdge(g, c) :: e
  }

  lemma EdgeIsUnderKid(g: Graph, n: NodeId, k: NodeId, e: EdgeId)
    requires Ok(g) && n in g.nodes && k in Below(g, n) && e in Kids(g, k)
    ensures e in Under(g, Kids(g, n))
  {
    LiveOk(g);
    assert NodeOk(g, k);
    if k == n {
      assert e in UnderEdge(g, e);
    } else {
      var m := FirstStep(Live(g), n, k);
      var c :| c in Kids(g, n) && c in g.edges && g.edges[c].bs == m;
      assert e in UnderEdge(g, c);
    }
  }

  lemma UnderKidsBelow(g: Graph, n: NodeId, c: EdgeId)
    requires Ok(g) && n in g.nodes && c in Kids(g, n)
    ensures c in g.edges && UnderEdge(g, c) <= EdgesOf(g, Below(g, n))
  {
    KidBelow(g, n, c);
  }

  lemma UnderKids(g: Graph, n: NodeId)
    requires Ok(g) && n in g.nodes
    ensures Under(g, Kids(g, n)) == EdgesOf(g, Below(g, n))
  {
    forall n', e | n' in Below(g, n) && e in Kids(g, n') ensures e in Under(g, Kids(g, n)) {
      EdgeIsUnderKid(g, n, n', e);
    }
    forall c | c in Kids(g, n) ensures c in g.edges && UnderEdge(g, c) <= EdgesOf(g, Below(g, n)) {
      UnderKidsBelow(g, n, c);
    }
  }

  lemma UnderSplit(g: Graph, cs: seq<EdgeId>)
    requires cs != [] && cs[0] in g.edges
    ensures Under(g, cs) == UnderEdge(g, cs[0]) + Under(g, cs[1..])
  {
    assert forall c :: c in cs <==> c == cs[0] || c in cs[1..];
  }

  // ------------------------------------------------------------------ what a check may change

  /** The value to go back to. */
  function Original(s: PermState): Use {
    if s.backup.Some? then s.backup.value else s.use
  }

  /** From `st` to `st'` only edges in `es` changed, and each of those has its original
      value in its backup. */
  ghost predicate Stages(st: PermMap, st': PermMap, es: set<EdgeId>) {
    && st'.Keys == st.Keys
    && forall e :: e in st && st'[e] != st[e] ==>
         e in es && st'[e].backup == Some(Original(st[e]))
  }

  lemma StagesTrans(st: PermMap, st1: PermMap, st2: PermMap, es1: set<EdgeId>, es2: set<EdgeId>)
    requires Stages(st, st1, es1) && Stages(st1, st2, es2)
    ensures Stages(st, st2, es1 + es2)
  {}

  lemma {:induction false} CheckChildStages(g: Graph, drv: DriverCheck, st: PermMap, c: EdgeId, u: Use, ignore: set<EdgeId>)
    requires Covers(g, st) && c in g.edges
    ensures Stages(st, ChildCheckPerm(g, drv, st, c, u, ignore).st, UnderEdge(g, c))
    decreases Below(g, g.edges[c].bs), 3
  {
    assert EdgeOk(g, c);
    CheckUpdateStages(g, drv, st, g.edges[c].bs, u, ignore + {c});
  }

  lemma {:induction false} CheckUpdateStages(g: Graph, drv: DriverCheck, st: PermMap, n: NodeId, u: Use, ignore: set<EdgeId>)
    requires Covers(g, st) && n in g.nodes
    ensures Stages(st, CheckUpdatePerm(g, drv, st, n, u, ignore).st, EdgesOf(g, Below(g, n)))
    decreases Below(g, n), 2
  {
    var others := Parents(g, n) - ignore;
    if !Conflicts(st, others, u) {
      CheckStages(g, drv, st, n, Join(u, Cum(st, others)), ignore);
    }
  }

  lemma {:induction false} CheckStages(g: Graph, drv: DriverCheck, st: PermMap, n: NodeId, cum: Use, ignore: set<EdgeId>)
    requires Covers(g, st) && n in g.nodes
    ensures Stages(st, CheckPerm(g, drv, st, n, cum, ignore).st, EdgesOf(g, Below(g, n)))
    decreases Below(g, n), 1
  {
    CheckChildrenStages(g, drv, st, n, Kids(g, n), cum, ignore);
    UnderKids(g, n);
  }

  lemma {:induction false} CheckChildrenStages(g: Graph, drv: DriverCheck, st: PermMap, n: NodeId, cs: seq<EdgeId>, cum: Use, ignore: set<EdgeId>)
    requires Covers(g, st) && n in g.nodes && forall c :: c in cs ==> c in Kids(g, n)
    ensures Stages(st, CheckChildren(g, drv, st, n, cs, cum, ignore).st, Under(g, cs))
    decreases Below(g, n), 0, |cs|
  {
    if cs != [] {
      KidBelow(g, n, cs[0]);
      var u := KidUse(g, n, cs[0], cum);
      var r := ChildCheckPerm(g, drv, st, cs[0], u, ignore);
      CheckChildStages(g, drv, st, cs[0], u, ignore);
      UnderSplit(g, cs);
      if r.ok {
        var rest := CheckChildren(g, drv, r.st, n, cs[1..], cum, ignore);
        CheckChildrenStages(g, drv, r.st, n, cs[1..], cum, ignore);
        StagesTrans(st, r.st, rest.st, UnderEdge(g, cs[0]), Under(g, cs[1..]));
      }
    }
  }

  // ------------------------------------------------------------------ what an abort restores

  ghost function Restored(st: PermMap, es: set<EdgeId>): (r: PermMap) {
    map e | e in st :: if e in es then Unstage(st[e]) else st[e]
  }

  lemma RestoredTwice(st: PermMap, es1: set<EdgeId>, es2: set<EdgeId>)
    ensures Restored(Restored(st, es1), es2) == Restored(st, es1 + es2)
  {}

  lemma {:induction false} AbortChildRestores(g: Graph, st: PermMap, c: EdgeId)
    requires Covers(g, st) && c in g.edges
    ensures ChildAbortPerm(g, st, c) == Restored(st, UnderEdge(g, c))
    decreases Below(g, g.edges[c].bs), 2
  {
    var st1 := st[c := Unstage(st[c])];
    assert EdgeOk(g, c);
    assert st1 == Restored(st, {c});
    AbortRestores(g, st1, g.edges[c].bs);
    RestoredTwice(st, {c}, EdgesOf(g, Below(g, g.edges[c].bs)));
  }

  lemma {:induction false} AbortRestores(g: Graph, st: PermMap, n: NodeId)
    requires Covers(g, st) && n in g.nodes
    ensures AbortPerm(g, st, n) == Restored(st, EdgesOf(g, Below(g, n)))
    decreases Below(g, n), 1
  {
    AbortChildrenRestores(g, st, n, Kids(g, n));
    UnderKids(g, n);
  }

  lemma {:induction false} AbortChildrenRestores(g: Graph, st: PermMap, n: NodeId, cs: seq<EdgeId>)
    requires Covers(g, st) && n in g.nodes && forall c :: c in cs ==> c in Kids(g, n)
    ensures AbortChildren(g, st, n, cs) == Restored(st, Under(g, cs))
    decreases Below(g, n), 0, |cs|
  {
    if cs == [] {
      assert Under(g, cs) == {};
    } else {
      KidBelow(g, n, cs[0]);
      AbortChildRestores(g, st, cs[0]);
      var st1 := ChildAbortPerm(g, st, cs[0]);
      AbortChildrenRestores(g, st1, n, cs[1..]);
      UnderSplit(g, cs);
      RestoredTwice(st, UnderEdge(g, cs[0]), Under(g, cs[1..]));
    }
  }

  // ------------------------------------------------------------------ exact rollback

  ghost predicate NothingStaged(st: PermMap) {
    forall e :: e in st ==> st[e].backup.None?
  }

  lemma StagedThenRestored(st: PermMap, st': PermMap, es: set<EdgeId>)
    requires NothingStaged(st) && Stages(st, st', es)
    ensures Restored(st', es) == st
  {}

  /** Whatever a check of a node staged, and whether it succeeded or failed at whichever
      edge of the subtree, the matching abort puts back every value of every edge and
      leaves no backup behind. */
  lemma ExactRollback(g: Graph, drv: DriverCheck, st: PermMap, n: NodeId, u: Use, ignore: set<EdgeId>)
    requires Covers(g, st) && NothingStaged(st) && n in g.nodes
    ensures AbortPerm(g, CheckUpdatePerm(g, drv, st, n, u, ignore).st, n) == st
  {
    CheckUpdateStages(g, drv, st, n, u, ignore);
    var st' := CheckUpdatePerm(g, drv, st, n, u, ignore).st;
    AbortRestores(g, st', n);
    StagedThenRestored(st, st', EdgesOf(g, Below(g, n)));
  }

  lemma ExactChildRollback(g: Graph, drv: DriverCheck, st: PermMap, c: EdgeId, u: Use, ignore: set<EdgeId>)
    requires Covers(g, st) && NothingStaged(st) && c in g.edges
    ensures ChildAbortPerm(g, ChildCheckPerm(g, drv, st, c, u, ignore).st, c) == st
  {
    CheckChildStages(g, drv, st, c, u, ignore);
    var st' := ChildCheckPerm(g, drv, st, c, u, ignore).st;
    AbortChildRestores(g, st', c);
    StagedThenRestored(st, st', UnderEdge(g, c));
  }
}
