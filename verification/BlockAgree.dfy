/** What moves between AioContexts keep: the two ends of every edge are in the same context. */
module BlockAgree {
  import opened Reach
  import opened BlockAio

  // ------------------------------------------------------------------ all or nothing

  /** All the links between nodes, whatever their contexts. */
  ghost function AllLinks(w: World, skip: set<EdgeId>): (g: Digraph) {
    map n | n in w.nodes :: set m | m in w.nodes && Next(w, skip, n, m)
  }

  ghost predicate Connected(w: World, skip: set<EdgeId>, a: NodeId, b: NodeId) {
    Reaches(AllLinks(w, skip), a, b)
  }

  /** The block layer keeps connected nodes in one context. */
  ghost predicate Uniform(w: World, t: Trip) {
    forall n :: n in w.nodes && Connected(w, t.skip, t.root, n) ==> n in t.before && t.root in t.before && t.before[n] == t.before[t.root]
  }

  /** When the connected nodes share a context, a move takes all of them and no other node. */
  lemma WholeComponent(w: World, t: Trip, n: NodeId)
    requires t.before.Keys == w.nodes.Keys && t.root in w.nodes && n in w.nodes && Uniform(w, t)
    ensures MovedContexts(w, t)[n] == if Connected(w, t.skip, t.root, n) then t.to else t.before[n]
  {
    var g, r := AllLinks(w, t.skip), Linked(w, t);
    if t.before[t.root] == t.to {
      if Meets(w, t, n) && n != t.root {
        Refl(g, t.root);
        assert Closed(r);
        var m := FirstStep(r, t.root, n);
        assert false;
      }
    } else {
      assert forall k :: k in Down(g, t.root) ==> r[k] == g[k];
      DownAgrees(g, r, t.root);
      assert n in Down(r, t.root) <==> n in Down(g, t.root);
    }
  }

  // ------------------------------------------------------------------ both ends of every edge

  /** The contexts of nodes and users. */
  datatype Ctxs = Ctxs(nodes: map<NodeId, Ctx>, users: Users)

  /** The holder of the edge is in the context of the node it points to. */
  ghost predicate EdgeAgrees(w: World, c: Ctxs, e: EdgeId)
    requires e in w.edges
  {
    && w.edges[e].bs in c.nodes
    && var ctx := c.nodes[w.edges[e].bs];
       match w.edges[e].owner
       case ByNode(p) => p in c.nodes && c.nodes[p] == ctx
       case ByJob(j) => j in c.users.jobs && c.users.jobs[j] == ctx
       case ByRoot(_) => e in c.users.backends && c.users.backends[e] == ctx
       case NoCallback => true
  }

  ghost predicate Agree(w: World, c: Ctxs) {
    && WellFormed(w) && c.nodes.Keys == w.nodes.Keys && Listen(w, c.users)
    && forall e {:trigger EdgeAgrees(w, c, e)} :: e in w.edges ==> EdgeAgrees(w, c, e)
  }

  /** Neighbours are in one context. */
  lemma NextAgrees(w: World, c: Ctxs, skip: set<EdgeId>, n: NodeId, m: NodeId)
    requires Agree(w, c) && n in w.nodes && Next(w, skip, n, m)
    ensures m in c.nodes && c.nodes[m] == c.nodes[n]
  {
    assert NodeOk(w, n);
    if e :| e in w.nodes[n].children && e !in skip && e in w.edges && w.edges[e].bs == m {
      assert EdgeAgrees(w, c, e);
    } else if e :| e in w.nodes[n].parents && e !in skip && e in w.edges && w.edges[e].owner == ByNode(m) {
      assert EdgeAgrees(w, c, e);
    } else {
      var e, d :| e in w.nodes[n].parents && e !in skip && e in w.edges && w.edges[e].owner.ByJob? && w.edges[e].owner.job in w.jobs
                  && d in w.jobs[w.edges[e].owner.job] && d !in skip && d in w.edges && w.edges[d].bs == m;
      assert EdgeAgrees(w, c, e) && EdgeAgrees(w, c, d) && JobOk(w, w.edges[e].owner.job);
    }
  }

  lemma {:induction false} PathAgrees(w: World, c: Ctxs, skip: set<EdgeId>, p: seq<NodeId>)
    requires Agree(w, c) && IsPath(AllLinks(w, skip), p)
    ensures p[0] in c.nodes && p[|p| - 1] in c.nodes && c.nodes[p[|p| - 1]] == c.nodes[p[0]]
    decreases |p|
  {
    if |p| > 1 {
      var q := p[..|p| - 1];
      var n, m := p[|p| - 2], p[|p| - 2 + 1];
      assert IsPath(AllLinks(w, skip), q) && n in AllLinks(w, skip) && m in AllLinks(w, skip)[n];
      PathAgrees(w, c, skip, q);
      NextAgrees(w, c, skip, n, m);
    }
  }

  /** Connected nodes are in one context. */
  lemma AgreeIsUniform(w: World, t: Trip)
    requires Agree(w, Ctxs(t.before, t.users)) && t.root in w.nodes
    ensures Uniform(w, t)
  {
    forall n | n in w.nodes && Connected(w, t.skip, t.root, n) ensures t.before[n] == t.before[t.root] {
      var p :| Connects(AllLinks(w, t.skip), p, t.root, n);
      PathAgrees(w, Ctxs(t.before, t.users), t.skip, p);
    }
  }

  // ------------------------------------------------------------------ moves keep it

  ghost function Moved(w: World, t: Trip): Ctxs
    requires t.before.Keys == w.nodes.Keys
  {
    Ctxs(MovedContexts(w, t), ToldUsers(w, t))
  }

  /** The edges that the caller leaves out belong to block backends. */
  ghost predicate SkipsBackends(w: World, skip: set<EdgeId>) {
    forall e :: e in skip ==> e in w.edges && w.edges[e].owner.ByRoot?
  }

  lemma NodeEdgeAgrees(w: World, t: Trip, e: EdgeId)
    requires Agree(w, Ctxs(t.before, t.users)) && e in w.edges && e !in t.skip && w.edges[e].owner.ByNode?
    ensures EdgeAgrees(w, Moved(w, t), e)
  {
    var b, p := w.edges[e].bs, w.edges[e].owner.node;
    assert EdgeOk(w, e) && EdgeAgrees(w, Ctxs(t.before, t.users), e);
    if Stale(t, b) {
      assert Next(w, t.skip, b, p) && Next(w, t.skip, p, b);
      if Meets(w, t, b) {
        MeetsNext(w, t, b, p);
      }
      if Meets(w, t, p) {
        MeetsNext(w, t, p, b);
      }
    }
  }

  lemma JobEdgeAgrees(w: World, t: Trip, e: EdgeId)
    requires Agree(w, Ctxs(t.before, t.users)) && SkipsBackends(w, t.skip) && e in w.edges && w.edges[e].owner.ByJob?
    ensures EdgeAgrees(w, Moved(w, t), e)
  {
    var b, j := w.edges[e].bs, w.edges[e].owner.job;
    assert EdgeOk(w, e) && EdgeAgrees(w, Ctxs(t.before, t.users), e);
    if Stale(t, b) {
      if Meets(w, t, b) {
        assert Touches(w, t, e);
      }
      if JobTouched(w, t, j) {
        var d :| Touches(w, t, d) && w.edges[d].owner == ByJob(j);
        assert EdgeOk(w, d);
        assert Next(w, t.skip, w.edges[d].bs, b);
        MeetsNext(w, t, w.edges[d].bs, b);
      }
    }
  }

  lemma BackendEdgeAgrees(w: World, t: Trip, e: EdgeId)
    requires Agree(w, Ctxs(t.before, t.users)) && e in w.edges && e !in t.skip && w.edges[e].owner.ByRoot?
    ensures EdgeAgrees(w, Moved(w, t), e)
  {
    assert EdgeOk(w, e) && EdgeAgrees(w, Ctxs(t.before, t.users), e);
  }

  lemma MovedAgrees(w: World, t: Trip, e: EdgeId)
    requires Agree(w, Ctxs(t.before, t.users)) && SkipsBackends(w, t.skip) && e in w.edges && e !in t.skip
    ensures EdgeAgrees(w, Moved(w, t), e)
  {
    match w.edges[e].owner
    case ByNode(_) => NodeEdgeAgrees(w, t, e);
    case ByJob(_) => JobEdgeAgrees(w, t, e);
    case ByRoot(_) => BackendEdgeAgrees(w, t, e);
    case NoCallback => assert EdgeOk(w, e);
  }

  /** `bdrv_try_set_aio_context`. */
  ghost function TrySetCtx(w: World, c: Ctxs, n: NodeId, to: Ctx): (r: (bool, Ctxs))
    requires c.nodes.Keys == w.nodes.Keys
  {
    var t := Trip(c.nodes, c.users, to, {}, n);
    if Agreed(w, t) then (true, Moved(w, t)) else (false, c)
  }

  /** A move keeps both ends of every edge together, and a successful one brings its node to
      the new context. */
  lemma TrySetKeepsAgreement(w: World, c: Ctxs, n: NodeId, to: Ctx)
    requires Agree(w, c) && n in w.nodes
    ensures var r := TrySetCtx(w, c, n, to); Agree(w, r.1) && (r.0 ==> r.1.nodes[n] == to)
  {
    var t := Trip(c.nodes, c.users, to, {}, n);
    forall e | e in w.edges ensures EdgeAgrees(w, Moved(w, t), e) {
      MovedAgrees(w, t, e);
    }
    Refl(Linked(w, t), n);
  }

  /** `blk_set_aio_context` for the backend behind edge `e`. */
  ghost function SetBackendCtx(w: World, c: Ctxs, e: EdgeId, to: Ctx): (r: (bool, Ctxs))
    requires c.nodes.Keys == w.nodes.Keys && e in w.edges
  {
    var t := Trip(c.nodes, c.users, to, {e}, w.edges[e].bs);
    if Agreed(w, t) then
      var m := Moved(w, t);
      (true, m.(users := m.users.(backends := m.users.backends[e := to])))
    else (false, c)
  }

  lemma SetBackendKeepsAgreement(w: World, c: Ctxs, e: EdgeId, to: Ctx)
    requires Agree(w, c) && e in w.edges && w.edges[e].owner.ByRoot?
    ensures Agree(w, SetBackendCtx(w, c, e, to).1)
  {
    var t, r := Trip(c.nodes, c.users, to, {e}, w.edges[e].bs), SetBackendCtx(w, c, e, to).1;
    assert EdgeOk(w, e);
    Refl(Linked(w, t), t.root);
    if Agreed(w, t) {
      forall d | d in w.edges ensures EdgeAgrees(w, r, d) {
        if d != e {
          MovedAgrees(w, t, d);
        }
      }
    }
  }

  /** When both ends of every edge agree, a move takes all the connected nodes and no other. */
  lemma MovesWholeComponent(w: World, c: Ctxs, n: NodeId, to: Ctx, m: NodeId)
    requires Agree(w, c) && n in w.nodes && m in w.nodes && TrySetCtx(w, c, n, to).0
    ensures TrySetCtx(w, c, n, to).1.nodes[m] == if Connected(w, {}, n, m) then to else c.nodes[m]
  {
    var t := Trip(c.nodes, c.users, to, {}, n);
    AgreeIsUniform(w, t);
    WholeComponent(w, t, m);
  }

  // ------------------------------------------------------------------ a new edge

  /** `child_job_can_set_aio_ctx` and `child_job_set_aio_ctx`, called for an edge that is not
      in the list of the job yet. */
  ghost function TrySetJobCtx(w: World, c: Ctxs, j: JobId, to: Ctx): (r: (bool, Ctxs))
    requires Agree(w, c) && j in w.jobs
  {
    if w.jobs[j] == [] then (true, c.(users := c.users.(jobs := c.users.jobs[j := to])))
    else
      assert w.jobs[j][0] in w.jobs[j] && JobOk(w, j);
      TrySetCtx(w, c, w.edges[w.jobs[j][0]].bs, to)
  }

  lemma TrySetJobKeepsAgreement(w: World, c: Ctxs, j: JobId, to: Ctx)
    requires Agree(w, c) && j in w.jobs
    ensures var r := TrySetJobCtx(w, c, j, to); Agree(w, r.1) && (r.0 ==> r.1.users.jobs[j] == to)
  {
    assert JobOk(w, j);
    var r := TrySetJobCtx(w, c, j, to);
    if w.jobs[j] == [] {
      forall e | e in w.edges ensures EdgeAgrees(w, r.1, e) {
        assert EdgeAgrees(w, c, e) && EdgeOk(w, e);
      }
    } else {
      var d := w.jobs[j][0];
      assert d in w.jobs[j] && EdgeOk(w, d);
      TrySetKeepsAgreement(w, c, w.edges[d].bs, to);
      assert EdgeAgrees(w, r.1, d);
    }
  }

  datatype Reconciliation = Reconciliation(ok: bool, c: Ctxs, at: Ctx)

  /** What `bdrv_root_attach_child` does about contexts: first the node is moved to the context
      `at` of its new user, and if that fails the user to the context of the node. */
  ghost function Reconcile(w: World, c: Ctxs, n: NodeId, owner: Owner, at: Ctx): (r: Reconciliation)
    requires Agree(w, c) && n in w.nodes && (owner.ByNode? ==> owner.node in w.nodes) && (owner.ByJob? ==> owner.job in w.jobs)
  {
    if c.nodes[n] == at then Reconciliation(true, c, at)
    else
      var down := TrySetCtx(w, c, n, at);
      if down.0 then Reconciliation(true, down.1, at)
      else
        var to := c.nodes[n];
        match owner
        case NoCallback => Reconciliation(false, c, at)
        case ByRoot(allowed) => Reconciliation(allowed, c, if allowed then to else at)
        case ByNode(p) => var up := TrySetCtx(w, c, p, to); Reconciliation(up.0, up.1, to)
        case ByJob(j) => var up := TrySetJobCtx(w, c, j, to); Reconciliation(up.0, up.1, to)
  }

  /** `at` is the context of the user. */
  ghost predicate UserAt(w: World, c: Ctxs, owner: Owner, at: Ctx) {
    match owner
    case ByNode(p) => p in w.nodes && p in c.nodes && c.nodes[p] == at
    case ByJob(j) => j in w.jobs && j in c.users.jobs && c.users.jobs[j] == at
    case _ => true
  }

  /** Afterwards the node and its new user are in one context, and so are the ends of all the
      other edges; a failure changes nothing. */
  lemma ReconcileAgrees(w: World, c: Ctxs, n: NodeId, owner: Owner, at: Ctx)
    requires Agree(w, c) && n in w.nodes && UserAt(w, c, owner, at)
    ensures var r := Reconcile(w, c, n, owner, at);
            && Agree(w, r.c) && (!r.ok ==> r.c == c)
            && (r.ok ==> UserAt(w, r.c, owner, r.at) && r.c.nodes[n] == r.at)
  {
    var to := c.nodes[n];
    TrySetKeepsAgreement(w, c, n, at);
    match owner
    case ByNode(p) => TrySetKeepsAgreement(w, c, p, to);
    case ByJob(j) => TrySetJobKeepsAgreement(w, c, j, to);
    case _ =>
  }
}
