/** The two recursions over the block graph that check and perform a change of AioContext. */
module BlockAioMove {
  import opened Reach
  import opened BlockAio
  import opened BlockAgree

  // ------------------------------------------------------------------ the state of a move

  ghost predicate Moving(w: World, t: Trip, ctx: map<NodeId, Ctx>) {
    && WellFormed(w) && ctx.Keys == t.before.Keys == w.nodes.Keys
    && forall n :: n in ctx ==> ctx[n] == t.before[n] || ctx[n] == t.to
  }

  ghost function Done(t: Trip, ctx: map<NodeId, Ctx>): set<NodeId> {
    set n | n in ctx && Stale(t, n) && ctx[n] == t.to
  }

  /** Nobody else has been told anything. */
  ghost predicate OnlyTouched(w: World, t: Trip, us: Users) {
    && Listen(w, us) && us.jobs.Keys == t.users.jobs.Keys && us.backends.Keys == t.users.backends.Keys
    && (forall j :: j in us.jobs && us.jobs[j] != t.users.jobs[j] ==> us.jobs[j] == t.to && JobTouched(w, t, j))
    && (forall e :: e in us.backends && us.backends[e] != t.users.backends[e] ==> us.backends[e] == t.to && BackendTouched(w, t, e))
  }

  ghost predicate ToldAbout(w: World, t: Trip, us: Users, jobs: set<JobId>, e: EdgeId)
    requires e in w.edges
  {
    match w.edges[e].owner
    case ByJob(j) => j in jobs || (j in us.jobs && us.jobs[j] == t.to)
    case ByRoot(_) => e in us.backends && us.backends[e] == t.to
    case _ => true
  }

  /** The users behind the visited edges know of the new context. */
  ghost predicate Told(w: World, t: Trip, us: Users, ig: set<EdgeId>, jobs: set<JobId>) {
    forall e {:trigger ToldAbout(w, t, us, jobs, e)} :: e in ig - t.skip && e in w.edges ==> ToldAbout(w, t, us, jobs, e)
  }

  ghost predicate Under(w: World, t: Trip, ctx: map<NodeId, Ctx>, us: Users, ig: set<EdgeId>, open: set<NodeId>, jobs: set<JobId>) {
    Moving(w, t, ctx) && Agreed(w, t) && Inv(w, t, ig, Done(t, ctx), open, jobs) && Told(w, t, us, ig, jobs) && OnlyTouched(w, t, us)
  }

  /** One more edge on the list of ignored edges. */
  lemma VisitTold(w: World, t: Trip, ctx: map<NodeId, Ctx>, us: Users, ig: set<EdgeId>, open: set<NodeId>, jobs: set<JobId>, e: EdgeId, n: NodeId, js: set<JobId>)
    requires Under(w, t, ctx, us, ig, open, jobs) && e in w.edges && n in w.nodes && Meets(w, t, n)
    requires Settled(w, t, ig + {e}, Done(t, ctx), open + {n}, jobs + js, e) && ToldAbout(w, t, us, jobs + js, e)
    ensures Under(w, t, ctx, us, ig + {e}, open + {n}, jobs + js)
  {
    Visit(w, t, ig, Done(t, ctx), open, jobs, e, n, js);
    forall d | d in ig + {e} - t.skip && d in w.edges ensures ToldAbout(w, t, us, jobs + js, d) {
      if d != e {
        assert ToldAbout(w, t, us, jobs, d);
      }
    }
  }

  lemma ChildIsNext(w: World, skip: set<EdgeId>, n: NodeId, e: EdgeId)
    requires WellFormed(w) && n in w.nodes && e in w.nodes[n].children && e !in skip
    ensures e in w.edges && w.edges[e].owner == ByNode(n) && Next(w, skip, n, w.edges[e].bs)
  {
    assert NodeOk(w, n);
  }

  lemma SiblingIsNext(w: World, skip: set<EdgeId>, n: NodeId, e: EdgeId, d: EdgeId)
    requires WellFormed(w) && n in w.nodes && e in w.nodes[n].parents && e in w.edges && e !in skip && w.edges[e].owner.ByJob?
    requires w.edges[e].owner.job in w.jobs && d in w.jobs[w.edges[e].owner.job]
    ensures d in w.edges && w.edges[d].bs in w.nodes && w.edges[d].owner == w.edges[e].owner
    ensures d !in skip ==> Next(w, skip, n, w.edges[d].bs)
  {
    assert JobOk(w, w.edges[e].owner.job) && EdgeOk(w, d);
  }

  /** A child or sibling edge leads to a node of the component. */
  lemma VisitChild(w: World, t: Trip, ctx: map<NodeId, Ctx>, us: Users, ig: set<EdgeId>, open: set<NodeId>, jobs: set<JobId>, n: NodeId, e: EdgeId)
    requires Under(w, t, ctx, us, ig, open, jobs) && n in open && n in w.nodes && Stale(t, n) && e in w.edges && e !in ig
    requires Next(w, t.skip, n, w.edges[e].bs) && (w.edges[e].owner == ByNode(n) || (w.edges[e].owner.ByJob? && w.edges[e].owner.job in jobs))
    ensures w.edges[e].bs in w.nodes && Under(w, t, ctx, us, ig + {e}, open + {w.edges[e].bs}, jobs)
  {
    assert EdgeOk(w, e) && Meets(w, t, n);
    MeetsNext(w, t, n, w.edges[e].bs);
    VisitTold(w, t, ctx, us, ig, open, jobs, e, w.edges[e].bs, {});
    assert jobs + {} == jobs;
  }

  lemma VisitRoot(w: World, t: Trip, ctx: map<NodeId, Ctx>, us: Users, ig: set<EdgeId>, open: set<NodeId>, jobs: set<JobId>, e: EdgeId)
    requires Under(w, t, ctx, us, ig, open, jobs) && e in w.edges && e !in t.skip && w.edges[e].owner == ByRoot(true)
    requires w.edges[e].bs in open && Stale(t, w.edges[e].bs)
    ensures Under(w, t, ctx, us.(backends := us.backends[e := t.to]), ig + {e}, open, jobs)
  {
    var us', n := us.(backends := us.backends[e := t.to]), w.edges[e].bs;
    forall d | d in ig - t.skip && d in w.edges ensures ToldAbout(w, t, us', jobs, d) {
      assert ToldAbout(w, t, us, jobs, d);
    }
    assert EdgeOk(w, e) && Meets(w, t, n);
    assert BackendTouched(w, t, e);
    VisitTold(w, t, ctx, us', ig, open, jobs, e, n, {});
    assert jobs + {} == jobs && open + {n} == open;
  }

  lemma TouchedBy(w: World, t: Trip, ctx: map<NodeId, Ctx>, us: Users, ig: set<EdgeId>, open: set<NodeId>, jobs: set<JobId>, n: NodeId, e: EdgeId, j: JobId)
    requires Under(w, t, ctx, us, ig, open, jobs) && n in w.nodes && n in open && Stale(t, n) && e in w.nodes[n].parents && e !in t.skip
    requires e in w.edges && w.edges[e].owner == ByJob(j)
    ensures JobTouched(w, t, j)
  {
    assert NodeOk(w, n) && Meets(w, t, n);
    assert Touches(w, t, e);
  }

  /** A job all of whose edges have been visited is told. */
  lemma TellJob(w: World, t: Trip, ctx: map<NodeId, Ctx>, us: Users, ig: set<EdgeId>, open: set<NodeId>, jobs: set<JobId>, j: JobId)
    requires Under(w, t, ctx, us, ig, open, jobs + {j}) && j in w.jobs && JobTouched(w, t, j) && forall d :: d in w.jobs[j] ==> d in ig
    ensures Under(w, t, ctx, us.(jobs := us.jobs[j := t.to]), ig, open, jobs)
  {
    var us' := us.(jobs := us.jobs[j := t.to]);
    LeaveJob(w, t, ig, Done(t, ctx), open, jobs, j);
    forall d | d in ig - t.skip && d in w.edges ensures ToldAbout(w, t, us', jobs, d) {
      assert ToldAbout(w, t, us, jobs + {j}, d);
    }
  }

  /** A node all of whose edges have been visited moves. */
  lemma MoveNode(w: World, t: Trip, ctx: map<NodeId, Ctx>, us: Users, ig: set<EdgeId>, open: set<NodeId>, jobs: set<JobId>, n: NodeId)
    requires Under(w, t, ctx, us, ig, open + {n}, jobs) && n in w.nodes && Full(w, ig, n) && Stale(t, n)
    ensures Under(w, t, ctx[n := t.to], us, ig, open, jobs)
  {
    Finish(w, t, ig, Done(t, ctx), open, jobs, n);
    assert Done(t, ctx[n := t.to]) == Done(t, ctx) + {n};
  }

  /** Nodes that have moved stay. */
  ghost predicate Forward(t: Trip, ctx: map<NodeId, Ctx>, ctx': map<NodeId, Ctx>) {
    forall m :: m in ctx && ctx[m] == t.to ==> m in ctx' && ctx'[m] == t.to
  }

  class Contexts {
    const w: World
    var ctx: map<NodeId, Ctx>
    var users: Users

    ghost predicate Ok()
      reads this
    {
      WellFormed(w) && ctx.Keys == w.nodes.Keys && Listen(w, users)
    }

    constructor (w: World, ctx: map<NodeId, Ctx>, users: Users)
      requires WellFormed(w) && ctx.Keys == w.nodes.Keys && Listen(w, users)
      ensures this.w == w && this.ctx == ctx && this.users == users && Ok()
    {
      this.w, this.ctx, this.users := w, ctx, users;
    }

    // ---------------------------------------------------------------- the check

    /** `bdrv_can_set_aio_context`. The list of ignored edges grows from `ig` to `ig'`. */
    method CanSet(n: NodeId, ig: set<EdgeId>, t: Trip, ghost done: set<NodeId>, ghost open: set<NodeId>, ghost jobs: set<JobId>)
      returns (ok: bool, ig': set<EdgeId>, ghost done': set<NodeId>)
      requires Ok() && t.before == ctx && n in w.nodes && Inv(w, t, ig, done, open + {n}, jobs)
      ensures ok ==> Inv(w, t, ig', done', open, jobs) && ig <= ig' && done <= done' && (Stale(t, n) ==> n in done')
      ensures !ok ==> !Agreed(w, t)
      decreases w.edges.Keys - ig, 2
    {
      ok, ig', done' := true, ig, done;
      if ctx[n] == t.to {
        Leave(w, t, ig, done, open, jobs, n);
        return;
      }
      assert NodeOk(w, n) && Meets(w, t, n);
      var es, i := w.nodes[n].parents, 0;
      while i < |es|
        invariant 0 <= i <= |es| && ig <= ig' && done <= done' && Inv(w, t, ig', done', open + {n}, jobs)
        invariant forall e :: e in es[..i] ==> e in ig'
      {
        ok, ig', done' := ParentCanSet(es[i], n, ig', t, done', open + {n}, jobs);
        if !ok {
          return;
        }
        assert es[..i + 1] == es[..i] + [es[i]];
        i := i + 1;
      }
      ghost var parents := ig';
      assert es == es[..i];
      es, i := w.nodes[n].children, 0;
      while i < |es|
        invariant 0 <= i <= |es| && parents <= ig' && done <= done' && Inv(w, t, ig', done', open + {n}, jobs)
        invariant forall e :: e in es[..i] ==> e in ig'
      {
        assert EdgeOk(w, es[i]);
        assert es[i] !in t.skip ==> Next(w, t.skip, n, w.edges[es[i]].bs);
        if es[i] !in ig' {
          MeetsNext(w, t, n, w.edges[es[i]].bs);
        }
        ok, ig', done' := ChildCanSet(es[i], ig', t, done', open + {n}, jobs);
        if !ok {
          return;
        }
        assert es[..i + 1] == es[..i] + [es[i]];
        i := i + 1;
      }
      assert es == es[..i];
      Finish(w, t, ig', done', open, jobs, n);
      done' := done' + {n};
    }

    /** `bdrv_child_can_set_aio_context`. */
    method ChildCanSet(e: EdgeId, ig: set<EdgeId>, t: Trip, ghost done: set<NodeId>, ghost open: set<NodeId>, ghost jobs: set<JobId>)
      returns (ok: bool, ig': set<EdgeId>, ghost done': set<NodeId>)
      requires Ok() && t.before == ctx && e in w.edges && Inv(w, t, ig, done, open, jobs)
      requires e !in ig ==> Meets(w, t, w.edges[e].bs)
      requires match w.edges[e].owner
               case ByNode(p) => p in open
               case ByJob(j) => j in jobs
               case _ => false
      ensures ok ==> Inv(w, t, ig', done', open, jobs) && ig <= ig' && e in ig' && done <= done'
      ensures ok && e !in ig && Stale(t, w.edges[e].bs) ==> w.edges[e].bs in done'
      ensures !ok ==> !Agreed(w, t)
      decreases w.edges.Keys - ig, 0
    {
      if e in ig {
        return true, ig, done;
      }
      assert EdgeOk(w, e);
      var n := w.edges[e].bs;
      Visit(w, t, ig, done, open, jobs, e, n, {});
      assert jobs + {} == jobs;
      ok, ig', done' := CanSet(n, ig + {e}, t, done, open, jobs);
    }

    /** `bdrv_parent_can_set_aio_context` for a user `e` of node `n`. */
    method ParentCanSet(e: EdgeId, n: NodeId, ig: set<EdgeId>, t: Trip, ghost done: set<NodeId>, ghost open: set<NodeId>, ghost jobs: set<JobId>)
      returns (ok: bool, ig': set<EdgeId>, ghost done': set<NodeId>)
      requires Ok() && t.before == ctx && n in w.nodes && e in w.nodes[n].parents && Inv(w, t, ig, done, open, jobs)
      requires n in open && Stale(t, n)
      ensures ok ==> Inv(w, t, ig', done', open, jobs) && ig <= ig' && e in ig' && done <= done'
      ensures !ok ==> !Agreed(w, t)
      decreases w.edges.Keys - ig, 1
    {
      if e in ig {
        return true, ig, done;
      }
      assert NodeOk(w, n);
      assert EdgeOk(w, e) && Meets(w, t, n);
      match w.edges[e].owner
      case NoCallback =>
        return false, ig + {e}, done;
      case ByRoot(allowed) =>
        if allowed {
          Visit(w, t, ig, done, open, jobs, e, n, {});
          assert jobs + {} == jobs && open + {n} == open;
        }
        return allowed, ig + {e}, done;
      case ByNode(p) =>
        assert Next(w, t.skip, n, p);
        MeetsNext(w, t, n, p);
        Visit(w, t, ig, done, open, jobs, e, p, {});
        assert jobs + {} == jobs;
        ok, ig', done' := CanSet(p, ig + {e}, t, done, open, jobs);
      case ByJob(j) =>
        Visit(w, t, ig, done, open, jobs, e, n, {j});
        assert open + {n} == open;
        ok, ig', done' := JobCanSet(j, e, n, ig + {e}, t, done, open, jobs);
    }

    /** `child_job_can_set_aio_ctx`: all the nodes of the job. */
    method JobCanSet(j: JobId, e: EdgeId, n: NodeId, ig: set<EdgeId>, t: Trip, ghost done: set<NodeId>, ghost open: set<NodeId>, ghost jobs: set<JobId>)
      returns (ok: bool, ig': set<EdgeId>, ghost done': set<NodeId>)
      requires Ok() && t.before == ctx && n in w.nodes && e in w.nodes[n].parents && e in w.edges && w.edges[e].owner == ByJob(j)
      requires Inv(w, t, ig, done, open, jobs + {j}) && e !in t.skip && n in open && Stale(t, n) && j in w.jobs
      ensures ok ==> Inv(w, t, ig', done', open, jobs) && ig <= ig' && done <= done'
      ensures ok && w.jobs[j] != [] && w.jobs[j][0] == e && e !in ig ==> n in done'
      ensures !ok ==> !Agreed(w, t)
      decreases w.edges.Keys - ig, 1
    {
      ok, ig', done' := true, ig, done;
      assert JobOk(w, j) && Meets(w, t, n) && NodeOk(w, n) && EdgeOk(w, e);
      var es, i := w.jobs[j], 0;
      while i < |es|
        invariant 0 <= i <= |es| && ig <= ig' && done <= done' && Inv(w, t, ig', done', open, jobs + {j})
        invariant (forall d :: d in es[..i] ==> d in ig') && (if i == 0 then ig' == ig else es[0] == e && e !in ig ==> n in done')
      {
        SiblingIsNext(w, t.skip, n, e, es[i]);
        if es[i] !in ig' {
          MeetsNext(w, t, n, w.edges[es[i]].bs);
        }
        ok, ig', done' := ChildCanSet(es[i], ig', t, done', open, jobs + {j});
        if !ok {
          return;
        }
        assert es[..i + 1] == es[..i] + [es[i]];
        i := i + 1;
      }
      assert es == es[..i];
      LeaveJob(w, t, ig', done', open, jobs, j);
    }

    // ---------------------------------------------------------------- the move

    /** `bdrv_set_aio_context_ignore`: children, then parents, then the node itself. */
    method SetIgnore(n: NodeId, ig: set<EdgeId>, t: Trip, ghost open: set<NodeId>, ghost jobs: set<JobId>) returns (ig': set<EdgeId>)
      requires n in w.nodes && Under(w, t, ctx, users, ig, open + {n}, jobs)
      modifies this
      ensures Under(w, t, ctx, users, ig', open, jobs) && ig <= ig' && ctx[n] == t.to && Forward(t, old(ctx), ctx)
      decreases w.edges.Keys - ig, 2
    {
      ig' := ig;
      if ctx[n] == t.to {
        Leave(w, t, ig, Done(t, ctx), open, jobs, n);
        return;
      }
      ig' := SetChildren(n, ig, t, open + {n}, jobs);
      ig' := SetParents(n, ig', t, open + {n}, jobs);
      MoveNode(w, t, ctx, users, ig', open, jobs, n);
      ctx := ctx[n := t.to];
    }

    /** The first loop of `bdrv_set_aio_context_ignore`. */
    method SetChildren(n: NodeId, ig: set<EdgeId>, t: Trip, ghost open: set<NodeId>, ghost jobs: set<JobId>) returns (ig': set<EdgeId>)
      requires n in w.nodes && n in open && Stale(t, n) && Under(w, t, ctx, users, ig, open, jobs)
      modifies this
      ensures Under(w, t, ctx, users, ig', open, jobs) && ig <= ig' && Forward(t, old(ctx), ctx)
      ensures forall e :: e in w.nodes[n].children ==> e in ig'
      decreases w.edges.Keys - ig, 1
    {
      ig' := ig;
      var es, i := w.nodes[n].children, 0;
      while i < |es|
        invariant 0 <= i <= |es| && ig <= ig' && Under(w, t, ctx, users, ig', open, jobs) && Forward(t, old(ctx), ctx)
        invariant forall e :: e in es[..i] ==> e in ig'
      {
        var e := es[i];
        if e !in ig' {
          ChildIsNext(w, t.skip, n, e);
          VisitChild(w, t, ctx, users, ig', open, jobs, n, e);
          ig' := SetIgnore(w.edges[e].bs, ig' + {e}, t, open, jobs);
        }
        assert es[..i + 1] == es[..i] + [e];
        i := i + 1;
      }
      assert es == es[..i];
    }

    /** The second loop of `bdrv_set_aio_context_ignore`. */
    method SetParents(n: NodeId, ig: set<EdgeId>, t: Trip, ghost open: set<NodeId>, ghost jobs: set<JobId>) returns (ig': set<EdgeId>)
      requires n in w.nodes && n in open && Stale(t, n) && Under(w, t, ctx, users, ig, open, jobs)
      modifies this
      ensures Under(w, t, ctx, users, ig', open, jobs) && ig <= ig' && Forward(t, old(ctx), ctx)
      ensures forall e :: e in w.nodes[n].parents ==> e in ig'
      decreases w.edges.Keys - ig, 1
    {
      ig' := ig;
      var es, i := w.nodes[n].parents, 0;
      while i < |es|
        invariant 0 <= i <= |es| && ig <= ig' && Under(w, t, ctx, users, ig', open, jobs) && Forward(t, old(ctx), ctx)
        invariant forall e :: e in es[..i] ==> e in ig'
      {
        if es[i] !in ig' {
          ig' := SetParent(es[i], n, ig', t, open, jobs);
        }
        assert es[..i + 1] == es[..i] + [es[i]];
        i := i + 1;
      }
      assert es == es[..i];
    }

    /** The callback of a user `e` of node `n`, which goes on the list first. That there is a
        callback is what the check has made sure. */
    method SetParent(e: EdgeId, n: NodeId, ig: set<EdgeId>, t: Trip, ghost open: set<NodeId>, ghost jobs: set<JobId>) returns (ig': set<EdgeId>)
      requires n in w.nodes && e in w.nodes[n].parents && e !in ig && n in open && Stale(t, n) && Under(w, t, ctx, users, ig, open, jobs)
      modifies this
      ensures Under(w, t, ctx, users, ig', open, jobs) && ig <= ig' && e in ig' && Forward(t, old(ctx), ctx)
      decreases w.edges.Keys - ig, 0
    {
      assert NodeOk(w, n);
      assert EdgeOk(w, e) && Meets(w, t, n) && Allowed(w, e);
      match w.edges[e].owner
      case NoCallback =>
        assert false;
      case ByRoot(_) =>
        VisitRoot(w, t, ctx, users, ig, open, jobs, e);
        users := users.(backends := users.backends[e := t.to]);
        ig' := ig + {e};
      case ByNode(p) =>
        assert Next(w, t.skip, n, p);
        MeetsNext(w, t, n, p);
        VisitTold(w, t, ctx, users, ig, open, jobs, e, p, {});
        assert jobs + {} == jobs;
        ig' := SetIgnore(p, ig + {e}, t, open, jobs);
      case ByJob(j) =>
        VisitTold(w, t, ctx, users, ig, open, jobs, e, n, {j});
        assert open + {n} == open;
        ig' := JobSet(j, e, n, ig + {e}, t, open, jobs);
    }

    /** One round of the loop of `child_job_set_aio_ctx`. */
    method SetSibling(d: EdgeId, e: EdgeId, n: NodeId, ig: set<EdgeId>, t: Trip, ghost open: set<NodeId>, ghost jobs: set<JobId>) returns (ig': set<EdgeId>)
      requires n in w.nodes && e in w.nodes[n].parents && e in w.edges && w.edges[e].owner.ByJob? && w.edges[e].owner.job in jobs
      requires w.edges[e].owner.job in w.jobs && d in w.jobs[w.edges[e].owner.job]
      requires Under(w, t, ctx, users, ig, open, jobs) && e !in t.skip && n in open && Stale(t, n)
      modifies this
      ensures Under(w, t, ctx, users, ig', open, jobs) && ig <= ig' && d in ig' && Forward(t, old(ctx), ctx)
      ensures d == e && e !in ig ==> ctx[n] == t.to
      decreases w.edges.Keys - ig, 3
    {
      ig' := ig;
      assert NodeOk(w, n);
      if d !in ig {
        SiblingIsNext(w, t.skip, n, e, d);
        VisitChild(w, t, ctx, users, ig, open, jobs, n, d);
        ig' := SetIgnore(w.edges[d].bs, ig + {d}, t, open, jobs);
      }
    }

    /** The loop of `child_job_set_aio_ctx`. */
    method SetSiblings(j: JobId, e: EdgeId, n: NodeId, ig: set<EdgeId>, t: Trip, ghost open: set<NodeId>, ghost jobs: set<JobId>) returns (ig': set<EdgeId>)
      requires n in w.nodes && e in w.nodes[n].parents && e in w.edges && w.edges[e].owner == ByJob(j) && j in w.jobs && j in jobs
      requires Under(w, t, ctx, users, ig, open, jobs) && e !in t.skip && n in open && Stale(t, n)
      modifies this
      ensures Under(w, t, ctx, users, ig', open, jobs) && ig <= ig' && Forward(t, old(ctx), ctx)
      ensures forall d :: d in w.jobs[j] ==> d in ig'
      ensures w.jobs[j] != [] && w.jobs[j][0] == e && e !in ig ==> ctx[n] == t.to
      decreases w.edges.Keys - ig, 4
    {
      ig' := ig;
      var es, i := w.jobs[j], 0;
      while i < |es|
        invariant 0 <= i <= |es| && ig <= ig' && Under(w, t, ctx, users, ig', open, jobs) && Forward(t, old(ctx), ctx)
        invariant forall d :: d in es[..i] ==> d in ig'
        invariant if i == 0 then ig' == ig else es[0] == e && e !in ig ==> ctx[n] == t.to
      {
        ig' := SetSibling(es[i], e, n, ig', t, open, jobs);
        assert es[..i + 1] == es[..i] + [es[i]];
        i := i + 1;
      }
      assert es == es[..i];
    }

    /** `child_job_set_aio_ctx`: the other nodes of the job, then the job. */
    method JobSet(j: JobId, e: EdgeId, n: NodeId, ig: set<EdgeId>, t: Trip, ghost open: set<NodeId>, ghost jobs: set<JobId>) returns (ig': set<EdgeId>)
      requires n in w.nodes && e in w.nodes[n].parents && e in w.edges && w.edges[e].owner == ByJob(j) && j in w.jobs
      requires Under(w, t, ctx, users, ig, open, jobs + {j}) && e !in t.skip && n in open && Stale(t, n)
      modifies this
      ensures Under(w, t, ctx, users, ig', open, jobs) && ig <= ig' && Forward(t, old(ctx), ctx)
      ensures w.jobs[j] != [] && w.jobs[j][0] == e && e !in ig ==> ctx[n] == t.to
      decreases w.edges.Keys - ig, 5
    {
      ig' := SetSiblings(j, e, n, ig, t, open, jobs + {j});
      TouchedBy(w, t, ctx, users, ig', open, jobs + {j}, n, e, j);
      TellJob(w, t, ctx, users, ig', open, jobs, j);
      users := users.(jobs := users.jobs[j := t.to]);
    }

    /** `bdrv_child_try_set_aio_context`. The move happens if and only if no user of a node
        that would have to move objects. Then exactly the nodes connected to `n` that are
        elsewhere move, their users are told, and no assertion of the callbacks fails.
        Otherwise nothing changes. */
    method TrySet(n: NodeId, to: Ctx, skip: set<EdgeId>) returns (ok: bool)
      requires Ok() && n in w.nodes && skip <= w.edges.Keys
      modifies this
      ensures Ok() && (ok <==> Agreed(w, Trip(old(ctx), old(users), to, skip, n)))
      ensures ok ==> ctx == MovedContexts(w, Trip(old(ctx), old(users), to, skip, n)) && users == ToldUsers(w, Trip(old(ctx), old(users), to, skip, n))
      ensures !ok ==> ctx == old(ctx) && users == old(users)
    {
      var t := Trip(ctx, users, to, skip, n);
      Refl(Linked(w, t), n);
      assert {} + {n} == {n};
      assert Inv(w, t, skip, {}, {n}, {});
      ghost var done;
      var ig;
      ok, ig, done := CanSet(n, skip, t, {}, {}, {});
      if !ok {
        return;
      }
      DoneIsComponent(w, t, ig, done);
      assert Done(t, ctx) == {};
      ig := SetIgnore(n, skip, t, {}, {});
      EndOfMove(w, t, ctx, users, ig);
    }

    /** The callbacks of a job that is to get one more edge: its nodes, if it has any, and the
        job itself move, or nothing does. */
    method TrySetJob(j: JobId, to: Ctx) returns (ok: bool)
      requires Ok() && j in w.jobs && Agree(w, Ctxs(ctx, users)) && users.jobs[j] != to
      modifies this
      ensures (ok, Ctxs(ctx, users)) == TrySetJobCtx(w, Ctxs(old(ctx), old(users)), j, to)
    {
      if w.jobs[j] == [] {
        users := users.(jobs := users.jobs[j := to]);
        return true;
      }
      var e := w.jobs[j][0];
      FirstOfJob(w, ctx, users, j, to);
      var n := w.edges[e].bs;
      var t := Trip(ctx, users, to, {}, n);
      var ig;
      ghost var done;
      ok, ig, done := JobCanSet(j, e, n, {}, t, {}, {n}, {});
      if !ok {
        return;
      }
      JobAgreed(w, t, ig, done);
      ig := JobSet(j, e, n, {}, t, {n}, {});
      JobMoved(w, t, ctx, users, ig);
    }

    /** The part of `bdrv_root_attach_child` about contexts, for a new user in context `at`.
        `now` is where the user is afterwards. */
    method ReconcileUser(n: NodeId, owner: Owner, at: Ctx) returns (ok: bool, now: Ctx)
      requires Ok() && n in w.nodes && Agree(w, Ctxs(ctx, users)) && UserAt(w, Ctxs(ctx, users), owner, at)
      modifies this
      ensures Reconciliation(ok, Ctxs(ctx, users), now) == Reconcile(w, Ctxs(old(ctx), old(users)), n, owner, at)
    {
      ok, now := true, at;
      if ctx[n] == at {
        return;
      }
      ok := TrySet(n, at, {});
      if ok {
        return;
      }
      match owner
      case NoCallback =>
      case ByRoot(allowed) =>
        ok := allowed;
        if allowed {
          now := ctx[n];
        }
      case ByNode(p) =>
        now := ctx[n];
        ok := TrySet(p, now, {});
      case ByJob(j) =>
        now := ctx[n];
        ok := TrySetJob(j, now);
    }
  }

  lemma FirstOfJob(w: World, ctx: map<NodeId, Ctx>, us: Users, j: JobId, to: Ctx)
    requires Agree(w, Ctxs(ctx, us)) && j in w.jobs && w.jobs[j] != [] && us.jobs[j] != to
    ensures var e := w.jobs[j][0];
            && e in w.edges && w.edges[e].owner == ByJob(j) && w.edges[e].bs in w.nodes && e in w.nodes[w.edges[e].bs].parents
            && var t := Trip(ctx, us, to, {}, w.edges[e].bs); Stale(t, t.root) && Inv(w, t, {}, {}, {t.root}, {} + {j})
  {
    var e := w.jobs[j][0];
    assert e in w.jobs[j] && JobOk(w, j) && EdgeOk(w, e) && EdgeAgrees(w, Ctxs(ctx, us), e);
    Refl(Linked(w, Trip(ctx, us, to, {}, w.edges[e].bs)), w.edges[e].bs);
  }

  lemma JobAgreed(w: World, t: Trip, ig: set<EdgeId>, done: set<NodeId>)
    requires Inv(w, t, ig, done, {t.root}, {}) && t.root in w.nodes && t.root in done
    ensures Agreed(w, t)
  {
    assert {} + {t.root} == {t.root};
    Leave(w, t, ig, done, {}, {}, t.root);
    DoneIsComponent(w, t, ig, done);
  }

  lemma JobMoved(w: World, t: Trip, ctx: map<NodeId, Ctx>, us: Users, ig: set<EdgeId>)
    requires Under(w, t, ctx, us, ig, {t.root}, {}) && t.root in w.nodes && ctx[t.root] == t.to && Stale(t, t.root)
    ensures ctx == MovedContexts(w, t) && us == ToldUsers(w, t)
  {
    assert {} + {t.root} == {t.root};
    Leave(w, t, ig, Done(t, ctx), {}, {}, t.root);
    EndOfMove(w, t, ctx, us, ig);
  }

  lemma TouchedTold(w: World, t: Trip, ctx: map<NodeId, Ctx>, us: Users, ig: set<EdgeId>, e: EdgeId)
    requires Under(w, t, ctx, us, ig, {}, {}) && t.root in w.nodes && ctx[t.root] == t.to && Touches(w, t, e)
    ensures ToldAbout(w, t, us, {}, e)
  {
    DoneIsComponent(w, t, ig, Done(t, ctx));
    assert EdgeOk(w, e);
    assert Full(w, ig, w.edges[e].bs);
  }

  lemma EndOfMove(w: World, t: Trip, ctx: map<NodeId, Ctx>, us: Users, ig: set<EdgeId>)
    requires Under(w, t, ctx, us, ig, {}, {}) && t.root in w.nodes && ctx[t.root] == t.to
    ensures ctx == MovedContexts(w, t) && us == ToldUsers(w, t)
  {
    DoneIsComponent(w, t, ig, Done(t, ctx));
    forall e | Touches(w, t, e) ensures ToldAbout(w, t, us, {}, e) {
      TouchedTold(w, t, ctx, us, ig, e);
    }
    EveryoneTold(w, t, us);
  }

  lemma EveryoneTold(w: World, t: Trip, us: Users)
    requires OnlyTouched(w, t, us) && forall e {:trigger ToldAbout(w, t, us, {}, e)} :: Touches(w, t, e) ==> ToldAbout(w, t, us, {}, e)
    ensures us == ToldUsers(w, t)
  {
    forall j | j in us.jobs && JobTouched(w, t, j) ensures us.jobs[j] == t.to {
      var e :| Touches(w, t, e) && w.edges[e].owner == ByJob(j);
      assert ToldAbout(w, t, us, {}, e);
    }
    forall e | e in us.backends && BackendTouched(w, t, e) ensures us.backends[e] == t.to {
      assert ToldAbout(w, t, us, {}, e);
    }
  }
}
