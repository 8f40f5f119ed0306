/** Moving a block node and everything connected to it to another AioContext (block.c,
    blockjob.c, block/block-backend.c). */
module BlockAio {
  import opened Reach

  type NodeId = nat
  type EdgeId = nat
  type JobId = nat
  type Ctx = nat

  /** Who holds an edge, and with it the callbacks of its class. */
  datatype Owner =
    | ByNode(node: NodeId)
    | ByJob(job: JobId)
    | ByRoot(allowed: bool)   // a block backend, and whether it tolerates the move
    | NoCallback              // a class that knows nothing of AioContexts

  datatype Edge = Edge(bs: NodeId, owner: Owner)

  datatype Node = Node(children: seq<EdgeId>, parents: seq<EdgeId>)

  datatype World = World(nodes: map<NodeId, Node>, edges: map<EdgeId, Edge>, jobs: map<JobId, seq<EdgeId>>)

  predicate NodeOk(w: World, n: NodeId)
    requires n in w.nodes
  {
    && (forall e :: e in w.nodes[n].parents ==> e in w.edges && w.edges[e].bs == n)
    && (forall e :: e in w.nodes[n].children ==> e in w.edges && w.edges[e].owner == ByNode(n))
  }

  predicate EdgeOk(w: World, e: EdgeId)
    requires e in w.edges
  {
    && w.edges[e].bs in w.nodes && e in w.nodes[w.edges[e].bs].parents
    && match w.edges[e].owner
       case ByNode(p) => p in w.nodes && e in w.nodes[p].children
       case ByJob(j) => j in w.jobs && e in w.jobs[j]
       case _ => true
  }

  predicate JobOk(w: World, j: JobId)
    requires j in w.jobs
  {
    forall e :: e in w.jobs[j] ==> e in w.edges && w.edges[e].owner == ByJob(j)
  }

  ghost predicate WellFormed(w: World) {
    && (forall n {:trigger NodeOk(w, n)} :: n in w.nodes ==> NodeOk(w, n))
    && (forall e {:trigger EdgeOk(w, e)} :: e in w.edges ==> EdgeOk(w, e))
    && (forall j {:trigger JobOk(w, j)} :: j in w.jobs ==> JobOk(w, j))
  }

  predicate Allowed(w: World, e: EdgeId)
    requires e in w.edges
  {
    match w.edges[e].owner
    case ByNode(_) | ByJob(_) => true
    case ByRoot(allowed) => allowed
    case NoCallback => false
  }

  // ------------------------------------------------------------------ the connected component

  /** The contexts that jobs and block backends have been told. */
  datatype Users = Users(jobs: map<JobId, Ctx>, backends: map<EdgeId, Ctx>)

  /** One attempt: the contexts of nodes and users before it, the new context, the edges not to
      follow and the node it starts from. */
  datatype Trip = Trip(before: map<NodeId, Ctx>, users: Users, to: Ctx, skip: set<EdgeId>, root: NodeId)

  predicate Stale(t: Trip, n: NodeId) {
    n in t.before && t.before[n] != t.to
  }

  /** `m` is next to `n`: child, parent, or used by the same job. */
  ghost predicate Next(w: World, skip: set<EdgeId>, n: NodeId, m: NodeId)
    requires n in w.nodes
  {
    || (exists e :: e in w.nodes[n].children && e !in skip && e in w.edges && w.edges[e].bs == m)
    || (exists e :: e in w.nodes[n].parents && e !in skip && e in w.edges && w.edges[e].owner == ByNode(m))
    || (exists e, d :: e in w.nodes[n].parents && e !in skip && e in w.edges && w.edges[e].owner.ByJob? && w.edges[e].owner.job in w.jobs
                       && d in w.jobs[w.edges[e].owner.job] && d !in skip && d in w.edges && w.edges[d].bs == m)
  }

  /** The neighbourhood, as far as it is not in the new context already. */
  ghost function Linked(w: World, t: Trip): (g: Digraph) {
    map n | n in w.nodes :: set m | m in w.nodes && Stale(t, n) && Next(w, t.skip, n, m)
  }

  ghost predicate Meets(w: World, t: Trip, n: NodeId) {
    Reaches(Linked(w, t), t.root, n)
  }

  /** The edge is a user of a node that has to move. */
  ghost predicate Touches(w: World, t: Trip, e: EdgeId) {
    e in w.edges && e !in t.skip && Meets(w, t, w.edges[e].bs) && Stale(t, w.edges[e].bs)
  }

  ghost predicate JobTouched(w: World, t: Trip, j: JobId) {
    exists e :: Touches(w, t, e) && w.edges[e].owner == ByJob(j)
  }

  ghost predicate BackendTouched(w: World, t: Trip, e: EdgeId) {
    Touches(w, t, e) && w.edges[e].owner.ByRoot?
  }

  /** No user of a node that has to move objects. */
  ghost predicate Agreed(w: World, t: Trip) {
    forall n, e :: n in w.nodes && Meets(w, t, n) && Stale(t, n) && e in w.nodes[n].parents && e !in t.skip && e in w.edges
      ==> Allowed(w, e)
  }

  /** Every job and block backend has a context. */
  ghost predicate Listen(w: World, us: Users) {
    w.jobs.Keys <= us.jobs.Keys && forall e :: e in w.edges && w.edges[e].owner.ByRoot? ==> e in us.backends
  }

  /** The contexts after a move: the component is in the new one. */
  ghost function MovedContexts(w: World, t: Trip): map<NodeId, Ctx>
    requires t.before.Keys == w.nodes.Keys
  {
    map m | m in w.nodes :: if Meets(w, t, m) then t.to else t.before[m]
  }

  /** What the users know after a move: those of the nodes that moved have been told, and
      nobody else. */
  ghost function ToldUsers(w: World, t: Trip): Users {
    Users(map j | j in t.users.jobs :: if JobTouched(w, t, j) then t.to else t.users.jobs[j],
          map e | e in t.users.backends :: if BackendTouched(w, t, e) then t.to else t.users.backends[e])
  }

  lemma MeetsNext(w: World, t: Trip, n: NodeId, m: NodeId)
    requires Meets(w, t, n) && n in w.nodes && m in w.nodes && Stale(t, n) && Next(w, t.skip, n, m)
    ensures Meets(w, t, m)
  {
    Step(Linked(w, t), n, m);
    Trans(Linked(w, t), t.root, n, m);
  }

  // ------------------------------------------------------------------ the traversal

  /** What is known of an edge on the ignore list: its nodes are finished or on the stack, and
      so are all the nodes of its job. */
  ghost predicate Settled(w: World, t: Trip, ig: set<EdgeId>, done: set<NodeId>, open: set<NodeId>, jobs: set<JobId>, e: EdgeId)
    requires e in w.edges
  {
    && Allowed(w, e)
    && (Stale(t, w.edges[e].bs) ==> w.edges[e].bs in done + open)
    && match w.edges[e].owner
       case ByNode(p) => Stale(t, p) ==> p in done + open
       case ByJob(j) => j in jobs || (j in w.jobs && forall d :: d in w.jobs[j] ==> d in ig)
       case _ => true
  }

  ghost predicate Full(w: World, ig: set<EdgeId>, n: NodeId)
    requires n in w.nodes
  {
    (forall e :: e in w.nodes[n].children ==> e in ig) && (forall e :: e in w.nodes[n].parents ==> e in ig)
  }

  /** The state of a traversal: `done` are the nodes it has finished, `open` and `jobs` those
      on the stack. */
  ghost predicate Inv(w: World, t: Trip, ig: set<EdgeId>, done: set<NodeId>, open: set<NodeId>, jobs: set<JobId>) {
    && WellFormed(w) && t.skip <= ig <= w.edges.Keys && done + open <= w.nodes.Keys
    && (forall e {:trigger Settled(w, t, ig, done, open, jobs, e)} :: e in ig - t.skip ==> Settled(w, t, ig, done, open, jobs, e))
    && (forall n {:trigger Full(w, ig, n)} :: n in done ==> Full(w, ig, n))
    && (forall n {:trigger Meets(w, t, n)} :: n in done + open ==> Meets(w, t, n))
    && (forall n :: n in done ==> Stale(t, n))
  }

  /** Putting one more edge on the list, and one more node and job on the stack. */
  lemma Visit(w: World, t: Trip, ig: set<EdgeId>, done: set<NodeId>, open: set<NodeId>, jobs: set<JobId>, e: EdgeId, n: NodeId, js: set<JobId>)
    requires Inv(w, t, ig, done, open, jobs) && e in w.edges && n in w.nodes && Meets(w, t, n)
    requires Settled(w, t, ig + {e}, done, open + {n}, jobs + js, e)
    ensures Inv(w, t, ig + {e}, done, open + {n}, jobs + js)
  {
    forall d | d in ig + {e} - t.skip ensures Settled(w, t, ig + {e}, done, open + {n}, jobs + js, d) {
      if d != e {
        assert Settled(w, t, ig, done, open, jobs, d);
      }
    }
    forall m | m in done ensures Full(w, ig + {e}, m) {
      assert Full(w, ig, m);
    }
  }

  /** Taking a node from the stack that is finished or need not move. */
  lemma Leave(w: World, t: Trip, ig: set<EdgeId>, done: set<NodeId>, open: set<NodeId>, jobs: set<JobId>, n: NodeId)
    requires Inv(w, t, ig, done, open + {n}, jobs) && (n in done || !Stale(t, n))
    ensures Inv(w, t, ig, done, open, jobs)
  {
    forall e | e in ig - t.skip ensures Settled(w, t, ig, done, open, jobs, e) {
      assert Settled(w, t, ig, done, open + {n}, jobs, e);
    }
  }

  /** Finishing a node all of whose edges have been visited. */
  lemma Finish(w: World, t: Trip, ig: set<EdgeId>, done: set<NodeId>, open: set<NodeId>, jobs: set<JobId>, n: NodeId)
    requires Inv(w, t, ig, done, open + {n}, jobs) && n in w.nodes && Full(w, ig, n) && Stale(t, n)
    ensures Inv(w, t, ig, done + {n}, open, jobs)
  {
    forall e | e in ig - t.skip ensures Settled(w, t, ig, done + {n}, open, jobs, e) {
      assert Settled(w, t, ig, done, open + {n}, jobs, e);
    }
    assert Meets(w, t, n);
  }

  lemma LeaveJob(w: World, t: Trip, ig: set<EdgeId>, done: set<NodeId>, open: set<NodeId>, jobs: set<JobId>, j: JobId)
    requires Inv(w, t, ig, done, open, jobs + {j}) && j in w.jobs && forall d :: d in w.jobs[j] ==> d in ig
    ensures Inv(w, t, ig, done, open, jobs)
  {
    forall e | e in ig - t.skip ensures Settled(w, t, ig, done, open, jobs, e) {
      assert Settled(w, t, ig, done, open, jobs + {j}, e);
    }
  }

  /** A finished traversal has met exactly the stale nodes of the component. */
  lemma {:induction false} AllMet(w: World, t: Trip, ig: set<EdgeId>, done: set<NodeId>, n: NodeId, p: seq<NodeId>)
    requires Inv(w, t, ig, done, {}, {}) && t.root in w.nodes && (Stale(t, t.root) ==> t.root in done)
    requires Connects(Linked(w, t), p, t.root, n) && n in w.nodes && Stale(t, n)
    ensures n in done
    decreases |p|
  {
    if |p| > 1 {
      var q := p[..|p| - 1];
      var m := q[|q| - 1];
      assert m in Linked(w, t) && n in Linked(w, t)[m];
      assert Connects(Linked(w, t), q, t.root, m);
      AllMet(w, t, ig, done, m, q);
      NextIsDone(w, t, ig, done, m, n);
    }
  }

  lemma NextIsDone(w: World, t: Trip, ig: set<EdgeId>, done: set<NodeId>, m: NodeId, n: NodeId)
    requires Inv(w, t, ig, done, {}, {}) && m in done && Next(w, t.skip, m, n) && Stale(t, n)
    ensures n in done
  {
    assert NodeOk(w, m) && Full(w, ig, m);
    if e :| e in w.nodes[m].children && e !in t.skip && e in w.edges && w.edges[e].bs == n {
      assert Settled(w, t, ig, done, {}, {}, e);
    } else if e :| e in w.nodes[m].parents && e !in t.skip && e in w.edges && w.edges[e].owner == ByNode(n) {
      assert Settled(w, t, ig, done, {}, {}, e);
    } else {
      var e, d :| e in w.nodes[m].parents && e !in t.skip && e in w.edges && w.edges[e].owner.ByJob? && w.edges[e].owner.job in w.jobs
                  && d in w.jobs[w.edges[e].owner.job] && d !in t.skip && d in w.edges && w.edges[d].bs == n;
      assert Settled(w, t, ig, done, {}, {}, e);
      assert Settled(w, t, ig, done, {}, {}, d);
    }
  }

  lemma DoneIsComponent(w: World, t: Trip, ig: set<EdgeId>, done: set<NodeId>)
    requires Inv(w, t, ig, done, {}, {}) && t.root in w.nodes && (Stale(t, t.root) ==> t.root in done)
    ensures forall n :: n in w.nodes ==> (n in done <==> Meets(w, t, n) && Stale(t, n))
    ensures Agreed(w, t)
  {
    forall n | n in w.nodes ensures n in done <==> Meets(w, t, n) && Stale(t, n) {
      if n in done {
        assert Meets(w, t, n);
      } else if Meets(w, t, n) && Stale(t, n) {
        var p :| Connects(Linked(w, t), p, t.root, n);
        AllMet(w, t, ig, done, n, p);
      }
    }
    forall n, e | n in w.nodes && Meets(w, t, n) && Stale(t, n) && e in w.nodes[n].parents && e !in t.skip && e in w.edges
      ensures Allowed(w, e)
    {
      assert Full(w, ig, n);
      assert Settled(w, t, ig, done, {}, {}, e);
    }
  }
}
