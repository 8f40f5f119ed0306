/** The block graph with its permissions and AioContexts together: every operation, with the
    moves between contexts that are part of it, keeps the two ends of every edge in one
    context. */
module BlockContexts {
  import opened Lists
  import opened BlockGraph
  import opened BlockPerms
  import opened BlockEdit
  import opened BlockChange
  import opened BlockReplace
  import opened BlockSafety
  import opened BlockRuns
  import A = BlockAio
  import G = BlockAgree

  /** Whether a block backend tolerates that its context changes. */
  type Answers = EdgeId -> bool

  /** `owner` says who holds each edge; `jobs` are the edges of each job. */
  datatype Hold = Hold(owner: map<EdgeId, A.Owner>, jobs: map<A.JobId, seq<EdgeId>>)

  datatype Whole = Whole(s: State, h: Hold, c: G.Ctxs)

  // ------------------------------------------------------------------ owners and contexts

  ghost predicate NodeHolds(g: Graph, h: Hold, n: NodeId)
    requires n in g.nodes
  {
    forall e :: e in g.nodes[n].children ==> e in h.owner && h.owner[e] == A.ByNode(n)
  }

  ghost predicate JobHolds(h: Hold, j: A.JobId)
    requires j in h.jobs
  {
    forall e :: e in h.jobs[j] ==> e in h.owner && h.owner[e] == A.ByJob(j)
  }

  ghost predicate Held(g: Graph, h: Hold, e: EdgeId)
    requires e in h.owner
  {
    match h.owner[e]
    case ByNode(p) => p in g.nodes && e in g.nodes[p].children
    case ByJob(j) => j in h.jobs && e in h.jobs[j]
    case _ => true
  }

  /** The owners are right about the lists of nodes and jobs. */
  ghost predicate HoldOk(g: Graph, h: Hold) {
    && h.owner.Keys == g.edges.Keys
    && (forall n {:trigger NodeHolds(g, h, n)} :: n in g.nodes ==> NodeHolds(g, h, n))
    && (forall j {:trigger JobHolds(h, j)} :: j in h.jobs ==> JobHolds(h, j))
    && (forall e {:trigger Held(g, h, e)} :: e in h.owner ==> Held(g, h, e))
  }

  /** The holder of the edge is in the context of its node. */
  ghost predicate Fits(g: Graph, h: Hold, c: G.Ctxs, e: EdgeId)
    requires e in g.edges && e in h.owner
  {
    && g.edges[e].bs in c.nodes
    && var ctx := c.nodes[g.edges[e].bs];
       match h.owner[e]
       case ByNode(p) => p in c.nodes && c.nodes[p] == ctx
       case ByJob(j) => j in c.users.jobs && c.users.jobs[j] == ctx
       case ByRoot(_) => e in c.users.backends && c.users.backends[e] == ctx
       case NoCallback => true
  }

  ghost predicate AllFit(g: Graph, h: Hold, c: G.Ctxs) {
    && g.edges.Keys == h.owner.Keys && c.nodes.Keys == g.nodes.Keys && h.jobs.Keys <= c.users.jobs.Keys
    && forall e {:trigger Fits(g, h, c, e)} :: e in g.edges ==> Fits(g, h, c, e)
  }

  ghost predicate Fine(l: Whole) {
    Safe(l.s.g, l.s.st) && HoldOk(l.s.g, l.h) && AllFit(l.s.g, l.h, l.c)
  }

  // ------------------------------------------------------------------ the world of the moves

  function Answering(o: A.Owner, allowed: bool): A.Owner {
    if o.ByRoot? then A.ByRoot(allowed) else o
  }

  function WorldOf(g: Graph, h: Hold, allow: Answers): (w: A.World)
    requires g.edges.Keys == h.owner.Keys
  {
    A.World(map n | n in g.nodes :: A.Node(g.nodes[n].children, g.nodes[n].parents),
            map e | e in g.edges :: A.Edge(g.edges[e].bs, Answering(h.owner[e], allow(e))),
            h.jobs)
  }

  lemma WorldOk(g: Graph, h: Hold, allow: Answers)
    requires Ok(g) && HoldOk(g, h)
    ensures A.WellFormed(WorldOf(g, h, allow))
  {
    var w := WorldOf(g, h, allow);
    forall n | n in w.nodes ensures A.NodeOk(w, n) {
      assert NodeOk(g, n) && NodeHolds(g, h, n);
    }
    forall e | e in w.edges ensures A.EdgeOk(w, e) {
      assert EdgeOk(g, e) && Held(g, h, e);
      assert NodeOk(g, g.edges[e].bs);
    }
    forall j | j in w.jobs ensures A.JobOk(w, j) {
      assert JobHolds(h, j);
    }
  }

  /** Agreement in the world of the moves is agreement in the graph. */
  lemma FitIsAgreement(g: Graph, h: Hold, c: G.Ctxs, allow: Answers)
    requires Ok(g) && HoldOk(g, h)
    ensures AllFit(g, h, c) <==> G.Agree(WorldOf(g, h, allow), c)
  {
    var w := WorldOf(g, h, allow);
    WorldOk(g, h, allow);
    if AllFit(g, h, c) {
      forall e | e in w.edges ensures G.EdgeAgrees(w, c, e) {
        assert Fits(g, h, c, e);
      }
      forall e | e in w.edges && w.edges[e].owner.ByRoot? ensures e in c.users.backends {
        assert Fits(g, h, c, e);
      }
    }
    if G.Agree(w, c) {
      forall e | e in g.edges ensures Fits(g, h, c, e) {
        assert G.EdgeAgrees(w, c, e);
      }
    }
  }

  // ------------------------------------------------------------------ operations

  datatype Act =
    | Change(op: Op)                                                        // permissions only, or a replacement
    | Drop(e: EdgeId, home: A.Ctx)                                          // bdrv_detach_child
    | AddRoot(e: EdgeId, edge: Edge, u: Use, owner: A.Owner, at: A.Ctx)     // bdrv_root_attach_child
    | AddKid(p: NodeId, e: EdgeId, edge: Edge)                              // bdrv_attach_child
    | MoveNode(n: NodeId, to: A.Ctx)                                        // bdrv_try_set_aio_context
    | MoveBackend(e: EdgeId, to: A.Ctx)                                     // blk_set_aio_context

  /** What the callers see to, besides the conditions on the graph: a new user is not a node
      and names its own context, and a replacement stays within a context, which
      `bdrv_replace_node` asserts. */
  ghost predicate Allowed(l: Whole, a: Act) {
    match a
    case Change(op) =>
      && (op.SetPerms? || op.Refresh? || op.Replace?) && Proper(l.s, op)
      && (op.Replace? ==> op.from in l.c.nodes && op.to in l.c.nodes && l.c.nodes[op.from] == l.c.nodes[op.to])
    case Drop(e, _) => e in l.s.g.edges
    case AddRoot(e, edge, u, owner, at) =>
      e !in l.s.g.edges && edge.bs in l.s.g.nodes && !owner.ByNode?
      && (owner.ByJob? ==> owner.job in l.h.jobs && owner.job in l.c.users.jobs && l.c.users.jobs[owner.job] == at)
    case AddKid(p, e, edge) => Proper(l.s, AttachTo(p, e, edge, true))
    case MoveNode(n, _) => n in l.s.g.nodes
    case MoveBackend(e, _) => e in l.s.g.edges && e in l.h.owner && l.h.owner[e].ByRoot?
  }

  /** The edge leaves the list of its job. */
  function Released(h: Hold, e: EdgeId): (r: Hold)
    requires e in h.owner
  {
    var o := h.owner[e];
    Hold(h.owner - {e}, if o.ByJob? && o.job in h.jobs then h.jobs[o.job := Without(h.jobs[o.job], e)] else h.jobs)
  }

  /** The edge enters the list of its job. */
  function Taken(h: Hold, e: EdgeId, o: A.Owner): (r: Hold) {
    Hold(h.owner[e := o], if o.ByJob? && o.job in h.jobs then h.jobs[o.job := [e] + h.jobs[o.job]] else h.jobs)
  }

  /** The new user is told where it is; a node or a job has been told already. */
  function Informed(c: G.Ctxs, e: EdgeId, o: A.Owner, at: A.Ctx): (r: G.Ctxs) {
    if o.ByRoot? then c.(users := c.users.(backends := c.users.backends[e := at])) else c
  }

  /** The contexts are reconciled once the permissions are granted, and before the edge is
      there. */
  ghost function Reconciled(l: Whole, drv: DriverCheck, allow: Answers, edge: Edge, u: Use, owner: A.Owner, at: A.Ctx): (r: G.Reconciliation)
    requires Fine(l) && edge.bs in l.s.g.nodes && (owner.ByNode? ==> owner.node in l.s.g.nodes) && (owner.ByJob? ==> owner.job in l.h.jobs)
  {
    if !CheckUpdatePerm(l.s.g, drv, l.s.st, edge.bs, u, {}).ok then G.Reconciliation(false, l.c, at)
    else
      FitIsAgreement(l.s.g, l.h, l.c, allow);
      G.Reconcile(WorldOf(l.s.g, l.h, allow), l.c, edge.bs, owner, at)
  }

  /** `bdrv_detach_child`: without the user that may have asked for its context, the node tries
      to go back to the main one. */
  ghost function Dropped(l: Whole, drv: DriverCheck, allow: Answers, e: EdgeId, home: A.Ctx): (r: Whole)
    requires Fine(l) && e in l.s.g.edges
  {
    var g', h' := RemoveEdge(l.s.g, e), Released(l.h, e);
    Whole(Detach(l.s, drv, e), h', G.TrySetCtx(WorldOf(g', h', allow), l.c, l.s.g.edges[e].bs, home).1)
  }

  /** `bdrv_root_attach_child`. */
  ghost function RootAdded(l: Whole, drv: DriverCheck, allow: Answers, e: EdgeId, edge: Edge, u: Use, owner: A.Owner, at: A.Ctx): (r: Whole)
    requires Fine(l) && e !in l.s.g.edges && edge.bs in l.s.g.nodes && !owner.ByNode? && (owner.ByJob? ==> owner.job in l.h.jobs)
  {
    var r := Reconciled(l, drv, allow, edge, u, owner, at);
    var s' := RootAttach(l.s, drv, e, edge, u, r.ok);
    if r.ok then Whole(s', Taken(l.h, e, owner), Informed(r.c, e, owner, r.at)) else Whole(s', l.h, r.c)
  }

  /** `bdrv_attach_child`. */
  ghost function KidAdded(l: Whole, drv: DriverCheck, allow: Answers, p: NodeId, e: EdgeId, edge: Edge): (r: Whole)
    requires Fine(l) && e !in l.s.g.edges && edge.bs in l.s.g.nodes && p in l.s.g.nodes
  {
    var r := Reconciled(l, drv, allow, edge, NeededUse(l.s.g, l.s.st, p, edge), A.ByNode(p), l.c.nodes[p]);
    var s' := AttachChild(l.s, drv, p, e, edge, r.ok);
    if r.ok then Whole(s', Taken(l.h, e, A.ByNode(p)), r.c) else Whole(s', l.h, r.c)
  }

  ghost function Do(l: Whole, drv: DriverCheck, allow: Answers, a: Act): (r: Whole)
    requires Fine(l) && Allowed(l, a)
  {
    match a
    case Change(op) => l.(s := Perform(l.s, drv, op))
    case Drop(e, home) => Dropped(l, drv, allow, e, home)
    case AddRoot(e, edge, u, owner, at) => RootAdded(l, drv, allow, e, edge, u, owner, at)
    case AddKid(p, e, edge) => KidAdded(l, drv, allow, p, e, edge)
    case MoveNode(n, to) => l.(c := G.TrySetCtx(WorldOf(l.s.g, l.h, allow), l.c, n, to).1)
    case MoveBackend(e, to) => l.(c := G.SetBackendCtx(WorldOf(l.s.g, l.h, allow), l.c, e, to).1)
  }

  // ------------------------------------------------------------------ they keep it

  lemma MovedHolds(g: Graph, g': Graph, h: Hold, cs: set<EdgeId>, to: NodeId)
    requires HoldOk(g, h) && Moved(g, g', cs, to)
    ensures HoldOk(g', h)
  {
    forall n | n in g'.nodes ensures NodeHolds(g', h, n) {
      assert NodeHolds(g, h, n);
      assert g'.nodes[n].(parents := []) == g.nodes[n].(parents := []);
    }
    forall e | e in h.owner ensures Held(g', h, e) {
      assert Held(g, h, e);
      if h.owner[e].ByNode? {
        assert g'.nodes[h.owner[e].node].(parents := []) == g.nodes[h.owner[e].node].(parents := []);
      }
    }
  }

  lemma MovedFits(g: Graph, g': Graph, h: Hold, c: G.Ctxs, cs: set<EdgeId>, from: NodeId, to: NodeId)
    requires AllFit(g, h, c) && Moved(g, g', cs, to) && from in c.nodes && to in c.nodes && c.nodes[from] == c.nodes[to]
    requires forall e :: e in cs ==> e in g.edges && g.edges[e].bs == from
    ensures AllFit(g', h, c)
  {
    forall e | e in g'.edges ensures Fits(g', h, c, e) {
      assert Fits(g, h, c, e);
    }
  }

  lemma ChangeKeepsFine(l: Whole, drv: DriverCheck, allow: Answers, op: Op)
    requires Fine(l) && Allowed(l, Change(op))
    ensures Fine(Do(l, drv, allow, Change(op)))
  {
    OpKeepsSafe(l.s, drv, op);
    if op.Replace? {
      var g' := MoveEdges(l.s.g, op.list, op.to);
      MovableOk(l.s.g, op.list, op.to);
      MovedHolds(l.s.g, g', l.h, Elems(op.list), op.to);
      MovedFits(l.s.g, g', l.h, l.c, Elems(op.list), op.from, op.to);
    }
  }

  lemma ReleasedOk(g: Graph, h: Hold, e: EdgeId)
    requires Ok(g) && HoldOk(g, h) && e in g.edges
    ensures HoldOk(RemoveEdge(g, e), Released(h, e))
  {
    var g', h' := RemoveEdge(g, e), Released(h, e);
    forall n | n in g'.nodes ensures NodeHolds(g', h', n) {
      assert NodeHolds(g, h, n);
    }
    forall j | j in h'.jobs ensures JobHolds(h', j) {
      assert JobHolds(h, j);
    }
    forall d | d in h'.owner ensures Held(g', h', d) {
      assert Held(g, h, d);
    }
  }

  lemma ReleasedFits(g: Graph, h: Hold, c: G.Ctxs, e: EdgeId)
    requires AllFit(g, h, c) && e in g.edges
    ensures AllFit(RemoveEdge(g, e), Released(h, e), c)
  {
    var g', h' := RemoveEdge(g, e), Released(h, e);
    forall d | d in g'.edges ensures Fits(g', h', c, d) {
      assert Fits(g, h, c, d);
    }
  }

  /** A move on a graph in which everything fits. */
  lemma MoveFits(g: Graph, h: Hold, c: G.Ctxs, allow: Answers, n: NodeId, to: A.Ctx)
    requires Ok(g) && HoldOk(g, h) && AllFit(g, h, c) && n in g.nodes
    ensures AllFit(g, h, G.TrySetCtx(WorldOf(g, h, allow), c, n, to).1)
  {
    FitIsAgreement(g, h, c, allow);
    G.TrySetKeepsAgreement(WorldOf(g, h, allow), c, n, to);
    FitIsAgreement(g, h, G.TrySetCtx(WorldOf(g, h, allow), c, n, to).1, allow);
  }

  lemma DropKeepsFine(l: Whole, drv: DriverCheck, allow: Answers, e: EdgeId, home: A.Ctx)
    requires Fine(l) && e in l.s.g.edges
    ensures Fine(Dropped(l, drv, allow, e, home))
  {
    DetachKeepsSafe(l.s, drv, e);
    RemoveEdgeOk(l.s.g, e);
    ReleasedOk(l.s.g, l.h, e);
    ReleasedFits(l.s.g, l.h, l.c, e);
    assert EdgeOk(l.s.g, e);
    MoveFits(RemoveEdge(l.s.g, e), Released(l.h, e), l.c, allow, l.s.g.edges[e].bs, home);
  }

  lemma ReconciledFits(l: Whole, drv: DriverCheck, allow: Answers, edge: Edge, u: Use, owner: A.Owner, at: A.Ctx)
    requires Fine(l) && edge.bs in l.s.g.nodes && G.UserAt(WorldOf(l.s.g, l.h, allow), l.c, owner, at)
    ensures var r := Reconciled(l, drv, allow, edge, u, owner, at);
            && AllFit(l.s.g, l.h, r.c) && (!r.ok ==> r.c == l.c)
            && (r.ok ==> CheckUpdatePerm(l.s.g, drv, l.s.st, edge.bs, u, {}).ok)
            && (r.ok ==> G.UserAt(WorldOf(l.s.g, l.h, allow), r.c, owner, r.at) && r.c.nodes[edge.bs] == r.at)
  {
    FitIsAgreement(l.s.g, l.h, l.c, allow);
    G.ReconcileAgrees(WorldOf(l.s.g, l.h, allow), l.c, edge.bs, owner, at);
    FitIsAgreement(l.s.g, l.h, Reconciled(l, drv, allow, edge, u, owner, at).c, allow);
  }

  /** The graph after a new edge has been added for its owner. */
  function Extended(g: Graph, e: EdgeId, edge: Edge, o: A.Owner): (g': Graph)
    requires edge.bs in g.nodes && (o.ByNode? ==> o.node in g.nodes)
  {
    var g1 := AddUser(g, e, edge);
    if o.ByNode? then AddChild(g1, o.node, e) else g1
  }

  lemma TakenOk(g: Graph, h: Hold, e: EdgeId, edge: Edge, o: A.Owner)
    requires HoldOk(g, h) && e !in g.edges && edge.bs in g.nodes && (o.ByNode? ==> o.node in g.nodes) && (o.ByJob? ==> o.job in h.jobs)
    ensures HoldOk(Extended(g, e, edge, o), Taken(h, e, o))
  {
    var g', h' := Extended(g, e, edge, o), Taken(h, e, o);
    forall n | n in g'.nodes ensures NodeHolds(g', h', n) {
      assert NodeHolds(g, h, n);
    }
    forall j | j in h'.jobs ensures JobHolds(h', j) {
      assert JobHolds(h, j);
    }
    forall d | d in h'.owner ensures Held(g', h', d) {
      assert d != e ==> Held(g, h, d);
    }
  }

  lemma TakenFits(g: Graph, h: Hold, c: G.Ctxs, e: EdgeId, edge: Edge, o: A.Owner, at: A.Ctx, allow: Answers)
    requires AllFit(g, h, c) && e !in g.edges && edge.bs in g.nodes && c.nodes[edge.bs] == at && G.UserAt(WorldOf(g, h, allow), c, o, at)
    ensures o.ByNode? ==> o.node in g.nodes
    ensures AllFit(Extended(g, e, edge, o), Taken(h, e, o), Informed(c, e, o, at))
  {
    var g', h', c' := Extended(g, e, edge, o), Taken(h, e, o), Informed(c, e, o, at);
    forall d | d in g'.edges ensures Fits(g', h', c', d) {
      assert d != e ==> Fits(g, h, c, d);
    }
  }

  lemma AddRootKeepsFine(l: Whole, drv: DriverCheck, allow: Answers, e: EdgeId, edge: Edge, u: Use, owner: A.Owner, at: A.Ctx)
    requires Fine(l) && Allowed(l, AddRoot(e, edge, u, owner, at))
    ensures Fine(RootAdded(l, drv, allow, e, edge, u, owner, at))
  {
    var r := Reconciled(l, drv, allow, edge, u, owner, at);
    ReconciledFits(l, drv, allow, edge, u, owner, at);
    RootAttachKeepsSafe(l.s, drv, e, edge, u, r.ok);
    if r.ok {
      TakenOk(l.s.g, l.h, e, edge, owner);
      TakenFits(l.s.g, l.h, r.c, e, edge, owner, r.at, allow);
    }
  }

  lemma AddKidKeepsFine(l: Whole, drv: DriverCheck, allow: Answers, p: NodeId, e: EdgeId, edge: Edge)
    requires Fine(l) && Allowed(l, AddKid(p, e, edge))
    ensures Fine(KidAdded(l, drv, allow, p, e, edge))
  {
    var u, o := NeededUse(l.s.g, l.s.st, p, edge), A.ByNode(p);
    var r := Reconciled(l, drv, allow, edge, u, o, l.c.nodes[p]);
    ReconciledFits(l, drv, allow, edge, u, o, l.c.nodes[p]);
    AttachChildKeepsSafe(l.s, drv, p, e, edge, r.ok);
    if r.ok {
      TakenOk(l.s.g, l.h, e, edge, o);
      TakenFits(l.s.g, l.h, r.c, e, edge, o, r.at, allow);
    }
  }

  lemma MoveBackendKeepsFine(l: Whole, drv: DriverCheck, allow: Answers, a: Act)
    requires Fine(l) && a.MoveBackend? && Allowed(l, a)
    ensures Fine(Do(l, drv, allow, a))
  {
    FitIsAgreement(l.s.g, l.h, l.c, allow);
    G.SetBackendKeepsAgreement(WorldOf(l.s.g, l.h, allow), l.c, a.e, a.to);
    FitIsAgreement(l.s.g, l.h, Do(l, drv, allow, a).c, allow);
  }

  lemma ActKeepsFine(l: Whole, drv: DriverCheck, allow: Answers, a: Act)
    requires Fine(l) && Allowed(l, a)
    ensures Fine(Do(l, drv, allow, a))
  {
    match a
    case Change(op) => ChangeKeepsFine(l, drv, allow, op);
    case Drop(e, home) => DropKeepsFine(l, drv, allow, e, home);
    case AddRoot(e, edge, u, owner, at) => AddRootKeepsFine(l, drv, allow, e, edge, u, owner, at);
    case AddKid(p, e, edge) => AddKidKeepsFine(l, drv, allow, p, e, edge);
    case MoveNode(n, to) => MoveFits(l.s.g, l.h, l.c, allow, n, to);
    case MoveBackend(_, _) => MoveBackendKeepsFine(l, drv, allow, a);
  }

  /** What the act does to graph and permissions: one of the operations of `BlockRuns`, with
      the outcome of the reconciliation, or nothing. */
  lemma ActIsOp(l: Whole, drv: DriverCheck, allow: Answers, a: Act)
    requires Fine(l) && Allowed(l, a)
    ensures a.MoveNode? || a.MoveBackend? ==> Do(l, drv, allow, a).s == l.s
    ensures !a.MoveNode? && !a.MoveBackend? ==> exists op :: Proper(l.s, op) && Do(l, drv, allow, a).s == Perform(l.s, drv, op)
  {
    match a
    case Change(op) => assert Proper(l.s, op);
    case Drop(e, _) => assert Proper(l.s, DetachEdge(e));
    case AddRoot(e, edge, u, owner, at) =>
      assert Proper(l.s, AttachRoot(e, edge, u, Reconciled(l, drv, allow, edge, u, owner, at).ok));
    case AddKid(p, e, edge) =>
      assert Proper(l.s, AttachTo(p, e, edge, Reconciled(l, drv, allow, edge, NeededUse(l.s.g, l.s.st, p, edge), A.ByNode(p), l.c.nodes[p]).ok));
    case _ =>
  }

  // ------------------------------------------------------------------ whole runs

  datatype Turn = Turn(act: Act, drv: DriverCheck, allow: Answers)

  ghost predicate LeadsTo(l: Whole, turns: seq<Turn>, r: Whole)
    requires Fine(l)
    decreases |turns|
  {
    if turns == [] then r == l
    else
      var t := turns[0];
      Allowed(l, t.act) && (ActKeepsFine(l, t.drv, t.allow, t.act); LeadsTo(Do(l, t.drv, t.allow, t.act), turns[1..], r))
  }

  /** After any number of operations, whatever drivers, jobs and backends answer, the holder of
      every edge is in the context of the node it points to. */
  lemma {:induction false} AlwaysFine(l: Whole, turns: seq<Turn>, r: Whole)
    requires Fine(l) && LeadsTo(l, turns, r)
    ensures Fine(r)
    decreases |turns|
  {
    if turns != [] {
      var t := turns[0];
      ActKeepsFine(l, t.drv, t.allow, t.act);
      AlwaysFine(Do(l, t.drv, t.allow, t.act), turns[1..], r);
    }
  }

  /** Hence connected nodes share a context in every state of every run, and a move takes the
      whole component. */
  lemma ConnectedShareContext(l: Whole, turns: seq<Turn>, r: Whole, allow: Answers, a: NodeId, b: NodeId)
    requires Fine(l) && LeadsTo(l, turns, r) && a in r.s.g.nodes && r.s.g.edges.Keys == r.h.owner.Keys
    requires b in r.s.g.nodes && G.Connected(WorldOf(r.s.g, r.h, allow), {}, a, b)
    ensures a in r.c.nodes && b in r.c.nodes && r.c.nodes[a] == r.c.nodes[b]
  {
    AlwaysFine(l, turns, r);
    FitIsAgreement(r.s.g, r.h, r.c, allow);
    G.AgreeIsUniform(WorldOf(r.s.g, r.h, allow), A.Trip(r.c.nodes, r.c.users, 0, {}, a));
  }
}
