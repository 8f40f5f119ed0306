/** Any sequence of operations on the block graph. */
module BlockRuns {
  import opened Reach
  import opened BlockGraph
  import opened BlockPerms
  import opened BlockOps
  import opened BlockChange
  import opened BlockReplace
  import opened BlockSafety
  import opened BlockRefresh

  datatype Op =
    | SetPerms(c: EdgeId, u: Use)                                        // bdrv_child_try_set_perm
    | Refresh(k: NodeId, c: EdgeId)                                      // bdrv_child_refresh_perms
    | DetachEdge(c: EdgeId)                                              // bdrv_detach_child
    | AttachRoot(e: EdgeId, edge: Edge, u: Use, aioOk: bool)             // bdrv_root_attach_child
    | AttachTo(p: NodeId, e: EdgeId, edge: Edge, aioOk: bool)            // bdrv_attach_child
    | Replace(list: seq<EdgeId>, from: NodeId, to: NodeId)               // bdrv_replace_node

  /** What the callers of the operations have to see to: names that exist or are new, and no
      loop when a child is attached. The list of a replacement is the one `CollectUsers`
      gathers. */
  ghost predicate Proper(s: State, op: Op) {
    match op
    case SetPerms(c, u) => c in s.g.edges
    case Refresh(k, c) => k in s.g.nodes && c in Kids(s.g, k)
    case DetachEdge(c) => c in s.g.edges
    case AttachRoot(e, edge, u, _) => e !in s.g.edges && edge.bs in s.g.nodes
    case AttachTo(p, e, edge, _) =>
      e !in s.g.edges && edge.bs in s.g.nodes && p in s.g.nodes && s.g.nodes[p].drv.DefaultPerms? && !Reaches(Links(s.g), edge.bs, p)
    case Replace(list, from, to) => Movable(s.g, list, to) && forall c :: c in list ==> s.g.edges[c].bs == from
  }

  ghost function Perform(s: State, drv: DriverCheck, op: Op): State
    requires Covers(s.g, s.st) && Proper(s, op)
  {
    match op
    case SetPerms(c, u) => s.(st := TrySetPerm(s.g, drv, s.st, c, u).st)
    case Refresh(k, c) => s.(st := RefreshPerms(s.g, drv, s.st, k, c).st)
    case DetachEdge(c) => Detach(s, drv, c)
    case AttachRoot(e, edge, u, aioOk) => RootAttach(s, drv, e, edge, u, aioOk)
    case AttachTo(p, e, edge, aioOk) => AttachChild(s, drv, p, e, edge, aioOk)
    case Replace(list, from, to) => ReplaceNode(s, drv, list, to)
  }

  lemma OpKeepsSafe(s: State, drv: DriverCheck, op: Op)
    requires Safe(s.g, s.st) && Proper(s, op)
    ensures var r := Perform(s, drv, op); Safe(r.g, r.st)
  {
    match op
    case SetPerms(c, u) => TrySetKeepsSafe(s.g, drv, s.st, c, u);
    case Refresh(k, c) => OwnerAgreesToNeed(s.g, s.st, k, c); TrySetKeepsSafe(s.g, drv, s.st, c, NeededNow(s.g, s.st, k, c));
    case DetachEdge(c) => DetachKeepsSafe(s, drv, c);
    case AttachRoot(e, edge, u, aioOk) => RootAttachKeepsSafe(s, drv, e, edge, u, aioOk);
    case AttachTo(p, e, edge, aioOk) => AttachChildKeepsSafe(s, drv, p, e, edge, aioOk);
    case Replace(list, from, to) => ReplaceKeepsSafe(s, drv, list, from, to);
  }

  /** `r` is reached from `s` by the operations `ops`; the drivers may answer differently at
      each of them. */
  ghost predicate Leads(s: State, ops: seq<(Op, DriverCheck)>, r: State)
    requires Safe(s.g, s.st)
    decreases |ops|
  {
    if ops == [] then r == s
    else
      && Proper(s, ops[0].0)
      && (OpKeepsSafe(s, ops[0].1, ops[0].0); Leads(Perform(s, ops[0].1, ops[0].0), ops[1..], r))
  }

  /** After any number of operations, whatever permissions they ask for and whichever nodes
      they replace: the graph has no loops, nothing is left staged, and for every node and
      every two of its users each tolerates what the other does. */
  lemma {:induction false} UsersAlwaysCompatible(s: State, ops: seq<(Op, DriverCheck)>, r: State, a: EdgeId, b: EdgeId)
    requires Safe(s.g, s.st) && Leads(s, ops, r)
    ensures Safe(r.g, r.st) && Acyclic(Links(r.g))
    ensures a in r.g.edges && b in r.g.edges && a != b && r.g.edges[a].bs == r.g.edges[b].bs ==>
              r.st[a].use.perm <= r.st[b].use.shared
    decreases |ops|
  {
    if ops != [] {
      OpKeepsSafe(s, ops[0].1, ops[0].0);
      UsersAlwaysCompatible(Perform(s, ops[0].1, ops[0].0), ops[1..], r, a, b);
    }
  }

  // ------------------------------------------------------------------ tightness

  /** How the operations are called: nobody asks to forbid WRITE_UNCHANGED, and permissions
      are set only for root edges, while a node refreshes those of its own edges. */
  ghost predicate Called(s: State, op: Op) {
    match op
    case SetPerms(c, u) => WriteUnchanged in u.shared && IsRoot(s.g, c)
    case AttachRoot(_, _, u, _) => WriteUnchanged in u.shared
    case _ => true
  }

  /** The operation is no replacement that loses the effect of `force_share` for an owner. */
  ghost predicate KeepsForceShare(s: State, drv: DriverCheck, op: Op)
    requires Covers(s.g, s.st) && Proper(s, op)
  {
    match op
    case Replace(list, _, to) =>
      CheckUpdatePerm(s.g, drv, s.st, to, Cum(s.st, Elems(list)), Elems(list)).ok ==> AllStillTight(s, list, to)
    case _ => true
  }

  /** An operation keeps the whole invariant exactly when it loses no `force_share`. */
  lemma OpKeepsInv(s: State, drv: DriverCheck, op: Op)
    requires Inv(s.g, s.st) && Proper(s, op) && Called(s, op)
    ensures var r := Perform(s, drv, op); Inv(r.g, r.st) <==> KeepsForceShare(s, drv, op)
  {
    match op
    case SetPerms(c, u) => RootSetKeepsInv(s.g, drv, s.st, c, u);
    case Refresh(k, c) => InvIsEnough(s.g, s.st, c); RefreshKeepsInv(s.g, drv, s.st, k, c);
    case DetachEdge(c) => DetachKeepsInv(s, drv, c);
    case AttachRoot(e, edge, u, aioOk) => RootAttachKeepsInv(s, drv, e, edge, u, aioOk);
    case AttachTo(p, e, edge, aioOk) => AttachChildKeepsInv(s, drv, p, e, edge, aioOk);
    case Replace(list, from, to) => ReplaceKeepsInv(s, drv, list, from, to);
  }

  /** All the operations of a run are called that way. */
  ghost predicate AllCalled(s: State, ops: seq<(Op, DriverCheck)>, r: State)
    requires Safe(s.g, s.st) && Leads(s, ops, r)
    decreases |ops|
  {
    ops != [] ==>
      && Called(s, ops[0].0)
      && (OpKeepsSafe(s, ops[0].1, ops[0].0); AllCalled(Perform(s, ops[0].1, ops[0].0), ops[1..], r))
  }

  ghost predicate NoneLosesForceShare(s: State, ops: seq<(Op, DriverCheck)>, r: State)
    requires Safe(s.g, s.st) && Leads(s, ops, r)
    decreases |ops|
  {
    ops != [] ==>
      && KeepsForceShare(s, ops[0].1, ops[0].0)
      && (OpKeepsSafe(s, ops[0].1, ops[0].0); NoneLosesForceShare(Perform(s, ops[0].1, ops[0].0), ops[1..], r))
  }

  /** The whole invariant holds in every state of the run. */
  ghost predicate AlwaysTight(s: State, ops: seq<(Op, DriverCheck)>, r: State)
    requires Safe(s.g, s.st) && Leads(s, ops, r)
    decreases |ops|
  {
    && Inv(s.g, s.st)
    && (ops != [] ==> (OpKeepsSafe(s, ops[0].1, ops[0].0); AlwaysTight(Perform(s, ops[0].1, ops[0].0), ops[1..], r)))
  }

  /** Through a run every edge stays at least as tight as its owner needs, so that loosening
      and detaching never fail, if and only if no replacement loses `force_share`. */
  lemma {:induction false} EdgesStayTight(s: State, ops: seq<(Op, DriverCheck)>, r: State)
    requires Inv(s.g, s.st) && Leads(s, ops, r) && AllCalled(s, ops, r)
    ensures AlwaysTight(s, ops, r) <==> NoneLosesForceShare(s, ops, r)
    ensures AlwaysTight(s, ops, r) ==> Inv(r.g, r.st)
    decreases |ops|
  {
    if ops != [] {
      var t := Perform(s, ops[0].1, ops[0].0);
      OpKeepsSafe(s, ops[0].1, ops[0].0);
      OpKeepsInv(s, ops[0].1, ops[0].0);
      if Inv(t.g, t.st) {
        EdgesStayTight(t, ops[1..], r);
      }
    }
  }
}
