/** Permission updates of the block graph (block.c). An edge records which operations its
    user performs (`perm`) and which it tolerates from others (`shared`). A change is first
    checked and staged throughout the subtree, with the old values kept as a backup, and
    then either confirmed (`bdrv_set_perm`) or taken back (`bdrv_abort_perm_update`).

    This file has the operations as functions on values and what is proved about them;
    BlockLayer.dfy has the operations in place. */
module BlockPerms {
  import opened BlockGraph

  datatype Perm = ConsistentRead | Write | WriteUnchanged | Resize | GraphMod

  const ALL: set<Perm> := {ConsistentRead, Write, WriteUnchanged, Resize, GraphMod}

  lemma InAll(p: Perm)
    ensures p in ALL
  {
    match p {
      case ConsistentRead => case Write => case WriteUnchanged => case Resize => case GraphMod =>
    }
  }

  datatype Use = Use(perm: set<Perm>, shared: set<Perm>)

  datatype PermState = PermState(use: Use, backup: Option<Use>)

  type PermMap = map<EdgeId, PermState>

  // ------------------------------------------------------------------ default permission maps

  const PASSTHROUGH: set<Perm> := {ConsistentRead, Write, WriteUnchanged, Resize}

  /** `bdrv_filter_default_perms`. */
  function FilterPerms(u: Use): Use {
    Use(u.perm * PASSTHROUGH, u.shared * PASSTHROUGH + {GraphMod})
  }

  /** `bdrv_default_perms_for_cow`. */
  function CowPerms(n: Node, u: Use): Use {
    Use(u.perm * {ConsistentRead},
        (if Write in u.shared || n.inactive then {Write, Resize} else {})
        + {ConsistentRead, GraphMod, WriteUnchanged})
  }

  /** The BDRV_CHILD_METADATA part of `bdrv_default_perms_for_storage`. */
  function MetadataPerms(n: Node, u: Use): Use {
    Use(u.perm + (if n.writable then {Write, Resize} else {}) + (if !n.noIo then {ConsistentRead} else {}),
        u.shared - {Write, Resize})
  }

  /** The BDRV_CHILD_DATA part of `bdrv_default_perms_for_storage`. */
  function DataPerms(u: Use): Use {
    var perm := u.perm + if WriteUnchanged in u.perm then {Write} else {};
    Use(perm + (if Write in perm then {Resize} else {}), u.shared - {Resize})
  }

  function StoragePerms(n: Node, metadata: bool, data: bool, u: Use): Use {
    var u0 := FilterPerms(u);
    var u1 := if metadata then MetadataPerms(n, u0) else u0;
    var u2 := if data then DataPerms(u1) else u1;
    Use(u2.perm, u2.shared + if n.inactive then {Write, Resize} else {})
  }

  /** `bdrv_default_perms`. */
  function DefaultChildPerms(n: Node, role: Role, u: Use): Use {
    match role
    case Filtered => FilterPerms(u)
    case Cow => CowPerms(n, u)
    case Metadata => StoragePerms(n, true, false, u)
    case Data => StoragePerms(n, false, true, u)
    case MetadataAndData => StoragePerms(n, true, true, u)
  }

  /** `bdrv_child_perm`. */
  function ChildPerm(n: Node, child: Node, role: Role, u: Use): Use {
    var v := DefaultChildPerms(n, role, u);
    if child.forceShare then v.(shared := ALL) else v
  }

  /** `u` asks for no more and tolerates no less than `v`. */
  predicate Looser(u: Use, v: Use) {
    u.perm <= v.perm && v.shared <= u.shared
  }

  /** What a child must grant shrinks when its parent's users ask for less. */
  lemma ChildPermMonotone(n: Node, child: Node, role: Role, u: Use, v: Use)
    requires Looser(u, v)
    ensures Looser(ChildPerm(n, child, role, u), ChildPerm(n, child, role, v))
  {
    assert Looser(FilterPerms(u), FilterPerms(v));
    assert Looser(CowPerms(n, u), CowPerms(n, v));
    StorageMonotone(n, true, false, u, v);
    StorageMonotone(n, false, true, u, v);
    StorageMonotone(n, true, true, u, v);
  }

  lemma StorageMonotone(n: Node, metadata: bool, data: bool, u: Use, v: Use)
    requires Looser(u, v)
    ensures Looser(StoragePerms(n, metadata, data, u), StoragePerms(n, metadata, data, v))
  {
    var u0, v0 := FilterPerms(u), FilterPerms(v);
    assert Looser(MetadataPerms(n, u0), MetadataPerms(n, v0));
    var u1 := if metadata then MetadataPerms(n, u0) else u0;
    var v1 := if metadata then MetadataPerms(n, v0) else v0;
    assert Looser(DataPerms(u1), DataPerms(v1));
  }

  /** The assertion on `new_shared_perm` holds for every child if it holds for the parent. */
  lemma ChildPermSharesUnchanged(n: Node, child: Node, role: Role, u: Use)
    requires WriteUnchanged in u.shared
    ensures WriteUnchanged in ChildPerm(n, child, role, u).shared
  {}

  // ------------------------------------------------------------------ cumulative permissions

  /** `bdrv_get_cumulative_perm`, over any set of edges. */
  function Cum(st: PermMap, es: set<EdgeId>): (u: Use)
    requires es <= st.Keys
  {
    Use(set e, p | e in es && p in st[e].use.perm :: p,
        set p | p in ALL && forall e :: e in es ==> p in st[e].use.shared)
  }

  function Join(u: Use, v: Use): Use {
    Use(u.perm + v.perm, u.shared * v.shared)
  }

  function Parents(g: Graph, n: NodeId): (r: set<EdgeId>)
    requires n in g.nodes
  {
    set e | e in g.nodes[n].parents && e in g.edges
  }

  /** The perms map covers the edges of the graph. */
  ghost predicate Covers(g: Graph, st: PermMap) {
    Ok(g) && st.Keys == g.edges.Keys
  }

  lemma ParentsAre(g: Graph, n: NodeId)
    requires WellFormed(g) && n in g.nodes
    ensures forall e :: e in Parents(g, n) <==> e in g.edges && g.edges[e].bs == n
  {
    assert NodeOk(g, n);
  }

  // ------------------------------------------------------------------ check

  datatype Outcome = Outcome(ok: bool, tighten: bool, st: PermMap)

  /** Which own checks the drivers grant. */
  type DriverCheck = (NodeId, Use) -> bool

  predicate Writes(u: Use) {
    Write in u.perm || WriteUnchanged in u.perm
  }

  /** A node that cannot be written, or whose size is unaligned. */
  predicate Refuses(n: Node, u: Use) {
    Writes(u) && (!n.writable || (Resize !in u.perm && !n.sizeAligned))
  }

  predicate Compatible(u: Use, v: Use) {
    u.perm <= v.shared && v.perm <= u.shared
  }

  predicate Conflicts(st: PermMap, others: set<EdgeId>, u: Use)
    requires others <= st.Keys
  {
    exists e :: e in others && !Compatible(u, st[e].use)
  }

  /** `bdrv_check_update_perm`. */
  function CheckUpdatePerm(g: Graph, drv: DriverCheck, st: PermMap, n: NodeId, u: Use, ignore: set<EdgeId>): (r: Outcome)
    requires Covers(g, st) && n in g.nodes
    ensures Covers(g, r.st)
    decreases Below(g, n), 2
  {
    var others := Parents(g, n) - ignore;
    if Conflicts(st, others, u) then Outcome(false, true, st)
    else CheckPerm(g, drv, st, n, Join(u, Cum(st, others)), ignore)
  }

  /** `bdrv_check_perm`. */
  function CheckPerm(g: Graph, drv: DriverCheck, st: PermMap, n: NodeId, cum: Use, ignore: set<EdgeId>): (r: Outcome)
    requires Covers(g, st) && n in g.nodes
    ensures Covers(g, r.st)
    decreases Below(g, n), 1
  {
    var tighten := !Looser(cum, Cum(st, Parents(g, n)));
    if Refuses(g.nodes[n], cum) then Outcome(false, tighten, st)
    else if g.nodes[n].drv.OwnCheck? then Outcome(drv(n, cum), tighten, st)
    else
      var r := CheckChildren(g, drv, st, n, Kids(g, n), cum, ignore);
      r.(tighten := tighten || r.tighten)
  }

  /** The loop of `bdrv_check_perm` over the children that are left. */
  function CheckChildren(g: Graph, drv: DriverCheck, st: PermMap, n: NodeId, cs: seq<EdgeId>, cum: Use, ignore: set<EdgeId>): (r: Outcome)
    requires Covers(g, st) && n in g.nodes && forall c :: c in cs ==> c in Kids(g, n)
    ensures Covers(g, r.st)
    decreases Below(g, n), 0, |cs|
  {
    if cs == [] then Outcome(true, false, st)
    else
      KidBelow(g, n, cs[0]);
      var r := ChildCheckPerm(g, drv, st, cs[0], KidUse(g, n, cs[0], cum), ignore);
      if !r.ok then r
      else
        var rest := CheckChildren(g, drv, r.st, n, cs[1..], cum, ignore);
        rest.(tighten := r.tighten || rest.tighten)
  }

  function KidUse(g: Graph, n: NodeId, c: EdgeId, cum: Use): Use
    requires n in g.nodes && c in g.edges && g.edges[c].bs in g.nodes
  {
    ChildPerm(g.nodes[n], g.nodes[g.edges[c].bs], g.edges[c].role, cum)
  }

  /** Keep the first backup: the same edge can be staged several times. */
  function Stage(s: PermState, u: Use): PermState {
    PermState(u, if s.backup.Some? then s.backup else Some(s.use))
  }

  /** `bdrv_child_check_perm`. */
  function ChildCheckPerm(g: Graph, drv: DriverCheck, st: PermMap, c: EdgeId, u: Use, ignore: set<EdgeId>): (r: Outcome)
    requires Covers(g, st) && c in g.edges
    ensures Covers(g, r.st)
    decreases Below(g, g.edges[c].bs), 3
  {
    assert EdgeOk(g, c);
    var r := CheckUpdatePerm(g, drv, st, g.edges[c].bs, u, ignore + {c});
    if r.ok then r.(st := r.st[c := Stage(r.st[c], u)]) else r
  }

  // ------------------------------------------------------------------ abort

  function Unstage(s: PermState): PermState {
    if s.backup.Some? then PermState(s.backup.value, None) else s
  }

  /** `bdrv_abort_perm_update`. */
  function AbortPerm(g: Graph, st: PermMap, n: NodeId): (r: PermMap)
    requires Covers(g, st) && n in g.nodes
    ensures Covers(g, r)
    decreases Below(g, n), 1
  {
    AbortChildren(g, st, n, Kids(g, n))
  }

  function AbortChildren(g: Graph, st: PermMap, n: NodeId, cs: seq<EdgeId>): (r: PermMap)
    requires Covers(g, st) && n in g.nodes && forall c :: c in cs ==> c in Kids(g, n)
    ensures Covers(g, r)
    decreases Below(g, n), 0, |cs|
  {
    if cs == [] then st
    else
      KidBelow(g, n, cs[0]);
      AbortChildren(g, ChildAbortPerm(g, st, cs[0]), n, cs[1..])
  }

  /** `bdrv_child_abort_perm_update`. */
  function ChildAbortPerm(g: Graph, st: PermMap, c: EdgeId): (r: PermMap)
    requires Covers(g, st) && c in g.edges
    ensures Covers(g, r)
    decreases Below(g, g.edges[c].bs), 2
  {
    assert EdgeOk(g, c);
    AbortPerm(g, st[c := Unstage(st[c])], g.edges[c].bs)
  }

  // ------------------------------------------------------------------ set

  /** `bdrv_set_perm`. */
  function SetPerm(g: Graph, st: PermMap, n: NodeId, cum: Use): (r: PermMap)
    requires Covers(g, st) && n in g.nodes
    ensures Covers(g, r)
    decreases Below(g, n), 1
  {
    SetChildren(g, st, n, Kids(g, n), cum)
  }

  function SetChildren(g: Graph, st: PermMap, n: NodeId, cs: seq<EdgeId>, cum: Use): (r: PermMap)
    requires Covers(g, st) && n in g.nodes && forall c :: c in cs ==> c in Kids(g, n)
    ensures Covers(g, r)
    decreases Below(g, n), 0, |cs|
  {
    if cs == [] then st
    else
      KidBelow(g, n, cs[0]);
      SetChildren(g, ChildSetPerm(g, st, cs[0], KidUse(g, n, cs[0], cum)), n, cs[1..], cum)
  }

  /** `bdrv_child_set_perm`. */
  function ChildSetPerm(g: Graph, st: PermMap, c: EdgeId, u: Use): (r: PermMap)
    requires Covers(g, st) && c in g.edges
    ensures Covers(g, r)
    decreases Below(g, g.edges[c].bs), 2
  {
    assert EdgeOk(g, c);
    var st1 := st[c := PermState(u, None)];
    SetPerm(g, st1, g.edges[c].bs, Cum(st1, Parents(g, g.edges[c].bs)))
  }
}
