/** The ranks that BlockRefs.dfy works with: they exist exactly when the graph of owners and
    nodes has no loop, also with the edges that a replacement adds. */
module BlockRanks {
  import opened Reach
  import opened BlockGraph
  import opened BlockRefs

  /** From every node to the nodes its child edges point to. */
  ghost function Owners(b: Books): (r: Digraph) {
    map n | n in b.refcnt :: set e | e in b.links && b.links[e].owner == Some(n) :: b.links[e].bs
  }

  /** Edges lead between live nodes. */
  ghost predicate Listed(b: Books) {
    forall e :: e in b.links ==> b.links[e].bs in b.refcnt && (b.links[e].owner.Some? ==> b.links[e].owner.value in b.refcnt)
  }

  ghost predicate Ranked(b: Books, rank: NodeId -> nat) {
    forall e :: e in b.links && b.links[e].owner.Some? ==> rank(b.links[e].bs) < rank(b.links[e].owner.value)
  }

  /** Ranks go down along every edge. */
  ghost predicate Descends(g: Digraph, rank: nat -> nat) {
    forall x, y :: x in g && y in g[x] ==> rank(y) < rank(x)
  }

  lemma BalancedIsRanked(b: Books, held: multiset<NodeId>, rank: NodeId -> nat, dying: set<NodeId>)
    requires Balanced(b, held, rank, dying)
    ensures Listed(b) && Ranked(b, rank)
  {
    forall e | e in b.links ensures LinkOk(b, rank, e) {
    }
  }

  /** In balanced books one rank is as good as another. */
  lemma RerankedBalances(b: Books, held: multiset<NodeId>, rank: NodeId -> nat, rank': NodeId -> nat, dying: set<NodeId>)
    requires Balanced(b, held, rank, dying) && Ranked(b, rank')
    ensures Balanced(b, held, rank', dying)
  {
    forall e | e in b.links ensures LinkOk(b, rank', e) {
      assert LinkOk(b, rank, e);
    }
  }

  lemma RankedDescends(b: Books, rank: NodeId -> nat)
    requires Listed(b)
    ensures Ranked(b, rank) <==> Descends(Owners(b), rank)
  {
    if Descends(Owners(b), rank) {
      forall e | e in b.links && b.links[e].owner.Some? ensures rank(b.links[e].bs) < rank(b.links[e].owner.value) {
        assert b.links[e].bs in Owners(b)[b.links[e].owner.value];
      }
    }
  }

  lemma {:induction false} PathDescends(g: Digraph, rank: nat -> nat, p: seq<nat>)
    requires Descends(g, rank) && IsPath(g, p)
    ensures rank(p[|p| - 1]) <= rank(p[0])
    decreases |p|
  {
    if |p| > 1 {
      var q := p[..|p| - 1];
      assert IsPath(g, q);
      PathDescends(g, rank, q);
      assert p[|p| - 2 + 1] in g[p[|p| - 2]];
    }
  }

  lemma ReachDescends(g: Digraph, rank: nat -> nat, x: nat, y: nat)
    requires Descends(g, rank) && Reaches(g, x, y)
    ensures rank(y) <= rank(x)
  {
    var p :| Connects(g, p, x, y);
    PathDescends(g, rank, p);
  }

  lemma DownIsRank(g: Digraph)
    requires Closed(g) && Acyclic(g)
    ensures Descends(g, x => |Down(g, x)|)
  {
    forall x, y | x in g && y in g[x] ensures |Down(g, y)| < |Down(g, x)| {
      DownShrinks(g, x, y);
      Smaller(Down(g, y), Down(g, x));
    }
  }

  lemma Smaller(s: set<nat>, t: set<nat>)
    requires s < t
    ensures |s| < |t|
  {
    var x :| x in t && x !in s;
    assert |t| == |s + (t - s)| == |s| + |t - s|;
  }

  /** There are ranks exactly when no node is below itself. */
  lemma RanksIffAcyclic(b: Books)
    requires Listed(b)
    ensures (exists rank: NodeId -> nat :: Ranked(b, rank)) <==> Acyclic(Owners(b))
  {
    var g := Owners(b);
    if Acyclic(g) {
      DownIsRank(g);
      RankedDescends(b, x => |Down(g, x)|);
    }
    if rank: NodeId -> nat :| Ranked(b, rank) {
      RankedDescends(b, rank);
      forall x, y | x in g && y in g[x] ensures !Reaches(g, y, x) {
        if Reaches(g, y, x) {
          ReachDescends(g, rank, y, x);
        }
      }
    }
  }

  /** `to` leads to no owner of an edge in the list. */
  ghost predicate NoOwnerBelow(b: Books, to: NodeId, list: seq<EdgeId>) {
    forall e :: e in list && e in b.links && b.links[e].owner.Some? ==> !Reaches(Owners(b), to, b.links[e].owner.value)
  }

  /** The graph with the edges of the list also pointing to `to`. */
  ghost function Widened(b: Books, to: NodeId, list: seq<EdgeId>): (r: Digraph) {
    map n | n in b.refcnt ::
      Owners(b)[n] + if exists e :: e in list && e in b.links && b.links[e].owner == Some(n) then {to} else {}
  }

  lemma WidenedAcyclic(b: Books, to: NodeId, list: seq<EdgeId>)
    requires Listed(b) && Acyclic(Owners(b)) && to in b.refcnt && NoOwnerBelow(b, to, list)
    ensures Closed(Widened(b, to, list)) && Acyclic(Widened(b, to, list))
  {
    RedirectAcyclic(Owners(b), Widened(b, to, list), to);
  }

  lemma WidenedRanks(b: Books, from: NodeId, to: NodeId, list: seq<EdgeId>, rank: NodeId -> nat)
    requires Listed(b) && (forall e :: e in list ==> e in b.links && b.links[e].bs == from)
    requires Descends(Widened(b, to, list), rank)
    ensures Ranked(b, rank) && AllMayMove(b.links, rank, from, to, list)
  {
    var r := Widened(b, to, list);
    forall x, y | x in Owners(b) && y in Owners(b)[x] ensures rank(y) < rank(x) {
      assert y in r[x];
    }
    RankedDescends(b, rank);
    forall e | e in list ensures MayMove(b.links, rank, from, to, e) {
      if b.links[e].owner.Some? {
        assert to in r[b.links[e].owner.value];
      }
    }
  }

  /** The ranks that a replacement asks for exist exactly when no user that moves is below
      the new node, which is what `should_update_child` looks for. */
  lemma MayMoveIff(b: Books, from: NodeId, to: NodeId, list: seq<EdgeId>)
    requires Listed(b) && Acyclic(Owners(b)) && to in b.refcnt
    requires forall e :: e in list ==> e in b.links && b.links[e].bs == from
    ensures (exists rank: NodeId -> nat :: Ranked(b, rank) && AllMayMove(b.links, rank, from, to, list)) <==> NoOwnerBelow(b, to, list)
  {
    if NoOwnerBelow(b, to, list) {
      var r := Widened(b, to, list);
      WidenedAcyclic(b, to, list);
      DownIsRank(r);
      WidenedRanks(b, from, to, list, x => |Down(r, x)|);
    }
    if rank: NodeId -> nat :| Ranked(b, rank) && AllMayMove(b.links, rank, from, to, list) {
      RankedDescends(b, rank);
      forall e | e in list && b.links[e].owner.Some? ensures !Reaches(Owners(b), to, b.links[e].owner.value) {
        assert MayMove(b.links, rank, from, to, e);
        if Reaches(Owners(b), to, b.links[e].owner.value) {
          ReachDescends(Owners(b), rank, to, b.links[e].owner.value);
        }
      }
    }
  }

  /** What `Nodes.ReplaceNode` asks for can be had, for any balanced books, exactly when the
      new node leads to no owner of an edge that moves. */
  lemma ReplaceHasRank(b: Books, held: multiset<NodeId>, rank: NodeId -> nat, from: NodeId, to: NodeId, list: seq<EdgeId>)
    requires Balanced(b, held, rank, {}) && to in b.refcnt && forall e :: e in list ==> e in b.links && b.links[e].bs == from
    ensures (exists rank': NodeId -> nat :: Balanced(b, held, rank', {}) && AllMayMove(b.links, rank', from, to, list))
            <==> NoOwnerBelow(b, to, list)
  {
    BalancedIsRanked(b, held, rank, {});
    RanksIffAcyclic(b);
    MayMoveIff(b, from, to, list);
    if NoOwnerBelow(b, to, list) {
      var rank': NodeId -> nat :| Ranked(b, rank') && AllMayMove(b.links, rank', from, to, list);
      RerankedBalances(b, held, rank, rank', {});
    }
    if rank': NodeId -> nat :| Balanced(b, held, rank', {}) && AllMayMove(b.links, rank', from, to, list) {
      BalancedIsRanked(b, held, rank', {});
    }
  }
}
