/** Reference counts of block nodes (block.c): every edge of the graph and every outside
    holder owns one reference to its node. Whether permissions and AioContexts allow a change
    is an argument here. */
module BlockRefs {
  import opened Lists
  import opened BlockGraph

  datatype Link = Link(owner: Option<NodeId>, bs: NodeId)

  /** The live nodes with their counts, the edges, each node's list of child edges and its
      backing edge. */
  datatype Books = Books(refcnt: map<NodeId, nat>, links: map<EdgeId, Link>, children: map<NodeId, seq<EdgeId>>, backing: map<NodeId, EdgeId>)

  ghost function Users(links: map<EdgeId, Link>, n: NodeId): (r: set<EdgeId>) {
    set e | e in links && links[e].bs == n
  }

  ghost predicate LinkOk(b: Books, rank: NodeId -> nat, e: EdgeId)
    requires e in b.links
  {
    && b.links[e].bs in b.refcnt
    && (b.links[e].owner.Some? ==>
          var p := b.links[e].owner.value; p in b.children && e in b.children[p] && rank(b.links[e].bs) < rank(p))
  }

  ghost predicate EntryOk(b: Books, held: multiset<NodeId>, dying: set<NodeId>, n: NodeId)
    requires n in b.refcnt && n in b.children
  {
    && b.refcnt[n] == |Users(b.links, n)| + held[n]
    && (b.refcnt[n] > 0 || n in dying)
    && NoDups(b.children[n]) && (forall e :: e in b.children[n] ==> e in b.links && b.links[e].owner == Some(n))
    && (n in b.backing ==> b.backing[n] in b.children[n])
  }

  /** The books balance. `held` are the references outside the graph; `rank` shows that the
      graph has no loops; `dying` are nodes being closed. */
  ghost predicate Balanced(b: Books, held: multiset<NodeId>, rank: NodeId -> nat, dying: set<NodeId>) {
    && b.children.Keys == b.refcnt.Keys && b.backing.Keys <= b.refcnt.Keys
    && (forall e {:trigger LinkOk(b, rank, e)} :: e in b.links ==> LinkOk(b, rank, e))
    && (forall n {:trigger EntryOk(b, held, dying, n)} :: n in b.refcnt ==> EntryOk(b, held, dying, n))
    && (forall n :: n in held ==> n in b.refcnt)
    && (forall n :: n in dying ==> n in b.refcnt && b.refcnt[n] == 0)
  }

  /** What balanced books mean: a node with a user or an outside reference is live, and a
      live node has one. */
  lemma LiveMeansUsed(b: Books, held: multiset<NodeId>, rank: NodeId -> nat, n: NodeId)
    requires Balanced(b, held, rank, {})
    ensures n in b.refcnt <==> Users(b.links, n) != {} || n in held
    ensures n in b.refcnt ==> 0 < b.refcnt[n] == |Users(b.links, n)| + held[n]
  {
    if n in b.refcnt {
      assert EntryOk(b, held, {}, n);
    }
    if e :| e in Users(b.links, n) {
      assert LinkOk(b, rank, e);
    }
  }

  // ------------------------------------------------------------------ single entries

  /** `bdrv_detach_child`: the edge leaves both lists. */
  function Detached(b: Books, e: EdgeId): (r: Books)
    requires e in b.links
  {
    var p := b.links[e].owner;
    var children := if p.Some? && p.value in b.children then b.children[p.value := Without(b.children[p.value], e)] else b.children;
    var backing := if p.Some? && p.value in b.backing && b.backing[p.value] == e then b.backing - {p.value} else b.backing;
    Books(b.refcnt, b.links - {e}, children, backing)
  }

  /** A new edge, at the head of its owner's list. */
  function Attached(b: Books, e: EdgeId, link: Link): (r: Books) {
    var p := link.owner;
    b.(links := b.links[e := link],
       children := if p.Some? && p.value in b.children then b.children[p.value := [e] + b.children[p.value]] else b.children)
  }

  function Counted(b: Books, n: NodeId, delta: int): (r: Books)
    requires n in b.refcnt && 0 <= b.refcnt[n] + delta
  {
    b.(refcnt := b.refcnt[n := b.refcnt[n] + delta])
  }

  lemma UsersAfterDetach(links: map<EdgeId, Link>, e: EdgeId, n: NodeId)
    requires e in links
    ensures |Users(links - {e}, n)| == |Users(links, n)| - if links[e].bs == n then 1 else 0
  {
    if links[e].bs == n {
      assert Users(links - {e}, n) == Users(links, n) - {e};
    } else {
      assert Users(links - {e}, n) == Users(links, n);
    }
  }

  lemma UsersAfterAttach(links: map<EdgeId, Link>, e: EdgeId, link: Link, n: NodeId)
    requires e !in links
    ensures |Users(links[e := link], n)| == |Users(links, n)| + if link.bs == n then 1 else 0
  {
    if link.bs == n {
      assert Users(links[e := link], n) == Users(links, n) + {e};
    } else {
      assert Users(links[e := link], n) == Users(links, n);
    }
  }

  /** Detaching hands the reference of the edge to the caller. */
  lemma DetachBalances(b: Books, held: multiset<NodeId>, rank: NodeId -> nat, dying: set<NodeId>, e: EdgeId)
    requires Balanced(b, held, rank, dying) && e in b.links
    ensures Balanced(Detached(b, e), held + multiset{b.links[e].bs}, rank, dying)
  {
    var r, held' := Detached(b, e), held + multiset{b.links[e].bs};
    assert LinkOk(b, rank, e);
    forall d | d in r.links ensures LinkOk(r, rank, d) {
      assert LinkOk(b, rank, d);
    }
    forall n | n in r.refcnt ensures EntryOk(r, held', dying, n) {
      assert EntryOk(b, held, dying, n);
      UsersAfterDetach(b.links, e, n);
    }
  }

  /** Attaching takes the caller's reference. */
  lemma AttachBalances(b: Books, held: multiset<NodeId>, rank: NodeId -> nat, dying: set<NodeId>, e: EdgeId, link: Link)
    requires Balanced(b, held, rank, dying) && e !in b.links && link.bs in held
    requires link.owner.Some? ==> link.owner.value in b.refcnt && rank(link.bs) < rank(link.owner.value)
    ensures Balanced(Attached(b, e, link), held - multiset{link.bs}, rank, dying)
  {
    var r, held' := Attached(b, e, link), held - multiset{link.bs};
    forall d | d in r.links ensures LinkOk(r, rank, d) {
      if d != e {
        assert LinkOk(b, rank, d);
      }
    }
    forall n | n in r.refcnt ensures EntryOk(r, held', dying, n) {
      assert EntryOk(b, held, dying, n);
      UsersAfterAttach(b.links, e, link, n);
    }
  }

  /** Counting does not concern the edges. */
  lemma LinksKept(b: Books, r: Books, rank: NodeId -> nat)
    requires forall e {:trigger LinkOk(b, rank, e)} :: e in b.links ==> LinkOk(b, rank, e)
    requires r.links == b.links && r.children == b.children && r.refcnt.Keys == b.refcnt.Keys
    ensures forall e {:trigger LinkOk(r, rank, e)} :: e in r.links ==> LinkOk(r, rank, e)
  {
    forall e | e in r.links ensures LinkOk(r, rank, e) {
      assert LinkOk(b, rank, e);
    }
  }

  lemma RefBalances(b: Books, held: multiset<NodeId>, rank: NodeId -> nat, dying: set<NodeId>, n: NodeId)
    requires Balanced(b, held, rank, dying) && n in b.refcnt && n !in dying
    ensures Balanced(Counted(b, n, 1), held + multiset{n}, rank, dying)
  {
    var r, held' := Counted(b, n, 1), held + multiset{n};
    LinksKept(b, r, rank);
    forall m | m in r.refcnt ensures EntryOk(r, held', dying, m) {
      assert EntryOk(b, held, dying, m);
    }
  }

  /** Giving up a reference; a node without any more is on its way out. */
  lemma UnrefBalances(b: Books, held: multiset<NodeId>, rank: NodeId -> nat, dying: set<NodeId>, n: NodeId)
    requires Balanced(b, held, rank, dying) && n in held
    ensures n in b.refcnt && b.refcnt[n] > 0
    ensures var r := Counted(b, n, -1);
            Balanced(r, held - multiset{n}, rank, if r.refcnt[n] == 0 then dying + {n} else dying)
  {
    assert EntryOk(b, held, dying, n);
    if b.refcnt[n] == 1 {
      CountedDown(b, held, rank, dying, n, dying + {n});
    } else {
      CountedDown(b, held, rank, dying, n, dying);
    }
  }

  lemma CountedDown(b: Books, held: multiset<NodeId>, rank: NodeId -> nat, dying: set<NodeId>, n: NodeId, dying': set<NodeId>)
    requires Balanced(b, held, rank, dying) && n in held && n in b.refcnt && b.refcnt[n] > 0
    requires dying' == if b.refcnt[n] == 1 then dying + {n} else dying
    ensures Balanced(Counted(b, n, -1), held - multiset{n}, rank, dying')
  {
    var r, held' := Counted(b, n, -1), held - multiset{n};
    LinksKept(b, r, rank);
    forall m | m in r.refcnt ensures EntryOk(r, held', dying', m) {
      assert EntryOk(b, held, dying, m);
      UnrefEntry(b, held, dying, n, m);
    }
  }

  lemma UnrefEntry(b: Books, held: multiset<NodeId>, dying: set<NodeId>, n: NodeId, m: NodeId)
    requires n in b.refcnt && m in b.refcnt && m in b.children && n in held && b.refcnt[n] > 0 && EntryOk(b, held, dying, m)
    ensures var r := Counted(b, n, -1);
            EntryOk(r, held - multiset{n}, if r.refcnt[n] == 0 then dying + {n} else dying, m)
  {
  }

  function Removed(b: Books, n: NodeId): (r: Books) {
    b.(refcnt := b.refcnt - {n}, children := b.children - {n}, backing := b.backing - {n})
  }

  /** A closed node without references leaves the books. */
  lemma RemoveBalances(b: Books, held: multiset<NodeId>, rank: NodeId -> nat, dying: set<NodeId>, n: NodeId)
    requires Balanced(b, held, rank, dying) && n in b.refcnt && b.refcnt[n] == 0 && b.children[n] == []
    ensures Balanced(Removed(b, n), held, rank, dying - {n})
  {
    assert EntryOk(b, held, dying, n);
    var r := Removed(b, n);
    forall e | e in r.links ensures LinkOk(r, rank, e) {
      assert LinkOk(b, rank, e);
      assert e in Users(b.links, b.links[e].bs);
    }
    forall m | m in r.refcnt ensures EntryOk(r, held, dying - {n}, m) {
      assert EntryOk(b, held, dying, m);
    }
  }

  // ------------------------------------------------------------------ the operations

  /** What dropping a reference to a node of rank `k` leaves alone: everything above it. */
  ghost predicate Above(b: Books, b': Books, rank: NodeId -> nat, k: nat) {
    && b'.refcnt.Keys <= b.refcnt.Keys && b'.links.Keys <= b.links.Keys
    && (forall e :: e in b'.links ==> b'.links[e] == b.links[e])
    && (forall e :: e in b.links && (b.links[e].owner.None? || rank(b.links[e].owner.value) > k) ==> e in b'.links)
    && (forall n :: n in b.refcnt && rank(n) > k ==>
          n in b'.refcnt && b'.refcnt[n] == b.refcnt[n]
          && (n in b.children <==> n in b'.children) && (n in b.children ==> b'.children[n] == b.children[n])
          && (n in b.backing <==> n in b'.backing) && (n in b.backing ==> b'.backing[n] == b.backing[n]))
  }

  lemma AboveTrans(b: Books, b1: Books, b2: Books, rank: NodeId -> nat, k: nat)
    requires Above(b, b1, rank, k) && Above(b1, b2, rank, k)
    ensures Above(b, b2, rank, k)
  {
  }

  lemma AboveRemoved(b: Books, b1: Books, rank: NodeId -> nat, n: NodeId)
    requires Above(b, b1, rank, rank(n))
    ensures Above(b, Removed(b1, n), rank, rank(n))
  {
  }

  /** Dropping an edge of a node and the reference it held leaves alone what is above the node. */
  lemma AboveChild(b: Books, e: EdgeId, b2: Books, rank: NodeId -> nat, p: NodeId)
    requires e in b.links && b.links[e].owner == Some(p) && rank(b.links[e].bs) < rank(p)
    requires Above(Detached(b, e), b2, rank, rank(b.links[e].bs))
    ensures Above(b, b2, rank, rank(p))
  {
  }

  class Nodes {
    var books: Books
    /** The references held outside the graph. */
    ghost var held: multiset<NodeId>

    ghost predicate Ok(rank: NodeId -> nat, dying: set<NodeId>)
      reads this
    {
      Balanced(books, held, rank, dying)
    }

    constructor ()
      ensures Balanced(books, held, n => n, {}) && books.refcnt == map[]
    {
      books, held := Books(map[], map[], map[], map[]), multiset{};
    }

    /** A new node; the caller has the only reference. */
    method New(n: NodeId, ghost rank: NodeId -> nat)
      requires Ok(rank, {}) && n !in books.refcnt
      modifies this
      ensures Ok(rank, {}) && held == old(held) + multiset{n}
      ensures books == old(books).(refcnt := old(books).refcnt[n := 1], children := old(books).children[n := []])
    {
      NewBalances(books, held, rank, n);
      books := books.(refcnt := books.refcnt[n := 1], children := books.children[n := []]);
      held := held + multiset{n};
    }

    /** `bdrv_ref`. */
    method Ref(n: NodeId, ghost rank: NodeId -> nat)
      requires Ok(rank, {}) && n in books.refcnt
      modifies this
      ensures Ok(rank, {}) && held == old(held) + multiset{n} && books == Counted(old(books), n, 1)
    {
      RefBalances(books, held, rank, {}, n);
      books := Counted(books, n, 1);
      held := held + multiset{n};
    }

    /** `bdrv_unref`: the node is deleted with its last reference. */
    method Unref(n: NodeId, ghost rank: NodeId -> nat, ghost dying: set<NodeId>)
      requires Ok(rank, dying) && n in held
      modifies this
      ensures Ok(rank, dying) && held == old(held) - multiset{n} && Above(old(books), books, rank, rank(n))
      ensures n in old(books).refcnt && (old(books).refcnt[n] > 1 ==> books == Counted(old(books), n, -1))
      decreases books.links.Keys, 2
    {
      UnrefBalances(books, held, rank, dying, n);
      ghost var before := books;
      books := Counted(books, n, -1);
      held := held - multiset{n};
      assert Above(before, books, rank, rank(n));
      if books.refcnt[n] == 0 {
        ghost var counted := books;
        Delete(n, rank, dying);
        AboveTrans(before, counted, books, rank, rank(n));
      }
    }

    /** `bdrv_delete`. */
    method Delete(n: NodeId, ghost rank: NodeId -> nat, ghost dying: set<NodeId>)
      requires Ok(rank, dying + {n}) && n !in dying
      modifies this
      ensures Ok(rank, dying) && held == old(held) && n !in books.refcnt
      ensures Above(old(books), books, rank, rank(n))
      decreases books.links.Keys, 1
    {
      Close(n, rank, dying + {n});
      RemoveBalances(books, held, rank, dying + {n}, n);
      AboveRemoved(old(books), books, rank, n);
      books := Removed(books, n);
      assert dying + {n} - {n} == dying;
    }

    /** `bdrv_close` as far as references go: all the children are unreferenced. */
    method Close(n: NodeId, ghost rank: NodeId -> nat, ghost dying: set<NodeId>)
      requires Ok(rank, dying) && n in dying
      modifies this
      ensures Ok(rank, dying) && held == old(held) && books.children[n] == []
      ensures Above(old(books), books, rank, rank(n))
      decreases books.links.Keys, 0, 2
    {
      while books.children[n] != []
        invariant Ok(rank, dying) && held == old(held)
        invariant Above(old(books), books, rank, rank(n))
        decreases |books.links|
      {
        ghost var before := books;
        CloseChild(n, rank, dying);
        AboveTrans(old(books), before, books, rank, rank(n));
      }
    }

    /** One round of the loop of `bdrv_close` over the children. */
    method CloseChild(n: NodeId, ghost rank: NodeId -> nat, ghost dying: set<NodeId>)
      requires Ok(rank, dying) && n in dying && books.children[n] != []
      modifies this
      ensures Ok(rank, dying) && held == old(held) && |books.links| < |old(books).links|
      ensures Above(old(books), books, rank, rank(n))
      decreases books.links.Keys, 0, 1
    {
      var e := books.children[n][0];
      ghost var before := books;
      assert EntryOk(books, held, dying, n);
      assert e in books.children[n];
      assert LinkOk(books, rank, e);
      UnrefChild(e, rank, dying);
      AboveChild(before, e, books, rank, n);
      Fewer(books.links.Keys, before.links.Keys, e);
    }

    /** `bdrv_root_unref_child`, and `bdrv_unref_child` as far as references go. */
    method UnrefChild(e: EdgeId, ghost rank: NodeId -> nat, ghost dying: set<NodeId>)
      requires Ok(rank, dying) && e in books.links
      modifies this
      ensures Ok(rank, dying) && held == old(held) && e !in books.links
      ensures Above(Detached(old(books), e), books, rank, rank(old(books).links[e].bs))
      decreases books.links.Keys, 0, 0
    {
      var n := books.links[e].bs;
      DetachBalances(books, held, rank, dying, e);
      books := Detached(books, e);
      held := held + multiset{n};
      Unref(n, rank, dying);
      assert held == old(held);
    }

    /** `bdrv_root_attach_child` and, for an edge with an owner, `bdrv_attach_child`: the
        caller's reference goes to the edge, or is dropped on failure. */
    method AttachChild(e: EdgeId, link: Link, granted: bool, ghost rank: NodeId -> nat)
      requires Ok(rank, {}) && e !in books.links && link.bs in held
      requires link.owner.Some? ==> link.owner.value in books.refcnt && rank(link.bs) < rank(link.owner.value)
      modifies this
      ensures Ok(rank, {}) && held == old(held) - multiset{link.bs}
      ensures granted ==> books == Attached(old(books), e, link)
      ensures !granted ==> Above(old(books), books, rank, rank(link.bs))
    {
      if !granted {
        Unref(link.bs, rank, {});
        return;
      }
      AttachBalances(books, held, rank, {}, e, link);
      books := Attached(books, e, link);
      held := held - multiset{link.bs};
    }

    /** `bdrv_set_backing_hd`. `e` names the new edge; `frozen` and `granted` are what the
        frozen-chain and permission checks say. */
    method SetBackingHd(bs: NodeId, hd: Option<NodeId>, e: EdgeId, frozen: bool, granted: bool, ghost rank: NodeId -> nat) returns (ok: bool)
      requires Ok(rank, {}) && bs in books.refcnt
      requires hd.Some? ==> e !in books.links && hd.value in books.refcnt && rank(hd.value) < rank(bs)
      modifies this
      ensures Ok(rank, {}) && held == old(held) && bs in books.refcnt
      ensures ok <==> !frozen && (hd.Some? ==> granted)
      ensures frozen ==> books == old(books)
      ensures !frozen ==> (bs in books.backing <==> hd.Some? && granted)
      ensures ok && hd.Some? ==> books.backing[bs] == e && e in books.links && books.links[e] == Link(Some(bs), hd.value)
      ensures KeptAbove(old(books), books, rank, rank(bs))
    {
      if frozen {
        return false;
      }
      if hd.Some? {
        Ref(hd.value, rank);
      }
      if bs in books.backing {
        DropBacking(bs, rank);
      }
      if hd.None? {
        return true;
      }
      ghost var dropped := books;
      AttachBacking(bs, hd.value, e, granted, rank);
      KeptTrans(old(books), dropped, books, rank, rank(bs));
      assert held == old(held);
      ok := granted;
    }

    /** The step of `bdrv_set_backing_hd` that attaches the new backing file. */
    method AttachBacking(bs: NodeId, hd: NodeId, e: EdgeId, granted: bool, ghost rank: NodeId -> nat)
      requires Ok(rank, {}) && bs in books.refcnt && bs !in books.backing && e !in books.links && hd in held && rank(hd) < rank(bs)
      modifies this
      ensures Ok(rank, {}) && held == old(held) - multiset{hd} && bs in books.refcnt
      ensures bs in books.backing <==> granted
      ensures granted ==> books.backing[bs] == e && e in books.links && books.links[e] == Link(Some(bs), hd)
      ensures KeptAbove(old(books), books, rank, rank(bs))
    {
      AttachChild(e, Link(Some(bs), hd), granted, rank);
      if granted {
        BackingSet(books, held, rank, bs, e);
        books := books.(backing := books.backing[bs := e]);
      }
    }

    /** The step of `bdrv_set_backing_hd` that gives up the old backing file. */
    method DropBacking(bs: NodeId, ghost rank: NodeId -> nat)
      requires Ok(rank, {}) && bs in books.refcnt && bs in books.backing
      modifies this
      ensures Ok(rank, {}) && held == old(held) && bs in books.refcnt && bs !in books.backing
      ensures KeptAbove(old(books), books, rank, rank(bs)) && books.links.Keys <= old(books).links.Keys
    {
      assert EntryOk(books, held, {}, bs);
      var d := books.backing[bs];
      assert LinkOk(books, rank, d);
      UnrefChild(d, rank, {});
    }

    /** `bdrv_replace_node`, for the list of edges that have to move. */
    method ReplaceNode(from: NodeId, to: NodeId, list: seq<EdgeId>, granted: bool, ghost rank: NodeId -> nat)
      requires Ok(rank, {}) && from in books.refcnt && to in books.refcnt && NoDups(list)
      requires AllMayMove(books.links, rank, from, to, list)
      modifies this
      ensures Ok(rank, {}) && held == old(held)
      ensures !granted ==> books == old(books)
      ensures granted ==> Progress(old(books).links, books.links, list, |list|, to)
    {
      if !granted {
        RefAndUnref(from, rank);
        return;
      }
      Ref(from, rank);
      MoveUsers(from, to, list, rank);
      ghost var moved := books;
      Unref(from, rank, {});
      StillMoved(old(books), old(held), moved, books, rank, from, to, list);
      assert held == old(held);
    }

    /** `bdrv_replace_node` when a check fails: only the reference around it. */
    method RefAndUnref(n: NodeId, ghost rank: NodeId -> nat)
      requires Ok(rank, {}) && n in books.refcnt
      modifies this
      ensures books == old(books) && held == old(held)
    {
      assert EntryOk(books, held, {}, n);
      Ref(n, rank);
      Unref(n, rank, {});
      UpAndDown(old(books), old(held), n);
    }

    /** The loop of `bdrv_replace_node`. The caller's own reference keeps `from` alive. */
    method MoveUsers(from: NodeId, to: NodeId, list: seq<EdgeId>, ghost rank: NodeId -> nat)
      requires Ok(rank, {}) && from in held && to in books.refcnt && NoDups(list)
      requires AllMayMove(books.links, rank, from, to, list)
      modifies this
      ensures Ok(rank, {}) && held == old(held) && Progress(old(books).links, books.links, list, |list|, to)
    {
      var i := 0;
      NothingMoved(books.links, rank, from, to, list);
      while i < |list|
        invariant 0 <= i <= |list| && Ok(rank, {}) && held == old(held) && to in books.refcnt
        invariant Progress(old(books).links, books.links, list, i, to)
      {
        assert MayMove(old(books).links, rank, from, to, list[i]);
        ghost var before := books;
        MoveUser(from, to, list[i], rank);
        NextMoved(old(books).links, before.links, books.links, list, i, to);
        i := i + 1;
      }
    }

    /** One round: take a reference to `to`, move the edge, drop the one to `from`. */
    method MoveUser(from: NodeId, to: NodeId, e: EdgeId, ghost rank: NodeId -> nat)
      requires Ok(rank, {}) && from in held && to in books.refcnt && MayMove(books.links, rank, from, to, e)
      modifies this
      ensures Ok(rank, {}) && held == old(held) && books.refcnt.Keys == old(books).refcnt.Keys
      ensures books.links == old(books).links[e := old(books).links[e].(bs := to)]
    {
      Ref(to, rank);
      MoveBalances(books, held, rank, e, to);
      books := Pointed(books, e, to);
      held := held - multiset{to} + multiset{from};
      HeldTwice(books, held, rank, from);
      Unref(from, rank, {});
      Exchanged(old(held), from, to);
    }

    /** `bdrv_append`: the caller's reference to the new node is used up in every case. */
    method Append(bsNew: NodeId, bsTop: NodeId, e: EdgeId, list: seq<EdgeId>, frozen: bool, backingOk: bool, replaceOk: bool, ghost rank: NodeId -> nat)
      returns (ok: bool)
      requires Ok(rank, {}) && bsNew in held && bsTop in books.refcnt && rank(bsTop) < rank(bsNew)
      requires e !in books.links && e !in list && NoDups(list)
      requires AllMayMove(books.links, rank, bsTop, bsNew, list)
      modifies this
      ensures Ok(rank, {}) && held == old(held) - multiset{bsNew}
      ensures ok <==> !frozen && backingOk && replaceOk
    {
      ok := SetBackingHd(bsNew, Some(bsTop), e, frozen, backingOk, rank);
      if ok {
        KeptMayMove(old(books), books, rank, bsTop, bsNew, list);
        assert LinkOk(books, rank, e);
        ReplaceNode(bsTop, bsNew, list, replaceOk, rank);
        if !replaceOk {
          var undone := SetBackingHd(bsNew, None, e, false, true, rank);
          ok := false;
        }
      }
      Unref(bsNew, rank, {});
    }
  }

  /** The edge uses `from` and may use `to` without closing a loop. */
  ghost predicate MayMove(links: map<EdgeId, Link>, rank: NodeId -> nat, from: NodeId, to: NodeId, e: EdgeId) {
    e in links && links[e].bs == from && (links[e].owner.Some? ==> rank(to) < rank(links[e].owner.value))
  }

  ghost predicate AllMayMove(links: map<EdgeId, Link>, rank: NodeId -> nat, from: NodeId, to: NodeId, list: seq<EdgeId>) {
    forall e {:trigger MayMove(links, rank, from, to, e)} :: e in list ==> MayMove(links, rank, from, to, e)
  }

  /** The first `i` edges of the list point to `to`, the others are as they were. */
  ghost predicate Progress(links: map<EdgeId, Link>, links': map<EdgeId, Link>, list: seq<EdgeId>, i: nat, to: NodeId) {
    forall k :: 0 <= k < |list| ==>
      && list[k] in links && list[k] in links'
      && links'[list[k]] == if k < i then links[list[k]].(bs := to) else links[list[k]]
  }

  lemma NothingMoved(links: map<EdgeId, Link>, rank: NodeId -> nat, from: NodeId, to: NodeId, list: seq<EdgeId>)
    requires AllMayMove(links, rank, from, to, list)
    ensures Progress(links, links, list, 0, to)
  {
    forall k | 0 <= k < |list| ensures list[k] in links {
      assert MayMove(links, rank, from, to, list[k]);
    }
  }

  lemma NextMoved(links: map<EdgeId, Link>, links1: map<EdgeId, Link>, links2: map<EdgeId, Link>, list: seq<EdgeId>, i: nat, to: NodeId)
    requires i < |list| && NoDups(list) && Progress(links, links1, list, i, to)
    requires links2 == links1[list[i] := links1[list[i]].(bs := to)]
    ensures Progress(links, links2, list, i + 1, to)
  {
  }

  /** Dropping the reference to `from` at the end does not disturb the moved edges. */
  lemma StillMoved(b: Books, held: multiset<NodeId>, b1: Books, b2: Books, rank: NodeId -> nat, from: NodeId, to: NodeId, list: seq<EdgeId>)
    requires Balanced(b, held, rank, {}) && AllMayMove(b.links, rank, from, to, list)
    requires Progress(b.links, b1.links, list, |list|, to) && Above(b1, b2, rank, rank(from))
    ensures Progress(b.links, b2.links, list, |list|, to)
  {
    forall k | 0 <= k < |list| ensures list[k] in b2.links && b2.links[list[k]] == b1.links[list[k]] {
      assert MayMove(b.links, rank, from, to, list[k]);
      assert LinkOk(b, rank, list[k]);
    }
  }

  /** Edges held from above rank `k` are still there. */
  ghost predicate KeptAbove(b: Books, b': Books, rank: NodeId -> nat, k: nat) {
    forall e :: e in b.links && (b.links[e].owner.None? || rank(b.links[e].owner.value) > k) ==> e in b'.links && b'.links[e] == b.links[e]
  }

  lemma KeptTrans(b: Books, b1: Books, b2: Books, rank: NodeId -> nat, k: nat)
    requires KeptAbove(b, b1, rank, k) && KeptAbove(b1, b2, rank, k)
    ensures KeptAbove(b, b2, rank, k)
  {
  }

  lemma KeptMayMove(b: Books, b': Books, rank: NodeId -> nat, from: NodeId, to: NodeId, list: seq<EdgeId>)
    requires AllMayMove(b.links, rank, from, to, list) && KeptAbove(b, b', rank, rank(to))
    ensures AllMayMove(b'.links, rank, from, to, list)
  {
    forall e | e in list ensures MayMove(b'.links, rank, from, to, e) {
      assert MayMove(b.links, rank, from, to, e);
    }
  }

  lemma BackingSet(b: Books, held: multiset<NodeId>, rank: NodeId -> nat, bs: NodeId, e: EdgeId)
    requires Balanced(b, held, rank, {}) && bs in b.refcnt && e in b.children[bs]
    ensures Balanced(b.(backing := b.backing[bs := e]), held, rank, {})
  {
    var r := b.(backing := b.backing[bs := e]);
    forall d | d in r.links ensures LinkOk(r, rank, d) {
      assert LinkOk(b, rank, d);
    }
    forall n | n in r.refcnt ensures EntryOk(r, held, {}, n) {
      assert EntryOk(b, held, {}, n);
    }
  }

  lemma Exchanged(held: multiset<NodeId>, from: NodeId, to: NodeId)
    ensures held + multiset{to} - multiset{to} + multiset{from} - multiset{from} == held
  {
  }

  lemma UpAndDown(b: Books, held: multiset<NodeId>, n: NodeId)
    requires n in b.refcnt
    ensures Counted(Counted(b, n, 1), n, -1) == b && held + multiset{n} - multiset{n} == held
  {
    assert Counted(Counted(b, n, 1), n, -1).refcnt == b.refcnt;
  }

  lemma HeldTwice(b: Books, held: multiset<NodeId>, rank: NodeId -> nat, n: NodeId)
    requires Balanced(b, held, rank, {}) && held[n] > 1
    ensures n in b.refcnt && b.refcnt[n] > 1
  {
    assert n in held && EntryOk(b, held, {}, n);
  }

  lemma MoveBalances(b: Books, held: multiset<NodeId>, rank: NodeId -> nat, e: EdgeId, to: NodeId)
    requires Balanced(b, held, rank, {}) && e in b.links && to in held && to in b.refcnt
    requires b.links[e].owner.Some? ==> rank(to) < rank(b.links[e].owner.value)
    ensures Balanced(Pointed(b, e, to), held - multiset{to} + multiset{b.links[e].bs}, rank, {})
  {
    var from, r := b.links[e].bs, Pointed(b, e, to);
    var held' := held - multiset{to} + multiset{from};
    assert LinkOk(b, rank, e);
    forall d | d in r.links ensures LinkOk(r, rank, d) {
      assert LinkOk(b, rank, d);
    }
    forall n | n in r.refcnt ensures EntryOk(r, held', {}, n) {
      assert EntryOk(b, held, {}, n);
      UsersAfterMove(b.links, e, to, n);
    }
  }

  lemma UsersAfterMove(links: map<EdgeId, Link>, e: EdgeId, to: NodeId, n: NodeId)
    requires e in links
    ensures |Users(links[e := links[e].(bs := to)], n)| == |Users(links, n)| - (if links[e].bs == n then 1 else 0) + if to == n then 1 else 0
  {
    UsersAfterDetach(links, e, n);
    UsersAfterAttach(links - {e}, e, links[e].(bs := to), n);
    assert (links - {e})[e := links[e].(bs := to)] == links[e := links[e].(bs := to)];
  }

  /** `bdrv_replace_child_noperm`: the edge points to another node. */
  function Pointed(b: Books, e: EdgeId, to: NodeId): Books
    requires e in b.links
  {
    b.(links := b.links[e := b.links[e].(bs := to)])
  }

  lemma Fewer(a: set<EdgeId>, b: set<EdgeId>, e: EdgeId)
    requires a <= b && e in b && e !in a
    ensures |a| < |b|
  {
    SubsetSize(a, b - {e});
  }

  lemma {:induction false} SubsetSize(a: set<EdgeId>, b: set<EdgeId>)
    requires a <= b
    ensures |a| <= |b|
  {
    if x :| x in a {
      SubsetSize(a - {x}, b - {x});
    }
  }

  lemma NewBalances(b: Books, held: multiset<NodeId>, rank: NodeId -> nat, n: NodeId)
    requires Balanced(b, held, rank, {}) && n !in b.refcnt
    ensures Balanced(b.(refcnt := b.refcnt[n := 1], children := b.children[n := []]), held + multiset{n}, rank, {})
  {
    var r, held' := b.(refcnt := b.refcnt[n := 1], children := b.children[n := []]), held + multiset{n};
    forall e | e in r.links ensures LinkOk(r, rank, e) {
      assert LinkOk(b, rank, e);
    }
    LiveMeansUsed(b, held, rank, n);
    forall m | m in r.refcnt ensures EntryOk(r, held', {}, m) {
      if m != n {
        assert EntryOk(b, held, {}, m);
      }
    }
  }
}
