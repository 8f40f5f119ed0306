/** `qemu-img rebase`: the copy loop that makes an overlay independent of its old backing
    file where that differs from the new one. A missing backing file has no bytes. */
module ImgRebase {
  import opened ImgBytes

  datatype Cow = Cow(data: seq<Byte>, alloc: seq<bool>)

  predicate Valid(o: Cow) {
    |o.alloc| == |o.data|
  }

  function ByteAt(o: Cow, backing: seq<Byte>, k: nat): Byte
    requires Valid(o) && k < |o.data|
  {
    if o.alloc[k] then o.data[k] else At(backing, k)
  }

  /** What the overlay shows on top of a backing file. */
  function View(o: Cow, backing: seq<Byte>): (r: seq<Byte>)
    requires Valid(o)
    ensures |r| == |o.data| && forall k :: 0 <= k < |r| ==> r[k] == ByteAt(o, backing, k)
  {
    seq(|o.data|, (k: nat) requires k < |o.data| => ByteAt(o, backing, k))
  }

  /** Byte `k` shares a cluster with some byte of `lo..hi`. */
  predicate Touched(cluster: nat, lo: nat, hi: nat, k: nat)
    requires cluster > 0
  {
    lo < hi && lo / cluster <= k / cluster <= (hi - 1) / cluster
  }

  /** A write to the overlay: clusters that were not allocated are filled up from the backing
      file. */
  function Written(o: Cow, backing: seq<Byte>, cluster: nat, at: nat, bytes: seq<Byte>): (r: Cow)
    requires Valid(o) && cluster > 0 && at + |bytes| <= |o.data|
    ensures Valid(r) && |r.data| == |o.data|
  {
    Cow(seq(|o.data|, (k: nat) requires k < |o.data| =>
          if at <= k < at + |bytes| then bytes[k - at]
          else if Touched(cluster, at, at + |bytes|, k) then ByteAt(o, backing, k) else o.data[k]),
        seq(|o.data|, (k: nat) requires k < |o.data| => Touched(cluster, at, at + |bytes|, k) || o.alloc[k]))
  }

  lemma TouchedInside(cluster: nat, lo: nat, hi: nat, k: nat)
    requires cluster > 0 && lo <= k < hi
    ensures Touched(cluster, lo, hi, k)
  {
    DivMonotone(lo, k, cluster);
    DivMonotone(k, hi - 1, cluster);
  }

  lemma DivMonotone(a: nat, b: nat, d: nat)
    requires d > 0 && a <= b
    ensures a / d <= b / d
  {
    var k := a / d - b / d;
    assert k * d == a / d * d - b / d * d;
    if k >= 1 {
      AtLeastOne(k, d);
    }
  }

  lemma AtLeastOne(k: nat, d: nat)
    requires k >= 1
    ensures k * d >= d
  {
  }

  /** Up to `hi`, the overlay shows the same on top of both backing files. */
  ghost predicate Moved(o: Cow, base: seq<Byte>, next: seq<Byte>, hi: nat) {
    Valid(o) && hi <= |o.data| && forall k :: 0 <= k < hi ==> ByteAt(o, next, k) == ByteAt(o, base, k)
  }

  /** Writing what the overlay shows anyway leaves what it shows unchanged, and detaches the
      written bytes from the backing file. */
  lemma WriteKeepsView(o: Cow, base: seq<Byte>, next: seq<Byte>, cluster: nat, at: nat, bytes: seq<Byte>)
    requires Valid(o) && cluster > 0 && at + |bytes| <= |o.data| && bytes == View(o, base)[at..at + |bytes|]
    ensures var r := Written(o, base, cluster, at, bytes);
            && View(r, base) == View(o, base)
            && (Moved(o, base, next, at) ==> Moved(r, base, next, at + |bytes|))
  {
    var r := Written(o, base, cluster, at, bytes);
    forall k | 0 <= k < |o.data|
      ensures ByteAt(r, base, k) == ByteAt(o, base, k)
      ensures at <= k < at + |bytes| ==> r.alloc[k]
    {
      if at <= k < at + |bytes| {
        TouchedInside(cluster, at, at + |bytes|, k);
        assert bytes[k - at] == View(o, base)[k];
      }
    }
    if Moved(o, base, next, at) {
      forall k | 0 <= k < at + |bytes| ensures ByteAt(r, next, k) == ByteAt(r, base, k) {
      }
    }
  }

  /** Where the bytes of the backing files agree or the overlay has its own, nothing needs to
      be done. */
  lemma SkipKeepsMoved(o: Cow, base: seq<Byte>, next: seq<Byte>, lo: nat, hi: nat)
    requires Moved(o, base, next, lo) && lo <= hi <= |o.data|
    requires forall k :: lo <= k < hi ==> o.alloc[k] || At(base, k) == At(next, k)
    ensures Moved(o, base, next, hi)
  {
  }

  /** How far the flag at `at` stays the same, within `n` bytes. */
  method RunAt(flags: seq<bool>, at: nat, n: nat) returns (ret: bool, pnum: nat)
    requires 0 < n && at + n <= |flags|
    ensures 0 < pnum <= n && forall k :: at <= k < at + pnum ==> flags[k] == ret
  {
    ret, pnum := flags[at], 1;
    while pnum < n && flags[at + pnum] == ret
      invariant 0 < pnum <= n && forall k :: at <= k < at + pnum ==> flags[k] == ret
    {
      pnum := pnum + 1;
    }
  }

  /** Reading `n` bytes of a backing file that may be shorter: zeros behind its end, and no
      request across it. */
  method ReadBacking(backing: seq<Byte>, offset: nat, n: nat) returns (buf: seq<Byte>)
    requires 0 < n
    ensures 0 < |buf| <= n && forall k :: 0 <= k < |buf| ==> buf[k] == At(backing, offset + k)
  {
    if offset >= |backing| {
      return seq(n, i => 0);
    }
    return backing[offset..offset + Min(n, |backing| - offset)];
  }

  /** The outside world of a rebase: the bytes changed between the new backing file and the
      old one when the new one is part of the old chain; which metadata queries and reads
      succeed; and how many bytes of a write get through. */
  datatype World = World(prefixChain: bool, changed: seq<bool>, metaOk: nat -> bool, readOk: nat -> bool, through: nat -> nat)

  ghost predicate Truthful(w: World, base: seq<Byte>, next: seq<Byte>, size: nat) {
    w.prefixChain ==> |w.changed| == size && forall k :: 0 <= k < size && !w.changed[k] ==> At(base, k) == At(next, k)
  }

  ghost predicate NoErrors(w: World) {
    && (forall k: nat {:trigger w.metaOk(k)} :: w.metaOk(k)) && (forall k: nat {:trigger w.readOk(k)} :: w.readOk(k))
    && (forall k: nat {:trigger w.through(k)} :: IO_BUF <= w.through(k))
  }

  class Overlay {
    const cluster: nat
    const base: seq<Byte>
    var cow: Cow
    /** What the overlay showed on top of the old backing file after each write. */
    ghost var history: seq<seq<Byte>>

    ghost predicate Ok()
      reads this
    {
      cluster > 0 && Valid(cow)
    }

    /** The overlay shows `view` on top of the old backing file, and has done so since the
        history was `since` long. */
    ghost predicate Shows(view: seq<Byte>, since: nat)
      reads this
    {
      Ok() && View(cow, base) == view && since <= |history| && forall i :: since <= i < |history| ==> history[i] == view
    }

    constructor (cluster: nat, base: seq<Byte>, cow: Cow)
      requires cluster > 0 && Valid(cow)
      ensures this.cluster == cluster && this.base == base && this.cow == cow && history == [] && Ok()
    {
      this.cluster, this.base, this.cow, this.history := cluster, base, cow, [];
    }

    /** `blk_pwrite`; a failing one gets only `through` bytes across. */
    method Write(at: nat, bytes: seq<Byte>, through: nat) returns (ok: bool)
      requires Ok() && at + |bytes| <= |cow.data|
      modifies this
      ensures ok <==> |bytes| <= through
      ensures cow == Written(old(cow), base, cluster, at, bytes[..Min(|bytes|, through)])
      ensures Valid(cow) && history == old(history) + [View(cow, base)]
    {
      cow := Written(cow, base, cluster, at, bytes[..Min(|bytes|, through)]);
      history := history + [View(cow, base)];
      ok := |bytes| <= through;
    }

    /** The inner loop of the rebase: write the sectors in which the backing files differ. */
    method CopyDifferences(w: World, next: seq<Byte>, offset: nat, bufOld: seq<Byte>, bufNew: seq<Byte>, ghost view: seq<Byte>, ghost since: nat)
      returns (ok: bool)
      requires Shows(view, since) && Moved(cow, base, next, offset)
      requires 0 < |bufOld| == |bufNew| <= IO_BUF && offset + |bufOld| <= |view| && bufOld == view[offset..offset + |bufOld|]
      requires forall k :: 0 <= k < |bufOld| ==> bufOld[k] == At(base, offset + k) && bufNew[k] == At(next, offset + k)
      modifies this
      ensures Shows(view, since) && |cow.data| == old(|cow.data|)
      ensures ok ==> Moved(cow, base, next, offset + |bufOld|)
      ensures NoErrors(w) ==> ok
    {
      var written, n := 0, |bufOld|;
      while written < n
        invariant 0 <= written <= n && Shows(view, since) && |cow.data| == old(|cow.data|)
        invariant Moved(cow, base, next, offset + written)
      {
        var differ, pnum := CompareBuffers(bufOld[written..], bufNew[written..]);
        if differ {
          var bytes := bufOld[written..written + pnum];
          ok := WriteBack(w, next, offset + written, bytes, view, since);
          if !ok {
            return;
          }
        } else {
          forall k | offset + written <= k < offset + written + pnum ensures At(base, k) == At(next, k) {
            var i := k - offset - written;
            assert bufOld[written..][..pnum][i] == bufNew[written..][..pnum][i];
          }
          SkipKeepsMoved(cow, base, next, offset + written, offset + written + pnum);
        }
        written := written + pnum;
      }
      ok := true;
    }

    /** One write of the inner loop. */
    method WriteBack(w: World, next: seq<Byte>, at: nat, bytes: seq<Byte>, ghost view: seq<Byte>, ghost since: nat) returns (ok: bool)
      requires Shows(view, since) && Moved(cow, base, next, at)
      requires |bytes| <= IO_BUF && at + |bytes| <= |view| && bytes == view[at..at + |bytes|]
      modifies this
      ensures Shows(view, since) && |cow.data| == old(|cow.data|)
      ensures ok ==> Moved(cow, base, next, at + |bytes|)
      ensures NoErrors(w) ==> ok
    {
      ghost var part := bytes[..Min(|bytes|, w.through(at))];
      assert part == view[at..at + |part|];
      WriteKeepsView(cow, base, next, cluster, at, part);
      ok := Write(at, bytes, w.through(at));
    }

    /** The copy loop of `img_rebase`. At every moment, also when it stops at an error, the
        overlay shows what it showed at first on top of the old backing file. When the loop
        ends, it shows the same on top of the new one. */
    method Rebase(w: World, next: seq<Byte>) returns (ok: bool)
      requires Ok() && Truthful(w, base, next, |cow.data|)
      modifies this
      ensures Valid(old(cow)) && Shows(View(old(cow), base), |old(history)|)
      ensures ok ==> View(cow, next) == View(old(cow), base)
      ensures NoErrors(w) ==> ok
    {
      ghost var view, since := View(cow, base), |history|;
      var offset, size := 0, |cow.data|;
      while offset < size
        invariant 0 <= offset <= size == |cow.data| && Shows(view, since) && Moved(cow, base, next, offset)
      {
        var n: nat;
        ok, n := RebaseChunk(w, next, offset, view, since);
        if !ok {
          return;
        }
        offset := offset + n;
      }
      forall k | 0 <= k < size ensures View(cow, next)[k] == view[k] {
      }
      ok := true;
    }

    /** One round of the copy loop. */
    method RebaseChunk(w: World, next: seq<Byte>, offset: nat, ghost view: seq<Byte>, ghost since: nat) returns (ok: bool, n: nat)
      requires Shows(view, since) && offset < |cow.data| && Moved(cow, base, next, offset) && Truthful(w, base, next, |cow.data|)
      modifies this
      ensures Shows(view, since) && |cow.data| == old(|cow.data|)
      ensures ok ==> 0 < n && offset + n <= |cow.data| && Moved(cow, base, next, offset + n)
      ensures NoErrors(w) ==> ok
    {
      n := Min(IO_BUF, |cow.data| - offset);
      if !w.metaOk(offset) {
        return false, n;
      }
      var isAllocated: bool;
      isAllocated, n := RunAt(cow.alloc, offset, n);
      if isAllocated {
        SkipKeepsMoved(cow, base, next, offset, offset + n);
        return true, n;
      }
      if w.prefixChain {
        var isChanged: bool;
        isChanged, n := RunAt(w.changed, offset, n);
        if !isChanged {
          SkipKeepsMoved(cow, base, next, offset, offset + n);
          return true, n;
        }
      }
      if !w.readOk(offset) {
        return false, n;
      }
      var bufOld := ReadBacking(base, offset, n);
      var bufNew := ReadBacking(next, offset, |bufOld|);
      bufOld := bufOld[..|bufNew|];
      n := |bufNew|;
      assert bufOld == view[offset..offset + n];
      ok := CopyDifferences(w, next, offset, bufOld, bufNew, view, since);
    }
  }
}
