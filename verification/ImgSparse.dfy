/** Finding the zero runs of a buffer of sectors (qemu-img.c). */
module ImgSparse {
  import opened ImgBytes

  type Sector = s: seq<Byte> | |s| == SECTOR witness Blank()

  function Blank(): (r: seq<Byte>)
    ensures |r| == SECTOR && Zeros(r)
  {
    seq(SECTOR, i => 0)
  }

  const ZERO: Sector := Blank()

  predicate AllZero(buf: seq<Sector>) {
    forall i :: 0 <= i < |buf| ==> buf[i] == ZERO
  }

  /** The number of sectors from the start that are zero just like the first, or data just
      like the first. */
  function Run(buf: seq<Sector>): (n: nat)
    requires buf != []
    ensures 1 <= n <= |buf|
    ensures forall i :: 0 <= i < n ==> (buf[i] == ZERO <==> buf[0] == ZERO)
    ensures n < |buf| ==> (buf[n] == ZERO <==> buf[0] != ZERO)
  {
    var m := |buf| - 1;
    if m == 0 then 1
    else
      var n := Run(buf[..m]);
      if n == m && (buf[m] == ZERO <==> buf[0] == ZERO) then m + 1 else n
  }

  /** How far the end of the first run lies behind an aligned sector. */
  function Tail(buf: seq<Sector>, sector: nat, alignment: nat): (t: nat)
    requires buf != [] && alignment > 0
  {
    (sector + Run(buf)) % alignment
  }

  /** What `is_allocated_sectors` answers. */
  predicate Allocated(buf: seq<Sector>, sector: nat, alignment: nat)
    requires alignment > 0
  {
    buf != [] && (buf[0] != ZERO || (0 < Tail(buf, sector, alignment) && Run(buf) <= Tail(buf, sector, alignment)))
  }

  /** `is_allocated_sectors`. */
  method IsAllocatedSectors(buf: seq<Sector>, sector: nat, alignment: nat) returns (ret: bool, pnum: nat)
    requires alignment > 0
    ensures ret <==> Allocated(buf, sector, alignment)
    ensures pnum <= |buf| && (buf != [] ==> 0 < pnum)
    ensures !ret ==> AllZero(buf[..pnum])
    ensures (sector + pnum) % alignment == 0 || pnum == |buf|
    ensures ret && pnum < |buf| ==> Run(buf) <= pnum < Run(buf) + alignment
    ensures !ret && buf != [] ==> pnum <= Run(buf) < pnum + alignment
  {
    var n := |buf|;
    if n == 0 {
      return false, 0;
    }
    var isZero, i := buf[0] == ZERO, 1;
    while i < n
      invariant 1 <= i <= n && forall k :: 0 <= k < i ==> (buf[k] == ZERO <==> isZero)
    {
      if isZero != (buf[i] == ZERO) {
        break;
      }
      i := i + 1;
    }
    assert i == Run(buf);
    var tail := (sector + i) % alignment;
    if tail != 0 {
      if isZero && i <= tail {
        isZero := false;
      }
      if !isZero {
        AlignUp(sector + i, alignment);
        i := Min(i + alignment - tail, n);
      } else {
        AlignDown(sector + i, alignment);
        i := i - tail;
      }
    }
    pnum, ret := i, !isZero;
  }

  lemma AlignUp(x: nat, a: nat)
    requires a > 0
    ensures (x + a - x % a) % a == 0
  {
    var q := x / a;
    assert x == q * a + x % a;
    assert x + a - x % a == (q + 1) * a;
    MultipleOf(q + 1, a);
  }

  lemma AlignDown(x: nat, a: nat)
    requires a > 0
    ensures (x - x % a) % a == 0
  {
    assert x - x % a == x / a * a;
    MultipleOf(x / a, a);
  }

  lemma MultipleOf(q: nat, a: nat)
    requires a > 0
    ensures q * a % a == 0
  {
    var x := q * a;
    var k := q - x / a;
    assert k * a == q * a - x / a * a == x % a;
  }

  /** The comment above `is_allocated_sectors` says that the answer is yes exactly when the
      first sector has data. The code disagrees exactly for a zero run that does not reach
      back beyond the last aligned sector. */
  lemma DocumentedAnswer(buf: seq<Sector>, sector: nat, alignment: nat)
    requires buf != [] && alignment > 0
    ensures (Allocated(buf, sector, alignment) <==> buf[0] != ZERO) <==>
            !(buf[0] == ZERO && 0 < Run(buf) <= Tail(buf, sector, alignment))
    ensures Allocated([ZERO], 0, 2) && [ZERO][0] == ZERO
  {
  }

  /** The sectors from `from` on are zero, up to the end or for at least `min` of them. */
  ghost predicate SparseFrom(buf: seq<Sector>, from: nat, min: nat)
    requires from <= |buf|
  {
    exists to :: from <= to <= |buf| && AllZero(buf[from..to]) && (to == |buf| || Min(min, |buf|) <= to - from)
  }

  /** `is_allocated_sectors_min`: after data, zero runs shorter than `min` are passed over. */
  method IsAllocatedSectorsMin(buf: seq<Sector>, min: nat, sector: nat, alignment: nat) returns (ret: bool, pnum: nat)
    requires alignment > 0
    ensures ret <==> Allocated(buf, sector, alignment)
    ensures pnum <= |buf| && (buf != [] ==> 0 < pnum)
    ensures !ret ==> AllZero(buf[..pnum])
    ensures ret ==> SparseFrom(buf, pnum, min)
  {
    var least := Min(min, |buf|);
    ret, pnum := IsAllocatedSectors(buf, sector, alignment);
    if !ret {
      return;
    }
    var used, checked := pnum, pnum;
    while checked < |buf|
      invariant 0 < used <= checked <= |buf|
      invariant AllZero(buf[used..checked])
    {
      var more: bool, n: nat;
      more, n := IsAllocatedSectors(buf[checked..], sector + checked, alignment);
      if !more {
        assert buf[used..checked + n] == buf[used..checked] + buf[checked..][..n];
      }
      checked := checked + n;
      if more {
        used := checked;
      } else if n >= least {
        break;
      }
    }
    pnum := used;
  }
}
