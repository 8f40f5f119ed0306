/** Runs of bytes seen as whole sectors. `convert_iteration_sectors` rounds the length of a
    status up to sectors; this file says when what is true of the bytes is then still true. */
module ImgRounding {
  import opened ImgBytes
  import opened ImgSparse

  function RoundUp(count: nat): nat {
    (count + SECTOR - 1) / SECTOR
  }

  function ByteAt(ss: seq<Sector>, i: nat): Byte
    requires i < |ss| * SECTOR
  {
    ss[i / SECTOR][i % SECTOR]
  }

  /** The first `count` bytes are zero. */
  ghost predicate ZeroBytes(ss: seq<Sector>, count: nat) {
    count <= |ss| * SECTOR && forall i: nat :: i < count ==> ByteAt(ss, i) == 0
  }

  /** The first `count` bytes are the same. */
  ghost predicate SameBytes(a: seq<Sector>, b: seq<Sector>, count: nat) {
    count <= |a| * SECTOR && count <= |b| * SECTOR && forall i: nat :: i < count ==> ByteAt(a, i) == ByteAt(b, i)
  }

  lemma ByteOf(ss: seq<Sector>, k: nat, j: nat)
    requires k < |ss| && j < SECTOR
    ensures k * SECTOR + j < |ss| * SECTOR && ByteAt(ss, k * SECTOR + j) == ss[k][j]
  {
  }

  lemma SameWhole(a: seq<Sector>, b: seq<Sector>, count: nat)
    requires count % SECTOR == 0 && SameBytes(a, b, count)
    ensures RoundUp(count) <= |a| && RoundUp(count) <= |b| && a[..RoundUp(count)] == b[..RoundUp(count)]
  {
    forall k | 0 <= k < RoundUp(count) ensures a[k] == b[k] {
      forall j | 0 <= j < SECTOR ensures a[k][j] == b[k][j] {
        ByteOf(a, k, j);
        ByteOf(b, k, j);
      }
    }
  }

  function Zeroed(n: nat): (r: seq<Sector>)
    ensures |r| == n && AllZero(r)
  {
    seq(n, i => ZERO)
  }

  lemma ZeroedBytes(ss: seq<Sector>, count: nat)
    requires ZeroBytes(ss, count)
    ensures SameBytes(ss, Zeroed(|ss|), count)
  {
  }

  /** Sectors whose first `count` bytes are zero and whose other bytes are not. */
  function Ragged(count: nat): (r: seq<Sector>)
    ensures |r| == RoundUp(count)
  {
    seq(RoundUp(count), k => seq(SECTOR, j => if k * SECTOR + j < count then 0 else 1))
  }

  lemma RaggedBytes(count: nat)
    ensures ZeroBytes(Ragged(count), count)
    ensures count % SECTOR != 0 ==> !AllZero(Ragged(count))
  {
    if count % SECTOR != 0 {
      var k := RoundUp(count) - 1;
      assert Ragged(count)[k][SECTOR - 1] == 1;
    }
  }

  /** Whatever the sectors, a run of `count` zero bytes covers only zero sectors. */
  ghost predicate ZerosRound(count: nat) {
    forall ss: seq<Sector> {:trigger ZeroBytes(ss, count)} ::
      ZeroBytes(ss, count) ==> RoundUp(count) <= |ss| && AllZero(ss[..RoundUp(count)])
  }

  /** Whatever the sectors, a run of `count` equal bytes covers only equal sectors. */
  ghost predicate EqualsRound(count: nat) {
    forall a: seq<Sector>, b: seq<Sector> {:trigger SameBytes(a, b, count)} ::
      SameBytes(a, b, count) ==> RoundUp(count) <= |a| && RoundUp(count) <= |b| && a[..RoundUp(count)] == b[..RoundUp(count)]
  }

  /** Rounding up is safe exactly for runs of whole sectors: for zeros ... */
  lemma ZerosRoundIff(count: nat)
    ensures ZerosRound(count) <==> count % SECTOR == 0
  {
    if count % SECTOR == 0 {
      forall ss: seq<Sector> | ZeroBytes(ss, count) ensures RoundUp(count) <= |ss| && AllZero(ss[..RoundUp(count)]) {
        ZeroedBytes(ss, count);
        SameWhole(ss, Zeroed(|ss|), count);
      }
    } else {
      RaggedBytes(count);
      assert Ragged(count)[..RoundUp(count)] == Ragged(count);
    }
  }

  /** ... and for data that equals the backing file. */
  lemma EqualsRoundIff(count: nat)
    ensures EqualsRound(count) <==> count % SECTOR == 0
  {
    if count % SECTOR == 0 {
      forall a: seq<Sector>, b: seq<Sector> | SameBytes(a, b, count)
        ensures RoundUp(count) <= |a| && RoundUp(count) <= |b| && a[..RoundUp(count)] == b[..RoundUp(count)]
      {
        SameWhole(a, b, count);
      }
    } else {
      var a := Ragged(count);
      RaggedBytes(count);
      ZeroedBytes(a, count);
      assert a[..RoundUp(count)] == a && Zeroed(|a|)[..RoundUp(count)] == Zeroed(|a|);
    }
  }
}
