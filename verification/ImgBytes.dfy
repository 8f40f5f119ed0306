/** Byte buffers as the image commands of qemu-img.c see them. */
module ImgBytes {
  const SECTOR := 512
  /** The size of the buffers of `qemu-img compare`, `convert` and `rebase`: 2 MiB. */
  const IO_BUF := 2097152

  type Byte = x: nat | x < 256

  function Min(a: int, b: int): int {
    if a <= b then a else b
  }

  predicate Zeros(s: seq<Byte>) {
    forall i :: 0 <= i < |s| ==> s[i] == 0
  }

  /** An image is read as zero beyond its end. */
  function At(s: seq<Byte>, i: nat): Byte {
    if i < |s| then s[i] else 0
  }

  /** The sector of `s` that starts at byte `i`; the last one may be short. */
  function Sector(s: seq<Byte>, i: nat): (r: seq<Byte>)
    requires i <= |s|
  {
    s[i..Min(i + SECTOR, |s|)]
  }

  lemma SubSlice<T>(s: seq<T>, lo: nat, hi: nat, a: nat, b: nat)
    requires lo <= hi <= |s| && a <= b <= hi - lo
    ensures s[lo..hi][a..b] == s[lo + a..lo + b]
  {
    forall k | 0 <= k < b - a ensures s[lo..hi][a..b][k] == s[lo + a..lo + b][k] {
      assert s[lo..hi][a..b][k] == s[lo..hi][a + k] == s[lo + a + k];
    }
  }

  /** `compare_buffers`: the result says whether the first sectors differ, `pnum` how far the
      other sectors give the same answer. */
  method CompareBuffers(buf1: seq<Byte>, buf2: seq<Byte>) returns (res: bool, pnum: nat)
    requires 0 < |buf1| == |buf2|
    ensures 0 < pnum <= |buf1| && (pnum % SECTOR == 0 || pnum == |buf1|)
    ensures SectorsAgree(buf1, buf2, pnum, res)
    ensures pnum < |buf1| ==> (res <==> Sector(buf1, pnum) == Sector(buf2, pnum))
    ensures !res ==> buf1[..pnum] == buf2[..pnum]
  {
    var i, bytes := Min(|buf1|, SECTOR), |buf1|;
    assert buf1[..i] == Sector(buf1, 0) && buf2[..i] == Sector(buf2, 0);
    res := buf1[..i] != buf2[..i];
    while i < bytes
      invariant 0 < i <= bytes && (i % SECTOR == 0 || i == bytes)
      invariant SectorsAgree(buf1, buf2, i, res)
      invariant !res ==> buf1[..i] == buf2[..i]
    {
      var len := Min(bytes - i, SECTOR);
      assert buf1[i..i + len] == Sector(buf1, i) && buf2[i..i + len] == Sector(buf2, i);
      if (buf1[i..i + len] != buf2[i..i + len]) != res {
        break;
      }
      OneMoreSector(buf1, buf2, i, res);
      i := i + len;
    }
    pnum := i;
  }

  /** All the sectors before `n` differ, or none does. */
  ghost predicate SectorsAgree(buf1: seq<Byte>, buf2: seq<Byte>, n: nat, res: bool)
    requires n <= |buf1| == |buf2|
  {
    forall i :: 0 <= i < n && i % SECTOR == 0 ==> (res <==> Sector(buf1, i) != Sector(buf2, i))
  }

  lemma OneMoreSector(buf1: seq<Byte>, buf2: seq<Byte>, i: nat, res: bool)
    requires i < |buf1| == |buf2| && i % SECTOR == 0 && SectorsAgree(buf1, buf2, i, res)
    requires res <==> Sector(buf1, i) != Sector(buf2, i)
    ensures var next := Min(i + SECTOR, |buf1|);
            SectorsAgree(buf1, buf2, next, res) && (!res && buf1[..i] == buf2[..i] ==> buf1[..next] == buf2[..next])
  {
    var next := Min(i + SECTOR, |buf1|);
    forall k | i < k < next ensures k % SECTOR != 0 {
    }
    assert buf1[..next] == buf1[..i] + Sector(buf1, i) && buf2[..next] == buf2[..i] + Sector(buf2, i);
  }

  /** `find_nonzero`: the first sector boundary whose sector holds a byte other than zero, or
      -1 when there is none. */
  method FindNonzero(buf: seq<Byte>) returns (at: int)
    ensures at == -1 <==> Zeros(buf)
    ensures at != -1 ==> 0 <= at < |buf| && at % SECTOR == 0 && Zeros(buf[..at]) && !Zeros(Sector(buf, at))
  {
    var n := |buf|;
    var end, i := n - n % SECTOR, 0;
    while i < end
      invariant 0 <= i <= end && i % SECTOR == 0 && Zeros(buf[..i])
    {
      if !Zeros(buf[i..i + SECTOR]) {
        return i;
      }
      assert buf[..i + SECTOR] == buf[..i] + buf[i..i + SECTOR];
      i := i + SECTOR;
    }
    assert buf == buf[..i] + buf[i..n];
    if i < n && !Zeros(buf[i..n]) {
      assert buf[i..n] == Sector(buf, i);
      return i;
    }
    return -1;
  }
}
