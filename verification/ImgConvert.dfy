/** `qemu-img convert`: the copy of one or more sources into a target, sector by sector. */
module ImgConvert {
  import opened ImgBytes
  import opened ImgSparse
  import opened ImgRounding

  /** `BDRV_REQUEST_MAX_SECTORS`. */
  const REQUEST_MAX := 4194303

  datatype Kind = Data | Zero | Backing

  /** An answer of `bdrv_block_status_above`; `count` is in bytes. */
  datatype Status = Failed | Status(zero: bool, data: bool, count: nat)

  /** The fixed part of `ImgConvertState`, and the environment: block status queries by part,
      sector within the part and number of sectors; and whether a read, a write or an
      offloaded copy at a sector succeeds. A failing copy may get part of the way. */
  datatype Config = Config(
    parts: seq<seq<Sector>>,
    srcAlignment: seq<nat>,
    hasBacking: bool,
    backingSectors: int,
    minSparse: nat,
    alignment: nat,
    compressed: bool,
    clusterSectors: nat,
    bufSectors: nat,
    status: (nat, nat, nat) -> Status,
    readOk: (nat, nat) -> bool,
    writeOk: nat -> bool,
    copied: (nat, nat) -> nat)

  /** The sources one after the other. */
  function Flat(parts: seq<seq<Sector>>): (r: seq<Sector>) {
    if parts == [] then [] else Flat(parts[..|parts| - 1]) + parts[|parts| - 1]
  }

  /** Where part `p` starts. */
  function Base(parts: seq<seq<Sector>>, p: nat): (r: nat)
    requires p <= |parts|
  {
    |Flat(parts[..p])|
  }

  lemma NextBase(parts: seq<seq<Sector>>, p: nat)
    requires p < |parts|
    ensures Base(parts, p + 1) == Base(parts, p) + |parts[p]|
  {
    assert parts[..p + 1][..p] == parts[..p];
  }

  lemma PrefixSlice(s: seq<Sector>, t: seq<Sector>, lo: nat, hi: nat)
    requires lo <= hi <= |s|
    ensures (s + t)[lo..hi] == s[lo..hi]
  {
    forall k | 0 <= k < hi - lo ensures (s + t)[lo..hi][k] == s[lo..hi][k] {
      assert (s + t)[lo + k] == s[lo + k];
    }
  }

  lemma JoinSlices(s: seq<Sector>, lo: nat, mid: nat, hi: nat)
    requires lo <= mid <= hi <= |s|
    ensures s[lo..hi] == s[lo..mid] + s[mid..hi]
  {
  }

  lemma {:induction false} PartAt(parts: seq<seq<Sector>>, p: nat)
    requires p < |parts|
    ensures Base(parts, p) + |parts[p]| <= |Flat(parts)|
    ensures Flat(parts)[Base(parts, p)..Base(parts, p) + |parts[p]|] == parts[p]
    decreases |parts|
  {
    var m := |parts| - 1;
    if p < m {
      PartAt(parts[..m], p);
      assert parts[..m][..p] == parts[..p];
      PrefixSlice(Flat(parts[..m]), parts[m], Base(parts, p), Base(parts, p) + |parts[p]|);
    }
  }

  /** A status covers at least one byte, stays within the request and the part, and is true
      of the bytes it covers. `init` is what the target shows before the copy. */
  ghost predicate TruthfulAt(c: Config, init: seq<Sector>, p: nat, off: nat, n: nat)
    requires |Flat(c.parts)| <= |init|
  {
    var s := c.status(p, off, n);
    p < |c.parts| && off < |c.parts[p]| && 0 < n && s.Status? ==>
      && 0 < s.count <= n * SECTOR && off * SECTOR + s.count <= |c.parts[p]| * SECTOR
      && (s.zero ==> ZeroBytes(c.parts[p][off..], s.count))
      && (PartAt(c.parts, p);
          !s.zero && !s.data && c.hasBacking ==> SameBytes(c.parts[p][off..], init[Base(c.parts, p) + off..], s.count))
  }

  ghost predicate Truthful(c: Config, init: seq<Sector>)
    requires |Flat(c.parts)| <= |init|
  {
    forall p: nat, off: nat, n: nat {:trigger c.status(p, off, n)} :: TruthfulAt(c, init, p, off, n)
  }

  /** A status of sectors that are not read ends with a sector. Its length is rounded up to
      sectors, and by `ZerosRoundIff` and `EqualsRoundIff` that is safe for no other length. A
      part is a number of sectors, so a status that reaches its end does. */
  predicate WholeAt(c: Config, p: nat, off: nat, n: nat) {
    var s := c.status(p, off, n);
    p < |c.parts| && off < |c.parts[p]| && 0 < n && s.Status? && (s.zero || (!s.data && c.hasBacking)) ==> s.count % SECTOR == 0
  }

  ghost predicate WholeSectors(c: Config) {
    forall p: nat, off: nat, n: nat {:trigger c.status(p, off, n)} :: WholeAt(c, p, off, n)
  }

  /** The target shows zeros beyond the end of its backing file. */
  ghost predicate BackingOk(c: Config, init: seq<Sector>) {
    0 <= c.backingSectors ==> c.hasBacking && forall k :: c.backingSectors <= k < |init| ==> init[k] == ZERO
  }

  /** What the command line and the target driver promise. `zeroInit` is the value of
      `has_zero_init` during the copy. */
  ghost predicate Sound(c: Config, zeroInit: bool, init: seq<Sector>) {
    && |Flat(c.parts)| <= |init|
    && |c.srcAlignment| == |c.parts| && (forall i :: 0 <= i < |c.parts| ==> 0 < c.srcAlignment[i])
    && 0 < c.alignment && 0 < c.bufSectors && (c.compressed ==> 0 < c.clusterSectors == c.bufSectors)
    && (zeroInit ==> !c.hasBacking && AllZero(init[..|Flat(c.parts)|]))
    && BackingOk(c, init)
    && Truthful(c, init) && WholeSectors(c)
  }

  /** What the classification of a range promises. */
  ghost predicate KindTrue(c: Config, init: seq<Sector>, kind: Kind, lo: nat, hi: nat)
    requires |Flat(c.parts)| <= |init|
  {
    lo < hi ==>
      && hi <= |Flat(c.parts)|
      && (kind.Zero? ==> AllZero(Flat(c.parts)[lo..hi]))
      && (kind.Backing? ==> c.hasBacking && Flat(c.parts)[lo..hi] == init[lo..hi])
  }

  /** `convert_select_part`. */
  method SelectPart(parts: seq<seq<Sector>>, sector: nat) returns (cur: nat, offset: nat)
    requires sector < |Flat(parts)|
    ensures cur < |parts| && offset == Base(parts, cur) && offset <= sector < offset + |parts[cur]|
  {
    cur, offset := 0, 0;
    assert parts[..|parts|] == parts;
    while sector - offset >= |parts[cur]|
      invariant cur < |parts| && offset == Base(parts, cur) <= sector
      decreases |parts| - cur
    {
      NextBase(parts, cur);
      offset := offset + |parts[cur]|;
      cur := cur + 1;
    }
  }

  /** A range inside one part, seen in the whole. */
  lemma PartRange(parts: seq<seq<Sector>>, p: nat, lo: nat, hi: nat)
    requires p < |parts| && Base(parts, p) <= lo <= hi <= Base(parts, p) + |parts[p]|
    ensures hi <= |Flat(parts)| && Flat(parts)[lo..hi] == parts[p][lo - Base(parts, p)..hi - Base(parts, p)]
  {
    PartAt(parts, p);
    var b := Base(parts, p);
    SubSlice(Flat(parts), b, b + |parts[p]|, lo - b, hi - b);
  }

  lemma ZeroTail(init: seq<Sector>, src: seq<Sector>, lo: nat, hi: nat)
    requires lo <= hi <= |src| <= |init| && AllZero(src[lo..hi]) && (forall k :: lo <= k < hi ==> init[k] == ZERO)
    ensures src[lo..hi] == init[lo..hi]
  {
    forall k | 0 <= k < hi - lo ensures src[lo..hi][k] == init[lo..hi][k] {
      assert init[lo..hi][k] == init[lo + k];
    }
  }

  /** How `convert_iteration_sectors` classifies the sectors from `sector` on. */
  function Classify(c: Config, s: Status, sector: nat): Kind
    requires s.Status?
  {
    if s.zero then (if 0 <= c.backingSectors <= sector then Backing else Zero)
    else if s.data then Data
    else if c.hasBacking then Backing else Data
  }

  /** A status about sector `off` of part `p`, true of the bytes it covers. */
  ghost predicate Answers(c: Config, init: seq<Sector>, p: nat, off: nat, n: nat) {
    && |Flat(c.parts)| <= |init| && p < |c.parts| && off < |c.parts[p]| && 0 < n
    && c.status(p, off, n).Status? && TruthfulAt(c, init, p, off, n)
  }

  /** What is true of the bytes of a status is true of the sectors it is rounded up to. */
  lemma StatusRounds(c: Config, init: seq<Sector>, p: nat, off: nat, n: nat)
    requires Answers(c, init, p, off, n) && WholeAt(c, p, off, n)
    ensures var s := c.status(p, off, n);
            && 0 < RoundUp(s.count) <= n && off + RoundUp(s.count) <= |c.parts[p]|
            && (s.zero ==> AllZero(c.parts[p][off..off + RoundUp(s.count)]))
            && Base(c.parts, p) + |c.parts[p]| <= |Flat(c.parts)|
            && (!s.zero && !s.data && c.hasBacking ==>
                  c.parts[p][off..off + RoundUp(s.count)] == init[Base(c.parts, p) + off..Base(c.parts, p) + off + RoundUp(s.count)])
  {
    var s, part := c.status(p, off, n), c.parts[p];
    assert s.zero || (!s.data && c.hasBacking) ==> s.count % SECTOR == 0;
    PartAt(c.parts, p);
    var m, b := RoundUp(s.count), Base(c.parts, p) + off;
    assert part[off..][..m] == part[off..off + m];
    if s.zero {
      ZerosRoundIff(s.count);
      assert AllZero(part[off..][..m]);
    } else if !s.data && c.hasBacking {
      EqualsRoundIff(s.count);
      assert init[b..][..m] == init[b..b + m];
    }
  }

  /** The classification of a status is true of all the sectors it is applied to. */
  ghost predicate Classified(c: Config, init: seq<Sector>, p: nat, off: nat, n: nat)
    requires Answers(c, init, p, off, n)
  {
    var s, sector := c.status(p, off, n), Base(c.parts, p) + off;
    && 0 < RoundUp(s.count) <= n && sector + RoundUp(s.count) <= |Flat(c.parts)|
    && KindTrue(c, init, Classify(c, s, sector), sector, sector + RoundUp(s.count))
  }

  lemma StatusClassified(c: Config, init: seq<Sector>, p: nat, off: nat, n: nat)
    requires BackingOk(c, init) && Answers(c, init, p, off, n) && WholeAt(c, p, off, n)
    ensures Classified(c, init, p, off, n)
  {
    StatusRounds(c, init, p, off, n);
    var s, sector := c.status(p, off, n), Base(c.parts, p) + off;
    var end := sector + RoundUp(s.count);
    PartRange(c.parts, p, sector, end);
    if s.zero && 0 <= c.backingSectors <= sector {
      ZeroTail(init, Flat(c.parts), sector, end);
    }
  }

  lemma SoundlyClassified(c: Config, zeroInit: bool, init: seq<Sector>, p: nat, sector: nat, n: nat)
    requires Sound(c, zeroInit, init) && p < |c.parts| && 0 < n
    requires Base(c.parts, p) <= sector < Base(c.parts, p) + |c.parts[p]|
    requires c.status(p, sector - Base(c.parts, p), n).Status?
    ensures var s := c.status(p, sector - Base(c.parts, p), n);
            && 0 < RoundUp(s.count) <= n && sector + RoundUp(s.count) <= |Flat(c.parts)|
            && KindTrue(c, init, Classify(c, s, sector), sector, sector + RoundUp(s.count))
  {
    var off := sector - Base(c.parts, p);
    assert TruthfulAt(c, init, p, off, n) && WholeAt(c, p, off, n);
    StatusClassified(c, init, p, off, n);
  }

  lemma OnePart(x: seq<Sector>)
    ensures Flat([x]) == x && Base([x], 0) == 0
  {
    assert [x][..0] == [];
  }

  /** A status of a run of zeros, or of data that equals the backing file, that ends inside a
      sector. */
  ghost predicate Partial(c: Config, count: nat, zero: bool) {
    && count % SECTOR != 0 && c.parts == [Ragged(count)] && c.backingSectors < 0 && c.hasBacking == !zero
    && c.status(0, 0, RoundUp(count)) == Status(zero, false, count)
  }

  lemma PartialAnswers(count: nat, zero: bool, c: Config)
    requires Partial(c, count, zero)
    ensures Answers(c, Zeroed(RoundUp(count)), 0, 0, RoundUp(count))
  {
    var x, init := Ragged(count), Zeroed(RoundUp(count));
    OnePart(x);
    RaggedBytes(count);
    ZeroedBytes(x, count);
    assert x[0..] == x && init[0..] == init;
  }

  lemma PartialMisses(count: nat, zero: bool, c: Config)
    requires Partial(c, count, zero)
    ensures |Flat(c.parts)| == RoundUp(count)
    ensures !KindTrue(c, Zeroed(RoundUp(count)), if zero then Zero else Backing, 0, RoundUp(count))
  {
    var x, init := Ragged(count), Zeroed(RoundUp(count));
    OnePart(x);
    RaggedBytes(count);
    assert x[0..RoundUp(count)] == x && init[0..RoundUp(count)] == init;
  }

  /** Such a run hides the rest of its last sector: the status is true of the bytes, its
      classification is not true of the sectors. */
  lemma PartialRun(count: nat, zero: bool, c: Config)
    requires Partial(c, count, zero)
    ensures var init := Zeroed(RoundUp(count));
            BackingOk(c, init) && Answers(c, init, 0, 0, RoundUp(count)) && !Classified(c, init, 0, 0, RoundUp(count))
  {
    OnePart(Ragged(count));
    PartialAnswers(count, zero, c);
    PartialMisses(count, zero, c);
  }

  /** Whatever the sources, the target and the settings, a status of `count` bytes is
      classified truthfully: of bytes that are zero, or of bytes of the backing file. */
  ghost predicate AlwaysClassified(count: nat, zero: bool) {
    forall c: Config, init: seq<Sector>, p: nat, off: nat, n: nat {:trigger Answers(c, init, p, off, n)} ::
      BackingOk(c, init) && Answers(c, init, p, off, n) && Reports(c, c.status(p, off, n), count, zero) ==> Classified(c, init, p, off, n)
  }

  predicate Reports(c: Config, s: Status, count: nat, zero: bool) {
    s.Status? && s.count == count && s.zero == zero && (zero || (!s.data && c.hasBacking))
  }

  /** Rounding the length of a status up to sectors is safe for whole sectors and for no other
      length. */
  lemma ClassifiedIff(count: nat, zero: bool)
    requires 0 < count
    ensures AlwaysClassified(count, zero) <==> count % SECTOR == 0
  {
    if count % SECTOR == 0 {
      forall c: Config, init: seq<Sector>, p: nat, off: nat, n: nat |
        BackingOk(c, init) && Answers(c, init, p, off, n) && Reports(c, c.status(p, off, n), count, zero)
        ensures Classified(c, init, p, off, n)
      {
        StatusClassified(c, init, p, off, n);
      }
    } else {
      var c := Config([Ragged(count)], [1], !zero, -1, 0, 1, false, 0, 1, (p, off, n) => Status(zero, false, count),
                      (at, n) => true, at => true, (at, n) => 0);
      PartialRun(count, zero, c);
    }
  }

  class Converter {
    const c: Config
    const zeroInit: bool
    ghost const init: seq<Sector>
    var target: seq<Sector>
    var status: Kind
    var nextStatus: nat
    var copyRange: bool

    ghost function Source(): seq<Sector> {
      Flat(c.parts)
    }

    ghost predicate Ready() {
      Sound(c, zeroInit, init)
    }

    /** The cached classification holds from `sector` on. */
    ghost predicate CacheOk(sector: nat)
      requires Ready()
      reads this
    {
      nextStatus <= |Source()| && KindTrue(c, init, status, sector, nextStatus)
    }

    constructor (c: Config, zeroInit: bool, target: seq<Sector>, copyRange: bool)
      requires Sound(c, zeroInit, target)
      ensures this.c == c && this.zeroInit == zeroInit && this.init == target == this.target
      ensures Ready() && nextStatus == 0
    {
      this.c, this.zeroInit, this.init, this.target := c, zeroInit, target, target;
      this.copyRange, status, nextStatus := copyRange, Data, 0;
    }

    /** The first part of `convert_iteration_sectors`: the longest request, cut at the end of
        the target's backing file. */
    method RequestLimit(sector: nat) returns (n: nat, postBackingZero: bool)
      requires Ready() && sector < |Source()|
      ensures 0 < n <= |Source()| - sector
      ensures postBackingZero <==> 0 <= c.backingSectors <= sector
      ensures sector < c.backingSectors ==> sector + n <= c.backingSectors
    {
      postBackingZero := false;
      n := Min(|Flat(c.parts)| - sector, REQUEST_MAX);
      if c.backingSectors >= 0 {
        if sector >= c.backingSectors {
          postBackingZero := true;
        } else if sector + n > c.backingSectors {
          n := c.backingSectors - sector;
        }
      }
    }

    /** The status query of `convert_iteration_sectors`, when the cached one is used up. */
    method QueryStatus(sector: nat, request: nat, postBackingZero: bool) returns (ok: bool, n: nat)
      requires Ready() && sector < |Source()| && 0 < request && sector + request <= |Source()|
      requires postBackingZero <==> 0 <= c.backingSectors <= sector
      modifies this`status, this`nextStatus
      ensures ok ==> 0 < n <= request && nextStatus == sector + n && CacheOk(sector)
      ensures !ok ==> status == old(status) && nextStatus == old(nextStatus)
      ensures NoErrors(c) ==> ok
    {
      var cur, offset := SelectPart(c.parts, sector);
      var s := c.status(cur, sector - offset, request);
      if s.Failed? {
        return false, 0;
      }
      n := RoundUp(s.count);
      ghost var end := sector + n;
      SoundlyClassified(c, zeroInit, init, cur, sector, request);
      var tail := (sector - offset + n) % c.srcAlignment[cur];
      if n > tail {
        n := n - tail;
      }
      if s.zero {
        status := if postBackingZero then Backing else Zero;
      } else if s.data {
        status := Data;
      } else {
        status := if c.hasBacking then Backing else Data;
      }
      nextStatus := sector + n;
      KindShrinks(c, init, status, sector, end, nextStatus);
      ok := true;
    }

    /** `convert_iteration_sectors`. */
    method IterationSectors(sector: nat) returns (ok: bool, n: nat)
      requires Ready() && sector < |Source()| && CacheOk(sector)
      modifies this`status, this`nextStatus
      ensures ok ==> 0 < n <= |Source()| - sector && KindTrue(c, init, status, sector, sector + n)
      ensures ok ==> CacheOk(sector)
      ensures ok && status.Data? ==> n <= c.bufSectors
      ensures NoErrors(c) ==> ok
    {
      var post: bool;
      n, post := RequestLimit(sector);
      if nextStatus <= sector {
        ok, n := QueryStatus(sector, n, post);
        if !ok {
          return;
        }
      }
      n := Min(n, nextStatus - sector);
      if status.Data? {
        n := Min(n, c.bufSectors);
      }
      KindShrinks(c, init, status, sector, nextStatus, sector + n);
      if c.compressed {
        n := WholeClusters(sector, n);
      }
      ok := true;
    }

    /** The end of `convert_iteration_sectors`: compressed images get complete clusters. */
    method WholeClusters(sector: nat, length: nat) returns (n: nat)
      requires Ready() && c.compressed && 0 < length && sector + length <= |Source()|
      requires CacheOk(sector) && KindTrue(c, init, status, sector, sector + length) && (status.Data? ==> length <= c.bufSectors)
      modifies this`status
      ensures 0 < n <= |Source()| - sector && KindTrue(c, init, status, sector, sector + n)
      ensures CacheOk(sector) && (status.Data? ==> n <= c.bufSectors)
    {
      if length < c.clusterSectors {
        n := Min(c.clusterSectors, |Flat(c.parts)| - sector);
        status := Data;
      } else {
        n := length - length % c.clusterSectors;
        KindShrinks(c, init, status, sector, sector + length, sector + n);
      }
    }

    /** `convert_co_read`: the sectors are gathered part by part. */
    method CoRead(sector: nat, nbSectors: nat) returns (ok: bool, buf: seq<Sector>)
      requires Ready() && sector + nbSectors <= |Source()|
      ensures ok ==> buf == Source()[sector..sector + nbSectors]
      ensures NoErrors(c) ==> ok
    {
      var at: nat, left: nat := sector, nbSectors;
      buf := [];
      while left > 0
        invariant at + left == sector + nbSectors && sector <= at && buf == Source()[sector..at]
        decreases left
      {
        var cur, offset := SelectPart(c.parts, at);
        var n := Min(left, |c.parts[cur]| - (at - offset));
        if !c.readOk(at, n) {
          return false, buf;
        }
        PartRange(c.parts, cur, at, at + n);
        JoinSlices(Source(), sector, at, at + n);
        buf := buf + c.parts[cur][at - offset..at - offset + n];
        at, left := at + n, left - n;
      }
      ok := true;
    }

    /** The test of the `BLK_DATA` case: whether to write the data, and how many sectors the
        answer covers. */
    method MustWrite(buf: seq<Sector>, sector: nat) returns (write: bool, n: nat)
      requires Ready() && buf != []
      ensures 0 < n <= |buf|
      ensures !write ==> AllZero(buf[..n]) && c.minSparse != 0
      ensures c.minSparse == 0 || c.compressed ==> n == |buf|
    {
      if c.minSparse == 0 {
        return true, |buf|;
      }
      if c.compressed {
        return !AllZero(buf), |buf|;
      }
      write, n := IsAllocatedSectorsMin(buf, c.minSparse, sector, c.alignment);
    }

    /** The `BLK_ZERO` case of `convert_co_write`. */
    method WriteZeroes(sector: nat, n: nat) returns (ok: bool)
      requires Ready() && sector + n <= |Source()| && AllZero(Source()[sector..sector + n])
      requires Pending(init, Source(), target, sector, sector + n)
      modifies this`target
      ensures ok ==> Copied(Source(), old(target), target, sector, sector + n)
      ensures !ok ==> target == old(target)
      ensures NoErrors(c) ==> ok
    {
      if zeroInit {
        assert !c.hasBacking;
        KeptZeros(init, Source(), target, sector, sector + n);
        return true;
      }
      if !c.writeOk(sector) {
        return false;
      }
      PutZeros(Source(), target, sector, sector + n);
      target := Put(target, sector, seq(n, i => ZERO));
      ok := true;
    }

    /** One round of the loop of `convert_co_write`. */
    method WriteRound(sector: nat, nbSectors: nat, buf: seq<Sector>, kind: Kind) returns (ok: bool, n: nat)
      requires Ready() && 0 < nbSectors && sector + nbSectors <= |Source()|
      requires KindTrue(c, init, kind, sector, sector + nbSectors) && Pending(init, Source(), target, sector, sector + nbSectors)
      requires kind.Data? ==> buf == Source()[sector..sector + nbSectors]
      modifies this`target
      ensures 0 < n <= nbSectors
      ensures ok ==> Copied(Source(), old(target), target, sector, sector + n)
      ensures !ok ==> target == old(target)
      ensures NoErrors(c) ==> ok
    {
      if kind.Backing? {
        assert c.hasBacking;
        KeptBacking(c, init, target, sector, sector + nbSectors);
        return true, nbSectors;
      }
      if kind.Zero? {
        ok := WriteZeroes(sector, nbSectors);
        return ok, nbSectors;
      }
      var write: bool;
      write, n := MustWrite(buf, sector);
      SourcePrefix(Source(), sector, nbSectors, n);
      if !write {
        ok := WriteZeroes(sector, n);
        return;
      }
      if !c.writeOk(sector) {
        return false, n;
      }
      PutCopies(Source(), target, sector, buf[..n]);
      target := Put(target, sector, buf[..n]);
      ok := true;
    }

    /** `convert_co_write`: afterwards the target shows the source in the whole range. */
    method CoWrite(sector: nat, nbSectors: nat, buf: seq<Sector>, kind: Kind) returns (ok: bool)
      requires Ready() && sector + nbSectors <= |Source()| && |target| == |init|
      requires KindTrue(c, init, kind, sector, sector + nbSectors) && Pending(init, Source(), target, sector, sector + nbSectors)
      requires kind.Data? ==> buf == Source()[sector..sector + nbSectors]
      modifies this`target
      ensures ok ==> Copied(Source(), old(target), target, sector, sector + nbSectors)
      ensures exists m :: sector <= m <= sector + nbSectors && Copied(Source(), old(target), target, sector, m)
      ensures NoErrors(c) ==> ok
    {
      var at: nat, left: nat := sector, nbSectors;
      while left > 0
        invariant at + left == sector + nbSectors && sector <= at
        invariant Copied(Source(), old(target), target, sector, at)
        decreases left
      {
        KindShrinks(c, init, kind, sector, sector + nbSectors, at);
        PendingLeft(init, Source(), old(target), target, sector, at, sector + nbSectors);
        ghost var before := target;
        var rest := if kind.Data? then buf[at - sector..] else [];
        assert kind.Data? ==> rest == Source()[at..at + left];
        var n: nat;
        ok, n := WriteRound(at, left, rest, kind);
        if !ok {
          return;
        }
        CopiedFurther(Source(), old(target), before, target, sector, at, at + n);
        at, left := at + n, left - n;
      }
      ok := true;
    }

    /** `convert_co_copy_range`: each part is copied by the host. A failing copy may have got
        some sectors across. */
    method CoCopyRange(sector: nat, nbSectors: nat) returns (ok: bool)
      requires Ready() && sector + nbSectors <= |Source()| && |target| == |init|
      modifies this`target
      ensures ok ==> Copied(Source(), old(target), target, sector, sector + nbSectors)
      ensures exists m :: sector <= m <= sector + nbSectors && Copied(Source(), old(target), target, sector, m)
    {
      var at: nat, left: nat := sector, nbSectors;
      while left > 0
        invariant at + left == sector + nbSectors && sector <= at
        invariant Copied(Source(), old(target), target, sector, at)
        decreases left
      {
        var cur, offset := SelectPart(c.parts, at);
        var n := Min(left, |c.parts[cur]| - (at - offset));
        var done := Min(n, c.copied(at, n));
        ghost var before := target;
        target := CopyPart(c, target, cur, at - offset, at, done);
        CopiedFurther(Source(), old(target), before, target, sector, at, at + done);
        if done < n {
          return false;
        }
        at, left := at + n, left - n;
      }
      ok := true;
    }

    /** The work on one claimed range in `convert_co_do_copy`, from the label `retry` on.
        `offload` is the value of its local `copy_range`. */
    method CopyClaim(sector: nat, n: nat, kind: Kind, offload: bool) returns (ok: bool)
      requires Ready() && 0 < n && sector + n <= |Source()|
      requires KindTrue(c, init, kind, sector, sector + n) && Pending(init, Source(), target, sector, sector + n)
      modifies this`target, this`copyRange
      ensures ok ==> Copied(Source(), old(target), target, sector, sector + n)
      ensures NoErrors(c) ==> ok
    {
      ghost var start, m := target, sector;
      if offload {
        ok := CoCopyRange(sector, n);
        if ok {
          return;
        }
        copyRange := false;
        m :| sector <= m <= sector + n && Copied(Source(), start, target, sector, m);
        StillPending(init, Source(), start, target, sector, m, sector + n);
      }
      var kind', buf := kind, [];
      if kind.Data? {
        ok, buf := CoRead(sector, n);
        if !ok {
          return;
        }
      } else if c.minSparse == 0 && kind.Zero? {
        kind', buf := Data, seq(n, i => ZERO);
        assert buf == Source()[sector..sector + n];
      }
      ghost var before := target;
      assert Copied(Source(), start, before, sector, m);
      ok := CoWrite(sector, n, buf, kind');
      if ok {
        CopiedOver(Source(), start, before, target, sector, sector + n);
      }
    }

    /** The range that `convert_co_do_copy` claims under the lock. */
    method ClaimNext(sector: nat) returns (ok: bool, n: nat)
      requires Ready() && sector < |Source()| && CacheOk(sector)
      modifies this`status, this`nextStatus
      ensures ok ==> 0 < n && sector + n <= |Source()| && KindTrue(c, init, status, sector, sector + n) && CacheOk(sector + n)
      ensures NoErrors(c) ==> ok
    {
      ok, n := IterationSectors(sector);
      if !ok {
        return;
      }
      ghost var claimed := n;
      if c.minSparse == 0 && status.Zero? {
        n := Min(n, c.bufSectors);
      }
      KindShrinks(c, init, status, sector, sector + claimed, sector + n);
      CacheMoves(sector, sector + n);
    }

    /** One round of `convert_co_do_copy`: claim the next range and copy it. */
    method CopyNext(sector: nat) returns (ok: bool, n: nat)
      requires Ready() && sector < |Source()| && CacheOk(sector) && Copied(Source(), init, target, 0, sector)
      modifies this
      ensures ok ==> 0 < n && sector + n <= |Source()| && CacheOk(sector + n)
      ensures ok ==> Copied(Source(), init, target, 0, sector + n)
      ensures NoErrors(c) ==> ok
    {
      ok, n := ClaimNext(sector);
      if !ok {
        return;
      }
      ghost var before := target;
      ok := CopyClaim(sector, n, status, copyRange && status.Data?);
      if ok {
        CopiedFurther(Source(), init, before, target, 0, sector, sector + n);
      }
    }

    /** The first pass of `convert_do_copy`, which only counts. */
    method CountAllocated() returns (ok: bool, allocatedSectors: nat)
      requires Ready() && nextStatus == 0
      modifies this`status, this`nextStatus
      ensures ok ==> allocatedSectors <= |Source()|
      ensures NoErrors(c) ==> ok
    {
      var sector, total := 0, |Flat(c.parts)|;
      allocatedSectors := 0;
      while sector < total
        invariant 0 <= allocatedSectors <= sector <= total && CacheOk(sector)
      {
        var n: nat;
        ok, n := IterationSectors(sector);
        if !ok {
          return;
        }
        if status.Data? || (c.minSparse == 0 && status.Zero?) {
          allocatedSectors := allocatedSectors + n;
        }
        CacheMoves(sector, sector + n);
        sector := sector + n;
      }
      ok := true;
    }

    /** The two passes of `convert_do_copy`, with one coroutine. When they succeed, the target shows the sources
        one after the other and nothing beyond them has changed. */
    method DoCopy() returns (ok: bool)
      requires Ready() && target == init && nextStatus == 0
      modifies this
      ensures ok ==> Copied(Source(), init, target, 0, |Source()|)
      ensures NoErrors(c) ==> ok
    {
      var toCopy: nat;
      ok, toCopy := CountAllocated();
      if !ok {
        return;
      }
      nextStatus := 0;
      var sector, total := 0, |Flat(c.parts)|;
      while sector < total
        invariant 0 <= sector <= total && CacheOk(sector) && Copied(Source(), init, target, 0, sector)
      {
        var n: nat;
        ok, n := CopyNext(sector);
        if !ok {
          return;
        }
        sector := sector + n;
      }
      ok := true;
    }

    lemma CacheMoves(from: nat, to: nat)
      requires Ready() && CacheOk(from) && from <= to
      ensures CacheOk(to)
    {
      if to < nextStatus {
        KindShrinks(c, init, status, from, nextStatus, to);
      }
    }
  }

  ghost predicate NoErrors(c: Config) {
    && (forall p: nat, off: nat, n: nat {:trigger c.status(p, off, n)} :: c.status(p, off, n).Status?)
    && (forall at: nat, n: nat {:trigger c.readOk(at, n)} :: c.readOk(at, n))
    && (forall at: nat {:trigger c.writeOk(at)} :: c.writeOk(at))
  }

  lemma StillPending(init: seq<Sector>, src: seq<Sector>, t: seq<Sector>, t': seq<Sector>, lo: nat, m: nat, hi: nat)
    requires Pending(init, src, t, lo, hi) && Copied(src, t, t', lo, m) && m <= hi
    ensures Pending(init, src, t', lo, hi)
  {
  }

  lemma CopiedOver(src: seq<Sector>, t: seq<Sector>, mid: seq<Sector>, t': seq<Sector>, lo: nat, hi: nat)
    requires lo <= hi && Copied(src, mid, t', lo, hi) && exists m :: lo <= m <= hi && Copied(src, t, mid, lo, m)
    ensures Copied(src, t, t', lo, hi)
  {
  }

  /** `xs` written over `t` at `at`. */
  function Put(t: seq<Sector>, at: nat, xs: seq<Sector>): (r: seq<Sector>)
    requires at + |xs| <= |t|
    ensures |r| == |t|
    ensures forall k :: 0 <= k < |t| ==> r[k] == if at <= k < at + |xs| then xs[k - at] else t[k]
  {
    t[..at] + xs + t[at + |xs|..]
  }

  /** `done` sectors of a part, from `off` on, written over `t` at `at`. */
  function CopyPart(c: Config, t: seq<Sector>, p: nat, off: nat, at: nat, done: nat): (r: seq<Sector>)
    requires p < |c.parts| && at == Base(c.parts, p) + off && off + done <= |c.parts[p]| && |Flat(c.parts)| <= |t|
    ensures Copied(Flat(c.parts), t, r, at, at + done)
  {
    PartRange(c.parts, p, at, at + done);
    PutCopies(Flat(c.parts), t, at, c.parts[p][off..off + done]);
    Put(t, at, c.parts[p][off..off + done])
  }

  lemma PutCopies(src: seq<Sector>, t: seq<Sector>, at: nat, xs: seq<Sector>)
    requires at + |xs| <= |src| <= |t| && xs == src[at..at + |xs|]
    ensures Copied(src, t, Put(t, at, xs), at, at + |xs|)
  {
  }

  /** `t'` is `t` with the sectors `lo..hi` of the source, and nothing else changed. */
  ghost predicate Copied(src: seq<Sector>, t: seq<Sector>, t': seq<Sector>, lo: nat, hi: nat) {
    && |t'| == |t| && lo <= hi <= |src| <= |t|
    && forall k :: 0 <= k < |t| ==> t'[k] == if lo <= k < hi then src[k] else t[k]
  }

  /** Each sector of the range shows what it showed at first, or the source already. */
  ghost predicate Pending(init: seq<Sector>, src: seq<Sector>, t: seq<Sector>, lo: nat, hi: nat) {
    && |init| == |t| && hi <= |src| <= |t|
    && forall k :: lo <= k < hi ==> t[k] == init[k] || t[k] == src[k]
  }

  lemma CopiedFurther(src: seq<Sector>, t: seq<Sector>, mid: seq<Sector>, t': seq<Sector>, lo: nat, at: nat, hi: nat)
    requires Copied(src, t, mid, lo, at) && Copied(src, mid, t', at, hi)
    ensures Copied(src, t, t', lo, hi)
  {
  }

  lemma PendingLeft(init: seq<Sector>, src: seq<Sector>, t: seq<Sector>, t': seq<Sector>, lo: nat, at: nat, hi: nat)
    requires Pending(init, src, t, lo, hi) && Copied(src, t, t', lo, at) && at <= hi
    ensures Pending(init, src, t', at, hi)
  {
  }

  lemma SourcePrefix(src: seq<Sector>, at: nat, nb: nat, n: nat)
    requires at + nb <= |src| && n <= nb
    ensures src[at..at + nb][..n] == src[at..at + n]
  {
  }

  lemma KeptBacking(c: Config, init: seq<Sector>, t: seq<Sector>, lo: nat, hi: nat)
    requires |Flat(c.parts)| <= |init| && lo < hi
    requires KindTrue(c, init, Backing, lo, hi) && Pending(init, Flat(c.parts), t, lo, hi)
    ensures Copied(Flat(c.parts), t, t, lo, hi)
  {
    var src := Flat(c.parts);
    forall k | lo <= k < hi ensures t[k] == src[k] {
      assert src[lo..hi][k - lo] == init[lo..hi][k - lo];
    }
  }

  lemma KeptZeros(init: seq<Sector>, src: seq<Sector>, t: seq<Sector>, lo: nat, hi: nat)
    requires Pending(init, src, t, lo, hi) && lo <= hi && AllZero(src[lo..hi]) && AllZero(init[..|src|])
    ensures Copied(src, t, t, lo, hi)
  {
    forall k | lo <= k < hi ensures t[k] == src[k] {
      assert src[lo..hi][k - lo] == ZERO && init[..|src|][k] == ZERO;
    }
  }

  lemma PutZeros(src: seq<Sector>, t: seq<Sector>, lo: nat, hi: nat)
    requires lo <= hi <= |src| <= |t| && AllZero(src[lo..hi])
    ensures Copied(src, t, Put(t, lo, seq(hi - lo, i => ZERO)), lo, hi)
  {
    forall k | lo <= k < hi ensures src[k] == ZERO {
      assert src[lo..hi][k - lo] == ZERO;
    }
  }

  lemma KindShrinks(c: Config, init: seq<Sector>, kind: Kind, lo: nat, hi: nat, mid: nat)
    requires |Flat(c.parts)| <= |init| && KindTrue(c, init, kind, lo, hi) && lo <= mid <= hi
    ensures KindTrue(c, init, kind, lo, mid) && KindTrue(c, init, kind, mid, hi)
  {
    if lo < hi {
      var src := Flat(c.parts);
      SubSlice(src, lo, hi, 0, mid - lo);
      SubSlice(src, lo, hi, mid - lo, hi - lo);
      if kind.Backing? {
        SubSlice(init, lo, hi, 0, mid - lo);
        SubSlice(init, lo, hi, mid - lo, hi - lo);
      }
    }
  }

  // ------------------------------------------------------------------ the whole conversion

  datatype Answer = Converted | InvalidCluster | IoError

  /** What the command line and the drivers promise before the conversion: `zeroFlag` is
      `--target-is-zero`, and `driverZero` the answer of `bdrv_has_zero_init`. */
  ghost predicate Promised(c: Config, zeroFlag: bool, isNew: bool, driverZero: bool, target: seq<Sector>) {
    && |Flat(c.parts)| <= |target|
    && |c.srcAlignment| == |c.parts| && (forall i :: 0 <= i < |c.parts| ==> 0 < c.srcAlignment[i])
    && 0 < c.alignment && 0 < c.bufSectors
    && (zeroFlag ==> !c.hasBacking) && (zeroFlag || (isNew && driverZero && !c.hasBacking) ==> AllZero(target[..|Flat(c.parts)|]))
    && BackingOk(c, target)
    && Truthful(c, target) && WholeSectors(c)
  }

  lemma SameStatus(c: Config, buf: nat, init: seq<Sector>)
    requires |Flat(c.parts)| <= |init| && Truthful(c, init) && WholeSectors(c)
    ensures Truthful(c.(bufSectors := buf), init) && WholeSectors(c.(bufSectors := buf))
  {
    var d := c.(bufSectors := buf);
    forall p: nat, off: nat, n: nat ensures TruthfulAt(d, init, p, off, n) && WholeAt(d, p, off, n) {
      assert c.status(p, off, n) == d.status(p, off, n) && TruthfulAt(c, init, p, off, n) && WholeAt(c, p, off, n);
    }
  }

  /** `convert_do_copy`: for every number of sources, sparse threshold, alignment, compression
      and zero-initialisation setting, success means that the target shows the sources one
      after the other and is otherwise unchanged. Without I/O errors only an unusable cluster
      size stands in the way. */
  method ConvertDoCopy(c: Config, zeroFlag: bool, isNew: bool, driverZero: bool, copyRange: bool, target: seq<Sector>)
    returns (answer: Answer, result: seq<Sector>)
    requires Promised(c, zeroFlag, isNew, driverZero, target)
    ensures answer == InvalidCluster <==> c.compressed && (c.clusterSectors == 0 || c.bufSectors < c.clusterSectors)
    ensures answer == Converted ==> Copied(Flat(c.parts), target, result, 0, |Flat(c.parts)|)
    ensures answer == InvalidCluster ==> result == target
    ensures NoErrors(c) ==> answer != IoError
  {
    var zeroInit := zeroFlag || (isNew && c.minSparse != 0 && !c.hasBacking && driverZero);
    var buf := c.bufSectors;
    if c.compressed {
      if c.clusterSectors <= 0 || c.clusterSectors > c.bufSectors {
        return InvalidCluster, target;
      }
      buf := c.clusterSectors;
    }
    SameStatus(c, buf, target);
    var converter := new Converter(c.(bufSectors := buf), zeroInit, target, copyRange);
    var ok := converter.DoCopy();
    answer, result := if ok then Converted else IoError, converter.target;
  }
}
