/** `qemu-img compare`: the chunked comparison against the byte-by-byte meaning. */
module ImgCompare {
  import opened ImgBytes

  /** What `bdrv_block_status_above` says at one offset; `others` stands for the flags the
      comparison does not look into. */
  datatype Status = Failed | Status(alloc: bool, zero: bool, others: nat, pnum: nat)

  /** The flag words are equal; the lengths of the runs may differ. */
  predicate SameFlags(s1: Status, s2: Status) {
    s1.Status? && s2.Status? && s1.(pnum := 0) == s2.(pnum := 0)
  }

  datatype Image = Image(data: seq<Byte>, status: nat -> Status, readable: (nat, nat) -> bool)

  /** The answer at `off` covers at least one byte, stays within the image and is true. */
  predicate TruthfulAt(img: Image, off: nat) {
    var s := img.status(off);
    s.Status? && off < |img.data| ==>
      && 1 <= s.pnum <= |img.data| - off
      && (s.zero || !s.alloc ==> Zeros(img.data[off..off + s.pnum]))
  }

  ghost predicate Truthful(img: Image) {
    forall off: nat {:trigger img.status(off)} :: TruthfulAt(img, off)
  }

  ghost predicate NoErrors(img: Image) {
    && (forall off: nat {:trigger img.status(off)} :: img.status(off).Status?)
    && (forall off: nat, n: nat {:trigger img.readable(off, n)} :: img.readable(off, n))
  }

  datatype Verdict =
    | Identical
    | Mismatch(offset: nat)
    | SizeMismatch
    | StatusMismatch(offset: nat)
    | StatusError
    | ReadError

  /** The exit code of the command. */
  function ExitCode(v: Verdict): nat {
    match v
    case Identical => 0
    case Mismatch(_) | SizeMismatch | StatusMismatch(_) => 1
    case StatusError => 3
    case ReadError => 4
  }

  // ------------------------------------------------------------------ the byte-level meaning

  ghost predicate SameUpTo(a: seq<Byte>, b: seq<Byte>, n: nat) {
    forall i: nat :: i < n ==> At(a, i) == At(b, i)
  }

  ghost predicate Same(a: seq<Byte>, b: seq<Byte>) {
    forall i: nat :: At(a, i) == At(b, i)
  }

  ghost predicate FirstDiff(a: seq<Byte>, b: seq<Byte>, d: nat) {
    SameUpTo(a, b, d) && At(a, d) != At(b, d)
  }

  lemma LongerIsEnough(a: seq<Byte>, b: seq<Byte>, n: nat)
    requires SameUpTo(a, b, n) && |a| <= n && |b| <= n
    ensures Same(a, b)
  {
  }

  // ------------------------------------------------------------------ where a mismatch is reported

  /** The length of the chunk at `off`: the data is read unless both images are known to be
      zero or both are unallocated there. */
  function ChunkAt(i1: Image, i2: Image, off: nat): (n: nat) {
    var s1, s2 := i1.status(off), i2.status(off);
    if off < |i1.data| && off < |i2.data| then
      if s1.Failed? || s2.Failed? then 0
      else
        var n := Min(s1.pnum, s2.pnum);
        if (s1.zero && s2.zero) || (!s1.alloc && !s2.alloc) then n else Min(n, IO_BUF)
    else
      var s := if |i2.data| <= off < |i1.data| then s1 else s2;
      if s.Failed? then 0 else if s.alloc && !s.zero then Min(s.pnum, IO_BUF) else s.pnum
  }

  /** The start of the chunk that holds byte `d`, counted from the chunk boundary `off`. */
  function ChunkStart(i1: Image, i2: Image, off: nat, d: nat): (r: nat)
    requires off <= d
    ensures off <= r <= d
    decreases d - off
  {
    var n := ChunkAt(i1, i2, off);
    if n == 0 || d < off + n then off else ChunkStart(i1, i2, off + n, d)
  }

  /** The sector boundary at or before `d`, counted from the start of its chunk. */
  function Reported(i1: Image, i2: Image, d: nat): (r: nat)
    ensures r <= d < r + SECTOR
  {
    var c := ChunkStart(i1, i2, 0, d);
    d - (d - c) % SECTOR
  }

  ghost predicate AlignedAt(img: Image, off: nat) {
    var s := img.status(off);
    off % SECTOR == 0 && s.Status? ==> s.pnum % SECTOR == 0 || off + s.pnum >= |img.data|
  }

  ghost predicate AlignedRuns(img: Image) {
    forall off: nat {:trigger img.status(off)} :: AlignedAt(img, off)
  }

  lemma RunAligned(img: Image, off: nat)
    requires Truthful(img) && AlignedRuns(img) && off % SECTOR == 0 && |img.data| % SECTOR == 0
    requires off < |img.data| && img.status(off).Status?
    ensures img.status(off).pnum % SECTOR == 0
  {
    assert TruthfulAt(img, off) && AlignedAt(img, off);
  }

  lemma ChunkAligned(i1: Image, i2: Image, off: nat)
    requires Truthful(i1) && Truthful(i2) && AlignedRuns(i1) && AlignedRuns(i2)
    requires off % SECTOR == 0 && |i1.data| % SECTOR == 0 && |i2.data| % SECTOR == 0
    requires off < |i1.data| || off < |i2.data|
    ensures ChunkAt(i1, i2, off) % SECTOR == 0
  {
    if off < |i1.data| && i1.status(off).Status? {
      RunAligned(i1, off);
    }
    if off < |i2.data| && i2.status(off).Status? {
      RunAligned(i2, off);
    }
  }

  lemma {:induction false} ChunksStayAligned(i1: Image, i2: Image, off: nat, d: nat)
    requires Truthful(i1) && Truthful(i2) && AlignedRuns(i1) && AlignedRuns(i2) && off <= d
    requires off % SECTOR == 0 && |i1.data| % SECTOR == 0 && |i2.data| % SECTOR == 0
    requires d < |i1.data| || d < |i2.data|
    ensures ChunkStart(i1, i2, off, d) % SECTOR == 0
    decreases d - off
  {
    var n := ChunkAt(i1, i2, off);
    if n != 0 && off + n <= d {
      ChunkAligned(i1, i2, off);
      ChunksStayAligned(i1, i2, off + n, d);
    }
  }

  /** The reported offset starts a sector exactly when the chunk around the first difference
      starts at one; that is always so when sizes and runs are multiples of a sector. */
  lemma ReportedSector(i1: Image, i2: Image, d: nat)
    ensures Reported(i1, i2, d) % SECTOR == 0 <==> ChunkStart(i1, i2, 0, d) % SECTOR == 0
    ensures Reported(i1, i2, d) % SECTOR == 0 ==> Reported(i1, i2, d) == d - d % SECTOR
    ensures Truthful(i1) && Truthful(i2) && AlignedRuns(i1) && AlignedRuns(i2)
            && |i1.data| % SECTOR == 0 && |i2.data| % SECTOR == 0 && (d < |i1.data| || d < |i2.data|)
            ==> Reported(i1, i2, d) == d - d % SECTOR
  {
    if Truthful(i1) && Truthful(i2) && AlignedRuns(i1) && AlignedRuns(i2)
      && |i1.data| % SECTOR == 0 && |i2.data| % SECTOR == 0 && (d < |i1.data| || d < |i2.data|)
    {
      ChunksStayAligned(i1, i2, 0, d);
    }
  }

  // ------------------------------------------------------------------ the command

  /** `off` is a place where the comparison starts a chunk. */
  ghost predicate Boundary(i1: Image, i2: Image, off: nat) {
    forall d: nat {:trigger ChunkStart(i1, i2, off, d)} :: off <= d ==> ChunkStart(i1, i2, 0, d) == ChunkStart(i1, i2, off, d)
  }

  lemma NextBoundary(i1: Image, i2: Image, off: nat)
    requires Boundary(i1, i2, off) && ChunkAt(i1, i2, off) > 0
    ensures Boundary(i1, i2, off + ChunkAt(i1, i2, off))
  {
    var next := off + ChunkAt(i1, i2, off);
    forall d: nat | next <= d ensures ChunkStart(i1, i2, 0, d) == ChunkStart(i1, i2, next, d) {
      assert ChunkStart(i1, i2, off, d) == ChunkStart(i1, i2, next, d);
    }
  }

  /** The flags are equal at the start of every chunk before `hi`. */
  ghost predicate FlagsAgree(i1: Image, i2: Image, hi: nat) {
    forall d: nat {:trigger ChunkStart(i1, i2, 0, d)} :: d < hi ==>
      var c := ChunkStart(i1, i2, 0, d); SameFlags(i1.status(c), i2.status(c))
  }

  /** `off` starts a chunk; the flags differ there and nowhere before. */
  ghost predicate FirstFlags(i1: Image, i2: Image, off: nat) {
    ChunkStart(i1, i2, 0, off) == off && FlagsAgree(i1, i2, off) && !SameFlags(i1.status(off), i2.status(off))
  }

  lemma FlagsNext(i1: Image, i2: Image, off: nat)
    requires Boundary(i1, i2, off) && FlagsAgree(i1, i2, off) && SameFlags(i1.status(off), i2.status(off))
    ensures FlagsAgree(i1, i2, off + ChunkAt(i1, i2, off))
  {
    forall d: nat | off <= d < off + ChunkAt(i1, i2, off) ensures ChunkStart(i1, i2, 0, d) == off {
      assert ChunkStart(i1, i2, off, d) == off;
    }
  }

  ghost predicate Agree(a: seq<Byte>, b: seq<Byte>, lo: nat, hi: nat) {
    forall i: nat :: lo <= i < hi ==> At(a, i) == At(b, i)
  }

  lemma {:induction false} FirstIn(a: seq<Byte>, b: seq<Byte>, lo: nat, hi: nat) returns (d: nat)
    requires SameUpTo(a, b, lo) && !Agree(a, b, lo, hi)
    ensures lo <= d < hi && FirstDiff(a, b, d)
    decreases hi - lo
  {
    if At(a, lo) != At(b, lo) {
      d := lo;
    } else {
      d := FirstIn(a, b, lo + 1, hi);
    }
  }

  /** The verdict `Mismatch(offset)` is right: the first difference lies in the sector that
      starts there, counted from the start of the chunk. */
  ghost predicate Justified(i1: Image, i2: Image, offset: nat) {
    exists d: nat :: FirstDiff(i1.data, i2.data, d) && Reported(i1, i2, d) == offset
  }

  lemma SectorFound(i1: Image, i2: Image, off: nat, offset: nat)
    requires Boundary(i1, i2, off) && off <= offset < off + ChunkAt(i1, i2, off) && (offset - off) % SECTOR == 0
    requires SameUpTo(i1.data, i2.data, offset)
    requires !Agree(i1.data, i2.data, offset, Min(offset + SECTOR, off + ChunkAt(i1, i2, off)))
    ensures Justified(i1, i2, offset)
  {
    var d := FirstIn(i1.data, i2.data, offset, Min(offset + SECTOR, off + ChunkAt(i1, i2, off)));
    assert ChunkStart(i1, i2, off, d) == off;
  }

  /** `check_empty_sectors` over `n` bytes at `off`. */
  method CheckEmptySectors(img: Image, off: nat, n: nat) returns (v: Verdict)
    requires off + n <= |img.data|
    ensures v.Identical? || v.Mismatch? || v.ReadError?
    ensures v.ReadError? <==> !img.readable(off, n)
    ensures v.Identical? ==> Zeros(img.data[off..off + n])
    ensures v.Mismatch? ==> off <= v.offset < off + n && (v.offset - off) % SECTOR == 0
    ensures v.Mismatch? ==> Zeros(img.data[off..v.offset]) && !Zeros(img.data[v.offset..Min(v.offset + SECTOR, off + n)])
  {
    if !img.readable(off, n) {
      return ReadError;
    }
    var buffer := img.data[off..off + n];
    var idx := FindNonzero(buffer);
    if idx >= 0 {
      SubSlice(img.data, off, off + n, 0, idx);
      SubSlice(img.data, off, off + n, idx, Min(idx + SECTOR, n));
      return Mismatch(off + idx);
    }
    return Identical;
  }

  /** What a verdict on one chunk means for the whole comparison. */
  ghost predicate ChunkVerdict(i1: Image, i2: Image, off: nat, v: Verdict) {
    match v
    case Identical => SameUpTo(i1.data, i2.data, off + ChunkAt(i1, i2, off))
    case Mismatch(offset) => Justified(i1, i2, offset)
    case ReadError => !NoErrors(i1) || !NoErrors(i2)
    case _ => false
  }

  /** A chunk of which one image is known to read as zeros. */
  lemma EmptyVerdict(i1: Image, i2: Image, off: nat, img: Image, other: Image, v: Verdict)
    requires Boundary(i1, i2, off) && SameUpTo(i1.data, i2.data, off)
    requires (img, other) == (i1, i2) || (img, other) == (i2, i1)
    requires var n := ChunkAt(i1, i2, off);
             && off + n <= |img.data| && (forall i: nat :: off <= i < off + n ==> At(other.data, i) == 0)
             && (v.Identical? ==> Zeros(img.data[off..off + n]))
             && (v.Mismatch? ==> off <= v.offset < off + n && (v.offset - off) % SECTOR == 0)
             && (v.Mismatch? ==> Zeros(img.data[off..v.offset]) && !Zeros(img.data[v.offset..Min(v.offset + SECTOR, off + n)]))
    ensures v.Identical? || v.Mismatch? ==> ChunkVerdict(i1, i2, off, v)
  {
    var n := ChunkAt(i1, i2, off);
    if v.Identical? {
      forall i: nat | off <= i < off + n ensures At(img.data, i) == 0 {
        assert img.data[i] == img.data[off..off + n][i - off];
      }
    } else if v.Mismatch? {
      var hi := Min(v.offset + SECTOR, off + n);
      forall i: nat | off <= i < v.offset ensures At(img.data, i) == 0 {
        assert img.data[i] == img.data[off..v.offset][i - off];
      }
      var k :| 0 <= k < hi - v.offset && img.data[v.offset..hi][k] != 0;
      assert At(img.data, v.offset + k) != At(other.data, v.offset + k);
      SectorFound(i1, i2, off, v.offset);
    }
  }

  lemma KnownZero(img: Image, off: nat, n: nat)
    requires TruthfulAt(img, off) && off < |img.data| && img.status(off).Status?
    requires (img.status(off).zero || !img.status(off).alloc) && n <= img.status(off).pnum
    ensures forall i: nat :: off <= i < off + n ==> At(img.data, i) == 0
  {
    var zeros := img.data[off..off + img.status(off).pnum];
    forall i: nat | off <= i < off + n ensures At(img.data, i) == 0 {
      assert img.data[i] == zeros[i - off];
    }
  }

  /** The body of the first loop of `img_compare` when both images have data. */
  method CompareData(i1: Image, i2: Image, off: nat, chunk: nat) returns (v: Verdict)
    requires chunk == ChunkAt(i1, i2, off) && 0 < chunk && off + chunk <= |i1.data| && off + chunk <= |i2.data|
    requires Boundary(i1, i2, off) && SameUpTo(i1.data, i2.data, off)
    ensures ChunkVerdict(i1, i2, off, v)
  {
    if !i1.readable(off, chunk) || !i2.readable(off, chunk) {
      return ReadError;
    }
    var buf1, buf2 := i1.data[off..off + chunk], i2.data[off..off + chunk];
    var res, pnum := CompareBuffers(buf1, buf2);
    if res || pnum != chunk {
      var offset := off + (if res then 0 else pnum);
      DataMismatch(i1, i2, off, buf1, buf2, offset);
      return Mismatch(offset);
    }
    forall i: nat | off <= i < off + chunk ensures At(i1.data, i) == At(i2.data, i) {
      assert i1.data[i] == buf1[..chunk][i - off] && i2.data[i] == buf2[..chunk][i - off];
    }
    return Identical;
  }

  lemma DataMismatch(i1: Image, i2: Image, off: nat, buf1: seq<Byte>, buf2: seq<Byte>, offset: nat)
    requires var n := ChunkAt(i1, i2, off);
             && off <= offset < off + n && (offset - off) % SECTOR == 0 && off + n <= |i1.data| && off + n <= |i2.data|
             && buf1 == i1.data[off..off + n] && buf2 == i2.data[off..off + n]
    requires Boundary(i1, i2, off) && SameUpTo(i1.data, i2.data, off)
    requires buf1[..offset - off] == buf2[..offset - off] && Sector(buf1, offset - off) != Sector(buf2, offset - off)
    ensures Justified(i1, i2, offset)
  {
    var n := ChunkAt(i1, i2, off);
    forall i: nat | off <= i < offset ensures At(i1.data, i) == At(i2.data, i) {
      assert i1.data[i] == buf1[..offset - off][i - off] && i2.data[i] == buf2[..offset - off][i - off];
    }
    var hi := Min(offset + SECTOR, off + n);
    var x, y := Sector(buf1, offset - off), Sector(buf2, offset - off);
    assert |x| == |y| == hi - offset;
    var k :| 0 <= k < |x| && x[k] != y[k];
    assert x[k] == buf1[offset - off + k] == i1.data[offset + k] && y[k] == buf2[offset - off + k] == i2.data[offset + k];
    assert At(i1.data, offset + k) != At(i2.data, offset + k);
    SectorFound(i1, i2, off, offset);
  }

  /** One round of the first loop of `img_compare`. */
  method CompareChunk(i1: Image, i2: Image, strict: bool, off: nat) returns (v: Verdict)
    requires Truthful(i1) && Truthful(i2) && off < |i1.data| && off < |i2.data|
    requires Boundary(i1, i2, off) && SameUpTo(i1.data, i2.data, off)
    ensures v.StatusError? <==> i1.status(off).Failed? || i2.status(off).Failed?
    ensures v.StatusMismatch? <==> strict && !v.StatusError? && !SameFlags(i1.status(off), i2.status(off))
    ensures v.StatusMismatch? ==> v.offset == off
    ensures v.StatusError? || v.StatusMismatch? || (0 < ChunkAt(i1, i2, off) && ChunkVerdict(i1, i2, off, v))
    ensures v.Identical? ==> off + ChunkAt(i1, i2, off) <= Min(|i1.data|, |i2.data|)
  {
    var s1, s2 := i1.status(off), i2.status(off);
    if s1.Failed? || s2.Failed? {
      return StatusError;
    }
    assert TruthfulAt(i1, off) && TruthfulAt(i2, off);
    var chunk := Min(s1.pnum, s2.pnum);
    if strict && !SameFlags(s1, s2) {
      return StatusMismatch(off);
    }
    if s1.zero && s2.zero {
      KnownZero(i1, off, chunk);
      KnownZero(i2, off, chunk);
      return Identical;
    } else if s1.alloc == s2.alloc {
      if s1.alloc {
        chunk := Min(chunk, IO_BUF);
        v := CompareData(i1, i2, off, chunk);
      } else {
        KnownZero(i1, off, chunk);
        KnownZero(i2, off, chunk);
        return Identical;
      }
    } else {
      chunk := Min(chunk, IO_BUF);
      if s1.alloc {
        v := CheckEmptySectors(i1, off, chunk);
        KnownZero(i2, off, chunk);
        EmptyVerdict(i1, i2, off, i1, i2, v);
      } else {
        v := CheckEmptySectors(i2, off, chunk);
        KnownZero(i1, off, chunk);
        EmptyVerdict(i1, i2, off, i2, i1, v);
      }
    }
  }

  /** One round of the second loop of `img_compare`, over the part only `over` has. */
  method CompareTail(i1: Image, i2: Image, off: nat) returns (v: Verdict)
    requires Truthful(i1) && Truthful(i2)
    requires |i1.data| <= off < |i2.data| || |i2.data| <= off < |i1.data|
    requires Boundary(i1, i2, off) && SameUpTo(i1.data, i2.data, off)
    ensures v.StatusError? <==> (if |i1.data| > |i2.data| then i1 else i2).status(off).Failed?
    ensures v.StatusError? || (0 < ChunkAt(i1, i2, off) && ChunkVerdict(i1, i2, off, v))
    ensures v.Identical? ==> off + ChunkAt(i1, i2, off) <= |i1.data| || off + ChunkAt(i1, i2, off) <= |i2.data|
  {
    var over := if |i1.data| > |i2.data| then i1 else i2;
    ghost var short := if |i1.data| > |i2.data| then i2 else i1;
    var s := over.status(off);
    if s.Failed? {
      return StatusError;
    }
    assert TruthfulAt(over, off);
    if s.alloc && !s.zero {
      v := CheckEmptySectors(over, off, Min(s.pnum, IO_BUF));
      EmptyVerdict(i1, i2, off, over, short, v);
    } else {
      KnownZero(over, off, s.pnum);
      return Identical;
    }
  }

  /** `img_compare`. Every verdict is justified: identical images read the same when the
      shorter one is padded by zeros, a content mismatch is reported at the sector of the
      first difference, and a mismatch of flags at the first chunk that has one. Without
      errors there is always such a verdict, so the exit code is 0 exactly for images that
      read the same; in strict mode also the sizes and the flags of every chunk are equal. */
  method Compare(i1: Image, i2: Image, strict: bool) returns (v: Verdict)
    requires Truthful(i1) && Truthful(i2)
    ensures v.Identical? ==> Same(i1.data, i2.data)
    ensures v.Identical? && strict ==> |i1.data| == |i2.data| && FlagsAgree(i1, i2, |i1.data|)
    ensures v.Mismatch? ==> Justified(i1, i2, v.offset)
    ensures v.SizeMismatch? <==> strict && |i1.data| != |i2.data|
    ensures v.StatusMismatch? ==> strict && v.offset < |i1.data| && FirstFlags(i1, i2, v.offset)
    ensures NoErrors(i1) && NoErrors(i2) ==> !v.StatusError? && !v.ReadError?
    ensures NoErrors(i1) && NoErrors(i2) && !strict ==> (ExitCode(v) == 0 <==> Same(i1.data, i2.data))
    ensures NoErrors(i1) && NoErrors(i2) && strict ==>
              (ExitCode(v) == 0 <==> |i1.data| == |i2.data| && Same(i1.data, i2.data) && FlagsAgree(i1, i2, |i1.data|))
  {
    var size1, size2 := |i1.data|, |i2.data|;
    if strict && size1 != size2 {
      return SizeMismatch;
    }
    var off := 0;
    while off < size1 && off < size2
      invariant 0 <= off <= Min(size1, size2) && Boundary(i1, i2, off) && SameUpTo(i1.data, i2.data, off)
      invariant strict ==> FlagsAgree(i1, i2, off)
      decreases size1 - off
    {
      v := CompareChunk(i1, i2, strict, off);
      if !v.Identical? {
        assert ChunkStart(i1, i2, off, off) == off;
        return;
      }
      if strict {
        FlagsNext(i1, i2, off);
      }
      NextBoundary(i1, i2, off);
      off := off + ChunkAt(i1, i2, off);
    }
    while off < size1 || off < size2
      invariant Min(size1, size2) <= off && (off <= size1 || off <= size2)
      invariant Boundary(i1, i2, off) && SameUpTo(i1.data, i2.data, off)
      invariant strict ==> FlagsAgree(i1, i2, Min(size1, size2))
      decreases size1 + size2 - off
    {
      v := CompareTail(i1, i2, off);
      if !v.Identical? {
        return;
      }
      NextBoundary(i1, i2, off);
      off := off + ChunkAt(i1, i2, off);
    }
    LongerIsEnough(i1.data, i2.data, off);
    v := Identical;
  }

  lemma OneReport(i1: Image, i2: Image, d: nat, offset: nat)
    requires FirstDiff(i1.data, i2.data, d)
    ensures Justified(i1, i2, offset) <==> offset == Reported(i1, i2, d)
  {
    if Justified(i1, i2, offset) {
      var e: nat :| FirstDiff(i1.data, i2.data, e) && Reported(i1, i2, e) == offset;
      assert !(d < e) && !(e < d);
    }
  }

  /** When the status runs are not whole sectors, the reported offset need not start a sector:
      here a run of one zero byte makes the comparison start its chunk at offset 1, and 1 is
      the only offset it can report. */
  lemma UnalignedReport()
    ensures exists i1: Image, i2: Image ::
              && Truthful(i1) && Truthful(i2) && NoErrors(i1) && NoErrors(i2) && |i1.data| == |i2.data| == SECTOR
              && !Same(i1.data, i2.data) && forall offset: nat :: Justified(i1, i2, offset) <==> offset == 1
  {
    var status := (off: nat) => if off == 0 then Status(true, true, 0, 1) else Status(true, false, 0, if off < SECTOR then SECTOR - off else 0);
    var i1 := Image(seq(SECTOR, i => 0), status, (off, n) => true);
    var i2 := Image(seq(SECTOR, i => if i == 2 then 1 else 0), status, (off, n) => true);
    forall off: nat ensures TruthfulAt(i1, off) && TruthfulAt(i2, off) {
    }
    assert ChunkStart(i1, i2, 1, 2) == 1;
    assert FirstDiff(i1.data, i2.data, 2) && Reported(i1, i2, 2) == 1;
    forall offset: nat ensures Justified(i1, i2, offset) <==> offset == 1 {
      OneReport(i1, i2, 2, offset);
    }
  }
}
