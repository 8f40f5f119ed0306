/** The coroutines of `qemu-img convert` as an interleaved machine: each claims a range under
    the lock, reads it, waits for its turn when writes are kept in order, writes it and lets
    the next one go on. A step runs from one place where a coroutine may be suspended to the
    next; a write is one round of the loop of `convert_co_write`. */
module ImgConvertCo {
  import opened ImgSparse
  import opened ImgConvert

  datatype Pc =
    | NotStarted
    | Top                                  // at the head of the loop
    | Claimed(lo: nat, n: nat)             // reading
    | Ready(lo: nat, n: nat)               // about to look at `wr_offs`
    | Waiting(lo: nat, n: nat)             // suspended until `wr_offs` is `lo`
    | Writing(lo: nat, n: nat, done: nat)  // the first `done` sectors are written
    | Done

  datatype Ret = InProgress | Success | Error

  datatype State = State(co: seq<Pc>, sectorNum: nat, wrOffs: nat, target: seq<Sector>, ret: Ret)

  datatype Job = Job(src: seq<Sector>, init: seq<Sector>, zeroInit: bool, inOrder: bool)

  /** `zeroInit` is the value of `has_zero_init` during the copy. */
  ghost predicate JobOk(j: Job) {
    |j.src| <= |j.init| && (j.zeroInit ==> AllZero(j.init[..|j.src|]))
  }

  predicate HasClaim(p: Pc) {
    p.Claimed? || p.Ready? || p.Waiting? || p.Writing?
  }

  predicate Covers(p: Pc, k: int) {
    HasClaim(p) && p.lo <= k < p.lo + p.n
  }

  predicate Live(p: Pc) {
    p.Top? || HasClaim(p)
  }

  /** Sector `k` of the claim is still to be written. */
  predicate Unwritten(p: Pc, k: int) {
    Covers(p, k) && (p.Writing? ==> p.lo + p.done <= k)
  }

  // ------------------------------------------------------------------ steps

  datatype Move =
    | Start(i: nat)
    | Claim(i: nat, size: nat)
    | ClaimFails(i: nat)
    | Exit(i: nat)
    | Read(i: nat, ok: bool)
    | Check(i: nat)
    | Write(i: nat, size: nat, kind: Kind)
    | WriteFails(i: nat)
    | Retry(i: nat)                        // an offloaded copy has failed, perhaps at its very end
    | Advance(i: nat)

  /** The classification of the range is true (see `KindTrue`). */
  predicate RightKind(j: Job, kind: Kind, at: nat, size: nat)
    requires at + size <= |j.src| <= |j.init|
  {
    match kind
    case Data => true
    case Zero => AllZero(j.src[at..at + size])
    case Backing => j.src[at..at + size] == j.init[at..at + size]
  }

  /** What a round writes: nothing where the target shows the source already, explicit zeros
      where it need not be zero, the data otherwise. */
  function Written(j: Job, t: seq<Sector>, at: nat, size: nat, kind: Kind): (r: seq<Sector>)
    requires at + size <= |j.src| <= |t|
    ensures |r| == |t|
  {
    match kind
    case Backing => t
    case Zero => if j.zeroInit then t else Put(t, at, seq(size, i => ZERO))
    case Data => Put(t, at, j.src[at..at + size])
  }

  predicate Enabled(j: Job, s: State, m: Move) {
    && m.i < |s.co|
    && var p := s.co[m.i];
       match m
       case Start(_) => p.NotStarted?
       case Claim(_, size) => p.Top? && s.ret.InProgress? && s.sectorNum < |j.src| && 0 < size <= |j.src| - s.sectorNum
       case ClaimFails(_) => p.Top? && s.ret.InProgress? && s.sectorNum < |j.src|
       case Exit(_) => p.Top? && (!s.ret.InProgress? || s.sectorNum >= |j.src|)
       case Read(_, _) => p.Claimed?
       case Check(_) => p.Ready?
       case Write(_, size, kind) =>
         && p.Writing? && 0 < size && p.done + size <= p.n && p.lo + p.n <= |j.src| <= |s.target| == |j.init|
         && RightKind(j, kind, p.lo + p.done, size)
       case WriteFails(_) => p.Writing? && p.done < p.n
       case Retry(_) => p.Writing?
       case Advance(_) => p.Writing? && p.done == p.n
  }

  /** The loop that looks for a coroutine waiting for sector `at`, and enters the first. */
  function Wake(co: seq<Pc>, at: nat, from: nat): (r: seq<Pc>)
    requires from <= |co|
    ensures |r| == |co|
    ensures forall k :: 0 <= k < |co| ==> r[k] == co[k] || (co[k].Waiting? && co[k].lo == at && r[k] == Ready(at, co[k].n))
    decreases |co| - from
  {
    if from == |co| then co
    else if co[from].Waiting? && co[from].lo == at then co[from := Ready(at, co[from].n)]
    else Wake(co, at, from + 1)
  }

  predicate WaitsFor(p: Pc, at: nat) {
    p.Waiting? && p.lo == at
  }

  lemma {:induction false} NobodyLeft(co: seq<Pc>, at: nat, from: nat)
    requires from <= |co| && (forall k :: 0 <= k < from ==> !WaitsFor(co[k], at))
    requires forall k, l :: 0 <= k < |co| && 0 <= l < |co| && WaitsFor(co[k], at) && WaitsFor(co[l], at) ==> k == l
    ensures forall k :: 0 <= k < |co| ==> !WaitsFor(Wake(co, at, from)[k], at)
    decreases |co| - from
  {
    if from < |co| && !WaitsFor(co[from], at) {
      NobodyLeft(co, at, from + 1);
    }
  }

  function Apply(j: Job, s: State, m: Move): (r: State)
    requires Enabled(j, s, m)
  {
    var p := s.co[m.i];
    match m
    case Start(i) => s.(co := s.co[i := Top])
    case Claim(i, size) => s.(co := s.co[i := Claimed(s.sectorNum, size)], sectorNum := s.sectorNum + size)
    case ClaimFails(i) => s.(co := s.co[i := Done], ret := Error)
    case Exit(i) =>
      var co := s.co[i := Done];
      s.(co := co, ret := if s.ret.InProgress? && (forall k :: 0 <= k < |co| ==> !Live(co[k])) then Success else s.ret)
    case Read(i, ok) => s.(co := s.co[i := Ready(p.lo, p.n)], ret := if ok then s.ret else Error)
    case Check(i) =>
      s.(co := s.co[i := if !s.ret.InProgress? then Writing(p.lo, p.n, p.n)
                         else if j.inOrder && s.wrOffs != p.lo then Waiting(p.lo, p.n)
                         else Writing(p.lo, p.n, 0)])
    case Write(i, size, kind) =>
      s.(co := s.co[i := p.(done := p.done + size)], target := Written(j, s.target, p.lo + p.done, size, kind))
    case WriteFails(i) => s.(co := s.co[i := p.(done := p.n)], ret := Error)
    case Retry(i) => s.(co := s.co[i := Claimed(p.lo, p.n)])
    case Advance(i) =>
      var co := s.co[i := Top];
      if j.inOrder then s.(co := Wake(co, p.lo + p.n, 0), wrOffs := p.lo + p.n) else s.(co := co)
  }

  // ------------------------------------------------------------------ the invariant

  ghost predicate ClaimsOk(j: Job, s: State) {
    && s.sectorNum <= |j.src| <= |j.init| == |s.target|
    && forall i :: 0 <= i < |s.co| && HasClaim(s.co[i]) ==>
         var p := s.co[i]; 0 < p.n && p.lo + p.n <= s.sectorNum && (p.Writing? ==> p.done <= p.n)
  }

  ghost predicate Disjoint(s: State) {
    forall i, l, k :: 0 <= i < |s.co| && 0 <= l < |s.co| && Covers(s.co[i], k) && Covers(s.co[l], k) ==> i == l
  }

  /** No sector shows anything but its first content or the source. */
  ghost predicate OldOrNew(j: Job, s: State) {
    |s.target| == |j.init| >= |j.src|
    && forall k :: 0 <= k < |s.target| ==> s.target[k] == j.init[k] || (k < |j.src| && s.target[k] == j.src[k])
  }

  ghost predicate Copying(s: State, k: int) {
    exists i :: 0 <= i < |s.co| && Unwritten(s.co[i], k)
  }

  /** What was claimed and is no longer on its way has arrived. */
  ghost predicate Arrived(j: Job, s: State) {
    |s.target| >= |j.src| >= s.sectorNum
    && (!s.ret.Error? ==> forall k :: 0 <= k < s.sectorNum ==> s.target[k] == j.src[k] || Copying(s, k))
  }

  ghost predicate Owned(s: State, k: int) {
    exists i :: 0 <= i < |s.co| && Covers(s.co[i], k)
  }

  /** Writes in order: everything from `wr_offs` on is still claimed, only the claim that
      starts there is being written, and nobody waits for it. */
  ghost predicate InOrder(j: Job, s: State) {
    j.inOrder && s.ret.InProgress? ==>
      && s.wrOffs <= s.sectorNum
      && (forall i :: 0 <= i < |s.co| && HasClaim(s.co[i]) ==>
            && s.wrOffs <= s.co[i].lo && (s.co[i].Writing? ==> s.co[i].lo == s.wrOffs) && (s.co[i].Waiting? ==> s.co[i].lo != s.wrOffs))
      && (forall k :: s.wrOffs <= k < s.sectorNum ==> Owned(s, k))
  }

  ghost predicate EndsAt(s: State, k: int) {
    exists l :: 0 <= l < |s.co| && HasClaim(s.co[l]) && s.co[l].lo + s.co[l].n == k
  }

  /** Whoever waits, waits for the end of a claim that is still held. */
  ghost predicate WaitersHaveOwners(j: Job, s: State) {
    forall i :: 0 <= i < |s.co| && s.co[i].Waiting? ==> j.inOrder && EndsAt(s, s.co[i].lo)
  }

  ghost predicate Finished(j: Job, s: State) {
    && (s.ret.Success? ==> s.sectorNum == |j.src| && forall i :: 0 <= i < |s.co| ==> !HasClaim(s.co[i]))
    && (s.ret.InProgress? && (exists i :: 0 <= i < |s.co| && s.co[i].Done?) ==> exists i :: 0 <= i < |s.co| && Live(s.co[i]))
  }

  ghost predicate Inv(j: Job, s: State) {
    && JobOk(j) && ClaimsOk(j, s) && Disjoint(s) && OldOrNew(j, s) && Arrived(j, s)
    && InOrder(j, s) && WaitersHaveOwners(j, s) && Finished(j, s)
  }

  function Initial(j: Job, coroutines: nat): State {
    State(seq(coroutines, i => NotStarted), 0, 0, j.init, InProgress)
  }

  lemma InitialInv(j: Job, coroutines: nat)
    requires JobOk(j)
    ensures Inv(j, Initial(j, coroutines))
  {
  }

  // ------------------------------------------------------------------ steps keep it

  /** Sparse writing: whatever the kind, in the range the target shows its first content or
      the source, so what is left out is already there. */
  lemma WriteIsCopy(j: Job, t: seq<Sector>, at: nat, size: nat, kind: Kind)
    requires JobOk(j) && at + size <= |j.src| && |t| == |j.init| && RightKind(j, kind, at, size)
    requires forall k :: at <= k < at + size ==> t[k] == j.init[k] || t[k] == j.src[k]
    ensures Written(j, t, at, size, kind) == Put(t, at, j.src[at..at + size])
  {
    var r := Written(j, t, at, size, kind);
    forall k | at <= k < at + size ensures r[k] == j.src[k] {
      assert j.src[at..at + size][k - at] == j.src[k] && j.init[at..at + size][k - at] == j.init[k];
      if j.zeroInit {
        assert j.init[..|j.src|][k] == ZERO;
      }
    }
  }

  lemma WriteTarget(j: Job, s: State, i: nat, size: nat, kind: Kind)
    requires Inv(j, s) && Enabled(j, s, Write(i, size, kind))
    ensures var at := s.co[i].lo + s.co[i].done;
            Written(j, s.target, at, size, kind) == Put(s.target, at, j.src[at..at + size])
  {
    var at := s.co[i].lo + s.co[i].done;
    forall k | at <= k < at + size ensures s.target[k] == j.init[k] || s.target[k] == j.src[k] {
      assert 0 <= k < |s.target|;
    }
    WriteIsCopy(j, s.target, at, size, kind);
  }

  lemma StepTarget(j: Job, s: State, m: Move)
    requires Inv(j, s) && Enabled(j, s, m)
    ensures !m.Write? ==> Apply(j, s, m).target == s.target
    ensures m.Write? ==>
              var at := s.co[m.i].lo + s.co[m.i].done;
              Apply(j, s, m).target == Put(s.target, at, j.src[at..at + m.size])
  {
    if m.Write? {
      WriteTarget(j, s, m.i, m.size, m.kind);
    }
  }

  lemma StepDisjoint(j: Job, s: State, m: Move)
    requires Inv(j, s) && Enabled(j, s, m)
    ensures ClaimsOk(j, Apply(j, s, m)) && Disjoint(Apply(j, s, m))
  {
    var r := Apply(j, s, m);
    forall i, k | 0 <= i < |s.co| && Covers(r.co[i], k) ensures Covers(s.co[i], k) || (m.Claim? && i == m.i && s.sectorNum <= k) {
    }
  }

  lemma StepOldOrNew(j: Job, s: State, m: Move)
    requires Inv(j, s) && Enabled(j, s, m)
    ensures OldOrNew(j, Apply(j, s, m))
  {
    StepTarget(j, s, m);
  }

  lemma StepArrived(j: Job, s: State, m: Move)
    requires Inv(j, s) && Enabled(j, s, m)
    ensures Arrived(j, Apply(j, s, m))
  {
    var r := Apply(j, s, m);
    StepDisjoint(j, s, m);
    StepOldOrNew(j, s, m);
    if !r.ret.Error? {
      forall k | 0 <= k < r.sectorNum ensures r.target[k] == j.src[k] || Copying(r, k) {
        if m.Claim? && s.sectorNum <= k {
          assert Unwritten(r.co[m.i], k);
        } else if s.target[k] != j.src[k] {
          var i :| 0 <= i < |s.co| && Unwritten(s.co[i], k);
          StillCopying(j, s, m, i, k);
        }
      }
    }
  }

  lemma StillCopying(j: Job, s: State, m: Move, i: nat, k: nat)
    requires Inv(j, s) && Enabled(j, s, m) && i < |s.co| && k < s.sectorNum && Unwritten(s.co[i], k)
    requires !Apply(j, s, m).ret.Error?
    ensures var r := Apply(j, s, m); |r.co| == |s.co| && (r.target[k] == j.src[k] || Unwritten(r.co[i], k))
  {
    StepTarget(j, s, m);
  }

  /** The claims after a step, one coroutine at a time. */
  lemma StepClaims(j: Job, s: State, m: Move, i: nat)
    requires Inv(j, s) && Enabled(j, s, m) && i < |s.co|
    ensures var p, q := s.co[i], Apply(j, s, m).co[i];
            && (i != m.i ==> q == p || (m.Advance? && j.inOrder && WaitsFor(p, s.co[m.i].lo + s.co[m.i].n) && q == Ready(p.lo, p.n)))
            && (HasClaim(p) && !(m.Advance? && i == m.i) ==> HasClaim(q) && q.lo == p.lo && q.n == p.n)
            && (HasClaim(q) && !HasClaim(p) ==> m.Claim? && i == m.i && q == Claimed(s.sectorNum, m.size))
            && (HasClaim(q) && HasClaim(p) ==> q.lo == p.lo && q.n == p.n)
  {
  }

  lemma WaitersUnique(j: Job, s: State, at: nat, k: nat, l: nat)
    requires Inv(j, s) && k < |s.co| && l < |s.co| && WaitsFor(s.co[k], at) && WaitsFor(s.co[l], at)
    ensures k == l
  {
    assert Covers(s.co[k], at) && Covers(s.co[l], at);
  }

  /** Giving up the claim at `wr_offs` leaves nobody waiting at the new `wr_offs`. */
  lemma AdvanceWakes(j: Job, s: State, i: nat)
    requires Inv(j, s) && Enabled(j, s, Advance(i)) && j.inOrder
    ensures forall k :: 0 <= k < |s.co| ==> !WaitsFor(Apply(j, s, Advance(i)).co[k], s.co[i].lo + s.co[i].n)
  {
    var at, co := s.co[i].lo + s.co[i].n, s.co[i := Top];
    forall k, l | 0 <= k < |co| && 0 <= l < |co| && WaitsFor(co[k], at) && WaitsFor(co[l], at) ensures k == l {
      WaitersUnique(j, s, at, k, l);
    }
    NobodyLeft(co, at, 0);
  }

  lemma StepOwned(j: Job, s: State, m: Move, k: int)
    requires Inv(j, s) && Enabled(j, s, m) && j.inOrder && Apply(j, s, m).ret.InProgress?
    requires Apply(j, s, m).wrOffs <= k < Apply(j, s, m).sectorNum
    ensures Owned(Apply(j, s, m), k)
  {
    var r := Apply(j, s, m);
    if m.Claim? && s.sectorNum <= k {
      assert Covers(r.co[m.i], k);
    } else {
      if m.Advance? {
        assert s.co[m.i].lo == s.wrOffs;
      }
      assert Owned(s, k);
      var i :| 0 <= i < |s.co| && Covers(s.co[i], k);
      StepClaims(j, s, m, i);
      assert Covers(r.co[i], k);
    }
  }

  lemma StepOrder(j: Job, s: State, m: Move, i: nat)
    requires Inv(j, s) && Enabled(j, s, m) && j.inOrder && Apply(j, s, m).ret.InProgress?
    requires i < |s.co| && HasClaim(Apply(j, s, m).co[i])
    ensures var r := Apply(j, s, m);
            && r.wrOffs <= r.co[i].lo && (r.co[i].Writing? ==> r.co[i].lo == r.wrOffs) && (r.co[i].Waiting? ==> r.co[i].lo != r.wrOffs)
  {
    var r := Apply(j, s, m);
    StepClaims(j, s, m, i);
    if m.Advance? {
      AdvanceWakes(j, s, m.i);
      var done := s.co[m.i];
      if r.co[i].lo < r.wrOffs {
        assert Covers(s.co[i], r.co[i].lo) && Covers(s.co[m.i], r.co[i].lo);
      }
    }
  }

  lemma StepInOrder(j: Job, s: State, m: Move)
    requires Inv(j, s) && Enabled(j, s, m)
    ensures InOrder(j, Apply(j, s, m))
  {
    var r := Apply(j, s, m);
    if j.inOrder && r.ret.InProgress? {
      forall i | 0 <= i < |r.co| && HasClaim(r.co[i])
        ensures r.wrOffs <= r.co[i].lo && (r.co[i].Writing? ==> r.co[i].lo == r.wrOffs) && (r.co[i].Waiting? ==> r.co[i].lo != r.wrOffs)
      {
        StepOrder(j, s, m, i);
      }
      forall k | r.wrOffs <= k < r.sectorNum ensures Owned(r, k) {
        StepOwned(j, s, m, k);
      }
    }
  }

  /** A coroutine that starts to wait finds the claim before its own still held. */
  lemma BeforeIsHeld(j: Job, s: State, i: nat)
    requires Inv(j, s) && i < |s.co| && HasClaim(s.co[i]) && j.inOrder && s.ret.InProgress? && s.wrOffs != s.co[i].lo
    ensures EndsAt(s, s.co[i].lo)
  {
    var k := s.co[i].lo - 1;
    assert Owned(s, k);
    var l :| 0 <= l < |s.co| && Covers(s.co[l], k);
    if s.co[l].lo + s.co[l].n > k + 1 {
      assert Covers(s.co[l], k + 1) && Covers(s.co[i], k + 1);
    }
  }

  lemma StepWaiters(j: Job, s: State, m: Move)
    requires Inv(j, s) && Enabled(j, s, m)
    ensures WaitersHaveOwners(j, Apply(j, s, m))
  {
    var r := Apply(j, s, m);
    forall i | 0 <= i < |r.co| && r.co[i].Waiting? ensures j.inOrder && EndsAt(r, r.co[i].lo) {
      StepClaims(j, s, m, i);
      if !s.co[i].Waiting? {
        BeforeIsHeld(j, s, i);
      }
      if m.Advance? {
        AdvanceWakes(j, s, m.i);
      }
      var l :| 0 <= l < |s.co| && HasClaim(s.co[l]) && s.co[l].lo + s.co[l].n == s.co[i].lo;
      StepClaims(j, s, m, l);
      assert HasClaim(r.co[l]);
    }
  }

  lemma StepFinished(j: Job, s: State, m: Move)
    requires Inv(j, s) && Enabled(j, s, m)
    ensures Finished(j, Apply(j, s, m))
  {
    var r := Apply(j, s, m);
    if r.ret.Success? {
      forall i | 0 <= i < |s.co| ensures !HasClaim(r.co[i]) {
        StepClaims(j, s, m, i);
      }
    }
    if r.ret.InProgress? && exists i :: 0 <= i < |r.co| && r.co[i].Done? {
      if m.Exit? {
        assert exists i :: 0 <= i < |r.co| && Live(r.co[i]);
      } else {
        assert Live(r.co[m.i]);
      }
    }
  }

  lemma StepKeepsInv(j: Job, s: State, m: Move)
    requires Inv(j, s) && Enabled(j, s, m)
    ensures Inv(j, Apply(j, s, m))
  {
    StepDisjoint(j, s, m);
    StepOldOrNew(j, s, m);
    StepArrived(j, s, m);
    StepInOrder(j, s, m);
    StepWaiters(j, s, m);
    StepFinished(j, s, m);
  }

  // ------------------------------------------------------------------ whole runs

  /** `s` is reached from the start by the moves `ms`. */
  ghost predicate Reached(j: Job, coroutines: nat, ms: seq<Move>, s: State)
    decreases |ms|
  {
    if ms == [] then s == Initial(j, coroutines)
    else exists t {:trigger Enabled(j, t, ms[|ms| - 1])} :: Reached(j, coroutines, ms[..|ms| - 1], t) && Enabled(j, t, ms[|ms| - 1]) && s == Apply(j, t, ms[|ms| - 1])
  }

  lemma {:induction false} ReachedInv(j: Job, coroutines: nat, ms: seq<Move>, s: State)
    requires JobOk(j) && Reached(j, coroutines, ms, s)
    ensures Inv(j, s)
    decreases |ms|
  {
    if ms == [] {
      InitialInv(j, coroutines);
    } else {
      var t :| Reached(j, coroutines, ms[..|ms| - 1], t) && Enabled(j, t, ms[|ms| - 1]) && s == Apply(j, t, ms[|ms| - 1]);
      ReachedInv(j, coroutines, ms[..|ms| - 1], t);
      StepKeepsInv(j, t, ms[|ms| - 1]);
    }
  }

  /** In every interleaving, however many coroutines there are: claims do not overlap, and
      every sector shows its first content or the source. When the copy reports success, the
      target shows the source and is otherwise unchanged; once all coroutines are gone, it has
      reported success or an error. */
  lemma CopyIsComplete(j: Job, coroutines: nat, ms: seq<Move>, s: State)
    requires JobOk(j) && Reached(j, coroutines, ms, s)
    ensures Disjoint(s) && Pending(j.init, j.src, s.target, 0, |j.src|)
    ensures s.ret.Success? ==> Copied(j.src, j.init, s.target, 0, |j.src|)
    ensures s.co != [] && (forall i :: 0 <= i < |s.co| ==> s.co[i].Done?) ==> !s.ret.InProgress?
  {
    ReachedInv(j, coroutines, ms, s);
    if s.ret.Success? {
      forall k | 0 <= k < |j.src| ensures s.target[k] == j.src[k] {
        assert !Copying(s, k);
      }
    }
    if s.co != [] && s.co[0].Done? && s.ret.InProgress? {
      assert exists i :: 0 <= i < |s.co| && Live(s.co[i]);
    }
  }

  /** Writes in order: before `wr_offs` everything has arrived, and a write goes to the claim
      that starts at `wr_offs`, which only moves up. */
  lemma WritesAscend(j: Job, coroutines: nat, ms: seq<Move>, s: State, m: Move)
    requires JobOk(j) && Reached(j, coroutines, ms, s) && Enabled(j, s, m)
    requires j.inOrder && s.ret.InProgress?
    ensures s.wrOffs <= |j.src| <= |s.target| == |Apply(j, s, m).target|
    ensures forall k :: 0 <= k < s.wrOffs ==> s.target[k] == j.src[k]
    ensures m.Write? ==> s.co[m.i].Writing? && s.co[m.i].lo == s.wrOffs
    ensures forall k :: 0 <= k < s.wrOffs ==> Apply(j, s, m).target[k] == s.target[k]
    ensures s.wrOffs <= Apply(j, s, m).wrOffs
  {
    ReachedInv(j, coroutines, ms, s);
    forall k | 0 <= k < s.wrOffs ensures s.target[k] == j.src[k] {
      assert !Copying(s, k);
    }
  }

  /** Whenever a coroutine waits, another live one that does not wait holds the claim that
      starts at `wr_offs`. */
  lemma SomebodyWrites(j: Job, coroutines: nat, ms: seq<Move>, s: State, i: nat)
    requires JobOk(j) && Reached(j, coroutines, ms, s) && s.ret.InProgress?
    requires i < |s.co| && s.co[i].Waiting?
    ensures exists l :: 0 <= l < |s.co| && l != i && HasClaim(s.co[l]) && !s.co[l].Waiting? && s.co[l].lo == s.wrOffs
  {
    ReachedInv(j, coroutines, ms, s);
    assert s.wrOffs < s.co[i].lo && Owned(s, s.wrOffs);
    var l :| 0 <= l < |s.co| && Covers(s.co[l], s.wrOffs);
    assert s.co[l].lo == s.wrOffs;
  }

  /** Also after an error a waiting coroutine is not stuck: following the claims backwards
      leads to one whose holder runs and will enter its successor. */
  lemma {:induction false} NoStuckWaiter(j: Job, coroutines: nat, ms: seq<Move>, s: State, i: nat)
    requires JobOk(j) && Reached(j, coroutines, ms, s) && i < |s.co| && s.co[i].Waiting?
    ensures exists l :: 0 <= l < |s.co| && HasClaim(s.co[l]) && !s.co[l].Waiting? && s.co[l].lo < s.co[i].lo
    decreases s.co[i].lo
  {
    ReachedInv(j, coroutines, ms, s);
    assert EndsAt(s, s.co[i].lo);
    var l :| 0 <= l < |s.co| && HasClaim(s.co[l]) && s.co[l].lo + s.co[l].n == s.co[i].lo;
    if s.co[l].Waiting? {
      NoStuckWaiter(j, coroutines, ms, s, l);
    }
  }
}
