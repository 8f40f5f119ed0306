/** The protocol by which one vCPU thread stops all others (cpus-common.c).

    `cpu_exec_start` and `cpu_exec_end` bracket guest execution and normally take no
    lock: they store `running` and then load `pending_cpus`. `start_exclusive` stores
    `pending_cpus` and then loads every `running`. Every load and store of a variable
    that some thread accesses without the lock is one step here, and the steps of all
    threads interleave in any order. Memory is sequentially consistent, which is what
    the `smp_mb()` calls are there for. */
module CpuExclusive {

  /** Who called `exclusive_idle`. */
  datatype Client = ForExec | ForExclusive

  /** The next step of a thread. */
  datatype Pc =
    | Outside
      // cpu_exec_start
    | StartCheck | StartLock | StartTest | StartPublish | StartUnlock
    | Executing
      // cpu_exec_end
    | EndCheck | EndLock | EndTest | EndSignal | EndUnlock
      // exclusive_idle: test, asleep on exclusive_resume, woken but without the lock
    | IdleTest(client: Client) | IdleAsleep(client: Client) | IdleWoken(client: Client)
      // start_exclusive
    | ExLock | ExAnnounce | ExScan(next: nat, seen: nat) | ExCount(seen: nat)
    | ExTest | ExAsleep | ExWoken | ExUnlock | ExFlagOn
    | Exclusive
      // end_exclusive
    | ExFlagOff | ExEndLock | ExReset | ExBroadcast | ExEndUnlock

  datatype Cpu = Cpu(running: bool, hasWaiter: bool, inExclusive: bool, pc: Pc)

  datatype Lock = Free | Held(owner: nat)

  /** Thread `t` is the thread of CPU `t`: `start_exclusive` dereferences `current_cpu`,
      so every caller has one. */
  datatype State = State(pending: int, lock: Lock, cpus: seq<Cpu>)

  /** What a thread may do next: enter one of the two sections, go on with the code it is
      in, or wake up from a condition variable that nobody signalled. */
  datatype Action = EnterExec | EnterExclusive | Continue | Spurious

  predicate Init(s: State) {
    && s.pending == 0
    && s.lock == Free
    && forall t :: 0 <= t < |s.cpus| ==> s.cpus[t] == Cpu(false, false, false, Outside)
  }

  predicate NeedsLock(pc: Pc) {
    pc.StartLock? || pc.EndLock? || pc.IdleWoken? || pc.ExLock? || pc.ExWoken? || pc.ExEndLock?
  }

  predicate Asleep(pc: Pc) {
    pc.IdleAsleep? || pc.ExAsleep?
  }

  predicate Enabled(s: State, t: nat, a: Action)
    requires t < |s.cpus|
  {
    var pc := s.cpus[t].pc;
    match a
    case EnterExec => pc.Outside?
    case EnterExclusive => pc.Outside?
    case Continue => !pc.Outside? && !Asleep(pc) && (NeedsLock(pc) ==> s.lock == Free)
    case Spurious => Asleep(pc)
  }

  function Woken(pc: Pc): Pc {
    match pc
    case IdleAsleep(c) => IdleWoken(c)
    case ExAsleep => ExWoken
    case _ => pc
  }

  /** `qemu_cond_broadcast(&exclusive_resume)`. */
  function WakeIdle(cpus: seq<Cpu>): (r: seq<Cpu>) {
    seq(|cpus|, i requires 0 <= i < |cpus| =>
      if cpus[i].pc.IdleAsleep? then cpus[i].(pc := Woken(cpus[i].pc)) else cpus[i])
  }

  /** `qemu_cond_signal(&exclusive_cond)`. `CpuRuns.SingleSleeper` shows that at most one
      thread sleeps there, so waking one and waking all are the same. */
  function WakeStarter(cpus: seq<Cpu>): (r: seq<Cpu>) {
    seq(|cpus|, i requires 0 <= i < |cpus| =>
      if cpus[i].pc.ExAsleep? then cpus[i].(pc := ExWoken) else cpus[i])
  }

  function Goto(s: State, t: nat, pc: Pc): State
    requires t < |s.cpus|
  {
    s.(cpus := s.cpus[t := s.cpus[t].(pc := pc)])
  }

  function Acquire(s: State, t: nat, pc: Pc): State
    requires t < |s.cpus|
  {
    Goto(s, t, pc).(lock := Held(t))
  }

  function Release(s: State, t: nat, pc: Pc): State
    requires t < |s.cpus|
  {
    Goto(s, t, pc).(lock := Free)
  }

  function Running(s: State, t: nat, running: bool, pc: Pc): State
    requires t < |s.cpus|
  {
    s.(cpus := s.cpus[t := s.cpus[t].(running := running, pc := pc)])
  }

  /** `cpu_exec_start` after its first store. */
  function ExecStartStep(s: State, t: nat): State
    requires t < |s.cpus|
  {
    match s.cpus[t].pc
    case StartCheck => Goto(s, t, if s.pending != 0 then StartLock else Executing)
    case StartLock => Acquire(s, t, StartTest)
    case StartTest =>
      if !s.cpus[t].hasWaiter then Running(s, t, false, IdleTest(ForExec)) else Goto(s, t, StartUnlock)
    case StartPublish => Running(s, t, true, StartUnlock)
    case StartUnlock => Release(s, t, Executing)
    case _ => s
  }

  /** `cpu_exec_end`. */
  function ExecEndStep(s: State, t: nat): State
    requires t < |s.cpus|
  {
    match s.cpus[t].pc
    case Executing => Running(s, t, false, EndCheck)
    case EndCheck => Goto(s, t, if s.pending != 0 then EndLock else Outside)
    case EndLock => Acquire(s, t, EndTest)
    case EndTest =>
      if s.cpus[t].hasWaiter then
        s.(pending := s.pending - 1, cpus := s.cpus[t := s.cpus[t].(hasWaiter := false, pc := EndSignal)])
      else Goto(s, t, EndUnlock)
    case EndSignal =>
      var s1 := Goto(s, t, EndUnlock);
      if s.pending == 1 then s1.(cpus := WakeStarter(s1.cpus)) else s1
    case EndUnlock => Release(s, t, Outside)
    case _ => s
  }

  /** `exclusive_idle`, with the lock held on entry and on return. */
  function IdleStep(s: State, t: nat): State
    requires t < |s.cpus|
  {
    match s.cpus[t].pc
    case IdleTest(c) =>
      if s.pending != 0 then Release(s, t, IdleAsleep(c))
      else Goto(s, t, if c.ForExec? then StartPublish else ExAnnounce)
    case IdleWoken(c) => Acquire(s, t, IdleTest(c))
    case _ => s
  }

  /** `start_exclusive`: up to and including the scan of the CPU list. */
  function ScanStep(s: State, t: nat): State
    requires t < |s.cpus|
  {
    match s.cpus[t].pc
    case ExLock => Acquire(s, t, IdleTest(ForExclusive))
    case ExAnnounce => Goto(s, t, ExScan(0, 0)).(pending := 1)
    case ExScan(i, n) =>
      if i >= |s.cpus| then Goto(s, t, ExCount(n))
      else if s.cpus[i].running then
        Goto(s.(cpus := s.cpus[i := s.cpus[i].(hasWaiter := true)]), t, ExScan(i + 1, n + 1))
      else Goto(s, t, ExScan(i + 1, n))
    case ExCount(n) => Goto(s, t, ExTest).(pending := n + 1)
    case _ => s
  }

  /** `start_exclusive` from the wait for the counted CPUs on, and `end_exclusive`. */
  function SectionStep(s: State, t: nat): State
    requires t < |s.cpus|
  {
    var cpu := s.cpus[t];
    match cpu.pc
    case ExTest => if s.pending > 1 then Release(s, t, ExAsleep) else Goto(s, t, ExUnlock)
    case ExWoken => Acquire(s, t, ExTest)
    case ExUnlock => Release(s, t, ExFlagOn)
    case ExFlagOn => s.(cpus := s.cpus[t := cpu.(inExclusive := true, pc := Exclusive)])
    case Exclusive => Goto(s, t, ExFlagOff)
    case ExFlagOff => s.(cpus := s.cpus[t := cpu.(inExclusive := false, pc := ExEndLock)])
    case ExEndLock => Acquire(s, t, ExReset)
    case ExReset => Goto(s, t, ExBroadcast).(pending := 0)
    case ExBroadcast =>
      var s1 := Goto(s, t, ExEndUnlock);
      s1.(cpus := WakeIdle(s1.cpus))
    case ExEndUnlock => Release(s, t, Outside)
    case _ => s
  }

  /** The source function a point belongs to. */
  datatype Code = NoCode | ExecStart | ExecEnd | Idle | Scan | Section

  function CodeOf(pc: Pc): Code {
    match pc
    case Outside => NoCode
    case StartCheck | StartLock | StartTest | StartPublish | StartUnlock => ExecStart
    case Executing | EndCheck | EndLock | EndTest | EndSignal | EndUnlock => ExecEnd
    case IdleTest(_) | IdleAsleep(_) | IdleWoken(_) => Idle
    case ExLock | ExAnnounce | ExScan(_, _) | ExCount(_) => Scan
    case _ => Section
  }

  function Apply(s: State, t: nat, a: Action): State
    requires t < |s.cpus|
  {
    match a
    case EnterExec => Running(s, t, true, StartCheck)
    case EnterExclusive => Goto(s, t, ExLock)
    case Spurious => Goto(s, t, Woken(s.cpus[t].pc))
    case Continue =>
      match CodeOf(s.cpus[t].pc)
      case NoCode => s
      case ExecStart => ExecStartStep(s, t)
      case ExecEnd => ExecEndStep(s, t)
      case Idle => IdleStep(s, t)
      case Scan => ScanStep(s, t)
      case Section => SectionStep(s, t)
  }

  /** A schedule: which thread takes which action. */
  datatype Move = Move(thread: nat, action: Action)

  ghost predicate IsMove(s: State, m: Move, s': State) {
    m.thread < |s.cpus| && Enabled(s, m.thread, m.action) && s' == Apply(s, m.thread, m.action)
  }

  // ------------------------------------------------------------------ the invariant

  predicate HoldsLock(pc: Pc) {
    pc.StartTest? || pc.StartPublish? || pc.StartUnlock? || pc.EndTest? || pc.EndSignal?
    || pc.EndUnlock? || pc.IdleTest? || pc.ExAnnounce? || pc.ExScan? || pc.ExCount? || pc.ExTest?
    || pc.ExUnlock? || pc.ExReset? || pc.ExBroadcast? || pc.ExEndUnlock?
  }

  /** From `pending_cpus = 1` to `pending_cpus = 0`. */
  predicate Owns(pc: Pc) {
    pc.ExScan? || pc.ExCount? || pc.ExTest? || pc.ExAsleep? || pc.ExWoken? || pc.ExUnlock?
    || pc.ExFlagOn? || pc.Exclusive? || pc.ExFlagOff? || pc.ExEndLock? || pc.ExReset?
  }

  /** The section is entered for good: the wait for the counted CPUs is over. */
  predicate Entered(pc: Pc) {
    pc.ExUnlock? || pc.ExFlagOn? || pc.Exclusive? || pc.ExFlagOff? || pc.ExEndLock? || pc.ExReset?
  }

  predicate RunningAt(pc: Pc) {
    pc.StartCheck? || pc.StartLock? || pc.StartTest? || pc.StartUnlock? || pc.Executing?
  }

  /** A counted CPU: the locked decrement of `cpu_exec_end` is still ahead of it. */
  predicate Counted(pc: Pc) {
    pc.StartCheck? || pc.StartLock? || pc.StartTest? || pc.StartUnlock? || pc.Executing?
    || pc.EndCheck? || pc.EndLock? || pc.EndTest?
  }

  /** The points from which a CPU gets to `Executing` without another look at
      `pending_cpus` or `has_waiter`. */
  predicate Committed(pc: Pc) {
    pc.Executing? || pc.StartUnlock? || pc.StartPublish?
  }

  /** What the scan of `start_exclusive` establishes for a CPU, and every step keeps. */
  predicate Covered(cpu: Cpu) {
    if cpu.hasWaiter then Counted(cpu.pc) else !Committed(cpu.pc)
  }

  function Waiters(cpus: seq<Cpu>): (n: nat)
    ensures n <= |cpus|
  {
    if cpus == [] then 0
    else Waiters(cpus[..|cpus| - 1]) + if cpus[|cpus| - 1].hasWaiter then 1 else 0
  }

  /** How far `start_exclusive` has got with the CPU list. */
  function Scanned(s: State, o: int): int
    requires -1 <= o < |s.cpus|
  {
    if o < 0 then 0 else if s.cpus[o].pc.ExScan? then s.cpus[o].pc.next else |s.cpus|
  }

  /** The invariant of one thread, given whether it has the lock, whether it is the one
      in the exclusive section, and whether the scan has passed it. */
  predicate ThreadOk(cpu: Cpu, holder: bool, owner: bool, scanned: bool) {
    && (HoldsLock(cpu.pc) <==> holder)
    && (Owns(cpu.pc) <==> owner)
    && (cpu.running <==> RunningAt(cpu.pc))
    && (cpu.inExclusive <==> cpu.pc.Exclusive? || cpu.pc.ExFlagOff?)
    && (if scanned then Covered(cpu) else !cpu.hasWaiter)
  }

  ghost predicate ThreadInv(s: State, o: int, t: nat)
    requires -1 <= o < |s.cpus| && t < |s.cpus|
  {
    ThreadOk(s.cpus[t], s.lock == Held(t), t == o, t < Scanned(s, o))
  }

  /** Nobody sleeps on a condition that already holds, unless the lock holder is about to
      signal it. */
  predicate WakeInv(s: State, pc: Pc) {
    && (pc.ExAsleep? ==> s.pending > 1 || Signalling(s))
    && (pc.IdleAsleep? ==> s.pending != 0 || Broadcasting(s))
    && (pc.ExAnnounce? || pc.StartPublish? || pc.ExBroadcast? ==> s.pending == 0)
  }

  ghost predicate CountInv(s: State, o: int)
    requires -1 <= o < |s.cpus|
  {
    if o < 0 then s.pending == 0
    else match s.cpus[o].pc
      case ExScan(i, n) => i <= |s.cpus| && s.pending == 1 && n == Waiters(s.cpus)
      case ExCount(n) => s.pending == 1 && n == Waiters(s.cpus)
      case pc => s.pending == 1 + Waiters(s.cpus) && (Entered(pc) ==> s.pending == 1)
  }

  predicate Signalling(s: State) {
    s.lock.Held? && s.lock.owner < |s.cpus| && s.cpus[s.lock.owner].pc.EndSignal? && s.pending == 1
  }

  predicate Broadcasting(s: State) {
    s.lock.Held? && s.lock.owner < |s.cpus| && s.cpus[s.lock.owner].pc.ExBroadcast?
  }

  /** `o` is the thread between `pending_cpus = 1` and `pending_cpus = 0`, or -1. */
  ghost predicate InvFor(s: State, o: int) {
    && -1 <= o < |s.cpus|
    && (s.lock.Held? ==> s.lock.owner < |s.cpus|)
    && CountInv(s, o)
    && (forall t :: 0 <= t < |s.cpus| ==> ThreadInv(s, o, t))
    && (forall t :: 0 <= t < |s.cpus| ==> WakeInv(s, s.cpus[t].pc))
  }

  ghost predicate Inv(s: State) {
    exists o :: InvFor(s, o)
  }

  // ------------------------------------------------------------------ counting

  lemma {:induction false} WaitersUpdate(cpus: seq<Cpu>, i: nat, cpu: Cpu)
    requires i < |cpus|
    ensures Waiters(cpus[i := cpu]) + (if cpus[i].hasWaiter then 1 else 0)
            == Waiters(cpus) + if cpu.hasWaiter then 1 else 0
  {
    var n := |cpus| - 1;
    if i < n {
      assert cpus[i := cpu][..n] == cpus[..n][i := cpu];
      WaitersUpdate(cpus[..n], i, cpu);
    } else {
      assert cpus[i := cpu][..n] == cpus[..n];
    }
  }

  lemma {:induction false} WaitersSame(a: seq<Cpu>, b: seq<Cpu>)
    requires |a| == |b| && forall i :: 0 <= i < |a| ==> a[i].hasWaiter == b[i].hasWaiter
    ensures Waiters(a) == Waiters(b)
  {
    if a != [] {
      WaitersSame(a[..|a| - 1], b[..|b| - 1]);
    }
  }

  lemma {:induction false} NoWaiters(cpus: seq<Cpu>)
    ensures Waiters(cpus) == 0 <==> forall i :: 0 <= i < |cpus| ==> !cpus[i].hasWaiter
  {
    if cpus != [] {
      NoWaiters(cpus[..|cpus| - 1]);
    }
  }

  // ------------------------------------------------------------------ every step keeps the invariant

  /** What a step of `t` may do to the variables the others depend on. */
  predicate Considerate(s: State, s': State, t: nat) {
    && (s'.lock == s.lock || (s.lock in {Free, Held(t)} && s'.lock in {Free, Held(t)}))
    && (s'.pending == s.pending || s.lock == Held(t))
    && (s.pending > 1 || Signalling(s) ==> s'.pending > 1 || Signalling(s'))
    && (s.pending != 0 || Broadcasting(s) ==> s'.pending != 0 || Broadcasting(s'))
  }

  /** A step that changes the record of one thread only is checked at that thread. */
  lemma OneThread(s: State, s': State, t: nat, o: int, o': int)
    requires InvFor(s, o) && t < |s.cpus| == |s'.cpus| && s'.cpus == s.cpus[t := s'.cpus[t]]
    requires -1 <= o' < |s.cpus| && (o' == o || ((o == -1 || o == t) && (o' == -1 || o' == t)))
    requires CountInv(s', o') && ThreadInv(s', o', t) && WakeInv(s', s'.cpus[t].pc) && Considerate(s, s', t)
    requires forall u :: 0 <= u < |s.cpus| && u != t && Scanned(s', o') <= u < Scanned(s, o) ==> !s.cpus[u].hasWaiter
    requires forall u :: 0 <= u < |s.cpus| && u != t && Scanned(s, o) <= u < Scanned(s', o') ==> Covered(s.cpus[u])
    ensures InvFor(s', o')
  {
    forall u | 0 <= u < |s.cpus| ensures ThreadInv(s', o', u) && WakeInv(s', s'.cpus[u].pc) {
      if u != t {
        assert ThreadInv(s, o, u);
      }
    }
  }

  /** Past the scan and not yet at the end: nothing but the owner's own record changes. */
  predicate Waiting(pc: Pc) {
    Owns(pc) && !pc.ExScan? && !pc.ExCount?
  }

  /** A step of `t` that changes neither `pending_cpus` nor a `has_waiter` and signals
      nobody. */
  predicate Quiet(s: State, s': State, t: nat, owner: bool, scanned: bool) {
    && t < |s.cpus| == |s'.cpus|
    && s'.cpus == s.cpus[t := s'.cpus[t]]
    && s'.pending == s.pending
    && s'.cpus[t].hasWaiter == s.cpus[t].hasWaiter
    && (s'.lock == s.lock || (s.lock in {Free, Held(t)} && s'.lock in {Free, Held(t)}))
    && (s.cpus[t].pc.EndSignal? ==> s.pending != 1)
    && !s.cpus[t].pc.ExBroadcast?
    && ThreadOk(s'.cpus[t], s'.lock == Held(t), owner, scanned)
    && WakeInv(s', s'.cpus[t].pc)
    && (owner ==> Waiting(s.cpus[t].pc) && Waiting(s'.cpus[t].pc))
    && (Entered(s'.cpus[t].pc) ==> s.pending == 1)
  }

  lemma QuietKeepsInv(s: State, s': State, t: nat, o: int)
    requires InvFor(s, o) && Quiet(s, s', t, t == o, t < Scanned(s, o))
    ensures InvFor(s', o)
  {
    WaitersSame(s.cpus, s'.cpus);
    assert Considerate(s, s', t);
    OneThread(s, s', t, o, o);
  }

  /** The start of a step: `t` satisfies its part of the invariant and may move. */
  predicate Ready(s: State, t: nat, a: Action, owner: bool, scanned: bool) {
    && t < |s.cpus|
    && Enabled(s, t, a)
    && ThreadOk(s.cpus[t], s.lock == Held(t), owner, scanned)
    && WakeInv(s, s.cpus[t].pc)
    && (owner || scanned ==> s.pending != 0)
    && (Waiting(s.cpus[t].pc) ==> s.pending >= 1)
    && (Entered(s.cpus[t].pc) ==> s.pending == 1)
  }

  lemma EnterIsQuiet(s: State, t: nat, a: Action, owner: bool, scanned: bool)
    requires Ready(s, t, a, owner, scanned) && !a.Continue?
    ensures Quiet(s, Apply(s, t, a), t, owner, scanned)
  {}

  lemma ExecStartIsQuiet(s: State, t: nat, scanned: bool)
    requires Ready(s, t, Continue, false, scanned) && CodeOf(s.cpus[t].pc).ExecStart?
    ensures Quiet(s, ExecStartStep(s, t), t, false, scanned)
  {}

  lemma ExecEndIsQuiet(s: State, t: nat, scanned: bool)
    requires Ready(s, t, Continue, false, scanned) && CodeOf(s.cpus[t].pc).ExecEnd?
    requires s.cpus[t].pc.EndTest? ==> !s.cpus[t].hasWaiter
    requires s.cpus[t].pc.EndSignal? ==> s.pending != 1
    ensures Quiet(s, ExecEndStep(s, t), t, false, scanned)
  {
    if s.cpus[t].pc.Executing? || s.cpus[t].pc.EndCheck? {
      LeaveIsQuiet(s, t, scanned);
    }
  }

  lemma LeaveIsQuiet(s: State, t: nat, scanned: bool)
    requires Ready(s, t, Continue, false, scanned) && (s.cpus[t].pc.Executing? || s.cpus[t].pc.EndCheck?)
    ensures Quiet(s, ExecEndStep(s, t), t, false, scanned)
  {}

  lemma IdleIsQuiet(s: State, t: nat, scanned: bool)
    requires Ready(s, t, Continue, false, scanned) && CodeOf(s.cpus[t].pc).Idle?
    ensures Quiet(s, IdleStep(s, t), t, false, scanned)
  {}

  lemma WaitIsQuiet(s: State, t: nat, scanned: bool)
    requires Ready(s, t, Continue, true, scanned)
    requires s.cpus[t].pc.ExTest? || s.cpus[t].pc.ExWoken? || s.cpus[t].pc.ExUnlock?
    ensures Quiet(s, SectionStep(s, t), t, true, scanned)
  {}

  lemma SectionIsQuiet(s: State, t: nat, owner: bool, scanned: bool)
    requires Ready(s, t, Continue, owner, scanned)
    requires s.cpus[t].pc in {ExFlagOn, Exclusive, ExFlagOff, ExEndLock, ExEndUnlock}
    ensures Quiet(s, SectionStep(s, t), t, owner, scanned)
  {}

  /** The invariant at `t`, in the form the lemmas above take. */
  lemma InvIsReady(s: State, t: nat, a: Action, o: int)
    requires InvFor(s, o) && t < |s.cpus| && Enabled(s, t, a)
    ensures Ready(s, t, a, t == o, t < Scanned(s, o))
  {
    assert ThreadInv(s, o, t);
  }

  /** The locked decrement of `cpu_exec_end`. */
  lemma DecrementKeepsInv(s: State, t: nat, o: int)
    requires InvFor(s, o) && t < |s.cpus| && s.cpus[t].pc.EndTest? && s.cpus[t].hasWaiter
    ensures InvFor(ExecEndStep(s, t), o)
  {
    var s' := ExecEndStep(s, t);
    assert ThreadInv(s, o, t) && ThreadInv(s, o, o);
    WaitersUpdate(s.cpus, t, s'.cpus[t]);
    OneThread(s, s', t, o, o);
  }

  lemma WokenOk(cpu: Cpu, holder: bool, owner: bool, scanned: bool)
    requires ThreadOk(cpu, holder, owner, scanned)
    ensures ThreadOk(cpu.(pc := Woken(cpu.pc)), holder, owner, scanned)
  {}

  /** A step of the lock holder that also wakes threads. */
  lemma WakingStep(s: State, s': State, t: nat, o: int)
    requires InvFor(s, o) && t < |s.cpus| == |s'.cpus| && t != o && s'.pending == s.pending && s'.lock == s.lock
    requires s'.cpus[t].hasWaiter == s.cpus[t].hasWaiter
    requires ThreadOk(s'.cpus[t], s.lock == Held(t), false, t < Scanned(s, o)) && WakeInv(s', s'.cpus[t].pc)
    requires forall u :: 0 <= u < |s.cpus| && u != t ==>
               s'.cpus[u] == if Asleep(s'.cpus[u].pc) then s.cpus[u] else s.cpus[u].(pc := Woken(s.cpus[u].pc))
    requires forall u :: 0 <= u < |s.cpus| && u != t ==>
               (s'.cpus[u].pc.ExAsleep? ==> s.pending > 1) && (s'.cpus[u].pc.IdleAsleep? ==> s.pending != 0)
    ensures InvFor(s', o)
  {
    WaitersSame(s.cpus, s'.cpus);
    assert o >= 0 ==> ThreadInv(s, o, o);
    assert CountInv(s', o) && Scanned(s', o) == Scanned(s, o);
    forall u | 0 <= u < |s.cpus| ensures ThreadInv(s', o, u) && WakeInv(s', s'.cpus[u].pc) {
      if u != t {
        assert ThreadInv(s, o, u);
        WakingThread(s, s', t, o, u);
      }
    }
  }

  lemma WakingThread(s: State, s': State, t: nat, o: int, u: nat)
    requires -1 <= o < |s.cpus| == |s'.cpus| && u < |s.cpus| && u != t && t != o
    requires s'.pending == s.pending && s'.lock == s.lock && Scanned(s', o) == Scanned(s, o)
    requires ThreadInv(s, o, u) && WakeInv(s, s.cpus[u].pc)
    requires s'.cpus[u] == if Asleep(s'.cpus[u].pc) then s.cpus[u] else s.cpus[u].(pc := Woken(s.cpus[u].pc))
    requires (s'.cpus[u].pc.ExAsleep? ==> s.pending > 1) && (s'.cpus[u].pc.IdleAsleep? ==> s.pending != 0)
    ensures ThreadInv(s', o, u) && WakeInv(s', s'.cpus[u].pc)
  {
    WokenOk(s.cpus[u], s.lock == Held(u), u == o, u < Scanned(s, o));
  }

  lemma SignalKeepsInv(s: State, t: nat, o: int)
    requires InvFor(s, o) && t < |s.cpus| && s.cpus[t].pc.EndSignal? && s.pending == 1
    ensures InvFor(ExecEndStep(s, t), o)
  {
    assert ThreadInv(s, o, t);
    WakingStep(s, ExecEndStep(s, t), t, o);
  }

  lemma BroadcastKeepsInv(s: State, t: nat, o: int)
    requires InvFor(s, o) && t < |s.cpus| && s.cpus[t].pc.ExBroadcast?
    ensures InvFor(SectionStep(s, t), o)
  {
    assert ThreadInv(s, o, t) && o == -1;
    forall u | 0 <= u < |s.cpus| ensures !s.cpus[u].pc.ExAsleep? {
      assert ThreadInv(s, o, u);
    }
    WakingStep(s, SectionStep(s, t), t, o);
  }

  lemma AnnounceKeepsInv(s: State, t: nat, o: int)
    requires InvFor(s, o) && t < |s.cpus| && s.cpus[t].pc.ExAnnounce?
    ensures InvFor(ScanStep(s, t), t)
  {
    var s' := ScanStep(s, t);
    forall u | 0 <= u < |s.cpus| ensures !s.cpus[u].hasWaiter {
      assert ThreadInv(s, o, u);
    }
    NoWaiters(s'.cpus);
    assert ThreadInv(s, o, t);
    OneThread(s, s', t, o, t);
  }

  /** The scan looks at CPU `i`. If `running` is set the CPU is on its way in or executing
      and will come to the locked part of `cpu_exec_end`; if not, it will come to the
      locked part of `cpu_exec_start`. */
  lemma LookKeepsInv(s: State, t: nat, o: int)
    requires InvFor(s, o) && t < |s.cpus| && s.cpus[t].pc.ExScan? && s.cpus[t].pc.next < |s.cpus|
    ensures InvFor(ScanStep(s, t), o)
  {
    var i := s.cpus[t].pc.next;
    assert ThreadInv(s, o, t) && ThreadInv(s, o, i);
    var s' := ScanStep(s, t);
    if s.cpus[i].running {
      var marked := s.cpus[i := s.cpus[i].(hasWaiter := true)];
      WaitersUpdate(s.cpus, i, s.cpus[i].(hasWaiter := true));
      WaitersSame(marked, s'.cpus);
    } else {
      WaitersSame(s.cpus, s'.cpus);
    }
    forall u | 0 <= u < |s.cpus| ensures ThreadInv(s', o, u) && WakeInv(s', s'.cpus[u].pc) {
      assert ThreadInv(s, o, u) && WakeInv(s, s.cpus[u].pc);
      LookThread(s, t, u);
    }
  }

  lemma LookThread(s: State, t: nat, u: nat)
    requires t < |s.cpus| && u < |s.cpus| && s.cpus[t].pc.ExScan? && s.cpus[t].pc.next < |s.cpus|
    requires s.lock.Held? ==> s.lock.owner < |s.cpus|
    requires ThreadInv(s, t, t) && ThreadInv(s, t, s.cpus[t].pc.next) && ThreadInv(s, t, u) && WakeInv(s, s.cpus[u].pc)
    ensures ThreadInv(ScanStep(s, t), t, u) && WakeInv(ScanStep(s, t), ScanStep(s, t).cpus[u].pc)
  {
  }

  /** The scan is over: the count is published. */
  lemma CountKeepsInv(s: State, t: nat, o: int)
    requires InvFor(s, o) && t < |s.cpus|
    requires s.cpus[t].pc.ExCount? || (s.cpus[t].pc.ExScan? && s.cpus[t].pc.next >= |s.cpus|)
    ensures InvFor(ScanStep(s, t), o)
  {
    var s' := ScanStep(s, t);
    assert ThreadInv(s, o, t);
    WaitersSame(s.cpus, s'.cpus);
    OneThread(s, s', t, o, o);
  }

  lemma ResetKeepsInv(s: State, t: nat, o: int)
    requires InvFor(s, o) && t < |s.cpus| && s.cpus[t].pc.ExReset?
    ensures InvFor(SectionStep(s, t), -1)
  {
    var s' := SectionStep(s, t);
    assert ThreadInv(s, o, t);
    NoWaiters(s.cpus);
    OneThread(s, s', t, o, -1);
  }

  lemma ExecEndKeepsInv(s: State, t: nat, o: int)
    requires InvFor(s, o) && t < |s.cpus| && Enabled(s, t, Continue) && CodeOf(s.cpus[t].pc).ExecEnd?
    ensures InvFor(ExecEndStep(s, t), o)
  {
    if s.cpus[t].pc.EndTest? && s.cpus[t].hasWaiter {
      DecrementKeepsInv(s, t, o);
    } else if s.cpus[t].pc.EndSignal? && s.pending == 1 {
      SignalKeepsInv(s, t, o);
    } else {
      InvIsReady(s, t, Continue, o);
      ExecEndIsQuiet(s, t, t < Scanned(s, o));
      QuietKeepsInv(s, ExecEndStep(s, t), t, o);
    }
  }

  lemma ScanKeepsInv(s: State, t: nat, o: int) returns (o': int)
    requires InvFor(s, o) && t < |s.cpus| && Enabled(s, t, Continue) && CodeOf(s.cpus[t].pc).Scan?
    ensures InvFor(ScanStep(s, t), o')
  {
    o' := o;
    if s.cpus[t].pc.ExAnnounce? {
      AnnounceKeepsInv(s, t, o);
      o' := t;
    } else if s.cpus[t].pc.ExLock? {
      InvIsReady(s, t, Continue, o);
      QuietKeepsInv(s, ScanStep(s, t), t, o);
    } else if s.cpus[t].pc.ExScan? && s.cpus[t].pc.next < |s.cpus| {
      LookKeepsInv(s, t, o);
    } else {
      CountKeepsInv(s, t, o);
    }
  }

  lemma SectionKeepsInv(s: State, t: nat, o: int) returns (o': int)
    requires InvFor(s, o) && t < |s.cpus| && Enabled(s, t, Continue) && CodeOf(s.cpus[t].pc).Section?
    ensures InvFor(SectionStep(s, t), o')
  {
    o' := o;
    if s.cpus[t].pc.ExReset? {
      ResetKeepsInv(s, t, o);
      o' := -1;
    } else if s.cpus[t].pc.ExBroadcast? {
      BroadcastKeepsInv(s, t, o);
    } else {
      InvIsReady(s, t, Continue, o);
      if s.cpus[t].pc.ExTest? || s.cpus[t].pc.ExWoken? || s.cpus[t].pc.ExUnlock? {
        WaitIsQuiet(s, t, t < Scanned(s, o));
      } else {
        SectionIsQuiet(s, t, t == o, t < Scanned(s, o));
      }
      QuietKeepsInv(s, SectionStep(s, t), t, o);
    }
  }

  lemma EnterKeepsInv(s: State, t: nat, a: Action, o: int)
    requires InvFor(s, o) && t < |s.cpus| && Enabled(s, t, a) && !a.Continue?
    ensures InvFor(Apply(s, t, a), o)
  {
    InvIsReady(s, t, a, o);
    EnterIsQuiet(s, t, a, t == o, t < Scanned(s, o));
    QuietKeepsInv(s, Apply(s, t, a), t, o);
  }

  lemma ContinueKeepsInv(s: State, t: nat, o: int) returns (o': int)
    requires InvFor(s, o) && t < |s.cpus| && Enabled(s, t, Continue)
    ensures InvFor(Apply(s, t, Continue), o')
  {
    o' := o;
    match CodeOf(s.cpus[t].pc) {
      case ExecStart =>
        InvIsReady(s, t, Continue, o);
        ExecStartIsQuiet(s, t, t < Scanned(s, o));
        QuietKeepsInv(s, ExecStartStep(s, t), t, o);
      case ExecEnd => ExecEndKeepsInv(s, t, o);
      case Idle =>
        InvIsReady(s, t, Continue, o);
        IdleIsQuiet(s, t, t < Scanned(s, o));
        QuietKeepsInv(s, IdleStep(s, t), t, o);
      case Scan => o' := ScanKeepsInv(s, t, o);
      case Section => o' := SectionKeepsInv(s, t, o);
      case NoCode =>
    }
  }

  /** Every step of every thread keeps the invariant. */
  lemma MoveKeepsInv(s: State, m: Move, s': State)
    requires Inv(s) && IsMove(s, m, s')
    ensures Inv(s')
  {
    var o :| InvFor(s, o);
    if m.action.Continue? {
      var o' := ContinueKeepsInv(s, m.thread, o);
    } else {
      EnterKeepsInv(s, m.thread, m.action, o);
    }
  }
}
