/** Whole runs of the exclusive-section protocol: what holds in every state of every run, on
    any number of CPUs. */
module CpuRuns {
  import opened CpuExclusive

  /** The states that a schedule passes through, the last one included. */
  ghost predicate IsRun(states: seq<State>, moves: seq<Move>) {
    && |states| == |moves| + 1
    && Init(states[0])
    && forall k {:trigger MoveAt(states, moves, k)} :: 0 <= k < |moves| ==> MoveAt(states, moves, k)
  }

  ghost predicate MoveAt(states: seq<State>, moves: seq<Move>, k: nat)
    requires k < |moves| && |states| == |moves| + 1
  {
    IsMove(states[k], moves[k], states[k + 1])
  }

  lemma {:induction false} RunKeepsInv(states: seq<State>, moves: seq<Move>, k: nat)
    requires IsRun(states, moves) && k < |states|
    ensures Inv(states[k])
  {
    if k == 0 {
      NoWaiters(states[0].cpus);
      assert InvFor(states[0], -1);
    } else {
      RunKeepsInv(states, moves, k - 1);
      assert MoveAt(states, moves, k - 1);
      MoveKeepsInv(states[k - 1], moves[k - 1], states[k]);
    }
  }

  // ------------------------------------------------------------------ what the protocol is for

  /** In every state of every run, on any number of CPUs: while one thread is between the
      return of `start_exclusive` and the call of `end_exclusive`, no other thread is there
      and no CPU is between the return of `cpu_exec_start` and the call of `cpu_exec_end`. */
  lemma MutualExclusion(states: seq<State>, moves: seq<Move>, k: nat, i: nat, j: nat)
    requires IsRun(states, moves) && k < |states|
    requires i < |states[k].cpus| && j < |states[k].cpus| && i != j
    requires states[k].cpus[i].pc.Exclusive?
    ensures !states[k].cpus[j].pc.Executing? && !states[k].cpus[j].pc.Exclusive?
    ensures !states[k].cpus[j].inExclusive
  {
    RunKeepsInv(states, moves, k);
    var s := states[k];
    var o :| InvFor(s, o);
    assert ThreadInv(s, o, i) && ThreadInv(s, o, j);
    NoWaiters(s.cpus);
  }

  /** At most one thread waits for the marked CPUs. */
  lemma SingleSleeper(states: seq<State>, moves: seq<Move>, k: nat, i: nat, j: nat)
    requires IsRun(states, moves) && k < |states| && i < |states[k].cpus| && j < |states[k].cpus|
    requires states[k].cpus[i].pc.ExAsleep? && states[k].cpus[j].pc.ExAsleep?
    ensures i == j
  {
    RunKeepsInv(states, moves, k);
    var o :| InvFor(states[k], o);
    assert ThreadInv(states[k], o, i) && ThreadInv(states[k], o, j);
  }

  /** The value of `pending_cpus` in every state of every run: zero outside exclusive
      periods, when no CPU is marked; otherwise one more than the number of marked CPUs
      from the moment the count is stored; and every marked CPU still has its locked
      decrement ahead of it. */
  lemma PendingCounts(states: seq<State>, moves: seq<Move>, k: nat)
    requires IsRun(states, moves) && k < |states|
    ensures var s := states[k];
            && (forall t :: 0 <= t < |s.cpus| && s.cpus[t].hasWaiter ==> Counted(s.cpus[t].pc))
            && (s.pending == 0 ==> Waiters(s.cpus) == 0)
            && (s.pending == 0 <==> forall t :: 0 <= t < |s.cpus| ==> !Owns(s.cpus[t].pc))
            && (forall t :: 0 <= t < |s.cpus| && Waiting(s.cpus[t].pc) ==> s.pending == 1 + Waiters(s.cpus))
  {
    RunKeepsInv(states, moves, k);
    var s := states[k];
    var o :| InvFor(s, o);
    forall t | 0 <= t < |s.cpus|
      ensures (s.cpus[t].hasWaiter ==> o >= 0 && Counted(s.cpus[t].pc)) && (Owns(s.cpus[t].pc) <==> t == o)
    {
      assert ThreadInv(s, o, t);
    }
    NoWaiters(s.cpus);
  }

  /** Threads that can take the next step of the code they are in. */
  ghost predicate SomeoneMoves(s: State) {
    exists t: nat :: t < |s.cpus| && Enabled(s, t, Continue)
  }

  lemma CountedMoves(s: State, o: int)
    requires InvFor(s, o) && s.lock.Free? && Waiters(s.cpus) != 0
    ensures SomeoneMoves(s)
  {
    NoWaiters(s.cpus);
    var t :| 0 <= t < |s.cpus| && s.cpus[t].hasWaiter;
    assert ThreadInv(s, o, t);
    assert Enabled(s, t, Continue);
  }

  /** No lost wakeup, in every state of every run. While a thread sleeps in
      `start_exclusive`, either the count is still above one and a marked CPU has its
      decrement ahead, or the decrement to one is done and its thread, which holds the lock,
      is about to signal. While a thread sleeps in `exclusive_idle`, either another thread
      owns the exclusive period, or that thread, which holds the lock, is about to broadcast. */
  lemma NoLostWakeup(states: seq<State>, moves: seq<Move>, k: nat, t: nat)
    requires IsRun(states, moves) && k < |states| && t < |states[k].cpus|
    ensures var s := states[k];
            && (s.cpus[t].pc.ExAsleep? ==> s.pending > 1 || Signalling(s))
            && (s.cpus[t].pc.ExAsleep? && s.pending > 1 ==> exists u :: 0 <= u < |s.cpus| && s.cpus[u].hasWaiter && Counted(s.cpus[u].pc))
            && (s.cpus[t].pc.IdleAsleep? ==> s.pending != 0 || Broadcasting(s))
            && (s.cpus[t].pc.IdleAsleep? && s.pending != 0 ==> exists u :: 0 <= u < |s.cpus| && u != t && Owns(s.cpus[u].pc))
  {
    RunKeepsInv(states, moves, k);
    var s := states[k];
    var o :| InvFor(s, o);
    assert ThreadInv(s, o, t) && WakeInv(s, s.cpus[t].pc);
    if s.cpus[t].pc.ExAsleep? && s.pending > 1 {
      NoWaiters(s.cpus);
      var u :| 0 <= u < |s.cpus| && s.cpus[u].hasWaiter;
      assert ThreadInv(s, o, u);
    }
    if s.cpus[t].pc.IdleAsleep? && s.pending != 0 {
      assert ThreadInv(s, o, o);
    }
  }

  /** No deadlock, in every state of every run: unless every thread is outside, some
      thread that is not outside can move. (A CPU that executes can
      always move: it was kicked.) */
  lemma NoDeadlock(states: seq<State>, moves: seq<Move>, k: nat, t: nat)
    requires IsRun(states, moves) && k < |states|
    requires t < |states[k].cpus| && !states[k].cpus[t].pc.Outside?
    ensures SomeoneMoves(states[k])
  {
    RunKeepsInv(states, moves, k);
    var s := states[k];
    var o :| InvFor(s, o);
    assert ThreadInv(s, o, t);
    if s.lock.Held? {
      assert ThreadInv(s, o, s.lock.owner);
      assert Enabled(s, s.lock.owner, Continue);
    } else if Waiters(s.cpus) != 0 {
      CountedMoves(s, o);
    } else if Asleep(s.cpus[t].pc) {
      assert ThreadInv(s, o, o);
      assert Enabled(s, o, Continue);
    } else {
      assert Enabled(s, t, Continue);
    }
  }
}
