/** What becomes of the members of a transaction when it is finalized and a driver fails to
    prepare (job.c), over whole runs. */
module JobOutcome {
  import opened JobState
  import opened JobTxn

  /** `i` is the first of the list whose driver fails to prepare. */
  predicate FirstFailure(list: seq<nat>, rc: nat -> int, i: nat)
    decreases |list|
  {
    list != [] && if rc(list[0]) != 0 then list[0] == i else FirstFailure(list[1..], rc, i)
  }

  lemma {:induction false} FailureFails(list: seq<nat>, rc: nat -> int, i: nat)
    requires FirstFailure(list, rc, i)
    ensures rc(i) != 0
    decreases |list|
  {
    if rc(list[0]) == 0 {
      FailureFails(list[1..], rc, i);
    }
  }

  lemma {:induction false} PrepareStopsAt(jobs: seq<Job>, list: seq<nat>, rc: nat -> int, i: nat)
    requires AllDue(jobs, list) && i in list && !PrepareAll(jobs, list, rc).1
    ensures var j := PrepareAll(jobs, list, rc).0[i]; !j.cancelled && (j.ret != 0 <==> FirstFailure(list, rc, i))
    decreases |list|
  {
    var k := list[0];
    assert k in list && forall l :: l in list[1..] ==> l in list;
    assert list == [k] + list[1..];
    if rc(k) == 0 {
      assert jobs[k := Prepare(jobs[k], 0)] == jobs;
      if i == k {
        PrepareAllDoes(jobs, list[1..], rc);
        if FirstFailure(list[1..], rc, i) {
          FailureFails(list[1..], rc, i);
        }
      } else {
        PrepareStopsAt(jobs, list[1..], rc, i);
      }
    }
  }

  /** A finalization that fails aborts everybody if and only if the job it was asked of is the
      first that failed to prepare; otherwise that job commits in the end while the others
      are aborted. */
  lemma FinalizeIsAtomicIff(t: Txn, i: nat, rc: nat -> int)
    requires Ok(t) && t.main.Idle? && !t.aborting && AllDue(t.jobs, t.list) && i in t.list
    requires exists k :: k in t.list && rc(k) != 0
    ensures var r := DoFinalize(t, i, rc);
            r.main.Abort? && r.aborting && r.starter == i && r.party == (set k | k in t.list) && (r.doomed <==> FirstFailure(t.list, rc, i))
  {
    PrepareAllDoes(t.jobs, t.list, rc);
    PrepareStopsAt(t.jobs, t.list, rc, i);
  }

  // ------------------------------------------------------------------ over whole runs

  /** The record of an abort is final. */
  lemma AbortIsFinal(t: Txn, m: Move)
    requires Ok(t) && Enabled(t, m) && t.aborting
    ensures var r := Apply(t, m); r.aborting && r.party == t.party && r.starter == t.starter && r.doomed == t.doomed
  {
    match m
    case Exit(i, rc) => Exits(t, i);
    case CancelCommand(i, force) => assert JobOk(t.jobs[i]) && i !in t.list;
    case FinalizeCommand(i, rc) => PendingIsDue(t, i);
    case _ =>
  }

  lemma {:induction false} AbortStays(ts: seq<Txn>, ms: seq<Move>, a: nat, n: nat)
    requires IsRun(ts, ms) && a <= n < |ts| && ts[a].aborting
    ensures ts[n].aborting && ts[n].party == ts[a].party && ts[n].starter == ts[a].starter && ts[n].doomed == ts[a].doomed
    decreases n
  {
    if a < n {
      AbortStays(ts, ms, a, n - 1);
      assert StepAt(ts, ms, n - 1);
      AbortIsFinal(ts[n - 1], ms[n - 1]);
    }
  }

  /** The move finalizes the transaction: by the command, or because the last job to finish
      has exited and all of them are finalized automatically. */
  predicate Finalizes(t: Txn, m: Move)
    requires forall k :: k in t.list ==> k < |t.jobs|
  {
    && (m.FinalizeCommand? || m.Exit?) && Enabled(t, m)
    && (m.Exit? ==>
          && t.jobs[m.i].ret == 0 && !t.jobs[m.i].cancelled && Automatic(t)
          && forall k :: k in t.list && k != m.i ==> Completed(t.jobs[k].run.status))
  }

  lemma LastOneWaits(t: Txn, i: nat, rc: nat -> int)
    requires Ok(t) && Finalizes(t, Exit(i, rc))
    ensures i in t.list && t.main.Idle? && !t.aborting && Allowed(t.jobs[i].run.status, Waiting)
    ensures var x := Exited(t.jobs[i]);
            var w := With(t, i, x.(run := Transition(x.run, Waiting)));
            Ok(w) && MayProceed(w) && !Unfinished(w) && Automatic(AllPending(w))
  {
    Exits(t, i);
    ExitMayProceed(t, i);
    WaitingOk(t, i);
  }

  lemma AutomaticallyDue(t: Txn, i: nat, rc: nat -> int) returns (u: Txn)
    requires Ok(t) && Finalizes(t, Exit(i, rc))
    ensures Ok(u) && u.main.Idle? && !u.aborting && AllDue(u.jobs, u.list) && i in u.list
    ensures u.list == t.list && Apply(t, Exit(i, rc)) == DoFinalize(u, i, rc)
  {
    LastOneWaits(t, i, rc);
    var x := Exited(t.jobs[i]);
    var w := With(t, i, x.(run := Transition(x.run, Waiting)));
    EverybodyDone(w, i, rc);
    u := AllPending(w);
  }

  /** The state of the members just before `job_do_finalize`. */
  lemma FinalizesDue(t: Txn, m: Move) returns (u: Txn)
    requires Ok(t) && Finalizes(t, m)
    ensures Ok(u) && u.main.Idle? && !u.aborting && AllDue(u.jobs, u.list) && m.i in u.list
    ensures u.list == t.list && Apply(t, m) == DoFinalize(u, m.i, m.rc)
  {
    if m.Exit? {
      u := AutomaticallyDue(t, m.i, m.rc);
    } else {
      PendingIsDue(t, m.i);
      u := t;
    }
  }

  ghost predicate AllAborted(t: Txn, list: seq<nat>) {
    forall k :: k in list ==> k < |t.jobs| && Aborted(t.jobs[k])
  }

  ghost predicate AllCommitted(t: Txn, list: seq<nat>) {
    forall k :: k in list ==> k < |t.jobs| && Committed(t.jobs[k])
  }

  /** `i` has committed, and all the others of the list have been aborted. */
  ghost predicate OnlyCommitted(t: Txn, list: seq<nat>, i: nat) {
    && i in list && i < |t.jobs| && Committed(t.jobs[i])
    && forall k :: k in list && k != i ==> k < |t.jobs| && Aborted(t.jobs[k])
  }

  /** The list is empty and the abort of the jobs in `list`, started by `i`, is over. */
  lemma AbortOutcome(t: Txn, list: seq<nat>, i: nat)
    requires Ok(t) && t.list == [] && t.party == (set k | k in list) && t.starter == i && i in list
    ensures AllAborted(t, list) <==> t.doomed
    ensures !t.doomed ==> OnlyCommitted(t, list, i)
  {
    assert i in t.party;
    forall k | k in list ensures k < |t.jobs| && Outcome(t, k) && k in t.party {
      assert k in t.party;
    }
  }

  lemma FinalizeStarts(t: Txn, m: Move)
    requires Ok(t) && Finalizes(t, m)
    ensures (forall k :: k in t.list ==> m.rc(k) == 0) ==> AllCommitted(Apply(t, m), t.list)
    ensures (exists k :: k in t.list && m.rc(k) != 0) ==>
              var r := Apply(t, m);
              r.aborting && r.party == (set k | k in t.list) && r.starter == m.i && m.i in t.list && (r.doomed <==> FirstFailure(t.list, m.rc, m.i))
  {
    var u := FinalizesDue(t, m);
    if exists k :: k in t.list && m.rc(k) != 0 {
      FinalizeIsAtomicIff(u, m.i, m.rc);
    } else {
      PreparedCommits(u, m.i, m.rc);
    }
  }

  /** The outcome of a finalization, in every run. When every driver prepares, all members
      have committed. Otherwise, once the list is empty, all members have been aborted if and
      only if the job that was finalized is the first that failed to prepare; if it is not,
      it has committed and all the others have been aborted. */
  lemma FinalOutcome(ts: seq<Txn>, ms: seq<Move>, a: nat, n: nat)
    requires IsRun(ts, ms) && a < |ms| && a < n < |ts| && Ok(ts[a]) && Finalizes(ts[a], ms[a]) && ts[n].list == []
    ensures (forall k :: k in ts[a].list ==> ms[a].rc(k) == 0) ==> AllCommitted(ts[a + 1], ts[a].list)
    ensures (exists k :: k in ts[a].list && ms[a].rc(k) != 0) ==>
              && (AllAborted(ts[n], ts[a].list) <==> FirstFailure(ts[a].list, ms[a].rc, ms[a].i))
              && (!FirstFailure(ts[a].list, ms[a].rc, ms[a].i) ==> OnlyCommitted(ts[n], ts[a].list, ms[a].i))
  {
    assert StepAt(ts, ms, a);
    FinalizeStarts(ts[a], ms[a]);
    if exists k :: k in ts[a].list && ms[a].rc(k) != 0 {
      RunKeepsOk(ts, ms, n);
      AbortStays(ts, ms, a + 1, n);
      AbortOutcome(ts[n], ts[a].list, ms[a].i);
    }
  }

  // ------------------------------------------------------------------ a run that is not atomic

  ghost predicate Reachable(t: Txn) {
    exists ts: seq<Txn>, ms: seq<Move> :: IsRun(ts, ms) && ts[|ms|] == t
  }

  lemma ReachableStep(t: Txn, m: Move)
    requires Reachable(t) && Enabled(t, m)
    ensures Ok(t) && Reachable(Apply(t, m))
  {
    var ts: seq<Txn>, ms: seq<Move> :| IsRun(ts, ms) && ts[|ms|] == t;
    RunExtends(ts, ms, m);
    assert (ts + [Apply(t, m)])[|ms + [m]|] == Apply(t, m);
  }

  /** A job that runs from start to end without failing. */
  lemma JobRuns(t: Txn, i: nat) returns (r: Txn)
    requires Reachable(t) && t.main.Idle? && i < |t.jobs| && t.jobs[i] == Fresh(false, false)
    ensures Reachable(r) && |r.jobs| == |t.jobs| && r == With(t, i, r.jobs[i])
    ensures r.jobs[i].run.pc.Exiting? && r.jobs[i].ret == 0 && !r.jobs[i].cancelled && !r.jobs[i].autoFinalize
  {
    ReachableStep(t, One(i, JobStart));
    var s := Apply(t, One(i, JobStart));
    ReachableStep(s, One(i, DriverReturns(0)));
    r := Apply(s, One(i, DriverReturns(0)));
  }

  /** It exits before the others are done. */
  lemma ExitsEarly(t: Txn, i: nat, l: nat, rc: nat -> int) returns (r: Txn)
    requires Reachable(t) && Ok(t) && t.main.Idle? && i < |t.jobs| && l in t.list && l != i && !Completed(t.jobs[l].run.status)
    requires t.jobs[i].run.pc.Exiting? && t.jobs[i].ret == 0 && !t.jobs[i].cancelled
    ensures Reachable(r) && |r.jobs| == |t.jobs| && r == With(t, i, r.jobs[i])
    ensures r.jobs[i].run.status == Waiting && r.jobs[i].autoFinalize == t.jobs[i].autoFinalize
  {
    ReachableStep(t, Exit(i, rc));
    r := Apply(t, Exit(i, rc));
  }

  /** It exits as the last one, and the jobs are to be finalized by hand. */
  lemma ExitsLast(t: Txn, i: nat, rc: nat -> int) returns (r: Txn)
    requires Reachable(t) && Ok(t) && t.main.Idle? && i in t.list && !t.jobs[i].autoFinalize
    requires t.jobs[i].run.pc.Exiting? && t.jobs[i].ret == 0 && !t.jobs[i].cancelled
    requires forall k :: k in t.list && k != i ==> t.jobs[k].run.status == Waiting
    ensures Reachable(r) && r.main.Idle? && r.list == t.list && |r.jobs| == |t.jobs|
    ensures forall k :: k in r.list ==> r.jobs[k].run.status == Pending
  {
    ReachableStep(t, Exit(i, rc));
    ExitMayProceed(t, i);
    var x := Exited(t.jobs[i]);
    var w := With(t, i, x.(run := Transition(x.run, Waiting)));
    assert !Unfinished(w) && !AllPending(w).jobs[i].autoFinalize;
    r := Apply(t, Exit(i, rc));
    assert r == AllPending(w);
  }

  lemma TwoFresh() returns (t: Txn)
    ensures Reachable(t) && t.main.Idle? && |t.jobs| == 2 && t.list == [1, 0]
    ensures t.jobs[0] == Fresh(false, false) && t.jobs[1] == Fresh(false, false)
  {
    t := Initial([Fresh(false, false), Fresh(false, false)]);
    assert IsRun([t], []) && [t][0] == t;
  }

  lemma ReachableOk(t: Txn)
    requires Reachable(t)
    ensures Ok(t)
  {
    var ts: seq<Txn>, ms: seq<Move> :| IsRun(ts, ms) && ts[|ms|] == t;
    RunKeepsOk(ts, ms, |ms|);
  }

  lemma TwoPending(rc: nat -> int) returns (t: Txn)
    ensures Reachable(t) && t.main.Idle? && |t.jobs| == 2 && t.list == [1, 0]
    ensures t.jobs[0].run.status == Pending && t.jobs[1].run.status == Pending
  {
    t := TwoFresh();
    t := JobRuns(t, 0);
    ReachableOk(t);
    assert 1 in t.list && 0 in t.list;
    t := ExitsEarly(t, 0, 1, rc);
    t := JobRuns(t, 1);
    ReachableOk(t);
    t := ExitsLast(t, 1, rc);
  }

  ghost predicate MembersCompleted(t: Txn) {
    forall k :: k in t.list ==> k < |t.jobs| && Completed(t.jobs[k].run.status)
  }

  lemma NextCompleted(t: Txn)
    requires Ok(t) && Enabled(t, FinalizeNext) && MembersCompleted(t)
    ensures MembersCompleted(Apply(t, FinalizeNext))
  {
    forall k | k in t.list[1..] ensures k in t.list && k != t.list[0] {
      var n :| 0 <= n < |t.list| - 1 && t.list[1..][n] == k;
      assert t.list[n + 1] == k;
    }
  }

  /** An abort ends once all its members are completed. */
  lemma {:induction false} AbortEnds(t: Txn) returns (r: Txn)
    requires Reachable(t) && t.main.Abort? && MembersCompleted(t)
    ensures Reachable(r) && r.list == [] && r.party == t.party && r.starter == t.starter && r.doomed == t.doomed
    decreases |t.list|
  {
    if t.list == [] {
      r := t;
    } else {
      assert t.list[0] in t.list;
      ReachableStep(t, FinalizeNext);
      NextCompleted(t);
      r := AbortEnds(Apply(t, FinalizeNext));
    }
  }

  lemma FailureCompleted(t: Txn, i: nat, rc: nat -> int)
    requires Ok(t) && t.main.Idle? && !t.aborting && AllDue(t.jobs, t.list) && i in t.list
    requires exists k :: k in t.list && rc(k) != 0
    ensures DoFinalize(t, i, rc).main.Abort? && MembersCompleted(DoFinalize(t, i, rc))
  {
    PrepareAllDoes(t.jobs, t.list, rc);
  }

  lemma SecondFails(rc: nat -> int)
    requires rc(0) != 0 && rc(1) == 0
    ensures !FirstFailure([1, 0], rc, 1)
  {
    assert [1, 0][1..] == [0];
  }

  /** Two jobs run without failing; the second is finalized, and the first cannot prepare: the
      second commits, and the first is aborted. */
  lemma OneCommitsOneAborts(rc: nat -> int)
    requires rc(0) != 0 && rc(1) == 0
    ensures exists t: Txn :: Reachable(t) && t.list == [] && OnlyCommitted(t, [1, 0], 1)
  {
    var t := TwoPending(rc);
    var m := FinalizeCommand(1, rc);
    ReachableStep(t, m);
    PendingIsDue(t, 1);
    assert 0 in t.list;
    FailureCompleted(t, 1, rc);
    FinalizeStarts(t, m);
    SecondFails(rc);
    var r := AbortEnds(Apply(t, m));
    ReachableOk(r);
    AbortOutcome(r, [1, 0], 1);
  }
}
