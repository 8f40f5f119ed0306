/** The functions of job.c that change jobs and their transaction in place, loop by loop. */
module JobLayer {
  import opened Lists
  import opened JobState
  import opened JobTxn

  class Transaction {
    var jobs: seq<Job>
    var list: seq<nat>
    var aborting: bool
    var main: Main
    /** The record of an abort, for the specification. */
    ghost var party: set<nat>
    ghost var starter: nat
    ghost var doomed: bool

    ghost function Value(): Txn
      reads this
    {
      Txn(jobs, list, aborting, main, party, starter, doomed)
    }

    constructor (jobs: seq<Job>)
      requires AllFresh(jobs)
      ensures Value() == Initial(jobs) && Ok(Value())
    {
      this.jobs, this.list := jobs, seq(|jobs|, (i: nat) requires i < |jobs| => |jobs| - 1 - i);
      aborting, main, party, starter, doomed := false, Idle, {}, 0, false;
      new;
      InitialOk(jobs);
    }

    /** `job_pause`. */
    method Pause(i: nat)
      requires i < |jobs|
      modifies this`jobs
      ensures jobs == old(jobs)[i := old(jobs[i]).(hold := old(jobs[i].hold).(pauseCount := old(jobs[i].hold.pauseCount) + 1))]
    {
      jobs := jobs[i := jobs[i].(hold := jobs[i].hold.(pauseCount := jobs[i].hold.pauseCount + 1))];
    }

    /** `job_resume`; the requirement is its assertion. Entering the coroutine is a step of
        its own. */
    method Resume(i: nat)
      requires i < |jobs| && jobs[i].hold.pauseCount > 0
      modifies this`jobs
      ensures jobs == old(jobs)[i := old(jobs[i]).(hold := old(jobs[i].hold).(pauseCount := old(jobs[i].hold.pauseCount) - 1))]
    {
      jobs := jobs[i := jobs[i].(hold := jobs[i].hold.(pauseCount := jobs[i].hold.pauseCount - 1))];
    }

    /** `child_job_drained_begin`. */
    method DrainedBegin(i: nat)
      requires i < |jobs| && JobOk(jobs[i])
      modifies this`jobs
      ensures jobs == old(jobs)[i := Do(old(jobs[i]), BeginDrain)]
    {
      Pause(i);
      jobs := jobs[i := jobs[i].(hold := jobs[i].hold.(drains := jobs[i].hold.drains + 1))];
    }

    /** `child_job_drained_end`. */
    method DrainedEnd(i: nat)
      requires i < |jobs| && JobOk(jobs[i]) && jobs[i].hold.drains > 0
      modifies this`jobs
      ensures jobs == old(jobs)[i := Do(old(jobs[i]), EndDrain)]
    {
      Resume(i);
      jobs := jobs[i := jobs[i].(hold := jobs[i].hold.(drains := jobs[i].hold.drains - 1))];
    }

    /** `job_user_pause`. */
    method UserPause(i: nat) returns (ok: bool)
      requires i < |jobs| && JobOk(jobs[i])
      modifies this`jobs
      ensures ok <==> old(Can(jobs[i], true, PauseCommand))
      ensures jobs == if ok then old(jobs)[i := Do(old(jobs[i]), PauseCommand)] else old(jobs)
    {
      if !Accepts(JobState.Pause, jobs[i].run.status) {
        return false;
      }
      if jobs[i].hold.userPaused {
        return false;
      }
      jobs := jobs[i := jobs[i].(hold := jobs[i].hold.(userPaused := true))];
      Pause(i);
      ok := true;
    }

    /** `job_user_resume`, with `block_job_iostatus_reset`. */
    method UserResume(i: nat) returns (ok: bool)
      requires i < |jobs| && JobOk(jobs[i])
      modifies this`jobs
      ensures ok <==> old(Can(jobs[i], true, ResumeCommand))
      ensures jobs == if ok then old(jobs)[i := Do(old(jobs[i]), ResumeCommand)] else old(jobs)
    {
      if !jobs[i].hold.userPaused || jobs[i].hold.pauseCount <= 0 {
        return false;
      }
      if !Accepts(JobState.Resume, jobs[i].run.status) {
        return false;
      }
      jobs := jobs[i := jobs[i].(hold := jobs[i].hold.(ioOk := true))];
      jobs := jobs[i := jobs[i].(hold := jobs[i].hold.(userPaused := false))];
      Resume(i);
      ok := true;
    }

    /** `job_start`; the coroutine begins to run. */
    method Start(i: nat)
      requires i < |jobs| && JobOk(jobs[i]) && jobs[i].run.status == Created
      modifies this`jobs
      ensures jobs == old(jobs)[i := Do(old(jobs[i]), JobStart)]
    {
      BeginOk(jobs[i].run);
      Resume(i);
      jobs := jobs[i := jobs[i].(run := jobs[i].run.(pc := Active, busy := true, paused := false))];
      jobs := jobs[i := jobs[i].(run := Transition(jobs[i].run, Running))];
    }

    /** The commands that touch one job, with the main thread idle. */
    method Command(i: nat, act: Act) returns (ok: bool)
      requires Ok(Value()) && main.Idle? && i < |jobs| && (act.JobStart? || act.PauseCommand? || act.ResumeCommand?)
      modifies this`jobs
      ensures Ok(Value()) && (ok <==> old(Enabled(Value(), One(i, act))))
      ensures Value() == if ok then Apply(old(Value()), One(i, act)) else old(Value())
    {
      ghost var before := Value();
      assert JobOk(jobs[i]);
      if Can(jobs[i], true, act) {
        OneOk(Value(), i, act);
      }
      if act.PauseCommand? {
        ok := UserPause(i);
      } else if act.ResumeCommand? {
        ok := UserResume(i);
      } else {
        ok := jobs[i].run.status == Created;
        if ok {
          Start(i);
        }
      }
      assert Value() == if ok then With(before, i, Do(before.jobs[i], act)) else before;
    }

    /** The drained sections of the nodes of a job. */
    method Drain(i: nat, begin: bool)
      requires Ok(Value()) && i < |jobs| && (!begin ==> jobs[i].hold.drains > 0)
      modifies this`jobs
      ensures Ok(Value()) && Value() == Apply(old(Value()), One(i, if begin then BeginDrain else EndDrain))
    {
      ghost var before := Value();
      assert JobOk(jobs[i]);
      OneOk(Value(), i, if begin then BeginDrain else EndDrain);
      if begin {
        DrainedBegin(i);
      } else {
        DrainedEnd(i);
      }
      assert Value() == With(before, i, Do(before.jobs[i], if begin then BeginDrain else EndDrain));
    }

    /** The steps of the driver and its coroutine. */
    method Step(i: nat, act: Act)
      requires Ok(Value()) && Enabled(Value(), One(i, act))
      modifies this`jobs
      ensures Ok(Value()) && Value() == Apply(old(Value()), One(i, act))
    {
      OneOk(Value(), i, act);
      jobs := jobs[i := Do(jobs[i], act)];
    }

    /** The first half of `job_completed_txn_abort`: the loop that cancels the others. */
    method CancelOthers(i: nat)
      requires i in list && i < |jobs| && NoDups(list) && forall k :: k in list ==> k < |jobs|
      modifies this
      ensures Value() == StartAbort(old(Value()), i)
    {
      party, starter, doomed := (set k | k in list), i, jobs[i].ret != 0 || jobs[i].cancelled;
      aborting, main := true, Abort;
      CancelLoop(i);
    }

    method CancelLoop(i: nat)
      requires NoDups(list) && forall k :: k in list ==> k < |jobs|
      modifies this`jobs
      ensures |jobs| == |old(jobs)|
      ensures forall k :: 0 <= k < |jobs| ==> jobs[k] == if k in list && k != i then CancelAsync(old(jobs)[k], false) else old(jobs)[k]
    {
      var n := 0;
      while n < |list|
        invariant 0 <= n <= |list| && |jobs| == |old(jobs)|
        invariant forall k :: 0 <= k < |jobs| ==> jobs[k] == if k in list[..n] && k != i then CancelAsync(old(jobs)[k], false) else old(jobs)[k]
      {
        var k := list[n];
        assert list[..n + 1] == list[..n] + [k];
        assert k in list && k !in list[..n];
        if k != i {
          jobs := jobs[k := CancelAsync(jobs[k], false)];
        }
        n := n + 1;
      }
      assert list[..n] == list;
    }

    /** `job_txn_apply` with `job_prepare`. */
    method ApplyPrepare(rc: nat -> int) returns (ok: bool)
      requires AllDue(jobs, list)
      modifies this`jobs
      ensures (jobs, ok) == PrepareAll(old(jobs), list, rc)
    {
      var n := 0;
      while n < |list|
        invariant 0 <= n <= |list| && AllDue(jobs, list[n..])
        invariant PrepareAll(old(jobs), list, rc) == PrepareAll(jobs, list[n..], rc)
      {
        var k := list[n];
        assert list[n..][0] == k && list[n..][1..] == list[n + 1..] && k in list[n..];
        TailDue(jobs, list[n..], Prepare(jobs[k], rc(k)));
        var j := Prepare(jobs[k], rc(k));
        jobs := jobs[k := j];
        if j.ret != 0 {
          return false;
        }
        n := n + 1;
      }
      ok := true;
    }

    /** `job_txn_apply` with `job_transition_to_pending`. */
    method ApplyPending()
      requires NoDups(list) && forall k :: k in list ==> k < |jobs| && jobs[k].run.status == Waiting
      modifies this`jobs
      ensures Value() == AllPending(old(Value()))
    {
      var n := 0;
      ghost var was := jobs;
      while n < |list|
        invariant 0 <= n <= |list| && |jobs| == |was|
        invariant forall k :: 0 <= k < |jobs| ==>
                    jobs[k] == if k in list[..n] then was[k].(run := Transition(was[k].run, Pending)) else was[k]
      {
        var k := list[n];
        assert list[..n + 1] == list[..n] + [k];
        assert k in list && k !in list[..n];
        jobs := jobs[k := jobs[k].(run := Transition(jobs[k].run, Pending))];
        n := n + 1;
      }
      assert list[..n] == list;
    }

    /** `job_txn_apply` with `job_finalize_single`: each job leaves the list as it is done. */
    method ApplyFinalize()
      requires NoDups(list) && forall k :: k in list ==> k < |jobs| && Finalizable(jobs[k])
      modifies this`jobs, this`list
      ensures Value() == FinalizeAll(old(Value()))
    {
      var n := 0;
      ghost var was, all := jobs, list;
      while list != []
        invariant 0 <= n <= |all| && |jobs| == |was| && list == all[n..]
        invariant forall k :: 0 <= k < |jobs| ==> jobs[k] == if k in all[..n] then FinalizeSingle(was[k]) else was[k]
        decreases |all| - n
      {
        var k := list[0];
        assert k == all[n] && all[..n + 1] == all[..n] + [k];
        assert k in all && k !in all[..n];
        jobs := jobs[k := FinalizeSingle(jobs[k])];
        list := list[1..];
        n := n + 1;
      }
      assert all[..n] == all;
    }

    /** `job_do_finalize`. */
    method Finalize(i: nat, rc: nat -> int)
      requires AllDue(jobs, list) && i in list && i < |jobs|
      modifies this
      ensures Value() == DoFinalize(old(Value()), i, rc)
    {
      PrepareAllDoes(jobs, list, rc);
      var ok := ApplyPrepare(rc);
      if ok {
        ApplyFinalize();
      } else {
        CancelOthers(i);
      }
    }

    /** The loop of `job_completed_txn_success`. */
    method AllCompleted() returns (all: bool)
      requires forall k :: k in list ==> k < |jobs|
      ensures all <==> !Unfinished(Value())
    {
      var n := 0;
      while n < |list|
        invariant 0 <= n <= |list| && forall k :: k in list[..n] ==> k < |jobs| && Completed(jobs[k].run.status)
      {
        var k := list[n];
        assert k in list && list[..n + 1] == list[..n] + [k];
        if !Completed(jobs[k].run.status) {
          return false;
        }
        n := n + 1;
      }
      assert list[..n] == list;
      all := true;
    }

    /** `job_txn_apply` with `job_needs_finalize`. */
    method NeedsFinalize() returns (manual: bool)
      requires forall k :: k in list ==> k < |jobs|
      ensures manual <==> !Automatic(Value())
    {
      var n := 0;
      while n < |list|
        invariant 0 <= n <= |list| && forall k :: k in list[..n] ==> k < |jobs| && jobs[k].autoFinalize
      {
        var k := list[n];
        assert k in list && list[..n + 1] == list[..n] + [k];
        if !jobs[k].autoFinalize {
          return true;
        }
        n := n + 1;
      }
      assert list[..n] == list;
      manual := false;
    }

    /** `job_completed_txn_success` once the status is set. */
    method TxnSuccess(i: nat, rc: nat -> int)
      requires MayProceed(Value()) && i in list && i < |jobs|
      modifies this
      ensures Value() == Proceed(old(Value()), i, rc)
    {
      var all := AllCompleted();
      if !all {
        return;
      }
      ApplyPending();
      var manual := NeedsFinalize();
      if !manual {
        Finalize(i, rc);
      }
    }

    /** `job_completed` for job `i`, which has become `j`. */
    method Complete(i: nat, j: Job, rc: nat -> int)
      requires i in list && i < |jobs| && NoDups(list) && (forall k :: k in list ==> k < |jobs|) && Allowed(j.run.status, Aborting)
      requires j.ret == 0 && !j.cancelled ==>
                 Allowed(j.run.status, Waiting) && MayProceed(With(Value(), i, j.(run := Transition(j.run, Waiting))))
      modifies this
      ensures Value() == JobCompleted(old(Value()), i, j, rc)
    {
      if j.ret == 0 && !j.cancelled {
        jobs := jobs[i := j.(run := Transition(j.run, Waiting))];
        TxnSuccess(i, rc);
      } else {
        jobs := jobs[i := UpdateRc(j)];
        if !aborting {
          CancelOthers(i);
        }
      }
    }

    /** `job_exit`. */
    method Exit(i: nat, rc: nat -> int)
      requires Ok(Value()) && i < |jobs| && jobs[i].run.pc.Exiting?
      modifies this
      ensures Ok(Value()) && Value() == Apply(old(Value()), JobTxn.Exit(i, rc))
    {
      ExitOk(Value(), i, rc);
      ghost var before := Value();
      ReadyToExit(before, i);
      Complete(i, Exited(jobs[i]), rc);
      assert Value() == ApplyExit(before, i, rc);
    }

    /** `job_cancel`. */
    method Cancel(i: nat, force: bool)
      requires Ok(Value()) && main.Idle? && i < |jobs| && jobs[i].run.status != Null
      modifies this
      ensures Ok(Value()) && Value() == Apply(old(Value()), CancelCommand(i, force))
    {
      ApplyCancelOk(Value(), i, force);
      var j := jobs[i];
      if j.run.status == Concluded {
        jobs := jobs[i := j.(run := Dismissed(j.run))];
      } else {
        CancelMember(i, force);
      }
    }

    /** `job_cancel` of a job that is not concluded. */
    method CancelMember(i: nat, force: bool)
      requires Ok(Value()) && main.Idle? && i < |jobs| && jobs[i].run.status != Null && jobs[i].run.status != Concluded
      modifies this
      ensures Value() == ApplyCancel(old(Value()), i, force)
    {
      var j := jobs[i];
      assert JobOk(j) && i in list;
      var k := CancelAsync(j, force);
      if !Started(j.run) {
        Complete(i, k, n => 0);
      } else {
        jobs := jobs[i := k];
        if j.run.deferred {
          CancelOthers(i);
        }
      }
    }

    /** One round of the second loop of `job_completed_txn_abort`, after `job_finish_sync`. */
    method FinalizeFirst()
      requires Ok(Value()) && Enabled(Value(), FinalizeNext)
      modifies this
      ensures Ok(Value()) && Value() == Apply(old(Value()), FinalizeNext)
    {
      FirstFinalized(Value());
      FinalizeNextOk(Value());
      var k := list[0];
      jobs, list := jobs[k := FinalizeSingle(jobs[k])], list[1..];
    }
  }

  lemma ReadyToExit(t: Txn, i: nat)
    requires Ok(t) && i < |t.jobs| && t.jobs[i].run.pc.Exiting?
    ensures i in t.list && NoDups(t.list) && (forall k :: k in t.list ==> k < |t.jobs|)
    ensures var j := Exited(t.jobs[i]);
            && Allowed(j.run.status, Aborting)
            && (j.ret == 0 && !j.cancelled ==> Allowed(j.run.status, Waiting) && MayProceed(With(t, i, j.(run := Transition(j.run, Waiting)))))
  {
    Exits(t, i);
    if t.jobs[i].ret == 0 && !t.jobs[i].cancelled {
      ExitMayProceed(t, i);
    }
  }
}
