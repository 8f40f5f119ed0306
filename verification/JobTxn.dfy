/** A transaction of jobs (job.c) under every interleaving of commands, driver steps and the
    event loop. While a transaction is aborted, the main thread runs a nested event loop, so
    coroutines and job exits go on but no command is executed. */
module JobTxn {
  import opened Lists
  import opened JobState

  datatype Main = Idle | Abort

  /** `list` is the list of the transaction. `party`, `starter` and `doomed` record an abort: the
      members at its start, the job that started it, and whether that job had itself failed
      or been cancelled. */
  datatype Txn = Txn(jobs: seq<Job>, list: seq<nat>, aborting: bool, main: Main, party: set<nat>, starter: nat, doomed: bool)

  // ------------------------------------------------------------------ what always holds

  ghost predicate ListOk(t: Txn) {
    && NoDups(t.list)
    && (forall i :: i in t.list ==> i < |t.jobs|)
    && (forall i :: 0 <= i < |t.jobs| ==> (t.jobs[i].member <==> i in t.list))
  }

  /** Between two commands: nobody is half aborted, whoever waits for the others has done
      well, and members become pending together. */
  predicate IdleOk(t: Txn, i: nat)
    requires i < |t.jobs| && forall k :: k in t.list ==> k < |t.jobs|
  {
    var j := t.jobs[i];
    && j.run.status != Aborting
    && (j.run.status == Waiting || j.run.status == Pending ==> !j.cancelled && j.ret == 0)
    && (j.run.status == Pending ==> forall k :: k in t.list ==> t.jobs[k].run.status == Pending)
  }

  /** During an abort every member is cancelled, except perhaps the one that started it. */
  predicate AbortOk(t: Txn, i: nat)
    requires i < |t.jobs|
  {
    var j := t.jobs[i];
    && (i != t.starter ==> j.cancelled)
    && (i == t.starter ==> if t.doomed then j.cancelled || j.run.status == Aborting else j.run.status == Pending && !j.cancelled && j.ret == 0)
  }

  predicate Aborted(j: Job) {
    j.ret != 0 && j.aborts == 1 && j.commits == 0 && j.cleans == 1
  }

  predicate Committed(j: Job) {
    j.ret == 0 && j.commits == 1 && j.aborts == 0 && j.cleans == 1
  }

  /** What has become of a job that has left the list. */
  predicate Outcome(t: Txn, i: nat)
    requires i < |t.jobs|
  {
    var j := t.jobs[i];
    if i in t.party then (if i == t.starter && !t.doomed then Committed(j) else Aborted(j))
    else j.aborts == 0 && (j.commits > 0 ==> Committed(j) && t.list == [] && !t.aborting)
  }

  ghost predicate Ok(t: Txn) {
    && (forall i {:trigger t.jobs[i]} :: 0 <= i < |t.jobs| ==> JobOk(t.jobs[i]))
    && ListOk(t)
    && (t.main.Idle? ==> (t.aborting ==> t.list == []) && forall i :: i in t.list ==> IdleOk(t, i))
    && (t.main.Abort? ==> t.aborting && (forall i :: i in t.list ==> AbortOk(t, i) && i in t.party))
    && (t.aborting <==> t.party != {})
    && (forall i :: 0 <= i < |t.jobs| && i !in t.list ==> Outcome(t, i))
    && (forall i :: i in t.party ==> i < |t.jobs|)
  }

  // ------------------------------------------------------------------ pieces of steps

  function With(t: Txn, i: nat, j: Job): (r: Txn)
    requires i < |t.jobs|
  {
    t.(jobs := t.jobs[i := j])
  }

  /** The first half of `job_completed_txn_abort`: all the other members are cancelled. */
  function StartAbort(t: Txn, starter: nat): (r: Txn)
    requires starter < |t.jobs|
  {
    Txn(seq(|t.jobs|, (k: nat) requires k < |t.jobs| => if k in t.list && k != starter then CancelAsync(t.jobs[k], false) else t.jobs[k]),
        t.list, true, Abort, (set k | k in t.list), starter, t.jobs[starter].ret != 0 || t.jobs[starter].cancelled)
  }

  /** `job_txn_apply(job_transition_to_pending)`. */
  function AllPending(t: Txn): (r: Txn)
    requires forall k :: k in t.list ==> k < |t.jobs| && t.jobs[k].run.status == Waiting
  {
    t.(jobs := seq(|t.jobs|, (k: nat) requires k < |t.jobs| =>
         if k in t.list then t.jobs[k].(run := Transition(t.jobs[k].run, Pending)) else t.jobs[k]))
  }

  /** `job_prepare` with the driver's answer; a driver without the callback answers 0. */
  function Prepare(j: Job, rc: int): (r: Job)
    requires j.run.status == Pending
  {
    if j.ret != 0 then j else UpdateRc(j.(ret := rc))
  }

  /** The members are pending and have done well so far. */
  predicate AllDue(jobs: seq<Job>, list: seq<nat>) {
    NoDups(list) && forall k :: k in list ==> k < |jobs| && jobs[k].run.status == Pending && jobs[k].ret == 0 && !jobs[k].cancelled
  }

  lemma TailDue(jobs: seq<Job>, list: seq<nat>, j: Job)
    requires AllDue(jobs, list) && list != []
    ensures list[0] < |jobs| && AllDue(jobs[list[0] := j], list[1..])
  {
    assert list[0] in list && forall k :: k in list[1..] ==> k in list;
    assert list[0] !in list[1..];
  }

  /** `job_txn_apply(job_prepare)`: up to the first failure. */
  function PrepareAll(jobs: seq<Job>, list: seq<nat>, rc: nat -> int): (r: (seq<Job>, bool))
    requires AllDue(jobs, list)
    ensures |r.0| == |jobs|
    decreases |list|
  {
    if list == [] then (jobs, true)
    else
      var k := list[0];
      assert k in list;
      var j := Prepare(jobs[k], rc(k));
      if j.ret != 0 then (jobs[k := j], false)
      else
        assert forall i :: i in list[1..] ==> i in list;
        PrepareAll(jobs[k := j], list[1..], rc)
  }

  /** `job_txn_apply(job_finalize_single)`. */
  function FinalizeAll(t: Txn): (r: Txn)
    requires forall k :: k in t.list ==> k < |t.jobs| && Finalizable(t.jobs[k])
  {
    t.(jobs := seq(|t.jobs|, (k: nat) requires k < |t.jobs| => if k in t.list then FinalizeSingle(t.jobs[k]) else t.jobs[k]),
       list := [])
  }

  /** What `PrepareAll` does: nothing when no driver fails, else one member is aborting. */
  lemma {:induction false} PrepareAllDoes(jobs: seq<Job>, list: seq<nat>, rc: nat -> int)
    requires AllDue(jobs, list)
    ensures var r := PrepareAll(jobs, list, rc);
            && (r.1 <==> forall k :: k in list ==> rc(k) == 0)
            && (r.1 ==> r.0 == jobs)
            && (!r.1 ==> exists k :: k in list && rc(k) != 0 && r.0 == jobs[k := Prepare(jobs[k], rc(k))])
    decreases |list|
  {
    if list != [] {
      var k := list[0];
      assert k in list && forall i :: i in list[1..] ==> i in list;
      if rc(k) == 0 {
        assert jobs[k := Prepare(jobs[k], 0)] == jobs;
        PrepareAllDoes(jobs, list[1..], rc);
        assert list == [k] + list[1..];
      }
    }
  }

  /** `job_do_finalize`. */
  function DoFinalize(t: Txn, i: nat, rc: nat -> int): (r: Txn)
    requires AllDue(t.jobs, t.list) && i < |t.jobs|
  {
    PrepareAllDoes(t.jobs, t.list, rc);
    var p := PrepareAll(t.jobs, t.list, rc);
    if p.1 then FinalizeAll(t.(jobs := p.0)) else StartAbort(t.(jobs := p.0), i)
  }

  /** A completed member waits for the others and has done well. */
  predicate MayProceed(t: Txn) {
    NoDups(t.list) && forall k :: k in t.list ==> k < |t.jobs| && (Completed(t.jobs[k].run.status) ==>
      t.jobs[k].run.status == Waiting && t.jobs[k].ret == 0 && !t.jobs[k].cancelled)
  }

  predicate Unfinished(t: Txn)
    requires forall k :: k in t.list ==> k < |t.jobs|
  {
    exists k :: k in t.list && !Completed(t.jobs[k].run.status)
  }

  predicate Automatic(t: Txn)
    requires forall k :: k in t.list ==> k < |t.jobs|
  {
    forall k :: k in t.list ==> t.jobs[k].autoFinalize
  }

  /** `job_completed_txn_success` from the loop on. */
  function Proceed(t: Txn, i: nat, rc: nat -> int): (r: Txn)
    requires MayProceed(t) && i < |t.jobs|
  {
    if Unfinished(t) then t
    else
      var u := AllPending(t);
      if Automatic(u) then DoFinalize(u, i, rc) else u
  }

  /** `job_completed` for job `i`, which has become `j`. */
  function JobCompleted(t: Txn, i: nat, j: Job, rc: nat -> int): (r: Txn)
    requires i < |t.jobs| && Allowed(j.run.status, Aborting)
    requires j.ret == 0 && !j.cancelled ==>
               Allowed(j.run.status, Waiting) && MayProceed(With(t, i, j.(run := Transition(j.run, Waiting))))
  {
    if j.ret == 0 && !j.cancelled then Proceed(With(t, i, j.(run := Transition(j.run, Waiting))), i, rc)
    else if t.aborting then With(t, i, UpdateRc(j))
    else StartAbort(With(t, i, UpdateRc(j)), i)
  }

  // ------------------------------------------------------------------ moves

  /** Steps that touch one job only: commands, the driver's code, drained sections of its
      nodes and the event loop. */
  datatype Act =
    | JobStart
    | PausePoint
    | Reenter
    | Suspend
    | BecomeReady
    | DriverReturns(ret: int)
    | ClearCancel
    | BeginDrain
    | EndDrain
    | PauseCommand
    | ResumeCommand
    | IoError
    | DismissCommand

  /** When a step can happen; commands need the main thread. */
  predicate Can(j: Job, idle: bool, a: Act) {
    match a
    case JobStart => idle && j.run.status == Created
    case PausePoint => j.run.pc.Active? && j.hold.pauseCount > 0 && !j.cancelled
    case Reenter => j.run.pc.Yielded? || j.run.pc.InPause?
    case Suspend => j.run.pc.Active? && j.hold.pauseCount == 0 && !j.cancelled
    case BecomeReady => j.run.pc.Active? && j.run.status == Running
    case DriverReturns(_) => j.run.pc.Active?
    case ClearCancel => idle && j.run.pc.Active?
    case BeginDrain => true
    case EndDrain => j.hold.drains > 0
    case PauseCommand => idle && Accepts(Pause, j.run.status) && !j.hold.userPaused
    case ResumeCommand => idle && Accepts(Resume, j.run.status) && j.hold.userPaused
    case IoError => Started(j.run)
    case DismissCommand => idle && Accepts(Dismiss, j.run.status)
  }

  function Do(j: Job, a: Act): (r: Job)
    requires JobOk(j) && Can(j, true, a)
  {
    match a
    case JobStart => j.(run := Begin(j.run), hold := j.hold.(pauseCount := j.hold.pauseCount - 1))
    case PausePoint => j.(run := EnterPause(j.run))
    case Reenter => j.(run := Enter(j.run))
    case Suspend => j.(run := Yield(j.run))
    case BecomeReady => j.(run := Transition(j.run, Ready))
    case DriverReturns(ret) => j.(run := Return(j.run), ret := ret)
    case ClearCancel => j.(cancelled := false)
    case BeginDrain => j.(hold := DrainBegin(j.hold))
    case EndDrain => j.(hold := DrainEnd(j.hold))
    case PauseCommand => j.(hold := UserPause(j.hold, false))
    case ResumeCommand => j.(hold := UserResume(j.hold))
    case IoError => j.(hold := UserPause(j.hold, true))
    case DismissCommand => j.(run := Dismissed(j.run))
  }

  /** Nothing that the transaction looks at changes, apart from the status of a job that is
      not completed. */
  predicate Minor(j: Job, r: Job) {
    && r.member == j.member && r.commits == j.commits && r.aborts == j.aborts && r.cleans == j.cleans
    && Completed(r.run.status) == Completed(j.run.status)
    && (j.member && Completed(j.run.status) ==> r.run == j.run)
    && (Completed(j.run.status) ==> r.ret == j.ret && r.cancelled == j.cancelled)
  }

  lemma HoldStep(j: Job, h: Hold)
    requires JobOk(j) && HoldOk(h, Started(j.run))
    ensures JobOk(j.(hold := h)) && Minor(j, j.(hold := h))
  {
  }

  /** A step of the coroutine of a job that is not completed and has no result. */
  lemma RunStep(j: Job, r: Run)
    requires JobOk(j) && RunOk(r) && !Completed(j.run.status) && !j.run.pc.Exiting? && !Completed(r.status) && Started(r) == Started(j.run)
    ensures JobOk(j.(run := r)) && Minor(j, j.(run := r))
  {
  }

  lemma DoHold(j: Job, a: Act)
    requires JobOk(j) && Can(j, true, a) && (a.BeginDrain? || a.EndDrain? || a.PauseCommand? || a.ResumeCommand? || a.IoError?)
    ensures JobOk(Do(j, a)) && Minor(j, Do(j, a))
  {
    HoldKept(j.hold, Started(j.run), a.IoError?);
    HoldStep(j, Do(j, a).hold);
  }

  lemma DoRun(j: Job, a: Act)
    requires JobOk(j) && Can(j, true, a) && (a.PausePoint? || a.Reenter? || a.Suspend? || a.BecomeReady?)
    ensures JobOk(Do(j, a)) && Minor(j, Do(j, a))
  {
    match a {
      case PausePoint => EnterPauseOk(j.run);
      case Reenter => EnterOk(j.run);
      case BecomeReady => TransitionOk(j.run, Ready);
      case Suspend =>
    }
    RunStep(j, Do(j, a).run);
  }

  lemma DoRest(j: Job, a: Act)
    requires JobOk(j) && Can(j, true, a) && (a.JobStart? || a.DriverReturns? || a.ClearCancel? || a.DismissCommand?)
    ensures JobOk(Do(j, a)) && Minor(j, Do(j, a))
  {
    if a.JobStart? {
      BeginOk(j.run);
    } else if a.DismissCommand? {
      DismissedOk(j.run);
    }
  }

  lemma DoOk(j: Job, idle: bool, a: Act)
    requires JobOk(j) && Can(j, idle, a)
    ensures JobOk(Do(j, a)) && Minor(j, Do(j, a)) && (!idle ==> Do(j, a).cancelled == j.cancelled)
  {
    if a.BeginDrain? || a.EndDrain? || a.PauseCommand? || a.ResumeCommand? || a.IoError? {
      DoHold(j, a);
    } else if a.PausePoint? || a.Reenter? || a.Suspend? || a.BecomeReady? {
      DoRun(j, a);
    } else {
      DoRest(j, a);
    }
  }

  datatype Move =
    | One(i: nat, act: Act)
    | Exit(i: nat, rc: nat -> int)
    | CancelCommand(i: nat, force: bool)
    | FinalizeCommand(i: nat, rc: nat -> int)
    | EarlyFail(i: nat)
    | FinalizeNext
    | AbortDone

  predicate Enabled(t: Txn, m: Move) {
    match m
    case One(i, act) => i < |t.jobs| && Can(t.jobs[i], t.main.Idle?, act)
    case Exit(i, _) => i < |t.jobs| && t.jobs[i].run.pc.Exiting?
    case CancelCommand(i, _) => t.main.Idle? && i < |t.jobs| && t.jobs[i].run.status != Null
    case FinalizeCommand(i, _) => t.main.Idle? && i < |t.jobs| && Accepts(Finalize, t.jobs[i].run.status)
    case EarlyFail(i) => t.main.Idle? && i < |t.jobs| && t.jobs[i].run.status == Created
    case FinalizeNext => t.main.Abort? && t.list != [] && t.list[0] < |t.jobs| && Completed(t.jobs[t.list[0]].run.status)
    case AbortDone => t.main.Abort? && t.list == []
  }

  // ------------------------------------------------------------------ the invariant is kept

  lemma MinorOk(t: Txn, i: nat, j: Job)
    requires Ok(t) && i < |t.jobs| && JobOk(j) && Minor(t.jobs[i], j) && (t.main.Abort? ==> j.cancelled == t.jobs[i].cancelled)
    ensures Ok(With(t, i, j))
  {
    var r := With(t, i, j);
    forall k | k in r.list ensures (r.main.Idle? ==> IdleOk(r, k)) && (r.main.Abort? ==> AbortOk(r, k)) {
      assert JobOk(t.jobs[k]);
      if r.main.Idle? {
        assert IdleOk(t, k);
      } else {
        assert AbortOk(t, k);
      }
    }
    forall k | 0 <= k < |r.jobs| && k !in r.list ensures Outcome(r, k) {
      assert Outcome(t, k);
    }
  }

  lemma OneOk(t: Txn, i: nat, a: Act)
    requires Ok(t) && Enabled(t, One(i, a))
    ensures Ok(With(t, i, Do(t.jobs[i], a)))
  {
    DoOk(t.jobs[i], t.main.Idle?, a);
    MinorOk(t, i, Do(t.jobs[i], a));
  }

  /** Everything is in order for an abort that `starter` begins. */
  ghost predicate BeforeAbort(t: Txn, starter: nat) {
    && (forall i {:trigger t.jobs[i]} :: 0 <= i < |t.jobs| ==> JobOk(t.jobs[i]))
    && ListOk(t) && !t.aborting && t.party == {} && starter in t.list
    && (forall i :: 0 <= i < |t.jobs| && i !in t.list ==> Outcome(t, i))
    && var j := t.jobs[starter];
       if j.ret != 0 || j.cancelled then j.cancelled || j.run.status == Aborting else j.run.status == Pending
  }

  lemma AbortBegins(t: Txn, starter: nat)
    requires BeforeAbort(t, starter)
    ensures Ok(StartAbort(t, starter))
  {
    var r := StartAbort(t, starter);
    forall k | 0 <= k < |r.jobs| ensures JobOk(r.jobs[k]) && (k !in r.list ==> Outcome(r, k)) {
      CancelOk(t.jobs[k], false);
      if k !in r.list {
        assert Outcome(t, k);
      }
    }
    assert starter in r.party;
    assert r.doomed <==> t.jobs[starter].ret != 0 || t.jobs[starter].cancelled;
    forall k | k in r.list ensures AbortOk(r, k) && k in r.party {
    }
  }

  /** All members commit. */
  lemma AllCommit(t: Txn)
    requires Ok(t) && t.main.Idle? && !t.aborting && AllDue(t.jobs, t.list)
    ensures forall k :: k in t.list ==> k < |t.jobs| && Finalizable(t.jobs[k])
    ensures Ok(FinalizeAll(t)) && forall k :: k in t.list ==> Committed(FinalizeAll(t).jobs[k])
  {
    var r := FinalizeAll(t);
    forall k | 0 <= k < |r.jobs| ensures JobOk(r.jobs[k]) && Outcome(r, k) && !r.jobs[k].member && (k in t.list ==> Committed(r.jobs[k])) {
      if k in t.list {
        FinalizeOk(t.jobs[k]);
      } else {
        assert Outcome(t, k);
      }
    }
  }

  lemma PrepareFails(j: Job, rc: int)
    requires JobOk(j) && j.member && j.run.status == Pending && j.ret == 0 && !j.cancelled && rc != 0
    ensures var r := Prepare(j, rc); JobOk(r) && r.member && r.ret == rc && r.run.status == Aborting && !r.cancelled
  {
    TransitionOk(j.run, Aborting);
  }

  lemma PrepareAborts(t: Txn, i: nat, k: nat, rc: int)
    requires Ok(t) && t.main.Idle? && !t.aborting && AllDue(t.jobs, t.list) && i in t.list && k in t.list && rc != 0
    ensures Ok(StartAbort(With(t, k, Prepare(t.jobs[k], rc)), i))
  {
    PrepareFails(t.jobs[k], rc);
    var u := With(t, k, Prepare(t.jobs[k], rc));
    forall l | 0 <= l < |u.jobs| && l !in u.list ensures Outcome(u, l) {
      assert Outcome(t, l);
    }
    AbortBegins(u, i);
  }

  lemma DoFinalizeOk(t: Txn, i: nat, rc: nat -> int)
    requires Ok(t) && t.main.Idle? && !t.aborting && AllDue(t.jobs, t.list) && i in t.list
    ensures Ok(DoFinalize(t, i, rc))
  {
    PrepareAllDoes(t.jobs, t.list, rc);
    var p := PrepareAll(t.jobs, t.list, rc);
    if p.1 {
      AllCommit(t);
    } else {
      var k :| k in t.list && rc(k) != 0 && p.0 == t.jobs[k := Prepare(t.jobs[k], rc(k))];
      PrepareAborts(t, i, k, rc(k));
    }
  }

  /** When every `prepare` succeeds, every member commits. */
  lemma PreparedCommits(t: Txn, i: nat, rc: nat -> int)
    requires Ok(t) && t.main.Idle? && !t.aborting && AllDue(t.jobs, t.list) && i in t.list
    requires forall k :: k in t.list ==> rc(k) == 0
    ensures DoFinalize(t, i, rc).list == [] && forall k :: k in t.list ==> Committed(DoFinalize(t, i, rc).jobs[k])
  {
    PrepareAllDoes(t.jobs, t.list, rc);
    AllCommit(t);
  }

  // ------------------------------------------------------------------ completion

  /** `job_exit` as far as the job itself goes, before `job_completed`. */
  function Exited(j: Job): (r: Job) {
    j.(run := j.run.(pc := Ended, busy := false))
  }

  lemma ExitAborts(j: Job)
    requires JobOk(j) && j.run.pc.Exiting? && (j.ret != 0 || j.cancelled)
    ensures var r := UpdateRc(Exited(j)); JobOk(r) && r.member && r.run.status == Aborting && r.cancelled == j.cancelled
  {
    TransitionOk(j.run, Aborting);
  }

  lemma ExitWaits(j: Job)
    requires JobOk(j) && j.run.pc.Exiting? && j.ret == 0 && !j.cancelled
    ensures var r := Exited(j).(run := Transition(Exited(j).run, Waiting)); JobOk(r) && r.member
  {
    TransitionOk(j.run, Waiting);
  }

  /** A job that exits is a member, and during an abort it is cancelled. */
  lemma Exits(t: Txn, i: nat)
    requires Ok(t) && i < |t.jobs| && t.jobs[i].run.pc.Exiting?
    ensures i in t.list && JobOk(t.jobs[i])
    ensures t.main.Abort? ==> t.jobs[i].ret != 0 || t.jobs[i].cancelled
    ensures t.main.Idle? ==> !t.aborting
  {
    assert JobOk(t.jobs[i]);
    if t.main.Abort? {
      assert AbortOk(t, i);
    }
  }

  /** The job waits for the others. */
  lemma WaitingOk(t: Txn, i: nat)
    requires Ok(t) && t.main.Idle? && i < |t.jobs| && t.jobs[i].run.pc.Exiting? && t.jobs[i].ret == 0 && !t.jobs[i].cancelled
    ensures var x := Exited(t.jobs[i]); Ok(With(t, i, x.(run := Transition(x.run, Waiting))))
  {
    Exits(t, i);
    ExitWaits(t.jobs[i]);
    var x := Exited(t.jobs[i]);
    var r := With(t, i, x.(run := Transition(x.run, Waiting)));
    forall k | k in r.list ensures IdleOk(r, k) {
      assert IdleOk(t, k);
    }
    forall k | 0 <= k < |r.jobs| && k !in r.list ensures Outcome(r, k) {
      assert Outcome(t, k);
    }
  }

  lemma WaitingMayProceed(t: Txn, i: nat)
    requires Ok(t) && t.main.Idle? && i in t.list && t.jobs[i].run.status == Waiting
    ensures MayProceed(t) && !t.aborting
  {
    forall k | k in t.list
      ensures k < |t.jobs| && (Completed(t.jobs[k].run.status) ==> t.jobs[k].run.status == Waiting && t.jobs[k].ret == 0 && !t.jobs[k].cancelled)
    {
      assert IdleOk(t, k) && JobOk(t.jobs[k]);
    }
  }

  lemma AllPendingOk(t: Txn)
    requires Ok(t) && t.main.Idle? && (forall k :: k in t.list ==> k < |t.jobs| && t.jobs[k].run.status == Waiting)
    ensures Ok(AllPending(t)) && AllDue(AllPending(t).jobs, t.list)
  {
    var r := AllPending(t);
    forall k | 0 <= k < |r.jobs| ensures JobOk(r.jobs[k]) && r.jobs[k].member == t.jobs[k].member && (k !in r.list ==> Outcome(r, k)) {
      if k in t.list {
        assert IdleOk(t, k);
        TransitionOk(t.jobs[k].run, Pending);
      } else {
        assert Outcome(t, k);
      }
    }
    forall k | k in r.list ensures IdleOk(r, k) {
      assert IdleOk(t, k);
    }
  }

  lemma ProceedOk(t: Txn, i: nat, rc: nat -> int)
    requires Ok(t) && t.main.Idle? && i in t.list && MayProceed(t) && !t.aborting
    ensures Ok(Proceed(t, i, rc))
  {
    if !Unfinished(t) {
      EverybodyDone(t, i, rc);
    }
  }

  lemma EverybodyDone(t: Txn, i: nat, rc: nat -> int)
    requires Ok(t) && t.main.Idle? && i in t.list && MayProceed(t) && !t.aborting
    requires !Unfinished(t)
    ensures Ok(AllPending(t)) && AllDue(AllPending(t).jobs, t.list) && Ok(DoFinalize(AllPending(t), i, rc))
  {
    AllPendingOk(t);
    DoFinalizeOk(AllPending(t), i, rc);
  }

  lemma FailOk(t: Txn, i: nat)
    requires Ok(t) && i < |t.jobs| && t.jobs[i].run.pc.Exiting? && (t.jobs[i].ret != 0 || t.jobs[i].cancelled)
    ensures var r := With(t, i, UpdateRc(Exited(t.jobs[i]))); if t.main.Abort? then Ok(r) else !t.aborting && Ok(StartAbort(r, i))
  {
    Exits(t, i);
    ExitAborts(t.jobs[i]);
    var r := With(t, i, UpdateRc(Exited(t.jobs[i])));
    forall k | 0 <= k < |r.jobs| && k !in r.list ensures Outcome(r, k) {
      assert Outcome(t, k);
    }
    if t.main.Abort? {
      forall k | k in r.list ensures AbortOk(r, k) && k in r.party {
        assert AbortOk(t, k);
      }
    } else {
      AbortBegins(r, i);
    }
  }

  lemma ExitMayProceed(t: Txn, i: nat)
    requires Ok(t) && i < |t.jobs| && t.jobs[i].run.pc.Exiting? && t.jobs[i].ret == 0 && !t.jobs[i].cancelled
    ensures var x := Exited(t.jobs[i]); MayProceed(With(t, i, x.(run := Transition(x.run, Waiting))))
  {
    Exits(t, i);
    WaitingOk(t, i);
    var x := Exited(t.jobs[i]);
    WaitingMayProceed(With(t, i, x.(run := Transition(x.run, Waiting))), i);
  }

  /** `job_exit`. */
  function ApplyExit(t: Txn, i: nat, rc: nat -> int): (r: Txn)
    requires Ok(t) && i < |t.jobs| && t.jobs[i].run.pc.Exiting?
  {
    Exits(t, i);
    if t.jobs[i].ret == 0 && !t.jobs[i].cancelled then
      ExitMayProceed(t, i);
      JobCompleted(t, i, Exited(t.jobs[i]), rc)
    else JobCompleted(t, i, Exited(t.jobs[i]), rc)
  }

  lemma ExitOk(t: Txn, i: nat, rc: nat -> int)
    requires Ok(t) && i < |t.jobs| && t.jobs[i].run.pc.Exiting?
    ensures Ok(ApplyExit(t, i, rc))
  {
    Exits(t, i);
    if t.jobs[i].ret != 0 || t.jobs[i].cancelled {
      FailOk(t, i);
    } else {
      ExitMayProceed(t, i);
      WaitingOk(t, i);
      var x := Exited(t.jobs[i]);
      ProceedOk(With(t, i, x.(run := Transition(x.run, Waiting))), i, rc);
    }
  }

  // ------------------------------------------------------------------ cancelling

  /** `job_cancel`; entering the coroutine afterwards is a step of its own. */
  function ApplyCancel(t: Txn, i: nat, force: bool): (r: Txn)
    requires Ok(t) && t.main.Idle? && i < |t.jobs| && t.jobs[i].run.status != Null
  {
    var j := t.jobs[i];
    if j.run.status == Concluded then With(t, i, j.(run := Dismissed(j.run)))
    else
      assert JobOk(j) && (i in t.list ==> IdleOk(t, i));
      var u := With(t, i, CancelAsync(j, force));
      if !Started(j.run) then JobCompleted(t, i, CancelAsync(j, force), n => 0)
      else if j.run.deferred then StartAbort(u, i)
      else u
  }

  lemma CancelledOk(t: Txn, i: nat, j: Job)
    requires Ok(t) && t.main.Idle? && i in t.list && JobOk(j) && j.member && j.cancelled
    ensures Ok(StartAbort(With(t, i, j), i))
  {
    var r := With(t, i, j);
    forall k | 0 <= k < |r.jobs| && k !in r.list ensures Outcome(r, k) {
      assert Outcome(t, k);
    }
    AbortBegins(r, i);
  }

  lemma CancelUnstarted(j: Job, force: bool)
    requires JobOk(j) && j.run.status == Created
    ensures var r := UpdateRc(CancelAsync(j, force)); JobOk(r) && r.cancelled && r.member && r.ret != 0
  {
    HoldKept(j.hold, Started(j.run), false);
    TransitionOk(j.run, Aborting);
  }

  lemma ApplyCancelOk(t: Txn, i: nat, force: bool)
    requires Ok(t) && t.main.Idle? && i < |t.jobs| && t.jobs[i].run.status != Null
    ensures Ok(ApplyCancel(t, i, force))
  {
    var j := t.jobs[i];
    assert JobOk(j);
    if j.run.status == Concluded {
      OneOk(t, i, DismissCommand);
    } else {
      assert IdleOk(t, i);
      CancelOk(j, force);
      if !Started(j.run) {
        CancelUnstarted(j, force);
        CancelledOk(t, i, UpdateRc(CancelAsync(j, force)));
      } else if j.run.deferred {
        CancelledOk(t, i, CancelAsync(j, force));
      } else {
        MinorOk(t, i, CancelAsync(j, force));
      }
    }
  }

  // ------------------------------------------------------------------ leaving the list

  /** `job_early_fail`. */
  function ApplyEarlyFail(t: Txn, i: nat): (r: Txn)
    requires i < |t.jobs| && t.jobs[i].run.status == Created
  {
    var j := t.jobs[i];
    t.(jobs := t.jobs[i := j.(run := Dismissed(j.run), member := false)], list := Without(t.list, i))
  }

  lemma EarlyFailOk(t: Txn, i: nat)
    requires Ok(t) && t.main.Idle? && i < |t.jobs| && t.jobs[i].run.status == Created
    ensures Ok(ApplyEarlyFail(t, i))
  {
    var j, r := t.jobs[i], ApplyEarlyFail(t, i);
    assert JobOk(j) && i in t.list;
    DismissedOk(j.run);
    assert JobOk(r.jobs[i]);
    forall k | k in r.list ensures IdleOk(r, k) {
      assert IdleOk(t, k);
    }
    forall k | 0 <= k < |r.jobs| && k !in r.list ensures Outcome(r, k) {
      if k != i {
        assert Outcome(t, k);
      }
    }
  }

  /** One round of the second loop of `job_completed_txn_abort`, once the first job of the
      list is completed. */
  function ApplyFinalizeNext(t: Txn): (r: Txn)
    requires Ok(t) && Enabled(t, FinalizeNext)
  {
    var k := t.list[0];
    assert AbortOk(t, k) && JobOk(t.jobs[k]);
    t.(jobs := t.jobs[k := FinalizeSingle(t.jobs[k])], list := t.list[1..])
  }

  /** The first member is finalized as its fate demands. */
  lemma FirstFinalized(t: Txn)
    requires Ok(t) && Enabled(t, FinalizeNext)
    ensures var i := t.list[0];
            && i in t.list && i in t.party && i < |t.jobs| && Finalizable(t.jobs[i])
            && var j := FinalizeSingle(t.jobs[i]);
               JobOk(j) && !j.member && if i == t.starter && !t.doomed then Committed(j) else Aborted(j)
  {
    var i := t.list[0];
    assert i in t.list && AbortOk(t, i);
    assert JobOk(t.jobs[i]);
    FinalizeOk(t.jobs[i]);
  }

  lemma FinalizeNextOk(t: Txn)
    requires Ok(t) && Enabled(t, FinalizeNext)
    ensures Ok(ApplyFinalizeNext(t))
  {
    FirstFinalized(t);
    var i, r := t.list[0], ApplyFinalizeNext(t);
    assert t.list == [i] + t.list[1..];
    assert forall k :: k in t.list <==> k == i || k in r.list;
    forall k | k in r.list ensures k < |r.jobs| && AbortOk(r, k) && k in r.party {
      assert k in t.list && AbortOk(t, k);
    }
    forall k | 0 <= k < |r.jobs| && k !in r.list ensures Outcome(r, k) {
      if k != i {
        assert Outcome(t, k);
      }
    }
  }

  // ------------------------------------------------------------------ whole runs

  function Apply(t: Txn, m: Move): (r: Txn)
    requires Ok(t) && Enabled(t, m)
  {
    match m
    case One(i, act) => With(t, i, Do(t.jobs[i], act))
    case Exit(i, rc) => ApplyExit(t, i, rc)
    case CancelCommand(i, force) => ApplyCancel(t, i, force)
    case FinalizeCommand(i, rc) =>
      PendingIsDue(t, i);
      DoFinalize(t, i, rc)
    case EarlyFail(i) => ApplyEarlyFail(t, i)
    case FinalizeNext => ApplyFinalizeNext(t)
    case AbortDone => t.(main := Idle)
  }

  /** A pending job can be finalized: it is a member, and so are the others pending. */
  lemma PendingIsDue(t: Txn, i: nat)
    requires Ok(t) && t.main.Idle? && i < |t.jobs| && t.jobs[i].run.status == Pending
    ensures i in t.list && !t.aborting && AllDue(t.jobs, t.list)
  {
    assert JobOk(t.jobs[i]) && IdleOk(t, i);
    forall k | k in t.list ensures k < |t.jobs| && t.jobs[k].run.status == Pending && t.jobs[k].ret == 0 && !t.jobs[k].cancelled {
      assert IdleOk(t, k);
    }
  }

  lemma StepOk(t: Txn, m: Move)
    requires Ok(t) && Enabled(t, m)
    ensures Ok(Apply(t, m))
  {
    match m
    case One(i, act) => OneOk(t, i, act);
    case Exit(i, rc) => ExitOk(t, i, rc);
    case CancelCommand(i, force) => ApplyCancelOk(t, i, force);
    case FinalizeCommand(i, rc) =>
      PendingIsDue(t, i);
      DoFinalizeOk(t, i, rc);
    case EarlyFail(i) => EarlyFailOk(t, i);
    case FinalizeNext => FinalizeNextOk(t);
    case AbortDone => DoneOk(t);
  }

  lemma DoneOk(t: Txn)
    requires Ok(t) && t.list == []
    ensures Ok(t.(main := Idle))
  {
    forall k | 0 <= k < |t.jobs| ensures Outcome(t.(main := Idle), k) {
      assert Outcome(t, k);
    }
  }

  /** Jobs that have just been created; each was put at the head of the list. */
  function Initial(jobs: seq<Job>): Txn {
    Txn(jobs, seq(|jobs|, (i: nat) requires i < |jobs| => |jobs| - 1 - i), false, Idle, {}, 0, false)
  }

  ghost predicate AllFresh(jobs: seq<Job>) {
    forall i {:trigger jobs[i]} :: 0 <= i < |jobs| ==> jobs[i] == Fresh(jobs[i].autoFinalize, jobs[i].autoDismiss)
  }

  lemma InitialOk(jobs: seq<Job>)
    requires AllFresh(jobs)
    ensures Ok(Initial(jobs))
  {
    var t := Initial(jobs);
    forall i | 0 <= i < |jobs| ensures JobOk(jobs[i]) && i in t.list {
      FreshOk(jobs[i].autoFinalize, jobs[i].autoDismiss);
      assert t.list[|jobs| - 1 - i] == i;
    }
  }

  ghost predicate StepAt(ts: seq<Txn>, ms: seq<Move>, k: nat)
    requires k < |ms| && |ts| == |ms| + 1
  {
    Ok(ts[k]) && Enabled(ts[k], ms[k]) && ts[k + 1] == Apply(ts[k], ms[k])
  }

  /** The states that the moves `ms` lead through, from jobs as created. That every state is
      in order is no restriction, as `RunExtends` shows; it only makes the moves well defined. */
  ghost predicate IsRun(ts: seq<Txn>, ms: seq<Move>) {
    && |ts| == |ms| + 1
    && AllFresh(ts[0].jobs) && ts[0] == Initial(ts[0].jobs)
    && forall k {:trigger StepAt(ts, ms, k)} :: 0 <= k < |ms| ==> StepAt(ts, ms, k)
  }

  lemma RunKeepsOk(ts: seq<Txn>, ms: seq<Move>, k: nat)
    requires IsRun(ts, ms) && k < |ts|
    ensures Ok(ts[k])
  {
    if k == 0 {
      InitialOk(ts[0].jobs);
    } else {
      assert StepAt(ts, ms, k - 1);
      StepOk(ts[k - 1], ms[k - 1]);
    }
  }

  /** Every run goes on with every move that is enabled in its last state. */
  lemma RunExtends(ts: seq<Txn>, ms: seq<Move>, m: Move)
    requires IsRun(ts, ms) && Enabled(ts[|ms|], m)
    ensures Ok(ts[|ms|]) && IsRun(ts + [Apply(ts[|ms|], m)], ms + [m])
  {
    RunKeepsOk(ts, ms, |ms|);
    var ts', ms' := ts + [Apply(ts[|ms|], m)], ms + [m];
    forall k | 0 <= k < |ms'| ensures StepAt(ts', ms', k) {
      if k < |ms| {
        assert StepAt(ts, ms, k);
      }
    }
  }

  /** Every status any job ever had was allowed by the table, completion was never undone, and
      NULL was reached as it should. */
  lemma StatusesAreLegal(ts: seq<Txn>, ms: seq<Move>, n: nat, i: nat)
    requires IsRun(ts, ms) && n < |ts| && i < |ts[n].jobs|
    ensures var s := ts[n].jobs[i].run.trail;
            && Legal(s)
            && (forall k, l :: 0 <= k <= l < |s| && Completed(s[k]) ==> Completed(s[l]))
            && (forall k :: 0 <= k < |s| - 1 && s[k + 1] == Null ==> s[k] == Concluded || s[k] == Created)
  {
    RunKeepsOk(ts, ms, n);
    var s := ts[n].jobs[i].run.trail;
    assert JobOk(ts[n].jobs[i]);
    forall k, l | 0 <= k <= l < |s| && Completed(s[k]) ensures Completed(s[l]) {
      CompletionIsFinal(s, k, l);
    }
    forall k | 0 <= k < |s| - 1 && s[k + 1] == Null ensures s[k] == Concluded || s[k] == Created {
      NullIsLast(s, k);
    }
  }

  /** The pauses of every job are accounted for in every state of every run, so that the
      assertions of resuming, cancelling and resetting the I/O status hold. */
  lemma PausesAreCounted(ts: seq<Txn>, ms: seq<Move>, n: nat, i: nat)
    requires IsRun(ts, ms) && n < |ts| && i < |ts[n].jobs|
    ensures var h := ts[n].jobs[i].hold;
            && h.pauseCount == (if Started(ts[n].jobs[i].run) then 0 else 1) + (if h.userPaused then 1 else 0) + h.drains
            && (!h.ioOk ==> h.userPaused)
            && (h.userPaused || h.drains > 0 ==> h.pauseCount > 0)
  {
    RunKeepsOk(ts, ms, n);
    assert JobOk(ts[n].jobs[i]);
  }

  /** Atomicity. If the transaction was aborted by a job that had itself failed or been
      cancelled, then every job that was a member has been aborted once it is finalized, and
      nobody ever commits. If it was not aborted, nobody ever aborts. */
  lemma AllOrNothing(ts: seq<Txn>, ms: seq<Move>, n: nat, i: nat)
    requires IsRun(ts, ms) && n < |ts| && i < |ts[n].jobs|
    ensures var t, j := ts[n], ts[n].jobs[i];
            && (t.aborting && t.main.Idle? ==> t.list == [])
            && (t.aborting && t.doomed ==> j.commits == 0 && (i in t.party && i !in t.list ==> Aborted(j)))
            && (!t.aborting ==> j.aborts == 0)
            && (t.aborting && !t.doomed && i in t.party && i !in t.list ==> if i == t.starter then Committed(j) else Aborted(j))
  {
    RunKeepsOk(ts, ms, n);
    assert JobOk(ts[n].jobs[i]);
    if i !in ts[n].list {
      assert Outcome(ts[n], i);
    }
  }
}
