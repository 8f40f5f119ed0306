/** One background job (job.c, with the pausing of blockjob.c): its status, its pause
    accounting and what is called when it ends. */
module JobState {
  datatype Status =
    | Undefined | Created | Running | Paused | Ready | Standby
    | Waiting | Pending | Aborting | Concluded | Null

  /** `JobSTT`. */
  predicate Allowed(s: Status, t: Status) {
    match s
    case Undefined => t == Created
    case Created => t == Running || t == Aborting || t == Null
    case Running => t == Paused || t == Ready || t == Waiting || t == Aborting
    case Paused => t == Running
    case Ready => t == Standby || t == Waiting || t == Aborting
    case Standby => t == Ready
    case Waiting => t == Pending || t == Aborting
    case Pending => t == Aborting || t == Concluded
    case Aborting => t == Aborting || t == Concluded
    case Concluded => t == Null
    case Null => false
  }

  datatype Verb = Cancel | Pause | Resume | SetSpeed | Complete | Finalize | Dismiss

  /** `JobVerbTable`. */
  predicate Accepts(v: Verb, s: Status) {
    match v
    case Cancel => s in {Created, Running, Paused, Ready, Standby, Waiting, Pending}
    case Pause | Resume | SetSpeed => s in {Created, Running, Paused, Ready, Standby}
    case Complete => s == Ready
    case Finalize => s == Pending
    case Dismiss => s == Concluded
  }

  /** `job_is_completed`. */
  predicate Completed(s: Status) {
    s in {Waiting, Pending, Aborting, Concluded, Null}
  }

  /** Where the coroutine of the job is. */
  datatype Pc =
    | NotStarted
    | Active                  // running the driver's code
    | Yielded                 // suspended by `job_yield` or `job_sleep_ns`
    | InPause(saved: Status)  // suspended in `job_pause_point`
    | Exiting                 // the driver has returned; `job_exit` is scheduled
    | Ended

  /** The fields of `Job` that follow the coroutine; `trail` records all statuses. */
  datatype Run = Run(status: Status, trail: seq<Status>, pc: Pc, busy: bool, paused: bool, deferred: bool)

  /** The fields of `Job` and `BlockJob` about pausing. `ioOk` says whether the I/O status is
      OK; `drains` counts the open drained sections of the job's nodes. */
  datatype Hold = Hold(pauseCount: int, userPaused: bool, ioOk: bool, drains: nat)

  /** A job. `member` says whether it is in its transaction; the last three count the driver
      callbacks at the end. */
  datatype Job = Job(
    run: Run, hold: Hold, cancelled: bool, forceCancel: bool, ret: int,
    autoFinalize: bool, autoDismiss: bool, member: bool, commits: nat, aborts: nat, cleans: nat)

  const ECANCELED := 125

  /** `job_create`. */
  function Fresh(autoFinalize: bool, autoDismiss: bool): Job {
    Job(Run(Created, [Undefined, Created], NotStarted, false, true, false), Hold(1, false, true, 0),
        false, false, 0, autoFinalize, autoDismiss, true, 0, 0, 0)
  }

  predicate Started(r: Run) {
    !r.pc.NotStarted?
  }

  // ------------------------------------------------------------------ what always holds

  ghost predicate Legal(t: seq<Status>) {
    forall i :: 0 <= i < |t| - 1 ==> Allowed(t[i], t[i + 1])
  }

  /** The history of the status is legal and leads to the present one. */
  ghost predicate TrailOk(r: Run) {
    0 < |r.trail| && r.trail[|r.trail| - 1] == r.status && Legal(r.trail)
  }

  /** The status fits the place the coroutine has reached. */
  predicate PlaceOk(r: Run) {
    && match r.pc
       case NotStarted => !r.busy && (r.status == Created || r.status == Aborting || r.status == Null) && (r.status == Created ==> r.paused)
       case Active => r.busy && (r.status == Running || r.status == Ready)
       case Yielded => !r.busy && (r.status == Running || r.status == Ready)
       case InPause(saved) => !r.busy && ((saved == Running && r.status == Paused) || (saved == Ready && r.status == Standby))
       case Exiting => r.busy && (r.status == Running || r.status == Ready)
       case Ended => !r.busy && Completed(r.status)
  }

  predicate DeferredOk(r: Run) {
    r.deferred <==> r.pc.Exiting? || r.pc.Ended? || r.status == Null
  }

  ghost predicate RunOk(r: Run) {
    TrailOk(r) && PlaceOk(r) && DeferredOk(r)
  }

  /** `pause_count` is one for a job not started, one for a pause by the user and one for
      each drained section; an I/O error shows as a pause by the user. */
  predicate HoldOk(h: Hold, started: bool) {
    && h.pauseCount == (if started then 0 else 1) + (if h.userPaused then 1 else 0) + h.drains
    && (!h.ioOk ==> h.userPaused)
  }

  /** A member of the transaction has had no callback yet. Any other job has failed early, or
      has had `clean` once and one of `commit` and `abort`, by its result. */
  predicate CallbacksOk(j: Job) {
    if j.member then
      j.run.status != Concluded && j.run.status != Null && j.commits == j.aborts == j.cleans == 0
    else
      && (j.run.status == Concluded || j.run.status == Null)
      && (|| (j.cleans == 1 && j.commits == (if j.ret == 0 then 1 else 0) && j.aborts == (if j.ret == 0 then 0 else 1))
          || (j.run.pc.NotStarted? && j.run.status == Null && j.commits == j.aborts == j.cleans == 0))
  }

  /** A result is only there once the driver has returned or the job was aborted. */
  predicate RetOk(j: Job) {
    && (!Completed(j.run.status) && !j.run.pc.Exiting? ==> j.ret == 0)
    && (j.run.status == Aborting ==> j.ret != 0)
    && (j.run.status == Waiting ==> j.ret == 0)
  }

  ghost predicate JobOk(j: Job) {
    RunOk(j.run) && HoldOk(j.hold, Started(j.run)) && CallbacksOk(j) && RetOk(j)
  }

  lemma FreshOk(autoFinalize: bool, autoDismiss: bool)
    ensures JobOk(Fresh(autoFinalize, autoDismiss))
  {
  }

  // ------------------------------------------------------------------ pausing

  /** `job_pause`, as a drained section begins. */
  function DrainBegin(h: Hold): (r: Hold) {
    h.(pauseCount := h.pauseCount + 1, drains := h.drains + 1)
  }

  /** `job_resume`, as a drained section ends. */
  function DrainEnd(h: Hold): (r: Hold)
    requires h.drains > 0
  {
    h.(pauseCount := h.pauseCount - 1, drains := h.drains - 1)
  }

  /** A pause by the user, or by `block_job_error_action` when `error` is set. */
  function UserPause(h: Hold, error: bool): (r: Hold) {
    (if h.userPaused then h else h.(userPaused := true, pauseCount := h.pauseCount + 1)).(ioOk := h.ioOk && !error)
  }

  /** The end of a pause by the user, with `block_job_iostatus_reset`. */
  function UserResume(h: Hold): (r: Hold) {
    if h.userPaused then h.(ioOk := true, userPaused := false, pauseCount := h.pauseCount - 1) else h
  }

  /** Every step keeps the account, and the assertions of `job_resume`, `job_cancel_async`
      and `block_job_iostatus_reset` hold. */
  lemma HoldKept(h: Hold, started: bool, error: bool)
    requires HoldOk(h, started)
    ensures HoldOk(DrainBegin(h), started) && HoldOk(UserPause(h, error), started) && HoldOk(UserResume(h), started)
    ensures h.drains > 0 ==> h.pauseCount > 0 && HoldOk(DrainEnd(h), started)
    ensures !h.ioOk || h.userPaused ==> h.userPaused && h.pauseCount > 0
  {
  }

  // ------------------------------------------------------------------ running

  /** `job_state_transition`; the requirement is its assertion. */
  function Transition(r: Run, s: Status): Run
    requires Allowed(r.status, s)
  {
    r.(status := s, trail := r.trail + [s])
  }

  lemma TransitionOk(r: Run, s: Status)
    requires TrailOk(r) && Allowed(r.status, s)
    ensures TrailOk(Transition(r, s))
  {
  }

  /** `job_start`; the coroutine begins to run. */
  function Begin(r: Run): Run
    requires r.status == Created
  {
    Transition(r.(pc := Active, busy := true, paused := false), Running)
  }

  /** `job_pause_point` up to the yield, when the job has to pause. */
  function EnterPause(r: Run): Run
    requires r.status == Running || r.status == Ready
  {
    Transition(r.(pc := InPause(r.status), paused := true, busy := false), if r.status == Ready then Standby else Paused)
  }

  /** `job_enter_cond` and what the coroutine does first when it runs again. */
  function Enter(r: Run): Run
    requires PlaceOk(r) && (r.pc.Yielded? || r.pc.InPause?)
  {
    if r.pc.InPause? then Transition(r.(pc := Active, paused := false, busy := true), r.pc.saved)
    else r.(pc := Active, busy := true)
  }

  /** `job_do_yield` from `job_yield` or `job_sleep_ns`. */
  function Yield(r: Run): Run {
    r.(pc := Yielded, busy := false)
  }

  /** The driver's `run` has returned. */
  function Return(r: Run): Run {
    r.(pc := Exiting, deferred := true, busy := true)
  }

  /** `job_do_dismiss`, apart from the transaction. */
  function Dismissed(r: Run): Run
    requires Allowed(r.status, Null)
  {
    Transition(r.(busy := false, paused := false, deferred := true), Null)
  }

  lemma BeginOk(r: Run)
    requires RunOk(r) && r.status == Created
    ensures r.pc.NotStarted? && r.paused && RunOk(Begin(r))
  {
    TransitionOk(r, Running);
  }

  lemma EnterPauseOk(r: Run)
    requires RunOk(r) && r.pc.Active?
    ensures RunOk(EnterPause(r))
  {
    TransitionOk(r, EnterPause(r).status);
  }

  lemma EnterOk(r: Run)
    requires RunOk(r) && (r.pc.Yielded? || r.pc.InPause?)
    ensures RunOk(Enter(r)) && Enter(r).busy
  {
    if r.pc.InPause? {
      TransitionOk(r, r.pc.saved);
    }
  }

  /** A pause at a pause point is invisible afterwards: the job runs on with its old status. */
  lemma PauseRoundTrip(r: Run)
    requires RunOk(r) && r.pc.Active?
    ensures RunOk(EnterPause(r)) && Enter(EnterPause(r)) == r.(paused := false, trail := r.trail + [EnterPause(r).status, r.status])
  {
    EnterPauseOk(r);
    assert r.trail + [EnterPause(r).status] + [r.status] == r.trail + [EnterPause(r).status, r.status];
  }

  lemma DismissedOk(r: Run)
    requires RunOk(r) && (r.status == Concluded || r.status == Created)
    ensures RunOk(Dismissed(r))
  {
    TransitionOk(r, Null);
  }

  // ------------------------------------------------------------------ ending

  /** `job_cancel_async`. */
  function CancelAsync(j: Job, force: bool): (r: Job) {
    j.(hold := UserResume(j.hold), cancelled := true, forceCancel := j.forceCancel || force)
  }

  /** `job_update_rc`. */
  function UpdateRc(j: Job): (r: Job)
    requires Allowed(j.run.status, Aborting) || (j.ret == 0 && !j.cancelled)
  {
    if j.ret == 0 && !j.cancelled then j
    else j.(ret := if j.ret == 0 then -ECANCELED else j.ret, run := Transition(j.run, Aborting))
  }

  /** The callbacks of the driver, and leaving the transaction. */
  function Called(j: Job): (r: Job) {
    j.(commits := j.commits + if j.ret == 0 then 1 else 0, aborts := j.aborts + if j.ret == 0 then 0 else 1,
       cleans := j.cleans + 1, member := false)
  }

  /** `job_conclude`. */
  function Conclude(j: Job): (r: Job)
    requires j.run.status == Pending || j.run.status == Aborting
  {
    var done := Transition(j.run, Concluded);
    j.(run := if j.autoDismiss || !Started(done) then Dismissed(done) else done)
  }

  /** What `job_finalize_single` needs to keep to the table of statuses. */
  predicate Finalizable(j: Job) {
    && (j.run.status == Waiting || j.run.status == Pending || j.run.status == Aborting)
    && (j.ret == 0 && !j.cancelled ==> j.run.status == Pending)
  }

  /** `job_finalize_single`. */
  function FinalizeSingle(j: Job): (r: Job)
    requires Finalizable(j)
  {
    Conclude(Called(UpdateRc(j)))
  }

  lemma CancelOk(j: Job, force: bool)
    requires JobOk(j)
    ensures JobOk(CancelAsync(j, force))
  {
    HoldKept(j.hold, Started(j.run), false);
  }

  lemma UpdateRcTrail(j: Job)
    requires JobOk(j) && (Allowed(j.run.status, Aborting) || (j.ret == 0 && !j.cancelled))
    ensures TrailOk(UpdateRc(j).run)
  {
    if j.ret != 0 || j.cancelled {
      TransitionOk(j.run, Aborting);
    }
  }

  lemma ConcludeOk(j: Job)
    requires TrailOk(j.run) && (j.run.status == Pending || j.run.status == Aborting)
    requires !j.run.busy && (j.run.pc.Ended? || j.run.pc.NotStarted?) && (j.run.deferred <==> j.run.pc.Ended?)
    ensures RunOk(Conclude(j).run)
  {
    TransitionOk(j.run, Concluded);
    var done := Transition(j.run, Concluded);
    TransitionOk(done, Null);
  }

  /** `job_finalize_single` calls exactly one of `commit` and `abort`, by the result that
      counts, and `clean` once. */
  lemma FinalizeOk(j: Job)
    requires JobOk(j) && j.member && Finalizable(j)
    ensures var r := FinalizeSingle(j);
            && JobOk(r) && !r.member && r.cleans == 1
            && (if j.ret == 0 && !j.cancelled then r.ret == 0 && r.commits == 1 && r.aborts == 0
                else r.ret != 0 && r.commits == 0 && r.aborts == 1)
  {
    UpdateRcTrail(j);
    var k := Called(UpdateRc(j));
    ConcludeOk(k);
    assert Conclude(k) == k.(run := Conclude(k).run);
  }

  // ------------------------------------------------------------------ legal histories

  /** Completion is never undone. */
  lemma {:induction false} CompletionIsFinal(t: seq<Status>, i: nat, k: nat)
    requires Legal(t) && i <= k < |t| && Completed(t[i])
    ensures Completed(t[k])
    decreases k - i
  {
    if i < k {
      assert Allowed(t[i], t[i + 1]);
      CompletionIsFinal(t, i + 1, k);
    }
  }

  /** The end is reached through the conclusion, or directly from a job not started. */
  lemma NullIsLast(t: seq<Status>, i: nat)
    requires Legal(t) && i + 1 < |t| && t[i + 1] == Null
    ensures t[i] in {Concluded, Created} && i + 2 == |t|
  {
    assert Allowed(t[i], t[i + 1]);
    assert i + 2 < |t| ==> Allowed(t[i + 1], t[i + 2]);
  }
}
