/** When a completed attempt completes its job, told by the order of events alone: the scheduler's second writes, the
    workers' notes that the job runs, and their reports at the end (internal/worker/worker.go:94-97, 360-362,
    internal/scheduler/reconciler.go:122-131, 162-172, 204-222). */
module SchedulerHistory {
  import opened Conditions
  import opened Scheduler
  import opened SchedulerExits

  datatype LastWrite = NoneYet | Note | Second

  /** `started`: the scheduler has taken its second write for the first attempt. `latest`: which came last since then,
      a worker's note or the second write of a retry. `verdict`: what ended the job, and `reporter` the attempt whose worker
      reported in time. */
  datatype History = History(started: bool, latest: LastWrite, verdict: Option<JobState>, reporter: Option<nat>)

  const NOTHING := History(false, NoneYet, None, None)

  /** A report comes in time after the opening, when no second write has followed the last note, and before any other
      end. */
  predicate InTime(h: History) {
    h.verdict.None? && h.started && h.latest.Note?
  }

  /** What one action adds. The state is asked only who acts, never what state the job is in. */
  function Track(s: State, h: History, a: Action): History {
    if a.Terminate? then (if h.verdict.None? then h.(verdict := Some(Terminated)) else h)
    else if !Enabled(s, a) then h
    else
      match a
      case SchedulerStep =>
        (match s.scheduler
         case Created(expected) =>
           if h.verdict.Some? then h
           else if expected == Pending then h.(started := true) else h.(latest := Second)
         case GivingUp => if InTime(h) then h.(verdict := Some(JobState.Failed)) else h
         case _ => h)
      case WorkerStep(w, _) =>
        (match s.workers[w]
         case Began(_) => if h.verdict.None? && h.started then h.(latest := Note) else h
         case Reported(i) => if InTime(h) then h.(verdict := Some(Completed), reporter := Some(i)) else h
         case _ => h)
      case _ => h
  }

  function TrackAll(s: State, h: History, acts: seq<Action>): History
    decreases |acts|
  {
    if acts == [] then h else TrackAll(Apply(s, acts[0]), Track(s, h, acts[0]), acts[1..])
  }

  /** The state of the job, told by the history. */
  function JobOf(h: History): JobState {
    if h.verdict.Some? then h.verdict.value
    else if !h.started then Pending
    else if h.latest.Note? then JobState.Running
    else JobState.Scheduled
  }

  /** A worker past its claim is the attempt's only executor. */
  ghost predicate WorkersOk(s: State) {
    forall w | 0 <= w < |s.workers| :: WorkerOk(s, w, s.workers[w])
  }

  ghost predicate WorkerOk(s: State, w: nat, pc: WorkerPc) {
    match pc
    case Free => true
    case Claimed(i) => i < |s.attempts|
    case Began(i) => Executor(s, w, i) && s.attempts[i].state in {Executing, TimedOut}
    case Busy(i) => Executor(s, w, i) && s.attempts[i].state in {Executing, TimedOut}
    case Reported(i) => Executor(s, w, i) && s.attempts[i].state in {AttemptCompleted, TimedOut}
  }

  ghost predicate Executor(s: State, w: nat, i: nat) {
    i < |s.attempts| && s.attempts[i].executors == [w]
  }

  ghost predicate ByOk(s: State, h: History) {
    && (h.reporter.Some? <==> h.verdict == Some(Completed))
    && (h.reporter.Some? ==> h.reporter.value < |s.attempts| && s.attempts[h.reporter.value].state in {AttemptCompleted, TimedOut})
  }

  /** After an attempt that completed there is no other. */
  ghost predicate CompletedIsLast(s: State) {
    && (forall i | 0 <= i < |s.attempts| - 1 :: !s.attempts[i].state.AttemptCompleted?)
    && (s.scheduler.SawPending? ==> s.attempts == [])
    && (s.scheduler.Retrying? || s.scheduler.Creating? ==>
          s.attempts != [] && s.attempts[|s.attempts| - 1].state in {AttemptState.AttemptFailed, TimedOut})
  }

  ghost predicate Told(s: State, h: History) {
    Inv(s) && NoOverlap(s) && WorkersOk(s) && ByOk(s, h) && CompletedIsLast(s) && JobSide(s, h)
  }

  ghost predicate JobSide(s: State, h: History) {
    && s.job == JobOf(h) && (h.verdict.Some? ==> Ended(h.verdict.value)) && (h.latest.Note? ==> h.started)
    && (s.scheduler == SawPending || s.scheduler == Created(Pending) ==> s.job.Pending? || Ended(s.job))
  }

  // ----- the history tells the job's state -----

  lemma JobTold(s: State, h: History, a: Action)
    requires Told(s, h)
    ensures JobSide(Apply(s, a), Track(s, h, a))
  {
    hide WorkersOk, ByOk, JobPath, AttemptPath, AttemptsOk, NoOverlap, WorkersThere, CompletedIsLast;
    if Enabled(s, a) && a.SchedulerStep? {
      JobToldByScheduler(s, h);
    } else if Enabled(s, a) && a.WorkerStep? {
      JobToldByWorker(s, h, a.w, a.exitOk);
    }
  }

  lemma JobToldByScheduler(s: State, h: History)
    requires SchedulerOk(s) && JobSide(s, h) && Enabled(s, SchedulerStep)
    ensures JobSide(SchedulerNext(s), Track(s, h, SchedulerStep))
  {
  }

  lemma JobToldByWorker(s: State, h: History, w: nat, exitOk: bool)
    requires JobSide(s, h) && Enabled(s, WorkerStep(w, exitOk))
    ensures JobSide(WorkerNext(s, w, exitOk), Track(s, h, WorkerStep(w, exitOk)))
  {
  }

  lemma WorkersKept(s: State, a: Action)
    requires AttemptsOk(s) && WorkersOk(s)
    ensures WorkersOk(Apply(s, a))
  {
    if Enabled(s, a) {
      match a
      case WorkerStep(w, exitOk) => WorkerKept(s, w, exitOk);
      case SchedulerStep => AttemptsGoOn(s);
      case _ =>
    }
  }

  lemma AttemptsGoOn(s: State)
    requires WorkersOk(s) && Enabled(s, SchedulerStep)
    ensures WorkersOk(SchedulerNext(s))
  {
    hide JobMay, AttemptMay;
  }

  /** Another worker past its claim is at another attempt. */
  lemma OtherAttempt(s: State, v: nat, w: nat)
    requires WorkersOk(s) && v < |s.workers| && w < |s.workers| && v != w
    requires s.workers[v].Began? || s.workers[v].Busy? || s.workers[v].Reported?
    requires s.workers[w].Began? || s.workers[w].Busy? || s.workers[w].Reported?
    ensures s.workers[v].i != s.workers[w].i
  {
    assert Executor(s, v, s.workers[v].i) && Executor(s, w, s.workers[w].i);
  }

  lemma WorkerKept(s: State, w: nat, exitOk: bool)
    requires AttemptsOk(s) && WorkersOk(s) && Enabled(s, WorkerStep(w, exitOk))
    ensures WorkersOk(WorkerNext(s, w, exitOk))
  {
    var t := WorkerNext(s, w, exitOk);
    forall v | 0 <= v < |t.workers| && v != w && (t.workers[v].Began? || t.workers[v].Busy? || t.workers[v].Reported?)
      ensures t.attempts[t.workers[v].i] == s.attempts[t.workers[v].i]
    {
      if s.workers[w].Began? || s.workers[w].Busy? || s.workers[w].Reported? {
        OtherAttempt(s, v, w);
      }
    }
  }

  lemma LastKept(s: State, a: Action)
    requires Inv(s) && CompletedIsLast(s)
    ensures CompletedIsLast(Apply(s, a))
  {
    hide JobPath, AttemptPath, WorkersThere;
  }

  lemma ByKept(s: State, h: History, a: Action)
    requires Told(s, h)
    ensures ByOk(Apply(s, a), Track(s, h, a))
  {
    hide Inv, NoOverlap, JobOf, CompletedIsLast;
    var t := Apply(s, a);
    assert forall i | 0 <= i < |s.attempts| && s.attempts[i].state in {AttemptCompleted, TimedOut} ::
        i < |t.attempts| && t.attempts[i].state == s.attempts[i].state;
  }

  lemma TrackKeeps(s: State, h: History, a: Action)
    requires Told(s, h)
    ensures Told(Apply(s, a), Track(s, h, a))
  {
    hide JobSide, Track, Apply, Inv, NoOverlap, WorkersOk, ByOk, CompletedIsLast;
    assert AttemptsOk(s) by { InvParts(s); }
    ApplyKeeps(s, a);
    NoOverlapKept(s, a);
    WorkersKept(s, a);
    ByKept(s, h, a);
    LastKept(s, a);
    JobTold(s, h, a);
  }

  lemma InvParts(s: State)
    requires Inv(s)
    ensures AttemptsOk(s)
  {
  }

  lemma {:induction false} TrackAllKeeps(s: State, h: History, acts: seq<Action>)
    requires Told(s, h)
    ensures Told(Run(s, acts), TrackAll(s, h, acts))
    decreases |acts|
  {
    if acts != [] {
      TrackKeeps(s, h, acts[0]);
      TrackAllKeeps(Apply(s, acts[0]), Track(s, h, acts[0]), acts[1..]);
    }
  }

  ghost function Story(maxRetries: nat, workers: nat, acts: seq<Action>): History {
    TrackAll(Init(maxRetries, workers), NOTHING, acts)
  }

  lemma StoryTold(maxRetries: nat, workers: nat, acts: seq<Action>)
    ensures Told(Run(Init(maxRetries, workers), acts), Story(maxRetries, workers, acts))
  {
    TrackAllKeeps(Init(maxRetries, workers), NOTHING, acts);
  }

  lemma {:induction false} Snoc(s: State, h: History, acts: seq<Action>, a: Action)
    ensures Run(s, acts + [a]) == Apply(Run(s, acts), a)
    ensures TrackAll(s, h, acts + [a]) == Track(Run(s, acts), TrackAll(s, h, acts), a)
    decreases |acts|
  {
    if acts == [] {
      assert [] + [a] == [a] && [a][1..] == [];
    } else {
      assert (acts + [a])[1..] == acts[1..] + [a];
      Snoc(Apply(s, acts[0]), Track(s, h, acts[0]), acts[1..], a);
    }
  }

  // ----- when a job is Completed -----

  /** The k-th action is the report of a worker whose process exited with code 0, and it comes in time. */
  ghost predicate ReportsInTime(maxRetries: nat, workers: nat, acts: seq<Action>, k: int) {
    && Reports(maxRetries, workers, acts, k)
    && ExitedZero(Init(maxRetries, workers), acts[..k], acts[k].w, Run(Init(maxRetries, workers), acts[..k]).workers[acts[k].w].i)
  }

  ghost predicate Reports(maxRetries: nat, workers: nat, acts: seq<Action>, k: int) {
    && 0 <= k < |acts| && acts[k].WorkerStep?
    && var s := Run(Init(maxRetries, workers), acts[..k]);
    && acts[k].w < |s.workers| && s.workers[acts[k].w].Reported?
    && InTime(Story(maxRetries, workers, acts[..k]))
  }

  lemma ReportsOfSuccess(maxRetries: nat, workers: nat, acts: seq<Action>, k: int)
    ensures ReportsInTime(maxRetries, workers, acts, k) <==> Reports(maxRetries, workers, acts, k)
  {
    if Reports(maxRetries, workers, acts, k) {
      var w := acts[k].w;
      ReportedExitedZero(maxRetries, workers, acts[..k], w, Run(Init(maxRetries, workers), acts[..k]).workers[w].i);
    }
  }

  /** Over every interleaving, with any workers, failures and terminations: the job is Completed if and only if some
      worker whose process exited with code 0 reported in time, that is after the opening, with no second write since
      the last note, and before any other end. */
  lemma {:induction false} CompletedIffReportedInTime(maxRetries: nat, workers: nat, acts: seq<Action>)
    ensures Run(Init(maxRetries, workers), acts).job == Completed <==>
              exists k :: ReportsInTime(maxRetries, workers, acts, k)
    decreases |acts|
  {
    if acts != [] {
      var n := |acts| - 1;
      var i := Init(maxRetries, workers);
      assert acts == acts[..n] + [acts[n]];
      Snoc(i, NOTHING, acts[..n], acts[n]);
      CompletedIffReportedInTime(maxRetries, workers, acts[..n]);
      StoryTold(maxRetries, workers, acts[..n]);
      SameReports(maxRetries, workers, acts);
      LastAction(Run(i, acts[..n]), Story(maxRetries, workers, acts[..n]), acts[n]);
      if k :| ReportsInTime(maxRetries, workers, acts, k) {
        assert k < n ==> ReportsInTime(maxRetries, workers, acts[..n], k);
      }
      if k :| ReportsInTime(maxRetries, workers, acts[..n], k) {
        assert ReportsInTime(maxRetries, workers, acts, k);
      }
      ReportsOfSuccess(maxRetries, workers, acts, n);
      assert Reports(maxRetries, workers, acts, n) <==>
          acts[n].WorkerStep? && acts[n].w < |Run(i, acts[..n]).workers|
          && Run(i, acts[..n]).workers[acts[n].w].Reported? && InTime(Story(maxRetries, workers, acts[..n]));
    }
  }

  lemma SameReports(maxRetries: nat, workers: nat, acts: seq<Action>)
    requires acts != []
    ensures forall k | 0 <= k < |acts| - 1 ::
              ReportsInTime(maxRetries, workers, acts[..|acts| - 1], k) <==> ReportsInTime(maxRetries, workers, acts, k)
  {
    forall k | 0 <= k < |acts| - 1
      ensures ReportsInTime(maxRetries, workers, acts[..|acts| - 1], k) <==> ReportsInTime(maxRetries, workers, acts, k)
    {
      assert acts[..|acts| - 1][..k] == acts[..k];
    }
  }

  lemma LastAction(s: State, h: History, a: Action)
    requires Told(s, h)
    ensures Apply(s, a).job == Completed <==>
              s.job == Completed
              || (a.WorkerStep? && a.w < |s.workers| && s.workers[a.w].Reported? && InTime(h))
  {
    hide WorkersOk, ByOk, JobPath, AttemptPath, AttemptsOk, NoOverlap, WorkersThere, CompletedIsLast;
    JobTold(s, h, a);
    assert (s.job == Completed <==> h.verdict == Some(Completed)) by { JobCompleted(s, h); }
    assert Track(s, h, a).verdict == Some(Completed) <==>
        h.verdict == Some(Completed) || (a.WorkerStep? && a.w < |s.workers| && s.workers[a.w].Reported? && InTime(h)) by {
      ReportEnabled(s, a);
    }
  }

  lemma JobCompleted(s: State, h: History)
    requires s.job == JobOf(h)
    ensures s.job == Completed <==> h.verdict == Some(Completed)
  {
  }

  lemma ReportEnabled(s: State, a: Action)
    requires WorkersOk(s)
    ensures a.WorkerStep? && a.w < |s.workers| && s.workers[a.w].Reported? ==> Enabled(s, a)
  {
    if a.WorkerStep? && a.w < |s.workers| && s.workers[a.w].Reported? {
      assert WorkerOk(s, a.w, s.workers[a.w]);
    }
  }

  // ----- a completed attempt -----

  /** The last attempt completed, and nobody is about to change the job. */
  ghost predicate Over(s: State) {
    && s.attempts != [] && s.attempts[|s.attempts| - 1].state.AttemptCompleted? && AttemptsOk(s)
    && (s.scheduler.Resting? || s.scheduler.SawRunning?)
    && !s.job.Pending?
    && (forall w | 0 <= w < |s.workers| :: s.workers[w].Free? || NewlyClaimed(s, w))
  }

  ghost predicate NewlyClaimed(s: State, w: nat)
    requires w < |s.workers|
  {
    s.workers[w].Claimed? && (s.workers[w].i < |s.attempts| ==> !s.attempts[s.workers[w].i].state.New?)
  }

  lemma OverStays(s: State, a: Action)
    requires Over(s) && !a.Terminate?
    ensures Over(Apply(s, a)) && Apply(s, a).job == s.job
  {
  }

  /** Then nothing but a termination by the user ever changes the job again. */
  lemma {:induction false} OverForever(s: State, acts: seq<Action>)
    requires Over(s) && Terminate !in acts
    ensures Over(Run(s, acts)) && Run(s, acts).job == s.job
    decreases |acts|
  {
    if acts != [] {
      assert acts[0] != Terminate;
      OverStays(s, acts[0]);
      OverForever(Apply(s, acts[0]), acts[1..]);
    }
  }

  ghost predicate CompletedAfter(s: State, acts: seq<Action>) {
    Terminate !in acts ==> Run(s, acts).job == Completed
  }

  /** A job whose attempt completed, when everybody is done: it is Completed for good if and only if a report came in
      time; otherwise it stays as it is until the user ends it, whether the report was refused or never made. */
  lemma CompletedAttemptIff(maxRetries: nat, workers: nat, acts: seq<Action>)
    requires Over(Run(Init(maxRetries, workers), acts))
    ensures var s := Run(Init(maxRetries, workers), acts);
            && ((forall more :: CompletedAfter(s, more)) <==> exists k :: ReportsInTime(maxRetries, workers, acts, k))
            && (forall more | Terminate !in more :: Run(s, more).job == s.job)
  {
    var s := Run(Init(maxRetries, workers), acts);
    CompletedIffReportedInTime(maxRetries, workers, acts);
    forall more | Terminate !in more ensures Run(s, more).job == s.job {
      OverForever(s, more);
    }
    assert CompletedAfter(s, []) ==> s.job == Completed;
  }

  // ----- one worker's note and report -----

  /** Nobody else notes or reports, gives up or terminates, during these actions. */
  ghost predicate Undisturbed(s: State, acts: seq<Action>)
    decreases |acts|
  {
    acts != [] ==>
    && !acts[0].Terminate?
    && (acts[0].SchedulerStep? ==> !s.scheduler.GivingUp?)
    && (acts[0].WorkerStep? && acts[0].w < |s.workers| ==> !s.workers[acts[0].w].Began? && !s.workers[acts[0].w].Reported?)
    && Undisturbed(Apply(s, acts[0]), acts[1..])
  }

  /** The scheduler takes no second write during these actions. */
  ghost predicate NoSecondWrite(s: State, acts: seq<Action>)
    decreases |acts|
  {
    acts == [] || (!(acts[0].SchedulerStep? && s.scheduler.Created?) && NoSecondWrite(Apply(s, acts[0]), acts[1..]))
  }

  lemma {:induction false} LatestStays(s: State, h: History, acts: seq<Action>)
    requires Told(s, h) && h.verdict.None? && Undisturbed(s, acts)
    ensures var g := TrackAll(s, h, acts);
            && g.verdict.None?
            && (InTime(g) <==> InTime(h) && NoSecondWrite(s, acts))
    decreases |acts|
  {
    if acts != [] {
      TrackKeeps(s, h, acts[0]);
      LatestStays(Apply(s, acts[0]), Track(s, h, acts[0]), acts[1..]);
    }
  }

  /** A worker notes that the job runs, anything undisturbed happens, and it reports: the job is Completed then if and
      only if the scheduler's first second write came before the note and no second write came between note and report.
      In a retry's pair, too, the second write may come before the note or after the report, but not between. */
  lemma OwnReportIff(s: State, h: History, w: nat, noted: bool, between: seq<Action>, ok: bool)
    requires Told(s, h) && h.verdict.None? && w < |s.workers| && s.workers[w].Began?
    requires var t := Apply(s, WorkerStep(w, noted));
             Undisturbed(t, between) && w < |Run(t, between).workers| && Run(t, between).workers[w].Reported?
    ensures var t := Apply(s, WorkerStep(w, noted));
            Apply(Run(t, between), WorkerStep(w, ok)).job == Completed <==> h.started && NoSecondWrite(t, between)
  {
    var t, g := Apply(s, WorkerStep(w, noted)), Track(s, h, WorkerStep(w, noted));
    TrackKeeps(s, h, WorkerStep(w, noted));
    assert g.verdict.None? && (InTime(g) <==> h.started) by { hide Told; }
    LatestStays(t, g, between);
    TrackAllKeeps(t, g, between);
    LastAction(Run(t, between), TrackAll(t, g, between), WorkerStep(w, ok));
    NotCompletedYet(Run(t, between), TrackAll(t, g, between));
  }

  lemma NotCompletedYet(s: State, h: History)
    requires Told(s, h) && h.verdict.None?
    ensures s.job != Completed
  {
  }

  // ----- a completed job -----

  lemma {:induction false} ReporterExitedZero(maxRetries: nat, workers: nat, acts: seq<Action>)
    requires Story(maxRetries, workers, acts).reporter.Some?
    ensures exists w :: ExitedZero(Init(maxRetries, workers), acts, w, Story(maxRetries, workers, acts).reporter.value)
    decreases |acts|
  {
    var i := Init(maxRetries, workers);
    if acts != [] {
      var n := |acts| - 1;
      var s, h := Run(i, acts[..n]), Story(maxRetries, workers, acts[..n]);
      assert acts == acts[..n] + [acts[n]];
      Snoc(i, NOTHING, acts[..n], acts[n]);
      if h.reporter == Story(maxRetries, workers, acts).reporter {
        ReporterExitedZero(maxRetries, workers, acts[..n]);
        var w :| ExitedZero(i, acts[..n], w, h.reporter.value);
        StillExited(i, acts, w, h.reporter.value);
      } else {
        NewReporter(s, h, acts[n]);
        var w := acts[n].w;
        ReportedExitedZero(maxRetries, workers, acts[..n], w, s.workers[w].i);
        StillExited(i, acts, w, s.workers[w].i);
      }
    }
  }

  lemma NewReporter(s: State, h: History, a: Action)
    requires Track(s, h, a).reporter.Some? && Track(s, h, a).reporter != h.reporter
    ensures a.WorkerStep? && a.w < |s.workers| && s.workers[a.w] == Reported(Track(s, h, a).reporter.value)
  {
  }

  /** A completed job was completed by the report of a worker whose process exited with code 0. It has a completed attempt
      if and only if that worker's attempt was not timed out before it wrote the result, or a later attempt completed. */
  lemma CompletedJobIff(maxRetries: nat, workers: nat, acts: seq<Action>)
    requires Run(Init(maxRetries, workers), acts).job == Completed
    ensures var s, reporter := Run(Init(maxRetries, workers), acts), Story(maxRetries, workers, acts).reporter;
            && reporter.Some? && (exists w :: ExitedZero(Init(maxRetries, workers), acts, w, reporter.value))
            && reporter.value < |s.attempts| && s.attempts[reporter.value].state in {AttemptCompleted, TimedOut}
            && ((exists i | 0 <= i < |s.attempts| :: s.attempts[i].state.AttemptCompleted?) <==>
                  !s.attempts[reporter.value].state.TimedOut?
                  || exists i | reporter.value < i < |s.attempts| :: s.attempts[i].state.AttemptCompleted?)
  {
    StoryTold(maxRetries, workers, acts);
    assert Story(maxRetries, workers, acts).reporter.Some?;
    ReporterExitedZero(maxRetries, workers, acts);
  }

  // ----- runs on which a completed attempt and a completed job part -----

  lemma Next(s: State, acts: seq<Action>, a: Action) returns (more: seq<Action>)
    ensures more == acts + [a] && Run(s, more) == Apply(Run(s, acts), a)
  {
    more := acts + [a];
    RunAppend(s, acts, [a]);
    assert [a][1..] == [];
    assert Run(Run(s, acts), [a]) == Run(Apply(Run(s, acts), a), []);
  }

  /** What these runs look at, with one worker. */
  ghost predicate At(s: State, job: JobState, attempts: seq<AttemptState>, scheduler: SchedulerPc, worker: WorkerPc) {
    && s.job == job && s.scheduler == scheduler && |s.workers| == 1 && s.workers[0] == worker
    && |s.attempts| == |attempts| && forall i | 0 <= i < |attempts| :: s.attempts[i].state == attempts[i]
  }

  /** The first pair of writes. */
  lemma Opens(maxRetries: nat) returns (acts: seq<Action>)
    ensures var s := Run(Init(maxRetries, 1), acts);
            At(s, JobState.Scheduled, [New], Resting, Free) && s.maxRetries == maxRetries
  {
    var i := Init(maxRetries, 1);
    acts := Next(i, [], ListPending);
    acts := Next(i, acts, SchedulerStep);
    acts := Next(i, acts, SchedulerStep);
  }

  /** The first pair of writes has opened the job, and a worker has taken the first attempt and noted that the job runs. */
  lemma FirstRuns(maxRetries: nat) returns (acts: seq<Action>)
    ensures var s := Run(Init(maxRetries, 1), acts);
            At(s, JobState.Running, [Executing], Resting, Busy(0)) && s.maxRetries == maxRetries
  {
    var i := Init(maxRetries, 1);
    acts := Opens(maxRetries);
    acts := Next(i, acts, Claim(0, 0));
    acts := Next(i, acts, WorkerStep(0, true));
    acts := Next(i, acts, WorkerStep(0, true));
  }

  /** A worker notes between the two writes of the first pair. */
  lemma NotesEarly(maxRetries: nat) returns (acts: seq<Action>)
    ensures At(Run(Init(maxRetries, 1), acts), Pending, [Executing], Created(Pending), Busy(0))
  {
    var i := Init(maxRetries, 1);
    acts := Next(i, [], ListPending);
    acts := Next(i, acts, SchedulerStep);
    acts := Next(i, acts, Claim(0, 0));
    acts := Next(i, acts, WorkerStep(0, true));
    acts := Next(i, acts, WorkerStep(0, true));
  }

  /** A worker that notes before the first second write leaves the job Scheduled, its attempt completed. */
  lemma FastFirstAttempt(maxRetries: nat) returns (acts: seq<Action>)
    ensures var s := Run(Init(maxRetries, 1), acts); Over(s) && s.job.Scheduled?
  {
    hide Inv, AttemptsOk;
    var i := Init(maxRetries, 1);
    acts := NotesEarly(maxRetries);
    acts := Next(i, acts, SchedulerStep);
    acts := Next(i, acts, WorkerStep(0, true));
    acts := Next(i, acts, WorkerStep(0, true));
    AtMostOneActive(maxRetries, 1, acts);
  }

  /** A worker that stops between the attempt's result and the report leaves the job Running, its attempt completed. */
  lemma LostReport(maxRetries: nat) returns (acts: seq<Action>)
    ensures var s := Run(Init(maxRetries, 1), acts); Over(s) && s.job.Running?
  {
    hide Inv, AttemptsOk;
    var i := Init(maxRetries, 1);
    acts := FirstRuns(maxRetries);
    acts := Next(i, acts, WorkerStep(0, true));
    acts := Next(i, acts, WorkerFails(0));
    AtMostOneActive(maxRetries, 1, acts);
  }

  lemma FirstFails(maxRetries: nat) returns (acts: seq<Action>)
    ensures var s := Run(Init(maxRetries, 1), acts);
            At(s, JobState.Running, [AttemptState.AttemptFailed], SawRunning, Free) && s.maxRetries == maxRetries
  {
    hide Inv, AttemptsOk;
    var i := Init(maxRetries, 1);
    acts := FirstRuns(maxRetries);
    acts := Next(i, acts, WorkerStep(0, false));
    acts := Next(i, acts, ListRunning);
  }

  lemma Retried(maxRetries: nat) returns (acts: seq<Action>)
    requires maxRetries > 0
    ensures var s := Run(Init(maxRetries, 1), acts);
            At(s, JobState.Running, [AttemptState.AttemptFailed, New], Created(JobState.Running), Free)
  {
    hide Inv, AttemptsOk;
    var i := Init(maxRetries, 1);
    acts := FirstFails(maxRetries);
    acts := Next(i, acts, SchedulerStep);
    acts := Next(i, acts, SchedulerStep);
    acts := Next(i, acts, SchedulerStep);
  }

  /** A retried attempt whose whole life falls between the two writes of its creation completes the job all the same. */
  lemma FastRetry(maxRetries: nat) returns (acts: seq<Action>)
    requires maxRetries > 0
    ensures var s := Run(Init(maxRetries, 1), acts); s.scheduler == Created(JobState.Running) && s.job.Completed?
  {
    hide Inv, AttemptsOk;
    var i := Init(maxRetries, 1);
    acts := Retried(maxRetries);
    acts := Next(i, acts, Claim(0, 1));
    acts := Next(i, acts, WorkerStep(0, true));
    acts := Next(i, acts, WorkerStep(0, true));
    acts := Next(i, acts, WorkerStep(0, true));
    acts := Next(i, acts, WorkerStep(0, true));
  }

  /** An attempt timed out while its worker was at it completes the job by its report, though no attempt completed. */
  lemma TimedOutReport(maxRetries: nat) returns (acts: seq<Action>)
    ensures var s := Run(Init(maxRetries, 1), acts);
            s.job.Completed? && forall k | 0 <= k < |s.attempts| :: !s.attempts[k].state.AttemptCompleted?
  {
    hide Inv, AttemptsOk;
    var i := Init(maxRetries, 1);
    acts := FirstRuns(maxRetries);
    acts := Next(i, acts, ListStale(0));
    acts := Next(i, acts, SchedulerStep);
    acts := Next(i, acts, WorkerStep(0, true));
    acts := Next(i, acts, WorkerStep(0, true));
  }
}
