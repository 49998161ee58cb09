/** One job in the store, with one scheduler, any number of workers and the API acting on it concurrently; every step
    is one database operation, and state changes are compare-and-set (internal/scheduler/reconciler.go,
    internal/worker/worker.go, internal/store/store.go, internal/model/model.go). */
module Scheduler {
  datatype JobState =
    | Pending | Scheduled | Running | Completed | Failed | Terminated | Claiming | Activating | Recovering

  datatype AttemptState = New | Executing | AttemptCompleted | AttemptFailed | TimedOut

  /** validJobTransitions */
  predicate JobMay(from: JobState, to: JobState) {
    match from
    case Pending => to in {Scheduled, Claiming, Terminated}
    case Scheduled => to in {Running, Failed, Terminated}
    case Running => to in {Completed, Failed, Scheduled, Recovering, Terminated}
    case Claiming => to in {Activating, Scheduled, Terminated}
    case Activating => to in {Running, Failed, Terminated}
    case Recovering => to in {Running, Failed, Terminated}
    case _ => false
  }

  /** validAttemptTransitions */
  predicate AttemptMay(from: AttemptState, to: AttemptState) {
    match from
    case New => to == Executing
    case Executing => to in {AttemptCompleted, AttemptFailed, TimedOut}
    case _ => false
  }

  /** `executors` are the workers that moved the attempt to Executing; `states` is its transition log. */
  datatype Attempt = Attempt(state: AttemptState, executors: seq<nat>, states: seq<AttemptState>)

  /** Where the scheduler is between two operations. */
  datatype SchedulerPc =
    | Resting
    | SawPending
    | SawStale(i: nat)
    | SawRunning
    | Retrying
    | Creating
    | GivingUp
    | Created(expected: JobState)

  datatype WorkerPc = Free | Claimed(i: nat) | Began(i: nat) | Busy(i: nat) | Reported(i: nat)

  /** The attempt at index i has number i + 1. `states` is the job's transition log: the states it went through. */
  datatype State = State(job: JobState, states: seq<JobState>, maxRetries: nat, attempts: seq<Attempt>,
                         scheduler: SchedulerPc, workers: seq<WorkerPc>)

  datatype Action =
    | ListPending | ListStale(i: nat) | ListRunning
    | SchedulerStep
    | SchedulerFails
    | Claim(w: nat, i: nat)
    | WorkerStep(w: nat, exitOk: bool)
    | WorkerFails(w: nat)
    | Terminate

  function Init(maxRetries: nat, workers: nat): State {
    State(Pending, [Pending], maxRetries, [], Resting, seq(workers, _ => Free))
  }

  predicate Ended(j: JobState) { j.Completed? || j.Failed? || j.Terminated? }

  predicate Active(a: Attempt) { a.state.New? || a.state.Executing? }

  // ----- the store's operations -----

  /** TransitionJobState */
  function CasJob(s: State, from: JobState, to: JobState): State {
    if s.job == from then s.(job := to, states := s.states + [to]) else s
  }

  /** TransitionAttemptState */
  function CasAttempt(s: State, i: nat, from: AttemptState, to: AttemptState): State
    requires i < |s.attempts|
  {
    var a := s.attempts[i];
    if a.state == from then s.(attempts := s.attempts[i := a.(state := to, states := a.states + [to])]) else s
  }

  function CreateAttempt(s: State): State {
    s.(attempts := s.attempts + [Attempt(New, [], [New])])
  }

  // ----- the actors -----

  predicate Enabled(s: State, a: Action) {
    match a
    case ListPending => s.scheduler.Resting? && s.job.Pending?
    case ListStale(i) => s.scheduler.Resting? && i < |s.attempts| && s.attempts[i].state.Executing?
    case ListRunning => s.scheduler.Resting? && s.job.Running?
    case SchedulerStep => !s.scheduler.Resting? && (s.scheduler.SawStale? ==> s.scheduler.i < |s.attempts|)
    case SchedulerFails => !(s.scheduler == Created(Pending) && s.job.Pending?)
    case Claim(w, i) => w < |s.workers| && s.workers[w].Free? && i < |s.attempts| && s.attempts[i].state.New?
    case WorkerStep(w, _) => w < |s.workers| && !s.workers[w].Free? && s.workers[w].i < |s.attempts|
    case WorkerFails(w) => w < |s.workers|
    case Terminate => !Ended(s.job)
  }

  function SchedulerNext(s: State): State
    requires Enabled(s, SchedulerStep)
  {
    match s.scheduler
    case SawPending => CreateAttempt(s).(scheduler := Created(Pending))
    case SawStale(i) =>
      if s.attempts[i].state.Executing? then CasAttempt(s, i, Executing, TimedOut).(scheduler := Retrying)
      else s.(scheduler := Resting)
    case SawRunning =>
      if s.attempts != [] && s.attempts[|s.attempts| - 1].state.AttemptFailed? then s.(scheduler := Retrying)
      else s.(scheduler := Resting)
    case Retrying => s.(scheduler := if |s.attempts| < s.maxRetries + 1 then Creating else GivingUp)
    case Creating => CreateAttempt(s).(scheduler := Created(Running))
    case GivingUp => CasJob(s, Running, Failed).(scheduler := Resting)
    case Created(expected) => CasJob(s, expected, Scheduled).(scheduler := Resting)
  }

  function SetWorker(s: State, w: nat, pc: WorkerPc): State
    requires w < |s.workers|
  {
    s.(workers := s.workers[w := pc])
  }

  function WorkerNext(s: State, w: nat, exitOk: bool): State
    requires Enabled(s, WorkerStep(w, exitOk))
  {
    match s.workers[w]
    case Claimed(i) =>
      if s.attempts[i].state.New? then
        var t := CasAttempt(s, i, New, Executing);
        SetWorker(t.(attempts := t.attempts[i := t.attempts[i].(executors := t.attempts[i].executors + [w])]), w, Began(i))
      else SetWorker(s, w, Free)
    case Began(i) => SetWorker(CasJob(s, Scheduled, Running), w, Busy(i))
    case Busy(i) =>
      if exitOk then SetWorker(CasAttempt(s, i, Executing, AttemptCompleted), w, Reported(i))
      else SetWorker(CasAttempt(s, i, Executing, AttemptFailed), w, Free)
    case Reported(i) => SetWorker(CasJob(s, Running, Completed), w, Free)
  }

  function Apply(s: State, a: Action): State {
    if !Enabled(s, a) then s
    else
      match a
      case ListPending => s.(scheduler := SawPending)
      case ListStale(i) => s.(scheduler := SawStale(i))
      case ListRunning => s.(scheduler := SawRunning)
      case SchedulerStep => SchedulerNext(s)
      case SchedulerFails => s.(scheduler := Resting)
      case Claim(w, i) => SetWorker(s, w, Claimed(i))
      case WorkerStep(w, exitOk) => WorkerNext(s, w, exitOk)
      case WorkerFails(w) => SetWorker(s, w, Free)
      case Terminate => CasJob(s, s.job, Terminated)
  }

  function Run(s: State, acts: seq<Action>): State
    decreases |acts|
  {
    if acts == [] then s else Run(Apply(s, acts[0]), acts[1..])
  }

  // ----- what every reachable state satisfies -----

  /** A transition log: it starts in the initial state, every step is in the table, it ends in the current state. */
  ghost predicate JobPath(states: seq<JobState>, now: JobState) {
    && |states| > 0 && states[0] == Pending && states[|states| - 1] == now
    && forall i | 0 < i < |states| :: JobMay(states[i - 1], states[i])
  }

  ghost predicate AttemptPath(states: seq<AttemptState>, now: AttemptState) {
    && |states| > 0 && states[0] == New && states[|states| - 1] == now
    && forall i | 0 < i < |states| :: AttemptMay(states[i - 1], states[i])
  }

  /** Only the last attempt is new or executing; an attempt has been executed once if it ever left New. */
  ghost predicate AttemptsOk(s: State) {
    && |s.attempts| <= s.maxRetries + 1
    && (forall i | 0 <= i < |s.attempts| - 1 :: !Active(s.attempts[i]))
    && (forall i | 0 <= i < |s.attempts| ::
          && AttemptPath(s.attempts[i].states, s.attempts[i].state)
          && |s.attempts[i].executors| == if s.attempts[i].state.New? then 0 else 1)
  }

  ghost predicate NoneActive(s: State) {
    forall i | 0 <= i < |s.attempts| :: !Active(s.attempts[i])
  }

  ghost predicate SchedulerOk(s: State) {
    && (s.job.Pending? ==> s.attempts == [] || s.scheduler == Created(Pending))
    && (match s.scheduler
        case SawPending => s.attempts == []
        case Retrying => s.attempts != [] && NoneActive(s)
        case Creating => s.attempts != [] && NoneActive(s) && |s.attempts| < s.maxRetries + 1
        case Created(expected) => s.attempts != [] && (expected == Running || (expected == Pending && |s.attempts| == 1))
        case _ => true)
  }

  ghost predicate Inv(s: State) {
    JobPath(s.states, s.job) && AttemptsOk(s) && SchedulerOk(s) && WorkersThere(s)
  }

  /** Nothing is executed without a worker. */
  ghost predicate WorkersThere(s: State) {
    forall i | 0 <= i < |s.attempts| && !s.attempts[i].state.New? :: s.workers != []
  }

  lemma CasJobOk(s: State, from: JobState, to: JobState)
    requires JobPath(s.states, s.job) && JobMay(from, to)
    ensures JobPath(CasJob(s, from, to).states, CasJob(s, from, to).job)
  {
  }

  lemma CasAttemptOk(s: State, i: nat, from: AttemptState, to: AttemptState)
    requires AttemptsOk(s) && i < |s.attempts| && AttemptMay(from, to) && !from.New?
    ensures AttemptsOk(CasAttempt(s, i, from, to)) && (NoneActive(s) ==> NoneActive(CasAttempt(s, i, from, to)))
    ensures |CasAttempt(s, i, from, to).attempts| == |s.attempts|
    ensures s.attempts[i].state == from ==> NoneActive(CasAttempt(s, i, from, to))
  {
  }

  lemma CreateOk(s: State)
    requires AttemptsOk(s) && NoneActive(s) && |s.attempts| < s.maxRetries + 1
    ensures AttemptsOk(CreateAttempt(s))
  {
  }

  lemma SchedulerKeepsAttempts(s: State)
    requires Inv(s) && Enabled(s, SchedulerStep)
    ensures AttemptsOk(SchedulerNext(s))
  {
    match s.scheduler
    case SawPending => CreateOk(s);
    case SawStale(i) => CasAttemptOk(s, i, Executing, TimedOut);
    case Creating => CreateOk(s);
    case _ =>
  }

  lemma SchedulerKeepsJob(s: State)
    requires Inv(s) && Enabled(s, SchedulerStep)
    ensures var t := SchedulerNext(s); JobPath(t.states, t.job) && SchedulerOk(t) && WorkersThere(t)
  {
    match s.scheduler
    case SawStale(i) => CasAttemptOk(s, i, Executing, TimedOut);
    case GivingUp => CasJobOk(s, Running, Failed);
    case Created(expected) => CasJobOk(s, expected, Scheduled);
    case _ =>
  }

  lemma BeginOk(s: State, i: nat, w: nat)
    requires AttemptsOk(s) && i < |s.attempts| && s.attempts[i].state.New?
    ensures var t := CasAttempt(s, i, New, Executing);
            AttemptsOk(t.(attempts := t.attempts[i := t.attempts[i].(executors := t.attempts[i].executors + [w])]))
  {
  }

  lemma WorkerKeeps(s: State, w: nat, exitOk: bool)
    requires Inv(s) && Enabled(s, WorkerStep(w, exitOk))
    ensures Inv(WorkerNext(s, w, exitOk))
  {
    match s.workers[w]
    case Claimed(i) =>
      if s.attempts[i].state.New? {
        hide JobPath, AttemptPath;
        BeginOk(s, i, w);
      }
    case Began(i) => CasJobOk(s, Scheduled, Running);
    case Busy(i) =>
      hide JobPath, AttemptPath;
      CasAttemptOk(s, i, Executing, if exitOk then AttemptCompleted else AttemptFailed);
    case Reported(i) => CasJobOk(s, Running, Completed);
  }

  lemma ApplyKeeps(s: State, a: Action)
    requires Inv(s)
    ensures Inv(Apply(s, a))
  {
    if Enabled(s, a) {
      match a
      case SchedulerStep =>
        SchedulerKeepsAttempts(s);
        SchedulerKeepsJob(s);
      case WorkerStep(w, exitOk) => WorkerKeeps(s, w, exitOk);
      case Terminate => CasJobOk(s, s.job, Terminated);
      case _ =>
    }
  }

  lemma {:induction false} RunKeeps(s: State, acts: seq<Action>)
    requires Inv(s)
    ensures Inv(Run(s, acts))
    decreases |acts|
  {
    if acts != [] {
      ApplyKeeps(s, acts[0]);
      RunKeeps(Apply(s, acts[0]), acts[1..]);
    }
  }

  ghost predicate OneActive(s: State) {
    forall i, j | 0 <= i < j < |s.attempts| :: !(Active(s.attempts[i]) && Active(s.attempts[j]))
  }

  /** Through any interleaving: never two attempts new or executing, never more than MaxRetries + 1 attempts, no
      attempt executed by two workers, and every transition log a path through the tables to the current state. */
  lemma AtMostOneActive(maxRetries: nat, workers: nat, acts: seq<Action>)
    ensures var s := Run(Init(maxRetries, workers), acts);
            && OneActive(s) && |s.attempts| <= s.maxRetries + 1
            && (forall i | 0 <= i < |s.attempts| :: |s.attempts[i].executors| <= 1)
            && Inv(s)
  {
    RunKeeps(Init(maxRetries, workers), acts);
  }

  /** A job that has ended stays as it is. */
  lemma {:induction false} EndIsFinal(s: State, acts: seq<Action>)
    requires Inv(s) && Ended(s.job)
    ensures Run(s, acts).job == s.job
    decreases |acts|
  {
    if acts != [] {
      ApplyKeeps(s, acts[0]);
      assert Apply(s, acts[0]).job == s.job;
      EndIsFinal(Apply(s, acts[0]), acts[1..]);
    }
  }

  // ----- the scheduler failing between its two writes -----

  ghost predicate AlwaysOneActive(s: State) {
    forall acts :: OneActive(Run(s, acts))
  }

  ghost predicate AlwaysWithinRetries(s: State) {
    forall acts :: WithinRetries(Run(s, acts))
  }

  ghost predicate WithinRetries(s: State) {
    |s.attempts| <= s.maxRetries + 1
  }

  function FailedBetween(s: State): State {
    s.(scheduler := Resting)
  }

  /** What keeps attempts from overlapping, whatever their number. */
  ghost predicate NoOverlap(s: State) {
    && (forall i | 0 <= i < |s.attempts| - 1 :: !Active(s.attempts[i]))
    && (s.job.Pending? ==> NoneActive(s) || s.scheduler == Created(Pending))
    && (match s.scheduler
        case Resting => true
        case SawPending => NoneActive(s)
        case Created(expected) => expected == Pending || !s.job.Pending?
        case SawStale(_) => !s.job.Pending?
        case SawRunning => !s.job.Pending?
        case GivingUp => !s.job.Pending?
        case Retrying => !s.job.Pending? && NoneActive(s)
        case Creating => !s.job.Pending? && NoneActive(s))
  }

  /** What keeps their number in bounds, whether or not they overlap: nothing is retried while the job is pending. */
  ghost predicate Counted(s: State) {
    && |s.attempts| <= s.maxRetries + 1
    && (s.scheduler.SawPending? || s.scheduler.Creating? ==> |s.attempts| < s.maxRetries + 1)
    && (s.job.Pending? ==>
          s.scheduler == Created(Pending)
          || (&& (s.scheduler.Resting? || s.scheduler.SawPending?) && |s.attempts| < s.maxRetries + 1
              && forall i | 0 <= i < |s.attempts| :: !s.attempts[i].state.Executing? && (s.workers == [] || !Active(s.attempts[i]))))
  }

  lemma NoOverlapKept(s: State, a: Action)
    requires NoOverlap(s)
    ensures NoOverlap(Apply(s, a))
  {
  }

  lemma CountedKept(s: State, a: Action)
    requires Counted(s)
    ensures Counted(Apply(s, a))
  {
  }

  lemma {:induction false} NoOverlapForever(s: State, acts: seq<Action>)
    requires NoOverlap(s)
    ensures OneActive(Run(s, acts))
    decreases |acts|
  {
    if acts != [] {
      NoOverlapKept(s, acts[0]);
      NoOverlapForever(Apply(s, acts[0]), acts[1..]);
    }
  }

  lemma {:induction false} CountedForever(s: State, acts: seq<Action>)
    requires Counted(s)
    ensures WithinRetries(Run(s, acts))
    decreases |acts|
  {
    if acts != [] {
      CountedKept(s, acts[0]);
      CountedForever(Apply(s, acts[0]), acts[1..]);
    }
  }

  lemma RunTwo(s: State, a: Action, b: Action)
    ensures Run(s, [a, b]) == Apply(Apply(s, a), b)
  {
    assert [a, b][1..] == [b] && [b][1..] == [];
    assert Run(s, [a, b]) == Run(Apply(s, a), [b]) == Run(Apply(Apply(s, a), b), []);
  }

  lemma {:induction false} RunAppend(s: State, xs: seq<Action>, ys: seq<Action>)
    ensures Run(s, xs + ys) == Run(Run(s, xs), ys)
    decreases |xs|
  {
    if xs == [] {
      assert xs + ys == ys;
    } else {
      assert (xs + ys)[1..] == xs[1..] + ys;
      RunAppend(Apply(s, xs[0]), xs[1..], ys);
    }
  }

  /** A pending job gets another attempt, however many it has. */
  lemma CreatedAgain(s: State)
    requires s.scheduler == Resting && s.job.Pending?
    ensures Run(s, [ListPending, SchedulerStep]) == CreateAttempt(s).(scheduler := Created(Pending))
  {
    RunTwo(s, ListPending, SchedulerStep);
  }

  /** A pending job whose last attempt is active. */
  ghost predicate Exposed(s: State) {
    && s.scheduler == Resting && s.job.Pending? && s.attempts != [] && Active(s.attempts[|s.attempts| - 1])
    && s.workers != []
  }

  /** A worker can make the last attempt execute. */
  lemma Executes(s: State) returns (acts: seq<Action>)
    requires Exposed(s)
    ensures var t := Run(s, acts);
            && Exposed(t) && t.attempts[|t.attempts| - 1].state.Executing?
            && |t.attempts| == |s.attempts| && t.maxRetries == s.maxRetries
  {
    var i := |s.attempts| - 1;
    if s.attempts[i].state.New? {
      var t := Apply(s, WorkerFails(0));
      var u := Apply(Apply(t, Claim(0, i)), WorkerStep(0, true));
      RunTwo(t, Claim(0, i), WorkerStep(0, true));
      assert [WorkerFails(0)][1..] == [];
      assert Run(s, [WorkerFails(0)]) == Run(t, []);
      RunAppend(s, [WorkerFails(0)], [Claim(0, i), WorkerStep(0, true)]);
      acts := [WorkerFails(0)] + [Claim(0, i), WorkerStep(0, true)];
    } else {
      acts := [];
    }
  }

  /** The scheduler retries it when it is stale, without changing the pending job. */
  lemma RetriedWhilePending(s: State) returns (acts: seq<Action>)
    requires Exposed(s) && s.attempts[|s.attempts| - 1].state.Executing? && |s.attempts| < s.maxRetries + 1
    ensures var t := Run(s, acts); Exposed(t) && |t.attempts| == |s.attempts| + 1 && t.maxRetries == s.maxRetries
  {
    var i := |s.attempts| - 1;
    var a := Apply(Apply(s, ListStale(i)), SchedulerStep);
    RunTwo(s, ListStale(i), SchedulerStep);
    assert a.scheduler == Retrying && |a.attempts| == |s.attempts|;
    var b := Apply(Apply(a, SchedulerStep), SchedulerStep);
    RunTwo(a, SchedulerStep, SchedulerStep);
    assert b.scheduler == Created(Running) && b.attempts[|s.attempts|].state == New;
    assert [SchedulerStep][1..] == [];
    assert Run(b, [SchedulerStep]) == Run(Apply(b, SchedulerStep), []);
    RunAppend(s, [ListStale(i), SchedulerStep], [SchedulerStep, SchedulerStep]);
    RunAppend(s, [ListStale(i), SchedulerStep] + [SchedulerStep, SchedulerStep], [SchedulerStep]);
    acts := [ListStale(i), SchedulerStep] + [SchedulerStep, SchedulerStep] + [SchedulerStep];
  }

  /** So the number of attempts can be driven over the limit. */
  lemma {:induction false} DrivenOver(s: State) returns (acts: seq<Action>)
    requires Exposed(s) && |s.attempts| <= s.maxRetries + 1
    ensures !WithinRetries(Run(s, acts))
    decreases s.maxRetries + 1 - |s.attempts|
  {
    if |s.attempts| == s.maxRetries + 1 {
      acts := [ListPending, SchedulerStep];
      CreatedAgain(s);
    } else {
      var first := Executes(s);
      var t := Run(s, first);
      var second := RetriedWhilePending(t);
      var u := Run(t, second);
      var rest := DrivenOver(u);
      RunAppend(s, first, second);
      RunAppend(s, first + second, rest);
      acts := first + second + rest;
    }
  }

  /** The scheduler fails after it created an attempt and before it changed the job. Exactly these failures break
      something: in the first pair of writes, with the job still pending, a second active attempt can appear if and only
      if the first is still active, and too many attempts if and only if no retries were allowed or a worker can keep
      the first one going. A failure inside a retry's pair breaks neither. */
  lemma FailureIff(s: State)
    requires Inv(s) && s.scheduler.Created?
    ensures AlwaysOneActive(FailedBetween(s)) <==>
              !(s.scheduler == Created(Pending) && s.job.Pending? && Active(s.attempts[0]))
    ensures AlwaysWithinRetries(FailedBetween(s)) <==>
              !(s.scheduler == Created(Pending) && s.job.Pending?
                && (s.maxRetries == 0 || (Active(s.attempts[0]) && s.workers != [])))
  {
    var f := FailedBetween(s);
    var first := s.scheduler == Created(Pending) && s.job.Pending?;
    if first {
      CreatedAgain(f);
      var two := Run(f, [ListPending, SchedulerStep]);
      assert two.attempts == s.attempts + [Attempt(New, [], [New])];
      assert two.attempts[0] == s.attempts[0] && Active(two.attempts[1]);
      assert Active(s.attempts[0]) ==> !OneActive(two);
      assert s.maxRetries == 0 ==> !WithinRetries(two);
      if Active(s.attempts[0]) && s.workers != [] {
        var acts := DrivenOver(f);
        assert !WithinRetries(Run(f, acts));
      }
    }
    if !(first && Active(s.attempts[0])) {
      forall acts ensures OneActive(Run(f, acts)) {
        NoOverlapForever(f, acts);
      }
    }
    if !(first && (s.maxRetries == 0 || (Active(s.attempts[0]) && s.workers != []))) {
      assert Counted(f) by { FailedIsCounted(s); }
      forall acts ensures WithinRetries(Run(f, acts)) {
        CountedForever(f, acts);
      }
    }
  }

  lemma FailedIsCounted(s: State)
    requires Inv(s) && s.scheduler.Created?
    requires !(s.scheduler == Created(Pending) && s.job.Pending?
               && (s.maxRetries == 0 || (Active(s.attempts[0]) && s.workers != [])))
    ensures Counted(FailedBetween(s))
  {
  }
}
