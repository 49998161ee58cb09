/** The AgentJob protocol: one job, its attempts and pods behind an API server, and any number of
    reconcilers, each interrupted at any point and each reading arbitrarily stale cached objects
    (internal/controller/job_controller.go, attempt_reconciler.go, job_snapshot.go, cancel.go).

    An object is the list of all versions it has had; its resource version is an index into that list.
    A status update carries the version it was computed from and fails unless that is the newest one.
    One step of a reconciler makes at most one API write.

    The n-th attempt and its pod are both named "<job>-n" (Text.AttemptNameInjective shows that
    these names differ for different n), so both are keyed here by the ordinal n. */
module Cluster {
  import opened Conditions

  datatype Phase = Pending | Running | Succeeded | Failed

  datatype Pod = Pod(name: int, uid: int, phase: Phase)

  datatype PodRef = PodRef(name: int, uid: int)

  datatype Attempt = Attempt(uid: int, jobUid: int, ordinal: int, pod: Option<PodRef>, started: bool,
                             conds: Conds)

  datatype AttemptRef = AttemptRef(name: int, ordinal: int, uid: int)

  datatype Job = Job(uid: int, maxAttempts: int, failed: int, completed: int, active: Option<AttemptRef>,
                     conds: Conds)

  /** Where one run of Reconcile stands between two API writes. A job version is an index into `jobs`,
      an attempt version an index into the versions of that attempt. */
  datatype Pc =
    | Idle
    | Loaded(ji: int, listed: map<int, int>)             // snapshot taken: job version, attempt versions
    | HavePod(ji: int, name: int, ai: int, pod: Pod)     // a pod is in hand but not yet recorded
    | AttemptDone(ji: int, name: int, ai: int)           // the active attempt is terminal
    | RunningNote(ji: int)                               // the job's Running condition is to be written
    | Created(ji: int, name: int, retry: bool)           // the next attempt is in hand

  datatype System = System(jobs: seq<Job>, attempts: map<int, seq<Attempt>>, pods: map<int, Pod>,
                           seen: set<Pod>, pcs: seq<Pc>, nextUid: int)

  datatype Action =
    | Load(r: int, ji: int, listed: map<int, int>)
    | Advance(r: int, obs: Option<Pod>, again: Option<Pod>) // what the reads of a pod return
    | Drop(r: int)                                          // a crash, or an API error
    | PodMoves(name: int, phase: Phase)
    | PodDeleted(name: int)
    | PodReplaced(name: int)
    | RaiseMax(max: int)
    | Cancel(ji: int)                                       // HandleCancel on a copy read at version ji

  function Last<T>(s: seq<T>): T
    requires |s| > 0
  {
    s[|s| - 1]
  }

  // ----- what Reconcile computes before each status update -----

  function ScheduledWith(j: Job, ref: AttemptRef): Job {
    j.(active := Some(ref), conds := Set(j.conds, Condition(Scheduled, true, AttemptCreated)))
  }

  function RetryingWith(j: Job, ref: AttemptRef): Job {
    j.(failed := j.failed + 1, active := Some(ref),
       conds := Set(Set(j.conds, Condition(CondType.Running, false, Retrying)),
                       Condition(Scheduled, true, Retrying)))
  }

  function NotedRunning(j: Job): Job {
    j.(conds := Set(j.conds, Condition(CondType.Running, true, PodRunning)))
  }

  function Completed(j: Job): Job {
    j.(completed := j.completed + 1,
       conds := TrySetTerminal(j.conds, Condition(Complete, true, Reason.Succeeded)).0)
  }

  function Exhausted(j: Job): Job {
    j.(failed := j.failed + 1,
       conds := TrySetTerminal(j.conds, Condition(CondType.Failed, true, RetriesExhausted)).0)
  }

  function Disowned(j: Job): Job {
    j.(conds := TrySetTerminal(j.conds, Condition(CondType.Failed, true, OwnershipViolation)).0)
  }

  function CancelledJob(j: Job): Job {
    j.(conds := TrySetTerminal(j.conds, Condition(CondType.Failed, true, Cancelled)).0)
  }

  function WithPod(a: Attempt, p: Pod): Attempt {
    a.(pod := Some(PodRef(p.name, p.uid)), conds := Set(a.conds, Condition(PodCreated, true, PodMade)))
  }

  function MarkRunning(a: Attempt): Attempt {
    a.(started := true, conds := Set(a.conds, Condition(CondType.Running, true, PodRunning)))
  }

  function MarkSucceeded(a: Attempt): Attempt {
    a.(started := true,
       conds := Set(Set(a.conds, Condition(CondType.Running, true, PodRunning)),
                       Condition(Complete, true, Reason.PodSucceeded)))
  }

  function MarkFailed(a: Attempt, started: bool): Attempt {
    a.(started := a.started || started, conds := Set(a.conds, Condition(CondType.Failed, true, AttemptFailed)))
  }

  // ----- API writes -----

  function SetPc(s: System, r: int, pc: Pc): System
    requires 0 <= r < |s.pcs|
  {
    s.(pcs := s.pcs[r := pc])
  }

  /** A job status update computed from version ji; on a conflict Reconcile returns the error. */
  function WriteJob(s: System, r: int, ji: int, j: Job, next: Pc): System
    requires 0 <= r < |s.pcs|
  {
    if ji == |s.jobs| - 1 then SetPc(s.(jobs := s.jobs + [j]), r, next) else SetPc(s, r, Idle)
  }

  function WriteAttempt(s: System, r: int, name: int, ai: int, a: Attempt, next: Pc): System
    requires 0 <= r < |s.pcs| && name in s.attempts
  {
    if ai == |s.attempts[name]| - 1
    then SetPc(s.(attempts := s.attempts[name := s.attempts[name] + [a]]), r, next)
    else SetPc(s, r, Idle)
  }

  /** createAttempt: the name is a function of the counters; an attempt that already has it is reused. */
  function GetOrCreate(s: System, r: int, ji: int, ordinal: int, retry: bool): System
    requires 0 <= r < |s.pcs| && 0 <= ji < |s.jobs|
  {
    var next := Created(ji, ordinal, retry);
    if ordinal in s.attempts then SetPc(s, r, next)
    else
      var a := Attempt(s.nextUid, s.jobs[ji].uid, ordinal, None, false, map[]);
      SetPc(s.(attempts := s.attempts[ordinal := [a]], nextUid := s.nextUid + 1), r, next)
  }

  // ----- one step of a reconciler -----

  predicate InRange(s: System, pc: Pc) {
    match pc
    case Idle => true
    case Loaded(ji, listed) =>
      && 0 <= ji < |s.jobs|
      && forall n | n in listed :: n in s.attempts && 0 <= listed[n] < |s.attempts[n]|
    case HavePod(ji, name, ai, _) => 0 <= ji < |s.jobs| && name in s.attempts && 0 <= ai < |s.attempts[name]|
    case AttemptDone(ji, name, ai) => 0 <= ji < |s.jobs| && name in s.attempts && 0 <= ai < |s.attempts[name]|
    case RunningNote(ji) => 0 <= ji < |s.jobs|
    case Created(ji, name, _) => 0 <= ji < |s.jobs| && name in s.attempts && |s.attempts[name]| > 0
  }

  /** ReconcileAttempt on a snapshot whose active attempt is version ai of `name` and not terminal. */
  function AttemptStep(s: System, r: int, ji: int, name: int, ai: int, obs: Option<Pod>, again: Option<Pod>): System
    requires 0 <= r < |s.pcs| && 0 <= ji < |s.jobs| && name in s.attempts && 0 <= ai < |s.attempts[name]|
  {
    var a := s.attempts[name][ai];
    var done := AttemptDone(ji, name, ai + 1);
    if a.pod.None? then
      if obs.Some? then SetPc(s, r, HavePod(ji, name, ai, obs.value))
      else if name !in s.pods then
        var p := Pod(name, s.nextUid, Pending);
        SetPc(s.(pods := s.pods[name := p], seen := s.seen + {p}, nextUid := s.nextUid + 1),
              r, HavePod(ji, name, ai, p))
      else if again.Some? then SetPc(s, r, HavePod(ji, name, ai, again.value))
      else SetPc(s, r, Idle)
    else if obs.None? then WriteAttempt(s, r, name, ai, MarkFailed(a, false), done)
    else if obs.value.uid != a.pod.value.uid then WriteAttempt(s, r, name, ai, MarkFailed(a, false), done)
    else
      match obs.value.phase
      case Running =>
        if a.started then SetPc(s, r, RunningNote(ji))
        else WriteAttempt(s, r, name, ai, MarkRunning(a), RunningNote(ji))
      case Succeeded => WriteAttempt(s, r, name, ai, MarkSucceeded(a), done)
      case Failed => WriteAttempt(s, r, name, ai, MarkFailed(a, true), done)
      case Pending => SetPc(s, r, if a.started then RunningNote(ji) else Idle)
  }

  predicate OwnsAll(s: System, ji: int, listed: map<int, int>)
    requires InRange(s, Loaded(ji, listed))
  {
    forall n | n in listed :: s.attempts[n][listed[n]].jobUid == s.jobs[ji].uid
  }

  function LoadedStep(s: System, r: int, ji: int, listed: map<int, int>, obs: Option<Pod>, again: Option<Pod>): System
    requires 0 <= r < |s.pcs| && InRange(s, Loaded(ji, listed))
  {
    var j := s.jobs[ji];
    if Terminal(j.conds) then SetPc(s, r, Idle)
    else if !OwnsAll(s, ji, listed) then WriteJob(s, r, ji, Disowned(j), Idle)
    else if j.active.None? || j.active.value.name !in listed then
      GetOrCreate(s, r, ji, j.failed + j.completed + 1, false)
    else
      var name := j.active.value.name;
      if Terminal(s.attempts[name][listed[name]].conds) then SetPc(s, r, AttemptDone(ji, name, listed[name]))
      else AttemptStep(s, r, ji, name, listed[name], obs, again)
  }

  function DoneStep(s: System, r: int, ji: int, name: int, ai: int): System
    requires 0 <= r < |s.pcs| && InRange(s, AttemptDone(ji, name, ai))
  {
    var j := s.jobs[ji];
    if IsTrue(s.attempts[name][ai].conds, Complete) then WriteJob(s, r, ji, Completed(j), Idle)
    else if j.failed + 1 < j.maxAttempts then GetOrCreate(s, r, ji, (j.failed + 1) + j.completed + 1, true)
    else WriteJob(s, r, ji, Exhausted(j), Idle)
  }

  function RefTo(s: System, name: int): AttemptRef
    requires name in s.attempts && |s.attempts[name]| > 0
  {
    AttemptRef(name, s.attempts[name][0].ordinal, s.attempts[name][0].uid)
  }

  function Step(s: System, r: int, obs: Option<Pod>, again: Option<Pod>): System
    requires 0 <= r < |s.pcs| && InRange(s, s.pcs[r])
  {
    match s.pcs[r]
    case Idle => s
    case Loaded(ji, listed) => LoadedStep(s, r, ji, listed, obs, again)
    case HavePod(ji, name, ai, p) => WriteAttempt(s, r, name, ai, WithPod(s.attempts[name][ai], p), Idle)
    case AttemptDone(ji, name, ai) => DoneStep(s, r, ji, name, ai)
    case RunningNote(ji) => WriteJob(s, r, ji, NotedRunning(s.jobs[ji]), Idle)
    case Created(ji, name, retry) =>
      var ref := RefTo(s, name);
      WriteJob(s, r, ji, if retry then RetryingWith(s.jobs[ji], ref) else ScheduledWith(s.jobs[ji], ref), Idle)
  }

  // ----- runs -----

  /** A read of the active attempt's pod returns some state that pod has had, or nothing. */
  predicate Readable(s: System, pc: Pc, obs: Option<Pod>) {
    obs.Some? ==>
      && obs.value in s.seen
      && pc.Loaded? && 0 <= pc.ji < |s.jobs|
      && s.jobs[pc.ji].active.Some? && obs.value.name == s.jobs[pc.ji].active.value.name
  }

  predicate Enabled(s: System, a: Action) {
    match a
    case Load(r, ji, listed) => 0 <= r < |s.pcs| && s.pcs[r] == Idle && InRange(s, Loaded(ji, listed))
    case Advance(r, obs, again) =>
      && 0 <= r < |s.pcs| && InRange(s, s.pcs[r])
      && Readable(s, s.pcs[r], obs) && Readable(s, s.pcs[r], again)
    case Drop(r) => 0 <= r < |s.pcs|
    case PodMoves(name, _) => name in s.pods
    case PodDeleted(name) => name in s.pods
    case PodReplaced(name) => name in s.pods
    case RaiseMax(max) => |s.jobs| > 0 && max >= Last(s.jobs).maxAttempts
    case Cancel(ji) => 0 <= ji < |s.jobs|
  }

  function PutPod(s: System, p: Pod): System {
    s.(pods := s.pods[p.name := p], seen := s.seen + {p})
  }

  function Apply(s: System, a: Action): System {
    if !Enabled(s, a) then s
    else
      match a
      case Load(r, ji, listed) => SetPc(s, r, Loaded(ji, listed))
      case Advance(r, obs, again) => Step(s, r, obs, again)
      case Drop(r) => SetPc(s, r, Idle)
      case PodMoves(name, phase) => PutPod(s, s.pods[name].(phase := phase))
      case PodDeleted(name) => s.(pods := map n | n in s.pods && n != name :: s.pods[n])
      case PodReplaced(name) => PutPod(s, Pod(s.pods[name].name, s.nextUid, Pending)).(nextUid := s.nextUid + 1)
      case RaiseMax(max) => s.(jobs := s.jobs + [Last(s.jobs).(maxAttempts := max)])
      case Cancel(ji) =>
        if ji == |s.jobs| - 1 && !Terminal(s.jobs[ji].conds) then s.(jobs := s.jobs + [CancelledJob(s.jobs[ji])])
        else s
  }

  function Run(s: System, acts: seq<Action>): System
    decreases |acts|
  {
    if acts == [] then s else Run(Apply(s, acts[0]), acts[1..])
  }

  /** A new job, no attempts, no pods, n reconcilers at rest. */
  function Init(uid: int, maxAttempts: int, reconcilers: nat): System {
    System([Job(uid, maxAttempts, 0, 0, None, map[])], map[], map[], {}, seq(reconcilers, _ => Idle), uid + 1)
  }

  lemma {:induction false} RunAppend(s: System, xs: seq<Action>, ys: seq<Action>)
    ensures Run(s, xs + ys) == Run(Run(s, xs), ys)
    decreases |xs|
  {
    if xs == [] {
      assert xs + ys == ys;
    } else {
      assert (xs + ys)[1..] == xs[1..] + ys;
      RunAppend(Apply(s, xs[0]), xs[1..], ys);
    }
  }
}
