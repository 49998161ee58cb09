/** Reconcile as the controller runs it: one imperative pass over an API server that other reconcilers, users
    and kubelets keep changing, where any call may fail and so end the pass
    (internal/controller/job_controller.go, attempt_reconciler.go).
    Each API call is allowed only where the protocol of module Cluster makes that very write. */
module JobReconciler {
  import opened Conditions
  import opened Cluster
  import opened ClusterSafety
  import opened ClusterTheorems
  import opened ClusterProgress
  import opened ClusterOutcome

  /** The first step on a snapshot, with the pod of the active attempt as it is now. */
  ghost function FirstOf(s: System, r: int): System
    requires 0 <= r < |s.pcs| && s.pcs[r].Loaded? && InRange(s, s.pcs[r])
  {
    var j := s.jobs[s.pcs[r].ji];
    if Terminal(j.conds) || j.active.None? || j.active.value.name !in s.pcs[r].listed then Next(s, r)
    else Apply(s, Advance(r, PodNow(s, j.active.value.name), None))
  }

  class ApiServer {
    var s: System
    ghost var log: seq<Action>
    ghost const uid: int
    ghost const maxAttempts: int
    ghost const reconcilers: nat
    const quiet: bool // nobody else acts, no call fails, every read is fresh

    /** The state is what some run of the protocol reaches. */
    ghost predicate Valid()
      reads this
    {
      s == Run(Init(uid, maxAttempts, reconcilers), log)
    }

    lemma Invariant()
      requires Valid()
      ensures Inv(s)
    {
      InitOk(uid, maxAttempts, reconcilers);
      RunKeeps(Init(uid, maxAttempts, reconcilers), log);
    }

    constructor (uid: int, maxAttempts: int, reconcilers: nat, quiet: bool)
      ensures Valid() && s == Init(uid, maxAttempts, reconcilers) && this.quiet == quiet
    {
      s := Init(uid, maxAttempts, reconcilers);
      this.uid, this.maxAttempts, this.reconcilers := uid, maxAttempts, reconcilers;
      log := [];
      this.quiet := quiet;
    }

    /** The server has moved on from `before` by steps of the protocol. */
    ghost predicate Grown(before: System)
      reads this
    {
      Valid() && Extends(before, s) && |s.pcs| == |before.pcs|
    }

    /** ... by exactly this step. */
    ghost predicate Did(before: System, a: Action)
      reads this
    {
      Grown(before) && s == Apply(before, a)
    }

    /** The pass of reconciler r is over. */
    ghost predicate Stopped(before: System, r: int)
      reads this
    {
      Grown(before) && 0 <= r < |s.pcs| && s.pcs[r] == Idle
    }

    /** What an undisturbed pass of reconciler r amounts to. */
    lemma FreshPass(r: int)
      requires Valid() && 0 <= r < |s.pcs| && s.pcs[r] == Idle
      ensures |s.jobs| > 0 && Run(s, FreshReconcile(s, r)) == Next(Next(First(s, r), r), r)
      ensures InRange(Snap(s, r), Snap(s, r).pcs[r]) && OwnsAll(Snap(s, r), |s.jobs| - 1, Newest(s)) && First(s, r) == FirstOf(Snap(s, r), r)
    {
      Invariant();
      FreshIsFirst(s, r);
      SnapOk(s, r);
    }

    /** A pass whose active attempt is already terminal does not look at pods. */
    lemma TerminalIgnoresPods(r: int, ji: int, name: int, ai: int)
      requires Valid() && 0 <= r < |s.pcs| && InRange(s, s.pcs[r]) && s.pcs[r].Loaded? && s.pcs[r].ji == ji
      requires name in s.pcs[r].listed && s.pcs[r].listed[name] == ai && Terminal(s.attempts[name][ai].conds)
      requires !Terminal(s.jobs[ji].conds) && s.jobs[ji].active.Some? && s.jobs[ji].active.value.name == name
      ensures Apply(s, Advance(r, PodNow(s, name), None)) == Next(s, r)
      ensures Step(s, r, None, None) == SetPc(s, r, AttemptDone(ji, name, ai))
    {
      Invariant();
      NeverDisowned(s, ji, s.pcs[r].listed);
    }

    method Act(a: Action)
      requires Valid()
      modifies this
      ensures Did(old(s), a)
    {
      assert Extends(s, Apply(s, a)) by {
        Invariant();
        ApplyKeeps(s, a);
      }
      RunAppend(Init(uid, maxAttempts, reconcilers), log, [a]);
      assert Run(s, [a]) == Run(Apply(s, a), [a][1..]) == Apply(s, a);
      SameReconcilers(s, a);
      s := Apply(s, a);
      log := log + [a];
    }

    /** What everybody else does between two calls of reconciler r: any steps, or none. */
    method Others(r: int)
      requires Valid() && 0 <= r < |s.pcs|
      modifies this
      ensures Grown(old(s)) && s.pcs[r] == old(s).pcs[r]
      ensures quiet ==> s == old(s)
    {
    }

    /** LoadJobSnapshot: some version of the job and some versions of some attempts. */
    method LoadSnapshot(r: int) returns (job: Job, rv: int, attempts: map<int, Attempt>, versions: map<int, int>)
      requires Valid() && 0 <= r < |s.pcs| && s.pcs[r] == Idle
      modifies this
      ensures Did(old(s), Load(r, rv, versions)) && s.pcs[r] == Loaded(rv, versions) && InRange(s, s.pcs[r])
      ensures job == s.jobs[rv]
      ensures attempts.Keys == versions.Keys && forall n | n in versions :: attempts[n] == s.attempts[n][versions[n]]
      ensures quiet ==> s == Snap(old(s), r)
    {
      assert |s.jobs| > 0 && forall n | n in s.attempts :: |s.attempts[n]| > 0 by {
        Invariant();
        forall n | n in s.attempts ensures |s.attempts[n]| > 0 {
          assert VersionsOk(s.seen, s.jobs[0].uid, n, s.attempts[n]);
        }
      }
      rv := |s.jobs| - 1;
      job := s.jobs[rv];
      versions := map n | n in s.attempts :: |s.attempts[n]| - 1;
      assert versions == Newest(s);
      attempts := map n | n in s.attempts :: s.attempts[n][|s.attempts[n]| - 1];
      Act(Load(r, rv, versions));
    }

    /** A cached read of a pod: some state it has had, or nothing. */
    method CachedPod(name: int) returns (pod: Option<Pod>)
      requires Valid()
      ensures pod.Some? ==> pod.value in s.seen && pod.value.name == name
      ensures quiet ==> pod == PodNow(s, name)
    {
      pod := if name in s.pods then Some(s.pods[name]) else None;
      assert pod.Some? ==> pod.value in s.seen && pod.value.name == name by {
        Invariant();
      }
    }

    method UpdateJob(r: int, rv: int, job: Job, obs: Option<Pod>) returns (ok: bool)
      requires Valid() && Enabled(s, Advance(r, obs, None))
      requires Step(s, r, obs, None) == WriteJob(s, r, rv, job, Idle)
      modifies this
      ensures Stopped(old(s), r)
      ensures ok ==> Did(old(s), Advance(r, obs, None)) && s.jobs == old(s).jobs + [job]
      ensures quiet && rv == |old(s).jobs| - 1 ==> ok
    {
      ok := rv == |s.jobs| - 1;
      Act(Advance(r, obs, None));
    }

    method UpdateAttempt(r: int, name: int, rv: int, a: Attempt, obs: Option<Pod>, ghost next: Pc) returns (ok: bool)
      requires Valid() && Enabled(s, Advance(r, obs, None)) && name in s.attempts && rv >= 0
      requires Step(s, r, obs, None) == WriteAttempt(s, r, name, rv, a, next)
      modifies this
      ensures !ok ==> Stopped(old(s), r)
      ensures ok ==> Did(old(s), Advance(r, obs, None)) && s.pcs[r] == next
      ensures ok ==> name in s.attempts && s.attempts[name] == old(s).attempts[name] + [a] && rv == |old(s).attempts[name]| - 1
      ensures quiet && rv == |old(s).attempts[name]| - 1 ==> ok
    {
      ok := rv == |s.attempts[name]| - 1;
      Act(Advance(r, obs, None));
    }

    /** Get the attempt of this name, or create it. */
    method GetOrCreateAttempt(r: int, rv: int, ordinal: int, retry: bool) returns (ref: AttemptRef, ok: bool)
      requires Valid() && Enabled(s, Advance(r, None, None)) && 0 <= rv < |s.jobs|
      requires Step(s, r, None, None) == GetOrCreate(s, r, rv, ordinal, retry)
      modifies this
      ensures !ok ==> Stopped(old(s), r)
      ensures ok ==> Did(old(s), Advance(r, None, None)) && s.pcs[r] == Created(rv, ordinal, retry)
      ensures ok ==> ordinal in s.attempts && s.attempts[ordinal] != [] && ref == RefTo(s, ordinal)
      ensures quiet ==> ok
    {
      Act(Advance(r, None, None));
      assert s.attempts[ordinal] != [] by {
        Invariant();
        assert VersionsOk(s.seen, s.jobs[0].uid, ordinal, s.attempts[ordinal]);
      }
      ref := RefTo(s, ordinal);
      ok := true;
    }

    /** Reconciler r holds a snapshot whose active attempt, version ai of `name`, has no pod on record. */
    ghost predicate WantsPod(r: int, ji: int, name: int, ai: int)
      reads this
    {
      && 0 <= r < |s.pcs| && InRange(s, AttemptDone(ji, name, ai)) && s.attempts[name][ai].pod.None?
      && s.pcs[r].Loaded? && s.pcs[r].ji == ji && InRange(s, s.pcs[r])
      && s.jobs[ji].active.Some? && s.jobs[ji].active.value.name == name
      && forall obs, again :: Step(s, r, obs, again) == AttemptStep(s, r, ji, name, ai, obs, again)
    }

    /** Create the pod; if the name is taken, read the pod that has it. */
    method CreatePod(r: int, ghost ji: int, name: int, ghost ai: int) returns (pod: Pod, ok: bool)
      requires Valid() && WantsPod(r, ji, name, ai)
      modifies this
      ensures !ok ==> Stopped(old(s), r)
      ensures ok ==> Grown(old(s)) && s.pcs[r] == HavePod(ji, name, ai, pod)
      ensures quiet && name !in old(s).pods ==>
                ok && Did(old(s), Advance(r, None, None)) && s.attempts == old(s).attempts
    {
      var again := None;
      if name in s.pods {
        again := CachedPod(name);
      }
      Act(Advance(r, None, again));
      ok := s.pcs[r].HavePod?;
      pod := if ok then s.pcs[r].pod else Pod(name, 0, Pending);
    }

    /** A step that writes nothing. */
    method Note(r: int, obs: Option<Pod>, ghost next: Pc)
      requires Valid() && Enabled(s, Advance(r, obs, None))
      requires Step(s, r, obs, None) == SetPc(s, r, next)
      modifies this
      ensures Did(old(s), Advance(r, obs, None)) && s.pcs[r] == next
    {
      Act(Advance(r, obs, None));
    }
  }

  lemma SameReconcilers(s: System, a: Action)
    ensures |Apply(s, a).pcs| == |s.pcs|
  {
    if Enabled(s, a) && a.Advance? {
      match s.pcs[a.r]
      case Loaded(ji, listed) => SameReconcilersLoaded(s, a.r, ji, listed, a.obs, a.again);
      case _ =>
    }
  }

  lemma SameReconcilersLoaded(s: System, r: int, ji: int, listed: map<int, int>, obs: Option<Pod>, again: Option<Pod>)
    requires 0 <= r < |s.pcs| && InRange(s, Loaded(ji, listed))
    ensures |LoadedStep(s, r, ji, listed, obs, again).pcs| == |s.pcs|
  {
  }

  /** createAttempt: the ordinal comes from the (possibly just incremented) counters. */
  method CreateAttempt(api: ApiServer, r: int, rv: int, job: Job, retry: bool) returns (ref: AttemptRef, ok: bool)
    requires api.Valid() && Enabled(api.s, Advance(r, None, None)) && 0 <= rv < |api.s.jobs|
    requires Step(api.s, r, None, None) == GetOrCreate(api.s, r, rv, job.failed + job.completed + 1, retry)
    modifies api
    ensures !ok ==> api.Stopped(old(api.s), r)
    ensures ok ==>
              var o := job.failed + job.completed + 1;
              && api.Did(old(api.s), Advance(r, None, None)) && api.s.pcs[r] == Created(rv, o, retry)
              && o in api.s.attempts && api.s.attempts[o] != [] && ref == RefTo(api.s, o)
    ensures api.quiet ==> ok
  {
    var ordinal := job.failed + job.completed + 1;
    ref, ok := api.GetOrCreateAttempt(r, rv, ordinal, retry);
  }

  /** Write the job that names the attempt in hand. */
  method NameActive(api: ApiServer, r: int, rv: int, job: Job, ref: AttemptRef, ghost name: int, retry: bool)
    returns (err: bool)
    requires api.Valid() && 0 <= r < |api.s.pcs| && api.s.pcs[r] == Created(rv, name, retry) && InRange(api.s, api.s.pcs[r])
    requires ref == RefTo(api.s, name)
    requires job == if retry then api.s.jobs[rv].(failed := api.s.jobs[rv].failed + 1) else api.s.jobs[rv]
    modifies api
    ensures api.Stopped(old(api.s), r)
    ensures api.quiet && rv == |old(api.s).jobs| - 1 ==> !err && api.s == Next(old(api.s), r)
  {
    var j := job.(active := Some(ref));
    if retry {
      j := j.(conds := Set(j.conds, Condition(CondType.Running, false, Retrying)));
      j := j.(conds := Set(j.conds, Condition(Scheduled, true, Retrying)));
    } else {
      j := j.(conds := Set(j.conds, Condition(Scheduled, true, AttemptCreated)));
    }
    api.Others(r);
    assert api.s.attempts[name][0] == old(api.s).attempts[name][0];
    var ok := api.UpdateJob(r, rv, j, None);
    err := !ok;
  }

  /** The active attempt is terminal: the job is complete, is out of retries, or gets its next attempt. */
  method DecideTerminal(api: ApiServer, r: int, rv: int, job: Job, ghost name: int, ghost ai: int, a: Attempt)
    returns (err: bool)
    requires api.Valid() && 0 <= r < |api.s.pcs| && api.s.pcs[r] == AttemptDone(rv, name, ai) && InRange(api.s, api.s.pcs[r])
    requires job == api.s.jobs[rv] && a == api.s.attempts[name][ai]
    modifies api
    ensures api.Stopped(old(api.s), r)
    ensures api.quiet && rv == |old(api.s).jobs| - 1 ==> !err && api.s == Next(Next(old(api.s), r), r)
  {
    api.Others(r);
    if IsTrue(a.conds, Complete) {
      err := EndJob(api, r, rv, job, name, ai, true);
    } else if job.failed + 1 < job.maxAttempts {
      err := RetryJob(api, r, rv, job, name, ai);
    } else {
      err := EndJob(api, r, rv, job, name, ai, false);
    }
  }

  /** Count the attempt and write the verdict. */
  method EndJob(api: ApiServer, r: int, rv: int, job: Job, ghost name: int, ghost ai: int, succeeded: bool)
    returns (err: bool)
    requires api.Valid() && 0 <= r < |api.s.pcs| && api.s.pcs[r] == AttemptDone(rv, name, ai) && InRange(api.s, api.s.pcs[r])
    requires job == api.s.jobs[rv] && succeeded == IsTrue(api.s.attempts[name][ai].conds, Complete)
    requires succeeded || job.failed + 1 >= job.maxAttempts
    modifies api
    ensures api.Stopped(old(api.s), r)
    ensures api.quiet && rv == |old(api.s).jobs| - 1 ==> !err && api.s == Next(old(api.s), r)
  {
    var j := job;
    if succeeded {
      j := j.(completed := j.completed + 1);
      var (conds, _) := TrySetTerminal(j.conds, Condition(Complete, true, Reason.Succeeded));
      j := j.(conds := conds);
    } else {
      j := j.(failed := j.failed + 1);
      var (conds, _) := TrySetTerminal(j.conds, Condition(CondType.Failed, true, RetriesExhausted));
      j := j.(conds := conds);
    }
    var ok := api.UpdateJob(r, rv, j, None);
    err := !ok;
  }

  /** Count the failure, then get or create the next attempt and write it into the job. */
  method RetryJob(api: ApiServer, r: int, rv: int, job: Job, ghost name: int, ghost ai: int) returns (err: bool)
    requires api.Valid() && 0 <= r < |api.s.pcs| && api.s.pcs[r] == AttemptDone(rv, name, ai) && InRange(api.s, api.s.pcs[r])
    requires job == api.s.jobs[rv] && !IsTrue(api.s.attempts[name][ai].conds, Complete)
    requires job.failed + 1 < job.maxAttempts
    modifies api
    ensures api.Stopped(old(api.s), r)
    ensures api.quiet && rv == |old(api.s).jobs| - 1 ==> !err && api.s == Next(Next(old(api.s), r), r)
  {
    var j := job.(failed := job.failed + 1);
    var ref, ok := CreateAttempt(api, r, rv, j, true);
    if !ok {
      return true;
    }
    err := NameActive(api, r, rv, j, ref, j.failed + j.completed + 1, true);
  }

  /** What ReconcileAttempt may assume: reconciler r has read version ai of the live job's active attempt. */
  ghost predicate ReadsAttempt(api: ApiServer, r: int, rv: int, name: int, ai: int)
    reads api
  {
    && api.Valid() && 0 <= r < |api.s.pcs| && AtAttempt(api.s, rv, name, ai)
    && api.s.pcs[r].Loaded? && api.s.pcs[r].ji == rv && InRange(api.s, api.s.pcs[r])
    && name in api.s.pcs[r].listed && api.s.pcs[r].listed[name] == ai
  }

  lemma StepIsAttemptStep(api: ApiServer, r: int, rv: int, name: int, ai: int)
    requires ReadsAttempt(api, r, rv, name, ai)
    ensures forall obs, again :: Step(api.s, r, obs, again) == AttemptStep(api.s, r, rv, name, ai, obs, again)
    ensures api.s.attempts[name][ai].started ==> api.s.attempts[name][ai].pod.Some?
    ensures api.s.attempts[name][ai].pod.Some? ==> api.s.attempts[name][ai].pod.value.name == name
  {
    api.Invariant();
    NeverDisowned(api.s, rv, api.s.pcs[r].listed);
    assert api.s.attempts[name][ai] in api.s.attempts[name];
  }

  /** ReconcileAttempt for an attempt that has no pod on record: find or create the pod, then record it. */
  method EnsurePod(api: ApiServer, r: int, ghost rv: int, name: int, ai: int, attempt: Attempt, found: Option<Pod>)
    returns (err: bool)
    requires ReadsAttempt(api, r, rv, name, ai) && attempt == api.s.attempts[name][ai] && attempt.pod.None?
    requires found.Some? ==> found.value in api.s.seen && found.value.name == name
    requires api.quiet ==> found == PodNow(api.s, name)
    modifies api
    ensures api.Stopped(old(api.s), r)
    ensures api.quiet && ai == |old(api.s).attempts[name]| - 1 ==>
              !err && api.s == Next(Apply(old(api.s), Advance(r, PodNow(old(api.s), name), None)), r)
  {
    var pod, ok := FindOrCreatePod(api, r, rv, name, ai, attempt, found);
    if !ok {
      return true;
    }
    api.Others(r);
    assert api.s.attempts[name][ai] == attempt;
    var a := attempt.(pod := Some(PodRef(pod.name, pod.uid)));
    a := a.(conds := Set(a.conds, Condition(PodCreated, true, PodMade)));
    ok := api.UpdateAttempt(r, name, ai, a, None, Idle);
    err := !ok;
  }

  method FindOrCreatePod(api: ApiServer, r: int, ghost rv: int, name: int, ghost ai: int, ghost attempt: Attempt,
                         found: Option<Pod>)
    returns (pod: Pod, ok: bool)
    requires ReadsAttempt(api, r, rv, name, ai) && attempt == api.s.attempts[name][ai] && attempt.pod.None?
    requires found.Some? ==> found.value in api.s.seen && found.value.name == name
    requires api.quiet ==> found == PodNow(api.s, name)
    modifies api
    ensures !ok ==> api.Stopped(old(api.s), r)
    ensures ok ==> api.Grown(old(api.s)) && api.s.pcs[r] == HavePod(rv, name, ai, pod) && InRange(api.s, api.s.pcs[r])
    ensures api.quiet ==> ok && api.s == Apply(old(api.s), Advance(r, PodNow(old(api.s), name), None))
                          && api.s.attempts == old(api.s).attempts
  {
    StepIsAttemptStep(api, r, rv, name, ai);
    var existing := found;
    if existing.None? {
      existing := api.CachedPod(name);
    }
    if existing.Some? {
      pod, ok := existing.value, true;
      api.Note(r, existing, HavePod(rv, name, ai, pod));
    } else {
      pod, ok := api.CreatePod(r, rv, name, ai);
    }
  }

  /** What the pod says about the attempt that has it on record. */
  datatype Verdict = Waiting | StartsNow | Succeeds | Fails | Lost

  function VerdictOf(a: Attempt, found: Option<Pod>): Verdict
    requires a.pod.Some?
  {
    if found.None? || found.value.uid != a.pod.value.uid then Lost
    else
      match found.value.phase
      case Pending => Waiting
      case Running => if a.started then Waiting else StartsNow
      case Succeeded => Succeeds
      case Failed => Fails
  }

  /** The protocol's step, told by the verdict. */
  lemma VerdictStep(s: System, r: int, rv: int, name: int, ai: int, found: Option<Pod>)
    requires 0 <= r < |s.pcs| && InRange(s, AttemptDone(rv, name, ai)) && s.attempts[name][ai].pod.Some?
    ensures var a, done := s.attempts[name][ai], AttemptDone(rv, name, ai + 1);
            AttemptStep(s, r, rv, name, ai, found, None)
              == match VerdictOf(a, found)
                 case Waiting => SetPc(s, r, if a.started then RunningNote(rv) else Idle)
                 case StartsNow => WriteAttempt(s, r, name, ai, MarkRunning(a), RunningNote(rv))
                 case Succeeds => WriteAttempt(s, r, name, ai, MarkSucceeded(a), done)
                 case Fails => WriteAttempt(s, r, name, ai, MarkFailed(a, true), done)
                 case Lost => WriteAttempt(s, r, name, ai, MarkFailed(a, false), done)
  {
  }

  /** The attempt's new status, when there is one. */
  method MarkAttempt(attempt: Attempt, found: Option<Pod>) returns (a: Attempt, terminal: bool, changed: bool)
    requires attempt.pod.Some?
    ensures changed <==> !VerdictOf(attempt, found).Waiting?
    ensures terminal <==> changed && !VerdictOf(attempt, found).StartsNow?
    ensures var here := found.Some? && found.value.uid == attempt.pod.value.uid;
            && (terminal <==> !here || found.value.phase == Phase.Succeeded || found.value.phase == Phase.Failed)
            && (here && found.value.phase == Phase.Succeeded ==> a.started && HasCond(a.conds, Complete, true, Reason.PodSucceeded))
            && (!here || found.value.phase == Phase.Failed ==> HasCond(a.conds, CondType.Failed, true, AttemptFailed))
            && (here && found.value.phase == Phase.Running ==> a.started)
            && (here && found.value.phase == Pending ==> a == attempt)
    ensures a == match VerdictOf(attempt, found)
                 case Waiting => attempt
                 case StartsNow => MarkRunning(attempt)
                 case Succeeds => MarkSucceeded(attempt)
                 case Fails => MarkFailed(attempt, true)
                 case Lost => MarkFailed(attempt, false)
  {
    a, terminal, changed := attempt, true, true;
    if found.None? || found.value.uid != attempt.pod.value.uid {
      a := a.(conds := Set(a.conds, Condition(CondType.Failed, true, AttemptFailed)));
      return;
    }
    match found.value.phase
    case Running =>
      terminal, changed := false, !a.started;
      if !a.started {
        a := a.(started := true);
        a := a.(conds := Set(a.conds, Condition(CondType.Running, true, PodRunning)));
      }
    case Succeeded =>
      a := a.(started := true);
      a := a.(conds := Set(a.conds, Condition(CondType.Running, true, PodRunning)));
      a := a.(conds := Set(a.conds, Condition(Complete, true, Reason.PodSucceeded)));
    case Failed =>
      a := a.(started := true);
      a := a.(conds := Set(a.conds, Condition(CondType.Failed, true, AttemptFailed)));
    case Pending =>
      terminal, changed := false, false;
  }

  /** ReconcileAttempt for an attempt with a pod on record: fence it by UID, then follow its phase. */
  method ObservePod(api: ApiServer, r: int, ghost rv: int, name: int, ai: int, attempt: Attempt, found: Option<Pod>)
    returns (terminal: bool, a: Attempt, err: bool)
    requires ReadsAttempt(api, r, rv, name, ai) && attempt == api.s.attempts[name][ai] && attempt.pod.Some?
    requires found.Some? ==> found.value in api.s.seen && found.value.name == name
    modifies api
    ensures err ==> api.Stopped(old(api.s), r)
    ensures !err ==> api.Did(old(api.s), Advance(r, found, None)) || (api.Grown(old(api.s)) && !api.quiet)
    ensures !err && terminal ==> && api.s.pcs[r] == AttemptDone(rv, name, ai + 1) && InRange(api.s, api.s.pcs[r])
                                 && api.s.attempts[name][ai + 1] == a
    ensures !err && !terminal ==> api.s.pcs[r] == if a.started then RunningNote(rv) else Idle
    ensures api.quiet && ai == |old(api.s).attempts[name]| - 1 ==> !err && api.s.jobs == old(api.s).jobs
    ensures var here := found.Some? && found.value.uid == attempt.pod.value.uid;
            && (terminal <==> !here || found.value.phase == Phase.Succeeded || found.value.phase == Phase.Failed)
            && (here && found.value.phase == Phase.Succeeded ==> HasCond(a.conds, Complete, true, Reason.PodSucceeded))
            && (!here || found.value.phase == Phase.Failed ==> HasCond(a.conds, CondType.Failed, true, AttemptFailed))
  {
    hide AttemptStep, Step, VerdictOf, ApiServer.Valid;
    var changed;
    a, terminal, changed := MarkAttempt(attempt, found);
    if !changed {
      StepIsAttemptStep(api, r, rv, name, ai);
      VerdictStep(api.s, r, rv, name, ai, found);
      api.Note(r, found, if a.started then RunningNote(rv) else Idle);
      return terminal, a, false;
    }
    api.Others(r);
    StepIsAttemptStep(api, r, rv, name, ai);
    VerdictStep(api.s, r, rv, name, ai, found);
    var ok := api.UpdateAttempt(r, name, ai, a, found, if terminal then AttemptDone(rv, name, ai + 1) else RunningNote(rv));
    err := !ok;
  }

  /** Steps 6 and 7 of Reconcile: follow the active attempt, then decide. */
  method ReconcileActive(api: ApiServer, r: int, rv: int, job: Job, name: int, ai: int, attempt: Attempt)
    returns (err: bool)
    requires api.Valid() && 0 <= r < |api.s.pcs| && InRange(api.s, api.s.pcs[r])
    requires api.s.pcs[r].Loaded? && api.s.pcs[r].ji == rv && OwnsAll(api.s, rv, api.s.pcs[r].listed)
    requires name in api.s.pcs[r].listed && api.s.pcs[r].listed[name] == ai
    requires job == api.s.jobs[rv] && !Terminal(job.conds) && job.active.Some? && job.active.value.name == name
    requires attempt == api.s.attempts[name][ai]
    modifies api
    ensures api.Stopped(old(api.s), r)
    ensures api.quiet && rv == |old(api.s).jobs| - 1 && ai == |old(api.s).attempts[name]| - 1 ==>
              !err && api.s == Next(Next(Apply(old(api.s), Advance(r, PodNow(old(api.s), name), None)), r), r)
  {
    if Terminal(attempt.conds) {
      api.TerminalIgnoresPods(r, rv, name, ai);
      api.Note(r, None, AttemptDone(rv, name, ai));
      err := DecideTerminal(api, r, rv, job, name, ai, attempt);
      return;
    }
    var pod := api.CachedPod(name);
    if attempt.pod.None? {
      err := EnsurePod(api, r, rv, name, ai, attempt, pod);
      return;
    }
    err := FollowPod(api, r, rv, job, name, ai, attempt, pod);
  }

  /** Observe the recorded pod, then decide, or note in the job that it runs. */
  method FollowPod(api: ApiServer, r: int, rv: int, job: Job, name: int, ai: int, attempt: Attempt, found: Option<Pod>)
    returns (err: bool)
    requires ReadsAttempt(api, r, rv, name, ai) && attempt == api.s.attempts[name][ai] && attempt.pod.Some?
    requires found.Some? ==> found.value in api.s.seen && found.value.name == name
    requires api.quiet ==> found == PodNow(api.s, name)
    requires job == api.s.jobs[rv]
    modifies api
    ensures api.Stopped(old(api.s), r)
    ensures api.quiet && rv == |old(api.s).jobs| - 1 && ai == |old(api.s).attempts[name]| - 1 ==>
              !err && api.s == Next(Next(Apply(old(api.s), Advance(r, PodNow(old(api.s), name), None)), r), r)
  {
    hide Step, AttemptStep, Apply, ApiServer.Valid;
    var pod := found;
    if pod.None? {
      assert attempt.pod.value.name == name by {
        StepIsAttemptStep(api, r, rv, name, ai);
      }
      pod := api.CachedPod(attempt.pod.value.name);
    }
    var terminal, a;
    terminal, a, err := ObservePod(api, r, rv, name, ai, attempt, pod);
    if err {
      return;
    }
    if terminal {
      err := DecideTerminal(api, r, rv, job, name, ai + 1, a);
    } else if a.started {
      err := NoteRunning(api, r, rv, job);
      IdleStays(api.s, r);
    } else {
      IdleStays(api.s, r);
    }
  }

  lemma IdleStays(s: System, r: int)
    requires 0 <= r < |s.pcs| && s.pcs[r] == Idle
    ensures Next(s, r) == s
  {
  }

  /** The attempt has started: the job's Running condition says so. */
  method NoteRunning(api: ApiServer, r: int, rv: int, job: Job) returns (err: bool)
    requires api.Valid() && 0 <= r < |api.s.pcs| && api.s.pcs[r] == RunningNote(rv) && 0 <= rv < |api.s.jobs|
    requires job == api.s.jobs[rv]
    modifies api
    ensures api.Stopped(old(api.s), r)
    ensures api.quiet && rv == |old(api.s).jobs| - 1 ==> !err && api.s == Next(old(api.s), r)
  {
    var j := job.(conds := Set(job.conds, Condition(CondType.Running, true, PodRunning)));
    api.Others(r);
    var ok := api.UpdateJob(r, rv, j, None);
    err := !ok;
  }

  /** The pass after its snapshot is loaded. */
  method ReconcileSnapshot(api: ApiServer, r: int, rv: int, job: Job, attempts: map<int, Attempt>, versions: map<int, int>)
    returns (err: bool)
    requires api.Valid() && 0 <= r < |api.s.pcs| && api.s.pcs[r] == Loaded(rv, versions) && InRange(api.s, api.s.pcs[r])
    requires job == api.s.jobs[rv] && attempts.Keys == versions.Keys
    requires forall n | n in versions :: attempts[n] == api.s.attempts[n][versions[n]]
    modifies api
    ensures api.Stopped(old(api.s), r)
    ensures api.quiet && rv == |old(api.s).jobs| - 1 && versions == Newest(old(api.s)) && OwnsAll(old(api.s), rv, versions) ==>
              !err && api.s == Next(Next(FirstOf(old(api.s), r), r), r)
  {
    if Terminal(job.conds) {
      api.Note(r, None, Idle);
      return false;
    }
    if exists n | n in attempts :: attempts[n].jobUid != job.uid {
      err := DisownJob(api, r, rv, job, versions);
      return;
    }
    if job.active.None? || job.active.value.name !in attempts {
      err := CreateFirst(api, r, rv, job, versions);
      return;
    }
    var name := job.active.value.name;
    err := ReconcileActive(api, r, rv, job, name, versions[name], attempts[name]);
  }

  /** A child of another incarnation was found: the job fails. */
  method DisownJob(api: ApiServer, r: int, rv: int, job: Job, ghost versions: map<int, int>) returns (err: bool)
    requires api.Valid() && 0 <= r < |api.s.pcs| && api.s.pcs[r] == Loaded(rv, versions) && InRange(api.s, api.s.pcs[r])
    requires job == api.s.jobs[rv] && !Terminal(job.conds) && !OwnsAll(api.s, rv, versions)
    modifies api
    ensures api.Stopped(old(api.s), r)
  {
    var (conds, isSet) := TrySetTerminal(job.conds, Condition(CondType.Failed, true, OwnershipViolation));
    var ok := isSet;
    if isSet {
      ok := api.UpdateJob(r, rv, job.(conds := conds), None);
    }
    err := !ok;
  }

  lemma OwnsAllStays(s: System, t: System, rv: int, versions: map<int, int>)
    requires InRange(s, Loaded(rv, versions)) && OwnsAll(s, rv, versions) && Extends(s, t)
    ensures InRange(t, Loaded(rv, versions)) && OwnsAll(t, rv, versions) && t.jobs[rv] == s.jobs[rv]
  {
  }

  lemma FirstIsGetOrCreate(s: System, r: int, rv: int, versions: map<int, int>)
    requires 0 <= r < |s.pcs| && s.pcs[r] == Loaded(rv, versions) && InRange(s, s.pcs[r]) && OwnsAll(s, rv, versions)
    requires !Terminal(s.jobs[rv].conds) && (s.jobs[rv].active.None? || s.jobs[rv].active.value.name !in versions)
    ensures Step(s, r, None, None) == GetOrCreate(s, r, rv, s.jobs[rv].failed + s.jobs[rv].completed + 1, false)
    ensures Enabled(s, Advance(r, None, None))
  {
    hide OwnsAll;
  }

  /** No active attempt in the snapshot: get or create the one the counters name, and write it into the job. */
  method CreateFirst(api: ApiServer, r: int, rv: int, job: Job, ghost versions: map<int, int>) returns (err: bool)
    requires api.Valid() && 0 <= r < |api.s.pcs| && api.s.pcs[r] == Loaded(rv, versions) && InRange(api.s, api.s.pcs[r])
    requires job == api.s.jobs[rv] && !Terminal(job.conds) && OwnsAll(api.s, rv, versions)
    requires job.active.None? || job.active.value.name !in versions
    modifies api
    ensures api.Stopped(old(api.s), r)
    ensures api.quiet && rv == |old(api.s).jobs| - 1 ==> !err && api.s == Next(Next(old(api.s), r), r)
  {
    hide Step, ApiServer.Valid, OwnsAll;
    api.Others(r);
    OwnsAllStays(old(api.s), api.s, rv, versions);
    FirstIsGetOrCreate(api.s, r, rv, versions);
    var ref, ok := CreateAttempt(api, r, rv, job, false);
    if !ok {
      return true;
    }
    err := NameActive(api, r, rv, job, ref, job.failed + job.completed + 1, false);
  }

  /** One pass of Reconcile by reconciler r. Whatever happens around it, every write it makes is a step of the
      protocol; undisturbed, it is the fault-free reconcile of module ClusterProgress. */
  method Reconcile(api: ApiServer, r: int) returns (err: bool)
    requires api.Valid() && 0 <= r < |api.s.pcs| && api.s.pcs[r] == Idle
    modifies api
    ensures api.Stopped(old(api.s), r)
    ensures api.quiet ==> !err && |old(api.s).jobs| > 0 && api.s == Run(old(api.s), FreshReconcile(old(api.s), r))
    ensures api.quiet ==> PassOutcome(old(api.s), api.s)
  {
    hide PassOutcome, ApiServer.Valid, Run, FreshReconcile, Next;
    api.FreshPass(r);
    assert PassOutcome(api.s, Run(api.s, FreshReconcile(api.s, r))) by {
      api.Invariant();
      PassComesTo(api.s, r);
    }
    var job, rv, attempts, versions := api.LoadSnapshot(r);
    err := ReconcileSnapshot(api, r, rv, job, attempts, versions);
  }
}
