/** What the scheduler and a worker come to when nobody interferes, and when a job may fail
    (internal/scheduler/reconciler.go:89-224, internal/worker/worker.go:82-110, 349-367). */
module SchedulerPasses {
  import opened Scheduler
  import opened SchedulerHistory

  const NEW_ATTEMPT := Attempt(New, [], [New])

  /** The scheduler's own steps, n of them. */
  function Go(s: State, n: nat): State {
    if n == 0 then s else Apply(Go(s, n - 1), SchedulerStep)
  }

  lemma FirstSteps(s: State)
    ensures Go(s, 1) == Apply(s, SchedulerStep)
    ensures Go(s, 2) == Apply(Apply(s, SchedulerStep), SchedulerStep)
    ensures Go(s, 3) == Apply(Apply(Apply(s, SchedulerStep), SchedulerStep), SchedulerStep)
  {
    hide Apply;
    assert Go(s, 0) == s;
    assert Go(s, 1) == Apply(Go(s, 0), SchedulerStep);
    assert Go(s, 2) == Apply(Go(s, 1), SchedulerStep);
  }

  /** A pending job without attempts is given its first one and is Scheduled. */
  lemma PendingIsScheduled(s: State)
    requires s.scheduler.Resting? && s.job.Pending? && s.attempts == []
    ensures var t := Go(Apply(s, ListPending), 2);
            && t.attempts == [NEW_ATTEMPT] && t.job.Scheduled? && t.scheduler.Resting? && t.workers == s.workers
  {
    FirstSteps(Apply(s, ListPending));
    var a := Apply(Apply(s, ListPending), SchedulerStep);
    assert a.attempts == [NEW_ATTEMPT];
    assert a == CreateAttempt(Apply(s, ListPending)).(scheduler := Created(Pending));
  }

  /** What a running job becomes when its last attempt has ended badly: while attempts are left it gets a new one and is
      Scheduled again; when MaxRetries + 1 are used up it is Failed. */
  ghost predicate RetriedOrFailed(s: State, t: State) {
    && t.scheduler.Resting? && t.workers == s.workers && t.maxRetries == s.maxRetries
    && if |s.attempts| < s.maxRetries + 1 then t.attempts == s.attempts + [NEW_ATTEMPT] && t.job.Scheduled?
       else t.attempts == s.attempts && t.job.Failed?
  }

  lemma Retries(s: State)
    requires s.scheduler.Retrying? && s.job.Running? && |s.attempts| < s.maxRetries + 1
    ensures RetriedOrFailed(s, Go(s, 3))
  {
    FirstSteps(s);
    var a := Apply(s, SchedulerStep);
    var b := Apply(a, SchedulerStep);
    assert a == s.(scheduler := Creating);
    assert b == CreateAttempt(a).(scheduler := Created(JobState.Running));
  }

  lemma GivesUp(s: State)
    requires s.scheduler.Retrying? && s.job.Running? && |s.attempts| >= s.maxRetries + 1
    ensures RetriedOrFailed(s, Go(s, 2))
  {
    FirstSteps(s);
    assert Apply(s, SchedulerStep) == s.(scheduler := GivingUp);
  }

  lemma {:induction false} GoOn(s: State, m: nat, n: nat)
    ensures Go(Go(s, m), n) == Go(s, m + n)
    decreases n
  {
    hide Apply;
    if n > 0 {
      GoOn(s, m, n - 1);
    }
  }

  /** A running job whose last attempt failed. */
  lemma FailedIsRetried(s: State)
    requires s.scheduler.Resting? && s.job.Running? && s.attempts != [] && s.attempts[|s.attempts| - 1].state.AttemptFailed?
    ensures RetriedOrFailed(s, Go(Apply(s, ListRunning), if |s.attempts| < s.maxRetries + 1 then 4 else 3))
  {
    hide RetriedOrFailed;
    FirstSteps(Apply(s, ListRunning));
    var a := Apply(Apply(s, ListRunning), SchedulerStep);
    assert a == s.(scheduler := Retrying);
    if |s.attempts| < s.maxRetries + 1 {
      Retries(a);
      GoOn(Apply(s, ListRunning), 1, 3);
    } else {
      GivesUp(a);
      GoOn(Apply(s, ListRunning), 1, 2);
    }
    assert RetriedOrFailed(s, Go(Apply(s, ListRunning), if |s.attempts| < s.maxRetries + 1 then 4 else 3)) by {
      SameStart(s, a, Go(Apply(s, ListRunning), if |s.attempts| < s.maxRetries + 1 then 4 else 3));
    }
  }

  lemma SameStart(s: State, a: State, t: State)
    requires RetriedOrFailed(a, t) && a.attempts == s.attempts && a.maxRetries == s.maxRetries && a.workers == s.workers
    ensures RetriedOrFailed(s, t)
  {
  }

  /** A running job whose last attempt did not fail is left alone. */
  lemma OtherwiseLeft(s: State)
    requires s.scheduler.Resting? && s.job.Running? && (s.attempts == [] || !s.attempts[|s.attempts| - 1].state.AttemptFailed?)
    ensures Go(Apply(s, ListRunning), 1) == s
  {
    FirstSteps(Apply(s, ListRunning));
  }

  /** A running job with an executing attempt that is found stale: the attempt is TimedOut, and retried like a failed one. */
  lemma StaleIsRetried(s: State, i: nat)
    requires s.scheduler.Resting? && s.job.Running? && i < |s.attempts| && s.attempts[i].state.Executing?
    ensures var timedOut := Go(Apply(s, ListStale(i)), 1);
            && timedOut.scheduler.Retrying? && timedOut.job == s.job && timedOut.workers == s.workers && timedOut.maxRetries == s.maxRetries
            && |timedOut.attempts| == |s.attempts| && timedOut.attempts[i].state.TimedOut?
            && (forall j | 0 <= j < |s.attempts| && j != i :: timedOut.attempts[j] == s.attempts[j])
            && RetriedOrFailed(timedOut, Go(timedOut, if |s.attempts| < s.maxRetries + 1 then 3 else 2))
  {
    hide RetriedOrFailed;
    FirstSteps(Apply(s, ListStale(i)));
    var timedOut := Apply(Apply(s, ListStale(i)), SchedulerStep);
    assert timedOut == CasAttempt(s, i, Executing, TimedOut).(scheduler := Retrying);
    if |s.attempts| < s.maxRetries + 1 {
      Retries(timedOut);
    } else {
      GivesUp(timedOut);
    }
  }

  /** A worker's whole life with a new attempt of a scheduled job. Exit 0: the attempt and the job are Completed. Any other
      exit: the attempt is Failed, and the job still Running for the scheduler to find. */
  lemma WorkerLife(s: State, w: nat, i: nat, exitOk: bool)
    requires w < |s.workers| && s.workers[w].Free? && i < |s.attempts| && s.attempts[i].state.New? && s.job.Scheduled?
    ensures var began := Apply(Apply(s, Claim(w, i)), WorkerStep(w, true));
            && began.workers == s.workers[w := Began(i)] && |began.attempts| == |s.attempts| && began.job.Scheduled?
            && began.attempts[i].state.Executing? && began.attempts[i].executors == s.attempts[i].executors + [w]
            && var busy := Apply(began, WorkerStep(w, true));
            && busy.job.Running? && busy.attempts == began.attempts && busy.workers == s.workers[w := Busy(i)]
            && var t := Apply(busy, WorkerStep(w, exitOk));
            && |t.attempts| == |s.attempts| && t.job.Running?
            && (if exitOk then t.attempts[i].state.AttemptCompleted? && t.workers == s.workers[w := Reported(i)]
                else t.attempts[i].state.AttemptFailed? && t.workers == s.workers[w := Free])
            && (exitOk ==> var u := Apply(t, WorkerStep(w, true)); u.job.Completed? && u.attempts == t.attempts && u.workers == s.workers[w := Free])
            && (forall j | 0 <= j < |s.attempts| && j != i :: t.attempts[j] == s.attempts[j])
  {
    var claimed := Apply(s, Claim(w, i));
    assert claimed.workers[w] == Claimed(i) && claimed.attempts == s.attempts;
    var began := Apply(claimed, WorkerStep(w, true));
    assert began.workers == s.workers[w := Began(i)];
    var busy := Apply(began, WorkerStep(w, true));
    assert busy.workers == s.workers[w := Busy(i)];
  }

  /** A termination ends a job that has not ended, at once and for good; it never changes one that has. */
  lemma TerminateEnds(s: State, acts: seq<Action>)
    requires Inv(s)
    ensures var t := Apply(s, Terminate);
            && t.attempts == s.attempts && t.workers == s.workers
            && (if Ended(s.job) then t == s else t.job.Terminated?)
            && Run(t, acts).job == t.job
  {
    ApplyKeeps(s, Terminate);
    EndIsFinal(Apply(s, Terminate), acts);
  }

  // ----- when a job may fail -----

  predicate EndedBadly(a: Attempt) { a.state.AttemptFailed? || a.state.TimedOut? }

  /** Every attempt there may be was made, and none of them worked. */
  ghost predicate UsedUp(s: State) {
    |s.attempts| == s.maxRetries + 1 && forall i | 0 <= i < |s.attempts| :: EndedBadly(s.attempts[i])
  }

  ghost predicate FailsUsedUp(s: State) {
    (s.scheduler.GivingUp? || s.job.Failed? ==> UsedUp(s)) && (s.job.Failed? ==> s.scheduler.Resting?)
  }

  lemma UsedUpStays(s: State, a: Action)
    requires UsedUp(s) && !s.scheduler.SawPending? && !s.scheduler.Creating?
    ensures UsedUp(Apply(s, a))
  {
  }

  lemma FailureKept(s: State, a: Action)
    requires Inv(s) && CompletedIsLast(s) && FailsUsedUp(s)
    ensures FailsUsedUp(Apply(s, a))
  {
    hide JobPath, AttemptPath, WorkersThere, UsedUp;
    assert s.scheduler.Retrying? && |s.attempts| >= s.maxRetries + 1 ==> UsedUp(s) by { AllEnded(s); }
    var t := Apply(s, a);
    if Enabled(s, a) && a.WorkerStep? {
      JobNotFailed(s, a.w, a.exitOk);
    }
    if UsedUp(s) && !s.scheduler.SawPending? && !s.scheduler.Creating? {
      UsedUpStays(s, a);
    }
    if t.attempts == s.attempts {
      SameLimit(s, a);
      SameUsed(s, t);
    }
    assert UsedUp(s) && s.job.Failed? ==> !(a.ListStale? && Enabled(s, a)) by { NoneStale(s, a); }
  }

  lemma NoneStale(s: State, a: Action)
    ensures UsedUp(s) ==> !(a.ListStale? && Enabled(s, a))
  {
  }

  lemma SameUsed(s: State, t: State)
    requires t.attempts == s.attempts && t.maxRetries == s.maxRetries
    ensures UsedUp(s) <==> UsedUp(t)
  {
  }

  lemma JobNotFailed(s: State, w: nat, exitOk: bool)
    requires Enabled(s, WorkerStep(w, exitOk))
    ensures WorkerNext(s, w, exitOk).job.Failed? ==> s.job.Failed?
    ensures WorkerNext(s, w, exitOk).scheduler == s.scheduler
  {
  }

  lemma AllEnded(s: State)
    requires Inv(s) && CompletedIsLast(s)
    ensures s.scheduler.Retrying? && |s.attempts| >= s.maxRetries + 1 ==> UsedUp(s)
  {
  }

  lemma {:induction false} FailureInv(maxRetries: nat, workers: nat, acts: seq<Action>)
    ensures FailsUsedUp(Run(Init(maxRetries, workers), acts)) && Run(Init(maxRetries, workers), acts).maxRetries == maxRetries
    decreases |acts|
  {
    hide Apply, FailsUsedUp, Inv, CompletedIsLast;
    var i := Init(maxRetries, workers);
    if acts == [] {
      StartNotFailed(maxRetries, workers);
    } else {
      var n := |acts| - 1;
      assert acts == acts[..n] + [acts[n]];
      Snoc(i, NOTHING, acts[..n], acts[n]);
      FailureInv(maxRetries, workers, acts[..n]);
      StoryTold(maxRetries, workers, acts[..n]);
      FailureKept(Run(i, acts[..n]), acts[n]);
      SameLimit(Run(i, acts[..n]), acts[n]);
    }
  }

  lemma StartNotFailed(maxRetries: nat, workers: nat)
    ensures FailsUsedUp(Init(maxRetries, workers))
  {
  }

  lemma SameLimit(s: State, a: Action)
    ensures Apply(s, a).maxRetries == s.maxRetries
  {
  }

  /** Over every run: a job is Failed only when MaxRetries + 1 attempts were made and each of them failed or timed out. */
  lemma FailedOnlyIfUsedUp(maxRetries: nat, workers: nat, acts: seq<Action>)
    requires Run(Init(maxRetries, workers), acts).job.Failed?
    ensures var s := Run(Init(maxRetries, workers), acts);
            |s.attempts| == maxRetries + 1 && forall i | 0 <= i < |s.attempts| :: EndedBadly(s.attempts[i])
  {
    FailureInv(maxRetries, workers, acts);
  }
}
