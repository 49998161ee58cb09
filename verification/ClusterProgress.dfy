/** Progress of the AgentJob protocol: a measure no step increases, and that every fault-free reconcile
    decreases unless it has to wait for a pod that is still there and still running. */
module ClusterProgress {
  import opened Arith
  import opened Conditions
  import opened Cluster
  import opened ClusterSafety
  import opened ClusterTheorems

  /** The pod the job's active attempt has recorded. */
  ghost function Recorded(s: System, j: Job): Option<PodRef> {
    if j.active.Some? && j.active.value.name in s.attempts && s.attempts[j.active.value.name] != []
    then Last(s.attempts[j.active.value.name]).pod else None
  }

  ghost function Measure(s: System): int
    requires |s.jobs| > 0
  {
    var j := Last(s.jobs);
    if Terminal(j.conds) then 0
    else 2 * (Max(1, j.maxAttempts) - j.failed) + 1 - (if j.active.Some? then 1 else 0) - (if Recorded(s, j).Some? then 1 else 0)
  }

  lemma MeasureBounds(s: System)
    requires Inv(s)
    ensures 0 <= Measure(s) <= 2 * Max(1, Last(s.jobs).maxAttempts) + 1
    ensures Measure(s) == 0 <==> Terminal(Last(s.jobs).conds)
  {
    hide VersionsOk, PcOk, PodsInv, Later;
    if Live(Last(s.jobs)) {
      LiveJob(s, |s.jobs| - 1);
    }
  }

  /** No step of anybody increases the measure, unless somebody raises MaxAttempts. */
  lemma MeasureNeverGrows(s: System, t: System)
    requires Inv(s) && Keeps(s, t) && Last(t.jobs).maxAttempts == Last(s.jobs).maxAttempts
    ensures Measure(t) <= Measure(s)
  {
    hide VersionsOk, NumbersOk, PcOk, PodsInv, JobOk;
    var i, j := Last(s.jobs), Last(t.jobs);
    assert Later(t.jobs[|s.jobs| - 1], j);
    MeasureBounds(s);
    if Live(j) {
      LiveJob(t, |t.jobs| - 1);
      LiveJob(s, |s.jobs| - 1);
      if i.active.Some? && i.failed == j.failed && Recorded(s, i).Some? {
        RecordKept(s, t, i.active.value.name);
      }
    }
  }

  lemma RecordKept(s: System, t: System, o: int)
    requires Inv(s) && Keeps(s, t) && o in s.attempts && s.attempts[o] != [] && Last(s.attempts[o]).pod.Some?
    ensures o in t.attempts && t.attempts[o] != [] && Last(t.attempts[o]).pod == Last(s.attempts[o]).pod
  {
    hide JobOk, Later, NumbersOk, PcOk, PodsInv;
    assert VersionsOk(t.seen, t.jobs[0].uid, o, t.attempts[o]);
    assert t.attempts[o][|s.attempts[o]| - 1] == Last(s.attempts[o]);
  }

  // ----- one whole reconcile with no fault, no staleness and nobody in between -----

  ghost function Newest(s: System): map<int, int> {
    map n | n in s.attempts :: |s.attempts[n]| - 1
  }

  ghost function PodNow(s: System, name: int): Option<Pod> {
    if name in s.pods then Some(s.pods[name]) else None
  }

  /** Read the newest snapshot, then take steps until nothing is left to do. */
  ghost function FreshReconcile(s: System, r: int): seq<Action>
    requires |s.jobs| > 0
  {
    var j := Last(s.jobs);
    var obs := if j.active.Some? then PodNow(s, j.active.value.name) else None;
    [Load(r, |s.jobs| - 1, Newest(s)), Advance(r, obs, None), Advance(r, None, None), Advance(r, None, None)]
  }

  /** The active attempt is not waiting for its pod: none recorded yet, or it has ended, vanished or been replaced. */
  ghost predicate Ready(s: System)
    requires |s.jobs| > 0
  {
    var ref := Recorded(s, Last(s.jobs));
    ref.Some? ==>
      var name := Last(s.jobs).active.value.name;
      || Terminal(Last(s.attempts[name]).conds)
      || name !in s.pods || s.pods[name].uid != ref.value.uid
      || s.pods[name].phase == Phase.Succeeded || s.pods[name].phase == Phase.Failed
  }

  lemma RunFour(s: System, a: Action, b: Action, c: Action, d: Action)
    ensures Run(s, [a, b, c, d]) == Apply(Apply(Apply(Apply(s, a), b), c), d)
  {
    assert [a, b, c, d][1..] == [b, c, d];
    assert [b, c, d][1..] == [c, d];
    assert [c, d][1..] == [d];
    assert Run(s, [a, b, c, d]) == Run(Apply(s, a), [b, c, d]);
    assert Run(Apply(s, a), [b, c, d]) == Run(Apply(Apply(s, a), b), [c, d]);
    var t := Apply(Apply(Apply(s, a), b), c);
    assert Run(Apply(Apply(s, a), b), [c, d]) == Run(t, [d]);
    assert [d][1..] == [];
    assert Run(t, [d]) == Run(Apply(t, d), []) == Apply(t, d);
  }

  /** The snapshot just read, as a state. */
  ghost function Snap(s: System, r: int): System
    requires |s.jobs| > 0 && 0 <= r < |s.pcs|
  {
    SetPc(s, r, Loaded(|s.jobs| - 1, Newest(s)))
  }

  lemma SnapOk(s: System, r: int)
    requires Inv(s) && 0 <= r < |s.pcs| && s.pcs[r] == Idle
    ensures Apply(s, FreshReconcile(s, r)[0]) == Snap(s, r) && Inv(Snap(s, r))
    ensures OwnsAll(Snap(s, r), |s.jobs| - 1, Newest(s)) && Enabled(Snap(s, r), FreshReconcile(s, r)[1])
  {
    hide JobOk, Later, NumbersOk;
    var listed := Newest(s);
    forall n | n in listed ensures n in s.attempts && 0 <= listed[n] < |s.attempts[n]| {
      assert VersionsOk(s.seen, s.jobs[0].uid, n, s.attempts[n]);
    }
    PcMoves(s, r, Loaded(|s.jobs| - 1, listed));
    NeverDisowned(Snap(s, r), |s.jobs| - 1, listed);
  }

  ghost function Next(s: System, r: int): System {
    Apply(s, Advance(r, None, None))
  }

  /** Writing the next attempt's name into the job. */
  lemma CreatedDecreases(s: System, r: int, name: int, retry: bool)
    requires Inv(s) && 0 <= r < |s.pcs| && s.pcs[r] == Created(|s.jobs| - 1, name, retry)
    requires retry || Last(s.jobs).active.None?
    requires retry ==> Recorded(s, Last(s.jobs)).Some?
    ensures Inv(Next(s, r)) && Measure(Next(s, r)) < Measure(s)
    ensures Last(Next(s, r).jobs).maxAttempts == Last(s.jobs).maxAttempts && |Next(s, r).pcs| == |s.pcs| && Next(s, r).pcs[r] == Idle
  {
    hide VersionsOk, JobOk, Later, PodsInv;
    HistoriesThere(s);
    var t := Next(s, r);
    StepKeeps(s, r, None, None);
    assert t.attempts == s.attempts;
    LiveJob(s, |s.jobs| - 1);
    LiveJob(t, |t.jobs| - 1);
    assert Recorded(t, Last(t.jobs)).None? by {
      assert NumbersOk(Last(s.jobs), s.attempts);
    }
  }

  /** Recording the pod in the attempt. */
  lemma HavePodDecreases(s: System, r: int, name: int, p: Pod)
    requires Inv(s) && 0 <= r < |s.pcs|
    requires name in s.attempts && s.pcs[r] == HavePod(|s.jobs| - 1, name, |s.attempts[name]| - 1, p)
    ensures Inv(Next(s, r)) && Measure(Next(s, r)) < Measure(s)
    ensures Next(s, r).jobs == s.jobs && |Next(s, r).pcs| == |s.pcs| && Next(s, r).pcs[r] == Idle
  {
    hide VersionsOk, JobOk, Later, NumbersOk, PodsInv;
    StepKeeps(s, r, None, None);
  }

  /** Deciding on a terminal attempt: the job ends, or the next attempt is asked for. */
  lemma DoneDecides(s: System, r: int, name: int, ai: int)
    requires |s.jobs| > 0 && 0 <= r < |s.pcs| && s.pcs[r] == AttemptDone(|s.jobs| - 1, name, ai)
    requires InRange(s, s.pcs[r]) && !Terminal(Last(s.jobs).conds) && Last(s.jobs).completed == 0
    ensures var t := Next(s, r);
            && |t.jobs| > 0 && |t.pcs| == |s.pcs|
            && if t.pcs[r] == Idle then Terminal(Last(t.jobs).conds) && Last(t.jobs).maxAttempts == Last(s.jobs).maxAttempts
               else t.jobs == s.jobs && t.pcs[r] == Created(|s.jobs| - 1, Last(s.jobs).failed + 2, true)
  {
  }

  /** A terminal attempt has a pod on record, and creating another attempt does not change that. */
  lemma DoneIsRecorded(s: System, t: System, name: int, ai: int)
    requires Inv(s) && Keeps(s, t) && PcOk(s, AttemptDone(|s.jobs| - 1, name, ai))
    ensures Recorded(t, Last(s.jobs)).Some?
  {
    hide JobOk, Later, NumbersOk, PodsInv;
    DoneIsLast(s, name, ai);
    assert s.attempts[name][ai] in s.attempts[name];
    assert VersionsOk(t.seen, t.jobs[0].uid, name, t.attempts[name]);
    TerminalIsFinal(t.seen, t.jobs[0].uid, name, s.attempts[name], t.attempts[name]);
  }

  lemma DoneDecreases(s: System, r: int, name: int, ai: int)
    requires Inv(s) && 0 <= r < |s.pcs| && s.pcs[r] == AttemptDone(|s.jobs| - 1, name, ai)
    ensures var u := Next(Next(s, r), r);
            && Inv(u) && Measure(u) < Measure(s)
            && Last(u.jobs).maxAttempts == Last(s.jobs).maxAttempts && |u.pcs| == |s.pcs| && u.pcs[r] == Idle
  {
    var t := Next(s, r);
    StepKeeps(s, r, None, None);
    LiveJob(s, |s.jobs| - 1);
    DoneDecides(s, r, name, ai);
    DoneContinues(s, t, r, name, ai);
  }

  lemma DoneContinues(s: System, t: System, r: int, name: int, ai: int)
    requires Inv(s) && Keeps(s, t) && 0 <= r < |t.pcs| && PcOk(s, AttemptDone(|s.jobs| - 1, name, ai))
    requires if t.pcs[r] == Idle then Terminal(Last(t.jobs).conds)
             else t.jobs == s.jobs && t.pcs[r] == Created(|s.jobs| - 1, Last(s.jobs).failed + 2, true)
    requires Last(t.jobs).maxAttempts == Last(s.jobs).maxAttempts
    ensures var u := Next(t, r);
            && Inv(u) && Measure(u) < Measure(s)
            && Last(u.jobs).maxAttempts == Last(s.jobs).maxAttempts && |u.pcs| == |t.pcs| && u.pcs[r] == Idle
  {
    hide VersionsOk, JobOk, Later, NumbersOk, PodsInv, Measure;
    MeasureBounds(s);
    if t.pcs[r] == Idle {
      MeasureBounds(t);
    } else {
      DoneIsRecorded(s, t, name, ai);
      CreatedDecreases(t, r, t.pcs[r].name, true);
      MeasureNeverGrows(s, t);
    }
  }

  /** The first step after the snapshot is read. */
  ghost function First(s: System, r: int): System
    requires |s.jobs| > 0 && 0 <= r < |s.pcs|
  {
    Apply(Snap(s, r), FreshReconcile(s, r)[1])
  }

  lemma FirstCreates(s: System, r: int)
    requires Inv(s) && 0 <= r < |s.pcs| && s.pcs[r] == Idle && Live(Last(s.jobs)) && Last(s.jobs).active.None?
    ensures First(s, r).jobs == s.jobs && |First(s, r).pcs| == |s.pcs|
    ensures First(s, r).pcs[r] == Created(|s.jobs| - 1, 1, false)
  {
    hide VersionsOk, JobOk, Later, NumbersOk, PcOk, PodsInv;
    SnapOk(s, r);
    LiveJob(s, |s.jobs| - 1);
  }

  lemma FirstObserves(s: System, r: int)
    requires Inv(s) && 0 <= r < |s.pcs| && s.pcs[r] == Idle && Live(Last(s.jobs)) && Last(s.jobs).active.Some? && Ready(s)
    ensures var name := Last(s.jobs).active.value.name;
            && name in s.attempts && s.attempts[name] != []
            && var t := First(s, r);
            && t.jobs == s.jobs && |t.pcs| == |s.pcs| && name in t.attempts
            && if Recorded(s, Last(s.jobs)).None?
               then t.attempts == s.attempts
                    && t.pcs[r].HavePod? && t.pcs[r] == HavePod(|s.jobs| - 1, name, |s.attempts[name]| - 1, t.pcs[r].pod)
               else t.pcs[r].AttemptDone? && t.pcs[r] == AttemptDone(|s.jobs| - 1, name, t.pcs[r].ai)
  {
    hide JobOk, Later, NumbersOk, PcOk, PodsInv;
    SnapOk(s, r);
    LiveJob(s, |s.jobs| - 1);
    var name := Last(s.jobs).active.value.name;
    assert VersionsOk(s.seen, s.jobs[0].uid, name, s.attempts[name]);
    assert Last(s.attempts[name]) in s.attempts[name];
    FirstIsAttemptStep(s, r, name);
  }

  lemma FirstIsAttemptStep(s: System, r: int, name: int)
    requires Inv(s) && 0 <= r < |s.pcs| && s.pcs[r] == Idle && Live(Last(s.jobs)) && Last(s.jobs).active.Some?
    requires name == Last(s.jobs).active.value.name && name in s.attempts && s.attempts[name] != []
    ensures var ji, ai := |s.jobs| - 1, |s.attempts[name]| - 1;
            First(s, r) == if Terminal(s.attempts[name][ai].conds) then SetPc(Snap(s, r), r, AttemptDone(ji, name, ai))
                           else AttemptStep(Snap(s, r), r, ji, name, ai, PodNow(s, name), None)
  {
    hide VersionsOk, JobOk, Later, NumbersOk, PcOk, PodsInv, AttemptStep;
    SnapOk(s, r);
  }

  /** The whole reconcile: the snapshot, the first step, and up to two more. */
  lemma FreshIsFirst(s: System, r: int)
    requires Inv(s) && 0 <= r < |s.pcs| && s.pcs[r] == Idle
    ensures Run(s, FreshReconcile(s, r)) == Next(Next(First(s, r), r), r)
    ensures Keeps(s, First(s, r)) && Measure(First(s, r)) <= Measure(s)
  {
    hide VersionsOk, JobOk, Later, NumbersOk, PcOk, PodsInv, Step;
    var acts := FreshReconcile(s, r);
    RunFour(s, acts[0], acts[1], acts[2], acts[3]);
    SnapOk(s, r);
    FirstKeeps(s, Snap(s, r), acts[1]);
  }

  lemma FirstKeeps(s: System, t: System, a: Action)
    requires Inv(s) && Inv(t) && t.jobs == s.jobs && t.attempts == s.attempts && t.seen == s.seen && !a.RaiseMax?
    ensures Keeps(s, Apply(t, a)) && Measure(Apply(t, a)) <= Measure(s)
  {
    hide VersionsOk, JobOk, Later, NumbersOk, PcOk, PodsInv, Apply;
    ApplyKeeps(t, a);
    MaxKeptByStep(t, a);
    MeasureNeverGrows(t, Apply(t, a));
  }

  /** A fault-free reconcile that need not wait for a pod makes progress. */
  lemma FreshDecreases(s: System, r: int)
    requires Inv(s) && 0 <= r < |s.pcs| && s.pcs[r] == Idle && Live(Last(s.jobs)) && Ready(s)
    ensures var t := Run(s, FreshReconcile(s, r));
            && Keeps(s, t) && Measure(t) < Measure(s) && |t.pcs| == |s.pcs| && t.pcs[r] == Idle
            && Last(t.jobs).maxAttempts == Last(s.jobs).maxAttempts
  {
    hide VersionsOk, JobOk, Later, NumbersOk, PcOk, PodsInv, Measure, Apply, Run, Next;
    RunKeeps(s, FreshReconcile(s, r));
    FreshIsFirst(s, r);
    FirstDecreases(s, r);
  }

  lemma FirstDecreases(s: System, r: int)
    requires Inv(s) && 0 <= r < |s.pcs| && s.pcs[r] == Idle && Live(Last(s.jobs)) && Ready(s)
    requires Inv(First(s, r)) && Measure(First(s, r)) <= Measure(s)
    ensures var t := Next(Next(First(s, r), r), r);
            && Inv(t) && Measure(t) < Measure(s) && |t.pcs| == |s.pcs| && t.pcs[r] == Idle
            && Last(t.jobs).maxAttempts == Last(s.jobs).maxAttempts
  {
    hide VersionsOk, JobOk, Later, NumbersOk, PcOk, PodsInv, Measure, First;
    var t := First(s, r);
    if Last(s.jobs).active.None? {
      FirstCreates(s, r);
      CreatedDecreases(t, r, 1, false);
    } else {
      FirstObserves(s, r);
      var name := Last(s.jobs).active.value.name;
      if t.pcs[r].HavePod? {
        HavePodDecreases(t, r, name, t.pcs[r].pod);
      } else {
        DoneDecreases(t, r, name, t.pcs[r].ai);
      }
    }
  }

  lemma MaxKeptByStep(s: System, a: Action)
    requires |s.jobs| > 0 && !a.RaiseMax?
    ensures |Apply(s, a).jobs| > 0 && Last(Apply(s, a).jobs).maxAttempts == Last(s.jobs).maxAttempts
  {
    if Enabled(s, a) && a.Advance? {
      match s.pcs[a.r]
      case Loaded(ji, listed) => MaxKeptByLoaded(s, a.r, ji, listed, a.obs, a.again);
      case _ =>
    }
  }

  lemma MaxKeptByLoaded(s: System, r: int, ji: int, listed: map<int, int>, obs: Option<Pod>, again: Option<Pod>)
    requires 0 <= r < |s.pcs| && InRange(s, Loaded(ji, listed))
    ensures var t := LoadedStep(s, r, ji, listed, obs, again);
            |t.jobs| > 0 && Last(t.jobs).maxAttempts == Last(s.jobs).maxAttempts
  {
  }

  // ----- rounds -----

  /** Anything at all except raising MaxAttempts. */
  ghost predicate NoRaise(acts: seq<Action>) {
    forall a | a in acts :: !a.RaiseMax?
  }

  lemma {:induction false} MaxKept(s: System, acts: seq<Action>)
    requires |s.jobs| > 0 && NoRaise(acts)
    ensures |Run(s, acts).jobs| > 0 && Last(Run(s, acts).jobs).maxAttempts == Last(s.jobs).maxAttempts
    decreases |acts|
  {
    if acts != [] {
      assert acts[0] in acts;
      MaxKeptByStep(s, acts[0]);
      MaxKept(Apply(s, acts[0]), acts[1..]);
    }
  }

  /** Anything happens, then reconciler r runs undisturbed. */
  datatype Round = Round(before: seq<Action>, r: int)

  ghost function AfterRound(s: System, round: Round): System {
    var t := Run(s, round.before);
    if |t.jobs| > 0 then Run(t, FreshReconcile(t, round.r)) else t
  }

  ghost function AfterRounds(s: System, rounds: seq<Round>): System
    decreases |rounds|
  {
    if rounds == [] then s else AfterRounds(AfterRound(s, rounds[0]), rounds[1..])
  }

  /** In each round the reconciler is at rest and, unless the job has ended, need not wait for a pod. */
  ghost predicate NoWaiting(s: System, rounds: seq<Round>)
    decreases |rounds|
  {
    rounds != [] ==>
      var t := Run(s, rounds[0].before);
      && NoRaise(rounds[0].before)
      && |t.jobs| > 0 && 0 <= rounds[0].r < |t.pcs| && t.pcs[rounds[0].r] == Idle
      && (Terminal(Last(t.jobs).conds) || Ready(t))
      && NoWaiting(AfterRound(s, rounds[0]), rounds[1..])
  }

  lemma RoundDecreases(s: System, round: Round)
    requires Inv(s) && NoWaiting(s, [round])
    ensures var t := AfterRound(s, round);
            && Keeps(s, t) && Last(t.jobs).maxAttempts == Last(s.jobs).maxAttempts
            && (Measure(t) < Measure(s) || Measure(t) == 0)
  {
    assert [round][0] == round;
    var t := Run(s, round.before);
    RunKeeps(s, round.before);
    MaxKept(s, round.before);
    MeasureNeverGrows(s, t);
    ReconcileOrDone(t, round.r);
    KeepsTransitive(s, t, AfterRound(s, round));
  }

  lemma ReconcileOrDone(t: System, r: int)
    requires Inv(t) && 0 <= r < |t.pcs| && t.pcs[r] == Idle && (Terminal(Last(t.jobs).conds) || Ready(t))
    ensures var u := Run(t, FreshReconcile(t, r));
            && Keeps(t, u) && Last(u.jobs).maxAttempts == Last(t.jobs).maxAttempts
            && (Measure(u) < Measure(t) || Measure(u) == 0)
  {
    var acts := FreshReconcile(t, r);
    if Terminal(Last(t.jobs).conds) {
      RunKeeps(t, acts);
      MaxKept(t, acts);
      MeasureNeverGrows(t, Run(t, acts));
      MeasureBounds(Run(t, acts));
    } else {
      FreshDecreases(t, r);
    }
  }

  lemma {:induction false} RoundsDecrease(s: System, rounds: seq<Round>)
    requires Inv(s) && NoWaiting(s, rounds)
    ensures var t := AfterRounds(s, rounds); Inv(t) && (Measure(t) <= Measure(s) - |rounds| || Measure(t) == 0)
    decreases |rounds|
  {
    if rounds != [] {
      assert NoWaiting(s, [rounds[0]]);
      RoundDecreases(s, rounds[0]);
      var t := AfterRound(s, rounds[0]);
      RoundsDecrease(t, rounds[1..]);
      MeasureBounds(AfterRounds(s, rounds));
      MeasureBounds(t);
    }
  }

  /** With M = max(1, MaxAttempts): from any reachable state, after 2M + 1 reconciles that need not wait for a
      pod the job has its verdict, whatever happens in between. */
  lemma EndsWithinBudget(s: System, rounds: seq<Round>)
    requires Inv(s) && NoWaiting(s, rounds)
    requires |rounds| >= 2 * Max(1, Last(s.jobs).maxAttempts) + 1
    ensures var t := AfterRounds(s, rounds); |t.jobs| > 0 && Terminal(Last(t.jobs).conds)
  {
    RoundsDecrease(s, rounds);
    MeasureBounds(s);
    MeasureBounds(AfterRounds(s, rounds));
  }
}
