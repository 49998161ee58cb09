/** What one undisturbed pass of Reconcile comes to, told by the pod alone, and why an attempt ended, over every run
    (internal/controller/job_controller.go:101-245, attempt_reconciler.go:37-164, cancel.go). */
module ClusterOutcome {
  import opened Conditions
  import opened Cluster
  import opened ClusterSafety
  import opened ClusterTheorems
  import opened ClusterProgress

  ghost predicate HasCond(conds: Conds, t: CondType, status: bool, reason: Reason) {
    t in conds && conds[t] == Condition(t, status, reason)
  }

  /** The pod that is there under the attempt's name has this UID and phase. */
  ghost predicate PodIs(pods: map<int, Pod>, name: int, uid: int, phase: Phase) {
    name in pods && pods[name].uid == uid && pods[name].phase == phase
  }

  /** It is not there any more, is another one, or has failed. */
  ghost predicate PodIsLost(pods: map<int, Pod>, name: int, uid: int) {
    name !in pods || pods[name].uid != uid || pods[name].phase == Phase.Failed
  }

  /** Reconciler r may start a pass over a live job. */
  ghost predicate CanPass(s: System, r: int) {
    Inv(s) && 0 <= r < |s.pcs| && s.pcs[r] == Idle && Live(Last(s.jobs))
  }

  /** The next attempt is named in the job, which is live again and waits to run. */
  ghost predicate RetriedTo(j: Job, k: Job, attempts: map<int, seq<Attempt>>) {
    && Live(k) && k.failed == j.failed + 1 && k.completed == j.completed && k.maxAttempts == j.maxAttempts
    && j.failed + 2 in attempts && attempts[j.failed + 2] != []
    && k.active == Some(AttemptRef(j.failed + 2, attempts[j.failed + 2][0].ordinal, attempts[j.failed + 2][0].uid))
    && HasCond(k.conds, CondType.Running, false, Retrying) && HasCond(k.conds, Scheduled, true, Retrying)
  }

  /** What the job becomes when its attempt has ended. */
  ghost predicate Decided(j: Job, k: Job, attempts: map<int, seq<Attempt>>, succeeded: bool) {
    if succeeded then
      k.completed == j.completed + 1 && k.failed == j.failed && HasCond(k.conds, Complete, true, Reason.Succeeded) && k.active == j.active
    else if j.failed + 1 < j.maxAttempts then RetriedTo(j, k, attempts)
    else k.failed == j.failed + 1 && k.completed == j.completed && HasCond(k.conds, CondType.Failed, true, RetriesExhausted)
  }

  // ----- the steps of a pass -----

  lemma Completes(t: System, r: int, name: int, ai: int)
    requires |t.jobs| > 0 && 0 <= r < |t.pcs| && t.pcs[r] == AttemptDone(|t.jobs| - 1, name, ai) && InRange(t, t.pcs[r])
    requires Live(Last(t.jobs)) && IsTrue(t.attempts[name][ai].conds, Complete)
    ensures var u := Next(Next(t, r), r);
            u.attempts == t.attempts && |u.jobs| > 0 && Decided(Last(t.jobs), Last(u.jobs), u.attempts, true)
  {
  }

  lemma Exhausts(t: System, r: int, name: int, ai: int)
    requires |t.jobs| > 0 && 0 <= r < |t.pcs| && t.pcs[r] == AttemptDone(|t.jobs| - 1, name, ai) && InRange(t, t.pcs[r])
    requires Live(Last(t.jobs)) && !IsTrue(t.attempts[name][ai].conds, Complete) && Last(t.jobs).failed + 1 >= Last(t.jobs).maxAttempts
    ensures var u := Next(Next(t, r), r);
            u.attempts == t.attempts && |u.jobs| > 0 && Decided(Last(t.jobs), Last(u.jobs), u.attempts, false)
  {
  }

  lemma AsksNext(t: System, r: int, name: int, ai: int)
    requires |t.jobs| > 0 && 0 <= r < |t.pcs| && t.pcs[r] == AttemptDone(|t.jobs| - 1, name, ai) && InRange(t, t.pcs[r])
    requires !IsTrue(t.attempts[name][ai].conds, Complete) && Last(t.jobs).failed + 1 < Last(t.jobs).maxAttempts
    requires Last(t.jobs).completed == 0 && (forall n | n in t.attempts :: t.attempts[n] != [])
    ensures var o, u := Last(t.jobs).failed + 2, Next(t, r);
            && u.jobs == t.jobs && |u.pcs| == |t.pcs| && u.pcs[r] == Created(|t.jobs| - 1, o, true)
            && o in u.attempts && u.attempts[o] != [] && forall n | n in t.attempts :: n in u.attempts && u.attempts[n] == t.attempts[n]
  {
  }

  lemma NamesNext(t: System, r: int)
    requires |t.jobs| > 0 && 0 <= r < |t.pcs| && Live(Last(t.jobs))
    requires var o := Last(t.jobs).failed + 2; t.pcs[r] == Created(|t.jobs| - 1, o, true) && o in t.attempts && t.attempts[o] != []
    ensures var u := Next(t, r); u.attempts == t.attempts && |u.jobs| > 0 && RetriedTo(Last(t.jobs), Last(u.jobs), u.attempts)
  {
  }

  /** A pass that stands at a terminal attempt decides. */
  lemma Decides(t: System, r: int, name: int, ai: int)
    requires Inv(t) && 0 <= r < |t.pcs| && t.pcs[r] == AttemptDone(|t.jobs| - 1, name, ai) && Live(Last(t.jobs))
    ensures InRange(t, t.pcs[r])
    ensures var u := Next(Next(t, r), r);
            && |u.jobs| > 0 && Decided(Last(t.jobs), Last(u.jobs), u.attempts, IsTrue(t.attempts[name][ai].conds, Complete))
            && forall n | n in t.attempts :: n in u.attempts && u.attempts[n] == t.attempts[n]
  {
    hide JobOk, VersionsOk, Later, NumbersOk, PodsInv, Decided, RetriedTo, Apply;
    assert PcOk(t, t.pcs[r]);
    HistoriesThere(t);
    assert Last(t.jobs).completed == 0 by { LiveJob(t, |t.jobs| - 1); }
    if IsTrue(t.attempts[name][ai].conds, Complete) {
      Completes(t, r, name, ai);
    } else if Last(t.jobs).failed + 1 < Last(t.jobs).maxAttempts {
      AsksNext(t, r, name, ai);
      NamesNext(Next(t, r), r);
      NextDecided(Last(t.jobs), Last(Next(Next(t, r), r).jobs), Next(Next(t, r), r).attempts);
    } else {
      Exhausts(t, r, name, ai);
    }
  }

  lemma NextDecided(j: Job, k: Job, attempts: map<int, seq<Attempt>>)
    requires RetriedTo(j, k, attempts) && j.failed + 1 < j.maxAttempts
    ensures Decided(j, k, attempts, false)
  {
  }

  /** A pass that stands at the note that the job runs makes it. */
  lemma Notes(t: System, r: int)
    requires |t.jobs| > 0 && 0 <= r < |t.pcs| && t.pcs[r] == RunningNote(|t.jobs| - 1) && Live(Last(t.jobs))
    ensures var u := Next(Next(t, r), r);
            && u.attempts == t.attempts && |u.jobs| > 0 && Live(Last(u.jobs)) && Last(u.jobs).active == Last(t.jobs).active
            && Last(u.jobs).failed == Last(t.jobs).failed && Last(u.jobs).completed == Last(t.jobs).completed
            && HasCond(Last(u.jobs).conds, CondType.Running, true, PodRunning)
  {
  }

  lemma Rests(t: System, r: int)
    requires 0 <= r < |t.pcs| && t.pcs[r] == Idle
    ensures Next(Next(t, r), r) == t
  {
  }

  // ----- a whole pass -----

  /** A job without an active attempt gets attempt 1, and says that it is scheduled. */
  ghost predicate Starts(s: System, t: System) {
    && |t.jobs| > 0 && 1 in t.attempts && t.attempts[1] != []
    && var k, a := Last(t.jobs), t.attempts[1][0];
    && Live(k) && k.active == Some(AttemptRef(1, 1, a.uid)) && k.failed == 0 && k.completed == 0
    && HasCond(k.conds, Scheduled, true, AttemptCreated)
    && a.ordinal == 1 && a.jobUid == k.uid
    && (1 !in s.attempts ==> t.attempts[1] == [Attempt(s.nextUid, k.uid, 1, None, false, map[])])
  }

  lemma FreshStarts(s: System, r: int)
    requires CanPass(s, r) && Last(s.jobs).active.None?
    ensures Starts(s, Run(s, FreshReconcile(s, r)))
  {
    hide VersionsOk, Later, NumbersOk, PcOk, PodsInv, FreshReconcile, Run;
    FreshIsFirst(s, r);
    assert Last(s.jobs).failed == 0 && Last(s.jobs).completed == 0 by { LiveJob(s, |s.jobs| - 1); }
    FirstCreates(s, r);
    FirstAttempt(s, r);
    NamesFirst(First(s, r), r);
  }

  lemma FirstAttempt(s: System, r: int)
    requires CanPass(s, r) && Last(s.jobs).active.None?
    ensures var t := First(s, r);
            && 1 in t.attempts && t.attempts[1] != [] && t.attempts[1][0].ordinal == 1 && t.attempts[1][0].jobUid == Last(s.jobs).uid
            && (1 !in s.attempts ==> t.attempts[1] == [Attempt(s.nextUid, Last(s.jobs).uid, 1, None, false, map[])])
  {
    hide NumbersOk, PcOk;
    SnapOk(s, r);
    LiveJob(s, |s.jobs| - 1);
    assert Later(s.jobs[0], Last(s.jobs));
    if 1 in s.attempts {
      assert s.attempts[1][0] in s.attempts[1];
    }
  }

  lemma NamesFirst(t: System, r: int)
    requires |t.jobs| > 0 && 0 <= r < |t.pcs| && Live(Last(t.jobs)) && t.pcs[r] == Created(|t.jobs| - 1, 1, false)
    requires 1 in t.attempts && t.attempts[1] != [] && t.attempts[1][0].ordinal == 1
    ensures var u := Next(Next(t, r), r);
            && u.attempts == t.attempts && |u.jobs| > 0 && Live(Last(u.jobs)) && Last(u.jobs).uid == Last(t.jobs).uid
            && Last(u.jobs).active == Some(AttemptRef(1, 1, t.attempts[1][0].uid))
            && Last(u.jobs).failed == Last(t.jobs).failed && Last(u.jobs).completed == Last(t.jobs).completed
            && HasCond(Last(u.jobs).conds, Scheduled, true, AttemptCreated)
  {
  }

  /** What the pass reads of the active attempt. */
  ghost predicate Active(s: System, name: int) {
    && |s.jobs| > 0 && Last(s.jobs).active.Some? && Last(s.jobs).active.value.name == name
    && name in s.attempts && s.attempts[name] != []
  }

  /** An active attempt without a pod on record gets one: the pod that is there under its name, or a new one. */
  ghost predicate GetsPod(s: System, t: System, name: int)
    requires Active(s, name)
  {
    && t.jobs == s.jobs && name in t.pods
    && (if name in s.pods then t.pods == s.pods else t.pods == s.pods[name := Pod(name, s.nextUid, Pending)])
    && name in t.attempts && |t.attempts[name]| == |s.attempts[name]| + 1
    && var a := Last(t.attempts[name]);
    && a.pod == Some(PodRef(name, t.pods[name].uid)) && !Terminal(a.conds)
    && HasCond(a.conds, PodCreated, true, PodMade)
  }

  lemma FreshRecordsPod(s: System, r: int, name: int)
    requires CanPass(s, r) && Active(s, name) && Last(s.attempts[name]).pod.None?
    ensures GetsPod(s, Run(s, FreshReconcile(s, r)), name)
  {
    hide JobsInv, VersionsOk, NumbersOk, PcOk, PodsInv, FreshReconcile, Run, AttemptStep;
    FreshIsFirst(s, r);
    FirstIsAttemptStep(s, r, name);
    NoPodYet(s, name);
    FindsPod(Snap(s, r), r, name);
    RecordsPod(First(s, r), r, name);
  }

  lemma NoPodYet(s: System, name: int)
    requires Inv(s) && Active(s, name) && Last(s.attempts[name]).pod.None?
    ensures !Terminal(Last(s.attempts[name]).conds) && PodsInv(s.pods, s.seen)
  {
    hide JobOk, Later, NumbersOk, PcOk;
    assert VersionsOk(s.seen, s.jobs[0].uid, name, s.attempts[name]);
    assert Last(s.attempts[name]) in s.attempts[name];
  }

  lemma FindsPod(s: System, r: int, name: int)
    requires 0 <= r < |s.pcs| && |s.jobs| > 0 && name in s.attempts && s.attempts[name] != [] && Last(s.attempts[name]).pod.None?
    requires PodsInv(s.pods, s.seen)
    ensures var ai := |s.attempts[name]| - 1;
            var t := AttemptStep(s, r, |s.jobs| - 1, name, ai, PodNow(s, name), None);
            && t.jobs == s.jobs && t.attempts == s.attempts && |t.pcs| == |s.pcs| && name in t.pods && t.pods[name].name == name
            && (if name in s.pods then t.pods == s.pods else t.pods == s.pods[name := Pod(name, s.nextUid, Pending)])
            && t.pcs[r] == HavePod(|s.jobs| - 1, name, ai, t.pods[name])
  {
  }

  lemma RecordsPod(t: System, r: int, name: int)
    requires 0 <= r < |t.pcs| && |t.jobs| > 0 && name in t.attempts && t.attempts[name] != [] && name in t.pods && t.pods[name].name == name
    requires t.pcs[r] == HavePod(|t.jobs| - 1, name, |t.attempts[name]| - 1, t.pods[name]) && !Terminal(Last(t.attempts[name]).conds)
    ensures var u := Next(Next(t, r), r);
            && u.jobs == t.jobs && u.pods == t.pods && name in u.attempts && |u.attempts[name]| == |t.attempts[name]| + 1
            && var a := Last(u.attempts[name]);
            && a.pod == Some(PodRef(name, t.pods[name].uid)) && !Terminal(a.conds) && HasCond(a.conds, PodCreated, true, PodMade)
  {
  }

  /** The active attempt ended in an earlier pass: the job is decided now. */
  ghost predicate DecidesNow(s: System, t: System, name: int)
    requires Active(s, name)
  {
    && |t.jobs| > 0 && name in t.attempts && t.attempts[name] == s.attempts[name]
    && Decided(Last(s.jobs), Last(t.jobs), t.attempts, IsTrue(Last(s.attempts[name]).conds, Complete))
  }

  lemma FreshDecides(s: System, r: int, name: int)
    requires CanPass(s, r) && Active(s, name) && Terminal(Last(s.attempts[name]).conds)
    ensures DecidesNow(s, Run(s, FreshReconcile(s, r)), name)
  {
    hide JobOk, VersionsOk, Later, NumbersOk, PcOk, PodsInv, FreshReconcile, Run, AttemptStep, Decided;
    FreshIsFirst(s, r);
    FirstIsAttemptStep(s, r, name);
    Decides(First(s, r), r, name, |s.attempts[name]| - 1);
  }

  /** The attempt got one more version, and the pass stands at its end. */
  ghost predicate EndedAt(s: System, t: System, r: int, name: int, a: Attempt)
    requires name in s.attempts && s.attempts[name] != []
  {
    && t.jobs == s.jobs && t.attempts == s.attempts[name := s.attempts[name] + [a]] && a.pod == Last(s.attempts[name]).pod
    && 0 <= r < |t.pcs| && t.pcs[r] == AttemptDone(|s.jobs| - 1, name, |s.attempts[name]|)
  }

  /** The attempt did not end, and the pass notes in the job that it runs, if it has started. */
  ghost predicate GoesOn(s: System, t: System, r: int, name: int)
    requires name in s.attempts && s.attempts[name] != []
  {
    && t.jobs == s.jobs && name in t.attempts && t.attempts[name] != [] && !Terminal(Last(t.attempts[name]).conds)
    && (Last(s.attempts[name]).started ==> Last(t.attempts[name]).started)
    && 0 <= r < |t.pcs|
    && t.pcs[r] == if Last(t.attempts[name]).started then RunningNote(|s.jobs| - 1) else Idle
  }

  lemma Observes(s: System, r: int, name: int)
    requires 0 <= r < |s.pcs| && |s.jobs| > 0 && name in s.attempts && s.attempts[name] != []
    requires Last(s.attempts[name]).pod.Some? && !Terminal(Last(s.attempts[name]).conds)
    ensures var vs := s.attempts[name];
            var uid, t := Last(vs).pod.value.uid, AttemptStep(s, r, |s.jobs| - 1, name, |vs| - 1, PodNow(s, name), None);
            && (PodIs(s.pods, name, uid, Phase.Succeeded) ==>
                  exists a :: EndedAt(s, t, r, name, a) && IsTrue(a.conds, Complete) && !IsTrue(a.conds, CondType.Failed)
                              && a.started && HasCond(a.conds, CondType.Running, true, PodRunning))
            && (PodIsLost(s.pods, name, uid) ==>
                  exists a :: EndedAt(s, t, r, name, a) && IsTrue(a.conds, CondType.Failed) && !IsTrue(a.conds, Complete))
            && (PodIs(s.pods, name, uid, Phase.Running) ==> GoesOn(s, t, r, name) && Last(t.attempts[name]).started)
            && (PodIs(s.pods, name, uid, Pending) ==> GoesOn(s, t, r, name) && t.attempts == s.attempts)
  {
    var vs := s.attempts[name];
    var t := AttemptStep(s, r, |s.jobs| - 1, name, |vs| - 1, PodNow(s, name), None);
    var uid := Last(vs).pod.value.uid;
    if PodIs(s.pods, name, uid, Phase.Succeeded) || PodIsLost(s.pods, name, uid) {
      assert EndedAt(s, t, r, name, Last(t.attempts[name]));
    }
  }

  /** An active attempt with a pod on record, when nobody interferes. The job is Complete if and only if the pod there is
      the recorded one and has succeeded; the attempt fails if and only if the pod is gone, replaced or failed, and then
      the job retries while it may; otherwise neither ends, and a started attempt shows in the job. */
  ghost predicate GivesVerdict(s: System, t: System, name: int)
    requires Active(s, name) && Last(s.attempts[name]).pod.Some?
  {
    var uid := Last(s.attempts[name]).pod.value.uid;
    && |t.jobs| > 0 && name in t.attempts && t.attempts[name] != []
    && var j, k, a := Last(s.jobs), Last(t.jobs), Last(t.attempts[name]);
    && (IsTrue(k.conds, Complete) <==> PodIs(s.pods, name, uid, Phase.Succeeded))
    && (IsTrue(a.conds, Complete) <==> PodIs(s.pods, name, uid, Phase.Succeeded))
    && (IsTrue(a.conds, CondType.Failed) <==> PodIsLost(s.pods, name, uid))
    && (IsTrue(k.conds, CondType.Failed) <==> PodIsLost(s.pods, name, uid) && j.failed + 1 >= j.maxAttempts)
    && (PodIs(s.pods, name, uid, Phase.Succeeded) ==> Decided(j, k, t.attempts, true))
    && (PodIsLost(s.pods, name, uid) ==> Decided(j, k, t.attempts, false))
    && (PodIs(s.pods, name, uid, Phase.Running) ==> a.started && HasCond(k.conds, CondType.Running, true, PodRunning))
    && (PodIs(s.pods, name, uid, Pending) ==>
          t.attempts == s.attempts && if a.started then HasCond(k.conds, CondType.Running, true, PodRunning) else t.jobs == s.jobs)
    && (PodIs(s.pods, name, uid, Phase.Running) || PodIs(s.pods, name, uid, Pending) ==>
          Live(k) && k.active == j.active && k.failed == j.failed && k.completed == j.completed)
  }

  lemma FreshVerdict(s: System, r: int, name: int)
    requires CanPass(s, r) && Active(s, name) && Last(s.attempts[name]).pod.Some? && !Terminal(Last(s.attempts[name]).conds)
    ensures GivesVerdict(s, Run(s, FreshReconcile(s, r)), name)
  {
    hide JobOk, VersionsOk, Later, NumbersOk, PcOk, PodsInv, FreshReconcile, Run, AttemptStep, Decided, RetriedTo, EndedAt, Next, HasCond;
    var uid := Last(s.attempts[name]).pod.value.uid;
    var f := First(s, r);
    FreshIsFirst(s, r);
    FirstIsAttemptStep(s, r, name);
    Observes(Snap(s, r), r, name);
    if PodIs(s.pods, name, uid, Phase.Succeeded) {
      var a :| EndedAt(Snap(s, r), f, r, name, a) && IsTrue(a.conds, Complete) && !IsTrue(a.conds, CondType.Failed);
      EndDecides(s, f, r, name, a);
    } else if PodIsLost(s.pods, name, uid) {
      var a :| EndedAt(Snap(s, r), f, r, name, a) && IsTrue(a.conds, CondType.Failed) && !IsTrue(a.conds, Complete);
      EndDecides(s, f, r, name, a);
    } else if Last(f.attempts[name]).started {
      Notes(f, r);
    } else {
      Rests(f, r);
    }
  }

  /** The attempt's end, and the decision that follows in the same pass. */
  lemma EndDecides(s: System, f: System, r: int, name: int, a: Attempt)
    requires CanPass(s, r) && Active(s, name) && Inv(f) && EndedAt(Snap(s, r), f, r, name, a) && Terminal(a.conds)
    ensures var u := Next(Next(f, r), r);
            && |u.jobs| > 0 && name in u.attempts && u.attempts[name] != [] && Last(u.attempts[name]) == a
            && Decided(Last(s.jobs), Last(u.jobs), u.attempts, IsTrue(a.conds, Complete))
            && (IsTrue(Last(u.jobs).conds, Complete) <==> IsTrue(a.conds, Complete))
            && (IsTrue(Last(u.jobs).conds, CondType.Failed) <==> !IsTrue(a.conds, Complete) && Last(s.jobs).failed + 1 >= Last(s.jobs).maxAttempts)
  {
    hide JobOk, VersionsOk, Later, NumbersOk, PcOk, PodsInv, Decided, Next;
    Decides(f, r, name, |s.attempts[name]|);
    var u := Next(Next(f, r), r);
    assert Inv(u) by { StepKeepsBoth(f, r); }
    OneVerdict(u);
    Verdicts(Last(s.jobs), Last(u.jobs), u.attempts, IsTrue(a.conds, Complete));
  }

  lemma StepKeepsBoth(f: System, r: int)
    requires Inv(f)
    ensures Inv(Next(Next(f, r), r))
  {
    hide Inv, Apply;
    ApplyKeeps(f, Advance(r, None, None));
    ApplyKeeps(Next(f, r), Advance(r, None, None));
  }

  lemma OneVerdict(s: System)
    requires Inv(s)
    ensures |s.jobs| > 0 && !(IsTrue(Last(s.jobs).conds, Complete) && IsTrue(Last(s.jobs).conds, CondType.Failed))
  {
    hide VersionsOk, Later, NumbersOk, PcOk, PodsInv;
    assert JobOk(s.attempts, Last(s.jobs));
  }

  lemma Verdicts(j: Job, k: Job, attempts: map<int, seq<Attempt>>, succeeded: bool)
    requires Decided(j, k, attempts, succeeded) && !(IsTrue(k.conds, Complete) && IsTrue(k.conds, CondType.Failed))
    ensures IsTrue(k.conds, Complete) <==> succeeded
    ensures IsTrue(k.conds, CondType.Failed) <==> !succeeded && j.failed + 1 >= j.maxAttempts
  {
  }

  /** All an undisturbed pass can come to. */
  ghost predicate PassOutcome(s: System, t: System)
    requires |s.jobs| > 0
  {
    var j := Last(s.jobs);
    if !Live(j) then t == s
    else if j.active.None? then Starts(s, t)
    else
      var name := j.active.value.name;
      && Active(s, name)
      && var a := Last(s.attempts[name]);
      if a.pod.None? then GetsPod(s, t, name)
      else if Terminal(a.conds) then DecidesNow(s, t, name)
      else GivesVerdict(s, t, name)
  }

  lemma PassComesTo(s: System, r: int)
    requires Inv(s) && 0 <= r < |s.pcs| && s.pcs[r] == Idle
    ensures PassOutcome(s, Run(s, FreshReconcile(s, r)))
  {
    hide Inv, FreshReconcile, Run, Starts, GetsPod, DecidesNow, GivesVerdict;
    LiveOrOver(s);
    if !Live(Last(s.jobs)) {
      OverStays(s, r);
    } else if Last(s.jobs).active.None? {
      FreshStarts(s, r);
    } else {
      var name := Last(s.jobs).active.value.name;
      if Last(s.attempts[name]).pod.None? {
        FreshRecordsPod(s, r, name);
      } else if Terminal(Last(s.attempts[name]).conds) {
        FreshDecides(s, r, name);
      } else {
        FreshVerdict(s, r, name);
      }
    }
  }

  lemma LiveOrOver(s: System)
    requires Inv(s)
    ensures |s.jobs| > 0 && (Live(Last(s.jobs)) && Last(s.jobs).active.Some? ==> Active(s, Last(s.jobs).active.value.name))
  {
    hide VersionsOk, Later, NumbersOk, PcOk, PodsInv;
    HistoriesThere(s);
    assert JobOk(s.attempts, Last(s.jobs));
  }

  lemma OverStays(s: System, r: int)
    requires Inv(s) && 0 <= r < |s.pcs| && s.pcs[r] == Idle && !Live(Last(s.jobs))
    ensures Run(s, FreshReconcile(s, r)) == s
  {
    hide JobOk, VersionsOk, Later, NumbersOk, PcOk, PodsInv, FreshReconcile, Run;
    FreshIsFirst(s, r);
    SnapOk(s, r);
    OverFirst(s, r);
    Rests(s, r);
  }

  lemma OverFirst(s: System, r: int)
    requires |s.jobs| > 0 && 0 <= r < |s.pcs| && s.pcs[r] == Idle && !Live(Last(s.jobs)) && Enabled(Snap(s, r), FreshReconcile(s, r)[1])
    ensures First(s, r) == s
  {
    assert s.pcs[r := Loaded(|s.jobs| - 1, Newest(s))][r := Idle] == s.pcs;
  }

  // ----- why an attempt ended, whoever read what and whenever -----

  /** A reconciler reads, for the attempt's recorded pod, that it succeeded; or that it is gone, replaced or failed. */
  ghost predicate Judges(s: System, a: Action, o: int, succeeded: bool) {
    && a.Advance? && Enabled(s, a) && s.pcs[a.r].Loaded?
    && o in s.attempts && s.attempts[o] != [] && !Terminal(Last(s.attempts[o]).conds) && Last(s.attempts[o]).pod.Some?
    && var uid := Last(s.attempts[o]).pod.value.uid;
    if succeeded then a.obs == Some(Pod(o, uid, Phase.Succeeded))
    else a.obs.None? || a.obs.value.uid != uid || a.obs.value.phase == Phase.Failed
  }

  /** The attempt has this verdict. */
  ghost predicate Ended(s: System, o: int, succeeded: bool) {
    o in s.attempts && s.attempts[o] != [] && IsTrue(Last(s.attempts[o]).conds, if succeeded then Complete else CondType.Failed)
  }

  lemma NewVerdictOfRead(s: System, r: int, ji: int, listed: map<int, int>, obs: Option<Pod>, again: Option<Pod>, o: int, succeeded: bool)
    requires Inv(s) && 0 <= r < |s.pcs| && s.pcs[r] == Loaded(ji, listed) && Enabled(s, Advance(r, obs, again))
    requires Ended(LoadedStep(s, r, ji, listed, obs, again), o, succeeded) && !Ended(s, o, succeeded)
    ensures Judges(s, Advance(r, obs, again), o, succeeded)
  {
    hide JobsInv, VersionsOk, NumbersOk, PcOk, PodsInv, AttemptStep, Ended, Judges;
    NeverDisowned(s, ji, listed);
    var j := s.jobs[ji];
    if !Terminal(j.conds) && j.active.Some? && j.active.value.name in listed
       && !Terminal(s.attempts[j.active.value.name][listed[j.active.value.name]].conds) {
      var name := j.active.value.name;
      RecordedName(s, name, listed[name]);
      ReadGivesVerdict(s, r, ji, name, listed[name], obs, again, o, succeeded);
    } else {
      OtherLoaded(s, r, ji, listed, obs, again, o, succeeded);
    }
  }

  lemma RecordedName(s: System, name: int, ai: int)
    requires Inv(s) && name in s.attempts && 0 <= ai < |s.attempts[name]|
    ensures !(IsTrue(s.attempts[name][ai].conds, Complete) && IsTrue(s.attempts[name][ai].conds, CondType.Failed))
  {
    hide JobOk, Later, NumbersOk, PcOk;
    assert VersionsOk(s.seen, s.jobs[0].uid, name, s.attempts[name]);
    assert s.attempts[name][ai] in s.attempts[name];
  }

  lemma ReadGivesVerdict(s: System, r: int, ji: int, name: int, ai: int, obs: Option<Pod>, again: Option<Pod>, o: int, succeeded: bool)
    requires 0 <= r < |s.pcs| && s.pcs[r].Loaded? && Enabled(s, Advance(r, obs, again)) && InRange(s, AttemptDone(ji, name, ai))
    requires !Terminal(s.attempts[name][ai].conds) && (obs.Some? ==> obs.value.name == name)
    requires Ended(AttemptStep(s, r, ji, name, ai, obs, again), o, succeeded) && !Ended(s, o, succeeded)
    ensures Judges(s, Advance(r, obs, again), o, succeeded)
  {
  }

  /** A snapshot that is not followed to a pod gives no verdict. */
  lemma OtherLoaded(s: System, r: int, ji: int, listed: map<int, int>, obs: Option<Pod>, again: Option<Pod>, o: int, succeeded: bool)
    requires 0 <= r < |s.pcs| && InRange(s, Loaded(ji, listed)) && !Ended(s, o, succeeded)
    requires var j := s.jobs[ji];
             Terminal(j.conds) || j.active.None? || j.active.value.name !in listed
             || Terminal(s.attempts[j.active.value.name][listed[j.active.value.name]].conds)
    ensures !Ended(LoadedStep(s, r, ji, listed, obs, again), o, succeeded)
  {
  }

  lemma NewVerdict(s: System, a: Action, o: int, succeeded: bool)
    requires Inv(s) && Ended(Apply(s, a), o, succeeded) && !Ended(s, o, succeeded)
    ensures Judges(s, a, o, succeeded)
  {
    hide Judges, LoadedStep, Inv, Ended;
    if Enabled(s, a) && a.Advance? && s.pcs[a.r].Loaded? {
      NewVerdictOfRead(s, a.r, s.pcs[a.r].ji, s.pcs[a.r].listed, a.obs, a.again, o, succeeded);
    } else {
      NoVerdict(s, a, o, succeeded);
    }
  }

  /** No other step gives an attempt a verdict. */
  lemma NoVerdict(s: System, a: Action, o: int, succeeded: bool)
    requires !(Enabled(s, a) && a.Advance? && s.pcs[a.r].Loaded?) && !Ended(s, o, succeeded)
    ensures !Ended(Apply(s, a), o, succeeded)
  {
    if Enabled(s, a) && a.Advance? {
      match s.pcs[a.r]
      case AttemptDone(ji, name, ai) => DoneGivesNone(s, a.r, ji, name, ai, o, succeeded);
      case _ =>
    }
  }

  lemma DoneGivesNone(s: System, r: int, ji: int, name: int, ai: int, o: int, succeeded: bool)
    requires 0 <= r < |s.pcs| && InRange(s, AttemptDone(ji, name, ai)) && !Ended(s, o, succeeded)
    ensures !Ended(DoneStep(s, r, ji, name, ai), o, succeeded)
  {
  }

  /** And such a read of the newest version gives the verdict, however old the job that was read with it. */
  lemma ReadDecides(s: System, a: Action, o: int, succeeded: bool)
    requires Inv(s) && Judges(s, a, o, succeeded)
    requires var j := s.jobs[s.pcs[a.r].ji]; Live(j) && j.active.Some? && j.active.value.name == o
    requires o in s.pcs[a.r].listed && s.pcs[a.r].listed[o] == |s.attempts[o]| - 1
    ensures Ended(Apply(s, a), o, succeeded)
  {
    hide JobsInv, VersionsOk, NumbersOk, PcOk, PodsInv;
    NeverDisowned(s, s.pcs[a.r].ji, s.pcs[a.r].listed);
  }

  /** A read that it runs marks it started, one that it is pending changes nothing; either way a started attempt is going to
      be noted in the job. */
  lemma ReadRuns(s: System, r: int, ji: int, listed: map<int, int>, p: Pod, again: Option<Pod>, o: int)
    requires Inv(s) && 0 <= r < |s.pcs| && s.pcs[r] == Loaded(ji, listed) && Enabled(s, Advance(r, Some(p), again))
    requires Live(s.jobs[ji]) && s.jobs[ji].active.Some? && s.jobs[ji].active.value.name == o
    requires o in listed && listed[o] == |s.attempts[o]| - 1 && !Terminal(Last(s.attempts[o]).conds)
    requires Last(s.attempts[o]).pod.Some? && p.uid == Last(s.attempts[o]).pod.value.uid && (p.phase.Running? || p.phase.Pending?)
    ensures var t := Apply(s, Advance(r, Some(p), again));
            && t.jobs == s.jobs && o in t.attempts && t.attempts[o] != [] && !Terminal(Last(t.attempts[o]).conds)
            && (Last(t.attempts[o]).started <==> p.phase.Running? || Last(s.attempts[o]).started)
            && (p.phase.Running? && !Last(s.attempts[o]).started ==> HasCond(Last(t.attempts[o]).conds, CondType.Running, true, PodRunning))
            && (p.phase.Pending? ==> t.attempts == s.attempts)
            && t.pcs[r] == if Last(t.attempts[o]).started then RunningNote(ji) else Idle
  {
    hide JobsInv, VersionsOk, NumbersOk, PcOk, PodsInv;
    NeverDisowned(s, ji, listed);
  }

  /** An attempt without a pod on record takes the pod that was read; if none was and none is there, a new one; if one is
      there after all, the one read then. No pod that is there is ever replaced. */
  lemma TakesPod(s: System, r: int, ji: int, listed: map<int, int>, obs: Option<Pod>, again: Option<Pod>, o: int)
    requires Inv(s) && 0 <= r < |s.pcs| && s.pcs[r] == Loaded(ji, listed) && Enabled(s, Advance(r, obs, again))
    requires Live(s.jobs[ji]) && s.jobs[ji].active.Some? && s.jobs[ji].active.value.name == o && o in listed
    requires s.attempts[o][listed[o]].pod.None? && !Terminal(s.attempts[o][listed[o]].conds)
    ensures var t, made := Apply(s, Advance(r, obs, again)), Pod(o, s.nextUid, Pending);
            && t.jobs == s.jobs && t.attempts == s.attempts
            && t.pods == (if obs.None? && o !in s.pods then s.pods[o := made] else s.pods)
            && t.pcs[r] == if obs.Some? then HavePod(ji, o, listed[o], obs.value)
                           else if o !in s.pods then HavePod(ji, o, listed[o], made)
                           else if again.Some? then HavePod(ji, o, listed[o], again.value) else Idle
  {
    hide JobsInv, VersionsOk, NumbersOk, PcOk, PodsInv;
    NeverDisowned(s, ji, listed);
  }

  /** Over every run: an attempt is Complete, or Failed, only because some reconciler read of the pod it had on record
      then, the attempt not having ended, that it succeeded, or that it was gone, replaced or failed. */
  lemma {:induction false} EndedBecause(uid: int, maxAttempts: int, reconcilers: nat, acts: seq<Action>, o: int, succeeded: bool)
    requires Ended(Run(Init(uid, maxAttempts, reconcilers), acts), o, succeeded)
    ensures exists k | 0 <= k < |acts| :: Judges(Run(Init(uid, maxAttempts, reconcilers), acts[..k]), acts[k], o, succeeded)
    decreases |acts|
  {
    hide Judges, Apply, Inv;
    var i := Init(uid, maxAttempts, reconcilers);
    if acts != [] {
      var n := |acts| - 1;
      assert acts == acts[..n] + [acts[n]];
      RunAppend(i, acts[..n], [acts[n]]);
      assert Run(Run(i, acts[..n]), [acts[n]]) == Run(Apply(Run(i, acts[..n]), acts[n]), [acts[n]][1..]);
      if Ended(Run(i, acts[..n]), o, succeeded) {
        EndedBecause(uid, maxAttempts, reconcilers, acts[..n], o, succeeded);
        var k :| 0 <= k < n && Judges(Run(i, acts[..n][..k]), acts[..n][k], o, succeeded);
        assert acts[..n][..k] == acts[..k];
      } else {
        InitOk(uid, maxAttempts, reconcilers);
        RunKeeps(i, acts[..n]);
        assert Inv(Run(i, acts[..n])) by { KeptInv(i, Run(i, acts[..n])); }
        NewVerdict(Run(i, acts[..n]), acts[n], o, succeeded);
      }
    }
  }

  lemma KeptInv(s: System, t: System)
    requires Keeps(s, t)
    ensures Inv(t)
  {
  }

  // ----- cancelling -----

  /** Cancelling ends a live job at once if it is read at its newest version, and does nothing at an older one or after
      the end. */
  lemma CancelEndsIff(s: System, ji: int)
    requires |s.jobs| > 0 && 0 <= ji < |s.jobs|
    ensures var t := Apply(s, Cancel(ji));
            && |t.jobs| > 0 && t.attempts == s.attempts && t.pods == s.pods && t.pcs == s.pcs
            && (if ji == |s.jobs| - 1 && Live(Last(s.jobs))
                then t.jobs[..|s.jobs|] == s.jobs && |t.jobs| == |s.jobs| + 1
                     && HasCond(Last(t.jobs).conds, CondType.Failed, true, Cancelled)
                     && Last(t.jobs) == Last(s.jobs).(conds := Last(t.jobs).conds)
                else t.jobs == s.jobs)
  {
  }
}
