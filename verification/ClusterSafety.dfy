/** What every step of the AgentJob protocol keeps, and what follows for every run. */
module ClusterSafety {
  import opened Conditions
  import opened Cluster

  ghost predicate Live(j: Job) { !Terminal(j.conds) }

  ghost predicate OutOfRetries(j: Job) {
    CondType.Failed in j.conds && j.conds[CondType.Failed] == Condition(CondType.Failed, true, RetriesExhausted)
  }

  /** A version of an attempt that ended in failure. */
  ghost predicate FailedFor(a: Attempt) { Terminal(a.conds) && !IsTrue(a.conds, Complete) }

  /** What each version of the job says about the attempts there are now. */
  ghost predicate JobOk(attempts: map<int, seq<Attempt>>, j: Job) {
    && j.failed >= 0
    && (j.active.Some? ==> j.active.value.name == j.active.value.ordinal && j.active.value.name in attempts)
    && (Live(j) ==> j.completed == 0 && if j.active.None? then j.failed == 0 else j.active.value.ordinal == j.failed + 1)
    && (IsTrue(j.conds, Complete) ==>
          && !IsTrue(j.conds, CondType.Failed)
          && j.completed == 1 && j.failed + 1 == |attempts|
          && j.active.Some? && j.active.value.ordinal == |attempts|
          && attempts[|attempts|] != [] && IsTrue(Last(attempts[|attempts|]).conds, Complete))
    && (OutOfRetries(j) ==> j.completed == 0 && 1 <= j.failed == |attempts|)
  }

  /** What a later version of the job keeps of an earlier one. */
  ghost predicate Later(i: Job, j: Job) {
    && i.uid == j.uid
    && i.maxAttempts <= j.maxAttempts
    && (i.active.Some? ==> j.active.Some? && i.active.value.ordinal <= j.active.value.ordinal)
    && (Live(i) && OutOfRetries(j) ==> i.maxAttempts <= j.failed)
    && (Terminal(i.conds) ==> j.conds == i.conds && j.failed == i.failed && j.completed == i.completed && j.active == i.active)
  }

  /** The versions of one attempt: terminal at most in the last one and then with a pod recorded before,
      its pod reference never changes, and Complete only if the recorded pod was seen Succeeded. */
  ghost predicate VersionsOk(seen: set<Pod>, uid: int, name: int, vs: seq<Attempt>) {
    && |vs| > 0
    && (forall v | v in vs ::
          && v.ordinal == name && v.jobUid == uid
          && (Terminal(v.conds) ==> v.pod.Some?)
          && (v.pod.Some? ==> v.pod.value.name == name)
          && (v.started ==> v.pod.Some?)
          && !(IsTrue(v.conds, Complete) && IsTrue(v.conds, CondType.Failed))
          && (IsTrue(v.conds, Complete) ==> Pod(name, v.pod.value.uid, Phase.Succeeded) in seen))
    && (forall i | 0 <= i < |vs| - 1 :: !Terminal(vs[i].conds))
    && (Terminal(Last(vs).conds) ==> |vs| > 1 && vs[|vs| - 2].pod == Last(vs).pod)
    && (forall i, j | 0 <= i <= j < |vs| :: vs[i].pod.Some? ==> vs[j].pod == vs[i].pod)
  }

  ghost predicate JobsInv(jobs: seq<Job>, attempts: map<int, seq<Attempt>>) {
    && |jobs| > 0
    && (forall i | 0 <= i < |jobs| :: JobOk(attempts, jobs[i]))
    && (forall i, j | 0 <= i <= j < |jobs| :: Later(jobs[i], jobs[j]))
  }

  ghost predicate HistoriesOk(seen: set<Pod>, uid: int, attempts: map<int, seq<Attempt>>) {
    forall o | o in attempts :: VersionsOk(seen, uid, o, attempts[o])
  }

  /** Attempts are numbered 1..k, all but the last have failed, k is within the budget,
      and no attempt after the active one has a pod. */
  ghost predicate NumbersOk(job: Job, attempts: map<int, seq<Attempt>>)
    requires forall o | o in attempts :: |attempts[o]| > 0
  {
    && (forall o :: o in attempts <==> 1 <= o <= |attempts|)
    && (forall o | 1 <= o < |attempts| :: FailedFor(Last(attempts[o])))
    && (|attempts| >= 2 ==> |attempts| <= job.maxAttempts)
    && (forall o | o in attempts && Last(attempts[o]).pod.Some? ::
          job.active.Some? && o <= job.active.value.ordinal)
  }

  ghost predicate PodsInv(pods: map<int, Pod>, seen: set<Pod>) {
    forall n | n in pods :: pods[n].name == n && pods[n] in seen
  }

  /** What entitles a reconciler to ask for attempt o. */
  ghost predicate MayCreate(s: System, ji: int, o: int, retry: bool) {
    && 0 <= ji < |s.jobs| && Live(s.jobs[ji])
    && if retry then
         && s.jobs[ji].active.Some? && s.jobs[ji].failed + 1 < s.jobs[ji].maxAttempts
         && o == s.jobs[ji].failed + 2
         && o - 1 in s.attempts && s.attempts[o - 1] != [] && FailedFor(Last(s.attempts[o - 1]))
       else o == s.jobs[ji].failed + 1
  }

  /** What a reconciler stopped between two writes can rely on, whatever the others do. */
  ghost predicate PcOk(s: System, pc: Pc) {
    && InRange(s, pc)
    && match pc
       case Idle => true
       case Loaded(_, _) => true
       case HavePod(ji, name, ai, p) =>
         && Live(s.jobs[ji]) && s.jobs[ji].active.Some? && s.jobs[ji].active.value.name == name
         && !Terminal(s.attempts[name][ai].conds) && s.attempts[name][ai].pod.None?
         && p in s.seen && p.name == name
       case AttemptDone(ji, name, ai) =>
         && Live(s.jobs[ji]) && s.jobs[ji].active.Some? && s.jobs[ji].active.value.name == name
         && Terminal(s.attempts[name][ai].conds)
       case RunningNote(ji) => Live(s.jobs[ji])
       case Created(ji, name, retry) =>
         MayCreate(s, ji, name, retry)
  }

  ghost predicate PcsOk(s: System) {
    forall r | 0 <= r < |s.pcs| :: PcOk(s, s.pcs[r])
  }

  ghost predicate Inv(s: System) {
    && JobsInv(s.jobs, s.attempts)
    && HistoriesOk(s.seen, s.jobs[0].uid, s.attempts)
    && NumbersOk(Last(s.jobs), s.attempts)
    && PodsInv(s.pods, s.seen)
    && PcsOk(s)
  }

  /** Versions, attempts and observed pods are only ever added. */
  ghost predicate Extends(s: System, t: System) {
    && s.jobs <= t.jobs
    && (forall n | n in s.attempts :: n in t.attempts && s.attempts[n] <= t.attempts[n])
    && s.seen <= t.seen
  }

  ghost predicate Keeps(s: System, t: System) {
    Inv(t) && Extends(s, t)
  }

  /** The last version of a terminal attempt stays the last one. */
  lemma TerminalIsFinal(seen: set<Pod>, uid: int, name: int, vs: seq<Attempt>, ws: seq<Attempt>)
    requires VersionsOk(seen, uid, name, ws) && |vs| > 0 && vs <= ws && Terminal(Last(vs).conds)
    ensures ws == vs
  {
    assert ws[|vs| - 1] == Last(vs);
  }

  lemma PcStable(s: System, t: System, pc: Pc)
    requires |t.jobs| > 0 && HistoriesOk(t.seen, t.jobs[0].uid, t.attempts) && Extends(s, t) && PcOk(s, pc)
    ensures PcOk(t, pc)
  {
    if pc.Created? && pc.retry {
      var o := s.jobs[pc.ji].failed + 1;
      TerminalIsFinal(t.seen, t.jobs[0].uid, o, s.attempts[o], t.attempts[o]);
    }
  }

  lemma PcsStable(s: System, t: System)
    requires |t.jobs| > 0 && HistoriesOk(t.seen, t.jobs[0].uid, t.attempts) && Extends(s, t) && PcsOk(s)
    requires t.pcs == s.pcs
    ensures PcsOk(t)
  {
    forall r | 0 <= r < |t.pcs| ensures PcOk(t, t.pcs[r]) {
      PcStable(s, t, s.pcs[r]);
    }
  }

  /** Moving one reconciler to a justified place. */
  lemma PcMoves(s: System, r: int, pc: Pc)
    requires Inv(s) && 0 <= r < |s.pcs| && PcOk(s, pc)
    ensures Inv(SetPc(s, r, pc))
  {
    var t := SetPc(s, r, pc);
    forall q | 0 <= q < |t.pcs| ensures PcOk(t, t.pcs[q]) {
      assert PcOk(s, t.pcs[q]);
    }
  }

  /** A new job version. */
  lemma JobAppended(s: System, j: Job)
    requires Inv(s) && JobOk(s.attempts, j) && Later(Last(s.jobs), j)
    ensures Inv(s.(jobs := s.jobs + [j]))
    ensures Extends(s, s.(jobs := s.jobs + [j]))
  {
    var t := s.(jobs := s.jobs + [j]);
    forall i, k | 0 <= i <= k < |t.jobs| ensures Later(t.jobs[i], t.jobs[k]) {
      if i < k == |s.jobs| {
        LaterTransitive(s.jobs[i], Last(s.jobs), j);
      }
    }
    PcsStable(s, t);
  }

  lemma LaterTransitive(i: Job, j: Job, k: Job)
    requires Later(i, j) && Later(j, k)
    ensures Later(i, k)
  {
  }

  /** A new version of a non-terminal attempt. */
  lemma AttemptAppended(s: System, name: int, a: Attempt)
    requires Inv(s) && name in s.attempts && s.attempts[name] != []
    requires !Terminal(Last(s.attempts[name]).conds)
    requires VersionsOk(s.seen, s.jobs[0].uid, name, s.attempts[name] + [a])
    requires a.pod.Some? ==> Last(s.jobs).active.Some? && name <= Last(s.jobs).active.value.ordinal
    ensures var t := s.(attempts := s.attempts[name := s.attempts[name] + [a]]); Keeps(s, t)
  {
    hide JobOk, Later, VersionsOk, NumbersOk, PcOk;
    HistoriesThere(s);
    var t := s.(attempts := s.attempts[name := s.attempts[name] + [a]]);
    assert t.attempts.Keys == s.attempts.Keys;
    assert |t.attempts| == |s.attempts|;
    assert JobsInv(t.jobs, t.attempts) by {
      forall i | 0 <= i < |t.jobs| ensures JobOk(t.attempts, t.jobs[i]) {
        JobOkStable(s.attempts, name, a, s.jobs[i]);
      }
    }
    NumbersAppended(Last(s.jobs), s.attempts, name, a);
    PcsStable(s, t);
  }

  lemma NumbersAppended(job: Job, attempts: map<int, seq<Attempt>>, name: int, a: Attempt)
    requires forall o | o in attempts :: |attempts[o]| > 0
    requires NumbersOk(job, attempts) && name in attempts && !Terminal(Last(attempts[name]).conds)
    requires a.pod.Some? ==> job.active.Some? && name <= job.active.value.ordinal
    ensures NumbersOk(job, attempts[name := attempts[name] + [a]])
  {
    var after := attempts[name := attempts[name] + [a]];
    assert after.Keys == attempts.Keys && |after| == |attempts|;
  }

  lemma NumbersAdded(job: Job, attempts: map<int, seq<Attempt>>, o: int, a: Attempt)
    requires forall n | n in attempts :: |attempts[n]| > 0
    requires NumbersOk(job, attempts) && o == |attempts| + 1 && a.pod.None?
    requires o >= 2 ==> o <= job.maxAttempts && FailedFor(Last(attempts[o - 1]))
    ensures NumbersOk(job, attempts[o := [a]])
  {
    assert |attempts[o := [a]]| == o;
  }

  lemma JobOkStable(attempts: map<int, seq<Attempt>>, name: int, a: Attempt, j: Job)
    requires JobOk(attempts, j) && name in attempts && attempts[name] != [] && !Terminal(Last(attempts[name]).conds)
    ensures JobOk(attempts[name := attempts[name] + [a]], j)
  {
    assert attempts[name := attempts[name] + [a]].Keys == attempts.Keys;
    assert |attempts[name := attempts[name] + [a]]| == |attempts|;
  }

  lemma HistoriesThere(s: System)
    requires Inv(s)
    ensures forall n | n in s.attempts :: |s.attempts[n]| > 0
  {
    hide JobOk, Later, NumbersOk, PcOk;
    forall n | n in s.attempts ensures |s.attempts[n]| > 0 {
      assert VersionsOk(s.seen, s.jobs[0].uid, n, s.attempts[n]);
    }
  }

  /** The next attempt is created only after all the others failed, and within the budget. */
  lemma NextIsNext(s: System, ji: int, o: int, retry: bool)
    requires Inv(s) && MayCreate(s, ji, o, retry) && o !in s.attempts
    ensures o == |s.attempts| + 1
    ensures o >= 2 ==> o - 1 in s.attempts && s.attempts[o - 1] != [] && o <= Last(s.jobs).maxAttempts && FailedFor(Last(s.attempts[o - 1]))
    ensures forall i | 0 <= i < |s.jobs| :: !IsTrue(s.jobs[i].conds, Complete) && !OutOfRetries(s.jobs[i])
  {
    hide VersionsOk, PcOk, PodsInv;
    var j := s.jobs[ji];
    assert JobOk(s.attempts, j);
    assert Later(j, Last(s.jobs));
    HistoriesThere(s);
    assert o == |s.attempts| + 1;
    forall i | 0 <= i < |s.jobs| ensures !IsTrue(s.jobs[i].conds, Complete) && !OutOfRetries(s.jobs[i]) {
      assert JobOk(s.attempts, s.jobs[i]);
      if i <= ji { assert Later(s.jobs[i], j); } else { assert Later(j, s.jobs[i]); }
    }
  }

  lemma JobOkAdded(attempts: map<int, seq<Attempt>>, o: int, a: Attempt, j: Job)
    requires JobOk(attempts, j) && o !in attempts && !IsTrue(j.conds, Complete) && !OutOfRetries(j)
    ensures JobOk(attempts[o := [a]], j)
  {
  }

  lemma HistoryAdded(s: System, o: int, a: Attempt)
    requires Inv(s) && o !in s.attempts && a.ordinal == o && a.jobUid == s.jobs[0].uid && a.pod.None? && !a.started && a.conds == map[]
    ensures HistoriesOk(s.seen, s.jobs[0].uid, s.attempts[o := [a]])
  {
    hide JobOk, Later, NumbersOk, PodsInv, PcOk;
    assert VersionsOk(s.seen, s.jobs[0].uid, o, [a]);
  }

  lemma AttemptAdded(s: System, ji: int, o: int, retry: bool)
    requires Inv(s) && MayCreate(s, ji, o, retry) && o !in s.attempts
    ensures var a := Attempt(s.nextUid, s.jobs[ji].uid, o, None, false, map[]);
            var t := s.(attempts := s.attempts[o := [a]], nextUid := s.nextUid + 1);
            Keeps(s, t) && PcOk(t, Created(ji, o, retry))
  {
    hide JobOk, VersionsOk, NumbersOk, PodsInv, PcOk, FailedFor, Live, OutOfRetries;
    NextIsNext(s, ji, o, retry);
    var a := Attempt(s.nextUid, s.jobs[ji].uid, o, None, false, map[]);
    var t := s.(attempts := s.attempts[o := [a]], nextUid := s.nextUid + 1);
    assert Later(s.jobs[0], s.jobs[ji]);
    HistoryAdded(s, o, a);
    forall i | 0 <= i < |t.jobs| ensures JobOk(t.attempts, t.jobs[i]) {
      JobOkAdded(s.attempts, o, a, s.jobs[i]);
    }
    assert NumbersOk(Last(t.jobs), t.attempts) by { NumbersAfter(s, o, a); }
    PcsStable(s, t);
    CreatedOk(s, t, ji, o, retry);
  }

  lemma NumbersAfter(s: System, o: int, a: Attempt)
    requires Inv(s) && o !in s.attempts && o == |s.attempts| + 1 && a.pod.None?
    requires o >= 2 ==> o - 1 in s.attempts && s.attempts[o - 1] != [] && o <= Last(s.jobs).maxAttempts && FailedFor(Last(s.attempts[o - 1]))
    ensures (forall n | n in s.attempts :: |s.attempts[n]| > 0) && NumbersOk(Last(s.jobs), s.attempts[o := [a]])
  {
    hide JobOk, Later, PcOk, PodsInv, FailedFor;
    HistoriesThere(s);
    NumbersAdded(Last(s.jobs), s.attempts, o, a);
  }

  lemma CreatedOk(s: System, t: System, ji: int, o: int, retry: bool)
    requires MayCreate(s, ji, o, retry) && t.jobs == s.jobs && o in t.attempts && t.attempts[o] != []
    requires forall n | n in s.attempts :: n in t.attempts && t.attempts[n] == s.attempts[n]
    ensures PcOk(t, Created(ji, o, retry))
  {
  }

  /** Whatever happens to pods. */
  lemma PodsChanged(s: System, pods: map<int, Pod>, seen: set<Pod>, nextUid: int)
    requires Inv(s) && s.seen <= seen && PodsInv(pods, seen)
    ensures var t := s.(pods := pods, seen := seen, nextUid := nextUid); Keeps(s, t)
  {
    PcsStable(s, s.(pods := pods, seen := seen, nextUid := nextUid));
  }

  // ----- every step keeps the invariant -----

  lemma JobWritten(s: System, r: int, ji: int, j: Job, next: Pc)
    requires Inv(s) && 0 <= r < |s.pcs| && PcOk(s, next)
    requires ji == |s.jobs| - 1 ==> JobOk(s.attempts, j) && Later(Last(s.jobs), j)
    ensures Keeps(s, WriteJob(s, r, ji, j, next))
  {
    if ji == |s.jobs| - 1 {
      JobAppended(s, j);
      var t := s.(jobs := s.jobs + [j]);
      PcStable(s, t, next);
      PcMoves(t, r, next);
    } else {
      PcMoves(s, r, Idle);
    }
  }

  lemma AttemptWritten(s: System, r: int, name: int, ai: int, a: Attempt, next: Pc)
    requires Inv(s) && 0 <= r < |s.pcs| && name in s.attempts && s.attempts[name] != []
    requires ai == |s.attempts[name]| - 1 ==>
               && !Terminal(s.attempts[name][ai].conds)
               && VersionsOk(s.seen, s.jobs[0].uid, name, s.attempts[name] + [a])
               && (a.pod.Some? ==> Last(s.jobs).active.Some? && name <= Last(s.jobs).active.value.ordinal)
               && PcOk(s.(attempts := s.attempts[name := s.attempts[name] + [a]]), next)
    ensures Keeps(s, WriteAttempt(s, r, name, ai, a, next))
  {
    if ai == |s.attempts[name]| - 1 {
      AttemptAppended(s, name, a);
      PcMoves(s.(attempts := s.attempts[name := s.attempts[name] + [a]]), r, next);
    } else {
      PcMoves(s, r, Idle);
    }
  }

  lemma GotOrCreated(s: System, r: int, ji: int, o: int, retry: bool)
    requires Inv(s) && 0 <= r < |s.pcs| && MayCreate(s, ji, o, retry)
    ensures Keeps(s, GetOrCreate(s, r, ji, o, retry))
  {
    var next := Created(ji, o, retry);
    if o in s.attempts {
      PcMoves(s, r, next);
    } else {
      AttemptAdded(s, ji, o, retry);
      var a := Attempt(s.nextUid, s.jobs[ji].uid, o, None, false, map[]);
      var u := s.(attempts := s.attempts[o := [a]], nextUid := s.nextUid + 1);
      PcMoves(u, r, next);
      assert GetOrCreate(s, r, ji, o, retry) == SetPc(u, r, next);
    }
  }

  /** Appending to a history that is not yet terminal. */
  lemma VersionAdded(s: System, name: int, ai: int, a: Attempt)
    requires Inv(s) && name in s.attempts && ai == |s.attempts[name]| - 1 >= 0
    requires !Terminal(s.attempts[name][ai].conds)
    requires var b := s.attempts[name][ai];
             && a.ordinal == b.ordinal && a.jobUid == b.jobUid
             && (b.pod.Some? ==> a.pod == b.pod)
    requires a.pod.Some? ==> a.pod.value.name == name
    requires a.started ==> a.pod.Some?
    requires Terminal(a.conds) ==> s.attempts[name][ai].pod.Some?
    requires !(IsTrue(a.conds, Complete) && IsTrue(a.conds, CondType.Failed))
    requires IsTrue(a.conds, Complete) ==> Pod(name, a.pod.value.uid, Phase.Succeeded) in s.seen
    ensures VersionsOk(s.seen, s.jobs[0].uid, name, s.attempts[name] + [a])
  {
    var vs := s.attempts[name];
    assert vs[ai] in vs;
    forall v | v in vs + [a] ensures v in vs || v == a {
    }
  }

  /** A live job's active attempt is not ahead of the newest job version. */
  lemma ActiveNow(s: System, ji: int)
    requires Inv(s) && 0 <= ji < |s.jobs| && s.jobs[ji].active.Some?
    ensures Last(s.jobs).active.Some? && s.jobs[ji].active.value.ordinal <= Last(s.jobs).active.value.ordinal
    ensures s.jobs[ji].active.value.name == s.jobs[ji].active.value.ordinal
  {
    assert Later(s.jobs[ji], Last(s.jobs)) && JobOk(s.attempts, s.jobs[ji]);
  }

  ghost predicate AtAttempt(s: System, ji: int, name: int, ai: int) {
    && InRange(s, AttemptDone(ji, name, ai)) && Live(s.jobs[ji])
    && s.jobs[ji].active.Some? && s.jobs[ji].active.value.name == name
    && !Terminal(s.attempts[name][ai].conds)
  }

  lemma AttemptWriteKeeps(s: System, r: int, ji: int, name: int, ai: int, a: Attempt, next: Pc)
    requires Inv(s) && 0 <= r < |s.pcs| && AtAttempt(s, ji, name, ai)
    requires ai == |s.attempts[name]| - 1 ==> VersionsOk(s.seen, s.jobs[0].uid, name, s.attempts[name] + [a])
    requires next == Idle || next == RunningNote(ji) || (next == AttemptDone(ji, name, ai + 1) && Terminal(a.conds))
    ensures Keeps(s, WriteAttempt(s, r, name, ai, a, next))
  {
    ActiveNow(s, ji);
    AttemptWritten(s, r, name, ai, a, next);
  }

  function WithNewPod(s: System, p: Pod): System {
    s.(pods := s.pods[p.name := p], seen := s.seen + {p}, nextUid := s.nextUid + 1)
  }

  lemma PodCreatedKeeps(s: System, r: int, ji: int, name: int, ai: int, p: Pod)
    requires Inv(s) && 0 <= r < |s.pcs| && AtAttempt(s, ji, name, ai) && s.attempts[name][ai].pod.None?
    requires p.name == name
    ensures var t := SetPc(WithNewPod(s, p), r, HavePod(ji, name, ai, p)); Keeps(s, t)
  {
    hide JobsInv, HistoriesOk, NumbersOk, PcsOk;
    PodsChanged(s, s.pods[name := p], s.seen + {p}, s.nextUid + 1);
    PcMoves(WithNewPod(s, p), r, HavePod(ji, name, ai, p));
  }

  lemma PodStepKeeps(s: System, r: int, ji: int, name: int, ai: int, obs: Option<Pod>, again: Option<Pod>)
    requires Inv(s) && 0 <= r < |s.pcs| && AtAttempt(s, ji, name, ai) && s.attempts[name][ai].pod.None?
    requires obs.Some? ==> obs.value in s.seen && obs.value.name == name
    requires again.Some? ==> again.value in s.seen && again.value.name == name
    ensures var t := AttemptStep(s, r, ji, name, ai, obs, again); Keeps(s, t)
  {
    var t := AttemptStep(s, r, ji, name, ai, obs, again);
    if obs.None? && name !in s.pods {
      var p := Pod(name, s.nextUid, Pending);
      PodCreatedKeeps(s, r, ji, name, ai, p);
      assert t == SetPc(WithNewPod(s, p), r, HavePod(ji, name, ai, p));
    } else {
      var pc := if obs.Some? then HavePod(ji, name, ai, obs.value)
                else if again.Some? then HavePod(ji, name, ai, again.value) else Idle;
      PcMoves(s, r, pc);
      assert t == SetPc(s, r, pc);
    }
  }

  /** A version that marks the attempt failed, succeeded or running. */
  lemma MarkKeeps(s: System, r: int, ji: int, name: int, ai: int, a: Attempt, next: Pc)
    requires Inv(s) && 0 <= r < |s.pcs| && AtAttempt(s, ji, name, ai)
    requires var b := s.attempts[name][ai];
             && b.pod.Some?
             && ((next == AttemptDone(ji, name, ai + 1) && exists started :: a == MarkFailed(b, started))
                 || (next == AttemptDone(ji, name, ai + 1) && a == MarkSucceeded(b)
                     && Pod(name, b.pod.value.uid, Phase.Succeeded) in s.seen)
                 || (next == RunningNote(ji) && a == MarkRunning(b)))
    ensures Keeps(s, WriteAttempt(s, r, name, ai, a, next))
  {
    assert s.attempts[name][ai] in s.attempts[name];
    if ai == |s.attempts[name]| - 1 { VersionAdded(s, name, ai, a); }
    AttemptWriteKeeps(s, r, ji, name, ai, a, next);
  }

  lemma AttemptStepKeeps(s: System, r: int, ji: int, name: int, ai: int, obs: Option<Pod>, again: Option<Pod>)
    requires Inv(s) && 0 <= r < |s.pcs| && AtAttempt(s, ji, name, ai)
    requires obs.Some? ==> obs.value in s.seen && obs.value.name == name
    requires again.Some? ==> again.value in s.seen && again.value.name == name
    ensures var t := AttemptStep(s, r, ji, name, ai, obs, again); Keeps(s, t)
  {
    var a := s.attempts[name][ai];
    var done := AttemptDone(ji, name, ai + 1);
    if a.pod.None? {
      PodStepKeeps(s, r, ji, name, ai, obs, again);
    } else if obs.None? || obs.value.uid != a.pod.value.uid {
      MarkKeeps(s, r, ji, name, ai, MarkFailed(a, false), done);
    } else {
      match obs.value.phase
      case Failed => MarkKeeps(s, r, ji, name, ai, MarkFailed(a, true), done);
      case Succeeded =>
        assert obs.value == Pod(name, a.pod.value.uid, Phase.Succeeded);
        MarkKeeps(s, r, ji, name, ai, MarkSucceeded(a), done);
      case Running =>
        if a.started { PcMoves(s, r, RunningNote(ji)); }
        else { MarkKeeps(s, r, ji, name, ai, MarkRunning(a), RunningNote(ji)); }
      case Pending => PcMoves(s, r, if a.started then RunningNote(ji) else Idle);
    }
  }

  /** The counters of a live job point at its active attempt. */
  lemma LiveJob(s: System, ji: int)
    requires JobsInv(s.jobs, s.attempts) && 0 <= ji < |s.jobs| && Live(s.jobs[ji])
    ensures var j := s.jobs[ji];
            && j.failed >= 0 && j.completed == 0
            && if j.active.None? then j.failed == 0
               else j.active.value.name == j.active.value.ordinal == j.failed + 1 && j.failed + 1 in s.attempts
  {
    assert JobOk(s.attempts, s.jobs[ji]);
  }

  /** No attempt belongs to another incarnation of the job, so the ownership check never fires. */
  lemma NeverDisowned(s: System, ji: int, listed: map<int, int>)
    requires Inv(s) && InRange(s, Loaded(ji, listed))
    ensures OwnsAll(s, ji, listed)
  {
    assert Later(s.jobs[0], s.jobs[ji]);
    forall n | n in listed ensures s.attempts[n][listed[n]].jobUid == s.jobs[ji].uid {
      assert s.attempts[n][listed[n]] in s.attempts[n];
    }
  }

  lemma InvJobs(s: System)
    requires Inv(s)
    ensures JobsInv(s.jobs, s.attempts)
  {
  }

  lemma FirstCreateKeeps(s: System, r: int, ji: int, listed: map<int, int>, obs: Option<Pod>, again: Option<Pod>)
    requires Inv(s) && 0 <= r < |s.pcs| && InRange(s, Loaded(ji, listed)) && Live(s.jobs[ji])
    requires s.jobs[ji].active.None? || s.jobs[ji].active.value.name !in listed
    ensures Keeps(s, LoadedStep(s, r, ji, listed, obs, again))
  {
    hide Inv, Keeps;
    assert JobsInv(s.jobs, s.attempts) by { InvJobs(s); }
    assert LoadedStep(s, r, ji, listed, obs, again)
        == GetOrCreate(s, r, ji, s.jobs[ji].failed + s.jobs[ji].completed + 1, false) by {
      NeverDisowned(s, ji, listed);
    }
    LiveJob(s, ji);
    GotOrCreated(s, r, ji, s.jobs[ji].failed + s.jobs[ji].completed + 1, false);
  }

  lemma LoadedActiveKeeps(s: System, r: int, ji: int, listed: map<int, int>, obs: Option<Pod>, again: Option<Pod>)
    requires Inv(s) && 0 <= r < |s.pcs| && InRange(s, Loaded(ji, listed))
    requires Readable(s, Loaded(ji, listed), obs) && Readable(s, Loaded(ji, listed), again)
    requires Live(s.jobs[ji]) && s.jobs[ji].active.Some? && s.jobs[ji].active.value.name in listed
    ensures var t := LoadedStep(s, r, ji, listed, obs, again); Keeps(s, t)
  {
    var name := s.jobs[ji].active.value.name;
    NeverDisowned(s, ji, listed);
    if Terminal(s.attempts[name][listed[name]].conds) {
      PcMoves(s, r, AttemptDone(ji, name, listed[name]));
    } else {
      AttemptStepKeeps(s, r, ji, name, listed[name], obs, again);
    }
  }

  lemma LoadedKeeps(s: System, r: int, ji: int, listed: map<int, int>, obs: Option<Pod>, again: Option<Pod>)
    requires Inv(s) && 0 <= r < |s.pcs| && InRange(s, Loaded(ji, listed))
    requires Readable(s, Loaded(ji, listed), obs) && Readable(s, Loaded(ji, listed), again)
    ensures var t := LoadedStep(s, r, ji, listed, obs, again); Keeps(s, t)
  {
    if Terminal(s.jobs[ji].conds) {
      PcMoves(s, r, Idle);
    } else if s.jobs[ji].active.None? || s.jobs[ji].active.value.name !in listed {
      FirstCreateKeeps(s, r, ji, listed, obs, again);
    } else {
      LoadedActiveKeeps(s, r, ji, listed, obs, again);
    }
  }

  /** The verdict of a terminal attempt is the verdict of its last version. */
  lemma DoneIsLast(s: System, name: int, ai: int)
    requires Inv(s) && name in s.attempts && 0 <= ai < |s.attempts[name]| && Terminal(s.attempts[name][ai].conds)
    ensures ai == |s.attempts[name]| - 1
  {
    assert VersionsOk(s.seen, s.jobs[0].uid, name, s.attempts[name]);
  }

  lemma CompletedOk(s: System, ji: int, name: int)
    requires Inv(s) && name in s.attempts && PcOk(s, AttemptDone(ji, name, |s.attempts[name]| - 1)) && ji == |s.jobs| - 1
    requires IsTrue(Last(s.attempts[name]).conds, Complete)
    ensures JobOk(s.attempts, Completed(s.jobs[ji])) && Later(s.jobs[ji], Completed(s.jobs[ji]))
  {
    assert JobOk(s.attempts, s.jobs[ji]);
    assert name == |s.attempts|;
  }

  lemma ExhaustedOk(s: System, ji: int, name: int)
    requires Inv(s) && name in s.attempts && PcOk(s, AttemptDone(ji, name, |s.attempts[name]| - 1)) && ji == |s.jobs| - 1
    requires FailedFor(Last(s.attempts[name])) && s.jobs[ji].failed + 1 >= s.jobs[ji].maxAttempts
    ensures JobOk(s.attempts, Exhausted(s.jobs[ji])) && Later(s.jobs[ji], Exhausted(s.jobs[ji]))
  {
    assert JobOk(s.attempts, s.jobs[ji]);
    assert name == |s.attempts|;
  }

  lemma RetryAllowed(s: System, ji: int, name: int, ai: int)
    requires Inv(s) && PcOk(s, AttemptDone(ji, name, ai))
    requires !IsTrue(s.attempts[name][ai].conds, Complete) && s.jobs[ji].failed + 1 < s.jobs[ji].maxAttempts
    ensures MayCreate(s, ji, (s.jobs[ji].failed + 1) + s.jobs[ji].completed + 1, true)
  {
    LiveJob(s, ji);
    DoneIsLast(s, name, ai);
  }

  lemma CompleteKeeps(s: System, r: int, ji: int, name: int, ai: int)
    requires Inv(s) && 0 <= r < |s.pcs| && PcOk(s, AttemptDone(ji, name, ai))
    requires IsTrue(s.attempts[name][ai].conds, Complete)
    ensures Keeps(s, WriteJob(s, r, ji, Completed(s.jobs[ji]), Idle))
  {
    DoneIsLast(s, name, ai);
    if ji == |s.jobs| - 1 { CompletedOk(s, ji, name); }
    JobWritten(s, r, ji, Completed(s.jobs[ji]), Idle);
  }

  lemma ExhaustKeeps(s: System, r: int, ji: int, name: int, ai: int)
    requires Inv(s) && 0 <= r < |s.pcs| && PcOk(s, AttemptDone(ji, name, ai))
    requires !IsTrue(s.attempts[name][ai].conds, Complete) && s.jobs[ji].failed + 1 >= s.jobs[ji].maxAttempts
    ensures Keeps(s, WriteJob(s, r, ji, Exhausted(s.jobs[ji]), Idle))
  {
    DoneIsLast(s, name, ai);
    if ji == |s.jobs| - 1 { ExhaustedOk(s, ji, name); }
    JobWritten(s, r, ji, Exhausted(s.jobs[ji]), Idle);
  }

  lemma RetryKeeps(s: System, r: int, ji: int, name: int, ai: int)
    requires Inv(s) && 0 <= r < |s.pcs| && PcOk(s, AttemptDone(ji, name, ai))
    requires !IsTrue(s.attempts[name][ai].conds, Complete) && s.jobs[ji].failed + 1 < s.jobs[ji].maxAttempts
    ensures Keeps(s, GetOrCreate(s, r, ji, (s.jobs[ji].failed + 1) + s.jobs[ji].completed + 1, true))
  {
    RetryAllowed(s, ji, name, ai);
    GotOrCreated(s, r, ji, (s.jobs[ji].failed + 1) + s.jobs[ji].completed + 1, true);
  }

  lemma DoneKeeps(s: System, r: int, ji: int, name: int, ai: int)
    requires Inv(s) && 0 <= r < |s.pcs| && PcOk(s, AttemptDone(ji, name, ai))
    ensures Keeps(s, DoneStep(s, r, ji, name, ai))
  {
    var t := DoneStep(s, r, ji, name, ai);
    if IsTrue(s.attempts[name][ai].conds, Complete) {
      assert t == WriteJob(s, r, ji, Completed(s.jobs[ji]), Idle);
      CompleteKeeps(s, r, ji, name, ai);
    } else if s.jobs[ji].failed + 1 < s.jobs[ji].maxAttempts {
      assert t == GetOrCreate(s, r, ji, (s.jobs[ji].failed + 1) + s.jobs[ji].completed + 1, true);
      RetryKeeps(s, r, ji, name, ai);
    } else {
      assert t == WriteJob(s, r, ji, Exhausted(s.jobs[ji]), Idle);
      ExhaustKeeps(s, r, ji, name, ai);
    }
  }

  lemma CreatedKeeps(s: System, r: int, ji: int, name: int, retry: bool)
    requires Inv(s) && 0 <= r < |s.pcs| && PcOk(s, Created(ji, name, retry))
    ensures var ref := RefTo(s, name);
            var j := if retry then RetryingWith(s.jobs[ji], ref) else ScheduledWith(s.jobs[ji], ref);
            Keeps(s, WriteJob(s, r, ji, j, Idle))
  {
    var ref := RefTo(s, name);
    assert s.attempts[name][0] in s.attempts[name];
    assert JobOk(s.attempts, s.jobs[ji]);
    JobWritten(s, r, ji, if retry then RetryingWith(s.jobs[ji], ref) else ScheduledWith(s.jobs[ji], ref), Idle);
  }

  lemma HavePodKeeps(s: System, r: int, ji: int, name: int, ai: int, p: Pod)
    requires Inv(s) && 0 <= r < |s.pcs| && PcOk(s, HavePod(ji, name, ai, p))
    ensures var t := WriteAttempt(s, r, name, ai, WithPod(s.attempts[name][ai], p), Idle); Keeps(s, t)
  {
    var a := s.attempts[name][ai];
    assert a in s.attempts[name];
    if ai == |s.attempts[name]| - 1 { VersionAdded(s, name, ai, WithPod(a, p)); }
    AttemptWriteKeeps(s, r, ji, name, ai, WithPod(a, p), Idle);
  }

  lemma StepKeeps(s: System, r: int, obs: Option<Pod>, again: Option<Pod>)
    requires Inv(s) && 0 <= r < |s.pcs| && Readable(s, s.pcs[r], obs) && Readable(s, s.pcs[r], again)
    ensures PcOk(s, s.pcs[r])
    ensures Keeps(s, Step(s, r, obs, again))
  {
    match s.pcs[r]
    case Idle =>
    case Loaded(ji, listed) => LoadedKeeps(s, r, ji, listed, obs, again);
    case HavePod(ji, name, ai, p) => HavePodKeeps(s, r, ji, name, ai, p);
    case AttemptDone(ji, name, ai) => DoneKeeps(s, r, ji, name, ai);
    case RunningNote(ji) =>
      assert JobOk(s.attempts, s.jobs[ji]);
      JobWritten(s, r, ji, NotedRunning(s.jobs[ji]), Idle);
    case Created(ji, name, retry) => CreatedKeeps(s, r, ji, name, retry);
  }

  lemma PodActionKeeps(s: System, a: Action)
    requires Inv(s) && Enabled(s, a) && (a.PodMoves? || a.PodDeleted? || a.PodReplaced?)
    ensures Keeps(s, Apply(s, a))
  {
    hide JobOk, Later, VersionsOk, NumbersOk, PcOk;
    match a
    case PodMoves(name, phase) =>
      var p := s.pods[name].(phase := phase);
      PodsChanged(s, s.pods[p.name := p], s.seen + {p}, s.nextUid);
    case PodDeleted(name) =>
      PodsChanged(s, map n | n in s.pods && n != name :: s.pods[n], s.seen, s.nextUid);
    case PodReplaced(name) =>
      var p := Pod(s.pods[name].name, s.nextUid, Pending);
      PodsChanged(s, s.pods[p.name := p], s.seen + {p}, s.nextUid + 1);
  }

  lemma JobActionKeeps(s: System, a: Action)
    requires Inv(s) && Enabled(s, a) && (a.RaiseMax? || a.Cancel?)
    ensures Keeps(s, Apply(s, a))
  {
    var j := Last(s.jobs);
    var k := if a.RaiseMax? then j.(maxAttempts := a.max) else CancelledJob(j);
    if a.RaiseMax? || (a.ji == |s.jobs| - 1 && !Terminal(j.conds)) {
      assert JobOk(s.attempts, k) && Later(j, k) by { assert JobOk(s.attempts, j); }
      JobAppended(s, k);
      assert Apply(s, a) == s.(jobs := s.jobs + [k]);
    }
  }

  lemma ApplyKeeps(s: System, a: Action)
    requires Inv(s)
    ensures Keeps(s, Apply(s, a))
  {
    if Enabled(s, a) {
      match a
      case Load(r, ji, listed) => PcMoves(s, r, Loaded(ji, listed));
      case Advance(r, obs, again) => StepKeeps(s, r, obs, again);
      case Drop(r) => PcMoves(s, r, Idle);
      case PodMoves(_, _) => PodActionKeeps(s, a);
      case PodDeleted(_) => PodActionKeeps(s, a);
      case PodReplaced(_) => PodActionKeeps(s, a);
      case RaiseMax(_) => JobActionKeeps(s, a);
      case Cancel(_) => JobActionKeeps(s, a);
    }
  }
}
