/** A job deleted and created again under the same name, while attempts and pods of its former incarnation are still
    there (internal/controller/job_controller.go:80-99, 255-304, ownership.go:38-55, attempt_reconciler.go:56-87).
    Names come from counters that start over, so they collide. The new incarnation's reconcilers are those of module
    Cluster, on reads as stale as there; reconcilers of the old one may still create attempts and write their own. */
module Recreation {
  import opened Conditions
  import opened Cluster
  import opened ClusterSafety

  datatype Move = Ours(action: Action) | Theirs(o: int, a: Attempt)

  /** The first job version is the new incarnation's. */
  function Uid(s: System): int
    requires |s.jobs| > 0
  {
    s.jobs[0].uid
  }

  function Put(s: System, o: int, vs: seq<Attempt>): System {
    s.(attempts := s.attempts[o := vs])
  }

  /** A write for the old incarnation: a new attempt under a free name, or a new version of one of its own. */
  function OldWrite(s: System, o: int, a: Attempt): System
    requires |s.jobs| > 0
  {
    if a.ordinal != o || a.jobUid == Uid(s) then s
    else if o !in s.attempts then Put(s, o, [a])
    else if s.attempts[o] != [] && s.attempts[o][0].jobUid == a.jobUid then Put(s, o, s.attempts[o] + [a])
    else s
  }

  function Do(s: System, m: Move): System {
    match m
    case Ours(a) => Apply(s, a)
    case Theirs(o, a) => if |s.jobs| > 0 then OldWrite(s, o, a) else s
  }

  function DoAll(s: System, moves: seq<Move>): System
    decreases |moves|
  {
    if moves == [] then s else DoAll(Do(s, moves[0]), moves[1..])
  }

  /** The new job, among attempts and pods of the old one. */
  function Recreated(uid: int, maxAttempts: int, reconcilers: nat, attempts: map<int, seq<Attempt>>, pods: map<int, Pod>,
                     seen: set<Pod>, nextUid: int): System {
    System([Job(uid, maxAttempts, 0, 0, None, map[])], attempts, pods, seen, seq(reconcilers, _ => Idle), nextUid)
  }

  ghost predicate LeftOver(uid: int, attempts: map<int, seq<Attempt>>) {
    forall o | o in attempts :: OldVersions(uid, o, attempts[o])
  }

  ghost predicate OldVersions(uid: int, o: int, vs: seq<Attempt>) {
    |vs| > 0 && forall v | v in vs :: v.ordinal == o && v.jobUid == vs[0].jobUid != uid
  }

  // ----- what every run keeps -----

  ghost predicate Own(uid: int, attempts: map<int, seq<Attempt>>, o: int) {
    o in attempts && attempts[o] != [] && attempts[o][0].jobUid == uid
  }

  ghost predicate Foreign(s: System, o: int)
    requires |s.jobs| > 0
  {
    o in s.attempts && s.attempts[o] != [] && s.attempts[o][0].jobUid != Uid(s)
  }

  /** One history is of one incarnation; one of ours completes only by the pod it recorded, seen Succeeded. */
  ghost predicate HistoryFits(uid: int, seen: set<Pod>, o: int, vs: seq<Attempt>) {
    && |vs| > 0
    && forall v | v in vs :: v.ordinal == o && v.jobUid == vs[0].jobUid && (v.jobUid == uid ==> VersionFits(seen, o, v))
  }

  ghost predicate VersionFits(seen: set<Pod>, o: int, v: Attempt) {
    IsTrue(v.conds, Complete) ==> v.pod.Some? && Pod(o, v.pod.value.uid, Phase.Succeeded) in seen
  }

  /** Our attempt `o` completed by its recorded pod. */
  ghost predicate Proved(uid: int, attempts: map<int, seq<Attempt>>, seen: set<Pod>, o: int) {
    && Own(uid, attempts, o)
    && exists v | v in attempts[o] :: IsTrue(v.conds, Complete) && VersionFits(seen, o, v)
  }

  ghost predicate JobFits(uid: int, attempts: map<int, seq<Attempt>>, seen: set<Pod>, j: Job) {
    && j.uid == uid && j.failed >= 0
    && (Live(j) ==>
          && j.completed == 0
          && (if j.active.None? then j.failed == 0 else j.active.value.name == j.failed + 1 && j.failed + 1 in attempts)
          && forall i | 1 <= i <= j.failed :: Own(uid, attempts, i))
    && (IsTrue(j.conds, Complete) ==> j.active.Some? && Proved(uid, attempts, seen, j.active.value.name))
  }

  /** Our attempts are 1..k for some k. */
  ghost predicate OursFirst(uid: int, attempts: map<int, seq<Attempt>>) {
    forall o | Own(uid, attempts, o) :: o >= 1 && forall i | 1 <= i < o :: Own(uid, attempts, i)
  }

  ghost predicate PcFits(s: System, pc: Pc)
    requires |s.jobs| > 0
  {
    && InRange(s, pc)
    && match pc
       case Idle => true
       case Loaded(_, _) => true
       case HavePod(ji, name, ai, _) => Own(Uid(s), s.attempts, name) && s.attempts[name][ai].pod.None?
       case AttemptDone(ji, name, ai) =>
         && Live(s.jobs[ji]) && s.jobs[ji].active.Some? && s.jobs[ji].active.value.name == name
         && Own(Uid(s), s.attempts, name)
       case RunningNote(ji) => Live(s.jobs[ji])
       case Created(ji, name, retry) =>
         && Live(s.jobs[ji]) && name == s.jobs[ji].failed + (if retry then 2 else 1)
         && (retry ==> Own(Uid(s), s.attempts, name - 1))
  }

  ghost predicate JobsFit(s: System) {
    |s.jobs| > 0 && forall i | 0 <= i < |s.jobs| :: JobFits(Uid(s), s.attempts, s.seen, s.jobs[i])
  }

  ghost predicate HistoriesFit(s: System)
    requires |s.jobs| > 0
  {
    forall o | o in s.attempts :: HistoryFits(Uid(s), s.seen, o, s.attempts[o])
  }

  ghost predicate PcsFit(s: System)
    requires |s.jobs| > 0
  {
    forall r | 0 <= r < |s.pcs| :: PcFits(s, s.pcs[r])
  }

  ghost predicate Mixed(s: System) {
    JobsFit(s) && HistoriesFit(s) && OursFirst(Uid(s), s.attempts) && PodsInv(s.pods, s.seen) && PcsFit(s)
  }

  /** Mixed is kept, nothing is lost, and nobody writes the other incarnation's attempts. */
  ghost predicate MixedKept(s: System, t: System) {
    && Mixed(t) && |s.jobs| > 0 && s.jobs <= t.jobs && s.seen <= t.seen
    && forall n | n in s.attempts :: n in t.attempts && s.attempts[n] <= t.attempts[n]
  }

  lemma Stays(s: System, t: System)
    requires |s.jobs| > 0 && s.jobs <= t.jobs && s.seen <= t.seen
    requires forall n | n in s.attempts :: n in t.attempts && s.attempts[n] <= t.attempts[n]
    ensures forall o | Own(Uid(s), s.attempts, o) :: Own(Uid(t), t.attempts, o)
    ensures forall o | Proved(Uid(s), s.attempts, s.seen, o) :: Proved(Uid(t), t.attempts, t.seen, o)
  {
  }

  lemma PcStays(s: System, t: System, pc: Pc)
    requires |s.jobs| > 0 && PcFits(s, pc) && s.jobs <= t.jobs && s.seen <= t.seen
    requires forall n | n in s.attempts :: n in t.attempts && s.attempts[n] <= t.attempts[n]
    ensures PcFits(t, pc)
  {
    hide Proved;
    Stays(s, t);
  }

  lemma JobStays(s: System, t: System, j: Job)
    requires |s.jobs| > 0 && JobFits(Uid(s), s.attempts, s.seen, j) && s.jobs <= t.jobs && s.seen <= t.seen
    requires forall n | n in s.attempts :: n in t.attempts && s.attempts[n] <= t.attempts[n]
    ensures JobFits(Uid(t), t.attempts, t.seen, j)
  {
    hide Own, Proved;
    Stays(s, t);
  }

  /** Moving one reconciler. */
  lemma Moved(s: System, r: int, pc: Pc)
    requires Mixed(s) && 0 <= r < |s.pcs| && PcFits(s, pc)
    ensures MixedKept(s, SetPc(s, r, pc))
  {
    hide Own, Proved, JobFits, HistoryFits, PodsInv;
    var t := SetPc(s, r, pc);
    forall q | 0 <= q < |t.pcs| ensures PcFits(t, t.pcs[q]) {
      PcStays(s, t, t.pcs[q]);
    }
    assert OursFirst(Uid(t), t.attempts) && JobsFit(t) && HistoriesFit(t);
  }

  /** A new job version. */
  lemma JobAdded(s: System, j: Job)
    requires Mixed(s) && JobFits(Uid(s), s.attempts, s.seen, j)
    ensures MixedKept(s, s.(jobs := s.jobs + [j]))
  {
    hide Own, Proved, JobFits, HistoryFits, PodsInv, PcFits;
    var t := s.(jobs := s.jobs + [j]);
    assert Uid(t) == Uid(s);
    forall q | 0 <= q < |t.pcs| ensures PcFits(t, t.pcs[q]) {
      PcStays(s, t, t.pcs[q]);
    }
    assert OursFirst(Uid(t), t.attempts) && JobsFit(t) && HistoriesFit(t);
  }

  lemma JobPut(s: System, r: int, ji: int, j: Job)
    requires Mixed(s) && 0 <= r < |s.pcs|
    requires ji == |s.jobs| - 1 ==> JobFits(Uid(s), s.attempts, s.seen, j)
    ensures MixedKept(s, WriteJob(s, r, ji, j, Idle))
  {
    hide Mixed, JobFits;
    assert |s.jobs| > 0 by { MixedParts(s); }
    if ji == |s.jobs| - 1 {
      JobAdded(s, j);
      var t := s.(jobs := s.jobs + [j]);
      Moved(t, r, Idle);
      assert WriteJob(s, r, ji, j, Idle) == SetPc(t, r, Idle);
    } else {
      Moved(s, r, Idle);
    }
  }

  lemma MixedParts(s: System)
    requires Mixed(s)
    ensures |s.jobs| > 0
    ensures forall i | 0 <= i < |s.jobs| :: JobFits(Uid(s), s.attempts, s.seen, s.jobs[i])
    ensures forall o | o in s.attempts :: HistoryFits(Uid(s), s.seen, o, s.attempts[o])
    ensures forall r | 0 <= r < |s.pcs| :: PcFits(s, s.pcs[r])
  {
  }

  /** A history grows or begins. */
  lemma HistoryPut(s: System, o: int, vs: seq<Attempt>, nextUid: int)
    requires Mixed(s) && HistoryFits(Uid(s), s.seen, o, vs)
    requires if o in s.attempts then s.attempts[o] <= vs
             else vs[0].jobUid == Uid(s) ==> o >= 1 && forall i | 1 <= i < o :: Own(Uid(s), s.attempts, i)
    ensures MixedKept(s, Put(s, o, vs).(nextUid := nextUid))
  {
    hide Proved, JobFits, PodsInv, PcFits;
    var t := Put(s, o, vs).(nextUid := nextUid);
    assert Uid(t) == Uid(s);
    assert HistoriesFit(t);
    assert OursFirst(Uid(t), t.attempts) by { NumbersKept(s, o, vs); }
    forall i | 0 <= i < |t.jobs| ensures JobFits(Uid(t), t.attempts, t.seen, t.jobs[i]) {
      JobStays(s, t, s.jobs[i]);
    }
    forall q | 0 <= q < |t.pcs| ensures PcFits(t, t.pcs[q]) {
      PcStays(s, t, t.pcs[q]);
    }
  }

  lemma NumbersKept(s: System, o: int, vs: seq<Attempt>)
    requires |s.jobs| > 0 && OursFirst(Uid(s), s.attempts) && |vs| > 0 && (o in s.attempts ==> s.attempts[o] != [])
    requires if o in s.attempts then s.attempts[o] <= vs
             else vs[0].jobUid == Uid(s) ==> o >= 1 && forall i | 1 <= i < o :: Own(Uid(s), s.attempts, i)
    ensures OursFirst(Uid(s), s.attempts[o := vs])
  {
    var after := s.attempts[o := vs];
    assert o in s.attempts ==> vs[0] == s.attempts[o][0];
    assert forall i | Own(Uid(s), s.attempts, i) :: Own(Uid(s), after, i);
    assert forall i | Own(Uid(s), after, i) && i != o :: Own(Uid(s), s.attempts, i);
  }

  // ----- each step -----

  lemma AttemptPut(s: System, r: int, name: int, ai: int, a: Attempt, next: Pc)
    requires Mixed(s) && 0 <= r < |s.pcs| && name in s.attempts && 0 <= ai < |s.attempts[name]|
    requires a.ordinal == name && a.jobUid == s.attempts[name][ai].jobUid && VersionFits(s.seen, name, a)
    requires ai == |s.attempts[name]| - 1 ==> PcFits(Put(s, name, s.attempts[name] + [a]), next)
    ensures MixedKept(s, WriteAttempt(s, r, name, ai, a, next))
  {
    hide Mixed, PcFits;
    MixedParts(s);
    if ai == |s.attempts[name]| - 1 {
      var vs := s.attempts[name] + [a];
      assert HistoryFits(Uid(s), s.seen, name, vs) by {
        assert HistoryFits(Uid(s), s.seen, name, s.attempts[name]);
        assert s.attempts[name][ai] in s.attempts[name];
        forall v | v in vs ensures v in s.attempts[name] || v == a {
        }
      }
      HistoryPut(s, name, vs, s.nextUid);
      var t := Put(s, name, vs);
      assert t == Put(s, name, vs).(nextUid := s.nextUid);
      Moved(t, r, next);
      assert WriteAttempt(s, r, name, ai, a, next) == SetPc(t, r, next);
    } else {
      assert PcFits(s, Idle) by { IdleFits(s); }
      Moved(s, r, Idle);
    }
  }

  lemma IdleFits(s: System)
    requires |s.jobs| > 0
    ensures PcFits(s, Idle)
  {
  }

  lemma Asked(s: System, r: int, ji: int, o: int, retry: bool)
    requires Mixed(s) && 0 <= r < |s.pcs| && 0 <= ji < |s.jobs| && Live(s.jobs[ji])
    requires o == s.jobs[ji].failed + if retry then 2 else 1
    requires retry ==> Own(Uid(s), s.attempts, o - 1)
    ensures MixedKept(s, GetOrCreate(s, r, ji, o, retry))
  {
    hide Mixed, HistoryFits, Own;
    MixedParts(s);
    assert JobFits(Uid(s), s.attempts, s.seen, s.jobs[ji]);
    var next := Created(ji, o, retry);
    if o in s.attempts {
      assert HistoryFits(Uid(s), s.seen, o, s.attempts[o]);
      NonEmpty(s, o);
      Moved(s, r, next);
    } else {
      var a := Attempt(s.nextUid, s.jobs[ji].uid, o, None, false, map[]);
      NewHistory(s, o, a);
      HistoryPut(s, o, [a], s.nextUid + 1);
      var t := Put(s, o, [a]).(nextUid := s.nextUid + 1);
      assert retry ==> Own(Uid(t), t.attempts, o - 1) by { Stays(s, t); }
      Moved(t, r, next);
      assert GetOrCreate(s, r, ji, o, retry) == SetPc(t, r, next);
    }
  }

  lemma NonEmpty(s: System, o: int)
    requires |s.jobs| > 0 && o in s.attempts && HistoryFits(Uid(s), s.seen, o, s.attempts[o])
    ensures s.attempts[o] != []
  {
  }

  lemma NewHistory(s: System, o: int, a: Attempt)
    requires |s.jobs| > 0 && a.ordinal == o && a.conds == map[]
    ensures HistoryFits(Uid(s), s.seen, o, [a])
  {
  }

  /** What our reconcilers follow is their own. */
  lemma FollowsOwn(s: System, ji: int, listed: map<int, int>, name: int)
    requires Mixed(s) && InRange(s, Loaded(ji, listed)) && OwnsAll(s, ji, listed) && name in listed
    ensures Own(Uid(s), s.attempts, name)
    ensures s.attempts[name][listed[name]].jobUid == Uid(s) && s.attempts[name][listed[name]].ordinal == name
    ensures VersionFits(s.seen, name, s.attempts[name][listed[name]])
  {
    hide OursFirst, PcsFit, PodsInv;
    assert HistoryFits(Uid(s), s.seen, name, s.attempts[name]);
    assert s.attempts[name][listed[name]] in s.attempts[name];
    assert JobFits(Uid(s), s.attempts, s.seen, s.jobs[ji]);
  }

  lemma PodsMixed(s: System, pods: map<int, Pod>, seen: set<Pod>, nextUid: int)
    requires Mixed(s) && s.seen <= seen && PodsInv(pods, seen)
    ensures MixedKept(s, s.(pods := pods, seen := seen, nextUid := nextUid))
  {
    hide Own, Proved, PcFits, JobFits, PodsInv;
    var t := s.(pods := pods, seen := seen, nextUid := nextUid);
    assert HistoriesFit(t);
    assert OursFirst(Uid(t), t.attempts);
    forall i | 0 <= i < |t.jobs| ensures JobFits(Uid(t), t.attempts, t.seen, t.jobs[i]) {
      JobStays(s, t, s.jobs[i]);
    }
    forall q | 0 <= q < |t.pcs| ensures PcFits(t, t.pcs[q]) {
      PcStays(s, t, t.pcs[q]);
    }
  }

  lemma PodMade(s: System, r: int, ji: int, name: int, ai: int, p: Pod)
    requires Mixed(s) && 0 <= r < |s.pcs| && InRange(s, AttemptDone(ji, name, ai)) && p.name == name
    requires Own(Uid(s), s.attempts, name) && s.attempts[name][ai].pod.None?
    ensures MixedKept(s, SetPc(WithNewPod(s, p), r, HavePod(ji, name, ai, p)))
  {
    hide JobsFit, HistoriesFit, OursFirst, PcsFit, Own;
    PodsMixed(s, s.pods[name := p], s.seen + {p}, s.nextUid + 1);
    Moved(WithNewPod(s, p), r, HavePod(ji, name, ai, p));
  }

  /** Reconciler r follows version ai of our active attempt. */
  ghost predicate Follows(s: System, ji: int, name: int, ai: int) {
    && |s.jobs| > 0 && InRange(s, AttemptDone(ji, name, ai)) && Live(s.jobs[ji])
    && s.jobs[ji].active.Some? && s.jobs[ji].active.value.name == name && Own(Uid(s), s.attempts, name)
    && s.attempts[name][ai].jobUid == Uid(s) && s.attempts[name][ai].ordinal == name
    && VersionFits(s.seen, name, s.attempts[name][ai])
  }

  lemma MarkPut(s: System, r: int, ji: int, name: int, ai: int, a: Attempt, next: Pc)
    requires Mixed(s) && 0 <= r < |s.pcs| && Follows(s, ji, name, ai)
    requires a.ordinal == name && a.jobUid == Uid(s) && VersionFits(s.seen, name, a)
    requires next == AttemptDone(ji, name, ai + 1) || next == RunningNote(ji)
    ensures MixedKept(s, WriteAttempt(s, r, name, ai, a, next))
  {
    hide Mixed, VersionFits;
    AttemptPut(s, r, name, ai, a, next);
  }

  lemma AttemptFollowed(s: System, r: int, ji: int, name: int, ai: int, obs: Option<Pod>, again: Option<Pod>)
    requires Mixed(s) && 0 <= r < |s.pcs| && Follows(s, ji, name, ai)
    requires obs.Some? ==> obs.value in s.seen && obs.value.name == name
    ensures MixedKept(s, AttemptStep(s, r, ji, name, ai, obs, again))
  {
    hide Mixed, Own;
    var a := s.attempts[name][ai];
    var done := AttemptDone(ji, name, ai + 1);
    if a.pod.None? {
      if obs.None? && name !in s.pods {
        PodMade(s, r, ji, name, ai, Pod(name, s.nextUid, Pending));
        assert AttemptStep(s, r, ji, name, ai, obs, again)
            == SetPc(WithNewPod(s, Pod(name, s.nextUid, Pending)), r, HavePod(ji, name, ai, Pod(name, s.nextUid, Pending)));
      } else {
        Moved(s, r, if obs.Some? then HavePod(ji, name, ai, obs.value)
                    else if again.Some? then HavePod(ji, name, ai, again.value) else Idle);
      }
    } else if obs.None? || obs.value.uid != a.pod.value.uid {
      MarkPut(s, r, ji, name, ai, MarkFailed(a, false), done);
    } else {
      match obs.value.phase
      case Failed => MarkPut(s, r, ji, name, ai, MarkFailed(a, true), done);
      case Succeeded =>
        assert obs.value == Pod(name, a.pod.value.uid, Phase.Succeeded);
        MarkPut(s, r, ji, name, ai, MarkSucceeded(a), done);
      case Running =>
        if a.started { Moved(s, r, RunningNote(ji)); }
        else { MarkPut(s, r, ji, name, ai, MarkRunning(a), RunningNote(ji)); }
      case Pending => Moved(s, r, if a.started then RunningNote(ji) else Idle);
    }
  }

  lemma LoadedMixed(s: System, r: int, ji: int, listed: map<int, int>, obs: Option<Pod>, again: Option<Pod>)
    requires Mixed(s) && 0 <= r < |s.pcs| && InRange(s, Loaded(ji, listed)) && Readable(s, Loaded(ji, listed), obs)
    ensures MixedKept(s, LoadedStep(s, r, ji, listed, obs, again))
  {
    hide Mixed, Own, OwnsAll, AttemptStep, VersionFits;
    MixedParts(s);
    var j := s.jobs[ji];
    assert JobFits(Uid(s), s.attempts, s.seen, j);
    if Terminal(j.conds) {
      Moved(s, r, Idle);
    } else if !OwnsAll(s, ji, listed) {
      JobPut(s, r, ji, Disowned(j));
    } else if j.active.None? || j.active.value.name !in listed {
      Asked(s, r, ji, j.failed + j.completed + 1, false);
    } else {
      var name := j.active.value.name;
      FollowsOwn(s, ji, listed, name);
      if Terminal(s.attempts[name][listed[name]].conds) {
        Moved(s, r, AttemptDone(ji, name, listed[name]));
      } else {
        AttemptFollowed(s, r, ji, name, listed[name], obs, again);
      }
    }
  }

  lemma CompletedFits(s: System, ji: int, name: int, ai: int)
    requires Mixed(s) && PcFits(s, AttemptDone(ji, name, ai)) && IsTrue(s.attempts[name][ai].conds, Complete)
    ensures JobFits(Uid(s), s.attempts, s.seen, Completed(s.jobs[ji]))
  {
    hide OursFirst, PcsFit, PodsInv;
    assert JobFits(Uid(s), s.attempts, s.seen, s.jobs[ji]);
    assert HistoryFits(Uid(s), s.seen, name, s.attempts[name]);
    assert s.attempts[name][ai] in s.attempts[name];
  }

  lemma DoneMixed(s: System, r: int, ji: int, name: int, ai: int)
    requires Mixed(s) && 0 <= r < |s.pcs| && PcFits(s, AttemptDone(ji, name, ai))
    ensures MixedKept(s, DoneStep(s, r, ji, name, ai))
  {
    hide Mixed, Own;
    MixedParts(s);
    var j := s.jobs[ji];
    assert JobFits(Uid(s), s.attempts, s.seen, j);
    if IsTrue(s.attempts[name][ai].conds, Complete) {
      CompletedFits(s, ji, name, ai);
      JobPut(s, r, ji, Completed(j));
    } else if j.failed + 1 < j.maxAttempts {
      Asked(s, r, ji, (j.failed + 1) + j.completed + 1, true);
    } else {
      JobPut(s, r, ji, Exhausted(j));
    }
  }

  lemma NamedMixed(s: System, r: int, ji: int, name: int, retry: bool)
    requires Mixed(s) && 0 <= r < |s.pcs| && PcFits(s, Created(ji, name, retry))
    ensures var ref := RefTo(s, name);
            MixedKept(s, WriteJob(s, r, ji, if retry then RetryingWith(s.jobs[ji], ref) else ScheduledWith(s.jobs[ji], ref), Idle))
  {
    hide Mixed, Own, Proved;
    MixedParts(s);
    assert JobFits(Uid(s), s.attempts, s.seen, s.jobs[ji]);
    var ref := RefTo(s, name);
    JobPut(s, r, ji, if retry then RetryingWith(s.jobs[ji], ref) else ScheduledWith(s.jobs[ji], ref));
  }

  lemma RecordedMixed(s: System, r: int, ji: int, name: int, ai: int, p: Pod)
    requires Mixed(s) && 0 <= r < |s.pcs| && PcFits(s, HavePod(ji, name, ai, p))
    ensures MixedKept(s, WriteAttempt(s, r, name, ai, WithPod(s.attempts[name][ai], p), Idle))
  {
    hide Mixed, Own;
    MixedParts(s);
    assert HistoryFits(Uid(s), s.seen, name, s.attempts[name]);
    assert s.attempts[name][ai] in s.attempts[name];
    assert s.attempts[name][ai].jobUid == Uid(s) by { OwnVersion(s, name, ai); }
    AttemptPut(s, r, name, ai, WithPod(s.attempts[name][ai], p), Idle);
  }

  lemma OwnVersion(s: System, name: int, ai: int)
    requires |s.jobs| > 0 && Own(Uid(s), s.attempts, name) && HistoryFits(Uid(s), s.seen, name, s.attempts[name])
    requires 0 <= ai < |s.attempts[name]|
    ensures s.attempts[name][ai].jobUid == Uid(s)
  {
    assert s.attempts[name][ai] in s.attempts[name];
  }

  lemma StepMixed(s: System, r: int, obs: Option<Pod>, again: Option<Pod>)
    requires Mixed(s) && 0 <= r < |s.pcs| && Readable(s, s.pcs[r], obs) && InRange(s, s.pcs[r])
    ensures MixedKept(s, Step(s, r, obs, again))
  {
    hide Mixed, LoadedStep, DoneStep, Own;
    MixedParts(s);
    assert PcFits(s, s.pcs[r]);
    match s.pcs[r]
    case Idle => Moved(s, r, Idle); assert SetPc(s, r, Idle) == s;
    case Loaded(ji, listed) => LoadedMixed(s, r, ji, listed, obs, again);
    case HavePod(ji, name, ai, p) => RecordedMixed(s, r, ji, name, ai, p);
    case AttemptDone(ji, name, ai) => DoneMixed(s, r, ji, name, ai);
    case RunningNote(ji) =>
      assert JobFits(Uid(s), s.attempts, s.seen, s.jobs[ji]);
      JobPut(s, r, ji, NotedRunning(s.jobs[ji]));
    case Created(ji, name, retry) => NamedMixed(s, r, ji, name, retry);
  }

  lemma OthersMixed(s: System, a: Action)
    requires Mixed(s) && Enabled(s, a) && !a.Advance?
    ensures MixedKept(s, Apply(s, a))
  {
    hide Own, Proved, PcFits, HistoriesFit, OursFirst;
    var j := Last(s.jobs);
    assert JobFits(Uid(s), s.attempts, s.seen, j);
    match a
    case Load(r, ji, listed) => LoadFits(s, ji, listed); Moved(s, r, Loaded(ji, listed));
    case Drop(r) => IdleFits(s); Moved(s, r, Idle);
    case PodMoves(name, phase) =>
      var p := s.pods[name].(phase := phase);
      PodsMixed(s, s.pods[p.name := p], s.seen + {p}, s.nextUid);
    case PodDeleted(name) => PodsMixed(s, map n | n in s.pods && n != name :: s.pods[n], s.seen, s.nextUid);
    case PodReplaced(name) =>
      var p := Pod(s.pods[name].name, s.nextUid, Pending);
      PodsMixed(s, s.pods[p.name := p], s.seen + {p}, s.nextUid + 1);
    case RaiseMax(max) => JobAdded(s, j.(maxAttempts := max));
    case Cancel(ji) => if ji == |s.jobs| - 1 && !Terminal(j.conds) { JobAdded(s, CancelledJob(j)); }
  }

  lemma LoadFits(s: System, ji: int, listed: map<int, int>)
    requires |s.jobs| > 0 && InRange(s, Loaded(ji, listed))
    ensures PcFits(s, Loaded(ji, listed))
  {
  }

  lemma TheirsMixed(s: System, o: int, a: Attempt)
    requires Mixed(s)
    ensures MixedKept(s, OldWrite(s, o, a))
  {
    hide OursFirst, PcsFit, JobsFit;
    assert |s.jobs| > 0 by { MixedParts(s); }
    if OldWrite(s, o, a) != s {
      var vs := if o in s.attempts then s.attempts[o] + [a] else [a];
      assert HistoryFits(Uid(s), s.seen, o, vs) by {
        assert o in s.attempts ==> HistoryFits(Uid(s), s.seen, o, s.attempts[o]);
      }
      HistoryPut(s, o, vs, s.nextUid);
      assert OldWrite(s, o, a) == Put(s, o, vs).(nextUid := s.nextUid);
    }
  }

  /** Every step of either incarnation keeps it. */
  lemma DoKeeps(s: System, m: Move)
    requires Mixed(s)
    ensures MixedKept(s, Do(s, m))
  {
    hide Mixed, Step, OldWrite;
    MixedParts(s);
    match m
    case Theirs(o, a) => TheirsMixed(s, o, a);
    case Ours(a) =>
      if Enabled(s, a) {
        if a.Advance? {
          StepMixed(s, a.r, a.obs, a.again);
        } else {
          OthersMixed(s, a);
        }
      }
  }

  lemma {:induction false} DoAllKeeps(s: System, moves: seq<Move>)
    requires Mixed(s)
    ensures MixedKept(s, DoAll(s, moves))
    decreases |moves|
  {
    hide Mixed, Do;
    MixedParts(s);
    if moves == [] {
    } else {
      var t := Do(s, moves[0]);
      DoKeeps(s, moves[0]);
      DoAllKeeps(t, moves[1..]);
      forall n | n in s.attempts ensures n in DoAll(s, moves).attempts && s.attempts[n] <= DoAll(s, moves).attempts[n] {
        assert s.attempts[n] <= t.attempts[n] && t.attempts[n] <= DoAll(s, moves).attempts[n];
      }
    }
  }

  /** The new job among any remains of the old one, at rest. */
  ghost predicate Fresh(s: System) {
    exists uid, maxAttempts, reconcilers, attempts, pods, seen, nextUid ::
      && s == Recreated(uid, maxAttempts, reconcilers, attempts, pods, seen, nextUid)
      && LeftOver(uid, attempts) && PodsInv(pods, seen)
  }

  lemma FreshIsMixed(s: System)
    requires Fresh(s)
    ensures Mixed(s) && s.jobs == [s.jobs[0]] && Live(s.jobs[0]) && s.jobs[0].active.None? && s.jobs[0].failed == 0 && s.jobs[0].completed == 0
    ensures forall o | o in s.attempts :: Foreign(s, o)
    ensures forall r | 0 <= r < |s.pcs| :: s.pcs[r] == Idle
  {
  }

  // ----- what follows -----

  /** However stale the reads and whatever either incarnation does: nothing of the new incarnation ever writes an
      attempt of the old one. */
  lemma ForeignIsNotWritten(s: System, a: Action, o: int)
    requires Mixed(s) && Foreign(s, o)
    ensures o in Apply(s, a).attempts && Apply(s, a).attempts[o] == s.attempts[o]
  {
    hide Mixed, LoadedStep, HistoryFits, JobFits, VersionFits;
    MixedParts(s);
    if Enabled(s, a) && a.Advance? {
      assert PcFits(s, s.pcs[a.r]);
      match s.pcs[a.r]
      case Loaded(ji, listed) => LoadedSparesForeign(s, a.r, ji, listed, a.obs, a.again, o);
      case _ =>
    }
  }

  lemma LoadedSparesForeign(s: System, r: int, ji: int, listed: map<int, int>, obs: Option<Pod>, again: Option<Pod>, o: int)
    requires Mixed(s) && Foreign(s, o) && 0 <= r < |s.pcs| && InRange(s, Loaded(ji, listed))
    ensures var t := LoadedStep(s, r, ji, listed, obs, again); o in t.attempts && t.attempts[o] == s.attempts[o]
  {
    hide Mixed, OwnsAll, HistoryFits;
    var j := s.jobs[ji];
    if !Terminal(j.conds) && OwnsAll(s, ji, listed) && j.active.Some? && j.active.value.name in listed {
      FollowsOwn(s, ji, listed, j.active.value.name);
    }
  }

  /** The job is Complete only if an attempt of its own incarnation is: by the pod it had recorded, seen Succeeded. */
  lemma OnlyOwnCompletes(s: System, moves: seq<Move>)
    requires Fresh(s)
    ensures var t := DoAll(s, moves);
            |t.jobs| > 0 && (IsTrue(Last(t.jobs).conds, Complete) ==>
              Last(t.jobs).active.Some? && Proved(Uid(t), t.attempts, t.seen, Last(t.jobs).active.value.name))
  {
    hide Fresh, DoAll, Mixed, Proved;
    FreshIsMixed(s);
    DoAllKeeps(s, moves);
    MixedParts(DoAll(s, moves));
    assert JobFits(Uid(DoAll(s, moves)), DoAll(s, moves).attempts, DoAll(s, moves).seen, Last(DoAll(s, moves).jobs));
  }

  /** The next attempt of a live job is adopted from the old incarnation if and only if that one has its name; the
      ordinal is the job's first free one either way. */
  lemma AdoptsIff(s: System, r: int, ji: int, retry: bool)
    requires Mixed(s) && 0 <= r < |s.pcs| && 0 <= ji < |s.jobs|
    ensures var o := s.jobs[ji].failed + s.jobs[ji].completed + 1;
            var t := GetOrCreate(s, r, ji, o, retry);
            && Uid(t) == Uid(s) && t.pcs[r] == Created(ji, o, retry)
            && (Foreign(t, o) <==> Foreign(s, o))
            && (Own(Uid(t), t.attempts, o) <==> !Foreign(s, o))
  {
    hide Mixed, VersionFits;
    MixedParts(s);
    var o := s.jobs[ji].failed + s.jobs[ji].completed + 1;
    assert JobFits(Uid(s), s.attempts, s.seen, s.jobs[ji]);
    assert o in s.attempts ==> HistoryFits(Uid(s), s.seen, o, s.attempts[o]);
  }

  /** A pass over the newest job version fails the job for its ownership if and only if the snapshot lists an attempt of
      the old incarnation; whether it was adopted or merely lies there makes no difference. */
  lemma DisownsIff(s: System, r: int, ji: int, listed: map<int, int>, obs: Option<Pod>, again: Option<Pod>)
    requires Mixed(s) && 0 <= r < |s.pcs| && s.pcs[r] == Loaded(ji, listed) && InRange(s, s.pcs[r])
    requires ji == |s.jobs| - 1 && Live(s.jobs[ji])
    ensures Last(Step(s, r, obs, again).jobs) == Disowned(s.jobs[ji]) <==> exists o | o in listed :: Foreign(s, o)
  {
    hide Mixed, VersionFits;
    MixedParts(s);
    assert JobFits(Uid(s), s.attempts, s.seen, s.jobs[ji]);
    forall o | o in listed ensures s.attempts[o][listed[o]].jobUid != s.jobs[ji].uid <==> Foreign(s, o) {
      assert HistoryFits(Uid(s), s.seen, o, s.attempts[o]);
      assert s.attempts[o][listed[o]] in s.attempts[o];
    }
    assert Disowned(s.jobs[ji]) != s.jobs[ji];
  }

  /** What remains under an ordinal stops the numbering for good: no attempt of the new incarnation gets that far. */
  lemma Blocked(s: System, moves: seq<Move>, o: int, i: int)
    requires Mixed(s) && Foreign(s, o) && o >= 1
    ensures var t := DoAll(s, moves);
            && Mixed(t) && Foreign(t, o) && (Own(Uid(t), t.attempts, i) ==> 1 <= i < o)
  {
    hide DoAll, JobsFit, HistoriesFit, PcsFit, PodsInv;
    assert |s.jobs| > 0 by { MixedParts(s); }
    DoAllKeeps(s, moves);
    assert !Own(Uid(DoAll(s, moves)), DoAll(s, moves).attempts, o);
  }

  lemma {:induction false} DoAppend(s: System, xs: seq<Move>, ys: seq<Move>)
    ensures DoAll(s, xs + ys) == DoAll(DoAll(s, xs), ys)
    decreases |xs|
  {
    hide Do;
    if xs == [] {
      assert xs + ys == ys;
    } else {
      assert (xs + ys)[1..] == xs[1..] + ys;
      DoAppend(Do(s, xs[0]), xs[1..], ys);
    }
  }

  lemma Then(s: System, moves: seq<Move>, a: Action) returns (more: seq<Move>)
    ensures more == moves + [Ours(a)] && DoAll(s, more) == Apply(DoAll(s, moves), a)
  {
    hide Apply;
    var m := Ours(a);
    more := moves + [m];
    DoAppend(s, moves, [m]);
    assert [m][1..] == [];
    assert DoAll(DoAll(s, moves), [m]) == DoAll(Do(DoAll(s, moves), m), []);
  }

  /** The live job's first attempt is ours and has these versions, its reconciler at rest. */
  ghost predicate AtFirst(s: System, a: Attempt, ai: int) {
    && |s.jobs| == 2 && Live(s.jobs[1]) && s.jobs[1].active.Some? && s.jobs[1].active.value.name == 1
    && 1 in s.attempts && |s.attempts[1]| == ai + 1 && ai >= 0 && s.attempts[1][ai] == a
    && a.jobUid == s.jobs[1].uid && !Terminal(a.conds)
    && |s.pcs| > 0 && s.pcs[0] == Idle && PodsInv(s.pods, s.seen)
  }

  lemma FirstAttemptMade(s: System) returns (moves: seq<Move>)
    requires Fresh(s) && |s.pcs| > 0 && 1 !in s.attempts && PodsInv(s.pods, s.seen)
    ensures var t := DoAll(s, moves); AtFirst(t, Last([Attempt(s.nextUid, s.jobs[0].uid, 1, None, false, map[])]), 0) && t.pods == s.pods
  {
    hide Fresh, Mixed;
    FreshIsMixed(s);
    moves := Then(s, [], Load(0, 0, map[]));
    moves := Then(s, moves, Advance(0, None, None));
    moves := Then(s, moves, Advance(0, None, None));
  }

  /** The pod of the first attempt is in hand: the one that is there under its name, or a new one. */
  lemma PodInHand(s: System, a: Attempt) returns (moves: seq<Move>)
    requires AtFirst(s, a, 0) && a.pod.None?
    ensures var t := DoAll(s, moves);
            && 1 in t.pods && PodsInv(t.pods, t.seen) && (1 in s.pods ==> t.pods == s.pods)
            && t.jobs == s.jobs && t.attempts == s.attempts && |t.pcs| > 0 && t.pcs[0] == HavePod(1, 1, 0, t.pods[1])
  {
    var listed := map[1 := 0];
    var pod := if 1 in s.pods then Some(s.pods[1]) else None;
    moves := Then(s, [], Load(0, 1, listed));
    var t := SetPc(s, 0, Loaded(1, listed));
    assert DoAll(s, moves) == t;
    moves := Then(s, moves, Advance(0, pod, None));
    assert Step(t, 0, pod, None) == AttemptStep(t, 0, 1, 1, 0, pod, None);
  }

  lemma PodRecorded(s: System, a: Attempt) returns (moves: seq<Move>)
    requires AtFirst(s, a, 0) && a.pod.None?
    ensures var t := DoAll(s, moves);
            1 in t.pods && AtFirst(t, WithPod(a, t.pods[1]), 1) && (1 in s.pods ==> t.pods == s.pods)
  {
    moves := PodInHand(s, a);
    moves := Then(s, moves, Advance(0, None, None));
  }

  ghost predicate Completes(s: System, moves: seq<Move>) {
    var t := DoAll(s, moves); |t.jobs| > 0 && IsTrue(Last(t.jobs).conds, Complete)
  }

  /** The UID of the pod that the job's active attempt has on record. */
  ghost function CompletedOn(s: System): Option<int> {
    if |s.jobs| > 0 && Last(s.jobs).active.Some? && Last(s.jobs).active.value.name in s.attempts
       && s.attempts[Last(s.jobs).active.value.name] != [] && Last(s.attempts[Last(s.jobs).active.value.name]).pod.Some?
    then Some(Last(s.attempts[Last(s.jobs).active.value.name]).pod.value.uid) else None
  }

  lemma PodSucceeds(s: System, a: Attempt) returns (moves: seq<Move>)
    requires AtFirst(s, a, 1) && 1 in s.pods && a.pod == Some(PodRef(1, s.pods[1].uid))
    ensures Completes(s, moves) && CompletedOn(DoAll(s, moves)) == Some(s.pods[1].uid)
  {
    var p := s.pods[1].(phase := Phase.Succeeded);
    moves := Then(s, [], PodMoves(1, Phase.Succeeded));
    moves := Then(s, moves, Load(0, 1, map[1 := 1]));
    moves := Then(s, moves, Advance(0, Some(p), None));
    moves := Then(s, moves, Advance(0, None, None));
  }

  /** A run that completes the job by its first attempt, on the pod of the old incarnation if one is there. */
  lemma Completing(s: System) returns (moves: seq<Move>)
    requires Fresh(s) && |s.pcs| > 0 && 1 !in s.attempts && PodsInv(s.pods, s.seen)
    ensures Completes(s, moves) && (1 in s.pods ==> CompletedOn(DoAll(s, moves)) == Some(s.pods[1].uid))
  {
    hide Fresh, DoAll, Completes, CompletedOn;
    var first := FirstAttemptMade(s);
    var t := DoAll(s, first);
    var second := PodRecorded(t, t.attempts[1][0]);
    var u := DoAll(t, second);
    var third := PodSucceeds(u, u.attempts[1][1]);
    DoAppend(s, first, second);
    DoAppend(s, first + second, third);
    moves := first + second + third;
    assert Completes(s, moves) by { SameEnd(s, moves, u, third); }
  }

  lemma SameEnd(s: System, moves: seq<Move>, t: System, more: seq<Move>)
    requires DoAll(s, moves) == DoAll(t, more) && Completes(t, more)
    ensures Completes(s, moves)
  {
  }

  lemma NoneCompletes(s: System, moves: seq<Move>)
    requires Fresh(s) && 1 in s.attempts
    ensures !Completes(s, moves)
  {
    hide Fresh, Mixed, DoAll;
    FreshIsMixed(s);
    OnlyOwnCompletes(s, moves);
    var t := DoAll(s, moves);
    Blocked(s, moves, 1, if t.jobs != [] && Last(t.jobs).active.Some? then Last(t.jobs).active.value.name else 0);
  }

  /** A job created again can be completed, by some run, if and only if nothing remains under the name of its first
      attempt. */
  lemma CanCompleteIff(s: System)
    requires Fresh(s) && |s.pcs| > 0
    ensures (exists moves :: Completes(s, moves)) <==> 1 !in s.attempts
  {
    hide Completes, PodsInv, Mixed;
    FreshIsMixed(s);
    if 1 in s.attempts {
      forall moves ensures !Completes(s, moves) {
        NoneCompletes(s, moves);
      }
    } else {
      assert PodsInv(s.pods, s.seen);
      var moves := Completing(s);
    }
  }

  /** A pod that remains under the first attempt's name is used without asking whose it is: then, and only then, the new
      job can be Complete by a pod of the old one. */
  lemma OldPodCompletesIff(s: System)
    requires Fresh(s) && |s.pcs| > 0 && 1 in s.pods
    ensures (exists moves :: Completes(s, moves) && CompletedOn(DoAll(s, moves)) == Some(s.pods[1].uid)) <==> 1 !in s.attempts
  {
    hide Completes, CompletedOn, PodsInv, Mixed;
    FreshIsMixed(s);
    if 1 in s.attempts {
      forall moves ensures !Completes(s, moves) {
        NoneCompletes(s, moves);
      }
    } else {
      assert PodsInv(s.pods, s.seen);
      var moves := Completing(s);
    }
  }
}
