/** Recovery of a job body from the log (runtime/runtime.go, runtime/step.go): runs in recovery mode, one after the
    other, cut short at any point by a kill or a loss of power. The body may call its steps in any order and
    concurrently, each at most once per run. */
module Recovery {
  import opened Conditions
  import opened WalFormat
  import opened LogVolume
  import opened Manifest

  /** `loaded` is what this run found complete when it started, `used` the steps it has called so far, of which
      `running` are executing and `ending` have written their end but not yet synced it. `returned` lists the steps
      that came back without an error, in order. `calls` and `loads` are history: every call of a step's function,
      and what each start found complete. */
  datatype State = State(vol: Volume, up: bool, loaded: set<string>, used: set<string>, running: set<string>,
                         ending: set<string>, returned: seq<string>, failed: bool, calls: seq<string>,
                         loads: seq<set<string>>)
  {
    ghost function Records(): seq<Record> { Log(vol) }
  }

  /** `next` says that the last log file was full, so that the writer opens a new one. */
  datatype Action =
    | Start(next: bool)
    | Skip(id: string)
    | Begin(id: string, ts: int)
    | Call(id: string)
    | Retry(id: string, attempt: int, ts: int)
    | WriteEnd(id: string, ts: int)
    | SyncEnd(id: string)
    | Timeout(id: string, ts: int)
    | Fail(id: string)
    | CancelJob(reason: string, ts: int)
    | RotateFile
    | SyncFile
    | Flush(file: nat, upTo: nat)
    | Finish
    | Kill
    | PowerLoss(keep: seq<nat>)

  const INIT := State(EMPTY, false, {}, {}, {}, {}, [], false, [], [])

  /** The steps with an end record. */
  ghost function Done(log: seq<Record>): set<string> {
    set r | r in log && r.rtype.StepEnd? :: r.stepId
  }

  /** The steps BuildManifest lists. */
  function Found(log: seq<Record>): set<string> {
    set c | c in CompletedSteps(log) :: c.stepId
  }

  ghost predicate Enabled(s: State, a: Action)
    requires Ok(s.vol)
  {
    match a
    case Start(_) => !s.up && Readable(s.vol)
    case Skip(id) => s.up && id !in s.used && id in s.loaded
    case Begin(id, _) => s.up && id !in s.used && id !in s.loaded
    case Call(id) => s.up && id in s.running
    case Retry(id, _, _) => s.up && id in s.running
    case WriteEnd(id, _) => s.up && id in s.running
    case SyncEnd(id) => s.up && id in s.ending
    case Timeout(id, _) => s.up && id in s.running
    case Fail(id) => s.up && id in s.running
    case CancelJob(_, _) => s.up
    case RotateFile => s.up
    case SyncFile => s.up
    case Flush(file, upTo) => file < |s.vol.parts| && s.vol.synced[file] <= upTo <= |s.vol.parts[file]|
    case Finish => s.up
    case Kill => true
    case PowerLoss(keep) => Survives(s.vol, keep)
  }

  ghost function Put(s: State, rtype: RecType, id: string, ts: int, exit: Option<int>, attempt: int, reason: string): State {
    if s.vol.parts == [] then s
    else s.(vol := Append(s.vol, Record(|s.Records()| + 1, rtype, id, ts, exit, "", attempt, reason)))
  }

  function Down(s: State): State {
    s.(up := false, loaded := {}, used := {}, running := {}, ending := {}, returned := [], failed := false)
  }

  ghost function Effect(s: State, a: Action): State
    requires Ok(s.vol) && Enabled(s, a)
  {
    match a
    case Start(next) =>
      Down(s).(vol := Opened(s.vol, next), up := true, loaded := Found(s.Records()), loads := s.loads + [Found(s.Records())])
    case Skip(id) => s.(used := s.used + {id}, returned := s.returned + [id])
    case Begin(id, ts) =>
      Put(s, RecType.StepBegin, id, ts, None, 0, "").(used := s.used + {id}, running := s.running + {id})
    case Call(id) => s.(calls := s.calls + [id])
    case Retry(id, attempt, ts) => Put(s, RecType.StepRetry, id, ts, None, attempt, "")
    case WriteEnd(id, ts) =>
      Put(s, RecType.StepEnd, id, ts, Some(0), 0, "").(running := s.running - {id}, ending := s.ending + {id})
    case SyncEnd(id) => s.(vol := SyncLast(s.vol), ending := s.ending - {id}, returned := s.returned + [id])
    case Timeout(id, ts) =>
      Put(s, RecType.StepTimeout, id, ts, None, 0, "timeout").(running := s.running - {id}, failed := true)
    case Fail(id) => s.(running := s.running - {id}, failed := true)
    case CancelJob(reason, ts) => Put(s, RecType.JobCancelled, "", ts, None, 0, reason)
    case RotateFile => s.(vol := Rotate(s.vol))
    case SyncFile => s.(vol := SyncLast(s.vol))
    case Flush(file, upTo) => s.(vol := s.vol.(synced := s.vol.synced[file := upTo]))
    case Finish => Down(s).(vol := SyncLast(s.vol))
    case Kill => Down(s)
    case PowerLoss(keep) => Down(s).(vol := Cut(s.vol, keep))
  }

  ghost function Apply(s: State, a: Action): State {
    if Ok(s.vol) && Enabled(s, a) then Effect(s, a) else s
  }

  ghost function Run(s: State, acts: seq<Action>): State
    decreases |acts|
  {
    if acts == [] then s else Run(Apply(s, acts[0]), acts[1..])
  }

  lemma {:induction false} RunAppend(s: State, xs: seq<Action>, ys: seq<Action>)
    ensures Run(s, xs + ys) == Run(Run(s, xs), ys)
    decreases |xs|
  {
    if xs == [] {
      assert xs + ys == ys;
    } else {
      assert (xs + ys)[1..] == xs[1..] + ys;
      RunAppend(Apply(s, xs[0]), xs[1..], ys);
    }
  }

  lemma RunOne(s: State, a: Action)
    ensures Run(s, [a]) == Apply(s, a)
  {
    assert Run(Apply(s, a), [a][1..]) == Apply(s, a);
  }

  // ----- what holds in every reachable state -----

  /** Once a step has an end record, no later record begins or ends it. */
  ghost predicate EndIsLast(log: seq<Record>) {
    forall i, j | 0 <= i < j < |log| && log[i].rtype.StepEnd? ::
      !Begins(log[j], log[i].stepId) && !Ends(log[j], log[i].stepId)
  }

  ghost predicate BegunBefore(log: seq<Record>, id: string, e: int)
    requires e <= |log|
  {
    exists b | 0 <= b < e :: Begins(log[b], id)
  }

  /** Every end record reports success, and its step had begun. */
  ghost predicate EndsHadBegun(log: seq<Record>) {
    forall e | 0 <= e < |log| && log[e].rtype.StepEnd? :: log[e].exit == Some(0) && BegunBefore(log, log[e].stepId, e)
  }

  ghost predicate LogOk(log: seq<Record>) {
    Numbered(log) && EndIsLast(log) && EndsHadBegun(log)
  }

  ghost predicate RunOk(s: State)
    requires Ok(s.vol)
  {
    var log := s.Records();
    && s.vol.parts != []
    && s.loaded <= Done(log) <= s.loaded + s.used
    && s.running <= s.used && s.running !! s.loaded && s.running !! Done(log)
    && s.ending <= Done(log)
    && (forall id | id in s.running :: BegunBefore(log, id, |log|))
    && (forall id | id in s.returned :: id in Done(log))
    && (s.ending != {} ==> s.vol.parts[|s.vol.parts| - 1] != [] || Anchor(s.vol) == |log|)
  }

  /** A log with a gap, left by a loss of power, is never opened again. */
  ghost predicate Inv(s: State) {
    && Ok(s.vol)
    && (if Readable(s.vol) then LogOk(s.Records()) else !s.up && Settled(s.vol))
    && (if s.up then Readable(s.vol) && RunOk(s) else s == Down(s))
  }

  lemma DonePlus(log: seq<Record>, r: Record)
    ensures Done(log + [r]) == if r.rtype.StepEnd? then Done(log) + {r.stepId} else Done(log)
  {
    var after := log + [r];
    forall id | id in Done(log) ensures id in Done(after) {
      var x :| x in log && x.rtype.StepEnd? && x.stepId == id;
      assert x in after;
    }
    assert after[|log|] == r;
  }

  lemma DonePrefix(log: seq<Record>, n: nat)
    requires n <= |log|
    ensures Done(log[..n]) <= Done(log)
  {
    forall id | id in Done(log[..n]) ensures id in Done(log) {
      var x :| x in log[..n] && x.rtype.StepEnd? && x.stepId == id;
      assert x in log;
    }
  }

  lemma BegunMore(log: seq<Record>, r: Record, id: string, e: int)
    requires 0 <= e <= |log| && BegunBefore(log, id, e)
    ensures BegunBefore(log + [r], id, e) && BegunBefore(log + [r], id, |log| + 1)
  {
    var b :| 0 <= b < e && Begins(log[b], id);
    assert Begins((log + [r])[b], id);
  }

  /** A record may be added if it does not touch a finished step, and an end only for a step that has begun. */
  lemma LogPlusOk(log: seq<Record>, r: Record)
    requires LogOk(log) && r.seqNo == |log| + 1
    requires r.rtype.StepBegin? || r.rtype.StepEnd? ==> r.stepId !in Done(log)
    requires r.rtype.StepEnd? ==> r.exit == Some(0) && BegunBefore(log, r.stepId, |log|)
    ensures LogOk(log + [r])
  {
    var after := log + [r];
    forall i, j | 0 <= i < j < |after| && after[i].rtype.StepEnd?
      ensures !Begins(after[j], after[i].stepId) && !Ends(after[j], after[i].stepId)
    {
      assert after[i] == log[i];
      assert log[i].stepId in Done(log);
    }
    forall e | 0 <= e < |after| && after[e].rtype.StepEnd?
      ensures after[e].exit == Some(0) && BegunBefore(after, after[e].stepId, e)
    {
      BegunMore(log, r, after[e].stepId, e);
    }
  }

  lemma LogPrefixOk(log: seq<Record>, n: nat)
    requires LogOk(log) && n <= |log|
    ensures LogOk(log[..n])
  {
    var cut := log[..n];
    forall e | 0 <= e < n && cut[e].rtype.StepEnd? ensures cut[e].exit == Some(0) && BegunBefore(cut, cut[e].stepId, e) {
      assert BegunBefore(log, log[e].stepId, e);
      var b :| 0 <= b < e && Begins(log[b], log[e].stepId);
      assert Begins(cut[b], cut[e].stepId);
    }
  }

  /** On such a log the manifest lists exactly the steps that have an end record. */
  lemma FoundIsDone(log: seq<Record>)
    requires LogOk(log)
    ensures Found(log) == Done(log)
    ensures forall id :: id in Found(log) <==> Completed(log, id)
  {
    ManifestMeaning(log);
    var list := CompletedSteps(log);
    forall id ensures (id in Found(log) <==> id in Done(log)) && (id in Found(log) <==> Completed(log, id)) {
      if id in Found(log) {
        var c :| c in list && c.stepId == id;
        var i :| 0 <= i < |list| && list[i] == c;
        assert Listed(list, id);
        var e :| CompletesAt(log, id, e);
        assert log[e] in log;
      }
      if id in Done(log) {
        var r :| r in log && r.rtype.StepEnd? && r.stepId == id;
        var e :| 0 <= e < |log| && log[e] == r;
        assert BegunBefore(log, id, e);
        assert CompletesAt(log, id, e);
      }
      if Completed(log, id) {
        assert Listed(list, id);
        var i :| 0 <= i < |list| && list[i].stepId == id;
        assert list[i] in list;
      }
    }
  }

  /** Putting one record at the end. */
  lemma PutKeeps(s: State, a: Action, r: Record)
    requires Inv(s) && s.up && Enabled(s, a) && r.seqNo == |s.Records()| + 1
    requires a.Begin? || a.Retry? || a.WriteEnd? || a.Timeout? || a.CancelJob?
    requires Apply(s, a).vol == Append(s.vol, r)
    requires (r.rtype.StepBegin? <==> a.Begin?) && (r.rtype.StepEnd? <==> a.WriteEnd?)
    requires a.Begin? || a.WriteEnd? ==> r.stepId == a.id && (a.WriteEnd? ==> r.exit == Some(0))
    ensures Inv(Apply(s, a))
  {
    var t := Apply(s, a);
    AppendLog(s.vol, r);
    DonePlus(s.Records(), r);
    LogPlusOk(s.Records(), r);
    assert t.Records() == s.Records() + [r] && r == t.Records()[|s.Records()|];
    assert t.vol.parts[|t.vol.parts| - 1] != [];
    forall id | id in t.running ensures BegunBefore(t.Records(), id, |t.Records()|) {
      if id in s.running {
        BegunMore(s.Records(), r, id, |s.Records()|);
      } else {
        assert Begins(t.Records()[|s.Records()|], id);
      }
    }
  }

  lemma WrittenKeeps(s: State, a: Action)
    requires Inv(s) && s.up && Enabled(s, a)
    requires a.Begin? || a.Retry? || a.WriteEnd? || a.Timeout? || a.CancelJob?
    ensures Inv(Apply(s, a))
  {
    var n := |s.Records()| + 1;
    match a
    case Begin(id, ts) => PutKeeps(s, a, Record(n, RecType.StepBegin, id, ts, None, "", 0, ""));
    case Retry(id, attempt, ts) => PutKeeps(s, a, Record(n, RecType.StepRetry, id, ts, None, "", attempt, ""));
    case WriteEnd(id, ts) => PutKeeps(s, a, Record(n, RecType.StepEnd, id, ts, Some(0), "", 0, ""));
    case Timeout(id, ts) => PutKeeps(s, a, Record(n, RecType.StepTimeout, id, ts, None, "", 0, "timeout"));
    case CancelJob(reason, ts) => PutKeeps(s, a, Record(n, RecType.JobCancelled, "", ts, None, "", 0, reason));
  }

  /** Syncing, opening and closing files changes no record. */
  lemma SameRecords(s: State, t: State)
    requires Inv(s) && s.up && Ok(t.vol) && t.Records() == s.Records() && t.vol.parts != []
    requires t == s.(vol := t.vol, ending := t.ending, returned := t.returned)
    requires t.ending <= s.ending && forall id | id in t.returned :: id in s.returned || id in s.ending
    requires t.ending != {} ==> t.vol.parts[|t.vol.parts| - 1] != [] || Anchor(t.vol) == |t.Records()|
    ensures Inv(t)
  {
  }

  lemma SyncedTail(s: State)
    requires Inv(s) && s.up && s.ending != {}
    ensures Anchor(SyncLast(s.vol)) == |s.Records()|
  {
    SyncLog(s.vol);
  }

  lemma SyncKeeps(s: State, a: Action)
    requires Inv(s) && s.up && Enabled(s, a) && (a.SyncEnd? || a.RotateFile? || a.SyncFile?)
    ensures Inv(Apply(s, a))
  {
    SyncLog(s.vol);
    OpenLog(SyncLast(s.vol));
    if s.ending != {} {
      SyncedTail(s);
    }
    SameRecords(s, Apply(s, a));
  }

  lemma FlushOk(v: Volume, file: nat, upTo: nat)
    requires Ok(v) && file < |v.parts| && v.synced[file] <= upTo <= |v.parts[file]|
    ensures var w := v.(synced := v.synced[file := upTo]);
            && Ok(w) && Log(w) == Log(v) && Anchor(v) <= Anchor(w)
            && (Sealed(v) ==> Sealed(w)) && (Settled(v) ==> Settled(w))
  {
    FlushAnchor(v, file, upTo);
  }

  lemma {:induction false} FlushAnchor(v: Volume, file: nat, upTo: nat)
    requires Ok(v) && file < |v.parts| && v.synced[file] <= upTo <= |v.parts[file]|
    ensures var w := v.(synced := v.synced[file := upTo]); Ok(w) && Anchor(v) <= Anchor(w)
    decreases |v.parts|
  {
    hide Flatten;
    var w := v.(synced := v.synced[file := upTo]);
    var n := |v.parts| - 1;
    if file < n {
      FlushAnchor(Init(v), file, upTo);
      assert Init(w) == Init(v).(synced := Init(v).synced[file := upTo]);
    } else {
      assert Init(w) == Init(v);
      AnchorOfInit(v);
    }
  }

  lemma AnchorOfInit(v: Volume)
    requires Ok(v) && v.parts != []
    ensures Anchor(Init(v)) <= |Flatten(v.parts[..|v.parts| - 1])|
  {
  }

  lemma FlushKeeps(s: State, a: Action)
    requires Inv(s) && Enabled(s, a) && a.Flush?
    ensures Inv(Apply(s, a))
  {
    FlushOk(s.vol, a.file, a.upTo);
    if s.up {
      SameRecords(s, Apply(s, a));
    }
  }

  /** A cut of a settled volume changes nothing. */
  lemma SettledCut(v: Volume, keep: seq<nat>)
    requires Ok(v) && Settled(v) && Survives(v, keep)
    ensures Cut(v, keep) == v
  {
    forall k | 0 <= k < |keep| ensures keep[k] == v.synced[k] == |v.parts[k]| && v.parts[k][..keep[k]] == v.parts[k] {
      assert k < |v.parts| - 1 || k == |v.parts| - 1;
    }
    assert keep == v.synced;
    assert Cut(v, keep).parts == v.parts;
  }

  lemma LossKeeps(s: State, a: Action)
    requires Inv(s) && Enabled(s, a) && a.PowerLoss?
    ensures Inv(Apply(s, a))
    ensures Readable(Apply(s, a).vol) ==> Readable(s.vol)
  {
    CutSettled(s.vol, a.keep);
    if !Readable(s.vol) {
      SettledCut(s.vol, a.keep);
    } else if Readable(Cut(s.vol, a.keep)) {
      CutReadable(s.vol, a.keep);
      var cut := Log(Cut(s.vol, a.keep));
      LogPrefixOk(s.Records(), |cut|);
      assert s.Records()[..|cut|] == cut;
    }
  }

  lemma StartKeeps(s: State, a: Action)
    requires Inv(s) && Enabled(s, a) && a.Start?
    ensures Inv(Apply(s, a))
  {
    OpenedOk(s.vol, a.next);
    FoundIsDone(s.Records());
  }

  lemma ApplyKeeps(s: State, a: Action)
    requires Inv(s)
    ensures Inv(Apply(s, a))
  {
    if Enabled(s, a) {
      match a
      case Start(_) => StartKeeps(s, a);
      case Begin(_, _) => WrittenKeeps(s, a);
      case Retry(_, _, _) => WrittenKeeps(s, a);
      case WriteEnd(_, _) => WrittenKeeps(s, a);
      case Timeout(_, _) => WrittenKeeps(s, a);
      case CancelJob(_, _) => WrittenKeeps(s, a);
      case SyncEnd(_) => SyncKeeps(s, a);
      case RotateFile => SyncKeeps(s, a);
      case SyncFile => SyncKeeps(s, a);
      case Flush(_, _) => FlushKeeps(s, a);
      case Finish => SyncLog(s.vol);
      case PowerLoss(_) => LossKeeps(s, a);
      case _ =>
    }
  }

  lemma {:induction false} RunKeeps(s: State, acts: seq<Action>)
    requires Inv(s)
    ensures Inv(Run(s, acts))
    decreases |acts|
  {
    if acts != [] {
      ApplyKeeps(s, acts[0]);
      RunKeeps(Apply(s, acts[0]), acts[1..]);
    }
  }

  // ----- at most once -----

  /** The records up to the last synced one. */
  ghost function Kept(s: State): seq<Record>
    requires Inv(s)
  {
    s.Records()[..Anchor(s.vol)]
  }

  /** What one action may do: kept records stay as long as the log can be read, and only steps without an end record
      are called. */
  lemma ApplyRespectsEnds(s: State, a: Action)
    requires Inv(s)
    ensures Inv(Apply(s, a)) && (Readable(Apply(s, a).vol) ==> Readable(s.vol) && Kept(s) <= Kept(Apply(s, a)))
    ensures Apply(s, a).calls == s.calls || (a.Call? && a.id !in Done(s.Records()) && Apply(s, a).calls == s.calls + [a.id])
  {
    hide LogOk, RunOk, Found, Flatten, Append, Sealed, LastSynced, Survives, Numbered;
    ApplyKeeps(s, a);
    if Enabled(s, a) {
      match a
      case PowerLoss(keep) => LossRespectsEnds(s, a);
      case Start(_) => FileRespectsEnds(s, a);
      case Flush(_, _) => FileRespectsEnds(s, a);
      case SyncEnd(_) => FileRespectsEnds(s, a);
      case Finish => FileRespectsEnds(s, a);
      case RotateFile => FileRespectsEnds(s, a);
      case SyncFile => FileRespectsEnds(s, a);
      case Call(id) => CallRespectsEnds(s, id);
      case Begin(_, _) => WriteRespectsEnds(s, a);
      case Retry(_, _, _) => WriteRespectsEnds(s, a);
      case WriteEnd(_, _) => WriteRespectsEnds(s, a);
      case Timeout(_, _) => WriteRespectsEnds(s, a);
      case CancelJob(_, _) => WriteRespectsEnds(s, a);
      case _ =>
    }
  }

  lemma CallRespectsEnds(s: State, id: string)
    requires Inv(s) && Enabled(s, Call(id))
    ensures id !in Done(s.Records()) && Apply(s, Call(id)).calls == s.calls + [id] && Apply(s, Call(id)).vol == s.vol
  {
    hide LogOk, Found, Flatten, Done;
  }

  /** Opening, syncing and closing files. */
  lemma FileRespectsEnds(s: State, a: Action)
    requires Inv(s) && Enabled(s, a) && (a.Start? || a.Flush? || a.SyncEnd? || a.Finish? || a.RotateFile? || a.SyncFile?)
    ensures Ok(Apply(s, a).vol) && Apply(s, a).Records() == s.Records() && Anchor(s.vol) <= Anchor(Apply(s, a).vol)
    ensures Apply(s, a).calls == s.calls
  {
    hide LogOk, RunOk, Found, Flatten, Numbered, Sealed, LastSynced;
    match a
    case Start(next) => OpenedOk(s.vol, next);
    case Flush(file, upTo) => FlushOk(s.vol, file, upTo);
    case SyncEnd(_) => SyncLog(s.vol);
    case Finish => SyncLog(s.vol);
    case RotateFile => RotateLog(s.vol);
    case SyncFile => SyncLog(s.vol);
  }

  lemma WriteRespectsEnds(s: State, a: Action)
    requires Inv(s) && Enabled(s, a) && (a.Begin? || a.Retry? || a.WriteEnd? || a.Timeout? || a.CancelJob?)
    ensures Inv(Apply(s, a)) && Readable(s.vol) && Kept(s) <= Kept(Apply(s, a)) && Apply(s, a).calls == s.calls
  {
    hide LogOk, Done, Found, Flatten, BegunBefore;
    ApplyKeeps(s, a);
    var part := Apply(s, a).vol.parts[|s.vol.parts| - 1];
    AppendLog(s.vol, part[|part| - 1]);
    assert Apply(s, a).vol == Append(s.vol, part[|part| - 1]);
  }

  lemma LossRespectsEnds(s: State, a: Action)
    requires Inv(s) && Enabled(s, a) && a.PowerLoss?
    ensures Inv(Apply(s, a)) && (Readable(Apply(s, a).vol) ==> Readable(s.vol) && Kept(s) <= Kept(Apply(s, a)))
  {
    LossKeeps(s, a);
    var t := Apply(s, a);
    if Readable(t.vol) {
      CutReadable(s.vol, a.keep);
      CutSettled(s.vol, a.keep);
      SettledAnchor(t.vol);
      assert Kept(t) == t.Records() && t.Records()[..Anchor(s.vol)] == Kept(s);
    }
  }

  lemma DoneGrows(xs: seq<Record>, ys: seq<Record>)
    requires xs <= ys
    ensures Done(xs) <= Done(ys)
  {
    assert ys[..|xs|] == xs;
    DonePrefix(ys, |xs|);
  }

  lemma KeptDone(s: State)
    requires Inv(s)
    ensures Done(Kept(s)) <= Done(s.Records())
  {
    DonePrefix(s.Records(), Anchor(s.vol));
  }

  /** When StepEnd returns, the end it has written is kept. */
  lemma SyncedEndIsKept(s: State, id: string)
    requires Inv(s) && Enabled(s, SyncEnd(id))
    ensures Inv(Apply(s, SyncEnd(id))) && id in Done(Kept(Apply(s, SyncEnd(id))))
  {
    ApplyKeeps(s, SyncEnd(id));
    SyncedTail(s);
    var t := Apply(s, SyncEnd(id));
    assert Kept(t) == t.Records() == s.Records();
  }

  /** Once a step's end is synced, it stays in every log that can be read, and the step's function is never called
      again, whatever runs, kills and losses of power follow. */
  lemma {:induction false} DurableStepsAreNotRepeated(s: State, acts: seq<Action>)
    requires Inv(s) && Readable(s.vol)
    ensures var t := Run(s, acts);
            && Inv(t) && (Readable(t.vol) ==> Done(Kept(s)) <= Done(Kept(t)))
            && s.calls <= t.calls && forall id | id in Done(Kept(s)) :: id !in t.calls[|s.calls|..]
    decreases |acts|
  {
    hide Inv, Apply, Done;
    if acts != [] {
      var m := Apply(s, acts[0]);
      ApplyRespectsEnds(s, acts[0]);
      KeptDone(s);
      if Readable(m.vol) {
        DoneGrows(Kept(s), Kept(m));
        DurableStepsAreNotRepeated(m, acts[1..]);
      } else {
        BrokenForGood(m, acts[1..]);
      }
      var t := Run(s, acts);
      assert t.calls[|s.calls|..] == m.calls[|s.calls|..] + t.calls[|m.calls|..];
    }
  }

  /** A log with a gap: no run ever starts again. */
  lemma {:induction false} BrokenForGood(s: State, acts: seq<Action>)
    requires Inv(s) && !Readable(s.vol)
    ensures var t := Run(s, acts); Inv(t) && !Readable(t.vol) && t.calls == s.calls && t.loads == s.loads
    decreases |acts|
  {
    if acts != [] {
      ApplyRespectsEnds(s, acts[0]);
      BrokenForGood(Apply(s, acts[0]), acts[1..]);
    }
  }

  /** From the first start of a job: every call of a step's function comes at a moment when the log has no end of
      that step. So a step that returned without an error is called again only after its end was lost. */
  lemma CallsAreUnfinished(acts: seq<Action>, id: string)
    ensures var s := Run(INIT, acts); Apply(s, Call(id)) != s ==> id !in Found(s.Records())
  {
    InitOk();
    RunKeeps(INIT, acts);
    if Run(INIT, acts).up {
      FoundIsDone(Run(INIT, acts).Records());
    }
  }

  // ----- when the log stays readable -----

  /** Every start finds the last file synced or goes on in it. */
  ghost predicate StartsWell(s: State, a: Action)
    requires Ok(s.vol)
  {
    a.Start? && Enabled(s, a) && a.next ==> LastSynced(s.vol)
  }

  ghost predicate AllStartWell(s: State, acts: seq<Action>)
    decreases |acts|
  {
    acts == [] || (Ok(s.vol) && StartsWell(s, acts[0]) && AllStartWell(Apply(s, acts[0]), acts[1..]))
  }

  lemma VolumeOk(s: State)
    requires Inv(s)
    ensures Ok(s.vol) && (s.up ==> s.vol.parts != [] && Readable(s.vol))
  {
  }

  ghost predicate Writes(a: Action) {
    a.Begin? || a.Retry? || a.WriteEnd? || a.Timeout? || a.CancelJob?
  }

  lemma ApplySealed(s: State, a: Action)
    requires Inv(s) && Readable(s.vol) && Sealed(s.vol) && StartsWell(s, a)
    ensures Inv(Apply(s, a)) && Readable(Apply(s, a).vol) && Sealed(Apply(s, a).vol)
  {
    hide Inv, LastSynced, Done, Found;
    ApplyKeeps(s, a);
    assert Ok(s.vol) by { VolumeOk(s); }
    if Enabled(s, a) {
      if Writes(a) {
        WrittenSealed(s, a);
      } else {
        FilesSealed(s, a);
      }
    }
  }

  lemma WrittenSealed(s: State, a: Action)
    requires Inv(s) && Sealed(s.vol) && Enabled(s, a) && Writes(a)
    ensures Inv(Apply(s, a)) && Readable(Apply(s, a).vol) && Sealed(Apply(s, a).vol)
  {
    ApplyKeeps(s, a);
    hide LogOk, RunOk, Done, Found, LogVolume.Log;
  }

  lemma FilesSealed(s: State, a: Action)
    requires Ok(s.vol) && Readable(s.vol) && Sealed(s.vol) && StartsWell(s, a) && Enabled(s, a) && !Writes(a)
    ensures Ok(Apply(s, a).vol) && Readable(Apply(s, a).vol) && Sealed(Apply(s, a).vol)
  {
    hide LastSynced, Found;
    match a
    case Start(next) => OpenedOk(s.vol, next);
    case PowerLoss(keep) =>
      CutSealed(s.vol, keep);
      CutSettled(s.vol, keep);
    case Flush(file, upTo) => FlushOk(s.vol, file, upTo);
    case SyncEnd(_) => SyncLog(s.vol);
    case Finish => SyncLog(s.vol);
    case RotateFile => RotateLog(s.vol);
    case SyncFile => SyncLog(s.vol);
    case _ =>
  }

  /** If every start finds the last file synced or not full, the log can be read after any kills and losses of power. */
  lemma {:induction false} StaysReadable(s: State, acts: seq<Action>)
    requires Inv(s) && Readable(s.vol) && Sealed(s.vol) && AllStartWell(s, acts)
    ensures var t := Run(s, acts); Inv(t) && Readable(t.vol) && Sealed(t.vol)
    decreases |acts|
  {
    if acts != [] {
      ApplySealed(s, acts[0]);
      StaysReadable(Apply(s, acts[0]), acts[1..]);
    }
  }

  ghost predicate NoStart(acts: seq<Action>) {
    forall a | a in acts :: !a.Start?
  }

  lemma {:induction false} NoStartIsWell(s: State, acts: seq<Action>)
    requires Inv(s) && NoStart(acts)
    ensures AllStartWell(s, acts)
    decreases |acts|
  {
    if acts != [] {
      assert acts[0] in acts;
      ApplyKeeps(s, acts[0]);
      NoStartIsWell(Apply(s, acts[0]), acts[1..]);
    }
  }

  ghost predicate CanBeReadAfter(s: State, acts: seq<Action>) {
    NoStart(acts) ==> Readable(Run(s, acts).vol)
  }

  /** One start, then anything up to and beyond the end of its run: the log can be read throughout if and only if the
      start did not leave a full file unsynced. */
  lemma RunStaysReadableIff(s: State, next: bool)
    requires Inv(s) && !s.up && Readable(s.vol) && Sealed(s.vol)
    ensures (forall acts :: CanBeReadAfter(Apply(s, Start(next)), acts)) <==> (next ==> LastSynced(s.vol))
  {
    var t := Apply(s, Start(next));
    ApplyKeeps(s, Start(next));
    if next ==> LastSynced(s.vol) {
      ApplySealed(s, Start(next));
      forall acts ensures CanBeReadAfter(t, acts) {
        if NoStart(acts) {
          NoStartIsWell(t, acts);
          StaysReadable(t, acts);
        }
      }
    } else {
      var acts := LeavesGap(s, t);
      assert !CanBeReadAfter(t, acts);
    }
  }

  lemma LeavesGap(s: State, t: State) returns (acts: seq<Action>)
    requires Inv(s) && !s.up && Readable(s.vol) && !LastSynced(s.vol) && t == Apply(s, Start(true))
    ensures !CanBeReadAfter(t, acts)
  {
    hide LogOk, RunOk, Found, Sealed, Flatten, Anchor, Settled;
    var r := Record(|s.Records()| + 1, RecType.JobCancelled, "", 0, None, "", 0, "");
    var keep := LosingKeep(s.vol, r);
    OpenLog(s.vol);
    var u := Apply(t, CancelJob("", 0));
    assert t.vol == OpenNext(s.vol) && u.vol == Append(t.vol, r);
    RunAppend(t, [CancelJob("", 0)], [PowerLoss(keep)]);
    RunOne(t, CancelJob("", 0));
    RunOne(u, PowerLoss(keep));
    acts := [CancelJob("", 0)] + [PowerLoss(keep)];
    assert CancelJob("", 0) in acts && forall a | a in acts :: a == CancelJob("", 0) || a == PowerLoss(keep);
    assert Run(t, acts).vol == Cut(u.vol, keep);
  }

  // ----- what the next run finds -----

  ghost predicate LoadsDurable(s: State)
    requires Inv(s)
  {
    && Readable(s.vol) && Sealed(s.vol) && (!s.up ==> LastSynced(s.vol))
    && (forall l | l in s.loads :: l <= Done(Kept(s)))
    && (forall i, j | 0 <= i <= j < |s.loads| :: s.loads[i] <= s.loads[j])
  }

  lemma ApplyLoadsDurable(s: State, a: Action)
    requires Inv(s) && LoadsDurable(s) && !a.Kill?
    ensures Inv(Apply(s, a)) && LoadsDurable(Apply(s, a))
  {
    hide LogOk, RunOk, Flatten, Sealed, Found;
    var t := Apply(s, a);
    assert StartsWell(s, a);
    ApplySealed(s, a);
    ApplyRespectsEnds(s, a);
    DoneGrows(Kept(s), Kept(t));
    assert !t.up ==> LastSynced(t.vol) by {
      DownSynced(s, a);
    }
    if a.Start? && Enabled(s, a) {
      StartFindsKept(s, a);
    }
  }

  lemma StartFindsKept(s: State, a: Action)
    requires Inv(s) && Readable(s.vol) && Settled(s.vol) && a.Start? && Enabled(s, a)
    ensures Apply(s, a).loads == s.loads + [Done(Kept(s))]
  {
    FoundIsDone(s.Records());
    SettledAnchor(s.vol);
    assert Kept(s) == s.Records();
  }

  lemma DownSynced(s: State, a: Action)
    requires Inv(s) && !a.Kill? && (!s.up ==> LastSynced(s.vol))
    ensures Ok(Apply(s, a).vol) && (!Apply(s, a).up ==> LastSynced(Apply(s, a).vol))
  {
    ApplyKeeps(s, a);
    if Enabled(s, a) {
      match a
      case PowerLoss(keep) => CutSettled(s.vol, keep);
      case Finish => SyncLog(s.vol);
      case _ =>
    }
  }

  /** If runs end only by finishing or by losing power, what each start finds complete only grows. */
  lemma {:induction false} FoundOnlyGrows(s: State, acts: seq<Action>)
    requires Inv(s) && LoadsDurable(s) && Kill !in acts
    ensures Inv(Run(s, acts)) && LoadsDurable(Run(s, acts))
    decreases |acts|
  {
    if acts != [] {
      assert acts[0] != Kill;
      ApplyLoadsDurable(s, acts[0]);
      FoundOnlyGrows(Apply(s, acts[0]), acts[1..]);
    }
  }

  lemma FoundOnlyGrowsFromInit(acts: seq<Action>)
    requires Kill !in acts
    ensures var loads := Run(INIT, acts).loads; forall i, j | 0 <= i <= j < |loads| :: loads[i] <= loads[j]
  {
    InitOk();
    FoundOnlyGrows(INIT, acts);
  }

  lemma {:induction false} LoadsExtend(s: State, acts: seq<Action>)
    ensures s.loads <= Run(s, acts).loads
    decreases |acts|
  {
    if acts != [] {
      LoadsExtend(Apply(s, acts[0]), acts[1..]);
    }
  }

  /** Every start from here on finds at least these steps complete. */
  ghost predicate EveryStartFinds(s: State, steps: set<string>) {
    forall acts :: FindsAll(s, acts, steps)
  }

  ghost predicate FindsAll(s: State, acts: seq<Action>, steps: set<string>) {
    forall i | |s.loads| <= i < |Run(s, acts).loads| :: steps <= Run(s, acts).loads[i]
  }

  /** Kills included: what a start finds complete now is found by every later start if and only if the records that
      complete it are synced, or followed by synced records, when the start reads them. */
  lemma FoundStaysIffSynced(s: State)
    requires Inv(s) && !s.up && Readable(s.vol)
    ensures EveryStartFinds(s, Found(s.Records())) <==> Found(s.Records()) <= Found(Kept(s))
  {
    FoundIsDone(s.Records());
    LogPrefixOk(s.Records(), Anchor(s.vol));
    FoundIsDone(Kept(s));
    if Found(s.Records()) <= Found(Kept(s)) {
      forall acts ensures FindsAll(s, acts, Found(s.Records())) {
        DurableAreFound(s, acts);
      }
    } else {
      LosingRun(s);
    }
  }

  lemma LosingRun(s: State)
    requires Inv(s) && !s.up && Readable(s.vol) && !(Found(s.Records()) <= Found(Kept(s)))
    ensures !EveryStartFinds(s, Found(s.Records()))
  {
    var keep := KeepToAnchor(s.vol);
    var m := Apply(s, PowerLoss(keep));
    CutSettled(s.vol, keep);
    LogPrefixOk(s.Records(), Anchor(s.vol));
    assert m.Records() == Kept(s) && Readable(m.vol);
    var acts := [PowerLoss(keep), Start(false)];
    RunAppend(s, [PowerLoss(keep)], [Start(false)]);
    RunOne(s, PowerLoss(keep));
    RunOne(m, Start(false));
    assert acts == [PowerLoss(keep)] + [Start(false)];
    assert Run(s, acts).loads[|s.loads|] == Found(Kept(s));
    assert !FindsAll(s, acts, Found(s.Records()));
  }

  /** A loss of power can take everything after the last synced record. */
  lemma {:induction false} KeepToAnchor(v: Volume) returns (keep: seq<nat>)
    requires Ok(v)
    ensures Survives(v, keep) && Log(Cut(v, keep)) == Log(v)[..Anchor(v)]
    decreases |v.parts|
  {
    if v.parts == [] {
      keep := [];
    } else {
      var n := |v.parts| - 1;
      var before := Log(Init(v));
      if v.synced[n] > 0 {
        keep := KeepEarlier(v);
      } else {
        var some := KeepToAnchor(Init(v));
        keep := some + [0];
        assert keep[..n] == some;
        CutInit(v, keep);
        assert Log(v)[..Anchor(v)] == before[..Anchor(v)];
      }
    }
  }

  lemma KeepEarlier(v: Volume) returns (keep: seq<nat>)
    requires Ok(v) && v.parts != [] && v.synced[|v.parts| - 1] > 0
    ensures Survives(v, keep) && Log(Cut(v, keep)) == Log(v)[..Anchor(v)]
  {
    var n := |v.parts| - 1;
    keep := seq(n, k requires 0 <= k < n => |v.parts[k]|) + [v.synced[n]];
    assert forall k | 0 <= k < n :: keep[k] == |v.parts[k]|;
    CutInit(v, keep);
    assert Cut(Init(v), keep[..n]).parts == Init(v).parts by {
      assert forall k | 0 <= k < n :: v.parts[k][..|v.parts[k]|] == v.parts[k];
    }
    assert Log(v)[..Anchor(v)] == Log(Init(v)) + v.parts[n][..v.synced[n]];
  }

  lemma ApplyFinds(s: State, a: Action)
    requires Inv(s)
    ensures Inv(Apply(s, a))
    ensures Readable(Apply(s, a).vol) ==> Readable(s.vol) && Done(Kept(s)) <= Done(Kept(Apply(s, a)))
    ensures forall i | |s.loads| <= i < |Apply(s, a).loads| :: Done(Kept(s)) <= Apply(s, a).loads[i]
  {
    hide Inv, Readable, Done, Found, Effect, Enabled, LogVolume.Log, LogVolume.Anchor;
    ApplyRespectsEnds(s, a);
    if Readable(Apply(s, a).vol) {
      DoneGrows(Kept(s), Kept(Apply(s, a)));
    }
    StartFindsDone(s, a);
  }

  lemma StartFindsDone(s: State, a: Action)
    requires Inv(s)
    ensures forall i | |s.loads| <= i < |Apply(s, a).loads| :: Done(Kept(s)) <= Apply(s, a).loads[i]
  {
    hide Done, Found, LogOk, RunOk;
    if a.Start? && Enabled(s, a) {
      FoundIsDone(s.Records());
      KeptDone(s);
    }
  }

  lemma {:induction false} DurableAreFound(s: State, acts: seq<Action>)
    requires Inv(s) && Readable(s.vol)
    ensures FindsAll(s, acts, Done(Kept(s)))
    decreases |acts|
  {
    if acts != [] {
      var m, t := Apply(s, acts[0]), Run(s, acts);
      ApplyFinds(s, acts[0]);
      if Readable(m.vol) {
        DurableAreFound(m, acts[1..]);
      } else {
        BrokenForGood(m, acts[1..]);
      }
      LoadsExtend(m, acts[1..]);
      forall i | |s.loads| <= i < |t.loads| ensures Done(Kept(s)) <= t.loads[i] {
        if i < |m.loads| {
          assert t.loads[i] == m.loads[i];
        }
      }
    }
  }

  ghost function KilledBeforeSync(id: string): State {
    Apply(Apply(Apply(Apply(Apply(INIT, Start(false)), Begin(id, 0)), Call(id)), WriteEnd(id, 0)), Kill)
  }

  lemma InitOk()
    ensures Inv(INIT) && Readable(INIT.vol) && Settled(INIT.vol) && LogOk([])
  {
  }

  lemma BegunState(id: string) returns (s: State)
    ensures s == Apply(Apply(INIT, Start(false)), Begin(id, 0)) && Inv(s) && s.used == {id} && s.loaded == {}
    ensures s.vol == Volume([[Record(1, RecType.StepBegin, id, 0, None, "", 0, "")]], [0]) && s.up && s.running == {id}
  {
    hide Done, Found, BegunBefore;
    InitOk();
    FoundIsDone([]);
    ApplyKeeps(INIT, Start(false));
    var started := Apply(INIT, Start(false));
    assert started.vol == Volume([[]], [0]) && started.Records() == [];
    ApplyKeeps(started, Begin(id, 0));
    s := Apply(started, Begin(id, 0));
    assert [] + [Record(1, RecType.StepBegin, id, 0, None, "", 0, "")] == [Record(1, RecType.StepBegin, id, 0, None, "", 0, "")];
    assert s.vol == Append(started.vol, Record(1, RecType.StepBegin, id, 0, None, "", 0, ""));
    assert s.vol.parts == [[Record(1, RecType.StepBegin, id, 0, None, "", 0, "")]];
  }

  lemma EndStep(s: State, id: string, b: Record)
    requires Inv(s) && s.up && id in s.running && s.vol == Volume([[b]], [0])
    ensures var t := Apply(Apply(s, Call(id)), WriteEnd(id, 0));
            && Inv(t) && Anchor(t.vol) == 0
            && t.Records() == [b] + [Record(2, RecType.StepEnd, id, 0, Some(0), "", 0, "")]
  {
    hide LogOk, RunOk, Done;
    ApplyKeeps(s, Call(id));
    var called := Apply(s, Call(id));
    assert called.up && id in called.running && called.vol == s.vol by { hide Inv; }
    ApplyKeeps(called, WriteEnd(id, 0));
    OneFile(s.vol);
    var e := Record(2, RecType.StepEnd, id, 0, Some(0), "", 0, "");
    assert Apply(called, WriteEnd(id, 0)).vol == Append(s.vol, e);
    AppendLog(s.vol, e);
  }

  lemma OneFile(v: Volume)
    requires Ok(v) && |v.parts| == 1 && v.synced == [0]
    ensures Log(v) == v.parts[0] && Anchor(v) == 0
  {
    assert v.parts[..0] == [] && Flatten(v.parts) == [] + v.parts[0];
  }

  lemma KilledState(id: string)
    ensures var s := KilledBeforeSync(id);
            && Inv(s) && !s.up && Readable(s.vol) && Anchor(s.vol) == 0
            && |s.Records()| == 2 && s.Records()[0].rtype.StepBegin? && Ends(s.Records()[1], id)
  {
    hide Inv, Apply, LogVolume.Log, Anchor;
    var s := BegunState(id);
    EndStep(s, id, s.vol.parts[0][0]);
    var t := Apply(Apply(s, Call(id)), WriteEnd(id, 0));
    KillKeeps(t);
  }

  lemma KillKeeps(s: State)
    requires Inv(s) && s.Records() != [] && Numbered(s.Records())
    ensures var t := Apply(s, Kill); Inv(t) && !t.up && t.vol == s.vol
  {
    ApplyKeeps(s, Kill);
  }

  /** And they need not be: a killed process can leave an end record that was written but never synced. The next run
      trusts it, nothing syncs it, and a loss of power takes it away: the step is complete for the second run and not
      for the third. */
  lemma FoundCanShrink(id: string)
    ensures var s := KilledBeforeSync(id);
            && Inv(s) && !s.up && Found(s.Records()) == {id} && Found(Kept(s)) == {}
            && !EveryStartFinds(s, Found(s.Records()))
  {
    hide KilledBeforeSync, Inv, EveryStartFinds, Apply, LogOk, Done, Found, CompletedSteps;
    KilledState(id);
    var s := KilledBeforeSync(id);
    assert LogOk(s.Records()) && LogOk([]) by { KilledLogs(s); }
    var log := s.Records();
    assert log == [log[0]] + [log[1]] && [log[0]] == [] + [log[0]] && Kept(s) == [];
    DonePlus([], log[0]);
    DonePlus([log[0]], log[1]);
    FoundIsDone(log);
    FoundIsDone([]);
    assert Done([]) == {} by { NoneDone(); }
    FoundStaysIffSynced(s);
  }

  lemma NoneDone()
    ensures Done([]) == {}
  {
  }

  lemma KilledLogs(s: State)
    requires Inv(s) && Readable(s.vol)
    ensures LogOk(s.Records()) && LogOk([])
  {
  }
}
