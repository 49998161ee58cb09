/** The SDK's runtime: loading what earlier runs completed, and running one step (runtime/runtime.go, runtime/step.go).
    A step is proved to be a run of the recovery machine. */
module Runtime {
  import opened Conditions
  import opened WalFormat
  import opened LogVolume
  import opened Wal
  import opened Manifest
  import opened Recovery
  import opened Retry

  /** The entries of the list, by step id. */
  ghost predicate Indexes(completed: map<string, CompletedStep>, outputs: map<string, string>, list: seq<CompletedStep>) {
    && completed.Keys == outputs.Keys == (set c | c in list :: c.stepId)
    && forall id | id in completed ::
         completed[id] in list && completed[id].stepId == id && outputs[id] == completed[id].outputRef
  }

  method IndexSteps(list: seq<CompletedStep>) returns (completed: map<string, CompletedStep>, outputs: map<string, string>)
    ensures Indexes(completed, outputs, list)
  {
    completed, outputs := map[], map[];
    for i := 0 to |list|
      invariant Indexes(completed, outputs, list[..i])
    {
      assert list[..i + 1] == list[..i] + [list[i]];
      completed := completed[list[i].stepId := list[i]];
      outputs := outputs[list[i].stepId := list[i].outputRef];
    }
    assert list[..|list|] == list;
  }

  class Runtime {
    const writer: Writer
    const recoveryMode: bool
    const completed: map<string, CompletedStep>
    const outputs: map<string, string>

    constructor (writer: Writer, recoveryMode: bool, completed: map<string, CompletedStep>, outputs: map<string, string>)
      ensures this.writer == writer && this.recoveryMode == recoveryMode
      ensures this.completed == completed && this.outputs == outputs
    {
      this.writer := writer;
      this.recoveryMode := recoveryMode;
      this.completed := completed;
      this.outputs := outputs;
    }

    /** Step: skip it if an earlier run completed it; otherwise begin, execute with retries, and record a success or
        a timeout. `jobErr` is the error of the job's own context afterwards; `rots` says which records were written
        to a new log file. */
    method Step(id: string, cfg: Config, fn: int -> Option<Err>, done: int -> Option<Err>, jobErr: Option<Err>,
                clock: int -> int)
      returns (err: Option<Err>, calls: int, ghost result: Option<Err>, ghost waits: seq<int>, ghost rots: seq<bool>)
      requires writer.Valid()
      modifies writer, writer.disk
      ensures writer.Valid() && old(writer.disk.Durable()) <= writer.disk.Durable()
      ensures recoveryMode && id in completed ==>
                err.None? && calls == 0 && writer.disk.vol == old(writer.disk.vol)
      ensures !(recoveryMode && id in completed) ==>
                && Outcome(cfg, fn, done, calls, result, waits) && Plainly(cfg, fn, done, calls, result, waits)
                && |rots| == |waits| + 2
                && writer.disk.vol == SteppedTo(old(writer.disk.vol), id, result, clock, rots)
                && writer.disk.Log() == StepLog(old(writer.disk.Log()), id, |waits|, result, clock)
                && StepRecords(old(writer.disk.Log()), writer.disk.Log(), id, |waits|, result)
                && err == (if result.None? then jobErr else result)
                && (result.None? || result == Some(DeadlineExceeded) ==> writer.disk.Durable() == |writer.disk.Log()|)
    {
      hide StepRecords, Plainly, Writer.Valid, Writer.Agrees, Outcome, WithRetries, RetriedTo, Ok, Appended, Synced, SteppedTo, StepLog, Anchor, Flatten;
      writer.Usable();
      if recoveryMode && id in completed {
        return None, 0, None, [], [];
      }
      ghost var v := writer.disk.vol;
      writer.NextSeqIsLength();
      var _, first := writer.StepBegin(id, clock(writer.nextSeq + 1));
      var attempts;
      ghost var more;
      attempts, err, calls, waits, more := Execute(cfg, fn, done, writer, id, clock);
      result := err;
      ghost var last := RecordEnd(id, err, clock);
      if err.None? {
        err := jobErr;
      }
      rots := [first] + more + [last];
      SteppedFrom(v, id, result, clock, first, more, last);
      SteppedOk(v, id, result, clock, rots);
      RecordsOfStep(Log(v), id, |waits|, result, clock);
    }

    method RecordEnd(id: string, err: Option<Err>, clock: int -> int) returns (ghost rotated: bool)
      requires writer.Valid() && Ok(writer.disk.vol) && writer.disk.vol.parts != []
      modifies writer, writer.disk
      ensures writer.Valid() && writer.disk.vol == EndedTo(old(writer.disk.vol), id, err, clock, rotated)
    {
      hide Writer.Valid, Writer.Agrees, Disk.Durable, Anchor, Synced;
      writer.NextSeqIsLength();
      var seqNo;
      if err.None? {
        seqNo, rotated := writer.StepEnd(id, 0, "", clock(writer.nextSeq + 1));
      } else if err == Some(DeadlineExceeded) {
        seqNo, rotated := writer.StepTimeout(id, clock(writer.nextSeq + 1));
      } else {
        rotated := false;
      }
    }
  }

  predicate Recorded(result: Option<Err>) {
    result.None? || result == Some(DeadlineExceeded)
  }

  function BeginRecord(n: int, id: string, clock: int -> int): Record {
    Record(n, RecType.StepBegin, id, clock(n), None, "", 0, "")
  }

  function EndRecord(n: int, id: string, result: Option<Err>, clock: int -> int): Record {
    if result.None? then Record(n, RecType.StepEnd, id, clock(n), Some(0), "", 0, "")
    else Record(n, RecType.StepTimeout, id, clock(n), None, "", 0, "timeout")
  }

  /** The records one executed step adds: its begin, one per retry, and how it ended. */
  function StepLog(log: seq<Record>, id: string, retries: nat, result: Option<Err>, clock: int -> int): seq<Record> {
    var tried := WithRetries(log + [BeginRecord(|log| + 1, id, clock)], id, retries, clock);
    if Recorded(result) then tried + [EndRecord(|tried| + 1, id, result, clock)] else tried
  }

  /** Record by record: the begin, then the retries numbered 2, 3, ..., then an end with exit 0 if the step succeeded, or
      a timeout if its deadline passed; after any other error nothing more. */
  ghost predicate StepRecords(before: seq<Record>, after: seq<Record>, id: string, retries: nat, result: Option<Err>) {
    var n, last := |before|, |before| + 1 + retries;
    && before <= after && |after| == (if result.None? || result == Some(DeadlineExceeded) then last + 1 else last)
    && after[n].rtype.StepBegin? && after[n].stepId == id
    && RetriesFrom(after, n + 1, last, id)
    && (result.None? ==> after[last].rtype.StepEnd? && after[last].stepId == id && after[last].exit == Some(0))
    && (result == Some(DeadlineExceeded) ==> after[last].rtype.StepTimeout? && after[last].stepId == id)
  }

  /** From index n on, up to `last`, only retries of this step, numbered 2, 3, ... */
  ghost predicate RetriesFrom(log: seq<Record>, n: nat, last: nat, id: string)
    requires last <= |log|
  {
    forall i | n <= i < last :: log[i].rtype.StepRetry? && log[i].stepId == id && log[i].attempt == i - n + 2
  }

  lemma {:induction false} RetriesAt(log: seq<Record>, id: string, k: nat, clock: int -> int)
    ensures var after := WithRetries(log, id, k, clock); RetriesFrom(after, |log|, |after|, id)
  {
    if k > 0 {
      RetriesAt(log, id, k - 1, clock);
      OneMoreRetry(WithRetries(log, id, k - 1, clock), |log|, RetryRecord(|log| + k, id, k + 1, clock), id);
    }
  }

  lemma OneMoreRetry(log: seq<Record>, n: nat, r: Record, id: string)
    requires n <= |log| && RetriesFrom(log, n, |log|, id) && r.rtype.StepRetry? && r.stepId == id && r.attempt == |log| - n + 2
    ensures RetriesFrom(log + [r], n, |log| + 1, id)
  {
  }

  lemma RecordsOfStep(log: seq<Record>, id: string, retries: nat, result: Option<Err>, clock: int -> int)
    ensures StepRecords(log, StepLog(log, id, retries, result, clock), id, retries, result)
  {
    hide WithRetries;
    var begun := log + [BeginRecord(|log| + 1, id, clock)];
    RetriesAt(begun, id, retries, clock);
    var tried, after := WithRetries(begun, id, retries, clock), StepLog(log, id, retries, result, clock);
    assert forall i | 0 <= i < |tried| :: after[i] == tried[i];
    assert forall i | 0 <= i < |begun| :: tried[i] == begun[i];
    assert forall i | 0 <= i < |log| :: after[i] == log[i];
  }

  ghost function EndedTo(v: Volume, id: string, result: Option<Err>, clock: int -> int, rotated: bool): Volume
    requires Ok(v) && v.parts != []
  {
    if Recorded(result) then Synced(v, rotated, EndRecord(|Log(v)| + 1, id, result, clock)) else v
  }

  ghost function BegunTo(v: Volume, id: string, clock: int -> int, rotated: bool): (w: Volume)
    requires Ok(v) && v.parts != []
    ensures Ok(w) && w.parts != []
  {
    AppendedOk(v, BeginRecord(|Log(v)| + 1, id, clock));
    Appended(v, rotated, BeginRecord(|Log(v)| + 1, id, clock))
  }

  /** The log files after one executed step. */
  ghost function SteppedTo(v: Volume, id: string, result: Option<Err>, clock: int -> int, rots: seq<bool>): Volume
    requires Ok(v) && v.parts != [] && |rots| >= 2
  {
    var n := |rots| - 1;
    EndedTo(RetriedTo(BegunTo(v, id, clock, rots[0]), id, clock, rots[1..n]), id, result, clock, rots[n])
  }

  lemma SteppedFrom(v: Volume, id: string, result: Option<Err>, clock: int -> int, first: bool, more: seq<bool>, last: bool)
    requires Ok(v) && v.parts != []
    ensures SteppedTo(v, id, result, clock, [first] + more + [last])
         == EndedTo(RetriedTo(BegunTo(v, id, clock, first), id, clock, more), id, result, clock, last)
  {
    hide EndedTo, RetriedTo, BegunTo, Ok;
    var rots := [first] + more + [last];
    assert rots[1..|rots| - 1] == more;
  }

  lemma SteppedOk(v: Volume, id: string, result: Option<Err>, clock: int -> int, rots: seq<bool>)
    requires Ok(v) && v.parts != [] && |rots| >= 2
    ensures var w := SteppedTo(v, id, result, clock, rots);
            && Ok(w) && w.parts != [] && Log(w) == StepLog(Log(v), id, |rots| - 2, result, clock)
            && Anchor(v) <= Anchor(w) && (Recorded(result) ==> Anchor(w) == |Log(w)|)
  {
    hide Ok, Flatten, Anchor, Appended, Synced, WithRetries, RetriedTo;
    var n := |rots| - 1;
    AppendedOk(v, BeginRecord(|Log(v)| + 1, id, clock));
    var begun := BegunTo(v, id, clock, rots[0]);
    var tried := RetriedTo(begun, id, clock, rots[1..n]);
    AppendedOk(tried, EndRecord(|Log(tried)| + 1, id, result, clock));
    AppendedParts(tried, rots[n], EndRecord(|Log(tried)| + 1, id, result, clock));
  }

  lemma AppendedParts(v: Volume, rotated: bool, r: Record)
    requires Ok(v) && v.parts != []
    ensures Ok(Synced(v, rotated, r)) && Synced(v, rotated, r).parts != []
    ensures Log(Synced(v, rotated, r)) == Log(v) + [r] && Anchor(Synced(v, rotated, r)) == |Log(v)| + 1
    ensures Anchor(v) <= Anchor(Synced(v, rotated, r))
  {
    AppendedOk(v, r);
  }

  /** New: open the log for appending and, in recovery mode, find out what is complete, which fails exactly when the
      reader does. With fewer than 9,999 files that is when a line is too long, and what is found is that of the log. */
  method New(disk: Disk, recoveryMode: bool) returns (rt: Runtime?)
    requires disk.Valid()
    modifies disk
    ensures disk.Valid() && disk.Log() == old(disk.Log()) && disk.Durable() == old(disk.Durable())
    ensures rt == null <==> !Short(disk.codec, disk.Log()) || (recoveryMode && !ReadsAs(disk).Read?)
    ensures rt != null ==> fresh(rt) && fresh(rt.writer) && rt.writer.disk == disk && rt.recoveryMode == recoveryMode
    ensures rt != null ==> Indexes(rt.completed, rt.outputs, if recoveryMode then CompletedSteps(ReadsAs(disk).recs) else [])
    ensures |old(disk.vol).parts| < 9999 ==>
              && ReadsAs(disk) == (if Short(disk.codec, disk.Log()) then Read(disk.Log()) else TooLong)
              && disk.vol == (if rt == null then old(disk.vol) else Opened(old(disk.vol), old(disk.LastFull())))
              && (rt != null ==> rt.writer.Valid())
  {
    hide Disk.Shape, Ok, Readable, Anchor, LogVolume.Log, ReadsAs;
    var w := NewWriter(disk);
    if |old(disk.vol).parts| < 9999 {
      ReadsBack(disk);
    }
    if w == null {
      return null;
    }
    var list: seq<CompletedStep> := [];
    if recoveryMode {
      var m := BuildManifest(disk);
      if m.None? {
        return null;
      }
      list := m.value.completed;
    }
    var completed, outputs := IndexSteps(list);
    rt := new Runtime(w, recoveryMode, completed, outputs);
  }

  // ----- a step is a run of the recovery machine -----

  function Repeat(id: string, n: nat): seq<string> {
    if n == 0 then [] else Repeat(id, n - 1) + [id]
  }

  /** Writing one record: perhaps a rotation before, perhaps a sync after. */
  function Writes(rotated: bool, a: Action, sync: bool): seq<Action> {
    (if rotated then [RotateFile] else []) + [a] + (if sync then [SyncFile] else [])
  }

  /** The first k calls, each followed by a retry record if it was retried. */
  function Tries(id: string, k: nat, rots: seq<bool>, logged: nat, clock: int -> int): seq<Action> {
    if k == 0 then []
    else
      Tries(id, k - 1, rots, logged, clock) + [Call(id)]
        + (if k <= |rots| then Writes(rots[k - 1], Action.Retry(id, k + 1, clock(logged + k)), true) else [])
  }

  function Ending(id: string, result: Option<Err>, logged: nat, clock: int -> int, rotated: bool): seq<Action> {
    var now := clock(logged + 1);
    if result.None? then Writes(rotated, WriteEnd(id, now), false) + [SyncEnd(id)]
    else if result == Some(DeadlineExceeded) then Writes(rotated, Timeout(id, now), true)
    else [Fail(id)]
  }

  function StepActions(id: string, calls: nat, result: Option<Err>, logged: nat, clock: int -> int, rots: seq<bool>): seq<Action>
    requires |rots| >= 2
  {
    var n := |rots| - 1;
    Writes(rots[0], Begin(id, clock(logged + 1)), false) + Tries(id, calls, rots[1..n], logged + 1, clock)
      + Ending(id, result, logged + n, clock, rots[n])
  }

  /** The record an action writes. */
  function Written(a: Action, n: int): Option<Record> {
    match a
    case Begin(id, ts) => Some(Record(n, RecType.StepBegin, id, ts, None, "", 0, ""))
    case Retry(id, attempt, ts) => Some(Record(n, RecType.StepRetry, id, ts, None, "", attempt, ""))
    case WriteEnd(id, ts) => Some(Record(n, RecType.StepEnd, id, ts, Some(0), "", 0, ""))
    case Timeout(id, ts) => Some(Record(n, RecType.StepTimeout, id, ts, None, "", 0, "timeout"))
    case CancelJob(reason, ts) => Some(Record(n, RecType.JobCancelled, "", ts, None, "", 0, reason))
    case _ => None
  }

  /** Writing depends on the files only in what it appends. */
  lemma WriteIs(s: State, v: Volume, a: Action)
    requires Ok(s.vol) && s.up && Enabled(s, a) && Written(a, 0).Some?
    requires Ok(v) && v.parts != [] && Log(v) == s.Records()
    ensures var m, r := s.(vol := v), Written(a, |s.Records()| + 1).value;
            && Apply(m, a) == Apply(s, a).(vol := Append(v, r))
  {
    hide Flatten;
  }

  lemma FileActions(s: State)
    requires Ok(s.vol) && s.up
    ensures Apply(s, RotateFile) == s.(vol := Rotate(s.vol))
    ensures Apply(s, SyncFile) == s.(vol := SyncLast(s.vol))
  {
  }

  lemma WriteKeepsUp(s: State, a: Action)
    requires Ok(s.vol) && s.up && Enabled(s, a) && Written(a, 0).Some?
    ensures Apply(s, a).up
  {
  }

  lemma WritesRun(s: State, rotated: bool, a: Action, sync: bool)
    requires Ok(s.vol) && s.vol.parts != [] && s.up && Enabled(s, a) && Written(a, 0).Some?
    ensures var t, r := Run(s, Writes(rotated, a, sync)), Written(a, |s.Records()| + 1).value;
            && t == Apply(s, a).(vol := t.vol)
            && t.vol == if sync then Synced(s.vol, rotated, r) else Appended(s.vol, rotated, r)
  {
    hide Run, Apply, Enabled, Flatten, Ok, Rotate, Append, SyncLast, Sealed, Anchor;
    var r := Written(a, |s.Records()| + 1).value;
    RotateLog(s.vol);
    AppendedOk(s.vol, r);
    RotatedParts(s.vol);
    var v := if rotated then Rotate(s.vol) else s.vol;
    var m := if rotated then Apply(s, RotateFile) else s;
    FileActions(s);
    WriteKeepsUp(s, a);
    WriteIs(s, v, a);
    assert m == s.(vol := v);
    var w := Apply(m, a);
    assert w == Apply(s, a).(vol := Append(v, r)) && w.vol == Appended(s.vol, rotated, r);
    var first := (if rotated then [RotateFile] else []) + [a];
    FirstWrites(s, m, rotated, a);
    if sync {
      FileActions(w);
      RunOne(w, SyncFile);
      RunAppend(s, first, [SyncFile]);
    } else {
      assert first + [] == first;
    }
  }

  lemma RotatedParts(v: Volume)
    requires Ok(v)
    ensures Rotate(v).parts != []
  {
  }

  lemma FirstWrites(s: State, m: State, rotated: bool, a: Action)
    requires m == if rotated then Apply(s, RotateFile) else s
    ensures Run(s, (if rotated then [RotateFile] else []) + [a]) == Apply(m, a)
  {
    hide Apply;
    RunOne(m, a);
    if rotated {
      RunOne(s, RotateFile);
      RunAppend(s, [RotateFile], [a]);
    } else {
      assert [] + [a] == [a];
    }
  }

  lemma {:induction false} TriesRun(s: State, id: string, k: nat, rots: seq<bool>, clock: int -> int)
    requires Ok(s.vol) && s.vol.parts != [] && s.up && id in s.running && k <= |rots| + 1
    ensures var n := if k <= |rots| then k else |rots|;
            Run(s, Tries(id, k, rots, |s.Records()|, clock))
              == s.(vol := RetriedTo(s.vol, id, clock, rots[..n]), calls := s.calls + Repeat(id, k))
  {
    if k > 0 {
      hide Run, Tries, Ok, RetriedTo;
      TriesRun(s, id, k - 1, rots, clock);
      assert rots[..k - 1] == rots[..k - 1][..k - 1];
      TryRun(s, id, k, rots, clock);
    } else {
      assert s.calls + [] == s.calls;
      NothingRetried(s.vol, id, clock);
    }
  }

  lemma TryRun(s: State, id: string, k: nat, rots: seq<bool>, clock: int -> int)
    requires Ok(s.vol) && s.vol.parts != [] && s.up && id in s.running && 0 < k <= |rots| + 1
    requires Run(s, Tries(id, k - 1, rots, |s.Records()|, clock))
          == s.(vol := RetriedTo(s.vol, id, clock, rots[..k - 1]), calls := s.calls + Repeat(id, k - 1))
    ensures var n := if k <= |rots| then k else |rots|;
            Run(s, Tries(id, k, rots, |s.Records()|, clock))
              == s.(vol := RetriedTo(s.vol, id, clock, rots[..n]), calls := s.calls + Repeat(id, k))
  {
    hide Run, Apply, Ok, Flatten, WithRetries, Synced, RetriedTo, Writes, Enabled, Anchor, LogVolume.Log;
    var before := Tries(id, k - 1, rots, |s.Records()|, clock);
    var t := Run(s, before);
    RetriedNext(s.vol, id, clock, rots[..k - 1], false);
    var called := t.(calls := s.calls + Repeat(id, k));
    CallIs(t, id);
    RunOne(t, Call(id));
    RunAppend(s, before, [Call(id)]);
    assert t.calls + [id] == s.calls + Repeat(id, k);
    assert Run(s, before + [Call(id)]) == called;
    if k <= |rots| {
      var a := Action.Retry(id, k + 1, clock(|s.Records()| + k));
      RunAppend(s, before + [Call(id)], Writes(rots[k - 1], a, true));
      RetryRun(called, id, k, a, rots[k - 1]);
      RetriedNext(s.vol, id, clock, rots[..k - 1], rots[k - 1]);
      assert rots[..k] == rots[..k - 1] + [rots[k - 1]];
    } else {
      assert before + [Call(id)] + [] == before + [Call(id)];
    }
  }

  lemma CallIs(s: State, id: string)
    requires Ok(s.vol) && s.up && id in s.running
    ensures Apply(s, Call(id)) == s.(calls := s.calls + [id])
  {
  }

  lemma RetryRun(s: State, id: string, k: nat, a: Action, rotated: bool)
    requires Ok(s.vol) && s.vol.parts != [] && s.up && id in s.running && a.Retry? && a.id == id && a.attempt == k + 1
    ensures Run(s, Writes(rotated, a, true))
         == s.(vol := Synced(s.vol, rotated, Record(|s.Records()| + 1, RecType.StepRetry, id, a.ts, None, "", k + 1, "")))
  {
    hide Flatten, Synced, Append;
    WritesRun(s, rotated, a, true);
    assert Apply(s, a).(vol := s.vol) == s;
  }

  lemma EndingRun(s: State, id: string, result: Option<Err>, clock: int -> int, rotated: bool)
    requires Ok(s.vol) && s.vol.parts != [] && s.up && id in s.running
    ensures var t := Run(s, Ending(id, result, |s.Records()|, clock, rotated));
            && t.vol == EndedTo(s.vol, id, result, clock, rotated)
            && t.up && t.loaded == s.loaded && t.used == s.used && t.calls == s.calls && t.loads == s.loads
            && t.returned == s.returned + (if result.None? then [id] else [])
  {
    hide Run, Writes, Ok, LogVolume.Log;
    var now := clock(|s.Records()| + 1);
    if result.None? {
      EndRun(s, id, now, rotated);
    } else if result == Some(DeadlineExceeded) {
      hide Flatten, Synced, Append;
      WritesRun(s, rotated, Timeout(id, now), true);
    } else {
      RunOne(s, Fail(id));
    }
  }

  lemma EndRun(s: State, id: string, now: int, rotated: bool)
    requires Ok(s.vol) && s.vol.parts != [] && s.up && id in s.running
    ensures var t := Run(s, Writes(rotated, WriteEnd(id, now), false) + [SyncEnd(id)]);
            && t.vol == Synced(s.vol, rotated, Record(|s.Records()| + 1, RecType.StepEnd, id, now, Some(0), "", 0, ""))
            && t.up && t.loaded == s.loaded && t.used == s.used && t.calls == s.calls && t.loads == s.loads
            && t.returned == s.returned + [id]
  {
    hide Flatten, Writes, Append, Rotate;
    var writes := Writes(rotated, WriteEnd(id, now), false);
    WritesRun(s, rotated, WriteEnd(id, now), false);
    var t := Run(s, writes);
    AppendedOk(s.vol, Written(WriteEnd(id, now), |s.Records()| + 1).value);
    RunAppend(s, writes, [SyncEnd(id)]);
    RunOne(t, SyncEnd(id));
  }

  /** No record of an end, and no end, before the ending. */
  predicate IsTrying(a: Action, id: string) {
    a.RotateFile? || a.SyncFile? || (a.Begin? && a.id == id) || (a.Call? && a.id == id) || (a.Retry? && a.id == id)
  }

  lemma {:induction false} TriesOnlyTry(id: string, k: nat, rots: seq<bool>, logged: nat, clock: int -> int)
    ensures forall a | a in Tries(id, k, rots, logged, clock) :: IsTrying(a, id)
  {
    if k > 0 {
      TriesOnlyTry(id, k - 1, rots, logged, clock);
    }
  }

  /** How the step ends is how the actions end: a timeout exactly if the deadline passed, an end that is written and
      synced exactly if there was no error, and otherwise a failure that leaves no record. */
  ghost predicate EndsAs(acts: seq<Action>, id: string, result: Option<Err>) {
    && ((exists ts :: Timeout(id, ts) in acts) <==> result == Some(DeadlineExceeded))
    && ((exists ts :: WriteEnd(id, ts) in acts) <==> result.None?)
    && (SyncEnd(id) in acts <==> result.None?)
    && (Fail(id) in acts <==> result.Some? && result != Some(DeadlineExceeded))
  }

  lemma EndingEnds(id: string, result: Option<Err>, logged: nat, clock: int -> int, rotated: bool)
    ensures EndsAs(Ending(id, result, logged, clock, rotated), id, result)
  {
    var now := clock(logged + 1);
    var ending := Ending(id, result, logged, clock, rotated);
    assert result == Some(DeadlineExceeded) ==> Timeout(id, now) in ending;
    assert result.None? ==> WriteEnd(id, now) in ending && SyncEnd(id) in ending;
  }

  lemma TryingThenEnds(xs: seq<Action>, ys: seq<Action>, id: string, result: Option<Err>)
    requires (forall a | a in xs :: IsTrying(a, id)) && EndsAs(ys, id, result)
    ensures EndsAs(xs + ys, id, result)
  {
    assert forall a: Action | !IsTrying(a, id) :: a in xs + ys <==> a in ys;
  }

  lemma ActionsEnd(id: string, calls: nat, result: Option<Err>, logged: nat, clock: int -> int, rots: seq<bool>)
    requires |rots| >= 2
    ensures EndsAs(StepActions(id, calls, result, logged, clock, rots), id, result)
  {
    hide Tries, Ending, EndsAs;
    var n := |rots| - 1;
    var begins := Writes(rots[0], Begin(id, clock(logged + 1)), false);
    var tries := Tries(id, calls, rots[1..n], logged + 1, clock);
    TriesOnlyTry(id, calls, rots[1..n], logged + 1, clock);
    assert forall a | a in begins :: IsTrying(a, id);
    EndingEnds(id, result, logged + n, clock, rots[n]);
    TryingThenEnds(begins + tries, Ending(id, result, logged + n, clock, rots[n]), id, result);
  }

  /** What Step does to the log files and how often it calls the function is what the machine does on these actions,
      for a step not used before in this run; a step that was loaded is skipped by both. */
  lemma StepIsRun(s: State, id: string, calls: nat, result: Option<Err>, clock: int -> int, rots: seq<bool>)
    requires Inv(s) && s.up && id !in s.used && calls >= 1 && calls - 1 <= |rots| - 2 <= calls
    ensures id in s.loaded ==> Apply(s, Skip(id)) == s.(used := s.used + {id}, returned := s.returned + [id])
    ensures id !in s.loaded ==>
              var t := Run(s, StepActions(id, calls, result, |s.Records()|, clock, rots));
              && t.vol == SteppedTo(s.vol, id, result, clock, rots)
              && t.up && t.loaded == s.loaded && t.used == s.used + {id} && t.loads == s.loads
              && t.calls == s.calls + Repeat(id, calls)
              && t.returned == s.returned + (if result.None? then [id] else [])
    ensures EndsAs(StepActions(id, calls, result, |s.Records()|, clock, rots), id, result)
  {
    hide EndsAs, Run, LogOk, RunOk, Flatten, Ok, LogVolume.Log, BegunTo, Anchor, Appended, Synced, WithRetries, RetriedTo, EndedTo, Tries, Ending, Writes;
    UpOk(s);
    ActionsEnd(id, calls, result, |s.Records()|, clock, rots);
    if id !in s.loaded {
      var n := |rots| - 1;
      var begin := Begin(id, clock(|s.Records()| + 1));
      var begins := Writes(rots[0], begin, false);
      var begun := Run(s, begins);
      BeginsRun(s, id, begin, rots[0], clock);
      var tries := Tries(id, calls, rots[1..n], |begun.Records()|, clock);
      TriesRun(begun, id, calls, rots[1..n], clock);
      var tried := Run(begun, tries);
      assert rots[1..n][..|rots[1..n]|] == rots[1..n];
      assert tried == begun.(vol := RetriedTo(begun.vol, id, clock, rots[1..n]), calls := s.calls + Repeat(id, calls));
      RetriedNext(begun.vol, id, clock, rots[1..n], false);
      var ending := Ending(id, result, |tried.Records()|, clock, rots[n]);
      EndingRun(tried, id, result, clock, rots[n]);
      RunAppend(s, begins, tries);
      RunAppend(s, begins + tries, ending);
    }
  }

  lemma BeginsRun(s: State, id: string, a: Action, rotated: bool, clock: int -> int)
    requires Ok(s.vol) && s.vol.parts != [] && s.up && a == Begin(id, clock(|s.Records()| + 1)) && Enabled(s, a)
    ensures var t := Run(s, Writes(rotated, a, false));
            && t.vol == BegunTo(s.vol, id, clock, rotated) && |t.Records()| == |s.Records()| + 1
            && t == s.(vol := t.vol, used := s.used + {id}, running := s.running + {id})
  {
    hide Flatten, Writes, Append, Rotate, Run, Appended;
    WritesRun(s, rotated, a, false);
    AppendedOk(s.vol, BeginRecord(|s.Records()| + 1, id, clock));
  }

  lemma UpOk(s: State)
    requires Inv(s) && s.up
    ensures Ok(s.vol) && s.vol.parts != []
  {
  }
}
