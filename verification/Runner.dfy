/** The agent runner (internal/runner/runner.go): its step hooks, and the last completed step it reports. */
module Runner {
  import opened Conditions
  import opened WalFormat
  import opened LogVolume
  import opened Wal
  import opened Manifest
  import opened Recovery
  import opened Runtime
  import opened FailStop

  datatype BeginResponse = Skipped(cachedOutput: string) | Begun(seqNo: int)

  /** `hash` is the digest HandleStepEnd records in place of the output. */
  class Runner {
    const writer: Writer
    const recoveryMode: bool
    const completed: map<string, CompletedStep>
    const hash: string -> string
    var outputs: map<string, string>

    constructor (writer: Writer, recoveryMode: bool, completed: map<string, CompletedStep>, outputs: map<string, string>,
                 hash: string -> string)
      ensures this.writer == writer && this.recoveryMode == recoveryMode && this.completed == completed
      ensures this.outputs == outputs && this.hash == hash
    {
      this.writer := writer;
      this.recoveryMode := recoveryMode;
      this.completed := completed;
      this.outputs := outputs;
      this.hash := hash;
    }

    method HandleStepBegin(id: string, ts: int) returns (r: BeginResponse)
      requires writer.Valid()
      modifies writer, writer.disk
      ensures writer.Valid() && old(writer.disk.Durable()) <= writer.disk.Durable()
      ensures recoveryMode && id in completed ==>
                r == Skipped(completed[id].outputRef) && writer.disk.vol == old(writer.disk.vol)
      ensures !(recoveryMode && id in completed) ==>
                && r == Begun(|writer.disk.Log()|)
                && writer.disk.Log() == old(writer.disk.Log())
                     + [Record(|old(writer.disk.Log())| + 1, RecType.StepBegin, id, ts, None, "", 0, "")]
    {
      hide Writer.Valid, Writer.Agrees, Disk.Log, Disk.Durable, Appended;
      if recoveryMode && id in completed {
        return Skipped(completed[id].outputRef);
      }
      var seqNo, _ := writer.StepBegin(id, ts);
      return Begun(seqNo);
    }

    method HandleStepEnd(id: string, exitCode: int, output: string, ts: int) returns (seqNo: int)
      requires writer.Valid()
      modifies this, writer, writer.disk
      ensures writer.Valid() && seqNo == |writer.disk.Log()| == writer.disk.Durable()
      ensures writer.disk.Log() == old(writer.disk.Log())
                + [Record(|old(writer.disk.Log())| + 1, RecType.StepEnd, id, ts, Some(exitCode), hash(output), 0, "")]
      ensures outputs == old(outputs)[id := hash(output)]
    {
      hide Writer.Valid, Writer.Agrees, Disk.Log, Disk.Durable, Synced;
      var n, _ := writer.StepEnd(id, exitCode, hash(output), ts);
      outputs := outputs[id := hash(output)];
      return n;
    }

    /** PrepareEnvironment's last completed step: the one with the greatest sequence number. */
    method LastCompletedStep() returns (last: string)
      requires forall id | id in completed :: completed[id].stepId == id && completed[id].seqNo > 0
      ensures recoveryMode && completed != map[] ==> IsLatest(completed, last)
      ensures !recoveryMode || completed == map[] ==> last == ""
    {
      last := "";
      if !recoveryMode {
        return;
      }
      var maxSeq := 0;
      var rest := completed.Keys;
      while rest != {}
        invariant rest <= completed.Keys
        invariant if rest == completed.Keys then maxSeq == 0 && last == ""
                  else last in completed && maxSeq == completed[last].seqNo
        invariant forall id | id in completed.Keys - rest :: completed[id].seqNo <= maxSeq
        decreases rest
      {
        var id :| id in rest;
        rest := rest - {id};
        if completed[id].seqNo > maxSeq {
          maxSeq := completed[id].seqNo;
          last := completed[id].stepId;
        }
      }
    }
  }

  ghost predicate IsLatest(completed: map<string, CompletedStep>, last: string) {
    last in completed && forall id | id in completed :: completed[id].seqNo <= completed[last].seqNo
  }

  /** For a body that runs distinct steps in order and stops at the first error, the step with the greatest sequence
      number is the last one of the list, so the runner and the manifest name the same last completed step, and it is
      the last step of the program that is complete. */
  lemma LastCompletedAgree(prog: seq<string>, acts: seq<Action>, completed: map<string, CompletedStep>,
                           outputs: map<string, string>, last: string)
    requires Distinct(prog) && FollowsAll(prog, INIT, acts) && Readable(Run(INIT, acts).vol)
    requires Indexes(completed, outputs, CompletedSteps(Run(INIT, acts).Records())) && IsLatest(completed, last)
    ensures var list := CompletedSteps(Run(INIT, acts).Records());
            && 0 < |list| <= |prog| && last == list[|list| - 1].stepId == prog[|list| - 1]
            && forall i | 0 <= i < |prog| :: prog[i] in completed <==> i < |list|
  {
    CompletedArePrefix(prog, acts);
    PrefixLast(prog, CompletedSteps(Run(INIT, acts).Records()), completed, outputs, last);
  }

  lemma PrefixLast(prog: seq<string>, list: seq<CompletedStep>, completed: map<string, CompletedStep>,
                   outputs: map<string, string>, last: string)
    requires Distinct(prog) && IsPrefix(prog, list) && Indexes(completed, outputs, list) && IsLatest(completed, last)
    ensures 0 < |list| && last == list[|list| - 1].stepId
    ensures forall i | 0 <= i < |prog| :: prog[i] in completed <==> i < |list|
  {
    assert completed[last] in list;
    var k :| 0 <= k < |list| && list[k] == completed[last];
    var n := |list| - 1;
    assert list[n] in list;
    assert completed[list[n].stepId].seqNo <= completed[last].seqNo;
    var m :| 0 <= m < |list| && list[m] == completed[list[n].stepId];
    assert prog[m] == prog[n];
    assert forall i | 0 <= i < |list| :: list[i] in list;
    forall i | 0 <= i < |prog| && prog[i] in completed ensures i < |list| {
      var j :| 0 <= j < |list| && list[j] == completed[prog[i]];
      assert prog[j] == prog[i];
    }
  }

  // ----- when the two agree -----

  /** Of the completed steps that first began before z, none ended after it. */
  ghost predicate NoneEndsAfter(log: seq<Record>, z: string) {
    forall id, b, e, bz, ez |
      FirstBegin(log, id, b) && CompletesAt(log, id, e) && FirstBegin(log, z, bz) && CompletesAt(log, z, ez) && b < bz ::
      e < ez
  }

  /** The records behind an entry of the list. */
  lemma EntrySource(log: seq<Record>, i: nat) returns (b: int, e: int)
    requires LogOk(log) && i < |CompletedSteps(log)|
    ensures var c := CompletedSteps(log)[i];
            FirstBegin(log, c.stepId, b) && CompletesAt(log, c.stepId, e) && c.seqNo == e + 1
  {
    ManifestMeaning(log);
    var list := CompletedSteps(log);
    var id := list[i].stepId;
    assert Listed(list, id);
    e :| CompletesAt(log, id, e);
    var some :| 0 <= some < e && Begins(log[some], id);
    b := EarliestBegin(log, id, some);
  }

  lemma {:induction false} EarliestBegin(log: seq<Record>, id: string, some: nat) returns (b: int)
    requires some < |log| && Begins(log[some], id)
    ensures FirstBegin(log, id, b)
  {
    if k :| 0 <= k < some && Begins(log[k], id) {
      b := EarliestBegin(log, id, k);
    } else {
      b := some;
    }
  }

  lemma EntryOf(log: seq<Record>, completed: map<string, CompletedStep>, outputs: map<string, string>, id: string)
    returns (i: nat)
    requires Indexes(completed, outputs, CompletedSteps(log)) && id in completed
    ensures i < |CompletedSteps(log)| && CompletedSteps(log)[i] == completed[id] && completed[id].stepId == id
  {
    assert completed[id] in CompletedSteps(log);
    i :| 0 <= i < |CompletedSteps(log)| && CompletedSteps(log)[i] == completed[id];
  }

  lemma ListedIsIndexed(log: seq<Record>, completed: map<string, CompletedStep>, outputs: map<string, string>, id: string, e: int)
    requires LogOk(log) && Indexes(completed, outputs, CompletedSteps(log)) && CompletesAt(log, id, e)
    ensures id in completed && completed[id].seqNo == e + 1
  {
    ManifestMeaning(log);
    assert Completed(log, id);
    assert Listed(CompletedSteps(log), id);
    var j :| 0 <= j < |CompletedSteps(log)| && CompletedSteps(log)[j].stepId == id;
    assert CompletedSteps(log)[j] in CompletedSteps(log);
    var i := EntryOf(log, completed, outputs, id);
    var _, e' := EntrySource(log, i);
  }

  /** On any log recovery can meet, the manifest's last completed step is the one the runner reports if and only if no
      completed step that began before it ended after it. */
  lemma LastsAgreeIff(log: seq<Record>, completed: map<string, CompletedStep>, outputs: map<string, string>, last: string)
    requires LogOk(log) && Indexes(completed, outputs, CompletedSteps(log)) && IsLatest(completed, last)
    ensures var list := CompletedSteps(log);
            list != [] && (last == list[|list| - 1].stepId <==> NoneEndsAfter(log, list[|list| - 1].stepId))
  {
    var list := CompletedSteps(log);
    var n := |list| - 1;
    var k := EntryOf(log, completed, outputs, last);
    var z := list[n].stepId;
    var bz, ez := EntrySource(log, n);
    var bl, el := EntrySource(log, k);
    ListedIsIndexed(log, completed, outputs, z, ez);
    if last == z {
      forall id, b, e, b', e' |
        FirstBegin(log, id, b) && CompletesAt(log, id, e) && FirstBegin(log, z, b') && CompletesAt(log, z, e') && b < b'
        ensures e < e'
      {
        ListedIsIndexed(log, completed, outputs, id, e);
        ListedIsIndexed(log, completed, outputs, z, e');
        assert completed[id].seqNo <= completed[z].seqNo;
      }
    } else {
      ManifestMeaning(log);
      assert bl < bz;
      assert completed[z].seqNo <= completed[last].seqNo;
    }
  }

  /** Two steps that overlap: a begins first and ends last. */
  function Overlapping(a: string, b: string): seq<Record> {
    [Record(1, RecType.StepBegin, a, 0, None, "", 0, ""), Record(2, RecType.StepBegin, b, 0, None, "", 0, ""),
     Record(3, RecType.StepEnd, b, 0, Some(0), "", 0, ""), Record(4, RecType.StepEnd, a, 0, Some(0), "", 0, "")]
  }

  /** A body that runs the two at the same time. */
  function OverlappingRun(a: string, b: string): seq<Action> {
    [Start(false), Begin(a, 0), Begin(b, 0), WriteEnd(b, 0), WriteEnd(a, 0)]
  }

  lemma OverlappingIsReached(a: string, b: string)
    requires a != b
    ensures var s := Run(INIT, OverlappingRun(a, b)); Inv(s) && s.Records() == Overlapping(a, b)
  {
    hide Inv, Apply, Run, OverlappingRun, LogVolume.Log;
    var s := BegunState(a);
    var log := Overlapping(a, b);
    assert s.Records() == [log[0]] by { OneFile(s.vol); }
    var s2 := BeginMore(s, b, log[0]);
    var s3 := EndMore(s2, b, [log[0], log[1]]);
    assert [log[0], log[1]] + [log[2]] == [log[0], log[1], log[2]];
    var s4 := EndMore(s3, a, [log[0], log[1], log[2]]);
    assert [log[0], log[1], log[2]] + [log[3]] == log;
    FiveSteps(a, b);
  }

  lemma FiveSteps(a: string, b: string)
    ensures Run(INIT, OverlappingRun(a, b))
         == Apply(Apply(Apply(Apply(Apply(INIT, Start(false)), Begin(a, 0)), Begin(b, 0)), WriteEnd(b, 0)), WriteEnd(a, 0))
  {
    hide Apply;
    var acts := OverlappingRun(a, b);
    var s1 := Apply(INIT, Start(false));
    var s2 := Apply(s1, Begin(a, 0));
    var s3 := Apply(s2, Begin(b, 0));
    RunOne(INIT, Start(false));
    RunAppend(INIT, [Start(false)], [Begin(a, 0)]);
    RunOne(s1, Begin(a, 0));
    RunAppend(INIT, [Start(false)] + [Begin(a, 0)], [Begin(b, 0)]);
    RunOne(s2, Begin(b, 0));
    RunAppend(INIT, [Start(false)] + [Begin(a, 0)] + [Begin(b, 0)], [WriteEnd(b, 0)]);
    RunOne(s3, WriteEnd(b, 0));
    RunAppend(INIT, [Start(false)] + [Begin(a, 0)] + [Begin(b, 0)] + [WriteEnd(b, 0)], [WriteEnd(a, 0)]);
    RunOne(Apply(s3, WriteEnd(b, 0)), WriteEnd(a, 0));
    assert acts == [Start(false)] + [Begin(a, 0)] + [Begin(b, 0)] + [WriteEnd(b, 0)] + [WriteEnd(a, 0)];
  }

  lemma BeginMore(s: State, id: string, first: Record) returns (t: State)
    requires Inv(s) && s.up && id !in s.used && id !in s.loaded && s.Records() == [first]
    ensures t == Apply(s, Begin(id, 0)) && Inv(t) && t.up && t.running == s.running + {id}
    ensures t.Records() == [first, Record(2, RecType.StepBegin, id, 0, None, "", 0, "")]
  {
    hide LogOk, Done, Found, BegunBefore;
    ApplyKeeps(s, Begin(id, 0));
    t := Apply(s, Begin(id, 0));
    var r := Record(2, RecType.StepBegin, id, 0, None, "", 0, "");
    assert t.vol == Append(s.vol, r);
    AppendLog(s.vol, r);
    assert [first] + [r] == [first, r];
  }

  lemma EndMore(s: State, id: string, log: seq<Record>) returns (t: State)
    requires Inv(s) && s.up && id in s.running && s.Records() == log
    ensures t == Apply(s, WriteEnd(id, 0)) && Inv(t) && t.up && t.running == s.running - {id}
    ensures t.Records() == log + [Record(|log| + 1, RecType.StepEnd, id, 0, Some(0), "", 0, "")]
  {
    hide LogOk, Done, Found, BegunBefore;
    ApplyKeeps(s, WriteEnd(id, 0));
    t := Apply(s, WriteEnd(id, 0));
    var r := Record(|log| + 1, RecType.StepEnd, id, 0, Some(0), "", 0, "");
    assert t.vol == Append(s.vol, r);
    AppendLog(s.vol, r);
  }

  /** There the two differ: the manifest's last completed step is the one begun last and the runner's is the one ended
      last. */
  lemma LastCompletedMayDiffer(a: string, b: string)
    requires a != b
    ensures var list := CompletedSteps(Overlapping(a, b));
            list == [CompletedStep(a, 4, ""), CompletedStep(b, 3, "")]
    ensures IsLatest(map[a := CompletedStep(a, 4, ""), b := CompletedStep(b, 3, "")], a)
  {
    var log := Overlapping(a, b);
    var l1, l2, l3 := [log[0]], [log[0], log[1]], [log[0], log[1], log[2]];
    assert [] + [log[0]] == l1 && l1 + [log[1]] == l2 && l2 + [log[2]] == l3 && l3 + [log[3]] == log;
    FoldPlus([], log[0], a);
    FoldPlus(l1, log[1], a);
    FoldPlus(l2, log[2], b);
    FoldPlus(l3, log[3], b);
    FoldPlus(l3, log[3], a);
    assert BeginOrder(log) == [a, b];
    assert [a, b][..1] == [a] && [a][..0] == [];
    assert Standing(log, a) == Some(log[3]) && Standing(log, b) == Some(log[2]);
    assert Entries(log, [a]) == [CompletedStep(a, 4, "")];
  }
}
