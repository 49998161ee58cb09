/** Which steps the log proves complete (wal/reader.go, BuildManifest): a one-pass fold over all records, and what
    it means record by record. */
module Manifest {
  import opened Conditions
  import opened WalFormat
  import opened LogVolume
  import opened Wal

  datatype CompletedStep = CompletedStep(stepId: string, seqNo: int, outputRef: string)

  datatype Summary = Summary(lastCompleted: string, completed: seq<CompletedStep>, fileCount: nat, totalRecords: nat)

  predicate Begins(r: Record, id: string) { r.rtype.StepBegin? && r.stepId == id }

  predicate Ends(r: Record, id: string) { r.rtype.StepEnd? && r.stepId == id }

  // ----- what it means -----

  /** Record e is the last begin or end of the step, it is an end with exit code 0, and the step had begun before. */
  ghost predicate CompletesAt(recs: seq<Record>, id: string, e: int) {
    && 0 <= e < |recs| && Ends(recs[e], id) && recs[e].exit == Some(0)
    && (forall k | e < k < |recs| :: !Begins(recs[k], id) && !Ends(recs[k], id))
    && (exists b | 0 <= b < e :: Begins(recs[b], id))
  }

  ghost predicate Completed(recs: seq<Record>, id: string) {
    exists e :: CompletesAt(recs, id, e)
  }

  ghost predicate FirstBegin(recs: seq<Record>, id: string, b: int) {
    0 <= b < |recs| && Begins(recs[b], id) && forall k | 0 <= k < b :: !Begins(recs[k], id)
  }

  // ----- the fold, as a function of the records -----

  /** Step ids in the order of their first begin. */
  function BeginOrder(recs: seq<Record>): seq<string> {
    if recs == [] then []
    else
      var r, before := recs[|recs| - 1], BeginOrder(recs[..|recs| - 1]);
      if r.rtype.StepBegin? && r.stepId !in before then before + [r.stepId] else before
  }

  /** The end record that currently stands for a begun step. */
  function Standing(recs: seq<Record>, id: string): Option<Record> {
    if recs == [] then None
    else
      var r, before := recs[|recs| - 1], recs[..|recs| - 1];
      if Begins(r, id) then None
      else if Ends(r, id) && id in BeginOrder(before) then Some(r)
      else Standing(before, id)
  }

  function Entries(recs: seq<Record>, order: seq<string>): seq<CompletedStep> {
    if order == [] then []
    else
      var id, before := order[|order| - 1], Entries(recs, order[..|order| - 1]);
      var s := Standing(recs, id);
      if s.Some? && s.value.exit == Some(0) then before + [CompletedStep(id, s.value.seqNo, s.value.outputRef)] else before
  }

  function CompletedSteps(recs: seq<Record>): seq<CompletedStep> {
    Entries(recs, BeginOrder(recs))
  }

  // ----- the loop -----

  datatype StepInfo = StepInfo(endSeq: int, exit: Option<int>, output: string)

  ghost predicate InfoOf(recs: seq<Record>, id: string, info: StepInfo) {
    match Standing(recs, id)
    case None => info == StepInfo(0, None, "")
    case Some(r) => info == StepInfo(r.seqNo, r.exit, r.outputRef)
  }

  lemma NothingFolded()
    ensures BeginOrder([]) == []
  {
  }

  /** What one more record changes. */
  lemma FoldPlus(recs: seq<Record>, r: Record, id: string)
    ensures BeginOrder(recs + [r])
         == if r.rtype.StepBegin? && r.stepId !in BeginOrder(recs) then BeginOrder(recs) + [r.stepId] else BeginOrder(recs)
    ensures Standing(recs + [r], id)
         == if Begins(r, id) then None else if Ends(r, id) && id in BeginOrder(recs) then Some(r) else Standing(recs, id)
  {
    assert (recs + [r])[..|recs|] == recs;
  }

  /** BuildManifest on the records ReadAll returned. */
  method Summarise(recs: seq<Record>, fileCount: nat) returns (m: Summary)
    requires Numbered(recs)
    ensures m.completed == CompletedSteps(recs) && m.fileCount == fileCount && m.totalRecords == |recs|
    ensures m.lastCompleted == if m.completed == [] then "" else m.completed[|m.completed| - 1].stepId
  {
    hide BeginOrder, Standing, Numbered;
    NothingFolded();
    assert recs[..0] == [];
    var steps: map<string, StepInfo> := map[];
    var order: seq<string> := [];
    for i := 0 to |recs|
      invariant order == BeginOrder(recs[..i])
      invariant forall id :: id in steps <==> id in order
      invariant forall id | id in steps :: InfoOf(recs[..i], id, steps[id])
    {
      var r := recs[i];
      assert recs[..i + 1] == recs[..i] + [r];
      FoldPlus(recs[..i], r, r.stepId);
      forall id | id in steps && id != r.stepId ensures Standing(recs[..i + 1], id) == Standing(recs[..i], id) {
        FoldPlus(recs[..i], r, id);
      }
      match r.rtype
      case StepBegin =>
        if r.stepId !in steps {
          order := order + [r.stepId];
        }
        steps := steps[r.stepId := StepInfo(0, None, "")];
      case StepEnd =>
        if r.stepId in steps {
          steps := steps[r.stepId := StepInfo(r.seqNo, r.exit, r.outputRef)];
        }
      case _ =>
    }
    assert recs[..|recs|] == recs;
    var completed: seq<CompletedStep> := [];
    var last := "";
    for i := 0 to |order|
      invariant completed == Entries(recs, order[..i])
      invariant last == if completed == [] then "" else completed[|completed| - 1].stepId
    {
      var id := order[i];
      assert order[..i + 1][..i] == order[..i];
      assert id in order;
      var s := steps[id];
      StandingIsNumbered(recs, id);
      if s.endSeq > 0 && s.exit == Some(0) {
        completed := completed + [CompletedStep(id, s.endSeq, s.output)];
        last := id;
      }
    }
    assert order[..|order|] == order;
    m := Summary(last, completed, fileCount, |recs|);
  }

  lemma {:induction false} StandingIsNumbered(recs: seq<Record>, id: string)
    requires Numbered(recs)
    ensures Standing(recs, id).Some? ==> Standing(recs, id).value.seqNo > 0
  {
    if recs != [] {
      StandingIsNumbered(recs[..|recs| - 1], id);
    }
  }

  method BuildManifest(disk: Disk) returns (m: Option<Summary>)
    requires disk.Shape()
    ensures m.None? <==> !ReadsAs(disk).Read?
    ensures m.Some? ==>
              && m.value.completed == CompletedSteps(ReadsAs(disk).recs) && m.value.totalRecords == |ReadsAs(disk).recs|
              && m.value.fileCount == |disk.vol.parts|
  {
    var r := ReadAll(disk);
    if !r.Read? {
      return None;
    }
    var names := ListWalFiles(disk);
    SortedNamesOk(|disk.vol.parts|);
    var s := Summarise(r.recs, |names|);
    m := Some(s);
  }

  // ----- the fold means what it should -----

  lemma {:induction false} OrderMeaning(recs: seq<Record>, id: string)
    ensures id in BeginOrder(recs) <==> exists b | 0 <= b < |recs| :: Begins(recs[b], id)
  {
    if recs != [] {
      var before := recs[..|recs| - 1];
      OrderMeaning(before, id);
      if id in BeginOrder(before) {
        var b :| 0 <= b < |before| && Begins(before[b], id);
        assert Begins(recs[b], id);
      }
      if Begins(recs[|recs| - 1], id) {
        assert id in BeginOrder(recs);
      }
      if b :| 0 <= b < |recs| && Begins(recs[b], id) {
        assert b < |before| ==> Begins(before[b], id);
      }
    }
  }

  /** The standing end of a step is its last begin-or-end record, if that is an end and the step had begun. */
  lemma {:induction false} StandingSource(recs: seq<Record>, id: string) returns (e: int)
    requires Standing(recs, id).Some?
    ensures 0 <= e < |recs| && recs[e] == Standing(recs, id).value && Ends(recs[e], id)
    ensures forall k | e < k < |recs| :: !Begins(recs[k], id) && !Ends(recs[k], id)
    ensures exists b | 0 <= b < e :: Begins(recs[b], id)
  {
    var before := recs[..|recs| - 1];
    OrderMeaning(before, id);
    if Ends(recs[|recs| - 1], id) && id in BeginOrder(before) {
      e := |recs| - 1;
      var b :| 0 <= b < |before| && Begins(before[b], id);
      assert Begins(recs[b], id);
    } else {
      e := StandingSource(before, id);
      StandingBegun(before, id);
      var b :| 0 <= b < e && Begins(before[b], id);
      assert Begins(recs[b], id);
    }
  }

  lemma {:induction false} StandingBegun(recs: seq<Record>, id: string)
    requires Standing(recs, id).Some?
    ensures id in BeginOrder(recs)
  {
    var before := recs[..|recs| - 1];
    if !(Ends(recs[|recs| - 1], id) && id in BeginOrder(before)) {
      StandingBegun(before, id);
    }
  }

  lemma {:induction false} StandingMeaning(recs: seq<Record>, id: string, e: int)
    requires CompletesAt(recs, id, e)
    ensures Standing(recs, id) == Some(recs[e]) && id in BeginOrder(recs)
    decreases |recs|
  {
    var before := recs[..|recs| - 1];
    OrderMeaning(recs, id);
    OrderMeaning(before, id);
    var b :| 0 <= b < e && Begins(recs[b], id);
    assert Begins(before[b], id);
    if e < |recs| - 1 {
      assert CompletesAt(before, id, e);
      StandingMeaning(before, id, e);
    }
  }

  ghost predicate Listed(list: seq<CompletedStep>, id: string) {
    exists i | 0 <= i < |list| :: list[i].stepId == id
  }

  lemma {:induction false} EntriesMeaning(recs: seq<Record>, order: seq<string>, id: string)
    ensures Listed(Entries(recs, order), id) <==>
              id in order && Standing(recs, id).Some? && Standing(recs, id).value.exit == Some(0)
    ensures forall i | 0 <= i < |Entries(recs, order)| && Entries(recs, order)[i].stepId == id ::
              Standing(recs, id).Some? &&
              Entries(recs, order)[i] == CompletedStep(id, Standing(recs, id).value.seqNo, Standing(recs, id).value.outputRef)
  {
    if order != [] {
      var last, init := order[|order| - 1], order[..|order| - 1];
      EntriesMeaning(recs, init, id);
      var before, now := Entries(recs, init), Entries(recs, order);
      if |now| > |before| {
        assert now[|before|].stepId == last;
      }
      if i :| 0 <= i < |before| && before[i].stepId == id {
        assert now[i].stepId == id;
      }
      if i :| 0 <= i < |now| && now[i].stepId == id {
        assert i < |before| ==> before[i].stepId == id;
      }
    }
  }

  lemma {:induction false} OrderIsByFirstBegin(recs: seq<Record>, i: int, j: int, bi: int, bj: int)
    requires 0 <= i < j < |BeginOrder(recs)|
    requires FirstBegin(recs, BeginOrder(recs)[i], bi) && FirstBegin(recs, BeginOrder(recs)[j], bj)
    ensures bi < bj
    decreases |recs|
  {
    var before := recs[..|recs| - 1];
    var x, y := BeginOrder(recs)[i], BeginOrder(recs)[j];
    OrderMeaning(before, x);
    var b :| 0 <= b < |before| && Begins(before[b], x);
    assert bi <= b;
    if j < |BeginOrder(before)| {
      OrderMeaning(before, y);
      var c :| 0 <= c < |before| && Begins(before[c], y);
      assert bj <= c;
      assert FirstBegin(before, x, bi) && FirstBegin(before, y, bj);
      OrderIsByFirstBegin(before, i, j, bi, bj);
    } else {
      OrderMeaning(before, y);
      assert forall k | 0 <= k < |before| :: !Begins(before[k], y);
      assert bj == |before|;
    }
  }

  /** The listed ids keep the order they have in `order`. */
  lemma {:induction false} EntriesKeepOrder(recs: seq<Record>, order: seq<string>, i: int, j: int) returns (k: int, l: int)
    requires 0 <= i < j < |Entries(recs, order)|
    ensures 0 <= k < l < |order| && order[k] == Entries(recs, order)[i].stepId && order[l] == Entries(recs, order)[j].stepId
    decreases |order|
  {
    var init := order[..|order| - 1];
    if j < |Entries(recs, init)| {
      k, l := EntriesKeepOrder(recs, init, i, j);
    } else {
      l := |order| - 1;
      k := EntryIndex(recs, init, i);
    }
  }

  lemma {:induction false} EntryIndex(recs: seq<Record>, order: seq<string>, i: int) returns (k: int)
    requires 0 <= i < |Entries(recs, order)|
    ensures 0 <= k < |order| && order[k] == Entries(recs, order)[i].stepId
    decreases |order|
  {
    var init := order[..|order| - 1];
    if i < |Entries(recs, init)| {
      k := EntryIndex(recs, init, i);
    } else {
      k := |order| - 1;
    }
  }

  /** The manifest lists exactly the completed steps, each with the sequence number and output of the end that
      completes it, in the order in which the steps first began. */
  lemma ManifestMeaning(recs: seq<Record>)
    ensures var list := CompletedSteps(recs);
            && (forall id :: Listed(list, id) <==> Completed(recs, id))
            && (forall i, e | 0 <= i < |list| && CompletesAt(recs, list[i].stepId, e) ::
                  list[i].seqNo == recs[e].seqNo && list[i].outputRef == recs[e].outputRef)
            && (forall i, j, bi, bj | 0 <= i < j < |list| && FirstBegin(recs, list[i].stepId, bi)
                  && FirstBegin(recs, list[j].stepId, bj) :: bi < bj)
  {
    var list := CompletedSteps(recs);
    forall id ensures Listed(list, id) <==> Completed(recs, id) {
      EntriesMeaning(recs, BeginOrder(recs), id);
      if Standing(recs, id).Some? && Standing(recs, id).value.exit == Some(0) {
        var e := StandingSource(recs, id);
        assert CompletesAt(recs, id, e);
        StandingBegun(recs, id);
      }
      if e :| CompletesAt(recs, id, e) {
        StandingMeaning(recs, id, e);
      }
    }
    forall i, e | 0 <= i < |list| && CompletesAt(recs, list[i].stepId, e)
      ensures list[i].seqNo == recs[e].seqNo && list[i].outputRef == recs[e].outputRef
    {
      EntriesMeaning(recs, BeginOrder(recs), list[i].stepId);
      StandingMeaning(recs, list[i].stepId, e);
    }
    forall i, j, bi, bj | 0 <= i < j < |list| && FirstBegin(recs, list[i].stepId, bi) && FirstBegin(recs, list[j].stepId, bj)
      ensures bi < bj
    {
      var k, l := EntriesKeepOrder(recs, BeginOrder(recs), i, j);
      OrderIsByFirstBegin(recs, k, l, bi, bj);
    }
  }

  /** The records that are about beginning or ending a step. */
  function Relevant(recs: seq<Record>): seq<Record> {
    if recs == [] then []
    else
      var r, before := recs[|recs| - 1], Relevant(recs[..|recs| - 1]);
      if r.rtype.StepBegin? || r.rtype.StepEnd? then before + [r] else before
  }

  lemma {:induction false} RelevantSame(recs: seq<Record>, id: string)
    ensures BeginOrder(Relevant(recs)) == BeginOrder(recs) && Standing(Relevant(recs), id) == Standing(recs, id)
  {
    if recs != [] {
      var before := recs[..|recs| - 1];
      RelevantSame(before, id);
      assert (Relevant(before) + [recs[|recs| - 1]])[..|Relevant(before)|] == Relevant(before);
    }
  }

  /** Retry, timeout and cancel records never change the manifest. */
  lemma OthersDoNotMatter(recs: seq<Record>)
    ensures CompletedSteps(Relevant(recs)) == CompletedSteps(recs)
  {
    RelevantSame(recs, "");
    SameEntries(recs, BeginOrder(recs));
  }

  lemma {:induction false} SameEntries(recs: seq<Record>, order: seq<string>)
    ensures Entries(Relevant(recs), order) == Entries(recs, order)
  {
    if order != [] {
      RelevantSame(recs, order[|order| - 1]);
      SameEntries(recs, order[..|order| - 1]);
    }
  }
}
