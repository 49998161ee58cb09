/** A job body that calls distinct steps one after the other and stops at the first error, rerun through any kills
    and losses of power: what recovery finds complete is always an initial part of the program, in program order. */
module FailStop {
  import opened Conditions
  import opened WalFormat
  import opened LogVolume
  import opened Manifest
  import opened Recovery

  predicate Distinct(prog: seq<string>) {
    forall i, j | 0 <= i < j < |prog| :: prog[i] != prog[j]
  }

  /** The body calls a step only when every step before it has returned without an error. */
  predicate NextStep(prog: seq<string>, s: State, id: string) {
    !s.failed && s.running == {} && s.ending == {} && |s.returned| < |prog| && id == prog[|s.returned|]
  }

  ghost predicate Follows(prog: seq<string>, s: State, a: Action) {
    (a.Skip? || a.Begin?) && Ok(s.vol) && Enabled(s, a) ==> NextStep(prog, s, a.id)
  }

  ghost predicate FollowsAll(prog: seq<string>, s: State, acts: seq<Action>)
    decreases |acts|
  {
    acts == [] || (Follows(prog, s, acts[0]) && FollowsAll(prog, Apply(s, acts[0]), acts[1..]))
  }

  // ----- the log of such a body -----

  ghost predicate EndedBefore(log: seq<Record>, id: string, b: int)
    requires b <= |log|
  {
    exists e | 0 <= e < b :: Ends(log[e], id)
  }

  /** A step begins only after the end of every step before it. */
  ghost predicate InProgramOrder(prog: seq<string>, log: seq<Record>) {
    && (forall b | 0 <= b < |log| && log[b].rtype.StepBegin? :: log[b].stepId in prog)
    && (forall b, i, j | 0 <= b < |log| && 0 <= i < j < |prog| && Begins(log[b], prog[j]) :: EndedBefore(log, prog[i], b))
  }

  ghost predicate BodyOk(prog: seq<string>, s: State) {
    && s.returned <= prog
    && (forall id | id in s.running + s.ending :: !s.failed && |s.returned| < |prog| && id == prog[|s.returned|])
  }

  ghost predicate StopInv(prog: seq<string>, s: State) {
    Inv(s) && (Readable(s.vol) ==> InProgramOrder(prog, s.Records())) && BodyOk(prog, s)
  }

  lemma OrderPrefix(prog: seq<string>, log: seq<Record>, n: nat)
    requires InProgramOrder(prog, log) && n <= |log|
    ensures InProgramOrder(prog, log[..n])
  {
    var cut := log[..n];
    forall b, i, j | 0 <= b < n && 0 <= i < j < |prog| && Begins(cut[b], prog[j]) ensures EndedBefore(cut, prog[i], b) {
      assert EndedBefore(log, prog[i], b);
      var e :| 0 <= e < b && Ends(log[e], prog[i]);
      assert Ends(cut[e], prog[i]);
    }
  }

  lemma OrderPlus(prog: seq<string>, log: seq<Record>, r: Record, k: nat)
    requires Distinct(prog) && InProgramOrder(prog, log)
    requires r.rtype.StepBegin? ==> k < |prog| && r.stepId == prog[k] && forall i | 0 <= i < k :: prog[i] in Done(log)
    ensures InProgramOrder(prog, log + [r])
  {
    var after := log + [r];
    forall b, i, j | 0 <= b < |after| && 0 <= i < j < |prog| && Begins(after[b], prog[j])
      ensures EndedBefore(after, prog[i], b)
    {
      var e: int;
      if b < |log| {
        assert EndedBefore(log, prog[i], b);
        e :| 0 <= e < b && Ends(log[e], prog[i]);
      } else {
        assert j == k && prog[i] in Done(log);
        var x :| x in log && x.rtype.StepEnd? && x.stepId == prog[i];
        e :| 0 <= e < |log| && log[e] == x;
      }
      assert Ends(after[e], prog[i]);
    }
  }

  lemma ApplyOrder(prog: seq<string>, s: State, a: Action)
    requires Distinct(prog) && StopInv(prog, s) && Follows(prog, s, a) && Enabled(s, a)
    ensures Readable(Apply(s, a).vol) ==> InProgramOrder(prog, Apply(s, a).Records())
  {
    if a.PowerLoss? {
      LossOrder(prog, s, a);
    } else if a.Begin? || a.Retry? || a.WriteEnd? || a.Timeout? || a.CancelJob? {
      WriteOrder(prog, s, a);
    } else if a.Start? || a.Flush? || a.SyncEnd? || a.Finish? || a.RotateFile? || a.SyncFile? {
      FileRespectsEnds(s, a);
    }
  }

  lemma LossOrder(prog: seq<string>, s: State, a: Action)
    requires StopInv(prog, s) && Enabled(s, a) && a.PowerLoss?
    ensures Readable(Apply(s, a).vol) ==> InProgramOrder(prog, Apply(s, a).Records())
  {
    hide LogOk, InProgramOrder, BodyOk;
    LossKeeps(s, a);
    var t := Apply(s, a);
    if Readable(t.vol) {
      CutReadable(s.vol, a.keep);
      assert s.Records()[..|t.Records()|] == t.Records();
      OrderPrefix(prog, s.Records(), |t.Records()|);
    }
  }

  lemma WriteOrder(prog: seq<string>, s: State, a: Action)
    requires Distinct(prog) && StopInv(prog, s) && Follows(prog, s, a) && Enabled(s, a)
    requires a.Begin? || a.Retry? || a.WriteEnd? || a.Timeout? || a.CancelJob?
    ensures InProgramOrder(prog, Apply(s, a).Records())
  {
    hide LogOk, InProgramOrder, Flatten, BegunBefore, Done;
    var part := Apply(s, a).vol.parts[|s.vol.parts| - 1];
    var r := part[|part| - 1];
    assert Apply(s, a).vol == Append(s.vol, r);
    AppendLog(s.vol, r);
    if a.Begin? {
      assert r.stepId == a.id;
      assert forall i | 0 <= i < |s.returned| :: prog[i] == s.returned[i] && s.returned[i] in Done(s.Records());
    }
    OrderPlus(prog, s.Records(), r, |s.returned|);
  }

  lemma ReturnedPlus(prog: seq<string>, returned: seq<string>, id: string)
    requires returned <= prog && |returned| < |prog| && id == prog[|returned|]
    ensures returned + [id] <= prog
  {
  }

  lemma ApplyBody(prog: seq<string>, s: State, a: Action)
    requires Inv(s) && BodyOk(prog, s) && Follows(prog, s, a) && Enabled(s, a)
    ensures BodyOk(prog, Apply(s, a))
  {
    match a
    case Skip(id) =>
      ReturnedPlus(prog, s.returned, id);
    case SyncEnd(id) =>
      assert id in s.running + s.ending;
      ReturnedPlus(prog, s.returned, id);
      assert forall x | x in s.running + s.ending :: x == id;
    case Timeout(id, _) => assert id in s.running + s.ending;
    case Fail(id) => assert id in s.running + s.ending;
    case WriteEnd(id, _) => assert id in s.running + s.ending;
    case _ =>
  }

  lemma ApplyStop(prog: seq<string>, s: State, a: Action)
    requires Distinct(prog) && StopInv(prog, s) && Follows(prog, s, a)
    ensures StopInv(prog, Apply(s, a))
  {
    ApplyKeeps(s, a);
    if Enabled(s, a) {
      ApplyOrder(prog, s, a);
      ApplyBody(prog, s, a);
    }
  }

  lemma {:induction false} RunStop(prog: seq<string>, s: State, acts: seq<Action>)
    requires Distinct(prog) && StopInv(prog, s) && FollowsAll(prog, s, acts)
    ensures StopInv(prog, Run(s, acts))
    decreases |acts|
  {
    if acts != [] {
      ApplyStop(prog, s, acts[0]);
      RunStop(prog, Apply(s, acts[0]), acts[1..]);
    }
  }

  // ----- what the manifest lists -----

  lemma EarlierBegun(prog: seq<string>, log: seq<Record>, n: nat, i: nat, j: nat)
    requires LogOk(log) && InProgramOrder(prog, log) && n < |log| && i < j < |prog| && Begins(log[n], prog[j])
    ensures prog[i] in BeginOrder(log[..n])
  {
    assert EndedBefore(log, prog[i], n);
    var e :| 0 <= e < n && Ends(log[e], prog[i]);
    assert BegunBefore(log, prog[i], e);
    var b :| 0 <= b < e && Begins(log[b], prog[i]);
    assert Begins(log[..n][b], prog[i]);
    OrderMeaning(log[..n], prog[i]);
  }

  lemma NextInProgram(prog: seq<string>, order: seq<string>, j: nat)
    requires Distinct(prog) && order <= prog && j < |prog| && prog[j] !in order
    requires j > |order| ==> prog[|order|] in order
    ensures order + [prog[j]] <= prog
  {
    assert j == |order| by {
      assert forall i | 0 <= i < |order| :: order[i] == prog[i] && order[i] in order;
    }
  }

  lemma NewBegin(prog: seq<string>, log: seq<Record>, order: seq<string>, n: nat)
    requires Distinct(prog) && LogOk(log) && InProgramOrder(prog, log) && n < |log|
    requires order == BeginOrder(log[..n]) && order <= prog
    requires log[n].rtype.StepBegin? && log[n].stepId !in order
    ensures order + [log[n].stepId] <= prog
  {
    hide LogOk, Distinct, BeginOrder;
    var j :| 0 <= j < |prog| && prog[j] == log[n].stepId;
    if j > |order| {
      EarlierBegun(prog, log, n, |order|, j);
    }
    NextInProgram(prog, order, j);
  }

  lemma {:induction false} BeginsInOrder(prog: seq<string>, log: seq<Record>)
    requires Distinct(prog) && LogOk(log) && InProgramOrder(prog, log)
    ensures BeginOrder(log) <= prog
  {
    if log != [] {
      var n := |log| - 1;
      LogPrefixOk(log, n);
      OrderPrefix(prog, log, n);
      BeginsInOrder(prog, log[..n]);
      if log[n].rtype.StepBegin? && log[n].stepId !in BeginOrder(log[..n]) {
        NewBegin(prog, log, BeginOrder(log[..n]), n);
      }
    }
  }

  lemma EndStands(log: seq<Record>, id: string, e: int)
    requires LogOk(log) && 0 <= e < |log| && Ends(log[e], id)
    ensures Standing(log, id) == Some(log[e]) && log[e].exit == Some(0) && log[e].seqNo == e + 1
  {
    assert BegunBefore(log, log[e].stepId, e);
    assert CompletesAt(log, id, e);
    StandingMeaning(log, id, e);
  }

  lemma LaterEndsLater(prog: seq<string>, log: seq<Record>, i: nat, j: nat)
    requires LogOk(log) && InProgramOrder(prog, log) && i < j < |prog|
    requires Standing(log, prog[i]).Some? && Standing(log, prog[j]).Some?
    ensures 0 < Standing(log, prog[i]).value.seqNo < Standing(log, prog[j]).value.seqNo
  {
    var ej := StandingSource(log, prog[j]);
    var b :| 0 <= b < ej && Begins(log[b], prog[j]);
    assert EndedBefore(log, prog[i], b);
    var e :| 0 <= e < b && Ends(log[e], prog[i]);
    EndStands(log, prog[i], e);
    EndStands(log, prog[j], ej);
  }

  lemma DoneStands(log: seq<Record>, id: string)
    requires LogOk(log) && id in Done(log)
    ensures Standing(log, id).Some? && Standing(log, id).value.exit == Some(0)
  {
    hide Standing;
    var x :| x in log && x.rtype.StepEnd? && x.stepId == id;
    var e :| 0 <= e < |log| && log[e] == x;
    EndStands(log, id, e);
  }

  lemma {:induction false} EntriesOf(prog: seq<string>, log: seq<Record>, k: nat)
    requires LogOk(log) && k <= |prog|
    requires forall i | 0 <= i < k :: prog[i] in Done(log)
    ensures var list := Entries(log, prog[..k]);
            |list| == k && forall i | 0 <= i < k ::
              Standing(log, prog[i]).Some? && list[i].stepId == prog[i] && list[i].seqNo == Standing(log, prog[i]).value.seqNo
  {
    if k > 0 {
      EntriesOf(prog, log, k - 1);
      assert prog[..k][..k - 1] == prog[..k - 1];
      DoneStands(log, prog[k - 1]);
      hide LogOk, Standing, Done;
    }
  }

  /** `list` lists the first steps of the program, in program order, with growing sequence numbers. */
  ghost predicate IsPrefix(prog: seq<string>, list: seq<CompletedStep>) {
    && |list| <= |prog|
    && (forall i | 0 <= i < |list| :: list[i].stepId == prog[i] && list[i].seqNo > 0)
    && (forall i, j | 0 <= i < j < |list| :: list[i].seqNo < list[j].seqNo)
  }

  lemma AllButLastDone(prog: seq<string>, log: seq<Record>, m: nat)
    requires InProgramOrder(prog, log) && 0 < m <= |prog| && BeginOrder(log) == prog[..m]
    ensures forall i | 0 <= i < m - 1 :: prog[i] in Done(log)
  {
    var last := prog[..m][m - 1];
    assert last in BeginOrder(log);
    OrderMeaning(log, last);
    var b :| 0 <= b < |log| && Begins(log[b], last);
    forall i | 0 <= i < m - 1 ensures prog[i] in Done(log) {
      assert EndedBefore(log, prog[i], b);
      var e :| 0 <= e < b && Ends(log[e], prog[i]);
      assert log[e] in log;
    }
  }

  lemma ListIsPrefix(prog: seq<string>, log: seq<Record>)
    requires Distinct(prog) && LogOk(log) && InProgramOrder(prog, log)
    ensures IsPrefix(prog, CompletedSteps(log))
  {
    BeginsInOrder(prog, log);
    var m := |BeginOrder(log)|;
    assert BeginOrder(log) == prog[..m];
    if m > 0 {
      AllButLastDone(prog, log, m);
      EntriesOf(prog, log, m - 1);
      PrefixOrdered(prog, log, prog[..m - 1], m - 1);
      LastEntry(prog, log, m);
    }
  }

  lemma PrefixOrdered(prog: seq<string>, log: seq<Record>, order: seq<string>, k: nat)
    requires LogOk(log) && InProgramOrder(prog, log) && k <= |prog| && order == prog[..k]
    requires var list := Entries(log, order);
             |list| == k && forall i | 0 <= i < k ::
               Standing(log, prog[i]).Some? && list[i].stepId == prog[i] && list[i].seqNo == Standing(log, prog[i]).value.seqNo
    ensures IsPrefix(prog, Entries(log, order))
  {
    var list := Entries(log, order);
    forall i, j | 0 <= i < j < k ensures list[i].seqNo < list[j].seqNo {
      LaterEndsLater(prog, log, i, j);
    }
    forall i | 0 <= i < k ensures list[i].seqNo > 0 {
      StandingIsNumbered(log, prog[i]);
    }
  }

  /** The step begun last is listed if it has ended, and then after all the others. */
  lemma LastEntry(prog: seq<string>, log: seq<Record>, m: nat)
    requires LogOk(log) && InProgramOrder(prog, log) && 0 < m <= |prog|
    requires var list := Entries(log, prog[..m - 1]); IsPrefix(prog, list) && |list| == m - 1
    requires forall i | 0 <= i < m - 1 :: prog[i] in Done(log)
    ensures IsPrefix(prog, Entries(log, prog[..m]))
  {
    assert prog[..m][..m - 1] == prog[..m - 1];
    var last := prog[m - 1];
    if Standing(log, last).Some? {
      var e := StandingSource(log, last);
      assert log[e] in log && log[e].rtype.StepEnd? && log[e].stepId == last;
      EntriesOf(prog, log, m);
      PrefixOrdered(prog, log, prog[..m], m);
    }
  }

  /** Through any kills and losses of power, what recovery finds complete, whenever the log can be read, is a prefix of
      the program in program order, with strictly increasing sequence numbers. */
  lemma CompletedArePrefix(prog: seq<string>, acts: seq<Action>)
    requires Distinct(prog) && FollowsAll(prog, INIT, acts)
    ensures var s := Run(INIT, acts); Readable(s.vol) ==> IsPrefix(prog, CompletedSteps(s.Records()))
  {
    InitOk();
    RunStop(prog, INIT, acts);
    if Readable(Run(INIT, acts).vol) {
      ListIsPrefix(prog, Run(INIT, acts).Records());
    }
  }
}
