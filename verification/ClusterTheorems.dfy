/** The AgentJob protocol: safety of every run, and progress of fault-free reconciles. */
module ClusterTheorems {
  import opened Arith
  import opened Conditions
  import opened Cluster
  import opened ClusterSafety
  import opened Snapshot

  lemma InitOk(uid: int, maxAttempts: int, reconcilers: nat)
    ensures Inv(Init(uid, maxAttempts, reconcilers))
  {
  }

  lemma KeepsTransitive(s: System, t: System, u: System)
    requires Keeps(s, t) && Keeps(t, u)
    ensures Keeps(s, u)
  {
    forall n | n in s.attempts ensures n in u.attempts && s.attempts[n] <= u.attempts[n] {
      assert s.attempts[n] <= t.attempts[n] && t.attempts[n] <= u.attempts[n];
    }
  }

  lemma {:induction false} RunKeeps(s: System, acts: seq<Action>)
    requires Inv(s)
    ensures Keeps(s, Run(s, acts))
    decreases |acts|
  {
    if acts != [] {
      ApplyKeeps(s, acts[0]);
      RunKeeps(Apply(s, acts[0]), acts[1..]);
      KeepsTransitive(s, Apply(s, acts[0]), Run(s, acts));
    }
  }

  /** The attempts as the validator sees them, sorted by ordinal. */
  ghost function SnapshotOf(s: System): seq<AttemptSnapshot>
    requires Inv(s)
  {
    seq(|s.attempts|, i requires 0 <= i < |s.attempts| =>
      assert VersionsOk(s.seen, s.jobs[0].uid, i + 1, s.attempts[i + 1]);
      var a := Last(s.attempts[i + 1]);
      AttemptSnapshot(a.uid, a.ordinal, a.jobUid, Terminal(a.conds)))
  }

  /** In every reachable state, whatever the interleaving, staleness and crashes: the snapshot is valid, the
      ordinals are exactly 1..k, and no more than max(1, MaxAttempts) attempts were ever created. */
  lemma AttemptsStayValid(uid: int, maxAttempts: int, reconcilers: nat, acts: seq<Action>)
    ensures var s := Run(Init(uid, maxAttempts, reconcilers), acts);
            && Inv(s)
            && var atts := SnapshotOf(s);
            && SingleActive(atts) && Increasing(atts) && OwnAttempts(uid, atts)
            && (forall i | 0 <= i < |atts| :: atts[i].ordinal == i + 1)
            && |atts| <= Max(1, Last(s.jobs).maxAttempts)
  {
    hide JobOk, Later, PcOk, PodsInv, Run;
    InitOk(uid, maxAttempts, reconcilers);
    RunKeeps(Init(uid, maxAttempts, reconcilers), acts);
    var s := Run(Init(uid, maxAttempts, reconcilers), acts);
    var atts := SnapshotOf(s);
    forall i | 0 <= i < |atts|
      ensures atts[i].ordinal == i + 1 && atts[i].jobRefUid == uid && (i + 1 < |atts| ==> atts[i].terminal)
    {
      assert VersionsOk(s.seen, s.jobs[0].uid, i + 1, s.attempts[i + 1]);
      assert Last(s.attempts[i + 1]) in s.attempts[i + 1];
    }
  }

  /** Exactly-once counting: the counters of a live job name its active attempt, and when the job ends by
      success or by exhausted retries they add up to the number of attempts ever created. */
  lemma CountedOnce(uid: int, maxAttempts: int, reconcilers: nat, acts: seq<Action>)
    ensures var s := Run(Init(uid, maxAttempts, reconcilers), acts);
            |s.jobs| > 0 && var j := Last(s.jobs);
            && (Live(j) && j.active.Some? ==> j.failed == j.active.value.ordinal - 1 && j.completed == 0)
            && (IsTrue(j.conds, Complete) ==> j.completed == 1 && j.failed + j.completed == |s.attempts|)
            && (OutOfRetries(j) ==> j.completed == 0 && j.failed + j.completed == |s.attempts|)
            && (Live(j) ==> 0 <= j.failed < Max(1, j.maxAttempts))
  {
    hide VersionsOk, Later, PcOk, PodsInv, Run;
    AttemptsStayValid(uid, maxAttempts, reconcilers, acts);
    var s := Run(Init(uid, maxAttempts, reconcilers), acts);
    assert JobOk(s.attempts, Last(s.jobs));
  }

  /** A verdict is unique and final: once the job is Complete or Failed, no later step changes its conditions. */
  lemma VerdictIsFinal(uid: int, maxAttempts: int, reconcilers: nat, acts: seq<Action>, more: seq<Action>)
    ensures var s := Run(Init(uid, maxAttempts, reconcilers), acts);
            var t := Run(Init(uid, maxAttempts, reconcilers), acts + more);
            && |s.jobs| > 0 && |t.jobs| > 0
            && !(IsTrue(Last(s.jobs).conds, Complete) && IsTrue(Last(s.jobs).conds, CondType.Failed))
            && (Terminal(Last(s.jobs).conds) ==> Last(t.jobs).conds == Last(s.jobs).conds)
  {
    hide VersionsOk, NumbersOk, PcOk, PodsInv, Run;
    var i := Init(uid, maxAttempts, reconcilers);
    InitOk(uid, maxAttempts, reconcilers);
    RunKeeps(i, acts);
    RunAppend(i, acts, more);
    RunKeeps(Run(i, acts), more);
    var s, t := Run(i, acts), Run(i, acts + more);
    assert JobOk(s.attempts, Last(s.jobs));
    assert Later(t.jobs[|s.jobs| - 1], Last(t.jobs));
  }

  /** A job is Complete only if the pod whose UID its active attempt had recorded before was seen Succeeded. */
  lemma VerdictIsFenced(uid: int, maxAttempts: int, reconcilers: nat, acts: seq<Action>)
    ensures var s := Run(Init(uid, maxAttempts, reconcilers), acts);
            |s.jobs| > 0 && var j := Last(s.jobs);
            IsTrue(j.conds, Complete) ==>
              && j.active.Some? && j.active.value.name in s.attempts && s.attempts[j.active.value.name] != []
              && var vs := s.attempts[j.active.value.name];
              && var a := Last(vs);
              && IsTrue(a.conds, Complete) && a.pod.Some?
              && |vs| > 1 && vs[|vs| - 2].pod == a.pod && !Terminal(vs[|vs| - 2].conds)
              && Pod(a.ordinal, a.pod.value.uid, Phase.Succeeded) in s.seen
  {
    hide NumbersOk, Later, PcOk, PodsInv, Run;
    InitOk(uid, maxAttempts, reconcilers);
    RunKeeps(Init(uid, maxAttempts, reconcilers), acts);
    var s := Run(Init(uid, maxAttempts, reconcilers), acts);
    var j := Last(s.jobs);
    assert JobOk(s.attempts, j);
    if IsTrue(j.conds, Complete) {
      var o := j.active.value.name;
      assert VersionsOk(s.seen, s.jobs[0].uid, o, s.attempts[o]);
      assert Last(s.attempts[o]) in s.attempts[o];
    }
  }
}
