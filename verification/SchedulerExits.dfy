/** How attempts end, over every run: a process that exits, or an attempt found stale
    (internal/worker/worker.go:349-367, internal/scheduler/reconciler.go:133-185). */
module SchedulerExits {
  import opened Scheduler

  predicate IsEnd(st: AttemptState) { st.AttemptCompleted? || st.AttemptFailed? || st.TimedOut? }

  /** Worker w is told that its process for attempt i has exited, and whether with code 0. */
  predicate Exits(s: State, a: Action, w: nat, i: nat, exitOk: bool) {
    a == WorkerStep(w, exitOk) && w < |s.workers| && s.workers[w] == Busy(i) && i < |s.attempts|
  }

  /** The action ends the executing attempt i: with the process's exit, or because it was found stale. */
  ghost predicate Ends(s: State, a: Action, i: nat, st: AttemptState) {
    && i < |s.attempts| && s.attempts[i].state.Executing?
    && match st
       case AttemptCompleted => exists w :: Exits(s, a, w, i, true)
       case AttemptFailed => exists w :: Exits(s, a, w, i, false)
       case TimedOut => a.SchedulerStep? && s.scheduler == SawStale(i)
       case _ => false
  }

  ghost predicate Has(s: State, i: nat, st: AttemptState) {
    i < |s.attempts| && s.attempts[i].state == st
  }

  lemma EndStep(s: State, a: Action, i: nat, st: AttemptState)
    requires IsEnd(st)
    ensures Has(Apply(s, a), i, st) <==> Has(s, i, st) || Ends(s, a, i, st)
  {
    if Enabled(s, a) && a.WorkerStep? {
      EndByWorker(s, a.w, a.exitOk, i, st);
    }
    assert forall w | Exits(s, a, w, i, true) || Exits(s, a, w, i, false) :: Enabled(s, a);
  }

  lemma EndByWorker(s: State, w: nat, exitOk: bool, i: nat, st: AttemptState)
    requires IsEnd(st) && Enabled(s, WorkerStep(w, exitOk))
    ensures Has(WorkerNext(s, w, exitOk), i, st) <==> Has(s, i, st) || Ends(s, WorkerStep(w, exitOk), i, st)
  {
    var a := WorkerStep(w, exitOk);
    assert forall v, ok | Exits(s, a, v, i, ok) :: v == w && ok == exitOk;
    assert Exits(s, a, w, i, exitOk) <==> s.workers[w] == Busy(i);
  }

  lemma {:induction false} RunSnoc(s: State, acts: seq<Action>)
    requires acts != []
    ensures Run(s, acts) == Apply(Run(s, acts[..|acts| - 1]), acts[|acts| - 1])
  {
    hide Apply;
    var n := |acts| - 1;
    assert acts == acts[..n] + [acts[n]];
    RunAppend(s, acts[..n], [acts[n]]);
    assert [acts[n]][1..] == [];
    assert Run(Run(s, acts[..n]), [acts[n]]) == Run(Apply(Run(s, acts[..n]), acts[n]), []);
  }

  ghost predicate EndsAt(s: State, acts: seq<Action>, k: int, i: nat, st: AttemptState) {
    0 <= k < |acts| && Ends(Run(s, acts[..k]), acts[k], i, st)
  }

  /** Over every run: an attempt is Completed exactly if its worker's process exited with code 0 while it was executing,
      Failed exactly if with another code or not at all (a sandbox error), and TimedOut exactly if the scheduler found it stale first. */
  lemma {:induction false} EndedIff(maxRetries: nat, workers: nat, acts: seq<Action>, i: nat, st: AttemptState)
    requires IsEnd(st)
    ensures Has(Run(Init(maxRetries, workers), acts), i, st) <==> exists k :: EndsAt(Init(maxRetries, workers), acts, k, i, st)
    decreases |acts|
  {
    hide Apply, Ends;
    var s := Init(maxRetries, workers);
    if acts != [] {
      var n := |acts| - 1;
      RunSnoc(s, acts);
      EndStep(Run(s, acts[..n]), acts[n], i, st);
      EndedIff(maxRetries, workers, acts[..n], i, st);
      if k :| EndsAt(s, acts, k, i, st) {
        assert acts[..n][..k] == acts[..k];
        assert k < n ==> EndsAt(s, acts[..n], k, i, st);
      }
      if k :| EndsAt(s, acts[..n], k, i, st) {
        assert acts[..n][..k] == acts[..k];
        assert EndsAt(s, acts, k, i, st);
      }
      assert EndsAt(s, acts, n, i, st) <==> Ends(Run(s, acts[..n]), acts[n], i, st);
    }
  }

  /** The process of worker w for attempt i exited with code 0, at the k-th action. */
  ghost predicate ExitedZeroAt(s: State, acts: seq<Action>, k: int, w: nat, i: nat) {
    0 <= k < |acts| && Exits(Run(s, acts[..k]), acts[k], w, i, true)
  }

  ghost predicate ExitedZero(s: State, acts: seq<Action>, w: nat, i: nat) {
    exists k :: ExitedZeroAt(s, acts, k, w, i)
  }

  lemma StillExited(s: State, acts: seq<Action>, w: nat, i: nat)
    requires acts != [] && ExitedZero(s, acts[..|acts| - 1], w, i)
    ensures ExitedZero(s, acts, w, i)
  {
    var n := |acts| - 1;
    var k :| ExitedZeroAt(s, acts[..n], k, w, i);
    assert acts[..n][..k] == acts[..k];
    assert ExitedZeroAt(s, acts, k, w, i);
  }

  lemma NewlyReported(s: State, a: Action, w: nat, i: nat)
    requires w < |Apply(s, a).workers| && Apply(s, a).workers[w] == Reported(i)
    requires !(w < |s.workers| && s.workers[w] == Reported(i))
    ensures Exits(s, a, w, i, true)
  {
  }

  /** A worker has a result to report only after its process exited with code 0. */
  lemma {:induction false} ReportedExitedZero(maxRetries: nat, workers: nat, acts: seq<Action>, w: nat, i: nat)
    requires var s := Run(Init(maxRetries, workers), acts); w < |s.workers| && s.workers[w] == Reported(i)
    ensures ExitedZero(Init(maxRetries, workers), acts, w, i)
    decreases |acts|
  {
    hide Apply, Exits;
    var s := Init(maxRetries, workers);
    if acts != [] {
      var n := |acts| - 1;
      RunSnoc(s, acts);
      var t := Run(s, acts[..n]);
      if w < |t.workers| && t.workers[w] == Reported(i) {
        ReportedExitedZero(maxRetries, workers, acts[..n], w, i);
        StillExited(s, acts, w, i);
      } else {
        NewlyReported(t, acts[n], w, i);
        assert ExitedZeroAt(s, acts, n, w, i);
      }
    }
  }

  /** After another exit code, or a sandbox error, the worker is free, an executing attempt has failed, and the job is as before. */
  lemma NonzeroExit(s: State, w: nat, i: nat)
    requires w < |s.workers| && s.workers[w] == Busy(i) && i < |s.attempts|
    ensures var t := Apply(s, WorkerStep(w, false));
            && t.workers == s.workers[w := Free] && t.job == s.job && t.states == s.states && t.scheduler == s.scheduler
            && |t.attempts| == |s.attempts| && (forall j | 0 <= j < |s.attempts| && j != i :: t.attempts[j] == s.attempts[j])
            && t.attempts[i].state == if s.attempts[i].state.Executing? then AttemptState.AttemptFailed else s.attempts[i].state
  {
  }
}
