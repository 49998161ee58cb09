/** Successive runs of a job on one log directory: start, steps, and an end by closing, a kill or a loss of power
    (runtime/runtime.go, runtime/step.go). Every operation is a run of the recovery machine. */
module JobRuns {
  import opened Conditions
  import opened WalFormat
  import opened LogVolume
  import opened Wal
  import opened Manifest
  import opened Recovery
  import opened Retry
  import opened Runtime

  class Host {
    const disk: Disk
    var rt: Runtime?
    ghost var acts: seq<Action>

    /** Where the machine is after everything that happened on this host. */
    ghost function M(): State
      reads this
    {
      Run(INIT, acts)
    }

    ghost predicate Valid()
      reads this, disk, rt, if rt == null then {} else {rt.writer}
    {
      && disk.Shape() && M().vol == disk.vol && (rt == null <==> !M().up)
      && (rt != null ==>
            && rt.writer.disk == disk && rt.writer.Valid()
            && rt.recoveryMode && rt.completed.Keys == M().loaded)
    }

    lemma MachineOk()
      ensures Inv(M())
    {
      InitOk();
      RunKeeps(INIT, acts);
    }

    constructor (codec: Codec)
      requires codec.Faithful()
      ensures Valid() && fresh(disk) && rt == null && acts == [] && disk.codec == codec
    {
      disk := new Disk(codec);
      rt := null;
      acts := [];
    }

    ghost method Note(more: seq<Action>)
      modifies this`acts
      ensures acts == old(acts) + more && M() == Run(old(M()), more)
    {
      RunAppend(INIT, acts, more);
      acts := acts + more;
    }

    /** Runtime.New in recovery mode. It fails, as the reader does, only if a line is too long. From then on the log can
        be read, whatever happens to this run, exactly if the writer left no unsynced full file behind. */
    method Start() returns (ok: bool)
      requires Valid() && rt == null && Readable(disk.vol) && |disk.vol.parts| < 9999
      modifies this, disk
      ensures Valid() && (ok <==> Short(disk.codec, disk.Log())) && (rt != null <==> ok)
      ensures disk.Log() == old(disk.Log())
      ensures acts == old(acts) + if ok then [Action.Start(old(disk.LastFull()))] else []
      ensures ok ==> rt.completed.Keys == Found(disk.Log())
      ensures ok && old(Sealed(disk.vol)) ==> (RunStaysReadable(M()) <==> old(disk.Resumable()))
    {
      hide Inv, Ok, FilesOk, Opened, Readable, LogVolume.Log, Found, CompletedSteps, RunStaysReadable, Sealed, LastSynced;
      ghost var full := disk.LastFull();
      ghost var m := M();
      MachineOk();
      assert Sealed(disk.vol) ==> (RunStaysReadable(Apply(m, Action.Start(full))) <==> disk.Resumable()) by {
        if Sealed(disk.vol) { ResumableIff(m, full); }
      }
      rt := New(disk, true);
      ok := rt != null;
      if ok {
        StartIs(M(), full);
        RunOne(M(), Action.Start(full));
        FoundKeys(rt.completed, rt.outputs, disk.Log());
        Note([Action.Start(full)]);
      } else {
        assert acts == acts + [];
      }
    }

    /** One step of the job's body, not used before in this run. If an end of it is synced, or followed by a synced
        record, its function is not called. */
    method Step(id: string, cfg: Config, fn: int -> Option<Err>, done: int -> Option<Err>, jobErr: Option<Err>,
                clock: int -> int)
      returns (err: Option<Err>, calls: int)
      requires Valid() && rt != null && id !in M().used
      modifies this, rt.writer, disk
      ensures Valid() && rt == old(rt) && M().used == old(M()).used + {id}
      ensures calls >= 0 && M().calls == old(M()).calls + Repeat(id, calls)
      ensures SyncedDone(old(M()), id) ==> err.None? && calls == 0
    {
      hide Inv, Ok, LogVolume.Log, SteppedTo, StepLog, Outcome, Run, FilesOk, Readable, SyncedDone, StepActions;
      MachineOk();
      ghost var m := M();
      UpOk(m);
      CompletedAreLoaded(m, id);
      ghost var result, waits, rots;
      err, calls, result, waits, rots := rt.Step(id, cfg, fn, done, jobErr, clock);
      if id in rt.completed {
        SkipIs(m, id);
        RunOne(m, Skip(id));
        Note([Skip(id)]);
      } else {
        OutcomeCalls(cfg, fn, done, calls, result, waits);
        StepIsRun(m, id, calls, result, clock, rots);
        Note(StepActions(id, calls, result, |m.Records()|, clock, rots));
      }
    }

    /** Close: sync what is written. */
    method Close()
      requires Valid() && rt != null
      modifies this, rt.writer, disk
      ensures Valid() && rt == null && acts == old(acts) + [Finish] && disk.Log() == old(disk.Log())
    {
      hide Inv, Ok, LogVolume.Log, FilesOk;
      rt.writer.Fsync();
      rt := null;
      FinishIs(M());
      RunOne(M(), Finish);
      Note([Finish]);
    }

    /** The process is killed: the files stay. */
    method KillProcess()
      requires Valid()
      modifies this
      ensures Valid() && rt == null && acts == old(acts) + [Kill]
    {
      hide Inv, Ok, LogVolume.Log, FilesOk;
      rt := null;
      KillIs(M());
      RunOne(M(), Kill);
      Note([Kill]);
    }

    /** Power is lost: every file keeps some records, at least the synced ones. */
    method LosePower(sizes: seq<nat>, ghost keep: seq<nat>)
      requires Valid() && Survives(disk.vol, keep) && |sizes| == |keep|
      requires forall k | 0 <= k < |keep| :: sizes[k] == |Contents(disk.codec, disk.vol.parts[k][..keep[k]])|
      modifies this, disk
      ensures Valid() && rt == null && acts == old(acts) + [PowerLoss(keep)] && disk.vol == Cut(old(disk.vol), keep)
    {
      hide Inv, LogVolume.Log, FilesOk;
      disk.Crash(sizes, keep);
      rt := null;
      LossIs(M(), keep);
      RunOne(M(), PowerLoss(keep));
      Note([PowerLoss(keep)]);
    }
  }

  /** An end of the step is synced, or followed by a synced record. */
  ghost predicate SyncedDone(s: State, id: string) {
    Inv(s) && id in Done(Kept(s))
  }

  /** Whatever this run does, and whenever it ends by a kill or a loss of power, the log can be read. */
  ghost predicate RunStaysReadable(s: State) {
    forall acts :: CanBeReadAfter(s, acts)
  }

  lemma ResumableIff(s: State, full: bool)
    requires Inv(s) && !s.up && Ok(s.vol) && Readable(s.vol) && Sealed(s.vol)
    ensures RunStaysReadable(Apply(s, Action.Start(full))) <==> (full ==> LastSynced(s.vol))
  {
    hide Inv, Ok, Readable, Sealed, LastSynced, Apply, CanBeReadAfter;
    RunStaysReadableIff(s, full);
  }

  lemma StartIs(s: State, full: bool)
    requires Ok(s.vol) && !s.up && Readable(s.vol)
    ensures var t := Apply(s, Action.Start(full)); t.vol == Opened(s.vol, full) && t.up && t.loaded == Found(s.Records())
  {
  }

  lemma FoundKeys(completed: map<string, CompletedStep>, outputs: map<string, string>, log: seq<Record>)
    requires Indexes(completed, outputs, CompletedSteps(log))
    ensures completed.Keys == Found(log)
  {
  }

  lemma SkipIs(s: State, id: string)
    requires Ok(s.vol) && s.up && id in s.loaded && id !in s.used
    ensures Apply(s, Skip(id)) == s.(used := s.used + {id}, returned := s.returned + [id])
    ensures s.calls == s.calls + Repeat(id, 0)
  {
  }

  lemma FinishIs(s: State)
    requires Ok(s.vol) && s.up
    ensures Apply(s, Finish) == Down(s).(vol := SyncLast(s.vol))
  {
  }

  lemma KillIs(s: State)
    requires Ok(s.vol)
    ensures Apply(s, Kill) == Down(s)
  {
  }

  lemma LossIs(s: State, keep: seq<nat>)
    requires Ok(s.vol) && Survives(s.vol, keep)
    ensures Apply(s, PowerLoss(keep)) == Down(s).(vol := Cut(s.vol, keep))
  {
  }

  lemma CompletedAreLoaded(s: State, id: string)
    requires Inv(s) && s.up && id !in s.used
    ensures SyncedDone(s, id) ==> id in s.loaded
  {
    KeptDone(s);
  }

  lemma OutcomeCalls(cfg: Config, fn: int -> Option<Err>, done: int -> Option<Err>, calls: int, result: Option<Err>, waits: seq<int>)
    requires Outcome(cfg, fn, done, calls, result, waits)
    ensures 1 <= calls && calls - 1 <= |waits| <= calls
  {
  }
}
