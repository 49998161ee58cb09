/** What the log files hold and how much of each has been synced, apart from names and text: the effect of writing,
    syncing, opening a file and losing power, and when the log can still be read afterwards (wal/writer.go). */
module LogVolume {
  import opened Conditions
  import opened WalFormat

  ghost function Flatten(parts: seq<seq<Record>>): seq<Record> {
    if parts == [] then [] else Flatten(parts[..|parts| - 1]) + parts[|parts| - 1]
  }

  ghost predicate Numbered(recs: seq<Record>) {
    forall i | 0 <= i < |recs| :: recs[i].seqNo == i + 1
  }

  /** The records of each file, and how many of them, counted from its beginning, are synced. */
  datatype Volume = Volume(parts: seq<seq<Record>>, synced: seq<nat>)

  const EMPTY := Volume([], [])

  ghost predicate Ok(v: Volume) {
    |v.synced| == |v.parts| && forall k | 0 <= k < |v.parts| :: v.synced[k] <= |v.parts[k]|
  }

  /** Every record there is, in append order. */
  ghost function Log(v: Volume): seq<Record> {
    Flatten(v.parts)
  }

  /** ReadAll accepts the log only if its records are numbered 1, 2, ... */
  ghost predicate Readable(v: Volume) {
    Numbered(Log(v))
  }

  // ----- what happens to it -----

  ghost function Append(v: Volume, r: Record): Volume
    requires v.parts != []
  {
    var n := |v.parts| - 1;
    v.(parts := v.parts[..n] + [v.parts[n] + [r]])
  }

  ghost function SyncLast(v: Volume): Volume
    requires Ok(v)
  {
    var n := |v.parts| - 1;
    if v.parts == [] then v else v.(synced := v.synced[..n] + [|v.parts[n]|])
  }

  /** A new file; the one before is left as it is. */
  ghost function OpenNext(v: Volume): Volume {
    Volume(v.parts + [[]], v.synced + [0])
  }

  /** The rotation in append syncs the file it closes. */
  ghost function Rotate(v: Volume): Volume
    requires Ok(v)
  {
    OpenNext(SyncLast(v))
  }

  /** What a loss of power may leave: in every file at least the synced records. */
  ghost predicate Survives(v: Volume, keep: seq<nat>)
    requires Ok(v)
  {
    |keep| == |v.parts| && forall k | 0 <= k < |keep| :: v.synced[k] <= keep[k] <= |v.parts[k]|
  }

  ghost function Cut(v: Volume, keep: seq<nat>): Volume
    requires Ok(v) && Survives(v, keep)
  {
    Volume(seq(|keep|, k requires 0 <= k < |keep| => v.parts[k][..keep[k]]), keep)
  }

  // ----- which records a crash can take away -----

  /** Every file but the last is synced completely. */
  ghost predicate Sealed(v: Volume)
    requires Ok(v)
  {
    forall k | 0 <= k < |v.parts| - 1 :: v.synced[k] == |v.parts[k]|
  }

  /** The last file is. */
  ghost predicate LastSynced(v: Volume)
    requires Ok(v)
  {
    v.parts != [] ==> v.synced[|v.parts| - 1] == |v.parts[|v.parts| - 1]|
  }

  ghost predicate Settled(v: Volume)
    requires Ok(v)
  {
    Sealed(v) && LastSynced(v)
  }

  ghost function Init(v: Volume): Volume
    requires Ok(v) && v.parts != []
  {
    Volume(v.parts[..|v.parts| - 1], v.synced[..|v.parts| - 1])
  }

  /** How many records there are up to the last one that is synced: no crash takes any of these away, unless it
      leaves a gap that makes the log unreadable. */
  ghost function Anchor(v: Volume): (n: nat)
    requires Ok(v)
    ensures n <= |Log(v)|
    decreases |v.parts|
  {
    if v.parts == [] then 0
    else if v.synced[|v.parts| - 1] > 0 then |Flatten(v.parts[..|v.parts| - 1])| + v.synced[|v.parts| - 1]
    else Anchor(Init(v))
  }

  lemma LogSplit(v: Volume)
    requires Ok(v) && v.parts != []
    ensures Log(v) == Log(Init(v)) + v.parts[|v.parts| - 1]
  {
  }

  lemma AppendLog(v: Volume, r: Record)
    requires Ok(v) && v.parts != []
    ensures Ok(Append(v, r)) && Log(Append(v, r)) == Log(v) + [r] && Anchor(Append(v, r)) == Anchor(v)
    ensures Sealed(v) ==> Sealed(Append(v, r))
    ensures Readable(v) && r.seqNo == |Log(v)| + 1 ==> Readable(Append(v, r))
  {
    var n := |v.parts| - 1;
    var w := Append(v, r);
    assert w.parts[..n] == v.parts[..n] && w.synced[..n] == v.synced[..n];
    assert Log(w) == Log(v) + [r] by {
      AppendAssociates(Flatten(v.parts[..n]), v.parts[n], r);
    }
    assert Init(w) == Init(v);
  }

  lemma AppendAssociates(xs: seq<Record>, ys: seq<Record>, r: Record)
    ensures xs + (ys + [r]) == (xs + ys) + [r]
  {
  }

  lemma OpenLog(v: Volume)
    requires Ok(v)
    ensures Ok(OpenNext(v)) && Log(OpenNext(v)) == Log(v) && Anchor(OpenNext(v)) == Anchor(v)
    ensures Sealed(OpenNext(v)) <==> Settled(v)
  {
    var w := OpenNext(v);
    assert w.parts[..|v.parts|] == v.parts && Init(w) == v;
    assert Flatten(v.parts) + [] == Flatten(v.parts);
    if Sealed(w) {
      forall k | 0 <= k < |v.parts| ensures v.synced[k] == |v.parts[k]| {
        assert w.synced[k] == |w.parts[k]|;
      }
    }
  }

  lemma SyncLog(v: Volume)
    requires Ok(v)
    ensures Ok(SyncLast(v)) && SyncLast(v).parts == v.parts && LastSynced(SyncLast(v))
    ensures Anchor(v) <= Anchor(SyncLast(v))
    ensures v.parts != [] && v.parts[|v.parts| - 1] != [] ==> Anchor(SyncLast(v)) == |Log(v)|
    ensures Sealed(v) ==> Settled(SyncLast(v)) && Anchor(SyncLast(v)) == |Log(v)|
  {
    var w := SyncLast(v);
    if v.parts != [] {
      assert Init(w) == Init(v);
      if Sealed(v) {
        SettledAnchor(w);
      }
    }
  }

  lemma {:induction false} SettledAnchor(v: Volume)
    requires Ok(v) && Settled(v)
    ensures Anchor(v) == |Log(v)|
    decreases |v.parts|
  {
    if v.parts != [] && v.synced[|v.parts| - 1] == 0 {
      SettledAnchor(Init(v));
    }
  }

  lemma RotateLog(v: Volume)
    requires Ok(v)
    ensures Ok(Rotate(v)) && Log(Rotate(v)) == Log(v) && Anchor(v) <= Anchor(Rotate(v))
    ensures Sealed(v) ==> Sealed(Rotate(v))
  {
    SyncLog(v);
    OpenLog(SyncLast(v));
  }

  // ----- losing power -----

  lemma CutInit(v: Volume, keep: seq<nat>)
    requires Ok(v) && Survives(v, keep) && v.parts != []
    ensures var n := |v.parts| - 1;
            && Survives(Init(v), keep[..n])
            && Log(Cut(v, keep)) == Log(Cut(Init(v), keep[..n])) + v.parts[n][..keep[n]]
  {
    var n := |v.parts| - 1;
    assert Cut(v, keep).parts[..n] == Cut(Init(v), keep[..n]).parts;
  }

  /** What is left is settled. If it can be read, it is a prefix of the log and holds everything up to the last synced
      record. */
  lemma {:induction false} CutReadable(v: Volume, keep: seq<nat>)
    requires Ok(v) && Readable(v) && Survives(v, keep) && Readable(Cut(v, keep))
    ensures Log(Cut(v, keep)) <= Log(v) && Anchor(v) <= |Log(Cut(v, keep))|
    decreases |v.parts|
  {
    if v.parts != [] {
      var n := |v.parts| - 1;
      CutInit(v, keep);
      var before, cut := Log(Init(v)), Log(Cut(Init(v), keep[..n]));
      NumberedPrefix(before, v.parts[n]);
      NumberedPrefix(cut, v.parts[n][..keep[n]]);
      CutReadable(Init(v), keep[..n]);
      if keep[n] > 0 {
        assert Log(v)[|before|] == v.parts[n][0] && Log(Cut(v, keep))[|cut|] == v.parts[n][0];
        assert cut == before;
        assert Log(v)[..|before| + keep[n]] == before + v.parts[n][..keep[n]];
      } else {
        assert v.parts[n][..0] == [] && cut + [] == cut;
        assert cut <= before && before <= Log(v);
      }
    }
  }

  lemma NumberedPrefix(xs: seq<Record>, ys: seq<Record>)
    requires Numbered(xs + ys)
    ensures Numbered(xs)
  {
    forall i | 0 <= i < |xs| ensures xs[i].seqNo == i + 1 {
      assert (xs + ys)[i] == xs[i];
    }
  }

  lemma CutSettled(v: Volume, keep: seq<nat>)
    requires Ok(v) && Survives(v, keep)
    ensures Ok(Cut(v, keep)) && Settled(Cut(v, keep))
  {
  }

  /** If the files before the last are synced, every crash leaves a log that can be read. */
  lemma CutSealed(v: Volume, keep: seq<nat>)
    requires Ok(v) && Readable(v) && Sealed(v) && Survives(v, keep)
    ensures Readable(Cut(v, keep))
  {
    if v.parts != [] {
      var n := |v.parts| - 1;
      CutInit(v, keep);
      forall k | 0 <= k < n ensures v.parts[k][..keep[k]] == v.parts[k] {
        assert v.synced[k] <= keep[k] <= |v.parts[k]|;
      }
      assert Cut(Init(v), keep[..n]).parts == Init(v).parts;
      assert Log(v) == (Log(Init(v)) + v.parts[n][..keep[n]]) + v.parts[n][keep[n]..] by {
        assert v.parts[n] == v.parts[n][..keep[n]] + v.parts[n][keep[n]..];
      }
      NumberedPrefix(Log(Init(v)) + v.parts[n][..keep[n]], v.parts[n][keep[n]..]);
    }
  }

  // ----- one writer's session -----

  datatype Op = Write(r: Record, rotate: bool) | Sync

  ghost function Do(v: Volume, ops: seq<Op>): Volume
    requires Ok(v) && v.parts != []
    ensures Ok(Do(v, ops)) && Do(v, ops).parts != []
    decreases |ops|
  {
    if ops == [] then v
    else
      var w := Do(v, ops[..|ops| - 1]);
      match ops[|ops| - 1]
      case Write(r, rotate) =>
        RotateLog(w);
        AppendLog(if rotate then Rotate(w) else w, r);
        Append(if rotate then Rotate(w) else w, r)
      case Sync =>
        SyncLog(w);
        SyncLast(w)
  }

  /** The writer numbers its records on from what is there. */
  ghost predicate NumbersOn(v: Volume, ops: seq<Op>)
    requires Ok(v) && v.parts != []
    decreases |ops|
  {
    ops != [] ==>
      && NumbersOn(v, ops[..|ops| - 1])
      && (ops[|ops| - 1].Write? ==> ops[|ops| - 1].r.seqNo == |Log(Do(v, ops[..|ops| - 1]))| + 1)
  }

  lemma {:induction false} SessionKeeps(v: Volume, ops: seq<Op>)
    requires Ok(v) && v.parts != [] && Readable(v) && NumbersOn(v, ops)
    ensures Readable(Do(v, ops)) && (Sealed(v) ==> Sealed(Do(v, ops)))
    decreases |ops|
  {
    if ops != [] {
      var before := ops[..|ops| - 1];
      SessionKeeps(v, before);
      var w := Do(v, before);
      RotateLog(w);
      SyncLog(w);
      match ops[|ops| - 1]
      case Write(r, rotate) => AppendLog(if rotate then Rotate(w) else w, r);
      case Sync => assert Log(SyncLast(w)) == Log(w);
    }
  }

  /** What NewWriter does to the files: it opens a new one when there is none or the last is full. */
  ghost function Opened(v: Volume, full: bool): (w: Volume)
    requires Ok(v)
    ensures Ok(w) && w.parts != []
  {
    if v.parts == [] || full then OpenNext(v) else v
  }

  ghost predicate CrashIsHarmless(v: Volume, ops: seq<Op>, keep: seq<nat>)
    requires Ok(v) && v.parts != []
  {
    NumbersOn(v, ops) && Survives(Do(v, ops), keep) ==> Readable(Cut(Do(v, ops), keep))
  }

  lemma OpenedOk(v: Volume, full: bool)
    requires Ok(v)
    ensures var w := Opened(v, full);
            && Ok(w) && w.parts != [] && Log(w) == Log(v) && Anchor(w) == Anchor(v)
            && (Sealed(v) && (full ==> LastSynced(v)) ==> Sealed(w))
  {
    OpenLog(v);
  }

  /** A writer is opened on a log that can be read, all files but the last being synced. Whatever it writes, rotates
      and syncs, the log can be read after a loss of power at any time, if and only if the writer did not leave an
      unsynced full file behind. */
  lemma StaysReadableIff(v: Volume, full: bool)
    requires Ok(v) && Readable(v) && Sealed(v)
    ensures (forall ops, keep :: CrashIsHarmless(Opened(v, full), ops, keep)) <==> (full ==> LastSynced(v))
  {
    OpenedOk(v, full);
    var w := Opened(v, full);
    if full ==> LastSynced(v) {
      forall ops, keep ensures CrashIsHarmless(w, ops, keep) {
        if NumbersOn(w, ops) && Survives(Do(w, ops), keep) {
          SessionKeeps(w, ops);
          CutSealed(Do(w, ops), keep);
        }
      }
    } else {
      var r := Record(|Log(v)| + 1, RecType.StepBegin, "", 0, None, "", 0, "");
      var keep := LosingKeep(v, r);
      assert [Write(r, false)][..0] == [];
      assert Do(w, [Write(r, false)]) == Append(w, r);
      assert NumbersOn(w, [Write(r, false)]);
      assert !CrashIsHarmless(w, [Write(r, false)], keep);
    }
  }

  /** One record in the new file is enough: the crash that loses the unsynced end of the file before leaves a gap. */
  lemma LosingKeep(v: Volume, r: Record) returns (keep: seq<nat>)
    requires Ok(v) && Readable(v) && !LastSynced(v) && r.seqNo == |Log(v)| + 1
    ensures var w := OpenNext(v); Ok(w) && Ok(Append(w, r)) && Survives(Append(w, r), keep) && !Readable(Cut(Append(w, r), keep))
  {
    hide Anchor, Sealed;
    OpenLog(v);
    var w := OpenNext(v);
    AppendLog(w, r);
    var x := Append(w, r);
    var n := |v.parts|;
    keep := seq(n + 1, k requires 0 <= k <= n => if k == n - 1 then v.synced[k] else |x.parts[k]|);
    assert forall k | 0 <= k < n :: x.parts[k] == v.parts[k] && x.synced[k] == v.synced[k];
    assert x.parts[n] == [r] && keep[n] == 1;
    CutInit(x, keep);
    var cut := Log(Cut(Init(x), keep[..n]));
    CutShorter(Init(x), keep[..n]);
    assert Init(x) == v;
    assert Log(Cut(x, keep)) == cut + [r];
    assert (cut + [r])[|cut|].seqNo != |cut| + 1;
  }

  lemma CutShorter(v: Volume, keep: seq<nat>)
    requires Ok(v) && v.parts != [] && Survives(v, keep)
    ensures var n := |v.parts| - 1; |Log(Cut(v, keep))| <= |Log(v)| - (|v.parts[n]| - keep[n])
  {
    CutInit(v, keep);
    CutNoLonger(Init(v), keep[..|v.parts| - 1]);
  }

  lemma {:induction false} CutNoLonger(v: Volume, keep: seq<nat>)
    requires Ok(v) && Survives(v, keep)
    ensures |Log(Cut(v, keep))| <= |Log(v)|
    decreases |v.parts|
  {
    if v.parts != [] {
      CutInit(v, keep);
      CutNoLonger(Init(v), keep[..|v.parts| - 1]);
    }
  }
}
