/** How a log is lost: a killed writer leaves a full file unsynced, the next writer opens a new file and syncs only
    that, and a loss of power takes the end of the full one (wal/writer.go:26-71, 109-116). */
module WalGap {
  import opened Conditions
  import opened WalFormat
  import opened LogVolume
  import opened Wal

  function BeginOf(n: int, id: string, ts: int): Record {
    Record(n, RecType.StepBegin, id, ts, None, "", 0, "")
  }

  function EndOf(n: int, id: string, ts: int): Record {
    Record(n, RecType.StepEnd, id, ts, Some(0), "", 0, "")
  }

  lemma GapLeft(v: Volume, b: Record, e: Record) returns (keep: seq<nat>)
    requires Ok(v) && Settled(v) && Readable(v) && v.parts != []
    ensures Ok(Append(v, b)) && Ok(OpenNext(Append(v, b)))
    ensures var x := Synced(OpenNext(Append(v, b)), false, e);
            && keep == v.synced + [1] && Ok(x) && |x.parts| == |v.parts| + 1 && Survives(x, keep)
            && (forall k | 0 <= k < |v.parts| :: x.parts[k][..keep[k]] == v.parts[k])
            && (forall k | 0 <= k < |v.parts| - 1 :: x.parts[k] == v.parts[k])
            && x.parts[|v.parts|] == [e]
            && Log(Cut(x, keep)) == Log(v) + [e]
  {
    hide Readable, Anchor;
    var n := |v.parts|;
    var w := Append(v, b);
    AppendLog(v, b);
    OpenLog(w);
    AppendedOk(OpenNext(w), e);
    var x := Synced(OpenNext(w), false, e);
    keep := v.synced + [1];
    assert [] + [e] == [e];
    assert x.parts == w.parts + [[e]];
    assert x.synced == v.synced + [1];
    assert forall k | 0 <= k < n - 1 :: x.parts[k] == v.parts[k];
    assert x.parts[n - 1] == v.parts[n - 1] + [b];
    forall k | 0 <= k < n ensures x.parts[k][..keep[k]] == v.parts[k] && keep[k] == v.synced[k] == |v.parts[k]| {
      assert k < n - 1 || k == n - 1;
    }
    assert Survives(x, keep);
    CutInit(x, keep);
    assert Cut(Init(x), keep[..n]).parts == v.parts;
    assert x.parts[n][..keep[n]] == [e];
  }

  lemma GapIsNoLog(log: seq<Record>, e: Record)
    requires e.seqNo == |log| + 2
    ensures !Numbered(log + [e])
  {
    assert (log + [e])[|log|] == e;
  }

  /** The whole run. The begin record of a step fills the last file to exactly 10 MiB; the process is killed; a new
      writer records the end, which is synced; power is lost; nothing can be read any more. */
  method LostLog(disk: Disk, w: Writer, id: string, ts: int) returns (r: ReadResult)
    requires w.Valid() && w.disk == disk && Settled(disk.vol) && |disk.vol.parts| < 9999
    requires var n := |disk.Log()|;
             && w.fileSize + |disk.codec.enc(BeginOf(n + 1, id, ts))| + 1 == MAX_FILE_SIZE
             && Short(disk.codec, disk.Log() + [BeginOf(n + 1, id, ts)] + [EndOf(n + 2, id, ts)])
    modifies w, disk
    ensures r == Corrupt
  {
    hide FilesOk, Readable, Anchor, Synced, Append, OpenNext, Flatten, Short, Settled;
    ghost var v := disk.vol;
    ghost var b, e := BeginOf(|disk.Log()| + 1, id, ts), EndOf(|disk.Log()| + 2, id, ts);
    ShortParts(disk.codec, disk.Log(), b, e);
    w.Usable();
    AppendLog(v, b);
    var last := w.fileNum;
    var before := FillFile(disk, w, id, ts);
    EndInNewFile(disk, v, b, id, ts);
    r := LoseEnd(disk, last, before, v, b, e);
  }

  /** The first run, up to the kill. */
  method FillFile(disk: Disk, w: Writer, id: string, ts: int) returns (before: nat)
    requires w.Valid() && w.disk == disk
    requires w.fileSize + |disk.codec.enc(BeginOf(|disk.Log()| + 1, id, ts))| + 1 == MAX_FILE_SIZE
    modifies w, disk
    ensures Ok(old(disk.vol)) && old(disk.vol).parts != []
    ensures disk.Valid() && disk.vol == Append(old(disk.vol), BeginOf(|old(disk.Log())| + 1, id, ts)) && disk.LastFull()
    ensures var n := |old(disk.vol).parts|; before == |Contents(disk.codec, old(disk.vol).parts[n - 1])|
  {
    hide FilesOk, Readable, LogVolume.Log, Anchor;
    w.Usable();
    ghost var v := disk.vol;
    FileLength(disk, w.fileNum);
    before := w.fileSize;
    ghost var last := w.fileNum;
    AppendLog(v, BeginOf(|disk.Log()| + 1, id, ts));
    var _, _ := w.StepBegin(id, ts);
    NowFull(disk, v, BeginOf(|LogVolume.Log(v)| + 1, id, ts), last, before);
  }

  /** The second run, up to the loss of power. */
  method EndInNewFile(disk: Disk, ghost v: Volume, ghost b: Record, id: string, ts: int)
    requires Ok(v) && v.parts != [] && |v.parts| < 9999 && disk.Valid() && disk.vol == Append(v, b) && disk.LastFull()
    requires Ok(Append(v, b)) && |disk.Log()| == |LogVolume.Log(v)| + 1
    requires Short(disk.codec, disk.Log())
    requires |disk.codec.enc(EndOf(|LogVolume.Log(v)| + 2, id, ts))| < MAX_LINE
    modifies disk
    ensures disk.Shape() && Ok(OpenNext(Append(v, b)))
    ensures disk.vol == Synced(OpenNext(Append(v, b)), false, EndOf(|LogVolume.Log(v)| + 2, id, ts))
  {
    hide FilesOk, Readable, LogVolume.Log, Anchor, Synced, Short, Ok;
    var w := NewWriter(disk);
    OpenLog(Append(v, b));
    NewFileEmpty(disk, w);
    var _, _ := w.StepEnd(id, 0, "", ts);
  }

  /** The loss of power, and the attempt to read what is left. */
  method LoseEnd(disk: Disk, last: nat, before: nat, ghost v: Volume, ghost b: Record, ghost e: Record) returns (r: ReadResult)
    requires Ok(v) && Settled(v) && Readable(v) && 1 <= last == |v.parts| < 9999
    requires Ok(Append(v, b)) && Ok(OpenNext(Append(v, b)))
    requires disk.Shape() && disk.vol == Synced(OpenNext(Append(v, b)), false, e) && e.seqNo == |LogVolume.Log(v)| + 2
    requires before == |Contents(disk.codec, v.parts[last - 1])| && Short(disk.codec, LogVolume.Log(v) + [e])
    modifies disk
    ensures r == Corrupt
  {
    hide FilesOk, Readable, LogVolume.Log, Anchor, Synced, Append, OpenNext, Short, Contents;
    ghost var keep := GapLeft(v, b, e);
    var sizes := SizesBut(disk, last, before, v, keep);
    disk.Crash(sizes, keep);
    GapIsNoLog(LogVolume.Log(v), e);
    GapReads(disk, v, e);
    r := ReadAll(disk);
  }

  lemma ShortParts(codec: Codec, log: seq<Record>, b: Record, e: Record)
    requires Short(codec, log + [b] + [e])
    ensures Short(codec, log + [b]) && Short(codec, log + [e]) && |codec.enc(e)| < MAX_LINE
  {
    var all := log + [b] + [e];
    forall r | r in log + [b] ensures |codec.enc(r)| < MAX_LINE {
      assert r in all;
    }
    forall r | r in log + [e] ensures |codec.enc(r)| < MAX_LINE {
      assert r in all;
    }
    assert e in log + [e];
  }

  lemma ShortLine(codec: Codec, log: seq<Record>, e: Record)
    requires |codec.enc(e)| < MAX_LINE
    ensures |codec.enc(e)| + 1 <= MAX_FILE_SIZE
  {
  }

  lemma FileLength(disk: Disk, k: nat)
    requires disk.Shape() && 1 <= k <= |disk.vol.parts|
    ensures WalFileName(k) in disk.files && |disk.files[WalFileName(k)]| == |Contents(disk.codec, disk.vol.parts[k - 1])|
  {
  }

  lemma NowFull(disk: Disk, v: Volume, b: Record, last: nat, before: int)
    requires disk.Shape() && Ok(v) && last == |v.parts| >= 1 && disk.vol == Append(v, b)
    requires before == |Contents(disk.codec, v.parts[last - 1])| && before + |disk.codec.enc(b)| + 1 == MAX_FILE_SIZE
    ensures disk.LastFull()
  {
    FileLength(disk, last);
    ContentsPlus(disk.codec, v.parts[last - 1], b);
  }

  lemma NewFileEmpty(disk: Disk, w: Writer)
    requires w.Valid() && w.disk == disk && disk.vol.parts[|disk.vol.parts| - 1] == []
    ensures w.fileSize == 0
  {
    FileLength(disk, |disk.vol.parts|);
    assert Contents(disk.codec, []) == "";
  }

  /** How long the files are afterwards: the full one as before the last record, the others as they are. */
  method SizesBut(disk: Disk, last: nat, before: nat, ghost v: Volume, ghost keep: seq<nat>) returns (sizes: seq<nat>)
    requires disk.Shape() && 1 <= last == |v.parts| && |disk.vol.parts| == last + 1 && |keep| == last + 1
    requires Ok(v) && Survives(disk.vol, keep) && keep[last] == |disk.vol.parts[last]|
    requires forall k | 0 <= k < last :: disk.vol.parts[k][..keep[k]] == v.parts[k]
    requires forall k | 0 <= k < last - 1 :: disk.vol.parts[k] == v.parts[k]
    requires before == |Contents(disk.codec, v.parts[last - 1])|
    ensures |sizes| == last + 1
    ensures forall k | 0 <= k < last + 1 :: sizes[k] == |Contents(disk.codec, disk.vol.parts[k][..keep[k]])|
  {
    hide FilesOk, Contents, WalFileName;
    sizes := [];
    for k := 0 to last + 1
      invariant |sizes| == k
      invariant forall j | 0 <= j < k :: sizes[j] == |Contents(disk.codec, disk.vol.parts[j][..keep[j]])|
    {
      FileLength(disk, k + 1);
      if k + 1 == last {
        sizes := sizes + [before];
      } else {
        assert disk.vol.parts[k][..keep[k]] == disk.vol.parts[k];
        sizes := sizes + [|disk.files[WalFileName(k + 1)]|];
      }
    }
  }

  lemma GapReads(disk: Disk, v: Volume, e: Record)
    requires disk.Shape() && disk.Log() == LogVolume.Log(v) + [e] && |disk.vol.parts| < 10000
    requires Short(disk.codec, disk.Log()) && !Numbered(disk.Log())
    ensures ReadsAs(disk) == Corrupt
  {
    ReorderedSmall(disk.vol.parts);
  }
}
