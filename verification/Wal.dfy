/** The write-ahead log on disk: the writer that appends and rotates, the loss of power that takes unsynced records,
    the writer that resumes, and the reader that returns every record (wal/writer.go, wal/reader.go). */
module Wal {
  import opened Conditions
  import opened Text
  import opened WalFormat
  import opened LogVolume

  /** The log files are wal-0001.log to wal-<k>.log, they hold these records, and none is over 10 MiB unless it
      holds a single record. */
  ghost predicate FilesOk(codec: Codec, files: map<string, string>, parts: seq<seq<Record>>) {
    && (forall name | name in files && IsWalName(name) ::
          1 <= NumOf(name) <= |parts| && name == WalFileName(NumOf(name)))
    && (forall k: nat | 1 <= k <= |parts| ::
          && WalFileName(k) in files && files[WalFileName(k)] == Contents(codec, parts[k - 1])
          && (|parts[k - 1]| <= 1 || |Contents(codec, parts[k - 1])| <= MAX_FILE_SIZE))
  }

  /** `now` is `parts` with file number `num`, an old one or the next, holding these records. */
  lemma FilesSet(codec: Codec, files: map<string, string>, parts: seq<seq<Record>>, num: nat, recs: seq<Record>,
                 now: seq<seq<Record>>)
    requires FilesOk(codec, files, parts) && 1 <= num <= |now|
    requires now == if num == |parts| + 1 then parts + [recs] else if num <= |parts| then parts[num - 1 := recs] else parts
    requires num <= |parts| + 1 && (|recs| <= 1 || |Contents(codec, recs)| <= MAX_FILE_SIZE)
    ensures FilesOk(codec, files[WalFileName(num) := Contents(codec, recs)], now)
  {
    var after := files[WalFileName(num) := Contents(codec, recs)];
    NumOfName(num);
    forall k: nat | 1 <= k <= |now|
      ensures WalFileName(k) in after && after[WalFileName(k)] == Contents(codec, now[k - 1])
      ensures |now[k - 1]| <= 1 || |Contents(codec, now[k - 1])| <= MAX_FILE_SIZE
    {
      if k != num {
        NamesDistinct(k, num);
        assert now[k - 1] == parts[k - 1];
      }
    }
  }

  lemma NamesDistinct(j: nat, k: nat)
    requires j != k
    ensures WalFileName(j) != WalFileName(k)
  {
    NumOfName(j);
    NumOfName(k);
  }

  /** The .wal directory: the text of the files, the records it stands for, and how much of each file is synced. */
  class Disk {
    const codec: Codec
    var files: map<string, string>
    ghost var vol: Volume

    /** The files are well formed, though the records may have a gap. */
    ghost predicate Shape()
      reads this
    {
      codec.Faithful() && Ok(vol) && FilesOk(codec, files, vol.parts)
    }

    ghost predicate Valid()
      reads this
    {
      Shape() && Readable(vol)
    }

    /** Every record there is, in append order. */
    ghost function Log(): seq<Record>
      reads this
    {
      LogVolume.Log(vol)
    }

    /** How many of them no crash can take away and leave the log readable. */
    ghost function Durable(): nat
      requires Shape()
      reads this
    {
      Anchor(vol)
    }

    constructor (codec: Codec)
      requires codec.Faithful()
      ensures Valid() && vol == EMPTY && this.codec == codec
    {
      this.codec := codec;
      files := map[];
      vol := EMPTY;
    }

    /** Write one more line to the last file. */
    method AppendLast(num: nat, data: string, ghost r: Record)
      requires Shape() && num == |vol.parts| >= 1 && data == codec.enc(r) + "\n"
      requires var size := |files[WalFileName(num)]|; size == 0 || size + |data| <= MAX_FILE_SIZE
      modifies this
      ensures Shape() && vol == Append(old(vol), r)
      ensures files == old(files)[WalFileName(num) := old(files)[WalFileName(num)] + data]
    {
      ghost var recs := vol.parts[num - 1];
      ContentsPlus(codec, recs, r);
      assert Append(vol, r).parts == vol.parts[num - 1 := recs + [r]];
      FilesSet(codec, files, vol.parts, num, recs + [r], Append(vol, r).parts);
      AppendLog(vol, r);
      files := files[WalFileName(num) := files[WalFileName(num)] + data];
      vol := Append(vol, r);
    }

    /** Create the next, empty, file. */
    method CreateNext(num: nat)
      requires Shape() && num == |vol.parts| + 1
      modifies this
      ensures Shape() && vol == OpenNext(old(vol))
      ensures files == old(files)[WalFileName(num) := ""]
    {
      FilesSet(codec, files, vol.parts, num, [], vol.parts + [[]]);
      assert Contents(codec, []) == "";
      files := files[WalFileName(num) := ""];
      vol := OpenNext(vol);
    }

    /** Sync the last file, and only that. */
    method Fsync()
      requires Shape()
      modifies this`vol
      ensures Shape() && vol == SyncLast(old(vol))
    {
      SyncLog(vol);
      vol := SyncLast(vol);
    }

    /** Power is lost: every file keeps some whole records, at least the synced ones. */
    method Crash(sizes: seq<nat>, ghost keep: seq<nat>)
      requires Shape() && Survives(vol, keep) && |sizes| == |keep|
      requires forall k | 0 <= k < |keep| :: sizes[k] == |Contents(codec, vol.parts[k][..keep[k]])|
      modifies this
      ensures Shape() && vol == Cut(old(vol), keep) && Settled(vol)
    {
      ghost var before := vol;
      for i := 0 to |sizes|
        invariant codec.Faithful() && vol == before && FilesOk(codec, files, CutFirst(before, keep, i))
      {
        FileCut(codec, files, before, keep, i);
        files := files[WalFileName(i + 1) := files[WalFileName(i + 1)][..sizes[i]]];
      }
      assert CutFirst(before, keep, |keep|) == Cut(before, keep).parts;
      CutSettled(before, keep);
      vol := Cut(before, keep);
    }

    /** A full last file that is not synced is left behind by NewWriter as it is. */
    ghost predicate Resumable()
      requires Shape()
      reads this
    {
      LastFull() ==> LastSynced(vol)
    }

    ghost predicate LastFull()
      requires Shape()
      reads this
    {
      vol.parts != [] && |files[WalFileName(|vol.parts|)]| >= MAX_FILE_SIZE
    }
  }

  /** The first i files cut, the others whole. */
  ghost function CutFirst(v: Volume, keep: seq<nat>, i: nat): seq<seq<Record>>
    requires Ok(v) && Survives(v, keep)
  {
    seq(|keep|, k requires 0 <= k < |keep| => if k < i then v.parts[k][..keep[k]] else v.parts[k])
  }

  lemma FileCut(codec: Codec, files: map<string, string>, v: Volume, keep: seq<nat>, i: nat)
    requires Ok(v) && Survives(v, keep) && i < |keep| && FilesOk(codec, files, CutFirst(v, keep, i))
    ensures WalFileName(i + 1) in files
    ensures var kept := Contents(codec, v.parts[i][..keep[i]]);
            && |kept| <= |files[WalFileName(i + 1)]| && files[WalFileName(i + 1)][..|kept|] == kept
            && FilesOk(codec, files[WalFileName(i + 1) := kept], CutFirst(v, keep, i + 1))
  {
    var recs := v.parts[i];
    assert recs == recs[..keep[i]] + recs[keep[i]..];
    ContentsSplit(codec, recs[..keep[i]], recs[keep[i]..]);
    assert CutFirst(v, keep, i)[i] == recs;
    assert keep[i] <= |recs|;
    assert Contents(codec, recs) == Contents(codec, recs[..keep[i]]) + Contents(codec, recs[keep[i]..]);
    assert files[WalFileName(i + 1)] == Contents(codec, recs);
    assert CutFirst(v, keep, i + 1) == CutFirst(v, keep, i)[i := recs[..keep[i]]];
    FilesSet(codec, files, CutFirst(v, keep, i), i + 1, recs[..keep[i]], CutFirst(v, keep, i + 1));
  }

  // ----- reading -----

  function FirstNames(n: nat): seq<string> {
    seq(n, i requires 0 <= i < n => WalFileName(i + 1))
  }

  /** The names of n log files in the order in which sort.Strings puts them. */
  function SortedNames(n: nat): seq<string> {
    SortedOf(FirstNames(n))
  }

  lemma SortedNamesOk(n: nat)
    ensures Sorted(SortedNames(n)) && |SortedNames(n)| == n
    ensures forall x :: x in SortedNames(n) <==> x in FirstNames(n)
  {
    forall i, j | 0 <= i < j < n ensures FirstNames(n)[i] != FirstNames(n)[j] {
      NamesDistinct(i + 1, j + 1);
    }
    SortedOfOk(FirstNames(n));
  }

  /** The files are numbered in the order of their names exactly when there are fewer than 10,000. */
  lemma NameOrderIff(n: nat)
    ensures Sorted(FirstNames(n)) <==> n < 10000
    ensures SortedNames(n) == FirstNames(n) <==> n < 10000
  {
    SortedNamesOk(n);
    if n < 10000 {
      forall i, j | 0 <= i < j < n ensures Less(FirstNames(n)[i], FirstNames(n)[j]) {
        NamesInOrder(i + 1, j + 1);
      }
      SortedUnique(SortedNames(n), FirstNames(n));
    } else {
      NamesOutOfOrder();
      assert FirstNames(n)[9998] == WalFileName(9999) && FirstNames(n)[9999] == WalFileName(10000);
      if Less(WalFileName(9999), WalFileName(10000)) {
        LessTransitive(WalFileName(9999), WalFileName(10000), WalFileName(9999));
        LessIrreflexive(WalFileName(9999));
      }
    }
  }

  /** listWALFiles */
  method ListWalFiles(disk: Disk) returns (names: seq<string>)
    requires disk.Shape()
    ensures names == SortedNames(|disk.vol.parts|)
  {
    names := SortStrings(set name | name in disk.files && IsWalName(name));
    NamesAreNumbers(disk.codec, disk.files, disk.vol.parts, names);
  }

  lemma NamesAreNumbers(codec: Codec, files: map<string, string>, parts: seq<seq<Record>>, names: seq<string>)
    requires FilesOk(codec, files, parts)
    requires Sorted(names) && forall x :: x in names <==> x in files && IsWalName(x)
    ensures names == SortedNames(|parts|)
  {
    hide SortedNames, WalFileName, NumOf;
    var expected := FirstNames(|parts|);
    SortedNamesOk(|parts|);
    forall x | x in names ensures x in expected {
      assert expected[NumOf(x) - 1] == x;
    }
    forall i | 0 <= i < |expected| ensures expected[i] in names {
      WalNameShape(i + 1);
    }
    SortedUnique(names, SortedNames(|parts|));
  }

  /** The number of the file that stands at place i of the sorted names. */
  ghost function FileAt(n: nat, i: nat): (num: nat)
    requires i < n
    ensures |SortedNames(n)| == n && 1 <= num <= n && SortedNames(n)[i] == WalFileName(num)
  {
    hide WalFileName, NumOf, SortedNames;
    SortedNamesOk(n);
    assert SortedNames(n)[i] in FirstNames(n);
    var k :| 0 <= k < n && FirstNames(n)[k] == SortedNames(n)[i];
    NumOfName(k + 1);
    NumOf(SortedNames(n)[i])
  }

  /** The files' records in the order in which they are read. */
  ghost function Reordered(parts: seq<seq<Record>>): seq<seq<Record>> {
    seq(|parts|, i requires 0 <= i < |parts| => parts[FileAt(|parts|, i) - 1])
  }

  lemma ReorderedSmall(parts: seq<seq<Record>>)
    requires |parts| < 10000
    ensures Reordered(parts) == parts
  {
    NameOrderIff(|parts|);
    forall i | 0 <= i < |parts| ensures FileAt(|parts|, i) == i + 1 {
      NumOfName(i + 1);
      NumOfName(FileAt(|parts|, i));
    }
  }

  lemma PrependMore(recs: seq<Record>, r: Record, after: ReadResult)
    ensures Prepend(recs, Prepend([r], after)) == Prepend(recs + [r], after)
  {
    if after.Read? {
      assert recs + ([r] + after.recs) == (recs + [r]) + after.recs;
    }
  }

  /** readWALFile: scan line by line. */
  method ReadWalFile(codec: Codec, text: string) returns (r: ReadResult)
    ensures r == Parse(codec, text)
  {
    var recs := [];
    var rest := text;
    while rest != ""
      invariant Parse(codec, text) == Prepend(recs, Parse(codec, rest))
      decreases |rest|
    {
      var n := LineLength(rest);
      if n >= MAX_LINE {
        return TooLong;
      }
      var line := DropCR(rest[..n]);
      if line != "" {
        var dec := codec.dec(line);
        if dec.None? {
          return Corrupt;
        }
        PrependMore(recs, dec.value, Parse(codec, AfterLine(rest)));
        recs := recs + [dec.value];
      }
      rest := AfterLine(rest);
    }
    return Read(recs);
  }

  /** What ReadAll makes of records read in this order. */
  ghost function Accepted(codec: Codec, recs: seq<Record>): ReadResult {
    if !Short(codec, recs) then TooLong else if Numbered(recs) then Read(recs) else Corrupt
  }

  ghost function ReadsAs(disk: Disk): ReadResult
    reads disk
  {
    Accepted(disk.codec, Flatten(Reordered(disk.vol.parts)))
  }

  /** ReadAll: every record of every file, in the order of the file names, checked to be numbered 1..n. */
  method ReadAll(disk: Disk) returns (r: ReadResult)
    requires disk.Shape()
    ensures r == ReadsAs(disk)
  {
    hide WalFileName, NumOf, SortedNames, Contents, FilesOk, FileAt, FirstNames;
    var names := ListWalFiles(disk);
    SortedNamesOk(|disk.vol.parts|);
    ghost var parts := Reordered(disk.vol.parts);
    var recs := [];
    for i := 0 to |names|
      invariant recs == Flatten(parts[..i]) && Short(disk.codec, recs)
    {
      TextAt(disk, i);
      ParseContents(disk.codec, parts[i]);
      assert parts[..i + 1][..i] == parts[..i];
      assert parts[..i + 1][i] == parts[i];
      var file := ReadWalFile(disk.codec, disk.files[names[i]]);
      if !file.Read? {
        FlattenIncludes(parts, i);
        return file;
      }
      recs := recs + file.recs;
    }
    assert parts[..|names|] == parts;
    for i := 0 to |recs|
      invariant forall j | 0 <= j < i :: recs[j].seqNo == j + 1
    {
      if recs[i].seqNo != i + 1 {
        return Corrupt;
      }
    }
    return Read(recs);
  }

  lemma TextAt(disk: Disk, i: nat)
    requires disk.Shape() && i < |disk.vol.parts|
    ensures var n := |disk.vol.parts|;
            && |SortedNames(n)| == |Reordered(disk.vol.parts)| == n && SortedNames(n)[i] in disk.files
            && Reordered(disk.vol.parts)[i] == disk.vol.parts[FileAt(n, i) - 1]
            && disk.files[SortedNames(n)[i]] == Contents(disk.codec, disk.vol.parts[FileAt(n, i) - 1])
  {
    hide SortedNames, WalFileName, NumOf, Contents;
    SortedNamesOk(|disk.vol.parts|);
    assert SortedNames(|disk.vol.parts|)[i] == WalFileName(FileAt(|disk.vol.parts|, i));
  }

  /** With fewer than 10,000 files a log without a gap is read back exactly, unless a line is over the limit. */
  lemma ReadsBack(disk: Disk)
    requires disk.Valid() && |disk.vol.parts| < 10000
    ensures ReadsAs(disk) == if Short(disk.codec, disk.Log()) then Read(disk.Log()) else TooLong
  {
    ReorderedSmall(disk.vol.parts);
  }

  /** A log without a gap, every file holding something, can be read in name order exactly when there are fewer than
      10,000 files. */
  lemma ReadableInNameOrderIff(parts: seq<seq<Record>>)
    requires Numbered(Flatten(parts)) && forall k | 0 <= k < |parts| :: parts[k] != []
    ensures Numbered(Flatten(Reordered(parts))) <==> |parts| < 10000
  {
    if |parts| < 10000 {
      ReorderedSmall(parts);
    } else if Numbered(Flatten(Reordered(parts))) {
      InNameOrder(parts);
    }
  }

  lemma InNameOrder(parts: seq<seq<Record>>)
    requires Numbered(Flatten(parts)) && forall k | 0 <= k < |parts| :: parts[k] != []
    requires Numbered(Flatten(Reordered(parts)))
    ensures |parts| < 10000
  {
    hide Numbered, Flatten, Reordered, WalFileName, NumOf, SortedNames;
    ReadInOrder(parts, |parts|);
    SortedNamesOk(|parts|);
    forall i | 0 <= i < |parts| ensures SortedNames(|parts|)[i] == FirstNames(|parts|)[i] {
      assert SortedNames(|parts|)[i] == WalFileName(FileAt(|parts|, i));
    }
    assert SortedNames(|parts|) == FirstNames(|parts|);
    NameOrderIff(|parts|);
  }

  /** Consecutive numbers leave no choice: the i-th file read is file i. */
  lemma {:induction false} ReadInOrder(parts: seq<seq<Record>>, n: nat)
    requires Numbered(Flatten(parts)) && forall k | 0 <= k < |parts| :: parts[k] != []
    requires Numbered(Flatten(Reordered(parts))) && n <= |parts|
    ensures forall i | 0 <= i < n :: FileAt(|parts|, i) == i + 1
  {
    hide WalFileName, NumOf, SortedNames, FileAt, Numbered, Flatten;
    if n > 0 {
      ReadInOrder(parts, n - 1);
      var m := FileAt(|parts|, n - 1) - 1;
      var read := Reordered(parts);
      assert read[..n - 1] == parts[..n - 1] by {
        assert forall i | 0 <= i < n - 1 :: read[i] == parts[FileAt(|parts|, i) - 1];
      }
      FileNumbers(read, n - 1);
      FileNumbers(parts, m);
      assert read[n - 1] == parts[m] && read[n - 1][0].seqNo == parts[m][0].seqNo;
      LongerPrefix(parts, if m < n - 1 then m else n - 1, if m < n - 1 then n - 1 else m);
    }
  }

  lemma {:induction false} LongerPrefix(parts: seq<seq<Record>>, i: nat, j: nat)
    requires i <= j <= |parts| && forall k | 0 <= k < |parts| :: parts[k] != []
    ensures |Flatten(parts[..i])| + (j - i) <= |Flatten(parts[..j])|
    decreases j
  {
    if i < j {
      assert parts[..j][..j - 1] == parts[..j - 1];
      LongerPrefix(parts, i, j - 1);
    }
  }

  lemma {:induction false} FlattenIncludes(parts: seq<seq<Record>>, i: nat)
    requires i < |parts|
    ensures forall r | r in parts[i] :: r in Flatten(parts)
    decreases |parts|
  {
    if i < |parts| - 1 {
      FlattenIncludes(parts[..|parts| - 1], i);
    }
  }

  /** lastSeqInDir: the greatest number found. */
  method LastSeq(disk: Disk, names: seq<string>) returns (r: Option<nat>)
    requires disk.Valid() && names == SortedNames(|disk.vol.parts|)
    ensures r == if Short(disk.codec, disk.Log()) then Some(|disk.Log()|) else None
  {
    hide SortedNames, FileAt, FilesOk, FirstNames, Numbered, Flatten, Short, Below, Contents, Parse;
    ghost var parts := Reordered(disk.vol.parts);
    SortedNamesOk(|disk.vol.parts|);
    var maxSeq := 0;
    for i := 0 to |names|
      invariant 0 <= maxSeq <= |disk.Log()|
      invariant forall j | 0 <= j < i :: Short(disk.codec, parts[j]) && Below(parts[j], maxSeq)
    {
      TextAt(disk, i);
      FileBounds(disk, i);
      ParseContents(disk.codec, parts[i]);
      var file := ReadWalFile(disk.codec, disk.files[names[i]]);
      if !file.Read? {
        return None;
      }
      ghost var before := maxSeq;
      maxSeq := MaxSeq(file.recs, maxSeq);
      MaxStays(parts, i, before, maxSeq);
      MaxBounded(parts[i], before, maxSeq, |disk.Log()|);
    }
    AllRead(disk.codec, disk.vol.parts, maxSeq);
    return Some(maxSeq);
  }

  lemma FileBounds(disk: Disk, i: nat)
    requires disk.Valid() && i < |disk.vol.parts|
    ensures var recs := Reordered(disk.vol.parts)[i];
            Below(recs, |disk.Log()|) && (Short(disk.codec, disk.Log()) ==> Short(disk.codec, recs))
  {
    hide FileAt, FilesOk;
    var parts := disk.vol.parts;
    var k := FileAt(|parts|, i) - 1;
    FlattenIncludes(parts, k);
    FileNumbers(parts, k);
    FlattenPrefix(parts, k + 1);
    assert parts[..k + 1][..k] == parts[..k] && parts[..k + 1][k] == parts[k];
  }

  lemma MaxStays(parts: seq<seq<Record>>, i: nat, before: int, max: int)
    requires i <= |parts| && before <= max && forall j | 0 <= j < i :: Below(parts[j], before)
    ensures forall j | 0 <= j < i :: Below(parts[j], max)
  {
  }

  lemma MaxBounded(recs: seq<Record>, before: int, max: int, bound: int)
    requires before <= bound && Below(recs, bound) && (max == before || exists r | r in recs :: r.seqNo == max)
    ensures max <= bound
  {
  }

  ghost predicate Below(recs: seq<Record>, max: int) {
    forall r | r in recs :: r.seqNo <= max
  }

  method MaxSeq(recs: seq<Record>, start: int) returns (maxSeq: int)
    ensures start <= maxSeq && Below(recs, maxSeq)
    ensures maxSeq == start || exists r | r in recs :: r.seqNo == maxSeq
  {
    maxSeq := start;
    for j := 0 to |recs|
      invariant start <= maxSeq && Below(recs[..j], maxSeq)
      invariant maxSeq == start || exists r | r in recs :: r.seqNo == maxSeq
    {
      assert recs[..j + 1] == recs[..j] + [recs[j]];
      if recs[j].seqNo > maxSeq {
        maxSeq := recs[j].seqNo;
      }
    }
    assert recs[..|recs|] == recs;
  }

  /** Every file stands somewhere among the sorted names. */
  lemma PlaceOf(n: nat, num: nat) returns (i: nat)
    requires 1 <= num <= n
    ensures i < n && FileAt(n, i) == num
  {
    SortedNamesOk(n);
    assert FirstNames(n)[num - 1] == WalFileName(num);
    assert WalFileName(num) in SortedNames(n);
    i :| 0 <= i < n && SortedNames(n)[i] == WalFileName(num);
    NumOfName(num);
    NumOfName(FileAt(n, i));
  }

  lemma AllRead(codec: Codec, parts: seq<seq<Record>>, max: int)
    requires Numbered(Flatten(parts)) && 0 <= max <= |Flatten(parts)|
    requires forall j | 0 <= j < |parts| :: Short(codec, Reordered(parts)[j]) && Below(Reordered(parts)[j], max)
    ensures Short(codec, Flatten(parts)) && max == |Flatten(parts)|
  {
    hide FileAt, Flatten;
    forall k | 0 <= k < |parts| ensures Short(codec, parts[k]) && Below(parts[k], max) {
      var j := PlaceOf(|parts|, k + 1);
      assert Reordered(parts)[j] == parts[k];
    }
    forall r | r in Flatten(parts) ensures |codec.enc(r)| < MAX_LINE && r.seqNo <= max {
      var k := FlattenSource(parts, r);
    }
    var log := Flatten(parts);
    if log != [] {
      assert log[|log| - 1] in log;
    }
  }

  lemma {:induction false} FlattenSource(parts: seq<seq<Record>>, r: Record) returns (k: nat)
    requires r in Flatten(parts)
    ensures k < |parts| && r in parts[k]
    decreases |parts|
  {
    var n := |parts| - 1;
    if r in parts[n] {
      k := n;
    } else {
      k := FlattenSource(parts[..n], r);
    }
  }

  lemma FileNumbers(parts: seq<seq<Record>>, i: nat)
    requires i < |parts| && Numbered(Flatten(parts))
    ensures forall j | 0 <= j < |parts[i]| :: parts[i][j].seqNo == |Flatten(parts[..i])| + j + 1
  {
    var before := Flatten(parts[..i]);
    assert parts[..i + 1][..i] == parts[..i];
    FlattenPrefix(parts, i + 1);
    forall j | 0 <= j < |parts[i]| ensures parts[i][j].seqNo == |before| + j + 1 {
      assert parts[i][j] == Flatten(parts[..i + 1])[|before| + j] == Flatten(parts)[|before| + j];
    }
  }

  lemma {:induction false} FlattenPrefix(parts: seq<seq<Record>>, i: nat)
    requires i <= |parts|
    ensures Flatten(parts[..i]) <= Flatten(parts)
    decreases |parts|
  {
    if i < |parts| {
      assert parts[..|parts| - 1][..i] == parts[..i];
      FlattenPrefix(parts[..|parts| - 1], i);
    } else {
      assert parts[..i] == parts;
    }
  }

  /** Every file of a log with short lines is within 10 MiB. */
  lemma FilesWithinLimit(disk: Disk, k: nat)
    requires disk.Shape() && Short(disk.codec, disk.Log()) && 1 <= k <= |disk.vol.parts|
    ensures WalFileName(k) in disk.files && |disk.files[WalFileName(k)]| <= MAX_FILE_SIZE
  {
    var recs := disk.vol.parts[k - 1];
    FlattenIncludes(disk.vol.parts, k - 1);
    if |recs| == 1 {
      assert recs == [recs[0]] && recs[0] in recs;
      ContentsOne(disk.codec, recs[0]);
    } else {
      assert |recs| == 0 ==> recs == [];
    }
  }

  lemma ContentsPlus(codec: Codec, recs: seq<Record>, r: Record)
    ensures Contents(codec, recs) == "" ==> recs == []
    ensures Contents(codec, recs + [r]) == Contents(codec, recs) + (codec.enc(r) + "\n")
  {
    assert (recs + [r])[..|recs|] == recs;
    assert Contents(codec, recs) + codec.enc(r) + "\n" == Contents(codec, recs) + (codec.enc(r) + "\n");
  }

  // ----- writing -----

  /** Where NewWriter continues: in the file whose name is last, or in the next when that one is full. With fewer than
      10,000 files that is the last file written, or the next; with more the number is wrong. */
  method ResumePoint(disk: Disk, names: seq<string>) returns (num: nat, size: int)
    requires disk.Shape() && names == SortedNames(|disk.vol.parts|)
    ensures |names| == |disk.vol.parts| && 1 <= num <= |names| + 1
    ensures |names| < 10000 && names != [] && !disk.LastFull() ==>
              num == |names| && WalFileName(num) in disk.files && size == |disk.files[WalFileName(num)]|
    ensures |names| < 10000 && (names == [] || disk.LastFull()) ==> num == |names| + 1 && size == 0
    ensures 10000 <= |names| ==> num < |names| || (num == |names| && size == 0)
  {
    SortedNamesOk(|disk.vol.parts|);
    if |names| == 0 {
      return 1, 0;
    }
    LastName(disk, |names|);
    hide WalFileName, ParseFileNum, Contents, SortedNames, FilesOk, Ok, Codec.Faithful, IsWalName, FirstNames, Sorted;
    num := ParseFileNum(names[|names| - 1]);
    size := |disk.files[names[|names| - 1]]|;
    if size >= MAX_FILE_SIZE {
      num := num + 1;
      size := 0;
    }
  }

  lemma LastName(disk: Disk, n: nat)
    requires disk.Shape() && n == |disk.vol.parts| >= 1
    ensures |SortedNames(n)| == n && SortedNames(n)[n - 1] in disk.files
    ensures 1 <= ParseFileNum(SortedNames(n)[n - 1]) < 10000
    ensures n < 10000 ==>
              && SortedNames(n)[n - 1] == WalFileName(n) && ParseFileNum(SortedNames(n)[n - 1]) == n
              && (disk.LastFull() <==> |disk.files[SortedNames(n)[n - 1]]| >= MAX_FILE_SIZE)
  {
    hide ParseFileNum, WalFileName, NumOf, SortedNames, Contents;
    var at := FileAt(n, n - 1);
    ParsedBounds(at);
    NameOrderIff(n);
    ParseInvertsName(n);
  }

  class Writer {
    const disk: Disk
    var nextSeq: int
    var fileNum: nat
    var fileSize: int

    /** The writer's counters agree with what is on disk; `ahead` records are numbered but not yet written. */
    ghost predicate Agrees(ahead: nat)
      reads this, disk
    {
      && disk.Valid()
      && fileNum == |disk.vol.parts| >= 1
      && fileSize == |disk.files[WalFileName(fileNum)]|
      && nextSeq == |disk.Log()| + ahead
    }

    ghost predicate Valid()
      reads this, disk
    {
      Agrees(0)
    }

    lemma Usable()
      requires Valid()
      ensures Ok(disk.vol) && disk.vol.parts != []
    {
    }

    lemma NextSeqIsLength()
      requires Valid()
      ensures nextSeq == |disk.Log()|
    {
    }

    constructor (disk: Disk, nextSeq: int, fileNum: nat, fileSize: int)
      ensures this.disk == disk && this.nextSeq == nextSeq && this.fileNum == fileNum && this.fileSize == fileSize
    {
      this.disk := disk;
      this.nextSeq := nextSeq;
      this.fileNum := fileNum;
      this.fileSize := fileSize;
    }

    /** append: write the record, in a new file if this one would grow over 10 MiB. */
    method Append(r: Record) returns (ghost rotated: bool)
      requires Agrees(1) && r.seqNo == nextSeq
      modifies this`fileNum, this`fileSize, disk
      ensures Valid() && disk.Log() == old(disk.Log()) + [r]
      ensures disk.vol == Appended(old(disk.vol), rotated, r)
      ensures rotated <==> old(fileSize) + |disk.codec.enc(r)| + 1 > MAX_FILE_SIZE
    {
      var data := disk.codec.enc(r) + "\n";
      rotated := false;
      if fileSize + |data| > MAX_FILE_SIZE {
        rotated := true;
        RotateFile();
      }
      WriteData(data, r);
    }

    method WriteData(data: string, ghost r: Record)
      requires Agrees(1) && r.seqNo == nextSeq && data == disk.codec.enc(r) + "\n"
      requires fileSize == 0 || fileSize + |data| <= MAX_FILE_SIZE
      modifies this`fileSize, disk
      ensures Valid() && disk.vol == LogVolume.Append(old(disk.vol), r)
    {
      AppendLog(disk.vol, r);
      disk.AppendLast(fileNum, data, r);
      fileSize := fileSize + |data|;
    }

    method RotateFile()
      requires Agrees(1)
      modifies this`fileNum, this`fileSize, disk
      ensures Agrees(1) && fileSize == 0 && disk.vol == Rotate(old(disk.vol))
    {
      hide FilesOk;
      RotateLog(disk.vol);
      disk.Fsync();
      disk.CreateNext(fileNum + 1);
      fileNum := fileNum + 1;
      fileSize := 0;
    }

    method Fsync()
      requires Valid()
      modifies disk
      ensures Valid() && disk.vol == SyncLast(old(disk.vol)) && disk.Log() == old(disk.Log())
    {
      SyncLog(disk.vol);
      disk.Fsync();
    }

    method Put(r: Record) returns (seqNo: int, ghost rotated: bool)
      requires Valid() && r.seqNo == nextSeq + 1
      modifies this, disk
      ensures Valid() && seqNo == |disk.Log()|
      ensures disk.Log() == old(disk.Log()) + [r]
      ensures disk.vol == Appended(old(disk.vol), rotated, r)
      ensures rotated <==> old(fileSize) + |disk.codec.enc(r)| + 1 > MAX_FILE_SIZE
      ensures old(disk.Durable()) <= disk.Durable() <= |disk.Log()|
    {
      AppendedOk(disk.vol, r);
      nextSeq := nextSeq + 1;
      seqNo := nextSeq;
      rotated := Append(r);
    }

    method PutSynced(r: Record) returns (seqNo: int, ghost rotated: bool)
      requires Valid() && r.seqNo == nextSeq + 1
      modifies this, disk
      ensures Valid() && seqNo == |disk.Log()|
      ensures disk.Log() == old(disk.Log()) + [r]
      ensures disk.vol == Synced(old(disk.vol), rotated, r)
      ensures rotated <==> old(fileSize) + |disk.codec.enc(r)| + 1 > MAX_FILE_SIZE
      ensures old(disk.Durable()) <= disk.Durable() == |disk.Log()|
    {
      hide FilesOk, Readable, LogVolume.Append, SyncLast, Rotate, Anchor;
      AppendedOk(disk.vol, r);
      seqNo, rotated := Put(r);
      Fsync();
    }

    // One method per record type; all but StepBegin sync the file before they return.

    method StepBegin(stepId: string, ts: int) returns (seqNo: int, ghost rotated: bool)
      requires Valid()
      modifies this, disk
      ensures Valid() && seqNo == |disk.Log()|
      ensures disk.Log() == old(disk.Log()) + [Record(|old(disk.Log())| + 1, RecType.StepBegin, stepId, ts, None, "", 0, "")]
      ensures disk.vol == Appended(old(disk.vol), rotated, Record(|old(disk.Log())| + 1, RecType.StepBegin, stepId, ts, None, "", 0, ""))
      ensures rotated <==> old(fileSize) + |disk.codec.enc(Record(|old(disk.Log())| + 1, RecType.StepBegin, stepId, ts, None, "", 0, ""))| + 1 > MAX_FILE_SIZE
      ensures old(disk.Durable()) <= disk.Durable() <= |disk.Log()|
    {
      NextSeqIsLength();
      hide Valid, Agrees, Disk.Valid, Disk.Shape, Disk.Log, Disk.Durable, Synced, Appended;
      seqNo, rotated := Put(Record(nextSeq + 1, RecType.StepBegin, stepId, ts, None, "", 0, ""));
    }

    method StepEnd(stepId: string, exitCode: int, outputRef: string, ts: int) returns (seqNo: int, ghost rotated: bool)
      requires Valid()
      modifies this, disk
      ensures Valid() && seqNo == |disk.Log()|
      ensures disk.Log() == old(disk.Log()) + [Record(|old(disk.Log())| + 1, RecType.StepEnd, stepId, ts, Some(exitCode), outputRef, 0, "")]
      ensures disk.vol == Synced(old(disk.vol), rotated, Record(|old(disk.Log())| + 1, RecType.StepEnd, stepId, ts, Some(exitCode), outputRef, 0, ""))
      ensures rotated <==> old(fileSize) + |disk.codec.enc(Record(|old(disk.Log())| + 1, RecType.StepEnd, stepId, ts, Some(exitCode), outputRef, 0, ""))| + 1 > MAX_FILE_SIZE
      ensures old(disk.Durable()) <= disk.Durable() == |disk.Log()|
    {
      NextSeqIsLength();
      hide Valid, Agrees, Disk.Valid, Disk.Shape, Disk.Log, Disk.Durable, Synced, Appended;
      seqNo, rotated := PutSynced(Record(nextSeq + 1, RecType.StepEnd, stepId, ts, Some(exitCode), outputRef, 0, ""));
    }

    method StepRetry(stepId: string, attempt: int, ts: int) returns (seqNo: int, ghost rotated: bool)
      requires Valid()
      modifies this, disk
      ensures Valid() && seqNo == |disk.Log()|
      ensures disk.Log() == old(disk.Log()) + [Record(|old(disk.Log())| + 1, RecType.StepRetry, stepId, ts, None, "", attempt, "")]
      ensures disk.vol == Synced(old(disk.vol), rotated, Record(|old(disk.Log())| + 1, RecType.StepRetry, stepId, ts, None, "", attempt, ""))
      ensures old(disk.Durable()) <= disk.Durable() == |disk.Log()|
    {
      NextSeqIsLength();
      hide Valid, Agrees, Disk.Valid, Disk.Shape, Disk.Log, Disk.Durable, Synced, Appended;
      seqNo, rotated := PutSynced(Record(nextSeq + 1, RecType.StepRetry, stepId, ts, None, "", attempt, ""));
    }

    method StepTimeout(stepId: string, ts: int) returns (seqNo: int, ghost rotated: bool)
      requires Valid()
      modifies this, disk
      ensures Valid() && seqNo == |disk.Log()|
      ensures disk.Log() == old(disk.Log()) + [Record(|old(disk.Log())| + 1, RecType.StepTimeout, stepId, ts, None, "", 0, "timeout")]
      ensures disk.vol == Synced(old(disk.vol), rotated, Record(|old(disk.Log())| + 1, RecType.StepTimeout, stepId, ts, None, "", 0, "timeout"))
      ensures old(disk.Durable()) <= disk.Durable() == |disk.Log()|
    {
      NextSeqIsLength();
      hide Valid, Agrees, Disk.Valid, Disk.Shape, Disk.Log, Disk.Durable, Synced, Appended;
      seqNo, rotated := PutSynced(Record(nextSeq + 1, RecType.StepTimeout, stepId, ts, None, "", 0, "timeout"));
    }

    method JobCancelled(reason: string, ts: int) returns (seqNo: int, ghost rotated: bool)
      requires Valid()
      modifies this, disk
      ensures Valid() && seqNo == |disk.Log()|
      ensures disk.Log() == old(disk.Log()) + [Record(|old(disk.Log())| + 1, RecType.JobCancelled, "", ts, None, "", 0, reason)]
      ensures disk.vol == Synced(old(disk.vol), rotated, Record(|old(disk.Log())| + 1, RecType.JobCancelled, "", ts, None, "", 0, reason))
      ensures old(disk.Durable()) <= disk.Durable() == |disk.Log()|
    {
      NextSeqIsLength();
      hide Valid, Agrees, Disk.Valid, Disk.Shape, Disk.Log, Disk.Durable, Synced, Appended;
      seqNo, rotated := PutSynced(Record(nextSeq + 1, RecType.JobCancelled, "", ts, None, "", 0, reason));
    }
  }

  ghost function Appended(v: Volume, rotated: bool, r: Record): Volume
    requires Ok(v) && v.parts != []
  {
    LogVolume.Append(if rotated then Rotate(v) else v, r)
  }

  /** Written and synced. */
  ghost function Synced(v: Volume, rotated: bool, r: Record): Volume
    requires Ok(v) && v.parts != []
  {
    AppendedOk(v, r);
    SyncLast(Appended(v, rotated, r))
  }

  lemma AppendedOk(v: Volume, r: Record)
    requires Ok(v) && v.parts != []
    ensures forall rotated ::
              var w := Appended(v, rotated, r);
              && Ok(w) && Log(w) == Log(v) + [r] && Anchor(v) <= Anchor(w) && (Sealed(v) ==> Sealed(w))
              && Ok(SyncLast(w)) && Log(SyncLast(w)) == Log(w) && Anchor(SyncLast(w)) == |Log(w)|
              && (Sealed(v) ==> Sealed(SyncLast(w)))
  {
    forall rotated ensures
        var w := Appended(v, rotated, r);
        && Ok(w) && Log(w) == Log(v) + [r] && Anchor(v) <= Anchor(w) && (Sealed(v) ==> Sealed(w))
        && Ok(SyncLast(w)) && Log(SyncLast(w)) == Log(w) && Anchor(SyncLast(w)) == |Log(w)|
        && (Sealed(v) ==> Sealed(SyncLast(w)))
    {
      RotateLog(v);
      AppendLog(if rotated then Rotate(v) else v, r);
      SyncLog(Appended(v, rotated, r));
    }
  }

  lemma LastNotEmpty(disk: Disk, n: nat)
    requires disk.Shape() && n == |disk.vol.parts| >= 1
    ensures disk.vol.parts[n - 1] != [] ==> |disk.files[WalFileName(n)]| > 0
  {
    var recs := disk.vol.parts[n - 1];
    if recs != [] {
      assert disk.files[WalFileName(n)] == Contents(disk.codec, recs);
    }
  }

  /** NewWriter on a log without a gap. It fails exactly when a line is too long for the reader; it adds no record and
      makes none durable; with fewer than 10,000 files the writer it returns agrees with the disk. */
  method NewWriter(disk: Disk) returns (w: Writer?)
    requires disk.Valid()
    modifies disk
    ensures w == null <==> !Short(disk.codec, old(disk.Log()))
    ensures w != null ==> fresh(w) && w.disk == disk
    ensures w == null ==> disk.vol == old(disk.vol)
    ensures w != null && |old(disk.vol).parts| < 10000 ==>
              w.Valid() && disk.vol == Opened(old(disk.vol), old(disk.LastFull()))
    ensures w != null && 10000 <= |old(disk.vol).parts| ==>
              disk.vol == old(disk.vol) && (disk.vol.parts[|disk.vol.parts| - 1] != [] ==> !w.Valid())
    ensures disk.Valid() && disk.Log() == old(disk.Log()) && disk.Durable() == old(disk.Durable())
  {
    hide FilesOk, SortedNames, Ok, Codec.Faithful, Readable, Short, Log;
    var names := ListWalFiles(disk);
    var last := LastSeq(disk, names);
    if last.None? {
      return null;
    }
    w := Resume(disk, names, last.value);
  }

  /** NewWriter's second half: open the file to continue in. */
  method Resume(disk: Disk, names: seq<string>, last: nat) returns (w: Writer)
    requires disk.Valid() && names == SortedNames(|disk.vol.parts|) && last == |disk.Log()|
    modifies disk
    ensures fresh(w) && w.disk == disk
    ensures |old(disk.vol).parts| < 10000 ==> w.Valid() && disk.vol == Opened(old(disk.vol), old(disk.LastFull()))
    ensures 10000 <= |old(disk.vol).parts| ==>
              disk.vol == old(disk.vol) && (disk.vol.parts[|disk.vol.parts| - 1] != [] ==> !w.Valid())
    ensures disk.Valid() && disk.Log() == old(disk.Log()) && disk.Durable() == old(disk.Durable())
  {
    hide FilesOk, SortedNames, Codec.Faithful, Flatten, WalFileName, Contents, Anchor;
    var num, size := ResumePoint(disk, names);
    OpenLog(disk.vol);
    if num > |names| {
      disk.CreateNext(num);
    } else if 10000 <= |names| {
      LastNotEmpty(disk, |names|);
    }
    w := new Writer(disk, last, num, size);
  }
}
