/** The filesystem checkpoint store (internal/checkpoint/fs.go): a save writes workspace, manifest and LATEST in this
    order and may be cut short within any of the three files; restoring follows LATEST and checks the hash. */
module Checkpoint {
  import opened Conditions
  import opened Text

  /** SHA-256, of which only this matters: different data have different digests. */
  datatype Digest = Unset | Sha256(data: string)

  datatype Manifest = Manifest(jobName: string, attempt: int, seqNo: int, sha256: Digest, createdAt: string,
                               completedSteps: seq<string>)

  /** JSON, of which only this matters: decoding inverts encoding, and an object cut short does not decode. */
  datatype Codec = Codec(enc: Manifest -> string, dec: string -> Option<Manifest>) {
    ghost predicate Faithful() {
      && (forall m :: dec(enc(m)) == Some(m))
      && (forall m, k: nat | k < |enc(m)| :: dec(enc(m)[..k]) == None)
    }
  }

  /** The files of one checkpoint directory and of one job's directory; None is a file that does not exist. */
  datatype Dir = Dir(workspace: Option<string>, manifest: Option<string>)

  datatype Files = Files(latest: Option<string>, dirs: map<int, Dir>)

  /** The arguments of one call of Save. */
  datatype Request = Request(seqNo: int, manifest: Manifest, workspace: string)

  /** Where a save was cut short: in which file, and how many bytes of it are there. */
  datatype Cut = InWorkspace(bytes: nat) | InManifest(bytes: nat) | InLatest(bytes: nat) | Finished

  datatype Restored = NoCheckpoint | Pair(manifest: Manifest, workspace: string) | Broken

  predicate IsSpace(c: char) { c == ' ' || c == '\n' || c == '\r' || c == '\t' }

  /** strings.TrimSpace */
  function Trim(s: string): string {
    if s != "" && IsSpace(s[0]) then Trim(s[1..])
    else if s != "" && IsSpace(s[|s| - 1]) then Trim(s[..|s| - 1])
    else s
  }

  function DirOf(f: Files, n: int): Dir {
    if n in f.dirs then f.dirs[n] else Dir(None, None)
  }

  // ----- restoring -----

  function RestoreAt(codec: Codec, f: Files, n: int): Restored {
    if n < 0 then NoCheckpoint
    else if DirOf(f, n).manifest.None? || codec.dec(DirOf(f, n).manifest.value).None? then Broken
    else
      var m := codec.dec(DirOf(f, n).manifest.value).value;
      if DirOf(f, n).workspace.None? || Sha256(DirOf(f, n).workspace.value) != m.sha256 then Broken
      else Pair(m, DirOf(f, n).workspace.value)
  }

  function RestoreLatest(codec: Codec, f: Files): Restored {
    if f.latest.None? then NoCheckpoint
    else
      var n := Atoi(Trim(f.latest.value));
      if n.None? then Broken else RestoreAt(codec, f, n.value)
  }

  // ----- saving -----

  function Stamp(r: Request): Manifest {
    r.manifest.(sha256 := Sha256(r.workspace))
  }

  function Written(text: string, bytes: nat): string {
    if bytes <= |text| then text[..bytes] else text
  }

  /** The files a save leaves behind. */
  function Saved(codec: Codec, f: Files, r: Request, cut: Cut): Files {
    var dir := DirOf(f, r.seqNo);
    var text := codec.enc(Stamp(r));
    match cut
    case InWorkspace(bytes) => f.(dirs := f.dirs[r.seqNo := dir.(workspace := Some(Written(r.workspace, bytes)))])
    case InManifest(bytes) => f.(dirs := f.dirs[r.seqNo := Dir(Some(r.workspace), Some(Written(text, bytes)))])
    case InLatest(bytes) =>
      Files(Some(Written(Print(r.seqNo), bytes)), f.dirs[r.seqNo := Dir(Some(r.workspace), Some(text))])
    case Finished => Files(Some(Print(r.seqNo)), f.dirs[r.seqNo := Dir(Some(r.workspace), Some(text))])
  }

  class FSStore {
    const codec: Codec
    var latest: Option<string>
    var dirs: map<int, Dir>

    constructor (codec: Codec)
      ensures this.codec == codec && F() == Files(None, map[])
    {
      this.codec := codec;
      latest, dirs := None, map[];
    }

    function F(): Files
      reads this
    {
      Files(latest, dirs)
    }

    /** Save; `cut` says where it stops. */
    method Save(r: Request, cut: Cut) returns (ok: bool)
      modifies this
      ensures F() == Saved(codec, old(F()), r, cut) && (ok <==> cut.Finished?)
    {
      var dir := if r.seqNo in dirs then dirs[r.seqNo] else Dir(None, None);
      if cut.InWorkspace? {
        dirs := dirs[r.seqNo := dir.(workspace := Some(Written(r.workspace, cut.bytes)))];
        return false;
      }
      dirs := dirs[r.seqNo := dir.(workspace := Some(r.workspace))];
      var hash := Sha256(dirs[r.seqNo].workspace.value);
      var manifest := r.manifest.(sha256 := hash);
      var text := codec.enc(manifest);
      ghost var before := old(dirs);
      if cut.InManifest? {
        dirs := dirs[r.seqNo := dirs[r.seqNo].(manifest := Some(Written(text, cut.bytes)))];
        assert dirs == before[r.seqNo := Dir(Some(r.workspace), Some(Written(text, cut.bytes)))];
        return false;
      }
      dirs := dirs[r.seqNo := dirs[r.seqNo].(manifest := Some(text))];
      assert dirs == before[r.seqNo := Dir(Some(r.workspace), Some(text))];
      if cut.InLatest? {
        latest := Some(Written(Print(r.seqNo), cut.bytes));
        return false;
      }
      latest := Some(Print(r.seqNo));
      return true;
    }

    method Restore() returns (r: Restored)
      ensures r == RestoreLatest(codec, F())
    {
      if latest.None? {
        return NoCheckpoint;
      }
      var n := Atoi(Trim(latest.value));
      if n.None? {
        return Broken;
      }
      if n.value < 0 {
        return NoCheckpoint;
      }
      var dir := if n.value in dirs then dirs[n.value] else Dir(None, None);
      if dir.manifest.None? {
        return Broken;
      }
      var m := codec.dec(dir.manifest.value);
      if m.None? || dir.workspace.None? {
        return Broken;
      }
      var hash := Sha256(dir.workspace.value);
      if hash != m.value.sha256 {
        return Broken;
      }
      return Pair(m.value, dir.workspace.value);
    }
  }

  // ----- the order of the three writes is what makes a save atomic -----

  lemma TrimPrint(i: int)
    ensures Trim(Print(i)) == Print(i)
  {
    ItoaDigits(if i < 0 then -i else i);
    assert forall k | 0 <= k < |Print(i)| :: !IsSpace(Print(i)[k]);
  }

  /** The checkpoint LATEST points to, if any. */
  function Current(f: Files): Option<int> {
    if f.latest.None? then None else Atoi(Trim(f.latest.value))
  }

  /** A finished save is what the next restore returns, exactly when its number is not negative. */
  lemma FinishedIsRestored(codec: Codec, f: Files, r: Request)
    requires codec.Faithful()
    ensures RestoreLatest(codec, Saved(codec, f, r, Finished)) == Pair(Stamp(r), r.workspace) <==> r.seqNo >= 0
    ensures r.seqNo >= 0 ==>
              RestoreLatest(codec, Saved(codec, f, r, Finished)) == Pair(r.manifest.(sha256 := Sha256(r.workspace)), r.workspace)
  {
    AtoiPrint(r.seqNo);
    TrimPrint(r.seqNo);
    assert codec.dec(codec.enc(Stamp(r))) == Some(Stamp(r));
  }

  /** A save of another checkpoint, with LATEST written in one piece, is all or nothing: wherever it stops, a restore
      returns exactly what it returned before, and once it is finished exactly the new pair. */
  lemma SaveIsAtomic(codec: Codec, f: Files, r: Request, cut: Cut)
    requires codec.Faithful() && r.seqNo >= 0 && Current(f) != Some(r.seqNo) && !cut.InLatest?
    ensures RestoreLatest(codec, Saved(codec, f, r, cut))
         == if cut.Finished? then Pair(Stamp(r), r.workspace) else RestoreLatest(codec, f)
  {
    FinishedIsRestored(codec, f, r);
  }

  /** The same checkpoint written again, stopped anywhere: as before, failed, or already the new one; where there was
      a checkpoint before, it is never anything else. */
  lemma SameSaveIsOldNewOrBroken(codec: Codec, f: Files, r: Request, cut: Cut)
    requires codec.Faithful() && Current(f) == Some(r.seqNo) && !cut.InLatest?
    requires RestoreLatest(codec, f).Pair?
    ensures RestoreLatest(codec, Saved(codec, f, r, cut)) in
              {RestoreLatest(codec, f), Broken, Pair(Stamp(r), r.workspace)}
    ensures cut.Finished? || (cut.InManifest? && cut.bytes >= |codec.enc(Stamp(r))|) ==>
              RestoreLatest(codec, Saved(codec, f, r, cut)) == Pair(Stamp(r), r.workspace)
  {
    AtoiPrint(r.seqNo);
    TrimPrint(r.seqNo);
    var text := codec.enc(Stamp(r));
    assert codec.dec(text) == Some(Stamp(r));
    if cut.InManifest? && cut.bytes < |text| {
      assert codec.dec(text[..cut.bytes]) == None;
    } else if cut.InManifest? {
      assert Written(text, cut.bytes) == text;
    }
  }

  // ----- LATEST itself is written in place -----

  lemma {:induction false} PrefixValue(s: string, k: nat)
    requires AllDigits(s) && k <= |s|
    ensures AllDigits(s[..k]) && Value(s[..k]) <= Value(s)
    ensures k < |s| && Value(s) > 0 ==> Value(s[..k]) < Value(s)
    decreases |s|
  {
    if k < |s| {
      var t := s[..|s| - 1];
      assert t[..k] == s[..k];
      PrefixValue(t, k);
    } else {
      assert s[..k] == s;
    }
  }

  lemma TrimDigits(s: string)
    requires AllDigits(s)
    ensures Trim(s) == s
  {
  }

  /** Stopped inside LATEST, a save makes the restore fail although both checkpoints are intact, if nothing was
      written, and otherwise sends it to the checkpoint whose number is the part of the digits that was written. */
  lemma TornLatest(codec: Codec, f: Files, r: Request, bytes: nat)
    requires r.seqNo >= 0 && bytes < |Print(r.seqNo)|
    ensures AllDigits(Print(r.seqNo)[..bytes]) && (bytes > 0 ==> Value(Print(r.seqNo)[..bytes]) < r.seqNo)
    ensures RestoreLatest(codec, Saved(codec, f, r, InLatest(bytes)))
         == if bytes == 0 then Broken else RestoreAt(codec, f, Value(Print(r.seqNo)[..bytes]))
  {
    var text := Print(r.seqNo);
    var after := Saved(codec, f, r, InLatest(bytes));
    ItoaDigits(r.seqNo);
    PrefixValue(text, bytes);
    TrimDigits(text[..bytes]);
    assert Trim(after.latest.value) == text[..bytes];
    if bytes > 0 {
      var n := Value(text[..bytes]);
      assert r.seqNo > 0 by { assert r.seqNo < 10 ==> |text| == 1; }
      assert Atoi(text[..bytes]) == Some(n);
      assert DirOf(after, n) == DirOf(f, n);
    }
  }

  /** So a save stopped inside LATEST is all or nothing if and only if all the digits are there, or the checkpoint
      numbered by the digits that are there holds the old pair or the new one. */
  lemma TornLatestIff(codec: Codec, f: Files, r: Request, bytes: nat)
    requires codec.Faithful() && r.seqNo >= 0 && RestoreLatest(codec, f).Pair?
    ensures var pairs := {RestoreLatest(codec, f), Pair(Stamp(r), r.workspace)};
            var text := Print(r.seqNo);
            && AllDigits(text) && (bytes < |text| ==> AllDigits(text[..bytes]))
            && (RestoreLatest(codec, Saved(codec, f, r, InLatest(bytes))) in pairs <==>
                  bytes >= |text| || (bytes > 0 && RestoreAt(codec, f, Value(text[..bytes])) in pairs))
  {
    ItoaDigits(r.seqNo);
    if bytes < |Print(r.seqNo)| {
      TornLatest(codec, f, r, bytes);
    } else {
      FinishedIsRestored(codec, f, r);
      assert Written(Print(r.seqNo), bytes) == Print(r.seqNo);
      assert Saved(codec, f, r, InLatest(bytes)) == Saved(codec, f, r, Finished);
    }
  }

  // ----- any number of saves, each stopped anywhere -----

  datatype Attempt = Attempt(request: Request, cut: Cut)

  function SavedAll(codec: Codec, saves: seq<Attempt>): Files {
    if saves == [] then Files(None, map[])
    else
      var last := saves[|saves| - 1];
      Saved(codec, SavedAll(codec, saves[..|saves| - 1]), last.request, last.cut)
  }

  /** The manifest in a directory, if it decodes, is the stamped manifest of some save into that directory. */
  ghost predicate ManifestOf(codec: Codec, saves: seq<Attempt>, text: string, n: int) {
    codec.dec(text).Some? ==>
      exists a | a in saves :: a.request.seqNo == n && codec.dec(text).value == Stamp(a.request)
  }

  ghost predicate ManifestsOk(codec: Codec, saves: seq<Attempt>, f: Files) {
    forall n | n in f.dirs && f.dirs[n].manifest.Some? :: ManifestOf(codec, saves, f.dirs[n].manifest.value, n)
  }

  lemma {:induction false} ManifestsAreStamped(codec: Codec, saves: seq<Attempt>)
    requires codec.Faithful()
    ensures ManifestsOk(codec, saves, SavedAll(codec, saves))
  {
    if saves != [] {
      var before, last := saves[..|saves| - 1], saves[|saves| - 1];
      ManifestsAreStamped(codec, before);
      var f, g := SavedAll(codec, before), SavedAll(codec, saves);
      var text := codec.enc(Stamp(last.request));
      assert codec.dec(text) == Some(Stamp(last.request));
      forall n | n in g.dirs && g.dirs[n].manifest.Some?
        ensures ManifestOf(codec, saves, g.dirs[n].manifest.value, n)
      {
        if n == last.request.seqNo && !last.cut.InWorkspace? {
          if last.cut.InManifest? && last.cut.bytes < |text| {
            assert codec.dec(text[..last.cut.bytes]) == None;
          } else {
            assert g.dirs[n].manifest.value == text && last in saves;
          }
        } else {
          assert ManifestOf(codec, before, f.dirs[n].manifest.value, n);
          MoreSaves(codec, before, saves, f.dirs[n].manifest.value, n);
        }
      }
    }
  }

  lemma MoreSaves(codec: Codec, before: seq<Attempt>, saves: seq<Attempt>, text: string, n: int)
    requires ManifestOf(codec, before, text, n) && before <= saves
    ensures ManifestOf(codec, saves, text, n)
  {
    if codec.dec(text).Some? {
      var a :| a in before && a.request.seqNo == n && codec.dec(text).value == Stamp(a.request);
      assert a in saves;
    }
  }

  /** Whatever was saved, repeated and cut short, torn LATEST included: a restore that succeeds returns the manifest
      and the workspace of one and the same save, never one save's workspace with another's manifest. */
  lemma RestoredWasSaved(codec: Codec, saves: seq<Attempt>)
    requires codec.Faithful()
    ensures var r := RestoreLatest(codec, SavedAll(codec, saves));
            r.Pair? ==> exists a | a in saves ::
              r.workspace == a.request.workspace && r.manifest == a.request.manifest.(sha256 := Sha256(a.request.workspace))
  {
    ManifestsAreStamped(codec, saves);
    var f := SavedAll(codec, saves);
    var r := RestoreLatest(codec, f);
    if r.Pair? {
      var n := Current(f).value;
      assert ManifestOf(codec, saves, f.dirs[n].manifest.value, n);
      var a :| a in saves && a.request.seqNo == n && codec.dec(f.dirs[n].manifest.value).value == Stamp(a.request);
      assert r == Pair(Stamp(a.request), a.request.workspace);
    }
  }

  /** A save, wherever it stops, leaves the other checkpoints as they are. */
  lemma OthersStay(codec: Codec, f: Files, r: Request, cut: Cut, n: int)
    requires n != r.seqNo
    ensures RestoreAt(codec, Saved(codec, f, r, cut), n) == RestoreAt(codec, f, n)
  {
  }
}
