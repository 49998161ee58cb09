/** CommitArtifacts and ValidateCommit (internal/artifact/commit.go:52-185). */
module Commit {
  import opened Conditions
  import opened Text
  import opened Artifacts

  /** One attempt's place in the store. */
  datatype Place = Place(ns: string, job: string, attempt: string) {
    function Key(filename: string): string { ArtifactKey(ns, job, attempt, filename) }
    function Manifest(): string { ManifestKey(ns, job, attempt) }
  }

  class Store {
    var objects: Objects

    constructor ()
      ensures objects == map[]
    {
      objects := map[];
    }

    method Put(key: string, data: Bytes)
      modifies this
      ensures objects == old(objects)[key := data]
    {
      objects := objects[key := data];
    }
  }

  // ----- what a commit writes -----

  function EntriesOf(p: Place, names: seq<string>, blobs: map<string, Bytes>): seq<Entry>
    requires forall x | x in names :: x in blobs
  {
    seq(|names|, i requires 0 <= i < |names| => Entry(p.Key(names[i]), OfData(blobs[names[i]])))
  }

  /** The store after the first k blobs, in the order of their names. */
  function Uploaded(objects: Objects, p: Place, names: seq<string>, blobs: map<string, Bytes>, k: nat): Objects
    requires k <= |names| && forall x | x in names :: x in blobs
  {
    if k == 0 then objects else Uploaded(objects, p, names, blobs, k - 1)[p.Key(names[k - 1]) := blobs[names[k - 1]]]
  }

  function Sealed(m: Manifest, entries: seq<Entry>): Manifest {
    Manifest(m.result, entries, OverallHash(entries))
  }

  /** The store after a commit that got to its end. */
  function Committed(objects: Objects, p: Place, names: seq<string>, blobs: map<string, Bytes>, m: Manifest): Objects
    requires forall x | x in names :: x in blobs
  {
    Uploaded(objects, p, names, blobs, |names|)[p.Manifest() := Json(Sealed(m, EntriesOf(p, names, blobs)))]
  }

  ghost predicate NamesOf(names: seq<string>, blobs: map<string, Bytes>) {
    Sorted(names) && forall x :: x in names <==> x in blobs
  }

  /** computeManifestContentHash */
  method ContentHash(entries: seq<Entry>) returns (r: Digest)
    ensures r == OverallHash(entries)
    ensures DistinctKeys(entries) ==> forall t: seq<Entry> | InKeyOrder(entries, t) ::
              r.OfList? && |r.parts| == |t| && forall i | 0 <= i < |t| :: r.parts[i] == t[i].contentHash
  {
    var sorted: seq<Entry> := [];
    for i := 0 to |entries|
      invariant sorted == SortByKey(entries[..i])
    {
      assert entries[..i + 1][..i] == entries[..i];
      sorted := Artifacts.Insert(entries[i], sorted);
    }
    assert entries[..|entries|] == entries;
    var parts: seq<Digest> := [];
    for i := 0 to |sorted|
      invariant parts == Hashes(sorted)[..i]
    {
      parts := parts + [sorted[i].contentHash];
    }
    r := OfList(parts);
    if DistinctKeys(entries) {
      forall t: seq<Entry> | InKeyOrder(entries, t)
        ensures r.OfList? && |r.parts| == |t| && forall i | 0 <= i < |t| :: r.parts[i] == t[i].contentHash
      {
        HashIs(entries, t);
      }
    }
  }

  /** CommitArtifacts. It is stopped, by an error or a crash, when it has made `puts` uploads; with more than there
      are blobs it gets to its end. */
  method CommitArtifacts(store: Store, m: Manifest, p: Place, blobs: map<string, Bytes>, puts: nat)
    returns (r: Option<Manifest>, ghost names: seq<string>)
    modifies store
    ensures NamesOf(names, blobs)
    ensures puts <= |names| ==> r == None && store.objects == Uploaded(old(store.objects), p, names, blobs, puts)
    ensures puts > |names| ==>
              r == Some(Sealed(m, EntriesOf(p, names, blobs)))
              && store.objects == Committed(old(store.objects), p, names, blobs, m)
    ensures puts > |names| ==> r.Some? && Complete(store.objects, p, blobs, m, r.value)
  {
    var filenames := SortStrings(blobs.Keys);
    names := filenames;
    ghost var before := store.objects;
    var entries: seq<Entry> := [];
    for i := 0 to |filenames|
      invariant i <= puts && entries == EntriesOf(p, filenames, blobs)[..i]
      invariant store.objects == Uploaded(before, p, filenames, blobs, i)
    {
      if i == puts {
        return None, names;
      }
      var data := blobs[filenames[i]];
      store.Put(p.Key(filenames[i]), data);
      entries := entries + [Entry(p.Key(filenames[i]), OfData(data))];
    }
    assert entries == EntriesOf(p, filenames, blobs);
    var missing := false;
    for i := 0 to |entries|
      invariant !missing && store.objects == Uploaded(before, p, filenames, blobs, |filenames|)
    {
      UploadedAt(before, p, filenames, blobs, |filenames|, i);
      assert entries[i].key == p.Key(filenames[i]);
      missing := missing || entries[i].key !in store.objects;
    }
    if missing || puts == |filenames| {
      return None, names;
    }
    var contentHash := ContentHash(entries);
    var manifest := m.(artifacts := entries, contentHash := contentHash);
    store.Put(p.Manifest(), Json(manifest));
    CommittedIsComplete(before, p, filenames, blobs, m);
    return Some(manifest), names;
  }

  /** The manifest keeps what it was given, lists each blob once with its key and the digest of its bytes, and nothing
      else; the store holds it, and every blob but one that has the manifest's own name. */
  ghost predicate Complete(objects: Objects, p: Place, blobs: map<string, Bytes>, given: Manifest, m: Manifest) {
    && m.result == given.result && DistinctKeys(m.artifacts)
    && (forall e | e in m.artifacts :: exists x | x in blobs :: e == Entry(p.Key(x), OfData(blobs[x])))
    && (forall x | x in blobs :: Entry(p.Key(x), OfData(blobs[x])) in m.artifacts)
    && (forall x | x in blobs && x != MANIFEST :: p.Key(x) in objects && objects[p.Key(x)] == blobs[x])
    && p.Manifest() in objects && objects[p.Manifest()] == Json(m)
  }

  lemma CommittedIsComplete(objects: Objects, p: Place, names: seq<string>, blobs: map<string, Bytes>, m: Manifest)
    requires NamesOf(names, blobs)
    ensures Complete(Committed(objects, p, names, blobs, m), p, blobs, m, Sealed(m, EntriesOf(p, names, blobs)))
  {
    var entries, after := EntriesOf(p, names, blobs), Committed(objects, p, names, blobs, m);
    EntriesDistinct(p, names, blobs);
    forall e | e in entries ensures exists x | x in blobs :: e == Entry(p.Key(x), OfData(blobs[x])) {
      var i :| 0 <= i < |entries| && entries[i] == e;
      assert names[i] in blobs;
    }
    forall x | x in blobs ensures Entry(p.Key(x), OfData(blobs[x])) in entries {
      assert x in names;
      var i :| 0 <= i < |names| && names[i] == x;
      assert entries[i] == Entry(p.Key(x), OfData(blobs[x]));
    }
    forall x | x in blobs && x != MANIFEST ensures p.Key(x) in after && after[p.Key(x)] == blobs[x] {
      assert x in names;
      var i :| 0 <= i < |names| && names[i] == x;
      NotManifest(p, x);
      UploadedAt(objects, p, names, blobs, |names|, i);
    }
  }

  lemma {:induction false} UploadedAt(objects: Objects, p: Place, names: seq<string>, blobs: map<string, Bytes>, k: nat, i: nat)
    requires i < k <= |names| && Sorted(names) && forall x | x in names :: x in blobs
    ensures var after := Uploaded(objects, p, names, blobs, k);
            p.Key(names[i]) in after && after[p.Key(names[i])] == blobs[names[i]]
  {
    if i < k - 1 {
      UploadedAt(objects, p, names, blobs, k - 1, i);
      if p.Key(names[i]) == p.Key(names[k - 1]) {
        KeyInjective(p.ns, p.job, p.attempt, names[i], names[k - 1]);
      }
    }
  }

  lemma {:induction false} UploadedElse(objects: Objects, p: Place, names: seq<string>, blobs: map<string, Bytes>, k: nat, key: string)
    requires k <= |names| && forall x | x in names :: x in blobs
    requires forall i | 0 <= i < k :: p.Key(names[i]) != key
    ensures var after := Uploaded(objects, p, names, blobs, k);
            (key in after <==> key in objects) && (key in objects ==> after[key] == objects[key])
  {
    if k > 0 {
      UploadedElse(objects, p, names, blobs, k - 1, key);
    }
  }

  // ----- what validation accepts -----

  /** Every listed object is there and holds bytes with the listed digest, and the overall digest is right. */
  ghost predicate Consistent(objects: Objects, m: Manifest) {
    && (forall i | 0 <= i < |m.artifacts| ::
          m.artifacts[i].key in objects && OfData(objects[m.artifacts[i].key]) == m.artifacts[i].contentHash)
    && m.contentHash == OverallHash(m.artifacts)
  }

  ghost function Validated(objects: Objects, p: Place): Option<Manifest> {
    if p.Manifest() in objects && objects[p.Manifest()].Json? && Consistent(objects, objects[p.Manifest()].manifest)
    then Some(objects[p.Manifest()].manifest) else None
  }

  /** ValidateCommit. What it accepts pins down the bytes: a listed digest is the digest of what the store holds. */
  method ValidateCommit(store: Store, p: Place) returns (r: Option<Manifest>)
    ensures r == Validated(store.objects, p)
    ensures r.Some? ==> forall i, data | 0 <= i < |r.value.artifacts| && r.value.artifacts[i].contentHash == OfData(data) ::
                          r.value.artifacts[i].key in store.objects && store.objects[r.value.artifacts[i].key] == data
  {
    var mKey := p.Manifest();
    if mKey !in store.objects || !store.objects[mKey].Json? {
      return None;
    }
    var m := store.objects[mKey].manifest;
    for i := 0 to |m.artifacts|
      invariant forall j | 0 <= j < i ::
        m.artifacts[j].key in store.objects && OfData(store.objects[m.artifacts[j].key]) == m.artifacts[j].contentHash
    {
      var entry := m.artifacts[i];
      if entry.key !in store.objects {
        return None;
      }
      var actual := OfData(store.objects[entry.key]);
      if actual != entry.contentHash {
        return None;
      }
    }
    var expected := ContentHash(m.artifacts);
    if expected != m.contentHash {
      return None;
    }
    return Some(m);
  }

  // ----- the two together -----

  lemma NotManifest(p: Place, filename: string)
    requires filename != MANIFEST
    ensures p.Key(filename) != p.Manifest()
  {
    if p.Key(filename) == p.Manifest() {
      KeyInjective(p.ns, p.job, p.attempt, filename, MANIFEST);
    }
  }

  /** No manifest lists the digest of its own text. */
  lemma NoSelfDigest(m: Manifest, i: nat)
    requires i < |m.artifacts|
    ensures m.artifacts[i].contentHash != OfData(Json(m))
  {
    assert m.artifacts[i].contentHash < m.artifacts[i] < m;
  }

  /** A finished commit validates, and gives back the manifest it wrote, exactly when no blob is called manifest.json:
      such a blob is overwritten by the manifest, and its digest can then no longer match. */
  lemma CommitRoundTripIff(objects: Objects, p: Place, names: seq<string>, blobs: map<string, Bytes>, m: Manifest)
    requires NamesOf(names, blobs)
    ensures Validated(Committed(objects, p, names, blobs, m), p) == Some(Sealed(m, EntriesOf(p, names, blobs)))
        <==> MANIFEST !in blobs
    ensures MANIFEST in blobs ==> Validated(Committed(objects, p, names, blobs, m), p) == None
  {
    var after := Committed(objects, p, names, blobs, m);
    var sealed := Sealed(m, EntriesOf(p, names, blobs));
    if MANIFEST in blobs {
      assert MANIFEST in names;
      var i :| 0 <= i < |names| && names[i] == MANIFEST;
      assert sealed.artifacts[i].key == p.Manifest();
      NoSelfDigest(sealed, i);
    } else {
      forall i | 0 <= i < |sealed.artifacts|
        ensures sealed.artifacts[i].key in after && OfData(after[sealed.artifacts[i].key]) == sealed.artifacts[i].contentHash
      {
        assert names[i] in names;
        NotManifest(p, names[i]);
        UploadedAt(objects, p, names, blobs, |names|, i);
      }
    }
  }

  lemma EntriesDistinct(p: Place, names: seq<string>, blobs: map<string, Bytes>)
    requires NamesOf(names, blobs)
    ensures DistinctKeys(EntriesOf(p, names, blobs))
  {
    var entries := EntriesOf(p, names, blobs);
    SortedDistinct(names);
    forall i, j | 0 <= i < j < |entries| ensures entries[i].key != entries[j].key {
      if entries[i].key == entries[j].key {
        KeyInjective(p.ns, p.job, p.attempt, names[i], names[j]);
      }
    }
  }

  /** Whatever the store holds: a manifest that keeps the overall hash of a finished commit, but drops or adds entries, or
      lists other digests under the same keys, is rejected. */
  lemma TamperedIsRejected(store: Objects, p: Place, names: seq<string>, blobs: map<string, Bytes>, m: Manifest, forged: Manifest)
    requires NamesOf(names, blobs) && DistinctKeys(forged.artifacts)
    requires forged.contentHash == Sealed(m, EntriesOf(p, names, blobs)).contentHash
    requires Altered(EntriesOf(p, names, blobs), forged.artifacts)
    ensures Validated(store[p.Manifest() := Json(forged)], p) == None
  {
    EntriesDistinct(p, names, blobs);
    AlteredHash(EntriesOf(p, names, blobs), forged.artifacts);
  }

  /** A first commit of an attempt that stops after k uploads is accepted exactly when one of the blobs uploaded so far
      is called manifest.json and is itself a manifest that agrees with what has been uploaded. */
  lemma InterruptedAcceptedIff(objects: Objects, p: Place, names: seq<string>, blobs: map<string, Bytes>, k: nat)
    requires NamesOf(names, blobs) && k <= |names| && p.Manifest() !in objects
    ensures var after := Uploaded(objects, p, names, blobs, k);
            && (Validated(after, p).Some? <==>
                  MANIFEST in names[..k] && blobs[MANIFEST].Json? && Consistent(after, blobs[MANIFEST].manifest))
            && (Validated(after, p).Some? ==> Validated(after, p).value == blobs[MANIFEST].manifest)
  {
    if MANIFEST in names[..k] {
      var i :| 0 <= i < k && names[i] == MANIFEST;
      UploadedAt(objects, p, names, blobs, k, i);
    } else {
      forall i | 0 <= i < k ensures p.Key(names[i]) != p.Manifest() {
        assert names[..k][i] == names[i];
        NotManifest(p, names[i]);
      }
      UploadedElse(objects, p, names, blobs, k, p.Manifest());
    }
  }

  /** So without such a blob it is rejected. */
  lemma InterruptedIsRejected(objects: Objects, p: Place, names: seq<string>, blobs: map<string, Bytes>, k: nat)
    requires NamesOf(names, blobs) && k <= |names| && MANIFEST !in blobs && p.Manifest() !in objects
    ensures Validated(Uploaded(objects, p, names, blobs, k), p) == None
  {
    assert forall x | x in names[..k] :: x in names;
    InterruptedAcceptedIff(objects, p, names, blobs, k);
  }

  /** And with one it can be accepted: a manifest that lists nothing agrees with everything. */
  lemma InterruptedCanBeAccepted(p: Place, result: string)
    ensures var forged := Manifest(result, [], OverallHash([]));
            var blobs := map[MANIFEST := Json(forged)];
            NamesOf([MANIFEST], blobs) && Validated(Uploaded(map[], p, [MANIFEST], blobs, 1), p) == Some(forged)
  {
    var blobs := map[MANIFEST := Json(Manifest(result, [], OverallHash([])))];
    assert [MANIFEST][..1] == [MANIFEST];
    InterruptedAcceptedIff(map[], p, [MANIFEST], blobs, 1);
  }

  // ----- attempts do not disturb each other -----

  lemma {:induction false} SplitAtSlash(a: string, x: string, b: string, y: string)
    requires '/' !in a && '/' !in b && a + "/" + x == b + "/" + y
    ensures a == b && x == y
  {
    if a == "" || b == "" {
      assert (a + "/" + x)[|a|] == '/' && (b + "/" + y)[|b|] == '/';
      assert (a + "/" + x)[0] == (b + "/" + y)[0];
      assert a == b == "";
      assert ("/" + x)[1..] == x && ("/" + y)[1..] == y;
      assert a + "/" + x == "/" + x && b + "/" + y == "/" + y;
    } else {
      assert (a + "/" + x)[0] == a[0] && (b + "/" + y)[0] == b[0];
      assert (a + "/" + x)[1..] == a[1..] + "/" + x && (b + "/" + y)[1..] == b[1..] + "/" + y;
      SplitAtSlash(a[1..], x, b[1..], y);
      assert a == [a[0]] + a[1..] && b == [b[0]] + b[1..];
    }
  }

  lemma KeysApart(p: Place, q: Place, f: string, g: string)
    requires p.ns == q.ns && p.job == q.job && p.attempt != q.attempt && '/' !in p.attempt && '/' !in q.attempt
    ensures p.Key(f) != q.Key(g)
  {
    var prefix := p.ns + "/" + p.job + "/";
    assert p.Key(f) == prefix + (p.attempt + "/" + f) && q.Key(g) == prefix + (q.attempt + "/" + g);
    if p.Key(f) == q.Key(g) {
      assert p.Key(f)[|prefix|..] == p.attempt + "/" + f && q.Key(g)[|prefix|..] == q.attempt + "/" + g;
      SplitAtSlash(p.attempt, f, q.attempt, g);
    }
  }

  /** A commit for one attempt, stopped anywhere or finished, leaves the validation of another attempt of the job as
      it was, if that attempt's manifest lists objects of its own. */
  lemma OtherAttemptUndisturbed(objects: Objects, p: Place, q: Place, names: seq<string>, blobs: map<string, Bytes>,
                                m: Manifest, k: nat, own: seq<string>)
    requires NamesOf(names, blobs) && k <= |names|
    requires p.ns == q.ns && p.job == q.job && p.attempt != q.attempt && '/' !in p.attempt && '/' !in q.attempt
    requires q.Manifest() in objects && objects[q.Manifest()].Json?
    requires var listed := objects[q.Manifest()].manifest.artifacts;
             |own| == |listed| && forall i | 0 <= i < |own| :: listed[i].key == q.Key(own[i])
    ensures Validated(Uploaded(objects, p, names, blobs, k), q) == Validated(objects, q)
    ensures Validated(Committed(objects, p, names, blobs, m), q) == Validated(objects, q)
  {
    SameElsewhere(objects, p, q, names, blobs, m, k, MANIFEST);
    forall i | 0 <= i < |own| ensures SameAt(objects, p, names, blobs, m, k, q.Key(own[i])) {
      SameElsewhere(objects, p, q, names, blobs, m, k, own[i]);
    }
  }

  ghost predicate SameAt(objects: Objects, p: Place, names: seq<string>, blobs: map<string, Bytes>, m: Manifest, k: nat, key: string)
    requires k <= |names| && forall x | x in names :: x in blobs
  {
    var part, whole := Uploaded(objects, p, names, blobs, k), Committed(objects, p, names, blobs, m);
    && (key in part <==> key in objects) && (key in objects ==> part[key] == objects[key])
    && (key in whole <==> key in objects) && (key in objects ==> whole[key] == objects[key])
  }

  lemma SameElsewhere(objects: Objects, p: Place, q: Place, names: seq<string>, blobs: map<string, Bytes>, m: Manifest, k: nat, f: string)
    requires NamesOf(names, blobs) && k <= |names|
    requires p.ns == q.ns && p.job == q.job && p.attempt != q.attempt && '/' !in p.attempt && '/' !in q.attempt
    ensures SameAt(objects, p, names, blobs, m, k, q.Key(f))
  {
    forall i | 0 <= i < |names| ensures p.Key(names[i]) != q.Key(f) {
      KeysApart(p, q, names[i], f);
    }
    KeysApart(p, q, MANIFEST, f);
    UploadedElse(objects, p, names, blobs, k, q.Key(f));
    UploadedElse(objects, p, names, blobs, |names|, q.Key(f));
  }
}
