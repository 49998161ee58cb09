/** Committing an attempt's artifacts to an object store, manifest last, and validating a commit
    (internal/artifact/commit.go, internal/artifact/keys.go). */
module Artifacts {
  import opened Text

  /** The bytes of an object: the JSON text of a manifest, or a text that is no manifest. */
  datatype Bytes = Text(text: string) | Json(manifest: Manifest)

  /** SHA-256, of which only this matters: a digest determines what was hashed, a list of digests being joined by
      line breaks. Digests are built from the data, so no data contains its own digest. */
  datatype Digest = OfData(data: Bytes) | OfList(parts: seq<Digest>)

  datatype Entry = Entry(key: string, contentHash: Digest)

  datatype Manifest = Manifest(result: string, artifacts: seq<Entry>, contentHash: Digest)

  type Objects = map<string, Bytes>

  // ----- keys -----

  function ArtifactKey(ns: string, job: string, attempt: string, filename: string): string {
    ns + "/" + job + "/" + attempt + "/" + filename
  }

  const MANIFEST := "manifest.json"

  function ManifestKey(ns: string, job: string, attempt: string): string {
    ArtifactKey(ns, job, attempt, MANIFEST)
  }

  lemma KeyInjective(ns: string, job: string, attempt: string, a: string, b: string)
    requires ArtifactKey(ns, job, attempt, a) == ArtifactKey(ns, job, attempt, b)
    ensures a == b
  {
    var prefix := ns + "/" + job + "/" + attempt + "/";
    assert ArtifactKey(ns, job, attempt, a)[|prefix|..] == a;
    assert ArtifactKey(ns, job, attempt, b)[|prefix|..] == b;
  }

  // ----- sorting by key -----

  function Insert(e: Entry, s: seq<Entry>): seq<Entry> {
    if s == [] || Less(e.key, s[0].key) then [e] + s else [s[0]] + Insert(e, s[1..])
  }

  /** sort.Slice by key; entries with the same key keep their order. */
  function SortByKey(s: seq<Entry>): seq<Entry> {
    if s == [] then [] else Insert(s[|s| - 1], SortByKey(s[..|s| - 1]))
  }

  function Hashes(s: seq<Entry>): seq<Digest> {
    seq(|s|, i requires 0 <= i < |s| => s[i].contentHash)
  }

  function Keys(s: seq<Entry>): seq<string> {
    seq(|s|, i requires 0 <= i < |s| => s[i].key)
  }

  /** computeManifestContentHash */
  function OverallHash(entries: seq<Entry>): Digest {
    OfList(Hashes(SortByKey(entries)))
  }

  predicate DistinctKeys(s: seq<Entry>) {
    forall i, j | 0 <= i < j < |s| :: s[i].key != s[j].key
  }

  lemma {:induction false} InsertIn(e: Entry, s: seq<Entry>)
    ensures forall x :: x in Insert(e, s) <==> x == e || x in s
  {
    if s != [] && !Less(e.key, s[0].key) {
      InsertIn(e, s[1..]);
      assert s == [s[0]] + s[1..];
    }
  }

  lemma {:induction false} SortIn(s: seq<Entry>)
    ensures forall x :: x in SortByKey(s) <==> x in s
  {
    if s != [] {
      var n := |s| - 1;
      SortIn(s[..n]);
      InsertIn(s[n], SortByKey(s[..n]));
      assert s == s[..n] + [s[n]];
    }
  }

  lemma {:induction false} InsertSorted(e: Entry, s: seq<Entry>)
    requires Sorted(Keys(s)) && forall x | x in s :: x.key != e.key
    ensures Sorted(Keys(Insert(e, s)))
  {
    if s == [] {
    } else if Less(e.key, s[0].key) {
      forall i | 0 <= i < |s| ensures Less(e.key, s[i].key) {
        if i > 0 {
          assert Less(Keys(s)[0], Keys(s)[i]);
          LessTransitive(e.key, s[0].key, s[i].key);
        }
      }
      SortedCons(e.key, Keys(s));
      assert Keys([e] + s) == [e.key] + Keys(s);
    } else {
      assert s[0] in s;
      LessTotal(e.key, s[0].key);
      var rest := Insert(e, s[1..]);
      assert Keys(s[1..]) == Keys(s)[1..];
      InsertSorted(e, s[1..]);
      InsertIn(e, s[1..]);
      forall i | 0 <= i < |rest| ensures Less(s[0].key, rest[i].key) {
        assert rest[i] in rest;
        if rest[i] != e {
          var k :| 0 <= k < |s[1..]| && s[1..][k] == rest[i];
          assert Less(Keys(s)[0], Keys(s)[k + 1]);
        }
      }
      SortedCons(s[0].key, Keys(rest));
      assert Keys([s[0]] + rest) == [s[0].key] + Keys(rest);
    }
  }

  lemma {:induction false} SortSorted(s: seq<Entry>)
    requires DistinctKeys(s)
    ensures Sorted(Keys(SortByKey(s)))
  {
    if s != [] {
      var n := |s| - 1;
      SortSorted(s[..n]);
      SortIn(s[..n]);
      InsertSorted(s[n], SortByKey(s[..n]));
    }
  }

  lemma SortedListsEqual(s: seq<Entry>, t: seq<Entry>)
    requires Sorted(Keys(s)) && Sorted(Keys(t)) && forall x :: x in s <==> x in t
    ensures s == t
  {
    forall k ensures k in Keys(s) <==> k in Keys(t) {
      if k in Keys(s) {
        var i :| 0 <= i < |s| && s[i].key == k;
        assert s[i] in t;
        var j :| 0 <= j < |t| && t[j] == s[i];
        assert Keys(t)[j] == k;
      }
      if k in Keys(t) {
        var i :| 0 <= i < |t| && t[i].key == k;
        assert t[i] in s;
        var j :| 0 <= j < |s| && s[j] == t[i];
        assert Keys(s)[j] == k;
      }
    }
    SortedUnique(Keys(s), Keys(t));
    SortedDistinct(Keys(t));
    forall i | 0 <= i < |s| ensures s[i] == t[i] {
      assert s[i] in t;
      var j :| 0 <= j < |t| && t[j] == s[i];
      assert Keys(t)[j] == Keys(s)[i] == Keys(t)[i];
    }
  }

  /** The overall hash does not depend on the order of entries with distinct keys. */
  lemma HashIgnoresOrder(s: seq<Entry>, t: seq<Entry>)
    requires DistinctKeys(s) && DistinctKeys(t) && forall x :: x in s <==> x in t
    ensures OverallHash(s) == OverallHash(t)
  {
    SortSorted(s);
    SortSorted(t);
    SortIn(s);
    SortIn(t);
    SortedListsEqual(SortByKey(s), SortByKey(t));
  }

  /** The entries of s in the order of their keys. */
  ghost predicate InKeyOrder(s: seq<Entry>, t: seq<Entry>) {
    Sorted(Keys(t)) && forall x :: x in s <==> x in t
  }

  ghost predicate SameDigests(s: seq<Entry>, t: seq<Entry>) {
    |s| == |t| && forall i | 0 <= i < |s| :: s[i].contentHash == t[i].contentHash
  }

  /** For distinct keys the overall hash is the digest of the content hashes, one for each entry, in key order. */
  lemma HashIs(s: seq<Entry>, t: seq<Entry>)
    requires DistinctKeys(s) && InKeyOrder(s, t)
    ensures var h := OverallHash(s);
            h.OfList? && |h.parts| == |t| && forall i | 0 <= i < |t| :: h.parts[i] == t[i].contentHash
  {
    SortSorted(s);
    SortIn(s);
    SortedListsEqual(SortByKey(s), t);
  }

  /** So two lists have the same overall hash if and only if their content hashes in key order are the same. */
  lemma SameHashIff(s: seq<Entry>, s': seq<Entry>, t: seq<Entry>, t': seq<Entry>)
    requires DistinctKeys(s) && DistinctKeys(t) && InKeyOrder(s, s') && InKeyOrder(t, t')
    ensures OverallHash(s) == OverallHash(t) <==> SameDigests(s', t')
  {
    HashIs(s, s');
    HashIs(t, t');
    var g, h := OverallHash(s), OverallHash(t);
    if SameDigests(s', t') {
      assert g.parts == h.parts;
    }
  }

  lemma {:induction false} InsertLength(e: Entry, s: seq<Entry>)
    ensures |Insert(e, s)| == |s| + 1
  {
    if s != [] && !Less(e.key, s[0].key) {
      InsertLength(e, s[1..]);
    }
  }

  lemma {:induction false} SortLength(s: seq<Entry>)
    ensures |SortByKey(s)| == |s|
  {
    if s != [] {
      SortLength(s[..|s| - 1]);
      InsertLength(s[|s| - 1], SortByKey(s[..|s| - 1]));
    }
  }

  /** The same keys with other digests, or another number of entries. */
  ghost predicate Altered(s: seq<Entry>, t: seq<Entry>) {
    |s| != |t| || ((forall k :: k in Keys(s) <==> k in Keys(t)) && exists x :: x in s && x !in t)
  }

  lemma AlteredHash(s: seq<Entry>, t: seq<Entry>)
    requires DistinctKeys(s) && DistinctKeys(t) && Altered(s, t)
    ensures OverallHash(s) != OverallHash(t)
  {
    var s', t' := SortByKey(s), SortByKey(t);
    SortSorted(s);
    SortSorted(t);
    SortIn(s);
    SortIn(t);
    SortLength(s);
    SortLength(t);
    SameHashIff(s, s', t, t');
    if (forall k :: k in Keys(s) <==> k in Keys(t)) && SameDigests(s', t') {
      SameEntries(s, s', t, t');
    }
  }

  lemma SameEntries(s: seq<Entry>, s': seq<Entry>, t: seq<Entry>, t': seq<Entry>)
    requires InKeyOrder(s, s') && InKeyOrder(t, t') && SameDigests(s', t') && forall k :: k in Keys(s) <==> k in Keys(t)
    ensures forall x :: x in s <==> x in t
  {
    forall k ensures k in Keys(s') <==> k in Keys(t') {
      SameKeys(s, s', k);
      SameKeys(t, t', k);
    }
    SortedUnique(Keys(s'), Keys(t'));
    forall i | 0 <= i < |s'| ensures s'[i] == t'[i] {
      assert Keys(s')[i] == Keys(t')[i];
    }
    assert s' == t';
  }

  lemma SameKeys(s: seq<Entry>, t: seq<Entry>, k: string)
    requires forall x :: x in s <==> x in t
    ensures k in Keys(s) <==> k in Keys(t)
  {
    if k in Keys(s) {
      var i :| 0 <= i < |s| && s[i].key == k;
      assert s[i] in t;
      var j :| 0 <= j < |t| && t[j] == s[i];
      assert Keys(t)[j] == k;
    }
    if k in Keys(t) {
      var i :| 0 <= i < |t| && t[i].key == k;
      assert t[i] in s;
      var j :| 0 <= j < |s| && s[j] == t[i];
      assert Keys(s)[j] == k;
    }
  }
}
