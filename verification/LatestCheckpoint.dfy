/** Which uploaded checkpoint is the latest (internal/runner/checkpoint.go:56-127): keys are parsed back into the
    numbers they were printed from, and compared as numbers. */
module LatestCheckpoint {
  import opened Conditions
  import opened Text

  function Prefix(ns: string, job: string): string {
    ns + "/" + job + "/checkpoints/"
  }

  /** CheckpointKey for the file name CreateCheckpoint chooses. */
  function Key(ns: string, job: string, ordinal: int, n: int): string {
    ns + "/" + job + "/checkpoints/" + Print(ordinal) + "/" + ("ckpt-" + Print(n) + ".tar.gz")
  }

  predicate IsInt32(i: int) { -0x8000_0000 <= i < 0x8000_0000 }

  predicate IsInt64(i: int) { -0x8000_0000_0000_0000 <= i < 0x8000_0000_0000_0000 }

  // ----- parsing a key -----

  function IndexOf(s: string, c: char): (i: nat)
    ensures i <= |s| && c !in s[..i] && (i < |s| ==> s[i] == c)
  {
    if s == "" || s[0] == c then 0
    else
      var i := 1 + IndexOf(s[1..], c);
      assert s[..i] == [s[0]] + s[1..][..i - 1];
      i
  }

  function TrimPrefix(s: string, p: string): string {
    if p <= s then s[|p|..] else s
  }

  function TrimSuffix(s: string, p: string): string {
    if |p| <= |s| && s[|s| - |p|..] == p then s[..|s| - |p|] else s
  }

  datatype Numbers = Numbers(ordinal: int, n: int)

  function Parse(prefix: string, key: string): Option<Numbers> {
    var rest := TrimPrefix(key, prefix);
    var slash := IndexOf(rest, '/');
    if slash == |rest| then None
    else
      var ordinal := Atoi(rest[..slash]);
      var n := Atoi(TrimSuffix(TrimPrefix(rest[slash + 1..], "ckpt-"), ".tar.gz"));
      if ordinal.None? || !IsInt32(ordinal.value) || n.None? || !IsInt64(n.value) then None
      else Some(Numbers(ordinal.value, n.value))
  }

  lemma {:induction false} IndexAfter(a: string, c: char, b: string)
    requires c !in a
    ensures IndexOf(a + [c] + b, c) == |a|
  {
    var s := a + [c] + b;
    if a != "" {
      assert s[0] == a[0] && s[1..] == a[1..] + [c] + b;
      IndexAfter(a[1..], c, b);
    }
  }

  lemma PrintHasNoSlash(i: int)
    ensures '/' !in Print(i)
  {
    ItoaDigits(if i < 0 then -i else i);
  }

  /** The parser gives back exactly the numbers a key was printed from, if they fit in 32 and 64 bits, and skips the key
      otherwise. */
  lemma ParseInvertsKey(ns: string, job: string, ordinal: int, n: int)
    ensures Parse(Prefix(ns, job), Key(ns, job, ordinal, n))
         == if -0x8000_0000 <= ordinal < 0x8000_0000 && -0x8000_0000_0000_0000 <= n < 0x8000_0000_0000_0000
            then Some(Numbers(ordinal, n)) else None
  {
    hide Print, Atoi, TrimPrefix, TrimSuffix, IndexOf;
    var trimmed := Print(n) + ".tar.gz";
    var file := "ckpt-" + trimmed;
    assert "ckpt-" + Print(n) + ".tar.gz" == file;
    var rest := Print(ordinal) + "/" + file;
    assert Key(ns, job, ordinal, n) == Prefix(ns, job) + rest;
    Trimmed(Prefix(ns, job), rest);
    PrintHasNoSlash(ordinal);
    IndexAfter(Print(ordinal), '/', file);
    assert rest[..|Print(ordinal)|] == Print(ordinal) && rest[|Print(ordinal)| + 1..] == file;
    AtoiPrint(ordinal);
    Trimmed("ckpt-", trimmed);
    Trimmed(Print(n), ".tar.gz");
    AtoiPrint(n);
  }

  /** Of a key under the prefix that has no part for the ordinal, or one that is no number, nothing is read. */
  lemma JunkIsSkipped(ns: string, job: string, ordinal: string, rest: string)
    requires '/' !in ordinal
    ensures Parse(Prefix(ns, job), Prefix(ns, job) + ordinal) == None
    ensures Atoi(ordinal) == None ==> Parse(Prefix(ns, job), Prefix(ns, job) + (ordinal + "/" + rest)) == None
  {
    hide Atoi, TrimPrefix, TrimSuffix;
    Trimmed(Prefix(ns, job), ordinal);
    assert IndexOf(ordinal, '/') == |ordinal|;
    Trimmed(Prefix(ns, job), ordinal + "/" + rest);
    IndexAfter(ordinal, '/', rest);
    assert (ordinal + "/" + rest)[..|ordinal|] == ordinal;
  }

  lemma Trimmed(a: string, b: string)
    ensures TrimPrefix(a + b, a) == b && TrimSuffix(a + b, b) == a
  {
    assert (a + b)[|a|..] == b && (a + b)[..|a|] == a;
    assert a <= a + b;
  }

  // ----- choosing the greatest -----

  datatype Entry = Entry(numbers: Numbers, key: string)

  predicate AtMost(a: Numbers, b: Numbers) {
    a.ordinal < b.ordinal || (a.ordinal == b.ordinal && a.n <= b.n)
  }

  /** One of these keys has these numbers, and no key that parses has greater ones. */
  ghost predicate IsLatest(prefix: string, keys: seq<string>, latest: Numbers, key: string) {
    && key in keys && Parse(prefix, key) == Some(latest)
    && forall k | k in keys && Parse(prefix, k).Some? :: AtMost(Parse(prefix, k).value, latest)
  }

  method Entries(prefix: string, keys: seq<string>) returns (entries: seq<Entry>)
    ensures forall e :: e in entries <==> e.key in keys && Parse(prefix, e.key) == Some(e.numbers)
  {
    entries := [];
    for i := 0 to |keys|
      invariant forall e :: e in entries <==> e.key in keys[..i] && Parse(prefix, e.key) == Some(e.numbers)
    {
      assert keys[..i + 1] == keys[..i] + [keys[i]];
      var p := Parse(prefix, keys[i]);
      if p.Some? {
        entries := entries + [Entry(p.value, keys[i])];
      }
    }
    assert keys[..|keys|] == keys;
  }

  ghost predicate Descending(s: seq<Entry>) {
    forall i, j | 0 <= i < j < |s| :: AtMost(s[j].numbers, s[i].numbers)
  }

  method SortDescending(entries: seq<Entry>) returns (s: seq<Entry>)
    ensures Descending(s) && multiset(s) == multiset(entries)
  {
    s := [];
    for i := 0 to |entries|
      invariant Descending(s) && multiset(s) == multiset(entries[..i])
    {
      assert entries[..i + 1] == entries[..i] + [entries[i]];
      s := InsertEntry(s, entries[i]);
    }
    assert entries[..|entries|] == entries;
  }

  method InsertEntry(s: seq<Entry>, e: Entry) returns (r: seq<Entry>)
    requires Descending(s)
    ensures Descending(r) && multiset(r) == multiset(s) + multiset{e}
  {
    var i := 0;
    while i < |s| && AtMost(e.numbers, s[i].numbers)
      invariant 0 <= i <= |s|
      invariant forall k | 0 <= k < i :: AtMost(e.numbers, s[k].numbers)
    {
      i := i + 1;
    }
    assert s == s[..i] + s[i..];
    r := s[..i] + [e] + s[i..];
    Inserted(s, i, e);
  }

  lemma Inserted(s: seq<Entry>, i: nat, e: Entry)
    requires Descending(s) && i <= |s| && (i < |s| ==> AtMost(s[i].numbers, e.numbers))
    requires forall k | 0 <= k < i :: AtMost(e.numbers, s[k].numbers)
    ensures Descending(s[..i] + [e] + s[i..])
  {
    var r := s[..i] + [e] + s[i..];
    forall j, k | 0 <= j < k < |r| ensures AtMost(r[k].numbers, r[j].numbers) {
      if j == i {
        assert r[k] == s[k - 1] && AtMost(s[k - 1].numbers, s[i].numbers);
      } else if k != i {
        assert r[j] == s[if j < i then j else j - 1] && r[k] == s[if k < i then k else k - 1];
      }
    }
  }

  /** LatestCheckpoint on the keys the store lists under the job's prefix. */
  method Latest(ns: string, job: string, keys: seq<string>) returns (ordinal: int, key: string)
    ensures (ordinal == -1 && key == "" && forall k | k in keys :: Parse(Prefix(ns, job), k).None?)
         || exists n :: IsLatest(Prefix(ns, job), keys, Numbers(ordinal, n), key)
  {
    var prefix := Prefix(ns, job);
    var entries := Entries(prefix, keys);
    assert forall k | k in keys && Parse(prefix, k).Some? :: Entry(Parse(prefix, k).value, k) in entries;
    if |entries| == 0 {
      return -1, "";
    }
    var s := SortDescending(entries);
    assert s != [] by { assert |multiset(s)| == |s| && |multiset(entries)| == |entries|; }
    assert s[0] in multiset(s) && s[0] in entries;
    forall k | k in keys && Parse(prefix, k).Some? ensures AtMost(Parse(prefix, k).value, s[0].numbers) {
      assert Entry(Parse(prefix, k).value, k) in multiset(entries);
      var i :| 0 <= i < |s| && s[i] == Entry(Parse(prefix, k).value, k);
    }
    assert IsLatest(prefix, keys, Numbers(s[0].numbers.ordinal, s[0].numbers.n), s[0].key);
    return s[0].numbers.ordinal, s[0].key;
  }

  /** After any calls of CreateCheckpoint, the latest key is that of the greatest (ordinal, number) pair, in numeric
      order, and the reported ordinal is the one of that pair. */
  lemma LatestIsGreatest(ns: string, job: string, made: seq<Numbers>, keys: seq<string>)
    requires forall c | c in made :: IsInt32(c.ordinal) && IsInt64(c.n)
    requires forall k :: k in keys <==> exists c | c in made :: k == Key(ns, job, c.ordinal, c.n)
    ensures forall c | c in made ::
              Key(ns, job, c.ordinal, c.n) in keys && Parse(Prefix(ns, job), Key(ns, job, c.ordinal, c.n)) == Some(c)
    ensures forall latest, key | IsLatest(Prefix(ns, job), keys, latest, key) ::
              && latest in made && key == Key(ns, job, latest.ordinal, latest.n)
              && forall c | c in made :: c.ordinal <= latest.ordinal && (c.ordinal == latest.ordinal ==> c.n <= latest.n)
  {
    forall c | c in made
      ensures Key(ns, job, c.ordinal, c.n) in keys && Parse(Prefix(ns, job), Key(ns, job, c.ordinal, c.n)) == Some(c)
    {
      ParseInvertsKey(ns, job, c.ordinal, c.n);
    }
    forall latest, key | IsLatest(Prefix(ns, job), keys, latest, key)
      ensures latest in made && key == Key(ns, job, latest.ordinal, latest.n) && forall c | c in made :: AtMost(c, latest)
    {
      var c :| c in made && key == Key(ns, job, c.ordinal, c.n);
    }
  }

  /** The order of the keys as strings would choose otherwise: checkpoint 10 sorts before checkpoint 9. */
  lemma KeysSortDifferently(ns: string, job: string, ordinal: int)
    ensures Less(Key(ns, job, ordinal, 10), Key(ns, job, ordinal, 9))
    ensures AtMost(Numbers(ordinal, 9), Numbers(ordinal, 10))
  {
    var p := ns + "/" + job + "/checkpoints/" + Print(ordinal) + "/" + "ckpt-";
    assert Itoa(1) == "1" && Itoa(10) == "10" && Itoa(9) == "9";
    assert Key(ns, job, ordinal, 10) == p + "10.tar.gz" && Key(ns, job, ordinal, 9) == p + "9.tar.gz";
    LessAt(p, "10.tar.gz", "9.tar.gz");
  }
}
