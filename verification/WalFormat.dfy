/** Names, records and lines of the write-ahead log (wal/record.go, wal/reader.go). */
module WalFormat {
  import opened Conditions
  import opened Text

  const MAX_FILE_SIZE: int := 10 * 1024 * 1024
  const MAX_LINE: int := 1024 * 1024

  // ----- file names -----

  /** "%04d" */
  function Pad4(n: nat): string {
    var s := Itoa(n);
    if |s| >= 4 then s else seq(4 - |s|, _ => '0') + s
  }

  function WalFileName(n: nat): string {
    "wal-" + Pad4(n) + ".log"
  }

  predicate IsWalName(name: string) {
    |name| >= 8 && name[..4] == "wal-" && name[|name| - 4..] == ".log"
  }

  function LeadingDigits(s: string, max: nat): (r: string)
    ensures AllDigits(r) && |r| <= max && r <= s
  {
    if max == 0 || s == "" || !IsDigit(s[0]) then "" else [s[0]] + LeadingDigits(s[1..], max - 1)
  }

  /** fmt.Sscanf(name, "wal-%04d.log", &n): the 4 is a width, so at most four digits are read. */
  function ParseFileNum(name: string): nat {
    if "wal-" <= name then Value(LeadingDigits(name[4..], 4)) else 0
  }

  function Pow10(k: nat): nat {
    if k == 0 then 1 else 10 * Pow10(k - 1)
  }

  lemma WalNameShape(n: nat)
    ensures IsWalName(WalFileName(n)) && WalFileName(n)[4..] == Pad4(n) + ".log" && |Pad4(n)| >= 4 && AllDigits(Pad4(n))
  {
    ItoaDigits(n);
  }

  lemma {:induction false} LeadingTake(s: string, rest: string, max: nat)
    requires AllDigits(s) && max <= |s|
    ensures LeadingDigits(s + rest, max) == s[..max]
  {
    if max > 0 {
      assert (s + rest)[1..] == s[1..] + rest;
      LeadingTake(s[1..], rest, max - 1);
      assert s[..max] == [s[0]] + s[1..][..max - 1];
    }
  }

  lemma {:induction false} ValueBound(s: string)
    requires AllDigits(s)
    ensures Value(s) < Pow10(|s|)
  {
    if s != "" {
      ValueBound(s[..|s| - 1]);
    }
  }

  lemma {:induction false} LeadingZeros(k: nat, s: string)
    requires AllDigits(s)
    ensures AllDigits(seq(k, _ => '0') + s) && Value(seq(k, _ => '0') + s) == Value(s)
    decreases |s|
  {
    var z := seq(k, _ => '0') + s;
    if s == "" {
      ZerosValue(k);
      assert z == seq(k, _ => '0');
    } else {
      assert z[..|z| - 1] == seq(k, _ => '0') + s[..|s| - 1];
      LeadingZeros(k, s[..|s| - 1]);
    }
  }

  lemma {:induction false} ZerosValue(k: nat)
    ensures Value(seq(k, _ => '0')) == 0
  {
    if k > 0 {
      assert seq(k, _ => '0')[..k - 1] == seq(k - 1, _ => '0');
      ZerosValue(k - 1);
    }
  }

  lemma {:induction false} ItoaShort(n: nat, k: nat)
    requires k >= 1 && n < Pow10(k)
    ensures |Itoa(n)| <= k
    decreases k
  {
    if n >= 10 {
      ItoaShort(n / 10, k - 1);
    }
  }

  lemma Pad4Value(n: nat)
    ensures AllDigits(Pad4(n)) && Value(Pad4(n)) == n
    ensures n < 10000 ==> |Pad4(n)| == 4
  {
    ItoaDigits(n);
    if |Itoa(n)| < 4 {
      LeadingZeros(4 - |Itoa(n)|, Itoa(n));
    }
    if n < 10000 {
      assert Pow10(4) == 10 * Pow10(3) == 100 * Pow10(2) == 1000 * Pow10(1) == 10000;
      ItoaShort(n, 4);
    }
  }

  lemma {:induction false} ValueInjective(a: string, b: string)
    requires |a| == |b| && AllDigits(a) && AllDigits(b) && Value(a) == Value(b)
    ensures a == b
  {
    if a != "" {
      ValueInjective(a[..|a| - 1], b[..|b| - 1]);
    }
  }

  /** Numerals of equal length are ordered as their values. */
  lemma {:induction false} LessByValue(a: string, b: string, x: string, y: string)
    requires |a| == |b| && AllDigits(a) && AllDigits(b) && Value(a) < Value(b)
    ensures Less(a + x, b + y)
  {
    var n := |a| - 1;
    var p, q := a[..n], b[..n];
    assert a + x == p + ([a[n]] + x) && b + y == q + ([b[n]] + y);
    if Value(p) < Value(q) {
      LessByValue(p, q, [a[n]] + x, [b[n]] + y);
    } else {
      ValueInjective(p, q);
      LessAt(p, [a[n]] + x, [b[n]] + y);
    }
  }

  /** Below 10,000 the order of names is the order of numbers. */
  lemma NamesInOrder(m: nat, n: nat)
    requires m < n < 10000
    ensures Less(WalFileName(m), WalFileName(n))
  {
    Pad4Value(m);
    Pad4Value(n);
    var a, b := "wal-" + (Pad4(m) + ".log"), "wal-" + (Pad4(n) + ".log");
    assert WalFileName(m) == a && WalFileName(n) == b;
    LessByValue(Pad4(m), Pad4(n), ".log", ".log");
    PrefixLess("wal-", Pad4(m) + ".log", Pad4(n) + ".log");
  }

  lemma {:induction false} PrefixLess(p: string, a: string, b: string)
    requires Less(a, b)
    ensures Less(p + a, p + b)
  {
    if p != "" {
      PrefixLess(p[1..], a, b);
      assert (p + a)[1..] == p[1..] + a && (p + b)[1..] == p[1..] + b;
    } else {
      assert p + a == a && p + b == b;
    }
  }

  /** The number a log file's name stands for, however many digits it has. */
  ghost function NumOf(name: string): nat {
    if IsWalName(name) && AllDigits(name[4..|name| - 4]) then Value(name[4..|name| - 4]) else 0
  }

  lemma NumOfName(n: nat)
    ensures NumOf(WalFileName(n)) == n
  {
    WalNameShape(n);
    Pad4Value(n);
    assert WalFileName(n)[4..|WalFileName(n)| - 4] == Pad4(n);
  }

  /** parseFileNum inverts walFileName exactly for the first 10,000 numbers. */
  lemma ParseInvertsName(n: nat)
    ensures ParseFileNum(WalFileName(n)) == n <==> n < 10000
  {
    WalNameShape(n);
    Pad4Value(n);
    LeadingTake(Pad4(n), ".log", 4);
    var read := Pad4(n)[..4];
    if n < 10000 {
      assert read == Pad4(n);
    } else {
      ValueBound(read);
      assert Pow10(4) == 10 * Pow10(3) == 100 * Pow10(2) == 1000 * Pow10(1) == 10000;
    }
  }

  /** Whatever the number of digits, the number read is between 1 and the number written, and below 10,000. */
  lemma ParsedBounds(n: nat)
    requires n >= 1
    ensures 1 <= ParseFileNum(WalFileName(n)) <= n && ParseFileNum(WalFileName(n)) < 10000
  {
    WalNameShape(n);
    Pad4Value(n);
    ParseInvertsName(n);
    LeadingTake(Pad4(n), ".log", 4);
    var read := Pad4(n)[..4];
    ValueBound(read);
    assert Pow10(4) == 10 * Pow10(3) == 100 * Pow10(2) == 1000 * Pow10(1) == 10000;
    if n >= 10000 {
      ItoaLong(n);
      ItoaNoZero(n, 4);
    }
  }

  lemma ItoaLong(n: nat)
    requires n >= 10000
    ensures |Itoa(n)| > 4
  {
    ItoaDigits(n);
    ValueBound(Itoa(n));
    assert Pow10(1) == 10 && Pow10(2) == 10 * Pow10(1) && Pow10(3) == 10 * Pow10(2) && Pow10(4) == 10 * Pow10(3);
  }

  /** A printed number does not begin with a zero, so an initial part of it is not zero. */
  lemma {:induction false} ItoaNoZero(n: nat, k: nat)
    requires n >= 1 && 1 <= k <= |Itoa(n)|
    ensures AllDigits(Itoa(n)[..k]) && Value(Itoa(n)[..k]) >= 1
  {
    ItoaDigits(n);
    if k < |Itoa(n)| {
      assert Itoa(n)[..k] == Itoa(n / 10)[..k];
      ItoaNoZero(n / 10, k);
    } else {
      assert Itoa(n)[..k] == Itoa(n);
    }
  }

  /** With file 10,000 the order breaks: its name sorts before that of file 9,999. */
  lemma NamesOutOfOrder()
    ensures Less(WalFileName(10000), WalFileName(9999))
  {
    assert Itoa(1) == "1" && Itoa(9) == "9";
    assert Itoa(10) == "10" && Itoa(100) == "100" && Itoa(1000) == "1000" && Itoa(10000) == "10000";
    assert Itoa(99) == "99" && Itoa(999) == "999" && Itoa(9999) == "9999";
    assert WalFileName(10000) == "wal-" + "10000.log" && WalFileName(9999) == "wal-" + "9999.log";
    LessAt("wal-", "10000.log", "9999.log");
  }

  // ----- records and lines -----

  datatype RecType = StepBegin | StepEnd | StepRetry | StepTimeout | JobCancelled

  datatype Record = Record(seqNo: int, rtype: RecType, stepId: string, ts: int, exit: Option<int>,
                           outputRef: string, attempt: int, reason: string)

  /** JSON, of which only this matters: decoding inverts encoding, and an encoded record is one non-empty line. */
  datatype Codec = Codec(enc: Record -> string, dec: string -> Option<Record>) {
    ghost predicate Faithful() {
      forall r :: dec(enc(r)) == Some(r) && enc(r) != "" && '\n' !in enc(r) && '\r' !in enc(r)
    }
  }

  datatype ReadResult = Read(recs: seq<Record>) | Corrupt | TooLong

  /** The text of a file that holds these records. */
  ghost function Contents(c: Codec, recs: seq<Record>): string {
    if recs == [] then "" else Contents(c, recs[..|recs| - 1]) + c.enc(recs[|recs| - 1]) + "\n"
  }

  function LineLength(text: string): (n: nat)
    ensures n <= |text| && '\n' !in text[..n] && (n < |text| ==> text[n] == '\n')
  {
    if text == "" || text[0] == '\n' then 0 else
      var n := 1 + LineLength(text[1..]);
      assert text[..n] == [text[0]] + text[1..][..n - 1];
      n
  }

  function DropCR(line: string): string {
    if line != "" && line[|line| - 1] == '\r' then line[..|line| - 1] else line
  }

  function AfterLine(text: string): (rest: string)
    ensures text != "" ==> |rest| < |text|
  {
    if LineLength(text) < |text| then text[LineLength(text) + 1..] else ""
  }

  function Prepend(recs: seq<Record>, r: ReadResult): ReadResult {
    if r.Read? then Read(recs + r.recs) else r
  }

  /** Read lines one after the other; stop at one that is too long or does not decode; skip empty ones. */
  function Parse(c: Codec, text: string): ReadResult
    decreases |text|
  {
    if text == "" then Read([])
    else if LineLength(text) >= MAX_LINE then TooLong
    else
      var line := DropCR(text[..LineLength(text)]);
      if line == "" then Parse(c, AfterLine(text))
      else if c.dec(line).None? then Corrupt
      else Prepend([c.dec(line).value], Parse(c, AfterLine(text)))
  }

  lemma {:induction false} LineLengthOf(line: string, rest: string)
    requires '\n' !in line
    ensures LineLength(line + "\n" + rest) == |line|
  {
    var text := line + "\n" + rest;
    if line != "" {
      assert text[0] == line[0] && text[1..] == line[1..] + "\n" + rest;
      LineLengthOf(line[1..], rest);
    }
  }

  ghost predicate Short(c: Codec, recs: seq<Record>) {
    forall r | r in recs :: |c.enc(r)| < MAX_LINE
  }

  lemma {:induction false} ContentsSplit(c: Codec, xs: seq<Record>, ys: seq<Record>)
    ensures Contents(c, xs + ys) == Contents(c, xs) + Contents(c, ys)
    decreases |ys|
  {
    if ys == [] {
      assert xs + ys == xs;
    } else {
      assert (xs + ys)[..|xs + ys| - 1] == xs + ys[..|ys| - 1];
      ContentsSplit(c, xs, ys[..|ys| - 1]);
    }
  }

  lemma ContentsOne(c: Codec, r: Record)
    ensures Contents(c, [r]) == c.enc(r) + "\n"
  {
    assert [r][..0] == [];
    assert Contents(c, []) == "";
  }

  /** Reading a file back gives its records, provided every line is under the reader's limit. */
  lemma {:induction false} ParseContents(c: Codec, recs: seq<Record>)
    requires c.Faithful()
    ensures Parse(c, Contents(c, recs)) == if Short(c, recs) then Read(recs) else TooLong
  {
    if recs != [] {
      var r, rest := recs[0], recs[1..];
      assert recs == [r] + rest;
      ContentsSplit(c, [r], rest);
      ContentsOne(c, r);
      var text := Contents(c, recs);
      var line := c.enc(r);
      assert text == line + "\n" + Contents(c, rest);
      LineLengthOf(line, Contents(c, rest));
      assert text[..|line|] == line && AfterLine(text) == Contents(c, rest);
      assert DropCR(line) == line;
      ParseContents(c, rest);
    }
  }
}
