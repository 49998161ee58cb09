/** Decimal numerals and string order: how fmt.Sprintf("%d") and strconv print and parse numbers, and how
    sort.Strings orders names. */
module Text {
  import opened Conditions

  // ----- numerals -----

  function Digit(n: nat): char
    requires n < 10
  {
    ['0', '1', '2', '3', '4', '5', '6', '7', '8', '9'][n]
  }

  predicate IsDigit(c: char) { '0' <= c <= '9' }

  function DigitValue(c: char): (v: nat)
    requires IsDigit(c)
    ensures v < 10
  {
    c as int - '0' as int
  }

  function Itoa(n: nat): (s: string) {
    if n < 10 then [Digit(n)] else Itoa(n / 10) + [Digit(n % 10)]
  }

  predicate AllDigits(s: string) {
    forall i | 0 <= i < |s| :: IsDigit(s[i])
  }

  /** The number a digit string denotes. */
  function Value(s: string): nat
    requires AllDigits(s)
  {
    if s == "" then 0 else 10 * Value(s[..|s| - 1]) + DigitValue(s[|s| - 1])
  }

  /** strconv.Atoi: an optional sign and at least one digit. */
  function Atoi(s: string): Option<int> {
    if s != "" && AllDigits(s) then Some(Value(s))
    else if |s| > 1 && AllDigits(s[1..]) && s[0] == '-' then (var v: int := Value(s[1..]); Some(-v))
    else if |s| > 1 && AllDigits(s[1..]) && s[0] == '+' then Some(Value(s[1..]))
    else None
  }

  lemma {:induction false} ItoaDigits(n: nat)
    ensures Itoa(n) != "" && AllDigits(Itoa(n)) && Value(Itoa(n)) == n
  {
    if n >= 10 {
      ItoaDigits(n / 10);
      assert Itoa(n)[..|Itoa(n)| - 1] == Itoa(n / 10);
    } else {
      assert Itoa(n)[..0] == "";
    }
  }

  /** Printing and parsing a number gives the number back. */
  lemma AtoiItoa(n: nat)
    ensures Atoi(Itoa(n)) == Some(n)
  {
    ItoaDigits(n);
  }

  /** "%d" of any integer. */
  function Print(i: int): string {
    if i < 0 then "-" + Itoa(-i) else Itoa(i)
  }

  lemma SignIsNoDigit(s: string)
    requires s != "" && s[0] == '-'
    ensures !AllDigits(s)
  {
    assert !IsDigit(s[0]);
  }

  lemma AtoiPrint(i: int)
    ensures Atoi(Print(i)) == Some(i)
  {
    hide Itoa, Value, AllDigits;
    if i < 0 {
      ItoaDigits(-i);
      assert Print(i)[1..] == Itoa(-i);
      SignIsNoDigit(Print(i));
    } else {
      AtoiItoa(i);
    }
  }

  /** Different numbers print differently. */
  lemma ItoaInjective(m: nat, n: nat)
    requires Itoa(m) == Itoa(n)
    ensures m == n
  {
    AtoiItoa(m);
    AtoiItoa(n);
  }

  /** The names "<job>-<ordinal>" of a job's attempts and pods are different for different ordinals. */
  function AttemptName(job: string, ordinal: nat): string {
    job + "-" + Itoa(ordinal)
  }

  lemma AttemptNameInjective(job: string, m: nat, n: nat)
    requires AttemptName(job, m) == AttemptName(job, n)
    ensures m == n
  {
    assert AttemptName(job, m)[|job| + 1..] == Itoa(m);
    assert AttemptName(job, n)[|job| + 1..] == Itoa(n);
    ItoaInjective(m, n);
  }

  // ----- string order -----

  predicate Less(a: string, b: string) {
    b != "" && (a == "" || a[0] < b[0] || (a[0] == b[0] && Less(a[1..], b[1..])))
  }

  lemma {:induction false} LessTotal(a: string, b: string)
    ensures Less(a, b) || a == b || Less(b, a)
  {
    if a != "" && b != "" && a[0] == b[0] {
      LessTotal(a[1..], b[1..]);
      assert a == [a[0]] + a[1..] && b == [b[0]] + b[1..];
    }
  }

  lemma {:induction false} LessTransitive(a: string, b: string, c: string)
    requires Less(a, b) && Less(b, c)
    ensures Less(a, c)
  {
    if a != "" && a[0] == b[0] == c[0] {
      LessTransitive(a[1..], b[1..], c[1..]);
    }
  }

  lemma {:induction false} LessIrreflexive(a: string)
    ensures !Less(a, a)
  {
    if a != "" {
      LessIrreflexive(a[1..]);
    }
  }

  /** Where two strings first differ decides their order. */
  lemma {:induction false} LessAt(p: string, a: string, b: string)
    requires a != "" && b != "" && a[0] < b[0]
    ensures Less(p + a, p + b)
  {
    if p != "" {
      LessAt(p[1..], a, b);
      assert (p + a)[1..] == p[1..] + a && (p + b)[1..] == p[1..] + b;
    } else {
      assert p + a == a && p + b == b;
    }
  }

  // ----- sorted lists without repetition -----

  predicate Sorted(s: seq<string>) {
    forall i, j | 0 <= i < j < |s| :: Less(s[i], s[j])
  }

  /** A sorted list without repetition is determined by its elements. */
  lemma {:induction false} SortedUnique(s: seq<string>, t: seq<string>)
    requires Sorted(s) && Sorted(t) && forall x :: x in s <==> x in t
    ensures s == t
  {
    if s == [] {
      assert forall i | 0 <= i < |t| :: t[i] in t;
    } else {
      assert s[0] in t;
      SortedHead(s, t);
      SortedTail(s, t);
      SortedUnique(s[1..], t[1..]);
      assert s == [s[0]] + s[1..] && t == [t[0]] + t[1..];
    }
  }

  lemma SortedHead(s: seq<string>, t: seq<string>)
    requires Sorted(s) && Sorted(t) && s != [] && t != [] && s[0] in t && t[0] in s
    ensures s[0] == t[0]
  {
    var i :| 0 <= i < |t| && t[i] == s[0];
    var j :| 0 <= j < |s| && s[j] == t[0];
    if i > 0 && j > 0 {
      LessTransitive(s[0], t[0], s[0]);
      LessIrreflexive(s[0]);
    }
  }

  lemma SortedTail(s: seq<string>, t: seq<string>)
    requires Sorted(s) && Sorted(t) && s != [] && t != [] && s[0] == t[0] && forall x :: x in s <==> x in t
    ensures forall x :: x in s[1..] <==> x in t[1..]
  {
    HeadNotInTail(s);
    HeadNotInTail(t);
    forall x ensures x in s[1..] <==> x in t[1..] {
      assert x in s <==> x == s[0] || x in s[1..];
      assert x in t <==> x == t[0] || x in t[1..];
    }
  }

  lemma SortedDistinct(s: seq<string>)
    requires Sorted(s)
    ensures forall i, j | 0 <= i < j < |s| :: s[i] != s[j]
  {
    forall i, j | 0 <= i < j < |s| ensures s[i] != s[j] {
      LessIrreflexive(s[i]);
    }
  }

  lemma SortedCons(x: string, s: seq<string>)
    requires Sorted(s) && forall i | 0 <= i < |s| :: Less(x, s[i])
    ensures Sorted([x] + s)
  {
    var t := [x] + s;
    forall i, j | 0 <= i < j < |t| ensures Less(t[i], t[j]) {
      assert t[j] == s[j - 1];
      assert i > 0 ==> t[i] == s[i - 1];
    }
  }

  lemma HeadNotInTail(s: seq<string>)
    requires Sorted(s) && s != []
    ensures s[0] !in s[1..]
  {
    LessIrreflexive(s[0]);
    forall i | 0 <= i < |s[1..]| ensures s[1..][i] != s[0] {
      assert Less(s[0], s[i + 1]);
    }
  }

  function InsertInto(x: string, s: seq<string>): seq<string> {
    if s == [] || Less(x, s[0]) then [x] + s else [s[0]] + InsertInto(x, s[1..])
  }

  /** The strings in increasing order. */
  function SortedOf(s: seq<string>): seq<string> {
    if s == [] then [] else InsertInto(s[|s| - 1], SortedOf(s[..|s| - 1]))
  }

  lemma {:induction false} InsertIntoOk(x: string, s: seq<string>)
    requires Sorted(s) && x !in s
    ensures Sorted(InsertInto(x, s)) && |InsertInto(x, s)| == |s| + 1
    ensures forall y :: y in InsertInto(x, s) <==> y == x || y in s
  {
    if s == [] {
    } else if Less(x, s[0]) {
      forall i | 0 <= i < |s| ensures Less(x, s[i]) {
        if i > 0 {
          LessTransitive(x, s[0], s[i]);
        }
      }
      SortedCons(x, s);
    } else {
      LessTotal(x, s[0]);
      var rest := InsertInto(x, s[1..]);
      InsertIntoOk(x, s[1..]);
      assert s == [s[0]] + s[1..];
      forall i | 0 <= i < |rest| ensures Less(s[0], rest[i]) {
        assert rest[i] in rest;
      }
      SortedCons(s[0], rest);
    }
  }

  lemma {:induction false} SortedOfOk(s: seq<string>)
    requires forall i, j | 0 <= i < j < |s| :: s[i] != s[j]
    ensures Sorted(SortedOf(s)) && |SortedOf(s)| == |s|
    ensures forall x :: x in SortedOf(s) <==> x in s
  {
    if s != [] {
      var n := |s| - 1;
      SortedOfOk(s[..n]);
      InsertIntoOk(s[n], SortedOf(s[..n]));
      assert s == s[..n] + [s[n]];
    }
  }

  /** sort.Strings on the elements of a set. */
  method SortStrings(names: set<string>) returns (s: seq<string>)
    ensures Sorted(s) && forall x :: x in s <==> x in names
  {
    s := [];
    var rest := names;
    while rest != {}
      invariant rest <= names
      invariant Sorted(s) && forall x :: x in s <==> x in names && x !in rest
      decreases rest
    {
      var x :| x in rest;
      s := Insert(s, x);
      rest := rest - {x};
    }
  }

  method Insert(s: seq<string>, x: string) returns (r: seq<string>)
    requires Sorted(s) && x !in s
    ensures Sorted(r) && forall y :: y in r <==> y in s || y == x
  {
    var i := 0;
    while i < |s| && Less(s[i], x)
      invariant 0 <= i <= |s|
      invariant forall k | 0 <= k < i :: Less(s[k], x)
    {
      i := i + 1;
    }
    r := s[..i] + [x] + s[i..];
    forall k | i <= k < |s| ensures Less(x, s[k]) {
      LessTotal(s[i], x);
      if k > i { LessTransitive(x, s[i], s[k]); }
    }
  }
}
