/** Retrying with backoff (protect/retry.go), and the retry records it leaves in the log (runtime/step.go:70-73). */
module Retry {
  import opened Arith
  import opened Conditions
  import opened LogVolume
  import opened WalFormat
  import opened Wal

  datatype Err = DeadlineExceeded | Canceled | Other(code: int)

  datatype Backoff = NoBackoff | ExponentialBackoff

  /** Durations are 64-bit nanosecond counts. A missing predicate means: retry on any error. */
  datatype Config = Config(maxAttempts: int, initialDelay: int, maxDelay: int, backoff: Backoff,
                           retryOn: Option<Err -> bool>)

  const TWO_63: int := 0x8000_0000_0000_0000
  const TWO_64: int := 0x1_0000_0000_0000_0000

  /** The value left when an integer is stored in 64 signed bits. */
  function Wrap64(x: int): (w: int)
    ensures -TWO_63 <= w < TWO_63
    ensures -TWO_63 <= x < TWO_63 ==> w == x
    ensures TWO_63 <= x < TWO_64 ==> w == x - TWO_64
  {
    (x + TWO_63) % TWO_64 - TWO_63
  }

  /** The wait after a failed attempt. */
  function Delay(cfg: Config, attempt: int): int
    requires attempt >= 1
  {
    if cfg.backoff.NoBackoff? then cfg.initialDelay
    else
      var delay := Wrap64(cfg.initialDelay * Pow2(attempt - 1));
      if cfg.maxDelay > 0 && delay > cfg.maxDelay then cfg.maxDelay else delay
  }

  function Limit(cfg: Config): int {
    if cfg.maxAttempts <= 0 then 1 else cfg.maxAttempts
  }

  predicate Retryable(cfg: Config, e: Err) {
    cfg.retryOn.None? || cfg.retryOn.value(e)
  }

  // ----- what a call of Execute comes to -----

  /** `fn(k)` is the result of the k-th call; `done(k)` the context's error if it ended the wait after that call. */
  predicate GoesOn(cfg: Config, fn: int -> Option<Err>, done: int -> Option<Err>, k: int) {
    fn(k).Some? && Retryable(cfg, fn(k).value) && done(k).None?
  }

  ghost predicate Outcome(cfg: Config, fn: int -> Option<Err>, done: int -> Option<Err>,
                          attempts: int, err: Option<Err>, waits: seq<int>)
  {
    && 1 <= attempts <= Limit(cfg)
    && (forall k | 1 <= k < attempts :: GoesOn(cfg, fn, done, k))
    && !(attempts < Limit(cfg) && GoesOn(cfg, fn, done, attempts))
    && (forall i | 0 <= i < |waits| :: waits[i] == Delay(cfg, i + 1))
    && (if fn(attempts).Some? && attempts < Limit(cfg) && Retryable(cfg, fn(attempts).value)
        then err == done(attempts) && |waits| == attempts
        else err == fn(attempts) && |waits| == attempts - 1)
  }

  /** The same in plain terms. The function is called until it succeeds, its error is not one to retry, the attempts are
      used up, or the wait is cut short; without backoff every wait is the initial delay. */
  ghost predicate Plainly(cfg: Config, fn: int -> Option<Err>, done: int -> Option<Err>,
                          attempts: int, err: Option<Err>, waits: seq<int>)
  {
    && 1 <= attempts && (attempts <= cfg.maxAttempts || attempts == 1)
    && (forall k | 1 <= k < attempts ::
          fn(k).Some? && (cfg.retryOn.Some? ==> cfg.retryOn.value(fn(k).value)) && done(k).None?)
    && (|| (fn(attempts).None? && err.None? && |waits| == attempts - 1)
        || (fn(attempts).Some? && err == fn(attempts) && |waits| == attempts - 1
            && (attempts >= cfg.maxAttempts || (cfg.retryOn.Some? && !cfg.retryOn.value(err.value))))
        || (fn(attempts).Some? && attempts < cfg.maxAttempts && (cfg.retryOn.Some? ==> cfg.retryOn.value(fn(attempts).value))
            && done(attempts).Some? && err == done(attempts) && |waits| == attempts))
    && (cfg.backoff.NoBackoff? ==> forall i | 0 <= i < |waits| :: waits[i] == cfg.initialDelay)
  }

  lemma OutcomePlainly(cfg: Config, fn: int -> Option<Err>, done: int -> Option<Err>,
                       attempts: int, err: Option<Err>, waits: seq<int>)
    requires Outcome(cfg, fn, done, attempts, err, waits)
    ensures Plainly(cfg, fn, done, attempts, err, waits)
  {
    forall k | 1 <= k < attempts
      ensures fn(k).Some? && (cfg.retryOn.Some? ==> cfg.retryOn.value(fn(k).value)) && done(k).None?
    {
      assert GoesOn(cfg, fn, done, k);
    }
  }

  /** The results of the function and the fate of the context determine everything. */
  lemma OutcomeUnique(cfg: Config, fn: int -> Option<Err>, done: int -> Option<Err>,
                      a: int, e: Option<Err>, w: seq<int>, a': int, e': Option<Err>, w': seq<int>)
    requires Outcome(cfg, fn, done, a, e, w) && Outcome(cfg, fn, done, a', e', w')
    ensures a == a' && e == e' && w == w'
  {
    assert a == a';
    assert |w| == |w'| && forall i | 0 <= i < |w| :: w[i] == w'[i];
  }

  /** The log with the records onRetry writes: attempts 2, 3, ..., n + 1 of this step. */
  function WithRetries(log: seq<Record>, id: string, n: nat, clock: int -> int): (after: seq<Record>)
    ensures |after| == |log| + n && log <= after
  {
    if n == 0 then log else WithRetries(log, id, n - 1, clock) + [RetryRecord(|log| + n, id, n + 1, clock)]
  }

  function RetryRecord(seqNo: int, id: string, attempt: int, clock: int -> int): Record {
    Record(seqNo, RecType.StepRetry, id, clock(seqNo), None, "", attempt, "")
  }

  /** The log files after these records; `rots` says which of them were written to a new file. */
  ghost function RetriedTo(v: Volume, id: string, clock: int -> int, rots: seq<bool>): (w: Volume)
    requires Ok(v) && v.parts != []
    ensures Ok(w) && w.parts != [] && Log(w) == WithRetries(Log(v), id, |rots|, clock) && Anchor(v) <= Anchor(w)
    decreases |rots|
  {
    if rots == [] then v
    else
      var n := |rots| - 1;
      var r := RetryRecord(|Log(v)| + |rots|, id, |rots| + 1, clock);
      var before := RetriedTo(v, id, clock, rots[..n]);
      AppendedOk(before, r);
      Synced(before, rots[n], r)
  }

  /** Execute, with Step's onRetry callback writing to the log. `calls` counts the calls of the function. */
  method Execute(cfg: Config, fn: int -> Option<Err>, done: int -> Option<Err>, w: Writer, id: string, clock: int -> int)
    returns (attempts: int, err: Option<Err>, calls: int, waits: seq<int>, ghost rots: seq<bool>)
    requires w.Valid()
    modifies w, w.disk
    ensures Outcome(cfg, fn, done, attempts, err, waits) && Plainly(cfg, fn, done, attempts, err, waits) && calls == attempts
    ensures w.Valid() && |rots| == |waits| && w.disk.vol == RetriedTo(old(w.disk.vol), id, clock, rots)
  {
    hide Plainly, Writer.Valid, Writer.Agrees, Delay, Retryable, RetriedTo, Ok, WithRetries;
    w.Usable();
    var limit := Limit(cfg);
    calls := 0;
    waits := [];
    rots := [];
    attempts := 1;
    NothingRetried(w.disk.vol, id, clock);
    while attempts <= limit
      invariant 1 <= attempts <= limit && calls == attempts - 1 && |waits| == |rots| == attempts - 1
      invariant forall k | 1 <= k < attempts :: GoesOn(cfg, fn, done, k)
      invariant forall i | 0 <= i < |waits| :: waits[i] == Delay(cfg, i + 1)
      invariant w.Valid() && w.disk.vol == RetriedTo(old(w.disk.vol), id, clock, rots)
    {
      err := fn(attempts);
      calls := calls + 1;
      if err.None? {
        OutcomePlainly(cfg, fn, done, attempts, err, waits);
        return;
      }
      if attempts == limit {
        break;
      }
      if !Retryable(cfg, err.value) {
        OutcomePlainly(cfg, fn, done, attempts, err, waits);
        return;
      }
      rots := OnRetry(w, id, attempts + 1, clock, old(w.disk.vol), rots);
      waits := waits + [Delay(cfg, attempts)];
      if done(attempts).Some? {
        err := done(attempts);
        OutcomePlainly(cfg, fn, done, attempts, err, waits);
        return;
      }
      attempts := attempts + 1;
    }
    OutcomePlainly(cfg, fn, done, attempts, err, waits);
  }

  lemma RetriedNext(v: Volume, id: string, clock: int -> int, rots: seq<bool>, rotated: bool)
    requires Ok(v) && v.parts != []
    ensures var before := RetriedTo(v, id, clock, rots);
            && |Log(before)| == |Log(v)| + |rots|
            && RetriedTo(v, id, clock, rots + [rotated])
               == Synced(before, rotated, RetryRecord(|Log(before)| + 1, id, |rots| + 2, clock))
  {
    hide RetriedTo, Synced, LogVolume.Log, Ok, WithRetries, Anchor, RetryRecord;
    var all := rots + [rotated];
    LastRetry(v, id, clock, all);
    assert all[..|all| - 1] == rots;
  }

  lemma LastRetry(v: Volume, id: string, clock: int -> int, rots: seq<bool>)
    requires Ok(v) && v.parts != [] && rots != []
    ensures var before := RetriedTo(v, id, clock, rots[..|rots| - 1]);
            && |Log(before)| == |Log(v)| + |rots| - 1
            && RetriedTo(v, id, clock, rots)
               == Synced(before, rots[|rots| - 1], RetryRecord(|Log(v)| + |rots|, id, |rots| + 1, clock))
  {
    hide Synced, LogVolume.Log, Ok, WithRetries, Anchor, RetryRecord;
  }

  lemma NothingRetried(v: Volume, id: string, clock: int -> int)
    requires Ok(v) && v.parts != []
    ensures RetriedTo(v, id, clock, []) == v
  {
  }

  /** Step's onRetry callback: record the attempt about to start. */
  method OnRetry(w: Writer, id: string, attempt: int, clock: int -> int, ghost v: Volume, ghost rots: seq<bool>)
    returns (ghost more: seq<bool>)
    requires w.Valid() && Ok(v) && v.parts != [] && attempt == |rots| + 2 && w.disk.vol == RetriedTo(v, id, clock, rots)
    modifies w, w.disk
    ensures w.Valid() && |more| == |rots| + 1 && w.disk.vol == RetriedTo(v, id, clock, more)
  {
    hide Writer.Valid, Writer.Agrees, Disk.Durable, Anchor, Ok, RetriedTo, Synced, Flatten, WithRetries, LogVolume.Log;
    w.NextSeqIsLength();
    ghost var before := w.disk.vol;
    assert |before.parts| > 0 && Ok(before) && w.nextSeq == |Log(before)| by { w.Usable(); }
    var _, rotated := w.StepRetry(id, attempt, clock(w.nextSeq + 1));
    RetriedNext(v, id, clock, rots, rotated);
    more := rots + [rotated];
  }

  // ----- exponential backoff in 64 bits -----

  lemma {:induction false} ScaledGrows(x: int, m: nat, n: nat)
    requires x >= 0 && m <= n
    ensures x * Pow2(m) <= x * Pow2(n)
    decreases n
  {
    if m < n {
      ScaledGrows(x, m, n - 1);
      assert x * Pow2(n) == 2 * (x * Pow2(n - 1));
    }
  }

  /** Doubling a delay passes through [2^63, 2^64) on its way up. */
  lemma {:induction false} FirstOverflow(x: int, n: nat) returns (j: nat)
    requires 0 <= x < TWO_63 <= x * Pow2(n)
    ensures j <= n && TWO_63 <= x * Pow2(j) < TWO_64
  {
    if n > 0 && x * Pow2(n - 1) >= TWO_63 {
      j := FirstOverflow(x, n - 1);
    } else {
      j := n;
      assert n > 0 ==> x * Pow2(n) == 2 * (x * Pow2(n - 1));
    }
  }

  predicate NoOverflow(cfg: Config) {
    cfg.maxAttempts < 2 || cfg.initialDelay * Pow2(cfg.maxAttempts - 2) < TWO_63
  }

  /** Every exponential wait is InitialDelay * 2^(k-1) under the cap exactly when the last doubling still fits in 64
      bits; otherwise some wait comes out negative. */
  lemma BackoffExactIff(cfg: Config)
    requires cfg.backoff.ExponentialBackoff? && 0 <= cfg.initialDelay < TWO_63
    ensures (forall k | 1 <= k < cfg.maxAttempts ::
               var exact := cfg.initialDelay * Pow2(k - 1);
               Delay(cfg, k) == if 0 < cfg.maxDelay < exact then cfg.maxDelay else exact)
        <==> NoOverflow(cfg)
    ensures !NoOverflow(cfg) ==> exists k | 1 < k < cfg.maxAttempts :: Delay(cfg, k) < 0
  {
    if NoOverflow(cfg) {
      forall k | 1 <= k < cfg.maxAttempts
        ensures var exact := cfg.initialDelay * Pow2(k - 1);
                Delay(cfg, k) == if 0 < cfg.maxDelay < exact then cfg.maxDelay else exact
      {
        ExactDelay(cfg, k);
      }
    } else {
      var j := FirstOverflow(cfg.initialDelay, cfg.maxAttempts - 2);
      assert Delay(cfg, j + 1) < 0 <= cfg.initialDelay * Pow2(j);
      assert j != 0;
    }
  }

  lemma ExactDelay(cfg: Config, k: int)
    requires cfg.backoff.ExponentialBackoff? && 0 <= cfg.initialDelay < TWO_63 && NoOverflow(cfg)
    requires 1 <= k < cfg.maxAttempts
    ensures var exact := cfg.initialDelay * Pow2(k - 1);
            Delay(cfg, k) == if 0 < cfg.maxDelay < exact then cfg.maxDelay else exact
  {
    ScaledGrows(cfg.initialDelay, k - 1, cfg.maxAttempts - 2);
    assert cfg.initialDelay * Pow2(k - 1) >= 0;
  }

  /** Waits never get shorter, except exactly when an exponential backoff overflows. */
  lemma WaitsNeverShrinkIff(cfg: Config)
    requires 0 <= cfg.initialDelay < TWO_63
    ensures (forall j, k | 1 <= j <= k < cfg.maxAttempts :: Delay(cfg, j) <= Delay(cfg, k))
        <==> (cfg.backoff.NoBackoff? || NoOverflow(cfg))
  {
    if cfg.backoff.ExponentialBackoff? {
      BackoffExactIff(cfg);
      if NoOverflow(cfg) {
        forall j, k | 1 <= j <= k < cfg.maxAttempts ensures Delay(cfg, j) <= Delay(cfg, k) {
          ScaledGrows(cfg.initialDelay, j - 1, k - 1);
          ExactDelay(cfg, j);
          ExactDelay(cfg, k);
        }
      } else {
        var k :| 1 < k < cfg.maxAttempts && Delay(cfg, k) < 0;
        assert Delay(cfg, 1) >= 0 by { assert Pow2(0) == 1; }
      }
    }
  }
}
