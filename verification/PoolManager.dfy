/** The pool manager's operations on its mutable state (internal/pool/pool.go:79-307), and how fast it shrinks. */
module PoolManager {
  import opened Arith
  import opened Conditions
  import opened Pool

  datatype Status = Status(total: int, idle: int, claimed: int, lastScaleTime: Option<int>, ready: bool)

  /** `history` lists the pods handed out by successful claims, over the whole life of the pool. */
  ghost predicate HistoryOk(f: Fleet, history: seq<nat>) {
    && (forall i, j | 0 <= i < j < |history| :: history[i] != history[j])
    && (forall id | id in history :: id < f.next && !IsIdle(f.pods, id))
    && (forall id | id in f.pods && f.pods[id].state.Claimed? :: id in history)
  }

  /** The pods among these that are in the given state. */
  function InState(pods: map<nat, Pod>, ids: set<nat>, st: PodState): set<nat> {
    set id | id in ids && id in pods && pods[id].state == st
  }

  /** The pod is idle, and every pod created before it is not. */
  ghost predicate FirstIdleIs(pods: map<nat, Pod>, order: seq<nat>, id: nat) {
    exists k | 0 <= k < |order| :: order[k] == id && IsIdle(pods, id) && forall i | 0 <= i < k :: !IsIdle(pods, order[i])
  }

  function Count(b: bool): int { if b then 1 else 0 }

  lemma HistoryKept(f: Fleet, g: Fleet, history: seq<nat>)
    requires HistoryOk(f, history) && KeepsClaimed(f, g)
    ensures HistoryOk(g, history)
  {
  }

  method DropIds(order: seq<nat>, gone: seq<nat>) returns (rest: seq<nat>)
    ensures rest == Without(order, Ids(gone))
  {
    rest := [];
    for i := 0 to |order|
      invariant rest == Without(order[..i], Ids(gone))
    {
      WithoutNext(order, i, Ids(gone));
      if order[i] !in gone {
        rest := rest + [order[i]];
      }
    }
    assert order[..|order|] == order;
  }

  class Manager {
    const cfg: Config
    var pods: map<nat, Pod>
    var podOrder: seq<nat>
    var nextId: nat
    var lastScaleTime: Option<int>
    var pendingDemand: int
    var claimTotal: int
    var missTotal: int
    var scaleUpTotal: int
    var scaleDownTotal: int
    ghost var history: seq<nat>

    ghost function F(): Fleet
      reads this
    {
      Fleet(pods, podOrder, nextId)
    }

    ghost predicate Valid()
      reads this
    {
      FleetOk(F()) && Bounded(F(), cfg) && HistoryOk(F(), history) && claimTotal == |history| + missTotal
    }

    constructor (cfg: Config)
      ensures Valid() && this.cfg == cfg && F() == Grow(Fleet(map[], [], 0), cfg.minSize) && history == []
      ensures |pods| == Max(cfg.minSize, 0) && forall id | id in pods :: pods[id] == NEW_POD
    {
      this.cfg := cfg;
      pods, podOrder, nextId := map[], [], 0;
      lastScaleTime, pendingDemand := None, 0;
      claimTotal, missTotal, scaleUpTotal, scaleDownTotal := 0, 0, 0, 0;
      history := [];
      new;
      hide FleetOk, Bounded, HistoryOk, Create;
      ghost var start := Fleet(map[], [], 0);
      var i := 0;
      while i < cfg.minSize
        invariant 0 <= i <= Max(cfg.minSize, 0) && F() == Grow(start, i)
        invariant this.cfg == cfg && history == [] && claimTotal == missTotal == 0
      {
        CreatePod();
        i := i + 1;
      }
      StartOk(cfg);
    }

    method CreatePod()
      modifies this`pods, this`podOrder, this`nextId
      ensures F() == Create(old(F()))
    {
      pods := pods[nextId := NEW_POD];
      podOrder := podOrder + [nextId];
      nextId := nextId + 1;
    }

    /** A claim takes the oldest idle pod, one no claim ever took before; it misses only if there is none. */
    method Claim(job: string) returns (r: Option<nat>)
      requires Valid()
      modifies this`pods, this`claimTotal, this`missTotal, this`history
      ensures Valid()
      ensures r == OldestIdle(old(F())) && claimTotal == old(claimTotal) + 1
      ensures r.None? <==> forall id | id in old(pods) :: !IsIdle(old(pods), id)
      ensures r.Some? ==> FirstIdleIs(old(pods), podOrder, r.value)
      ensures r.None? ==> pods == old(pods) && history == old(history) && missTotal == old(missTotal) + 1
      ensures r.Some? ==>
                && r.value in old(pods) && r.value !in old(history) && history == old(history) + [r.value]
                && pods == old(pods)[r.value := Pod(Claimed, job, old(pods)[r.value].version + 1)]
                && missTotal == old(missTotal)
    {
      hide FleetOk, Bounded, HistoryOk, IdleIds, OldestIdle;
      NoneSeen(pods, podOrder);
      claimTotal := claimTotal + 1;
      for i := 0 to |podOrder|
        invariant IdleIds(pods, podOrder[..i]) == []
        invariant pods == old(pods) && history == old(history) && missTotal == old(missTotal)
        invariant claimTotal == old(claimTotal) + 1
      {
        var id := podOrder[i];
        if id in pods && pods[id].state.Idle? {
          FirstIdle(F(), i);
          FirstIs(F(), i);
          TakeOk(F(), history, id, job, cfg);
          pods := pods[id := Pod(Claimed, job, pods[id].version + 1)];
          history := history + [id];
          return Some(id);
        }
        StillNoneIdle(F(), i);
      }
      assert podOrder[..|podOrder|] == podOrder;
      NoneIdle(F());
      NoneAtAll(F());
      missTotal := missTotal + 1;
      return None;
    }

    /** Release removes the pod, whatever its state, and puts a new idle one at the end. */
    method Release(id: nat) returns (found: bool)
      requires Valid()
      modifies this`pods, this`podOrder, this`nextId
      ensures Valid() && found == (id in old(pods)) && |pods| == |old(pods)|
      ensures !found ==> F() == old(F())
      ensures found ==> F() == Create(Fleet(old(pods) - {id}, Without(old(podOrder), {id}), old(nextId)))
    {
      if id !in pods {
        return false;
      }
      hide FleetOk, HistoryOk, Bounded, Without, Create;
      ReplaceOk(F(), history, id, cfg);
      Replace(id);
      return true;
    }

    method Replace(id: nat)
      modifies this`pods, this`podOrder, this`nextId
      ensures F() == Create(Fleet(old(pods) - {id}, Without(old(podOrder), {id}), old(nextId)))
    {
      hide Without, Create;
      assert Ids([id]) == {id};
      pods := pods - {id};
      podOrder := DropIds(podOrder, [id]);
      CreatePod();
    }

    method CountState(st: PodState) returns (n: int)
      ensures n == |InState(pods, pods.Keys, st)|
    {
      n := 0;
      var rest := pods.Keys;
      while rest != {}
        invariant rest <= pods.Keys
        invariant n == |InState(pods, pods.Keys - rest, st)|
        decreases rest
      {
        var id :| id in rest;
        assert pods.Keys - (rest - {id}) == (pods.Keys - rest) + {id};
        OneMore(pods, pods.Keys - rest, id, st);
        rest := rest - {id};
        if pods[id].state == st {
          n := n + 1;
        }
      }
      assert pods.Keys - {} == pods.Keys;
    }

    method GetStatus() returns (s: Status)
      requires Valid()
      ensures s.total == |podOrder| && s.idle == |IdleIds(pods, podOrder)| && s.total == s.idle + s.claimed
      ensures s.lastScaleTime == lastScaleTime && (s.ready <==> OldestIdle(F()).Some?)
    {
      hide FleetOk, Bounded, HistoryOk, IdleIds, InState;
      var idle := CountState(Idle);
      var claimed := CountState(Claimed);
      IdleIsCount(F());
      FleetSize(F());
      StatesSplit(F());
      s := Status(|pods|, idle, claimed, lastScaleTime, idle > 0);
    }

    /** The clean-up at the start of Reconcile. */
    method CleanUp()
      requires Lists(podOrder, pods.Keys)
      modifies this`pods, this`podOrder
      ensures var gone := InState(old(pods), old(pods).Keys, Terminating);
              pods == old(pods) - gone && podOrder == Without(old(podOrder), gone)
    {
      hide Without;
      var termIds := TerminatingIds();
      pods := pods - Ids(termIds);
      if |termIds| > 0 {
        podOrder := DropIds(podOrder, termIds);
      } else {
        assert Ids(termIds) == {};
        WithoutNone(podOrder);
      }
    }

    method TerminatingIds() returns (ids: seq<nat>)
      requires Lists(podOrder, pods.Keys)
      ensures Ids(ids) == InState(pods, pods.Keys, Terminating)
    {
      ids := [];
      for i := 0 to |podOrder|
        invariant Ids(ids) == InState(pods, Ids(podOrder[..i]), Terminating)
      {
        var id := podOrder[i];
        assert Ids(podOrder[..i + 1]) == Ids(podOrder[..i]) + {id};
        if id in pods && pods[id].state.Terminating? {
          assert Ids(ids + [id]) == Ids(ids) + {id};
          ids := ids + [id];
        }
      }
      assert podOrder[..|podOrder|] == podOrder && Ids(podOrder) == pods.Keys;
    }

    /** Create up to n pods while there is room. */
    method AddPods(n: int) returns (added: int)
      requires FleetOk(F())
      modifies this`pods, this`podOrder, this`nextId
      ensures FleetOk(F()) && added == Max(Min(n, cfg.maxSize - |old(podOrder)|), 0)
      ensures F() == Grow(old(F()), Min(n, cfg.maxSize - |old(podOrder)|))
    {
      hide FleetOk, KeepsClaimed;
      ghost var before := F();
      FleetSize(before);
      GrowOk(before, 0);
      added := 0;
      while added < n && |pods| < cfg.maxSize
        invariant 0 <= added <= Max(Min(n, cfg.maxSize - |before.order|), 0)
        invariant F() == Grow(before, added) && |pods| == |before.order| + added
        decreases n - added
      {
        GrowOk(before, added + 1);
        CreatePod();
        added := added + 1;
      }
      GrowOk(before, added);
    }

    /** Walk the list from the oldest pod and remove idle ones while more would be left than the minimum. The number
        left and the number removed both change with each removal, so it stops half way. */
    method RemoveIdle(now: int) returns (removed: int)
      requires FleetOk(F())
      modifies this`pods, this`podOrder, this`lastScaleTime
      ensures F() == Shrink(old(F()), cfg.minSize) && removed == |Gone(old(F()), cfg.minSize)|
      ensures lastScaleTime == if removed > 0 then Some(now) else old(lastScaleTime)
    {
      hide FleetOk, IdleIds, FirstIdles, Swept, Half, Min, Gone, Shrink, Without, Ids;
      ghost var f := F();
      FleetSize(f);
      HalfWay(|f.order| - cfg.minSize, 0);
      ghost var cap := Half(|f.order| - cfg.minSize);
      SweptEnds(f, cfg.minSize);
      removed := 0;
      var newOrder := [];
      for i := 0 to |podOrder|
        invariant podOrder == f.order && nextId == f.next
        invariant removed == |FirstIdles(f, i, cap)| <= cap && |pods| == |f.pods| - removed
        invariant Swept(f, i, cap) == Fleet(pods, newOrder, nextId)
        invariant lastScaleTime == if removed > 0 then Some(now) else old(lastScaleTime)
      {
        var id := podOrder[i];
        SweepNext(f, i, cap);
        HalfWay(|f.order| - cfg.minSize, removed);
        if id in pods && pods[id].state.Idle? && |pods| - removed > cfg.minSize {
          OneLess(pods, id);
          pods := pods - {id};
          removed := removed + 1;
          lastScaleTime := Some(now);
        } else {
          newOrder := newOrder + [id];
        }
      }
      podOrder := newOrder;
    }

    /** Reconcile at time `now`. */
    method Reconcile(now: int)
      requires Valid()
      modifies this`pods, this`podOrder, this`nextId, this`lastScaleTime, this`scaleUpTotal, this`scaleDownTotal
      ensures Valid() && KeepsClaimed(old(F()), F())
      ensures Scaled(old(F()), F(), cfg, pendingDemand,
                     old(lastScaleTime).None? || now - old(lastScaleTime).value >= cfg.cooldownSeconds)
      ensures scaleUpTotal == old(scaleUpTotal) + Count(pendingDemand > old(Idles(F())) || nextId > old(nextId))
      ensures scaleDownTotal == old(scaleDownTotal) + Count(|podOrder| < |old(podOrder)| + (nextId - old(nextId)))
      ensures F() == Reconciled(old(F()), cfg, pendingDemand, old(Ready(now)))
      ensures scaleUpTotal == old(scaleUpTotal) + Count(CountsUp(old(F()), cfg, pendingDemand, old(Ready(now))))
      ensures scaleDownTotal == old(scaleDownTotal) + Count(CountsDown(old(F()), cfg, pendingDemand, old(Ready(now))))
      ensures lastScaleTime == if scaleUpTotal + scaleDownTotal > old(scaleUpTotal + scaleDownTotal) then Some(now)
                               else old(lastScaleTime)
    {
      hide FleetOk, Bounded, HistoryOk, KeepsClaimed, Reconciled, IdleIds, InState, Without, Scaled, CountsUp, CountsDown, Idles;
      ghost var before := F();
      ListsOrder(before);
      ReconciledIs(before, cfg, pendingDemand, Ready(now));
      CountsAre(before, cfg, pendingDemand, Ready(now));
      ReconciledOk(before, cfg, pendingDemand, Ready(now));
      NoneTerminating(before);
      CleanUp();
      assert F() == before;
      var total := |pods|;
      var idle := CountState(Idle);
      IdleIsCount(before);
      FleetSize(before);
      ScalePods(now, total, idle);
      HistoryKept(before, F(), history);
    }

    /** The cooldown is over, or there was no scaling yet. */
    predicate Ready(now: int)
      reads this
    {
      lastScaleTime.None? || now - lastScaleTime.value >= cfg.cooldownSeconds
    }

    method ScalePods(now: int, total: int, idle: int)
      requires FleetOk(F()) && total == |podOrder| && idle == |IdleIds(pods, podOrder)|
      modifies this`pods, this`podOrder, this`nextId, this`lastScaleTime, this`scaleUpTotal, this`scaleDownTotal
      ensures F() == Reconciled(old(F()), cfg, pendingDemand, old(Ready(now)))
      ensures scaleUpTotal == old(scaleUpTotal) + Count(CountsUp(old(F()), cfg, pendingDemand, old(Ready(now))))
      ensures scaleDownTotal == old(scaleDownTotal) + Count(CountsDown(old(F()), cfg, pendingDemand, old(Ready(now))))
      ensures lastScaleTime == if scaleUpTotal + scaleDownTotal > old(scaleUpTotal + scaleDownTotal) then Some(now)
                               else old(lastScaleTime)
    {
      hide FleetOk, Grow, Shrink, Gone, IdleIds;
      if pendingDemand > idle {
        var _ := AddPods(pendingDemand - idle);
        lastScaleTime := Some(now);
        scaleUpTotal := scaleUpTotal + 1;
        return;
      }
      var cooldownOk := Ready(now);
      if total > 0 {
        var ratio := idle as real / total as real;
        if ratio < cfg.scaleUpThreshold && cooldownOk {
          var added := AddPods(cfg.scaleUpStep);
          if added > 0 {
            lastScaleTime := Some(now);
            scaleUpTotal := scaleUpTotal + 1;
          }
        }
        if ratio > cfg.scaleDownThreshold && total > cfg.minSize && cooldownOk {
          var removed := RemoveIdle(now);
          if removed > 0 {
            scaleDownTotal := scaleDownTotal + 1;
          }
        }
      }
    }

    method SetPendingDemand(n: int)
      modifies this`pendingDemand
      ensures pendingDemand == n
    {
      pendingDemand := n;
    }
  }

  // ----- lemmas about single steps -----

  lemma StartOk(cfg: Config)
    ensures var g := Grow(Fleet(map[], [], 0), cfg.minSize);
            && FleetOk(g) && Bounded(g, cfg) && HistoryOk(g, []) && |g.pods| == Max(cfg.minSize, 0)
            && forall id | id in g.pods :: g.pods[id] == NEW_POD
  {
    GrowOk(Fleet(map[], [], 0), cfg.minSize);
  }

  lemma OneMore(pods: map<nat, Pod>, ids: set<nat>, id: nat, st: PodState)
    requires id in pods && id !in ids
    ensures |InState(pods, ids + {id}, st)| == |InState(pods, ids, st)| + if pods[id].state == st then 1 else 0
  {
    if pods[id].state == st {
      assert InState(pods, ids + {id}, st) == InState(pods, ids, st) + {id};
    } else {
      assert InState(pods, ids + {id}, st) == InState(pods, ids, st);
    }
  }

  lemma StatesSplit(f: Fleet)
    requires FleetOk(f)
    ensures |InState(f.pods, f.pods.Keys, Idle)| + |InState(f.pods, f.pods.Keys, Claimed)| == |f.pods|
  {
    var i, c := InState(f.pods, f.pods.Keys, Idle), InState(f.pods, f.pods.Keys, Claimed);
    assert f.pods.Keys == i + c && i !! c;
  }

  lemma NoneSeen(pods: map<nat, Pod>, order: seq<nat>)
    ensures IdleIds(pods, order[..0]) == []
  {
  }

  lemma NoneIdle(f: Fleet)
    requires IdleIds(f.pods, f.order) == []
    ensures OldestIdle(f) == None
  {
  }

  lemma FirstIs(f: Fleet, i: nat)
    requires i < |f.order| && IdleIds(f.pods, f.order[..i]) == [] && IsIdle(f.pods, f.order[i])
    ensures FirstIdleIs(f.pods, f.order, f.order[i])
  {
    IdleIn(f.pods, f.order[..i]);
    forall j | 0 <= j < i ensures !IsIdle(f.pods, f.order[j]) {
      assert f.order[j] in f.order[..i];
    }
  }

  lemma NoneAtAll(f: Fleet)
    requires FleetOk(f) && IdleIds(f.pods, f.order) == []
    ensures forall id | id in f.pods :: !IsIdle(f.pods, id)
  {
    IdleIn(f.pods, f.order);
  }

  lemma StillNoneIdle(f: Fleet, i: nat)
    requires i < |f.order| && IdleIds(f.pods, f.order[..i]) == [] && !IsIdle(f.pods, f.order[i])
    ensures IdleIds(f.pods, f.order[..i + 1]) == []
  {
    assert f.order[..i + 1][..i] == f.order[..i];
  }

  lemma WithoutNext(order: seq<nat>, i: nat, gone: set<nat>)
    requires i < |order|
    ensures Without(order[..i + 1], gone)
         == if order[i] in gone then Without(order[..i], gone) else Without(order[..i], gone) + [order[i]]
  {
    assert order[..i + 1][..i] == order[..i];
  }

  lemma ListsOrder(f: Fleet)
    requires FleetOk(f)
    ensures Lists(f.order, f.pods.Keys)
  {
  }

  lemma {:induction false} IdlePrefix(pods: map<nat, Pod>, order: seq<nat>, i: nat)
    requires i <= |order|
    ensures IdleIds(pods, order[..i]) <= IdleIds(pods, order)
    decreases |order|
  {
    if i < |order| {
      IdlePrefix(pods, order[..|order| - 1], i);
      assert order[..|order| - 1][..i] == order[..i];
    } else {
      assert order[..i] == order;
    }
  }

  lemma FirstIdle(f: Fleet, i: nat)
    requires i < |f.order| && IdleIds(f.pods, f.order[..i]) == [] && IsIdle(f.pods, f.order[i])
    ensures OldestIdle(f) == Some(f.order[i])
  {
    assert f.order[..i + 1][..i] == f.order[..i];
    IdlePrefix(f.pods, f.order, i + 1);
  }

  lemma TakeOk(f: Fleet, history: seq<nat>, id: nat, job: string, cfg: Config)
    requires FleetOk(f) && HistoryOk(f, history) && Bounded(f, cfg) && IsIdle(f.pods, id)
    ensures var g := f.(pods := f.pods[id := Pod(Claimed, job, f.pods[id].version + 1)]);
            FleetOk(g) && id !in history && HistoryOk(g, history + [id]) && Bounded(g, cfg)
  {
    var g := f.pods[id := Pod(Claimed, job, f.pods[id].version + 1)];
    assert g.Keys == f.pods.Keys;
  }

  lemma ReplaceOk(f: Fleet, history: seq<nat>, id: nat, cfg: Config)
    requires FleetOk(f) && HistoryOk(f, history) && Bounded(f, cfg) && id in f.pods
    ensures var g := Create(Fleet(f.pods - {id}, Without(f.order, {id}), f.next));
            FleetOk(g) && HistoryOk(g, history) && Bounded(g, cfg) && |g.pods| == |f.pods|
  {
    var h := Fleet(f.pods - {id}, Without(f.order, {id}), f.next);
    WithoutLists(f.order, f.pods.Keys, {id});
    assert h.pods.Keys == f.pods.Keys - {id};
    CreateOk(h);
  }

  lemma IdleIsCount(f: Fleet)
    requires FleetOk(f)
    ensures |InState(f.pods, f.pods.Keys, Idle)| == |IdleIds(f.pods, f.order)|
  {
    IdleCount(f.pods, f.order, f.pods.Keys);
    assert InState(f.pods, f.pods.Keys, Idle) == IdleSet(f.pods, f.pods.Keys);
  }

  lemma {:induction false} WithoutNone(order: seq<nat>)
    ensures Without(order, {}) == order
  {
    if order != [] {
      WithoutNone(order[..|order| - 1]);
      assert order == order[..|order| - 1] + [order[|order| - 1]];
    }
  }

  /** No pod is ever found terminating, so the clean-up removes nothing. */
  lemma NoneTerminating(f: Fleet)
    requires FleetOk(f)
    ensures var gone := InState(f.pods, f.pods.Keys, Terminating);
            f.pods - gone == f.pods && Without(f.order, gone) == f.order
  {
    assert InState(f.pods, f.pods.Keys, Terminating) == {};
    assert f.pods - {} == f.pods;
    WithoutNone(f.order);
  }

  /** What the scale-down loop has removed after i pods. */
  ghost function FirstIdles(f: Fleet, i: nat, cap: int): seq<nat>
    requires i <= |f.order| && cap >= 0
  {
    var idle := IdleIds(f.pods, f.order[..i]);
    idle[..Min(|idle|, cap)]
  }

  lemma OneLess(pods: map<nat, Pod>, id: nat)
    requires id in pods
    ensures |pods - {id}| == |pods| - 1
  {
    assert (pods - {id}).Keys == pods.Keys - {id};
  }

  lemma HalfWay(excess: int, removed: nat)
    ensures removed < Half(excess) <==> excess - removed - removed > 0
    ensures Half(excess) >= 0
  {
  }

  /** The fleet the scale-down loop has built after i pods. */
  ghost function Swept(f: Fleet, i: nat, cap: int): Fleet
    requires i <= |f.order| && cap >= 0
  {
    var done := Ids(FirstIdles(f, i, cap));
    Fleet(f.pods - done, Without(f.order[..i], done), f.next)
  }

  lemma SweptEnds(f: Fleet, minSize: int)
    ensures var cap := Half(|f.order| - minSize);
            && FirstIdles(f, 0, cap) == [] && Swept(f, 0, cap) == Fleet(f.pods, [], f.next)
            && FirstIdles(f, |f.order|, cap) == Gone(f, minSize) && Swept(f, |f.order|, cap) == Shrink(f, minSize)
  {
    assert f.order[..|f.order|] == f.order;
    assert f.pods - Ids([]) == f.pods;
  }

  lemma {:induction false} WithoutMore(order: seq<nat>, gone: set<nat>, id: nat)
    requires id !in order
    ensures Without(order, gone + {id}) == Without(order, gone)
  {
    if order != [] {
      assert order == order[..|order| - 1] + [order[|order| - 1]];
      WithoutMore(order[..|order| - 1], gone, id);
    }
  }

  lemma NextIdle(f: Fleet, i: nat, cap: int)
    requires FleetOk(f) && i < |f.order| && cap >= 0
    ensures var id, done, next := f.order[i], FirstIdles(f, i, cap), FirstIdles(f, i + 1, cap);
            && id !in done && |next| <= cap
            && next == (if IsIdle(f.pods, id) && |done| < cap then done + [id] else done)
            && Without(f.order[..i], Ids(done) + {id}) == Without(f.order[..i], Ids(done))
  {
    var id, done := f.order[i], FirstIdles(f, i, cap);
    assert f.order[..i + 1][..i] == f.order[..i];
    assert id !in f.order[..i];
    IdleIn(f.pods, f.order[..i]);
    assert forall x | x in done :: x in IdleIds(f.pods, f.order[..i]);
    WithoutMore(f.order[..i], Ids(done), id);
  }

  lemma SweepNext(f: Fleet, i: nat, cap: int)
    requires FleetOk(f) && i < |f.order| && cap >= 0
    ensures var id, now, next := f.order[i], Swept(f, i, cap), Swept(f, i + 1, cap);
            var n := |FirstIdles(f, i, cap)|;
            if IsIdle(now.pods, id) && n < cap
            then |FirstIdles(f, i + 1, cap)| == n + 1 <= cap && next == Fleet(now.pods - {id}, now.order, f.next)
            else |FirstIdles(f, i + 1, cap)| == n && next == Fleet(now.pods, now.order + [id], f.next)
  {
    hide IdleIds, FirstIdles, FleetOk, Without;
    NextIdle(f, i, cap);
    var id, done, next := f.order[i], FirstIdles(f, i, cap), FirstIdles(f, i + 1, cap);
    WithoutNext(f.order, i, Ids(next));
    if IsIdle(f.pods, id) && |done| < cap {
      assert Ids(next) == Ids(done) + {id};
      assert f.pods - Ids(next) == (f.pods - Ids(done)) - {id};
    }
  }

  // ----- how fast an idle pool shrinks -----

  function Log2(n: nat): (k: nat)
    requires n >= 1
    ensures Pow2(k) <= n < Pow2(k + 1)
  {
    if n == 1 then 0 else 1 + Log2(n / 2)
  }

  function ReconciledTimes(f: Fleet, cfg: Config, demand: int, n: nat): Fleet {
    if n == 0 then f else Reconciled(ReconciledTimes(f, cfg, demand, n - 1), cfg, demand, true)
  }

  /** Every pod is idle, and nothing calls for more pods now or at any smaller size. */
  ghost predicate Quiet(f: Fleet, cfg: Config, demand: int) {
    && FleetOk(f) && (forall id | id in f.pods :: f.pods[id].state.Idle?)
    && cfg.Sane() && cfg.minSize <= |f.pods|
    && demand <= cfg.minSize && cfg.scaleUpThreshold <= cfg.scaleDownThreshold < 1.0
  }

  lemma AllIdle(f: Fleet)
    requires FleetOk(f) && forall id | id in f.pods :: f.pods[id].state.Idle?
    ensures |IdleIds(f.pods, f.order)| == |f.pods| == |f.order|
  {
    FleetSize(f);
    IdleIsCount(f);
    assert InState(f.pods, f.pods.Keys, Idle) == f.pods.Keys;
  }

  lemma QuietStep(f: Fleet, cfg: Config, demand: int)
    requires Quiet(f, cfg, demand)
    ensures var g := Reconciled(f, cfg, demand, true);
            Quiet(g, cfg, demand) && |g.pods| - cfg.minSize == (|f.pods| - cfg.minSize) / 2
  {
    AllIdle(f);
    if |f.order| > cfg.minSize {
      RatioOne(|f.order|);
      ShrinkOk(f, cfg.minSize);
      assert Reconciled(f, cfg, demand, true) == Shrink(f, cfg.minSize) by {
        hide Shrink, IdleIds;
        assert IdleRatio(f) == 1.0;
      }
      ShrunkIsIdle(f, cfg.minSize);
    } else {
      hide IdleIds, FleetOk;
      assert f.order != [] ==> IdleRatio(f) >= 1.0 by {
        if f.order != [] { RatioOne(|f.order|); }
      }
    }
  }

  lemma RatioOne(n: int)
    requires n > 0
    ensures n as real / n as real == 1.0
  {
  }

  lemma ShrunkIsIdle(f: Fleet, minSize: int)
    requires forall id | id in f.pods :: f.pods[id].state.Idle?
    ensures forall id | id in Shrink(f, minSize).pods :: Shrink(f, minSize).pods[id].state.Idle?
  {
  }

  function Halvings(e: nat, n: nat): nat {
    if n == 0 then e else Halvings(e, n - 1) / 2
  }

  /** Each call halves the excess over the minimum, rounding down. */
  lemma {:induction false} ExcessHalves(f: Fleet, cfg: Config, demand: int, n: nat)
    requires Quiet(f, cfg, demand)
    ensures var g := ReconciledTimes(f, cfg, demand, n);
            Quiet(g, cfg, demand) && |g.pods| - cfg.minSize == Halvings(|f.pods| - cfg.minSize, n)
  {
    hide Quiet, Reconciled;
    if n > 0 {
      assert |f.pods| >= cfg.minSize by { QuietSize(f, cfg, demand); }
      ExcessHalves(f, cfg, demand, n - 1);
      QuietStep(ReconciledTimes(f, cfg, demand, n - 1), cfg, demand);
    }
  }

  lemma QuietSize(f: Fleet, cfg: Config, demand: int)
    requires Quiet(f, cfg, demand)
    ensures |f.pods| >= cfg.minSize
  {
  }

  lemma {:induction false} HalveFirst(e: nat, n: nat)
    requires n > 0
    ensures Halvings(e, n) == Halvings(e / 2, n - 1)
  {
    if n > 1 {
      HalveFirst(e, n - 1);
    }
  }

  lemma {:induction false} HalvingsEnd(e: nat, n: nat)
    requires e >= 1
    ensures Halvings(e, n) == 0 <==> n >= Log2(e) + 1
    decreases e
  {
    if n > 0 {
      HalveFirst(e, n);
      if e > 1 {
        HalvingsEnd(e / 2, n - 1);
      } else {
        ZeroStays(n - 1);
      }
    }
  }

  lemma {:induction false} ZeroStays(n: nat)
    ensures Halvings(0, n) == 0
  {
    if n > 0 {
      ZeroStays(n - 1);
    }
  }

  /** From an excess e >= 1 the pool reaches its minimum after exactly floor(log2 e) + 1 calls, and stays there. */
  lemma ReachesMinimum(f: Fleet, cfg: Config, demand: int, n: nat)
    requires Quiet(f, cfg, demand) && |f.pods| > cfg.minSize
    ensures |ReconciledTimes(f, cfg, demand, n).pods| == cfg.minSize <==> n >= Log2(|f.pods| - cfg.minSize) + 1
  {
    ExcessHalves(f, cfg, demand, n);
    HalvingsEnd(|f.pods| - cfg.minSize, n);
  }
}
