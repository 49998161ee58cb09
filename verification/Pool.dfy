/** The warm pod pool (internal/pool/pool.go): a map of pods and the list of their ids in order of creation. */
module Pool {
  import opened Arith
  import opened Conditions

  datatype PodState = Idle | Claimed | Terminating

  datatype Pod = Pod(state: PodState, job: string, version: int)

  const NEW_POD := Pod(Idle, "", 1)

  datatype Config = Config(minSize: int, maxSize: int, scaleUpThreshold: real, scaleDownThreshold: real,
                           scaleUpStep: int, cooldownSeconds: int)
  {
    predicate Sane() { 0 <= minSize <= maxSize }
  }

  /** What a pool consists of; ids are drawn from a counter, so that a new id is one never seen before. */
  datatype Fleet = Fleet(pods: map<nat, Pod>, order: seq<nat>, next: nat)

  // ----- lists of ids -----

  ghost predicate Lists(order: seq<nat>, ids: set<nat>) {
    && (forall i, j | 0 <= i < j < |order| :: order[i] != order[j])
    && (forall id :: id in order <==> id in ids)
  }

  lemma {:induction false} ListsSize(order: seq<nat>, ids: set<nat>)
    requires Lists(order, ids)
    ensures |order| == |ids|
  {
    if order != [] {
      var n := |order| - 1;
      assert forall id :: id in order <==> id in order[..n] || id == order[n];
      ListsSize(order[..n], ids - {order[n]});
    } else {
      assert ids == {};
    }
  }

  predicate IsIdle(pods: map<nat, Pod>, id: nat) {
    id in pods && pods[id].state.Idle?
  }

  /** The idle pods, oldest first. */
  function IdleIds(pods: map<nat, Pod>, order: seq<nat>): (ids: seq<nat>) {
    if order == [] then []
    else
      var id, before := order[|order| - 1], IdleIds(pods, order[..|order| - 1]);
      if IsIdle(pods, id) then before + [id] else before
  }

  lemma {:induction false} IdleIn(pods: map<nat, Pod>, order: seq<nat>)
    ensures forall id :: id in IdleIds(pods, order) <==> id in order && IsIdle(pods, id)
  {
    if order != [] {
      IdleIn(pods, order[..|order| - 1]);
      assert order == order[..|order| - 1] + [order[|order| - 1]];
    }
  }

  function Without(order: seq<nat>, gone: set<nat>): (rest: seq<nat>) {
    if order == [] then []
    else
      var id, before := order[|order| - 1], Without(order[..|order| - 1], gone);
      if id in gone then before else before + [id]
  }

  lemma {:induction false} WithoutIn(order: seq<nat>, gone: set<nat>)
    ensures forall id :: id in Without(order, gone) <==> id in order && id !in gone
  {
    if order != [] {
      WithoutIn(order[..|order| - 1], gone);
      assert order == order[..|order| - 1] + [order[|order| - 1]];
    }
  }

  lemma {:induction false} WithoutDistinct(order: seq<nat>, gone: set<nat>)
    requires forall i, j | 0 <= i < j < |order| :: order[i] != order[j]
    ensures var rest := Without(order, gone); forall i, j | 0 <= i < j < |rest| :: rest[i] != rest[j]
  {
    if order != [] {
      var n := |order| - 1;
      WithoutDistinct(order[..n], gone);
      WithoutIn(order[..n], gone);
      assert forall i | 0 <= i < |Without(order[..n], gone)| :: Without(order[..n], gone)[i] in order[..n];
    }
  }

  lemma WithoutLists(order: seq<nat>, ids: set<nat>, gone: set<nat>)
    requires Lists(order, ids)
    ensures Lists(Without(order, gone), ids - gone)
  {
    WithoutDistinct(order, gone);
    WithoutIn(order, gone);
  }

  function IdleSet(pods: map<nat, Pod>, ids: set<nat>): set<nat> {
    set id | id in ids && IsIdle(pods, id)
  }

  lemma {:induction false} IdleDistinct(pods: map<nat, Pod>, order: seq<nat>)
    requires forall i, j | 0 <= i < j < |order| :: order[i] != order[j]
    ensures var ids := IdleIds(pods, order); forall i, j | 0 <= i < j < |ids| :: ids[i] != ids[j]
  {
    if order != [] {
      var n := |order| - 1;
      IdleDistinct(pods, order[..n]);
      IdleIn(pods, order[..n]);
      assert forall i | 0 <= i < |IdleIds(pods, order[..n])| :: IdleIds(pods, order[..n])[i] in order[..n];
    }
  }

  lemma IdleCount(pods: map<nat, Pod>, order: seq<nat>, ids: set<nat>)
    requires Lists(order, ids)
    ensures Lists(IdleIds(pods, order), IdleSet(pods, ids))
    ensures |IdleSet(pods, ids)| == |IdleIds(pods, order)|
  {
    IdleDistinct(pods, order);
    IdleIn(pods, order);
    assert forall id :: id in IdleIds(pods, order) <==> id in IdleSet(pods, ids);
    ListsSize(IdleIds(pods, order), IdleSet(pods, ids));
  }

  // ----- what Claim, Release and Reconcile do to a fleet -----

  /** The oldest idle pod. */
  function OldestIdle(f: Fleet): (r: Option<nat>) {
    if IdleIds(f.pods, f.order) == [] then None else Some(IdleIds(f.pods, f.order)[0])
  }

  function Create(f: Fleet): Fleet {
    Fleet(f.pods[f.next := NEW_POD], f.order + [f.next], f.next + 1)
  }

  function Grow(f: Fleet, n: int): Fleet {
    if n <= 0 then f else Create(Grow(f, n - 1))
  }

  /** How many idle pods one scale-down may remove: half of what exceeds the minimum, rounded up. */
  function Half(excess: int): int {
    if excess <= 0 then 0 else (excess + 1) / 2
  }

  function Gone(f: Fleet, minSize: int): seq<nat> {
    var idle := IdleIds(f.pods, f.order);
    idle[..Min(|idle|, Half(|f.order| - minSize))]
  }

  function Ids(s: seq<nat>): set<nat> {
    set id | id in s
  }

  function Shrink(f: Fleet, minSize: int): Fleet {
    var gone := Ids(Gone(f, minSize));
    Fleet(f.pods - gone, Without(f.order, gone), f.next)
  }

  function IdleRatio(f: Fleet): real
    requires f.order != []
  {
    |IdleIds(f.pods, f.order)| as real / |f.order| as real
  }

  predicate Bursts(f: Fleet, demand: int) {
    demand > |IdleIds(f.pods, f.order)|
  }

  predicate ScalesUp(f: Fleet, cfg: Config, ready: bool) {
    f.order != [] && ready && IdleRatio(f) < cfg.scaleUpThreshold
  }

  predicate ScalesDown(f: Fleet, cfg: Config, ready: bool) {
    f.order != [] && ready && IdleRatio(f) > cfg.scaleDownThreshold && |f.order| > cfg.minSize
  }

  function Grown(f: Fleet, cfg: Config, ready: bool): Fleet {
    if ScalesUp(f, cfg, ready) then Grow(f, Min(cfg.scaleUpStep, cfg.maxSize - |f.order|)) else f
  }

  /** One call of Reconcile; `ready` says that the cooldown is over. */
  function Reconciled(f: Fleet, cfg: Config, demand: int, ready: bool): Fleet {
    if Bursts(f, demand) then Grow(f, Min(demand - |IdleIds(f.pods, f.order)|, cfg.maxSize - |f.order|))
    else if ScalesDown(f, cfg, ready) then Shrink(Grown(f, cfg, ready), cfg.minSize)
    else Grown(f, cfg, ready)
  }

  /** It counts as a scale-up: every burst, and a growth that created something. */
  predicate CountsUp(f: Fleet, cfg: Config, demand: int, ready: bool) {
    Bursts(f, demand) || (ScalesUp(f, cfg, ready) && Min(cfg.scaleUpStep, cfg.maxSize - |f.order|) > 0)
  }

  /** It counts as a scale-down: something was removed. */
  predicate CountsDown(f: Fleet, cfg: Config, demand: int, ready: bool) {
    !Bursts(f, demand) && ScalesDown(f, cfg, ready) && Gone(Grown(f, cfg, ready), cfg.minSize) != []
  }

  // ----- invariants -----

  /** The list names exactly the pods there are, once each; none is half removed; ids are used up in order. */
  ghost predicate FleetOk(f: Fleet) {
    && Lists(f.order, f.pods.Keys)
    && (forall id | id in f.pods :: id < f.next && !f.pods[id].state.Terminating?)
  }

  ghost predicate Bounded(f: Fleet, cfg: Config) {
    cfg.Sane() ==> cfg.minSize <= |f.pods| <= cfg.maxSize
  }

  /** Claimed pods of f are pods of g, unchanged, and g has no id that f could have had. */
  ghost predicate KeepsClaimed(f: Fleet, g: Fleet) {
    && f.next <= g.next
    && (forall id | id in f.pods && f.pods[id].state.Claimed? :: id in g.pods && g.pods[id] == f.pods[id])
    && (forall id | id in g.pods :: (id in f.pods && g.pods[id] == f.pods[id]) || (id >= f.next && g.pods[id] == NEW_POD))
  }

  lemma CreateOk(f: Fleet)
    requires FleetOk(f)
    ensures FleetOk(Create(f)) && |Create(f).pods| == |f.pods| + 1
  {
    var g := Create(f);
    assert f.next !in f.pods.Keys && g.pods.Keys == f.pods.Keys + {f.next};
  }

  lemma {:induction false} GrowOk(f: Fleet, n: int)
    requires FleetOk(f)
    ensures var g := Grow(f, n); FleetOk(g) && KeepsClaimed(f, g) && |g.pods| == |f.pods| + Max(n, 0)
  {
    if n > 0 {
      GrowOk(f, n - 1);
      CreateOk(Grow(f, n - 1));
    }
  }

  lemma IdsSize(s: seq<nat>, ids: set<nat>, k: nat)
    requires Lists(s, ids) && k <= |s|
    ensures |Ids(s[..k])| == k
  {
    ListsSize(s[..k], Ids(s[..k]));
  }

  lemma FleetSize(f: Fleet)
    requires FleetOk(f)
    ensures |f.order| == |f.pods|
  {
    ListsSize(f.order, f.pods.Keys);
  }

  lemma AnyShrinkOk(f: Fleet, minSize: int)
    requires FleetOk(f)
    ensures var g := Shrink(f, minSize);
            FleetOk(g) && KeepsClaimed(f, g) && g.pods.Keys == f.pods.Keys - Ids(Gone(f, minSize))
  {
    var gone := Ids(Gone(f, minSize));
    WithoutLists(f.order, f.pods.Keys, gone);
    assert (f.pods - gone).Keys == f.pods.Keys - gone;
    IdleIn(f.pods, f.order);
    forall id | id in gone ensures IsIdle(f.pods, id) {
      assert id in IdleIds(f.pods, f.order);
    }
  }

  /** Scaling down removes exactly min(idle, half the excess rounded up) pods, the oldest idle ones. */
  lemma ShrinkOk(f: Fleet, minSize: int)
    requires FleetOk(f) && 0 <= minSize < |f.pods|
    ensures var g, gone := Shrink(f, minSize), Gone(f, minSize);
            && FleetOk(g) && KeepsClaimed(f, g)
            && |g.pods| == |f.pods| - |gone| >= minSize
            && |gone| == Min(|IdleIds(f.pods, f.order)|, (|f.pods| - minSize + 1) / 2)
            && gone <= IdleIds(f.pods, f.order)
            && g.pods.Keys == f.pods.Keys - Ids(gone)
  {
    var gone := Gone(f, minSize);
    hide FleetOk, KeepsClaimed, IdleIds, IsIdle, Lists;
    FleetSize(f);
    AnyShrinkOk(f, minSize);
    GoneSize(f, minSize);
    assert Shrink(f, minSize).pods.Keys == f.pods.Keys - Ids(Gone(f, minSize));
  }

  lemma GoneSize(f: Fleet, minSize: int)
    requires FleetOk(f)
    ensures Ids(Gone(f, minSize)) <= f.pods.Keys && |Ids(Gone(f, minSize))| == |Gone(f, minSize)|
  {
    IdleCount(f.pods, f.order, f.pods.Keys);
    IdsSize(IdleIds(f.pods, f.order), IdleSet(f.pods, f.pods.Keys), |Gone(f, minSize)|);
    IdleIn(f.pods, f.order);
    assert forall id | id in Gone(f, minSize) :: id in IdleIds(f.pods, f.order);
  }

  lemma KeepsTransitive(f: Fleet, g: Fleet, h: Fleet)
    requires KeepsClaimed(f, g) && KeepsClaimed(g, h)
    ensures KeepsClaimed(f, h)
  {
  }

  lemma GrowWithin(f: Fleet, cfg: Config, n: int)
    requires FleetOk(f) && Bounded(f, cfg)
    ensures var g := Grow(f, Min(n, cfg.maxSize - |f.order|));
            FleetOk(g) && KeepsClaimed(f, g) && Bounded(g, cfg) && |f.order| <= |g.order|
  {
    GrowOk(f, Min(n, cfg.maxSize - |f.order|));
    FleetSize(f);
    FleetSize(Grow(f, Min(n, cfg.maxSize - |f.order|)));
  }

  lemma ShrinkWithin(f: Fleet, cfg: Config)
    requires FleetOk(f) && Bounded(f, cfg) && cfg.minSize < |f.order|
    ensures var g := Shrink(f, cfg.minSize); FleetOk(g) && KeepsClaimed(f, g) && Bounded(g, cfg)
  {
    AnyShrinkOk(f, cfg.minSize);
    FleetSize(f);
    if cfg.Sane() {
      ShrinkOk(f, cfg.minSize);
    }
  }

  /** Whatever the demand and the thresholds: Reconcile keeps the pool's form and its size bounds, touches no claimed
      pod, and otherwise only adds new pods or takes idle ones away. */
  lemma ReconciledOk(f: Fleet, cfg: Config, demand: int, ready: bool)
    requires FleetOk(f) && Bounded(f, cfg)
    ensures var g := Reconciled(f, cfg, demand, ready); FleetOk(g) && KeepsClaimed(f, g) && Bounded(g, cfg)
  {
    hide FleetOk, KeepsClaimed, Bounded, Grow, Shrink, IdleIds, Min;
    assert KeepsClaimed(f, f) by { KeepsSelf(f); }
    GrowWithin(f, cfg, demand - |IdleIds(f.pods, f.order)|);
    GrowWithin(f, cfg, cfg.scaleUpStep);
    if !Bursts(f, demand) && ScalesDown(f, cfg, ready) {
      var grown := Grown(f, cfg, ready);
      ShrinkWithin(grown, cfg);
      KeepsTransitive(f, grown, Shrink(grown, cfg.minSize));
    }
  }

  lemma KeepsSelf(f: Fleet)
    ensures KeepsClaimed(f, f)
  {
  }

  // ----- the same, told by counting pods -----

  ghost function Idles(f: Fleet): nat {
    |IdleSet(f.pods, f.pods.Keys)|
  }

  /** n pods are new, idle, unclaimed and at the end of the list, and nothing else changed. */
  ghost predicate AddsNew(f: Fleet, g: Fleet, n: nat) {
    g.next == f.next + n && |g.pods| == |f.pods| + n && AddsIds(f.order, g.order, f.next, n) && AddsPods(f, g)
  }

  /** The order grows by the n ids from `next` on. */
  ghost predicate AddsIds(order: seq<nat>, more: seq<nat>, next: nat, n: nat) {
    |more| == |order| + n && more[..|order|] == order && forall i | |order| <= i < |more| :: more[i] - i == next - |order|
  }

  ghost predicate AddsPods(f: Fleet, g: Fleet) {
    && (forall id | id in f.pods :: id in g.pods && g.pods[id] == f.pods[id])
    && (forall id | id in g.pods && id !in f.pods ::
          f.next <= id < g.next && g.pods[id].state.Idle? && g.pods[id].job == "" && g.pods[id].version == 1)
  }

  /** n idle pods are gone, none of them younger than an idle one that stayed, and the others are as they were and in
      the same order. */
  ghost predicate Removes(f: Fleet, g: Fleet, n: nat) {
    RemovesIdle(f, g, n) && OldestFirst(f, g) && InOrder(f, g)
  }

  ghost predicate RemovesIdle(f: Fleet, g: Fleet, n: nat) {
    && g.next == f.next && g.pods.Keys <= f.pods.Keys && |f.pods.Keys - g.pods.Keys| == n
    && (forall id | id in f.pods && !f.pods[id].state.Idle? :: id in g.pods)
    && (forall id | id in g.pods :: g.pods[id] == f.pods[id])
  }

  ghost predicate OldestFirst(f: Fleet, g: Fleet) {
    forall i, j | 0 <= i < j < |f.order| && f.order[i] in g.pods && f.order[j] !in g.pods :: !IsIdle(f.pods, f.order[i])
  }

  ghost predicate InOrder(f: Fleet, g: Fleet) {
    Lists(g.order, g.pods.Keys) && forall i, j | 0 <= i < j < |g.order| :: Before(f.order, g.order[i], g.order[j])
  }

  ghost predicate Before(order: seq<nat>, a: nat, b: nat) {
    exists p, q :: 0 <= p < q < |order| && order[p] == a && order[q] == b
  }

  function AtLeast0(n: int): nat {
    if n < 0 then 0 else n
  }

  /** One call: a burst, or a growth below one threshold and a shrinking above the other once the cooldown is over. */
  ghost predicate Scaled(f: Fleet, g: Fleet, cfg: Config, demand: int, ready: bool) {
    var idle, size := Idles(f), |f.pods|;
    if demand > idle then AddsNew(f, g, AtLeast0(Min(demand - idle, cfg.maxSize - size)))
    else if !ready || size == 0 then g == f
    else
      var ratio := idle as real / size as real;
      exists mid: Fleet ::
        && (if ratio < cfg.scaleUpThreshold then AddsNew(f, mid, AtLeast0(Min(cfg.scaleUpStep, cfg.maxSize - size))) else mid == f)
        && (if ratio > cfg.scaleDownThreshold && size > cfg.minSize
            then Removes(mid, g, AtLeast0(Min(Idles(mid), (|mid.pods| - cfg.minSize + 1) / 2))) else g == mid)
  }

  lemma {:induction false} GrowAdds(f: Fleet, n: int)
    requires FleetOk(f)
    ensures FleetOk(Grow(f, n)) && AddsNew(f, Grow(f, n), AtLeast0(n))
  {
    if n > 0 {
      GrowAdds(f, n - 1);
      CreateAdds(f, Grow(f, n - 1), n - 1);
    }
  }

  lemma CreateAdds(f: Fleet, g: Fleet, n: nat)
    requires FleetOk(f) && FleetOk(g) && AddsNew(f, g, n)
    ensures FleetOk(Create(g)) && AddsNew(f, Create(g), n + 1)
  {
    hide FleetOk, AddsIds, AddsPods;
    CreateOk(g);
    OneMoreId(f.order, g.order, f.next, n);
    OneMorePod(f, g);
  }

  lemma OneMoreId(order: seq<nat>, more: seq<nat>, next: nat, n: nat)
    requires AddsIds(order, more, next, n)
    ensures AddsIds(order, more + [next + n], next, n + 1)
  {
    assert (more + [next + n])[..|order|] == more[..|order|];
  }

  lemma OneMorePod(f: Fleet, g: Fleet)
    requires FleetOk(f) && FleetOk(g) && AddsPods(f, g) && f.next <= g.next
    ensures AddsPods(f, Create(g))
  {
    NextIsNew(f, g);
    hide FleetOk;
  }

  lemma NextIsNew(f: Fleet, g: Fleet)
    requires FleetOk(f) && FleetOk(g) && f.next <= g.next
    ensures g.next !in g.pods && g.next !in f.pods
  {
    hide Lists;
  }

  lemma IdlesAre(f: Fleet)
    requires FleetOk(f)
    ensures Idles(f) == |IdleIds(f.pods, f.order)|
  {
    IdleCount(f.pods, f.order, f.pods.Keys);
  }

  /** The first k idle pods are the oldest. */
  lemma {:induction false} FirstAreOldest(pods: map<nat, Pod>, order: seq<nat>, k: nat, i: nat, j: nat)
    requires forall a, b | 0 <= a < b < |order| :: order[a] != order[b]
    requires i < j < |order| && k <= |IdleIds(pods, order)|
    requires order[j] in IdleIds(pods, order)[..k] && IsIdle(pods, order[i])
    ensures order[i] in IdleIds(pods, order)[..k]
  {
    var n := |order| - 1;
    var before := IdleIds(pods, order[..n]);
    IdleIn(pods, order[..n]);
    if k <= |before| {
      assert IdleIds(pods, order)[..k] == before[..k];
      assert j < n;
      FirstAreOldest(pods, order[..n], k, i, j);
    } else {
      assert order[i] == order[..n][i] && order[i] in before;
      assert IdleIds(pods, order)[..k] == before + [order[n]];
    }
  }

  lemma {:induction false} WithoutBefore(order: seq<nat>, gone: set<nat>, i: nat, j: nat)
    requires i < j < |Without(order, gone)|
    ensures Before(order, Without(order, gone)[i], Without(order, gone)[j])
  {
    var n := |order| - 1;
    var rest, before := Without(order, gone), Without(order[..n], gone);
    if j < |before| {
      WithoutBefore(order[..n], gone, i, j);
      var p, q :| 0 <= p < q < n && order[..n][p] == before[i] && order[..n][q] == before[j];
      assert order[p] == rest[i] && order[q] == rest[j];
    } else {
      WithoutIn(order[..n], gone);
      assert before[i] in order[..n];
      var p :| 0 <= p < n && order[p] == before[i];
      assert order[p] == rest[i] && order[n] == rest[j];
    }
  }

  lemma RemovedAre(f: Fleet, minSize: int)
    requires FleetOk(f)
    ensures RemovesIdle(f, Shrink(f, minSize), |Gone(f, minSize)|)
    ensures f.pods.Keys - Shrink(f, minSize).pods.Keys == Ids(Gone(f, minSize))
  {
    hide Lists;
    AnyShrinkOk(f, minSize);
    GoneSize(f, minSize);
    var g, gone := Shrink(f, minSize), Gone(f, minSize);
    assert f.pods.Keys - g.pods.Keys == Ids(gone);
    IdleIn(f.pods, f.order);
    forall id | id in gone ensures IsIdle(f.pods, id) {
      assert id in IdleIds(f.pods, f.order);
    }
  }

  lemma OldestGo(f: Fleet, minSize: int)
    requires FleetOk(f) && f.pods.Keys - Shrink(f, minSize).pods.Keys == Ids(Gone(f, minSize))
    ensures OldestFirst(f, Shrink(f, minSize))
  {
    hide IsIdle, Shrink, Half, Min;
    var g, n := Shrink(f, minSize), |Gone(f, minSize)|;
    GoneAreFirst(f, minSize);
    hide Gone;
    forall i, j | 0 <= i < j < |f.order| && f.order[i] in g.pods && f.order[j] !in g.pods ensures !IsIdle(f.pods, f.order[i]) {
      assert f.order[j] in f.pods.Keys - g.pods.Keys && f.order[i] !in f.pods.Keys - g.pods.Keys;
      if IsIdle(f.pods, f.order[i]) {
        FirstAreOldest(f.pods, f.order, n, i, j);
      }
    }
  }

  lemma GoneAreFirst(f: Fleet, minSize: int)
    ensures var n := |Gone(f, minSize)|; n <= |IdleIds(f.pods, f.order)| && Gone(f, minSize) == IdleIds(f.pods, f.order)[..n]
  {
  }

  lemma OrderStays(f: Fleet, minSize: int)
    requires FleetOk(f)
    ensures InOrder(f, Shrink(f, minSize))
  {
    hide Before, Gone, Lists, Without;
    AnyShrinkOk(f, minSize);
    var g := Shrink(f, minSize);
    forall i, j | 0 <= i < j < |g.order| ensures Before(f.order, g.order[i], g.order[j]) {
      WithoutBefore(f.order, Ids(Gone(f, minSize)), i, j);
    }
  }

  lemma ShrinkRemoves(f: Fleet, minSize: int)
    requires FleetOk(f) && minSize < |f.pods|
    ensures Removes(f, Shrink(f, minSize), AtLeast0(Min(Idles(f), (|f.pods| - minSize + 1) / 2)))
  {
    hide FleetOk, RemovesIdle, OldestFirst, InOrder, Shrink, Gone, Min;
    FleetSize(f);
    IdlesAre(f);
    GoneNumber(f, minSize);
    RemovedAre(f, minSize);
    OldestGo(f, minSize);
    OrderStays(f, minSize);
  }

  lemma GoneNumber(f: Fleet, minSize: int)
    requires |f.order| == |f.pods| && minSize < |f.pods|
    ensures |Gone(f, minSize)| == AtLeast0(Min(|IdleIds(f.pods, f.order)|, (|f.pods| - minSize + 1) / 2))
  {
  }

  lemma ListedAre(f: Fleet)
    requires FleetOk(f)
    ensures Lists(f.order, f.pods.Keys) && (forall i | 0 <= i < |f.order| :: f.order[i] in f.pods)
  {
  }

  /** Reconcile adds what a burst asks for and there is room for; otherwise, with the cooldown over, it adds a step below
      the lower threshold and takes half the excess, oldest idle pods first, above the upper one. */
  lemma ReconciledIs(f: Fleet, cfg: Config, demand: int, ready: bool)
    requires FleetOk(f)
    ensures Scaled(f, Reconciled(f, cfg, demand, ready), cfg, demand, ready)
  {
    hide FleetOk, AddsNew, Removes, Min, Grow, Shrink, IdleIds;
    FleetSize(f);
    IdlesAre(f);
    GrowAdds(f, Min(demand - Idles(f), cfg.maxSize - |f.pods|));
    GrowAdds(f, Min(cfg.scaleUpStep, cfg.maxSize - |f.pods|));
    if demand <= Idles(f) && ready && |f.pods| > 0 {
      var mid := Grown(f, cfg, ready);
      if ScalesDown(f, cfg, ready) {
        GrowOk(f, Min(cfg.scaleUpStep, cfg.maxSize - |f.pods|));
        NoSmaller(f, mid);
        ShrinkRemoves(mid, cfg.minSize);
      }
      assert (if ScalesUp(f, cfg, ready) then AddsNew(f, mid, AtLeast0(Min(cfg.scaleUpStep, cfg.maxSize - |f.pods|))) else mid == f);
    }
  }

  lemma NoSmaller(f: Fleet, g: Fleet)
    requires g == f || |g.pods| >= |f.pods|
    ensures |g.pods| >= |f.pods|
  {
  }

  lemma ShrunkSize(f: Fleet, minSize: int)
    requires FleetOk(f)
    ensures var g := Shrink(f, minSize); |g.order| == |f.order| - |Gone(f, minSize)| && g.next == f.next
  {
    hide Gone, Lists, Without;
    AnyShrinkOk(f, minSize);
    RemovedAre(f, minSize);
    var g := Shrink(f, minSize);
    FleetSize(f);
    FleetSize(g);
    assert f.pods.Keys == g.pods.Keys + (f.pods.Keys - g.pods.Keys);
    SizesAdd(g.pods.Keys, f.pods.Keys - g.pods.Keys);
    assert |g.pods.Keys| == |g.pods| && |f.pods.Keys| == |f.pods|;
  }

  /** It counts as a scale-up if there was a burst or a pod was added, and as a scale-down if one was removed. */
  lemma CountsAre(f: Fleet, cfg: Config, demand: int, ready: bool)
    requires FleetOk(f)
    ensures var g := Reconciled(f, cfg, demand, ready);
            && (CountsUp(f, cfg, demand, ready) <==> demand > Idles(f) || g.next > f.next)
            && (CountsDown(f, cfg, demand, ready) <==> |g.order| < |f.order| + (g.next - f.next))
  {
    hide FleetOk, AddsIds, AddsPods, Min, Grow, Shrink, IdleIds, Gone;
    IdlesAre(f);
    FleetSize(f);
    GrowAdds(f, Min(demand - Idles(f), cfg.maxSize - |f.pods|));
    GrowAdds(f, Min(cfg.scaleUpStep, cfg.maxSize - |f.pods|));
    OrderGrows(f, Min(demand - Idles(f), cfg.maxSize - |f.pods|));
    OrderGrows(f, Min(cfg.scaleUpStep, cfg.maxSize - |f.pods|));
    ShrunkSize(Grown(f, cfg, ready), cfg.minSize);
  }

  lemma OrderGrows(f: Fleet, n: int)
    requires AddsNew(f, Grow(f, n), AtLeast0(n))
    ensures |Grow(f, n).order| == |f.order| + AtLeast0(n)
  {
  }

  lemma AddedAreIdle(f: Fleet, g: Fleet)
    requires AddsPods(f, g)
    ensures var added := g.pods.Keys - f.pods.Keys;
            && g.pods.Keys == f.pods.Keys + added
            && IdleSet(g.pods, g.pods.Keys) == IdleSet(f.pods, f.pods.Keys) + added && IdleSet(f.pods, f.pods.Keys) !! added
  {
  }

  lemma SizesAdd(a: set<nat>, b: set<nat>)
    requires a !! b
    ensures |a + b| == |a| + |b|
  {
  }

  lemma AddedIdles(f: Fleet, g: Fleet, n: nat)
    requires AddsPods(f, g) && |g.pods| == |f.pods| + n
    ensures Idles(g) == Idles(f) + n
  {
    hide AddsPods, IdleSet;
    AddedAreIdle(f, g);
    SizesAdd(f.pods.Keys, g.pods.Keys - f.pods.Keys);
    SizesAdd(IdleSet(f.pods, f.pods.Keys), g.pods.Keys - f.pods.Keys);
    assert |g.pods.Keys| == |g.pods| && |f.pods.Keys| == |f.pods|;
  }

  /** After a burst there are idle pods for the whole demand, or there is no room for more. */
  lemma BurstMeetsDemand(f: Fleet, g: Fleet, cfg: Config, demand: int, ready: bool)
    requires Scaled(f, g, cfg, demand, ready) && demand > Idles(f)
    ensures Idles(g) == Idles(f) + AtLeast0(Min(demand - Idles(f), cfg.maxSize - |f.pods|))
    ensures Idles(g) >= demand || |g.pods| >= cfg.maxSize
  {
    var n := AtLeast0(Min(demand - Idles(f), cfg.maxSize - |f.pods|));
    assert AddsNew(f, g, n);
    AddedIdles(f, g, n);
  }
}
