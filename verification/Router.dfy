/** `ProviderRouter` of `router.py`: round robin over the providers that are not cooling down. */
module Router {
  import opened Common

  type PoolKey = seq<string>

  const COOLDOWN_SECS: real := 60.0
  const RATE_LIMIT_COOLDOWN_SECS: real := 300.0

  datatype RouterState = RouterState(counters: map<PoolKey, nat>, cooldowns: map<(PoolKey, string), real>)

  function CooldownUntil(st: RouterState, key: PoolKey, p: string): real {
    if (key, p) in st.cooldowns then st.cooldowns[(key, p)] else 0.0
  }

  predicate IsHealthy(st: RouterState, key: PoolKey, p: string, now: real) {
    CooldownUntil(st, key, p) <= now
  }

  /** The healthy providers, in pool order. */
  function Healthy(st: RouterState, key: PoolKey, providers: seq<string>, now: real): (r: seq<string>)
    ensures forall p :: p in r <==> p in providers && IsHealthy(st, key, p, now)
    ensures |r| <= |providers|
  {
    if providers == [] then []
    else (if IsHealthy(st, key, providers[0], now) then [providers[0]] else []) + Healthy(st, key, providers[1..], now)
  }

  /** The first provider whose cooldown ends soonest. */
  function Soonest(st: RouterState, key: PoolKey, providers: seq<string>): (best: string)
    requires providers != []
    ensures best in providers
    ensures forall p :: p in providers ==> CooldownUntil(st, key, best) <= CooldownUntil(st, key, p)
  {
    if |providers| == 1 then providers[0]
    else
      var rest := Soonest(st, key, providers[1..]);
      if CooldownUntil(st, key, providers[0]) <= CooldownUntil(st, key, rest) then providers[0] else rest
  }

  function Counter(st: RouterState, key: PoolKey): nat {
    if key in st.counters then st.counters[key] else 0
  }

  /** `pick` as a function of the router's state; `None` stands for its `ValueError`. */
  function Pick(st: RouterState, key: PoolKey, providers: seq<string>, now: real): (RouterState, Option<string>) {
    if providers == [] then (st, None)
    else if |providers| == 1 then (st, Some(providers[0]))
    else
      var healthy := Healthy(st, key, providers, now);
      if healthy != [] then
        var idx := Counter(st, key) % |healthy|;
        (st.(counters := st.counters[key := (idx + 1) % |healthy|]), Some(healthy[idx]))
      else (st, Some(Soonest(st, key, providers)))
  }

  function MarkFailed(st: RouterState, key: PoolKey, source: string, isRateLimit: bool, now: real): RouterState {
    var cooldown := if isRateLimit then RATE_LIMIT_COOLDOWN_SECS else COOLDOWN_SECS;
    st.(cooldowns := st.cooldowns[(key, source) := now + cooldown])
  }

  class ProviderRouter {
    var counters: map<PoolKey, nat>
    var cooldowns: map<(PoolKey, string), real>

    constructor ()
      ensures State() == RouterState(map[], map[])
    {
      counters, cooldowns := map[], map[];
    }

    ghost function State(): RouterState
      reads this
    {
      RouterState(counters, cooldowns)
    }

    method PickProvider(key: PoolKey, providers: seq<string>, now: real) returns (chosen: Option<string>)
      modifies this
      ensures (State(), chosen) == Pick(old(State()), key, providers, now)
    {
      if providers == [] {
        return None;
      }
      if |providers| == 1 {
        return Some(providers[0]);
      }
      var st := RouterState(counters, cooldowns);
      var healthy := Healthy(st, key, providers, now);
      if healthy != [] {
        var idx := (if key in counters then counters[key] else 0) % |healthy|;
        chosen := Some(healthy[idx]);
        counters := counters[key := (idx + 1) % |healthy|];
        return;
      }
      chosen := Some(Soonest(st, key, providers));
    }

    method RecordFailure(key: PoolKey, source: string, isRateLimit: bool, now: real)
      modifies this
      ensures State() == MarkFailed(old(State()), key, source, isRateLimit, now)
    {
      var cooldown := if isRateLimit then RATE_LIMIT_COOLDOWN_SECS else COOLDOWN_SECS;
      cooldowns := cooldowns[(key, source) := now + cooldown];
    }

    method Reset()
      modifies this
      ensures State() == RouterState(map[], map[])
    {
      counters, cooldowns := map[], map[];
    }
  }

  /** A pick is healthy whenever some provider is, and otherwise the one that recovers soonest. */
  lemma PickPrefersHealthy(st: RouterState, key: PoolKey, providers: seq<string>, now: real)
    requires |providers| >= 2
    ensures Pick(st, key, providers, now).1.Some?
    ensures var p := Pick(st, key, providers, now).1.value;
      && p in providers
      && ((exists q :: q in providers && IsHealthy(st, key, q, now)) ==> IsHealthy(st, key, p, now))
      && (IsHealthy(st, key, p, now) || forall q :: q in providers ==>
           CooldownUntil(st, key, p) <= CooldownUntil(st, key, q))
    ensures Pick(st, key, providers, now).0.cooldowns == st.cooldowns
  {
    var healthy := Healthy(st, key, providers, now);
    if exists q :: q in providers && IsHealthy(st, key, q, now) {
      var q :| q in providers && IsHealthy(st, key, q, now);
      assert q in healthy;
      assert healthy[Counter(st, key) % |healthy|] in healthy;
    }
  }

  // ---------------------------------------------------------------------------
  // Fairness
  // ---------------------------------------------------------------------------

  predicate Distinct(s: seq<string>) {
    forall i, j :: 0 <= i < j < |s| ==> s[i] != s[j]
  }

  lemma {:induction false} HealthyIsDistinct(st: RouterState, key: PoolKey, providers: seq<string>, now: real)
    requires Distinct(providers)
    ensures Distinct(Healthy(st, key, providers, now))
  {
    if providers != [] {
      HealthyIsDistinct(st, key, providers[1..], now);
    }
  }

  /** Consecutive picks, one per clock reading. */
  function PickMany(st: RouterState, key: PoolKey, providers: seq<string>, times: seq<real>): (picks: seq<string>)
    requires providers != []
    ensures |picks| == |times|
    decreases |times|
  {
    if times == [] then []
    else
      var (st', p) := Pick(st, key, providers, times[0]);
      [p.value] + PickMany(st', key, providers, times[1..])
  }

  /** `m` steps round the ring `ring`, starting at index `c`. */
  function Rotation(ring: seq<string>, c: nat, m: nat): (r: seq<string>)
    requires c < |ring|
    ensures |r| == m
    decreases m
  {
    if m == 0 then [] else [ring[c]] + Rotation(ring, Next(c, |ring|), m - 1)
  }

  function Next(c: nat, k: nat): nat
    requires c < k
    ensures Next(c, k) < k
  {
    if c + 1 == k then 0 else c + 1
  }

  lemma NextIsMod(c: nat, k: nat)
    requires c < k
    ensures (c + 1) % k == Next(c, k) && Next(c, k) % k == Next(c, k)
  {
  }

  /** How many full rounds of `k` fit in `m` steps. */
  function Rounds(m: nat, k: nat): nat
    requires k > 0
  {
    if m < k then 0 else 1 + Rounds(m - k, k)
  }

  /** A pick while the healthy set is `ring`: the counter's place in it, and one step on. */
  lemma HealthyPick(st: RouterState, key: PoolKey, providers: seq<string>, now: real, ring: seq<string>)
    requires |providers| >= 2 && ring != [] && Healthy(st, key, providers, now) == ring
    ensures var (st', p) := Pick(st, key, providers, now);
      var c := Counter(st, key) % |ring|;
      p == Some(ring[c]) && st'.cooldowns == st.cooldowns && Counter(st', key) % |ring| == Next(c, |ring|)
  {
    NextIsMod(Counter(st, key) % |ring|, |ring|);
  }

  /** While the healthy set stays `ring`, picks walk round it, whatever the counter holds at first. */
  lemma {:induction false} PicksAreARotation(st: RouterState, key: PoolKey, providers: seq<string>, times: seq<real>,
                                             ring: seq<string>)
    requires |providers| >= 2 && ring != []
    requires forall i :: 0 <= i < |times| ==> Healthy(st, key, providers, times[i]) == ring
    ensures PickMany(st, key, providers, times) == Rotation(ring, Counter(st, key) % |ring|, |times|)
    decreases |times|
  {
    if times != [] {
      var st' := Pick(st, key, providers, times[0]).0;
      HealthyPick(st, key, providers, times[0], ring);
      forall i | 0 <= i < |times[1..]|
        ensures Healthy(st', key, providers, times[1..][i]) == ring
      {
        SameCooldownsSameHealth(st, st', key, providers, times[i + 1]);
      }
      PicksAreARotation(st', key, providers, times[1..], ring);
    }
  }

  lemma {:induction false} SameCooldownsSameHealth(st: RouterState, st': RouterState, key: PoolKey,
        providers: seq<string>, now: real)
    requires st.cooldowns == st'.cooldowns
    ensures Healthy(st, key, providers, now) == Healthy(st', key, providers, now)
  {
    if providers != [] {
      SameCooldownsSameHealth(st, st', key, providers[1..], now);
    }
  }

  function CountOf(s: seq<string>, p: string): nat {
    if s == [] then 0 else (if s[0] == p then 1 else 0) + CountOf(s[1..], p)
  }

  lemma {:induction false} CountOfConcat(a: seq<string>, b: seq<string>, p: string)
    ensures CountOf(a + b, p) == CountOf(a, p) + CountOf(b, p)
  {
    if a == [] {
      assert a + b == b;
    } else {
      assert (a + b)[1..] == a[1..] + b;
      CountOfConcat(a[1..], b, p);
    }
  }

  lemma {:induction false} CountOfDistinct(s: seq<string>, p: string)
    requires Distinct(s)
    ensures CountOf(s, p) == if p in s then 1 else 0
  {
    if s != [] {
      CountOfDistinct(s[1..], p);
      assert s == [s[0]] + s[1..];
    }
  }

  /** Where a walk of at most one round goes: to the end of the ring, then on from its start. */
  lemma {:induction false} RotationIsTwoSlices(ring: seq<string>, c: nat, m: nat)
    requires c < |ring| && m <= |ring|
    ensures Rotation(ring, c, m) == if c + m <= |ring| then ring[c..c + m] else ring[c..] + ring[..c + m - |ring|]
    decreases m
  {
    if m > 0 {
      RotationIsTwoSlices(ring, Next(c, |ring|), m - 1);
    }
  }

  /** A full round returns to its start. */
  lemma {:induction false} RotationSplits(ring: seq<string>, c: nat, d: nat, m: nat)
    requires c < |ring| && d <= |ring| && d <= m
    ensures Rotation(ring, c, m) ==
      Rotation(ring, c, d) + Rotation(ring, if c + d < |ring| then c + d else c + d - |ring|, m - d)
    decreases d
  {
    if d > 0 {
      var c' := Next(c, |ring|);
      RotationSplits(ring, c', d - 1, m - 1);
      var e := if c + d < |ring| then c + d else c + d - |ring|;
      assert e == if c' + (d - 1) < |ring| then c' + (d - 1) else c' + (d - 1) - |ring|;
      ConcatIsAssociative([ring[c]], Rotation(ring, c', d - 1), Rotation(ring, e, m - d));
    }
  }

  /** One round meets every member of the ring exactly once. */
  lemma RoundCountsOnce(ring: seq<string>, c: nat, p: string)
    requires c < |ring| && Distinct(ring)
    ensures CountOf(Rotation(ring, c, |ring|), p) == if p in ring then 1 else 0
  {
    RotationIsTwoSlices(ring, c, |ring|);
    SplitAndJoin(ring, c);
    assert ring[c..|ring|] == ring[c..] && ring[..c + |ring| - |ring|] == ring[..c];
    assert c == 0 ==> ring[c..] + ring[..c] == ring[c..];
    CountOfConcat(ring[c..], ring[..c], p);
    CountOfConcat(ring[..c], ring[c..], p);
    CountOfDistinct(ring, p);
  }

  lemma {:induction false} RotationCount(ring: seq<string>, c: nat, m: nat, p: string)
    requires c < |ring| && Distinct(ring) && p in ring
    ensures Rounds(m, |ring|) <= CountOf(Rotation(ring, c, m), p) <= Rounds(m, |ring|) + 1
    decreases m
  {
    var k := |ring|;
    if m < k {
      RotationSplits(ring, c, m, k);
      var e := if c + m < k then c + m else c + m - k;
      CountOfConcat(Rotation(ring, c, m), Rotation(ring, e, k - m), p);
      RoundCountsOnce(ring, c, p);
    } else {
      RotationSplits(ring, c, k, m);
      CountOfConcat(Rotation(ring, c, k), Rotation(ring, c, m - k), p);
      RoundCountsOnce(ring, c, p);
      RotationCount(ring, c, m - k, p);
    }
  }

  /** `k` consecutive picks return each of the `k` healthy providers exactly once, whatever the starting counter. */
  lemma RoundRobinIsExact(st: RouterState, key: PoolKey, providers: seq<string>, times: seq<real>, ring: seq<string>,
                          p: string)
    requires |providers| >= 2 && Distinct(providers) && ring != [] && |times| == |ring|
    requires forall i :: 0 <= i < |times| ==> Healthy(st, key, providers, times[i]) == ring
    ensures CountOf(PickMany(st, key, providers, times), p) == if p in ring then 1 else 0
  {
    HealthyIsDistinct(st, key, providers, times[0]);
    PicksAreARotation(st, key, providers, times, ring);
    RoundCountsOnce(ring, Counter(st, key) % |ring|, p);
  }

  /** Over any number of picks two healthy providers are chosen equally often, give or take one. */
  lemma RoundRobinIsFair(st: RouterState, key: PoolKey, providers: seq<string>, times: seq<real>, ring: seq<string>,
                         p: string, q: string)
    requires |providers| >= 2 && Distinct(providers) && p in ring && q in ring
    requires forall i :: 0 <= i < |times| ==> Healthy(st, key, providers, times[i]) == ring
    ensures var picks := PickMany(st, key, providers, times);
      -1 <= CountOf(picks, p) - CountOf(picks, q) <= 1
  {
    if times != [] {
      HealthyIsDistinct(st, key, providers, times[0]);
      PicksAreARotation(st, key, providers, times, ring);
      RotationCount(ring, Counter(st, key) % |ring|, |times|, p);
      RotationCount(ring, Counter(st, key) % |ring|, |times|, q);
    }
  }

  // ---------------------------------------------------------------------------
  // What a failure does
  // ---------------------------------------------------------------------------

  /**
   * A failed provider is unhealthy for five minutes after a rate limit and for one minute after any other failure;
   * no other provider, no other pool and no counter is touched.
   */
  lemma FailureCools(st: RouterState, key: PoolKey, source: string, isRateLimit: bool, failedAt: real,
                     key': PoolKey, p: string, now: real)
    ensures var st' := MarkFailed(st, key, source, isRateLimit, failedAt);
      && st'.counters == st.counters
      && (IsHealthy(st', key', p, now) <==>
            if key' == key && p == source then now - failedAt >= (if isRateLimit then 300.0 else 60.0)
            else IsHealthy(st, key', p, now))
  {
  }

  /** A provider that never failed is healthy; a new router has no others. */
  lemma NewRouterIsHealthy(key: PoolKey, p: string, now: real)
    requires now >= 0.0
    ensures IsHealthy(RouterState(map[], map[]), key, p, now)
  {
  }

  /** Where a provider first stands in a pool. */
  function FirstIndex(providers: seq<string>, p: string): (i: nat)
    requires p in providers
    ensures i < |providers| && providers[i] == p && forall j :: 0 <= j < i ==> providers[j] != p
  {
    if providers[0] == p then 0
    else
      assert providers == [providers[0]] + providers[1..];
      1 + FirstIndex(providers[1..], p)
  }

  lemma {:induction false} SoonestIsFirst(st: RouterState, key: PoolKey, providers: seq<string>)
    requires providers != []
    ensures var best := Soonest(st, key, providers);
      forall j :: 0 <= j < FirstIndex(providers, best) ==>
        CooldownUntil(st, key, providers[j]) > CooldownUntil(st, key, best)
  {
    if |providers| > 1 {
      var rest := providers[1..];
      SoonestIsFirst(st, key, rest);
      var best := Soonest(st, key, providers);
      if best != providers[0] {
        assert FirstIndex(providers, best) == 1 + FirstIndex(rest, best);
        forall j | 0 <= j < FirstIndex(providers, best)
          ensures CooldownUntil(st, key, providers[j]) > CooldownUntil(st, key, best)
        {
          if j > 0 {
            assert providers[j] == rest[j - 1];
          }
        }
      }
    }
  }

  lemma NoneIsHealthy(st: RouterState, key: PoolKey, providers: seq<string>, now: real)
    requires forall p :: p in providers ==> !IsHealthy(st, key, p, now)
    ensures Healthy(st, key, providers, now) == []
  {
  }

  /** When all are cooling down, the first of those that recover soonest is picked, and nothing is counted. */
  lemma CoolingPoolPick(st: RouterState, key: PoolKey, providers: seq<string>, now: real)
    requires |providers| >= 2 && forall p :: p in providers ==> !IsHealthy(st, key, p, now)
    ensures Pick(st, key, providers, now).0 == st && Pick(st, key, providers, now).1.Some?
    ensures var best := Pick(st, key, providers, now).1.value;
      && best in providers
      && (forall p :: p in providers ==> CooldownUntil(st, key, best) <= CooldownUntil(st, key, p))
      && (forall j :: 0 <= j < FirstIndex(providers, best) ==>
            CooldownUntil(st, key, providers[j]) > CooldownUntil(st, key, best))
  {
    NoneIsHealthy(st, key, providers, now);
    SoonestIsFirst(st, key, providers);
  }

  /** An empty pool is an error, and a lone provider is picked healthy or not; neither counts. */
  lemma SmallPoolPick(st: RouterState, key: PoolKey, p: string, now: real)
    ensures Pick(st, key, [], now) == (st, None)
    ensures Pick(st, key, [p], now) == (st, Some(p))
  {
  }

  lemma {:induction false} FirstHealthy(st: RouterState, key: PoolKey, providers: seq<string>, now: real, k: nat)
    requires k < |providers| && IsHealthy(st, key, providers[k], now)
    requires forall j :: 0 <= j < k ==> !IsHealthy(st, key, providers[j], now)
    ensures Healthy(st, key, providers, now) != [] && Healthy(st, key, providers, now)[0] == providers[k]
  {
    if k > 0 {
      FirstHealthy(st, key, providers[1..], now, k - 1);
    }
  }

  /** A pool that was never picked from starts with the first of its healthy providers. */
  lemma NewPoolStartsFirst(st: RouterState, key: PoolKey, providers: seq<string>, now: real, k: nat)
    requires |providers| >= 2 && key !in st.counters
    requires k < |providers| && IsHealthy(st, key, providers[k], now)
    requires forall j :: 0 <= j < k ==> !IsHealthy(st, key, providers[j], now)
    ensures Pick(st, key, providers, now).1 == Some(providers[k])
  {
    FirstHealthy(st, key, providers, now, k);
    var n := |Healthy(st, key, providers, now)|;
    assert Counter(st, key) == 0 && 0 % n == 0;
  }
}
