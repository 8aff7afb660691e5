/** `BaseUI._dispatch` of `_base.py`: router pick, cache lookup, retry loop, cache write. */
module Dispatch {
  import opened Common
  import opened CacheHistory
  import MemoryCache
  import opened Router

  /** What the provider call does; a failure is described by `_is_retriable` and `_is_rate_limit`. */
  datatype Outcome<+V> = Success(value: V) | Failure(retriable: bool, rateLimit: bool)

  datatype Result<+V> =
    | Cached(value: V)
    | Fetched(value: V)
    | ProviderError(failure: Outcome<V>)
    | MissingSourceKey   // `kwargs["source"]` is gone: a KeyError escapes the retry handler
    | EmptyPool          // `pick` raises ValueError

  /**
   * What `_execute_dispatch` does with `source`.  An API class whose constructor names it is given it, popped from the
   * shared dict; every other API or explorer target runs without it; only a connector is given it and leaves it there.
   */
  datatype SourceUse = Popped | Stripped | Forwarded

  /** One dispatch.  `request` is what the key is made of besides the source. */
  datatype Call = Call(
    request: string, callerSource: Option<string>, defaultSource: Option<string>,
    poolKey: PoolKey, pool: Option<seq<string>>, sourceUse: SourceUse,
    useCache: bool, ttl: int, pickAt: real, lookupAt: real)

  /** The target, by attempt and the source it is handed, and the clock, by attempt. */
  datatype Env<!V> = Env(target: (nat, Option<string>) -> Outcome<V>, failAt: nat -> real, repickAt: nat -> real,
                         storeAt: nat -> real)

  /** `source` is what was picked for the attempt, `handed` what the target was given of it. */
  datatype Attempt<+V> = Attempt(source: string, handed: Option<string>, outcome: Outcome<V>)

  /** The end of a dispatch: router and cache afterwards, the result, the attempts, and the cache calls made. */
  datatype Final<V> = Final(router: RouterState, store: MemoryCache.Store<V>, result: Result<V>, trace: seq<Attempt<V>>,
                            ops: seq<Op<V>>)

  function UsesRouter(call: Call): bool {
    call.callerSource.None? && call.pool.Some?
  }

  function MaxAttempts(call: Call): nat {
    if UsesRouter(call) && call.pool.value != [] then |call.pool.value| else 1
  }

  function SourceText(source: Option<string>): string {
    match source case Some(s) => s case None => ""
  }

  /** `kwargs["source"]` once the router, the caller or the registry has chosen. */
  function FirstPick(router: RouterState, call: Call): (RouterState, Option<string>) {
    if call.callerSource.Some? then (router, call.callerSource)
    else if call.pool.Some? then Pick(router, call.poolKey, call.pool.value, call.pickAt)
    else (router, call.defaultSource)
  }

  /** The source the target is given. */
  function Handed(call: Call, source: Option<string>): Option<string> {
    if call.sourceUse.Stripped? then None else source
  }

  /** What is left under `source` after `_execute_dispatch` has run. */
  function AfterExecute(call: Call, source: Option<string>): Option<string> {
    if call.sourceUse.Popped? then None else source
  }

  /** How one attempt ends: with a result, or by picking the source of the next one. */
  datatype Next<+V> = Done(result: Result<V>) | Retry(source: Option<string>)

  datatype Step<V> = Step(router: RouterState, store: MemoryCache.Store<V>, next: Next<V>, attempt: Attempt<V>,
                          ops: seq<Op<V>>)

  /** One pass of the retry loop. */
  function OneAttempt<V(!new)>(call: Call, env: Env<V>, maxSize: nat, key: string,
                               router: RouterState, store: MemoryCache.Store<V>, attempt: nat,
                               source: Option<string>): Step<V>
  {
    var outcome := env.target(attempt, Handed(call, source));
    var tried := Attempt(SourceText(source), Handed(call, source), outcome);
    match outcome
    case Success(value) =>
      if call.useCache then
        Step(router, MemoryCache.Set(store, maxSize, key, value, call.ttl, env.storeAt(attempt)), Done(Fetched(value)),
             tried, [SetOp(key, value, call.ttl, env.storeAt(attempt))])
      else Step(router, store, Done(Fetched(value)), tried, [])
    case Failure(retriable, rateLimit) =>
      if !(UsesRouter(call) && retriable) then Step(router, store, Done(ProviderError(outcome)), tried, [])
      else if AfterExecute(call, source).None? then Step(router, store, Done(MissingSourceKey), tried, [])
      else
        var marked :=
          MarkFailed(router, call.poolKey, AfterExecute(call, source).value, rateLimit, env.failAt(attempt));
        if attempt + 1 < MaxAttempts(call) then
          var (picked, next) := Pick(marked, call.poolKey, call.pool.value, env.repickAt(attempt));
          Step(picked, store, Retry(next), tried, [])
        else Step(marked, store, Done(ProviderError(outcome)), tried, [])
  }

  /** The retry loop from attempt number `attempt` on. */
  function Loop<V(!new)>(call: Call, env: Env<V>, maxSize: nat, key: string,
                         router: RouterState, store: MemoryCache.Store<V>, attempt: nat,
                         source: Option<string>): (f: Final<V>)
    requires attempt < MaxAttempts(call)
    decreases MaxAttempts(call) - attempt
  {
    var s := OneAttempt(call, env, maxSize, key, router, store, attempt, source);
    match s.next
    case Done(result) => Final(s.router, s.store, result, [s.attempt], s.ops)
    case Retry(next) =>
      var rest := Loop(call, env, maxSize, key, s.router, s.store, attempt + 1, next);
      rest.(trace := [s.attempt] + rest.trace, ops := s.ops + rest.ops)
  }

  /** One dispatch as a function of the router and the cache. */
  function Dispatched<V(!new)>(call: Call, env: Env<V>, maxSize: nat, keyOf: (string, string) -> string,
                             router: RouterState, store: MemoryCache.Store<V>): Final<V>
  {
    var (router', source) := FirstPick(router, call);
    if UsesRouter(call) && source.None? then Final(router', store, EmptyPool, [], [])
    else
      var key := keyOf(SourceText(source), call.request);
      if call.useCache then
        var (store', hit) := MemoryCache.Get(store, key, call.lookupAt);
        if hit.Some? then Final(router', store', Cached(hit.value), [], [GetOp(key, call.lookupAt)])
        else
          var f := Loop(call, env, maxSize, key, router', store', 0, source);
          f.(ops := [GetOp(key, call.lookupAt)] + f.ops)
      else Loop(call, env, maxSize, key, router', store, 0, source)
  }

  /** The shared router, the shared cache, and the dispatch that uses both. */
  class Dispatcher<V(!new)> {
    const router: ProviderRouter
    const cache: MemoryCache.MemoryBackend<V>

    constructor (router: ProviderRouter, cache: MemoryCache.MemoryBackend<V>)
      ensures this.router == router && this.cache == cache
    {
      this.router := router;
      this.cache := cache;
    }

    method Run(call: Call, env: Env<V>, keyOf: (string, string) -> string)
      returns (result: Result<V>, trace: seq<Attempt<V>>)
      modifies router, cache
      ensures var f := Dispatched(call, env, cache.maxSize, keyOf, old(router.State()), old(cache.store));
        router.State() == f.router && cache.store == f.store && result == f.result && trace == f.trace
    {
      trace := [];
      var source := call.callerSource;
      if source.None? {
        source := call.defaultSource;
        if call.pool.Some? {
          source := router.PickProvider(call.poolKey, call.pool.value, call.pickAt);
          if source.None? {
            return EmptyPool, trace;
          }
        }
      }
      var key := keyOf(SourceText(source), call.request);
      if call.useCache {
        var hit := cache.GetValue(key, call.lookupAt);
        if hit.Some? {
          return Cached(hit.value), trace;
        }
      }
      result, trace := RunAttempts(call, env, key, source);
    }

    /** The retry loop. */
    method RunAttempts(call: Call, env: Env<V>, key: string, first: Option<string>)
      returns (result: Result<V>, trace: seq<Attempt<V>>)
      requires UsesRouter(call) ==> first.Some?
      modifies router, cache
      ensures var f := Loop(call, env, cache.maxSize, key, old(router.State()), old(cache.store), 0, first);
        router.State() == f.router && cache.store == f.store && result == f.result && trace == f.trace
    {
      ghost var f := Loop(call, env, cache.maxSize, key, router.State(), cache.store, 0, first);
      assert [] + f.trace == f.trace;
      result, trace := RunTo(f, call, env, key, first);
    }

    /** The loop, on the way to its outcome `f`. */
    method RunTo(ghost f: Final<V>, call: Call, env: Env<V>, key: string, first: Option<string>)
      returns (result: Result<V>, trace: seq<Attempt<V>>)
      requires UsesRouter(call) ==> first.Some?
      requires Extends(f, [], Loop(call, env, cache.maxSize, key, router.State(), cache.store, 0, first))
      modifies router, cache
      ensures f.router == router.State() && f.store == cache.store && f.result == result && f.trace == trace
    {
      trace := [];
      var source, attempt := first, 0;
      while true
        invariant attempt < MaxAttempts(call)
        invariant UsesRouter(call) ==> source.Some?
        invariant Extends(f, trace, Loop(call, env, cache.maxSize, key, router.State(), cache.store, attempt, source))
        decreases MaxAttempts(call) - attempt
      {
        var next, longer := TakeAttempt(f, trace, call, env, key, attempt, source);
        trace := longer;
        if next.Done? {
          return next.result, trace;
        }
        source := next.source;
        attempt := attempt + 1;
      }
    }

    /** One pass of the loop, on the way to the outcome `f` of the whole loop. */
    method TakeAttempt(ghost f: Final<V>, trace: seq<Attempt<V>>, call: Call, env: Env<V>, key: string, attempt: nat,
                       current: Option<string>)
      returns (next: Next<V>, longer: seq<Attempt<V>>)
      requires attempt < MaxAttempts(call) && (UsesRouter(call) ==> current.Some?)
      requires Extends(f, trace, Loop(call, env, cache.maxSize, key, router.State(), cache.store, attempt, current))
      modifies router, cache
      ensures next.Done? ==>
        f.router == router.State() && f.store == cache.store && f.result == next.result && f.trace == longer
      ensures next.Retry? ==>
        && attempt + 1 < MaxAttempts(call) && (UsesRouter(call) ==> next.source.Some?)
        && Extends(f, longer,
                   Loop(call, env, cache.maxSize, key, router.State(), cache.store, attempt + 1, next.source))
    {
      LoopStep(f, trace, call, env, cache.maxSize, key, router.State(), cache.store, attempt, current);
      var tried;
      next, tried := AttemptOnce(call, env, key, attempt, current);
      longer := trace + [tried];
    }

    /** One attempt, with the handler of its exception. */
    method AttemptOnce(call: Call, env: Env<V>, key: string, attempt: nat, current: Option<string>)
      returns (next: Next<V>, tried: Attempt<V>)
      requires attempt < MaxAttempts(call) && (UsesRouter(call) ==> current.Some?)
      modifies router, cache
      ensures var s :=
        OneAttempt(call, env, cache.maxSize, key, old(router.State()), old(cache.store), attempt, current);
        router.State() == s.router && cache.store == s.store && next == s.next && tried == s.attempt
      ensures next.Retry? ==> attempt + 1 < MaxAttempts(call) && (UsesRouter(call) ==> next.source.Some?)
    {
      var source := current;
      var handed := source;
      if call.sourceUse.Popped? {
        source := None;   // popped from the shared dict
      } else if call.sourceUse.Stripped? {
        handed := None;
      }
      var outcome := env.target(attempt, handed);
      tried := Attempt(SourceText(current), handed, outcome);
      if outcome.Success? {
        if call.useCache {
          cache.SetValue(key, outcome.value, call.ttl, env.storeAt(attempt));
        }
        next := Done(Fetched(outcome.value));
      } else if !(UsesRouter(call) && outcome.retriable) {
        next := Done(ProviderError(outcome));
      } else if source.None? {
        next := Done(MissingSourceKey);
      } else {
        router.RecordFailure(call.poolKey, source.value, outcome.rateLimit, env.failAt(attempt));
        if attempt + 1 < MaxAttempts(call) {
          source := router.PickProvider(call.poolKey, call.pool.value, env.repickAt(attempt));
          next := Retry(source);
        } else {
          next := Done(ProviderError(outcome));
        }
      }
    }
  }

  /** `f` is what `rest` gives after the attempts `before`. */
  ghost predicate Extends<V(!new)>(f: Final<V>, before: seq<Attempt<V>>, rest: Final<V>) {
    f.router == rest.router && f.store == rest.store && f.result == rest.result && f.trace == before + rest.trace
  }

  /** `f` is what the loop gives when `s` is its pass number `attempt`, after the attempts `before`. */
  ghost predicate Follows<V(!new)>(f: Final<V>, before: seq<Attempt<V>>, call: Call, env: Env<V>, maxSize: nat,
                                   key: string,
                                   s: Step<V>, attempt: nat)
  {
    if s.next.Done? then
      f.router == s.router && f.store == s.store && f.result == s.next.result && f.trace == before + [s.attempt]
    else
      && attempt + 1 < MaxAttempts(call)
      && Extends(f, before + [s.attempt], Loop(call, env, maxSize, key, s.router, s.store, attempt + 1, s.next.source))
  }

  /** What one pass of the loop adds. */
  lemma LoopStep<V(!new)>(f: Final<V>, before: seq<Attempt<V>>, call: Call, env: Env<V>, maxSize: nat, key: string,
                          router: RouterState, store: MemoryCache.Store<V>, attempt: nat, source: Option<string>)
    requires attempt < MaxAttempts(call)
    requires Extends(f, before, Loop(call, env, maxSize, key, router, store, attempt, source))
    ensures Follows(f, before, call, env, maxSize, key,
                    OneAttempt(call, env, maxSize, key, router, store, attempt, source), attempt)
  {
    var s := OneAttempt(call, env, maxSize, key, router, store, attempt, source);
    if s.next.Retry? {
      var rest := Loop(call, env, maxSize, key, s.router, s.store, attempt + 1, s.next.source);
      ConcatIsAssociative(before, [s.attempt], rest.trace);
    }
  }

  /** The number of the last attempt. */
  function LastAttempt<V>(trace: seq<Attempt<V>>): nat {
    if trace == [] then 0 else |trace| - 1
  }

  lemma OneMoreAttempt<V>(a: Attempt<V>, rest: seq<Attempt<V>>)
    requires rest != []
    ensures LastAttempt([a] + rest) == 1 + LastAttempt(rest)
  {
  }

  /** A loop whose first pass picks another source. */
  lemma LoopGoesOn<V(!new)>(call: Call, env: Env<V>, maxSize: nat, key: string,
                            router: RouterState, store: MemoryCache.Store<V>, attempt: nat, source: Option<string>)
    requires attempt + 1 < MaxAttempts(call)
    requires OneAttempt(call, env, maxSize, key, router, store, attempt, source).next.Retry?
    ensures var s := OneAttempt(call, env, maxSize, key, router, store, attempt, source);
      var f := Loop(call, env, maxSize, key, router, store, attempt, source);
      var rest := Loop(call, env, maxSize, key, s.router, s.store, attempt + 1, s.next.source);
      && f.trace == [s.attempt] + rest.trace && f.result == rest.result && f.ops == s.ops + rest.ops
      && f.router == rest.router && f.store == rest.store
      && (rest.trace != [] ==> attempt + LastAttempt(f.trace) == attempt + 1 + LastAttempt(rest.trace))
  {
    var s := OneAttempt(call, env, maxSize, key, router, store, attempt, source);
    var rest := Loop(call, env, maxSize, key, s.router, s.store, attempt + 1, s.next.source);
    if rest.trace != [] {
      OneMoreAttempt(s.attempt, rest.trace);
    }
  }

  /** A loop that ends with its first pass. */
  lemma LoopStops<V(!new)>(call: Call, env: Env<V>, maxSize: nat, key: string,
                           router: RouterState, store: MemoryCache.Store<V>, attempt: nat, source: Option<string>)
    requires attempt < MaxAttempts(call)
    requires OneAttempt(call, env, maxSize, key, router, store, attempt, source).next.Done?
    ensures var s := OneAttempt(call, env, maxSize, key, router, store, attempt, source);
      Loop(call, env, maxSize, key, router, store, attempt, source)
        == Final(s.router, s.store, s.next.result, [s.attempt], s.ops)
  {
  }

  // ---------------------------------------------------------------------------
  // How the loop ends
  // ---------------------------------------------------------------------------

  lemma AttemptHands<V(!new)>(call: Call, env: Env<V>, maxSize: nat, key: string,
                              router: RouterState, store: MemoryCache.Store<V>, attempt: nat, source: string)
    ensures var s := OneAttempt(call, env, maxSize, key, router, store, attempt, Some(source));
      && s.attempt.source == source && s.attempt.handed == Handed(call, Some(source))
      && (s.next.Retry? ==> !call.sourceUse.Popped? && attempt + 1 < MaxAttempts(call) && s.next.source.Some?)
  {
    var s := OneAttempt(call, env, maxSize, key, router, store, attempt, Some(source));
    if s.next.Retry? {
      PickPrefersHealthy(MarkFailed(router, call.poolKey, source, s.attempt.outcome.rateLimit, env.failAt(attempt)),
                         call.poolKey, call.pool.value, env.repickAt(attempt));
    }
  }

  /** What an outcome makes of a dispatch that makes no further attempt. */
  function EndOf<V>(call: Call, outcome: Outcome<V>): Result<V> {
    match outcome
    case Success(value) => Fetched(value)
    case Failure(retriable, _) =>
      if retriable && call.sourceUse.Popped? && call.callerSource.None? && call.pool.Some? then MissingSourceKey
      else ProviderError(outcome)
  }

  predicate FailsRetriably<V>(a: Attempt<V>) {
    a.outcome.Failure? && a.outcome.retriable
  }

  /**
   * The attempts decide the end: each asks the target with what it is handed, all but the last failed retriably over
   * a pool, the last gives the result, and the loop gives up on a retriable failure only when it may not go on.
   */
  ghost predicate Decides<V>(call: Call, env: Env<V>, attempt: nat, trace: seq<Attempt<V>>, result: Result<V>) {
    && trace != []
    && (forall i :: 0 <= i < |trace| ==> trace[i].outcome == env.target(attempt + i, trace[i].handed))
    && (forall i :: 0 <= i < |trace| - 1 ==> FailsRetriably(trace[i]))
    && (|trace| > 1 ==> UsesRouter(call) && !call.sourceUse.Popped?)
    && result == EndOf(call, trace[|trace| - 1].outcome)
    && (FailsRetriably(trace[|trace| - 1]) && UsesRouter(call) && !call.sourceUse.Popped? ==>
          attempt + |trace| == MaxAttempts(call))
  }

  lemma AttemptDecides<V(!new)>(call: Call, env: Env<V>, maxSize: nat, key: string,
                                router: RouterState, store: MemoryCache.Store<V>, attempt: nat, source: Option<string>)
    requires attempt < MaxAttempts(call) && (UsesRouter(call) ==> source.Some?)
    ensures var s := OneAttempt(call, env, maxSize, key, router, store, attempt, source);
      && s.attempt.outcome == env.target(attempt, s.attempt.handed)
      && (s.next.Retry? ==>
            && FailsRetriably(s.attempt) && UsesRouter(call) && !call.sourceUse.Popped?
            && attempt + 1 < MaxAttempts(call) && s.next.source.Some?)
      && (s.next.Done? ==>
            && s.next.result == EndOf(call, s.attempt.outcome)
            && (FailsRetriably(s.attempt) && UsesRouter(call) && !call.sourceUse.Popped? ==>
                  attempt + 1 == MaxAttempts(call)))
  {
    var s := OneAttempt(call, env, maxSize, key, router, store, attempt, source);
    if s.next.Retry? {
      AttemptHands(call, env, maxSize, key, router, store, attempt, source.value);
    }
  }

  lemma DecidesAlone<V>(call: Call, env: Env<V>, attempt: nat, a: Attempt<V>)
    requires a.outcome == env.target(attempt, a.handed)
    requires FailsRetriably(a) && UsesRouter(call) && !call.sourceUse.Popped? ==> attempt + 1 == MaxAttempts(call)
    ensures Decides(call, env, attempt, [a], EndOf(call, a.outcome))
  {
  }

  lemma DecidesBefore<V>(call: Call, env: Env<V>, attempt: nat, a: Attempt<V>, rest: seq<Attempt<V>>,
                         result: Result<V>)
    requires Decides(call, env, attempt + 1, rest, result)
    requires a.outcome == env.target(attempt, a.handed) && FailsRetriably(a)
    requires UsesRouter(call) && !call.sourceUse.Popped?
    ensures Decides(call, env, attempt, [a] + rest, result)
  {
    var all := [a] + rest;
    forall i | 0 <= i < |all|
      ensures all[i].outcome == env.target(attempt + i, all[i].handed)
    {
      if i > 0 {
        assert all[i] == rest[i - 1];
        assert attempt + 1 + (i - 1) == attempt + i;
      }
    }
    assert all[|all| - 1] == rest[|rest| - 1];
  }

  lemma {:induction false} LoopDecides<V(!new)>(call: Call, env: Env<V>, maxSize: nat, key: string,
                                                router: RouterState, store: MemoryCache.Store<V>, attempt: nat,
                                                source: Option<string>)
    requires attempt < MaxAttempts(call) && (UsesRouter(call) ==> source.Some?)
    ensures var f := Loop(call, env, maxSize, key, router, store, attempt, source);
      Decides(call, env, attempt, f.trace, f.result)
    decreases MaxAttempts(call) - attempt
  {
    var s := OneAttempt(call, env, maxSize, key, router, store, attempt, source);
    AttemptDecides(call, env, maxSize, key, router, store, attempt, source);
    if s.next.Retry? {
      LoopGoesOn(call, env, maxSize, key, router, store, attempt, source);
      LoopDecides(call, env, maxSize, key, s.router, s.store, attempt + 1, s.next.source);
      var rest := Loop(call, env, maxSize, key, s.router, s.store, attempt + 1, s.next.source);
      DecidesBefore(call, env, attempt, s.attempt, rest.trace, rest.result);
    } else {
      LoopStops(call, env, maxSize, key, router, store, attempt, source);
      DecidesAlone(call, env, attempt, s.attempt);
    }
  }

  // ---------------------------------------------------------------------------
  // Retry coverage
  // ---------------------------------------------------------------------------

  /** When the source of attempt `j` is picked. */
  function PickTime<V>(call: Call, env: Env<V>, j: nat): real {
    if j == 0 then call.pickAt else env.repickAt(j - 1)
  }

  /** The clock never runs back behind the first pick, and every pick comes less than a cooldown after it. */
  ghost predicate WithinCooldown<V>(call: Call, env: Env<V>) {
    && (forall i {:trigger env.failAt(i)} :: call.pickAt <= env.failAt(i))
    && (forall i {:trigger env.repickAt(i)} :: call.pickAt <= env.repickAt(i) < call.pickAt + COOLDOWN_SECS)
  }

  ghost function Tried<V>(trace: seq<Attempt<V>>): set<string> {
    set i | 0 <= i < |trace| :: trace[i].source
  }

  /** At time `t`, every pool provider the dispatch has not tried is cooling down. */
  ghost predicate NoUntriedHealthy(router: RouterState, call: Call, tried: set<string>, t: real)
    requires call.pool.Some?
  {
    forall q :: q in call.pool.value && q !in tried ==> !IsHealthy(router, call.poolKey, q, t)
  }

  /** Only the failed attempts have changed the cooldowns since `start`. */
  ghost predicate OnlyTriedCooled(start: RouterState, router: RouterState, call: Call, tried: set<string>) {
    && (forall q :: q in tried ==> CooldownUntil(router, call.poolKey, q) >= call.pickAt + COOLDOWN_SECS)
    && (forall q :: q !in tried ==> CooldownUntil(router, call.poolKey, q) == CooldownUntil(start, call.poolKey, q))
  }

  /** A source that repeats a failed one was picked only because no untried provider was healthy. */
  ghost predicate PickedFairly(start: RouterState, call: Call, tried: set<string>, source: string, t: real)
    requires call.pool.Some?
  {
    source in call.pool.value && (source in tried ==> NoUntriedHealthy(start, call, tried, t))
  }

  ghost predicate TraceIsFair<V>(start: RouterState, call: Call, env: Env<V>, trace: seq<Attempt<V>>, from: nat)
    requires call.pool.Some?
  {
    forall j :: from <= j < |trace| ==>
      PickedFairly(start, call, Tried(trace[..j]), trace[j].source, PickTime(call, env, j))
  }

  lemma PickIsFair(start: RouterState, router: RouterState, call: Call, tried: set<string>, t: real)
    requires call.pool.Some? && |call.pool.value| >= 2 && t < call.pickAt + COOLDOWN_SECS
    requires OnlyTriedCooled(start, router, call, tried)
    ensures var (router', p) := Pick(router, call.poolKey, call.pool.value, t);
      p.Some? && PickedFairly(start, call, tried, p.value, t) && router'.cooldowns == router.cooldowns
  {
    PickPrefersHealthy(router, call.poolKey, call.pool.value, t);
    var p := Pick(router, call.poolKey, call.pool.value, t).1.value;
    if p in tried {
      assert !IsHealthy(router, call.poolKey, p, t);
    }
  }

  lemma MarkingCools(start: RouterState, router: RouterState, call: Call, tried: set<string>, source: string,
                     rateLimit: bool, now: real)
    requires OnlyTriedCooled(start, router, call, tried) && call.pickAt <= now
    ensures OnlyTriedCooled(start, MarkFailed(router, call.poolKey, source, rateLimit, now), call, tried + {source})
  {
    var marked := MarkFailed(router, call.poolKey, source, rateLimit, now);
    assert forall q :: q != source ==> CooldownUntil(marked, call.poolKey, q) == CooldownUntil(router, call.poolKey, q);
  }

  lemma TriedOneMore<V>(past: seq<Attempt<V>>, a: Attempt<V>)
    ensures Tried(past + [a]) == Tried(past) + {a.source}
  {
    var all := past + [a];
    assert all[|past|] == a && forall i :: 0 <= i < |past| ==> all[i] == past[i];
  }

  predicate IsPooled(call: Call) {
    UsesRouter(call) && call.pool.value != [] && Distinct(call.pool.value)
  }

  /** What one failed attempt over a pool leaves behind, when the loop goes on. */
  lemma RetryIsFair<V(!new)>(start: RouterState, call: Call, env: Env<V>, maxSize: nat, key: string,
                             router: RouterState, store: MemoryCache.Store<V>, attempt: nat, source: string,
                             tried: set<string>)
    requires IsPooled(call) && WithinCooldown(call, env)
    requires OnlyTriedCooled(start, router, call, tried)
    ensures var s := OneAttempt(call, env, maxSize, key, router, store, attempt, Some(source));
      && s.attempt.source == source
      && (s.next.Retry? ==>
        && attempt + 1 < MaxAttempts(call) && s.next.source.Some?
        && OnlyTriedCooled(start, s.router, call, tried + {source})
        && PickedFairly(start, call, tried + {source}, s.next.source.value, env.repickAt(attempt)))
  {
    var s := OneAttempt(call, env, maxSize, key, router, store, attempt, Some(source));
    if s.next.Retry? {
      var rateLimit := s.attempt.outcome.rateLimit;
      MarkingCools(start, router, call, tried, source, rateLimit, env.failAt(attempt));
      var marked := MarkFailed(router, call.poolKey, source, rateLimit, env.failAt(attempt));
      PickIsFair(start, marked, call, tried + {source}, env.repickAt(attempt));
      assert (s.router, s.next.source) == Pick(marked, call.poolKey, call.pool.value, env.repickAt(attempt));
    }
  }

  lemma OneMoreFairAttempt<V>(start: RouterState, call: Call, env: Env<V>, past: seq<Attempt<V>>, a: Attempt<V>,
                              full: seq<Attempt<V>>)
    requires call.pool.Some? && past + [a] <= full
    requires TraceIsFair(start, call, env, full, |past| + 1)
    requires PickedFairly(start, call, Tried(past), a.source, PickTime(call, env, |past|))
    ensures TraceIsFair(start, call, env, full, |past|)
  {
    assert full[..|past|] == past && full[|past|] == a;
  }

  /** The attempts `trace`, after `past`: some, not too many, and each picked fairly. */
  ghost predicate ContinuesFairly<V>(start: RouterState, call: Call, env: Env<V>, past: seq<Attempt<V>>,
                                     trace: seq<Attempt<V>>)
    requires call.pool.Some?
  {
    trace != [] && |past + trace| <= MaxAttempts(call) && TraceIsFair(start, call, env, past + trace, |past|)
  }

  lemma FairFromHere<V>(start: RouterState, call: Call, env: Env<V>, past: seq<Attempt<V>>, a: Attempt<V>,
                        rest: seq<Attempt<V>>)
    requires call.pool.Some? && ContinuesFairly(start, call, env, past + [a], rest)
    requires PickedFairly(start, call, Tried(past), a.source, PickTime(call, env, |past|))
    ensures ContinuesFairly(start, call, env, past, [a] + rest)
  {
    ConcatIsAssociative(past, [a], rest);
    OneMoreFairAttempt(start, call, env, past, a, past + [a] + rest);
  }

  /** The loop, started after the attempts `past`. */
  lemma {:induction false} LoopIsFair<V(!new)>(start: RouterState, call: Call, env: Env<V>, maxSize: nat, key: string,
                                               router: RouterState, store: MemoryCache.Store<V>, past: seq<Attempt<V>>,
                                               source: string)
    requires IsPooled(call) && |past| < MaxAttempts(call) && WithinCooldown(call, env)
    requires OnlyTriedCooled(start, router, call, Tried(past))
    requires PickedFairly(start, call, Tried(past), source, PickTime(call, env, |past|))
    ensures ContinuesFairly(start, call, env, past,
                            Loop(call, env, maxSize, key, router, store, |past|, Some(source)).trace)
    decreases MaxAttempts(call) - |past|
  {
    var s := OneAttempt(call, env, maxSize, key, router, store, |past|, Some(source));
    TriedOneMore(past, s.attempt);
    RetryIsFair(start, call, env, maxSize, key, router, store, |past|, source, Tried(past));
    if s.next.Retry? {
      LoopGoesOn(call, env, maxSize, key, router, store, |past|, Some(source));
      LoopIsFair(start, call, env, maxSize, key, s.router, s.store, past + [s.attempt], s.next.source.value);
      var rest := Loop(call, env, maxSize, key, s.router, s.store, |past| + 1, s.next.source).trace;
      FairFromHere(start, call, env, past, s.attempt, rest);
    } else {
      LoopStops(call, env, maxSize, key, router, store, |past|, Some(source));
      OneMoreFairAttempt(start, call, env, past, s.attempt, past + [s.attempt]);
    }
  }

  /**
   * One dispatch over a pool makes at most one attempt per provider, and repeats a failed provider only
   * when every untried one was cooling down as it was picked.
   */
  lemma RetriesAreFair<V(!new)>(call: Call, env: Env<V>, maxSize: nat, keyOf: (string, string) -> string,
                                router: RouterState, store: MemoryCache.Store<V>)
    requires IsPooled(call) && WithinCooldown(call, env)
    ensures var trace := Dispatched(call, env, maxSize, keyOf, router, store).trace;
      |trace| <= |call.pool.value| && TraceIsFair(router, call, env, trace, 0)
  {
    var (router', source) := FirstPick(router, call);
    var none: seq<Attempt<V>> := [];
    FirstPickIsFair(router, call);
    var key := keyOf(SourceText(source), call.request);
    var store' := if call.useCache then MemoryCache.Get(store, key, call.lookupAt).0 else store;
    LoopIsFair(router, call, env, maxSize, key, router', store', none, source.value);
    var f := Loop(call, env, maxSize, key, router', store', 0, source);
    assert none + f.trace == f.trace;
  }

  lemma FirstPickIsFair(router: RouterState, call: Call)
    requires IsPooled(call)
    ensures var (router', source) := FirstPick(router, call);
      && source.Some? && source.value in call.pool.value
      && OnlyTriedCooled(router, router', call, {}) && router'.cooldowns == router.cooldowns
      && PickedFairly(router, call, {}, source.value, call.pickAt)
  {
    if |call.pool.value| >= 2 {
      PickPrefersHealthy(router, call.poolKey, call.pool.value, call.pickAt);
    }
  }

  // ---------------------------------------------------------------------------
  // Exhaustion
  // ---------------------------------------------------------------------------

  ghost predicate EveryAttemptFails<V>(env: Env<V>) {
    forall i, s {:trigger env.target(i, s)} :: env.target(i, s).Failure? && env.target(i, s).retriable
  }

  ghost predicate AllHealthy(router: RouterState, call: Call)
    requires call.pool.Some?
  {
    forall q :: q in call.pool.value ==> IsHealthy(router, call.poolKey, q, call.pickAt)
  }

  ghost function PoolSet(call: Call): set<string>
    requires call.pool.Some?
  {
    set q | q in call.pool.value
  }

  /** Over a pool whose source is kept, a retriable failure is followed by another pick until attempts run out. */
  lemma RetryPicksSomeone<V(!new)>(call: Call, env: Env<V>, maxSize: nat, key: string,
                                   router: RouterState, store: MemoryCache.Store<V>, attempt: nat, source: string)
    requires IsPooled(call) && !call.sourceUse.Popped?
    ensures var s := OneAttempt(call, env, maxSize, key, router, store, attempt, Some(source));
      var outcome := env.target(attempt, Handed(call, Some(source)));
      && s.attempt == Attempt(source, Handed(call, Some(source)), outcome)
      && (s.next.Retry? <==> outcome.Failure? && outcome.retriable && attempt + 1 < MaxAttempts(call))
      && (s.next.Retry? ==> s.next.source.Some? && s.store == store && s.ops == [])
      && (outcome.Failure? && !s.next.Retry? ==>
           s.next == Done(ProviderError(outcome)) && s.store == store && s.ops == [])
      && (outcome.Success? ==> s.next == Done(Fetched(outcome.value)))
  {
    var outcome := env.target(attempt, Handed(call, Some(source)));
    if outcome.Failure? && outcome.retriable && attempt + 1 < MaxAttempts(call) {
      PickPrefersHealthy(MarkFailed(router, call.poolKey, source, outcome.rateLimit, env.failAt(attempt)),
                         call.poolKey, call.pool.value, env.repickAt(attempt));
    }
  }

  /** One more failed attempt, when it is not the last. */
  lemma FailsAndGoesOn<V(!new)>(call: Call, env: Env<V>, maxSize: nat, key: string,
                                router: RouterState, store: MemoryCache.Store<V>, attempt: nat, source: string)
    requires IsPooled(call) && !call.sourceUse.Popped? && attempt + 1 < MaxAttempts(call) && EveryAttemptFails(env)
    ensures var s := OneAttempt(call, env, maxSize, key, router, store, attempt, Some(source));
      s.next.Retry? && s.next.source.Some? && s.store == store
  {
    RetryPicksSomeone(call, env, maxSize, key, router, store, attempt, source);
    assert env.target(attempt, Handed(call, Some(source))).Failure?;
  }

  lemma LoopRunsOut<V(!new)>(call: Call, env: Env<V>, maxSize: nat, key: string,
                             router: RouterState, store: MemoryCache.Store<V>, attempt: nat, source: string)
    requires IsPooled(call) && !call.sourceUse.Popped? && attempt < MaxAttempts(call) && EveryAttemptFails(env)
    ensures var f := Loop(call, env, maxSize, key, router, store, attempt, Some(source));
      && |f.trace| == MaxAttempts(call) - attempt && f.trace != []
      && f.result == ProviderError(f.trace[|f.trace| - 1].outcome)
  {
    LoopDecides(call, env, maxSize, key, router, store, attempt, Some(source));
    var trace := Loop(call, env, maxSize, key, router, store, attempt, Some(source)).trace;
    var last := trace[|trace| - 1];
    assert env.target(attempt + (|trace| - 1), last.handed).Failure?;
  }

  /** Every failed attempt puts the provider it was picked for on cooldown. */
  lemma {:induction false} LoopCools<V(!new)>(start: RouterState, call: Call, env: Env<V>, maxSize: nat, key: string,
                                              router: RouterState, store: MemoryCache.Store<V>, attempt: nat,
                                              source: string, tried: set<string>)
    requires IsPooled(call) && !call.sourceUse.Popped? && attempt < MaxAttempts(call) && EveryAttemptFails(env)
    requires WithinCooldown(call, env) && OnlyTriedCooled(start, router, call, tried)
    ensures var f := Loop(call, env, maxSize, key, router, store, attempt, Some(source));
      OnlyTriedCooled(start, f.router, call, tried + Tried(f.trace))
    decreases MaxAttempts(call) - attempt
  {
    var s := OneAttempt(call, env, maxSize, key, router, store, attempt, Some(source));
    assert env.target(attempt, Handed(call, Some(source))).Failure?;
    if attempt + 1 == MaxAttempts(call) {
      MarkingCools(start, router, call, tried, source, s.attempt.outcome.rateLimit, env.failAt(attempt));
      TriedOfCons(s.attempt, []);
      assert [s.attempt] + [] == [s.attempt];
    } else {
      FailsAndGoesOn(call, env, maxSize, key, router, store, attempt, source);
      RetryIsFair(start, call, env, maxSize, key, router, store, attempt, source, tried);
      LoopCools(start, call, env, maxSize, key, s.router, store, attempt + 1, s.next.source.value, tried + {source});
      var rest := Loop(call, env, maxSize, key, s.router, store, attempt + 1, s.next.source);
      TriedOfCons(s.attempt, rest.trace);
      assert tried + {source} + Tried(rest.trace) == tried + Tried([s.attempt] + rest.trace);
    }
  }

  lemma TriedOfCons<V>(a: Attempt<V>, rest: seq<Attempt<V>>)
    ensures Tried([a] + rest) == {a.source} + Tried(rest)
  {
    var all := [a] + rest;
    assert all[0] == a && forall i :: 0 <= i < |rest| ==> rest[i] == all[i + 1];
  }

  lemma {:induction false} TriedIsSmall<V>(trace: seq<Attempt<V>>)
    ensures |Tried(trace)| <= |trace|
  {
    if trace != [] {
      var prefix := trace[..|trace| - 1];
      TriedIsSmall(prefix);
      TriedOneMore(prefix, trace[|trace| - 1]);
      assert prefix + [trace[|trace| - 1]] == trace;
    }
  }

  lemma {:induction false} DistinctCardinality(s: seq<string>)
    requires Distinct(s)
    ensures |set p | p in s| == |s|
  {
    if s != [] {
      DistinctCardinality(s[1..]);
      assert (set p | p in s) == (set p | p in s[1..]) + {s[0]} by { assert s == [s[0]] + s[1..]; }
      assert s[0] !in s[1..];
    }
  }

  lemma SomeoneIsUntried<V>(pool: seq<string>, trace: seq<Attempt<V>>)
    requires Distinct(pool) && |trace| < |pool|
    ensures exists q :: q in pool && q !in Tried(trace)
  {
    var members := set p | p in pool;
    DistinctCardinality(pool);
    TriedIsSmall(trace);
    if forall q :: q in pool ==> q in Tried(trace) {
      SubsetCardinality(members, Tried(trace));
    }
  }

  /**
   * If all providers start healthy, every attempt fails retriably and the target leaves `source` where it was, each
   * provider of the pool is picked exactly once before the last error is raised, and all of them end up cooling down.
   */
  lemma ExhaustionPicksEveryProvider<V(!new)>(call: Call, env: Env<V>, maxSize: nat, keyOf: (string, string) -> string,
                                              router: RouterState, store: MemoryCache.Store<V>)
    requires IsPooled(call) && !call.sourceUse.Popped? && WithinCooldown(call, env) && EveryAttemptFails(env)
    requires AllHealthy(router, call)
    ensures var f := Dispatched(call, env, maxSize, keyOf, router, store); !f.result.Cached? ==>
      && |f.trace| == |call.pool.value|
      && (forall i, j :: 0 <= i < j < |f.trace| ==> f.trace[i].source != f.trace[j].source)
      && Tried(f.trace) == PoolSet(call)
      && f.result == ProviderError(f.trace[|f.trace| - 1].outcome)
      && (forall q :: q in call.pool.value ==> CooldownUntil(f.router, call.poolKey, q) >= call.pickAt + COOLDOWN_SECS)
  {
    var f := Dispatched(call, env, maxSize, keyOf, router, store);
    if !f.result.Cached? {
      RetriesAreFair(call, env, maxSize, keyOf, router, store);
      DispatchRunsOut(call, env, maxSize, keyOf, router, store);
      DispatchCools(call, env, maxSize, keyOf, router, store);
      NoRepeats(call, env, router, f.trace);
      NoRepeatsCoversPool(call.pool.value, f.trace);
    }
  }

  /** Past the lookup, a dispatch over a pool is its retry loop. */
  lemma DispatchIsLoop<V(!new)>(call: Call, env: Env<V>, maxSize: nat, keyOf: (string, string) -> string,
                                router: RouterState, store: MemoryCache.Store<V>)
    returns (router': RouterState, store': MemoryCache.Store<V>, key: string, source: string)
    requires IsPooled(call) && !Dispatched(call, env, maxSize, keyOf, router, store).result.Cached?
    ensures var f := Dispatched(call, env, maxSize, keyOf, router, store);
      var loop := Loop(call, env, maxSize, key, router', store', 0, Some(source));
      && f.trace == loop.trace && f.result == loop.result && f.router == loop.router
      && Some(source) == FirstPick(router, call).1 && OnlyTriedCooled(router, router', call, {})
      && router'.cooldowns == router.cooldowns
  {
    FirstPickIsFair(router, call);
    var first := FirstPick(router, call);
    router', source, key := first.0, first.1.value, keyOf(first.1.value, call.request);
    store' := if call.useCache then MemoryCache.Get(store, key, call.lookupAt).0 else store;
  }

  lemma DispatchRunsOut<V(!new)>(call: Call, env: Env<V>, maxSize: nat, keyOf: (string, string) -> string,
                                 router: RouterState, store: MemoryCache.Store<V>)
    requires IsPooled(call) && !call.sourceUse.Popped? && EveryAttemptFails(env)
    requires !Dispatched(call, env, maxSize, keyOf, router, store).result.Cached?
    ensures var f := Dispatched(call, env, maxSize, keyOf, router, store);
      |f.trace| == |call.pool.value| && f.trace != [] && f.result == ProviderError(f.trace[|f.trace| - 1].outcome)
  {
    var router', store', key, source := DispatchIsLoop(call, env, maxSize, keyOf, router, store);
    LoopRunsOut(call, env, maxSize, key, router', store', 0, source);
  }

  lemma DispatchCools<V(!new)>(call: Call, env: Env<V>, maxSize: nat, keyOf: (string, string) -> string,
                               router: RouterState, store: MemoryCache.Store<V>)
    requires IsPooled(call) && !call.sourceUse.Popped? && WithinCooldown(call, env) && EveryAttemptFails(env)
    requires !Dispatched(call, env, maxSize, keyOf, router, store).result.Cached?
    ensures var f := Dispatched(call, env, maxSize, keyOf, router, store);
      OnlyTriedCooled(router, f.router, call, Tried(f.trace))
  {
    var router', store', key, source := DispatchIsLoop(call, env, maxSize, keyOf, router, store);
    LoopCools(router, call, env, maxSize, key, router', store', 0, source, {});
    var f := Loop(call, env, maxSize, key, router', store', 0, Some(source));
    assert {} + Tried(f.trace) == Tried(f.trace);
  }

  lemma NoRepeats<V>(call: Call, env: Env<V>, router: RouterState, trace: seq<Attempt<V>>)
    requires IsPooled(call) && WithinCooldown(call, env) && |trace| <= |call.pool.value|
      && TraceIsFair(router, call, env, trace, 0)
    requires AllHealthy(router, call)
    ensures forall j :: 0 <= j < |trace| ==> trace[j].source in call.pool.value && trace[j].source !in Tried(trace[..j])
    ensures forall i, j :: 0 <= i < j < |trace| ==> trace[i].source != trace[j].source
  {
    forall j | 0 <= j < |trace|
      ensures trace[j].source in call.pool.value && trace[j].source !in Tried(trace[..j])
    {
      assert PickedFairly(router, call, Tried(trace[..j]), trace[j].source, PickTime(call, env, j));
      SomeoneIsUntried(call.pool.value, trace[..j]);
      var q :| q in call.pool.value && q !in Tried(trace[..j]);
      assert IsHealthy(router, call.poolKey, q, PickTime(call, env, j));
    }
    forall i, j | 0 <= i < j < |trace|
      ensures trace[i].source != trace[j].source
    {
      assert trace[..j][i] == trace[i];
    }
  }

  lemma NoRepeatsCoversPool<V>(pool: seq<string>, trace: seq<Attempt<V>>)
    requires Distinct(pool) && |trace| == |pool|
    requires forall j :: 0 <= j < |trace| ==> trace[j].source in pool
    requires forall i, j :: 0 <= i < j < |trace| ==> trace[i].source != trace[j].source
    ensures Tried(trace) == set q | q in pool
  {
    var sources := seq(|trace|, i requires 0 <= i < |trace| => trace[i].source);
    var members := set q | q in pool;
    DistinctCardinality(pool);
    DistinctCardinality(sources);
    assert Tried(trace) == set q | q in sources by {
      assert forall i :: 0 <= i < |trace| ==> sources[i] == trace[i].source;
    }
    EqualBySize(Tried(trace), members);
  }

  lemma EqualBySize(a: set<string>, b: set<string>)
    requires a <= b && |a| == |b|
    ensures a == b
  {
    if exists x :: x in b && x !in a {
      var x :| x in b && x !in a;
      SubsetCardinality(a, b - {x});
    }
  }

  // ---------------------------------------------------------------------------
  // Who is contacted
  // ---------------------------------------------------------------------------

  /** The providers a target was told to use. */
  ghost function Contacted<V>(trace: seq<Attempt<V>>): set<string> {
    set i | 0 <= i < |trace| && trace[i].handed.Some? :: trace[i].handed.value
  }

  /** Every target was handed what `call.sourceUse` makes of the source picked for it. */
  ghost predicate HandsOver<V>(call: Call, trace: seq<Attempt<V>>) {
    forall i :: 0 <= i < |trace| ==> trace[i].handed == Handed(call, Some(trace[i].source))
  }

  lemma HandsOneMore<V>(call: Call, a: Attempt<V>, rest: seq<Attempt<V>>)
    requires a.handed == Handed(call, Some(a.source)) && HandsOver(call, rest)
    ensures HandsOver(call, [a] + rest)
  {
  }

  lemma {:induction false} LoopHands<V(!new)>(call: Call, env: Env<V>, maxSize: nat, key: string,
                                              router: RouterState, store: MemoryCache.Store<V>, attempt: nat,
                                              source: string)
    requires attempt < MaxAttempts(call)
    ensures var trace := Loop(call, env, maxSize, key, router, store, attempt, Some(source)).trace;
      && HandsOver(call, trace)
      && trace != [] && trace[0].source == source && (call.sourceUse.Popped? ==> |trace| == 1)
    decreases MaxAttempts(call) - attempt
  {
    var s := OneAttempt(call, env, maxSize, key, router, store, attempt, Some(source));
    AttemptHands(call, env, maxSize, key, router, store, attempt, source);
    if s.next.Retry? {
      LoopHands(call, env, maxSize, key, s.router, s.store, attempt + 1, s.next.source.value);
      HandsOneMore(call, s.attempt, Loop(call, env, maxSize, key, s.router, s.store, attempt + 1, s.next.source).trace);
    }
  }

  /** All attempts of one dispatch hand over the same source, if any, unless the target leaves it in the dict. */
  lemma OneSourceUnlessForwarded<V(!new)>(call: Call, env: Env<V>, maxSize: nat, keyOf: (string, string) -> string,
                                          router: RouterState, store: MemoryCache.Store<V>)
    requires !call.sourceUse.Forwarded?
    ensures var trace := Dispatched(call, env, maxSize, keyOf, router, store).trace;
      forall i :: 0 <= i < |trace| ==>
        trace[i].handed == if call.sourceUse.Popped? then FirstPick(router, call).1 else None
  {
    var (router', source) := FirstPick(router, call);
    var key := keyOf(SourceText(source), call.request);
    var store' := if call.useCache then MemoryCache.Get(store, key, call.lookupAt).0 else store;
    if source.Some? {
      LoopHands(call, env, maxSize, key, router', store', 0, source.value);
    }
  }

  lemma DispatchHands<V(!new)>(call: Call, env: Env<V>, maxSize: nat, keyOf: (string, string) -> string,
                               router: RouterState, store: MemoryCache.Store<V>) returns (source: string)
    requires IsPooled(call) && !Dispatched(call, env, maxSize, keyOf, router, store).result.Cached?
    ensures var trace := Dispatched(call, env, maxSize, keyOf, router, store).trace;
      && Some(source) == FirstPick(router, call).1 && source in call.pool.value && HandsOver(call, trace)
      && trace != [] && trace[0].source == source && (call.sourceUse.Popped? ==> |trace| == 1)
  {
    var router', store', key, first := DispatchIsLoop(call, env, maxSize, keyOf, router, store);
    LoopHands(call, env, maxSize, key, router', store', 0, first);
    FirstPickIsFair(router, call);
    source := first;
  }

  lemma OnlyMember(call: Call, source: string)
    requires IsPooled(call) && source in call.pool.value
    ensures {source} == PoolSet(call) <==> |call.pool.value| == 1
  {
    DistinctCardinality(call.pool.value);
    if |call.pool.value| == 1 {
      assert source == call.pool.value[0];
    }
  }

  lemma ContactsByUse<V>(call: Call, trace: seq<Attempt<V>>, source: string)
    requires IsPooled(call) && HandsOver(call, trace) && source in call.pool.value
    requires trace != [] && trace[0].source == source
    requires if call.sourceUse.Popped? then |trace| == 1 else Tried(trace) == PoolSet(call)
    ensures Contacted(trace) == match call.sourceUse
      case Forwarded => PoolSet(call) case Popped => {source} case Stripped => {}
    ensures |Contacted(trace)|
      == match call.sourceUse case Forwarded => |call.pool.value| case Popped => 1 case Stripped => 0
    ensures Contacted(trace) == PoolSet(call)
      <==> call.sourceUse.Forwarded? || (call.sourceUse.Popped? && |call.pool.value| == 1)
  {
    DistinctCardinality(call.pool.value);
    match call.sourceUse
    case Popped =>
      assert Contacted(trace) == {source};
      OnlyMember(call, source);
    case Stripped =>
      assert Contacted(trace) == {};
      assert source in PoolSet(call);
    case Forwarded =>
      assert Contacted(trace) == Tried(trace);
  }

  /**
   * When all providers start healthy and every attempt fails retriably, the pool is exhausted only for a target that
   * is handed the source and leaves it in the dict.  One that pops it contacts the first pick alone; one that never
   * gets it runs `n` times without a source, and every provider is put on cooldown for it.
   */
  lemma ExhaustionContactsPoolIff<V(!new)>(call: Call, env: Env<V>, maxSize: nat, keyOf: (string, string) -> string,
                                           router: RouterState, store: MemoryCache.Store<V>)
    requires IsPooled(call) && WithinCooldown(call, env) && EveryAttemptFails(env) && AllHealthy(router, call)
    ensures var f := Dispatched(call, env, maxSize, keyOf, router, store); !f.result.Cached? ==>
      var n := |call.pool.value|;
      && (Contacted(f.trace) == PoolSet(call) <==> call.sourceUse.Forwarded? || (call.sourceUse.Popped? && n == 1))
      && |Contacted(f.trace)| == (match call.sourceUse case Forwarded => n case Popped => 1 case Stripped => 0)
      && |f.trace| == (if call.sourceUse.Popped? then 1 else n)
  {
    var f := Dispatched(call, env, maxSize, keyOf, router, store);
    if !f.result.Cached? {
      var source := DispatchHands(call, env, maxSize, keyOf, router, store);
      if !call.sourceUse.Popped? {
        ExhaustionPicksEveryProvider(call, env, maxSize, keyOf, router, store);
      }
      ContactsByUse(call, f.trace, source);
    }
  }

  /**
   * A fetched value comes from the provider the cache key names exactly when the target popped the source, or was
   * handed it and answered at once; a target that never gets the source has no provider to name.
   */
  lemma KeyNamesProducerIff<V(!new)>(call: Call, env: Env<V>, maxSize: nat, keyOf: (string, string) -> string,
                                     router: RouterState, store: MemoryCache.Store<V>)
    requires IsPooled(call) && WithinCooldown(call, env) && AllHealthy(router, call)
    ensures var f := Dispatched(call, env, maxSize, keyOf, router, store); f.result.Fetched? ==>
      && f.trace != []
      && (f.trace[|f.trace| - 1].handed == FirstPick(router, call).1
          <==> call.sourceUse.Popped? || (call.sourceUse.Forwarded? && |f.trace| == 1))
  {
    var trace := Dispatched(call, env, maxSize, keyOf, router, store).trace;
    if Dispatched(call, env, maxSize, keyOf, router, store).result.Fetched? {
      var source := DispatchHands(call, env, maxSize, keyOf, router, store);
      RetriesAreFair(call, env, maxSize, keyOf, router, store);
      NoRepeats(call, env, router, trace);
      assert |trace| > 1 ==> trace[0].source != trace[|trace| - 1].source;
    }
  }

  predicate FailsFirst<V>(trace: seq<Attempt<V>>) {
    trace != [] && trace[0].outcome.Failure? && trace[0].outcome.retriable
  }

  /**
   * With the shared dict as written, a retriable first failure is followed by a second attempt exactly
   * when the target does not pop `source`; otherwise the handler meets a missing key and marks nobody.
   */
  lemma RetriesIffSourceKept<V(!new)>(call: Call, env: Env<V>, maxSize: nat, keyOf: (string, string) -> string,
                                      router: RouterState, store: MemoryCache.Store<V>)
    requires IsPooled(call) && |call.pool.value| >= 2
    ensures var f := Dispatched(call, env, maxSize, keyOf, router, store); FailsFirst(f.trace) ==>
      && (|f.trace| >= 2 <==> !call.sourceUse.Popped?)
      && (f.result.MissingSourceKey? <==> call.sourceUse.Popped?)
      && (call.sourceUse.Popped? ==> f.router.cooldowns == router.cooldowns)
  {
    var (router', source) := FirstPick(router, call);
    PickPrefersHealthy(router, call.poolKey, call.pool.value, call.pickAt);
    var key := keyOf(SourceText(source), call.request);
    var store' := if call.useCache then MemoryCache.Get(store, key, call.lookupAt).0 else store;
    var s := OneAttempt(call, env, maxSize, key, router', store', 0, source);
    if !call.sourceUse.Popped? && FailsFirst([s.attempt]) {
      PickPrefersHealthy(MarkFailed(router', call.poolKey, source.value, s.attempt.outcome.rateLimit, env.failAt(0)),
                         call.poolKey, call.pool.value, env.repickAt(0));
      KeptSourceNeverMissing(call, env, maxSize, key, s.router, store', 1, s.next.source.value);
    }
  }

  /** A call over two providers whose target pops `source`: one failure, no retry, no cooldown. */
  lemma TakenSourceIsMissed(key: PoolKey, router: RouterState, store: MemoryCache.Store<int>)
    ensures var call :=
        Call("quote.history", None, None, key, Some(["KBS", "VCI"]), Popped, false, 60, 0.0, 0.0);
      var env: Env<int> :=
        Env((n: nat, p: Option<string>) => Failure(true, true), (n: nat) => 1.0, (n: nat) => 1.0, (n: nat) => 1.0);
      var f := Dispatched(call, env, 100, (p: string, r: string) => p + r, router, store);
      f.result.MissingSourceKey? && |f.trace| == 1 && f.router.cooldowns == router.cooldowns
  {
    var call := Call("quote.history", None, None, key, Some(["KBS", "VCI"]), Popped, false, 60, 0.0, 0.0);
    PickPrefersHealthy(router, key, ["KBS", "VCI"], 0.0);
  }

  lemma {:induction false} KeptSourceNeverMissing<V(!new)>(call: Call, env: Env<V>, maxSize: nat, key: string,
                                                           router: RouterState, store: MemoryCache.Store<V>,
                                                           attempt: nat, source: string)
    requires IsPooled(call) && !call.sourceUse.Popped? && attempt < MaxAttempts(call)
    ensures var f := Loop(call, env, maxSize, key, router, store, attempt, Some(source));
      f.trace != [] && !f.result.MissingSourceKey?
    decreases MaxAttempts(call) - attempt
  {
    var s := OneAttempt(call, env, maxSize, key, router, store, attempt, Some(source));
    RetryPicksSomeone(call, env, maxSize, key, router, store, attempt, source);
    if s.next.Retry? {
      KeptSourceNeverMissing(call, env, maxSize, key, s.router, store, attempt + 1, s.next.source.value);
    }
  }

  // ---------------------------------------------------------------------------
  // What a dispatch leaves behind
  // ---------------------------------------------------------------------------

  /** When the cooldown of provider `q` ends, after the attempts `trace` from number `attempt` on. */
  function CooldownAfter<V>(env: Env<V>, attempt: nat, trace: seq<Attempt<V>>, q: string, was: real): real
    decreases |trace|
  {
    if trace == [] then was
    else
      var now :=
        if trace[0].source == q && FailsRetriably(trace[0])
        then env.failAt(attempt) + (if trace[0].outcome.rateLimit then 300.0 else 60.0) else was;
      CooldownAfter(env, attempt + 1, trace[1..], q, now)
  }

  lemma AttemptCools<V(!new)>(call: Call, env: Env<V>, maxSize: nat, key: string,
                              router: RouterState, store: MemoryCache.Store<V>, attempt: nat, source: string, q: string)
    requires IsPooled(call)
    ensures var s := OneAttempt(call, env, maxSize, key, router, store, attempt, Some(source));
      CooldownUntil(s.router, call.poolKey, q) ==
        if call.sourceUse.Popped? then CooldownUntil(router, call.poolKey, q)
        else CooldownAfter(env, attempt, [s.attempt], q, CooldownUntil(router, call.poolKey, q))
  {
    var s := OneAttempt(call, env, maxSize, key, router, store, attempt, Some(source));
    assert [s.attempt][1..] == [];
  }

  /** The cooldowns a loop leaves: five minutes after a rate limit, one after any other retriable failure. */
  lemma {:induction false} LoopSetsCooldowns<V(!new)>(call: Call, env: Env<V>, maxSize: nat, key: string,
                                                      router: RouterState, store: MemoryCache.Store<V>, attempt: nat,
                                                      source: string, q: string)
    requires IsPooled(call) && attempt < MaxAttempts(call)
    ensures var f := Loop(call, env, maxSize, key, router, store, attempt, Some(source));
      CooldownUntil(f.router, call.poolKey, q) ==
        if call.sourceUse.Popped? then CooldownUntil(router, call.poolKey, q)
        else CooldownAfter(env, attempt, f.trace, q, CooldownUntil(router, call.poolKey, q))
    decreases MaxAttempts(call) - attempt
  {
    var s := OneAttempt(call, env, maxSize, key, router, store, attempt, Some(source));
    AttemptDecides(call, env, maxSize, key, router, store, attempt, Some(source));
    AttemptCools(call, env, maxSize, key, router, store, attempt, source, q);
    if s.next.Retry? {
      LoopGoesOn(call, env, maxSize, key, router, store, attempt, Some(source));
      LoopSetsCooldowns(call, env, maxSize, key, s.router, s.store, attempt + 1, s.next.source.value, q);
      CooldownOfCons(env, attempt, s.attempt,
                     Loop(call, env, maxSize, key, s.router, s.store, attempt + 1, s.next.source).trace, q,
                     CooldownUntil(router, call.poolKey, q));
    } else {
      LoopStops(call, env, maxSize, key, router, store, attempt, Some(source));
    }
  }

  lemma CooldownOfCons<V>(env: Env<V>, attempt: nat, a: Attempt<V>, rest: seq<Attempt<V>>, q: string, was: real)
    ensures CooldownAfter(env, attempt, [a] + rest, q, was)
         == CooldownAfter(env, attempt + 1, rest, q, CooldownAfter(env, attempt, [a], q, was))
  {
    assert ([a] + rest)[1..] == rest && [a][1..] == [];
  }

  lemma LoopStartsWith<V(!new)>(call: Call, env: Env<V>, maxSize: nat, key: string,
                                router: RouterState, store: MemoryCache.Store<V>, attempt: nat, source: Option<string>)
    requires attempt < MaxAttempts(call)
    ensures var trace := Loop(call, env, maxSize, key, router, store, attempt, source).trace;
      trace != [] && trace[0].source == SourceText(source)
  {
    if OneAttempt(call, env, maxSize, key, router, store, attempt, source).next.Done? {
      LoopStops(call, env, maxSize, key, router, store, attempt, source);
    } else {
      LoopGoesOn(call, env, maxSize, key, router, store, attempt, source);
    }
  }

  /** The source a dispatch starts with: the caller's, the router's pick from the pool, or the registry's. */
  lemma StartsWithSource<V(!new)>(call: Call, env: Env<V>, maxSize: nat, keyOf: (string, string) -> string,
                                  router: RouterState, store: MemoryCache.Store<V>)
    ensures var f := Dispatched(call, env, maxSize, keyOf, router, store); f.trace != [] ==>
      && (call.callerSource.Some? ==> f.trace[0].source == call.callerSource.value)
      && (UsesRouter(call) ==>
            Some(f.trace[0].source) == Pick(router, call.poolKey, call.pool.value, call.pickAt).1)
      && (call.callerSource.None? && call.pool.None? ==>
            f.trace[0].source == if call.defaultSource.Some? then call.defaultSource.value else "")
    ensures !UsesRouter(call) ==> Dispatched(call, env, maxSize, keyOf, router, store).router == router
  {
    var (router', source) := FirstPick(router, call);
    var key := keyOf(SourceText(source), call.request);
    var store' := if call.useCache then MemoryCache.Get(store, key, call.lookupAt).0 else store;
    if !(UsesRouter(call) && source.None?) {
      LoopStartsWith(call, env, maxSize, key, router', store', 0, source);
    }
  }

  /** Past the lookup, a dispatch ends as its attempts decide. */
  lemma DispatchEnds<V(!new)>(call: Call, env: Env<V>, maxSize: nat, keyOf: (string, string) -> string,
                              router: RouterState, store: MemoryCache.Store<V>)
    requires UsesRouter(call) ==> call.pool.value != []
    ensures var f := Dispatched(call, env, maxSize, keyOf, router, store);
      !f.result.Cached? ==> Decides(call, env, 0, f.trace, f.result)
  {
    var (router', source) := FirstPick(router, call);
    var key := keyOf(SourceText(source), call.request);
    var store' := if call.useCache then MemoryCache.Get(store, key, call.lookupAt).0 else store;
    LoopDecides(call, env, maxSize, key, router', store', 0, source);
  }

  /** It leaves the cooldowns that its attempts call for, unless the target popped the source. */
  lemma DispatchSetsCooldowns<V(!new)>(call: Call, env: Env<V>, maxSize: nat, keyOf: (string, string) -> string,
                                       router: RouterState, store: MemoryCache.Store<V>, q: string)
    requires IsPooled(call) && !Dispatched(call, env, maxSize, keyOf, router, store).result.Cached?
    ensures var f := Dispatched(call, env, maxSize, keyOf, router, store);
      CooldownUntil(f.router, call.poolKey, q) ==
        if call.sourceUse.Popped? then CooldownUntil(router, call.poolKey, q)
        else CooldownAfter(env, 0, f.trace, q, CooldownUntil(router, call.poolKey, q))
  {
    var router', store', key, source := DispatchIsLoop(call, env, maxSize, keyOf, router, store);
    LoopSetsCooldowns(call, env, maxSize, key, router', store', 0, source, q);
  }
}
