/** What the dispatches of a run store in the shared cache and find there. */
module DispatchCache {
  import opened Common
  import opened CacheHistory
  import MemoryCache
  import opened Router
  import opened Dispatch

  // ---------------------------------------------------------------------------
  // Cache soundness over runs of dispatches
  // ---------------------------------------------------------------------------

  datatype Job<!V> = Job(call: Call, env: Env<V>)

  /** The dispatches of a run, each starting where the one before it ended. */
  function Finals<V(!new)>(router: RouterState, store: MemoryCache.Store<V>, maxSize: nat,
                           keyOf: (string, string) -> string, jobs: seq<Job<V>>): (r: seq<Final<V>>)
    ensures |r| == |jobs|
    decreases |jobs|
  {
    if jobs == [] then []
    else
      var f := Dispatched(jobs[0].call, jobs[0].env, maxSize, keyOf, router, store);
      [f] + Finals(f.router, f.store, maxSize, keyOf, jobs[1..])
  }

  function RouterBefore<V>(router: RouterState, finals: seq<Final<V>>, i: nat): RouterState
    requires i <= |finals|
  {
    if i == 0 then router else finals[i - 1].router
  }

  function FirstSource(router: RouterState, call: Call): string {
    SourceText(FirstPick(router, call).1)
  }

  function AllOps<V>(finals: seq<Final<V>>): seq<Op<V>> {
    if finals == [] then [] else AllOps(finals[..|finals| - 1]) + finals[|finals| - 1].ops
  }

  ghost predicate IsInjective(keyOf: (string, string) -> string) {
    forall s, r, s', r' :: keyOf(s, r) == keyOf(s', r') ==> s == s' && r == r'
  }

  /** A fetched value is what the last attempt returned; when stored, it is stored under the first source. */
  ghost predicate StoredAsFetched<V>(f: Final<V>, source: string, call: Call, keyOf: (string, string) -> string) {
    forall op :: op in f.ops && op.SetOp? ==>
      && op.key == keyOf(source, call.request) && op.ttl == call.ttl
      && f.result == Fetched(op.value)
      && f.trace != [] && f.trace[0].source == source && f.trace[|f.trace| - 1].outcome == Success(op.value)
  }

  /** At most one value is stored, and it is the one the last attempt returned. */
  ghost predicate StoresTheResult<V>(ops: seq<Op<V>>, result: Result<V>, last: Attempt<V>, key: string, ttl: int) {
    || ops == []
    || (&& |ops| == 1 && ops[0].SetOp? && ops[0].key == key && ops[0].ttl == ttl
        && result == Fetched(ops[0].value) && last.outcome == Success(ops[0].value))
  }

  /** The store after the cache calls of a loop. */
  function Stored<V(!new)>(store: MemoryCache.Store<V>, maxSize: nat, ops: seq<Op<V>>): MemoryCache.Store<V> {
    if ops == [] then store else MemoryCache.Apply(store, maxSize, ops[0])
  }

  lemma AttemptStores<V(!new)>(call: Call, env: Env<V>, maxSize: nat, key: string,
                               router: RouterState, store: MemoryCache.Store<V>, attempt: nat, source: Option<string>)
    ensures var s := OneAttempt(call, env, maxSize, key, router, store, attempt, source);
      && s.attempt.source == SourceText(source) && s.store == Stored(store, maxSize, s.ops)
      && (s.next.Retry? ==> s.ops == [])
      && (s.next.Done? ==> !s.next.result.Cached? && StoresTheResult(s.ops, s.next.result, s.attempt, key, call.ttl))
  {
  }

  lemma LastOfCons<V>(a: Attempt<V>, rest: seq<Attempt<V>>)
    requires rest != []
    ensures ([a] + rest)[|[a] + rest| - 1] == rest[|rest| - 1]
  {
  }

  lemma {:induction false} LoopStores<V(!new)>(call: Call, env: Env<V>, maxSize: nat, key: string,
                                               router: RouterState, store: MemoryCache.Store<V>, attempt: nat,
                                               source: Option<string>)
    requires attempt < MaxAttempts(call)
    ensures var f := Loop(call, env, maxSize, key, router, store, attempt, source);
      && f.store == Stored(store, maxSize, f.ops)
      && f.trace != [] && f.trace[0].source == SourceText(source)
      && !f.result.Cached?
      && StoresTheResult(f.ops, f.result, f.trace[|f.trace| - 1], key, call.ttl)
    decreases MaxAttempts(call) - attempt
  {
    var s := OneAttempt(call, env, maxSize, key, router, store, attempt, source);
    AttemptStores(call, env, maxSize, key, router, store, attempt, source);
    if s.next.Retry? {
      LoopStores(call, env, maxSize, key, s.router, s.store, attempt + 1, s.next.source);
      var rest := Loop(call, env, maxSize, key, s.router, s.store, attempt + 1, s.next.source);
      LastOfCons(s.attempt, rest.trace);
      assert s.ops + rest.ops == rest.ops;
    }
  }

  lemma StoredIsRun<V(!new)>(h: seq<Op<V>>, ops: seq<Op<V>>, maxSize: nat)
    requires |ops| <= 1
    ensures Stored(MemoryCache.Run(h, maxSize), maxSize, ops) == MemoryCache.Run(h + ops, maxSize)
  {
    if ops == [] {
      assert h + ops == h;
    } else {
      assert ops == [ops[0]];
      RunOneMore(h, ops[0], maxSize);
    }
  }

  lemma RunOneMore<V(!new)>(h: seq<Op<V>>, op: Op<V>, maxSize: nat)
    ensures MemoryCache.Run(h + [op], maxSize) == MemoryCache.Apply(MemoryCache.Run(h, maxSize), maxSize, op)
  {
    assert (h + [op])[..|h|] == h;
  }

  /** The cache calls of a dispatch account for its effect on the store, and its hits come from the store. */
  lemma DispatchStores<V(!new)>(call: Call, env: Env<V>, maxSize: nat, keyOf: (string, string) -> string, h: seq<Op<V>>,
                                router: RouterState, store: MemoryCache.Store<V>)
    requires store == MemoryCache.Run(h, maxSize)
    ensures var f := Dispatched(call, env, maxSize, keyOf, router, store);
      var source := FirstSource(router, call);
      && f.store == MemoryCache.Run(h + f.ops, maxSize)
      && StoredAsFetched(f, source, call, keyOf)
      && (f.result.Cached? ==>
            MemoryCache.Get(store, keyOf(source, call.request), call.lookupAt).1 == Some(f.result.value))
  {
    var (router', source) := FirstPick(router, call);
    var key := keyOf(SourceText(source), call.request);
    if UsesRouter(call) && source.None? {
      assert h + [] == h;
    } else if call.useCache {
      var get: Op<V> := GetOp(key, call.lookupAt);
      RunOneMore(h, get, maxSize);
      var (store', hit) := MemoryCache.Get(store, key, call.lookupAt);
      if hit.None? {
        MissedLookupStores(call, env, maxSize, keyOf, h, get, router', store', source);
      }
    } else {
      DirectStores(call, env, maxSize, keyOf, h, router', store, source);
    }
  }

  /** The loop without a lookup. */
  lemma DirectStores<V(!new)>(call: Call, env: Env<V>, maxSize: nat, keyOf: (string, string) -> string, h: seq<Op<V>>,
                              router: RouterState, store: MemoryCache.Store<V>, source: Option<string>)
    requires store == MemoryCache.Run(h, maxSize)
    ensures var f := Loop(call, env, maxSize, keyOf(SourceText(source), call.request), router, store, 0, source);
      && f.store == MemoryCache.Run(h + f.ops, maxSize) && !f.result.Cached?
      && StoredAsFetched(f, SourceText(source), call, keyOf)
  {
    var f := Loop(call, env, maxSize, keyOf(SourceText(source), call.request), router, store, 0, source);
    LoopStores(call, env, maxSize, keyOf(SourceText(source), call.request), router, store, 0, source);
    StoredIsRun(h, f.ops, maxSize);
    OneStoreIsFetched(f, SourceText(source), call, keyOf);
  }

  lemma OneStoreIsFetched<V>(f: Final<V>, source: string, call: Call, keyOf: (string, string) -> string)
    requires f.trace != [] && f.trace[0].source == source
    requires StoresTheResult(f.ops, f.result, f.trace[|f.trace| - 1], keyOf(source, call.request), call.ttl)
    ensures StoredAsFetched(f, source, call, keyOf)
  {
    forall op | op in f.ops
      ensures op == f.ops[0]
    {
      assert |f.ops| == 1;
    }
  }

  lemma LookupStoresNothing<V>(f: Final<V>, get: Op<V>, source: string, call: Call, keyOf: (string, string) -> string)
    requires StoredAsFetched(f, source, call, keyOf) && get.GetOp?
    ensures StoredAsFetched(f.(ops := [get] + f.ops), source, call, keyOf)
  {
    forall op | op in [get] + f.ops && op.SetOp?
      ensures op in f.ops
    {
    }
  }

  /** The loop that follows a lookup without a hit. */
  lemma MissedLookupStores<V(!new)>(call: Call, env: Env<V>, maxSize: nat, keyOf: (string, string) -> string,
                                    h: seq<Op<V>>, get: Op<V>,
                                    router: RouterState, store: MemoryCache.Store<V>, source: Option<string>)
    requires store == MemoryCache.Run(h + [get], maxSize) && get.GetOp?
    ensures var f := Loop(call, env, maxSize, keyOf(SourceText(source), call.request), router, store, 0, source);
      && f.store == MemoryCache.Run(h + ([get] + f.ops), maxSize) && !f.result.Cached?
      && StoredAsFetched(f.(ops := [get] + f.ops), SourceText(source), call, keyOf)
  {
    var f := Loop(call, env, maxSize, keyOf(SourceText(source), call.request), router, store, 0, source);
    DirectStores(call, env, maxSize, keyOf, h + [get], router, store, source);
    ConcatIsAssociative(h, [get], f.ops);
    LookupStoresNothing(f, get, SourceText(source), call, keyOf);
  }

  /** Every dispatch of a run starts from the store that the cache calls before it build. */
  lemma {:induction false} RunStores<V(!new)>(router: RouterState, store: MemoryCache.Store<V>, h: seq<Op<V>>,
                                              maxSize: nat,
                                              keyOf: (string, string) -> string, jobs: seq<Job<V>>, i: nat)
    requires store == MemoryCache.Run(h, maxSize) && i < |jobs|
    ensures var finals := Finals(router, store, maxSize, keyOf, jobs);
      finals[i] == Dispatched(jobs[i].call, jobs[i].env, maxSize, keyOf,
                            RouterBefore(router, finals, i), MemoryCache.Run(h + AllOps(finals[..i]), maxSize))
    decreases |jobs|
  {
    var finals := Finals(router, store, maxSize, keyOf, jobs);
    var f := finals[0];
    if i == 0 {
      assert h + AllOps(finals[..0]) == h;
    } else {
      DispatchStores(jobs[0].call, jobs[0].env, maxSize, keyOf, h, router, store);
      RunStores(f.router, f.store, h + f.ops, maxSize, keyOf, jobs[1..], i - 1);
      var rest := Finals(f.router, f.store, maxSize, keyOf, jobs[1..]);
      assert finals[..i] == [f] + rest[..i - 1];
      AllOpsOfCons(f, rest[..i - 1]);
      ConcatIsAssociative(h, f.ops, AllOps(rest[..i - 1]));
    }
  }

  lemma {:induction false} AllOpsOfCons<V>(f: Final<V>, rest: seq<Final<V>>)
    ensures AllOps([f] + rest) == f.ops + AllOps(rest)
  {
    if rest == [] {
      assert ([f] + rest)[..0] == [];
    } else {
      var all := [f] + rest;
      assert all[..|all| - 1] == [f] + rest[..|rest| - 1];
      AllOpsOfCons(f, rest[..|rest| - 1]);
      ConcatIsAssociative(f.ops, AllOps(rest[..|rest| - 1]), rest[|rest| - 1].ops);
    }
  }

  lemma {:induction false} OriginOfOp<V>(finals: seq<Final<V>>, op: Op<V>) returns (j: nat)
    requires op in AllOps(finals)
    ensures j < |finals| && op in finals[j].ops
  {
    if op in finals[|finals| - 1].ops {
      j := |finals| - 1;
    } else {
      j := OriginOfOp(finals[..|finals| - 1], op);
    }
  }

  /**
   * Dispatch `j` fetched the value that dispatch `i` gets from the cache, for the same request, and within its
   * lifetime.
   */
  ghost predicate Explains<V(!new)>(router: RouterState, finals: seq<Final<V>>, jobs: seq<Job<V>>, j: nat, i: nat)
    requires j < i < |finals| == |jobs|
  {
    && finals[i].result.Cached?
    && finals[j].result == Fetched(finals[i].result.value)
    && finals[j].trace != [] && finals[j].trace[|finals[j].trace| - 1].outcome == Success(finals[i].result.value)
    && jobs[j].call.request == jobs[i].call.request
    && finals[j].trace[0].source == FirstSource(RouterBefore(router, finals, i), jobs[i].call)
    && exists op :: op in finals[j].ops && op.SetOp? && op.value == finals[i].result.value
         && op.ttl == jobs[j].call.ttl && jobs[i].call.lookupAt <= Expiry(op)
  }

  /**
   * Over any run that starts with an empty cache, a cached result was fetched by an earlier dispatch of
   * the same request with the same first-picked source, and its lifetime has not passed.
   */
  lemma CachedResultsAreExplained<V(!new)>(router: RouterState, maxSize: nat, keyOf: (string, string) -> string,
                                           jobs: seq<Job<V>>, i: nat)
    requires IsInjective(keyOf) && i < |jobs|
    ensures var finals := Finals(router, [], maxSize, keyOf, jobs);
      finals[i].result.Cached? ==> exists j: nat :: j < i && Explains(router, finals, jobs, j, i)
  {
    if Finals(router, [], maxSize, keyOf, jobs)[i].result.Cached? {
      CachedResultIsExplained(router, maxSize, keyOf, jobs, i);
    }
  }

  lemma CachedResultIsExplained<V(!new)>(router: RouterState, maxSize: nat, keyOf: (string, string) -> string,
                                         jobs: seq<Job<V>>, i: nat)
    requires IsInjective(keyOf) && i < |jobs|
    requires Finals(router, [], maxSize, keyOf, jobs)[i].result.Cached?
    ensures exists j: nat :: j < i && Explains(router, Finals(router, [], maxSize, keyOf, jobs), jobs, j, i)
  {
    var none: MemoryCache.Store<V> := [];
    var noOps: seq<Op<V>> := [];
    var finals := Finals(router, none, maxSize, keyOf, jobs);
    var h := AllOps(finals[..i]);
    RunStores(router, none, noOps, maxSize, keyOf, jobs, i);
    assert noOps + h == h;
    var source := FirstSource(RouterBefore(router, finals, i), jobs[i].call);
    var key := keyOf(source, jobs[i].call.request);
    DispatchStores(jobs[i].call, jobs[i].env, maxSize, keyOf, h, RouterBefore(router, finals, i),
                   MemoryCache.Run(h, maxSize));
    MemoryCache.AgreesWithMap(h, maxSize, key, jobs[i].call.lookupAt);
    var op := h[LastSet(h, key).value];
    var j := OriginOfOp(finals[..i], op);
    var h' := AllOps(finals[..j]);
    RunStores(router, none, noOps, maxSize, keyOf, jobs, j);
    assert noOps + h' == h';
    DispatchStores(jobs[j].call, jobs[j].env, maxSize, keyOf, h', RouterBefore(router, finals, j),
                   MemoryCache.Run(h', maxSize));
    assert op in finals[j].ops;
    assert Explains(router, finals, jobs, j, i);
  }

  // ---------------------------------------------------------------------------
  // What a fetch leaves in the cache
  // ---------------------------------------------------------------------------

  /** The write that an end of the loop calls for. */
  function WriteOf<V>(call: Call, env: Env<V>, key: string, result: Result<V>, at: nat): seq<Op<V>> {
    if call.useCache && result.Fetched? then [SetOp(key, result.value, call.ttl, env.storeAt(at))] else []
  }

  lemma AttemptWritesIff<V(!new)>(call: Call, env: Env<V>, maxSize: nat, key: string,
                                  router: RouterState, store: MemoryCache.Store<V>, attempt: nat,
                                  source: Option<string>)
    ensures var s := OneAttempt(call, env, maxSize, key, router, store, attempt, source);
      match s.next
      case Done(result) =>
        !result.EmptyPool? && !result.Cached? && s.ops == WriteOf(call, env, key, result, attempt)
      case Retry(_) => s.ops == []
  {
  }

  /** The end `f` of a loop from `attempt` on makes the one write that its result calls for. */
  ghost predicate WritesOnce<V>(call: Call, env: Env<V>, key: string, attempt: nat, f: Final<V>) {
    && f.trace != [] && !f.result.EmptyPool? && !f.result.Cached?
    && f.ops == WriteOf(call, env, key, f.result, attempt + LastAttempt(f.trace))
  }

  lemma WritesOnceBefore<V>(call: Call, env: Env<V>, key: string, attempt: nat, a: Attempt<V>, rest: Final<V>,
                            f: Final<V>)
    requires WritesOnce(call, env, key, attempt + 1, rest)
    requires f.trace == [a] + rest.trace && f.result == rest.result && f.ops == [] + rest.ops
    ensures WritesOnce(call, env, key, attempt, f)
  {
    OneMoreAttempt(a, rest.trace);
    assert [] + rest.ops == rest.ops;
  }

  /** The one write a loop may make: of a fetched value, when the cache is in use, at the time of its attempt. */
  lemma {:induction false} LoopWritesIff<V(!new)>(call: Call, env: Env<V>, maxSize: nat, key: string,
                                                  router: RouterState, store: MemoryCache.Store<V>, attempt: nat,
                                                  source: Option<string>)
    requires attempt < MaxAttempts(call)
    ensures WritesOnce(call, env, key, attempt, Loop(call, env, maxSize, key, router, store, attempt, source))
    decreases MaxAttempts(call) - attempt
  {
    var s := OneAttempt(call, env, maxSize, key, router, store, attempt, source);
    AttemptWritesIff(call, env, maxSize, key, router, store, attempt, source);
    if s.next.Retry? {
      LoopGoesOn(call, env, maxSize, key, router, store, attempt, source);
      LoopWritesIff(call, env, maxSize, key, s.router, s.store, attempt + 1, s.next.source);
      WritesOnceBefore(call, env, key, attempt, s.attempt,
                       Loop(call, env, maxSize, key, s.router, s.store, attempt + 1, s.next.source),
                       Loop(call, env, maxSize, key, router, store, attempt, source));
    } else {
      LoopStops(call, env, maxSize, key, router, store, attempt, source);
    }
  }

  /** The lookup of a dispatch. */
  function LookupOf<V>(call: Call, key: string, result: Result<V>): seq<Op<V>> {
    if call.useCache && !result.EmptyPool? then [GetOp(key, call.lookupAt)] else []
  }

  lemma HitCallsCache<V(!new)>(call: Call, env: Env<V>, maxSize: nat, keyOf: (string, string) -> string,
                               router: RouterState, store: MemoryCache.Store<V>)
    requires call.useCache && !(UsesRouter(call) && FirstPick(router, call).1.None?)
    requires MemoryCache.Get(store, keyOf(FirstSource(router, call), call.request), call.lookupAt).1.Some?
    ensures var f := Dispatched(call, env, maxSize, keyOf, router, store);
      && f.result.Cached? && f.trace == []
      && f.ops == [GetOp(keyOf(FirstSource(router, call), call.request), call.lookupAt)] + []
  {
  }

  lemma MissCallsCache<V(!new)>(call: Call, env: Env<V>, maxSize: nat, keyOf: (string, string) -> string,
                                router: RouterState, store: MemoryCache.Store<V>)
    requires !(UsesRouter(call) && FirstPick(router, call).1.None?)
    requires call.useCache ==>
      MemoryCache.Get(store, keyOf(FirstSource(router, call), call.request), call.lookupAt).1.None?
    ensures var f := Dispatched(call, env, maxSize, keyOf, router, store);
      var key := keyOf(FirstSource(router, call), call.request);
      && f.trace != [] && !f.result.EmptyPool? && !f.result.Cached?
      && f.ops == LookupOf(call, key, f.result) + WriteOf(call, env, key, f.result, LastAttempt(f.trace))
  {
    var (router', source) := FirstPick(router, call);
    var key := keyOf(SourceText(source), call.request);
    var store' := if call.useCache then MemoryCache.Get(store, key, call.lookupAt).0 else store;
    LoopWritesIff(call, env, maxSize, key, router', store', 0, source);
    var loop := Loop(call, env, maxSize, key, router', store', 0, source);
    assert [] + loop.ops == loop.ops;
  }

  /** The cache calls of a dispatch: a lookup when the cache is in use, and a write of what was fetched. */
  lemma DispatchCallsCache<V(!new)>(call: Call, env: Env<V>, maxSize: nat, keyOf: (string, string) -> string,
                                    router: RouterState, store: MemoryCache.Store<V>)
    ensures var f := Dispatched(call, env, maxSize, keyOf, router, store);
      var key := keyOf(FirstSource(router, call), call.request);
      && (f.result.EmptyPool? <==> UsesRouter(call) && call.pool.value == [])
      && (f.result.Cached? ==> call.useCache && f.trace == [])
      && (f.result.Fetched? ==> f.trace != [])
      && f.ops == LookupOf(call, key, f.result) + WriteOf(call, env, key, f.result, LastAttempt(f.trace))
  {
    var (router', source) := FirstPick(router, call);
    var key := keyOf(SourceText(source), call.request);
    assert UsesRouter(call) ==> (source.None? <==> call.pool.value == []);
    if !(UsesRouter(call) && source.None?) {
      if call.useCache && MemoryCache.Get(store, key, call.lookupAt).1.Some? {
        HitCallsCache(call, env, maxSize, keyOf, router, store);
      } else {
        MissCallsCache(call, env, maxSize, keyOf, router, store);
      }
    }
  }

  /** The key under which dispatch `m` of a run looks up and stores. */
  function KeyAt<V(!new)>(router: RouterState, finals: seq<Final<V>>, jobs: seq<Job<V>>,
                          keyOf: (string, string) -> string, m: nat): string
    requires m < |finals| == |jobs|
  {
    keyOf(FirstSource(RouterBefore(router, finals, m), jobs[m].call), jobs[m].call.request)
  }

  /** Dispatch `m` fetched a value and put it in the cache. */
  predicate FetchesToCache<V(!new)>(finals: seq<Final<V>>, jobs: seq<Job<V>>, m: nat)
    requires m < |finals| == |jobs|
  {
    jobs[m].call.useCache && finals[m].result.Fetched?
  }

  /** When what dispatch `m` stored expires. */
  function ExpiryAt<V(!new)>(finals: seq<Final<V>>, jobs: seq<Job<V>>, m: nat): real
    requires m < |finals| == |jobs|
  {
    jobs[m].env.storeAt(LastAttempt(finals[m].trace)) + jobs[m].call.ttl as real
  }

  /** The keys other than that of dispatch `l` that the dispatches between `l` and `i` store under. */
  ghost function OtherKeys<V(!new)>(router: RouterState, finals: seq<Final<V>>, jobs: seq<Job<V>>,
                                    keyOf: (string, string) -> string, l: nat, i: nat): set<string>
    requires l < i <= |finals| == |jobs|
  {
    set m | l < m < i && FetchesToCache(finals, jobs, m)
            && KeyAt(router, finals, jobs, keyOf, m) != KeyAt(router, finals, jobs, keyOf, l)
      :: KeyAt(router, finals, jobs, keyOf, m)
  }

  /** A history around one set. */
  lemma {:induction false} LastSetAmong<V(!new)>(a: seq<Op<V>>, op: Op<V>, b: seq<Op<V>>)
    requires op.SetOp? && forall x :: x in b ==> x.GetOp? || (x.SetOp? && x.key != op.key)
    ensures LastSet(a + [op] + b, op.key) == Some(|a|)
  {
    if b == [] {
      assert a + [op] + b == a + [op];
      LastSetOfExtension(a, op, op.key);
    } else {
      var before, last := b[..|b| - 1], b[|b| - 1];
      assert a + [op] + b == (a + [op] + before) + [last];
      LastSetAmong(a, op, before);
      LastSetOfExtension(a + [op] + before, last, op.key);
    }
  }

  lemma KeysSetAmong<V(!new)>(a: seq<Op<V>>, op: Op<V>, b: seq<Op<V>>, keys: set<string>)
    requires op.SetOp? && forall x :: x in b && x.SetOp? ==> x.key in keys
    ensures KeysSetSince(a + [op] + b, |a|) <= keys
  {
    var h := a + [op] + b;
    forall i | |a| < i < |h| && h[i].SetOp?
      ensures h[i].key in keys
    {
      assert h[i] == b[i - |a| - 1];
    }
  }

  /** A stored value is found again while it is live and uncrowded. */
  lemma StoredIsFound<V(!new)>(a: seq<Op<V>>, op: Op<V>, b: seq<Op<V>>, maxSize: nat, keys: set<string>, now: real)
    requires op.SetOp? && forall x :: x in b ==> x.GetOp? || (x.SetOp? && x.key != op.key)
    requires forall x :: x in b && x.GetOp? && x.key == op.key ==> x.at <= Expiry(op)
    requires (forall x :: x in b && x.SetOp? ==> x.key in keys) && |keys| < maxSize && now <= Expiry(op)
    ensures MemoryCache.Get(MemoryCache.Run(a + [op] + b, maxSize), op.key, now).1 == Some(op.value)
  {
    var h := a + [op] + b;
    LastSetAmong(a, op, b);
    KeysSetAmong(a, op, b, keys);
    assert h[|a|] == op;
    forall i | |a| < i < |h| && h[i].GetOp? && h[i].key == op.key
      ensures h[i].at <= Expiry(op)
    {
      assert h[i] == b[i - |a| - 1];
    }
    SubsetCardinality(KeysSetSince(h, |a|) - {op.key}, keys);
    MemoryCache.AgreesWithMap(h, maxSize, op.key, now);
  }

  lemma {:induction false} AllOpsOfConcat<V>(x: seq<Final<V>>, y: seq<Final<V>>)
    ensures AllOps(x + y) == AllOps(x) + AllOps(y)
  {
    if x == [] {
      assert x + y == y;
    } else {
      AllOpsOfConcat(x[1..], y);
      assert x + y == [x[0]] + (x[1..] + y) && x == [x[0]] + x[1..];
      AllOpsOfCons(x[0], x[1..] + y);
      AllOpsOfCons(x[0], x[1..]);
      ConcatIsAssociative(x[0].ops, AllOps(x[1..]), AllOps(y));
    }
  }

  /** The cache calls of dispatch `m` of a run. */
  lemma RunCallsCache<V(!new)>(router: RouterState, maxSize: nat, keyOf: (string, string) -> string, jobs: seq<Job<V>>,
                               m: nat)
    requires m < |jobs|
    ensures var finals := Finals(router, [], maxSize, keyOf, jobs);
      var (call, f) := (jobs[m].call, finals[m]);
      var key := KeyAt(router, finals, jobs, keyOf, m);
      && (f.result.Fetched? ==> f.trace != [])
      && f.ops == LookupOf(call, key, f.result) + WriteOf(call, jobs[m].env, key, f.result, LastAttempt(f.trace))
  {
    var none: MemoryCache.Store<V> := [];
    var noOps: seq<Op<V>> := [];
    var finals := Finals(router, none, maxSize, keyOf, jobs);
    RunStores(router, none, noOps, maxSize, keyOf, jobs, m);
    DispatchCallsCache(jobs[m].call, jobs[m].env, maxSize, keyOf, RouterBefore(router, finals, m),
                       MemoryCache.Run(noOps + AllOps(finals[..m]), maxSize));
  }

  /** Nothing between the dispatches `l` and `i` touches what `l` stored. */
  ghost predicate LeftAlone<V(!new)>(router: RouterState, finals: seq<Final<V>>, jobs: seq<Job<V>>,
                                     keyOf: (string, string) -> string, l: nat, i: nat)
    requires l < i < |finals| == |jobs|
  {
    forall m | l < m < i && jobs[m].call.useCache
               && KeyAt(router, finals, jobs, keyOf, m) == KeyAt(router, finals, jobs, keyOf, l)
      :: !finals[m].result.Fetched? && jobs[m].call.lookupAt <= ExpiryAt(finals, jobs, l)
  }

  /** The cache calls between the dispatches `l` and `i`. */
  lemma CallsBetween<V(!new)>(router: RouterState, maxSize: nat, keyOf: (string, string) -> string, jobs: seq<Job<V>>,
                              l: nat, i: nat, x: Op<V>)
    requires l < i < |jobs|
    requires LeftAlone(router, Finals(router, [], maxSize, keyOf, jobs), jobs, keyOf, l, i)
    requires x in AllOps(Finals(router, [], maxSize, keyOf, jobs)[l + 1..i])
    ensures var finals := Finals(router, [], maxSize, keyOf, jobs);
      var key := KeyAt(router, finals, jobs, keyOf, l);
      && (x.GetOp? || (x.SetOp? && x.key != key && x.key in OtherKeys(router, finals, jobs, keyOf, l, i)))
      && (x.GetOp? && x.key == key ==> x.at <= ExpiryAt(finals, jobs, l))
  {
    var finals := Finals(router, [], maxSize, keyOf, jobs);
    var at := OriginOfOp(finals[l + 1..i], x);
    var m := l + 1 + at;
    assert finals[l + 1..i][at] == finals[m];
    RunCallsCache(router, maxSize, keyOf, jobs, m);
  }

  lemma HistoryAround<V>(finals: seq<Final<V>>, l: nat, i: nat, get: Op<V>, op: Op<V>)
    requires l < i <= |finals| && finals[l].ops == [get] + [op]
    ensures AllOps(finals[..i]) == AllOps(finals[..l]) + [get] + [op] + AllOps(finals[l + 1..i])
  {
    assert finals[..i] == finals[..l] + ([finals[l]] + finals[l + 1..i]);
    AllOpsOfConcat(finals[..l], [finals[l]] + finals[l + 1..i]);
    AllOpsOfCons(finals[l], finals[l + 1..i]);
    var a, d := AllOps(finals[..l]), AllOps(finals[l + 1..i]);
    assert a + (([get] + [op]) + d) == a + [get] + [op] + d;
  }

  /** The cache when dispatch `i` begins still holds what `l` stored. */
  lemma StillInCache<V(!new)>(router: RouterState, maxSize: nat, keyOf: (string, string) -> string, jobs: seq<Job<V>>,
                              l: nat, i: nat)
    requires l < i < |jobs|
    requires var finals := Finals(router, [], maxSize, keyOf, jobs);
      && FetchesToCache(finals, jobs, l) && LeftAlone(router, finals, jobs, keyOf, l, i)
      && jobs[i].call.lookupAt <= ExpiryAt(finals, jobs, l)
      && |OtherKeys(router, finals, jobs, keyOf, l, i)| < maxSize
    ensures var finals := Finals(router, [], maxSize, keyOf, jobs);
      MemoryCache.Get(MemoryCache.Run(AllOps(finals[..i]), maxSize), KeyAt(router, finals, jobs, keyOf, l),
                      jobs[i].call.lookupAt).1 == Some(finals[l].result.value)
  {
    var finals := Finals(router, [], maxSize, keyOf, jobs);
    var key := KeyAt(router, finals, jobs, keyOf, l);
    var op := SetOp(key, finals[l].result.value, jobs[l].call.ttl, jobs[l].env.storeAt(LastAttempt(finals[l].trace)));
    var get: Op<V> := GetOp(key, jobs[l].call.lookupAt);
    var between := AllOps(finals[l + 1..i]);
    RunCallsCache(router, maxSize, keyOf, jobs, l);
    HistoryAround(finals, l, i, get, op);
    forall x | x in between
      ensures x.GetOp? || (x.SetOp? && x.key != key && x.key in OtherKeys(router, finals, jobs, keyOf, l, i))
      ensures x.GetOp? && x.key == key ==> x.at <= Expiry(op)
    {
      CallsBetween(router, maxSize, keyOf, jobs, l, i, x);
    }
    StoredIsFound(AllOps(finals[..l]) + [get], op, between, maxSize, OtherKeys(router, finals, jobs, keyOf, l, i),
                  jobs[i].call.lookupAt);
  }

  lemma HitEndsDispatch<V(!new)>(call: Call, env: Env<V>, maxSize: nat, keyOf: (string, string) -> string,
                                 router: RouterState, store: MemoryCache.Store<V>, value: V)
    requires call.useCache && (UsesRouter(call) ==> call.pool.value != [])
    requires
      MemoryCache.Get(store, keyOf(FirstSource(router, call), call.request), call.lookupAt).1 == Some(value)
    ensures var f := Dispatched(call, env, maxSize, keyOf, router, store);
      f.result == Cached(value) && f.trace == []
  {
  }

  /**
   * What a dispatch fetches is what a later one finds: the same key, no later fetch under it, looked up within its
   * lifetime, and fewer than `maxSize` other keys stored in between.
   */
  lemma FetchedIsCachedLater<V(!new)>(router: RouterState, maxSize: nat, keyOf: (string, string) -> string,
                                      jobs: seq<Job<V>>, l: nat, i: nat)
    requires l < i < |jobs|
    requires var finals := Finals(router, [], maxSize, keyOf, jobs);
      && FetchesToCache(finals, jobs, l) && LeftAlone(router, finals, jobs, keyOf, l, i)
      && KeyAt(router, finals, jobs, keyOf, i) == KeyAt(router, finals, jobs, keyOf, l)
      && jobs[i].call.lookupAt <= ExpiryAt(finals, jobs, l)
      && |OtherKeys(router, finals, jobs, keyOf, l, i)| < maxSize
    requires jobs[i].call.useCache && (UsesRouter(jobs[i].call) ==> jobs[i].call.pool.value != [])
    ensures var finals := Finals(router, [], maxSize, keyOf, jobs);
      finals[i].result == Cached(finals[l].result.value) && finals[i].trace == []
  {
    var none: MemoryCache.Store<V> := [];
    var noOps: seq<Op<V>> := [];
    var finals := Finals(router, none, maxSize, keyOf, jobs);
    StillInCache(router, maxSize, keyOf, jobs, l, i);
    RunStores(router, none, noOps, maxSize, keyOf, jobs, i);
    assert noOps + AllOps(finals[..i]) == AllOps(finals[..i]);
    HitEndsDispatch(jobs[i].call, jobs[i].env, maxSize, keyOf, RouterBefore(router, finals, i),
                    MemoryCache.Run(AllOps(finals[..i]), maxSize), finals[l].result.value);
  }
}
