/** `MemoryBackend` of `cache.py`: an ordered dictionary with expiry and oldest-set-first eviction. */
module MemoryCache {
  import opened Common
  import opened CacheHistory

  datatype Entry<+V> = Entry(key: string, value: V, expiry: real)

  /** The ordered dictionary, oldest insertion first. */
  type Store<+V> = seq<Entry<V>>

  function Without<V(!new)>(store: Store<V>, key: string): (r: Store<V>)
    ensures forall e :: e in r <==> e in store && e.key != key
    ensures |r| <= |store|
  {
    if store == [] then []
    else (if store[0].key == key then [] else [store[0]]) + Without(store[1..], key)
  }

  function Lookup<V(!new)>(store: Store<V>, key: string): (r: Option<Entry<V>>)
    ensures r.Some? ==> r.value in store && r.value.key == key
    ensures r.None? ==> forall e :: e in store ==> e.key != key
  {
    if store == [] then None
    else if store[0].key == key then Some(store[0])
    else Lookup(store[1..], key)
  }

  function Get<V(!new)>(store: Store<V>, key: string, now: real): (Store<V>, Option<V>) {
    match Lookup(store, key)
    case None => (store, None)
    case Some(e) => if now > e.expiry then (Without(store, key), None) else (store, Some(e.value))
  }

  function Set<V(!new)>(store: Store<V>, maxSize: nat, key: string, value: V, ttl: int, now: real): Store<V> {
    LastN(Without(store, key) + [Entry(key, value, now + ttl as real)], maxSize)
  }

  class MemoryBackend<V(!new)> {
    const maxSize: nat
    var store: Store<V>

    constructor (maxSize: nat)
      ensures store == [] && this.maxSize == maxSize
    {
      this.maxSize := maxSize;
      store := [];
    }

    method GetValue(key: string, now: real) returns (value: Option<V>)
      modifies this
      ensures (store, value) == Get(old(store), key, now)
    {
      match Lookup(store, key) {
        case None => value := None;
        case Some(e) =>
          if now > e.expiry {
            store := Without(store, key);
            value := None;
          } else {
            value := Some(e.value);
          }
      }
    }

    method SetValue(key: string, value: V, ttl: int, now: real)
      modifies this
      ensures store == Set(old(store), maxSize, key, value, ttl, now)
    {
      var expiry := now + ttl as real;
      store := Without(store, key) + [Entry(key, value, expiry)];
      EvictOldest();
    }

    /** Evict oldest when over capacity. */
    method EvictOldest()
      modifies this
      ensures store == LastN(old(store), maxSize)
    {
      ghost var full := store;
      while |store| > maxSize
        invariant |store| <= |full| && store == full[|full| - |store|..]
        invariant |full| >= maxSize ==> |store| >= maxSize
        invariant |full| <= maxSize ==> store == full
      {
        store := store[1..];
      }
    }

    method Delete(key: string)
      modifies this
      ensures store == Without(old(store), key)
    {
      store := Without(store, key);
    }

    method Clear()
      modifies this
      ensures store == []
    {
      store := [];
    }
  }

  // ---------------------------------------------------------------------------
  // Runs
  // ---------------------------------------------------------------------------

  function Apply<V(!new)>(store: Store<V>, maxSize: nat, op: Op<V>): Store<V> {
    match op
    case SetOp(key, value, ttl, at) => Set(store, maxSize, key, value, ttl, at)
    case GetOp(key, at) => Get(store, key, at).0
    case DeleteOp(key) => Without(store, key)
    case ClearOp => []
  }

  /** The store after a history of calls on a new backend. */
  function Run<V(!new)>(h: seq<Op<V>>, maxSize: nat): Store<V> {
    if h == [] then [] else Apply(Run(h[..|h| - 1], maxSize), maxSize, h[|h| - 1])
  }

  ghost predicate Holds<V(!new)>(store: Store<V>, key: string) {
    exists e :: e in store && e.key == key
  }

  /** Every entry is the latest set of its key. */
  ghost predicate IsLatest<V(!new)>(h: seq<Op<V>>, e: Entry<V>) {
    LastSet(h, e.key).Some? && var op := h[LastSet(h, e.key).value]; e == Entry(op.key, op.value, Expiry(op))
  }

  ghost predicate AllLatest<V(!new)>(h: seq<Op<V>>, store: Store<V>) {
    forall e :: e in store ==> IsLatest(h, e)
  }

  /** When the key was last set, or -1. */
  function SetAt<V(!new)>(h: seq<Op<V>>, key: string): int {
    match LastSet(h, key) case Some(p) => p case None => -1
  }

  /** Entries stand in the order of their latest sets. */
  ghost predicate InSetOrder<V(!new)>(h: seq<Op<V>>, store: Store<V>) {
    forall i, j :: 0 <= i < j < |store| ==> SetAt(h, store[i].key) < SetAt(h, store[j].key)
  }

  /** A live key that is missing was crowded out. */
  ghost predicate MissingMeansCrowded<V(!new)>(h: seq<Op<V>>, store: Store<V>, maxSize: nat) {
    forall key :: IsLive(h, key) && !Holds(store, key) ==> |KeysSetSince(h, LastSet(h, key).value) - {key}| >= maxSize
  }

  /** Eviction never passes over an older entry. */
  ghost predicate OldestGoesFirst<V(!new)>(h: seq<Op<V>>, store: Store<V>) {
    forall e, key :: e in store && IsLive(h, key) && SetAt(h, e.key) < SetAt(h, key) ==> Holds(store, key)
  }

  ghost predicate Inv<V(!new)>(h: seq<Op<V>>, store: Store<V>, maxSize: nat) {
    && |store| <= maxSize
    && AllLatest(h, store)
    && InSetOrder(h, store)
    && MissingMeansCrowded(h, store, maxSize)
    && OldestGoesFirst(h, store)
  }

  lemma {:induction false} WithoutKeepsOrder<V(!new)>(h: seq<Op<V>>, store: Store<V>, key: string)
    requires InSetOrder(h, store)
    ensures InSetOrder(h, Without(store, key))
  {
    if store != [] {
      var rest := store[1..];
      assert forall i :: 0 <= i < |rest| ==> rest[i] == store[i + 1];
      assert InSetOrder(h, rest);
      WithoutKeepsOrder(h, rest, key);
      var r := Without(rest, key);
      forall e | e in r
        ensures SetAt(h, store[0].key) < SetAt(h, e.key)
      {
        assert e in rest;
      }
    }
  }

  /** The keys of the store from index `from` on. */
  ghost function KeysFrom<V(!new)>(store: Store<V>, from: nat): set<string> {
    set i | from <= i < |store| :: store[i].key
  }

  /** The keys of a store in set order are distinct. */
  lemma {:induction false} KeysAreDistinct<V(!new)>(h: seq<Op<V>>, store: Store<V>, from: nat)
    requires InSetOrder(h, store) && from <= |store|
    ensures |KeysFrom(store, from)| == |store| - from
    decreases |store| - from
  {
    if from < |store| {
      KeysAreDistinct(h, store, from + 1);
      assert store[from].key !in KeysFrom(store, from + 1);
      assert KeysFrom(store, from) == KeysFrom(store, from + 1) + {store[from].key};
    }
  }

  lemma EarlierCallsAgree<V(!new)>(h: seq<Op<V>>, op: Op<V>)
    ensures forall i :: 0 <= i < |h| ==> (h + [op])[i] == h[i]
    ensures (h + [op])[|h|] == op
  {
  }

  /** A call that sets nothing and, at most, removes the entry of `key`. */
  lemma RemovalKeepsInv<V(!new)>(h: seq<Op<V>>, op: Op<V>, store: Store<V>, maxSize: nat, key: string)
    requires Inv(h, store, maxSize) && (op.GetOp? || op.DeleteOp?) && op.key == key
    requires !IsLive(h + [op], key)
    ensures Inv(h + [op], Without(store, key), maxSize)
  {
    var h', store' := h + [op], Without(store, key);
    EarlierCallsAgree(h, op);
    forall k | k != key
      ensures LastSet(h', k) == LastSet(h, k)
    {
      LastSetOfExtension(h, op, k);
    }
    WithoutKeepsOrder(h, store, key);
    assert InSetOrder(h', store');
    assert AllLatest(h', store');
    forall k | IsLive(h', k)
      ensures IsLive(h, k) && k != key && (Holds(store, k) ==> Holds(store', k))
    {
      LiveInPrefix(h, op, k);
    }
    forall k | IsLive(h', k) && !Holds(store', k)
      ensures |KeysSetSince(h', LastSet(h', k).value) - {k}| >= maxSize
    {
      CrowdGrows(h, op, LastSet(h, k).value, k);
    }
    assert OldestGoesFirst(h', store');
  }

  lemma CrowdGrows<V(!new)>(h: seq<Op<V>>, op: Op<V>, p: nat, key: string)
    ensures |KeysSetSince(h, p) - {key}| <= |KeysSetSince(h + [op], p) - {key}|
  {
    KeysSetSinceGrows(h, op, p);
    SubsetCardinality(KeysSetSince(h, p) - {key}, KeysSetSince(h + [op], p) - {key});
  }

  /** A call that changes no entry and no latest set. */
  lemma QuietCallKeepsInv<V(!new)>(h: seq<Op<V>>, op: Op<V>, store: Store<V>, maxSize: nat)
    requires Inv(h, store, maxSize) && op.GetOp?
    ensures Inv(h + [op], store, maxSize)
  {
    var h' := h + [op];
    EarlierCallsAgree(h, op);
    forall k
      ensures LastSet(h', k) == LastSet(h, k)
      ensures IsLive(h', k) ==> IsLive(h, k)
    {
      LastSetOfExtension(h, op, k);
      if IsLive(h', k) { LiveInPrefix(h, op, k); }
    }
    assert InSetOrder(h', store);
    assert AllLatest(h', store);
    forall k | IsLive(h', k) && !Holds(store, k)
      ensures |KeysSetSince(h', LastSet(h', k).value) - {k}| >= maxSize
    {
      CrowdGrows(h, op, LastSet(h, k).value, k);
    }
    assert OldestGoesFirst(h', store);
  }

  /** The store with the new entry, before eviction. */
  function Extended<V(!new)>(store: Store<V>, op: Op<V>): Store<V>
    requires op.SetOp?
  {
    Without(store, op.key) + [Entry(op.key, op.value, Expiry(op))]
  }

  lemma ExtendedMembers<V(!new)>(store: Store<V>, op: Op<V>)
    requires op.SetOp?
    ensures Holds(Extended(store, op), op.key)
    ensures forall key :: key != op.key && Holds(store, key) ==> Holds(Extended(store, op), key)
    ensures forall e :: e in Extended(store, op) ==>
      e == Entry(op.key, op.value, Expiry(op)) || (e in store && e.key != op.key)
  {
    var ext := Extended(store, op);
    assert ext[|ext| - 1] == Entry(op.key, op.value, Expiry(op));
    forall key | key != op.key && Holds(store, key)
      ensures Holds(ext, key)
    {
      var e :| e in store && e.key == key;
      assert e in Without(store, op.key);
      assert e in ext;
    }
  }

  lemma LastSetAfterSet<V(!new)>(h: seq<Op<V>>, op: Op<V>)
    requires op.SetOp?
    ensures forall k :: LastSet(h + [op], k) == if k == op.key then Some(|h|) else LastSet(h, k)
  {
    forall k
      ensures LastSet(h + [op], k) == if k == op.key then Some(|h|) else LastSet(h, k)
    {
      LastSetOfExtension(h, op, k);
    }
  }

  lemma ExtendedIsLatest<V(!new)>(h: seq<Op<V>>, op: Op<V>, store: Store<V>)
    requires AllLatest(h, store) && op.SetOp?
    ensures AllLatest(h + [op], Extended(store, op))
  {
    LastSetAfterSet(h, op);
    EarlierCallsAgree(h, op);
    ExtendedMembers(store, op);
    forall e | e in Extended(store, op)
      ensures IsLatest(h + [op], e)
    {
      if e in store && e.key != op.key { assert IsLatest(h, e); }
    }
  }

  lemma ExtendedIsOrdered<V(!new)>(h: seq<Op<V>>, op: Op<V>, store: Store<V>)
    requires InSetOrder(h, store) && op.SetOp?
    ensures InSetOrder(h + [op], Extended(store, op))
  {
    var base := Without(store, op.key);
    LastSetAfterSet(h, op);
    WithoutKeepsOrder(h, store, op.key);
    assert forall i :: 0 <= i < |base| ==>
      base[i] in base && SetAt(h + [op], base[i].key) == SetAt(h, base[i].key) < |h|;
  }

  /** Everything younger than an evicted entry was set since it. */
  lemma EvictedMeansCrowded<V(!new)>(h: seq<Op<V>>, ext: Store<V>, maxSize: nat, i: nat)
    requires AllLatest(h, ext) && InSetOrder(h, ext) && i < |ext| - maxSize
    ensures LastSet(h, ext[i].key).Some?
    ensures |KeysSetSince(h, LastSet(h, ext[i].key).value) - {ext[i].key}| >= maxSize
  {
    var from := |ext| - maxSize;
    assert ext[i] in ext && IsLatest(h, ext[i]);
    var p := LastSet(h, ext[i].key).value;
    KeysAreDistinct(h, ext, from);
    forall key | key in KeysFrom(ext, from)
      ensures key in KeysSetSince(h, p) - {ext[i].key}
    {
      var j :| from <= j < |ext| && ext[j].key == key;
      assert ext[j] in ext && IsLatest(h, ext[j]);
      assert SetAt(h, ext[i].key) < SetAt(h, ext[j].key);
    }
    SubsetCardinality(KeysFrom(ext, from), KeysSetSince(h, p) - {ext[i].key});
  }

  /** The entries eviction keeps. */
  lemma KeptEntry<V(!new)>(ext: Store<V>, maxSize: nat, i: nat)
    requires i < |ext| && i >= |ext| - maxSize
    ensures ext[i] in LastN(ext, maxSize) && Holds(LastN(ext, maxSize), ext[i].key)
  {
    var kept := LastN(ext, maxSize);
    assert kept[i - (|ext| - |kept|)] == ext[i];
  }

  /** Where a kept entry stood before eviction. */
  lemma KeptFrom<V(!new)>(ext: Store<V>, maxSize: nat, e: Entry<V>) returns (i: nat)
    requires e in LastN(ext, maxSize)
    ensures |ext| - maxSize <= i < |ext| && ext[i] == e
  {
    var kept := LastN(ext, maxSize);
    var k :| 0 <= k < |kept| && kept[k] == e;
    i := k + (|ext| - |kept|);
  }

  /** Eviction from a store in set order. */
  lemma EvictionSparesOrCrowds<V(!new)>(h: seq<Op<V>>, ext: Store<V>, maxSize: nat, key: string)
    requires AllLatest(h, ext) && InSetOrder(h, ext) && Holds(ext, key) && LastSet(h, key).Some?
    ensures Holds(LastN(ext, maxSize), key) || |KeysSetSince(h, LastSet(h, key).value) - {key}| >= maxSize
  {
    var i :| 0 <= i < |ext| && ext[i].key == key;
    if i < |ext| - maxSize {
      EvictedMeansCrowded(h, ext, maxSize, i);
    } else {
      KeptEntry(ext, maxSize, i);
    }
  }

  lemma EvictionKeepsYounger<V(!new)>(h: seq<Op<V>>, ext: Store<V>, maxSize: nat, e: Entry<V>, key: string)
    requires InSetOrder(h, ext) && Holds(ext, key) && e in LastN(ext, maxSize)
    requires SetAt(h, e.key) < SetAt(h, key)
    ensures Holds(LastN(ext, maxSize), key)
  {
    var i := KeptFrom(ext, maxSize, e);
    var j :| 0 <= j < |ext| && ext[j].key == key;
    assert i <= j;
    KeptEntry(ext, maxSize, j);
  }

  lemma SetKeepsCrowd<V(!new)>(h: seq<Op<V>>, op: Op<V>, store: Store<V>, maxSize: nat)
    requires Inv(h, store, maxSize) && op.SetOp?
    ensures MissingMeansCrowded(h + [op], LastN(Extended(store, op), maxSize), maxSize)
  {
    var h', ext := h + [op], Extended(store, op);
    ExtendedMembers(store, op);
    ExtendedIsLatest(h, op, store);
    ExtendedIsOrdered(h, op, store);
    LastSetAfterSet(h, op);
    forall key | IsLive(h', key) && !Holds(LastN(ext, maxSize), key)
      ensures |KeysSetSince(h', LastSet(h', key).value) - {key}| >= maxSize
    {
      if Holds(ext, key) {
        EvictionSparesOrCrowds(h', ext, maxSize, key);
      } else {
        LiveInPrefix(h, op, key);
        CrowdGrows(h, op, LastSet(h, key).value, key);
      }
    }
  }

  lemma SetKeepsOldestFirst<V(!new)>(h: seq<Op<V>>, op: Op<V>, store: Store<V>, maxSize: nat)
    requires Inv(h, store, maxSize) && op.SetOp?
    ensures OldestGoesFirst(h + [op], LastN(Extended(store, op), maxSize))
  {
    var h', ext := h + [op], Extended(store, op);
    ExtendedMembers(store, op);
    ExtendedIsOrdered(h, op, store);
    LastSetAfterSet(h, op);
    forall e, key | e in LastN(ext, maxSize) && IsLive(h', key) && SetAt(h', e.key) < SetAt(h', key)
      ensures Holds(LastN(ext, maxSize), key)
    {
      assert e in ext;
      if key != op.key {
        LiveInPrefix(h, op, key);
        assert SetAt(h', op.key) == |h|;
        assert e in store;
      }
      EvictionKeepsYounger(h', ext, maxSize, e, key);
    }
  }

  lemma KeptIsOrdered<V(!new)>(h: seq<Op<V>>, ext: Store<V>, maxSize: nat)
    requires AllLatest(h, ext) && InSetOrder(h, ext)
    ensures AllLatest(h, LastN(ext, maxSize)) && InSetOrder(h, LastN(ext, maxSize))
  {
    SuffixIsOrdered(h, ext, |ext| - |LastN(ext, maxSize)|, LastN(ext, maxSize));
  }

  lemma SuffixIsOrdered<V(!new)>(h: seq<Op<V>>, ext: Store<V>, from: nat, kept: Store<V>)
    requires AllLatest(h, ext) && InSetOrder(h, ext) && from <= |ext| && kept == ext[from..]
    ensures AllLatest(h, kept) && InSetOrder(h, kept)
  {
    forall e | e in kept
      ensures IsLatest(h, e)
    {
      assert e in ext;
    }
    forall i, j | 0 <= i < j < |kept|
      ensures SetAt(h, kept[i].key) < SetAt(h, kept[j].key)
    {
      assert kept[i] == ext[from + i] && kept[j] == ext[from + j];
    }
  }

  lemma SetKeepsInv<V(!new)>(h: seq<Op<V>>, op: Op<V>, store: Store<V>, maxSize: nat)
    requires Inv(h, store, maxSize) && op.SetOp?
    ensures Inv(h + [op], Apply(store, maxSize, op), maxSize)
  {
    ExtendedIsLatest(h, op, store);
    ExtendedIsOrdered(h, op, store);
    KeptIsOrdered(h + [op], Extended(store, op), maxSize);
    SetKeepsCrowd(h, op, store, maxSize);
    SetKeepsOldestFirst(h, op, store, maxSize);
    assert Apply(store, maxSize, op) == LastN(Extended(store, op), maxSize);
  }

  lemma ClearKeepsInv<V(!new)>(h: seq<Op<V>>, maxSize: nat)
    ensures var store: Store<V> := []; Inv(h + [ClearOp], store, maxSize)
  {
    forall key
      ensures !IsLive(h + [ClearOp], key)
    {
      LastSetOfExtension(h, ClearOp, key);
    }
  }

  lemma ApplyKeepsInv<V(!new)>(h: seq<Op<V>>, op: Op<V>, store: Store<V>, maxSize: nat)
    requires Inv(h, store, maxSize)
    ensures Inv(h + [op], Apply(store, maxSize, op), maxSize)
  {
    match op
    case SetOp(_, _, _, _) => SetKeepsInv(h, op, store, maxSize);
    case ClearOp => ClearKeepsInv(h, maxSize);
    case DeleteOp(key) =>
      LastSetOfExtension(h, op, key);
      RemovalKeepsInv(h, op, store, maxSize, key);
    case GetOp(key, at) =>
      var found := Lookup(store, key);
      if found.Some? && at > found.value.expiry {
        LastSetOfExtension(h, op, key);
        EarlierCallsAgree(h, op);
        assert IsLatest(h, found.value);
        RemovalKeepsInv(h, op, store, maxSize, key);
      } else {
        QuietCallKeepsInv(h, op, store, maxSize);
      }
  }

  lemma {:induction false} RunKeepsInv<V(!new)>(h: seq<Op<V>>, maxSize: nat)
    ensures Inv(h, Run(h, maxSize), maxSize)
  {
    if h != [] {
      RunKeepsInv(h[..|h| - 1], maxSize);
      ApplyKeepsInv(h[..|h| - 1], h[|h| - 1], Run(h[..|h| - 1], maxSize), maxSize);
      SplitAndJoin(h, |h| - 1);
      assert h[|h| - 1..] == [h[|h| - 1]];
    }
  }

  // ---------------------------------------------------------------------------
  // The cache against the simple map
  // ---------------------------------------------------------------------------

  /**
   * After any run: the size bound holds, a hit is the value of the latest set within its lifetime, and
   * a live key misses only when `maxSize` other keys were set since.
   */
  lemma AgreesWithMap<V(!new)>(h: seq<Op<V>>, maxSize: nat, key: string, now: real)
    ensures |Run(h, maxSize)| <= maxSize
    ensures var hit := Get(Run(h, maxSize), key, now).1; hit.Some? ==>
      LastSet(h, key).Some? && var op := h[LastSet(h, key).value]; hit.value == op.value && now <= Expiry(op)
    ensures Get(Run(h, maxSize), key, now).1.None? && IsLive(h, key) && now <= Expiry(h[LastSet(h, key).value]) ==>
      |KeysSetSince(h, LastSet(h, key).value) - {key}| >= maxSize
  {
    var store := Run(h, maxSize);
    RunKeepsInv(h, maxSize);
    var found := Lookup(store, key);
    if found.Some? {
      assert IsLatest(h, found.value);
    } else {
      assert !Holds(store, key);
    }
  }

  /** Conversely, `maxSize` live keys set later leave no room for an older one. */
  lemma CrowdedOut<V(!new)>(h: seq<Op<V>>, maxSize: nat, key: string, now: real, crowd: set<string>)
    requires forall k :: k in crowd ==> k != key && IsLive(h, k) && SetAt(h, key) < SetAt(h, k)
    requires |crowd| >= maxSize
    ensures Get(Run(h, maxSize), key, now).1.None?
  {
    var store := Run(h, maxSize);
    RunKeepsInv(h, maxSize);
    var found := Lookup(store, key);
    if found.Some? {
      assert forall k :: k in crowd ==> Holds(store, k);
      forall k | k in crowd + {key}
        ensures k in KeysFrom(store, 0)
      {
        assert Holds(store, k);
      }
      SubsetCardinality(crowd + {key}, KeysFrom(store, 0));
      KeysAreDistinct(h, store, 0);
    }
  }

  /** Nothing is deleted, and no `get` comes after the lifetime of the entry it asks for. */
  ghost predicate OnlyTimelyCalls<V(!new)>(h: seq<Op<V>>) {
    && (forall i :: 0 <= i < |h| ==> h[i].SetOp? || h[i].GetOp?)
    && (forall k :: LastSet(h, k).Some? ==> NeverFoundExpired(h, LastSet(h, k).value))
  }

  lemma {:induction false} LastSetIsLatest<V(!new)>(h: seq<Op<V>>, i: nat)
    requires forall j :: 0 <= j < |h| ==> h[j].SetOp? || h[j].GetOp?
    requires i < |h| && h[i].SetOp?
    ensures LastSet(h, h[i].key).Some? && LastSet(h, h[i].key).value >= i
  {
    if i < |h| - 1 {
      LastSetIsLatest(h[..|h| - 1], i);
    }
  }

  /** On such runs the eviction rule is exact: an entry survives iff fewer than `maxSize` other keys were set since. */
  lemma HitIffUncrowded<V(!new)>(h: seq<Op<V>>, maxSize: nat, key: string, now: real)
    requires OnlyTimelyCalls(h) && LastSet(h, key).Some? && now <= Expiry(h[LastSet(h, key).value])
    ensures Get(Run(h, maxSize), key, now).1.Some? <==> |KeysSetSince(h, LastSet(h, key).value) - {key}| < maxSize
  {
    var p := LastSet(h, key).value;
    var crowd := KeysSetSince(h, p) - {key};
    AgreesWithMap(h, maxSize, key, now);
    if |crowd| >= maxSize {
      forall k | k in crowd
        ensures IsLive(h, k) && SetAt(h, key) < SetAt(h, k)
      {
        var i :| p < i < |h| && h[i].SetOp? && h[i].key == k;
        LastSetIsLatest(h, i);
      }
      CrowdedOut(h, maxSize, key, now, crowd);
    }
  }

  /** The policy is not least-recently-used: the entry just read is the one evicted. */
  lemma EvictionIgnoresReads()
    ensures var h: seq<Op<int>> :=
      [SetOp("a", 1, 60, 0.0), SetOp("b", 2, 60, 1.0), GetOp("a", 2.0), SetOp("c", 3, 60, 3.0)];
      Get(Run(h, 2), "a", 4.0).1.None? && Get(Run(h, 2), "b", 4.0).1 == Some(2)
  {
    var a, b, c := SetOp("a", 1, 60, 0.0), SetOp("b", 2, 60, 1.0), SetOp("c", 3, 60, 3.0);
    var read := GetOp("a", 2.0);
    var h: seq<Op<int>> := [a, b, read, c];
    assert h[..3] == [a, b, read] && [a, b, read][..2] == [a, b] && [a, b][..1] == [a] && [a][..0] == [];
    var ea, eb, ec := Entry("a", 1, 60.0), Entry("b", 2, 61.0), Entry("c", 3, 63.0);
    assert Run([a], 2) == [ea];
    assert Without([ea], "b") == [ea] + Without([ea][1..], "b");
    assert Run([a, b], 2) == [ea, eb];
    assert Run([a, b, read], 2) == [ea, eb];
    assert [ea, eb][1..] == [eb];
    assert Without([eb], "c") == [eb] + Without([eb][1..], "c");
    assert Without([ea, eb], "c") == [ea] + Without([eb], "c");
    assert Without([ea, eb], "c") + [ec] == [ea, eb, ec];
    assert Run(h, 2) == [eb, ec];
    assert Lookup([eb, ec], "a") == Lookup([ec], "a") by { assert [eb, ec][1..] == [ec]; }
  }
}
