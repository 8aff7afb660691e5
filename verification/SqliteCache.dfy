/** `SQLiteBackend` of `cache.py`: a keyed table that is swept on every hundredth `set`. */
module SqliteCache {
  import opened Common
  import opened CacheHistory

  datatype Row<+V> = Row(value: V, expiresAt: real)

  type Table<V> = map<string, Row<V>>

  /** The rows that survive `DELETE ... WHERE expires_at <= at`. */
  function Unexpired<V(!new)>(t: Table<V>, at: real): (r: Table<V>)
    ensures forall k :: k in r <==> k in t && t[k].expiresAt > at
    ensures forall k :: k in r ==> r[k] == t[k]
    ensures |r| <= |t|
  {
    var r := map k | k in t && t[k].expiresAt > at :: t[k];
    SubsetCardinality(r.Keys, t.Keys);
    r
  }

  /** How many rows `LIMIT MAX(0, COUNT(*) - max_size)` names. */
  function Excess<V(!new)>(t: Table<V>, maxSize: nat): nat {
    if |t| <= maxSize then 0 else |t| - maxSize
  }

  /** The first `n` keys in some order by `expires_at`; rows that expire together may come in any order. */
  predicate AreOldest<V(!new)>(t: Table<V>, gone: set<string>, n: nat) {
    && gone <= t.Keys
    && |gone| == n
    && forall g, k :: g in gone && k in t.Keys && k !in gone ==> t[g].expiresAt <= t[k].expiresAt
  }

  lemma {:induction false} EarliestExists<V(!new)>(t: Table<V>, keys: set<string>) returns (first: string)
    requires keys <= t.Keys && keys != {}
    ensures first in keys && forall k :: k in keys ==> t[first].expiresAt <= t[k].expiresAt
    decreases |keys|
  {
    first :| first in keys;
    var rest := keys - {first};
    if rest != {} {
      var other := EarliestExists(t, rest);
      if t[other].expiresAt < t[first].expiresAt { first := other; }
    }
  }

  lemma {:induction false} OldestExist<V(!new)>(t: Table<V>, n: nat) returns (gone: set<string>)
    requires n <= |t|
    ensures AreOldest(t, gone, n)
  {
    if n == 0 {
      gone := {};
    } else {
      var before := OldestExist(t, n - 1);
      var left := t.Keys - before;
      assert left + before == t.Keys;
      assert |left| == |t| - (n - 1);
      var next := EarliestExists(t, left);
      gone := before + {next};
    }
  }

  ghost predicate Swept<V(!new)>(t: Table<V>, maxSize: nat, at: real, t': Table<V>) {
    exists gone :: AreOldest(Unexpired(t, at), gone, Excess(Unexpired(t, at), maxSize)) && t' == Unexpired(t, at) - gone
  }

  /** The table after `set`: replaced, and swept if this is a hundredth call. */
  ghost predicate SetStep<V(!new)>(s: State<V>, maxSize: nat, key: string, row: Row<V>, sweepAt: real, s': State<V>) {
    && s'.setCount == s.setCount + 1
    && if s'.setCount % 100 == 0 then Swept(s.rows[key := row], maxSize, sweepAt, s'.rows)
       else s'.rows == s.rows[key := row]
  }

  function Get<V(!new)>(t: Table<V>, key: string, now: real): (Table<V>, Option<V>) {
    if key !in t then (t, None)
    else if now > t[key].expiresAt then (t - {key}, None)
    else (t, Some(t[key].value))
  }

  datatype State<V> = State(rows: Table<V>, setCount: nat)

  class SQLiteBackend<V(!new)> {
    const maxSize: nat
    var rows: Table<V>
    var setCount: nat

    ghost function Now(): State<V>
      reads this
    {
      State(rows, setCount)
    }

    constructor (maxSize: nat)
      ensures Now() == State(map[], 0) && this.maxSize == maxSize
    {
      this.maxSize := maxSize;
      rows, setCount := map[], 0;
    }

    method GetValue(key: string, now: real) returns (value: Option<V>)
      modifies this
      ensures (rows, value) == Get(old(rows), key, now) && setCount == old(setCount)
    {
      if key !in rows {
        return None;
      }
      var row := rows[key];
      if now > row.expiresAt {
        rows := rows - {key};
        return None;
      }
      value := Some(row.value);
    }

    method SetValue(key: string, value: V, ttl: int, now: real, sweepAt: real)
      modifies this
      ensures SetStep(old(Now()), maxSize, key, Row(value, now + ttl as real), sweepAt, Now())
    {
      rows := rows[key := Row(value, now + ttl as real)];
      setCount := setCount + 1;
      if setCount % 100 == 0 {
        Sweep(sweepAt);
      }
    }

    /** The periodic sweep: expired rows first, then the oldest of what is left over `maxSize`. */
    method Sweep(sweepAt: real)
      modifies this
      ensures Swept(old(rows), maxSize, sweepAt, rows) && setCount == old(setCount)
    {
      rows := Unexpired(rows, sweepAt);
      ghost var possible := OldestExist(rows, Excess(rows, maxSize));
      var gone :| gone <= rows.Keys && AreOldest(rows, gone, Excess(rows, maxSize));
      ghost var unexpired := rows;
      rows := rows - gone;
      assert AreOldest(unexpired, gone, Excess(unexpired, maxSize)) && rows == unexpired - gone;
    }

    method Delete(key: string)
      modifies this
      ensures rows == old(rows) - {key} && setCount == old(setCount)
    {
      rows := rows - {key};
    }

    method Clear()
      modifies this
      ensures rows == map[] && setCount == old(setCount)
    {
      rows := map[];
    }
  }

  // ---------------------------------------------------------------------------
  // Runs
  // ---------------------------------------------------------------------------

  function RowOf<V(!new)>(op: Op<V>): Row<V>
    requires op.SetOp?
  {
    Row(op.value, Expiry(op))
  }

  /** One call; `sweepAt` is the clock reading of a sweep, should the call make one. */
  ghost predicate Step<V(!new)>(s: State<V>, maxSize: nat, op: Op<V>, sweepAt: real, s': State<V>) {
    match op
    case SetOp(key, value, ttl, at) => SetStep(s, maxSize, key, RowOf(op), sweepAt, s')
    case GetOp(key, at) => s' == State(Get(s.rows, key, at).0, s.setCount)
    case DeleteOp(key) => s' == State(s.rows - {key}, s.setCount)
    case ClearOp => s' == State(map[], s.setCount)
  }

  /** A run of one instance from an empty table. */
  ghost predicate IsRun<V(!new)>(h: seq<Op<V>>, sweeps: seq<real>, states: seq<State<V>>, maxSize: nat) {
    && |sweeps| == |h|
    && |states| == |h| + 1
    && states[0] == State(map[], 0)
    && forall i :: 0 <= i < |h| ==> Step(states[i], maxSize, h[i], sweeps[i], states[i + 1])
  }

  /** The `set` call at `i` swept the table. */
  ghost predicate SweepsAt<V(!new)>(h: seq<Op<V>>, i: nat)
    requires i < |h|
  {
    h[i].SetOp? && SetCalls(h[..i + 1]) % 100 == 0
  }

  function SetCalls<V(!new)>(h: seq<Op<V>>): nat {
    if h == [] then 0 else SetCalls(h[..|h| - 1]) + if h[|h| - 1].SetOp? then 1 else 0
  }

  /** Some sweep since `p` found the row set at `p` expired. */
  ghost predicate SweptExpired<V(!new)>(h: seq<Op<V>>, sweeps: seq<real>, p: nat)
    requires |sweeps| == |h| && p < |h| && h[p].SetOp?
  {
    exists i :: p <= i < |h| && SweepsAt(h, i) && Expiry(h[p]) <= sweeps[i]
  }

  /** The other keys ever set to expire no earlier than `expiry`. */
  ghost function OutlastingKeys<V(!new)>(h: seq<Op<V>>, key: string, expiry: real): set<string> {
    set i | 0 <= i < |h| && h[i].SetOp? && h[i].key != key && Expiry(h[i]) >= expiry :: h[i].key
  }

  ghost predicate RowIsLatest<V(!new)>(h: seq<Op<V>>, rows: Table<V>, key: string) {
    key in rows ==> IsLive(h, key) && rows[key] == RowOf(h[LastSet(h, key).value])
  }

  ghost predicate RowsAreLatest<V(!new)>(h: seq<Op<V>>, rows: Table<V>) {
    forall k :: RowIsLatest(h, rows, k)
  }

  ghost predicate MissExplained<V(!new)>(h: seq<Op<V>>, sweeps: seq<real>, maxSize: nat, key: string)
    requires |sweeps| == |h| && IsLive(h, key)
  {
    var p := LastSet(h, key).value;
    || SweptExpired(h, sweeps, p)
    || |OutlastingKeys(h, key, Expiry(h[p]))| >= maxSize
  }

  ghost predicate KeyExplained<V(!new)>(h: seq<Op<V>>, sweeps: seq<real>, rows: Table<V>, maxSize: nat, key: string)
    requires |sweeps| == |h|
  {
    IsLive(h, key) && key !in rows ==> MissExplained(h, sweeps, maxSize, key)
  }

  ghost predicate MissesExplained<V(!new)>(h: seq<Op<V>>, sweeps: seq<real>, rows: Table<V>, maxSize: nat)
    requires |sweeps| == |h|
  {
    forall k :: KeyExplained(h, sweeps, rows, maxSize, k)
  }

  ghost predicate Inv<V(!new)>(h: seq<Op<V>>, sweeps: seq<real>, s: State<V>, maxSize: nat) {
    && |sweeps| == |h|
    && s.setCount == SetCalls(h)
    && |s.rows| <= maxSize + s.setCount % 100
    && RowsAreLatest(h, s.rows)
    && MissesExplained(h, sweeps, s.rows, maxSize)
  }

  // ---------------------------------------------------------------------------
  // Every call keeps the invariant
  // ---------------------------------------------------------------------------

  lemma SetCallsOfExtension<V(!new)>(h: seq<Op<V>>, op: Op<V>)
    ensures SetCalls(h + [op]) == SetCalls(h) + if op.SetOp? then 1 else 0
    ensures forall i :: 0 <= i < |h| ==> (h + [op])[i] == h[i] && (SweepsAt(h + [op], i) <==> SweepsAt(h, i))
    ensures op.SetOp? ==> (SweepsAt(h + [op], |h|) <==> (SetCalls(h) + 1) % 100 == 0)
  {
    var h' := h + [op];
    assert h'[..|h|] == h && h'[..|h| + 1] == h';
    forall i | 0 <= i < |h|
      ensures h'[i] == h[i] && (SweepsAt(h', i) <==> SweepsAt(h, i))
    {
      assert h'[..i + 1] == h[..i + 1];
    }
  }

  /** What explains a miss goes on explaining it. */
  lemma ExplanationsLast<V(!new)>(h: seq<Op<V>>, sweeps: seq<real>, op: Op<V>, sweepAt: real, key: string, maxSize: nat)
    requires |sweeps| == |h|
    requires IsLive(h + [op], key) && LastSet(h + [op], key) == LastSet(h, key)
    requires IsLive(h, key) && MissExplained(h, sweeps, maxSize, key)
    ensures MissExplained(h + [op], sweeps + [sweepAt], maxSize, key)
  {
    var p, h', sweeps' := LastSet(h, key).value, h + [op], sweeps + [sweepAt];
    SetCallsOfExtension(h, op);
    if SweptExpired(h, sweeps, p) {
      var i :| p <= i < |h| && SweepsAt(h, i) && Expiry(h[p]) <= sweeps[i];
      assert SweepsAt(h', i) && sweeps'[i] == sweeps[i];
    } else {
      assert OutlastingKeys(h, key, Expiry(h[p])) <= OutlastingKeys(h', key, Expiry(h'[p]));
      SubsetCardinality(OutlastingKeys(h, key, Expiry(h[p])), OutlastingKeys(h', key, Expiry(h'[p])));
    }
  }

  /** A key whose latest set is unchanged by the call. */
  lemma UntouchedKey<V(!new)>(h: seq<Op<V>>, op: Op<V>, key: string)
    requires op.SetOp? || op.DeleteOp? ==> op.key != key
    requires !op.ClearOp?
    ensures LastSet(h + [op], key) == LastSet(h, key)
    ensures IsLive(h + [op], key) ==> IsLive(h, key)
    ensures IsLive(h, key) && !(op.GetOp? && op.key == key) ==> IsLive(h + [op], key)
    ensures IsLive(h, key) && op.GetOp? && op.key == key && op.at <= Expiry(h[LastSet(h, key).value]) ==>
      IsLive(h + [op], key)
  {
    LastSetOfExtension(h, op, key);
    SetCallsOfExtension(h, op);
    if IsLive(h + [op], key) { LiveInPrefix(h, op, key); }
  }

  /** `get`, `delete` and `clear` remove at most the rows that stop being live. */
  lemma QuietStepKeepsInv<V(!new)>(h: seq<Op<V>>, sweeps: seq<real>, s: State<V>, maxSize: nat, op: Op<V>,
                                   sweepAt: real, s': State<V>)
    requires Inv(h, sweeps, s, maxSize) && !op.SetOp? && Step(s, maxSize, op, sweepAt, s')
    ensures Inv(h + [op], sweeps + [sweepAt], s', maxSize)
  {
    var h' := h + [op];
    SetCallsOfExtension(h, op);
    assert s'.rows.Keys <= s.rows.Keys;
    SubsetCardinality(s'.rows.Keys, s.rows.Keys);
    forall k
      ensures RowIsLatest(h', s'.rows, k)
    {
      assert RowIsLatest(h, s.rows, k);
      if k in s'.rows { UntouchedKey(h, op, k); }
    }
    forall k
      ensures KeyExplained(h', sweeps + [sweepAt], s'.rows, maxSize, k)
    {
      if IsLive(h', k) && k !in s'.rows {
        LastSetOfExtension(h, op, k);
        LiveInPrefix(h, op, k);
        assert RowIsLatest(h, s.rows, k) && KeyExplained(h, sweeps, s.rows, maxSize, k);
        ExplanationsLast(h, sweeps, op, sweepAt, k, maxSize);
      }
    }
  }

  /** After the insertion, before any sweep. */
  lemma InsertedIsLatest<V(!new)>(h: seq<Op<V>>, rows: Table<V>, op: Op<V>)
    requires RowsAreLatest(h, rows) && op.SetOp?
    ensures RowsAreLatest(h + [op], rows[op.key := RowOf(op)])
  {
    var h', inserted := h + [op], rows[op.key := RowOf(op)];
    SetCallsOfExtension(h, op);
    LastSetOfExtension(h, op, op.key);
    forall k
      ensures RowIsLatest(h', inserted, k)
    {
      assert RowIsLatest(h, rows, k);
      if k != op.key { UntouchedKey(h, op, k); }
    }
  }

  lemma InsertedIsExplained<V(!new)>(h: seq<Op<V>>, sweeps: seq<real>, rows: Table<V>, maxSize: nat, op: Op<V>,
                                     sweepAt: real)
    requires |sweeps| == |h| && MissesExplained(h, sweeps, rows, maxSize) && op.SetOp?
    ensures MissesExplained(h + [op], sweeps + [sweepAt], rows[op.key := RowOf(op)], maxSize)
  {
    var h', sweeps', inserted := h + [op], sweeps + [sweepAt], rows[op.key := RowOf(op)];
    forall k
      ensures KeyExplained(h', sweeps', inserted, maxSize, k)
    {
      if IsLive(h', k) && k !in inserted {
        UntouchedKey(h, op, k);
        assert KeyExplained(h, sweeps, rows, maxSize, k);
        ExplanationsLast(h, sweeps, op, sweepAt, k, maxSize);
      }
    }
  }

  /** The rows a sweep evicts are outlasted by `maxSize` others. */
  lemma EvictedIsOutlasted<V(!new)>(h: seq<Op<V>>, t: Table<V>, gone: set<string>, maxSize: nat, key: string)
    requires RowsAreLatest(h, t) && AreOldest(t, gone, Excess(t, maxSize)) && key in gone
    ensures |OutlastingKeys(h, key, t[key].expiresAt)| >= maxSize
  {
    var kept := t.Keys - gone;
    assert kept + gone == t.Keys;
    forall k | k in kept
      ensures k in OutlastingKeys(h, key, t[key].expiresAt)
    {
      assert RowIsLatest(h, t, k);
    }
    SubsetCardinality(kept, OutlastingKeys(h, key, t[key].expiresAt));
  }

  lemma SweepKeepsExplained<V(!new)>(h: seq<Op<V>>, sweeps: seq<real>, t: Table<V>, maxSize: nat, t': Table<V>)
    requires |sweeps| == |h| > 0 && SweepsAt(h, |h| - 1)
    requires RowsAreLatest(h, t) && MissesExplained(h, sweeps, t, maxSize)
    requires Swept(t, maxSize, sweeps[|h| - 1], t')
    ensures RowsAreLatest(h, t') && MissesExplained(h, sweeps, t', maxSize) && |t'| <= maxSize
  {
    var at := sweeps[|h| - 1];
    var live := Unexpired(t, at);
    var gone :| AreOldest(live, gone, Excess(live, maxSize)) && t' == live - gone;
    assert t'.Keys == live.Keys - gone;
    forall k
      ensures RowIsLatest(h, live, k) && RowIsLatest(h, t', k)
    {
      assert RowIsLatest(h, t, k);
    }
    forall k
      ensures KeyExplained(h, sweeps, t', maxSize, k)
    {
      assert RowIsLatest(h, t, k) && KeyExplained(h, sweeps, t, maxSize, k);
      if k in gone {
        EvictedIsOutlasted(h, live, gone, maxSize, k);
      } else if IsLive(h, k) && k !in t' && k in t {
        assert t[k].expiresAt <= at;
      }
    }
  }

  lemma RowsAfterInsert<V(!new)>(rows: Table<V>, key: string, row: Row<V>, maxSize: nat, setCount: nat)
    requires |rows| <= maxSize + setCount % 100 && (setCount + 1) % 100 != 0
    ensures |rows[key := row]| <= maxSize + (setCount + 1) % 100
  {
    assert rows[key := row].Keys == rows.Keys + {key};
    assert (setCount + 1) % 100 == setCount % 100 + 1;
  }

  lemma PlainSetKeepsInv<V(!new)>(h: seq<Op<V>>, sweeps: seq<real>, s: State<V>, maxSize: nat, op: Op<V>, sweepAt: real,
                                  s': State<V>)
    requires Inv(h, sweeps, s, maxSize) && op.SetOp? && Step(s, maxSize, op, sweepAt, s')
    requires (s.setCount + 1) % 100 != 0
    ensures Inv(h + [op], sweeps + [sweepAt], s', maxSize)
  {
    SetCallsOfExtension(h, op);
    InsertedIsLatest(h, s.rows, op);
    InsertedIsExplained(h, sweeps, s.rows, maxSize, op, sweepAt);
    RowsAfterInsert(s.rows, op.key, RowOf(op), maxSize, s.setCount);
  }

  lemma SweepingSetKeepsInv<V(!new)>(h: seq<Op<V>>, sweeps: seq<real>, s: State<V>, maxSize: nat, op: Op<V>,
                                     sweepAt: real, s': State<V>)
    requires Inv(h, sweeps, s, maxSize) && op.SetOp? && Step(s, maxSize, op, sweepAt, s')
    requires (s.setCount + 1) % 100 == 0
    ensures Inv(h + [op], sweeps + [sweepAt], s', maxSize)
  {
    SetCallsOfExtension(h, op);
    InsertedIsLatest(h, s.rows, op);
    InsertedIsExplained(h, sweeps, s.rows, maxSize, op, sweepAt);
    SweepKeepsExplained(h + [op], sweeps + [sweepAt], s.rows[op.key := RowOf(op)], maxSize, s'.rows);
  }

  lemma StepKeepsInv<V(!new)>(h: seq<Op<V>>, sweeps: seq<real>, s: State<V>, maxSize: nat, op: Op<V>, sweepAt: real,
                              s': State<V>)
    requires Inv(h, sweeps, s, maxSize) && Step(s, maxSize, op, sweepAt, s')
    ensures Inv(h + [op], sweeps + [sweepAt], s', maxSize)
  {
    if op.SetOp? && (s.setCount + 1) % 100 == 0 {
      SweepingSetKeepsInv(h, sweeps, s, maxSize, op, sweepAt, s');
    } else if op.SetOp? {
      PlainSetKeepsInv(h, sweeps, s, maxSize, op, sweepAt, s');
    } else {
      QuietStepKeepsInv(h, sweeps, s, maxSize, op, sweepAt, s');
    }
  }

  lemma {:induction false} RunKeepsInv<V(!new)>(h: seq<Op<V>>, sweeps: seq<real>, states: seq<State<V>>, maxSize: nat,
                                                i: nat)
    requires IsRun(h, sweeps, states, maxSize) && i <= |h|
    ensures Inv(h[..i], sweeps[..i], states[i], maxSize)
  {
    if i > 0 {
      RunKeepsInv(h, sweeps, states, maxSize, i - 1);
      StepKeepsInv(h[..i - 1], sweeps[..i - 1], states[i - 1], maxSize, h[i - 1], sweeps[i - 1], states[i]);
      assert h[..i] == h[..i - 1] + [h[i - 1]] && sweeps[..i] == sweeps[..i - 1] + [sweeps[i - 1]];
    }
  }

  /** Between calls a table holds at most `maxSize + 99` rows, and at most `maxSize` after a sweep. */
  lemma GrowthIsBounded<V(!new)>(h: seq<Op<V>>, sweeps: seq<real>, states: seq<State<V>>, maxSize: nat, i: nat)
    requires IsRun(h, sweeps, states, maxSize) && i <= |h|
    ensures |states[i].rows| <= maxSize + SetCalls(h[..i]) % 100 <= maxSize + 99
    ensures i > 0 && SweepsAt(h, i - 1) ==> |states[i].rows| <= maxSize
  {
    RunKeepsInv(h, sweeps, states, maxSize, i);
  }

  /**
   * After any run a hit is the latest set value within its lifetime; a live key misses only if a sweep saw
   * it expired or `maxSize` other keys were set to last at least as long.
   */
  lemma AgreesWithMap<V(!new)>(h: seq<Op<V>>, sweeps: seq<real>, states: seq<State<V>>, maxSize: nat, key: string,
                               now: real)
    requires IsRun(h, sweeps, states, maxSize)
    ensures var hit := Get(states[|h|].rows, key, now).1; hit.Some? ==>
      LastSet(h, key).Some? && var op := h[LastSet(h, key).value]; hit.value == op.value && now <= Expiry(op)
    ensures Get(states[|h|].rows, key, now).1.None? && IsLive(h, key) && now <= Expiry(h[LastSet(h, key).value]) ==>
      MissExplained(h, sweeps, maxSize, key)
  {
    RunKeepsInv(h, sweeps, states, maxSize, |h|);
    assert h[..|h|] == h && sweeps[..|h|] == sweeps;
    assert RowIsLatest(h, states[|h|].rows, key) && KeyExplained(h, sweeps, states[|h|].rows, maxSize, key);
  }
}
