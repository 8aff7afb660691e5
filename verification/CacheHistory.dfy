/** The simple map both cache backends of `cache.py` stand for: a history of calls. */
module CacheHistory {
  import opened Common

  /** One call on a cache; `at` is the clock reading the call takes. */
  datatype Op<V> =
    | SetOp(key: string, value: V, ttl: int, at: real)
    | GetOp(key: string, at: real)
    | DeleteOp(key: string)
    | ClearOp

  /** Index of the latest `set` of `key` that no `delete` or `clear` follows. */
  function LastSet<V(!new)>(h: seq<Op<V>>, key: string): (p: Option<nat>)
    ensures p.Some? ==> p.value < |h| && h[p.value].SetOp? && h[p.value].key == key
  {
    if h == [] then None
    else
      match h[|h| - 1]
      case SetOp(k, _, _, _) => if k == key then Some(|h| - 1) else LastSet(h[..|h| - 1], key)
      case GetOp(_, _) => LastSet(h[..|h| - 1], key)
      case DeleteOp(k) => if k == key then None else LastSet(h[..|h| - 1], key)
      case ClearOp => None
  }

  function Expiry<V(!new)>(op: Op<V>): real
    requires op.SetOp?
  {
    op.at + op.ttl as real
  }

  /** No `get` has found the entry set at `p` expired, so none has removed it. */
  ghost predicate NeverFoundExpired<V(!new)>(h: seq<Op<V>>, p: nat)
    requires p < |h| && h[p].SetOp?
  {
    forall i :: p < i < |h| && h[i].GetOp? && h[i].key == h[p].key ==> h[i].at <= Expiry(h[p])
  }

  /** The key is set, and the entry has not been removed as expired. */
  ghost predicate IsLive<V(!new)>(h: seq<Op<V>>, key: string) {
    LastSet(h, key).Some? && NeverFoundExpired(h, LastSet(h, key).value)
  }

  /** The distinct keys set after `p`. */
  ghost function KeysSetSince<V(!new)>(h: seq<Op<V>>, p: nat): set<string> {
    set i | p < i < |h| && h[i].SetOp? :: h[i].key
  }

  /** Appending a call. */
  lemma LastSetOfExtension<V(!new)>(h: seq<Op<V>>, op: Op<V>, key: string)
    ensures LastSet(h + [op], key) ==
      match op
      case SetOp(k, _, _, _) => if k == key then Some(|h|) else LastSet(h, key)
      case GetOp(_, _) => LastSet(h, key)
      case DeleteOp(k) => if k == key then None else LastSet(h, key)
      case ClearOp => None
  {
    assert (h + [op])[..|h|] == h;
  }

  lemma LiveInPrefix<V(!new)>(h: seq<Op<V>>, op: Op<V>, key: string)
    requires IsLive(h + [op], key) && LastSet(h + [op], key) == LastSet(h, key)
    ensures IsLive(h, key)
    ensures op.GetOp? && op.key == key ==> op.at <= Expiry(h[LastSet(h, key).value])
  {
    var p := LastSet(h, key).value;
    var h' := h + [op];
    assert h'[p] == h[p] && h'[|h|] == op;
    forall i | p < i < |h| && h[i].GetOp? && h[i].key == h[p].key
      ensures h[i].at <= Expiry(h[p])
    {
      assert h'[i] == h[i];
    }
  }

  lemma KeysSetSinceGrows<V(!new)>(h: seq<Op<V>>, op: Op<V>, p: nat)
    ensures KeysSetSince(h, p) <= KeysSetSince(h + [op], p)
    ensures op.SetOp? && p < |h| ==> op.key in KeysSetSince(h + [op], p)
  {
    var h' := h + [op];
    assert forall i :: 0 <= i < |h| ==> h'[i] == h[i];
    if op.SetOp? && p < |h| {
      assert h'[|h|] == op;
    }
  }
}
