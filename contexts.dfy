/**
 * Context.java: a string-keyed store backed by a map, with last-write-wins
 * `set` and a `get` that answers null (here `None`) for a key never set.
 */
module Contexts {
  import opened Wrappers

  /** The objects steps store in a Context; the client stores Integers and Strings. */
  datatype Value = IntegerValue(n: int) | StringValue(s: string)

  /** The contents of one Context: its `contextInformation` map. */
  type Store = map<string, Value>

  /** `Map.get`: the value stored under `key`, or absent. */
  function Lookup(m: Store, key: string): (r: Option<Value>)
    ensures r.Some? <==> key in m
    ensures r.Some? ==> r.value == m[key]
  {
    if key in m then Some(m[key]) else None
  }

  /** One call `set(key, value)`. */
  datatype Assignment = Assignment(key: string, value: Value)

  /** The store after the calls `set(a.key, a.value)` for each `a` in `calls`, in order. */
  function SetAll(m: Store, calls: seq<Assignment>): Store
    decreases |calls|
  {
    if calls == [] then m else SetAll(m[calls[0].key := calls[0].value], calls[1..])
  }

  /** The value of the last call in `calls` that sets `key`, if any. */
  function LastSet(calls: seq<Assignment>, key: string): Option<Value>
  {
    if calls == [] then None
    else
      var later := LastSet(calls[1..], key);
      if later.Some? then later
      else if calls[0].key == key then Some(calls[0].value)
      else None
  }

  /** The keys `calls` sets. */
  function KeysSet(calls: seq<Assignment>): set<string>
  {
    set i | 0 <= i < |calls| :: calls[i].key
  }

  /**
   * Last write wins: after any sequence of `set` calls, `get(key)` answers the
   * value of the last call that set `key`, and for a key no call set, what it
   * answered before. In particular `get(k)` right after `set(k, v)` is `v`, and
   * a `set` leaves every other key's value as it was.
   */
  lemma {:induction false} GetAfterSets(m: Store, calls: seq<Assignment>, key: string)
    ensures Lookup(SetAll(m, calls), key) ==
      (if LastSet(calls, key).Some? then LastSet(calls, key) else Lookup(m, key))
    decreases |calls|
  {
    if calls != [] {
      GetAfterSets(m[calls[0].key := calls[0].value], calls[1..], key);
    }
  }

  /** Setting `a` then `b` is setting `a + b`. */
  lemma {:induction false} SetAllAppend(m: Store, a: seq<Assignment>, b: seq<Assignment>)
    ensures SetAll(m, a + b) == SetAll(SetAll(m, a), b)
    decreases |a|
  {
    if a == [] {
      assert a + b == b;
    } else {
      assert (a + b)[0] == a[0] && (a + b)[1..] == a[1..] + b;
      SetAllAppend(m[a[0].key := a[0].value], a[1..], b);
    }
  }

  /** There is no removal: the key set only grows, by exactly the keys that were set. */
  lemma {:induction false} KeysOnlyGrow(m: Store, calls: seq<Assignment>)
    ensures SetAll(m, calls).Keys == m.Keys + KeysSet(calls)
    decreases |calls|
  {
    if calls != [] {
      KeysOnlyGrow(m[calls[0].key := calls[0].value], calls[1..]);
      assert KeysSet(calls) == {calls[0].key} + KeysSet(calls[1..]) by {
        forall k | k in KeysSet(calls) ensures k in {calls[0].key} + KeysSet(calls[1..]) {
          var i :| 0 <= i < |calls| && calls[i].key == k;
          if i > 0 { assert calls[1..][i - 1].key == k; }
        }
        forall k | k in KeysSet(calls[1..]) ensures k in KeysSet(calls) {
          var i :| 0 <= i < |calls[1..]| && calls[1..][i].key == k;
          assert calls[i + 1].key == k;
        }
      }
    }
  }

  /** A Context: one mutable map, shared by every holder of the same instance. */
  class Context {
    var contextInformation: Store

    constructor ()
      ensures contextInformation == map[]
    {
      contextInformation := map[];
    }

    /** `get(key)`: the stored value, or absent; never fails. */
    method Get(key: string) returns (r: Option<Value>)
      ensures r.Some? <==> key in contextInformation
      ensures r.Some? ==> r.value == contextInformation[key]
    {
      if key in contextInformation {
        r := Some(contextInformation[key]);
      } else {
        r := None;
      }
    }

    /** `set(key, value)`: unconditional upsert. */
    method Set(key: string, value: Value)
      modifies this
      ensures contextInformation == old(contextInformation)[key := value]
      ensures Lookup(contextInformation, key) == Some(value)
      ensures forall k :: k != key ==> Lookup(contextInformation, k) == Lookup(old(contextInformation), k)
      ensures old(contextInformation).Keys <= contextInformation.Keys
    {
      contextInformation := contextInformation[key := value];
    }
  }
}
