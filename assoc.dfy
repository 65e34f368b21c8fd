/**
 * Insertion-ordered dictionaries (a Python `dict`, the keys of a JavaScript
 * object) as association lists: assigning to a present key replaces its
 * value in place, assigning to a new key appends it.
 */
module Assoc {
  import opened Wrappers

  /** The position of the first entry whose key is `key`. */
  function IndexOf<V>(entries: seq<(string, V)>, key: string): (r: Option<nat>)
    ensures r.Some? ==> r.value < |entries| && entries[r.value].0 == key
    ensures r.Some? ==> forall j :: 0 <= j < r.value ==> entries[j].0 != key
    ensures r.None? ==> forall j :: 0 <= j < |entries| ==> entries[j].0 != key
  {
    if entries == [] then None
    else if entries[0].0 == key then Some(0)
    else
      var r := IndexOf(entries[1..], key);
      assert forall j :: 0 < j < |entries| ==> entries[j] == entries[1..][j - 1];
      if r.Some? then Some(r.value + 1) else None
  }

  predicate Has<V>(entries: seq<(string, V)>, key: string)
  {
    IndexOf(entries, key).Some?
  }

  function Lookup<V>(entries: seq<(string, V)>, key: string): V
    requires Has(entries, key)
  {
    entries[IndexOf(entries, key).value].1
  }

  /** The first occurrence of a key is where `IndexOf` finds it. */
  lemma {:induction false} IndexOfFirst<V>(entries: seq<(string, V)>, key: string, k: nat)
    requires k < |entries| && entries[k].0 == key
    requires forall j :: 0 <= j < k ==> entries[j].0 != key
    ensures IndexOf(entries, key) == Some(k)
  {
    if k > 0 {
      assert forall j :: 0 <= j < k - 1 ==> entries[1..][j] == entries[j + 1];
      IndexOfFirst(entries[1..], key, k - 1);
    }
  }

  /** `entries[key] = v`: replaced in place when present, appended otherwise. */
  function Put<V>(entries: seq<(string, V)>, key: string, v: V): (r: seq<(string, V)>)
    ensures Has(entries, key) ==> |r| == |entries|
    ensures !Has(entries, key) ==> r == entries + [(key, v)]
    ensures Has(r, key) && Lookup(r, key) == v
    ensures forall j :: 0 <= j < |entries| && entries[j].0 != key ==> j < |r| && r[j] == entries[j]
    ensures forall j :: 0 <= j < |r| ==> r[j].0 == (if j < |entries| then entries[j].0 else key)
  {
    match IndexOf(entries, key)
    case Some(k) =>
      var r := entries[k := (key, v)];
      assert IndexOf(r, key) == Some(k) by {
        assert forall j :: 0 <= j < k ==> r[j].0 != key;
        IndexOfFirst(r, key, k);
      }
      r
    case None =>
      var r := entries + [(key, v)];
      IndexOfFirst(r, key, |entries|);
      r
  }
}
