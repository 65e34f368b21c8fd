/**
 * `CachingAgentID`: an agent identifier that keeps the parameters it has set
 * or fetched, per parameter index, with the time each was stored, and answers
 * `get` from that cache while the entries are young enough. A greedy one
 * fetches all of an agent's parameters at once when asked for one.
 *
 * The clock (`Date.now()`) and the agent's reply are parameters of the
 * operations; the requests they send are returned.
 */
module CachingAgent {
  import opened Wrappers
  import Text
  import opened Datagram
  import opened ParamMixin

  /** A cached parameter: its value and the time it was stored. */
  datatype Cached = Cached(value: JsValue, ctime: int)

  /** The cache of one parameter index, keyed by short parameter name. */
  type Cache = map<string, Cached>

  /** Parameters a greedy agent still fetches one by one. */
  const SPECIAL_PARAMS: seq<string> := ["name", "version"]

  /** `_toNamed`: the text after the last '.', or the whole name when it has none. */
  function ToNamed(p: string): string
  {
    Text.LastSegment(p, '.')
  }

  /** The short name is the longest suffix without '.', and a name without '.' is its own short name. */
  lemma ToNamedIsLastSegment(p: string)
    ensures Text.IsLastSegment(p, '.', ToNamed(p))
    ensures '.' !in p ==> ToNamed(p) == p
  {
  }

  /** `v == null`: null or undefined. */
  predicate IsNullish(v: JsValue)
  {
    v.Null? || v.Undefined?
  }

  /** What `_updateCache` ignores: a nullish value, or an array of nullish values only. */
  predicate NothingToCache(vals: JsValue)
  {
    IsNullish(vals) || (vals.Arr? && forall i :: 0 <= i < |vals.items| ==> IsNullish(vals.items[i]))
  }

  /**
   * `Object.keys` paired with `Object.values`: an object's entries, an array's
   * or a string's positions with their elements, nothing for other values.
   */
  function ObjectEntries(vals: JsValue): (r: seq<(string, JsValue)>)
    ensures vals.Obj? ==> r == vals.entries
    ensures vals.Arr? ==> |r| == |vals.items| && forall i :: 0 <= i < |r| ==> r[i].1 == vals.items[i]
    ensures !vals.Obj? && !vals.Arr? && !vals.Str? ==> r == []
  {
    match vals
    case Obj(entries) => entries
    case Arr(items) => seq(|items|, i requires 0 <= i < |items| => (Text.NatToString(i), items[i]))
    case Str(s) => seq(|s|, i requires 0 <= i < |s| => (Text.NatToString(i), Str([s[i]])))
    case _ => []
  }

  /**
   * The short names `_updateCache` writes and the values it writes them with:
   * the keys and values of `vals` when no names are given, otherwise the
   * given names against `vals` as an array (a single value when it is not one).
   */
  function Pairs(params: Params, vals: JsValue): (seq<string>, seq<JsValue>)
  {
    match params
    case NoParams =>
      var e := ObjectEntries(vals);
      (seq(|e|, i requires 0 <= i < |e| => ToNamed(e[i].0)), seq(|e|, i requires 0 <= i < |e| => e[i].1))
    case Name(n) =>
      ([ToNamed(n)], if vals.Arr? then vals.items else [vals])
    case Names(ns) =>
      (seq(|ns|, i requires 0 <= i < |ns| => ToNamed(ns[i])), if vals.Arr? then vals.items else [vals])
  }

  /** The names `Pairs` gives are short names, taken from the keys or from the names asked for. */
  lemma PairsMeaning(params: Params, vals: JsValue)
    ensures var r := Pairs(params, vals);
      forall i :: 0 <= i < |r.0| ==> '.' !in r.0[i]
    ensures var r := Pairs(params, vals);
      params.NoParams? ==> (|r.0| == |r.1| == |ObjectEntries(vals)|
      && forall i :: 0 <= i < |r.0| ==> r.0[i] == ToNamed(ObjectEntries(vals)[i].0) && r.1[i] == ObjectEntries(vals)[i].1)
    ensures params.Name? ==> Pairs(params, vals).0 == [ToNamed(params.name)]
    ensures var r := Pairs(params, vals);
      params.Names? ==> |r.0| == |params.names| && forall i :: 0 <= i < |r.0| ==> r.0[i] == ToNamed(params.names[i])
    ensures !params.NoParams? ==> Pairs(params, vals).1 == if vals.Arr? then vals.items else [vals]
  {
  }

  /** `vals[i]`, undefined past the end. */
  function At(vs: seq<JsValue>, i: nat): JsValue
  {
    if i < |vs| then vs[i] else Undefined
  }

  /**
   * The cache of one index after the first `n` names are written, in order,
   * with their values and the time `now`: a name written several times keeps
   * its last value, names not written keep theirs.
   */
  function Written(c: Cache, names: seq<string>, vs: seq<JsValue>, now: int, n: nat): Cache
    requires n <= |names|
  {
    if n == 0 then c else Written(c, names, vs, now, n - 1)[names[n - 1] := Cached(At(vs, n - 1), now)]
  }

  /** After the writes, exactly the old names and the written ones are cached. */
  lemma {:induction false} WrittenKeys(c: Cache, names: seq<string>, vs: seq<JsValue>, now: int, n: nat)
    requires n <= |names|
    ensures forall k :: k in Written(c, names, vs, now, n) <==> k in c || k in names[..n]
  {
    if n > 0 {
      WrittenKeys(c, names, vs, now, n - 1);
      assert names[..n] == names[..n - 1] + [names[n - 1]];
    }
  }

  /** A name not written keeps its entry. */
  lemma {:induction false} WrittenKeepsOthers(c: Cache, names: seq<string>, vs: seq<JsValue>, now: int, n: nat, k: string)
    requires n <= |names| && k in c && k !in names[..n]
    ensures k in Written(c, names, vs, now, n) && Written(c, names, vs, now, n)[k] == c[k]
  {
    if n > 0 {
      assert names[..n - 1] == names[..n][..n - 1];
      WrittenKeepsOthers(c, names, vs, now, n - 1, k);
    }
  }

  /** A written name holds the value of its last write, stored at `now`. */
  lemma {:induction false} WrittenLastWins(c: Cache, names: seq<string>, vs: seq<JsValue>, now: int, n: nat, j: nat)
    requires j < n <= |names|
    requires forall m :: j < m < n ==> names[m] != names[j]
    ensures names[j] in Written(c, names, vs, now, n) && Written(c, names, vs, now, n)[names[j]] == Cached(At(vs, j), now)
  {
    if j < n - 1 {
      WrittenLastWins(c, names, vs, now, n - 1, j);
    }
  }

  /** The whole cache after `_updateCache(params, vals, index)` at time `now`. */
  function AfterUpdate(cache: map<int, Cache>, params: Params, vals: JsValue, index: int, now: int): map<int, Cache>
  {
    if NothingToCache(vals) then cache
    else cache[index := IndexAfterUpdate(cache, params, vals, index, now)]
  }

  /** The cache of `index` after `_updateCache` writes its pairs there. */
  function IndexAfterUpdate(cache: map<int, Cache>, params: Params, vals: JsValue, index: int, now: int): Cache
  {
    var pairs := Pairs(params, vals);
    var c := if index in cache then cache[index] else map[];
    Written(c, pairs.0, pairs.1, now, |pairs.0|)
  }

  /** An update that caches something creates the index's cache and touches no other index. */
  lemma {:induction false} AfterUpdateMeaning(cache: map<int, Cache>, params: Params, vals: JsValue, index: int, now: int)
    ensures NothingToCache(vals) ==> AfterUpdate(cache, params, vals, index, now) == cache
    ensures var r := AfterUpdate(cache, params, vals, index, now);
      !NothingToCache(vals) ==> index in r && forall i :: i in cache && i != index ==> i in r && r[i] == cache[i]
    ensures var r := AfterUpdate(cache, params, vals, index, now);
      forall i :: i in r && i != index ==> i in cache
  {
    if !NothingToCache(vals) {
      UpdateTouchesOneIndex(cache, index, IndexAfterUpdate(cache, params, vals, index, now));
    }
  }

  /** Storing one index's cache leaves every other index as it was. */
  lemma UpdateTouchesOneIndex(cache: map<int, Cache>, index: int, w: Cache)
    ensures index in cache[index := w]
    ensures forall i :: i in cache && i != index ==> i in cache[index := w] && cache[index := w][i] == cache[i]
    ensures forall i :: i in cache[index := w] && i != index ==> i in cache
  {
  }

  /**
   * `_isCached`: a positive age limit, some names asked for, a cache for the
   * index, and every name asked for (shortened) stored no longer than
   * `maxage` ago.
   */
  predicate IsCachedIn(cache: map<int, Cache>, params: Params, index: int, maxage: int, now: int)
  {
    maxage > 0 && !params.NoParams? && index in cache
    && var names := if params.Names? then params.names else [params.name];
       forall i :: 0 <= i < |names| ==>
         ToNamed(names[i]) in cache[index] && now - cache[index][ToNamed(names[i])].ctime <= maxage
  }

  /**
   * `_getCache` as the source writes it: it looks the names up as given, so
   * a qualified name that `_isCached` found under its short name is missed.
   */
  function LookupAsWritten(cache: map<int, Cache>, params: Params, index: int): (r: JsValue)
    requires !params.NoParams?
    ensures index !in cache ==> r == Null
    ensures index in cache && params.Name? ==>
      r == (if params.name in cache[index] then cache[index][params.name].value else Null)
  {
    if index !in cache then Null
    else
      var c := cache[index];
      match params
      case Name(n) => if n in c then c[n].value else Null
      case Names(ns) => Arr(seq(|ns|, i requires 0 <= i < |ns| => if ns[i] in c then c[ns[i]].value else Null))
  }

  /**
   * `_getCache` with names shortened as `_isCached` and `_updateCache`
   * shorten them: the cached values of the names asked for, null for one not
   * cached or an index without a cache.
   */
  function Lookup(cache: map<int, Cache>, params: Params, index: int): (r: JsValue)
    requires !params.NoParams?
    ensures index !in cache ==> r == Null
    ensures index in cache && params.Name? ==>
      r == (if ToNamed(params.name) in cache[index] then cache[index][ToNamed(params.name)].value else Null)
    ensures index in cache && params.Names? ==>
      r.Arr? && |r.items| == |params.names|
      && forall i :: 0 <= i < |params.names| ==>
           r.items[i] == (if ToNamed(params.names[i]) in cache[index] then cache[index][ToNamed(params.names[i])].value else Null)
  {
    if index !in cache then Null
    else
      var c := cache[index];
      match params
      case Name(n) => if ToNamed(n) in c then c[ToNamed(n)].value else Null
      case Names(ns) =>
        Arr(seq(|ns|, i requires 0 <= i < |ns| => if ToNamed(ns[i]) in c then c[ToNamed(ns[i])].value else Null))
  }

  /** A cache holding 5 for "foo", stored at time 0. */
  function FooCache(): (r: map<int, Cache>)
    ensures -1 in r && r[-1] == map["foo" := Cached(Num(5.0), 0)]
  {
    map[-1 := map["foo" := Cached(Num(5.0), 0)]]
  }

  /** `get("phy.foo")` finds "foo" cached, then the source's lookup returns null instead of 5. */
  lemma LookupAsWrittenMissesQualified()
    ensures IsCachedIn(FooCache(), Name("phy.foo"), -1, 5000, 0)
    ensures LookupAsWritten(FooCache(), Name("phy.foo"), -1) == Null
    ensures Lookup(FooCache(), Name("phy.foo"), -1) == Num(5.0)
  {
    assert ToNamed("phy.foo") == "foo" by {
      Text.LastSegmentUnique("phy.foo", '.', ToNamed("phy.foo"), "foo");
    }
  }

  /**
   * What is set is what is then read back from the cache: after a non-null,
   * non-array value is cached under a name, the name counts as cached for
   * any positive age limit and looks up to that value.
   */
  lemma CachedValueReadBack(cache: map<int, Cache>, n: string, v: JsValue, index: int, now: int, maxage: int)
    requires !IsNullish(v) && !v.Arr? && maxage > 0
    ensures var after := AfterUpdate(cache, Name(n), v, index, now);
      IsCachedIn(after, Name(n), index, maxage, now) && Lookup(after, Name(n), index) == v
  {
    var names := [ToNamed(n)];
    assert Pairs(Name(n), v) == (names, [v]);
    assert !NothingToCache(v);
    var c := if index in cache then cache[index] else map[];
    var w := Written(c, names, [v], now, 1);
    assert w[ToNamed(n)] == Cached(v, now);
    var after := AfterUpdate(cache, Name(n), v, index, now);
    assert after == cache[index := w];
  }

  /**
   * The literal greedy test of `get`: a greedy agent, not an array request
   * (an array whose union with the special parameters is non-empty), and not
   * one of the special parameters.
   */
  predicate GreedyTest(greedy: bool, params: Params)
  {
    greedy
    && !(params.Names? && |set x | x in params.names + SPECIAL_PARAMS| != 0)
    && !(params.Name? && params.name in SPECIAL_PARAMS)
  }

  /** The union with the special parameters is never empty, so an array request is never greedy. */
  lemma ArraysNeverGreedy(greedy: bool, names: seq<string>)
    ensures !GreedyTest(greedy, Names(names))
  {
    var u := set x | x in names + SPECIAL_PARAMS;
    assert (names + SPECIAL_PARAMS)[|names|] == "name";
    assert "name" in u;
  }

  /** The position of the first key whose short name is `p` (`Object.keys(rsp).find(...)`). */
  function FirstNamed(entries: seq<(string, JsValue)>, p: string): (r: Option<nat>)
    ensures r.Some? ==> r.value < |entries| && ToNamed(entries[r.value].0) == p
    ensures r.Some? ==> forall j :: 0 <= j < r.value ==> ToNamed(entries[j].0) != p
    ensures r.None? ==> forall j :: 0 <= j < |entries| ==> ToNamed(entries[j].0) != p
  {
    FirstNamedFrom(entries, p, 0)
  }

  /** The position of the first key from `i` on whose short name is `p`. */
  function FirstNamedFrom(entries: seq<(string, JsValue)>, p: string, i: nat): (r: Option<nat>)
    requires i <= |entries|
    ensures r.Some? ==> i <= r.value < |entries| && ToNamed(entries[r.value].0) == p
    ensures r.Some? ==> forall j :: i <= j < r.value ==> ToNamed(entries[j].0) != p
    ensures r.None? ==> forall j :: i <= j < |entries| ==> ToNamed(entries[j].0) != p
    decreases |entries| - i
  {
    if i == |entries| then None
    else if ToNamed(entries[i].0) == p then Some(i)
    else FirstNamedFrom(entries, p, i + 1)
  }

  /**
   * The value of the first key whose short name is `p` in an all-parameters
   * reply; null when there is none or that key is the (falsy) empty string.
   */
  function PickNamed(entries: seq<(string, JsValue)>, p: string): (r: JsValue)
    ensures FirstNamed(entries, p).None? ==> r == Null
    ensures FirstNamed(entries, p).Some? && entries[FirstNamed(entries, p).value].0 != "" ==>
      r == entries[FirstNamed(entries, p).value].1
  {
    match FirstNamed(entries, p)
    case Some(k) => if entries[k].0 != "" then entries[k].1 else Null
    case None => Null
  }

  /** What a greedy `get` returns from the all-parameters reply `all`. */
  function GreedyAnswer(params: Params, all: JsValue): JsValue
  {
    if !Truthy(all) then Failed(params)
    else if !Given(params) then all
    else if params.Name? then PickNamed(ObjectEntries(all), params.name)
    else Failed(params)
  }

  /** The loop of `_updateCache`: writes the names in order into the cache `c` of one index. */
  method WriteAll(c: Cache, names: seq<string>, vs: seq<JsValue>, now: int) returns (r: Cache)
    ensures r == Written(c, names, vs, now, |names|)
  {
    r := c;
    var i := 0;
    while i < |names|
      invariant 0 <= i <= |names|
      invariant r == Written(c, names, vs, now, i)
    {
      r := r[names[i] := Cached(At(vs, i), now)];
      i := i + 1;
    }
  }

  class CachingAgentID {
    const name: string
    const greedy: bool
    /** `cache`: per parameter index, the cached parameters. */
    var cache: map<int, Cache>

    constructor (name: string, greedy: bool)
      ensures this.name == name && this.greedy == greedy && cache == map[]
    {
      this.name := name;
      this.greedy := greedy;
      cache := map[];
    }

    /** `_updateCache`: writes each name with its value and the time `now` into the cache of `index`. */
    method UpdateCache(params: Params, vals: JsValue, index: int, now: int)
      modifies this`cache
      ensures cache == AfterUpdate(old(cache), params, vals, index, now)
    {
      if !NothingToCache(vals) {
        var pairs := Pairs(params, vals);
        var c := if index in cache then cache[index] else map[];
        c := WriteAll(c, pairs.0, pairs.1, now);
        cache := cache[index := c];
      }
    }

    /**
     * `set`: sets the parameters on the agent and caches the values the
     * agent reports back; when the uncached `set` throws, the promise is
     * rejected with its error and the cache is left alone.
     */
    method Set(params: Params, values: JsValue, index: int, now: int, rsp: Option<ParamRsp>)
      returns (r: Result<JsValue, string>, sent: Option<ParameterReq>)
      modifies this`cache
      ensures var s := ParamMixin.Set(name, params, values, Num(index as real), rsp);
        if s.Err? then r == Err(s.error) && sent.None? && cache == old(cache)
        else r == Ok(s.value.1) && sent == s.value.0 && cache == AfterUpdate(old(cache), params, s.value.1, index, now)
    {
      var s := ParamMixin.Set(name, params, values, Num(index as real), rsp);
      if s.Err? {
        return Err(s.error), None;
      }
      UpdateCache(params, s.value.1, index, now);
      return Ok(s.value.1), s.value.0;
    }

    /**
     * `get`: the cached values when every name asked for is cached and young
     * enough; otherwise a request to the agent (for all its parameters when
     * greedy, unless an array or a special parameter is asked for), whose
     * answer is cached and returned.
     */
    method Get(params: Params, index: int, maxage: int, now: int, rsp: Option<ParamRsp>)
      returns (r: JsValue, sent: Option<ParameterReq>)
      modifies this`cache
      ensures IsCachedIn(old(cache), params, index, maxage, now) ==>
        sent.None? && cache == old(cache) && r == Lookup(old(cache), params, index)
      ensures !IsCachedIn(old(cache), params, index, maxage, now) && GreedyTest(greedy, params) ==>
        var all := GetResult(NoParams, rsp);
        sent == Some(GetRequest(name, NoParams, Num(index as real)))
        && cache == AfterUpdate(old(cache), NoParams, all, index, now)
        && r == GreedyAnswer(params, all)
      ensures !IsCachedIn(old(cache), params, index, maxage, now) && !GreedyTest(greedy, params) ==>
        sent == Some(GetRequest(name, params, Num(index as real)))
        && r == GetResult(params, rsp)
        && cache == AfterUpdate(old(cache), params, r, index, now)
    {
      if IsCachedIn(cache, params, index, maxage, now) {
        return Lookup(cache, params, index), None;
      }
      if GreedyTest(greedy, params) {
        var got := ParamMixin.Get(name, NoParams, Num(index as real), rsp);
        UpdateCache(NoParams, got.1, index, now);
        return GreedyAnswer(params, got.1), Some(got.0);
      }
      var got := ParamMixin.Get(name, params, Num(index as real), rsp);
      UpdateCache(params, got.1, index, now);
      return got.1, Some(got.0);
    }
  }
}
