/**
 * `ParamGetterSetterMixin`: the `set` and `get` methods the JavaScript
 * binding adds to every agent identifier. Each builds one parameter request
 * for the agent, waits for the reply, and turns it into the value the
 * returned promise resolves to.
 *
 * The reply is a parameter (`Option<ParamRsp>`, None when none arrives in
 * time). JavaScript values are `JsValue`; numbers are reals (NaN and the
 * infinities are not modelled).
 */
module ParamMixin {
  import opened Wrappers
  import opened Assoc
  import Text
  import opened Datagram

  datatype JsValue =
    | Undefined
    | Null
    | Bool(b: bool)
    | Num(x: real)
    | Str(s: string)
    | Arr(items: seq<JsValue>)
    | Obj(entries: seq<(string, JsValue)>)

  /** JavaScript truthiness. */
  predicate Truthy(v: JsValue)
  {
    match v
    case Undefined => false
    case Null => false
    case Bool(b) => b
    case Num(x) => x != 0.0
    case Str(s) => s != ""
    case _ => true
  }

  /** What may be asked for: nothing, one parameter name, or an array of names. */
  datatype Params = NoParams | Name(name: string) | Names(names: seq<string>)

  /** `params` is truthy: an array (even an empty one) or a non-empty name. */
  predicate Given(params: Params)
  {
    params.Names? || (params.Name? && params.name != "")
  }

  /** A parameter request: `param`/`value` for a single parameter, `requests` for several. */
  datatype ParameterReq = ParameterReq(
    recipient: string,
    index: int,
    param: Option<string>,
    value: Option<JsValue>,
    requests: Option<seq<(string, Option<JsValue>)>>)

  /** The reply: its performative, `param` ("" when absent), `value`, and `values` when present. */
  datatype ParamRsp = ParamRsp(perf: Performative, param: string, value: JsValue, values: Option<seq<(string, JsValue)>>)

  /** `Number.isInteger(index) ? index : -1`. */
  function RequestIndex(index: JsValue): (r: int)
    ensures (index.Num? && index.x == index.x.Floor as real) ==> r as real == index.x
    ensures !(index.Num? && index.x == index.x.Floor as real) ==> r == -1
  {
    if index.Num? && index.x == index.x.Floor as real then index.x.Floor else -1
  }

  /** The error JavaScript raises when a property of null or undefined is read. */
  const TYPE_ERROR: string := "TypeError"

  /** A value whose properties can be read: anything but null and undefined. */
  predicate Indexable(values: JsValue)
  {
    !values.Undefined? && !values.Null?
  }

  /**
   * `values[i]`: an array's element, a string's character or an object's
   * entry under the key spelling `i` in decimal; undefined past the end, for
   * a missing key, and for booleans and numbers, which have no such property.
   */
  function ItemAt(values: JsValue, i: nat): (r: JsValue)
    requires Indexable(values)
    ensures values.Arr? ==> r == (if i < |values.items| then values.items[i] else Undefined)
    ensures values.Str? ==> r == (if i < |values.s| then Str([values.s[i]]) else Undefined)
    ensures values.Obj? && Has(values.entries, Text.NatToString(i)) ==> r == Lookup(values.entries, Text.NatToString(i))
    ensures values.Obj? && !Has(values.entries, Text.NatToString(i)) ==> r == Undefined
    ensures values.Bool? || values.Num? ==> r == Undefined
  {
    match values
    case Arr(items) => if i < |items| then items[i] else Undefined
    case Str(s) => if i < |s| then Str([s[i]]) else Undefined
    case Obj(entries) =>
      var key := Text.NatToString(i);
      if Has(entries, key) then Lookup(entries, key) else Undefined
    case _ => Undefined
  }

  /**
   * The request `set` sends: None when `params` is falsy and nothing is sent,
   * and a TypeError, raised before anything is sent, when a non-empty array
   * of names is paired with null or undefined values.
   */
  function SetRequest(name: string, params: Params, values: JsValue, index: JsValue): (r: Result<Option<ParameterReq>, string>)
    ensures r.Err? <==> params.Names? && |params.names| > 0 && !Indexable(values)
    ensures r.Err? ==> r.error == TYPE_ERROR
    ensures r == Ok(None) <==> !Given(params)
    ensures r.Ok? && r.value.Some? ==> r.value.value.recipient == name && r.value.value.index == RequestIndex(index)
    ensures r.Ok? && r.value.Some? && params.Name? ==>
      var q := r.value.value;
      q.param == Some(params.name) && q.value == Some(values) && q.requests.None?
    ensures r.Ok? && params.Names? ==>
      var q := r.value.value;
      q.param.None? && q.value.None? && q.requests.Some?
      && |q.requests.value| == |params.names|
      && forall i :: 0 <= i < |params.names| ==>
           Indexable(values) && q.requests.value[i] == (params.names[i], Some(ItemAt(values, i)))
  {
    if !Given(params) then Ok(None)
    else if params.Names? then
      if |params.names| > 0 && !Indexable(values) then Err(TYPE_ERROR)
      else
        Ok(Some(ParameterReq(name, RequestIndex(index), None, None,
          Some(seq(|params.names|, i requires 0 <= i < |params.names| => (params.names[i], Some(ItemAt(values, i))))))))
    else
      Ok(Some(ParameterReq(name, RequestIndex(index), Some(params.name), Some(values), None)))
  }

  /** The request `get` sends: all parameters, one, or several (without values). */
  function GetRequest(name: string, params: Params, index: JsValue): (r: ParameterReq)
    ensures r.recipient == name && r.index == RequestIndex(index) && r.value.None?
    ensures r.param == (if Given(params) && params.Name? then Some(params.name) else None)
    ensures r.requests.Some? <==> params.Names?
    ensures params.Names? ==> (|r.requests.value| == |params.names|
      && forall i :: 0 <= i < |params.names| ==> r.requests.value[i] == (params.names[i], None))
  {
    if Given(params) && params.Names? then
      ParameterReq(name, RequestIndex(index), None, None,
        Some(seq(|params.names|, i requires 0 <= i < |params.names| => (params.names[i], None))))
    else if Given(params) then
      ParameterReq(name, RequestIndex(index), Some(params.name), None, None)
    else
      ParameterReq(name, RequestIndex(index), None, None, None)
  }

  /** The reply's `values` (an empty object when absent) with its single `param` merged in, if any. */
  function Merged(rsp: ParamRsp): (r: seq<(string, JsValue)>)
    ensures rsp.param != "" ==> Has(r, rsp.param) && Lookup(r, rsp.param) == rsp.value
    ensures forall j :: 0 <= j < |rsp.values.GetOr([])| && rsp.values.GetOr([])[j].0 != rsp.param ==>
      j < |r| && r[j] == rsp.values.GetOr([])[j]
  {
    var vs := rsp.values.GetOr([]);
    if rsp.param != "" then Put(vs, rsp.param, rsp.value) else vs
  }

  /** The first key that ends with `p` (`Object.keys(values).find(rv => rv.endsWith(p))`). */
  function FindEndingWith(entries: seq<(string, JsValue)>, p: string): (r: Option<nat>)
    ensures r.Some? ==> r.value < |entries| && Text.EndsWith(entries[r.value].0, p)
    ensures r.Some? ==> forall j :: 0 <= j < r.value ==> !Text.EndsWith(entries[j].0, p)
    ensures r.None? ==> forall j :: 0 <= j < |entries| ==> !Text.EndsWith(entries[j].0, p)
  {
    if entries == [] then None
    else if Text.EndsWith(entries[0].0, p) then Some(0)
    else
      var r := FindEndingWith(entries[1..], p);
      assert forall j :: 0 < j < |entries| ==> entries[j] == entries[1..][j - 1];
      if r.Some? then Some(r.value + 1) else None
  }

  /**
   * The value for name `p` in an array reply: that of the first key ending
   * with `p`, or `missing` when there is none (or the key found is the empty
   * string, which is falsy).
   */
  function ValueFor(entries: seq<(string, JsValue)>, p: string, missing: JsValue): (r: JsValue)
    ensures r != missing ==> FindEndingWith(entries, p).Some?
    ensures FindEndingWith(entries, p).Some? && entries[FindEndingWith(entries, p).value].0 != "" ==>
      r == entries[FindEndingWith(entries, p).value].1
  {
    match FindEndingWith(entries, p)
    case Some(k) => if entries[k].0 != "" then entries[k].1 else missing
    case None => missing
  }

  /** The reply is usable: it arrived, it is an INFORM, and it carries `param` when that is checked. */
  predicate Informs(rsp: Option<ParamRsp>, needParam: bool)
  {
    rsp.Some? && rsp.value.perf == INFORM && (!needParam || rsp.value.param != "")
  }

  /** What a failed request resolves to: an array of nulls as long as the request, or null. */
  function Failed(params: Params): (r: JsValue)
    ensures params.Names? ==> r.Arr? && |r.items| == |params.names| && forall i :: 0 <= i < |r.items| ==> r.items[i] == Null
    ensures !params.Names? ==> r == Null
  {
    if params.Names? then Arr(seq(|params.names|, _ => Null)) else Null
  }

  /**
   * What `set` resolves to, for truthy `params`: the failure value unless an
   * INFORM reply with `param` came; then the value the agent reports for each
   * name in an array request (null for one it does not report), or the
   * reply's `value` for a single name.
   */
  function SetResult(params: Params, rsp: Option<ParamRsp>): (r: JsValue)
    requires Given(params)
    ensures !Informs(rsp, true) ==> r == Failed(params)
    ensures Informs(rsp, true) && params.Name? ==> r == rsp.value.value
    ensures Informs(rsp, true) && params.Names? ==>
      r.Arr? && |r.items| == |params.names|
      && forall i :: 0 <= i < |params.names| ==> r.items[i] == ValueFor(Merged(rsp.value), params.names[i], Null)
  {
    if !Informs(rsp, true) then Failed(params)
    else if params.Names? then
      var m := Merged(rsp.value);
      Arr(seq(|params.names|, i requires 0 <= i < |params.names| => ValueFor(m, params.names[i], Null)))
    else rsp.value.value
  }

  /**
   * The array case of `set` as the source writes it: the branch for a name
   * the agent does not report evaluates `null` without returning it, so the
   * element is undefined.
   */
  function SetResultAsWritten(params: Params, rsp: Option<ParamRsp>): (r: JsValue)
    requires Given(params)
    ensures Informs(rsp, true) && params.Names? ==>
      r.Arr? && |r.items| == |params.names|
      && forall i :: 0 <= i < |params.names| ==> r.items[i] == ValueFor(Merged(rsp.value), params.names[i], Undefined)
    ensures !(Informs(rsp, true) && params.Names?) ==> r == SetResult(params, rsp)
  {
    if Informs(rsp, true) && params.Names? then
      var m := Merged(rsp.value);
      Arr(seq(|params.names|, i requires 0 <= i < |params.names| => ValueFor(m, params.names[i], Undefined)))
    else SetResult(params, rsp)
  }

  /** The reply of the example below: INFORM, reporting only parameter "b". */
  function ReportsOnlyB(): (r: Option<ParamRsp>)
    ensures Informs(r, true) && Merged(r.value) == [("b", Num(1.0))]
  {
    var r := ParamRsp(INFORM, "b", Num(1.0), None);
    assert !Has<JsValue>([], "b");
    Some(r)
  }

  /** Setting ["a"] when the agent reports only "b": the source yields [undefined] where null is meant. */
  lemma SetResultAsWrittenDiffers()
    ensures SetResultAsWritten(Names(["a"]), ReportsOnlyB()) == Arr([Undefined])
    ensures SetResult(Names(["a"]), ReportsOnlyB()) == Arr([Null])
  {
    var m: seq<(string, JsValue)> := [("b", Num(1.0))];
    assert !Text.EndsWith("b", "a");
    assert FindEndingWith(m, "a").None?;
    var w := SetResultAsWritten(Names(["a"]), ReportsOnlyB());
    assert w.items[0] == ValueFor(m, "a", Undefined) == Undefined;
    assert w.items == [Undefined];
    var c := SetResult(Names(["a"]), ReportsOnlyB());
    assert c.items[0] == ValueFor(m, "a", Null) == Null;
    assert c.items == [Null];
  }

  /**
   * `set`: the request sent (none for falsy `params`) and the value the
   * promise resolves to (null when nothing is sent), or the TypeError that
   * reading an element of null or undefined values raises before anything
   * is sent.
   */
  function Set(name: string, params: Params, values: JsValue, index: JsValue, rsp: Option<ParamRsp>)
    : (r: Result<(Option<ParameterReq>, JsValue), string>)
    ensures r.Err? <==> SetRequest(name, params, values, index).Err?
    ensures r.Err? ==> r.error == TYPE_ERROR
    ensures r.Ok? ==> Ok(r.value.0) == SetRequest(name, params, values, index)
    ensures r.Ok? && !Given(params) ==> r.value == (None, Null)
    ensures r.Ok? && Given(params) ==> r.value.0.Some? && r.value.1 == SetResult(params, rsp)
  {
    var req := SetRequest(name, params, values, index);
    if req.Err? then Err(req.error)
    else if !Given(params) then Ok((None, Null))
    else Ok((req.value, SetResult(params, rsp)))
  }

  /**
   * `get`: the failure value unless an INFORM reply came (with `param`, when
   * something was asked for); then every parameter of the reply for no
   * names, the value of the first key ending with each name (null when
   * none) for an array, or the reply's `value` for a single name.
   */
  function GetResult(params: Params, rsp: Option<ParamRsp>): (r: JsValue)
    ensures !Informs(rsp, Given(params)) ==> r == Failed(params)
    ensures Informs(rsp, Given(params)) && !Given(params) ==> r == Obj(Merged(rsp.value))
    ensures Informs(rsp, Given(params)) && Given(params) && params.Name? ==> r == rsp.value.value
    ensures Informs(rsp, Given(params)) && params.Names? ==>
      r.Arr? && |r.items| == |params.names|
      && forall i :: 0 <= i < |params.names| ==> r.items[i] == ValueFor(Merged(rsp.value), params.names[i], Null)
  {
    if !Informs(rsp, Given(params)) then Failed(params)
    else if !Given(params) then Obj(Merged(rsp.value))
    else if params.Names? then
      var m := Merged(rsp.value);
      Arr(seq(|params.names|, i requires 0 <= i < |params.names| => ValueFor(m, params.names[i], Null)))
    else rsp.value.value
  }

  /** `get`: the request sent and the value the promise resolves to. */
  function Get(name: string, params: Params, index: JsValue, rsp: Option<ParamRsp>): (r: (ParameterReq, JsValue))
    ensures r.0 == GetRequest(name, params, index) && r.1 == GetResult(params, rsp)
  {
    (GetRequest(name, params, index), GetResult(params, rsp))
  }

  /**
   * Given the same INFORM reply, `set` and `get` on the same names resolve
   * to the same values: after a successful `set`, what `get` would read is
   * what `set` reported.
   */
  lemma SetAgreesWithGet(params: Params, rsp: Option<ParamRsp>)
    requires Given(params)
    ensures SetResult(params, rsp) == GetResult(params, rsp)
  {
    if params.Names? && Informs(rsp, true) {
      assert SetResult(params, rsp).items == GetResult(params, rsp).items;
    }
  }

  /** Asking for all parameters yields every reported value, with the single `param` among them. */
  lemma GetAllKeepsReported(rsp: ParamRsp, k: string)
    requires rsp.perf == INFORM
    requires rsp.values.Some? && Has(rsp.values.value, k) && k != rsp.param
    ensures var r := GetResult(NoParams, Some(rsp));
      r.Obj? && Has(r.entries, k) && Lookup(r.entries, k) == Lookup(rsp.values.value, k)
      && (rsp.param != "" ==> Has(r.entries, rsp.param) && Lookup(r.entries, rsp.param) == rsp.value)
  {
    var vs := rsp.values.value;
    var m := Merged(rsp);
    var j := IndexOf(vs, k).value;
    assert m[j] == vs[j];
    assert forall i :: 0 <= i < j ==> m[i].0 != k by {
      if rsp.param != "" {
        assert m == Put(vs, rsp.param, rsp.value);
      }
    }
    IndexOfFirst(m, k, j);
  }
}
