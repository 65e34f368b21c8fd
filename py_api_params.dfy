/**
 * Parameter access of the contributed Python API (`Unet-Python-API`): the
 * short name of a qualified parameter, the unwrapping of values received as
 * JSON objects, the parameter request an agent proxy builds, the lookup rules
 * of a parameter response, and the attribute setter of an agent proxy.
 *
 * Python values are modelled by `Value`; a dictionary keeps its insertion
 * order as a list of distinct keys with their values. Missing dictionary keys
 * that the source reads raise a `KeyError`, modelled as an `Err`.
 */
module PyApiParams {
  import opened Wrappers
  import opened Assoc
  import Text

  datatype Value =
    | Null
    | Bool(b: bool)
    | Int(i: int)
    | Str(s: string)
    | List(items: seq<Value>)
    | Dict(entries: seq<(string, Value)>)
    /** A `_GenericObject` whose attributes are the entries of a dictionary. */
    | Generic(attrs: seq<(string, Value)>)

  const KEY_ERROR: string := "KeyError"
  const TYPE_ERROR: string := "TypeError"

  /** `_short`: the text after the last '.' of a name, or the whole name when it has none. */
  function Short(p: string): string
  {
    Text.LastSegment(p, '.')
  }

  /** The source takes the last part of `p.split('.')`, which is the same text. */
  lemma ShortIsLastSplitPart(p: string)
    ensures var parts := Text.Split(p, '.'); Short(p) == parts[|parts| - 1]
  {
    Text.SplitLastIsLastSegment(p, '.');
  }

  /** The position of the first key whose short name is `name`. */
  function IndexOfShort(entries: seq<(string, Value)>, name: string): (r: Option<nat>)
    ensures r.Some? ==> r.value < |entries| && Short(entries[r.value].0) == name
    ensures r.Some? ==> forall j :: 0 <= j < r.value ==> Short(entries[j].0) != name
    ensures r.None? ==> forall j :: 0 <= j < |entries| ==> Short(entries[j].0) != name
  {
    IndexOfShortFrom(entries, name, 0)
  }

  /** The position of the first key from `i` on whose short name is `name`. */
  function IndexOfShortFrom(entries: seq<(string, Value)>, name: string, i: nat): (r: Option<nat>)
    requires i <= |entries|
    ensures r.Some? ==> i <= r.value < |entries| && Short(entries[r.value].0) == name
    ensures r.Some? ==> forall j :: i <= j < r.value ==> Short(entries[j].0) != name
    ensures r.None? ==> forall j :: i <= j < |entries| ==> Short(entries[j].0) != name
    decreases |entries| - i
  {
    if i == |entries| then None
    else if Short(entries[i].0) == name then Some(i)
    else IndexOfShortFrom(entries, name, i + 1)
  }

  /** A dictionary whose "clazz" entry names a date or a list: its payload is under "data". */
  predicate WrapsData(entries: seq<(string, Value)>)
  {
    Has(entries, "clazz")
    && (Lookup(entries, "clazz") == Str("java.util.Date") || Lookup(entries, "clazz") == Str("java.util.ArrayList"))
  }

  /**
   * `_value`: a dictionary describing a date or a list yields its "data"; one
   * of any other class becomes a generic object; one without a class but
   * with "data" yields that; everything else is returned as it is.
   */
  function Unwrap(v: Value): (r: Result<Value, string>)
    ensures !v.Dict? ==> r == Ok(v)
    ensures r.Err? <==> v.Dict? && WrapsData(v.entries) && !Has(v.entries, "data")
    ensures v.Dict? && Has(v.entries, "clazz") && !WrapsData(v.entries) ==> r == Ok(Generic(v.entries))
    ensures v.Dict? && (WrapsData(v.entries) || !Has(v.entries, "clazz")) && Has(v.entries, "data") ==>
      r == Ok(Lookup(v.entries, "data"))
    ensures v.Dict? && !Has(v.entries, "clazz") && !Has(v.entries, "data") ==> r == Ok(v)
  {
    match v
    case Dict(e) =>
      if Has(e, "clazz") then
        var c := Lookup(e, "clazz");
        if c == Str("java.util.Date") || c == Str("java.util.ArrayList") then
          if Has(e, "data") then Ok(Lookup(e, "data")) else Err(KEY_ERROR)
        else Ok(Generic(e))
      else if Has(e, "data") then Ok(Lookup(e, "data"))
      else Ok(v)
    case _ => Ok(v)
  }

  /** Unwrapping what unwrapping produced from a non-dictionary changes nothing more. */
  lemma UnwrapIdempotentOnPlain(v: Value)
    requires !v.Dict?
    ensures Unwrap(v).Ok? && Unwrap(Unwrap(v).value) == Unwrap(v)
  {
  }

  /**
   * A parameter response: its index, the single parameter with its value if
   * it carries one, the other parameters in order, and its performative.
   */
  datatype ParamRsp = ParamRsp(index: int, param: Option<(string, Value)>, values: seq<(string, Value)>, perf: string)

  /** `name` designates parameter `key`, exactly or by its short name. */
  predicate Names(key: string, name: string)
  {
    key == name || Short(key) == name
  }

  /**
   * The raw value that `_ParameterRsp.get` reads for `name`: an exact match
   * of the single parameter, then an exact key of `values`, then a
   * short-name match of the single parameter, then the first key of `values`
   * whose short name matches.
   */
  function Source(rsp: ParamRsp, name: string): (r: Option<Value>)
    ensures rsp.param.Some? && rsp.param.value.0 == name ==> r == Some(rsp.param.value.1)
    ensures !(rsp.param.Some? && rsp.param.value.0 == name) && Has(rsp.values, name) ==>
      r == Some(Lookup(rsp.values, name))
    ensures r.None? <==>
      !(rsp.param.Some? && Names(rsp.param.value.0, name))
      && forall j :: 0 <= j < |rsp.values| ==> !Names(rsp.values[j].0, name)
    ensures r.Some? ==>
      (rsp.param.Some? && Names(rsp.param.value.0, name) && r.value == rsp.param.value.1)
      || exists j :: 0 <= j < |rsp.values| && Names(rsp.values[j].0, name) && r.value == rsp.values[j].1
  {
    if rsp.param.Some? && rsp.param.value.0 == name then Some(rsp.param.value.1)
    else if Has(rsp.values, name) then Some(Lookup(rsp.values, name))
    else if rsp.param.Some? && Short(rsp.param.value.0) == name then Some(rsp.param.value.1)
    else
      match IndexOfShort(rsp.values, name)
      case Some(j) => Some(rsp.values[j].1)
      case None => None
  }

  /** `_ParameterRsp.get`: the unwrapped value for `name`, or None (`Null`) when nothing names it. */
  function RspGet(rsp: ParamRsp, name: string): (r: Result<Value, string>)
    ensures Source(rsp, name).None? ==> r == Ok(Null)
    ensures Source(rsp, name).Some? ==> r == Unwrap(Source(rsp, name).value)
  {
    match Source(rsp, name)
    case None => Ok(Null)
    case Some(v) => Unwrap(v)
  }

  /** The parameters of a response with the single parameter merged in. */
  function Merged(rsp: ParamRsp): seq<(string, Value)>
  {
    if rsp.param.Some? then Put(rsp.values, rsp.param.value.0, rsp.param.value.1) else rsp.values
  }

  /** What `parameters` keeps for one value: dictionaries are unwrapped, the rest stay. */
  predicate Kept(v: Value, w: Value)
  {
    if v.Dict? then Unwrap(v) == Ok(w) else w == v
  }

  /**
   * `_ParameterRsp.parameters`: a copy of `values` with the single parameter
   * merged in and every dictionary value unwrapped, in the same order. The
   * response itself is a value and is left as it is.
   */
  method Parameters(rsp: ParamRsp) returns (r: Result<seq<(string, Value)>, string>)
    ensures r.Err? <==> exists j :: 0 <= j < |Merged(rsp)| && Unwrap(Merged(rsp)[j].1).Err?
    ensures r.Ok? ==> |r.value| == |Merged(rsp)|
    ensures r.Ok? ==> forall j :: 0 <= j < |r.value| ==>
      r.value[j].0 == Merged(rsp)[j].0 && Kept(Merged(rsp)[j].1, r.value[j].1)
  {
    var p := Merged(rsp);
    var i := 0;
    while i < |p|
      invariant 0 <= i <= |p|
      invariant |p| == |Merged(rsp)|
      invariant forall j :: 0 <= j < i ==> p[j].0 == Merged(rsp)[j].0 && Kept(Merged(rsp)[j].1, p[j].1)
      invariant forall j :: i <= j < |p| ==> p[j] == Merged(rsp)[j]
      invariant forall j :: 0 <= j < i ==> Unwrap(Merged(rsp)[j].1).Ok?
    {
      if p[i].1.Dict? {
        var u := Unwrap(p[i].1);
        if u.Err? {
          return Err(u.error);
        }
        p := p[i := (p[i].0, u.value)];
      }
      i := i + 1;
    }
    return Ok(p);
  }

  /** One entry of a parameter request: a get has no value, a set has one. */
  datatype ReqEntry = ReqEntry(param: string, value: Option<Value>)

  /** "index:N" for a positive index, and nothing otherwise. */
  function IndexTag(index: int): (r: string)
    ensures index > 0 ==> r == "index:" + Text.NatToString(index)
    ensures index <= 0 ==> r == ""
  {
    if index > 0 then "index:" + Text.NatToString(index) else ""
  }

  /**
   * The index part of a request's printed form. Python compares the index
   * with 0, which fails with a TypeError for a value that is neither a
   * number nor a boolean, and prints it with `str`.
   */
  function RequestIndexTag(index: Value): (r: Result<string, string>)
    ensures index.Int? ==> r == Ok(IndexTag(index.i))
    ensures index.Bool? ==> r == Ok(if index.b then "index:True" else "")
    ensures r.Err? <==> !index.Int? && !index.Bool?
  {
    match index
    case Int(i) => Ok(IndexTag(i))
    case Bool(b) => Ok(if b then "index:True" else "")
    case _ => Err(TYPE_ERROR)
  }

  /** The printed form shared by requests and responses: `Class:PERF[` and the index tag, the body, `]`. */
  function Describe(className: string, perf: string, tag: string, body: string): (r: string)
    ensures Text.StartsWith(r, className + ":" + perf + "[") && Text.EndsWith(r, "]")
  {
    var head := className + ":" + perf + "[";
    var r := head + tag + Text.Strip(body) + "]";
    assert r[..|head|] == head;
    r
  }

  /** The six characters after `head` in the printed form are the first six after the bracket. */
  lemma SixAfter(head: string, tag: string, b: string)
    requires |tag + b + "]"| >= 6
    ensures (head + tag + b + "]")[|head|..|head| + 6] == (tag + b + "]")[..6]
  {
    forall k | 0 <= k < 6
      ensures (head + tag + b + "]")[|head| + k] == (tag + b + "]")[k]
    {
    }
  }

  /** A body that does not start with "index:" does not start with it once the closing bracket follows. */
  lemma BracketedNotIndex(b: string)
    requires !Text.StartsWith(b, "index:")
    ensures |b + "]"| >= 6 ==> (b + "]")[..6] != "index:"
  {
    var t := b + "]";
    if |t| >= 6 {
      if |b| >= 6 {
        assert t[..6] == b[..6];
      } else {
        assert t[..6][|b|] == ']';
      }
    }
  }

  /** The index appears in the printed form exactly when it is positive. */
  lemma IndexShownIffPositive(className: string, perf: string, index: int, body: string)
    requires !Text.StartsWith(Text.Strip(body), "index:")
    ensures var n := |className + ":" + perf + "["|;
      var r := Describe(className, perf, IndexTag(index), body);
      (|r| >= n + 6 && r[n..n + 6] == "index:") <==> index > 0
  {
    var head := className + ":" + perf + "[";
    var tag := IndexTag(index);
    var b := Text.Strip(body);
    if |tag + b + "]"| >= 6 {
      SixAfter(head, tag, b);
    }
    if index <= 0 {
      assert tag + b == b;
      BracketedNotIndex(b);
    } else {
      assert (tag + b + "]")[..6] == "index:";
    }
  }

  /** `Request:PERF[...]` item of one request entry: short name, ':', the value or '?'. */
  function ReqItem(e: ReqEntry, show: Value -> string): string
  {
    Short(e.param) + ":" + (if e.value.Some? then show(e.value.value) else "?")
  }

  function ReqItems(es: seq<ReqEntry>, show: Value -> string): (r: seq<string>)
    ensures |r| == |es| && forall j :: 0 <= j < |es| ==> r[j] == ReqItem(es[j], show)
  {
    if es == [] then [] else [ReqItem(es[0], show)] + ReqItems(es[1..], show)
  }

  /** The request an agent proxy sends for parameters: entries are appended and the request returned for chaining. */
  class ParameterReq {
    const index: Value
    var requests: seq<ReqEntry>
    const perf: string

    constructor (index: Value)
      ensures this.index == index && requests == [] && perf == "REQUEST"
    {
      this.index := index;
      requests := [];
      perf := "REQUEST";
    }

    method Get(param: string) returns (self: ParameterReq)
      modifies this`requests
      ensures self == this && requests == old(requests) + [ReqEntry(param, None)]
    {
      requests := requests + [ReqEntry(param, None)];
      self := this;
    }

    method Set(param: string, value: Value) returns (self: ParameterReq)
      modifies this`requests
      ensures self == this && requests == old(requests) + [ReqEntry(param, Some(value))]
    {
      requests := requests + [ReqEntry(param, Some(value))];
      self := this;
    }

    /** The printed form; `show` is Python's `str` on values. An index that cannot be compared with 0 fails. */
    function ToString(show: Value -> string): (r: Result<string, string>)
      reads this
      ensures r.Err? <==> !index.Int? && !index.Bool?
      ensures index.Int? ==> r == Ok(Describe("_ParameterReq", perf, IndexTag(index.i), Text.JoinAll(ReqItems(requests, show), ' ')))
      ensures r.Ok? ==> Text.StartsWith(r.value, "_ParameterReq" + ":" + perf + "[")
    {
      var tag := RequestIndexTag(index);
      if tag.Err? then Err(tag.error)
      else
        var d := Describe("_ParameterReq", perf, tag.value, Text.JoinAll(ReqItems(requests, show), ' '));
        Ok(d)
    }
  }

  /** Printed items of the values of a response, each value unwrapped first. */
  function RspItems(values: seq<(string, Value)>, show: Value -> string): (r: Result<seq<string>, string>)
    ensures r.Ok? ==> |r.value| == |values|
    ensures r.Err? <==> exists j :: 0 <= j < |values| && Unwrap(values[j].1).Err?
    ensures r.Ok? ==> forall j :: 0 <= j < |values| ==>
      r.value[j] == Short(values[j].0) + ":" + show(Unwrap(values[j].1).value)
  {
    if values == [] then Ok([])
    else
      var u := Unwrap(values[0].1);
      var rest := RspItems(values[1..], show);
      assert forall j :: 0 < j < |values| ==> values[j] == values[1..][j - 1];
      if u.Err? then Err(u.error)
      else if rest.Err? then rest
      else Ok([Short(values[0].0) + ":" + show(u.value)] + rest.value)
  }

  /** The printed item of the single parameter of a response, with its trailing space. */
  function ParamItem(param: Option<(string, Value)>, show: Value -> string): (r: Result<string, string>)
    ensures r.Err? <==> param.Some? && Unwrap(param.value.1).Err?
    ensures param.None? ==> r == Ok("")
  {
    if param.None? then Ok("")
    else
      var u := Unwrap(param.value.1);
      if u.Err? then Err(u.error) else Ok(Short(param.value.0) + ":" + show(u.value) + " ")
  }

  /** `_ParameterRsp.__str__`: the single parameter first, then the others; an unwrapping error propagates. */
  function RspToString(rsp: ParamRsp, show: Value -> string): (r: Result<string, string>)
    ensures r.Ok? ==> Text.StartsWith(r.value, "_ParameterRsp" + ":" + rsp.perf + "[")
    ensures r.Err? <==> ParamItem(rsp.param, show).Err? || RspItems(rsp.values, show).Err?
  {
    var head := ParamItem(rsp.param, show);
    var items := RspItems(rsp.values, show);
    if head.Err? then Err(head.error)
    else if items.Err? then Err(items.error)
    else Ok(Describe("_ParameterRsp", rsp.perf, IndexTag(rsp.index), head.value + Text.JoinAll(items.value, ' ')))
  }

  /** Attributes an agent proxy keeps locally instead of asking the agent. */
  predicate IsLocalAttribute(param: string)
  {
    param == "name" || param == "owner" || param == "is_topic" || param == "index"
  }

  /**
   * An agent proxy and the attributes stored on it locally (its `__dict__`),
   * the parameter index among them: every request it sends carries the
   * index stored there at that time.
   */
  class AgentProxy {
    var local: map<string, Value>

    ghost predicate Valid()
      reads this
    {
      "index" in local
    }

    /** `self.index`, found among the local attributes. */
    function Index(): Value
      reads this
      requires Valid()
    {
      local["index"]
    }

    /** The proxy `__getitem__` makes: its index stored through the setter. */
    constructor (index: Value)
      ensures Valid() && local == map["index" := index]
    {
      local := map["index" := index];
    }

    /**
     * `setter`: a local attribute is stored without any request and its value
     * returned, so assigning "index" changes the index of later requests; any
     * other name is sent as a one-entry set request for the proxy's index
     * (`sent` is that index and the entries), and the result is what the
     * reply `rsp` holds for the name, or None when there is no reply.
     */
    method SetAttr(param: string, value: Value, rsp: Option<ParamRsp>)
      returns (r: Result<Value, string>, sent: Option<(Value, seq<ReqEntry>)>)
      requires Valid()
      modifies this`local
      ensures Valid()
      ensures IsLocalAttribute(param) ==> sent.None? && r == Ok(value) && local == old(local)[param := value]
      ensures param == "index" ==> Index() == value
      ensures !IsLocalAttribute(param) ==> local == old(local) && sent == Some((Index(), [ReqEntry(param, Some(value))]))
      ensures !IsLocalAttribute(param) && rsp.None? ==> r == Ok(Null)
      ensures !IsLocalAttribute(param) && rsp.Some? ==> r == RspGet(rsp.value, param)
    {
      if IsLocalAttribute(param) {
        local := local[param := value];
        return Ok(value), None;
      }
      var index := Index();
      var req := new ParameterReq(index);
      req := req.Set(param, value);
      assert req.index == index && req.requests == [ReqEntry(param, Some(value))];
      sent := Some((req.index, req.requests));
      if rsp.None? {
        return Ok(Null), sent;
      }
      r := RspGet(rsp.value, param);
    }

    /**
     * `getter`: sends a one-entry get request for the proxy's index (`sent`
     * is that index and the entries); without a reply, or a reply that
     * carries no single value, the result is None.
     */
    method GetAttr(param: string, rsp: Option<ParamRsp>) returns (r: Result<Value, string>, sent: (Value, seq<ReqEntry>))
      requires Valid()
      ensures sent == (Index(), [ReqEntry(param, None)])
      ensures rsp.None? || rsp.value.param.None? ==> r == Ok(Null)
      ensures rsp.Some? && rsp.value.param.Some? ==> r == RspGet(rsp.value, param)
    {
      var index := Index();
      var req := new ParameterReq(index);
      req := req.Get(param);
      assert req.index == index && req.requests == [ReqEntry(param, None)];
      sent := (req.index, req.requests);
      if rsp.None? || rsp.value.param.None? {
        return Ok(Null), sent;
      }
      r := RspGet(rsp.value, param);
    }
  }
}
