/**
 * Messages that the C bindings exchange with the modem's agents through the
 * gateway: a message class, a performative, a recipient (NULL when no agent
 * was found), and named fields in the order they were added. The gateway
 * itself is foreign code; here a request is the message the binding builds,
 * and a reply or notification is a value supplied from outside.
 */
module FjageMsg {
  import opened Wrappers
  import opened Datagram
  import Assoc

  /** What a field of a message holds. */
  datatype Value =
    | IntV(i: int)
    | FloatV(x: real)
    | BoolV(b: bool)
    | StrV(s: string)
    | BytesV(bytes: seq<int>)
    | FloatsV(xs: seq<real>)

  /** The message classes the C bindings create or wait for. */
  datatype MsgClass =
    | TxFrameReq | DatagramReq | RangeReq | RangeNtf
    | TxBasebandSignalReq | RecordBasebandSignalReq | RxBasebandSignalNtf
    | ParameterReq | ParameterRsp | TxFrameNtf | AddScheduledSleepReq

  datatype Msg = Msg(clazz: MsgClass, perf: Performative, recipient: Option<AgentId>, fields: seq<(string, Value)>)

  /** The value of the field `name`, if the message has one. */
  function Field(m: Msg, name: string): Option<Value>
  {
    if Assoc.Has(m.fields, name) then Some(Assoc.Lookup(m.fields, name)) else None
  }

  /** A field is found at its first occurrence. */
  lemma FieldAt(m: Msg, name: string, k: nat)
    requires k < |m.fields| && m.fields[k].0 == name
    requires forall j :: 0 <= j < k ==> m.fields[j].0 != name
    ensures Field(m, name) == Some(m.fields[k].1)
  {
    Assoc.IndexOfFirst(m.fields, name, k);
  }

  /** A reply arrived and agreed to the request (`msg != NULL && perf == AGREE`). */
  predicate Agreed(reply: Option<Msg>)
  {
    reply.Some? && reply.value.perf == AGREE
  }

  /** A reply arrived and carries the requested information (`perf == INFORM`). */
  predicate Informed(reply: Option<Msg>)
  {
    reply.Some? && reply.value.perf == INFORM
  }

  /** `fjage_msg_get_int(m, name, default)`. */
  function GetInt(m: Msg, name: string, default: int): int
  {
    match Field(m, name)
    case Some(IntV(i)) => i
    case _ => default
  }

  /** `fjage_msg_get_float(m, name, default)`. */
  function GetFloat(m: Msg, name: string, default: real): real
  {
    match Field(m, name)
    case Some(FloatV(x)) => x
    case _ => default
  }

  /** `fjage_msg_get_bool(m, name, default)`. */
  function GetBool(m: Msg, name: string, default: bool): bool
  {
    match Field(m, name)
    case Some(BoolV(b)) => b
    case _ => default
  }

  /** `fjage_msg_get_string(m, name)`: NULL when the field is missing. */
  function GetString(m: Msg, name: string): Option<string>
  {
    match Field(m, name)
    case Some(StrV(s)) => Some(s)
    case _ => None
  }

  /** The floats of an array field; empty when the field is missing. */
  function Floats(m: Msg, name: string): seq<real>
  {
    match Field(m, name)
    case Some(FloatsV(xs)) => xs
    case _ => []
  }

  function Min(a: int, b: int): int
  {
    if a <= b then a else b
  }

  /**
   * The index a parameter request carries. Index 0 means "the agent itself"
   * to the caller and is sent as -1; every other index is sent unchanged.
   */
  function WireIndex(index: int): (r: int)
    ensures r != 0
    ensures index != 0 ==> r == index
    ensures index == 0 ==> r == -1
  {
    if index == 0 then -1 else index
  }

  /** Two different indices never collapse onto one request, except 0 and -1. */
  lemma WireIndexInjective(a: int, b: int)
    requires WireIndex(a) == WireIndex(b)
    ensures a == b || {a, b} == {0, -1}
  {
  }

  /**
   * The ParameterReq that every setter and getter of the C bindings builds:
   * "index" (0 sent as -1), then "param", then "value" for a setter only.
   */
  method ParamRequest(aid: Option<AgentId>, index: int, param: string, value: Option<Value>) returns (m: Msg)
    ensures m.clazz == ParameterReq && m.perf == REQUEST && m.recipient == aid
    ensures Field(m, "index") == Some(IntV(WireIndex(index)))
    ensures Field(m, "param") == Some(StrV(param))
    ensures Field(m, "value") == value
    ensures |m.fields| == if value.Some? then 3 else 2
  {
    var idx := index;
    if idx == 0 {
      idx := -1;
    }
    var fields := [("index", IntV(idx)), ("param", StrV(param))];
    if value.Some? {
      fields := fields + [("value", value.value)];
      Assoc.IndexOfFirst(fields, "value", 2);
    }
    Assoc.IndexOfFirst(fields, "param", 1);
    m := Msg(ParameterReq, REQUEST, aid, fields);
  }

  /**
   * Number of floats in a baseband signal of `nsamples` samples: twice as
   * many for a complex signal, which is what a non-zero carrier `fc` means.
   */
  function SignalLength(fc: real, nsamples: int): (r: int)
  {
    (if fc != 0.0 then 2 else 1) * nsamples
  }

  /** A signal's float count is two per sample exactly when the signal is complex. */
  lemma SignalLengthComplex(fc: real, nsamples: nat)
    requires nsamples > 0
    ensures SignalLength(fc, nsamples) == 2 * nsamples <==> fc != 0.0
    ensures SignalLength(fc, nsamples) == nsamples <==> fc == 0.0
  {
  }

  /**
   * `strncpy(buf, s, n)`: the `n` characters written to `buf`, the string
   * padded with NULs when it is shorter, cut off when it is not.
   */
  function Strncpy(s: string, n: nat): (r: string)
  {
    if |s| >= n then s[..n] else s + seq(n - |s|, _ => '\0')
  }

  /**
   * What `strncpy` leaves behind: exactly `n` characters, the string's own
   * characters first, and a terminating NUL only when the string is shorter
   * than the buffer.
   */
  lemma StrncpyContents(s: string, n: nat)
    requires '\0' !in s
    ensures |Strncpy(s, n)| == n
    ensures forall i :: 0 <= i < n && i < |s| ==> Strncpy(s, n)[i] == s[i]
    ensures '\0' in Strncpy(s, n) <==> |s| < n
  {
    if |s| < n {
      assert Strncpy(s, n)[|s|] == '\0';
    } else {
      assert Strncpy(s, n) == s[..n];
      forall c | c in s[..n]
        ensures c != '\0'
      {
      }
    }
  }

  /**
   * `fjage_msg_get_float_array(m, name, buf + off, len)`: copies the array
   * field's floats, at most `len` of them, to `buf` from `off` on, and
   * returns how many it copied; a missing field copies nothing.
   */
  method GetFloatArray(m: Msg, name: string, buf: array<real>, off: nat, len: nat) returns (n: nat)
    requires off + len <= buf.Length
    modifies buf
    ensures n == Min(len, |Floats(m, name)|)
    ensures forall k :: 0 <= k < n ==> buf[off + k] == Floats(m, name)[k]
    ensures forall k :: 0 <= k < buf.Length && !(off <= k < off + n) ==> buf[k] == old(buf[k])
  {
    var xs := Floats(m, name);
    n := Min(len, |xs|);
    var i := 0;
    while i < n
      invariant 0 <= i <= n
      invariant forall k :: 0 <= k < i ==> buf[off + k] == xs[k]
      invariant forall k :: 0 <= k < buf.Length && !(off <= k < off + i) ==> buf[k] == old(buf[k])
    {
      buf[off + i] := xs[i];
      i := i + 1;
    }
  }

  /** `memcpy(dst + off, src, count * sizeof(float))`. */
  method CopyFloats(dst: array<real>, off: nat, src: array<real>, count: nat)
    requires dst != src
    requires count <= src.Length && off + count <= dst.Length
    modifies dst
    ensures forall k :: 0 <= k < count ==> dst[off + k] == src[k]
    ensures forall k :: 0 <= k < dst.Length && !(off <= k < off + count) ==> dst[k] == old(dst[k])
  {
    var i := 0;
    while i < count
      invariant 0 <= i <= count
      invariant forall k :: 0 <= k < i ==> dst[off + k] == src[k]
      invariant forall k :: 0 <= k < dst.Length && !(off <= k < off + i) ==> dst[k] == old(dst[k])
    {
      dst[off + i] := src[i];
      i := i + 1;
    }
  }
}
