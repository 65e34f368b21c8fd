/**
 * The modem API of the C binding (`modem_*`): each call validates its
 * arguments, builds one request field by field, hands it to the gateway and
 * reports 0 or -1 from the reply. The gateway's answers (replies and
 * notifications) and its agent lookups are inputs of each method; a request
 * the binding never builds is `None`.
 */
module CModem {
  import opened Wrappers
  import opened Datagram
  import opened FjageMsg

  /** The frame types of `modem_packet_t` that go out as a TxFrameReq. */
  const CONTROL_FRAME: int := 1
  const DATA_FRAME: int := 2

  const PHYSICAL_SERVICE: string := "org.arl.unet.Services.PHYSICAL"

  /**
   * An open modem handle: the agents looked up when it was opened, each
   * NULL when the modem offered no agent for that service.
   */
  datatype Modem = Modem(phy: Option<AgentId>, baseband: Option<AgentId>, ranging: Option<AgentId>)

  /** `modem_tx_data` refuses a NULL modem, a negative length, or a non-empty payload without data. */
  predicate TxDataRejects(modem: Option<Modem>, data: Option<seq<int>>, nbytes: int)
  {
    modem.None? || nbytes < 0 || (nbytes > 0 && data.None?)
  }

  /**
   * `modem_tx_data`: a TxFrameReq carrying "type" for control and data
   * frames, a DatagramReq without it for any other type, addressed to the
   * physical agent with "to" and, when given, the `nbytes` bytes of "data".
   * It succeeds iff the reply agrees.
   */
  method TxData(modem: Option<Modem>, to: int, data: Option<seq<int>>, nbytes: int, ptype: int, reply: Option<Msg>)
    returns (rc: int, req: Option<Msg>)
    requires data.Some? && nbytes >= 0 ==> nbytes <= |data.value|
    ensures req.None? <==> TxDataRejects(modem, data, nbytes)
    ensures req.Some? ==>
      && modem.Some?
      && req.value.perf == REQUEST
      && req.value.recipient == modem.value.phy
      && (req.value.clazz == TxFrameReq <==> ptype == CONTROL_FRAME || ptype == DATA_FRAME)
      && (req.value.clazz == TxFrameReq || req.value.clazz == MsgClass.DatagramReq)
      && Field(req.value, "type") == (if req.value.clazz == TxFrameReq then Some(IntV(ptype)) else None)
      && Field(req.value, "to") == Some(IntV(to))
      && Field(req.value, "data") == (if data.Some? then Some(BytesV(data.value[..nbytes])) else None)
    ensures rc == 0 <==> req.Some? && Agreed(reply)
    ensures rc == 0 || rc == -1
  {
    if modem.None? || nbytes < 0 || (nbytes > 0 && data.None?) {
      return -1, None;
    }
    var clazz := MsgClass.DatagramReq;
    var fields: seq<(string, Value)> := [];
    if ptype == CONTROL_FRAME || ptype == DATA_FRAME {
      clazz := TxFrameReq;
      fields := fields + [("type", IntV(ptype))];
    }
    fields := fields + [("to", IntV(to))];
    if data.Some? {
      fields := fields + [("data", BytesV(data.value[..nbytes]))];
    }
    var m := Msg(clazz, REQUEST, modem.value.phy, fields);
    FieldAt(m, "to", |fields| - (if data.Some? then 2 else 1));
    if data.Some? {
      FieldAt(m, "data", |fields| - 1);
    }
    if clazz == TxFrameReq {
      FieldAt(m, "type", 0);
    }
    req := Some(m);
    rc := if Agreed(reply) then 0 else -1;
  }

  /**
   * `modem_get_range`: a RangeReq to the ranging agent with "to"; the range
   * is read from the RangeNtf (`ntf`) that must follow an agreeing reply.
   */
  method GetRange(modem: Option<Modem>, to: int, reply: Option<Msg>, ntf: Option<Msg>)
    returns (rc: int, range: Option<real>, req: Option<Msg>)
    ensures req.None? <==> modem.None?
    ensures req.Some? ==>
      && modem.Some?
      && req.value.clazz == RangeReq && req.value.perf == REQUEST
      && req.value.recipient == modem.value.ranging
      && Field(req.value, "to") == Some(IntV(to))
    ensures rc == 0 <==> req.Some? && Agreed(reply) && ntf.Some?
    ensures rc == 0 ==> range == Some(GetFloat(ntf.value, "range", 0.0))
    ensures rc != 0 ==> rc == -1 && range.None?
  {
    range := None;
    if modem.None? {
      return -1, range, None;
    }
    var m := Msg(RangeReq, REQUEST, modem.value.ranging, [("to", IntV(to))]);
    FieldAt(m, "to", 0);
    req := Some(m);
    rc := -1;
    if Agreed(reply) && ntf.Some? {
      range := Some(GetFloat(ntf.value, "range", 0.0));
      rc := 0;
    }
  }

  /** `modem_tx_signal` refuses a NULL modem, a negative length, a foreign sampling rate, or missing samples. */
  predicate TxSignalRejects(modem: Option<Modem>, signal: Option<seq<real>>, nsamples: int, rate: int, txRate: int)
  {
    modem.None? || nsamples < 0 || rate != txRate || (nsamples > 0 && signal.None?)
  }

  /**
   * `modem_tx_signal`, for a modem whose transmit sampling rate is
   * `txRate`: a TxBasebandSignalReq to the baseband agent carrying "fc" only
   * for a non-negative carrier, and the signal's floats, two per sample
   * when the carrier is non-zero.
   */
  method TxSignal(modem: Option<Modem>, signal: Option<seq<real>>, nsamples: int, rate: int, txRate: int, fc: real,
                  reply: Option<Msg>)
    returns (rc: int, req: Option<Msg>)
    requires signal.Some? && nsamples >= 0 ==> SignalLength(fc, nsamples) <= |signal.value|
    ensures req.None? <==> TxSignalRejects(modem, signal, nsamples, rate, txRate)
    ensures req.Some? ==>
      && modem.Some?
      && req.value.clazz == TxBasebandSignalReq && req.value.perf == REQUEST
      && req.value.recipient == modem.value.baseband
      && Field(req.value, "fc") == (if fc >= 0.0 then Some(FloatV(fc)) else None)
      && Field(req.value, "signal") == (if signal.Some? then Some(FloatsV(signal.value[..SignalLength(fc, nsamples)])) else None)
    ensures rc == 0 <==> req.Some? && Agreed(reply)
    ensures rc == 0 || rc == -1
  {
    if modem.None? || nsamples < 0 || rate != txRate || (nsamples > 0 && signal.None?) {
      return -1, None;
    }
    var fields: seq<(string, Value)> := [];
    if fc >= 0.0 {
      fields := fields + [("fc", FloatV(fc))];
    }
    if signal.Some? {
      fields := fields + [("signal", FloatsV(signal.value[..SignalLength(fc, nsamples)]))];
    }
    var m := Msg(TxBasebandSignalReq, REQUEST, modem.value.baseband, fields);
    if fc >= 0.0 {
      FieldAt(m, "fc", 0);
    }
    if signal.Some? {
      FieldAt(m, "signal", |fields| - 1);
    }
    req := Some(m);
    rc := if Agreed(reply) then 0 else -1;
  }

  /**
   * `modem_record`: a RecordBasebandSignalReq to the baseband agent with
   * "recLength"; after an agreeing reply, the floats of the notification's
   * "signal", at most two per sample, are copied to the front of `buf`.
   */
  method Record(modem: Option<Modem>, buf: array<real>, nsamples: int, reply: Option<Msg>, ntf: Option<Msg>)
    returns (rc: int, req: Option<Msg>)
    requires 0 <= nsamples && 2 * nsamples <= buf.Length
    modifies buf
    ensures req.None? <==> modem.None?
    ensures req.Some? ==>
      && modem.Some?
      && req.value.clazz == RecordBasebandSignalReq && req.value.perf == REQUEST
      && req.value.recipient == modem.value.baseband
      && Field(req.value, "recLength") == Some(IntV(nsamples))
    ensures rc == 0 <==> req.Some? && Agreed(reply) && ntf.Some?
    ensures rc != 0 ==> rc == -1 && buf[..] == old(buf[..])
    ensures rc == 0 ==>
      var copied := Min(2 * nsamples, |Floats(ntf.value, "signal")|);
      && (forall k :: 0 <= k < copied ==> buf[k] == Floats(ntf.value, "signal")[k])
      && (forall k :: copied <= k < buf.Length ==> buf[k] == old(buf[k]))
  {
    if modem.None? {
      return -1, None;
    }
    var m := Msg(RecordBasebandSignalReq, REQUEST, modem.value.baseband, [("recLength", IntV(nsamples))]);
    FieldAt(m, "recLength", 0);
    req := Some(m);
    rc := -1;
    if Agreed(reply) && ntf.Some? {
      var _ := GetFloatArray(ntf.value, "signal", buf, 0, 2 * nsamples);
      rc := 0;
    }
  }

  /**
   * Whether a setter falls back to the literal target name as recipient
   * when no agent offers that service: `modem_iset` and `modem_bset` do,
   * `modem_fset` and `modem_sset` send to a NULL recipient instead.
   */
  predicate SetFallsBack(value: Value)
  {
    value.IntV? || value.BoolV?
  }

  /** The value types `modem_[ifbs]set` accept. */
  predicate Scalar(value: Value)
  {
    value.IntV? || value.FloatV? || value.BoolV? || value.StrV?
  }

  /**
   * `modem_iset`, `modem_fset`, `modem_bset` and `modem_sset`: a
   * ParameterReq to the agent offering the service `target` (index 0 sent
   * as -1), succeeding iff the reply informs.
   */
  method Set(modem: Option<Modem>, index: int, target: string, param: string, value: Value,
             agentFor: string -> Option<AgentId>, reply: Option<Msg>)
    returns (rc: int, req: Option<Msg>)
    requires Scalar(value)
    ensures req.None? <==> modem.None?
    ensures req.Some? ==>
      && req.value.clazz == ParameterReq && req.value.perf == REQUEST
      && (agentFor(target).Some? ==> req.value.recipient == agentFor(target))
      && (agentFor(target).None? ==> (req.value.recipient == Some(target) <==> SetFallsBack(value)))
      && (agentFor(target).None? ==> (req.value.recipient.None? <==> !SetFallsBack(value)))
      && Field(req.value, "index") == Some(IntV(WireIndex(index)))
      && Field(req.value, "param") == Some(StrV(param))
      && Field(req.value, "value") == Some(value)
    ensures rc == 0 <==> req.Some? && Informed(reply)
    ensures rc == 0 || rc == -1
  {
    if modem.None? {
      return -1, None;
    }
    var aid := agentFor(target);
    if aid.None? && SetFallsBack(value) {
      aid := Some(target);
    }
    var m := ParamRequest(aid, index, param, Some(value));
    req := Some(m);
    rc := if Informed(reply) then 0 else -1;
  }

  /**
   * The kind of value a getter reads: `modem_iget`, `modem_fget`,
   * `modem_bget`, or `modem_sget` into a buffer of `buflen` characters
   * (`hasBuf` false for a NULL buffer); `StrcpyKind` is the `modem_sget` of
   * the older C API, which copies the whole string with `strcpy`.
   */
  datatype Kind = IntKind | FloatKind | BoolKind | StrKind(hasBuf: bool, buflen: nat) | StrcpyKind(hasBuf: bool)

  /**
   * What a getter stores through its output pointer from an informing
   * reply: the reply's "value" with the getter's default (0, 0.0, false)
   * when it is missing; for strings, the `buflen` characters `strncpy`
   * writes, and nothing for a NULL buffer or a missing string.
   */
  function Read(kind: Kind, rsp: Msg): Option<Value>
  {
    match kind
    case IntKind => Some(IntV(GetInt(rsp, "value", 0)))
    case FloatKind => Some(FloatV(GetFloat(rsp, "value", 0.0)))
    case BoolKind => Some(BoolV(GetBool(rsp, "value", false)))
    case StrKind(hasBuf, buflen) =>
      if hasBuf && GetString(rsp, "value").Some? then Some(StrV(Strncpy(GetString(rsp, "value").value, buflen)))
      else None
    case StrcpyKind(hasBuf) =>
      if hasBuf && GetString(rsp, "value").Some? then Some(StrV(GetString(rsp, "value").value))
      else None
  }

  /**
   * `modem_[ifbs]get`: a ParameterReq without "value", to the agent offering
   * `target` or, failing that, to the literal name; the output is written
   * only when the reply informs.
   */
  method Get(modem: Option<Modem>, index: int, target: string, param: string, kind: Kind,
             agentFor: string -> Option<AgentId>, reply: Option<Msg>)
    returns (rc: int, value: Option<Value>, req: Option<Msg>)
    ensures req.None? <==> modem.None?
    ensures req.Some? ==>
      && req.value.clazz == ParameterReq && req.value.perf == REQUEST
      && req.value.recipient == (if agentFor(target).Some? then agentFor(target) else Some(target))
      && Field(req.value, "index") == Some(IntV(WireIndex(index)))
      && Field(req.value, "param") == Some(StrV(param))
      && Field(req.value, "value").None?
    ensures rc == 0 <==> req.Some? && Informed(reply)
    ensures rc == 0 ==> value == Read(kind, reply.value)
    ensures rc != 0 ==> rc == -1 && value.None?
  {
    value := None;
    if modem.None? {
      return -1, value, None;
    }
    var aid := agentFor(target);
    if aid.None? {
      aid := Some(target);
    }
    var m := ParamRequest(aid, index, param, None);
    req := Some(m);
    rc := -1;
    if Informed(reply) {
      value := Read(kind, reply.value);
      rc := 0;
    }
  }

  /** The down-conversion ratio `modem_setrecordingrate` sets for a recording rate, if it knows the rate. */
  function DownconvRatio(recordrate: int): Option<int>
  {
    if recordrate == 96000 then Some(4)
    else if recordrate == 192000 then Some(8)
    else None
  }

  /**
   * `modem_setrecordingrate`: 96 kSa/s and 192 kSa/s become "downconvRatio"
   * 4 and 8 on the physical agent; any other rate fails without a request.
   */
  method SetRecordingRate(modem: Option<Modem>, recordrate: int, agentFor: string -> Option<AgentId>, reply: Option<Msg>)
    returns (rc: int, req: Option<Msg>)
    ensures DownconvRatio(recordrate).None? ==> rc == -1 && req.None?
    ensures req.Some? <==> DownconvRatio(recordrate).Some? && modem.Some?
    ensures req.Some? ==>
      && Field(req.value, "param") == Some(StrV("downconvRatio"))
      && Field(req.value, "value") == Some(IntV(DownconvRatio(recordrate).value))
      && Field(req.value, "index") == Some(IntV(-1))
      && (agentFor(PHYSICAL_SERVICE).Some? ==> req.value.recipient == agentFor(PHYSICAL_SERVICE))
    ensures rc == 0 <==> req.Some? && Informed(reply)
  {
    if recordrate == 96000 {
      rc, req := Set(modem, 0, PHYSICAL_SERVICE, "downconvRatio", IntV(4), agentFor, reply);
    } else if recordrate == 192000 {
      rc, req := Set(modem, 0, PHYSICAL_SERVICE, "downconvRatio", IntV(8), agentFor, reply);
    } else {
      return -1, None;
    }
    if rc < 0 {
      rc := -1;
    }
  }

  /** The transmit power level (dB) of wake-up attempt `i`. */
  function WakeupPower(i: int): int
  {
    -20 + 2 * i
  }

  /** The ten wake-up attempts ramp the power up by 2 dB each, from -20 dB to -2 dB. */
  lemma WakeupPowerRamp()
    ensures forall i :: 0 <= i < 9 ==> WakeupPower(i + 1) == WakeupPower(i) + 2
    ensures WakeupPower(0) == -20 && WakeupPower(9) == -2
    ensures forall i :: 0 <= i < 10 ==> WakeupPower(i) < 0
  {
  }

  /**
   * `modem_tx_wakeup`: ten attempts, each setting "signalPowerLevel" to the
   * next step of the ramp and then passing a message to the gateway. Only
   * the first attempt passes the wake-up request; every later one passes
   * the reply to the attempt before, so `passed[i]` is `replies[i - 1]`.
   * The result depends only on the last reply; `isetReplies` answer the
   * power settings, whose results are ignored.
   */
  method TxWakeup(modem: Option<Modem>, agentFor: string -> Option<AgentId>,
                  isetReplies: seq<Option<Msg>>, replies: seq<Option<Msg>>)
    returns (rc: int, passed: seq<Option<Msg>>, isets: seq<Msg>)
    requires |isetReplies| == 10 && |replies| == 10
    ensures modem.None? ==> rc == -1 && passed == [] && isets == []
    ensures modem.Some? ==> |passed| == 10 && |isets| == 10
    ensures modem.Some? ==>
      && passed[0].Some?
      && passed[0].value.clazz == TxBasebandSignalReq
      && passed[0].value.recipient == modem.value.baseband
      && Field(passed[0].value, "wakeup") == Some(BoolV(true))
    ensures modem.Some? ==> forall i :: 1 <= i < |passed| ==> passed[i] == replies[i - 1]
    ensures forall i :: 0 <= i < |isets| ==>
      && Field(isets[i], "param") == Some(StrV("signalPowerLevel"))
      && Field(isets[i], "value") == Some(IntV(WakeupPower(i)))
      && Field(isets[i], "index") == Some(IntV(-1))
    ensures rc == 0 <==> modem.Some? && Agreed(replies[9])
    ensures rc == 0 || rc == -1
  {
    if modem.None? {
      return -1, [], [];
    }
    var wake := Msg(TxBasebandSignalReq, REQUEST, modem.value.baseband, [("wakeup", BoolV(true))]);
    FieldAt(wake, "wakeup", 0);
    var msg := Some(wake);
    passed, isets := [], [];
    var i := 0;
    while i < 10
      invariant 0 <= i <= 10
      invariant |passed| == i && |isets| == i
      invariant msg == if i == 0 then Some(wake) else replies[i - 1]
      invariant i > 0 ==> passed[0] == Some(wake)
      invariant forall j :: 1 <= j < i ==> passed[j] == replies[j - 1]
      invariant forall j :: 0 <= j < i ==>
        && Field(isets[j], "param") == Some(StrV("signalPowerLevel"))
        && Field(isets[j], "value") == Some(IntV(WakeupPower(j)))
        && Field(isets[j], "index") == Some(IntV(-1))
    {
      var _, q := Set(modem, 0, PHYSICAL_SERVICE, "signalPowerLevel", IntV(WakeupPower(i)), agentFor, isetReplies[i]);
      isets := isets + [q.value];
      passed := passed + [msg];
      msg := replies[i];
      i := i + 1;
    }
    rc := if Agreed(msg) then 0 else -1;
  }
}
