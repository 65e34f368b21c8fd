/**
 * The older C API (`contrib/Unet-C-API`): the same modem calls as the
 * current C binding, except that `modem_tx_signal` takes no sampling rate,
 * `modem_record` names its fields "recLen" and "data", and `modem_sget`
 * copies the reply's string whole. Every other call builds the same request
 * and reads the same reply as `CModem`'s.
 */
module ContribModem {
  import opened Wrappers
  import opened Datagram
  import opened FjageMsg
  import opened CModem

  /** `modem_tx_signal` refuses a NULL modem, a negative length, or missing samples. */
  predicate TxSignalRejects(modem: Option<Modem>, signal: Option<seq<real>>, nsamples: int)
  {
    modem.None? || nsamples < 0 || (nsamples > 0 && signal.None?)
  }

  /**
   * `modem_tx_signal`: a TxBasebandSignalReq to the baseband agent carrying
   * "fc" only for a non-negative carrier, and the signal's floats, two per
   * sample when the carrier is non-zero; any sampling rate is accepted.
   */
  method TxSignal(modem: Option<Modem>, signal: Option<seq<real>>, nsamples: int, fc: real, reply: Option<Msg>)
    returns (rc: int, req: Option<Msg>)
    requires signal.Some? && nsamples >= 0 ==> SignalLength(fc, nsamples) <= |signal.value|
    ensures req.None? <==> TxSignalRejects(modem, signal, nsamples)
    ensures req.Some? ==>
      && modem.Some?
      && req.value.clazz == TxBasebandSignalReq && req.value.perf == REQUEST
      && req.value.recipient == modem.value.baseband
      && Field(req.value, "fc") == (if fc >= 0.0 then Some(FloatV(fc)) else None)
      && Field(req.value, "signal") == (if signal.Some? then Some(FloatsV(signal.value[..SignalLength(fc, nsamples)])) else None)
    ensures rc == 0 <==> req.Some? && Agreed(reply)
    ensures rc == 0 || rc == -1
  {
    if modem.None? || nsamples < 0 || (nsamples > 0 && signal.None?) {
      return -1, None;
    }
    var fields: seq<(string, Value)> := [];
    if fc >= 0.0 {
      fields := fields + [("fc", FloatV(fc))];
    }
    if signal.Some? {
      fields := fields + [("signal", FloatsV(signal.value[..SignalLength(fc, nsamples)]))];
    }
    var m := Msg(TxBasebandSignalReq, REQUEST, modem.value.baseband, fields);
    if fc >= 0.0 {
      FieldAt(m, "fc", 0);
    }
    if signal.Some? {
      FieldAt(m, "signal", |fields| - 1);
    }
    req := Some(m);
    rc := if Agreed(reply) then 0 else -1;
  }

  /** The older API takes any rate the current binding accepts, and more. */
  lemma TxSignalRejectsFewer(modem: Option<Modem>, signal: Option<seq<real>>, nsamples: int, rate: int, txRate: int)
    ensures TxSignalRejects(modem, signal, nsamples) ==> CModem.TxSignalRejects(modem, signal, nsamples, rate, txRate)
    ensures rate == txRate ==>
      (TxSignalRejects(modem, signal, nsamples) <==> CModem.TxSignalRejects(modem, signal, nsamples, rate, txRate))
  {
  }

  /**
   * `modem_record`: a RecordBasebandSignalReq with "recLen"; after an
   * agreeing reply, the floats of the notification's "data", at most two
   * per sample, are copied to the front of `buf`.
   */
  method Record(modem: Option<Modem>, buf: array<real>, nsamples: int, reply: Option<Msg>, ntf: Option<Msg>)
    returns (rc: int, req: Option<Msg>)
    requires 0 <= nsamples && 2 * nsamples <= buf.Length
    modifies buf
    ensures req.None? <==> modem.None?
    ensures req.Some? ==>
      && modem.Some?
      && req.value.clazz == RecordBasebandSignalReq && req.value.perf == REQUEST
      && req.value.recipient == modem.value.baseband
      && Field(req.value, "recLen") == Some(IntV(nsamples))
      && Field(req.value, "recLength").None?
    ensures rc == 0 <==> req.Some? && Agreed(reply) && ntf.Some?
    ensures rc != 0 ==> rc == -1 && buf[..] == old(buf[..])
    ensures rc == 0 ==>
      var copied := Min(2 * nsamples, |Floats(ntf.value, "data")|);
      && (forall k :: 0 <= k < copied ==> buf[k] == Floats(ntf.value, "data")[k])
      && (forall k :: copied <= k < buf.Length ==> buf[k] == old(buf[k]))
  {
    if modem.None? {
      return -1, None;
    }
    var m := Msg(RecordBasebandSignalReq, REQUEST, modem.value.baseband, [("recLen", IntV(nsamples))]);
    FieldAt(m, "recLen", 0);
    req := Some(m);
    rc := -1;
    if Agreed(reply) && ntf.Some? {
      var _ := GetFloatArray(ntf.value, "data", buf, 0, 2 * nsamples);
      rc := 0;
    }
  }

  /**
   * `modem_sget` with `strcpy`: the whole string reaches the buffer, where
   * the current binding's `strncpy` keeps exactly `buflen` characters; the
   * two agree, up to the current binding's NUL padding, when the string is
   * shorter than the buffer.
   */
  lemma StrcpyCopiesWhole(rsp: Msg, buflen: nat)
    requires GetString(rsp, "value").Some?
    ensures Read(StrcpyKind(true), rsp) == Some(StrV(GetString(rsp, "value").value))
    ensures Read(StrcpyKind(false), rsp).None?
    ensures |GetString(rsp, "value").value| <= buflen ==>
      Read(StrKind(true, buflen), rsp).value.s[..|GetString(rsp, "value").value|] == GetString(rsp, "value").value
    ensures |GetString(rsp, "value").value| > buflen ==>
      Read(StrKind(true, buflen), rsp).value.s == GetString(rsp, "value").value[..buflen]
  {
    var s := GetString(rsp, "value").value;
    if |s| <= buflen {
      assert Strncpy(s, buflen)[..|s|] == s;
    }
  }
}
