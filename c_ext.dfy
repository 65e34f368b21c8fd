/**
 * The extension calls of the C socket binding (`unetsocket_ext_*`): these
 * look the agent up by service on every call instead of using one cached
 * when the connection opened. Lookups, replies and notifications are inputs;
 * the baseband agent whose parameters `npulses` saves and restores is an
 * object whose answers are decided from outside.
 */
module CExt {
  import opened Wrappers
  import opened Datagram
  import opened FjageMsg
  import CModem

  const PHYSICAL_SERVICE: string := "org.arl.unet.Services.PHYSICAL"
  const BASEBAND_SERVICE: string := "org.arl.unet.Services.BASEBAND"
  const RANGING_SERVICE: string := "org.arl.unet.Services.RANGING"

  /** Samples per passband block (`PBSBLK`). */
  const PBSBLK: nat := 65536

  /**
   * `unetsocket_ext_[ifbs]set` on a non-NULL socket (`sock`): a
   * ParameterReq to the agent offering `target`, or to the literal name
   * when none does, for every value type; succeeds iff the reply informs.
   */
  method Set(sock: bool, index: int, target: string, param: string, value: Value,
             agentFor: string -> Option<AgentId>, reply: Option<Msg>)
    returns (rc: int, req: Option<Msg>)
    ensures req.None? <==> !sock
    ensures req.Some? ==>
      && req.value.clazz == ParameterReq && req.value.perf == REQUEST
      && req.value.recipient == (if agentFor(target).Some? then agentFor(target) else Some(target))
      && Field(req.value, "index") == Some(IntV(WireIndex(index)))
      && Field(req.value, "param") == Some(StrV(param))
      && Field(req.value, "value") == Some(value)
    ensures rc == 0 <==> req.Some? && Informed(reply)
    ensures rc == 0 || rc == -1
  {
    if !sock {
      return -1, None;
    }
    var aid := agentFor(target);
    if aid.None? {
      aid := Some(target);
    }
    var m := ParamRequest(aid, index, param, Some(value));
    req := Some(m);
    rc := if Informed(reply) then 0 else -1;
  }

  /**
   * `unetsocket_ext_[ifbs]get` on a non-NULL socket: a ParameterReq without
   * "value", to the agent offering `target` or to the literal name; the
   * output is written, as the modem API's getters write it, only when the
   * reply informs.
   */
  method Get(sock: bool, index: int, target: string, param: string, kind: CModem.Kind,
             agentFor: string -> Option<AgentId>, reply: Option<Msg>)
    returns (rc: int, value: Option<Value>, req: Option<Msg>)
    ensures req.None? <==> !sock
    ensures req.Some? ==>
      && req.value.clazz == ParameterReq && req.value.perf == REQUEST
      && req.value.recipient == (if agentFor(target).Some? then agentFor(target) else Some(target))
      && Field(req.value, "index") == Some(IntV(WireIndex(index)))
      && Field(req.value, "param") == Some(StrV(param))
      && Field(req.value, "value").None?
    ensures rc == 0 <==> req.Some? && Informed(reply)
    ensures rc == 0 ==> value == CModem.Read(kind, reply.value)
    ensures rc != 0 ==> rc == -1 && value.None?
  {
    value := None;
    if !sock {
      return -1, value, None;
    }
    var aid := agentFor(target);
    if aid.None? {
      aid := Some(target);
    }
    var m := ParamRequest(aid, index, param, None);
    req := Some(m);
    rc := -1;
    if Informed(reply) {
      value := CModem.Read(kind, reply.value);
      rc := 0;
    }
  }

  /**
   * `unetsocket_ext_set_powerlevel`: "powerLevel" on the physical agent,
   * sent to a NULL recipient when no agent offers that service.
   */
  method SetPowerLevel(sock: bool, index: int, value: real, agentFor: string -> Option<AgentId>, reply: Option<Msg>)
    returns (rc: int, req: Option<Msg>)
    ensures req.None? <==> !sock
    ensures req.Some? ==>
      && req.value.clazz == ParameterReq
      && req.value.recipient == agentFor(PHYSICAL_SERVICE)
      && Field(req.value, "index") == Some(IntV(WireIndex(index)))
      && Field(req.value, "param") == Some(StrV("powerLevel"))
      && Field(req.value, "value") == Some(FloatV(value))
    ensures rc == 0 <==> req.Some? && Informed(reply)
  {
    if !sock {
      return -1, None;
    }
    var m := ParamRequest(agentFor(PHYSICAL_SERVICE), index, "powerLevel", Some(FloatV(value)));
    req := Some(m);
    rc := if Informed(reply) then 0 else -1;
  }

  /**
   * `unetsocket_ext_get_range`: a RangeReq with "to" to the ranging agent;
   * the range comes from the RangeNtf (`ntf`) that must follow an agreeing
   * reply.
   */
  method GetRange(sock: bool, to: int, agentFor: string -> Option<AgentId>, reply: Option<Msg>, ntf: Option<Msg>)
    returns (rc: int, range: Option<real>, req: Option<Msg>)
    ensures req.None? <==> !sock
    ensures req.Some? ==>
      && req.value.clazz == RangeReq
      && req.value.recipient == agentFor(RANGING_SERVICE)
      && Field(req.value, "to") == Some(IntV(to))
    ensures rc == 0 <==> req.Some? && Agreed(reply) && ntf.Some?
    ensures rc == 0 ==> range == Some(GetFloat(ntf.value, "range", 0.0))
    ensures rc != 0 ==> rc == -1 && range.None?
  {
    range := None;
    if !sock {
      return -1, range, None;
    }
    var m := Msg(RangeReq, REQUEST, agentFor(RANGING_SERVICE), [("to", IntV(to))]);
    FieldAt(m, "to", 0);
    req := Some(m);
    rc := -1;
    if Agreed(reply) && ntf.Some? {
      range := Some(GetFloat(ntf.value, "range", 0.0));
      rc := 0;
    }
  }

  /** C's `(int)x` on a float: truncation toward zero. */
  function TruncateToInt(x: real): int
  {
    if x >= 0.0 then x.Floor else -((-x).Floor)
  }

  /**
   * The float count `unetsocket_ext_tx_signal` sends, as written:
   * `((int)fc ? 2 : 1) * nsamples`, which tests the carrier after
   * truncating it to an integer.
   */
  function SignalLengthAsWritten(fc: real, nsamples: int): int
  {
    (if TruncateToInt(fc) != 0 then 2 else 1) * nsamples
  }

  /**
   * With a carrier strictly between -1 and 1 Hz other than 0, the request is
   * flagged complex but, as written, carries only one float per sample.
   */
  lemma SignalLengthAsWrittenHalvesComplex()
    ensures 0.5 != 0.0
    ensures SignalLengthAsWritten(0.5, 100) == 100
    ensures SignalLength(0.5, 100) == 200
  {
  }

  /** Outside that band the two counts agree. */
  lemma SignalLengthAsWrittenAgrees(fc: real, nsamples: int)
    requires fc == 0.0 || fc >= 1.0 || fc <= -1.0
    ensures SignalLengthAsWritten(fc, nsamples) == SignalLength(fc, nsamples)
  {
    if fc <= -1.0 {
      assert (-fc).Floor >= 1;
    }
  }

  /** `unetsocket_ext_tx_signal` refuses a NULL socket, a negative length, or missing samples. */
  predicate TxSignalRejects(sock: bool, signal: Option<seq<real>>, nsamples: int)
  {
    !sock || nsamples < 0 || (nsamples > 0 && signal.None?)
  }

  /**
   * `unetsocket_ext_tx_signal`: a TxBasebandSignalReq to the baseband agent
   * with "fc", the flag "signal__isComplex" (a non-zero carrier), and the
   * samples, two floats each when the signal is complex.
   */
  method TxSignal(sock: bool, signal: Option<seq<real>>, nsamples: int, fc: real,
                  agentFor: string -> Option<AgentId>, reply: Option<Msg>)
    returns (rc: int, req: Option<Msg>)
    requires signal.Some? && nsamples >= 0 ==> SignalLength(fc, nsamples) <= |signal.value|
    ensures req.None? <==> TxSignalRejects(sock, signal, nsamples)
    ensures req.Some? ==>
      && req.value.clazz == TxBasebandSignalReq
      && req.value.recipient == agentFor(BASEBAND_SERVICE)
      && Field(req.value, "fc") == Some(FloatV(fc))
      && Field(req.value, "signal__isComplex") == Some(BoolV(fc != 0.0))
      && Field(req.value, "signal") == (if signal.Some? then Some(FloatsV(signal.value[..SignalLength(fc, nsamples)])) else None)
    ensures req.Some? && signal.Some? && nsamples > 0 ==>
      (|signal.value[..SignalLength(fc, nsamples)]| == 2 * nsamples <==> fc != 0.0)
    ensures rc == 0 <==> req.Some? && Agreed(reply)
  {
    if !sock || nsamples < 0 || (nsamples > 0 && signal.None?) {
      return -1, None;
    }
    var fields := [("fc", FloatV(fc)), ("signal__isComplex", BoolV(fc != 0.0))];
    if signal.Some? {
      fields := fields + [("signal", FloatsV(signal.value[..SignalLength(fc, nsamples)]))];
    }
    var m := Msg(TxBasebandSignalReq, REQUEST, agentFor(BASEBAND_SERVICE), fields);
    FieldAt(m, "signal__isComplex", 1);
    if signal.Some? {
      FieldAt(m, "signal", 2);
    }
    if nsamples > 0 {
      SignalLengthComplex(fc, nsamples);
    }
    req := Some(m);
    rc := if Agreed(reply) then 0 else -1;
  }

  /**
   * `unetsocket_ext_bbrecord`: refuses a NULL socket, a non-positive length
   * or a NULL buffer; otherwise a RecordBasebandSignalReq with "recLength",
   * and, after an agreeing reply, at most two floats per sample of the
   * notification's "signal" at the front of `buf`.
   */
  method BbRecord(sock: bool, buf: array?<real>, nsamples: int, agentFor: string -> Option<AgentId>,
                  reply: Option<Msg>, ntf: Option<Msg>)
    returns (rc: int, req: Option<Msg>)
    requires buf != null && nsamples > 0 ==> 2 * nsamples <= buf.Length
    modifies buf
    ensures req.None? <==> !sock || nsamples <= 0 || buf == null
    ensures req.Some? ==>
      && req.value.clazz == RecordBasebandSignalReq
      && req.value.recipient == agentFor(BASEBAND_SERVICE)
      && Field(req.value, "recLength") == Some(IntV(nsamples))
    ensures rc == 0 <==> req.Some? && Agreed(reply) && ntf.Some?
    ensures rc != 0 ==> rc == -1 && (buf != null ==> buf[..] == old(buf[..]))
    ensures rc == 0 ==>
      var copied := Min(2 * nsamples, |Floats(ntf.value, "signal")|);
      && (forall k :: 0 <= k < copied ==> buf[k] == Floats(ntf.value, "signal")[k])
      && (forall k :: copied <= k < buf.Length ==> buf[k] == old(buf[k]))
  {
    if !sock || nsamples <= 0 || buf == null {
      return -1, None;
    }
    var m := Msg(RecordBasebandSignalReq, REQUEST, agentFor(BASEBAND_SERVICE), [("recLength", IntV(nsamples))]);
    FieldAt(m, "recLength", 0);
    req := Some(m);
    rc := -1;
    if Agreed(reply) && ntf.Some? {
      var _ := GetFloatArray(ntf.value, "signal", buf, 0, 2 * nsamples);
      rc := 0;
    }
  }

  /** The number of passband blocks that hold `nsamples` samples: the ceiling of `nsamples / PBSBLK`. */
  function BlockCount(nsamples: nat): nat
  {
    (nsamples + PBSBLK - 1) / PBSBLK
  }

  /** Enough blocks to hold every sample, and not one more. */
  lemma BlockCountCovers(nsamples: nat)
    requires nsamples > 0
    ensures (BlockCount(nsamples) - 1) * PBSBLK < nsamples <= BlockCount(nsamples) * PBSBLK
  {
  }

  /**
   * The spacing of single-precision floating-point numbers around `n`:
   * 1 below 2^24, doubling with every further bit.
   */
  function Ulp32(n: nat): (u: nat)
    ensures u >= 1
  {
    if n < 0x100_0000 then 1 else 2 * Ulp32(n / 2)
  }

  /** `(float)n`: `n` rounded to the nearest single-precision value, ties to even. */
  function ToFloat32(n: nat): nat
  {
    var u := Ulp32(n);
    var q, r := n / u, n % u;
    if 2 * r < u || (2 * r == u && q % 2 == 0) then q * u else (q + 1) * u
  }

  /**
   * The block count `unetsocket_ext_pbrecord` computes, as written:
   * `(int)ceil((float)nsamples / PBSBLK)`. Dividing by a power of two is
   * exact, so only the conversion to `float` rounds.
   */
  function BlockCountAsWritten(nsamples: nat): nat
  {
    (ToFloat32(nsamples) + PBSBLK - 1) / PBSBLK
  }

  /** Up to 2^24 samples every integer is a float, and the counts agree. */
  lemma BlockCountAsWrittenAgrees(nsamples: nat)
    requires nsamples < 0x100_0000
    ensures BlockCountAsWritten(nsamples) == BlockCount(nsamples)
  {
    assert Ulp32(nsamples) == 1;
  }

  /**
   * For 2^24 + 1 samples the conversion rounds down to 2^24, so as written
   * only 256 blocks are fetched and the last sample is never copied.
   */
  lemma BlockCountAsWrittenDropsLastSample()
    ensures BlockCountAsWritten(0x100_0001) == 256
    ensures 256 * PBSBLK < 0x100_0001
    ensures BlockCount(0x100_0001) == 257
  {
    assert Ulp32(0x80_0000) == 1;
    assert Ulp32(0x100_0001) == 2;
    assert ToFloat32(0x100_0001) == 0x100_0000;
  }

  /**
   * How many of the first `count` block notifications arrived before the
   * first missing one.
   */
  function Received(ntfs: seq<Option<Msg>>, count: nat): (r: nat)
    ensures r <= count && r <= |ntfs|
    ensures forall j :: 0 <= j < r ==> ntfs[j].Some?
    ensures r < count ==> r == |ntfs| || ntfs[r].None?
  {
    if count == 0 || |ntfs| == 0 || ntfs[0].None? then 0
    else
      var r := Received(ntfs[1..], count - 1);
      assert forall j :: 1 <= j <= r ==> ntfs[j] == ntfs[1..][j - 1];
      r + 1
  }

  /** The samples carried by block notification `j`. */
  function Block(ntfs: seq<Option<Msg>>, j: nat): seq<real>
  {
    if j < |ntfs| && ntfs[j].Some? then Floats(ntfs[j].value, "signal") else []
  }

  /** Block `j` of the recording is in place in `s`: its samples from `j * PBSBLK` on, below `nsamples`. */
  ghost predicate BlockAt(s: seq<real>, nsamples: nat, j: nat, blk: seq<real>)
  {
    forall o :: 0 <= o < PBSBLK && o < |blk| && j * PBSBLK + o < nsamples && j * PBSBLK + o < |s| ==>
      s[j * PBSBLK + o] == blk[o]
  }

  /** The first `i` blocks received are in place in `s`. */
  ghost predicate BlocksAt(s: seq<real>, nsamples: nat, ntfs: seq<Option<Msg>>, i: nat)
  {
    forall j :: 0 <= j < i ==> BlockAt(s, nsamples, j, Block(ntfs, j))
  }

  /**
   * One pass of the block loop: block `i` goes to the scratch buffer
   * (`fjage_msg_get_float_array`, at most PBSBLK floats), and from there
   * the part that still fits below `nsamples` goes to `buf` from
   * `i * PBSBLK` on (`memcpy`).
   */
  method CopyBlock(buf: array<real>, tempbuf: array<real>, i: nat, nsamples: nat, ntf: Msg)
    requires buf != tempbuf && tempbuf.Length == PBSBLK
    requires i * PBSBLK < nsamples <= buf.Length
    modifies buf, tempbuf
    ensures BlockAt(buf[..], nsamples, i, Floats(ntf, "signal"))
    ensures forall k :: 0 <= k < buf.Length && !(i * PBSBLK <= k < i * PBSBLK + PBSBLK && k < nsamples) ==>
              buf[k] == old(buf[k])
  {
    var n := GetFloatArray(ntf, "signal", tempbuf, 0, PBSBLK);
    var remaining := nsamples - i * PBSBLK;
    var len := if remaining > PBSBLK then PBSBLK else remaining;
    CopyFloats(buf, i * PBSBLK, tempbuf, len);
  }

  /** Earlier blocks end before later ones start. */
  lemma BlocksDisjoint(j: nat, i: nat, o: nat)
    requires j < i && o < PBSBLK
    ensures j * PBSBLK + o < i * PBSBLK
  {
    assert (j + 1) * PBSBLK <= i * PBSBLK;
  }

  /** Writing block `i` in place, without touching anything before it, keeps the earlier blocks in place. */
  lemma BlocksStep(before: seq<real>, after: seq<real>, nsamples: nat, ntfs: seq<Option<Msg>>, i: nat)
    requires |before| == |after| && BlocksAt(before, nsamples, ntfs, i)
    requires BlockAt(after, nsamples, i, Block(ntfs, i))
    requires forall k :: 0 <= k < i * PBSBLK && k < |before| ==> after[k] == before[k]
    ensures BlocksAt(after, nsamples, ntfs, i + 1)
  {
    forall j | 0 <= j < i + 1
      ensures BlockAt(after, nsamples, j, Block(ntfs, j))
    {
      if j < i {
        forall o | 0 <= o < PBSBLK && o < |Block(ntfs, j)| && j * PBSBLK + o < nsamples && j * PBSBLK + o < |after|
          ensures after[j * PBSBLK + o] == Block(ntfs, j)[o]
        {
          BlocksDisjoint(j, i, o);
        }
      }
    }
  }

  /**
   * The block loop of `unetsocket_ext_pbrecord`: for each of `count` blocks
   * in turn, waits for its notification and copies it into place; a missing
   * notification ends the loop with failure.
   */
  method FetchBlocks(buf: array<real>, nsamples: nat, count: nat, ntfs: seq<Option<Msg>>) returns (ok: bool)
    requires nsamples <= buf.Length && (count - 1) * PBSBLK < nsamples
    modifies buf
    ensures ok <==> Received(ntfs, count) == count
    ensures BlocksAt(buf[..], nsamples, ntfs, Received(ntfs, count))
    ensures forall k :: 0 <= k < buf.Length && (k >= nsamples || k >= Received(ntfs, count) * PBSBLK) ==> buf[k] == old(buf[k])
  {
    ghost var initial := buf[..];
    var tempbuf := new real[PBSBLK];
    var i := 0;
    while i < count
      invariant 0 <= i <= count
      invariant i <= Received(ntfs, count)
      invariant BlocksAt(buf[..], nsamples, ntfs, i)
      invariant KeptFrom(buf[..], initial, nsamples, i * PBSBLK)
    {
      if i >= |ntfs| || ntfs[i].None? {
        break;
      }
      assert i * PBSBLK < nsamples by {
        assert i <= count - 1;
      }
      ghost var before := buf[..];
      CopyBlock(buf, tempbuf, i, nsamples, ntfs[i].value);
      BlocksStep(before, buf[..], nsamples, ntfs, i);
      KeptStep(initial, before, buf[..], nsamples, i);
      i := i + 1;
    }
    ok := i == count;
  }

  /** `s` still agrees with `t` from `lo` on, and from `nsamples` on. */
  ghost predicate KeptFrom(s: seq<real>, t: seq<real>, nsamples: nat, lo: int)
  {
    |s| == |t| && forall k :: 0 <= k < |s| && (k >= nsamples || k >= lo) ==> s[k] == t[k]
  }

  /** Writing block `i` and nothing else moves the untouched part up by one block. */
  lemma KeptStep(t: seq<real>, before: seq<real>, after: seq<real>, nsamples: nat, i: nat)
    requires KeptFrom(before, t, nsamples, i * PBSBLK) && |after| == |before|
    requires forall k :: 0 <= k < |after| && !(i * PBSBLK <= k < i * PBSBLK + PBSBLK && k < nsamples) ==>
               after[k] == before[k]
    ensures KeptFrom(after, t, nsamples, (i + 1) * PBSBLK)
  {
    assert (i + 1) * PBSBLK == i * PBSBLK + PBSBLK;
  }

  /**
   * `unetsocket_ext_pbrecord` with the block count corrected to the exact
   * ceiling: sets "pbsblk" then "pbscnt" on the baseband agent, then copies
   * block `j` (the j-th notification in `ntfs`, at most PBSBLK samples of
   * it) to `buf` from `j * PBSBLK` on, never past `nsamples`. A missing
   * block ends the call with -1, leaving the earlier blocks written.
   */
  method PbRecord(sock: bool, buf: array?<real>, nsamples: int, agentFor: string -> Option<AgentId>,
                  blkReply: Option<Msg>, cntReply: Option<Msg>, ntfs: seq<Option<Msg>>)
    returns (rc: int, sets: seq<Msg>)
    requires buf != null && nsamples > 0 ==> nsamples <= buf.Length
    modifies buf
    ensures !sock || nsamples <= 0 || buf == null ==> rc == -1 && sets == []
    ensures sock && nsamples > 0 && buf != null ==>
      && 1 <= |sets| <= 2
      && Field(sets[0], "param") == Some(StrV("pbsblk"))
      && Field(sets[0], "value") == Some(IntV(PBSBLK))
      && (|sets| == 2 <==> Informed(blkReply))
      && (|sets| == 2 ==> Field(sets[1], "param") == Some(StrV("pbscnt")))
      && (|sets| == 2 ==> Field(sets[1], "value") == Some(IntV(BlockCount(nsamples))))
    ensures rc == 0 <==>
      && sock && nsamples > 0 && buf != null
      && Informed(blkReply) && Informed(cntReply)
      && Received(ntfs, BlockCount(nsamples)) == BlockCount(nsamples)
    ensures rc == 0 || rc == -1
    ensures buf != null ==> forall k :: 0 <= k < buf.Length && k >= nsamples ==> buf[k] == old(buf[k])
    ensures buf != null && nsamples > 0 && !(sock && Informed(blkReply) && Informed(cntReply)) ==>
      buf[..] == old(buf[..])
    ensures buf != null && nsamples > 0 && sock && Informed(blkReply) && Informed(cntReply) ==>
      var got := Received(ntfs, BlockCount(nsamples));
      && BlocksAt(buf[..], nsamples, ntfs, got)
      && (forall k :: got * PBSBLK <= k < buf.Length ==> buf[k] == old(buf[k]))
  {
    if !sock || nsamples <= 0 || buf == null {
      return -1, [];
    }
    var count := BlockCount(nsamples);
    BlockCountCovers(nsamples);
    var r, q := Set(sock, 0, BASEBAND_SERVICE, "pbsblk", IntV(PBSBLK), agentFor, blkReply);
    sets := [q.value];
    if r < 0 {
      return -1, sets;
    }
    r, q := Set(sock, 0, BASEBAND_SERVICE, "pbscnt", IntV(count), agentFor, cntReply);
    sets := sets + [q.value];
    if r < 0 {
      return -1, sets;
    }
    var ok := FetchBlocks(buf, nsamples, count, ntfs);
    rc := if ok then 0 else -1;
  }

  /** A parameter request that the baseband agent was asked, and whether it took effect. */
  datatype Call =
    | GetCall(name: string, ok: bool)
    | SetCall(name: string, v: int, ok: bool)
    | TxCall(req: Msg, ok: bool)

  /**
   * The integer parameters of the baseband agent as `npulses` reads and
   * writes them. Whether each request is honoured is decided from outside:
   * `refusals` holds one entry per coming request, consumed in order, and
   * requests beyond it are honoured. `log` records every request asked.
   */
  class Baseband {
    var values: map<string, int>
    var refusals: seq<bool>
    var log: seq<Call>

    constructor(values: map<string, int>, refusals: seq<bool>)
      ensures this.values == values && this.refusals == refusals && log == []
    {
      this.values := values;
      this.refusals := refusals;
      log := [];
    }

    /** A parameter's value; a parameter the agent does not report reads as 0 (the getter's default). */
    function Value(name: string): int
      reads this
    {
      ValueIn(values, name)
    }

    /** Takes the next entry of the refusal oracle. */
    method Next() returns (refused: bool)
      modifies this`refusals
      ensures refused == (|old(refusals)| > 0 && old(refusals)[0])
      ensures refusals == After(old(refusals), 1)
    {
      refused := |refusals| > 0 && refusals[0];
      if |refusals| > 0 {
        refusals := refusals[1..];
      }
    }

    /** `unetsocket_ext_iget` of a baseband parameter. */
    method Get(name: string) returns (ok: bool, v: int)
      modifies this`refusals, this`log
      ensures ok == !(|old(refusals)| > 0 && old(refusals)[0])
      ensures ok ==> v == Value(name)
      ensures log == old(log) + [GetCall(name, ok)]
      ensures refusals == After(old(refusals), 1)
    {
      var refused := Next();
      ok := !refused;
      v := if ok then Value(name) else 0;
      log := log + [GetCall(name, ok)];
    }

    /** `unetsocket_ext_iset` of a baseband parameter: the value changes only if honoured. */
    method Set(name: string, v: int) returns (ok: bool)
      modifies this
      ensures ok == !(|old(refusals)| > 0 && old(refusals)[0])
      ensures values == if ok then old(values)[name := v] else old(values)
      ensures log == old(log) + [SetCall(name, v, ok)]
      ensures refusals == After(old(refusals), 1)
    {
      var refused := Next();
      ok := !refused;
      if ok {
        values := values[name := v];
      }
      log := log + [SetCall(name, v, ok)];
    }

    /** The transmission request, agreed unless refused. */
    method Transmit(m: Msg) returns (ok: bool)
      modifies this`refusals, this`log
      ensures ok == !(|old(refusals)| > 0 && old(refusals)[0])
      ensures log == old(log) + [TxCall(m, ok)]
      ensures refusals == After(old(refusals), 1)
    {
      var refused := Next();
      ok := !refused;
      log := log + [TxCall(m, ok)];
    }
  }

  /** A parameter's value in `values`, 0 (the getter's default) when the agent does not report it. */
  function ValueIn(values: map<string, int>, name: string): int
  {
    if name in values then values[name] else 0
  }

  /** The agent refuses the `k`-th request still to come. */
  predicate Refused(refusals: seq<bool>, k: nat)
  {
    k < |refusals| && refusals[k]
  }

  /** The oracle once `n` requests have been answered from it. */
  function After(refusals: seq<bool>, n: nat): seq<bool>
  {
    if n <= |refusals| then refusals[n..] else []
  }

  /** The `k`-th request after `n` answered ones is the `(n + k)`-th of the whole oracle. */
  lemma RefusedAfter(refusals: seq<bool>, n: nat, k: nat)
    ensures Refused(After(refusals, n), k) == Refused(refusals, n + k)
  {
  }

  /** The oracle left after `n` requests and then `m` more is the oracle after `n + m`. */
  lemma AfterAfter(refusals: seq<bool>, n: nat, m: nat)
    ensures After(After(refusals, n), m) == After(refusals, n + m)
  {
  }

  /** The agent honours all four gets and sets of the first phase of `npulses`. */
  predicate ArmHonoured(refusals: seq<bool>)
  {
    forall k :: 0 <= k < 4 ==> !Refused(refusals, k)
  }

  /**
   * The requests of the first phase of `npulses` for a given refusal oracle:
   * the gets and sets in order up to the first refused one, then, once
   * "npulses" has been changed, the set that puts back its value `saved`.
   */
  function ArmCalls(refusals: seq<bool>, npulses: int, pulseDelay: int, saved: int): seq<Call>
  {
    var g, s := GetCall("npulses", true), SetCall("npulses", npulses, true);
    var gp := GetCall("pulsedelay", true);
    if Refused(refusals, 0) then [GetCall("npulses", false)]
    else if Refused(refusals, 1) then [g, SetCall("npulses", npulses, false)]
    else if Refused(refusals, 2) then
      [g, s, GetCall("pulsedelay", false), SetCall("npulses", saved, !Refused(refusals, 3))]
    else if Refused(refusals, 3) then
      [g, s, gp, SetCall("pulsedelay", pulseDelay, false), SetCall("npulses", saved, !Refused(refusals, 4))]
    else [g, s, gp, SetCall("pulsedelay", pulseDelay, true)]
  }

  /**
   * The first phase asks first for "npulses"; each later step is taken
   * exactly when every earlier one was honoured, and each step's outcome is
   * the agent's answer to it.
   */
  lemma ArmCallsSteps(refusals: seq<bool>, npulses: int, pulseDelay: int, saved: int)
    ensures var calls := ArmCalls(refusals, npulses, pulseDelay, saved);
      && |calls| >= 1 && calls[0] == GetCall("npulses", !Refused(refusals, 0))
      && (!Refused(refusals, 0) ==>
            |calls| >= 2 && calls[1] == SetCall("npulses", npulses, !Refused(refusals, 1)))
      && (!Refused(refusals, 0) && !Refused(refusals, 1) ==>
            |calls| >= 3 && calls[2] == GetCall("pulsedelay", !Refused(refusals, 2)))
      && (!Refused(refusals, 0) && !Refused(refusals, 1) && !Refused(refusals, 2) ==>
            |calls| >= 4 && calls[3] == SetCall("pulsedelay", pulseDelay, !Refused(refusals, 3)))
      && (ArmHonoured(refusals) <==> |calls| == 4 && forall i :: 0 <= i < 4 ==> calls[i].ok)
  {
  }

  /**
   * The baseband parameters after the first phase of `npulses`: unchanged
   * when "npulses" is not set, both new values when every step is
   * honoured, and otherwise "npulses" set and then put back, unless the
   * agent refuses that too.
   */
  function ArmValues(refusals: seq<bool>, values: map<string, int>, npulses: int, pulseDelay: int): map<string, int>
  {
    var saved := ValueIn(values, "npulses");
    var changed := values["npulses" := npulses];
    if Refused(refusals, 0) || Refused(refusals, 1) then values
    else if Refused(refusals, 2) then (if Refused(refusals, 3) then changed else changed["npulses" := saved])
    else if Refused(refusals, 3) then (if Refused(refusals, 4) then changed else changed["npulses" := saved])
    else changed["pulsedelay" := pulseDelay]
  }

  /**
   * What the first phase of `npulses` promises: it never transmits; on
   * success it made the four requests and holds both new values; on
   * failure its last request puts "npulses" back once it was changed, no
   * other parameter changes, and both are as before when the agent
   * honours that restore.
   */
  lemma {:induction false} ArmOutcome(refusals: seq<bool>, values: map<string, int>, npulses: int, pulseDelay: int)
    ensures var calls := ArmCalls(refusals, npulses, pulseDelay, ValueIn(values, "npulses"));
      var after := ArmValues(refusals, values, npulses, pulseDelay);
      && !Transmitted(calls)
      && (ArmHonoured(refusals) ==>
            && calls == [GetCall("npulses", true), SetCall("npulses", npulses, true),
                         GetCall("pulsedelay", true), SetCall("pulsedelay", pulseDelay, true)]
            && after == values["npulses" := npulses]["pulsedelay" := pulseDelay])
      && (!ArmHonoured(refusals) && SetCall("npulses", npulses, true) in calls ==>
            calls[|calls| - 1] == SetCall("npulses", ValueIn(values, "npulses"), calls[|calls| - 1].ok))
      && (!ArmHonoured(refusals) ==> forall name :: !Saved(name) ==> ValueIn(after, name) == ValueIn(values, name))
      && (!ArmHonoured(refusals) && RestoresHonoured(calls, values) ==>
            ValueIn(after, "npulses") == ValueIn(values, "npulses")
            && ValueIn(after, "pulsedelay") == ValueIn(values, "pulsedelay"))
  {
    var calls := ArmCalls(refusals, npulses, pulseDelay, ValueIn(values, "npulses"));
    ArmCallsSteps(refusals, npulses, pulseDelay, ValueIn(values, "npulses"));
    if !ArmHonoured(refusals) && !Refused(refusals, 0) && !Refused(refusals, 1) {
      // "npulses" was set, so the last request is the restore
      var last := calls[|calls| - 1];
      assert last.SetCall? && Saved(last.name) && last.v == ValueIn(values, "npulses");
    }
  }

  /** The parameters `npulses` changes for the duration of the transmission. */
  predicate Saved(name: string)
  {
    name == "npulses" || name == "pulsedelay"
  }

  /** Whether the calls include a transmission. */
  predicate Transmitted(calls: seq<Call>)
  {
    exists i :: 0 <= i < |calls| && calls[i].TxCall?
  }

  /** Every set that puts a saved parameter back to its value in `before` was honoured. */
  predicate RestoresHonoured(calls: seq<Call>, before: map<string, int>)
  {
    forall i :: (0 <= i < |calls| && calls[i].SetCall? && Saved(calls[i].name)
                 && calls[i].v == (if calls[i].name in before then before[calls[i].name] else 0)) ==> calls[i].ok
  }

  /** `unetsocket_ext_npulses` refuses a NULL socket, a negative length, or missing samples. */
  predicate NPulsesRejects(sock: bool, signal: Option<seq<real>>, nsamples: int)
  {
    !sock || nsamples < 0 || (nsamples > 0 && signal.None?)
  }

  /**
   * The first phase of `unetsocket_ext_npulses`: reads "npulses", sets it,
   * reads "pulsedelay", sets it. When a step fails, "npulses" is put back
   * if it was changed, and the phase reports failure; on success it returns
   * the two values read, to be restored after the transmission.
   */
  method Arm(bb: Baseband, npulses: int, pulseDelay: int)
    returns (ok: bool, npulsesCache: int, pulsedelayCache: int, ghost calls: seq<Call>)
    modifies bb
    ensures bb.log == old(bb.log) + calls
    ensures !Transmitted(calls)
    ensures ok == ArmHonoured(old(bb.refusals))
    ensures calls == ArmCalls(old(bb.refusals), npulses, pulseDelay, old(bb.Value("npulses")))
    ensures ok ==> bb.refusals == After(old(bb.refusals), 4)
    ensures ok ==>
      && calls == [GetCall("npulses", true), SetCall("npulses", npulses, true),
                   GetCall("pulsedelay", true), SetCall("pulsedelay", pulseDelay, true)]
      && npulsesCache == old(bb.Value("npulses")) && pulsedelayCache == old(bb.Value("pulsedelay"))
      && bb.values == old(bb.values)["npulses" := npulses]["pulsedelay" := pulseDelay]
    ensures !ok && SetCall("npulses", npulses, true) in calls ==>
      calls[|calls| - 1] == SetCall("npulses", old(bb.Value("npulses")), calls[|calls| - 1].ok)
    ensures !ok ==> forall name :: !Saved(name) ==> bb.Value(name) == old(bb.Value(name))
    ensures !ok && RestoresHonoured(calls, old(bb.values)) ==>
      bb.Value("npulses") == old(bb.Value("npulses")) && bb.Value("pulsedelay") == old(bb.Value("pulsedelay"))
    ensures bb.values == ArmValues(old(bb.refusals), old(bb.values), npulses, pulseDelay)
  {
    ArmOutcome(bb.refusals, bb.values, npulses, pulseDelay);
    ok, npulsesCache, pulsedelayCache, calls := ArmSteps(bb, npulses, pulseDelay);
  }

  /** The steps of `Arm`, each stated by the specification functions of the first phase. */
  method ArmSteps(bb: Baseband, npulses: int, pulseDelay: int)
    returns (ok: bool, npulsesCache: int, pulsedelayCache: int, ghost calls: seq<Call>)
    modifies bb
    ensures bb.log == old(bb.log) + calls
    ensures ok == ArmHonoured(old(bb.refusals))
    ensures calls == ArmCalls(old(bb.refusals), npulses, pulseDelay, old(bb.Value("npulses")))
    ensures bb.values == ArmValues(old(bb.refusals), old(bb.values), npulses, pulseDelay)
    ensures ok ==> bb.refusals == After(old(bb.refusals), 4)
    ensures ok ==> npulsesCache == old(bb.Value("npulses")) && pulsedelayCache == old(bb.Value("pulsedelay"))
  {
    ghost var r0 := bb.refusals;
    ghost var calls1, calls2;
    ok, npulsesCache, calls1 := GetThenSet(bb, "npulses", npulses);
    calls := calls1;
    pulsedelayCache := 0;
    if !ok {
      return;
    }
    RefusedAfter(r0, 2, 0);
    RefusedAfter(r0, 2, 1);
    RefusedAfter(r0, 2, 2);
    ok, pulsedelayCache, calls2 := ArmPulseDelay(bb, pulseDelay, npulsesCache);
    calls := calls + calls2;
    if ok {
      assert After(After(r0, 2), 2) == After(r0, 4);
    }
  }

  /**
   * The second half of `Arm`, once "npulses" is set: reads and sets
   * "pulsedelay", and when either is refused puts "npulses" back to
   * `npulsesCache` (the `||` of the source).
   */
  method ArmPulseDelay(bb: Baseband, pulseDelay: int, npulsesCache: int)
    returns (ok: bool, pulsedelayCache: int, ghost calls: seq<Call>)
    modifies bb
    ensures bb.log == old(bb.log) + calls
    ensures ok == (!Refused(old(bb.refusals), 0) && !Refused(old(bb.refusals), 1))
    ensures calls ==
      if Refused(old(bb.refusals), 0) then
        [GetCall("pulsedelay", false), SetCall("npulses", npulsesCache, !Refused(old(bb.refusals), 1))]
      else if Refused(old(bb.refusals), 1) then
        [GetCall("pulsedelay", true), SetCall("pulsedelay", pulseDelay, false),
         SetCall("npulses", npulsesCache, !Refused(old(bb.refusals), 2))]
      else [GetCall("pulsedelay", true), SetCall("pulsedelay", pulseDelay, true)]
    ensures !Refused(old(bb.refusals), 0) ==> pulsedelayCache == old(bb.Value("pulsedelay"))
    ensures bb.refusals == After(old(bb.refusals), |calls|)
    ensures bb.values ==
      if ok then old(bb.values)["pulsedelay" := pulseDelay]
      else if Refused(old(bb.refusals), |calls| - 1) then old(bb.values)
      else old(bb.values)["npulses" := npulsesCache]
  {
    ghost var r0 := bb.refusals;
    ghost var calls1;
    ok, pulsedelayCache, calls1 := GetThenSet(bb, "pulsedelay", pulseDelay);
    calls := calls1;
    if !ok {
      RefusedAfter(r0, |calls1|, 0);
      var restored := bb.Set("npulses", npulsesCache);
      calls := calls + [SetCall("npulses", npulsesCache, restored)];
      AfterAfter(r0, |calls1|, 1);
    }
  }

  /**
   * `unetsocket_ext_iget(…) < 0 || unetsocket_ext_iset(…) < 0` on one
   * parameter: reads it and, when the read is honoured, sets it to `v`;
   * `ok` is whether both were honoured, and `cache` the value read.
   */
  method GetThenSet(bb: Baseband, name: string, v: int) returns (ok: bool, cache: int, ghost calls: seq<Call>)
    modifies bb
    ensures bb.log == old(bb.log) + calls
    ensures calls == if Refused(old(bb.refusals), 0) then [GetCall(name, false)]
                     else [GetCall(name, true), SetCall(name, v, !Refused(old(bb.refusals), 1))]
    ensures ok == (!Refused(old(bb.refusals), 0) && !Refused(old(bb.refusals), 1))
    ensures !Refused(old(bb.refusals), 0) ==> cache == old(bb.Value(name))
    ensures bb.refusals == After(old(bb.refusals), |calls|)
    ensures bb.values == if ok then old(bb.values)[name := v] else old(bb.values)
  {
    ghost var r0 := bb.refusals;
    ok, cache := bb.Get(name);
    calls := [GetCall(name, ok)];
    if ok {
      RefusedAfter(r0, 1, 0);
      AfterAfter(r0, 1, 1);
      ok := bb.Set(name, v);
      calls := calls + [SetCall(name, v, ok)];
    }
  }

  /**
   * `unetsocket_ext_npulses`: transmits the signal `npulses` times, `pri`
   * ms apart, by setting the baseband agent's "npulses" and "pulsedelay"
   * for one transmission and then putting back the values read before.
   * `signalDuration` (ms) and `pulseDelay` are the floating-point results
   * computed from the sampling rate. The TxFrameNtf awaited after an
   * agreeing reply does not affect the result.
   */
  method NPulses(sock: bool, signal: Option<seq<real>>, nsamples: int, npulses: int, pri: int,
                 signalDuration: real, pulseDelay: int, agentFor: string -> Option<AgentId>, bb: Baseband)
    returns (rc: int, ghost calls: seq<Call>)
    requires signal.Some? && nsamples >= 0 ==> nsamples <= |signal.value|
    modifies bb
    ensures bb.log == old(bb.log) + calls
    ensures NPulsesRejects(sock, signal, nsamples) || (pri as real) < signalDuration + 5.0 ==>
      rc == -1 && calls == [] && bb.values == old(bb.values)
    ensures Transmitted(calls) ==>
      && |calls| == 7
      && calls[..4] == [GetCall("npulses", true), SetCall("npulses", npulses, true),
                        GetCall("pulsedelay", true), SetCall("pulsedelay", pulseDelay, true)]
      && calls[4].TxCall?
      && Field(calls[4].req, "fc") == Some(FloatV(0.0))
      && calls[4].req.recipient == agentFor(BASEBAND_SERVICE)
      && calls[5] == SetCall("npulses", old(bb.Value("npulses")), calls[5].ok)
      && calls[6] == SetCall("pulsedelay", old(bb.Value("pulsedelay")), calls[6].ok)
    ensures SetCall("npulses", npulses, true) in calls && !Transmitted(calls) ==>
      calls[|calls| - 1] == SetCall("npulses", old(bb.Value("npulses")), calls[|calls| - 1].ok)
    ensures rc == 0 <==> Transmitted(calls) && calls[4].ok
    ensures rc == 0 || rc == -1
    ensures !NPulsesRejects(sock, signal, nsamples) && (pri as real) >= signalDuration + 5.0 ==>
      (Transmitted(calls) <==> ArmHonoured(old(bb.refusals)))
      && (!Transmitted(calls) ==> calls == ArmCalls(old(bb.refusals), npulses, pulseDelay, old(bb.Value("npulses"))))
    ensures rc == 0 <==>
      !NPulsesRejects(sock, signal, nsamples) && (pri as real) >= signalDuration + 5.0
      && ArmHonoured(old(bb.refusals)) && !Refused(old(bb.refusals), 4)
    ensures Transmitted(calls) ==> calls[5].ok == !Refused(old(bb.refusals), 5) && calls[6].ok == !Refused(old(bb.refusals), 6)
    ensures forall name :: !Saved(name) ==> bb.Value(name) == old(bb.Value(name))
    ensures RestoresHonoured(calls, old(bb.values)) ==>
      bb.Value("npulses") == old(bb.Value("npulses")) && bb.Value("pulsedelay") == old(bb.Value("pulsedelay"))
  {
    calls := [];
    if !sock || nsamples < 0 || (nsamples > 0 && signal.None?) {
      return -1, calls;
    }
    if (pri as real) < signalDuration + 5.0 {
      return -1, calls;
    }
    var m := PulseRequest(signal, nsamples, agentFor(BASEBAND_SERVICE));
    PulsesOutcome(bb.refusals, bb.values, npulses, pulseDelay, m);
    rc, calls := Pulses(bb, m, npulses, pulseDelay);
  }

  /**
   * The requests of `npulses` once its checks pass: the first phase and,
   * when it succeeds, the transmission of `m` and the two restores of the
   * values `saved` and `savedDelay` read before.
   */
  function PulsesCalls(refusals: seq<bool>, npulses: int, pulseDelay: int, saved: int, savedDelay: int, m: Msg): seq<Call>
  {
    var armed := ArmCalls(refusals, npulses, pulseDelay, saved);
    if !ArmHonoured(refusals) then armed
    else armed + [TxCall(m, !Refused(refusals, 4)), SetCall("npulses", saved, !Refused(refusals, 5)),
                  SetCall("pulsedelay", savedDelay, !Refused(refusals, 6))]
  }

  /** The baseband parameters after `npulses` once its checks pass: each restore the agent honours puts a value back. */
  function PulsesValues(refusals: seq<bool>, values: map<string, int>, npulses: int, pulseDelay: int): map<string, int>
  {
    var armed := ArmValues(refusals, values, npulses, pulseDelay);
    if !ArmHonoured(refusals) then armed
    else
      var first := if Refused(refusals, 5) then armed else armed["npulses" := ValueIn(values, "npulses")];
      if Refused(refusals, 6) then first else first["pulsedelay" := ValueIn(values, "pulsedelay")]
  }

  /**
   * What `npulses` promises once its checks pass: it transmits exactly when
   * the first phase is honoured, and then makes seven requests ending with
   * the two restores; otherwise its requests are those of the first phase.
   * No other parameter changes, and both are as before when the agent
   * honours every restore.
   */
  lemma {:induction false} PulsesOutcome(refusals: seq<bool>, values: map<string, int>, npulses: int, pulseDelay: int, m: Msg)
    ensures var saved, savedDelay := ValueIn(values, "npulses"), ValueIn(values, "pulsedelay");
      var calls := PulsesCalls(refusals, npulses, pulseDelay, saved, savedDelay, m);
      var after := PulsesValues(refusals, values, npulses, pulseDelay);
      && (Transmitted(calls) <==> ArmHonoured(refusals))
      && (Transmitted(calls) ==>
            && |calls| == 7
            && calls[..4] == [GetCall("npulses", true), SetCall("npulses", npulses, true),
                              GetCall("pulsedelay", true), SetCall("pulsedelay", pulseDelay, true)]
            && calls[4] == TxCall(m, !Refused(refusals, 4))
            && calls[5] == SetCall("npulses", saved, !Refused(refusals, 5))
            && calls[6] == SetCall("pulsedelay", savedDelay, !Refused(refusals, 6)))
      && (!Transmitted(calls) ==> calls == ArmCalls(refusals, npulses, pulseDelay, saved))
      && (SetCall("npulses", npulses, true) in calls && !Transmitted(calls) ==>
            calls[|calls| - 1] == SetCall("npulses", saved, calls[|calls| - 1].ok))
      && (forall name :: !Saved(name) ==> ValueIn(after, name) == ValueIn(values, name))
      && (RestoresHonoured(calls, values) ==>
            ValueIn(after, "npulses") == saved && ValueIn(after, "pulsedelay") == savedDelay)
  {
    var saved, savedDelay := ValueIn(values, "npulses"), ValueIn(values, "pulsedelay");
    var calls := PulsesCalls(refusals, npulses, pulseDelay, saved, savedDelay, m);
    ArmOutcome(refusals, values, npulses, pulseDelay);
    if ArmHonoured(refusals) {
      assert calls[4].TxCall?;
      assert calls[5].SetCall? && Saved(calls[5].name) && calls[6].SetCall? && Saved(calls[6].name);
    }
  }

  /** The requests of `npulses` once its checks pass, each stated by `PulsesCalls` and `PulsesValues`. */
  method Pulses(bb: Baseband, m: Msg, npulses: int, pulseDelay: int) returns (rc: int, ghost calls: seq<Call>)
    modifies bb
    ensures bb.log == old(bb.log) + calls
    ensures calls == PulsesCalls(old(bb.refusals), npulses, pulseDelay, old(bb.Value("npulses")), old(bb.Value("pulsedelay")), m)
    ensures bb.values == PulsesValues(old(bb.refusals), old(bb.values), npulses, pulseDelay)
    ensures rc == if ArmHonoured(old(bb.refusals)) && !Refused(old(bb.refusals), 4) then 0 else -1
  {
    ghost var r0 := bb.refusals;
    var ok, npulsesCache, pulsedelayCache;
    ok, npulsesCache, pulsedelayCache, calls := Arm(bb, npulses, pulseDelay);
    if !ok {
      return -1, calls;
    }
    RefusedAfter(r0, 4, 0);
    RefusedAfter(r0, 4, 1);
    RefusedAfter(r0, 4, 2);
    var agreed, tail := TransmitAndRestore(bb, m, npulsesCache, pulsedelayCache);
    calls := calls + tail;
    rc := if agreed then 0 else -1;
  }

  /**
   * The TxBasebandSignalReq of `npulses`: carrier frequency 0 and, when a
   * signal is given, its first `nsamples` samples.
   */
  function PulseRequest(signal: Option<seq<real>>, nsamples: nat, recipient: Option<AgentId>): (m: Msg)
    requires signal.Some? ==> nsamples <= |signal.value|
    ensures m.clazz == TxBasebandSignalReq && m.perf == REQUEST && m.recipient == recipient
    ensures Field(m, "fc") == Some(FloatV(0.0))
    ensures Field(m, "signal") == if signal.Some? then Some(FloatsV(signal.value[..nsamples])) else None
  {
    var fc := [("fc", FloatV(0.0))];
    var m := Msg(TxBasebandSignalReq, REQUEST, recipient,
                 if signal.Some? then fc + [("signal", FloatsV(signal.value[..nsamples]))] else fc);
    FieldAt(m, "fc", 0);
    if signal.Some? then FieldAt(m, "signal", 1); m else m
  }

  /**
   * The second phase of `unetsocket_ext_npulses`: the transmission request,
   * then "npulses" and "pulsedelay" put back to the saved values whatever
   * the transmission's outcome.
   */
  method TransmitAndRestore(bb: Baseband, m: Msg, npulsesCache: int, pulsedelayCache: int)
    returns (agreed: bool, ghost tail: seq<Call>)
    modifies bb
    ensures |tail| == 3
    ensures tail == [TxCall(m, agreed), SetCall("npulses", npulsesCache, tail[1].ok),
                     SetCall("pulsedelay", pulsedelayCache, tail[2].ok)]
    ensures bb.log == old(bb.log) + tail
    ensures forall k: nat :: k < 3 ==> tail[k].ok == !Refused(old(bb.refusals), k)
    ensures forall name :: !Saved(name) ==> bb.Value(name) == old(bb.Value(name))
    ensures tail[1].ok ==> bb.Value("npulses") == npulsesCache
    ensures tail[2].ok ==> bb.Value("pulsedelay") == pulsedelayCache
    ensures !tail[1].ok ==> bb.Value("npulses") == old(bb.Value("npulses"))
    ensures !tail[2].ok ==> bb.Value("pulsedelay") == old(bb.Value("pulsedelay"))
    ensures bb.values ==
      var first := if tail[1].ok then old(bb.values)["npulses" := npulsesCache] else old(bb.values);
      if tail[2].ok then first["pulsedelay" := pulsedelayCache] else first
  {
    ghost var r0 := bb.refusals;
    agreed := bb.Transmit(m);
    RefusedAfter(r0, 1, 0);
    AfterAfter(r0, 1, 1);
    var r5 := bb.Set("npulses", npulsesCache);
    RefusedAfter(r0, 2, 0);
    AfterAfter(r0, 2, 1);
    var r6 := bb.Set("pulsedelay", pulsedelayCache);
    tail := [TxCall(m, agreed), SetCall("npulses", npulsesCache, r5), SetCall("pulsedelay", pulsedelayCache, r6)];
  }
}
