/**
 * The datagram socket of the contributed Python API (`Unet-Python-API`).
 *
 * It differs from the `unetpy` socket in two places: `send` without a
 * destination does not check that the socket is connected, and `receive`
 * computes a deadline once, passes the time remaining to every gateway call,
 * and stops when the wait is cancelled. The gateway's answers, the clock and
 * cancellation are parameters.
 */
module PyApiSocket {
  import opened Wrappers
  import opened Datagram
  import PySocket

  type Payload = PySocket.Payload
  type Outcome = PySocket.Outcome

  /** The cases in which `send` refuses bytes: an explicit reserved protocol. */
  predicate RejectsBytes(data: Payload, to: Option<int>, protocol: Option<int>)
  {
    data.Bytes? && to.Some? && protocol.Some? && !ValidProtocol(protocol.value)
  }

  /** The request `send` hands on to provider selection, or None when it returns False first. */
  function PrepareSend(data: Payload, to: Option<int>, protocol: Option<int>,
                       remoteAddress: int, remoteProtocol: int): (r: Option<DatagramReq>)
    ensures r.None? <==> RejectsBytes(data, to, protocol)
    ensures data.Msg? ==> r == Some(data.req)
    ensures r.Some? && data.Bytes? ==> r.value.data == data.bytes && r.value.recipient.None?
    ensures r.Some? && data.Bytes? && to.None? && protocol.None? ==>
      r.value.to == Some(remoteAddress) && r.value.protocol == Some(remoteProtocol)
  {
    match data
    case Msg(req) => Some(req)
    case Bytes(b) =>
      if to.None? && protocol.None? then
        Some(DatagramReq(b, Some(remoteAddress), Some(remoteProtocol), None))
      else if to.Some? && protocol.None? then
        Some(DatagramReq(b, to, Some(remoteProtocol), None))
      else if to.Some? then
        if !ValidProtocol(protocol.value) then None
        else Some(DatagramReq(b, to, protocol, None))
      else
        Some(DatagramReq(b, None, None, None))
  }

  /**
   * Both Python sockets build the same request, except that this one also
   * sends from an unconnected socket, to its default address -1.
   */
  lemma SameRequestAsUnetpy(data: Payload, to: Option<int>, protocol: Option<int>,
                            remoteAddress: int, remoteProtocol: int)
    ensures remoteAddress >= 0 || !(data.Bytes? && to.None? && protocol.None?) ==>
      PrepareSend(data, to, protocol, remoteAddress, remoteProtocol)
      == PySocket.PrepareSend(data, to, protocol, remoteAddress, remoteProtocol)
    ensures remoteAddress < 0 && data.Bytes? && to.None? && protocol.None? ==>
      PySocket.PrepareSend(data, to, protocol, remoteAddress, remoteProtocol).None?
      && PrepareSend(data, to, protocol, remoteAddress, remoteProtocol).value.to == Some(remoteAddress)
  {
  }

  /** One round of the reception loop: the clock, whether the wait was cancelled, and the gateway's answer. */
  datatype Round = Round(now: int, cancelled: bool, answer: Option<Ntf>)

  /** The time passed to the gateway: 0 when non-blocking, what is left before the deadline, or -1 (forever). */
  function Remaining(timeout: int, deadline: int, now: int): int
  {
    if timeout == 0 then 0 else if timeout > 0 then deadline - now else -1
  }

  /** The round asks the gateway: not cancelled, and for a positive timeout some time is left. */
  predicate Asks(timeout: int, deadline: int, r: Round)
  {
    !r.cancelled && !(timeout > 0 && Remaining(timeout, deadline, r.now) <= 0)
  }

  /** A round the loop passes over: it asked, got a notification, and the socket does not accept it. */
  predicate Discarded(localProtocol: int, timeout: int, deadline: int, r: Round)
  {
    Asks(timeout, deadline, r) && r.answer.Some? && !Accepts(localProtocol, r.answer.value)
  }

  /** How one round that is not discarded ends the reception. */
  function Settle(localProtocol: int, timeout: int, deadline: int, r: Round): Outcome
  {
    if Asks(timeout, deadline, r) && r.answer.Some? && Accepts(localProtocol, r.answer.value)
    then PySocket.Delivered(r.answer.value)
    else PySocket.NoneReturned
  }

  /** The outcome of the reception loop over `rounds`, with the deadline fixed at the call. */
  function ReceiveOutcome(localProtocol: int, timeout: int, deadline: int, rounds: seq<Round>): (r: Outcome)
    ensures r.Delivered? ==> Accepts(localProtocol, r.ntf)
    ensures r.Unfinished? ==> forall j :: 0 <= j < |rounds| ==> Discarded(localProtocol, timeout, deadline, rounds[j])
  {
    if rounds == [] then PySocket.Unfinished
    else if Discarded(localProtocol, timeout, deadline, rounds[0]) then
      var r := ReceiveOutcome(localProtocol, timeout, deadline, rounds[1..]);
      assert forall j :: 0 < j < |rounds| ==> rounds[j] == rounds[1..][j - 1];
      r
    else Settle(localProtocol, timeout, deadline, rounds[0])
  }

  /** The loop drops every round before the first that is not discarded, and that round decides. */
  lemma {:induction false} ReceiveStopsAtFirstKept(localProtocol: int, timeout: int, deadline: int,
                                                  rounds: seq<Round>, i: nat)
    requires i < |rounds| && !Discarded(localProtocol, timeout, deadline, rounds[i])
    requires forall j :: 0 <= j < i ==> Discarded(localProtocol, timeout, deadline, rounds[j])
    ensures ReceiveOutcome(localProtocol, timeout, deadline, rounds) == Settle(localProtocol, timeout, deadline, rounds[i])
  {
    if i > 0 {
      assert Discarded(localProtocol, timeout, deadline, rounds[0]);
      assert forall j :: 0 <= j < i - 1 ==> rounds[1..][j] == rounds[j + 1];
      ReceiveStopsAtFirstKept(localProtocol, timeout, deadline, rounds[1..], i - 1);
    }
  }

  class UnetSocket {
    var closed: bool
    var localProtocol: int
    var remoteAddress: int
    var remoteProtocol: int
    var timeout: int
    var provider: Option<AgentId>

    predicate Valid()
      reads this
    {
      (localProtocol == -1 || ValidProtocol(localProtocol)) && ValidProtocol(remoteProtocol) && timeout >= -1
    }

    /** A new socket: open, unbound, unconnected, blocking forever, no provider yet. */
    constructor ()
      ensures Valid() && !closed
      ensures localProtocol == -1 && remoteAddress == -1 && remoteProtocol == DATA
      ensures timeout == -1 && provider.None?
    {
      closed := false;
      localProtocol := -1;
      remoteAddress := -1;
      remoteProtocol := 0;
      timeout := -1;
      provider := None;
    }

    method Bind(protocol: int) returns (ok: bool)
      requires Valid()
      modifies this`localProtocol
      ensures Valid()
      ensures ok == ValidProtocol(protocol)
      ensures localProtocol == if ok then protocol else old(localProtocol)
    {
      if protocol == DATA || (protocol >= USER && protocol <= MAX) {
        localProtocol := protocol;
        return true;
      }
      return false;
    }

    method Connect(to: int, protocol: int) returns (ok: bool)
      requires Valid()
      modifies this`remoteAddress, this`remoteProtocol
      ensures Valid()
      ensures ok == (to >= 0 && ValidProtocol(protocol))
      ensures ok ==> remoteAddress == to && remoteProtocol == protocol
      ensures !ok ==> remoteAddress == old(remoteAddress) && remoteProtocol == old(remoteProtocol)
    {
      if to >= 0 && (protocol == DATA || (protocol >= USER && protocol <= MAX)) {
        remoteAddress := to;
        remoteProtocol := protocol;
        return true;
      }
      return false;
    }

    /** `disconnnect` (so spelled in the source): back to no default destination and protocol DATA. */
    method Disconnnect()
      requires Valid()
      modifies this`remoteAddress, this`remoteProtocol
      ensures Valid() && remoteAddress == -1 && remoteProtocol == DATA
    {
      remoteAddress := -1;
      remoteProtocol := 0;
    }

    /** Sets the reception timeout; any negative value becomes -1 (block forever). */
    method SetTimeout(ms: int)
      requires Valid()
      modifies this`timeout
      ensures Valid()
      ensures ms >= 0 ==> timeout == ms
      ensures ms < 0 ==> timeout == -1
    {
      var t := ms;
      if t < 0 {
        t := -1;
      }
      timeout := t;
    }

    /**
     * Sends a datagram: None on a closed socket, otherwise True exactly when a
     * request was issued and answered with AGREE.
     */
    method Send(data: Payload, to: Option<int>, protocol: Option<int>,
                agentFor: Service -> Option<AgentId>, rsp: Option<Performative>)
      returns (r: Option<bool>, issued: Option<DatagramReq>)
      requires Valid()
      modifies this`provider
      ensures Valid()
      ensures closed ==> r.None? && issued.None? && provider == old(provider)
      ensures !closed ==> r == Some(issued.Some? && rsp == Some(AGREE))
      ensures issued.Some? ==> issued.value.recipient.Some?
      ensures !closed && PrepareSend(data, to, protocol, remoteAddress, remoteProtocol).None? ==>
        issued.None? && provider == old(provider)
      ensures
        var prep := PrepareSend(data, to, protocol, remoteAddress, remoteProtocol);
        !closed && prep.Some? && prep.value.recipient.Some? ==> issued == prep && provider == old(provider)
      ensures
        var prep := PrepareSend(data, to, protocol, remoteAddress, remoteProtocol);
        !closed && prep.Some? && prep.value.recipient.None? ==>
          provider == (if old(provider).Some? then old(provider) else FirstProvider(agentFor, ProviderOrder))
          && issued == (if provider.Some? then Some(prep.value.(recipient := provider)) else None)
    {
      if closed {
        return None, None;
      }
      var req := PrepareSend(data, to, protocol, remoteAddress, remoteProtocol);
      if req.None? {
        return Some(false), None;
      }
      var q := req.value;
      if q.recipient.None? {
        provider := FindProvider(provider, agentFor);
        if provider.None? {
          return Some(false), None;
        }
        q := q.(recipient := provider);
      }
      issued := Some(q);
      r := Some(rsp == Some(AGREE));
    }

    /**
     * Receives a datagram. The deadline is the clock `t0` at the call plus
     * the timeout; each round stops on cancellation or, for a positive
     * timeout, once no time is left, and otherwise asks the gateway with the
     * time remaining. `waits` are the times passed to the gateway.
     */
    method Receive(t0: int, rounds: seq<Round>) returns (r: Outcome, waits: seq<int>)
      ensures closed ==> r == PySocket.NoneReturned && waits == []
      ensures !closed ==> r == ReceiveOutcome(localProtocol, timeout, t0 + timeout, rounds)
      ensures |waits| <= |rounds|
      ensures forall k :: 0 <= k < |waits| ==> waits[k] == Remaining(timeout, t0 + timeout, rounds[k].now)
      ensures forall k :: 0 <= k < |waits| ==> if timeout > 0 then waits[k] > 0 else waits[k] == (if timeout == 0 then 0 else -1)
    {
      waits := [];
      if closed {
        return PySocket.NoneReturned, waits;
      }
      var deadline := -1;
      if timeout == 0 {
        deadline := 0;
      } else if timeout > 0 {
        deadline := t0 + timeout;
      }
      var i := 0;
      while i < |rounds|
        invariant 0 <= i <= |rounds| && |waits| == i
        invariant timeout > 0 ==> deadline == t0 + timeout
        invariant ReceiveOutcome(localProtocol, timeout, t0 + timeout, rounds)
                  == ReceiveOutcome(localProtocol, timeout, t0 + timeout, rounds[i..])
        invariant forall k :: 0 <= k < i ==> waits[k] == Remaining(timeout, t0 + timeout, rounds[k].now)
        invariant forall k :: 0 <= k < i ==> if timeout > 0 then waits[k] > 0 else waits[k] == (if timeout == 0 then 0 else -1)
      {
        assert rounds[i..][1..] == rounds[i + 1..];
        if rounds[i].cancelled {
          return PySocket.NoneReturned, waits;
        }
        var timeRemaining := -1;
        if timeout == 0 {
          timeRemaining := 0;
        } else if timeout > 0 {
          timeRemaining := deadline - rounds[i].now;
          if timeRemaining <= 0 {
            return PySocket.NoneReturned, waits;
          }
        }
        waits := waits + [timeRemaining];
        var ntf := rounds[i].answer;
        if ntf.None? {
          return PySocket.NoneReturned, waits;
        }
        var p := ntf.value.protocol;
        if ntf.value.clazz == DatagramNtf || ntf.value.clazz == RxFrameNtf {
          if p == DATA || p >= USER {
            if localProtocol < 0 {
              return PySocket.Delivered(ntf.value), waits;
            }
            if localProtocol == p {
              return PySocket.Delivered(ntf.value), waits;
            }
          }
        }
        i := i + 1;
      }
      return PySocket.Unfinished, waits;
    }
  }
}
