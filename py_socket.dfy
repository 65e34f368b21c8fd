/**
 * The Python datagram socket of the `unetpy` package (`UnetSocket`).
 *
 * Unlike the JavaScript socket, a negative timeout means "block forever" and
 * is stored as -1, `send` checks the protocol only when both destination and
 * protocol are given, and `receive` is a loop that asks the gateway for one
 * notification at a time and drops those the socket does not accept. The
 * gateway's answers, the clock and service lookups are parameters.
 */
module PySocket {
  import opened Wrappers
  import opened Datagram

  /** `send` is given either bytes (a list, a `bytes` value or a string already encoded) or a ready message. */
  datatype Payload = Bytes(bytes: seq<int>) | Msg(req: DatagramReq)

  /** The cases in which `send` refuses bytes: no destination at all, or an explicit reserved protocol. */
  predicate RejectsBytes(data: Payload, to: Option<int>, protocol: Option<int>, remoteAddress: int)
  {
    data.Bytes? &&
    ((to.None? && protocol.None? && remoteAddress < 0) ||
     (to.Some? && protocol.Some? && !ValidProtocol(protocol.value)))
  }

  /**
   * The request `send` hands on to provider selection, or None when it
   * returns False first. Bytes are addressed by the cases on which of `to`
   * and `protocol` the caller gave; a ready message is taken as it is.
   */
  function PrepareSend(data: Payload, to: Option<int>, protocol: Option<int>,
                       remoteAddress: int, remoteProtocol: int): (r: Option<DatagramReq>)
    ensures r.None? <==> RejectsBytes(data, to, protocol, remoteAddress)
    ensures data.Msg? ==> r == Some(data.req)
    ensures r.Some? && data.Bytes? ==> r.value.data == data.bytes && r.value.recipient.None?
    ensures r.Some? && data.Bytes? && to.Some? ==> r.value.to == to
    ensures r.Some? && data.Bytes? && to.None? && protocol.None? ==>
      r.value.to == Some(remoteAddress) && r.value.protocol == Some(remoteProtocol)
    ensures r.Some? && data.Bytes? && to.Some? ==>
      r.value.protocol == if protocol.Some? then protocol else Some(remoteProtocol)
    ensures r.Some? && data.Bytes? && to.None? && protocol.Some? ==>
      r.value.to.None? && r.value.protocol.None?
  {
    match data
    case Msg(req) => Some(req)
    case Bytes(b) =>
      if to.None? && protocol.None? then
        if remoteAddress < 0 then None
        else Some(DatagramReq(b, Some(remoteAddress), Some(remoteProtocol), None))
      else if to.Some? && protocol.None? then
        Some(DatagramReq(b, to, Some(remoteProtocol), None))
      else if to.Some? then
        if !ValidProtocol(protocol.value) then None
        else Some(DatagramReq(b, to, protocol, None))
      else
        Some(DatagramReq(b, None, None, None))
  }

  /**
   * As long as the default protocol is valid (which `connect` ensures), bytes
   * never leave on a reserved protocol, although only an explicit protocol is
   * checked.
   */
  lemma BytesNeverOnReservedProtocol(b: seq<int>, to: Option<int>, protocol: Option<int>,
                                     remoteAddress: int, remoteProtocol: int)
    requires ValidProtocol(remoteProtocol)
    ensures var r := PrepareSend(Bytes(b), to, protocol, remoteAddress, remoteProtocol);
      r.Some? && r.value.protocol.Some? ==> ValidProtocol(r.value.protocol.value)
  {
  }

  /** One round of the reception loop: the time elapsed when the loop test ran, and the gateway's answer. */
  datatype Poll = Poll(elapsed: int, answer: Option<Ntf>)

  /**
   * How a reception ends: a notification, None, or still waiting when the
   * supplied rounds run out.
   */
  datatype Outcome = Delivered(ntf: Ntf) | NoneReturned | Unfinished

  /** The loop test: run again while blocking forever, non-blocking, or before the timeout. */
  predicate Continues(timeout: int, elapsed: int)
  {
    timeout <= 0 || elapsed < timeout
  }

  /** A round the loop passes over: it ran, got a notification, and the socket does not accept it. */
  predicate Discarded(localProtocol: int, timeout: int, p: Poll)
  {
    Continues(timeout, p.elapsed) && p.answer.Some? && !Accepts(localProtocol, p.answer.value)
  }

  /** How one round that is not discarded ends the reception. */
  function Settle(localProtocol: int, timeout: int, p: Poll): Outcome
  {
    if Continues(timeout, p.elapsed) && p.answer.Some? && Accepts(localProtocol, p.answer.value)
    then Delivered(p.answer.value)
    else NoneReturned
  }

  /** The outcome of the reception loop over the rounds `polls`. */
  function ReceiveOutcome(localProtocol: int, timeout: int, polls: seq<Poll>): (r: Outcome)
    ensures r.Delivered? ==> Accepts(localProtocol, r.ntf)
    ensures r.Unfinished? ==> forall j :: 0 <= j < |polls| ==> Discarded(localProtocol, timeout, polls[j])
  {
    if polls == [] then Unfinished
    else if Discarded(localProtocol, timeout, polls[0]) then
      var r := ReceiveOutcome(localProtocol, timeout, polls[1..]);
      assert forall j :: 0 < j < |polls| ==> polls[j] == polls[1..][j - 1];
      r
    else Settle(localProtocol, timeout, polls[0])
  }

  /**
   * The loop drops every round before the first that is not discarded, and
   * that round decides: the accepted notification, or None when the time is
   * up or the gateway answered nothing.
   */
  lemma {:induction false} ReceiveStopsAtFirstKept(localProtocol: int, timeout: int, polls: seq<Poll>, i: nat)
    requires i < |polls| && !Discarded(localProtocol, timeout, polls[i])
    requires forall j :: 0 <= j < i ==> Discarded(localProtocol, timeout, polls[j])
    ensures ReceiveOutcome(localProtocol, timeout, polls) == Settle(localProtocol, timeout, polls[i])
  {
    if i > 0 {
      assert Discarded(localProtocol, timeout, polls[0]);
      assert forall j :: 0 <= j < i - 1 ==> polls[1..][j] == polls[j + 1];
      ReceiveStopsAtFirstKept(localProtocol, timeout, polls[1..], i - 1);
    }
  }

  class UnetSocket {
    /** The gateway is gone (`gw` is None) once the socket is closed. */
    var closed: bool
    var localProtocol: int
    var remoteAddress: int
    var remoteProtocol: int
    var timeout: int
    var provider: Option<AgentId>

    /** Bound and default protocols are never reserved ones; the timeout is -1 or more. */
    predicate Valid()
      reads this
    {
      (localProtocol == -1 || ValidProtocol(localProtocol)) && ValidProtocol(remoteProtocol) && timeout >= -1
    }

    /** A new socket: open, unbound, unconnected, blocking forever, no provider yet. */
    constructor ()
      ensures Valid() && !closed
      ensures localProtocol == -1 && remoteAddress == -1 && remoteProtocol == DATA
      ensures timeout == -1 && provider.None?
    {
      closed := false;
      localProtocol := -1;
      remoteAddress := -1;
      remoteProtocol := 0;
      timeout := -1;
      provider := None;
    }

    /** Closes the socket; closing a closed one fails (an AttributeError in the source). */
    method Close() returns (ok: bool)
      modifies this`closed
      ensures ok == !old(closed) && closed
    {
      ok := !closed;
      closed := true;
    }

    predicate IsClosed()
      reads this
    {
      closed
    }

    method Bind(protocol: int) returns (ok: bool)
      requires Valid()
      modifies this`localProtocol
      ensures Valid()
      ensures ok == ValidProtocol(protocol)
      ensures localProtocol == if ok then protocol else old(localProtocol)
    {
      if protocol == DATA || (protocol >= USER && protocol <= MAX) {
        localProtocol := protocol;
        return true;
      }
      return false;
    }

    method Unbind()
      requires Valid()
      modifies this`localProtocol
      ensures Valid() && localProtocol == -1 && !IsBound()
    {
      localProtocol := -1;
    }

    predicate IsBound()
      reads this
    {
      localProtocol >= 0
    }

    method Connect(to: int, protocol: int) returns (ok: bool)
      requires Valid()
      modifies this`remoteAddress, this`remoteProtocol
      ensures Valid()
      ensures ok == (to >= 0 && ValidProtocol(protocol))
      ensures ok ==> remoteAddress == to && remoteProtocol == protocol && IsConnected()
      ensures !ok ==> remoteAddress == old(remoteAddress) && remoteProtocol == old(remoteProtocol)
    {
      if to >= 0 && (protocol == DATA || (protocol >= USER && protocol <= MAX)) {
        remoteAddress := to;
        remoteProtocol := protocol;
        return true;
      }
      return false;
    }

    method Disconnect()
      requires Valid()
      modifies this`remoteAddress, this`remoteProtocol
      ensures Valid() && remoteAddress == -1 && remoteProtocol == DATA && !IsConnected()
    {
      remoteAddress := -1;
      remoteProtocol := 0;
    }

    predicate IsConnected()
      reads this
    {
      remoteAddress >= 0
    }

    /** Sets the reception timeout; any negative value becomes -1 (block forever). */
    method SetTimeout(ms: int)
      requires Valid()
      modifies this`timeout
      ensures Valid()
      ensures ms >= 0 ==> timeout == ms
      ensures ms < 0 ==> timeout == -1
    {
      var t := ms;
      if t < 0 {
        t := -1;
      }
      timeout := t;
    }

    /**
     * Sends a datagram. A closed socket answers None; otherwise the result
     * is True exactly when a request was issued and answered with AGREE. A
     * request without a recipient goes to the cached provider, looked up on
     * first need.
     */
    method Send(data: Payload, to: Option<int>, protocol: Option<int>,
                agentFor: Service -> Option<AgentId>, rsp: Option<Performative>)
      returns (r: Option<bool>, issued: Option<DatagramReq>)
      requires Valid()
      modifies this`provider
      ensures Valid()
      ensures closed ==> r.None? && issued.None? && provider == old(provider)
      ensures !closed ==> r == Some(issued.Some? && rsp == Some(AGREE))
      ensures issued.Some? ==> issued.value.recipient.Some?
      ensures !closed && PrepareSend(data, to, protocol, remoteAddress, remoteProtocol).None? ==>
        issued.None? && provider == old(provider)
      ensures
        var prep := PrepareSend(data, to, protocol, remoteAddress, remoteProtocol);
        !closed && prep.Some? && prep.value.recipient.Some? ==> issued == prep && provider == old(provider)
      ensures
        var prep := PrepareSend(data, to, protocol, remoteAddress, remoteProtocol);
        !closed && prep.Some? && prep.value.recipient.None? ==>
          provider == (if old(provider).Some? then old(provider) else FirstProvider(agentFor, ProviderOrder))
          && issued == (if provider.Some? then Some(prep.value.(recipient := provider)) else None)
    {
      if closed {
        return None, None;
      }
      var req := PrepareSend(data, to, protocol, remoteAddress, remoteProtocol);
      if req.None? {
        return Some(false), None;
      }
      var q := req.value;
      if q.recipient.None? {
        provider := FindProvider(provider, agentFor);
        if provider.None? {
          return Some(false), None;
        }
        q := q.(recipient := provider);
      }
      issued := Some(q);
      r := Some(rsp == Some(AGREE));
    }

    /**
     * Receives a datagram: while the loop test passes, takes the gateway's
     * next answer, returns None if there is none, returns it if the socket
     * accepts it, and otherwise drops it and goes round again.
     */
    method Receive(polls: seq<Poll>) returns (r: Outcome)
      ensures closed ==> r == NoneReturned
      ensures !closed ==> r == ReceiveOutcome(localProtocol, timeout, polls)
    {
      if closed {
        return NoneReturned;
      }
      var i := 0;
      while i < |polls|
        invariant 0 <= i <= |polls|
        invariant ReceiveOutcome(localProtocol, timeout, polls) == ReceiveOutcome(localProtocol, timeout, polls[i..])
      {
        assert polls[i..][1..] == polls[i + 1..];
        if !(timeout <= 0 || polls[i].elapsed < timeout) {
          return NoneReturned;
        }
        var ntf := polls[i].answer;
        if ntf.None? {
          return NoneReturned;
        }
        var p := ntf.value.protocol;
        if ntf.value.clazz == DatagramNtf || ntf.value.clazz == RxFrameNtf {
          if p == DATA || p >= USER {
            if localProtocol < 0 || localProtocol == p {
              return Delivered(ntf.value);
            }
          }
        }
        i := i + 1;
      }
      return Unfinished;
    }
  }
}
