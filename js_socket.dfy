/**
 * The JavaScript datagram socket (`UnetSocket`). The same class appears three
 * times in the repository, line for line: in the source module and in the
 * CommonJS and ES-module bundles. This module models it once.
 *
 * The socket holds a gateway (absent once closed), the protocol it is bound
 * to, the default destination, the reception timeout, and the cached agent
 * that provides the datagram service. Service lookups and the answer to a
 * request come from the remote side and are parameters.
 */
module JsSocket {
  import opened Wrappers
  import opened Datagram
  import Gateway

  /** Time the socket waits for the answer to a request, in milliseconds. */
  const REQUEST_TIMEOUT: int := 1000

  const DATAGRAM_NTF: string := "org.arl.unet.DatagramNtf"
  const RXFRAME_NTF: string := "org.arl.unet.phy.RxFrameNtf"

  /** What `send` may be given: an array of bytes, a ready-made request, or anything else. */
  datatype Payload = Bytes(bytes: seq<int>) | Req(req: DatagramReq) | Other

  /**
   * The protocol test of `send`: a protocol outside DATA and USER..MAX is
   * refused; an unset one (undefined) compares false both ways and passes.
   */
  predicate ProtocolPasses(p: Option<int>)
  {
    p.None? || ValidProtocol(p.value)
  }

  /**
   * The request `send` builds before it looks for a provider, or None when it
   * gives up first: no destination, a closed socket, a payload it does not
   * know, or a reserved protocol.
   */
  function PrepareSend(closed: bool, data: Payload, to: int, protocol: int): (r: Option<DatagramReq>)
    ensures r.None? <==> to < 0 || closed || data.Other?
                         || (data.Bytes? && !ValidProtocol(protocol))
                         || (data.Req? && !ProtocolPasses(data.req.protocol))
    ensures r.Some? && data.Bytes? ==> r.value == DatagramReq(data.bytes, Some(to), Some(protocol), None)
    ensures r.Some? && data.Req? ==> r.value == data.req
  {
    if to < 0 || closed then None
    else
      var req :=
        match data
        case Bytes(b) => Some(DatagramReq(b, Some(to), Some(protocol), None))
        case Req(q) => Some(q)
        case Other => None;
      if req.None? || !ProtocolPasses(req.value.protocol) then None else req
  }

  /** The reception filter: a datagram or received-frame notification whose protocol passes. */
  predicate ReceiveFilter(localProtocol: int, m: Gateway.Message)
  {
    (m.clazz == DATAGRAM_NTF || m.clazz == RXFRAME_NTF)
    && m.protocol.Some? && AcceptsProtocol(localProtocol, m.protocol.value)
  }

  /** The filter closure handed to the gateway. */
  function SocketFilter(localProtocol: int): Gateway.Filter
  {
    Gateway.Where(m => ReceiveFilter(localProtocol, m))
  }

  /**
   * Only notifications of the two datagram classes get through, never on a
   * reserved protocol, and only on the bound protocol when the socket is bound.
   */
  lemma ReceiveFilterIff(localProtocol: int, m: Gateway.Message)
    ensures Gateway.Matches(SocketFilter(localProtocol), m) <==>
      (m.clazz == DATAGRAM_NTF || m.clazz == RXFRAME_NTF) && m.protocol.Some?
      && (m.protocol.value == DATA || m.protocol.value >= USER)
      && (localProtocol < 0 || m.protocol.value == localProtocol)
  {
  }

  class UnetSocket {
    var gw: Gateway.Gateway?
    var localProtocol: int
    var remoteAddress: int
    var remoteProtocol: int
    var timeout: int
    var provider: Option<AgentId>

    /** Bound and default protocols are never reserved ones; the timeout is never negative. */
    predicate Valid()
      reads this
    {
      (localProtocol == -1 || ValidProtocol(localProtocol)) && ValidProtocol(remoteProtocol) && timeout >= 0
    }

    /**
     * Opens a socket on gateway `gw`: unbound, unconnected, non-blocking, with
     * no provider yet, and subscribed to the notification topic of every
     * agent in `datagramAgents` (the agents providing the datagram service).
     */
    constructor (gw: Gateway.Gateway, datagramAgents: seq<Gateway.AgentID>)
      modifies gw
      ensures Valid() && this.gw == gw
      ensures localProtocol == -1 && remoteAddress == -1 && remoteProtocol == DATA
      ensures timeout == 0 && provider.None?
      ensures gw.subscriptions ==
        old(gw.subscriptions) + set i | 0 <= i < |datagramAgents| :: Gateway.ToJSON(Gateway.Topic(Gateway.Agent(datagramAgents[i]), ""))
      ensures gw.queue == old(gw.queue) && gw.listeners == old(gw.listeners)
    {
      for i := 0 to |datagramAgents|
        invariant gw.subscriptions ==
          old(gw.subscriptions) + set j | 0 <= j < i :: Gateway.ToJSON(Gateway.Topic(Gateway.Agent(datagramAgents[j]), ""))
        invariant gw.queue == old(gw.queue) && gw.listeners == old(gw.listeners)
      {
        gw.Subscribe(Gateway.Topic(Gateway.Agent(datagramAgents[i]), ""));
      }
      this.gw := gw;
      localProtocol := -1;
      remoteAddress := -1;
      remoteProtocol := DATA;
      timeout := 0;
      provider := None;
    }

    /** Closes the socket; closing a closed socket fails (a TypeError in the source). */
    method Close() returns (ok: bool)
      modifies this`gw
      ensures ok == (old(gw) != null) && gw == null
    {
      ok := gw != null;
      gw := null;
    }

    predicate IsClosed()
      reads this
    {
      gw == null
    }

    /** Binds to `protocol` when it is DATA or in USER..MAX; otherwise nothing changes. */
    method Bind(protocol: int) returns (ok: bool)
      requires Valid()
      modifies this`localProtocol
      ensures Valid()
      ensures ok == ValidProtocol(protocol)
      ensures localProtocol == if ok then protocol else old(localProtocol)
    {
      if protocol == DATA || (protocol >= USER && protocol <= MAX) {
        localProtocol := protocol;
        return true;
      }
      return false;
    }

    method Unbind()
      requires Valid()
      modifies this`localProtocol
      ensures Valid()
      ensures localProtocol == -1 && !IsBound()
    {
      localProtocol := -1;
    }

    predicate IsBound()
      reads this
    {
      localProtocol >= 0
    }

    /** Sets the default destination when `to` is not negative and `protocol` is valid; otherwise nothing changes. */
    method Connect(to: int, protocol: int) returns (ok: bool)
      requires Valid()
      modifies this`remoteAddress, this`remoteProtocol
      ensures Valid()
      ensures ok == (to >= 0 && ValidProtocol(protocol))
      ensures ok ==> remoteAddress == to && remoteProtocol == protocol && IsConnected()
      ensures !ok ==> remoteAddress == old(remoteAddress) && remoteProtocol == old(remoteProtocol)
    {
      if to >= 0 && (protocol == DATA || (protocol >= USER && protocol <= MAX)) {
        remoteAddress := to;
        remoteProtocol := protocol;
        return true;
      }
      return false;
    }

    /** Forgets the default destination; doing it twice is the same as once. */
    method Disconnect()
      requires Valid()
      modifies this`remoteAddress, this`remoteProtocol
      ensures Valid()
      ensures remoteAddress == -1 && remoteProtocol == DATA && !IsConnected()
    {
      remoteAddress := -1;
      remoteProtocol := 0;
    }

    predicate IsConnected()
      reads this
    {
      remoteAddress >= 0
    }

    /** Sets the reception timeout; a negative one becomes 0 (non-blocking). */
    method SetTimeout(ms: int)
      requires Valid()
      modifies this`timeout
      ensures Valid()
      ensures timeout >= 0
      ensures ms >= 0 ==> timeout == ms
      ensures ms < 0 ==> timeout == 0
    {
      var t := ms;
      if t < 0 {
        t := 0;
      }
      timeout := t;
    }

    /**
     * Sends a datagram to `to` on `protocol` (the connected defaults when
     * absent). After the checks of `PrepareSend`, a request without a
     * recipient goes to the cached provider, found on first need by asking
     * for the transport, routing, link, physical and datagram services in that
     * order. `issued` is the request handed to the gateway, if any, and the
     * send succeeds exactly when the answer `rsp` to it is AGREE.
     */
    method Send(data: Payload, to: Option<int>, protocol: Option<int>,
                agentFor: Service -> Option<AgentId>, rsp: Option<Performative>)
      returns (ok: bool, issued: Option<DatagramReq>)
      modifies this`provider
      ensures ok <==> issued.Some? && rsp == Some(AGREE)
      ensures PrepareSend(gw == null, data, to.GetOr(remoteAddress), protocol.GetOr(remoteProtocol)).None? ==>
        issued.None? && provider == old(provider)
      ensures issued.Some? ==> issued.value.recipient.Some?
      ensures
        var prep := PrepareSend(gw == null, data, to.GetOr(remoteAddress), protocol.GetOr(remoteProtocol));
        prep.Some? && prep.value.recipient.Some? ==> issued == prep && provider == old(provider)
      ensures
        var prep := PrepareSend(gw == null, data, to.GetOr(remoteAddress), protocol.GetOr(remoteProtocol));
        prep.Some? && prep.value.recipient.None? ==>
          provider == (if old(provider).Some? then old(provider) else FirstProvider(agentFor, ProviderOrder))
          && issued == (if provider.Some? then Some(prep.value.(recipient := provider)) else None)
    {
      var req := PrepareSend(gw == null, data, to.GetOr(remoteAddress), protocol.GetOr(remoteProtocol));
      if req.None? {
        return false, None;
      }
      var q := req.value;
      if q.recipient.None? {
        provider := FindProvider(provider, agentFor);
        if provider.None? {
          return false, None;
        }
        q := q.(recipient := provider);
      }
      issued := Some(q);
      ok := rsp == Some(AGREE);
    }

    /**
     * Receives through the gateway with the socket's filter and timeout: a
     * queued notification that passes the filter is taken at once; otherwise
     * a timeout of 0 gives up and any other timeout leaves a listener `lid`
     * waiting. A closed socket receives nothing.
     */
    method Receive(lid: string) returns (r: Option<Gateway.Received>)
      requires gw != null ==> gw.Valid()
      modifies gw
      ensures gw == null ==> r.None?
      ensures gw != null ==> gw.Valid() && r.Some?
      ensures gw != null && r.Some? && r.value.Got? ==>
        ReceiveFilter(localProtocol, r.value.msg) && Gateway.FirstMatch(old(gw.queue), SocketFilter(localProtocol)).Some?
      ensures gw != null && r.Some? && r.value.Got? ==>
        var k := Gateway.FirstMatch(old(gw.queue), SocketFilter(localProtocol)).value;
        r.value.msg == old(gw.queue)[k] && gw.queue == Gateway.RemoveAt(old(gw.queue), k)
      ensures gw != null && r.Some? ==>
        (r.value.Got? <==> Gateway.FirstMatch(old(gw.queue), SocketFilter(localProtocol)).Some?)
      ensures gw != null && r.Some? && !r.value.Got? ==>
        gw.queue == old(gw.queue) && (timeout == 0 <==> r.value.TimedOut?) && (timeout != 0 <==> r.value.Waiting?)
      ensures gw != null && r.Some? && r.value.Waiting? ==>
        r.value.listenerId == lid
        && gw.listeners == Gateway.Without(old(gw.listeners), lid) + [Gateway.Listener(lid, Some(SocketFilter(localProtocol)), timeout > 0)]
      ensures gw != null && r.Some? && !r.value.Waiting? ==> gw.listeners == old(gw.listeners)
    {
      if gw == null {
        return None;
      }
      var got := gw.Receive(Some(SocketFilter(localProtocol)), timeout, lid);
      return Some(got);
    }
  }
}
