/**
 * Vocabulary shared by the datagram sockets of every binding: protocol
 * numbers, performatives, the services a socket may send through, and the
 * notifications a socket may receive.
 */
module Datagram {
  import opened Wrappers

  /** Protocol number for user application data. */
  const DATA: int := 0
  /** Lowest protocol number allowable for user protocols; 1..31 are reserved. */
  const USER: int := 32
  /** Largest protocol number allowable. */
  const MAX: int := 63

  /** The protocols a socket may bind to, connect with, or send on. */
  predicate ValidProtocol(p: int)
  {
    p == DATA || (USER <= p && p <= MAX)
  }

  /** Reserved protocol numbers are exactly the ones strictly between DATA and USER, or above MAX. */
  lemma ValidProtocolRange(p: int)
    requires 0 <= p
    ensures ValidProtocol(p) <==> !(1 <= p < USER) && p <= MAX
  {
  }

  datatype Performative =
    | REQUEST | AGREE | REFUSE | FAILURE | INFORM | CONFIRM | DISCONFIRM
    | QUERY_IF | NOT_UNDERSTOOD | CFP | PROPOSE | CANCEL

  /** The services a socket looks up to find a datagram provider, and the others it uses. */
  datatype Service = TRANSPORT | ROUTING | LINK | PHYSICAL | DATAGRAM | NODE_INFO | RANGING

  /** An agent known by name. */
  type AgentId = string

  /** The order in which a socket tries services when it looks for a datagram provider. */
  const ProviderOrder: seq<Service> := [TRANSPORT, ROUTING, LINK, PHYSICAL, DATAGRAM]

  /**
   * The provider found by asking `agentFor` about each service of `order`
   * in turn and stopping at the first answer.
   */
  function FirstProvider(agentFor: Service -> Option<AgentId>, order: seq<Service>): (r: Option<AgentId>)
    ensures r.None? <==> forall i :: 0 <= i < |order| ==> agentFor(order[i]).None?
    ensures r.Some? ==> exists i :: 0 <= i < |order| && agentFor(order[i]) == r
                          && forall j :: 0 <= j < i ==> agentFor(order[j]).None?
  {
    if order == [] then None
    else if agentFor(order[0]).Some? then agentFor(order[0])
    else
      var r := FirstProvider(agentFor, order[1..]);
      assert forall i :: 0 < i < |order| ==> order[i] == order[1..][i - 1];
      if r.Some? then
        var i :| 0 <= i < |order[1..]| && agentFor(order[1..][i]) == r
                   && forall j :: 0 <= j < i ==> agentFor(order[1..][j]).None?;
        assert agentFor(order[i + 1]) == r;
        r
      else r
  }

  /**
   * The provider a socket sends through: the cached one if any, otherwise the
   * first service of `ProviderOrder` that `agentFor` answers.
   */
  method FindProvider(cached: Option<AgentId>, agentFor: Service -> Option<AgentId>) returns (p: Option<AgentId>)
    ensures p == if cached.Some? then cached else FirstProvider(agentFor, ProviderOrder)
  {
    p := cached;
    var k := 0;
    while p.None? && k < |ProviderOrder|
      invariant 0 <= k <= |ProviderOrder|
      invariant cached.Some? ==> p == cached
      invariant cached.None? && p.None? ==> forall j :: 0 <= j < k ==> agentFor(ProviderOrder[j]).None?
      invariant cached.None? && p.Some? ==> p == FirstProvider(agentFor, ProviderOrder)
    {
      p := agentFor(ProviderOrder[k]);
      k := k + 1;
    }
  }

  /** A transmission request for a datagram (`DatagramReq`); unset fields are `None`. */
  datatype DatagramReq = DatagramReq(
    data: seq<int>,
    to: Option<int>,
    protocol: Option<int>,
    recipient: Option<AgentId>)

  /** Message classes a socket may be offered on reception. */
  datatype NtfClass = DatagramNtf | RxFrameNtf | OtherClass(name: string)

  /** A received notification: its class and its protocol number. */
  datatype Ntf = Ntf(clazz: NtfClass, protocol: int, from: int, data: seq<int>)

  /**
   * The protocol rule of a socket's reception filter, for a socket bound to
   * `localProtocol` (negative when unbound): protocol DATA or any protocol
   * from USER up, and, if bound, exactly the bound protocol.
   */
  predicate AcceptsProtocol(localProtocol: int, p: int)
  {
    (p == DATA || p >= USER) && (localProtocol < 0 || localProtocol == p)
  }

  /** The reception filter: a datagram or received-frame notification that passes the protocol rule. */
  predicate Accepts(localProtocol: int, ntf: Ntf)
  {
    (ntf.clazz == DatagramNtf || ntf.clazz == RxFrameNtf) && AcceptsProtocol(localProtocol, ntf.protocol)
  }

  /**
   * A socket bound to a valid protocol receives only on that protocol; an
   * unbound one never receives on a reserved protocol (1 to 31).
   */
  lemma AcceptsBoundOrUnreserved(localProtocol: int, p: int)
    requires AcceptsProtocol(localProtocol, p)
    ensures localProtocol >= 0 ==> p == localProtocol
    ensures !(1 <= p < USER)
  {
  }
}
