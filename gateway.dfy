/**
 * The message machinery of the JavaScript gateway bundled with the socket
 * library: agent and topic identifiers, message filters, the bounded queue of
 * unclaimed incoming messages, the listeners of pending receives, and the
 * standard replies the gateway gives to its server.
 *
 * The JSON wire format is not modelled: an incoming frame arrives already
 * parsed (or marked malformed), and an outgoing message is handed to the
 * connector, whose answer (written or not) is a parameter.
 */
module Gateway {
  import opened Wrappers
  import opened Datagram
  import Text

  /** The error JavaScript raises when a value is used in a way its type does not allow. */
  const TYPE_ERROR: string := "TypeError"

  /** Largest number of unclaimed messages the gateway keeps by default. */
  const DEFAULT_QUEUE_SIZE: int := 128

  /** An identifier for an agent or a topic. */
  datatype AgentID = AgentID(name: string, topic: bool)

  /** The string form of an identifier: topics carry a leading '#'. */
  function ToJSON(a: AgentID): string
  {
    (if a.topic then "#" else "") + a.name
  }

  /** An identifier's string form starts with '#' exactly for topics, unless the name itself does. */
  lemma ToJSONMarksTopic(a: AgentID)
    requires !Text.StartsWith(a.name, "#")
    ensures Text.StartsWith(ToJSON(a), "#") <==> a.topic
  {
    if !a.topic {
      assert ToJSON(a) == a.name;
    }
  }

  /**
   * The string form tells agents and topics apart and loses no name, as long
   * as agent names do not themselves start with '#'.
   */
  lemma ToJSONInjective(a: AgentID, b: AgentID)
    requires !Text.StartsWith(a.name, "#") && !Text.StartsWith(b.name, "#")
    requires ToJSON(a) == ToJSON(b)
    ensures a == b
  {
    ToJSONMarksTopic(a);
    ToJSONMarksTopic(b);
    if a.topic {
      assert ("#" + a.name)[1..] == a.name && ("#" + b.name)[1..] == b.name;
    } else {
      assert "" + a.name == a.name && "" + b.name == b.name;
    }
  }

  /** What `topic` is asked about: a topic name, or an agent. */
  datatype TopicArg = Named(topicName: string) | Agent(aid: AgentID)

  /**
   * The topic for a name, or the notification topic of an agent, with an
   * optional sub-topic (`topic2`; empty when absent). A topic is its own topic.
   */
  function Topic(t: TopicArg, topic2: string): (r: AgentID)
    ensures r.topic
    ensures t.Named? ==> r.name == t.topicName
    ensures t.Agent? && t.aid.topic ==> r == t.aid
    ensures t.Agent? && !t.aid.topic ==>
      Text.StartsWith(r.name, t.aid.name) && Text.EndsWith(r.name, "__ntf")
      && (topic2 != "" <==> |r.name| == |t.aid.name| + |topic2| + 7)
  {
    match t
    case Named(n) => AgentID(n, true)
    case Agent(a) =>
      if a.topic then a
      else AgentID(a.name + (if topic2 != "" then "__" + topic2 else "") + "__ntf", true)
  }

  /** Asking for the topic of a topic changes nothing, whatever the sub-topic. */
  lemma TopicIdempotent(t: TopicArg, topic2: string, again: string)
    ensures Topic(Agent(Topic(t, topic2)), again) == Topic(t, topic2)
  {
  }

  /** A message: its class, identity, correlation, addressing, performative and payload. */
  datatype Message = Message(
    clazz: string,
    msgID: string,
    inReplyTo: Option<string>,
    sender: Option<string>,
    recipient: Option<string>,
    perf: Option<Performative>,
    protocol: Option<int>,
    data: seq<int>)

  /**
   * A new message of class `clazz` with identifier `msgID` (a fresh random
   * identifier in the source), optionally in reply to `original`: a reply
   * is addressed to the original's sender and refers to its identifier,
   * unless that identifier is empty.
   */
  function NewMessage(clazz: string, msgID: string, original: Option<Message>, perf: Option<Performative>): (m: Message)
    ensures m.msgID == msgID && m.clazz == clazz && m.perf == perf && m.sender.None?
    ensures original.Some? && original.value.msgID != "" ==> m.inReplyTo == Some(original.value.msgID)
    ensures original.None? ==> m.inReplyTo.None? && m.recipient.None?
    ensures original.Some? ==> m.recipient == original.value.sender
  {
    Message(clazz, msgID,
      if original.Some? && original.value.msgID != "" then Some(original.value.msgID) else None,
      None,
      if original.Some? then original.value.sender else None,
      perf, None, [])
  }

  /**
   * What `receive` may be asked to wait for. A class is told apart by the
   * name of its parent: only a class `MessageClass` made with the default
   * parent `Message` is compared by class name; `Message` itself and a class
   * made with another parent are taken for a closure, and calling a class
   * without `new` raises a TypeError.
   */
  datatype Filter =
    | ReplyTo(id: string)               // a message identifier given as a string
    | ReplyToMessage(request: Message)  // the request whose reply is awaited
    | OfClass(clazz: string)            // a message class whose parent is Message
    | OfOtherClass(clazz: string)       // Message itself, or a class with another parent
    | Where(pred: Message -> bool)      // a closure

  /** Matching against this filter, or against no filter at all, raises a TypeError. */
  predicate MatchThrows(f: Option<Filter>)
  {
    f.None? || f.value.OfOtherClass?
  }

  /** The filter is falsy in JavaScript: none at all, or the empty string. */
  predicate Falsy(f: Option<Filter>)
  {
    f.None? || (f.value.ReplyTo? && f.value.id == "")
  }

  /** Whether message `m` is one that filter `f` waits for. */
  predicate Matches(f: Filter, m: Message)
    requires !f.OfOtherClass?
  {
    match f
    case ReplyTo(id) => m.inReplyTo == Some(id)
    case ReplyToMessage(req) => m.inReplyTo == Some(req.msgID)
    case OfClass(c) => m.clazz == c
    case Where(p) => p(m)
  }

  /** A reply built for a request is exactly what a receive filtered on that request waits for. */
  lemma ReplyMatchesRequest(req: Message, clazz: string, msgID: string, perf: Option<Performative>)
    requires req.msgID != ""
    ensures Matches(ReplyToMessage(req), NewMessage(clazz, msgID, Some(req), perf))
    ensures Matches(ReplyTo(req.msgID), NewMessage(clazz, msgID, Some(req), perf))
  {
  }

  /** A message that is not a reply matches no request filter. */
  lemma UnsolicitedMatchesNoRequest(m: Message, req: Message)
    requires m.inReplyTo.None?
    ensures !Matches(ReplyToMessage(req), m) && !Matches(ReplyTo(req.msgID), m)
  {
  }

  /** The position of the first message of `q` that `f` matches. */
  function FirstMatch(q: seq<Message>, f: Filter): (r: Option<nat>)
    requires !f.OfOtherClass?
    ensures r.Some? ==> r.value < |q| && Matches(f, q[r.value])
    ensures r.Some? ==> forall j :: 0 <= j < r.value ==> !Matches(f, q[j])
    ensures r.None? ==> forall j :: 0 <= j < |q| ==> !Matches(f, q[j])
  {
    if q == [] then None
    else if Matches(f, q[0]) then Some(0)
    else
      var r := FirstMatch(q[1..], f);
      assert forall j :: 0 < j < |q| ==> q[j] == q[1..][j - 1];
      if r.Some? then Some(r.value + 1) else None
  }

  /** `q` without its element at position `k`, the others in their order. */
  function RemoveAt(q: seq<Message>, k: nat): (r: seq<Message>)
    requires k < |q|
    ensures |r| == |q| - 1
    ensures forall j :: 0 <= j < k ==> r[j] == q[j]
    ensures forall j :: k <= j < |r| ==> r[j] == q[j + 1]
  {
    q[..k] + q[k + 1..]
  }

  /** A registered receive waiting for a message: its identifier and filter (none if not given). */
  datatype Listener = Listener(id: string, filter: Option<Filter>, timed: bool)

  /** An incoming frame from the server, after JSON parsing. */
  datatype Frame =
    | Malformed
    | Json(id: Option<string>, action: string, message: Option<Message>, agentID: string)

  /** The answers the gateway gives to the server's standard queries. */
  datatype StdReply =
    | AgentsReply(id: Option<string>, agentIDs: seq<string>)
    | ContainsAgentReply(id: Option<string>, answer: bool)
    | ServicesReply(id: Option<string>)
    | AgentForServiceReply(id: Option<string>)
    | AgentsForServiceReply(id: Option<string>)

  /** What became of an incoming frame. */
  datatype RxOutcome =
    | Ignored
    | ResolvedRequest(id: string)
    | NotAddressed
    | ConsumedByEventListener
    | DeliveredTo(listenerId: string)
    | ListenerThrew(listenerId: string)
    | Queued(dropped: Option<Message>)
    | Replied(reply: StdReply)

  /** What a call to `receive` gives back at once; `Rejected` is a promise rejected with a TypeError. */
  datatype Received = Got(msg: Message) | TimedOut | Waiting(listenerId: string) | Rejected

  function Max1(n: int): int { if n < 1 then 1 else n }

  class Gateway {
    /** The gateway's own agent identifier. */
    const aid: AgentID
    /** The configured bound of the queue of unclaimed messages. */
    const queueSize: int
    /** Unclaimed incoming messages, oldest first. */
    var queue: seq<Message>
    /** Identifiers of requests to the server that still await their answer. */
    var pending: set<string>
    /** String forms of the topics the gateway subscribed to. */
    var subscriptions: set<string>
    /** Receives waiting for a message, in registration order. */
    var listeners: seq<Listener>
    /** How each finished wait ended: with a message, or with none on timeout. */
    var results: map<string, Option<Message>>

    /** The queue never holds more than `queueSize` messages (at least one is always admitted). */
    ghost predicate Valid()
      reads this
    {
      |queue| <= Max1(queueSize)
    }

    /** The frame is a message that answers no pending request and is addressed to the gateway or a subscribed topic. */
    predicate IncomingMessage(frame: Frame, pending: set<string>)
      reads this
    {
      frame.Json? && !(frame.id.Some? && frame.id.value in pending) && frame.action == "send"
      && frame.message.Some? && Addressed(frame.message.value)
    }

    /** The message is addressed to the gateway itself or to a topic it subscribed to. */
    predicate Addressed(msg: Message)
      reads this
    {
      msg.recipient == Some(ToJSON(aid)) || (msg.recipient.Some? && msg.recipient.value in subscriptions)
    }

    constructor (aid: AgentID, queueSize: int)
      ensures Valid()
      ensures this.aid == aid && this.queueSize == queueSize
      ensures queue == [] && pending == {} && subscriptions == {} && listeners == [] && results == map[]
    {
      this.aid := aid;
      this.queueSize := queueSize;
      queue := [];
      pending := {};
      subscriptions := {};
      listeners := [];
      results := map[];
    }

    /**
     * Removes and returns the first queued message the filter matches, or the
     * oldest one when the filter is falsy; the rest keep their order. A filter
     * whose matching throws fails on the first queued message, leaving the
     * queue as it was.
     */
    method GetMessageFromQueue(filter: Option<Filter>) returns (m: Result<Option<Message>, string>)
      requires Valid()
      modifies this`queue
      ensures Valid()
      ensures old(queue) == [] ==> m == Ok(None) && queue == []
      ensures old(queue) != [] && Falsy(filter) ==> m == Ok(Some(old(queue)[0])) && queue == old(queue)[1..]
      ensures m.Err? <==> old(queue) != [] && !Falsy(filter) && MatchThrows(filter)
      ensures m.Err? ==> m.error == TYPE_ERROR && queue == old(queue)
      ensures old(queue) != [] && !Falsy(filter) && !MatchThrows(filter) ==>
        match FirstMatch(old(queue), filter.value)
        case None => m == Ok(None) && queue == old(queue)
        case Some(k) => m == Ok(Some(old(queue)[k])) && queue == RemoveAt(old(queue), k)
    {
      if queue == [] {
        return Ok(None);
      }
      if Falsy(filter) {
        m := Ok(Some(queue[0]));
        queue := queue[1..];
        return;
      }
      if MatchThrows(filter) {
        return Err(TYPE_ERROR);
      }
      var k := FirstMatch(queue, filter.value);
      if k.Some? {
        m := Ok(Some(queue[k.value]));
        queue := RemoveAt(queue, k.value);
      } else {
        m := Ok(None);
      }
    }

    /**
     * Takes a matching message from the queue if there is one; otherwise,
     * with timeout 0, gives up at once, and with any other timeout registers
     * listener `lid` (a fresh random identifier in the source) that a later
     * message or, for a positive timeout, the timer will settle. A filter
     * whose matching throws rejects the promise when the queue is not empty.
     */
    method Receive(filter: Option<Filter>, timeout: int, lid: string) returns (r: Received)
      requires Valid()
      modifies this`queue, this`listeners
      ensures Valid()
      ensures r.Rejected? <==> old(queue) != [] && !Falsy(filter) && MatchThrows(filter)
      ensures r.Got? ==> old(queue) != [] && queue != old(queue)
      ensures r.Got? && Falsy(filter) ==> r.msg == old(queue)[0] && queue == old(queue)[1..]
      ensures r.Got? && !Falsy(filter) ==>
        !MatchThrows(filter) && FirstMatch(old(queue), filter.value).Some? && Matches(filter.value, r.msg)
      ensures r.Got? && !Falsy(filter) && !MatchThrows(filter) && FirstMatch(old(queue), filter.value).Some? ==>
        r.msg == old(queue)[FirstMatch(old(queue), filter.value).value]
        && queue == RemoveAt(old(queue), FirstMatch(old(queue), filter.value).value)
      ensures !r.Got? ==> queue == old(queue)
      ensures !r.Got? && !r.Rejected? ==>
        (old(queue) == [] || (!Falsy(filter) && !MatchThrows(filter) && FirstMatch(old(queue), filter.value).None?))
      ensures r.TimedOut? <==> !r.Got? && !r.Rejected? && timeout == 0
      ensures r.Waiting? ==> r.listenerId == lid
      ensures r.Waiting? ==> listeners == Without(old(listeners), lid) + [Listener(lid, filter, timeout > 0)]
      ensures !r.Waiting? ==> listeners == old(listeners)
    {
      var m := GetMessageFromQueue(filter);
      if m.Err? {
        return Rejected;
      }
      if m.value.Some? {
        return Got(m.value.value);
      }
      if timeout == 0 {
        return TimedOut;
      }
      listeners := Without(listeners, lid) + [Listener(lid, filter, timeout > 0)];
      return Waiting(lid);
    }

    /**
     * The timer of a timed wait fires: the wait ends without a message. Only
     * a wait with a positive timeout has a timer, and settling the wait with
     * a message clears it, so the timer fires only while its listener waits.
     */
    method ExpireTimer(lid: string)
      requires exists i :: 0 <= i < |listeners| && listeners[i].id == lid && listeners[i].timed
      modifies this`listeners, this`results
      ensures listeners == Without(old(listeners), lid)
      ensures results == old(results)[lid := None]
    {
      results := results[lid := None];
      listeners := Without(listeners, lid);
    }

    /** Records a request to the server whose answer will carry identifier `id`. */
    method TrackRequest(id: string)
      modifies this`pending
      ensures pending == old(pending) + {id}
    {
      pending := pending + {id};
    }

    /** Subscribes to a topic, or to the notification topic of an agent. */
    method Subscribe(t: AgentID)
      modifies this`subscriptions
      ensures subscriptions == old(subscriptions) + {ToJSON(if t.topic then t else AgentID(t.name + "__ntf", true))}
    {
      var topic := if t.topic then t else AgentID(t.name + "__ntf", true);
      subscriptions := subscriptions + {ToJSON(topic)};
    }

    /** Drops every unclaimed message. */
    method Flush()
      requires Valid()
      modifies this`queue
      ensures Valid() && queue == []
    {
      queue := [];
    }

    /**
     * Stamps a message with the gateway as sender and, when it has no
     * performative, with REQUEST for a class ending in "Req" and INFORM
     * otherwise; `written` is whether the connector accepted the text.
     */
    method Send(msg: Message, written: bool) returns (ok: bool, sent: Message)
      ensures ok == written
      ensures sent.sender == Some(ToJSON(aid))
      ensures msg.perf.Some? ==> sent.perf == msg.perf
      ensures msg.perf.None? ==> sent.perf == Some(if Text.EndsWith(msg.clazz, "Req") then REQUEST else INFORM)
      ensures sent.(sender := msg.sender, perf := msg.perf) == msg
    {
      var perf := if msg.perf.Some? then msg.perf
                  else if Text.EndsWith(msg.clazz, "Req") then Some(REQUEST) else Some(INFORM);
      sent := msg.(sender := Some(ToJSON(aid)), perf := perf);
      ok := written;
    }

    /** Sends a request, then waits for the message that replies to it. */
    method Request(msg: Message, written: bool, timeout: int, lid: string) returns (sent: Message, r: Received)
      requires Valid()
      modifies this`queue, this`listeners
      ensures Valid()
      ensures sent.sender == Some(ToJSON(aid)) && sent.msgID == msg.msgID
      ensures r.Got? ==> r.msg.inReplyTo == Some(msg.msgID)
      ensures r.Waiting? ==> listeners == Without(old(listeners), lid) + [Listener(lid, Some(ReplyToMessage(sent)), timeout > 0)]
    {
      var ok;
      ok, sent := Send(msg, written);
      r := Receive(Some(ReplyToMessage(sent)), timeout, lid);
    }

    /**
     * Handles one incoming frame: the answer to a pending request settles it;
     * a message addressed to the gateway or to a subscribed topic goes to the
     * first waiting receive that takes it, whether or not an application
     * event listener took it first, and joins the queue, dropping the oldest
     * queued message when the queue is full, only when neither did; the
     * server's standard queries get their standard answers.
     * `eventConsumed` is whether an application event listener took the message.
     */
    method OnMsgRx(frame: Frame, eventConsumed: bool) returns (out: RxOutcome)
      requires Valid()
      modifies this`queue, this`pending, this`listeners, this`results
      ensures Valid()
      ensures frame.Malformed? ==> out == Ignored && queue == old(queue)
      ensures frame.Json? && frame.id.Some? && frame.id.value in old(pending) ==>
        out == ResolvedRequest(frame.id.value) && pending == old(pending) - {frame.id.value} && queue == old(queue)
      ensures IncomingMessage(frame, old(pending)) ==>
        (out.Queued? || out.ConsumedByEventListener? <==> NoneTakes(old(listeners), frame.message.value))
        && (out.ConsumedByEventListener? <==> eventConsumed && NoneTakes(old(listeners), frame.message.value))
      ensures out.ConsumedByEventListener? ==> frame.Json? && frame.action == "send" && frame.message.Some?
      ensures out.Queued? ==> frame.Json? && frame.action == "send" && frame.message.Some? && !eventConsumed
      ensures out.Queued? ==> Addressed(frame.message.value) && NoneTakes(old(listeners), frame.message.value)
      ensures out.ListenerThrew? ==> frame.Json? && frame.message.Some? && Addressed(frame.message.value)
      ensures out.ListenerThrew? ==>
        exists i :: 0 <= i < |old(listeners)| && ThrowsAt(old(listeners), i, frame.message.value)
          && old(listeners)[i].id == out.listenerId
      ensures out.Queued? && |old(queue)| >= queueSize && old(queue) != [] ==>
        out.dropped == Some(old(queue)[0]) && queue == old(queue)[1..] + [frame.message.value]
      ensures out.Queued? && !(|old(queue)| >= queueSize && old(queue) != []) ==>
        out.dropped.None? && queue == old(queue) + [frame.message.value]
      ensures out.DeliveredTo? ==> frame.Json? && frame.message.Some? && Addressed(frame.message.value)
      ensures out.DeliveredTo? ==>
        exists i :: 0 <= i < |old(listeners)| && TakenBy(old(listeners), i, frame.message.value)
          && old(listeners)[i].id == out.listenerId && listeners == old(listeners)[..i] + old(listeners)[i + 1..]
      ensures out.DeliveredTo? ==> results == old(results)[out.listenerId := frame.message]
      ensures !out.Queued? ==> queue == old(queue)
      ensures !out.DeliveredTo? ==> listeners == old(listeners) && results == old(results)
    {
      if frame.Malformed? {
        return Ignored;
      }
      if frame.id.Some? && frame.id.value in pending {
        pending := pending - {frame.id.value};
        return ResolvedRequest(frame.id.value);
      }
      if frame.action == "send" {
        if frame.message.None? {
          return Ignored;
        }
        var msg := frame.message.value;
        if !Addressed(msg) {
          return NotAddressed;
        }
        var i := 0;
        while i < |listeners|
          invariant 0 <= i <= |listeners|
          invariant listeners == old(listeners) && queue == old(queue) && results == old(results)
          invariant NoneTakes(listeners[..i], msg)
        {
          var l := listeners[i];
          if MatchThrows(l.filter) {
            assert ThrowsAt(listeners, i, msg);
            return ListenerThrew(l.id);
          }
          if Matches(l.filter.value, msg) {
            assert TakenBy(listeners, i, msg);
            results := results[l.id := Some(msg)];
            listeners := listeners[..i] + listeners[i + 1..];
            return DeliveredTo(l.id);
          }
          assert listeners[..i + 1] == listeners[..i] + [l];
          i := i + 1;
        }
        assert listeners[..i] == listeners;
        if eventConsumed {
          return ConsumedByEventListener;
        }
        var dropped: Option<Message> := None;
        if |queue| >= queueSize && queue != [] {
          dropped := Some(queue[0]);
          queue := queue[1..];
        }
        queue := queue + [msg];
        return Queued(dropped);
      }
      var reply: Option<StdReply> :=
        match frame.action
        case "agents" => Some(AgentsReply(frame.id, [aid.name]))
        case "containsAgent" => Some(ContainsAgentReply(frame.id, frame.agentID == aid.name))
        case "services" => Some(ServicesReply(frame.id))
        case "agentForService" => Some(AgentForServiceReply(frame.id))
        case "agentsForService" => Some(AgentsForServiceReply(frame.id))
        case _ => None;
      if reply.Some? {
        return Replied(reply.value);
      }
      return Ignored;
    }
  }

  /** The `i`-th listener is the first to take `msg`; the ones before it have a filter that rejects it. */
  predicate TakenBy(ls: seq<Listener>, i: int, msg: Message)
    requires 0 <= i < |ls|
  {
    NoneTakes(ls[..i], msg) && !MatchThrows(ls[i].filter) && Matches(ls[i].filter.value, msg)
  }

  /** The `i`-th listener is the first not to reject `msg`, and matching against its filter throws. */
  predicate ThrowsAt(ls: seq<Listener>, i: int, msg: Message)
    requires 0 <= i < |ls|
  {
    NoneTakes(ls[..i], msg) && MatchThrows(ls[i].filter)
  }

  /** Every listener has a filter that can be matched, and none of them matches `msg`. */
  predicate NoneTakes(ls: seq<Listener>, msg: Message)
  {
    forall j :: 0 <= j < |ls| ==> !MatchThrows(ls[j].filter) && !Matches(ls[j].filter.value, msg)
  }

  /** The listeners other than `lid`, in their order. */
  function Without(ls: seq<Listener>, lid: string): (r: seq<Listener>)
    ensures forall i :: 0 <= i < |r| ==> r[i].id != lid && r[i] in ls
    ensures forall l :: l in ls && l.id != lid ==> l in r
  {
    if ls == [] then []
    else if ls[0].id == lid then Without(ls[1..], lid)
    else [ls[0]] + Without(ls[1..], lid)
  }

  /**
   * The short name under which `MessageClass` registers a class: the text
   * after the last '.' when that '.' comes before any line terminator
   * (JavaScript's `/^.*\./` does not cross one), otherwise the whole name.
   */
  function ShortClassName(name: string): (r: string)
    ensures |r| <= |name| && r == name[|name| - |r|..]
    ensures (forall i :: 0 <= i < |name| ==> !IsLineTerminator(name[i])) ==> r == Text.LastSegment(name, '.')
  {
    var head := FirstLine(name);
    var k := Text.LastIndexOf(head, '.');
    if k < 0 then name else name[k + 1..]
  }

  predicate IsLineTerminator(c: char)
  {
    c == '\n' || c == '\r' || c == '\U{2028}' || c == '\U{2029}'
  }

  /** The text before the first line terminator. */
  function FirstLine(s: string): (r: string)
    ensures |r| <= |s| && r == s[..|r|]
    ensures forall i :: 0 <= i < |r| ==> !IsLineTerminator(r[i])
    ensures (forall i :: 0 <= i < |s| ==> !IsLineTerminator(s[i])) ==> r == s
  {
    if s == [] || IsLineTerminator(s[0]) then []
    else [s[0]] + FirstLine(s[1..])
  }

  /**
   * Names under which the function `MessageClass` itself already holds a
   * value: its own `length`, `name` and `prototype`, and what it inherits
   * from `Function.prototype` and `Object.prototype`. Each is found before
   * anything is registered under that name.
   */
  const FUNCTION_PROPERTIES: set<string> := {
    "length", "name", "prototype",
    "apply", "bind", "call", "toString", "constructor", "__proto__",
    "hasOwnProperty", "isPrototypeOf", "propertyIsEnumerable", "toLocaleString", "valueOf",
    "__defineGetter__", "__defineSetter__", "__lookupGetter__", "__lookupSetter__"}

  /** Inherited accessors that raise a TypeError when read on a strict-mode function. */
  const THROWING_PROPERTIES: set<string> := {"caller", "arguments"}

  /** What `MessageClass` gives back: a class (by its qualified name), a property of the function, or an error. */
  datatype ClassLookup =
    | ClassNamed(clazz: string)
    | FunctionProperty(property: string)
    | LookupThrew(error: string)

  /**
   * The registry of message classes: a class created for a fully qualified
   * name is cached under its short name, and a later request for any name
   * with the same short name returns the cached class.
   */
  class MessageClasses {
    /** Short name to the fully qualified name of the class registered under it. */
    var registry: map<string, string>

    /** Nothing is ever registered under a name the function already answers for. */
    ghost predicate Valid()
      reads this
    {
      forall k :: k in registry ==> k !in FUNCTION_PROPERTIES && k !in THROWING_PROPERTIES
    }

    constructor ()
      ensures Valid() && registry == map[]
    {
      registry := map[];
    }

    /**
     * Returns (the qualified name of) the class for `name`, creating it if
     * none is cached; a short name that is one of the function's own or
     * inherited properties gives that property back instead, or raises a
     * TypeError for `caller` and `arguments`, and registers nothing.
     */
    method MessageClass(name: string) returns (r: ClassLookup)
      requires Valid()
      modifies this
      ensures Valid()
      ensures var sname := ShortClassName(name);
        if sname in THROWING_PROPERTIES then r == LookupThrew(TYPE_ERROR) && registry == old(registry)
        else if sname in FUNCTION_PROPERTIES then r == FunctionProperty(sname) && registry == old(registry)
        else if sname in old(registry) then r == ClassNamed(old(registry)[sname]) && registry == old(registry)
        else r == ClassNamed(name) && registry == old(registry)[sname := name]
    {
      var sname := ShortClassName(name);
      if sname in THROWING_PROPERTIES {
        return LookupThrew(TYPE_ERROR);
      }
      if sname in FUNCTION_PROPERTIES {
        return FunctionProperty(sname);
      }
      if sname in registry {
        return ClassNamed(registry[sname]);
      }
      registry := registry[sname := name];
      return ClassNamed(name);
    }
  }
}
