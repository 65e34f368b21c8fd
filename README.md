# unet-contrib client bindings, codecs and location agents in Dafny

This project models the client side of the UnetStack acoustic-modem bindings collected in the `unet-contrib` repository. It proves properties of that model.

The models cover:

- the datagram socket (`UnetSocket`) of the JavaScript binding, its CommonJS copy and both Python packages: binding, connecting, timeouts, provider selection, send validation and the receive filter and loops;
- the fjåge gateway machinery of the JavaScript bundle:
  - newline framing and the write queue held until the connection opens;
  - the bounded receive queue and reply matching by `inReplyTo`;
  - topic naming;
  - little-endian integer arrays decoded from base64 payloads;
- remote parameter access:
  - `ParamGetterSetterMixin`;
  - `CachingAgentID` and its per-index cache;
  - the Python `_ParameterReq`/`_ParameterRsp` lookup rules;
- the C bindings (`unet.c`, `unet_ext.c` and the contributed C API):
  - argument checks and request shapes for frame and signal transmission;
  - parameter index normalisation and success criteria;
  - chunked passband-recording reassembly into the caller's buffer;
  - the save and restore of remote parameters in `npulses`;
  - the wakeup power ramp and the recording-rate map;
  - the Wake-on-LAN magic packet;
- the codecs:
  - the RIFF WAVE 44-byte PCM header and sample I/O of `wav_file.h`, over byte sequences;
  - the least-significant-bit-first `BitBuffer`;
  - the colon-separated MAC parser of the `wakeup` sample;
- the two Java `Location` agents:
  - NMEA 0183 RMC/GGA field extraction and the degree/minute split;
  - dotted-quad IPv4 validation;
  - guarded setters and the retry and timeout counters.

The remote side (the fjåge gateway, the agents it hosts, and service lookup) is an oracle. Each request becomes one atomic call whose reply is a parameter. Notification streams are sequences handed to the receiving operation. Clocks and random identifiers are parameters as well. State the source changes in place is held in classes with `modifies` frames; pure lookups and encoders are functions with lemmas.

## Model

| member | source | states |
|---|---|---|
| Datagram.FirstProvider | unetsocket/js/src/unetsocket.js:105-111 | the provider is the answer for the first service, in the order transport, routing, link, physical, datagram, that has one; none exactly when no service answers |
| Datagram.FindProvider | unetsocket/python/unetpy/__init__.py:353-366 | the cached provider when there is one, otherwise the first service in that order that answers |
| Datagram.ValidProtocolRange | unetsocket/python/unetpy/__init__.py:136-149 | a protocol is usable exactly when it is not one of the reserved numbers 1 to 31 and not above MAX (63) |
| Datagram.AcceptsBoundOrUnreserved | unetsocket/python/unetpy/__init__.py:386-390 | a bound socket receives only its own protocol, and no socket ever receives a reserved protocol |
| JsSocket.PrepareSend | unetsocket/js/src/unetsocket.js:89-104 | `send` gives up exactly when the destination is negative, the socket is closed, the payload is neither an array nor a DatagramReq, or the protocol is reserved; an array becomes a request to `to` on `protocol`, and a DatagramReq passes unchanged |
| JsSocket.ReceiveFilterIff | unetsocket/js/src/unetsocket.js:120-127 | the receive filter accepts a message exactly when it is a DatagramNtf or RxFrameNtf on DATA or on a protocol from USER up, and is on the bound protocol when the socket is bound |
| JsSocket.UnetSocket.constructor | unetsocket/js/src/unetsocket.js:13-29 | a new socket is unbound, unconnected, has default protocol DATA, timeout 0 and no provider, and is subscribed to the topic of every datagram agent |
| JsSocket.UnetSocket.Close | unetsocket/js/src/unetsocket.js:31-38 | the socket is closed afterwards; closing it a second time fails |
| JsSocket.UnetSocket.Bind | unetsocket/js/src/unetsocket.js:40-46 | binds and returns true exactly for DATA or USER..MAX; otherwise the binding is unchanged |
| JsSocket.UnetSocket.Unbind | unetsocket/js/src/unetsocket.js:48-50 | the socket is unbound afterwards |
| JsSocket.UnetSocket.Connect | unetsocket/js/src/unetsocket.js:52-59 | sets the default destination and protocol, and returns true, exactly when `to` is not negative and the protocol is valid; otherwise nothing changes |
| JsSocket.UnetSocket.Disconnect | unetsocket/js/src/unetsocket.js:61-66 | the destination is forgotten and the default protocol is DATA |
| JsSocket.UnetSocket.SetTimeout | unetsocket/js/src/unetsocket.js:82-85 | a negative timeout becomes 0, any other is kept |
| JsSocket.UnetSocket.Send | unetsocket/js/src/unetsocket.js:89-116 | true exactly when a request was issued and answered AGREE; no request when `PrepareSend` gives up; a request without a recipient goes to the cached or first-found provider, and none is issued when there is no provider |
| JsSocket.UnetSocket.Receive | unetsocket/js/src/unetsocket.js:118-128 | a closed socket receives nothing; otherwise a message is received exactly when one queued passes the socket's filter, and the first such is removed and returned; with none, the queue is unchanged and a timeout of 0 gives up at once, while any other timeout registers a wait under the listener id with the socket's filter, timed exactly when the timeout is positive |
| PySocket.PrepareSend | unetsocket/python/unetpy/__init__.py:327-352 | bytes are refused exactly when no destination is given or set, or an explicit protocol is reserved; bytes are addressed according to which of `to` and `protocol` were given, and a ready message is taken as it is |
| PySocket.BytesNeverOnReservedProtocol | unetsocket/python/unetpy/__init__.py:334-346 | although only an explicit protocol is checked, bytes never go out on a reserved protocol while the default protocol is valid |
| PySocket.ReceiveOutcome | unetsocket/python/unetpy/__init__.py:380-391 | a delivered notification is always one the socket accepts; the loop is still waiting only when every round so far was discarded |
| PySocket.ReceiveStopsAtFirstKept | unetsocket/python/unetpy/__init__.py:380-391 | the loop skips every discarded round and the first round it keeps decides the result |
| PySocket.UnetSocket.constructor | unetsocket/python/unetpy/__init__.py:175-183 | a new socket is open, unbound, unconnected, has default protocol DATA, blocks forever (-1) and has no provider |
| PySocket.UnetSocket.Close | unetsocket/python/unetpy/__init__.py:197-208 | the socket is closed afterwards; closing it a second time fails |
| PySocket.UnetSocket.Bind | unetsocket/python/unetpy/__init__.py:210-221 | binds and returns True exactly for DATA or USER..MAX; otherwise the binding is unchanged |
| PySocket.UnetSocket.Unbind | unetsocket/python/unetpy/__init__.py:223-234 | the socket is unbound afterwards |
| PySocket.UnetSocket.Connect | unetsocket/python/unetpy/__init__.py:236-252 | sets the default destination and protocol exactly when `to` is not negative and the protocol is valid |
| PySocket.UnetSocket.Disconnect | unetsocket/python/unetpy/__init__.py:254-266 | the destination is forgotten and the default protocol is DATA |
| PySocket.UnetSocket.SetTimeout | unetsocket/python/unetpy/__init__.py:300-308 | any negative timeout becomes -1 (block forever), any other is kept |
| PySocket.UnetSocket.Send | unetsocket/python/unetpy/__init__.py:316-368 | None on a closed socket; otherwise True exactly when a request was issued and answered AGREE, with the provider found as in JavaScript |
| PySocket.UnetSocket.Receive | unetsocket/python/unetpy/__init__.py:370-391 | None on a closed socket; otherwise the outcome `ReceiveOutcome` gives for the gateway's answers |
| PyApiSocket.PrepareSend | contrib/Unet-Python-API/unetpy/__init__.py:486-509 | bytes are refused only for an explicit reserved protocol; with neither `to` nor `protocol` they go to the default address and protocol, connected or not; a ready message is taken as it is |
| PyApiSocket.SameRequestAsUnetpy | contrib/Unet-Python-API/unetpy/__init__.py:493-495 | the request is the one the `unetpy` socket builds, except that an unconnected socket sends to its default address -1 where `unetpy` refuses |
| PyApiSocket.ReceiveOutcome | contrib/Unet-Python-API/unetpy/__init__.py:537-562 | a delivered notification is always one the socket accepts; the loop is still waiting only when every round so far was discarded |
| PyApiSocket.ReceiveStopsAtFirstKept | contrib/Unet-Python-API/unetpy/__init__.py:544-562 | the loop skips every discarded round and the first round it keeps decides the result |
| PyApiSocket.UnetSocket.constructor | contrib/Unet-Python-API/unetpy/__init__.py:338-342 | a new socket is open, unbound, unconnected, has default protocol DATA, blocks forever (-1) and has no provider |
| PyApiSocket.UnetSocket.Bind | contrib/Unet-Python-API/unetpy/__init__.py:369-380 | binds and returns True exactly for DATA or USER..MAX; otherwise the binding is unchanged |
| PyApiSocket.UnetSocket.Connect | contrib/Unet-Python-API/unetpy/__init__.py:395-411 | sets the default destination and protocol exactly when `to` is not negative and the protocol is valid |
| PyApiSocket.UnetSocket.Disconnnect | contrib/Unet-Python-API/unetpy/__init__.py:413-418 | the destination is forgotten and the default protocol is DATA |
| PyApiSocket.UnetSocket.SetTimeout | contrib/Unet-Python-API/unetpy/__init__.py:459-467 | any negative timeout becomes -1, any other is kept |
| PyApiSocket.UnetSocket.Send | contrib/Unet-Python-API/unetpy/__init__.py:475-525 | None on a closed socket; otherwise True exactly when a request was issued and answered AGREE, with the provider found in the fixed service order |
| PyApiSocket.UnetSocket.Receive | contrib/Unet-Python-API/unetpy/__init__.py:527-565 | the deadline is fixed once at the call; every gateway call gets the time left (positive), 0 when non-blocking, or -1; the outcome is `ReceiveOutcome` of the rounds |
| PyApiParams.ShortIsLastSplitPart | contrib/Unet-Python-API/unetpy/__init__.py:97-98 | the short name of a parameter is the last part of the name split on '.' |
| PyApiParams.IndexOfShort | contrib/Unet-Python-API/unetpy/__init__.py:224-226 | the first key whose short name is the name asked for, and none before it; none exactly when no key matches |
| PyApiParams.Unwrap | contrib/Unet-Python-API/unetpy/__init__.py:101-114 | a value that is not a dictionary is returned as it is; a Date or ArrayList dictionary yields its "data" (a KeyError without it); a dictionary of another class becomes a generic object; one without a class yields its "data" if it has one and is returned unchanged otherwise |
| PyApiParams.UnwrapIdempotentOnPlain | contrib/Unet-Python-API/unetpy/__init__.py:101-114 | unwrapping a value that is not a dictionary twice gives the same as once |
| PyApiParams.Source | contrib/Unet-Python-API/unetpy/__init__.py:215-227 | the value read for a name is the single parameter when its name matches exactly, then an exact key, then the single parameter by short name, then the first key whose short name matches; nothing exactly when no rule applies |
| PyApiParams.RspGet | contrib/Unet-Python-API/unetpy/__init__.py:215-227 | `get` returns None when nothing names the parameter, and otherwise the unwrapped value found by `Source` |
| PyApiParams.Parameters | contrib/Unet-Python-API/unetpy/__init__.py:229-239 | the values with the single parameter merged in, in order, each dictionary unwrapped and every other value kept; an unwrapping error propagates |
| PyApiParams.IndexTag | contrib/Unet-Python-API/unetpy/__init__.py:200 | the printed form carries "index:N" exactly for a positive index |
| PyApiParams.Describe | contrib/Unet-Python-API/unetpy/__init__.py:198-200 | the printed form starts with the class name, ':', the performative and '[' and ends with ']' |
| PyApiParams.IndexShownIffPositive | contrib/Unet-Python-API/unetpy/__init__.py:198-200 | the printed form shows an index exactly when it is positive |
| PyApiParams.ReqItems | contrib/Unet-Python-API/unetpy/__init__.py:199 | one printed item per request entry, in order |
| PyApiParams.ParameterReq.constructor | contrib/Unet-Python-API/unetpy/__init__.py:183-188 | a new request has the given index (any value), no entries and performative REQUEST |
| PyApiParams.ParameterReq.Get | contrib/Unet-Python-API/unetpy/__init__.py:190-192 | appends a get entry and returns the request itself |
| PyApiParams.ParameterReq.Set | contrib/Unet-Python-API/unetpy/__init__.py:194-196 | appends a set entry with the value and returns the request itself |
| PyApiParams.RequestIndexTag | contrib/Unet-Python-API/unetpy/__init__.py:200 | the index part of the printed form: "index:N" for a positive integer, "index:True" for True, nothing for other integers and False, and a TypeError for an index that cannot be compared with 0 |
| PyApiParams.ParameterReq.ToString | contrib/Unet-Python-API/unetpy/__init__.py:198-200 | fails exactly when the index is neither an integer nor a boolean; for an integer index it is the class name, performative, index part and the entries joined by spaces, and every printed form starts with `_ParameterReq:` and the performative |
| PyApiParams.RspItems | contrib/Unet-Python-API/unetpy/__init__.py:245-246 | one printed item per value, each value unwrapped; an unwrapping error propagates |
| PyApiParams.ParamItem | contrib/Unet-Python-API/unetpy/__init__.py:243-244 | the single parameter's item, or nothing when there is none; an unwrapping error propagates |
| PyApiParams.RspToString | contrib/Unet-Python-API/unetpy/__init__.py:241-247 | the printed response starts with "_ParameterRsp:", the performative and '['; it fails exactly when an item fails |
| PyApiParams.AgentProxy.constructor | contrib/Unet-Python-API/unetpy/__init__.py:282-285 | a new proxy holds exactly one local attribute, "index", set to the given index through the setter |
| PyApiParams.AgentProxy.SetAttr | contrib/Unet-Python-API/unetpy/__init__.py:265-278 | name, owner, is_topic and index are stored locally without a request and returned, so assigning "index" makes it the index of every later request; any other name leaves the local attributes alone and is sent as one set request carrying the proxy's current index, and the result is None without a reply and otherwise what the reply holds for the name |
| PyApiParams.AgentProxy.GetAttr | contrib/Unet-Python-API/unetpy/__init__.py:252-261 | one get request is sent, carrying the proxy's current index; None without a reply or when the reply carries no value, and otherwise what the reply holds for the name |
| Connector.OutputMeaning | unetsocket/js/dist/esm/unet.js:187-199 | the socket carries each held-back callback's string in order, all of them when none is a farewell, and otherwise up to and including the first farewell and nothing after it |
| Connector.Feed | unetsocket/js/dist/esm/unet.js:114-124 | every line handed on is non-empty and holds no newline, and the unfinished line kept holds no newline |
| Connector.FeedChunks | unetsocket/js/dist/esm/unet.js:114-124 | feeding the stream in two chunks delivers the same lines and leaves the same unfinished line as feeding it at once |
| Connector.FeedIsSplit | unetsocket/js/dist/esm/unet.js:114-124 | splitting buffer-plus-data on newlines, handing on the non-empty parts but the last and keeping the last, is exactly the character-by-character framing `Feed` |
| Connector.Connector.constructor | unetsocket/js/dist/esm/unet.js:45-55 | a new connector has no socket yet, an empty buffer, no held-back callbacks and no listeners |
| Connector.Connector.Write | unetsocket/js/dist/esm/unet.js:136-147 | a line is held back while there is no socket or it is opening, sent at once (with its newline) when it is open, and refused with false in every other state |
| Connector.Connector.SendConnEvent | unetsocket/js/dist/esm/unet.js:58-62 | every registered listener hears the event once, in registration order |
| Connector.Connector.RunPending | unetsocket/js/dist/esm/unet.js:109 | running the held-back callbacks sends exactly `Output` of them, and the socket ends destroyed exactly when one of them was a farewell |
| Connector.Connector.OnOpen | unetsocket/js/dist/esm/unet.js:105-112 | on opening, listeners hear `true`, the held-back callbacks run in order, their queue empties and the buffer is cleared |
| Connector.Connector.ProcessSockData | unetsocket/js/dist/esm/unet.js:114-124 | the lines delivered and the new buffer are those of `Feed`; with no read callback nothing is delivered |
| Connector.Connector.SetReadCallback | unetsocket/js/dist/esm/unet.js:153-155 | a function given as read callback is installed |
| Connector.Connector.AddConnectionListener | unetsocket/js/dist/esm/unet.js:167-169 | the listener is appended to the list |
| Connector.Connector.RemoveConnectionListener | unetsocket/js/dist/esm/unet.js:175-182 | true exactly when the listener was registered, in which case its first registration alone is removed; otherwise the list is unchanged |
| Connector.Connector.Close | unetsocket/js/dist/esm/unet.js:187-200 | an opening socket queues the farewell and destroy, an open one sends the farewell and is destroyed, and with no socket or any other state nothing happens |
| Gateway.ToJSONMarksTopic | unetsocket/js/dist/esm/unet.js:450-452 | an identifier's string form starts with '#' exactly when it is a topic, for names that do not start with '#' themselves |
| Gateway.ToJSONInjective | unetsocket/js/dist/esm/unet.js:450-452 | two identifiers with the same string form are the same identifier: the form keeps the name and tells topics from agents |
| Gateway.Topic | unetsocket/js/dist/esm/unet.js:957-963 | the result is always a topic: a name becomes the topic of that name, a topic is returned as it is, and an agent gets its notification topic (its name, then `__` and the sub-topic when one is given, then `__ntf`) |
| Gateway.TopicIdempotent | unetsocket/js/dist/esm/unet.js:957-963 | asking for the topic of a topic gives that same topic, whatever sub-topic is passed |
| Gateway.NewMessage | unetsocket/js/dist/esm/unet.js:541-548 | a new message has no sender; a reply is addressed to the original's sender and refers to the original's identifier unless that is empty; a message that replies to nothing has neither |
| Gateway.ReplyMatchesRequest | unetsocket/js/dist/esm/unet.js:807-812 | a reply built for a request is accepted by a receive that filters on that request or on its identifier |
| Gateway.UnsolicitedMatchesNoRequest | unetsocket/js/dist/esm/unet.js:807-812 | a message that replies to nothing is accepted by no request filter |
| Gateway.FirstMatch | unetsocket/js/dist/esm/unet.js:826 | the position found holds a matching message and no earlier message matches; with none found, no message of the queue matches |
| Gateway.Gateway.constructor | unetsocket/js/dist/esm/unet.js:656-665 | a new gateway has an empty queue, no pending requests, no subscriptions and no waiting receives |
| Gateway.Gateway.GetMessageFromQueue | unetsocket/js/dist/esm/unet.js:807-830 | an empty queue gives nothing; with a falsy filter (none, or the empty string) the oldest message is taken; a filter whose matching throws (`Message` itself or a class whose parent is not `Message`, which are called without `new`) raises a TypeError and leaves the queue alone; otherwise the first matching message is taken and the others keep their order, or nothing is taken when none matches |
| Gateway.Gateway.Receive | unetsocket/js/dist/esm/unet.js:1066-1095 | the promise is rejected exactly when the queue is not empty and the filter is truthy and throws when matched; otherwise a matching queued message is taken and returned at once, timeout 0 gives up with the queue unchanged, and any other timeout registers a waiting receive (timed exactly when the timeout is positive) |
| Gateway.Gateway.ExpireTimer | unetsocket/js/dist/esm/unet.js:1080-1086 | the timer exists only for a waiting receive with a positive timeout; when it fires that receive is removed and ends without a message |
| Gateway.Gateway.TrackRequest | unetsocket/js/dist/esm/unet.js:757-768 | the request's identifier joins the set of requests awaiting an answer |
| Gateway.Gateway.Subscribe | unetsocket/js/dist/esm/unet.js:971-975 | the gateway subscribes to the topic itself, or to an agent's notification topic |
| Gateway.Gateway.Flush | unetsocket/js/dist/esm/unet.js:1043-1045 | the queue is empty afterwards |
| Gateway.Gateway.Send | unetsocket/js/dist/esm/unet.js:1026-1036 | the message goes out with the gateway as sender, with its own performative or, lacking one, REQUEST for a class ending in `Req` and INFORM otherwise, every other field untouched; the result is whether the connector accepted it |
| Gateway.Gateway.Request | unetsocket/js/dist/esm/unet.js:1054-1057 | the request goes out from the gateway, and a message received for it is always a reply to that request |
| Gateway.Gateway.OnMsgRx | unetsocket/js/dist/esm/unet.js:680-746 | a malformed frame is ignored; the answer to a pending request settles it; a message for the gateway or a subscribed topic goes to the first waiting receive whose filter takes it even when an application event listener already took it, a waiting receive whose filter throws when matched (none given, or a class called without `new`) makes the handler throw with nothing changed, and the message joins the queue, dropping the oldest message when the queue is full, exactly when no waiting receive and no event listener took it; a message for anyone else is not kept; the server's standard queries are answered |
| Gateway.ShortClassName | unetsocket/js/dist/esm/unet.js:1123 | the short name is a suffix of the name and, for a name on one line, the text after its last '.' |
| Gateway.MessageClasses.MessageClass | unetsocket/js/dist/esm/unet.js:1122-1138 | a short name that is one of the function's own or inherited properties gives that property back (or a TypeError for `caller` and `arguments`) and registers nothing; a class already registered under the short name is returned without any change; otherwise the new class is registered under its short name, and no property name is ever registered |
| B64Array.Signed | unetsocket/js/dist/esm/unet.js:1171-1182 | the two's-complement reading of an unsigned number is within the signed range of its width, equal to it when non-negative and `2^(8n)` below it otherwise |
| B64Array.DecodeSucceedsIff | unetsocket/js/dist/esm/unet.js:1171-1182 | reading fixed-width integers succeeds exactly when the byte count is a multiple of the width, and then yields one value per width bytes |
| B64Array.DecodedInRange | unetsocket/js/dist/esm/unet.js:1167-1182 | every value read fits its type: bytes unsigned, shorts, ints and longs in their signed ranges |
| B64Array.ElementOfBytes | unetsocket/js/dist/esm/unet.js:1167-1182 | one value within the range of its width reads back from its own bytes, in either byte order |
| B64Array.DecodeEncode | unetsocket/js/dist/esm/unet.js:1167-1182 | decoding the bytes of an array of in-range values gives the array back |
| B64Array.LongArrayAsWritten | unetsocket/js/dist/esm/unet.js:1179-1182 | as written, the long case throws a TypeError for every non-empty input, because `DataView` has no `getInt64` |
| B64Array.LongArrayAsWrittenFails | unetsocket/js/dist/esm/unet.js:1179-1182 | eight zero bytes, the long 0, throw as written, although they are meant to decode to `[0]` |
| B64Array.ReadAll | unetsocket/js/dist/esm/unet.js:1167-1182 | the loop over the buffer yields the values of `Decode`, or a RangeError when the last read runs past the end |
| B64Array.B64ToArray | unetsocket/js/dist/esm/unet.js:1158-1195 | the result is `Expected`: integer arrays decoded by width and signedness, floating-point arrays counted, unknown type codes undefined |
| ParamMixin.RequestIndex | unetsocket/js/src/unet-utils.js:30 | an integer index is kept; anything else becomes -1 |
| ParamMixin.SetRequest | unetsocket/js/src/unet-utils.js:15-30 | nothing is sent exactly for falsy `params`; an array of names with null or undefined `values` throws a TypeError before anything is sent; a single name carries its value, and an array of names carries one request per name paired with `values[i]` as `ItemAt` reads it |
| ParamMixin.ItemAt | unetsocket/js/src/unet-utils.js:23 | `values[i]` is the array element, the string's `i`-th character, or the object's property named by the decimal spelling of `i`; it is undefined past the end, for a missing property, and on a boolean or number |
| ParamMixin.GetRequest | unetsocket/js/src/unet-utils.js:64-74 | the request goes to the agent without values: for one name, for each name of an array, or for every parameter when no name is given |
| ParamMixin.Merged | unetsocket/js/src/unet-utils.js:41-42 | the reply's values with its single parameter merged in: that parameter maps to the reply's value, and every other reported parameter is kept in place |
| ParamMixin.FindEndingWith | unetsocket/js/src/unet-utils.js:45 | the key found is the first whose name ends with the name asked for; with none found, no key does |
| ParamMixin.ValueFor | unetsocket/js/src/unet-utils.js:44-52 | the value comes from the first key ending with the name asked for; without such a key the default is returned |
| ParamMixin.Failed | unetsocket/js/src/unet-utils.js:33 | a failure yields an array of nulls, one per name, for an array request, and null otherwise |
| ParamMixin.SetResult | unetsocket/js/src/unet-utils.js:33-59 | without an INFORM reply carrying a parameter, the failure value; otherwise the reply's value for one name, and for an array the value reported for each name, null when none is |
| ParamMixin.SetResultAsWritten | unetsocket/js/src/unet-utils.js:44-52 | as written, the array case yields undefined, not null, for a name the agent does not report |
| ParamMixin.SetResultAsWrittenDiffers | unetsocket/js/src/unet-utils.js:44-52 | setting `["a"]` when the agent reports only `b` gives `[undefined]` as written, where `[null]` is meant |
| ParamMixin.Set | unetsocket/js/src/unet-utils.js:15-62 | `set` throws exactly when `SetRequest` does, with its TypeError; falsy `params` send nothing and resolve to null; otherwise the request sent is `SetRequest` and the promise resolves to `SetResult` |
| ParamMixin.GetResult | unetsocket/js/src/unet-utils.js:77-100 | the failure value unless an INFORM reply came (carrying a parameter when names were asked for); then all reported parameters for no names, each name's reported value (null when missing) for an array, or the reply's value for one name |
| ParamMixin.Get | unetsocket/js/src/unet-utils.js:64-103 | the request sent is `GetRequest` and the promise resolves to `GetResult` |
| ParamMixin.SetAgreesWithGet | unetsocket/js/src/unet-utils.js:33-100 | for the same reply, `set` and `get` on the same names resolve to the same values |
| ParamMixin.GetAllKeepsReported | unetsocket/js/src/unet-utils.js:84-87 | asking for all parameters returns every reported value, with the reply's single parameter among them |
| CachingAgent.ToNamedIsLastSegment | unetsocket/js/src/unetutils.js:347-351 | the short name is the text after the last '.', and a name without '.' is its own short name |
| CachingAgent.ObjectEntries | unetsocket/js/src/unetutils.js:306-308 | an object's keys and values in order, an array's positions with its elements, and nothing for a value without keys |
| CachingAgent.PairsMeaning | unetsocket/js/src/unetutils.js:305-311 | the names written are short names: the keys of the values when no names are given, otherwise the names given; the values are the array's elements, or the single value |
| CachingAgent.WrittenKeys | unetsocket/js/src/unetutils.js:312-318 | after the writes, exactly the names cached before and the names written are cached |
| CachingAgent.WrittenKeepsOthers | unetsocket/js/src/unetutils.js:312-318 | a name not written keeps its cached value and time |
| CachingAgent.WrittenLastWins | unetsocket/js/src/unetutils.js:312-318 | a written name holds the value of its last write (undefined past the end of the values), stored at the current time |
| CachingAgent.AfterUpdateMeaning | unetsocket/js/src/unetutils.js:304-319 | a nullish value, or an array of nullish values only, changes nothing; otherwise the cache of the index exists afterwards and every other index is untouched |
| CachingAgent.LookupAsWritten | unetsocket/js/src/unetutils.js:336-345 | as written, the cache is searched for the name as given, not for its short name |
| CachingAgent.Lookup | unetsocket/js/src/unetutils.js:336-345 | with names shortened as the cache stores them: the cached value of each name asked for, null for one not cached, null for an index without a cache |
| CachingAgent.LookupAsWrittenMissesQualified | unetsocket/js/src/unetutils.js:321-345 | with `foo` cached, `phy.foo` counts as cached, yet the lookup as written returns null where 5 is meant |
| CachingAgent.CachedValueReadBack | unetsocket/js/src/unetutils.js:304-345 | a single value just cached counts as cached for any positive age limit and reads back as itself |
| CachingAgent.ArraysNeverGreedy | unetsocket/js/src/unetutils.js:281-283 | an array request never takes the greedy path, since the union of its names with the special parameters is never empty |
| CachingAgent.FirstNamed | unetsocket/js/src/unetutils.js:290-295 | the key found is the first whose short name is the name asked for; with none found, no key has it |
| CachingAgent.PickNamed | unetsocket/js/src/unetutils.js:294-295 | the value of the first key whose short name matches, null when no key matches |
| CachingAgent.WriteAll | unetsocket/js/src/unetutils.js:314-318 | the loop leaves the cache of the index as `Written` describes: every name in order, the last write of a name winning |
| CachingAgent.CachingAgentID.constructor | unetsocket/js/src/unetutils.js:244-253 | a new identifier has an empty cache and the given greediness |
| CachingAgent.CachingAgentID.UpdateCache | unetsocket/js/src/unetutils.js:304-319 | the new cache is `AfterUpdate` of the old one |
| CachingAgent.CachingAgentID.Set | unetsocket/js/src/unetutils.js:264-268 | a `set` that throws rejects the promise, sends nothing and leaves the cache unchanged; otherwise the request and result are those of the uncached `set`, and the result is cached under the names set |
| CachingAgent.CachingAgentID.Get | unetsocket/js/src/unetutils.js:279-302 | names all cached young enough are answered from the cache with no request; otherwise a greedy identifier fetches and caches every parameter and picks the one asked for, and a non-greedy one (or an array request) fetches and caches just those names |
| FjageMsg.FieldAt | unetsocket/c/unet.c:436-437 | a field added to a message is what a getter of that name finds, when no earlier field has the name |
| FjageMsg.WireIndex | unetsocket/c/unet.c:435 | the index sent is never 0: index 0 goes out as -1, every other index as itself |
| FjageMsg.WireIndexInjective | unetsocket/c/unet.c:435 | two indices sent alike are equal, except 0 and -1, which both go out as -1 |
| FjageMsg.ParamRequest | unetsocket/c/unet.c:433-438 | a ParameterReq REQUEST to the given agent with the wire index, the parameter name and, for a setter only, the value |
| FjageMsg.SignalLengthComplex | unetsocket/c/unet.c:289 | a signal is sent as two floats per sample exactly when the carrier is non-zero, one per sample exactly when it is zero |
| FjageMsg.StrncpyContents | unetsocket/c/unet.c:636 | `strncpy` writes exactly `buflen` characters, the string's own first; a NUL is among them exactly when the string is shorter than the buffer |
| FjageMsg.GetFloatArray | unetsocket/c/unet.c:316 | as many floats as the message holds, at most the length asked, are copied to the buffer at the offset, and nothing else in the buffer changes |
| FjageMsg.CopyFloats | unetsocket/c/unet_ext.c:423 | `memcpy` of floats: the destination range holds the source's floats and the rest of the destination is unchanged |
| CModem.TxData | unetsocket/c/unet.c:208-236 | a NULL modem, a negative length or missing data sends nothing; control and data frames go out as a TxFrameReq with "type", any other type as a DatagramReq without it, to the physical agent with "to" and the bytes; 0 iff the reply agrees |
| CModem.GetRange | unetsocket/c/unet.c:254-276 | a RangeReq with "to" to the ranging agent; the range is read from the notification, and success needs an agreeing reply and a notification |
| CModem.TxSignal | unetsocket/c/unet.c:278-299 | a sampling rate other than the transmit rate, a NULL modem, a negative length or missing samples sends nothing; "fc" goes out only for a non-negative carrier, the samples as two floats each for a non-zero carrier |
| CModem.Record | unetsocket/c/unet.c:301-323 | a RecordBasebandSignalReq with "recLength"; after an agreeing reply and a notification the notification's samples, at most two floats per sample, fill the front of the buffer; on failure the buffer is unchanged |
| CModem.Set | unetsocket/c/unet.c:422-528 | a ParameterReq carrying the value to the agent for the service; without one, `iset` and `bset` send to the literal name and `fset` and `sset` to no recipient; 0 iff the reply informs |
| CModem.Get | unetsocket/c/unet.c:530-644 | a ParameterReq without a value to the agent for the service or the literal name; only an informing reply writes the output, which is the reply's value or the type's default, and for strings the `strncpy` of it |
| CModem.SetRecordingRate | unetsocket/c/unet.c:325-340 | 96000 and 192000 set "downconvRatio" 4 and 8 on the physical agent; any other rate fails with no request |
| CModem.WakeupPowerRamp | unetsocket/c/unet.c:405-409 | the ten attempts step the power level up by 2 dB from -20 dB to -2 dB, always below 0 dB |
| CModem.TxWakeup | unetsocket/c/unet.c:398-420 | ten power settings on the ramp; the first attempt passes the wake-up request and each later one the previous reply; the result is that of the last reply |
| WakeOnLan.AddressOfPacket | unetsocket/c/unet.c:374-381 | the six-byte address is recovered from the magic packet built for it |
| WakeOnLan.PacketOfAddress | unetsocket/c/unet.c:374-381 | a packet from which an address is recovered is the magic packet of that address |
| WakeOnLan.EthernetWakeup | unetsocket/c/unet.c:359-387 | the magic packet of the first six address bytes is broadcast to port 9 with result 0, or nothing is sent and the result is -1 when broadcast is refused (`unetsocket_ext_ethernet_wakeup` is the same code) |
| CExt.Set | unetsocket/c/unet_ext.c:197-299 | every setter sends the value to the agent for the service, or to the literal name when there is none; 0 iff the reply informs |
| CExt.Get | unetsocket/c/unet_ext.c:301-403 | a ParameterReq without a value to the agent for the service or the literal name; only an informing reply writes the output, read as the modem API's getters read it |
| CExt.SetPowerLevel | unetsocket/c/unet_ext.c:126-147 | "powerLevel" is set on the physical agent, with no recipient when there is none; 0 iff the reply informs |
| CExt.GetRange | unetsocket/c/unet_ext.c:102-124 | a RangeReq with "to" to the ranging agent looked up on the call; the range comes from the notification after an agreeing reply |
| CExt.SignalLengthAsWrittenHalvesComplex | unetsocket/c/unet_ext.c:439-440 | a carrier of 0.5 is flagged complex, yet as written only one float per sample is sent, half of the two meant |
| CExt.SignalLengthAsWrittenAgrees | unetsocket/c/unet_ext.c:440 | for a zero carrier or one of magnitude at least 1 the count as written is the intended one |
| CExt.TxSignal | unetsocket/c/unet_ext.c:428-450 | a NULL socket, a negative length or missing samples sends nothing; otherwise "fc", the complex flag for a non-zero carrier and two floats per sample exactly when the carrier is non-zero |
| CExt.BbRecord | unetsocket/c/unet_ext.c:452-474 | a NULL socket, a non-positive length or a NULL buffer sends nothing; after an agreeing reply and a notification its samples fill the front of the buffer, and on failure the buffer is unchanged |
| CExt.BlockCountCovers | unetsocket/c/unet_ext.c:411 | the blocks counted hold every sample, and one block fewer would not |
| CExt.BlockCountAsWrittenAgrees | unetsocket/c/unet_ext.c:411 | below 2^24 samples the float computation gives the exact ceiling |
| CExt.BlockCountAsWrittenDropsLastSample | unetsocket/c/unet_ext.c:411 | for 2^24 + 1 samples the float computation asks for 256 blocks, which hold fewer samples than that; 257 are needed |
| CExt.Received | unetsocket/c/unet_ext.c:416-419 | the blocks received before the first missing one: all present, and a shortfall means a missing notification |
| CExt.CopyBlock | unetsocket/c/unet_ext.c:419-423 | block `i` lands at `i * PBSBLK`, never past the samples asked for; every other element of the buffer is unchanged |
| CExt.BlocksDisjoint | unetsocket/c/unet_ext.c:422-423 | a later block is written after the end of every earlier one, so it cannot overwrite it |
| CExt.BlocksStep | unetsocket/c/unet_ext.c:416-424 | copying block `i` into place without touching what lies before it keeps every earlier block in place |
| CExt.FetchBlocks | unetsocket/c/unet_ext.c:416-424 | succeeds iff every block arrives; each block received is in its place and nothing at or after the samples asked for, or after the blocks received, changes |
| CExt.PbRecord | unetsocket/c/unet_ext.c:405-426 | "pbsblk" then "pbscnt" (the number of blocks) are set on the baseband agent; success needs both informing and every block arriving, and each block received is in place |
| CExt.Baseband.constructor | unetsocket/c/unet_ext.c:149-195 | the baseband agent starts with the given parameters and refusals, and no request asked |
| CExt.Baseband.Get | unetsocket/c/unet_ext.c:301-325 | an honoured get reads the parameter's value; the request is logged and consumes one answer of the agent |
| CExt.Baseband.Set | unetsocket/c/unet_ext.c:197-221 | an honoured set changes that one parameter and a refused one nothing; the request is logged and consumes one answer of the agent |
| CExt.Baseband.Transmit | unetsocket/c/unet_ext.c:176-182 | the transmission request is logged and consumes one answer of the agent, and is agreed unless the agent refuses it |
| CExt.Arm | unetsocket/c/unet_ext.c:165-175 | succeeds exactly when the agent honours the first four requests; the requests made are exactly `ArmCalls`: get then set "npulses", get then set "pulsedelay", stopping at the first refusal and then putting "npulses" back if it was set; the parameters end as `ArmValues`, the values read are returned and no other parameter changes |
| CExt.GetThenSet | unetsocket/c/unet_ext.c:165-175 | `iget(…) < 0 \|\| iset(…) < 0` on one parameter: the set is asked only after an honoured get; success exactly when both are honoured, the value read is the parameter's earlier value, and only an honoured set changes it |
| CExt.ArmCallsSteps | unetsocket/c/unet_ext.c:165-175 | arming stops at the first refused request and puts "npulses" back only once it was set; it makes four requests, all honoured, exactly when the agent honours the first four |
| CExt.ArmOutcome | unetsocket/c/unet_ext.c:165-175 | the first phase never transmits; on success it made the four requests and holds both new values; on failure its last request puts "npulses" back once it was changed, no other parameter changes, and both parameters are as before when the agent honours that restore |
| CExt.ArmSteps | unetsocket/c/unet_ext.c:165-175 | the requests made are `ArmCalls` and the parameters end as `ArmValues`; success exactly when the first four requests are honoured, and then the values read are the earlier ones |
| CExt.ArmPulseDelay | unetsocket/c/unet_ext.c:170-175 | "pulsedelay" is read and, if that is honoured, set; when either is refused "npulses" is put back, and that restore changes it only when honoured |
| CExt.NPulses | unetsocket/c/unet_ext.c:149-195 | too short a pulse interval or bad arguments change nothing; otherwise a transmission is made exactly when the agent honours the four arming requests, and the requests are `ArmCalls` when it does not; after a transmission both parameters are put back, each restore succeeding exactly when the agent honours it; 0 exactly when the checks pass, arming is honoured and the transmission is agreed |
| CExt.PulseRequest | unetsocket/c/unet_ext.c:176-180 | a TxBasebandSignalReq REQUEST to the baseband agent with "fc" 0, carrying the first `nsamples` samples exactly when a signal is given |
| CExt.PulsesOutcome | unetsocket/c/unet_ext.c:165-194 | once the checks pass, a transmission is made exactly when the first phase is honoured, and then seven requests end with the two restores of the values read; otherwise the requests are those of the first phase; no other parameter changes, and both are as before when every restore is honoured |
| CExt.Pulses | unetsocket/c/unet_ext.c:165-194 | the requests made are `PulsesCalls` and the parameters end as `PulsesValues`; 0 exactly when the first phase is honoured and the transmission agreed |
| CExt.TransmitAndRestore | unetsocket/c/unet_ext.c:181-194 | the transmission request is followed, on either outcome, by setting "npulses" and then "pulsedelay" back to the saved values; each of the three requests succeeds exactly when the agent honours it, each honoured set leaves the parameter at its saved value, a refused one leaves it as it was, and no other parameter changes; the new parameter map is the old one with the honoured restores applied |
| ContribModem.TxSignal | contrib/Unet-C-API/unet.c:203-220 | as the current binding's, with no sampling rate to check |
| ContribModem.TxSignalRejectsFewer | contrib/Unet-C-API/unet.c:203-207 | the older API refuses only calls the current binding refuses too, and the same ones when the rate matches |
| ContribModem.Record | contrib/Unet-C-API/unet.c:222-240 | a RecordBasebandSignalReq with "recLen" and no "recLength"; the samples come from the notification's "data" |
| ContribModem.StrcpyCopiesWhole | contrib/Unet-C-API/unet.c:411-434 | the older `sget` copies the whole string; `strncpy` keeps the whole string when it fits the buffer and the first `buflen` characters otherwise |
| Wav.ShortOf | unetsocket/c/samples/wav_file.h:292-306 | a value converted to `short` lies in the 16-bit range and is unchanged when it already does |
| Wav.WordAt | unetsocket/c/samples/wav_file.h:446-456 | a word read from the file is always a `short` |
| Wav.LongAt | unetsocket/c/samples/wav_file.h:475-487 | a long word read from the file is always an `int` |
| Wav.WordRoundTrip | unetsocket/c/samples/wav_file.h:446-514 | a `short` written low byte first reads back as itself |
| Wav.LongRoundTrip | unetsocket/c/samples/wav_file.h:475-543 | an `int` written low byte first reads back as itself |
| Wav.SetInfo | unetsocket/c/samples/wav_file.h:768-787 | the header info holds the given rate and sample count and the four `short` fields, each kept when in range and wrapped otherwise |
| Wav.FindData | unetsocket/c/samples/wav_file.h:629-645 | the position found is the first one from the start at which "data" begins; with none found, "data" begins nowhere from there on |
| Wav.ParseHeader | unetsocket/c/samples/wav_file.h:563-653 | a header without "RIFF", without "WAVEfmt ", with a format other than PCM or without a "data" chunk is rejected; an accepted one is PCM and fits `WAV_FILE_INFO` |
| Wav.HeaderBytes | unetsocket/c/samples/wav_file.h:672-714 | the header written is 44 bytes long |
| Wav.HeaderLayout | unetsocket/c/samples/wav_file.h:672-714 | the header holds the tags, the format, channel count, rate, bytes per sample, word length and data length at their RIFF offsets |
| Wav.HeaderRoundTrip | unetsocket/c/samples/wav_file.h:563-714 | reading the header written for a PCM file with a positive sample size and a data length that fits an `int` recovers every field |
| Wav.Writer.constructor | unetsocket/c/samples/wav_file.h:676 | a file being written starts empty |
| Wav.Writer.Putc | unetsocket/c/samples/wav_file.h:306 | `putc` appends the value's low byte |
| Wav.Writer.PutTag | unetsocket/c/samples/wav_file.h:679 | `fprintf` of a tag appends its characters |
| Wav.Writer.WriteWord | unetsocket/c/samples/wav_file.h:507-514 | a word is appended as its two bytes, low byte first |
| Wav.Writer.WriteLong | unetsocket/c/samples/wav_file.h:534-543 | a long word is appended as its four bytes, low byte first |
| Wav.Writer.WriteRiffPreamble | unetsocket/c/samples/wav_file.h:679-688 | appends the RIFF tag, the file length, the "WAVEfmt " tag and the format size |
| Wav.Writer.WriteFmtFields | unetsocket/c/samples/wav_file.h:691-706 | appends the six format fields in file order |
| Wav.Writer.WriteHeader | unetsocket/c/samples/wav_file.h:672-714 | appends exactly the 44 header bytes of the info |
| Wav.SamplesBytes | unetsocket/c/samples/wav_file.h:300-313 | 16-bit samples take two bytes each, 8-bit ones one byte, and any other word length writes nothing |
| Wav.SamplesBytesAt | unetsocket/c/samples/wav_file.h:300-307 | sample `i` is written at its own place: bytes `2i` and `2i+1` for 16-bit data, byte `i` for 8-bit data |
| Wav.SamplesRoundTrip | unetsocket/c/samples/wav_file.h:222-314 | reading back the bytes written for in-range samples gives each sample back |
| Wav.Reader.constructor | unetsocket/c/samples/wav_file.h:574 | a file being read starts at its first byte, not at its end |
| Wav.Reader.Rewind | unetsocket/c/samples/wav_file.h:574 | `rewind` goes back to the first byte and clears the end-of-file flag |
| Wav.Reader.Getc | unetsocket/c/samples/wav_file.h:635 | `getc` returns the next byte and advances, or returns -1 at the end and sets the end-of-file flag |
| Wav.Reader.Read | unetsocket/c/samples/wav_file.h:577 | `fread` returns the next bytes, fewer at the end of the file, and sets the end-of-file flag when it runs short |
| Wav.Reader.ReadWord | unetsocket/c/samples/wav_file.h:446-456 | reads the word at the position, advancing by two bytes or to the end |
| Wav.Reader.ReadLong | unetsocket/c/samples/wav_file.h:475-487 | reads the long word at the position, advancing by four bytes or to the end |
| Wav.WindowSlides | unetsocket/c/samples/wav_file.h:632-635 | each character read shifts the four-character window by one |
| Wav.WindowSpellsData | unetsocket/c/samples/wav_file.h:636 | the window spells "data" exactly when "data" ends at the last character read |
| Wav.FirstData | unetsocket/c/samples/wav_file.h:631-645 | the first "data" at or after byte 36 is the one the search reports |
| Wav.ScanStep | unetsocket/c/samples/wav_file.h:630-635 | each `getc` slides the four-character window by one byte, and the window spells "data" exactly when "data" ends at the byte just read |
| Wav.NoData | unetsocket/c/samples/wav_file.h:639-644 | a scan that reaches the end of the file without seeing "data" means there is none from byte 36 on |
| Wav.ScanForData | unetsocket/c/samples/wav_file.h:629-645 | the scan succeeds exactly when "data" occurs from byte 36 on, and then stops just after the first occurrence |
| Wav.ReadHeader | unetsocket/c/samples/wav_file.h:563-653 | the header read is `ParseHeader` of the file's bytes |
| Wav.ReadChunks | unetsocket/c/samples/wav_file.h:597-653 | once both tags have matched, the rest of the header read is `ParseChunks` of the file's bytes |
| Wav.ReadFormat | unetsocket/c/samples/wav_file.h:610-627 | the channel count, sample rate, bytes per sample and word length are the little-endian words and long at bytes 22, 24, 32 and 34, the byte rate is skipped, and the reader stops at byte 36 or at the end of a shorter file |
| Wav.ParseChunks | unetsocket/c/samples/wav_file.h:597-653 | past the tags, a format other than PCM or a missing "data" chunk is rejected; an accepted header is PCM and fits `WAV_FILE_INFO` |
| CDivision.CDivTruncates | unetsocket/c/samples/wav_file.h:649 | the sample count `LongWord / BytesPerSample` is C's division: the quotient truncates toward zero for every sign of either operand, leaving a remainder smaller than the divisor in magnitude and signed as the dividend |
| CDivision.CDivExact | unetsocket/c/samples/wav_file.h:649 | dividing a data length that is an exact multiple of a positive sample size gives the multiple back |
| Wav.ReadData | unetsocket/c/samples/wav_file.h:222-270 | slot `i` holds the `i`-th sample, 0 once the file has ended; the count is the number of samples actually read; an unknown word length reads nothing and returns 0 |
| Wav.WriteData | unetsocket/c/samples/wav_file.h:292-314 | the bytes appended are exactly those of the first `bufLen` samples |
| BitBuffers.MaskIsShift | archive/samples/baseband/BitBuffer.java:66-67 | the mask of bit `p` is `0x01 << p` |
| BitBuffers.BitAt | archive/samples/baseband/BitBuffer.java:95-100 | a bit read is always 0 or 1 |
| BitBuffers.MaskedBits | archive/samples/baseband/BitBuffer.java:66-67 | clearing or setting one bit of a byte leaves the other seven as they were |
| BitBuffers.WithBitAt | archive/samples/baseband/BitBuffer.java:63-101 | a bit written reads back as that bit, and every other bit of the buffer is unchanged |
| BitBuffers.WriteAll | archive/samples/baseband/BitBuffer.java:63-72 | a run of single-bit writes leaves the buffer its size |
| BitBuffers.WriteAllSnoc | archive/samples/baseband/BitBuffer.java:63-72 | writing one more bit after a run is one more `write(bit)` at the next position |
| BitBuffers.WriteAllReads | archive/samples/baseband/BitBuffer.java:63-101 | after writing a run of bits from a position, reading from there gives the run back, and bits outside it are unchanged |
| BitBuffers.SpliceBits | archive/samples/baseband/BitBuffer.java:83-101 | bytes copied into the buffer read back bit by bit as the bytes copied |
| BitBuffers.PosSplit | archive/samples/baseband/BitBuffer.java:68-71 | the bit position splits into the byte index and the bit within that byte |
| BitBuffers.WithBitInByte | archive/samples/baseband/BitBuffer.java:66-67 | setting bit `bitPos` of byte `bytePos` is setting bit `8 * bytePos + bitPos` of the buffer |
| BitBuffers.BitBuffer.constructor | archive/samples/baseband/BitBuffer.java:19-21 | a new buffer holds `bytes` zero bytes and is positioned at its first bit |
| BitBuffers.BitBuffer.SizeInBytes | archive/samples/baseband/BitBuffer.java:28-30 | the size is the length of the byte array |
| BitBuffers.BitBuffer.SizeInBits | archive/samples/baseband/BitBuffer.java:37-39 | eight bits to a byte |
| BitBuffers.BitBuffer.GetBytes | archive/samples/baseband/BitBuffer.java:109-111 | the array returned is the buffer itself, so changes to it show in the buffer |
| BitBuffers.BitBuffer.Eos | archive/samples/baseband/BitBuffer.java:54-56 | the end is reached exactly when the position equals the size in bits, and otherwise lies before it |
| BitBuffers.BitBuffer.Reset | archive/samples/baseband/BitBuffer.java:44-47 | the position goes back to the first bit and the contents are untouched |
| BitBuffers.BitBuffer.PutBit | archive/samples/baseband/BitBuffer.java:66-67 | the bit at the position is cleared or set, and no other bit changes |
| BitBuffers.BitBuffer.Advance | archive/samples/baseband/BitBuffer.java:68-71 | the position moves on by exactly one bit |
| BitBuffers.BitBuffer.Write | archive/samples/baseband/BitBuffer.java:63-72 | a bit other than 0 or 1, or a full buffer, throws with nothing changed; otherwise the bit is written, reads back as itself, and the position advances by one |
| BitBuffers.BitBuffer.WriteBytes | archive/samples/baseband/BitBuffer.java:80-86 | a partial byte pending, or data running past the end, throws with nothing changed; otherwise the data replaces the bytes at the position and the position moves past it |
| BitBuffers.BitBuffer.Read | archive/samples/baseband/BitBuffer.java:93-101 | -1 at the end with the position unmoved; otherwise the bit at the position, and the position advances by one |
| JavaText.IntOf | contrib/Location/Location.java:172 | an `int` result lies in the 32-bit range and equals the mathematical value when that is in range |
| JavaText.IntOfWraps | contrib/Location/Location.java:172 | an `int` result differs from the mathematical value by a multiple of 2^32 |
| JavaText.FieldLength | contrib/Location/Location.java:312 | the first field is the run of characters before the first separator |
| JavaText.FieldsSeparatorFree | contrib/Location/Location.java:312 | there is at least one field and no field holds the separator |
| JavaText.DropTrailingEmptyMeaning | contrib/Location/Location.java:312 | what remains is a prefix of the fields ending in a non-empty one, and everything dropped was empty |
| JavaText.SplitSeparatorFree | contrib/Location/Location.java:312 | no piece of a `split` holds the separator |
| JavaText.FieldsOfJoin | contrib/Location/Location.java:317-320 | the fields of strings joined by the separator are those strings, when none holds it |
| JavaText.SplitOfJoin | contrib/Location/Location.java:317-320 | splitting two or more strings joined by the separator, the last non-empty, gives them back |
| JavaText.FieldsOfTrailing | contrib/Location/Location.java:375 | a separator added at the end adds one empty field |
| JavaText.SplitTrailing | contrib/Location/Location.java:375 | `split` of a non-empty string ignores a separator added at its end |
| JavaText.ParseInt | contrib/Location/Location.java:381 | `Integer.parseInt` accepts only an optional sign followed by decimal digits and yields an `int` |
| JavaText.Decimal | contrib/Location/Location.java:381 | a number's decimal spelling is digits only, without a leading zero |
| JavaText.DecValueOfDecimal | contrib/Location/Location.java:381 | reading a number's decimal digits gives the number back |
| JavaText.ParseIntOfDecimal | contrib/Location/Location.java:381 | `Integer.parseInt` of an `int`'s decimal spelling gives that `int` |
| Nmea.LatestNmea | contrib/unetstack3-location/org/subnero/unet/nodeinfo/Location.java:222-228 | the line chosen is a position sentence with none after it; with none chosen, no line is a position sentence |
| Nmea.FixTimeMeaning | contrib/Location/Location.java:315 | a fix time needs at least six characters, else the substring throws; the result is `hh:mm:ss`, the rest of the field and " UTC", and dropping the colons and the suffix gives the field back |
| Nmea.DegreesMinutes | contrib/Location/Location.java:322-330 | the degree string and the minute string together spell the field they came from |
| Nmea.ParseNumbers | contrib/Location/Location.java:332-337 | the fix time is assigned whatever follows; success means all four numbers were assigned |
| Nmea.ParseFieldsMeaning | contrib/Location/Location.java:310-340 | fewer than three fields throws before any assignment; no fix returns false with nothing assigned; success assigns the fix time and the four numbers read from the degree and minute strings; a parse that throws keeps what it assigned before |
| Nmea.NoFixKeepsPosition | contrib/Location/Location.java:313 | a sentence without a fix leaves every position field as it was |
| Nmea.ParsedPositionIsNew | contrib/Location/Location.java:315-337 | after a successful parse the position no longer depends on what it was before |
| Nmea.HemispheresIgnored | contrib/Location/Location.java:317-320 | the N/S and E/W fields are never read, so southern and western positions come out as positive degrees |
| Nmea.CoordinateSplit | contrib/Location/Location.java:317-330 | a field `dddmm.mmmm` splits into its two parts at the dot, and the degree and minute strings spell it back |
| Nmea.CheckTokens | contrib/Location/Location.java:380-386 | the token loop can only throw NumberFormatException |
| Nmea.CheckTokensAccepts | contrib/Location/Location.java:380-387 | the token loop accepts exactly when every token parses to a number from 0 to 255 |
| Nmea.DottedQuadAccepts | contrib/Location/Location.java:374-388 | a dotted address is accepted exactly when it splits into four tokens, each a number from 0 to 255 |
| Nmea.DottedQuadTrailingDot | contrib/Location/Location.java:375 | a trailing dot after an address changes nothing, because `split` drops the empty token after it |
| Nmea.JoinFour | contrib/Location/Location.java:375 | four strings joined by dots are the dotted spelling of the four |
| Nmea.DottedQuadOfOctets | contrib/Location/Location.java:374-388 | every address written as four decimal numbers from 0 to 255 is accepted |
| Nmea.SplitFour | contrib/Location/Location.java:375 | a dotted spelling of four digit strings splits back into those four strings |
| Nmea.CheckFour | contrib/Location/Location.java:380-387 | four numbers from 0 to 255 pass the token loop |
| Nmea.ValidateDottedQuad | contrib/unetstack3-location/org/subnero/unet/nodeinfo/Location.java:379-394 | the loop's verdict is that of `DottedQuad`, which `DottedQuadAccepts` characterises |
| Location3.ValidIp | contrib/unetstack3-location/org/subnero/unet/nodeinfo/Location.java:379-394 | "localhost" is accepted; any other address is accepted or refused as a dotted quad |
| Location3.ValidateIPAddress | contrib/unetstack3-location/org/subnero/unet/nodeinfo/Location.java:379-394 | the check's result is `ValidIp` |
| Location3.ValidIpTrailingDot | contrib/unetstack3-location/org/subnero/unet/nodeinfo/Location.java:379-394 | a trailing dot on an address other than "localhost" goes unnoticed |
| Location3.Guard | contrib/unetstack3-location/org/subnero/unet/nodeinfo/Location.java:167 | the connection guard throws exactly when the address check does, and passes exactly for a non-empty valid address and a port from 1 to 65535 |
| Location3.Location.constructor | contrib/unetstack3-location/org/subnero/unet/nodeinfo/Location.java:45-47 | a new agent has no address, port 0, the initial position, is enabled, and has no socket and no running ticker |
| Location3.Location.WithIp | contrib/unetstack3-location/org/subnero/unet/nodeinfo/Location.java:49-53 | the address is kept exactly when it is valid; a check that throws is passed on |
| Location3.Location.WithPort | contrib/unetstack3-location/org/subnero/unet/nodeinfo/Location.java:55-59 | the port is kept exactly when it is from 1 to 65535 |
| Location3.Location.WithIpAndPort | contrib/unetstack3-location/org/subnero/unet/nodeinfo/Location.java:61-66 | address and port are both kept when both are valid, and neither otherwise |
| Location3.Location.CloseConnection | contrib/unetstack3-location/org/subnero/unet/nodeinfo/Location.java:256-269 | once a socket exists the agent is disconnected and the update ticker stopped; nothing else changes |
| Location3.Location.ConnectToServer | contrib/unetstack3-location/org/subnero/unet/nodeinfo/Location.java:164-201 | the connect ticker starts exactly when the guard passes; a throwing check is passed on; nothing else changes |
| Location3.Location.Startup | contrib/unetstack3-location/org/subnero/unet/nodeinfo/Location.java:74-78 | an agent already connected is left unchanged; otherwise it connects: the connect ticker starts exactly when the guard passes, and a throwing check is passed on |
| Location3.Location.Reconnect | contrib/unetstack3-location/org/subnero/unet/nodeinfo/Location.java:158-162 | the connection is closed and the connect ticker then runs exactly when the guard passes |
| Location3.Location.SetIp | contrib/unetstack3-location/org/subnero/unet/nodeinfo/Location.java:96-105 | any address is stored unchecked; the agent ends disconnected, and the connect ticker runs exactly when the guard passes |
| Location3.Location.SetPort | contrib/unetstack3-location/org/subnero/unet/nodeinfo/Location.java:111-120 | any port is stored unchecked; the agent ends disconnected, and the connect ticker runs exactly when the guard passes |
| Location3.Location.ConnectTick | contrib/unetstack3-location/org/subnero/unet/nodeinfo/Location.java:169-194 | each tick creates a socket; a successful connect stops the connect ticker and starts the update ticker, and a failed one leaves both as they were |
| Location3.Location.ParseSentence | contrib/unetstack3-location/org/subnero/unet/nodeinfo/Location.java:315-377 | the result is the parse's, and the position fields are the ones the parse assigned before it returned or threw |
| Location3.Location.UseLatest | contrib/unetstack3-location/org/subnero/unet/nodeinfo/Location.java:222-248 | only the most recent position sentence is parsed; a fix is passed on only when the agent is enabled, and a throwing parse is passed on |
| Location3.Location.ReadNmeaData | contrib/unetstack3-location/org/subnero/unet/nodeinfo/Location.java:203-254 | an empty poll adds one to the empty count and any other clears it; the position is that of the latest sentence's parse; unless that throws, the connection is reset exactly when the stream ended or failed or the count exceeded 5 |
| LocationContrib.AcceptsIp | contrib/Location/Location.java:187 | an address is accepted exactly when it is non-empty and a dotted quad of octets, and the check throws exactly when the dotted-quad check does |
| LocationContrib.LocalhostRefused | contrib/Location/Location.java:374-388 | unlike the unetstack3 agent, this agent refuses "localhost" |
| LocationContrib.Stopped | contrib/Location/Location.java:250 | a stopped ticker is not running, keeps its period, and a missing one stays missing |
| LocationContrib.TickerFor | contrib/Location/Location.java:172 | a new ticker runs, with a period of the given seconds in milliseconds when that fits an `int` |
| LocationContrib.FirstSuccessFrom | contrib/Location/Location.java:188-201 | the attempt found is the first at or after the start that connects; with none found, no attempt in range connects |
| LocationContrib.AttemptsBounded | contrib/Location/Location.java:186-201 | the retry loop never makes more attempts than the limit, and gives up only when every attempt failed |
| LocationContrib.CountAfter | contrib/Location/Location.java:246-253 | with a positive maximum the count stays below it, and without one it stays 0 |
| LocationContrib.CountBelowMax | contrib/Location/Location.java:247 | below the maximum the count is the number of failures in a row |
| LocationContrib.CountPeriodic | contrib/Location/Location.java:247-251 | a full round of failures brings the count back where it was |
| LocationContrib.FailuresClose | contrib/Location/Location.java:244-254 | every `maxTimeoutCnt`-th failure in a row, and only those, closes the connection |
| LocationContrib.FailuresIgnored | contrib/Location/Location.java:246 | with a maximum of 0 or less, failures are never counted and never close the connection |
| LocationContrib.Location.constructor | contrib/Location/Location.java:37-39 | a new agent has no address, port 0, the default settings, the initial position, no socket and no ticker |
| LocationContrib.Location.WithIp | contrib/Location/Location.java:41-45 | the address is kept exactly when it is valid; a check that throws is passed on |
| LocationContrib.Location.WithPort | contrib/Location/Location.java:47-51 | the port is kept exactly when it is from 1 to 65535 |
| LocationContrib.Location.WithIpAndPort | contrib/Location/Location.java:53-58 | address and port are both kept when both are valid, and neither otherwise |
| LocationContrib.Location.CloseConnection | contrib/Location/Location.java:258-272 | once a socket exists it is closed, the ticker stopped and the count cleared; nothing else changes |
| LocationContrib.Location.ConnectToServer | contrib/Location/Location.java:183-221 | with a valid address and port, at most `maxRetryLimit` attempts up to the first that connects; once connected with a positive period a new ticker runs, an earlier running one is left running with nothing referring to it |
| LocationContrib.Location.RetryLoop | contrib/Location/Location.java:188-201 | the loop stops at the first attempt that connects, or after `maxRetryLimit` failures |
| LocationContrib.Location.Startup | contrib/Location/Location.java:66-70 | an agent not yet connected connects exactly when its address and port are valid and an attempt succeeds |
| LocationContrib.Location.SetIp | contrib/Location/Location.java:87-96 | a valid address replaces the stored one and reconnects; any other is ignored, and one whose check throws changes nothing |
| LocationContrib.Location.SetPort | contrib/Location/Location.java:102-111 | a port from 1 to 65535 replaces the stored one and reconnects; any other is ignored |
| LocationContrib.Location.SetMaxRetryLimit | contrib/Location/Location.java:137-141 | only a positive limit replaces the stored one |
| LocationContrib.Location.SetTimeout | contrib/Location/Location.java:147-151 | only a positive timeout replaces the stored one |
| LocationContrib.Location.SetMaxTimeoutCnt | contrib/Location/Location.java:157-160 | any maximum is stored and the count is cleared |
| LocationContrib.Location.SetLocationUpdatePeriod | contrib/Location/Location.java:166-181 | a negative period is ignored; 0 removes the ticker; a positive one replaces it with a ticker of that period |
| LocationContrib.Location.ParseSentence | contrib/Location/Location.java:310-372 | the result is the parse's, and the position fields are the ones the parse assigned before it returned or threw |
| LocationContrib.Location.ReadNmeaData | contrib/Location/Location.java:223-256 | without a socket the read throws; a line clears the count and a position sentence with a fix moves the position and is handed on; the end of the stream only clears the line; a failed read counts towards the close |
| LocationContrib.Location.ReadLine | contrib/Location/Location.java:226-242 | the count is cleared; a `$GPRMC` line goes to the RMC parser and `$GPGGA` or `$GNGGA` to the GGA parser, and a fix is handed on |
| LocationContrib.Location.ReadPosition | contrib/Location/Location.java:229-240 | a position sentence is parsed and its fields assigned; a parse that throws is reported with its message and a parse that reports a fix appends the new position to the updates handed on |
| LocationContrib.Location.ReadFailed | contrib/Location/Location.java:244-255 | the count goes up by one when the maximum is positive, and reaching the maximum clears it, stops the ticker and closes the connection |
| WakeupMac.SkipColons | unetsocket/c/samples/wakeup.c:59 | what is left after the leading colons is a suffix of the text that does not start with a colon, and is empty exactly when the text is all colons |
| WakeupMac.NextTokenAfterSkip | unetsocket/c/samples/wakeup.c:59 | a `strtok` call finds the same token whether or not the leading colons were skipped first |
| WakeupMac.Span | unetsocket/c/samples/wakeup.c:59 | a token runs up to the first colon or the end |
| WakeupMac.NextToken | unetsocket/c/samples/wakeup.c:59-64 | `strtok` finds no token exactly when only colons remain; a token is non-empty, holds no colon, and leaves less text behind |
| WakeupMac.Tokens | unetsocket/c/samples/wakeup.c:59-64 | every token `strtok` returns is non-empty and holds no colon |
| WakeupMac.TokensOfJoin | unetsocket/c/samples/wakeup.c:59-64 | `strtok` splits colon-joined tokens back into those tokens |
| WakeupMac.NextTokenOfLast | unetsocket/c/samples/wakeup.c:59 | a lone token is returned whole, with nothing left behind |
| WakeupMac.NextTokenOfJoin | unetsocket/c/samples/wakeup.c:59-64 | a token followed by a colon is returned, and the text after the colon is what remains |
| WakeupMac.Strtol16 | unetsocket/c/samples/wakeup.c:63 | `strtol` clamps its result to the range of `long` |
| WakeupMac.MacByte | unetsocket/c/samples/wakeup.c:63 | the byte stored is the parsed value modulo 256 |
| WakeupMac.Hex2 | unetsocket/c/samples/wakeup.c:63 | a byte's usual spelling is two characters without a colon |
| WakeupMac.MacByteOfHex2 | unetsocket/c/samples/wakeup.c:63 | `strtol` in base 16 reads a byte's two-digit spelling back as that byte |
| WakeupMac.PackMacAddr | unetsocket/c/samples/wakeup.c:53-67 | 0 exactly when there are at least six tokens; byte `i` of `mac_addr` is the `i`-th token's value modulo 256 for each token found, and the bytes past the tokens found are unchanged |
| WakeupMac.PackSpelled | unetsocket/c/samples/wakeup.c:53-67 | an address spelled the usual way packs into exactly its six bytes |
| WakeupMac.WakeupMain | unetsocket/c/samples/wakeup.c:33-50 | without an argument, -1 and nothing changed; fewer than six tokens, -1 and nothing sent; otherwise the address is packed and its magic packet broadcast, with 0 exactly when broadcast is allowed |

## Left out

- The lock-pair mediator, the background monitor threads and the rx/tx callbacks of the C bindings are not modelled. They exist only for concurrency, so each request/receive is one atomic oracle call.
- Every `fjage_*` call, `gw.request`, `agentForService` and subscription is not modelled. It is foreign code, so replies, lookups and notification sequences are inputs.
- The C `modem_open_*`/`modem_close`, `modem_sleep`/`ext_sleep`, the RS-232 wakeup and the UDP `sendto`/`setsockopt` are left out. They are I/O; only the packet bytes are modelled.
- The `strcpy` of the modem id and all receive timeouts are left out; timeouts reach the model only as the oracle returning no message.
- TXSAMPLINGFREQ is a parameter of the C transmit model rather than a compiled-in constant.
- CExt.PbRecord: entries of the C temporary block buffer beyond the floats a notification carries are not modelled. The `fjage_subscribe` and the diagnostic `printf` are not modelled either.
- CExt.NPulses: the floating-point computation of the signal duration and pulse delay is not modelled. Both are given as parameters, and the wait for `TxFrameNtf` is not modelled.
- CModem.TxWakeup: the `sleep(3)` between attempts is not modelled.
- CModem.Record: requires a non-negative `nsamples` that fits the buffer, although `modem_record` sends any value. A negative count would pass a negative length to `fjage_msg_get_float_array`, which is foreign code, and a count beyond the buffer overruns it.
- ContribModem.Record: requires a non-negative `nsamples` that fits the buffer, for the same reason as CModem.Record.
- The `sget` copy of a NULL string is modelled as writing nothing.
- The WAV file functions (`fopen`/`rewind`/`fclose`, `wav_file_length`, `wav_read_file`/`wav_write_file`), `display_info` and the floating-point sample functions are left out. They are file or floating-point I/O; the byte-level functions work on byte sequences.
- A WAV header with BytesPerSample 0 divides by zero in C; it is modelled as an error result.
- BitBuffers.BitBuffer: a negative constructor size is excluded by `nat`, and Java `int` overflow of the positions is not modelled.
- WakeupMac: the in-place writes `strtok` makes into its argument and the usage `printf` are left out.
- Location: the floating-point `updateLocation`/`updateGpsCoordinates` are left out. Each call is recorded instead as the `Position` it is made with (the last fix time and the degrees and minutes of latitude and longitude, as reals), and the conversion to a local frame is not modelled.
- The dereference of a null origin in `contrib/Location/Location.java` is not modelled.
- Location: the plain getters, the depth/enable/updateNode setters, `setup`/`shutdown`, the socket connect/read and `close` (with its IOException) are left out. They are agent-framework I/O; the unetstack3 tickers are modelled as flags.
- Location: a new `BufferedReader` per tick and `parseInt` of non-ASCII digits are not modelled. Overflow of `emptyCount` is not modelled either; the `int` wrap in `TickerFor` is.
- TCP/WebSocket connector setup and reconnect timers, the process-wide gateway cache and the JSON wire format are left out. They are I/O and state shared across windows.
- A closure passed as a receive filter is a total predicate on messages; a closure that itself throws is not modelled, only the filters whose matching throws in `_matchMessage` itself.
- The randomness of `_guid` and the clocks (`Date.now`, `time.time`) are parameters (message ids, listener ids, current time).
- B64Array.B64ToArray: base64 decoding itself (the external `atob`) is taken as given. The '[F' and '[D' payloads are floating point; they are recognised but not decoded.
- The caching agent's `super.get`/`super.set` are the parameter mixin's request mapping.
- The toGps/toLocal conversions, `sensor.py`, the positioning utility and the Python message container classes are left out. They are floating point, hardware I/O or field defaults only.

## Findings

| source | as written | input that shows it | evidently intended | confidence | as-written member | corrected member |
|---|---|---|---|---|---|---|
| unetsocket/js/dist/esm/unet.js:1179-1182 | the '[J' case calls `DataView.getInt64`, which does not exist, so decoding throws a TypeError | any '[J' payload, e.g. 8 zero bytes | little-endian 64-bit integers, like the other integer cases | not executed | B64Array.LongArrayAsWrittenFails | B64Array.B64ToArray |
| unetsocket/js/src/unet-utils.js:44-52 | an array `set` maps a name the reply does not report to `undefined`, since that branch has no `return` | set `["a"]` when the agent reports only `b` | `null`, as for every other missing value | not executed | ParamMixin.SetResultAsWrittenDiffers | ParamMixin.SetResult |
| unetsocket/js/src/unetutils.js:336-345 | the cache is looked up with the name as given, while it is stored under the short name | get `phy.foo` with `foo` cached as 5 | the cached 5 | not executed | CachingAgent.LookupAsWrittenMissesQualified | CachingAgent.Lookup |
| unetsocket/c/unet_ext.c:411 | the block count is `(int)ceil((float)nsamples/PBSBLK)`, which rounds in single precision | nsamples = 16777217 gives 256 blocks where 257 are needed | the exact ceiling, so that every sample is fetched | not executed | CExt.BlockCountAsWrittenDropsLastSample | CExt.BlockCountCovers |
| unetsocket/c/unet_ext.c:438-440 | the signal is flagged complex when `fc != 0`, but the float count uses `(int)fc`, which is 0 for 0 < fc < 1 | fc = 0.5 with 100 samples sends 100 floats | 200 floats, two per complex sample | not executed | CExt.SignalLengthAsWrittenHalvesComplex | CExt.TxSignal |
