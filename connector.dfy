/**
 * The connectors that carry a gateway's JSON messages to the server, one line
 * per message: `TCPconnector` over a TCP stream and `WSConnector` over a web
 * socket. Writing, the callbacks held back until the connection opens,
 * closing and the connection listeners are the same code in both; the TCP
 * connector also cuts the incoming stream into lines.
 *
 * The socket itself is a state and a log of the strings handed to it; the
 * callbacks held back are the actions they will perform. Listeners and the
 * read callback are named by identifiers.
 */
module Connector {
  import Text

  /** `readyState` of the socket; `NoSocket` before one exists. */
  datatype SockState = NoSocket | Opening | Open | ReadOnly | WriteOnly | Closed

  /** A callback held back until the connection opens. */
  datatype Action = SendText(text: string) | SendCloseAndDestroy

  const ALIVE_FALSE: string := "{\"alive\": false}\n"

  /** What running one held-back action hands to the socket. */
  function Said(a: Action): string
  {
    if a.SendText? then a.text else ALIVE_FALSE
  }

  /** Whether any of `actions` destroys the socket. */
  predicate Destroys(actions: seq<Action>)
  {
    exists i :: 0 <= i < |actions| && actions[i].SendCloseAndDestroy?
  }

  /**
   * The strings the socket carries when `actions` run in order: each action's
   * string up to and including the first farewell, after which the socket is
   * destroyed and carries nothing more.
   */
  function Output(actions: seq<Action>): (r: seq<string>)
    ensures |r| <= |actions|
  {
    if actions == [] then []
    else
      var init := actions[..|actions| - 1];
      if Destroys(init) then Output(init) else Output(init) + [Said(actions[|actions| - 1])]
  }

  /**
   * What `Output` carries: the actions' strings in order, all of them when
   * none is a farewell, and otherwise exactly up to and including the first
   * farewell.
   */
  lemma {:induction false} OutputMeaning(actions: seq<Action>)
    ensures var r := Output(actions);
      && (forall i :: 0 <= i < |r| ==> r[i] == Said(actions[i]))
      && (!Destroys(actions) ==> |r| == |actions|)
      && (Destroys(actions) ==>
            |r| >= 1 && actions[|r| - 1].SendCloseAndDestroy? && !Destroys(actions[..|r| - 1]))
  {
    if actions != [] {
      var init := actions[..|actions| - 1];
      var last := actions[|actions| - 1];
      OutputMeaning(init);
      var r := Output(init);
      assert forall i :: 0 <= i < |init| ==> init[i] == actions[i];
      if Destroys(init) {
        assert actions[..|r| - 1] == init[..|r| - 1];
      } else if !last.SendCloseAndDestroy? {
        assert !Destroys(actions) by {
          forall i | 0 <= i < |actions|
            ensures !actions[i].SendCloseAndDestroy?
          {
            if i < |init| {
              assert init[i] == actions[i];
            }
          }
        }
      } else {
        assert actions[..|actions| - 1] == init;
      }
    }
  }

  /** One more action: it speaks unless an earlier one destroyed the socket, and it may destroy it. */
  lemma OutputSnoc(actions: seq<Action>, a: Action)
    ensures Output(actions + [a]) == if Destroys(actions) then Output(actions) else Output(actions) + [Said(a)]
    ensures Destroys(actions + [a]) <==> Destroys(actions) || a.SendCloseAndDestroy?
  {
    var s := actions + [a];
    assert s[..|s| - 1] == actions && s[|s| - 1] == a;
    if Destroys(actions) {
      var i :| 0 <= i < |actions| && actions[i].SendCloseAndDestroy?;
      assert s[i] == actions[i];
    }
    if Destroys(s) && !a.SendCloseAndDestroy? {
      var i :| 0 <= i < |s| && s[i].SendCloseAndDestroy?;
      assert i < |actions| && actions[i] == s[i];
    }
  }

  /** `OutputSnoc` for the prefixes of one sequence. */
  lemma OutputStep(actions: seq<Action>, j: nat)
    requires j < |actions|
    ensures Output(actions[..j + 1]) ==
      if Destroys(actions[..j]) then Output(actions[..j]) else Output(actions[..j]) + [Said(actions[j])]
    ensures Destroys(actions[..j + 1]) <==> Destroys(actions[..j]) || actions[j].SendCloseAndDestroy?
  {
    assert actions[..j + 1] == actions[..j] + [actions[j]];
    OutputSnoc(actions[..j], actions[j]);
  }

  /** The non-empty strings of `ls`, in order. */
  function NonEmpty(ls: seq<string>): (r: seq<string>)
    ensures |r| <= |ls|
    ensures forall i :: 0 <= i < |r| ==> r[i] != ""
  {
    if ls == [] then []
    else NonEmpty(ls[..|ls| - 1]) + (if ls[|ls| - 1] != "" then [ls[|ls| - 1]] else [])
  }

  /** The non-empty strings of a longer prefix of `ls`. */
  lemma NonEmptyStep(ls: seq<string>, j: nat)
    requires j < |ls|
    ensures NonEmpty(ls[..j + 1]) == NonEmpty(ls[..j]) + (if ls[j] != "" then [ls[j]] else [])
  {
    assert ls[..j + 1][..j] == ls[..j];
  }

  lemma {:induction false} NonEmptyCons(x: string, ls: seq<string>)
    ensures NonEmpty([x] + ls) == (if x != "" then [x] else []) + NonEmpty(ls)
  {
    if ls != [] {
      assert ([x] + ls)[..|[x] + ls| - 1] == [x] + ls[..|ls| - 1];
      NonEmptyCons(x, ls[..|ls| - 1]);
    } else {
      assert ([x] + ls)[..|[x] + ls| - 1] == [];
    }
  }

  /**
   * Line framing, character by character: with `buf` the unfinished line
   * so far, feeding `s` gives the non-empty lines completed by a '\n' and the
   * new unfinished line.
   */
  function Feed(buf: string, s: string): (r: (seq<string>, string))
    requires '\n' !in buf
    ensures '\n' !in r.1
    ensures forall i :: 0 <= i < |r.0| ==> r.0[i] != "" && '\n' !in r.0[i]
    decreases |s|
  {
    if s == [] then ([], buf)
    else if s[0] == '\n' then
      var rest := Feed("", s[1..]);
      ((if buf != "" then [buf] else []) + rest.0, rest.1)
    else
      Feed(buf + [s[0]], s[1..])
  }

  /** Framing does not depend on how the stream is cut into chunks. */
  lemma {:induction false} FeedChunks(buf: string, s1: string, s2: string)
    requires '\n' !in buf
    ensures var a := Feed(buf, s1); var b := Feed(a.1, s2);
      Feed(buf, s1 + s2) == (a.0 + b.0, b.1)
    decreases |s1|
  {
    if s1 == [] {
      assert s1 + s2 == s2;
      assert [] + Feed(buf, s2).0 == Feed(buf, s2).0;
    } else {
      assert (s1 + s2)[1..] == s1[1..] + s2;
      if s1[0] == '\n' {
        FeedChunks("", s1[1..], s2);
        var pre: seq<string> := if buf != "" then [buf] else [];
        var a' := Feed("", s1[1..]);
        var b := Feed(a'.1, s2);
        assert pre + (a'.0 + b.0) == (pre + a'.0) + b.0;
      } else {
        FeedChunks(buf + [s1[0]], s1[1..], s2);
      }
    }
  }

  /** Splitting at the first separator gives the part before it, then the split of the rest. */
  lemma {:induction false} SplitAtFirst(a: string, c: char, r: string)
    requires c !in a
    ensures Text.Split(a + [c] + r, c) == [a] + Text.Split(r, c)
  {
    var s := a + [c] + r;
    if a == [] {
      assert s == [c] + r;
      assert s[1..] == r;
    } else {
      ConsParts(a, c, r);
      SplitAtFirst(a[1..], c, r);
    }
  }

  /** The first character of a non-empty `a` heads `a + [c] + r`, and the rest follows it. */
  lemma ConsParts(a: string, c: char, r: string)
    requires a != []
    ensures (a + [c] + r)[0] == a[0]
    ensures (a + [c] + r)[1..] == a[1..] + [c] + r
    ensures [a[0]] + a[1..] == a
  {
  }

  /** A leading newline ends the unfinished line: the split gains it as a first part. */
  lemma SplitAfterNewline(buf: string, s: string)
    requires '\n' !in buf && |s| > 0 && s[0] == '\n'
    ensures Text.Split(buf + s, '\n') == [buf] + Text.Split(s[1..], '\n')
  {
    assert buf + s == buf + ['\n'] + s[1..];
    SplitAtFirst(buf, '\n', s[1..]);
  }

  /** The framing of the rest, shifted behind the first part `buf`. */
  lemma NonEmptyAfterFirst(buf: string, rest: seq<string>)
    requires |rest| >= 1
    ensures var parts := [buf] + rest;
      NonEmpty(parts[..|parts| - 1]) == (if buf != "" then [buf] else []) + NonEmpty(rest[..|rest| - 1])
      && parts[|parts| - 1] == rest[|rest| - 1]
  {
    var parts := [buf] + rest;
    assert parts[..|parts| - 1] == [buf] + rest[..|rest| - 1];
    NonEmptyCons(buf, rest[..|rest| - 1]);
  }

  /** Framing `buf + s` as the split says, given that `s` alone is. */
  predicate FramedAsSplit(buf: string, s: string)
    requires '\n' !in buf
  {
    var parts := Text.Split(buf + s, '\n');
    Feed(buf, s) == (NonEmpty(parts[..|parts| - 1]), parts[|parts| - 1])
  }

  /** A leading newline: the unfinished line is passed on (when not empty) and framing restarts. */
  lemma FeedNewlineStep(buf: string, s: string)
    requires '\n' !in buf && |s| > 0 && s[0] == '\n'
    requires FramedAsSplit("", s[1..])
    ensures FramedAsSplit(buf, s)
  {
    assert "" + s[1..] == s[1..];
    SplitAfterNewline(buf, s);
    NonEmptyAfterFirst(buf, Text.Split(s[1..], '\n'));
  }

  /** Any other character joins the unfinished line. */
  lemma FeedCharStep(buf: string, s: string)
    requires '\n' !in buf && |s| > 0 && s[0] != '\n'
    requires FramedAsSplit(buf + [s[0]], s[1..])
    ensures FramedAsSplit(buf, s)
  {
    assert buf + s == (buf + [s[0]]) + s[1..];
  }

  /**
   * The source's framing (split the buffer on '\n', pass on the non-empty
   * parts but the last, keep the last) is `Feed`.
   */
  lemma {:induction false} FeedIsSplit(buf: string, s: string)
    requires '\n' !in buf
    ensures var parts := Text.Split(buf + s, '\n');
      Feed(buf, s) == (NonEmpty(parts[..|parts| - 1]), parts[|parts| - 1])
    decreases |s|
  {
    if s == [] {
      assert buf + s == buf;
      Text.SplitNoSeparator(buf, '\n');
    } else if s[0] == '\n' {
      FeedIsSplit("", s[1..]);
      FeedNewlineStep(buf, s);
    } else {
      FeedIsSplit(buf + [s[0]], s[1..]);
      FeedCharStep(buf, s);
    }
  }

  class Connector {
    var state: SockState
    /** The unfinished incoming line (TCP only). */
    var buf: string
    /** `pendingOnOpen`: callbacks to run once the connection opens, oldest first. */
    var pending: seq<Action>
    /** `connListeners`. */
    var listeners: seq<int>
    /** Whether a read callback is set. */
    var reader: bool
    /** Strings handed to the socket, oldest first. */
    var sent: seq<string>
    /** Connection events delivered to listeners: the listener and whether the connection is up. */
    var events: seq<(int, bool)>

    predicate Valid()
      reads this
    {
      '\n' !in buf
    }

    constructor ()
      ensures Valid()
      ensures state == NoSocket && buf == "" && pending == [] && listeners == [] && !reader
      ensures sent == [] && events == []
    {
      state := NoSocket;
      buf := "";
      pending := [];
      listeners := [];
      reader := false;
      sent := [];
      events := [];
    }

    /**
     * Writes a line: held back while there is no socket or it is opening,
     * sent at once when it is open, refused in any other state.
     */
    method Write(s: string) returns (ok: bool)
      modifies this`pending, this`sent
      ensures ok <==> state == NoSocket || state == Opening || state == Open
      ensures (state == NoSocket || state == Opening) ==>
        pending == old(pending) + [SendText(s + "\n")] && sent == old(sent)
      ensures state == Open ==> sent == old(sent) + [s + "\n"] && pending == old(pending)
      ensures !ok ==> sent == old(sent) && pending == old(pending)
    {
      if state == NoSocket || state == Opening {
        pending := pending + [SendText(s + "\n")];
        return true;
      } else if state == Open {
        sent := sent + [s + "\n"];
        return true;
      }
      return false;
    }

    /** Tells every registered listener whether the connection is up, in registration order. */
    method SendConnEvent(up: bool)
      modifies this`events
      ensures |events| == |old(events)| + |listeners| && events[..|old(events)|] == old(events)
      ensures forall i :: 0 <= i < |listeners| ==> events[|old(events)| + i] == (listeners[i], up)
    {
      var k := 0;
      while k < |listeners|
        invariant 0 <= k <= |listeners|
        invariant |events| == |old(events)| + k && events[..|old(events)|] == old(events)
        invariant forall i :: 0 <= i < k ==> events[|old(events)| + i] == (listeners[i], up)
      {
        events := events + [(listeners[k], up)];
        k := k + 1;
      }
    }

    /**
     * Runs the held-back callbacks in the order they were queued: the socket
     * carries their strings until a farewell destroys it.
     */
    method RunPending()
      requires state == Open
      modifies this`sent, this`state
      ensures state == (if Destroys(pending) then Closed else Open)
      ensures sent == old(sent) + Output(pending)
    {
      var ps := pending;
      var j := 0;
      while j < |ps|
        invariant 0 <= j <= |ps|
        invariant sent == old(sent) + Output(ps[..j])
        invariant state == (if Destroys(ps[..j]) then Closed else Open)
      {
        var a := ps[j];
        OutputStep(ps, j);
        if state == Open {
          sent := sent + [Said(a)];
          if a.SendCloseAndDestroy? {
            state := Closed;
          }
        }
        j := j + 1;
      }
      assert ps[..j] == ps;
    }

    /**
     * The connection opens: listeners hear `true`, the held-back callbacks
     * run and the queue empties, and the TCP buffer is cleared.
     */
    method OnOpen()
      modifies this`state, this`events, this`sent, this`pending, this`buf
      ensures Valid()
      ensures state == (if Destroys(old(pending)) then Closed else Open)
      ensures |events| == |old(events)| + |listeners| && events[..|old(events)|] == old(events)
      ensures forall i :: 0 <= i < |listeners| ==> events[|old(events)| + i] == (listeners[i], true)
      ensures sent == old(sent) + Output(old(pending))
      ensures pending == [] && buf == ""
    {
      state := Open;
      SendConnEvent(true);
      RunPending();
      pending := [];
      buf := "";
    }

    /**
     * Incoming TCP data: the complete non-empty lines go to the read callback
     * (dropped if none is set) and the text after the last '\n' stays buffered.
     */
    method ProcessSockData(s: string) returns (delivered: seq<string>)
      requires Valid()
      modifies this`buf
      ensures Valid()
      ensures buf == Feed(old(buf), s).1
      ensures delivered == if reader then Feed(old(buf), s).0 else []
    {
      var lines := Text.Split(buf + s, '\n');
      FeedIsSplit(buf, s);
      delivered := [];
      var idx := 0;
      while idx < |lines|
        invariant 0 <= idx <= |lines|
        invariant idx < |lines| ==> delivered == if reader then NonEmpty(lines[..idx]) else []
        invariant idx == |lines| ==> delivered == if reader then NonEmpty(lines[..|lines| - 1]) else []
        invariant idx == |lines| ==> buf == lines[|lines| - 1]
      {
        if idx < |lines| - 1 {
          NonEmptyStep(lines, idx);
          if lines[idx] != "" && reader {
            delivered := delivered + [lines[idx]];
          }
        } else {
          buf := lines[idx];
        }
        idx := idx + 1;
      }
    }

    /** `setReadCallback` with a function. */
    method SetReadCallback()
      modifies this`reader
      ensures reader
    {
      reader := true;
    }

    method AddConnectionListener(l: int)
      modifies this`listeners
      ensures listeners == old(listeners) + [l]
    {
      listeners := listeners + [l];
    }

    /** Removes the first registration of `l`, if any; the others keep their order. */
    method RemoveConnectionListener(l: int) returns (removed: bool)
      modifies this`listeners
      ensures removed <==> l in old(listeners)
      ensures !removed ==> listeners == old(listeners)
      ensures removed ==> (exists k :: 0 <= k < |old(listeners)| && old(listeners)[k] == l
                             && l !in old(listeners)[..k] && listeners == old(listeners)[..k] + old(listeners)[k + 1..])
    {
      var ndx := 0;
      while ndx < |listeners| && listeners[ndx] != l
        invariant 0 <= ndx <= |listeners|
        invariant l !in listeners[..ndx]
      {
        ndx := ndx + 1;
      }
      if ndx < |listeners| {
        listeners := listeners[..ndx] + listeners[ndx + 1..];
        return true;
      }
      assert listeners[..ndx] == listeners;
      return false;
    }

    /**
     * Closes the connector: an opening socket queues a farewell and destroy,
     * an open one sends the farewell and is destroyed, otherwise nothing.
     */
    method Close()
      modifies this`pending, this`sent, this`state
      ensures old(state) == Opening ==>
        pending == old(pending) + [SendCloseAndDestroy] && sent == old(sent) && state == old(state)
      ensures old(state) == Open ==> sent == old(sent) + [ALIVE_FALSE] && state == Closed && pending == old(pending)
      ensures old(state) != Opening && old(state) != Open ==>
        sent == old(sent) && pending == old(pending) && state == old(state)
    {
      if state == Opening {
        pending := pending + [SendCloseAndDestroy];
      } else if state == Open {
        sent := sent + [ALIVE_FALSE];
        state := Closed;
      }
    }
  }
}
