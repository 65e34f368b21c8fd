/**
 * The `wakeup` sample: packs a colon-separated MAC address given on the
 * command line into the global six-byte `mac_addr` and broadcasts the
 * Wake-on-LAN packet for it. `strtok` and `strtol` are modelled as the C
 * library defines them; `long` is 64 bits wide.
 */
module WakeupMac {
  import opened Wrappers
  import opened Bytes
  import WakeOnLan

  const MAC_ADDR_MAX: nat := 6
  const CONVERT_BASE: nat := 16
  const LONG_MAX: int := 0x7FFF_FFFF_FFFF_FFFF
  const LONG_MIN: int := -0x8000_0000_0000_0000

  // ---------------------------------------------------------------------
  // strtok(s, ":")
  // ---------------------------------------------------------------------

  /** `s` with its leading delimiters skipped, as `strtok` does before a token. */
  function SkipColons(s: string): (r: string)
    ensures |r| <= |s| && r == s[|s| - |r|..]
    ensures r == [] || r[0] != ':'
    ensures r == [] <==> forall i :: 0 <= i < |s| ==> s[i] == ':'
  {
    if s != [] && s[0] == ':' then SkipColons(s[1..]) else s
  }

  /** Length of the run of non-delimiter characters `s` starts with. */
  function Span(s: string): (n: nat)
    ensures n <= |s|
    ensures forall i :: 0 <= i < n ==> s[i] != ':'
    ensures n < |s| ==> s[n] == ':'
  {
    if s == [] || s[0] == ':' then 0 else 1 + Span(s[1..])
  }

  /**
   * One `strtok` call on the text it has left: no token once only
   * delimiters remain; otherwise, past the leading delimiters, the next
   * maximal run of non-delimiters and the text after the delimiter that
   * ended it.
   */
  function NextToken(s: string): (r: Option<(string, string)>)
    ensures r.None? <==> forall i :: 0 <= i < |s| ==> s[i] == ':'
    ensures r.Some? ==> r.value.0 != [] && ':' !in r.value.0 && |r.value.1| < |s|
    decreases |s|
  {
    if s == [] then None
    else if s[0] == ':' then NextToken(s[1..])
    else
      var n := Span(s);
      Some((s[..n], if n < |s| then s[n + 1..] else []))
  }

  /** `strtok` skips the leading delimiters before it looks for a token. */
  lemma {:induction false} NextTokenAfterSkip(s: string)
    ensures NextToken(s) == NextToken(SkipColons(s))
    decreases |s|
  {
    if s != [] && s[0] == ':' {
      NextTokenAfterSkip(s[1..]);
    }
  }

  /** Every token successive `strtok` calls return, in order. */
  function Tokens(s: string): (ts: seq<string>)
    ensures forall i :: 0 <= i < |ts| ==> ts[i] != [] && ':' !in ts[i]
    decreases |s|
  {
    match NextToken(s)
    case None => []
    case Some((t, rest)) => [t] + Tokens(rest)
  }

  /** The tokens joined by single colons. */
  function Join(ts: seq<string>): string
  {
    if ts == [] then [] else if |ts| == 1 then ts[0] else ts[0] + ":" + Join(ts[1..])
  }

  lemma {:induction false} SpanOfToken(t: string, rest: string)
    requires ':' !in t
    ensures Span(t + rest) == |t| + Span(rest)
    decreases |t|
  {
    if t != [] {
      assert t[0] in t && (t + rest)[0] == t[0];
      assert (t + rest)[1..] == t[1..] + rest;
      SpanOfToken(t[1..], rest);
    } else {
      assert t + rest == rest;
    }
  }

  /** `strtok` splits the colon-joined tokens back into those tokens. */
  lemma {:induction false} TokensOfJoin(ts: seq<string>)
    requires forall i :: 0 <= i < |ts| ==> ts[i] != [] && ':' !in ts[i]
    ensures Tokens(Join(ts)) == ts
    decreases |ts|
  {
    if ts == [] {
    } else if |ts| == 1 {
      NextTokenOfLast(ts[0]);
    } else {
      NextTokenOfJoin(ts[0], Join(ts[1..]));
      TokensOfJoin(ts[1..]);
    }
  }

  lemma NextTokenOfLast(t: string)
    requires t != [] && ':' !in t
    ensures NextToken(t) == Some((t, []))
    ensures Tokens(t) == [t]
  {
    SpanOfToken(t, []);
    assert t + [] == t;
    assert t[0] in t;
  }

  lemma NextTokenOfJoin(t: string, rest: string)
    requires t != [] && ':' !in t
    ensures NextToken(t + ":" + rest) == Some((t, rest))
  {
    var s := t + ":" + rest;
    SpanOfToken(t, ":" + rest);
    assert s == t + (":" + rest);
    assert t[0] in t && s[0] == t[0];
    assert s[..|t|] == t && s[|t| + 1..] == rest;
  }

  // ---------------------------------------------------------------------
  // strtol(tok, NULL, 16) and the cast to unsigned char
  // ---------------------------------------------------------------------

  function HexDigit(c: char): Option<nat>
  {
    if '0' <= c <= '9' then Some(c as nat - '0' as nat)
    else if 'a' <= c <= 'f' then Some(c as nat - 'a' as nat + 10)
    else if 'A' <= c <= 'F' then Some(c as nat - 'A' as nat + 10)
    else None
  }

  predicate IsSpace(c: char)
  {
    c == ' ' || c == '\t' || c == '\n' || c == '\r' || c == '\U{B}' || c == '\U{C}'
  }

  function SkipSpace(s: string): string
  {
    if s != [] && IsSpace(s[0]) then SkipSpace(s[1..]) else s
  }

  /** The value of the hex digits `s` starts with, continuing from `acc`; 0 digits leave `acc`. */
  function HexValue(s: string, acc: nat): nat
  {
    if s != [] && HexDigit(s[0]).Some? then HexValue(s[1..], 16 * acc + HexDigit(s[0]).value) else acc
  }

  /**
   * `strtol(s, NULL, 16)`: leading white space, an optional sign, an
   * optional `0x`/`0X` when a hex digit follows it, then as many hex digits
   * as there are (none gives 0), clamped to the range of `long`.
   */
  function Strtol16(s: string): (r: int)
    ensures LONG_MIN <= r <= LONG_MAX
  {
    var t := SkipSpace(s);
    var neg := t != [] && t[0] == '-';
    var u := if t != [] && (t[0] == '-' || t[0] == '+') then t[1..] else t;
    var d := if |u| >= 3 && u[0] == '0' && (u[1] == 'x' || u[1] == 'X') && HexDigit(u[2]).Some? then u[2..] else u;
    var v := HexValue(d, 0);
    if neg then (if v > -LONG_MIN then LONG_MIN else -(v as int))
    else (if v > LONG_MAX then LONG_MAX else v)
  }

  /** `(unsigned char) strtol(tok, NULL, 16)`: the value modulo 256. */
  function MacByte(tok: string): (b: Byte)
    ensures b == Strtol16(tok) % 256
  {
    Strtol16(tok) % 256
  }

  /** The usual upper-case two-digit spelling of a byte. */
  function Hex2(b: Byte): (s: string)
    ensures |s| == 2 && ':' !in s
  {
    var digits := "0123456789ABCDEF";
    [digits[b / 16], digits[b % 16]]
  }

  /** The two characters of `Hex2(b)` are the hex digits of `b`'s high and low nibble. */
  lemma Hex2Digits(b: Byte)
    ensures HexDigit(Hex2(b)[0]) == Some(b / 16) && HexDigit(Hex2(b)[1]) == Some(b % 16)
  {
  }

  /** `strtol` reads a byte's two-digit spelling back as that byte. */
  lemma MacByteOfHex2(b: Byte)
    ensures MacByte(Hex2(b)) == b
  {
    var s := Hex2(b);
    Hex2Digits(b);
    assert !IsSpace(s[0]) && s[0] != '-' && s[0] != '+';
    assert SkipSpace(s) == s;
    assert s[1..][1..] == [];
    calc {
      HexValue(s, 0);
      HexValue(s[1..], b / 16);
      HexValue(s[1..][1..], 16 * (b / 16) + b % 16);
      b;
    }
    assert Strtol16(s) == b;
  }

  /** An address written the usual way, six two-digit bytes joined by colons. */
  function Spelled(mac: seq<Byte>): string
  {
    Join(seq(|mac|, i requires 0 <= i < |mac| => Hex2(mac[i])))
  }

  // ---------------------------------------------------------------------
  // packMacAddr and main
  // ---------------------------------------------------------------------

  /**
   * `packMacAddr(mac, packedMac)`: parses the first six tokens into the
   * global `mac_addr` (never into `packedMac`, which is not modelled) and
   * ignores any further token; with fewer than six tokens it returns -1,
   * the bytes of the tokens it did find already written.
   */
  method PackMacAddr(mac: string, macAddr: array<Byte>) returns (rc: int)
    requires macAddr.Length == MAC_ADDR_MAX
    modifies macAddr
    ensures rc == 0 <==> |Tokens(mac)| >= MAC_ADDR_MAX
    ensures rc == 0 || rc == -1
    ensures forall i :: 0 <= i < MAC_ADDR_MAX && i < |Tokens(mac)| ==> macAddr[i] == MacByte(Tokens(mac)[i])
    ensures forall i :: |Tokens(mac)| <= i < MAC_ADDR_MAX ==> macAddr[i] == old(macAddr[i])
  {
    ghost var ts := Tokens(mac);
    var rest := mac;
    var tok := NextToken(rest);
    var i := 0;
    assert ts[0..] == ts;
    while i < MAC_ADDR_MAX
      invariant 0 <= i <= MAC_ADDR_MAX && i <= |ts|
      invariant tok == NextToken(rest) && ts[i..] == Tokens(rest)
      invariant forall k :: 0 <= k < i ==> macAddr[k] == MacByte(ts[k])
      invariant forall k :: i <= k < MAC_ADDR_MAX ==> macAddr[k] == old(macAddr[k])
    {
      if tok.None? {
        return -1;
      }
      TokensStep(ts, i, rest);
      macAddr[i] := MacByte(tok.value.0);
      rest := tok.value.1;
      tok := NextToken(rest);
      i := i + 1;
    }
    return 0;
  }

  /** The next `strtok` token of what is left is the next of the tokens, and the rest follow it. */
  lemma TokensStep(ts: seq<string>, i: nat, rest: string)
    requires i <= |ts| && ts[i..] == Tokens(rest) && NextToken(rest).Some?
    ensures i < |ts| && ts[i] == NextToken(rest).value.0 && ts[i + 1..] == Tokens(NextToken(rest).value.1)
  {
    var t := NextToken(rest).value;
    assert Tokens(rest) == [t.0] + Tokens(t.1);
    assert ts[i..][0] == ts[i];
    assert ts[i..][1..] == ts[i + 1..];
  }

  /** Any address spelled the usual way is packed into exactly its six bytes. */
  lemma PackSpelled(mac: seq<Byte>)
    requires |mac| == MAC_ADDR_MAX
    ensures |Tokens(Spelled(mac))| == MAC_ADDR_MAX
    ensures forall i :: 0 <= i < MAC_ADDR_MAX ==> MacByte(Tokens(Spelled(mac))[i]) == mac[i]
  {
    var ts := seq(|mac|, i requires 0 <= i < |mac| => Hex2(mac[i]));
    TokensOfJoin(ts);
    forall i | 0 <= i < MAC_ADDR_MAX
      ensures MacByte(Tokens(Spelled(mac))[i]) == mac[i]
    {
      MacByteOfHex2(mac[i]);
    }
  }

  /**
   * `main(argc, argv)`: without an address argument, -1 with the usage
   * message; then -1 when the address has fewer than six tokens; otherwise
   * the result of broadcasting the magic packet for the packed address
   * (`broadcastAllowed` is whether the socket accepts the broadcast option).
   */
  method WakeupMain(argv: seq<string>, macAddr: array<Byte>, broadcastAllowed: bool)
    returns (rc: int, sent: Option<seq<Byte>>)
    requires macAddr.Length == MAC_ADDR_MAX
    modifies macAddr
    ensures |argv| <= 1 ==> rc == -1 && sent.None? && macAddr[..] == old(macAddr[..])
    ensures |argv| > 1 && |Tokens(argv[1])| < MAC_ADDR_MAX ==> rc == -1 && sent.None?
    ensures |argv| > 1 && |Tokens(argv[1])| >= MAC_ADDR_MAX ==>
      && (forall i :: 0 <= i < MAC_ADDR_MAX ==> macAddr[i] == MacByte(Tokens(argv[1])[i]))
      && (rc == 0 <==> broadcastAllowed)
      && (broadcastAllowed ==> sent == Some(WakeOnLan.Packet(macAddr[..])))
      && (!broadcastAllowed ==> sent.None?)
  {
    if |argv| <= 1 {
      return -1, None;
    }
    var ret := PackMacAddr(argv[1], macAddr);
    if ret < 0 {
      return ret, None;
    }
    var port;
    ret, sent, port := WakeOnLan.EthernetWakeup(macAddr[..], broadcastAllowed);
    assert macAddr[..][..6] == macAddr[..];
    if ret < 0 {
      return ret, sent;
    }
    return 0, sent;
  }
}
