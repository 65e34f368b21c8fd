/**
 * What both Location agents do with NMEA 0183 text and with the GPS
 * server's address: pick the position sentence to use, take an RMC or GGA
 * sentence apart into a fix time and degree/minute strings, and check a
 * dotted-quad IPv4 address. `Double.parseDouble` is a parameter (a partial
 * function: None means NumberFormatException); thrown exceptions are error
 * results naming the exception.
 */
module Nmea {
  import opened Wrappers
  import opened JavaText

  const GPRMC := "$GPRMC"
  const GPGGA := "$GPGGA"
  const GNGGA := "$GNGGA"

  const INDEX_ERROR := "ArrayIndexOutOfBoundsException"
  const SUBSTRING_ERROR := "StringIndexOutOfBoundsException"
  const NUMBER_ERROR := "NumberFormatException"

  /** A line the agents take a position from. */
  predicate IsPositionSentence(line: string)
  {
    StartsWith(line, GPRMC) || StartsWith(line, GPGGA) || StartsWith(line, GNGGA)
  }

  /**
   * The index of the most recent position sentence among the lines read
   * (the lines reversed, then the first that starts with one of the three
   * prefixes), or None when there is none.
   */
  function LatestNmea(lines: seq<string>): (r: Option<nat>)
    ensures r.Some? ==> r.value < |lines| && IsPositionSentence(lines[r.value])
    ensures r.Some? ==> forall j :: r.value < j < |lines| ==> !IsPositionSentence(lines[j])
    ensures r.None? <==> forall j :: 0 <= j < |lines| ==> !IsPositionSentence(lines[j])
  {
    if lines == [] then None
    else if IsPositionSentence(lines[|lines| - 1]) then Some(|lines| - 1)
    else LatestNmea(lines[..|lines| - 1])
  }

  // ---------------------------------------------------------------------
  // Taking a sentence apart
  // ---------------------------------------------------------------------

  datatype Sentence = RMC | GGA

  /** Where the fix status (RMC) or latitude (GGA), the latitude and the longitude are. */
  function StatusIndex(kind: Sentence): nat { 2 }
  function LatIndex(kind: Sentence): nat { if kind == RMC then 3 else 2 }
  function LonIndex(kind: Sentence): nat { if kind == RMC then 5 else 4 }

  /** RMC needs an active fix ("A"); GGA a non-empty latitude field. */
  predicate HasFix(kind: Sentence, status: string)
  {
    if kind == RMC then status == "A" else status != []
  }

  /**
   * `t.substring(0,2) + ":" + t.substring(2,4) + ":" + t.substring(4,6) +
   * t.substring(6) + " UTC"`: hh:mm:ss and whatever follows, which needs
   * at least six characters.
   */
  function FixTime(t: string): Result<string, string>
  {
    if |t| < 6 then Err(SUBSTRING_ERROR)
    else Ok(t[..2] + ":" + t[2..4] + ":" + t[4..6] + t[6..] + " UTC")
  }

  /**
   * A fix time needs six characters; it is then `hh:mm:ss`, the rest and
   * " UTC", and dropping the colons and the suffix gives the field back.
   */
  lemma FixTimeMeaning(t: string)
    ensures FixTime(t).Ok? <==> |t| >= 6
    ensures FixTime(t).Err? ==> FixTime(t).error == SUBSTRING_ERROR
    ensures var r := FixTime(t);
      r.Ok? ==> |r.value| == |t| + 6 && r.value[2] == ':' && r.value[5] == ':'
    ensures var r := FixTime(t);
      r.Ok? ==> r.value[..2] + r.value[3..5] + r.value[6..|r.value| - 4] == t
    ensures var r := FixTime(t);
      r.Ok? ==> r.value[|r.value| - 4..] == " UTC"
  {
    if |t| >= 6 {
      var r := FixTime(t).value;
      assert r[..2] == t[..2] && r[3..5] == t[2..4] && r[6..|r| - 4] == t[4..];
      assert t[..2] + t[2..4] + t[4..] == t;
    }
  }

  /** The degree string of a `dddmm` integer part: all but its last two digits. */
  function Degrees(whole: string): string
    requires |whole| >= 2
  {
    whole[..|whole| - 2]
  }

  /** The minute string: the last two digits of the integer part, ".", the fraction. */
  function Minutes(whole: string, fraction: string): string
    requires |whole| >= 2
  {
    whole[|whole| - 2..] + "." + fraction
  }

  /** The degree and minute strings together spell the field they came from. */
  lemma DegreesMinutes(whole: string, fraction: string)
    requires |whole| >= 2
    ensures Degrees(whole) + Minutes(whole, fraction) == whole + "." + fraction
  {
    assert whole == Degrees(whole) + whole[|whole| - 2..];
  }

  datatype Coordinates = Coordinates(latd: string, latm: string, lond: string, lonm: string)

  /**
   * The degree and minute strings of the latitude and longitude fields, in
   * the order the source takes them: both fields split on ".", each needing
   * a part after the dot, then both integer parts cut two from the end.
   */
  function CoordinatesOf(f: seq<string>, kind: Sentence): (r: Result<Coordinates, string>)
  {
    var li, oi := LatIndex(kind), LonIndex(kind);
    if |f| <= li then Err(INDEX_ERROR)
    else
      var lat := Split(f[li], '.');
      if |lat| < 2 then Err(INDEX_ERROR)
      else if |f| <= oi then Err(INDEX_ERROR)
      else
        var lon := Split(f[oi], '.');
        if |lon| < 2 then Err(INDEX_ERROR)
        else if |lat[0]| < 2 || |lon[0]| < 2 then Err(SUBSTRING_ERROR)
        else Ok(Coordinates(Degrees(lat[0]), Minutes(lat[0], lat[1]), Degrees(lon[0]), Minutes(lon[0], lon[1])))
  }

  /** The fields a parse assigns, in the order it assigns them; None where it stopped before. */
  datatype Update = Update(
    lastFixTime: Option<string>, latD: Option<real>, latM: Option<real>, longD: Option<real>, longM: Option<real>)

  const NO_UPDATE := Update(None, None, None, None, None)

  /** What `parseGPRMC`/`parseGPGGA` return (or throw), and what they assigned on the way. */
  datatype Outcome = Outcome(result: Result<bool, string>, update: Update)

  /** The four numbers read one after another; a failing one stops the rest. */
  function ParseNumbers(time: string, c: Coordinates, parseDouble: string -> Option<real>): (o: Outcome)
    ensures o.update.lastFixTime == Some(time)
    ensures o.result.Ok? ==> o.result.value && o.update.longM.Some?
  {
    match parseDouble(c.latd)
    case None => Outcome(Err(NUMBER_ERROR), Update(Some(time), None, None, None, None))
    case Some(a) =>
      match parseDouble(c.latm)
      case None => Outcome(Err(NUMBER_ERROR), Update(Some(time), Some(a), None, None, None))
      case Some(b) =>
        match parseDouble(c.lond)
        case None => Outcome(Err(NUMBER_ERROR), Update(Some(time), Some(a), Some(b), None, None))
        case Some(d) =>
          match parseDouble(c.lonm)
          case None => Outcome(Err(NUMBER_ERROR), Update(Some(time), Some(a), Some(b), Some(d), None))
          case Some(e) => Outcome(Ok(true), Update(Some(time), Some(a), Some(b), Some(d), Some(e)))
  }

  /**
   * `parseGPRMC` (kind RMC) and `parseGPGGA` (kind GGA) on the comma-split
   * sentence: false, assigning nothing, when there is no fix; otherwise the
   * fix time is assigned first, then the four numbers one at a time.
   */
  function ParseFields(f: seq<string>, kind: Sentence, parseDouble: string -> Option<real>): Outcome
  {
    if |f| <= StatusIndex(kind) then Outcome(Err(INDEX_ERROR), NO_UPDATE)
    else if !HasFix(kind, f[StatusIndex(kind)]) then Outcome(Ok(false), NO_UPDATE)
    else
      match FixTime(f[1])
      case Err(e) => Outcome(Err(e), NO_UPDATE)
      case Ok(time) =>
        match CoordinatesOf(f, kind)
        case Err(e) => Outcome(Err(e), Update(Some(time), None, None, None, None))
        case Ok(c) => ParseNumbers(time, c, parseDouble)
  }

  /**
   * What a parse of the fields does: fewer than three fields throw before
   * any assignment, no fix returns false with nothing assigned, and success
   * assigns the fix time and the four numbers read from the coordinates.
   */
  lemma ParseFieldsMeaning(f: seq<string>, kind: Sentence, parseDouble: string -> Option<real>)
    ensures var o := ParseFields(f, kind, parseDouble);
      |f| <= 2 ==> o == Outcome(Err(INDEX_ERROR), NO_UPDATE)
    ensures var o := ParseFields(f, kind, parseDouble);
      |f| > 2 ==> (o.result == Ok(false) <==> !HasFix(kind, f[2]))
    ensures var o := ParseFields(f, kind, parseDouble);
      o.result == Ok(false) ==> o.update == NO_UPDATE
    ensures var o := ParseFields(f, kind, parseDouble);
      o.result == Ok(true) ==>
        && HasFix(kind, f[2]) && FixTime(f[1]).Ok? && CoordinatesOf(f, kind).Ok?
        && o.update.lastFixTime == Some(FixTime(f[1]).value)
        && o.update.latD == parseDouble(CoordinatesOf(f, kind).value.latd)
        && o.update.latM == parseDouble(CoordinatesOf(f, kind).value.latm)
        && o.update.longD == parseDouble(CoordinatesOf(f, kind).value.lond)
        && o.update.longM == parseDouble(CoordinatesOf(f, kind).value.lonm)
    ensures var o := ParseFields(f, kind, parseDouble);
      |f| > 2 && HasFix(kind, f[2]) ==>
        o.update.lastFixTime == if FixTime(f[1]).Ok? then Some(FixTime(f[1]).value) else None
  {
  }

  function Parse(nl: string, kind: Sentence, parseDouble: string -> Option<real>): Outcome
  {
    ParseFields(Split(nl, ','), kind, parseDouble)
  }

  /** The position fields both agents keep: the fix time (null until the first fix) and the four numbers. */
  datatype Position = Position(lastFixTime: Option<string>, latD: real, latM: real, longD: real, longM: real)

  const INITIAL_POSITION := Position(None, 0.0, 0.0, 0.0, 0.0)

  /** The position after the assignments a parse made. */
  function Apply(p: Position, u: Update): Position
  {
    Position(
      if u.lastFixTime.Some? then u.lastFixTime else p.lastFixTime,
      u.latD.GetOr(p.latD), u.latM.GetOr(p.latM), u.longD.GetOr(p.longD), u.longM.GetOr(p.longM))
  }

  /** A sentence without a fix leaves every position field as it was. */
  lemma NoFixKeepsPosition(f: seq<string>, kind: Sentence, parseDouble: string -> Option<real>, p: Position)
    requires |f| > 2 && !HasFix(kind, f[2])
    ensures Apply(p, ParseFields(f, kind, parseDouble).update) == p
  {
  }

  /** A successful parse sets every position field, whatever they held before. */
  lemma ParsedPositionIsNew(f: seq<string>, kind: Sentence, parseDouble: string -> Option<real>, p: Position, q: Position)
    requires ParseFields(f, kind, parseDouble).result == Ok(true)
    ensures Apply(p, ParseFields(f, kind, parseDouble).update) == Apply(q, ParseFields(f, kind, parseDouble).update)
  {
  }

  /** The parser a position sentence goes to: RMC for `$GPRMC`, GGA for `$GPGGA` and `$GNGGA`. */
  function KindOf(line: string): Sentence
  {
    if StartsWith(line, GPRMC) then RMC else GGA
  }

  /**
   * The hemisphere fields (N/S after the latitude, E/W after the longitude)
   * are never read: whatever they hold, the outcome is the same, so southern
   * and western positions come out as positive degrees.
   */
  lemma HemispheresIgnored(f: seq<string>, kind: Sentence, ns: string, ew: string, parseDouble: string -> Option<real>)
    requires |f| > LonIndex(kind) + 1
    ensures ParseFields(f[LatIndex(kind) + 1 := ns][LonIndex(kind) + 1 := ew], kind, parseDouble)
         == ParseFields(f, kind, parseDouble)
  {
    var g := f[LatIndex(kind) + 1 := ns][LonIndex(kind) + 1 := ew];
    assert g[1] == f[1] && g[2] == f[2];
    assert g[LatIndex(kind)] == f[LatIndex(kind)] && g[LonIndex(kind)] == f[LonIndex(kind)];
    assert CoordinatesOf(g, kind) == CoordinatesOf(f, kind);
  }

  /**
   * A coordinate field `dddmm.mmmm` (one dot, digits after it, at least two
   * before it) splits into the degree string `ddd` and the minute string
   * `mm.mmmm`, which together give the field back.
   */
  lemma CoordinateSplit(whole: string, fraction: string)
    requires |whole| >= 2 && fraction != []
    requires '.' !in whole && '.' !in fraction
    ensures Split(whole + "." + fraction, '.') == [whole, fraction]
    ensures Degrees(whole) + Minutes(whole, fraction) == whole + "." + fraction
  {
    SplitOfJoin([whole, fraction], '.');
    assert Join([whole, fraction], '.') == whole + "." + fraction;
    DegreesMinutes(whole, fraction);
  }

  // ---------------------------------------------------------------------
  // validateIPAddress
  // ---------------------------------------------------------------------

  /**
   * The token loop: the first token that does not parse throws, the first
   * that parses outside 0..255 rejects the address, and only then does a
   * later token get looked at.
   */
  function CheckTokens(ts: seq<string>): (r: Result<bool, string>)
    ensures r.Err? ==> r.error == NUMBER_ERROR
  {
    if ts == [] then Ok(true)
    else match ParseInt(ts[0])
      case None => Err(NUMBER_ERROR)
      case Some(i) => if i < 0 || i > 255 then Ok(false) else CheckTokens(ts[1..])
  }

  predicate Octet(t: string)
  {
    ParseInt(t).Some? && 0 <= ParseInt(t).value <= 255
  }

  /** The loop accepts exactly when every token is a number from 0 to 255. */
  lemma {:induction false} CheckTokensAccepts(ts: seq<string>)
    ensures CheckTokens(ts) == Ok(true) <==> forall i :: 0 <= i < |ts| ==> Octet(ts[i])
  {
    if ts != [] {
      CheckTokensAccepts(ts[1..]);
      if forall i :: 0 <= i < |ts| ==> Octet(ts[i]) {
        assert forall i :: 0 <= i < |ts[1..]| ==> Octet(ts[1..][i]) by {
          forall i | 0 <= i < |ts[1..]| ensures Octet(ts[1..][i]) {
            assert ts[1..][i] == ts[i + 1];
          }
        }
      }
      if CheckTokens(ts) == Ok(true) {
        forall i | 0 <= i < |ts| ensures Octet(ts[i]) {
          if i > 0 {
            assert ts[i] == ts[1..][i - 1];
          }
        }
      }
    }
  }

  /** The checks every `validateIPAddress` makes on a dotted address: four tokens, each an octet. */
  function DottedQuad(ip: string): (r: Result<bool, string>)
  {
    var ts := Split(ip, '.');
    if |ts| != 4 then Ok(false) else CheckTokens(ts)
  }

  lemma DottedQuadAccepts(ip: string)
    ensures DottedQuad(ip) == Ok(true) <==>
      |Split(ip, '.')| == 4 && forall i :: 0 <= i < 4 ==> Octet(Split(ip, '.')[i])
  {
    CheckTokensAccepts(Split(ip, '.'));
  }

  /** A trailing dot goes unnoticed: `split` drops the empty token after it. */
  lemma DottedQuadTrailingDot(ip: string)
    requires ip != []
    ensures DottedQuad(ip + ".") == DottedQuad(ip)
  {
    SplitTrailing(ip, '.');
  }

  lemma JoinFour(a: string, b: string, c: string, d: string)
    ensures Join([a, b, c, d], '.') == a + "." + b + "." + c + "." + d
  {
    assert [a, b, c, d][1..] == [b, c, d] && [b, c, d][1..] == [c, d] && [c, d][1..] == [d];
    assert Join([c, d], '.') == c + "." + d;
    assert Join([b, c, d], '.') == b + "." + (c + "." + d);
    assert Join([a, b, c, d], '.') == a + "." + (b + "." + (c + "." + d));
  }

  /** Any address written as four decimal octets is accepted. */
  lemma DottedQuadOfOctets(a: nat, b: nat, c: nat, d: nat)
    requires a <= 255 && b <= 255 && c <= 255 && d <= 255
    ensures DottedQuad(Decimal(a) + "." + Decimal(b) + "." + Decimal(c) + "." + Decimal(d)) == Ok(true)
  {
    var w, x, y, z := Decimal(a), Decimal(b), Decimal(c), Decimal(d);
    SplitFour(w, x, y, z);
    ParseIntOfDecimal(a);
    ParseIntOfDecimal(b);
    ParseIntOfDecimal(c);
    ParseIntOfDecimal(d);
    CheckFour(w, x, y, z);
  }

  lemma SplitFour(w: string, x: string, y: string, z: string)
    requires w != [] && x != [] && y != [] && z != []
    requires AllDigits(w) && AllDigits(x) && AllDigits(y) && AllDigits(z)
    ensures Split(w + "." + x + "." + y + "." + z, '.') == [w, x, y, z]
  {
    var ts := [w, x, y, z];
    assert '.' !in w && '.' !in x && '.' !in y && '.' !in z by {
      assert forall t: string :: AllDigits(t) ==> '.' !in t;
    }
    SplitOfJoin(ts, '.');
    JoinFour(w, x, y, z);
  }

  lemma CheckFour(w: string, x: string, y: string, z: string)
    requires Octet(w) && Octet(x) && Octet(y) && Octet(z)
    ensures CheckTokens([w, x, y, z]) == Ok(true)
  {
    assert [w, x, y, z][1..] == [x, y, z] && [x, y, z][1..] == [y, z] && [y, z][1..] == [z] && [z][1..] == [];
    assert CheckTokens([z]) == Ok(true);
    assert CheckTokens([y, z]) == Ok(true);
    assert CheckTokens([x, y, z]) == Ok(true);
  }

  /**
   * `validateIPAddress` without its "localhost" case: splits on ".",
   * rejects any count of tokens but four, then checks the tokens in order.
   */
  method ValidateDottedQuad(ip: string) returns (r: Result<bool, string>)
    ensures r == DottedQuad(ip)
  {
    var tokens := Split(ip, '.');
    if |tokens| != 4 {
      return Ok(false);
    }
    var k := 0;
    while k < |tokens|
      invariant 0 <= k <= |tokens|
      invariant CheckTokens(tokens) == CheckTokens(tokens[k..])
    {
      assert tokens[k..][1..] == tokens[k + 1..];
      var i := ParseInt(tokens[k]);
      if i.None? {
        return Err(NUMBER_ERROR);
      }
      if i.value < 0 || i.value > 255 {
        return Ok(false);
      }
      k := k + 1;
    }
    return Ok(true);
  }
}
