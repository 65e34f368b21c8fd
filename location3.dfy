/**
 * The unetstack3 Location agent: keeps the GPS server's address, polls the
 * server for NMEA lines, and takes its position from the most recent RMC or
 * GGA sentence. Sockets and tickers are modelled by what the agent records
 * about them: whether a socket was created (`hasSocket`), whether it is
 * connected, and whether the connect ticker (`connecting`) and the
 * location-update ticker (`updating`) are running. What a poll read, and
 * whether a connect attempt succeeded, are parameters.
 */
module Location3 {
  import opened Wrappers
  import opened JavaText
  import opened Nmea

  const MAX_EMPTY_COUNT: int := 5

  /** `validateIPAddress`: "localhost", or a dotted quad of octets. */
  function ValidIp(ip: string): (r: Result<bool, string>)
    ensures ip == "localhost" ==> r == Ok(true)
    ensures ip != "localhost" ==> r == DottedQuad(ip)
  {
    if ip == "localhost" then Ok(true) else DottedQuad(ip)
  }

  method ValidateIPAddress(ip: string) returns (r: Result<bool, string>)
    ensures r == ValidIp(ip)
  {
    if ip == "localhost" {
      return Ok(true);
    }
    r := ValidateDottedQuad(ip);
  }

  /** A trailing dot on a dotted address goes unnoticed here too. */
  lemma ValidIpTrailingDot(ip: string)
    requires ip != [] && ip != "localhost"
    ensures ValidIp(ip + ".") == ValidIp(ip)
  {
    assert ip + "." != "localhost" by {
      assert (ip + ".")[|ip|] == '.';
      assert '.' !in "localhost";
    }
    DottedQuadTrailingDot(ip);
  }

  /**
   * The check guarding a connection, as written in the constructors and in
   * `connectToServer`: an address that is non-null, non-empty and valid
   * (the check may throw), and a port from 1 to 65535.
   */
  function Guard(ip: Option<string>, port: int): (r: Result<bool, string>)
    ensures r.Err? <==> ip.Some? && ip.value != [] && ValidIp(ip.value).Err?
    ensures r == Ok(true) <==> ip.Some? && ip.value != [] && ValidIp(ip.value) == Ok(true) && 0 < port < 65536
  {
    if ip.None? || ip.value == [] then Ok(false)
    else match ValidIp(ip.value)
      case Err(e) => Err(e)
      case Ok(v) => Ok(v && 0 < port < 65536)
  }

  /** Why a poll stopped reading lines. */
  datatype ReadEnd =
    | TimedOut     // SocketTimeoutException: everything available was read
    | EndOfStream  // readLine returned null: the server closed the connection
    | ReadFailed   // any other exception

  /** The poll asks for a reconnect: the stream ended or failed, or too many empty polls in a row. */
  predicate NeedsReset(lineCount: nat, end: ReadEnd, emptyBefore: int)
  {
    end != TimedOut || (lineCount == 0 && emptyBefore + 1 > MAX_EMPTY_COUNT)
  }

  /** What the poll's parse of the latest position sentence returns, if there is one. */
  function LatestOutcome(lines: seq<string>, parseDouble: string -> Option<real>): Option<Outcome>
  {
    match LatestNmea(lines)
    case None => None
    case Some(i) => Some(Parse(lines[i], KindOf(lines[i]), parseDouble))
  }

  class Location {
    var ip: Option<string>
    var port: int
    var latD: real
    var latM: real
    var longD: real
    var longM: real
    var lastFixTime: Option<string>
    var enable: bool
    var connected: bool
    var hasSocket: bool
    var connecting: bool
    var updating: bool
    var emptyCount: int
    /** The positions handed to `updateGpsCoordinates` and `updateLocation`, oldest first. */
    var updates: seq<Position>

    ghost predicate Valid()
      reads this
    {
      (connected ==> hasSocket) && (updating ==> connected)
    }

    function CurrentPosition(): Position
      reads this
    {
      Position(lastFixTime, latD, latM, longD, longM)
    }

    /** The fields every constructor leaves at their defaults. */
    ghost predicate Initial()
      reads this
    {
      && Valid() && CurrentPosition() == INITIAL_POSITION && enable
      && !connected && !hasSocket && !connecting && !updating && emptyCount == 0 && updates == []
    }

    /** `Location()`: no address, port 0. */
    constructor()
      ensures Initial() && ip.None? && port == 0
    {
      ip := None;
      port := 0;
      latD, latM, longD, longM := 0.0, 0.0, 0.0, 0.0;
      lastFixTime := None;
      enable := true;
      connected, hasSocket, connecting, updating := false, false, false, false;
      emptyCount := 0;
      updates := [];
    }

    /** `Location(String ip)`: keeps the address only when it is valid; a token that is not a number throws. */
    static method WithIp(ip: Option<string>) returns (r: Result<Location, string>)
      ensures r.Err? <==> Guard(ip, 1).Err?
      ensures r.Ok? ==> fresh(r.value) && r.value.Initial() && r.value.port == 0
      ensures r.Ok? ==> r.value.ip == if Guard(ip, 1) == Ok(true) then ip else None
    {
      var loc := new Location();
      if ip.Some? && ip.value != [] {
        var valid := ValidateIPAddress(ip.value);
        if valid.Err? {
          return Err(valid.error);
        }
        if valid.value {
          loc.ip := ip;
        }
      }
      return Ok(loc);
    }

    /** `Location(int port)`: keeps the port only when it is from 1 to 65535. */
    static method WithPort(port: int) returns (loc: Location)
      ensures fresh(loc) && loc.Initial() && loc.ip.None?
      ensures loc.port == if 0 < port < 65536 then port else 0
    {
      loc := new Location();
      if port > 0 && port < 65536 {
        loc.port := port;
      }
    }

    /** `Location(String ip, int port)`: keeps both when both are valid, and neither otherwise. */
    static method WithIpAndPort(ip: Option<string>, port: int) returns (r: Result<Location, string>)
      ensures r.Err? <==> Guard(ip, port).Err?
      ensures r.Ok? ==> fresh(r.value) && r.value.Initial()
      ensures r.Ok? ==> (r.value.ip, r.value.port) == if Guard(ip, port) == Ok(true) then (ip, port) else (None, 0)
    {
      var loc := new Location();
      if ip.Some? && ip.value != [] {
        var valid := ValidateIPAddress(ip.value);
        if valid.Err? {
          return Err(valid.error);
        }
        if valid.value && port > 0 && port < 65536 {
          loc.ip := ip;
          loc.port := port;
        }
      }
      return Ok(loc);
    }

    /** `closeConnection`: once a socket exists, it is closed and the update ticker stopped. */
    method CloseConnection()
      requires Valid()
      modifies this
      ensures Valid()
      ensures connected == (old(connected) && !hasSocket) && updating == (old(updating) && !hasSocket)
      ensures ip == old(ip) && port == old(port) && hasSocket == old(hasSocket) && connecting == old(connecting)
      ensures CurrentPosition() == old(CurrentPosition()) && enable == old(enable)
      ensures emptyCount == old(emptyCount) && updates == old(updates)
    {
      if hasSocket {
        connected := false;
        updating := false;
      }
    }

    /**
     * `connectToServer`: starts the connect ticker when the guard passes,
     * leaves everything as it is when it does not, and throws when the
     * address check throws.
     */
    method ConnectToServer() returns (err: Option<string>)
      requires Valid()
      modifies this
      ensures Valid()
      ensures err == if Guard(ip, port).Err? then Some(Guard(ip, port).error) else None
      ensures connecting == (Guard(ip, port) == Ok(true) || old(connecting))
      ensures ip == old(ip) && port == old(port) && connected == old(connected) && hasSocket == old(hasSocket)
      ensures updating == old(updating) && CurrentPosition() == old(CurrentPosition()) && enable == old(enable)
      ensures emptyCount == old(emptyCount) && updates == old(updates)
    {
      err := None;
      if ip.Some? && ip.value != [] {
        var valid := ValidateIPAddress(ip.value);
        if valid.Err? {
          return Some(valid.error);
        }
        if valid.value && port > 0 && port < 65536 {
          connecting := true;
        }
      }
    }

    /** `startup`: connects unless already connected; a connected agent is left as it is. */
    method Startup() returns (err: Option<string>)
      requires Valid()
      modifies this
      ensures Valid()
      ensures old(connected) ==> err.None? && connecting == old(connecting)
      ensures !old(connected) ==> err == (if Guard(ip, port).Err? then Some(Guard(ip, port).error) else None)
      ensures !old(connected) ==> connecting == (Guard(ip, port) == Ok(true) || old(connecting))
      ensures ip == old(ip) && port == old(port) && connected == old(connected) && hasSocket == old(hasSocket)
      ensures updating == old(updating) && CurrentPosition() == old(CurrentPosition()) && enable == old(enable)
      ensures emptyCount == old(emptyCount) && updates == old(updates)
    {
      err := None;
      if !connected {
        err := ConnectToServer();
      }
    }

    /** `reconnectToServer`: close, stop the connect ticker, connect again. */
    method Reconnect() returns (err: Option<string>)
      requires Valid()
      modifies this
      ensures Valid()
      ensures err == if Guard(ip, port).Err? then Some(Guard(ip, port).error) else None
      ensures connecting == (Guard(ip, port) == Ok(true))
      ensures connected == (old(connected) && !hasSocket) && updating == (old(updating) && !hasSocket)
      ensures ip == old(ip) && port == old(port) && hasSocket == old(hasSocket)
      ensures CurrentPosition() == old(CurrentPosition()) && enable == old(enable)
      ensures emptyCount == old(emptyCount) && updates == old(updates)
    {
      CloseConnection();
      connecting := false;
      err := ConnectToServer();
    }

    /**
     * `setIp`: stores any address, closes a live connection, stops the
     * connect ticker, and connects again; the address is only checked then.
     */
    method SetIp(value: Option<string>) returns (err: Option<string>)
      requires Valid()
      modifies this
      ensures Valid()
      ensures ip == value && port == old(port)
      ensures err == if Guard(value, port).Err? then Some(Guard(value, port).error) else None
      ensures connecting == (Guard(value, port) == Ok(true))
      ensures !connected && !updating
      ensures CurrentPosition() == old(CurrentPosition()) && emptyCount == old(emptyCount)
    {
      ip := value;
      if connected {
        CloseConnection();
      }
      connecting := false;
      err := ConnectToServer();
    }

    /** `setPort`: stores any port and reconnects as `setIp` does. */
    method SetPort(value: int) returns (err: Option<string>)
      requires Valid()
      modifies this
      ensures Valid()
      ensures port == value && ip == old(ip)
      ensures err == if Guard(ip, value).Err? then Some(Guard(ip, value).error) else None
      ensures connecting == (Guard(ip, value) == Ok(true))
      ensures !connected && !updating
      ensures CurrentPosition() == old(CurrentPosition()) && emptyCount == old(emptyCount)
    {
      port := value;
      if connected {
        CloseConnection();
      }
      connecting := false;
      err := ConnectToServer();
    }

    /**
     * One tick of the connect ticker: a socket is created; when it connects,
     * the connect ticker stops and the location-update ticker starts.
     */
    method ConnectTick(ok: bool)
      requires Valid() && connecting
      modifies this
      ensures Valid() && hasSocket
      ensures ok ==> connected && updating && !connecting
      ensures !ok ==> connected == old(connected) && updating == old(updating) && connecting
      ensures ip == old(ip) && port == old(port) && CurrentPosition() == old(CurrentPosition())
      ensures emptyCount == old(emptyCount) && updates == old(updates)
    {
      hasSocket := true;
      if ok {
        connected := true;
        connecting := false;
        updating := true;
      }
    }

    /** `parseGPRMC` / `parseGPGGA`: the fields are assigned as far as the parse got. */
    method ParseSentence(nl: string, kind: Sentence, parseDouble: string -> Option<real>) returns (r: Result<bool, string>)
      modifies this
      ensures r == Parse(nl, kind, parseDouble).result
      ensures CurrentPosition() == Apply(old(CurrentPosition()), Parse(nl, kind, parseDouble).update)
      ensures ip == old(ip) && port == old(port) && enable == old(enable)
      ensures connected == old(connected) && hasSocket == old(hasSocket)
      ensures connecting == old(connecting) && updating == old(updating)
      ensures emptyCount == old(emptyCount) && updates == old(updates)
    {
      var o := Parse(nl, kind, parseDouble);
      Assign(o.update);
      r := o.result;
    }

    /** The assignments of a parse: each field the parse got to is overwritten. */
    method Assign(u: Update)
      modifies this
      ensures CurrentPosition() == Apply(old(CurrentPosition()), u)
      ensures ip == old(ip) && port == old(port) && enable == old(enable)
      ensures connected == old(connected) && hasSocket == old(hasSocket)
      ensures connecting == old(connecting) && updating == old(updating)
      ensures emptyCount == old(emptyCount) && updates == old(updates)
    {
      if u.lastFixTime.Some? {
        lastFixTime := u.lastFixTime;
      }
      latD := u.latD.GetOr(latD);
      latM := u.latM.GetOr(latM);
      longD := u.longD.GetOr(longD);
      longM := u.longM.GetOr(longM);
    }

    /**
     * The middle of `readNmeaData`: parses the most recent position sentence
     * among the lines and passes a fix on when the agent is enabled.
     */
    method UseLatest(lines: seq<string>, parseDouble: string -> Option<real>) returns (err: Option<string>)
      modifies this
      ensures err == if LatestOutcome(lines, parseDouble).Some? && LatestOutcome(lines, parseDouble).value.result.Err?
        then Some(LatestOutcome(lines, parseDouble).value.result.error) else None
      ensures LatestOutcome(lines, parseDouble).None? ==> CurrentPosition() == old(CurrentPosition())
      ensures LatestOutcome(lines, parseDouble).Some? ==>
        CurrentPosition() == Apply(old(CurrentPosition()), LatestOutcome(lines, parseDouble).value.update)
      ensures updates == old(updates) +
        if LatestOutcome(lines, parseDouble).Some? && LatestOutcome(lines, parseDouble).value.result == Ok(true) && enable
        then [CurrentPosition()] else []
      ensures ip == old(ip) && port == old(port) && enable == old(enable) && emptyCount == old(emptyCount)
      ensures connected == old(connected) && hasSocket == old(hasSocket)
      ensures connecting == old(connecting) && updating == old(updating)
    {
      err := None;
      var latest := LatestNmea(lines);
      if latest.Some? {
        var line := lines[latest.value];
        if StartsWith(line, GPRMC) {
          var r := ParseSentence(line, RMC, parseDouble);
          if r.Err? {
            return Some(r.error);
          }
          if r.value && enable {
            updates := updates + [CurrentPosition()];
          }
        } else if StartsWith(line, GPGGA) || StartsWith(line, GNGGA) {
          var r := ParseSentence(line, GGA, parseDouble);
          if r.Err? {
            return Some(r.error);
          }
          if r.value && enable {
            updates := updates + [CurrentPosition()];
          }
        }
      }
    }

    /**
     * `readNmeaData`, given the lines one poll read and why it stopped: an
     * empty poll counts towards the reconnect limit and a non-empty one
     * clears the count; the most recent position sentence is used as
     * `UseLatest` says; then the connection is reset when the poll asks for
     * it. A parse that throws ends the poll there.
     */
    method ReadNmeaData(lines: seq<string>, end: ReadEnd, parseDouble: string -> Option<real>) returns (err: Option<string>)
      requires Valid()
      modifies this
      ensures Valid()
      ensures emptyCount == if |lines| == 0 then old(emptyCount) + 1 else 0
      ensures ip == old(ip) && port == old(port) && enable == old(enable) && hasSocket == old(hasSocket)
      ensures LatestOutcome(lines, parseDouble).None? ==> CurrentPosition() == old(CurrentPosition())
      ensures LatestOutcome(lines, parseDouble).Some? ==>
        CurrentPosition() == Apply(old(CurrentPosition()), LatestOutcome(lines, parseDouble).value.update)
      ensures updates == old(updates) +
        if LatestOutcome(lines, parseDouble).Some? && LatestOutcome(lines, parseDouble).value.result == Ok(true) && enable
        then [CurrentPosition()] else []
      ensures LatestOutcome(lines, parseDouble).Some? && LatestOutcome(lines, parseDouble).value.result.Err? ==>
        && err == Some(LatestOutcome(lines, parseDouble).value.result.error)
        && connected == old(connected) && connecting == old(connecting) && updating == old(updating)
      ensures !(LatestOutcome(lines, parseDouble).Some? && LatestOutcome(lines, parseDouble).value.result.Err?) ==>
        if NeedsReset(|lines|, end, old(emptyCount)) then
          && err == (if Guard(ip, port).Err? then Some(Guard(ip, port).error) else None)
          && connecting == (Guard(ip, port) == Ok(true))
          && connected == (old(connected) && !hasSocket) && updating == (old(updating) && !hasSocket)
        else
          err.None? && connected == old(connected) && connecting == old(connecting) && updating == old(updating)
    {
      var reset := end != TimedOut;
      if |lines| == 0 {
        emptyCount := emptyCount + 1;
        if emptyCount > MAX_EMPTY_COUNT {
          reset := true;
        }
      }
      if |lines| > 0 {
        emptyCount := 0;
      }
      assert reset == NeedsReset(|lines|, end, old(emptyCount));
      err := UseLatest(lines, parseDouble);
      if err.Some? {
        return;
      }
      if reset {
        err := Reconnect();
      }
    }
  }
}
