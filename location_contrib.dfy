/**
 * The contrib Location agent (the older of the two): reads one NMEA line
 * per tick of its location-update ticker, takes its position from an RMC
 * or GGA line, counts failed reads towards closing the connection, and
 * retries a connect a bounded number of times. As in `Location3`, sockets
 * and tickers are modelled by what the agent records about them, and what
 * a read returned and whether a connect attempt succeeded are parameters.
 */
module LocationContrib {
  import opened Wrappers
  import opened JavaText
  import opened Nmea

  const NULL_POINTER := "NullPointerException"

  predicate ValidPort(port: int)
  {
    0 < port < 65536
  }

  /**
   * The address check of the constructors, `setIp` and `connectToServer`:
   * non-null, non-empty and a dotted quad (the check may throw). There is
   * no "localhost" case here.
   */
  function AcceptsIp(ip: Option<string>): (r: Result<bool, string>)
    ensures r == Ok(true) <==> ip.Some? && ip.value != [] && DottedQuad(ip.value) == Ok(true)
    ensures r.Err? <==> ip.Some? && ip.value != [] && DottedQuad(ip.value).Err?
  {
    if ip.None? || ip.value == [] then Ok(false) else DottedQuad(ip.value)
  }

  /** Unlike the unetstack3 agent, this one refuses "localhost". */
  lemma LocalhostRefused()
    ensures AcceptsIp(Some("localhost")) == Ok(false)
  {
    assert '.' !in "localhost";
    assert Split("localhost", '.') == ["localhost"];
  }

  /** A location-update ticker: its period in milliseconds and whether it still runs. */
  datatype Ticker = Ticker(periodMs: int, running: bool)

  predicate Running(t: Option<Ticker>)
  {
    t.Some? && t.value.running
  }

  /** `if (locationUpdate != null) locationUpdate.stop()`. */
  function Stopped(t: Option<Ticker>): (r: Option<Ticker>)
    ensures !Running(r) && r.None? == t.None?
    ensures r.Some? ==> r.value.periodMs == t.value.periodMs
  {
    if t.Some? then Some(t.value.(running := false)) else None
  }

  /** The ticker a period of `seconds` starts: `new TickerBehavior(seconds*1000)`, in `int` arithmetic. */
  function TickerFor(seconds: int): (t: Ticker)
    ensures t.running
    ensures 0 <= seconds <= INT_MAX / 1000 ==> t.periodMs == seconds * 1000
  {
    Ticker(IntOf(seconds * 1000), true)
  }

  /** What one `readLine` on the server's stream gave. */
  datatype ReadResult =
    | Line(line: string)
    | EndOfStream  // readLine returned null
    | ReadError    // an IOException, a read timeout among them

  /** The first of the attempts `from` .. `limit - 1` that connects, if any. */
  function FirstSuccessFrom(connectOk: nat -> bool, from: nat, limit: nat): (r: Option<nat>)
    ensures r.Some? ==> from <= r.value < limit && connectOk(r.value)
    ensures r.Some? ==> forall j :: from <= j < r.value ==> !connectOk(j)
    ensures r.None? <==> forall j :: from <= j < limit ==> !connectOk(j)
    decreases limit - from
  {
    if from >= limit then None
    else if connectOk(from) then Some(from)
    else FirstSuccessFrom(connectOk, from + 1, limit)
  }

  /** The first of `limit` attempts that connects, if any. */
  function FirstSuccess(connectOk: nat -> bool, limit: nat): Option<nat>
  {
    FirstSuccessFrom(connectOk, 0, limit)
  }

  /** How many attempts the retry loop makes: up to the first that connects, and never more than `limit`. */
  lemma AttemptsBounded(connectOk: nat -> bool, limit: nat)
    ensures FirstSuccess(connectOk, limit).Some? ==> FirstSuccess(connectOk, limit).value + 1 <= limit
    ensures FirstSuccess(connectOk, limit).None? ==> forall j :: 0 <= j < limit ==> !connectOk(j)
  {
  }

  /**
   * The failed-read counter: with `maxTimeoutCnt` positive, one more failure,
   * and a close (the count back at 0) when it reaches the maximum; with
   * `maxTimeoutCnt` zero or negative, nothing.
   */
  function TimeoutStep(cnt: int, maxCnt: int): (r: (int, bool))
  {
    if maxCnt <= 0 then (cnt, false)
    else if cnt + 1 >= maxCnt then (0, true)
    else (cnt + 1, false)
  }

  /** The counter after `k` failed reads in a row, starting from 0. */
  function CountAfter(k: nat, maxCnt: int): (c: int)
    ensures 0 <= c && (maxCnt > 0 ==> c < maxCnt)
    ensures maxCnt <= 0 ==> c == 0
  {
    if k == 0 then 0 else TimeoutStep(CountAfter(k - 1, maxCnt), maxCnt).0
  }

  /** Whether the `k`-th failed read in a row (counting from 1) closes the connection. */
  predicate ClosesAt(k: nat, maxCnt: int)
  {
    k > 0 && TimeoutStep(CountAfter(k - 1, maxCnt), maxCnt).1
  }

  /** Below the maximum, the counter counts the failures. */
  lemma {:induction false} CountBelowMax(r: nat, maxCnt: int)
    requires r < maxCnt
    ensures CountAfter(r, maxCnt) == r
  {
    if r > 0 {
      CountBelowMax(r - 1, maxCnt);
    }
  }

  /** `maxTimeoutCnt` more failures bring the counter back where it was. */
  lemma {:induction false} CountPeriodic(k: nat, maxCnt: int)
    requires maxCnt > 0
    ensures CountAfter(k + maxCnt, maxCnt) == CountAfter(k, maxCnt)
  {
    if k == 0 {
      CountBelowMax(maxCnt - 1, maxCnt);
    } else {
      CountPeriodic(k - 1, maxCnt);
    }
  }

  /**
   * With a positive maximum, after `q` whole rounds and `r` more failures
   * the counter is `r`, and a failure closes the connection exactly when it
   * completes a round: every `maxTimeoutCnt`-th failure in a row closes it.
   */
  lemma {:induction false} FailuresClose(q: nat, r: nat, maxCnt: int)
    requires r < maxCnt
    ensures CountAfter(q * maxCnt + r, maxCnt) == r
    ensures ClosesAt(q * maxCnt + r, maxCnt) <==> q * maxCnt + r > 0 && r == 0
  {
    if q == 0 {
      CountBelowMax(r, maxCnt);
    } else {
      FailuresClose(q - 1, r, maxCnt);
      CountPeriodic((q - 1) * maxCnt + r, maxCnt);
      assert q * maxCnt + r == (q - 1) * maxCnt + r + maxCnt;
    }
  }

  /** Without a positive maximum, failures are never counted and never close the connection. */
  lemma FailuresIgnored(k: nat, maxCnt: int)
    requires maxCnt <= 0
    ensures CountAfter(k, maxCnt) == 0 && !ClosesAt(k, maxCnt)
  {
  }

  /** The settings the agent keeps between calls. */
  datatype Settings = Settings(
    ip: Option<string>, port: int, timeout: int, maxTimeoutCnt: int, maxRetryLimit: int, locationUpdatePeriod: int)

  class Location {
    var ip: Option<string>
    var port: int
    var timeout: int
    var timeoutCnt: int
    var maxTimeoutCnt: int
    var maxRetryLimit: int
    var locationUpdatePeriod: int
    var latD: real
    var latM: real
    var longD: real
    var longM: real
    var lastFixTime: Option<string>
    var nmeaLine: Option<string>
    var connected: bool
    var hasSocket: bool
    var locationUpdate: Option<Ticker>
    /** Tickers still running that the agent no longer refers to, so can never stop. */
    var strayTickers: nat
    /** The positions handed to `updateLocation`, oldest first. */
    var updates: seq<Position>

    /**
     * What every method keeps: a stored address is a valid dotted quad, a
     * stored port is 0 or valid, the retry limit and timeout are positive,
     * the period is not negative, and the failed-read count stays below a
     * positive maximum (0 when there is none).
     */
    ghost predicate Valid()
      reads this
    {
      && (ip.Some? ==> AcceptsIp(ip) == Ok(true))
      && (port == 0 || ValidPort(port))
      && timeout > 0 && maxRetryLimit > 0 && locationUpdatePeriod >= 0
      && 0 <= timeoutCnt && (timeoutCnt == 0 || timeoutCnt < maxTimeoutCnt)
      && (connected ==> hasSocket)
    }

    function CurrentPosition(): Position
      reads this
    {
      Position(lastFixTime, latD, latM, longD, longM)
    }

    function CurrentSettings(): Settings
      reads this
    {
      Settings(ip, port, timeout, maxTimeoutCnt, maxRetryLimit, locationUpdatePeriod)
    }

    /** The fields every constructor leaves at their defaults. */
    ghost predicate Initial()
      reads this
    {
      && Valid() && CurrentPosition() == INITIAL_POSITION && nmeaLine.None?
      && timeout == 100 && timeoutCnt == 0 && maxTimeoutCnt == 100 && maxRetryLimit == 5
      && locationUpdatePeriod == 10 && !connected && !hasSocket && locationUpdate.None?
      && strayTickers == 0 && updates == []
    }

    /** `Location()`: no address, port 0. */
    constructor()
      ensures Initial() && ip.None? && port == 0
    {
      ip := None;
      port := 0;
      timeout, timeoutCnt, maxTimeoutCnt, maxRetryLimit, locationUpdatePeriod := 100, 0, 100, 5, 10;
      latD, latM, longD, longM := 0.0, 0.0, 0.0, 0.0;
      lastFixTime, nmeaLine := None, None;
      connected, hasSocket := false, false;
      locationUpdate := None;
      strayTickers := 0;
      updates := [];
    }

    /** `Location(String ip)`: keeps the address only when it is valid; a token that is not a number throws. */
    static method WithIp(ip: Option<string>) returns (r: Result<Location, string>)
      ensures r.Err? <==> AcceptsIp(ip).Err?
      ensures r.Ok? ==> fresh(r.value) && r.value.Initial() && r.value.port == 0
      ensures r.Ok? ==> r.value.ip == if AcceptsIp(ip) == Ok(true) then ip else None
    {
      var loc := new Location();
      if ip.Some? && ip.value != [] {
        var valid := ValidateDottedQuad(ip.value);
        if valid.Err? {
          return Err(valid.error);
        }
        if valid.value {
          loc.ip := ip;
        }
      }
      return Ok(loc);
    }

    /** `Location(int port)`: keeps the port only when it is from 1 to 65535. */
    static method WithPort(port: int) returns (loc: Location)
      ensures fresh(loc) && loc.Initial() && loc.ip.None?
      ensures loc.port == if ValidPort(port) then port else 0
    {
      loc := new Location();
      if port > 0 && port < 65536 {
        loc.port := port;
      }
    }

    /** `Location(String ip, int port)`: keeps both when both are valid, and neither otherwise. */
    static method WithIpAndPort(ip: Option<string>, port: int) returns (r: Result<Location, string>)
      ensures r.Err? <==> AcceptsIp(ip).Err?
      ensures r.Ok? ==> fresh(r.value) && r.value.Initial()
      ensures r.Ok? && AcceptsIp(ip) == Ok(true) && ValidPort(port) ==> r.value.ip == ip && r.value.port == port
      ensures r.Ok? && !(AcceptsIp(ip) == Ok(true) && ValidPort(port)) ==> r.value.ip.None? && r.value.port == 0
    {
      var loc := new Location();
      if ip.Some? && ip.value != [] {
        var valid := ValidateDottedQuad(ip.value);
        if valid.Err? {
          return Err(valid.error);
        }
        if valid.value && port > 0 && port < 65536 {
          loc.ip := ip;
          loc.port := port;
        }
      }
      return Ok(loc);
    }

    /** `closeConnection`: once a socket exists, it is closed, the ticker stopped and the count cleared. */
    method CloseConnection()
      requires Valid()
      modifies this
      ensures Valid()
      ensures hasSocket ==> !connected && locationUpdate == Stopped(old(locationUpdate)) && timeoutCnt == 0
      ensures !hasSocket ==> connected == old(connected) && locationUpdate == old(locationUpdate) && timeoutCnt == old(timeoutCnt)
      ensures hasSocket == old(hasSocket) && CurrentSettings() == old(CurrentSettings())
      ensures CurrentPosition() == old(CurrentPosition()) && nmeaLine == old(nmeaLine)
      ensures strayTickers == old(strayTickers) && updates == old(updates)
    {
      if hasSocket {
        connected := false;
        locationUpdate := Stopped(locationUpdate);
        timeoutCnt := 0;
      }
    }

    /**
     * `connectToServer`: with a valid address and port, up to
     * `maxRetryLimit` attempts (attempt `k` connects when `connectOk(k)`),
     * stopping at the first that connects; once connected with a positive
     * period, a new ticker starts, and one already running is left running
     * with nothing referring to it. An invalid address or port changes
     * nothing. The stored address always passed the check, so it cannot
     * throw here.
     */
    method ConnectToServer(connectOk: nat -> bool) returns (ghost attempts: nat)
      requires Valid()
      modifies this
      ensures Valid()
      ensures var go := ip.Some? && ValidPort(port);
        var n := FirstSuccess(connectOk, maxRetryLimit);
        && attempts == (if !go then 0 else if n.Some? then n.value + 1 else maxRetryLimit)
        && attempts <= maxRetryLimit
        && hasSocket == (old(hasSocket) || go)
        && connected == (old(connected) || (go && n.Some?))
        && if go && n.Some? && locationUpdatePeriod > 0 then
             && locationUpdate == Some(TickerFor(locationUpdatePeriod))
             && strayTickers == old(strayTickers) + (if Running(old(locationUpdate)) then 1 else 0)
           else
             locationUpdate == old(locationUpdate) && strayTickers == old(strayTickers)
      ensures CurrentSettings() == old(CurrentSettings()) && timeoutCnt == old(timeoutCnt)
      ensures CurrentPosition() == old(CurrentPosition()) && nmeaLine == old(nmeaLine) && updates == old(updates)
    {
      attempts := 0;
      if ip.Some? && ip.value != [] {
        var valid := ValidateDottedQuad(ip.value);
        if valid == Ok(true) && port > 0 && port < 65536 {
          var rl;
          rl, attempts := RetryLoop(connectOk);
          if rl <= 0 {
            // every attempt failed
          } else if locationUpdatePeriod > 0 {
            if Running(locationUpdate) {
              strayTickers := strayTickers + 1;
            }
            locationUpdate := Some(TickerFor(locationUpdatePeriod));
          }
        }
      }
    }

    /**
     * The retry loop of `connectToServer`: a new socket per attempt, and
     * `rl` counting down from `maxRetryLimit` on each failure; it ends with
     * `rl` at 0 when every attempt failed.
     */
    method RetryLoop(connectOk: nat -> bool) returns (rl: int, ghost attempts: nat)
      requires Valid()
      modifies this
      ensures Valid() && hasSocket
      ensures 0 <= rl <= maxRetryLimit
      ensures var n := FirstSuccess(connectOk, maxRetryLimit);
        && (n.None? <==> rl == 0)
        && (n.Some? ==> n.value == maxRetryLimit - rl && attempts == n.value + 1)
        && (n.None? ==> attempts == maxRetryLimit)
      ensures connected == (old(connected) || rl > 0)
      ensures CurrentSettings() == old(CurrentSettings()) && timeoutCnt == old(timeoutCnt)
      ensures CurrentPosition() == old(CurrentPosition()) && nmeaLine == old(nmeaLine) && updates == old(updates)
      ensures locationUpdate == old(locationUpdate) && strayTickers == old(strayTickers)
    {
      attempts := 0;
      rl := maxRetryLimit;
      while rl > 0
        invariant 0 <= rl <= maxRetryLimit
        invariant forall j :: 0 <= j < maxRetryLimit - rl ==> !connectOk(j)
        invariant hasSocket == (old(hasSocket) || rl < maxRetryLimit)
        invariant connected == old(connected)
        invariant attempts == maxRetryLimit - rl
        invariant Valid() && CurrentSettings() == old(CurrentSettings()) && timeoutCnt == old(timeoutCnt)
        invariant CurrentPosition() == old(CurrentPosition()) && locationUpdate == old(locationUpdate)
        invariant nmeaLine == old(nmeaLine) && updates == old(updates) && strayTickers == old(strayTickers)
        decreases rl
      {
        hasSocket := true;
        attempts := attempts + 1;
        if connectOk(maxRetryLimit - rl) {
          connected := true;
          break;
        }
        rl := rl - 1;
      }
    }

    /** `startup`: connects unless already connected. */
    method Startup(connectOk: nat -> bool)
      requires Valid()
      modifies this
      ensures Valid()
      ensures old(connected) ==> connected && locationUpdate == old(locationUpdate) && hasSocket == old(hasSocket)
      ensures !old(connected) ==>
        connected == (ip.Some? && ValidPort(port) && FirstSuccess(connectOk, maxRetryLimit).Some?)
      ensures CurrentSettings() == old(CurrentSettings()) && CurrentPosition() == old(CurrentPosition())
    {
      if !connected {
        var _ := ConnectToServer(connectOk);
      }
    }

    /**
     * `setIp`: a valid address replaces the stored one, closes a live
     * connection and connects again; any other value is ignored, and one
     * whose check throws leaves everything as it was.
     */
    method SetIp(value: Option<string>, connectOk: nat -> bool) returns (err: Option<string>)
      requires Valid()
      modifies this
      ensures Valid()
      ensures err == if AcceptsIp(value).Err? then Some(AcceptsIp(value).error) else None
      ensures ip == if AcceptsIp(value) == Ok(true) then value else old(ip)
      ensures port == old(port) && timeout == old(timeout) && maxRetryLimit == old(maxRetryLimit)
      ensures AcceptsIp(value) != Ok(true) ==>
        connected == old(connected) && locationUpdate == old(locationUpdate) && hasSocket == old(hasSocket)
      ensures AcceptsIp(value) == Ok(true) ==>
        connected == (ValidPort(port) && FirstSuccess(connectOk, maxRetryLimit).Some?)
      ensures CurrentPosition() == old(CurrentPosition())
    {
      err := None;
      if value.Some? && value.value != [] {
        var valid := ValidateDottedQuad(value.value);
        if valid.Err? {
          return Some(valid.error);
        }
        if valid.value {
          ip := value;
          if connected {
            CloseConnection();
          }
          var _ := ConnectToServer(connectOk);
        }
      }
    }

    /** `setPort`: a port from 1 to 65535 replaces the stored one and reconnects as `setIp` does; any other is ignored. */
    method SetPort(value: int, connectOk: nat -> bool)
      requires Valid()
      modifies this
      ensures Valid()
      ensures port == if ValidPort(value) then value else old(port)
      ensures ip == old(ip) && timeout == old(timeout) && maxRetryLimit == old(maxRetryLimit)
      ensures !ValidPort(value) ==>
        connected == old(connected) && locationUpdate == old(locationUpdate) && hasSocket == old(hasSocket)
      ensures ValidPort(value) ==>
        connected == (ip.Some? && FirstSuccess(connectOk, maxRetryLimit).Some?)
      ensures CurrentPosition() == old(CurrentPosition())
    {
      if value > 0 && value < 65536 {
        port := value;
        if connected {
          CloseConnection();
        }
        var _ := ConnectToServer(connectOk);
      }
    }

    /** `setMaxRetryLimit`: only a positive value is taken. */
    method SetMaxRetryLimit(value: int)
      requires Valid()
      modifies this
      ensures Valid()
      ensures maxRetryLimit == if value > 0 then value else old(maxRetryLimit)
      ensures CurrentSettings() == old(CurrentSettings()).(maxRetryLimit := maxRetryLimit)
      ensures connected == old(connected) && locationUpdate == old(locationUpdate) && timeoutCnt == old(timeoutCnt)
    {
      if value > 0 {
        maxRetryLimit := value;
      }
    }

    /** `setTimeout`: only a positive value is taken. */
    method SetTimeout(value: int)
      requires Valid()
      modifies this
      ensures Valid()
      ensures timeout == if value > 0 then value else old(timeout)
      ensures CurrentSettings() == old(CurrentSettings()).(timeout := timeout)
      ensures connected == old(connected) && locationUpdate == old(locationUpdate) && timeoutCnt == old(timeoutCnt)
    {
      if value > 0 {
        timeout := value;
      }
    }

    /** `setMaxTimeoutCnt`: any value is taken, and the failed-read count starts again from 0. */
    method SetMaxTimeoutCnt(value: int)
      requires Valid()
      modifies this
      ensures Valid()
      ensures maxTimeoutCnt == value && timeoutCnt == 0
      ensures CurrentSettings() == old(CurrentSettings()).(maxTimeoutCnt := value)
      ensures connected == old(connected) && locationUpdate == old(locationUpdate)
    {
      maxTimeoutCnt := value;
      timeoutCnt := 0;
    }

    /**
     * `setLocationUpdatePeriod`: a negative period is ignored; otherwise the
     * period is stored and the current ticker stopped, then 0 leaves no
     * ticker and a positive period starts a new one, connected or not.
     */
    method SetLocationUpdatePeriod(value: int)
      requires Valid()
      modifies this
      ensures Valid()
      ensures value < 0 ==> locationUpdatePeriod == old(locationUpdatePeriod) && locationUpdate == old(locationUpdate)
      ensures value == 0 ==> locationUpdatePeriod == 0 && locationUpdate.None?
      ensures value > 0 ==> locationUpdatePeriod == value && locationUpdate == Some(TickerFor(value))
      ensures CurrentSettings() == old(CurrentSettings()).(locationUpdatePeriod := locationUpdatePeriod)
      ensures connected == old(connected) && timeoutCnt == old(timeoutCnt) && strayTickers == old(strayTickers)
    {
      if value >= 0 {
        locationUpdatePeriod := value;
        locationUpdate := Stopped(locationUpdate);
        if value == 0 {
          locationUpdate := None;
        } else {
          locationUpdate := Some(TickerFor(value));
        }
      }
    }

    /** `parseGPRMC` / `parseGPGGA`: the fields are assigned as far as the parse got. */
    method ParseSentence(nl: string, kind: Sentence, parseDouble: string -> Option<real>) returns (r: Result<bool, string>)
      modifies this
      ensures r == Parse(nl, kind, parseDouble).result
      ensures CurrentPosition() == Apply(old(CurrentPosition()), Parse(nl, kind, parseDouble).update)
      ensures CurrentSettings() == old(CurrentSettings()) && timeoutCnt == old(timeoutCnt)
      ensures connected == old(connected) && hasSocket == old(hasSocket) && nmeaLine == old(nmeaLine)
      ensures locationUpdate == old(locationUpdate) && strayTickers == old(strayTickers) && updates == old(updates)
    {
      var o := Parse(nl, kind, parseDouble);
      Assign(o.update);
      r := o.result;
    }

    /** The assignments of a parse: each field the parse got to is overwritten. */
    method Assign(u: Update)
      modifies this
      ensures CurrentPosition() == Apply(old(CurrentPosition()), u)
      ensures CurrentSettings() == old(CurrentSettings()) && timeoutCnt == old(timeoutCnt)
      ensures connected == old(connected) && hasSocket == old(hasSocket) && nmeaLine == old(nmeaLine)
      ensures locationUpdate == old(locationUpdate) && strayTickers == old(strayTickers) && updates == old(updates)
    {
      if u.lastFixTime.Some? {
        lastFixTime := u.lastFixTime;
      }
      latD := u.latD.GetOr(latD);
      latM := u.latM.GetOr(latM);
      longD := u.longD.GetOr(longD);
      longM := u.longM.GetOr(longM);
    }

    /**
     * `readNmeaData` on one read: without a socket the read throws
     * NullPointerException; a line clears the failed-read count and, when
     * it is an RMC or GGA sentence with a fix, moves the position and hands
     * it on (a parse that throws ends the tick there); the end of the
     * stream only clears `nmeaLine`; a failed read counts as `TimeoutStep`
     * says, stopping the ticker and closing the connection when the count
     * reaches its maximum.
     */
    method ReadNmeaData(read: ReadResult, parseDouble: string -> Option<real>) returns (err: Option<string>)
      requires Valid()
      modifies this
      ensures Valid()
      ensures CurrentSettings() == old(CurrentSettings()) && hasSocket == old(hasSocket)
      ensures strayTickers == old(strayTickers)
      ensures !hasSocket ==> err == Some(NULL_POINTER) && timeoutCnt == old(timeoutCnt) && nmeaLine == old(nmeaLine)
      ensures !hasSocket || !read.Line? ==> CurrentPosition() == old(CurrentPosition()) && updates == old(updates)
      ensures hasSocket && read.Line? ==>
        && nmeaLine == Some(read.line) && timeoutCnt == 0
        && connected == old(connected) && locationUpdate == old(locationUpdate)
        && (IsPositionSentence(read.line) ==>
             var o := Parse(read.line, KindOf(read.line), parseDouble);
             && CurrentPosition() == Apply(old(CurrentPosition()), o.update)
             && err == (if o.result.Err? then Some(o.result.error) else None)
             && updates == old(updates) + (if o.result == Ok(true) then [CurrentPosition()] else []))
        && (!IsPositionSentence(read.line) ==> err.None? && CurrentPosition() == old(CurrentPosition()) && updates == old(updates))
      ensures hasSocket && read.EndOfStream? ==>
        err.None? && nmeaLine.None? && timeoutCnt == old(timeoutCnt)
        && connected == old(connected) && locationUpdate == old(locationUpdate)
      ensures hasSocket && read.ReadError? ==>
        && err.None? && nmeaLine == old(nmeaLine)
        && var (cnt, close) := TimeoutStep(old(timeoutCnt), maxTimeoutCnt);
           && timeoutCnt == cnt
           && (close ==> !connected && locationUpdate == Stopped(old(locationUpdate)))
           && (!close ==> connected == old(connected) && locationUpdate == old(locationUpdate))
    {
      err := None;
      if !hasSocket {
        return Some(NULL_POINTER);
      }
      match read
      case Line(l) =>
        err := ReadLine(l, parseDouble);
      case EndOfStream =>
        nmeaLine := None;
      case ReadError =>
        ReadFailed();
    }

    /** A line read: the count is cleared and an RMC or GGA sentence parsed and, with a fix, handed on. */
    method ReadLine(l: string, parseDouble: string -> Option<real>) returns (err: Option<string>)
      requires Valid()
      modifies this
      ensures Valid()
      ensures CurrentSettings() == old(CurrentSettings()) && hasSocket == old(hasSocket)
      ensures strayTickers == old(strayTickers) && connected == old(connected) && locationUpdate == old(locationUpdate)
      ensures nmeaLine == Some(l) && timeoutCnt == 0
      ensures IsPositionSentence(l) ==>
        var o := Parse(l, KindOf(l), parseDouble);
        && CurrentPosition() == Apply(old(CurrentPosition()), o.update)
        && err == (if o.result.Err? then Some(o.result.error) else None)
        && updates == old(updates) + (if o.result == Ok(true) then [CurrentPosition()] else [])
      ensures !IsPositionSentence(l) ==> err.None? && CurrentPosition() == old(CurrentPosition()) && updates == old(updates)
    {
      nmeaLine := Some(l);
      timeoutCnt := 0;
      if IsPositionSentence(l) {
        err := ReadPosition(l, parseDouble);
      } else {
        err := None;
      }
    }

    /** The position branch of `readLine`: parse, assign, and report a new fix. */
    method ReadPosition(l: string, parseDouble: string -> Option<real>) returns (err: Option<string>)
      requires IsPositionSentence(l)
      modifies this
      ensures CurrentSettings() == old(CurrentSettings()) && hasSocket == old(hasSocket)
      ensures strayTickers == old(strayTickers) && connected == old(connected) && locationUpdate == old(locationUpdate)
      ensures nmeaLine == old(nmeaLine) && timeoutCnt == old(timeoutCnt)
      ensures var o := Parse(l, KindOf(l), parseDouble);
        && CurrentPosition() == Apply(old(CurrentPosition()), o.update)
        && err == (if o.result.Err? then Some(o.result.error) else None)
        && updates == old(updates) + (if o.result == Ok(true) then [CurrentPosition()] else [])
    {
      // `parseGPRMC` for "$GPRMC", `parseGPGGA` for "$GPGGA" and "$GNGGA"
      var r := ParseSentence(l, KindOf(l), parseDouble);
      if r.Err? {
        return Some(r.error);
      }
      err := None;
      if r.value {
        updates := updates + [CurrentPosition()];
      }
    }

    /** A read that failed: counted as `TimeoutStep` says, closing the connection at the maximum. */
    method ReadFailed()
      requires Valid() && hasSocket
      modifies this
      ensures Valid()
      ensures CurrentSettings() == old(CurrentSettings()) && hasSocket
      ensures strayTickers == old(strayTickers) && nmeaLine == old(nmeaLine)
      ensures CurrentPosition() == old(CurrentPosition()) && updates == old(updates)
      ensures var (cnt, close) := TimeoutStep(old(timeoutCnt), maxTimeoutCnt);
        && timeoutCnt == cnt
        && (close ==> !connected && locationUpdate == Stopped(old(locationUpdate)))
        && (!close ==> connected == old(connected) && locationUpdate == old(locationUpdate))
    {
      if maxTimeoutCnt > 0 {
        timeoutCnt := timeoutCnt + 1;
        if timeoutCnt >= maxTimeoutCnt {
          locationUpdate := Stopped(locationUpdate);
          timeoutCnt := 0;
          CloseConnection();
        }
      }
    }
  }
}
