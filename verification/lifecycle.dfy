/**
 * The pure rules of a connection's lifecycle: the idle-timeout budget and
 * test of the watchdog (`ConnectionHandler.__init__`, `_check_timeout`), and
 * where the client's address comes from (`handle_connection`).
 * Times are whole milliseconds since the epoch (`time.time() * 1000`).
 */
module Lifecycle {
  import opened Wrappers
  import opened Text
  import opened Config

  /** The first-stage idle limit the configuration falls back to, in seconds. */
  const DefaultNoVoiceSeconds: int := 120

  /** The watchdog closes this many seconds after the first-stage limit. */
  const SecondStageGraceSeconds: int := 60

  /**
   * `timeout_seconds`: `int(close_connection_no_voice_time)` (default 120)
   * plus 60; `None` when `int()` raises on the configured value.
   */
  function TimeoutSeconds(config: map<string, Value>): (r: Option<int>)
    ensures "close_connection_no_voice_time" !in config ==> r == Some(180)
    ensures "close_connection_no_voice_time" in config ==>
      (r.Some? <==> AsInt(config["close_connection_no_voice_time"]).Some?)
    ensures "close_connection_no_voice_time" in config && r.Some? ==>
      AsInt(config["close_connection_no_voice_time"]) == Some(r.value - 60)
  {
    match AsInt(Get(config, "close_connection_no_voice_time", Int(DefaultNoVoiceSeconds)))
    case Some(n) =>
      assert AsInt(Int(n)) == Some(n);
      Some(n + SecondStageGraceSeconds)
    case None => None
  }

  /**
   * The watchdog's test: a last-activity time has been recorded (it is
   * positive) and more than `timeoutSeconds` seconds have passed since.
   */
  predicate IdleExpired(lastActivityTime: int, now: int, timeoutSeconds: int) {
    lastActivityTime > 0 && now - lastActivityTime > timeoutSeconds * 1000
  }

  /**
   * Once expired, a session stays expired as the clock moves on; a later
   * activity time postpones expiry; with no activity time it never expires;
   * and within the budget it has not expired.
   */
  lemma IdleExpiryMonotone(last: int, last': int, now: int, now': int, timeoutSeconds: int)
    ensures IdleExpired(last, now, timeoutSeconds) && now <= now' ==> IdleExpired(last, now', timeoutSeconds)
    ensures 0 < last <= last' && IdleExpired(last', now, timeoutSeconds) ==> IdleExpired(last, now, timeoutSeconds)
    ensures last <= 0 ==> !IdleExpired(last, now, timeoutSeconds)
    ensures now - last <= timeoutSeconds * 1000 ==> !IdleExpired(last, now, timeoutSeconds)
  {
  }

  /** Python's `headers.get(name)` used as a truth value: present and non-empty. */
  function NonEmptyHeader(headers: map<string, string>, name: string): Option<string> {
    if name in headers && headers[name] != [] then Some(headers[name]) else None
  }

  /**
   * `client_ip`: the first comma-separated entry of `x-real-ip`, or else of
   * `x-forwarded-for`, stripped of whitespace; the peer address of the socket
   * when neither header is given.
   */
  function ClientIp(headers: map<string, string>, remoteAddress: string): (ip: string)
    ensures NonEmptyHeader(headers, "x-real-ip").None? && NonEmptyHeader(headers, "x-forwarded-for").None?
      ==> ip == remoteAddress
    ensures NonEmptyHeader(headers, "x-real-ip").Some? || NonEmptyHeader(headers, "x-forwarded-for").Some?
      ==> ',' !in ip && !(ip != [] && (IsWhitespace(ip[0]) || IsWhitespace(ip[|ip| - 1])))
    ensures NonEmptyHeader(headers, "x-real-ip").Some? ==> ip == Strip(FirstField(headers["x-real-ip"], ','))
    ensures NonEmptyHeader(headers, "x-real-ip").None? && NonEmptyHeader(headers, "x-forwarded-for").Some?
      ==> ip == Strip(FirstField(headers["x-forwarded-for"], ','))
  {
    var realIp :=
      match NonEmptyHeader(headers, "x-real-ip")
      case Some(v) => Some(v)
      case None => NonEmptyHeader(headers, "x-forwarded-for");
    match realIp
    case Some(v) =>
      var first := FirstField(v, ',');
      StripKeepsAbsent(first, ',');
      Strip(first)
    case None => remoteAddress
  }

  /** The header `ClientIp` reads: `x-real-ip` when it is non-empty, otherwise `x-forwarded-for` (or ""). */
  function ChosenHeader(headers: map<string, string>): string {
    if "x-real-ip" in headers && headers["x-real-ip"] != [] then headers["x-real-ip"]
    else Get'(headers, "x-forwarded-for")
  }

  /**
   * The header chosen is read up to its first comma: `x-real-ip` wins over
   * `x-forwarded-for`, and of a proxy chain `client, proxy1, ...` only the
   * client is kept, stripped; a client address already trimmed is kept as is.
   */
  lemma ClientIpTakesFirstHop(headers: map<string, string>, remoteAddress: string, hop: string, rest: string)
    requires ChosenHeader(headers) == hop + [','] + rest
    requires ',' !in hop
    ensures ClientIp(headers, remoteAddress) == Strip(hop)
    ensures hop != [] && !IsWhitespace(hop[0]) && !IsWhitespace(hop[|hop| - 1]) ==> ClientIp(headers, remoteAddress) == hop
  {
    var chosen := hop + [','] + rest;
    assert Find(chosen, ',') == |hop| by {
      assert chosen[|hop|] == ',';
      assert forall i :: 0 <= i < |hop| ==> chosen[i] == hop[i];
    }
    assert FirstField(chosen, ',') == hop;
    if hop != [] && !IsWhitespace(hop[0]) && !IsWhitespace(hop[|hop| - 1]) {
      StripKeepsTrimmed(hop);
    }
  }

  /** A header holding a single address, such as `x-real-ip: 1.2.3.4`, gives that address, stripped. */
  lemma ClientIpOfOneAddress(headers: map<string, string>, remoteAddress: string)
    requires ChosenHeader(headers) != [] && ',' !in ChosenHeader(headers)
    ensures ClientIp(headers, remoteAddress) == Strip(ChosenHeader(headers))
  {
    var chosen := ChosenHeader(headers);
    assert FirstField(chosen, ',') == chosen;
  }

  /** `headers.get(name, "")`. */
  function Get'(headers: map<string, string>, name: string): string {
    if name in headers then headers[name] else []
  }
}
