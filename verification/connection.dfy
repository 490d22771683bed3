/** The `connection.update` listener: render a pairing QR code when one arrives,
    and on a close either start the bot again or stop for good after a logout. */
module Connection {
  import opened Optional

  /** `DisconnectReason.loggedOut` of the Baileys library (HTTP 401). */
  const LoggedOut: int := 401

  datatype ConnectionState = Connecting | Open | Close

  /** The Boom error's `output`, `lastDisconnect.error` and `lastDisconnect` of an update;
      each layer may be missing. */
  datatype BoomOutput = BoomOutput(statusCode: Option<int>)
  datatype DisconnectError = DisconnectError(output: Option<BoomOutput>)
  datatype LastDisconnect = LastDisconnect(error: Option<DisconnectError>)

  datatype ConnectionUpdate = ConnectionUpdate(
    connection: Option<ConnectionState>,
    lastDisconnect: Option<LastDisconnect>,
    qr: Option<string>)

  /** `(lastDisconnect?.error)?.output?.statusCode`: missing as soon as any layer is. */
  function CloseStatus(u: ConnectionUpdate): (s: Option<int>)
    ensures s.Some? ==>
      && u.lastDisconnect.Some?
      && u.lastDisconnect.value.error.Some?
      && u.lastDisconnect.value.error.value.output.Some?
      && u.lastDisconnect.value.error.value.output.value.statusCode == s
  {
    match u.lastDisconnect
    case None => None
    case Some(ld) =>
      match ld.error
      case None => None
      case Some(e) =>
        match e.output
        case None => None
        case Some(o) => o.statusCode
  }

  /** The network reported that this linked device was logged out. */
  ghost predicate IsLoggedOut(u: ConnectionUpdate) {
    exists ld, e, o :: u.lastDisconnect == Some(ld) && ld.error == Some(e) && e.output == Some(o)
      && o.statusCode == Some(LoggedOut)
  }

  /** The optional chain yields the logout code exactly when the network logged the device out. */
  lemma LoggedOutStatus(u: ConnectionUpdate)
    ensures CloseStatus(u) == Some(LoggedOut) <==> IsLoggedOut(u)
  {
    if CloseStatus(u) == Some(LoggedOut) {
      var ld := u.lastDisconnect.value;
      var e := ld.error.value;
      var o := e.output.value;
      assert u.lastDisconnect == Some(ld) && ld.error == Some(e) && e.output == Some(o);
    }
  }

  /** What the listener does with one update: render the QR code, call `startBot()`
      again, or log that the session was logged out. */
  datatype Reaction = Reaction(renderQr: bool, restart: bool, loggedOut: bool)

  /** A close restarts the bot unless the network logged the device out; a close
      that carries no status code restarts too. Nothing but a close restarts. */
  function OnConnectionUpdate(u: ConnectionUpdate): (r: Reaction)
    ensures r.restart <==> u.connection == Some(Close) && !IsLoggedOut(u)
    ensures r.loggedOut <==> u.connection == Some(Close) && IsLoggedOut(u)
    ensures r.renderQr <==> u.qr.Some? && u.qr.value != ""
  {
    var closing := u.connection == Some(Close);
    var status := CloseStatus(u);
    LoggedOutStatus(u);
    Reaction(
      OrElse(u.qr, "") != "",
      closing && status != Some(LoggedOut),
      closing && status == Some(LoggedOut))
  }

  /** A close without a status code (no error, no output, or no code) restarts. */
  lemma MissingStatusRestarts(u: ConnectionUpdate)
    requires u.connection == Some(Close) && CloseStatus(u).None?
    ensures OnConnectionUpdate(u).restart
  {
  }

  /** How many times a stream of updates from one socket calls `startBot()`. */
  function Restarts(us: seq<ConnectionUpdate>): (n: nat)
    ensures n <= |us|
    ensures n == 0 <==> forall j | 0 <= j < |us| :: !OnConnectionUpdate(us[j]).restart
  {
    if |us| == 0 then 0
    else (if OnConnectionUpdate(us[0]).restart then 1 else 0) + Restarts(us[1..])
  }

  /** Restarts of consecutive stretches of updates add up: each close that is not a
      logout restarts exactly once, whatever came before it. */
  lemma {:induction false} RestartsAppend(a: seq<ConnectionUpdate>, b: seq<ConnectionUpdate>)
    ensures Restarts(a + b) == Restarts(a) + Restarts(b)
    decreases |a|
  {
    if |a| > 0 {
      assert (a + b)[1..] == a[1..] + b;
      RestartsAppend(a[1..], b);
    } else {
      assert a + b == b;
    }
  }
}
