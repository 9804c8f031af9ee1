/**
 PIN-authenticated pairing (crates/ss-network/src/pairing/client.rs and server.rs)
 as a system of connections that share one PIN manager.

 Cryptography is ideal: a PAKE key is common to both ends exactly when their PINs
 are, a sealed payload opens under its own key only, and a certificate names the
 request and the authority it was signed for.  A connection can break at any read
 or write, for one end or both; what it carries was written by its two ends, unless
 a run contains messages that arrive from elsewhere.
 */
module Pairing {
  import opened Wrappers
  import opened PM = PinManager

  const PAIR_PROTOCOL_VERSION := 1

  type Name = string

  /** A SPAKE2 message: which exchange it belongs to, and the PIN blinded in it. */
  datatype SpakeMsg = SpakeMsg(pin: Pin, exchange: nat)

  datatype Key = Shared(pin: Pin, exchanges: set<nat>) | Unmatched(mine: SpakeMsg, theirs: SpakeMsg)

  function KeyOf(mine: SpakeMsg, theirs: SpakeMsg): Key {
    if mine.pin == theirs.pin then Shared(mine.pin, {mine.exchange, theirs.exchange}) else Unmatched(mine, theirs)
  }

  datatype Sealed<T> = Sealed(key: Key, payload: T) {
    function Open(k: Key): Option<T> {
      if k == key then Some(payload) else None
    }
  }

  /** A certificate signing request, for the key pair the client generated. */
  datatype Csr = Csr(subject: Name, keyPair: nat)
  datatype Authority = Authority(id: nat)
  datatype Cert = Cert(issuer: Authority, csr: Csr)
  datatype Fingerprint = FingerprintOf(cert: Cert)

  datatype ProvisionRequest = ProvisionRequest(csr: Csr, name: Option<Name>)
  datatype ProvisionResponse = ProvisionResponse(clientCert: Cert, ca: Authority)

  /** What the client keeps, and what the server records. */
  datatype PairedMaterial = PairedMaterial(clientCert: Cert, clientKey: nat, ca: Authority)
  datatype PairedClient = PairedClient(name: Name, certFingerprint: Fingerprint)

  datatype Reason = TemporarilyLocked | UnsupportedVersion | UnexpectedMessage | ChannelError | PinVerificationFailed

  /** The client looks for "PIN" in the reason's text. */
  predicate MentionsPin(r: Reason) {
    r.PinVerificationFailed?
  }

  datatype Msg =
    | PairRequest(version: nat, name: Name)
    | PairSpake(msg: SpakeMsg)
    | PairConfirm(request: Sealed<ProvisionRequest>)
    | PairResult(response: Sealed<ProvisionResponse>)
    | PairError(reason: Reason)

  datatype ClientError = Rejected(reason: Reason) | BadPin | Protocol

  datatype ClientPc =
    | WillRequest
    | WillSendSpake
    | AwaitServerSpake
    | WillConfirm(confirmKey: Key)
    | AwaitResult(resultKey: Key)
    | ClientDone(result: Result<PairedMaterial, ClientError>)

  datatype ServerPc =
    | WillCheckLock
    | AwaitRequest
    | AwaitClientSpake(requested: Name)
    | WillAnswerSpake(requested: Name, theirs: SpakeMsg)
    | AwaitConfirm(requested: Name, key: Key)
    | WillSign(requested: Name, key: Key, request: ProvisionRequest)
    | WillRecord(requested: Name, request: ProvisionRequest, cert: Cert)
    | WillReject(rejection: Reason)
    | ServerDone

  /** When a connection's PIN was read and issued, which one it was, and when it was signed under. */
  datatype Stamps = Stamps(takenAt: nat, bornAt: nat, issue: nat, signedAt: nat)

  /** One pairing connection: both ends, both directions, and what happened on it. */
  datatype Conn = Conn(
    pin: Pin, name: Name, keyPair: nat, clientExchange: nat, serverExchange: nat,
    client: ClientPc, server: ServerPc, toServer: seq<Msg>, toClient: seq<Msg>,
    snapshot: Option<Pin>, signed: Option<Cert>, record: Option<PairedClient>,
    confirmsRead: nat, failures: nat, stamps: Stamps)

  function NewConn(pin: Pin, name: Name, keyPair: nat, clientExchange: nat, serverExchange: nat): Conn {
    Conn(pin, name, keyPair, clientExchange, serverExchange, WillRequest, WillCheckLock, [], [],
         None, None, None, 0, 0, Stamps(0, 0, 0, 0))
  }

  /** How a read or write goes; a failing write may still have been delivered. */
  datatype Io = Works | Breaks(delivered: bool)

  function ClientSpake(c: Conn): SpakeMsg {
    SpakeMsg(c.pin, c.clientExchange)
  }

  function Request(c: Conn): ProvisionRequest {
    ProvisionRequest(Csr(c.name, c.keyPair), Some(c.name))
  }

  /** A write by the client, which then continues at `next` or gives up. */
  function ClientWrites(c: Conn, io: Io, m: Msg, next: ClientPc): Conn {
    match io
    case Works => c.(toServer := c.toServer + [m], client := next)
    case Breaks(d) =>
      c.(toServer := if d then c.toServer + [m] else c.toServer, client := ClientDone(Failure(Protocol)))
  }

  function ClientReadsSpake(m: Msg, mine: SpakeMsg): ClientPc {
    match m
    case PairSpake(theirs) => WillConfirm(KeyOf(mine, theirs))
    case PairError(r) => ClientDone(Failure(Rejected(r)))
    case _ => ClientDone(Failure(Protocol))
  }

  function ClientReadsResult(m: Msg, key: Key, keyPair: nat): ClientPc {
    match m
    case PairResult(s) =>
      (match s.Open(key)
       case Some(r) => ClientDone(Success(PairedMaterial(r.clientCert, keyPair, r.ca)))
       case None => ClientDone(Failure(BadPin)))
    case PairError(r) => ClientDone(Failure(if MentionsPin(r) then BadPin else Rejected(r)))
    case _ => ClientDone(Failure(Protocol))
  }

  /** One step of pair_with_server; a read with nothing to read waits. */
  function ClientStep(c: Conn, io: Io): Conn {
    match c.client
    case WillRequest => ClientWrites(c, io, PairRequest(PAIR_PROTOCOL_VERSION, c.name), WillSendSpake)
    case WillSendSpake => ClientWrites(c, io, PairSpake(ClientSpake(c)), AwaitServerSpake)
    case AwaitServerSpake =>
      if io.Breaks? then c.(client := ClientDone(Failure(Protocol)))
      else if c.toClient == [] then c
      else c.(client := ClientReadsSpake(c.toClient[0], ClientSpake(c)), toClient := c.toClient[1..])
    case WillConfirm(k) => ClientWrites(c, io, PairConfirm(Sealed(k, Request(c))), AwaitResult(k))
    case AwaitResult(k) =>
      if io.Breaks? then c.(client := ClientDone(Failure(Protocol)))
      else if c.toClient == [] then c
      else c.(client := ClientReadsResult(c.toClient[0], k, c.keyPair), toClient := c.toClient[1..])
    case ClientDone(_) => c
  }

  /** handle_pairing is running: past the lock check and not yet returned. */
  predicate InFlight(s: ServerPc) {
    !s.WillCheckLock? && !s.WillReject? && !s.ServerDone?
  }

  /** The server's step, and what it does to the PIN manager, if anything. */
  datatype ServerMoved = ServerMoved(conn: Conn, effects: seq<PinAction>)

  function ServerFails(c: Conn, r: Reason, at: nat): ServerMoved {
    ServerMoved(c.(server := WillReject(r)), [Abandon(at)])
  }

  function ServerWrites(c: Conn, io: Io, m: Msg, next: ServerPc): Conn {
    match io
    case Works => c.(toClient := c.toClient + [m], server := next)
    case Breaks(d) => c.(toClient := if d then c.toClient + [m] else c.toClient, server := WillReject(ChannelError))
  }

  function ServerReads(c: Conn, m: Msg, at: nat): ServerMoved {
    match c.server
    case AwaitRequest =>
      if m.PairRequest? then
        if m.version == PAIR_PROTOCOL_VERSION then ServerMoved(c.(server := AwaitClientSpake(m.name)), [])
        else ServerFails(c, UnsupportedVersion, at)
      else ServerFails(c, UnexpectedMessage, at)
    case AwaitClientSpake(n) =>
      if m.PairSpake? then ServerMoved(c.(server := WillAnswerSpake(n, m.msg)), [])
      else ServerFails(c, UnexpectedMessage, at)
    case AwaitConfirm(n, k) =>
      if m.PairConfirm? then
        var read := c.(confirmsRead := c.confirmsRead + 1);
        match m.request.Open(k)
        case Some(r) => ServerMoved(read.(server := WillSign(n, k, r)), [])
        case None =>
          ServerMoved(read.(server := WillReject(PinVerificationFailed), failures := c.failures + 1), [Fail(at)])
      else ServerFails(c, UnexpectedMessage, at)
    case _ => ServerMoved(c, [])
  }

  /** One step of handle_pairing and of the error notice its caller sends. */
  function ServerStep(p: Params, ca: Authority, c: Conn, pm: PinState, io: Io, at: nat, freshPin: Pin): ServerMoved {
    match c.server
    case WillCheckLock =>
      if Locked(pm, at) then ServerMoved(c.(server := WillReject(TemporarilyLocked)), [CheckLock(at)])
      else ServerMoved(c.(server := AwaitRequest), [CheckLock(at)])
    case WillAnswerSpake(n, theirs) =>
      var pin := Rotated(p, pm, freshPin, at).pin;
      var mine := SpakeMsg(pin, c.serverExchange);
      var next := ServerWrites(c, io, PairSpake(mine), AwaitConfirm(n, KeyOf(mine, theirs)));
      ServerMoved(next.(snapshot := Some(pin)), [TakePin(freshPin, at)] + if io.Works? then [] else [Abandon(at)])
    case WillSign(n, k, r) =>
      var cert := Cert(ca, r.csr);
      var next := ServerWrites(c, io, PairResult(Sealed(k, ProvisionResponse(cert, ca))), WillRecord(n, r, cert));
      ServerMoved(next.(signed := Some(cert)), if io.Works? then [] else [Abandon(at)])
    case WillRecord(n, r, cert) =>
      var shown := if r.name.Some? then r.name.value else n;
      ServerMoved(c.(server := ServerDone, record := Some(PairedClient(shown, FingerprintOf(cert)))),
                  [Succeed(freshPin, at)])
    case WillReject(r) =>
      ServerMoved(ServerWrites(c, io, PairError(r), ServerDone).(server := ServerDone), [])
    case ServerDone => ServerMoved(c, [])
    case _ =>
      if io.Breaks? then ServerFails(c, ChannelError, at)
      else if c.toServer == [] then ServerMoved(c, [])
      else ServerReads(c.(toServer := c.toServer[1..]), c.toServer[0], at)
  }

  // ------------------------------------------------------------------
  // The system
  // ------------------------------------------------------------------

  /** All pairing connections there will be, and the PIN manager they share. */
  datatype System = System(conns: seq<Conn>, guard: Guard)

  /** A step of either end, of the display, or a message from someone who follows no protocol. */
  datatype Move =
    | ClientMove(conn: nat, clientIo: Io)
    | Arrive(target: nat, foreign: Msg)
    | ServerMove(served: nat, serverIo: Io, wait: nat, freshPin: Pin)
    | ShowPin(shownAfter: nat, newPin: Pin)

  function Tell(p: Params, g: Guard, a: PinAction): Guard {
    if Enabled(g, a) then PM.Step(p, g, a) else g
  }

  function TellAll(p: Params, g: Guard, effects: seq<PinAction>): Guard
    decreases effects
  {
    if effects == [] then g else TellAll(p, Tell(p, g, effects[0]), effects[1..])
  }

  /** What the logs note about a server step, given the manager right after it. */
  function Stamped(before: Conn, after: Conn, g: Guard): Conn {
    var taken := if before.snapshot.None? && after.snapshot.Some? then
                   after.stamps.(takenAt := g.now, bornAt := g.state.generatedAt, issue := g.issue)
                 else after.stamps;
    after.(stamps := if before.signed.None? && after.signed.Some? then taken.(signedAt := g.now) else taken)
  }

  function Advance(p: Params, ca: Authority, s: System, m: Move): System {
    match m
    case ClientMove(i, io) =>
      if i < |s.conns| then s.(conns := s.conns[i := ClientStep(s.conns[i], io)]) else s
    case Arrive(i, m) =>
      if i < |s.conns| then s.(conns := s.conns[i := s.conns[i].(toServer := s.conns[i].toServer + [m])]) else s
    case ServerMove(i, io, wait, next) =>
      if i < |s.conns| then
        var g := s.guard.(now := s.guard.now + wait);
        var r := ServerStep(p, ca, s.conns[i], g.state, io, g.now, next);
        var h := TellAll(p, g, r.effects);
        System(s.conns[i := Stamped(s.conns[i], r.conn, h)], h)
      else s
    case ShowPin(wait, next) =>
      s.(guard := Tell(p, s.guard, TakePin(next, s.guard.now + wait)))
  }

  function RunMoves(p: Params, ca: Authority, s: System, moves: seq<Move>): System {
    if moves == [] then s else Advance(p, ca, RunMoves(p, ca, s, moves[..|moves| - 1]), moves[|moves| - 1])
  }

  predicate IsNew(c: Conn) {
    c == NewConn(c.pin, c.name, c.keyPair, c.clientExchange, c.serverExchange)
  }

  predicate FreshSystem(s: System, firstPin: Pin) {
    s.guard == Idle(firstPin) && forall c :: c in s.conns ==> IsNew(c)
  }
}
