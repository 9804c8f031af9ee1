/**
 What pairing guarantees between two ends that follow it: who gets a certificate,
 what each end may conclude, and when an undisturbed exchange succeeds.
 */
module PairingAgreement {
  import opened Wrappers
  import opened PM = PinManager
  import opened Pairing

  // ------------------------------------------------------------------
  // One connection
  // ------------------------------------------------------------------

  function ServerSpake(c: Conn): SpakeMsg
    requires c.snapshot.Some?
  {
    SpakeMsg(c.snapshot.value, c.serverExchange)
  }

  predicate IsClientKey(c: Conn, k: Key) {
    c.snapshot.Some? && k == KeyOf(ClientSpake(c), ServerSpake(c))
  }

  predicate IsServerKey(c: Conn, k: Key) {
    c.snapshot.Some? && k == KeyOf(ServerSpake(c), ClientSpake(c))
  }

  /** Both ends derive the same key exactly when their PINs are equal. */
  lemma KeysAgreeIff(a: SpakeMsg, b: SpakeMsg)
    ensures KeyOf(a, b) == KeyOf(b, a) <==> a.pin == b.pin
  {
    if a.pin == b.pin {
      assert {a.exchange, b.exchange} == {b.exchange, a.exchange};
    }
  }

  predicate ToServerLegit(c: Conn, m: Msg) {
    match m
    case PairRequest(v, n) => v == PAIR_PROTOCOL_VERSION && n == c.name
    case PairSpake(msg) => msg == ClientSpake(c)
    case PairConfirm(s) => s.payload == Request(c) && IsClientKey(c, s.key)
    case _ => false
  }

  predicate ToClientLegit(ca: Authority, c: Conn, m: Msg) {
    match m
    case PairSpake(msg) => c.snapshot.Some? && msg == ServerSpake(c)
    case PairResult(s) => c.signed.Some? && s.payload == ProvisionResponse(c.signed.value, ca) && IsServerKey(c, s.key)
    case PairError(_) => true
    case _ => false
  }

  predicate ClientSound(ca: Authority, c: Conn) {
    match c.client
    case WillConfirm(k) => IsClientKey(c, k)
    case AwaitResult(k) => IsClientKey(c, k)
    case ClientDone(Success(mat)) => c.signed.Some? && mat == PairedMaterial(c.signed.value, c.keyPair, ca)
    case _ => true
  }

  /** The server has not yet read a PairConfirm. */
  predicate Unconfirmed(s: ServerPc) {
    s.WillCheckLock? || s.AwaitRequest? || s.AwaitClientSpake? || s.WillAnswerSpake? || s.AwaitConfirm?
  }

  predicate ServerSound(ca: Authority, c: Conn) {
    && (Unconfirmed(c.server) ==> c.confirmsRead == 0 && c.signed == None)
    && (Unconfirmed(c.server) && !c.server.AwaitConfirm? ==> c.snapshot == None)
    && (c.record.Some? ==> c.server.ServerDone?)
    && match c.server
       case AwaitClientSpake(n) => n == c.name
       case WillAnswerSpake(n, theirs) => n == c.name && theirs == ClientSpake(c)
       case AwaitConfirm(n, k) => n == c.name && IsServerKey(c, k)
       case WillSign(n, k, r) =>
         n == c.name && IsServerKey(c, k) && r == Request(c) && c.snapshot == Some(c.pin) && c.signed == None
       case WillRecord(n, r, cert) => n == c.name && r == Request(c) && c.signed == Some(cert)
       case _ => true
  }

  /** The facts a reader of the logs may rely on. */
  predicate LogsSound(ca: Authority, c: Conn) {
    && (c.signed.Some? ==> c.snapshot == Some(c.pin) && c.signed.value == Cert(ca, Csr(c.name, c.keyPair)))
    && (c.record.Some? ==> c.signed.Some? && c.record.value == PairedClient(c.name, FingerprintOf(c.signed.value)))
    && c.confirmsRead <= 1
    && (c.confirmsRead == 1 ==> c.snapshot.Some?)
    && c.failures == (if c.snapshot.Some? && c.snapshot.value != c.pin then c.confirmsRead else 0)
  }

  predicate QueuesLegit(ca: Authority, c: Conn) {
    && (forall m :: m in c.toServer ==> ToServerLegit(c, m))
    && (forall m :: m in c.toClient ==> ToClientLegit(ca, c, m))
  }

  predicate Sound(ca: Authority, c: Conn) {
    QueuesLegit(ca, c) && ClientSound(ca, c) && ServerSound(ca, c) && LogsSound(ca, c)
  }

  /** Same connection later on: what was fixed stays fixed. */
  predicate Continues(c: Conn, d: Conn) {
    && d.pin == c.pin && d.name == c.name && d.keyPair == c.keyPair
    && d.clientExchange == c.clientExchange && d.serverExchange == c.serverExchange
    && (c.snapshot.Some? ==> d.snapshot == c.snapshot)
    && (c.signed.Some? ==> d.signed == c.signed)
  }

  lemma LegitStays(ca: Authority, c: Conn, d: Conn, m: Msg)
    requires Continues(c, d)
    ensures ToServerLegit(c, m) ==> ToServerLegit(d, m)
    ensures ToClientLegit(ca, c, m) ==> ToClientLegit(ca, d, m)
  {
  }

  /** Messages still queued were queued before, or are the legitimate one just written. */
  lemma QueuesStayLegit(ca: Authority, c: Conn, d: Conn, toServer: seq<Msg>, toClient: seq<Msg>)
    requires QueuesLegit(ca, c) && Continues(c, d)
    requires forall m :: m in d.toServer ==> m in c.toServer || m in toServer
    requires forall m :: m in d.toClient ==> m in c.toClient || m in toClient
    requires forall m :: m in toServer ==> ToServerLegit(d, m)
    requires forall m :: m in toClient ==> ToClientLegit(ca, d, m)
    ensures QueuesLegit(ca, d)
  {
    hide ToServerLegit, ToClientLegit, Continues;
    forall m | m in d.toServer ensures ToServerLegit(d, m) {
      LegitStays(ca, c, d, m);
    }
    forall m | m in d.toClient ensures ToClientLegit(ca, d, m) {
      LegitStays(ca, c, d, m);
    }
  }

  /** What the client may write in its present state. */
  function ClientOffers(c: Conn): seq<Msg> {
    match c.client
    case WillRequest => [PairRequest(PAIR_PROTOCOL_VERSION, c.name)]
    case WillSendSpake => [PairSpake(ClientSpake(c))]
    case WillConfirm(k) => [PairConfirm(Sealed(k, Request(c)))]
    case _ => []
  }

  lemma ClientStepQueues(c: Conn, io: Io)
    ensures var d := ClientStep(c, io);
            && Continues(c, d) && d.server == c.server && d.snapshot == c.snapshot && d.signed == c.signed
            && d.record == c.record && d.confirmsRead == c.confirmsRead && d.failures == c.failures
            && (forall m :: m in d.toServer ==> m in c.toServer || m in ClientOffers(c))
            && (forall m :: m in d.toClient ==> m in c.toClient)
  {
  }

  lemma ClientStepSound(ca: Authority, c: Conn, io: Io)
    requires ClientSound(ca, c) && LogsSound(ca, c)
    requires c.toClient != [] ==> ToClientLegit(ca, c, c.toClient[0])
    ensures ClientSound(ca, ClientStep(c, io))
  {
    if c.snapshot.Some? {
      KeysAgreeIff(ClientSpake(c), ServerSpake(c));
    }
  }

  lemma ClientStepKeeps(ca: Authority, c: Conn, io: Io)
    requires Sound(ca, c)
    ensures Sound(ca, ClientStep(c, io))
  {
    hide ClientStep, ToClientLegit;
    var d := ClientStep(c, io);
    ClientStepQueues(c, io);
    QueuesStayLegit(ca, c, d, ClientOffers(c), []);
    if c.toClient != [] {
      assert c.toClient[0] in c.toClient;
    }
    ClientStepSound(ca, c, io);
  }

  /** What the server has written, when it wrote at all, given its state after the step. */
  function ServerOffers(c: Conn, d: Conn, ca: Authority): seq<Msg> {
    match c.server
    case WillAnswerSpake(_, _) => if d.snapshot.Some? then [PairSpake(ServerSpake(d))] else []
    case WillSign(_, k, r) => [PairResult(Sealed(k, ProvisionResponse(Cert(ca, r.csr), ca)))]
    case WillReject(r) => [PairError(r)]
    case _ => []
  }

  lemma ServerStepQueues(p: Params, ca: Authority, c: Conn, pm: PinState, io: Io, at: nat, freshPin: Pin)
    requires ServerSound(ca, c)
    ensures var d := ServerStep(p, ca, c, pm, io, at, freshPin).conn;
            && Continues(c, d) && d.client == c.client
            && (forall m :: m in d.toServer ==> m in c.toServer)
            && (forall m :: m in d.toClient ==> m in c.toClient || m in ServerOffers(c, d, ca))
            && (c.server.WillSign? ==> d.signed == Some(Cert(ca, c.server.request.csr)))
  {
  }

  lemma ServerStepSound(p: Params, ca: Authority, c: Conn, pm: PinState, io: Io, at: nat, freshPin: Pin)
    requires ServerSound(ca, c) && LogsSound(ca, c)
    requires c.toServer != [] ==> ToServerLegit(c, c.toServer[0])
    ensures var d := ServerStep(p, ca, c, pm, io, at, freshPin).conn;
            ServerSound(ca, d) && LogsSound(ca, d)
  {
    if c.snapshot.Some? {
      KeysAgreeIff(ClientSpake(c), ServerSpake(c));
    }
  }

  lemma ServerStepKeeps(p: Params, ca: Authority, c: Conn, pm: PinState, io: Io, at: nat, freshPin: Pin)
    requires Sound(ca, c)
    ensures Sound(ca, ServerStep(p, ca, c, pm, io, at, freshPin).conn)
  {
    hide ServerStep, ToServerLegit;
    var d := ServerStep(p, ca, c, pm, io, at, freshPin).conn;
    if c.toServer != [] {
      assert c.toServer[0] in c.toServer;
    }
    ServerStepQueues(p, ca, c, pm, io, at, freshPin);
    ServerStepSound(p, ca, c, pm, io, at, freshPin);
    assert forall m :: m in ServerOffers(c, d, ca) ==> ToClientLegit(ca, d, m);
    QueuesStayLegit(ca, c, d, [], ServerOffers(c, d, ca));
  }

  // ------------------------------------------------------------------
  // The whole system
  // ------------------------------------------------------------------

  /** The logs' notes play no part in soundness. */
  lemma StampKeepsSound(ca: Authority, before: Conn, c: Conn, g: Guard)
    requires Sound(ca, c)
    ensures Sound(ca, Stamped(before, c, g)) && Continues(c, Stamped(before, c, g))
  {
    var d := Stamped(before, c, g);
    QueuesStayLegit(ca, c, d, [], []);
  }

  predicate AllSound(ca: Authority, conns: seq<Conn>) {
    forall c :: c in conns ==> Sound(ca, c)
  }

  lemma UpdateKeepsSound(ca: Authority, conns: seq<Conn>, i: nat, d: Conn)
    requires i < |conns| && Sound(ca, d) && AllSound(ca, conns)
    ensures AllSound(ca, conns[i := d])
  {
    hide Sound;
    forall c | c in conns[i := d] ensures Sound(ca, c) {
      assert c == d || c in conns;
    }
  }

  /** The connections are the ones there were, further along. */
  predicate SameConns(a: seq<Conn>, b: seq<Conn>) {
    |a| == |b| && forall i :: 0 <= i < |a| ==> Continues(a[i], b[i])
  }

  lemma ContinuesTransitive(a: Conn, b: Conn, c: Conn)
    requires Continues(a, b) && Continues(b, c)
    ensures Continues(a, c)
  {
  }

  lemma SelfContinues(conns: seq<Conn>)
    ensures SameConns(conns, conns)
  {
  }

  lemma OneContinues(conns: seq<Conn>, i: nat, d: Conn)
    requires i < |conns| && Continues(conns[i], d)
    ensures SameConns(conns, conns[i := d])
  {
    SelfContinues(conns);
  }

  lemma SoundServer(ca: Authority, c: Conn)
    requires Sound(ca, c)
    ensures ServerSound(ca, c)
  {
  }

  lemma ServerMoveKeeps(p: Params, ca: Authority, c: Conn, g: Guard, io: Io, next: Pin, h: Guard)
    requires Sound(ca, c)
    ensures var d := Stamped(c, ServerStep(p, ca, c, g.state, io, g.now, next).conn, h);
            Sound(ca, d) && Continues(c, d)
  {
    hide Sound, ServerSound, ServerStep, Continues, Stamped;
    var d := ServerStep(p, ca, c, g.state, io, g.now, next).conn;
    SoundServer(ca, c);
    ServerStepKeeps(p, ca, c, g.state, io, g.now, next);
    ServerStepQueues(p, ca, c, g.state, io, g.now, next);
    StampKeepsSound(ca, c, d, h);
    ContinuesTransitive(c, d, Stamped(c, d, h));
  }

  lemma AdvanceKeeps(p: Params, ca: Authority, s: System, m: Move)
    requires AllSound(ca, s.conns) && !m.Arrive?
    ensures var t := Advance(p, ca, s, m); AllSound(ca, t.conns) && SameConns(s.conns, t.conns)
  {
    hide Sound, AllSound, ClientStep, ServerStep, TellAll, Stamped, Continues, SameConns;
    SelfContinues(s.conns);
    match m {
      case ClientMove(i, io) =>
        if i < |s.conns| {
          SoundAt(ca, s.conns, i);
          ClientStepKeeps(ca, s.conns[i], io);
          ClientStepQueues(s.conns[i], io);
          UpdateKeepsSound(ca, s.conns, i, ClientStep(s.conns[i], io));
          OneContinues(s.conns, i, ClientStep(s.conns[i], io));
        }
      case ServerMove(i, io, wait, next) =>
        if i < |s.conns| {
          var g := s.guard.(now := s.guard.now + wait);
          var r := ServerStep(p, ca, s.conns[i], g.state, io, g.now, next);
          var h := TellAll(p, g, r.effects);
          SoundAt(ca, s.conns, i);
          ServerMoveKeeps(p, ca, s.conns[i], g, io, next, h);
          UpdateKeepsSound(ca, s.conns, i, Stamped(s.conns[i], r.conn, h));
          OneContinues(s.conns, i, Stamped(s.conns[i], r.conn, h));
        }
      case ShowPin(wait, next) =>
    }
  }

  lemma SoundAt(ca: Authority, conns: seq<Conn>, i: nat)
    requires AllSound(ca, conns) && i < |conns|
    ensures Sound(ca, conns[i])
  {
    hide Sound;
  }

  lemma SameConnsTransitive(a: seq<Conn>, b: seq<Conn>, c: seq<Conn>)
    requires SameConns(a, b) && SameConns(b, c)
    ensures SameConns(a, c)
  {
    hide Continues;
    forall i | 0 <= i < |a| ensures Continues(a[i], c[i]) {
      ContinuesTransitive(a[i], b[i], c[i]);
    }
  }

  /** Only the two ends send on their connection. */
  predicate Unforged(moves: seq<Move>) {
    forall i :: 0 <= i < |moves| ==> !moves[i].Arrive?
  }

  lemma {:induction false} RunKeeps(p: Params, ca: Authority, s: System, moves: seq<Move>)
    requires AllSound(ca, s.conns) && Unforged(moves)
    ensures var t := RunMoves(p, ca, s, moves); AllSound(ca, t.conns) && SameConns(s.conns, t.conns)
  {
    hide AllSound, Advance, SameConns;
    if moves == [] {
      SelfContinues(s.conns);
    } else {
      var before := RunMoves(p, ca, s, moves[..|moves| - 1]);
      RunKeeps(p, ca, s, moves[..|moves| - 1]);
      AdvanceKeeps(p, ca, before, moves[|moves| - 1]);
      SameConnsTransitive(s.conns, before.conns, RunMoves(p, ca, s, moves).conns);
    }
  }

  lemma NewIsSound(ca: Authority, conns: seq<Conn>)
    requires forall c :: c in conns ==> IsNew(c)
    ensures AllSound(ca, conns)
  {
  }

  /** What may be concluded about one connection, whatever happened to it and to the others. */
  predicate Agreed(ca: Authority, c: Conn) {
    var cert := Cert(ca, Csr(c.name, c.keyPair));
    && (c.client.ClientDone? && c.client.result.Success? ==>
          && c.snapshot == Some(c.pin) && c.signed == Some(cert)
          && c.client.result.value == PairedMaterial(cert, c.keyPair, ca))
    && (c.record.Some? ==>
          && c.snapshot == Some(c.pin) && c.signed == Some(cert)
          && c.record.value == PairedClient(c.name, FingerprintOf(cert)))
    && (c.snapshot != Some(c.pin) ==> c.signed == None && c.record == None)
    && (c.snapshot.Some? && c.snapshot.value != c.pin ==> c.failures == c.confirmsRead)
    && (c.snapshot == Some(c.pin) ==> c.failures == 0)
    && c.confirmsRead <= 1
  }

  /**
   Pairing agreement.  In every run, a client that returns Ok holds the server's
   authority and a certificate signed for its own request under an equal PIN; a
   server record carries that certificate's fingerprint and the device's name; with
   unequal PINs nothing is signed, and each confirmation the server reads records
   exactly one failure.
   */
  lemma PairingAgreement(p: Params, ca: Authority, s: System, firstPin: Pin, moves: seq<Move>)
    requires FreshSystem(s, firstPin) && Unforged(moves)
    ensures var end := RunMoves(p, ca, s, moves).conns;
            && SameConns(s.conns, end)
            && forall c :: c in end ==> Agreed(ca, c)
  {
    hide RunMoves;
    NewIsSound(ca, s.conns);
    RunKeeps(p, ca, s, moves);
    forall c | c in RunMoves(p, ca, s, moves).conns ensures Agreed(ca, c) {
      assert Sound(ca, c);
    }
  }

  // ------------------------------------------------------------------
  // An undisturbed exchange
  // ------------------------------------------------------------------

  /** Requests, PAKE messages and confirmation, all delivered: the server holds the PairConfirm. */
  function UpToConfirm(p: Params, ca: Authority, c: Conn, pm: PinState, at: nat, freshPin: Pin): Conn {
    var c2 := ClientStep(ClientStep(c, Works), Works);
    var s1 := ServerStep(p, ca, c2, pm, Works, at, freshPin).conn;
    var s2 := ServerStep(p, ca, s1, pm, Works, at, freshPin).conn;
    var s3 := ServerStep(p, ca, s2, pm, Works, at, freshPin).conn;
    var s4 := ServerStep(p, ca, s3, pm, Works, at, freshPin).conn;
    ClientStep(ClientStep(s4, Works), Works)
  }

  function Finished(p: Params, ca: Authority, c: Conn, pm: PinState, at: nat, freshPin: Pin): Conn {
    var s5 := ServerStep(p, ca, c, pm, Works, at, freshPin).conn;
    var s6 := ServerStep(p, ca, s5, pm, Works, at, freshPin).conn;
    var s7 := ServerStep(p, ca, s6, pm, Works, at, freshPin).conn;
    ClientStep(s7, Works)
  }

  lemma UndisturbedConfirm(p: Params, ca: Authority, c: Conn, pm: PinState, at: nat, freshPin: Pin)
    requires IsNew(c) && !Locked(pm, at)
    ensures var d := UpToConfirm(p, ca, c, pm, at, freshPin);
            var shown := Rotated(p, pm, freshPin, at).pin;
            && Continues(c, d) && d.snapshot == Some(shown) && d.toClient == [] && d.signed == None
            && d.toServer == [PairConfirm(Sealed(KeyOf(ClientSpake(d), ServerSpake(d)), Request(d)))]
            && d.client == AwaitResult(KeyOf(ClientSpake(d), ServerSpake(d)))
            && d.server == AwaitConfirm(d.name, KeyOf(ServerSpake(d), ClientSpake(d)))
            && d.record == None && d.failures == 0
  {
    var c2 := ClientStep(ClientStep(c, Works), Works);
    assert c2.toServer == [PairRequest(PAIR_PROTOCOL_VERSION, c.name), PairSpake(ClientSpake(c))];
    var s1 := ServerStep(p, ca, c2, pm, Works, at, freshPin).conn;
    assert s1.server == AwaitRequest;
    var s2 := ServerStep(p, ca, s1, pm, Works, at, freshPin).conn;
    assert s2.server == AwaitClientSpake(c.name) && s2.toServer == [PairSpake(ClientSpake(c))];
    var s3 := ServerStep(p, ca, s2, pm, Works, at, freshPin).conn;
    assert s3.server == WillAnswerSpake(c.name, ClientSpake(c)) && s3.toServer == [];
    var s4 := ServerStep(p, ca, s3, pm, Works, at, freshPin).conn;
    assert s4.toClient == [PairSpake(ServerSpake(s4))];
  }

  /**
   Undisturbed and not locked out when it connects, a client is paired exactly when it
   typed the PIN shown when its attempt began, however late its confirmation is read
   and whatever became of the manager; otherwise it learns that the PIN was wrong.
   */
  lemma UndisturbedPairing(
    p: Params, ca: Authority, c: Conn, pm: PinState, at: nat, freshPin: Pin, later: PinState, confirmed: nat, next: Pin)
    requires IsNew(c) && !Locked(pm, at)
    ensures var d := Finished(p, ca, UpToConfirm(p, ca, c, pm, at, freshPin), later, confirmed, next);
            var cert := Cert(ca, Csr(c.name, c.keyPair));
            && d.server == ServerDone
            && if c.pin == Rotated(p, pm, freshPin, at).pin then
                 && d.client == ClientDone(Success(PairedMaterial(cert, c.keyPair, ca))) && d.signed == Some(cert)
                 && d.record == Some(PairedClient(c.name, FingerprintOf(cert))) && d.failures == 0
               else
                 && d.client == ClientDone(Failure(BadPin)) && d.signed == None && d.record == None && d.failures == 1
  {
    hide UpToConfirm, Rotated;
    var d := UpToConfirm(p, ca, c, pm, at, freshPin);
    UndisturbedConfirm(p, ca, c, pm, at, freshPin);
    KeysAgreeIff(ClientSpake(d), ServerSpake(d));
    var s5 := ServerStep(p, ca, d, later, Works, confirmed, next).conn;
    var s6 := ServerStep(p, ca, s5, later, Works, confirmed, next).conn;
    assert |s6.toClient| == 1;
  }

  /**
   The PIN's age is looked at when the attempt takes it and not again: it is never past
   its time to live at that moment, but the attempt ends with a certificate signed under
   a PIN past its time to live if and only if the PIN was right and the confirmation
   was read a full time to live after the PIN was generated.
   */
  lemma LateSigningIff(
    p: Params, ca: Authority, c: Conn, pm: PinState, at: nat, freshPin: Pin, later: PinState, confirmed: nat, next: Pin)
    requires IsNew(c) && !Locked(pm, at)
    ensures var taken := Rotated(p, pm, freshPin, at);
            var d := Finished(p, ca, UpToConfirm(p, ca, c, pm, at, freshPin), later, confirmed, next);
            && (p.ttl > 0 ==> !Expired(p, taken, at))
            && (d.signed.Some? && Expired(p, taken, confirmed)
                <==> c.pin == taken.pin && confirmed >= taken.generatedAt + p.ttl)
  {
    hide UpToConfirm, Finished;
    UndisturbedPairing(p, ca, c, pm, at, freshPin, later, confirmed, next);
  }

  /** A PIN shown at 0, taken at 179 and confirmed at 200 is signed under, twenty seconds after its time. */
  lemma LateSigning(ca: Authority, c: Conn, next: Pin)
    requires IsNew(c)
    ensures var pm := Fresh(c.pin, 0);
            var d := Finished(DEFAULTS, ca, UpToConfirm(DEFAULTS, ca, c, pm, 179, next), pm, 200, next);
            Rotated(DEFAULTS, pm, next, 179) == pm && Expired(DEFAULTS, pm, 200) && d.signed.Some?
  {
    hide UpToConfirm, Finished;
    LateSigningIff(DEFAULTS, ca, c, Fresh(c.pin, 0), 179, next, Fresh(c.pin, 0), 200, next);
  }

  // ------------------------------------------------------------------
  // Refusals
  // ------------------------------------------------------------------

  /** Why the server refuses a message, if it does: it asks for version 1 and for the next kind of message. */
  function Refusal(c: Conn, m: Msg): Option<Reason> {
    match c.server
    case AwaitRequest =>
      (match m
       case PairRequest(v, _) => if v != 1 then Some(UnsupportedVersion) else None
       case _ => Some(UnexpectedMessage))
    case AwaitClientSpake(_) => if m.PairSpake? then None else Some(UnexpectedMessage)
    case AwaitConfirm(_, k) =>
      (match m
       case PairConfirm(s) => if s.key != k then Some(PinVerificationFailed) else None
       case _ => Some(UnexpectedMessage))
    case _ => None
  }

  /**
   Whatever message a waiting server finds: if there is a reason to refuse it, that
   reason is all that is sent back, nothing is signed or recorded, and the handler is
   done; otherwise the server goes on and sends nothing yet.
   */
  lemma RefusedIff(
    p: Params, ca: Authority, c: Conn, pm: PinState, at: nat, freshPin: Pin, later: PinState, thereafter: nat)
    requires c.server.AwaitRequest? || c.server.AwaitClientSpake? || c.server.AwaitConfirm?
    requires c.toServer != []
    ensures var first := ServerStep(p, ca, c, pm, Works, at, freshPin).conn;
            var second := ServerStep(p, ca, first, later, Works, thereafter, freshPin).conn;
            match Refusal(c, c.toServer[0])
            case Some(why) =>
              && second.server == ServerDone && second.toClient == c.toClient + [PairError(why)]
              && second.snapshot == c.snapshot && second.signed == c.signed && second.record == c.record
              && second.failures == c.failures + if why == PinVerificationFailed then 1 else 0
            case None => InFlight(first.server) && first.toClient == c.toClient
  {
  }

  /** The client tells its user that the PIN was wrong only if it was; any other reason it passes on. */
  lemma ReasonLearnt(c: Conn, why: Reason)
    requires c.toClient == [PairError(why)] && (c.client.AwaitServerSpake? || c.client.AwaitResult?)
    ensures ClientStep(c, Works).client ==
            ClientDone(Failure(if c.client.AwaitResult? && why == PinVerificationFailed then BadPin else Rejected(why)))
    ensures ClientStep(c, Works).toClient == []
  {
  }

  /** While the server is locked, a client learns just that, and the PIN is not touched. */
  lemma LockedOut(p: Params, ca: Authority, c: Conn, pm: PinState, at: nat, freshPin: Pin)
    requires IsNew(c) && Locked(pm, at)
    ensures var asked := ClientStep(ClientStep(c, Works), Works);
            var told := ServerStep(p, ca, asked, pm, Works, at, freshPin);
            var done := ServerStep(p, ca, told.conn, pm, Works, at, freshPin);
            && told.effects == [CheckLock(at)] && done.effects == []
            && ClientStep(done.conn, Works).client == ClientDone(Failure(Rejected(TemporarilyLocked)))
            && done.conn.server == ServerDone && done.conn.snapshot == None && done.conn.signed == None
  {
    var asked := ClientStep(ClientStep(c, Works), Works);
    assert asked.client == AwaitServerSpake && asked.toClient == [];
    var told := ServerStep(p, ca, asked, pm, Works, at, freshPin).conn;
    assert told.server == WillReject(TemporarilyLocked);
    var done := ServerStep(p, ca, told, pm, Works, at, freshPin).conn;
    assert done.toClient == [PairError(TemporarilyLocked)];
  }

  /** Whoever asked: the record is under the name in the sealed request, or else the one announced. */
  lemma RecordNames(p: Params, ca: Authority, c: Conn, pm: PinState, at: nat, freshPin: Pin)
    requires c.server.WillSign?
    ensures var signed := ServerStep(p, ca, c, pm, Works, at, freshPin).conn;
            var recorded := ServerStep(p, ca, signed, pm, Works, at, freshPin).conn;
            var request := c.server.request;
            && recorded.signed == Some(Cert(ca, request.csr))
            && recorded.record == Some(PairedClient(
                 match request.name case Some(n) => n case None => c.server.requested,
                 FingerprintOf(Cert(ca, request.csr))))
  {
  }

  // ------------------------------------------------------------------
  // Faults
  // ------------------------------------------------------------------

  /**
   A broken read or write ends the client with a protocol error, whatever it was doing;
   of a broken write the other end may still have got the message.
   */
  lemma ClientFault(c: Conn, delivered: bool)
    requires !c.client.ClientDone?
    ensures var d := ClientStep(c, Breaks(delivered));
            && d.client == ClientDone(Failure(Protocol)) && d.toClient == c.toClient
            && d.toServer == if delivered then c.toServer + ClientOffers(c) else c.toServer
  {
  }

  /**
   A broken read or write makes the server give up: it tries to say so once, and its
   handler is done whether or not that works.
   */
  lemma ServerFault(
    p: Params, ca: Authority, c: Conn, pm: PinState, at: nat, freshPin: Pin, delivered: bool, io: Io)
    requires InFlight(c.server) && !c.server.WillRecord?
    ensures var first := ServerStep(p, ca, c, pm, Breaks(delivered), at, freshPin).conn;
            var second := ServerStep(p, ca, first, pm, io, at, freshPin).conn;
            && first.server == WillReject(ChannelError)
            && first.toClient == (if delivered then c.toClient + ServerOffers(c, first, ca) else c.toClient)
            && second.server == ServerDone
            && second.toClient == (if io == Breaks(false) then first.toClient
                                   else first.toClient + [PairError(ChannelError)])
            && second.record == c.record
  {
  }

  // ------------------------------------------------------------------
  // Moves of the system
  // ------------------------------------------------------------------

  /** A move is a step of one end of one connection; the others do not notice. */
  lemma MovesAreSteps(p: Params, ca: Authority, s: System, i: nat, io: Io, m: Msg, wait: nat, next: Pin)
    requires i < |s.conns|
    ensures Advance(p, ca, s, ClientMove(i, io)) == s.(conns := s.conns[i := ClientStep(s.conns[i], io)])
    ensures var t := Advance(p, ca, s, Arrive(i, m));
            && t.guard == s.guard && t.conns == s.conns[i := t.conns[i]]
            && t.conns[i].toServer == s.conns[i].toServer + [m]
    ensures var t := Advance(p, ca, s, ServerMove(i, io, wait, next));
            var d := ServerStep(p, ca, s.conns[i], s.guard.state, io, s.guard.now + wait, next).conn;
            t.conns == s.conns[i := t.conns[i]] && t.conns[i].(stamps := d.stamps) == d
  {
    hide ClientStep, ServerStep, TellAll;
  }
}
