/**
 What the PIN manager guarantees against clients of any behaviour: how often a PIN
 can be guessed, how old a PIN may be when it is taken, and how many pairings one
 PIN can yield.  Any message may arrive at the server at any time; only the ideal
 keys are relied on, and only to say what a wrong PIN is.
 */
module PairingLimits {
  import opened Wrappers
  import opened PM = PinManager
  import opened Pairing

  /** How far the server's logs are at each point of handle_pairing, whoever talks to it. */
  predicate ServerOrder(c: Conn) {
    && (c.signed.Some? ==> c.snapshot.Some?)
    && (c.record.Some? ==> c.signed.Some? && c.server.ServerDone?)
    && match c.server
       case AwaitConfirm(_, _) => c.snapshot.Some? && c.signed == None
       case WillSign(_, _, _) => c.snapshot.Some? && c.signed == None
       case WillRecord(_, _, _) => c.signed.Some?
       case WillReject(_) => true
       case ServerDone => true
       case _ => c.snapshot == None
  }

  lemma ServerStepOrder(p: Params, ca: Authority, c: Conn, pm: PinState, io: Io, at: nat, freshPin: Pin)
    requires ServerOrder(c)
    ensures ServerOrder(ServerStep(p, ca, c, pm, io, at, freshPin).conn)
  {
  }

  // ------------------------------------------------------------------
  // Tallies over all connections
  // ------------------------------------------------------------------

  function Total(weight: Conn -> nat, conns: seq<Conn>): nat {
    if conns == [] then 0 else weight(conns[0]) + Total(weight, conns[1..])
  }

  function Flying(c: Conn): nat {
    if InFlight(c.server) then 1 else 0
  }

  /** Wrong-PIN confirmations the server answered on this connection. */
  function Guesses(c: Conn): nat {
    c.failures
  }

  function Recorded(c: Conn): nat {
    if c.record.Some? then 1 else 0
  }

  lemma {:induction false} TotalAfterUpdate(weight: Conn -> nat, conns: seq<Conn>, i: nat, d: Conn)
    requires i < |conns|
    ensures Total(weight, conns[i := d]) == Total(weight, conns) - weight(conns[i]) + weight(d)
  {
    if i == 0 {
      assert conns[0 := d][1..] == conns[1..];
    } else {
      TotalAfterUpdate(weight, conns[1..], i - 1, d);
      assert conns[i := d][1..] == conns[1..][i - 1 := d];
    }
  }

  lemma {:induction false} WeightWithinTotal(weight: Conn -> nat, conns: seq<Conn>, i: nat)
    requires i < |conns|
    ensures weight(conns[i]) <= Total(weight, conns)
  {
    if i > 0 {
      WeightWithinTotal(weight, conns[1..], i - 1);
    }
  }

  lemma TellNone(p: Params, g: Guard)
    ensures TellAll(p, g, []) == g
  {
  }

  lemma TellOne(p: Params, g: Guard, a: PinAction)
    ensures TellAll(p, g, [a]) == Tell(p, g, a)
  {
    assert [a][1..] == [];
  }

  lemma TellTwo(p: Params, g: Guard, a: PinAction, b: PinAction)
    ensures TellAll(p, g, [a, b]) == Tell(p, Tell(p, g, a), b)
  {
    assert [a, b][1..] == [b];
    TellOne(p, Tell(p, g, a), b);
  }

  /** The effects of a server step: nothing, one action, or reading the PIN and giving up. */
  lemma EffectsShape(p: Params, ca: Authority, c: Conn, pm: PinState, io: Io, at: nat, freshPin: Pin)
    ensures var es := ServerStep(p, ca, c, pm, io, at, freshPin).effects;
            es == [] || |es| == 1 || es == [TakePin(freshPin, at), Abandon(at)]
    ensures forall a :: a in ServerStep(p, ca, c, pm, io, at, freshPin).effects ==> a.at == at
  {
  }

  lemma TellTallies(p: Params, g: Guard, a: PinAction)
    requires g.now <= a.at && (a.Fail? || a.Succeed? || a.Abandon? ==> g.inFlight > 0)
    ensures var h := Tell(p, g, a);
            && h.now == a.at
            && h.inFlight == (match a
                              case CheckLock(t) => if Locked(g.state, t) then g.inFlight else g.inFlight + 1
                              case TakePin(_, _) => g.inFlight
                              case _ => g.inFlight - 1)
            && h.recorded == (if a.Fail? then g.recorded + 1 else g.recorded)
            && h.successes == (if a.Succeed? then g.successes + 1 else g.successes)
  {
  }

  /** The manager's tallies move exactly with the connection's. */
  lemma ServerStepTallies(p: Params, ca: Authority, c: Conn, g: Guard, io: Io, at: nat, freshPin: Pin)
    requires ServerOrder(c) && at >= g.now && (InFlight(c.server) ==> g.inFlight > 0)
    ensures var r := ServerStep(p, ca, c, g.state, io, at, freshPin);
            var h := TellAll(p, g, r.effects);
            && h.inFlight + Flying(c) == g.inFlight + Flying(r.conn)
            && h.recorded + Guesses(c) == g.recorded + Guesses(r.conn)
            && h.successes + Recorded(c) == g.successes + Recorded(r.conn)
            && h.now >= g.now
  {
    hide Tell;
    var r := ServerStep(p, ca, c, g.state, io, at, freshPin);
    EffectsShape(p, ca, c, g.state, io, at, freshPin);
    if r.effects == [] {
      TellNone(p, g);
    } else if |r.effects| == 1 {
      assert r.effects == [r.effects[0]];
      TellOne(p, g, r.effects[0]);
      TellTallies(p, g, r.effects[0]);
    } else {
      TellTwo(p, g, TakePin(freshPin, at), Abandon(at));
      TellTallies(p, g, TakePin(freshPin, at));
      TellTallies(p, Tell(p, g, TakePin(freshPin, at)), Abandon(at));
    }
  }

  lemma TellKeepsBound(p: Params, c: nat, g: Guard, a: PinAction)
    requires Bounded(p, c, g) && Tell(p, g, a).inFlight <= c + 1
    ensures Bounded(p, c, Tell(p, g, a))
  {
    if Enabled(g, a) {
      StepKeepsBound(p, c, g, a);
    }
  }

  lemma EffectsKeepBound(p: Params, ca: Authority, limit: nat, c: Conn, g: Guard, io: Io, at: nat, freshPin: Pin)
    requires Bounded(p, limit, g)
    requires TellAll(p, g, ServerStep(p, ca, c, g.state, io, at, freshPin).effects).inFlight <= limit + 1
    ensures Bounded(p, limit, TellAll(p, g, ServerStep(p, ca, c, g.state, io, at, freshPin).effects))
  {
    hide ServerStep, Bounded;
    var es := ServerStep(p, ca, c, g.state, io, at, freshPin).effects;
    EffectsShape(p, ca, c, g.state, io, at, freshPin);
    if es == [] {
      TellNone(p, g);
    } else if |es| == 1 {
      assert es == [es[0]];
      TellOne(p, g, es[0]);
      TellKeepsBound(p, limit, g, es[0]);
    } else {
      TellTwo(p, g, es[0], es[1]);
      BoundedInFlight(p, limit, g);
      TellKeepsBound(p, limit, g, es[0]);
      TellKeepsBound(p, limit, Tell(p, g, es[0]), es[1]);
    }
  }

  lemma BoundedInFlight(p: Params, c: nat, g: Guard)
    requires Bounded(p, c, g)
    ensures g.inFlight <= c + 1
  {
  }

  // ------------------------------------------------------------------
  // PINs and their age
  // ------------------------------------------------------------------

  /** The notes about a connection are in order, and its PIN was not yet past its time when it was taken. */
  predicate Timely(p: Params, now: nat, issue: nat, c: Conn) {
    var t := c.stamps;
    && (c.snapshot.Some? ==>
          && t.bornAt <= t.takenAt <= now && t.issue <= issue
          && (p.ttl > 0 ==> t.takenAt < t.bornAt + p.ttl))
    && (c.signed.Some? ==> t.takenAt <= t.signedAt <= now)
    && (c.record.Some? ==> t.issue < issue)
  }

  /** The connection took the n-th PIN, and may still be paired under it or has been. */
  function Under(n: nat): Conn -> nat {
    (c: Conn) => if c.snapshot.Some? && c.stamps.issue == n && (InFlight(c.server) || c.record.Some?) then 1 else 0
  }

  /** The connection was paired under the n-th PIN. */
  function PairedUnder(n: nat): Conn -> nat {
    (c: Conn) => if c.record.Some? && c.stamps.issue == n then 1 else 0
  }

  /** The connection took the n-th PIN, whatever became of it. */
  function TookPin(n: nat): Conn -> nat {
    (c: Conn) => if c.snapshot.Some? && c.stamps.issue == n then 1 else 0
  }

  /** A certificate was signed on the connection under the n-th PIN. */
  function SignedUnder(n: nat): Conn -> nat {
    (c: Conn) => if c.signed.Some? && c.stamps.issue == n then 1 else 0
  }

  /** What one effect does to the PIN and its number. */
  lemma TellPin(p: Params, g: Guard, a: PinAction)
    requires g.now <= a.at && (a.Fail? || a.Succeed? || a.Abandon? ==> g.inFlight > 0)
    requires g.state.generatedAt <= g.now
    ensures var h := Tell(p, g, a);
            && h.state.generatedAt <= h.now
            && h.issue == g.issue + (if a.Succeed? || (a.TakePin? && Expired(p, g.state, a.at)) then 1 else 0)
            && (a.TakePin? && p.ttl > 0 ==> a.at < h.state.generatedAt + p.ttl)
            && (!a.TakePin? && !a.Succeed? ==> h.state.generatedAt == g.state.generatedAt)
  {
  }

  /** Which effects a step of the server has. */
  lemma EffectsOf(p: Params, ca: Authority, c: Conn, pm: PinState, io: Io, at: nat, freshPin: Pin)
    ensures var r := ServerStep(p, ca, c, pm, io, at, freshPin);
            && (c.server.WillAnswerSpake? ==>
                  r.effects == if io.Works? then [TakePin(freshPin, at)] else [TakePin(freshPin, at), Abandon(at)])
            && (c.server.WillRecord? ==> r.effects == [Succeed(freshPin, at)])
            && (!c.server.WillAnswerSpake? && !c.server.WillRecord? ==>
                  r.effects == [] || (|r.effects| == 1 && !r.effects[0].TakePin? && !r.effects[0].Succeed?
                                      && r.effects[0].at == at))
            && (!InFlight(c.server) ==> forall a :: a in r.effects ==> a.CheckLock?)
  {
  }

  /** What a step of the server does to the PIN and its number. */
  lemma ServerStepPin(p: Params, ca: Authority, c: Conn, g: Guard, io: Io, freshPin: Pin)
    requires g.state.generatedAt <= g.now && (InFlight(c.server) ==> g.inFlight > 0)
    ensures var h := TellAll(p, g, ServerStep(p, ca, c, g.state, io, g.now, freshPin).effects);
            && h.state.generatedAt <= h.now == g.now
            && g.issue <= h.issue <= g.issue + 1
            && (c.server.WillAnswerSpake? && p.ttl > 0 ==> h.now < h.state.generatedAt + p.ttl)
            && (c.server.WillRecord? ==> h.issue == g.issue + 1)
  {
    hide Tell, ServerStep;
    var es := ServerStep(p, ca, c, g.state, io, g.now, freshPin).effects;
    EffectsOf(p, ca, c, g.state, io, g.now, freshPin);
    if es == [] {
      TellNone(p, g);
    } else {
      assert es[0] in es;
      TellTallies(p, g, es[0]);
      TellPin(p, g, es[0]);
      if |es| == 1 {
        assert es == [es[0]];
        TellOne(p, g, es[0]);
      } else {
        TellTwo(p, g, es[0], es[1]);
        TellPin(p, Tell(p, g, es[0]), es[1]);
        TellTallies(p, Tell(p, g, es[0]), es[1]);
      }
    }
  }

  /** How a step of the server moves the logs that the notes are about. */
  lemma ServerStepLogs(p: Params, ca: Authority, c: Conn, pm: PinState, io: Io, at: nat, freshPin: Pin)
    requires ServerOrder(c)
    ensures var d := ServerStep(p, ca, c, pm, io, at, freshPin).conn;
            && d.stamps == c.stamps
            && (c.snapshot.Some? ==> d.snapshot.Some?) && (c.signed.Some? ==> d.signed.Some?)
            && (c.snapshot == None && d.snapshot.Some? ==>
                  c.server.WillAnswerSpake? && d.record == None && d.signed == None)
            && (c.record == None && d.record.Some? ==> c.server.WillRecord?)
            && (c.record.Some? ==> d == c)
            && (InFlight(d.server) || d.record.Some? ==> InFlight(c.server) || c.record.Some? || c.snapshot == None)
  {
  }

  lemma ServerMoveTimely(p: Params, ca: Authority, c: Conn, g: Guard, io: Io, freshPin: Pin)
    requires ServerOrder(c) && Timely(p, g.now, g.issue, c)
    requires g.state.generatedAt <= g.now && (InFlight(c.server) ==> g.inFlight > 0)
    ensures var r := ServerStep(p, ca, c, g.state, io, g.now, freshPin);
            var h := TellAll(p, g, r.effects);
            var d := Stamped(c, r.conn, h);
            && ServerOrder(d) && Timely(p, h.now, h.issue, d)
            && forall n: nat :: n < h.issue ==> Under(n)(d) <= Under(n)(c)
  {
    hide ServerStep, TellAll;
    ServerStepOrder(p, ca, c, g.state, io, g.now, freshPin);
    ServerStepLogs(p, ca, c, g.state, io, g.now, freshPin);
    ServerStepPin(p, ca, c, g, io, freshPin);
  }

  // ------------------------------------------------------------------
  // The whole system, whoever sends
  // ------------------------------------------------------------------

  predicate AllTimely(p: Params, now: nat, issue: nat, conns: seq<Conn>) {
    forall c :: c in conns ==> ServerOrder(c) && Timely(p, now, issue, c)
  }

  predicate Accounted(p: Params, s: System) {
    && s.guard.state.generatedAt <= s.guard.now
    && AllTimely(p, s.guard.now, s.guard.issue, s.conns)
    && s.guard.inFlight == Total(Flying, s.conns)
    && s.guard.recorded == Total(Guesses, s.conns)
    && s.guard.successes == Total(Recorded, s.conns)
  }

  lemma {:induction false} NewTotals(conns: seq<Conn>)
    requires forall c :: c in conns ==> IsNew(c)
    ensures Total(Flying, conns) == Total(Guesses, conns) == Total(Recorded, conns) == 0
  {
    if conns != [] {
      assert IsNew(conns[0]);
      NewTotals(conns[1..]);
    }
  }

  lemma FreshAccounted(p: Params, s: System, firstPin: Pin)
    requires FreshSystem(s, firstPin)
    ensures Accounted(p, s)
  {
    NewTotals(s.conns);
    forall c | c in s.conns ensures ServerOrder(c) && Timely(p, 0, 0, c) {
      assert IsNew(c);
    }
  }

  lemma TimelyAfterUpdate(p: Params, now: nat, issue: nat, later: nat, next: nat, conns: seq<Conn>, i: nat, d: Conn)
    requires AllTimely(p, now, issue, conns) && now <= later && issue <= next
    requires i < |conns| && ServerOrder(d) && Timely(p, later, next, d)
    ensures AllTimely(p, later, next, conns[i := d])
  {
    hide ServerOrder;
    forall c | c in conns[i := d] ensures ServerOrder(c) && Timely(p, later, next, c) {
      assert c == d || c in conns;
    }
  }

  lemma TimelyLater(p: Params, now: nat, issue: nat, later: nat, next: nat, conns: seq<Conn>)
    requires AllTimely(p, now, issue, conns) && now <= later && issue <= next
    ensures AllTimely(p, later, next, conns)
  {
    hide ServerOrder;
  }

  lemma TotalsAfterUpdate(conns: seq<Conn>, i: nat, d: Conn)
    requires i < |conns|
    ensures Total(Flying, conns[i := d]) == Total(Flying, conns) - Flying(conns[i]) + Flying(d)
    ensures Total(Guesses, conns[i := d]) == Total(Guesses, conns) - Guesses(conns[i]) + Guesses(d)
    ensures Total(Recorded, conns[i := d]) == Total(Recorded, conns) - Recorded(conns[i]) + Recorded(d)
  {
    TotalAfterUpdate(Flying, conns, i, d);
    TotalAfterUpdate(Guesses, conns, i, d);
    TotalAfterUpdate(Recorded, conns, i, d);
  }

  /** Everything a client does, or anyone else sends, leaves the server's side alone. */
  lemma OutsideKeeps(p: Params, ca: Authority, s: System, m: Move)
    requires Accounted(p, s) && (m.ClientMove? || m.Arrive?)
    ensures var t := Advance(p, ca, s, m);
            && Accounted(p, t) && t.guard == s.guard
            && forall n: nat :: Total(Under(n), t.conns) == Total(Under(n), s.conns)
  {
    hide Total, ServerOrder, Timely;
    var i := if m.ClientMove? then m.conn else m.target;
    if i < |s.conns| {
      var c, d := s.conns[i], Advance(p, ca, s, m).conns[i];
      OutsideLeavesServer(p, ca, s, m, i);
      SameServerSide(p, s.guard.now, s.guard.issue, c, d);
      TimelyAfterUpdate(p, s.guard.now, s.guard.issue, s.guard.now, s.guard.issue, s.conns, i, d);
      TotalsAfterUpdate(s.conns, i, d);
      forall n: nat ensures Total(Under(n), s.conns[i := d]) == Total(Under(n), s.conns) {
        TotalAfterUpdate(Under(n), s.conns, i, d);
      }
    }
  }

  predicate ServerSideEqual(c: Conn, d: Conn) {
    && d.server == c.server && d.snapshot == c.snapshot && d.signed == c.signed && d.record == c.record
    && d.failures == c.failures && d.stamps == c.stamps
  }

  lemma OutsideLeavesServer(p: Params, ca: Authority, s: System, m: Move, i: nat)
    requires (m.ClientMove? && i == m.conn) || (m.Arrive? && i == m.target)
    requires i < |s.conns|
    ensures var t := Advance(p, ca, s, m);
            && t.conns == s.conns[i := t.conns[i]] && t.guard == s.guard && ServerSideEqual(s.conns[i], t.conns[i])
  {
  }

  lemma SameServerSide(p: Params, now: nat, issue: nat, c: Conn, d: Conn)
    requires ServerSideEqual(c, d)
    ensures ServerOrder(d) == ServerOrder(c) && Timely(p, now, issue, d) == Timely(p, now, issue, c)
    ensures Flying(d) == Flying(c) && Guesses(d) == Guesses(c) && Recorded(d) == Recorded(c)
    ensures forall n: nat :: Under(n)(d) == Under(n)(c)
  {
  }

  lemma StampedTallies(before: Conn, c: Conn, g: Guard)
    ensures var d := Stamped(before, c, g);
            Flying(d) == Flying(c) && Guesses(d) == Guesses(c) && Recorded(d) == Recorded(c)
  {
  }

  lemma ServerMoveKeeps(p: Params, ca: Authority, s: System, i: nat, io: Io, wait: nat, next: Pin)
    requires Accounted(p, s) && i < |s.conns|
    ensures var t := Advance(p, ca, s, ServerMove(i, io, wait, next));
            && Accounted(p, t)
            && s.guard.issue <= t.guard.issue <= s.guard.issue + 1
            && forall n: nat :: n < t.guard.issue ==> Total(Under(n), t.conns) <= Total(Under(n), s.conns)
  {
    hide ServerOrder, Timely, ServerStep, Total, TellAll, Stamped, AllTimely;
    var c := s.conns[i];
    var g := s.guard.(now := s.guard.now + wait);
    var r := ServerStep(p, ca, c, g.state, io, g.now, next);
    var h := TellAll(p, g, r.effects);
    var d := Stamped(c, r.conn, h);
    TimelyLater(p, s.guard.now, s.guard.issue, g.now, g.issue, s.conns);
    TimelyAt(p, g.now, g.issue, s.conns, i);
    WeightWithinTotal(Flying, s.conns, i);
    ServerStepTallies(p, ca, c, g, io, g.now, next);
    ServerStepPin(p, ca, c, g, io, next);
    ServerMoveTimely(p, ca, c, g, io, next);
    StampedTallies(c, r.conn, h);
    TimelyAfterUpdate(p, g.now, g.issue, h.now, h.issue, s.conns, i, d);
    TotalsAfterUpdate(s.conns, i, d);
    forall n: nat | n < h.issue ensures Total(Under(n), s.conns[i := d]) <= Total(Under(n), s.conns) {
      TotalAfterUpdate(Under(n), s.conns, i, d);
    }
  }

  lemma TimelyAt(p: Params, now: nat, issue: nat, conns: seq<Conn>, i: nat)
    requires AllTimely(p, now, issue, conns) && i < |conns|
    ensures ServerOrder(conns[i]) && Timely(p, now, issue, conns[i])
  {
    hide ServerOrder, Timely;
  }

  lemma ShowKeeps(p: Params, ca: Authority, s: System, wait: nat, next: Pin)
    requires Accounted(p, s)
    ensures var t := Advance(p, ca, s, ShowPin(wait, next));
            && Accounted(p, t) && t.conns == s.conns
            && s.guard.issue <= t.guard.issue <= s.guard.issue + 1
  {
    hide Total, AllTimely, Tell;
    var a := TakePin(next, s.guard.now + wait);
    TellTallies(p, s.guard, a);
    TellPin(p, s.guard, a);
    TimelyLater(p, s.guard.now, s.guard.issue, a.at, Tell(p, s.guard, a).issue, s.conns);
  }

  /** Every move of the system, and what it does to the attempts under PINs already replaced. */
  lemma AdvanceKeeps(p: Params, ca: Authority, s: System, m: Move)
    requires Accounted(p, s)
    ensures var t := Advance(p, ca, s, m);
            && Accounted(p, t)
            && s.guard.issue <= t.guard.issue <= s.guard.issue + 1
            && forall n: nat :: n < t.guard.issue ==> Total(Under(n), t.conns) <= Total(Under(n), s.conns)
  {
    hide Accounted, Total, Under, ServerStep, ClientStep, TellAll, Tell;
    match m {
      case ClientMove(_, _) => OutsideKeeps(p, ca, s, m);
      case Arrive(_, _) => OutsideKeeps(p, ca, s, m);
      case ServerMove(i, io, wait, next) =>
        if i < |s.conns| {
          ServerMoveKeeps(p, ca, s, i, io, wait, next);
        }
      case ShowPin(wait, next) => ShowKeeps(p, ca, s, wait, next);
    }
  }

  lemma {:induction false} RunKeeps(p: Params, ca: Authority, s: System, moves: seq<Move>)
    requires Accounted(p, s)
    ensures Accounted(p, RunMoves(p, ca, s, moves))
  {
    hide Accounted, Advance;
    if moves != [] {
      RunKeeps(p, ca, s, moves[..|moves| - 1]);
      AdvanceKeeps(p, ca, RunMoves(p, ca, s, moves[..|moves| - 1]), moves[|moves| - 1]);
    }
  }

  /**
   Age of PINs: in every run, whoever sends what, a certificate is only ever signed
   under a PIN that was not past its time to live when the attempt took it.
   */
  lemma SnapshotsFresh(p: Params, ca: Authority, s: System, firstPin: Pin, moves: seq<Move>)
    requires FreshSystem(s, firstPin) && p.ttl > 0
    ensures forall c :: c in RunMoves(p, ca, s, moves).conns && c.signed.Some? ==>
      && c.snapshot.Some?
      && c.stamps.bornAt <= c.stamps.takenAt < c.stamps.bornAt + p.ttl
      && c.stamps.takenAt <= c.stamps.signedAt
  {
    hide RunMoves;
    FreshAccounted(p, s, firstPin);
    RunKeeps(p, ca, s, moves);
  }

  /** No step of handle_pairing on connection i is among the moves. */
  predicate ServerIdle(moves: seq<Move>, i: nat) {
    forall m :: m in moves && m.ServerMove? ==> m.served != i
  }

  lemma MoveLeavesServer(p: Params, ca: Authority, s: System, m: Move, i: nat)
    requires i < |s.conns| && (m.ServerMove? ==> m.served != i)
    ensures var t := Advance(p, ca, s, m); |t.conns| == |s.conns| && ServerSideEqual(s.conns[i], t.conns[i])
  {
    hide ServerStep, TellAll, Stamped;
  }

  lemma {:induction false} OthersLeaveServer(p: Params, ca: Authority, s: System, moves: seq<Move>, i: nat)
    requires i < |s.conns| && ServerIdle(moves, i)
    ensures var t := RunMoves(p, ca, s, moves); |t.conns| == |s.conns| && ServerSideEqual(s.conns[i], t.conns[i])
  {
    hide Advance;
    if moves != [] {
      assert moves[|moves| - 1] in moves;
      OthersLeaveServer(p, ca, s, moves[..|moves| - 1], i);
      MoveLeavesServer(p, ca, RunMoves(p, ca, s, moves[..|moves| - 1]), moves[|moves| - 1], i);
    }
  }

  lemma TellTime(p: Params, g: Guard, a: PinAction)
    requires a.at == g.now
    ensures Tell(p, g, a).now == g.now
  {
  }

  lemma SigningStep(p: Params, ca: Authority, c: Conn, g: Guard, io: Io, next: Pin)
    requires c.server.WillSign? && ServerOrder(c)
    ensures var r := ServerStep(p, ca, c, g.state, io, g.now, next);
            var d := Stamped(c, r.conn, TellAll(p, g, r.effects));
            d.signed.Some? && d.stamps == c.stamps.(signedAt := g.now)
  {
    hide Tell;
    var r := ServerStep(p, ca, c, g.state, io, g.now, next);
    if r.effects == [] {
      TellNone(p, g);
    } else {
      TellOne(p, g, Abandon(g.now));
      TellTime(p, g, Abandon(g.now));
    }
  }

  /** The PIN was past its time to live when the certificate was signed under it. */
  predicate SignedLate(p: Params, c: Conn) {
    c.signed.Some? && c.stamps.signedAt >= c.stamps.bornAt + p.ttl
  }

  lemma MoveKeepsNotes(p: Params, ca: Authority, s: System, m: Move, i: nat)
    requires i < |s.conns| && ServerOrder(s.conns[i]) && s.conns[i].signed.Some?
    ensures var t := Advance(p, ca, s, m);
            && |t.conns| == |s.conns| && t.conns[i].stamps == s.conns[i].stamps && t.conns[i].signed.Some?
  {
    hide ServerStep, TellAll, ServerOrder;
    if m.ServerMove? && m.served == i {
      var g := s.guard.(now := s.guard.now + m.wait);
      SignedHasSnapshot(s.conns[i]);
      ServerStepLogs(p, ca, s.conns[i], g.state, m.serverIo, g.now, m.freshPin);
    } else {
      MoveLeavesServer(p, ca, s, m, i);
    }
  }

  lemma SignedHasSnapshot(c: Conn)
    requires ServerOrder(c) && c.signed.Some?
    ensures c.snapshot.Some?
  {
  }

  /** Once a certificate is signed, what is noted about it stays. */
  lemma {:induction false} RunKeepsNotes(p: Params, ca: Authority, s: System, moves: seq<Move>, i: nat)
    requires Accounted(p, s) && i < |s.conns| && s.conns[i].signed.Some?
    ensures var t := RunMoves(p, ca, s, moves);
            && |t.conns| == |s.conns| && t.conns[i].stamps == s.conns[i].stamps && t.conns[i].signed.Some?
  {
    hide Accounted, Advance;
    if moves != [] {
      var front := moves[..|moves| - 1];
      RunKeepsNotes(p, ca, s, front, i);
      RunKeeps(p, ca, s, front);
      AccountedOrder(p, RunMoves(p, ca, s, front), i);
      MoveKeepsNotes(p, ca, RunMoves(p, ca, s, front), moves[|moves| - 1], i);
    }
  }

  /**
   Whatever a run has come to: a connection whose confirmation has been accepted is
   signed for at the server's next step on it, whatever else happens before, whatever
   breaks, and however old its PIN has become; so it is, and stays, signed late if and
   only if that step comes a time to live or more after the PIN was generated.
   */
  lemma SigningIgnoresAge(
    p: Params, ca: Authority, s: System, i: nat, others: seq<Move>, io: Io, wait: nat, next: Pin, rest: seq<Move>)
    requires Accounted(p, s) && i < |s.conns| && s.conns[i].server.WillSign? && ServerIdle(others, i)
    ensures var before := RunMoves(p, ca, s, others);
            var after := RunMoves(p, ca, Advance(p, ca, before, ServerMove(i, io, wait, next)), rest);
            && |after.conns| == |s.conns| && after.conns[i].signed.Some?
            && (SignedLate(p, after.conns[i]) <==> before.guard.now + wait >= s.conns[i].stamps.bornAt + p.ttl)
  {
    hide Accounted, ServerStep, TellAll, Stamped, RunMoves;
    var before := RunMoves(p, ca, s, others);
    OthersLeaveServer(p, ca, s, others, i);
    RunKeeps(p, ca, s, others);
    AccountedOrder(p, before, i);
    SigningStep(p, ca, before.conns[i], before.guard.(now := before.guard.now + wait), io, next);
    var signed := Advance(p, ca, before, ServerMove(i, io, wait, next));
    AdvanceKeeps(p, ca, before, ServerMove(i, io, wait, next));
    RunKeepsNotes(p, ca, signed, rest, i);
  }

  lemma AccountedOrder(p: Params, s: System, i: nat)
    requires Accounted(p, s) && i < |s.conns|
    ensures ServerOrder(s.conns[i])
  {
    hide ServerOrder, Timely;
    assert s.conns[i] in s.conns;
  }

  /** At no point of the run are more than `attempts` handlers past the lock check. */
  predicate AtMostInFlight(p: Params, ca: Authority, s: System, moves: seq<Move>, attempts: nat) {
    forall i :: 0 <= i <= |moves| ==> Total(Flying, RunMoves(p, ca, s, moves[..i]).conns) <= attempts
  }

  lemma InFlightPrefix(p: Params, ca: Authority, s: System, moves: seq<Move>, attempts: nat)
    requires AtMostInFlight(p, ca, s, moves, attempts) && moves != []
    ensures AtMostInFlight(p, ca, s, moves[..|moves| - 1], attempts)
    ensures Total(Flying, RunMoves(p, ca, s, moves[..|moves| - 1]).conns) <= attempts
    ensures Total(Flying, RunMoves(p, ca, s, moves).conns) <= attempts
  {
    hide RunMoves, Total;
    var n := |moves| - 1;
    assert moves[..|moves|] == moves;
    forall i | 0 <= i <= n ensures Total(Flying, RunMoves(p, ca, s, moves[..n][..i]).conns) <= attempts {
      assert moves[..n][..i] == moves[..i];
    }
  }

  // ------------------------------------------------------------------
  // Guessing
  // ------------------------------------------------------------------

  lemma ElapseKeepsBound(p: Params, limit: nat, g: Guard, wait: nat)
    requires Bounded(p, limit, g)
    ensures Bounded(p, limit, g.(now := g.now + wait))
  {
  }

  lemma AdvanceKeepsBound(p: Params, ca: Authority, limit: nat, s: System, m: Move)
    requires Bounded(p, limit, s.guard) && Advance(p, ca, s, m).guard.inFlight <= limit + 1
    ensures Bounded(p, limit, Advance(p, ca, s, m).guard)
  {
    hide Bounded, ServerStep, ClientStep, TellAll, Tell, Stamped;
    match m {
      case ClientMove(_, _) =>
      case Arrive(_, _) =>
      case ServerMove(i, io, wait, next) =>
        if i < |s.conns| {
          var g := s.guard.(now := s.guard.now + wait);
          ElapseKeepsBound(p, limit, s.guard, wait);
          EffectsKeepBound(p, ca, limit, s.conns[i], g, io, g.now, next);
        }
      case ShowPin(wait, next) =>
        TellKeepsBound(p, limit, s.guard, TakePin(next, s.guard.now + wait));
    }
  }

  lemma {:induction false} RunKeepsBounded(p: Params, ca: Authority, limit: nat, s: System, moves: seq<Move>)
    requires Accounted(p, s) && Bounded(p, limit, s.guard)
    requires AtMostInFlight(p, ca, s, moves, limit + 1)
    ensures Bounded(p, limit, RunMoves(p, ca, s, moves).guard)
  {
    hide Bounded, Advance, Total, AtMostInFlight;
    if moves != [] {
      var front := moves[..|moves| - 1];
      InFlightPrefix(p, ca, s, moves, limit + 1);
      RunKeepsBounded(p, ca, limit, s, front);
      RunKeeps(p, ca, s, moves);
      AdvanceKeepsBound(p, ca, limit, RunMoves(p, ca, s, front), moves[|moves| - 1]);
    }
  }

  /**
   The lockout seen from the network: whatever arrives on any number of connections,
   in any interleaving with at most `attempts` handlers in flight, the wrong-PIN
   confirmations the server answers in time T are at most
   (floor(T / lockout) + pairings + 1) * (max_failures + attempts - 1).
   */
  lemma GuessingBound(p: Params, ca: Authority, s: System, firstPin: Pin, moves: seq<Move>, attempts: nat)
    requires FreshSystem(s, firstPin) && attempts > 0 && p.lockout > 0
    requires AtMostInFlight(p, ca, s, moves, attempts)
    ensures var end := RunMoves(p, ca, s, moves);
            Total(Guesses, end.conns) <=
              (end.guard.now / p.lockout + Total(Recorded, end.conns) + 1) * EpochLimit(p, attempts - 1)
  {
    hide RunMoves, AtMostInFlight, Total;
    FreshAccounted(p, s, firstPin);
    RunKeeps(p, ca, s, moves);
    RunKeepsBounded(p, ca, attempts - 1, s, moves);
    BoundedGuess(p, attempts - 1, RunMoves(p, ca, s, moves).guard);
  }

  // ------------------------------------------------------------------
  // Pairings under one PIN
  // ------------------------------------------------------------------

  lemma {:induction false} TotalMonotone(v: Conn -> nat, w: Conn -> nat, conns: seq<Conn>)
    requires forall c :: c in conns ==> v(c) <= w(c)
    ensures Total(v, conns) <= Total(w, conns)
  {
    if conns != [] {
      TotalMonotone(v, w, conns[1..]);
    }
  }

  /** Nobody has been paired under the PIN in force, so whoever holds it is in flight. */
  lemma HoldersFly(p: Params, s: System)
    requires Accounted(p, s)
    ensures Total(Under(s.guard.issue), s.conns) <= Total(Flying, s.conns)
  {
    hide Total, ServerOrder;
    TotalMonotone(Under(s.guard.issue), Flying, s.conns);
  }

  /** No PIN already replaced has more attempts under it, finished or not, than were ever in flight at once. */
  predicate FewUnder(s: System, attempts: nat) {
    forall n: nat :: n < s.guard.issue ==> Total(Under(n), s.conns) <= attempts
  }

  lemma {:induction false} RunKeepsFew(p: Params, ca: Authority, s: System, moves: seq<Move>, attempts: nat)
    requires Accounted(p, s) && FewUnder(s, attempts) && AtMostInFlight(p, ca, s, moves, attempts)
    ensures FewUnder(RunMoves(p, ca, s, moves), attempts)
  {
    hide Accounted, Advance, Total, Under, AtMostInFlight;
    if moves != [] {
      var front := moves[..|moves| - 1];
      var before := RunMoves(p, ca, s, front);
      InFlightPrefix(p, ca, s, moves, attempts);
      RunKeepsFew(p, ca, s, front, attempts);
      RunKeeps(p, ca, s, front);
      HoldersFly(p, before);
      AdvanceKeeps(p, ca, before, moves[|moves| - 1]);
    }
  }

  /**
   A success replaces the PIN but not the snapshots other attempts have taken of it, so
   one PIN may yield several pairings; but never more than there were attempts in
   flight at once, and none that leaves it in force.  Certificates, delivered or not,
   are no more than the attempts that took the PIN.
   */
  lemma PairingsPerPin(p: Params, ca: Authority, s: System, firstPin: Pin, moves: seq<Move>, attempts: nat, n: nat)
    requires FreshSystem(s, firstPin) && AtMostInFlight(p, ca, s, moves, attempts)
    ensures var end := RunMoves(p, ca, s, moves);
            && Total(PairedUnder(n), end.conns) <= attempts
            && (n >= end.guard.issue ==> Total(PairedUnder(n), end.conns) == 0)
            && Total(PairedUnder(n), end.conns) <= Total(SignedUnder(n), end.conns) <= Total(TookPin(n), end.conns)
  {
    hide RunMoves, AtMostInFlight, Total;
    var end := RunMoves(p, ca, s, moves);
    FreshAccounted(p, s, firstPin);
    RunKeeps(p, ca, s, moves);
    RunKeepsFew(p, ca, s, moves, attempts);
    TotalMonotone(PairedUnder(n), SignedUnder(n), end.conns);
    TotalMonotone(SignedUnder(n), TookPin(n), end.conns);
    if n < end.guard.issue {
      TotalMonotone(PairedUnder(n), Under(n), end.conns);
    } else {
      TotalMonotone(PairedUnder(n), Nothing, end.conns);
      TotalNothing(end.conns);
    }
  }

  function Nothing(c: Conn): nat {
    0
  }

  lemma {:induction false} TotalNothing(conns: seq<Conn>)
    ensures Total(Nothing, conns) == 0
  {
    if conns != [] {
      TotalNothing(conns[1..]);
    }
  }
}
