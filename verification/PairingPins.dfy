/**
 Which PINs certificates are signed under: the PINs of a run of the pairing system,
 read off its moves alone, against the ones its attempts took.
 */
module PairingPins {
  import opened Wrappers
  import opened PM = PinManager
  import opened Pairing
  import opened PairingLimits
  import PairingAgreement

  /** What one move draws: an attempt or the display reads the PIN, or a pairing is recorded. */
  function MoveDraws(p: Params, s: System, m: Move, log: seq<Draw>): (r: seq<Draw>)
    requires log != []
    ensures r != []
  {
    match m
    case ServerMove(i, _, wait, next) =>
      if i >= |s.conns| then log
      else if s.conns[i].server.WillAnswerSpake? then Drawn(p, log, TakePin(next, s.guard.now + wait))
      else if s.conns[i].server.WillRecord? then Drawn(p, log, Succeed(next, s.guard.now + wait))
      else log
    case ShowPin(wait, next) => Drawn(p, log, TakePin(next, s.guard.now + wait))
    case _ => log
  }

  function RunDraws(p: Params, ca: Authority, s: System, moves: seq<Move>, log: seq<Draw>): (r: seq<Draw>)
    requires log != []
    ensures r != []
  {
    if moves == [] then log else
      var front := moves[..|moves| - 1];
      MoveDraws(p, RunMoves(p, ca, s, front), moves[|moves| - 1], RunDraws(p, ca, s, front, log))
  }

  /** The connection took the drawn PIN that its notes name. */
  predicate TookDrawn(c: Conn, log: seq<Draw>) {
    c.snapshot.Some? ==>
      c.stamps.issue < |log| && log[c.stamps.issue] == Draw(c.snapshot.value, c.stamps.bornAt)
  }

  predicate AllDrawn(conns: seq<Conn>, log: seq<Draw>) {
    forall c :: c in conns ==> TookDrawn(c, log)
  }

  lemma LogGrows(p: Params, s: System, m: Move, log: seq<Draw>)
    requires log != []
    ensures log <= MoveDraws(p, s, m, log)
  {
  }

  lemma StillDrawn(conns: seq<Conn>, log: seq<Draw>, longer: seq<Draw>)
    requires AllDrawn(conns, log) && log <= longer
    ensures AllDrawn(conns, longer)
  {
  }

  lemma DrawnAfterUpdate(conns: seq<Conn>, i: nat, d: Conn, log: seq<Draw>)
    requires AllDrawn(conns, log) && i < |conns| && TookDrawn(d, log)
    ensures AllDrawn(conns[i := d], log)
  {
    forall c | c in conns[i := d] ensures TookDrawn(c, log) {
      assert c == d || c in conns;
    }
  }

  lemma TellInForce(p: Params, g: Guard, a: PinAction, log: seq<Draw>)
    requires log != [] && InForce(g, log) && Enabled(g, a)
    ensures InForce(Tell(p, g, a), Drawn(p, log, a))
  {
    StepInForce(p, g, a, log);
  }

  lemma QuietInForce(p: Params, g: Guard, a: PinAction, log: seq<Draw>)
    requires InForce(g, log) && !a.TakePin? && !a.Succeed?
    ensures InForce(Tell(p, g, a), log) && Tell(p, g, a).state.pin == g.state.pin
  {
  }

  lemma TakenPin(p: Params, g: Guard, next: Pin)
    ensures Tell(p, g, TakePin(next, g.now)).state.pin == Rotated(p, g.state, next, g.now).pin
  {
  }

  lemma AnswerTakes(p: Params, ca: Authority, c: Conn, pm: PinState, io: Io, at: nat, next: Pin)
    ensures c.server.WillAnswerSpake? ==>
      ServerStep(p, ca, c, pm, io, at, next).conn.snapshot == Some(Rotated(p, pm, next, at).pin)
    ensures !c.server.WillAnswerSpake? ==> ServerStep(p, ca, c, pm, io, at, next).conn.snapshot == c.snapshot
  {
  }

  /** The manager after a step of the server, and the PIN the step took, if it took one. */
  lemma ServerStepInForce(p: Params, ca: Authority, c: Conn, g: Guard, io: Io, next: Pin, log: seq<Draw>)
    requires log != [] && InForce(g, log) && (InFlight(c.server) ==> g.inFlight > 0)
    ensures var r := ServerStep(p, ca, c, g.state, io, g.now, next);
            var h := TellAll(p, g, r.effects);
            && InForce(h, if c.server.WillAnswerSpake? then Drawn(p, log, TakePin(next, g.now))
                          else if c.server.WillRecord? then Drawn(p, log, Succeed(next, g.now))
                          else log)
            && (c.server.WillAnswerSpake? ==> r.conn.snapshot == Some(h.state.pin))
  {
    hide ServerStep, Tell, InForce, Drawn, Rotated;
    var es := ServerStep(p, ca, c, g.state, io, g.now, next).effects;
    EffectsOf(p, ca, c, g.state, io, g.now, next);
    AnswerTakes(p, ca, c, g.state, io, g.now, next);
    if c.server.WillAnswerSpake? {
      var take := TakePin(next, g.now);
      TellInForce(p, g, take, log);
      TakenPin(p, g, next);
      if io.Works? {
        TellOne(p, g, take);
      } else {
        TellTwo(p, g, take, Abandon(g.now));
        QuietInForce(p, Tell(p, g, take), Abandon(g.now), Drawn(p, log, take));
      }
    } else if c.server.WillRecord? {
      TellOne(p, g, Succeed(next, g.now));
      TellInForce(p, g, Succeed(next, g.now), log);
    } else if es == [] {
      TellNone(p, g);
    } else {
      assert es == [es[0]];
      TellOne(p, g, es[0]);
      QuietInForce(p, g, es[0], log);
    }
  }

  /** One step of the server: what it takes is the PIN in force. */
  lemma ServerTakesDrawn(p: Params, ca: Authority, c: Conn, g: Guard, io: Io, next: Pin, log: seq<Draw>)
    requires log != [] && InForce(g, log) && (InFlight(c.server) ==> g.inFlight > 0)
    requires ServerOrder(c) && TookDrawn(c, log)
    ensures var r := ServerStep(p, ca, c, g.state, io, g.now, next);
            var h := TellAll(p, g, r.effects);
            var longer := if c.server.WillAnswerSpake? then Drawn(p, log, TakePin(next, g.now))
                          else if c.server.WillRecord? then Drawn(p, log, Succeed(next, g.now))
                          else log;
            TookDrawn(Stamped(c, r.conn, h), longer)
  {
    hide ServerStep, TellAll;
    ServerStepInForce(p, ca, c, g, io, next, log);
    ServerStepLogs(p, ca, c, g.state, io, g.now, next);
    AnswerTakes(p, ca, c, g.state, io, g.now, next);
  }

  lemma MoveKeeps(p: Params, ca: Authority, s: System, m: Move, log: seq<Draw>)
    requires Accounted(p, s) && log != [] && InForce(s.guard, log) && AllDrawn(s.conns, log)
    ensures var t := Advance(p, ca, s, m);
            var longer := MoveDraws(p, s, m, log);
            InForce(t.guard, longer) && AllDrawn(t.conns, longer)
  {
    hide ServerStep, TellAll, Tell, Stamped, Accounted, AllDrawn, TookDrawn, ClientStep, Drawn;
    LogGrows(p, s, m, log);
    StillDrawn(s.conns, log, MoveDraws(p, s, m, log));
    match m {
      case ServerMove(i, io, wait, next) =>
        if i < |s.conns| {
          ServerMoveDrawn(p, ca, s, i, io, wait, next, log);
        }
      case ShowPin(wait, next) =>
        TellInForce(p, s.guard, TakePin(next, s.guard.now + wait), log);
      case ClientMove(i, _) =>
        if i < |s.conns| {
          OutsideLeavesServer(p, ca, s, m, i);
          SideEqualDrawn(s.conns, i, Advance(p, ca, s, m).conns[i], log);
        }
      case Arrive(i, _) =>
        if i < |s.conns| {
          OutsideLeavesServer(p, ca, s, m, i);
          SideEqualDrawn(s.conns, i, Advance(p, ca, s, m).conns[i], log);
        }
    }
  }

  lemma SideEqualDrawn(conns: seq<Conn>, i: nat, d: Conn, log: seq<Draw>)
    requires AllDrawn(conns, log) && i < |conns| && ServerSideEqual(conns[i], d)
    ensures AllDrawn(conns[i := d], log)
  {
    assert conns[i] in conns;
    DrawnAfterUpdate(conns, i, d, log);
  }

  lemma ServerMoveDrawn(p: Params, ca: Authority, s: System, i: nat, io: Io, wait: nat, next: Pin, log: seq<Draw>)
    requires Accounted(p, s) && i < |s.conns| && log != [] && InForce(s.guard, log) && AllDrawn(s.conns, log)
    ensures var t := Advance(p, ca, s, ServerMove(i, io, wait, next));
            var longer := MoveDraws(p, s, ServerMove(i, io, wait, next), log);
            InForce(t.guard, longer) && AllDrawn(t.conns, longer)
  {
    hide ServerStep, TellAll, Stamped, AllTimely, ServerOrder, TookDrawn, Drawn, Total;
    var c, g := s.conns[i], s.guard.(now := s.guard.now + wait);
    var r := ServerStep(p, ca, c, g.state, io, g.now, next);
    var h := TellAll(p, g, r.effects);
    var longer := MoveDraws(p, s, ServerMove(i, io, wait, next), log);
    assert c in s.conns;
    TimelyAt(p, s.guard.now, s.guard.issue, s.conns, i);
    WeightWithinTotal(Flying, s.conns, i);
    ServerStepInForce(p, ca, c, g, io, next, log);
    ServerTakesDrawn(p, ca, c, g, io, next, log);
    LogGrows(p, s, ServerMove(i, io, wait, next), log);
    StillDrawn(s.conns, log, longer);
    DrawnAfterUpdate(s.conns, i, Stamped(c, r.conn, h), longer);
  }

  lemma {:induction false} RunDrawn(p: Params, ca: Authority, s: System, moves: seq<Move>, log: seq<Draw>)
    requires Accounted(p, s) && log != [] && InForce(s.guard, log) && AllDrawn(s.conns, log)
    ensures var t := RunMoves(p, ca, s, moves);
            var longer := RunDraws(p, ca, s, moves, log);
            InForce(t.guard, longer) && AllDrawn(t.conns, longer)
  {
    hide Advance, MoveDraws, InForce, AllDrawn, Accounted;
    if moves != [] {
      var front := moves[..|moves| - 1];
      RunDrawn(p, ca, s, front, log);
      RunKeeps(p, ca, s, front);
      MoveKeeps(p, ca, RunMoves(p, ca, s, front), moves[|moves| - 1], RunDraws(p, ca, s, front, log));
    }
  }

  /**
   In every run, whoever sends what: the PIN in force is the last drawn, each attempt
   took the PIN drawn under the number it notes, and took it less than a time to live
   after it was drawn, if a certificate was signed.
   */
  lemma SnapshotsDrawn(p: Params, ca: Authority, s: System, first: Pin, moves: seq<Move>)
    requires FreshSystem(s, first) && p.ttl > 0
    ensures var end := RunMoves(p, ca, s, moves);
            var log := RunDraws(p, ca, s, moves, [Draw(first, 0)]);
            && InForce(end.guard, log)
            && forall c :: c in end.conns && c.signed.Some? ==>
                 && c.snapshot.Some? && c.stamps.issue < |log|
                 && c.snapshot.value == log[c.stamps.issue].pin
                 && log[c.stamps.issue].at <= c.stamps.takenAt < log[c.stamps.issue].at + p.ttl
  {
    hide RunMoves, RunDraws;
    FreshAccounted(p, s, first);
    RunDrawn(p, ca, s, moves, [Draw(first, 0)]);
    SnapshotsFresh(p, ca, s, first, moves);
  }

  /**
   With two honest ends: a certificate is only ever signed for a client whose user
   typed a PIN that had been drawn, and in time when the attempt took it.
   */
  lemma SignedUnderDrawn(p: Params, ca: Authority, s: System, first: Pin, moves: seq<Move>)
    requires FreshSystem(s, first) && p.ttl > 0 && PairingAgreement.Unforged(moves)
    ensures var log := RunDraws(p, ca, s, moves, [Draw(first, 0)]);
            forall c :: c in RunMoves(p, ca, s, moves).conns && c.signed.Some? ==>
              && c.stamps.issue < |log| && c.pin == log[c.stamps.issue].pin
              && log[c.stamps.issue].at <= c.stamps.takenAt < log[c.stamps.issue].at + p.ttl
  {
    hide RunMoves, RunDraws;
    SnapshotsDrawn(p, ca, s, first, moves);
    PairingAgreement.PairingAgreement(p, ca, s, first, moves);
  }
}
