/**
 The whole loop of a remote session: the capture callback, the messages on their way
 to the client, the client's cursor, and its BoundaryLeave messages on their way
 back, which raise the exit request (src/main.rs).  Messages travel in order.
 */
module ClosedLoop {
  import opened Capture
  import opened CaptureRuns
  import opened ClientCursor
  import opened ServerClientSession

  /** Both machines and what is between them; `log` is what the callback went through. */
  datatype Loop = Loop(server: Snapshot, client: Cursor, toClient: seq<Forwarded>, leaves: nat, log: seq<Action>)

  datatype LoopAction =
    | Local(event: Event)       // the user's input reaches the callback
    | Presence(present: bool)   // the set of clients became (non-)empty
    | Receive                   // the client takes a message
    | TakeLeave                 // the server takes a BoundaryLeave

  /** The client's screen has pixels. */
  predicate Screened(q: Loop) {
    q.client.width >= 1 && q.client.height >= 1
  }

  function Perform(q: Loop, a: Action): Loop {
    q.(server := Act(q.server, a), toClient := q.toClient + EmittedBy(q.server, a), log := q.log + [a])
  }

  function LoopStep(q: Loop, a: LoopAction): (r: Loop)
    requires Screened(q)
    ensures Screened(r) && r.leaves <= q.leaves + 1
    ensures a.TakeLeave? && q.leaves > 0 ==> r.leaves < q.leaves
  {
    match a
    case Local(e) => Perform(q, Input(e))
    case Presence(b) => Perform(q, SetHasClient(b))
    case Receive =>
      if q.toClient == [] then q else
        var m := Deliver(q.client, q.toClient[0]);
        q.(client := m.cursor, toClient := q.toClient[1..], leaves := q.leaves + if m.leave then 1 else 0)
    case TakeLeave =>
      if q.leaves == 0 then q else Perform(q, RequestExit).(leaves := q.leaves - 1)
  }

  function LoopRun(q: Loop, acts: seq<LoopAction>): (r: Loop)
    requires Screened(q)
    ensures Screened(r)
  {
    if acts == [] then q else LoopStep(LoopRun(q, acts[..|acts| - 1]), acts[|acts| - 1])
  }

  /** Right after the crossing on event e, with a fresh log. */
  function Opened(p: Loop, e: Event): (q: Loop)
    ensures q.client == p.client
  {
    Perform(p, Input(e)).(log := [])
  }

  /** All that the client has been or will be sent since p. */
  function Stream(p: Loop, e: Event, log: seq<Action>): seq<Forwarded> {
    p.toClient + (EmittedBy(p.server, Input(e)) + Emitted(Act(p.server, Input(e)), log))
  }

  /** Where the loop is: what the client took is a prefix of the stream, and requests come from it. */
  predicate Tracks(p: Loop, e: Event, q: Loop, taken: seq<Forwarded>)
    requires Screened(p)
  {
    && q.server == Run(Act(p.server, Input(e)), q.log)
    && taken + q.toClient == Stream(p, e, q.log)
    && q.client == DeliverAll(p.client, taken).cursor
    && (q.leaves > 0 || q.server.exitRemote ==> p.leaves > 0 || DeliverAll(p.client, taken).leave)
  }

  lemma StreamGrows(p: Loop, e: Event, log: seq<Action>, a: Action)
    ensures Run(Act(p.server, Input(e)), log + [a]) == Act(Run(Act(p.server, Input(e)), log), a)
    ensures Stream(p, e, log + [a]) == Stream(p, e, log) + EmittedBy(Run(Act(p.server, Input(e)), log), a)
  {
    hide Act, EmittedBy;
    assert (log + [a])[..|log|] == log;
  }

  lemma DeliverSnoc(c: Cursor, msgs: seq<Forwarded>, m: Forwarded)
    requires c.width >= 1 && c.height >= 1
    ensures var before := DeliverAll(c, msgs);
            var last := Deliver(before.cursor, m);
            DeliverAll(c, msgs + [m]) == Moved(last.cursor, before.leave || last.leave)
  {
    hide Deliver;
    assert (msgs + [m])[..|msgs|] == msgs;
  }

  lemma RequestsOnlyByLeave(s: Snapshot, a: Action)
    requires a != RequestExit
    ensures Act(s, a).exitRemote ==> s.exitRemote
  {
  }

  lemma PerformTracks(p: Loop, e: Event, q: Loop, taken: seq<Forwarded>, a: Action)
    requires Screened(p) && Tracks(p, e, q, taken)
    requires a == RequestExit ==> q.leaves > 0
    ensures Tracks(p, e, Perform(q, a), taken)
  {
    hide Act, EmittedBy, Emitted, Run, Stream, DeliverAll;
    StreamGrows(p, e, q.log, a);
    assert taken + (q.toClient + EmittedBy(q.server, a)) == (taken + q.toClient) + EmittedBy(q.server, a);
    if a != RequestExit {
      RequestsOnlyByLeave(q.server, a);
    }
  }

  lemma StepTracks(p: Loop, e: Event, q: Loop, taken: seq<Forwarded>, a: LoopAction) returns (more: seq<Forwarded>)
    requires Screened(p) && Screened(q) && Tracks(p, e, q, taken)
    ensures Tracks(p, e, LoopStep(q, a), more)
  {
    hide Act, EmittedBy, Emitted, Run, Stream, DeliverAll, Deliver;
    more := taken;
    match a {
      case Local(event) => PerformTracks(p, e, q, taken, Input(event));
      case Presence(b) => PerformTracks(p, e, q, taken, SetHasClient(b));
      case Receive =>
        if q.toClient != [] {
          more := taken + [q.toClient[0]];
          DeliverSnoc(p.client, taken, q.toClient[0]);
          assert more + q.toClient[1..] == taken + q.toClient;
        }
      case TakeLeave =>
        if q.leaves > 0 {
          PerformTracks(p, e, q, taken, RequestExit);
        }
    }
  }

  lemma OpenedTracks(p: Loop, e: Event)
    requires Screened(p) && Crosses(p.server, Input(e))
    ensures Tracks(p, e, Opened(p, e), [])
  {
    hide Step;
    CrossingConsumesRequest(p.server, Input(e));
    assert Stream(p, e, []) == p.toClient + EmittedBy(p.server, Input(e));
  }

  lemma {:induction false} RunTracks(p: Loop, e: Event, acts: seq<LoopAction>) returns (taken: seq<Forwarded>)
    requires Screened(p) && Crosses(p.server, Input(e))
    ensures Tracks(p, e, LoopRun(Opened(p, e), acts), taken)
  {
    hide Tracks, LoopStep, Opened, Crosses;
    if acts == [] {
      taken := [];
      OpenedTracks(p, e);
    } else {
      var before := RunTracks(p, e, acts[..|acts| - 1]);
      taken := StepTracks(p, e, LoopRun(Opened(p, e), acts[..|acts| - 1]), before, acts[|acts| - 1]);
    }
  }

  /** A BoundaryLeave is on its way, or the messages on their way will make the client send one. */
  predicate Stale(p: Loop)
    requires Screened(p)
  {
    p.leaves > 0 || DeliverAll(p.client, p.toClient).leave
  }

  /** The session opened on e is still the one it was, and the next event will end it on request. */
  ghost predicate AskedToEnd(p: Loop, e: Event, q: Loop) {
    StaysRemote(Act(p.server, Input(e)), q.log) && q.server.exitRemote
  }

  /** The user brought the cursor back in this session. */
  ghost predicate CameBack(p: Loop, e: Event, q: Loop) {
    MovedBack(ENTER_X, Reports(Act(p.server, Input(e)), q.log), p.client.width)
  }

  /** Every request that ends the session opened on e follows the user's own movement in it. */
  ghost predicate EndsOnlyByUser(p: Loop, e: Event)
    requires Screened(p)
  {
    forall acts :: var q := LoopRun(Opened(p, e), acts); AskedToEnd(p, e, q) ==> CameBack(p, e, q)
  }

  lemma FreshRequestIsOwn(p: Loop, e: Event, q: Loop, taken: seq<Forwarded>)
    requires Screened(p) && Crosses(p.server, Input(e)) && !Stale(p)
    requires Tracks(p, e, q, taken) && AskedToEnd(p, e, q)
    ensures CameBack(p, e, q)
  {
    hide Step, Act, EmittedBy, Emitted, DeliverAll, MovedBack, Reports, StaysRemote, Crosses;
    var all := Stream(p, e, q.log);
    assert all[..|taken|] == taken;
    LeaveStays(p.client, all, |taken|);
    var opening, rest := EmittedBy(p.server, Input(e)), Emitted(Act(p.server, Input(e)), q.log);
    DeliverConcat(p.client, p.toClient, opening + rest);
    SingleAction(p.server, Input(e));
    EmittedConcat(p.server, [Input(e)], q.log);
    LeaveIffMovedBack(p.server, e, q.log, DeliverAll(p.client, p.toClient).cursor);
  }

  // ------------------------------------------------------------------
  // What goes wrong when something stale is on its way
  // ------------------------------------------------------------------

  function Receives(k: nat): seq<LoopAction> {
    seq(k, _ => Receive)
  }

  lemma {:induction false} ReceiveMany(q: Loop, k: nat)
    requires Screened(q) && k <= |q.toClient|
    ensures var r := LoopRun(q, Receives(k));
            && r.server == q.server && r.log == q.log && r.toClient == q.toClient[k..]
            && r.client == DeliverAll(q.client, q.toClient[..k]).cursor
            && (r.leaves > 0 <==> q.leaves > 0 || DeliverAll(q.client, q.toClient[..k]).leave)
  {
    hide Deliver;
    if k > 0 {
      ReceiveMany(q, k - 1);
      assert Receives(k)[..k - 1] == Receives(k - 1);
      assert q.toClient[..k] == q.toClient[..k - 1] + [q.toClient[k - 1]];
      DeliverSnoc(q.client, q.toClient[..k - 1], q.toClient[k - 1]);
    }
  }

  lemma StaleEnds(p: Loop, e: Event) returns (acts: seq<LoopAction>)
    requires Screened(p) && Crosses(p.server, Input(e)) && Stale(p)
    ensures var q := LoopRun(Opened(p, e), acts);
            q.log == [RequestExit] && q.server == Act(Act(p.server, Input(e)), RequestExit)
  {
    hide Step, EmittedBy, DeliverAll, Deliver, Crosses;
    var q0 := Opened(p, e);
    var k := |p.toClient|;
    ReceiveMany(q0, k);
    assert q0.toClient[..k] == p.toClient;
    acts := Receives(k) + [TakeLeave];
    assert acts[..|acts| - 1] == Receives(k);
    assert [] + [RequestExit] == [RequestExit];
  }

  lemma RequestAloneEnds(s: Snapshot, e: Event, cw: nat)
    requires Crosses(s, Input(e))
    ensures var entered := Act(s, Input(e));
            && StaysRemote(entered, [RequestExit]) && Act(entered, RequestExit).exitRemote
            && !MovedBack(ENTER_X, Reports(entered, [RequestExit]), cw)
  {
    var entered := Act(s, Input(e));
    assert [RequestExit][..0] == [];
    assert Reports(entered, [RequestExit]) == [Point(entered.prevX, entered.prevY)];
  }

  /**
   The closed loop, exactly: whatever the order in which input, messages and requests
   are handled, a session is ended on request only after the user came back in that
   very session, if and only if nothing stale was on its way when it was opened.
   */
  lemma EndsOnlyByUserIff(p: Loop, e: Event)
    requires Screened(p) && Crosses(p.server, Input(e))
    ensures EndsOnlyByUser(p, e) <==> !Stale(p)
  {
    hide LoopRun, Opened, Tracks, Act, Crosses, Stale, StaysRemote, MovedBack, Reports;
    if Stale(p) {
      var acts := StaleEnds(p, e);
      RequestAloneEnds(p.server, e, p.client.width);
      var q := LoopRun(Opened(p, e), acts);
      assert AskedToEnd(p, e, q) && !CameBack(p, e, q);
    } else {
      forall acts | AskedToEnd(p, e, LoopRun(Opened(p, e), acts))
        ensures CameBack(p, e, LoopRun(Opened(p, e), acts))
      {
        var taken := RunTracks(p, e, acts);
        FreshRequestIsOwn(p, e, LoopRun(Opened(p, e), acts), taken);
      }
    }
  }
}
