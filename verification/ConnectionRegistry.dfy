/**
 Who is connected: the server's client map, updated by concurrent connection
 handlers (crates/ss-network/src/server.rs), and the user-visible list and
 has_client flag, updated from the queued notifications (src/main.rs).
 */
module ConnectionRegistry {
  import opened Wrappers
  import Capture
  import CaptureRuns

  type Name = string

  datatype ServerEvent = ClientConnected(name: Name) | ClientDisconnected(name: Name) | ClientPaired(name: Name)

  /** A client's screen, as announced in its handshake. */
  datatype ClientEntry = ClientEntry(screenWidth: nat, screenHeight: nat)

  // ------------------------------------------------------------------
  // The consumer of notifications
  // ------------------------------------------------------------------

  datatype Shown = Shown(clients: seq<Name>, hasClient: bool)

  function Retain(clients: seq<Name>, gone: Name): seq<Name> {
    if clients == [] then [] else (if clients[0] != gone then [clients[0]] else []) + Retain(clients[1..], gone)
  }

  function Consumed(v: Shown, e: ServerEvent): Shown {
    match e
    case ClientConnected(n) => Shown(v.clients + [n], true)
    case ClientDisconnected(n) =>
      var left := Retain(v.clients, n);
      Shown(left, if left == [] then false else v.hasClient)
    case ClientPaired(_) => v
  }

  class EventConsumer {
    var connectedClients: seq<Name>
    var hasClient: bool

    function View(): Shown
      reads this
    {
      Shown(connectedClients, hasClient)
    }

    constructor ()
      ensures View() == Shown([], false)
    {
      connectedClients, hasClient := [], false;
    }

    method OnEvent(e: ServerEvent)
      modifies this
      ensures View() == Consumed(old(View()), e)
    {
      match e {
        case ClientConnected(n) =>
          connectedClients := connectedClients + [n];
          hasClient := true;
        case ClientDisconnected(n) =>
          connectedClients := Retain(connectedClients, n);
          if connectedClients == [] {
            hasClient := false;
          }
        case ClientPaired(_) =>
      }
    }
  }

  // ------------------------------------------------------------------
  // Handlers, queue and consumer together
  // ------------------------------------------------------------------

  /** Where a handler is: in the map but not announced, announced, out of the map, or finished. */
  datatype Phase = Inserted | Live | Dropped | Gone

  datatype Handler = Handler(name: Name, phase: Phase)

  datatype Server = Server(
    clients: map<Name, ClientEntry>, queue: seq<ServerEvent>, shown: Shown, handlers: seq<Handler>)

  datatype Action =
    | Insert(name: Name, entry: ClientEntry)  // a new connection completes its handshake
    | Announce(handler: nat)
    | Drop(dropped: nat)                      // its read loop ended
    | Farewell(finished: nat)
    | Pair(paired: Name)
    | Consume                                 // the consumer takes one notification

  const STARTED := Server(map[], [], Shown([], false), [])

  predicate InPhase(s: Server, i: nat, p: Phase) {
    i < |s.handlers| && s.handlers[i].phase == p
  }

  function SetPhase(s: Server, i: nat, p: Phase): Server
    requires i < |s.handlers|
  {
    s.(handlers := s.handlers[i := s.handlers[i].(phase := p)])
  }

  function Step(s: Server, a: Action): Server {
    match a
    case Insert(n, e) => s.(clients := s.clients[n := e], handlers := s.handlers + [Handler(n, Inserted)])
    case Announce(i) =>
      if InPhase(s, i, Inserted) then
        SetPhase(s, i, Live).(queue := s.queue + [ClientConnected(s.handlers[i].name)])
      else s
    case Drop(i) =>
      if InPhase(s, i, Live) then SetPhase(s, i, Dropped).(clients := s.clients - {s.handlers[i].name}) else s
    case Farewell(i) =>
      if InPhase(s, i, Dropped) then
        SetPhase(s, i, Gone).(queue := s.queue + [ClientDisconnected(s.handlers[i].name)])
      else s
    case Pair(n) => s.(queue := s.queue + [ClientPaired(n)])
    case Consume =>
      if s.queue == [] then s else s.(shown := Consumed(s.shown, s.queue[0]), queue := s.queue[1..])
  }

  function Run(s: Server, acts: seq<Action>): Server {
    if acts == [] then s else Step(Run(s, acts[..|acts| - 1]), acts[|acts| - 1])
  }

  /**
   A running server: the map and the queue its handlers share, how far each handler
   is, and the consumer of the queue.  Every method is one atomic step of a handler
   or of the consumer; a handler calls its four in order.
   */
  class ServerState {
    var clients: map<Name, ClientEntry>
    var notifications: seq<ServerEvent>
    var handlers: seq<Handler>
    const consumer: EventConsumer

    function View(): Server
      reads this, consumer
    {
      Server(clients, notifications, consumer.View(), handlers)
    }

    constructor ()
      ensures View() == STARTED && fresh(consumer)
    {
      clients, notifications, handlers := map[], [], [];
      consumer := new EventConsumer();
    }

    /** The data channel has joined: the client enters the map. */
    method InsertClient(name: Name, entry: ClientEntry) returns (handler: nat)
      modifies this
      ensures View() == Step(old(View()), Insert(name, entry))
      ensures InPhase(View(), handler, Inserted) && handlers[handler].name == name
    {
      handler := |handlers|;
      clients := clients[name := entry];
      handlers := handlers + [Handler(name, Inserted)];
    }

    method NotifyConnected(handler: nat)
      requires InPhase(View(), handler, Inserted)
      modifies this
      ensures View() == Step(old(View()), Announce(handler)) && InPhase(View(), handler, Live)
    {
      notifications := notifications + [ClientConnected(handlers[handler].name)];
      handlers := handlers[handler := handlers[handler].(phase := Live)];
    }

    method RemoveClient(handler: nat)
      requires InPhase(View(), handler, Live)
      modifies this
      ensures View() == Step(old(View()), Drop(handler)) && InPhase(View(), handler, Dropped)
    {
      clients := clients - {handlers[handler].name};
      handlers := handlers[handler := handlers[handler].(phase := Dropped)];
    }

    method NotifyDisconnected(handler: nat)
      requires InPhase(View(), handler, Dropped)
      modifies this
      ensures View() == Step(old(View()), Farewell(handler)) && InPhase(View(), handler, Gone)
    {
      notifications := notifications + [ClientDisconnected(handlers[handler].name)];
      handlers := handlers[handler := handlers[handler].(phase := Gone)];
    }

    method NotifyPaired(name: Name)
      modifies this
      ensures View() == Step(old(View()), Pair(name))
      ensures notifications == old(notifications) + [ClientPaired(name)]
    {
      notifications := notifications + [ClientPaired(name)];
    }

    /** The consumer's loop takes one notification, if there is one. */
    method ConsumeOne()
      modifies this, consumer
      ensures View() == Step(old(View()), Consume)
    {
      if notifications != [] {
        consumer.OnEvent(notifications[0]);
        notifications := notifications[1..];
      }
    }
  }

  /** What the consumer will show once it has taken everything queued. */
  function Eventually(v: Shown, queue: seq<ServerEvent>): Shown {
    if queue == [] then v else Consumed(Eventually(v, queue[..|queue| - 1]), queue[|queue| - 1])
  }

  lemma EventuallySnoc(v: Shown, queue: seq<ServerEvent>, e: ServerEvent)
    ensures Eventually(v, queue + [e]) == Consumed(Eventually(v, queue), e)
  {
    assert (queue + [e])[..|queue|] == queue;
  }

  lemma {:induction false} EventuallyHead(v: Shown, queue: seq<ServerEvent>)
    requires queue != []
    ensures Eventually(v, queue) == Eventually(Consumed(v, queue[0]), queue[1..])
  {
    hide Consumed;
    var n := |queue| - 1;
    if n > 0 {
      EventuallyHead(v, queue[..n]);
      assert queue[..n][1..] == queue[1..][..n - 1];
    }
  }

  lemma {:induction false} RetainMembers(clients: seq<Name>, gone: Name)
    ensures forall n :: n in Retain(clients, gone) <==> n in clients && n != gone
  {
    if clients != [] {
      RetainMembers(clients[1..], gone);
    }
  }

  predicate NoDuplicates(clients: seq<Name>) {
    forall i, j :: 0 <= i < j < |clients| ==> clients[i] != clients[j]
  }

  lemma {:induction false} RetainNoDuplicates(clients: seq<Name>, gone: Name)
    requires NoDuplicates(clients)
    ensures NoDuplicates(Retain(clients, gone))
  {
    if clients != [] {
      var rest := Retain(clients[1..], gone);
      RetainNoDuplicates(clients[1..], gone);
      RetainMembers(clients[1..], gone);
      assert clients[0] !in clients[1..];
      assert clients[0] !in rest;
    }
  }

  /** has_client always says whether the shown list is non-empty. */
  predicate FlagExact(v: Shown) {
    v.hasClient <==> v.clients != []
  }

  lemma ConsumedFlag(v: Shown, e: ServerEvent)
    requires FlagExact(v)
    ensures FlagExact(Consumed(v, e))
  {
    if e.ClientDisconnected? && v.clients == [] {
      assert Retain(v.clients, e.name) == [];
    }
  }

  lemma {:induction false} HasClientExact(acts: seq<Action>)
    ensures FlagExact(Run(STARTED, acts).shown)
  {
    if acts != [] {
      var before := Run(STARTED, acts[..|acts| - 1]);
      HasClientExact(acts[..|acts| - 1]);
      if before.queue != [] {
        ConsumedFlag(before.shown, before.queue[0]);
      }
    }
  }

  predicate InMap(p: Phase) {
    p.Inserted? || p.Live?
  }

  predicate IsAnnounced(p: Phase) {
    p.Live? || p.Dropped?
  }

  predicate Mapped(s: Server, n: Name) {
    exists i :: 0 <= i < |s.handlers| && s.handlers[i].name == n && InMap(s.handlers[i].phase)
  }

  predicate Announced(s: Server, n: Name) {
    exists i :: 0 <= i < |s.handlers| && s.handlers[i].name == n && IsAnnounced(s.handlers[i].phase)
  }

  /** No two handlers that have not finished share a device name. */
  predicate DistinctLive(s: Server) {
    forall i, j :: 0 <= i < j < |s.handlers| && !s.handlers[i].phase.Gone? && !s.handlers[j].phase.Gone? ==>
      s.handlers[i].name != s.handlers[j].name
  }

  ghost predicate Consistent(s: Server) {
    && DistinctLive(s)
    && (forall n :: n in s.clients <==> Mapped(s, n))
    && (forall n :: n in Eventually(s.shown, s.queue).clients <==> Announced(s, n))
    && NoDuplicates(Eventually(s.shown, s.queue).clients)
  }

  /** The environment's part: a name connects again only once its last handler has finished. */
  predicate Fair(s: Server, a: Action) {
    a.Insert? ==> forall i :: 0 <= i < |s.handlers| && !s.handlers[i].phase.Gone? ==> s.handlers[i].name != a.name
  }

  lemma PhaseChange(s: Server, i: nat, p: Phase)
    requires DistinctLive(s) && i < |s.handlers| && !s.handlers[i].phase.Gone?
    ensures var t := SetPhase(s, i, p);
            && DistinctLive(t)
            && (forall n :: Mapped(t, n) <==> if n == s.handlers[i].name then InMap(p) else Mapped(s, n))
            && (forall n :: Announced(t, n) <==> if n == s.handlers[i].name then IsAnnounced(p) else Announced(s, n))
  {
    var t := SetPhase(s, i, p);
    assert t.handlers[i].name == s.handlers[i].name && t.handlers[i].phase == p;
    forall n ensures Mapped(t, n) <==> if n == s.handlers[i].name then InMap(p) else Mapped(s, n) {
      if Mapped(s, n) && n != s.handlers[i].name {
        var j :| 0 <= j < |s.handlers| && s.handlers[j].name == n && InMap(s.handlers[j].phase);
        assert t.handlers[j] == s.handlers[j];
      }
    }
    forall n ensures Announced(t, n) <==> if n == s.handlers[i].name then IsAnnounced(p) else Announced(s, n) {
      if Announced(s, n) && n != s.handlers[i].name {
        var j :| 0 <= j < |s.handlers| && s.handlers[j].name == n && IsAnnounced(s.handlers[j].phase);
        assert t.handlers[j] == s.handlers[j];
      }
    }
  }

  lemma HandlerAdded(s: Server, h: Handler)
    requires DistinctLive(s) && h.phase == Inserted
    requires forall i :: 0 <= i < |s.handlers| && !s.handlers[i].phase.Gone? ==> s.handlers[i].name != h.name
    ensures var t := s.(handlers := s.handlers + [h]);
            && DistinctLive(t)
            && (forall n :: Mapped(t, n) <==> n == h.name || Mapped(s, n))
            && (forall n :: Announced(t, n) <==> Announced(s, n))
  {
    var t := s.(handlers := s.handlers + [h]);
    assert t.handlers[|s.handlers|] == h;
    forall n ensures Mapped(t, n) <==> n == h.name || Mapped(s, n) {
      if j :| 0 <= j < |s.handlers| && s.handlers[j].name == n && InMap(s.handlers[j].phase) {
        assert t.handlers[j] == s.handlers[j];
      }
    }
    forall n ensures Announced(t, n) <==> Announced(s, n) {
      if j :| 0 <= j < |s.handlers| && s.handlers[j].name == n && IsAnnounced(s.handlers[j].phase) {
        assert t.handlers[j] == s.handlers[j];
      }
    }
  }

  lemma OnlyHandlersMatter(s: Server, t: Server)
    requires s.handlers == t.handlers
    ensures DistinctLive(s) == DistinctLive(t)
    ensures forall n :: Mapped(s, n) == Mapped(t, n)
    ensures forall n :: Announced(s, n) == Announced(t, n)
  {
  }

  lemma StepKeeps(s: Server, a: Action)
    requires Consistent(s) && Fair(s, a)
    ensures Consistent(Step(s, a))
  {
    hide Mapped, Announced, DistinctLive, Eventually, Retain;
    var t := Step(s, a);
    match a {
      case Insert(n, e) =>
        HandlerAdded(s, Handler(n, Inserted));
        OnlyHandlersMatter(t, s.(handlers := s.handlers + [Handler(n, Inserted)]));
      case Announce(i) =>
        if InPhase(s, i, Inserted) {
          PhaseChange(s, i, Live);
          OnlyHandlersMatter(t, SetPhase(s, i, Live));
          InsertedIsMapped(s, i);
          InsertedNotAnnounced(s, i);
          EventuallySnoc(s.shown, s.queue, ClientConnected(s.handlers[i].name));
        }
      case Drop(i) =>
        if InPhase(s, i, Live) {
          PhaseChange(s, i, Dropped);
          OnlyHandlersMatter(t, SetPhase(s, i, Dropped));
          LiveIsAnnounced(s, i);
        }
      case Farewell(i) =>
        if InPhase(s, i, Dropped) {
          PhaseChange(s, i, Gone);
          OnlyHandlersMatter(t, SetPhase(s, i, Gone));
          DroppedNotMapped(s, i);
          EventuallySnoc(s.shown, s.queue, ClientDisconnected(s.handlers[i].name));
          RetainMembers(Eventually(s.shown, s.queue).clients, s.handlers[i].name);
          RetainNoDuplicates(Eventually(s.shown, s.queue).clients, s.handlers[i].name);
        }
      case Pair(n) =>
        OnlyHandlersMatter(s, t);
        EventuallySnoc(s.shown, s.queue, ClientPaired(n));
      case Consume =>
        OnlyHandlersMatter(s, t);
        if s.queue != [] {
          EventuallyHead(s.shown, s.queue);
        }
    }
  }

  lemma InsertedIsMapped(s: Server, i: nat)
    requires InPhase(s, i, Inserted)
    ensures Mapped(s, s.handlers[i].name)
  {
  }

  lemma InsertedNotAnnounced(s: Server, i: nat)
    requires InPhase(s, i, Inserted) && DistinctLive(s)
    ensures !Announced(s, s.handlers[i].name)
  {
  }

  lemma LiveIsAnnounced(s: Server, i: nat)
    requires InPhase(s, i, Live)
    ensures Announced(s, s.handlers[i].name)
  {
  }

  lemma DroppedNotMapped(s: Server, i: nat)
    requires InPhase(s, i, Dropped) && DistinctLive(s)
    ensures !Mapped(s, s.handlers[i].name)
  {
  }

  predicate FairRun(s: Server, acts: seq<Action>) {
    forall i :: 0 <= i < |acts| ==> Fair(Run(s, acts[..i]), acts[i])
  }

  lemma {:induction false} RunKeeps(s: Server, acts: seq<Action>)
    requires Consistent(s) && FairRun(s, acts)
    ensures Consistent(Run(s, acts))
  {
    hide Fair, Step, Consistent;
    if acts != [] {
      var n := |acts| - 1;
      FairPrefix(s, acts, n);
      RunKeeps(s, acts[..n]);
      assert Fair(Run(s, acts[..n]), acts[n]);
      StepKeeps(Run(s, acts[..n]), acts[n]);
    }
  }

  lemma FairPrefix(s: Server, acts: seq<Action>, n: nat)
    requires FairRun(s, acts) && n <= |acts|
    ensures FairRun(s, acts[..n])
  {
    hide Fair, Run;
    forall i | 0 <= i < n ensures Fair(Run(s, acts[..n][..i]), acts[..n][i]) {
      assert acts[..n][..i] == acts[..i];
    }
  }

  lemma StartedConsistent()
    ensures Consistent(STARTED)
  {
  }

  /** No handler is between a change of the map and its notification. */
  predicate Quiescent(s: Server) {
    forall i :: 0 <= i < |s.handlers| ==> s.handlers[i].phase.Live? || s.handlers[i].phase.Gone?
  }

  /**
   Connection agreement: at every quiescent point, taking what is still queued would
   make the shown list exactly the keys of the client map, each once; with nothing
   queued, has_client says whether anyone is connected.
   */
  lemma ConnectionAgreement(acts: seq<Action>)
    requires FairRun(STARTED, acts) && Quiescent(Run(STARTED, acts))
    ensures var s := Run(STARTED, acts);
            && (forall n :: n in Eventually(s.shown, s.queue).clients <==> n in s.clients)
            && NoDuplicates(Eventually(s.shown, s.queue).clients)
            && (s.queue == [] ==> (s.shown.hasClient <==> s.clients != map[]))
  {
    hide Run, FairRun;
    StartedConsistent();
    RunKeeps(STARTED, acts);
    HasClientExact(acts);
    var s := Run(STARTED, acts);
    forall n ensures Mapped(s, n) <==> Announced(s, n) {
      SettledPhases(s, n);
    }
    if s.queue == [] {
      assert Eventually(s.shown, s.queue) == s.shown;
      if s.shown.clients != [] {
        assert s.shown.clients[0] in s.clients;
      }
      if n :| n in s.clients {
        assert n in s.shown.clients;
      }
    }
  }

  /**
   When the last client is gone and the consumer has caught up, a capture callback
   driven by has_client keeps nothing from the local machine, whatever the input.
   */
  lemma LastClientReleasesInput(acts: seq<Action>, capture: Capture.Snapshot, inputs: seq<CaptureRuns.Action>)
    requires FairRun(STARTED, acts) && Quiescent(Run(STARTED, acts))
    requires Run(STARTED, acts).queue == [] && Run(STARTED, acts).clients == map[]
    requires capture.hasClient == Run(STARTED, acts).shown.hasClient
    requires forall i :: 0 <= i < |inputs| ==> !inputs[i].SetHasClient?
    ensures forall i :: 0 <= i < |inputs| ==> !CaptureRuns.Suppresses(CaptureRuns.Run(capture, inputs[..i]), inputs[i])
  {
    ConnectionAgreement(acts);
    CaptureRuns.NoClientNoSuppression(capture, inputs);
  }

  // ------------------------------------------------------------------
  // Exactly which reconnections break the agreement
  // ------------------------------------------------------------------

  /** No handler of this device is between a change of the map and its notification. */
  predicate Settled(s: Server, n: Name) {
    forall i :: 0 <= i < |s.handlers| && s.handlers[i].name == n ==>
      s.handlers[i].phase.Live? || s.handlers[i].phase.Gone?
  }

  lemma SettledPhases(s: Server, n: Name)
    requires Settled(s, n)
    ensures Mapped(s, n) <==> Announced(s, n)
  {
  }

  /** The device is shown, or will be, exactly if it is connected. */
  predicate Agrees(s: Server, n: Name) {
    n in Eventually(s.shown, s.queue).clients <==> n in s.clients
  }

  /** Whatever fairly happens next, every device that settles is shown exactly if it is connected. */
  ghost predicate Safe(s: Server) {
    forall acts, n :: FairRun(s, acts) && Settled(Run(s, acts), n) ==> Agrees(Run(s, acts), n)
  }

  lemma ConsistentIsSafe(s: Server)
    requires Consistent(s)
    ensures Safe(s)
  {
    hide Run, FairRun, Eventually, Mapped, Announced, DistinctLive;
    forall acts, n | FairRun(s, acts) && Settled(Run(s, acts), n) ensures Agrees(Run(s, acts), n) {
      RunKeeps(s, acts);
      SettledPhases(Run(s, acts), n);
    }
  }

  /** Two handlers of one device: the old one, and the one that has just inserted it again. */
  ghost predicate Overlapping(s: Server, n: Name, former: nat, newer: nat, p: Phase) {
    && former < newer < |s.handlers|
    && s.handlers[former] == Handler(n, p) && s.handlers[newer] == Handler(n, Inserted)
    && forall i :: 0 <= i < |s.handlers| && i != former && i != newer && s.handlers[i].name == n ==>
         s.handlers[i].phase.Gone?
  }

  lemma {:induction false} RunCons(s: Server, a: Action, acts: seq<Action>)
    ensures Run(s, [a] + acts) == Run(Step(s, a), acts)
  {
    hide Step;
    var all := [a] + acts;
    if acts == [] {
      assert all[..0] == [] && all[0] == a;
      assert Run(s, []) == s;
    } else {
      assert all[..|all| - 1] == [a] + acts[..|acts| - 1];
      RunCons(s, a, acts[..|acts| - 1]);
    }
  }

  lemma RunNone(s: Server)
    ensures Run(s, []) == s
  {
  }

  predicate NoInserts(acts: seq<Action>) {
    forall i :: 0 <= i < |acts| ==> !acts[i].Insert?
  }

  lemma AnnounceShows(s: Server, i: nat)
    requires InPhase(s, i, Inserted)
    ensures var t := Step(s, Announce(i));
            && s.handlers[i].name in Eventually(t.shown, t.queue).clients && t.clients == s.clients
            && t.handlers == s.handlers[i := Handler(s.handlers[i].name, Live)]
  {
    hide Eventually;
    EventuallySnoc(s.shown, s.queue, ClientConnected(s.handlers[i].name));
  }

  lemma FarewellForgets(s: Server, i: nat)
    requires InPhase(s, i, Dropped)
    ensures var t := Step(s, Farewell(i));
            && s.handlers[i].name !in Eventually(t.shown, t.queue).clients && t.clients == s.clients
            && t.handlers == s.handlers[i := Handler(s.handlers[i].name, Gone)]
  {
    hide Eventually, Retain;
    EventuallySnoc(s.shown, s.queue, ClientDisconnected(s.handlers[i].name));
    RetainMembers(Eventually(s.shown, s.queue).clients, s.handlers[i].name);
  }

  /** A late farewell takes the new connection off the list. */
  lemma LateFarewell(s: Server, n: Name, former: nat, newer: nat)
    requires Overlapping(s, n, former, newer, Dropped) && n in s.clients
    ensures var t := Step(Step(s, Announce(newer)), Farewell(former));
            Settled(t, n) && n in t.clients && n !in Eventually(t.shown, t.queue).clients
  {
    hide Step, Eventually;
    AnnounceShows(s, newer);
    FarewellForgets(Step(s, Announce(newer)), former);
  }

  /** A late removal takes the new connection out of the map, and its announcement shows it all the same. */
  lemma LateRemoval(s: Server, n: Name, former: nat, newer: nat)
    requires Overlapping(s, n, former, newer, Live)
    ensures var t := Step(Step(Step(s, Drop(former)), Farewell(former)), Announce(newer));
            Settled(t, n) && n !in t.clients && n in Eventually(t.shown, t.queue).clients
  {
    hide Eventually;
    var t1 := Step(s, Drop(former));
    assert n !in t1.clients && t1.handlers == s.handlers[former := Handler(n, Dropped)];
    FarewellForgets(t1, former);
    AnnounceShows(Step(t1, Farewell(former)), newer);
  }

  /** A continuation of the two handlers alone that settles in disagreement. */
  lemma BreakingContinuation(s: Server, n: Name, former: nat, newer: nat, p: Phase) returns (acts: seq<Action>)
    requires Overlapping(s, n, former, newer, p) && !p.Gone? && n in s.clients
    ensures NoInserts(acts) && Settled(Run(s, acts), n) && !Agrees(Run(s, acts), n)
    decreases p.Inserted?
  {
    hide Step, Eventually, Run, Settled;
    match p {
      case Dropped =>
        acts := [Announce(newer)] + ([Farewell(former)] + []);
        RunCons(s, Announce(newer), [Farewell(former)] + []);
        RunCons(Step(s, Announce(newer)), Farewell(former), []);
        RunNone(Step(Step(s, Announce(newer)), Farewell(former)));
        LateFarewell(s, n, former, newer);
      case Live =>
        var t1 := Step(s, Drop(former));
        acts := [Drop(former)] + ([Farewell(former)] + ([Announce(newer)] + []));
        RunCons(s, Drop(former), [Farewell(former)] + ([Announce(newer)] + []));
        RunCons(t1, Farewell(former), [Announce(newer)] + []);
        RunCons(Step(t1, Farewell(former)), Announce(newer), []);
        RunNone(Step(Step(t1, Farewell(former)), Announce(newer)));
        LateRemoval(s, n, former, newer);
      case Inserted =>
        AnnounceShows(s, former);
        var more := BreakingContinuation(Step(s, Announce(former)), n, former, newer, Live);
        acts := [Announce(former)] + more;
        RunCons(s, Announce(former), more);
    }
  }

  lemma NoInsertsFair(s: Server, acts: seq<Action>)
    requires NoInserts(acts)
    ensures FairRun(s, acts)
  {
    hide Run;
  }

  lemma UnfairOverlaps(s: Server, n: Name, e: ClientEntry, i: nat)
    requires Consistent(s) && i < |s.handlers| && s.handlers[i].name == n && !s.handlers[i].phase.Gone?
    ensures Overlapping(Step(s, Insert(n, e)), n, i, |s.handlers|, s.handlers[i].phase)
    ensures n in Step(s, Insert(n, e)).clients
  {
    hide Mapped, Announced, Eventually;
  }

  /**
   A connecting device keeps the shown list right, whatever follows, if and only if
   its last handler has said farewell: otherwise one of the interleavings of the two
   handlers ends with the device connected and not shown, or shown and not connected.
   */
  lemma ReconnectIff(s: Server, n: Name, e: ClientEntry)
    requires Consistent(s)
    ensures Safe(Step(s, Insert(n, e))) <==> Fair(s, Insert(n, e))
  {
    hide Step, Run, Eventually, Settled, Consistent, Overlapping, FairRun;
    var t := Step(s, Insert(n, e));
    if Fair(s, Insert(n, e)) {
      StepKeeps(s, Insert(n, e));
      ConsistentIsSafe(t);
    } else {
      var i :| 0 <= i < |s.handlers| && !s.handlers[i].phase.Gone? && s.handlers[i].name == n;
      UnfairOverlaps(s, n, e, i);
      var acts := BreakingContinuation(t, n, i, |s.handlers|, s.handlers[i].phase);
      NoInsertsFair(t, acts);
      assert FairRun(t, acts) && Settled(Run(t, acts), n) && !Agrees(Run(t, acts), n);
    }
  }

  lemma FairIffInsertFair(s: Server, a: Action)
    ensures !a.Insert? ==> Fair(s, a)
  {
  }

  /**
   Connection agreement, exactly: in a run every point of which is safe, no device
   reconnected before its last handler finished, and conversely.
   */
  lemma {:induction false} AgreementIff(acts: seq<Action>)
    ensures FairRun(STARTED, acts) <==> forall i :: 0 <= i <= |acts| ==> Safe(Run(STARTED, acts[..i]))
  {
    hide Run, Step, Fair, Safe, Consistent, FairRun;
    if FairRun(STARTED, acts) {
      forall i | 0 <= i <= |acts| ensures Safe(Run(STARTED, acts[..i])) {
        FairPrefix(STARTED, acts, i);
        StartedConsistent();
        RunKeeps(STARTED, acts[..i]);
        ConsistentIsSafe(Run(STARTED, acts[..i]));
      }
    } else {
      var i := FirstUnfair(acts);
      var s := Run(STARTED, acts[..i]);
      StartedConsistent();
      RunKeeps(STARTED, acts[..i]);
      FairIffInsertFair(s, acts[i]);
      ReconnectIff(s, acts[i].name, acts[i].entry);
      RunExtend(STARTED, acts, i);
      assert !Safe(Run(STARTED, acts[..i + 1]));
    }
  }

  lemma RunExtend(s: Server, acts: seq<Action>, i: nat)
    requires i < |acts|
    ensures Run(s, acts[..i + 1]) == Step(Run(s, acts[..i]), acts[i])
  {
    hide Step;
    assert acts[..i + 1][..i] == acts[..i];
  }

  lemma {:induction false} FirstUnfair(acts: seq<Action>) returns (i: nat)
    requires !FairRun(STARTED, acts)
    ensures i < |acts| && FairRun(STARTED, acts[..i]) && !Fair(Run(STARTED, acts[..i]), acts[i])
  {
    hide Run, Fair;
    var n := |acts| - 1;
    if FairRun(STARTED, acts[..n]) {
      i := n;
      assert forall k :: 0 <= k < n ==> acts[..n][..k] == acts[..k] && acts[..n][k] == acts[k];
    } else {
      i := FirstUnfair(acts[..n]);
      assert acts[..n][..i] == acts[..i];
    }
  }

  /** In particular a device whose old handler is still to say farewell. */
  lemma ReconnectCounterexample(n: Name, e: ClientEntry)
    ensures var s := Run(STARTED, [Insert(n, e), Announce(0), Drop(0)]);
            Consistent(s) && !Safe(Step(s, Insert(n, e)))
  {
    hide Step, Run, Safe, Consistent;
    var a0, a1, a2 := Insert(n, e), Announce(0), Drop(0);
    var acts := [a0] + ([a1] + ([a2] + []));
    assert acts == [a0, a1, a2];
    ConnectAndDrop(n, e);
    RunCons(STARTED, a0, [a1] + ([a2] + []));
    RunCons(Step(STARTED, a0), a1, [a2] + []);
    RunCons(Step(Step(STARTED, a0), a1), a2, []);
    RunNone(Step(Step(Step(STARTED, a0), a1), a2));
    StartedConsistent();
    StepKeeps(STARTED, a0);
    StepKeeps(Step(STARTED, a0), a1);
    StepKeeps(Step(Step(STARTED, a0), a1), a2);
    assert Run(STARTED, acts).handlers[0] == Handler(n, Dropped);
    ReconnectIff(Run(STARTED, acts), n, e);
  }

  lemma ConnectAndDrop(n: Name, e: ClientEntry)
    ensures Step(Step(Step(STARTED, Insert(n, e)), Announce(0)), Drop(0))
         == Server(map[], [ClientConnected(n)], Shown([], false), [Handler(n, Dropped)])
  {
    var s1 := Step(STARTED, Insert(n, e));
    assert s1 == Server(map[n := e], [], Shown([], false), [Handler(n, Inserted)]);
    var s2 := Step(s1, Announce(0));
    assert s2 == Server(map[n := e], [ClientConnected(n)], Shown([], false), [Handler(n, Live)]);
  }

  // ------------------------------------------------------------------
  // What the map holds for a device
  // ------------------------------------------------------------------

  /** The screen a device announced when it last connected. */
  function LastEntry(acts: seq<Action>, n: Name): Option<ClientEntry> {
    if acts == [] then None else
      match acts[|acts| - 1]
      case Insert(m, e) => if m == n then Some(e) else LastEntry(acts[..|acts| - 1], n)
      case _ => LastEntry(acts[..|acts| - 1], n)
  }

  /** In every run, a connected device is known with the screen it announced last. */
  lemma {:induction false} EntriesExact(acts: seq<Action>)
    ensures var s := Run(STARTED, acts);
            forall n :: n in s.clients ==> LastEntry(acts, n) == Some(s.clients[n])
  {
    hide Consumed;
    if acts != [] {
      EntriesExact(acts[..|acts| - 1]);
    }
  }

  function Consumes(k: nat): (acts: seq<Action>)
    ensures |acts| == k
  {
    seq(k, _ => Consume)
  }

  /** Left alone, the consumer takes all that is queued, and then shows what was to be shown. */
  lemma {:induction false} DrainedShows(s: Server, k: nat)
    requires k <= |s.queue|
    ensures var t := Run(s, Consumes(k));
            && t.queue == s.queue[k..] && t.shown == Eventually(s.shown, s.queue[..k])
            && t.clients == s.clients && t.handlers == s.handlers
  {
    hide Consumed;
    if k > 0 {
      DrainedShows(s, k - 1);
      assert Consumes(k)[..k - 1] == Consumes(k - 1);
      assert s.queue[..k] == s.queue[..k - 1] + [s.queue[k - 1]];
      EventuallySnoc(s.shown, s.queue[..k - 1], s.queue[k - 1]);
    }
  }

  /** So a server that comes to rest shows exactly the connected devices, each once. */
  lemma RestAgrees(acts: seq<Action>)
    requires FairRun(STARTED, acts) && Quiescent(Run(STARTED, acts))
    ensures var s := Run(STARTED, acts);
            var t := Run(s, Consumes(|s.queue|));
            && t.queue == [] && NoDuplicates(t.shown.clients)
            && forall n :: n in t.shown.clients <==> n in t.clients
  {
    hide Run, Step, Consumed;
    var s := Run(STARTED, acts);
    ConnectionAgreement(acts);
    DrainedShows(s, |s.queue|);
    assert s.queue[..|s.queue|] == s.queue;
  }
}
