/**
 Clipboard sharing as a network: a server (node 0) and its clients, each with a
 clipboard, a monitor, and a queue of suppress signals that its receiving task
 has sent and its monitor has not yet taken.  Parcels arrive in any order.
 */
module EchoNetwork {
  import opened Wrappers
  import opened Protocol
  import opened ClipboardSync
  import opened ClipboardMonitor

  datatype Node = Node(clipboard: Option<ClipboardContent>, monitor: MonitorState, signals: seq<Hash>)

  datatype Parcel = Parcel(dest: nat, content: ClipboardContent)

  /**
   The network, with tallies of what happened so far: user copies, reports and remote
   writes; reports that echoed a remote write; and changes that were given up, because
   the clipboard was overwritten before they were reported or they were none.
   */
  datatype Net = Net(
    nodes: seq<Node>, inFlight: seq<Parcel>,
    copies: nat, emissions: nat, writes: nat, echoes: nat, givenUp: nat)

  datatype Action =
    | UserCopy(node: nat, content: ClipboardContent)
    | Poll(polled: nat, now: nat)
    | Deliver(parcel: nat)
    | Lose(lost: nat)
    | TakeSignal(signalled: nat, takenAt: nat)

  function Start(clipboards: seq<Option<ClipboardContent>>): Net {
    Net(seq(|clipboards|, i requires 0 <= i < |clipboards| => Node(clipboards[i], NEW_MONITOR, [])), [], 0, 0, 0, 0, 0)
  }

  /** The server sends a change to every client, a client only to the server. */
  function Fanout(count: nat, from: nat, c: ClipboardContent): seq<Parcel>
    requires from < count
  {
    if from == 0 then seq(count - 1, j requires 0 <= j < count - 1 => Parcel(j + 1, c)) else [Parcel(0, c)]
  }

  function Without(ps: seq<Parcel>, k: nat): seq<Parcel>
    requires k < |ps|
  {
    ps[..k] + ps[k + 1..]
  }

  /** A remote write and the signal sent right after it. */
  function Written(f: Foreign, n: Node, c: ClipboardContent): Node {
    n.(clipboard := Some(c), signals := n.signals + [ContentHash(f, c)])
  }

  function SignalTaken(n: Node, now: nat): Node
    requires n.signals != []
  {
    n.(monitor := Signalled(n.monitor, n.signals[0], now), signals := n.signals[1..])
  }

  /** The hash the monitor will hold back once all its signals are taken. */
  function EventualRemote(n: Node): Option<Hash> {
    if n.signals == [] then n.monitor.remoteHash else Some(n.signals[|n.signals| - 1])
  }

  /** The node has something on its clipboard that it has neither reported nor got from the network. */
  predicate Dirty(f: Foreign, n: Node) {
    && Readable(n.clipboard).Some?
    && var h := Some(ContentHash(f, Readable(n.clipboard).value));
       n.monitor.lastHash != h && EventualRemote(n) != h
  }

  function Pending(f: Foreign, n: Node): nat {
    if Dirty(f, n) then 1 else 0
  }

  /**
   A poll that will report what the last remote write put on the clipboard: the
   signal of that write is among those its monitor has not taken.
   */
  predicate Echoes(f: Foreign, n: Node, now: nat) {
    && Reports(f, n.monitor, n.clipboard, now)
    && n.signals != [] && n.signals[|n.signals| - 1] == ContentHash(f, Readable(n.clipboard).value)
  }

  function PollNode(f: Foreign, net: Net, i: nat, now: nat): Net
    requires i < |net.nodes|
  {
    var n := net.nodes[i];
    if !Reports(f, n.monitor, n.clipboard, now) then net
    else
      net.(nodes := net.nodes[i := n.(monitor := Polled(f, n.monitor, n.clipboard, now))],
           inFlight := net.inFlight + Fanout(|net.nodes|, i, Readable(n.clipboard).value),
           emissions := net.emissions + 1,
           echoes := net.echoes + if Echoes(f, n, now) then 1 else 0)
  }

  function Step(f: Foreign, net: Net, a: Action): Net {
    match a
    case UserCopy(i, c) =>
      if i < |net.nodes| then
        var n := net.nodes[i].(clipboard := Some(c));
        net.(nodes := net.nodes[i := n], copies := net.copies + 1,
             givenUp := net.givenUp + 1 + Pending(f, net.nodes[i]) - Pending(f, n))
      else net
    case Poll(i, now) =>
      if i < |net.nodes| then PollNode(f, net, i, now) else net
    case Deliver(k) =>
      if k < |net.inFlight| && net.inFlight[k].dest < |net.nodes| then
        var p := net.inFlight[k];
        net.(nodes := net.nodes[p.dest := Written(f, net.nodes[p.dest], p.content)],
             inFlight := Without(net.inFlight, k), writes := net.writes + 1,
             givenUp := net.givenUp + Pending(f, net.nodes[p.dest]))
      else net
    case Lose(k) =>
      if k < |net.inFlight| then net.(inFlight := Without(net.inFlight, k)) else net
    case TakeSignal(i, now) =>
      if i < |net.nodes| && net.nodes[i].signals != [] then
        net.(nodes := net.nodes[i := SignalTaken(net.nodes[i], now)])
      else net
  }

  function Run(f: Foreign, net: Net, acts: seq<Action>): Net {
    if acts == [] then net else Step(f, Run(f, net, acts[..|acts| - 1]), acts[|acts| - 1])
  }

  /** A change goes once to every node its sender is connected to, and never back to the sender. */
  lemma FanoutExact(count: nat, from: nat, c: ClipboardContent)
    requires from < count
    ensures forall p :: p in Fanout(count, from, c) <==>
      p.content == c && p.dest < count && p.dest != from && (from == 0 || p.dest == 0)
    ensures forall i, j :: 0 <= i < j < |Fanout(count, from, c)| ==>
      Fanout(count, from, c)[i] != Fanout(count, from, c)[j]
  {
    forall p: Parcel | p.content == c && p.dest < count && p.dest != from && (from == 0 || p.dest == 0)
      ensures p in Fanout(count, from, c)
    {
      if from == 0 {
        assert Fanout(count, from, c)[p.dest - 1] == p;
      }
    }
  }

  // ------------------------------------------------------------------
  // The balance of reports
  // ------------------------------------------------------------------

  function CountDirty(f: Foreign, nodes: seq<Node>): nat {
    if nodes == [] then 0 else Pending(f, nodes[0]) + CountDirty(f, nodes[1..])
  }

  lemma {:induction false} CountAfterUpdate(f: Foreign, nodes: seq<Node>, i: nat, n: Node)
    requires i < |nodes|
    ensures CountDirty(f, nodes[i := n]) ==
            CountDirty(f, nodes) - Pending(f, nodes[i]) + Pending(f, n)
  {
    hide Pending;
    if i == 0 {
      assert nodes[0 := n][1..] == nodes[1..];
    } else {
      CountAfterUpdate(f, nodes[1..], i - 1, n);
      assert nodes[i := n][1..] == nodes[1..][i - 1 := n];
    }
  }

  lemma WrittenIsClean(f: Foreign, n: Node, c: ClipboardContent)
    ensures !Dirty(f, Written(f, n, c))
  {
  }

  lemma SignalKeepsDirty(f: Foreign, n: Node, now: nat)
    requires n.signals != []
    ensures Dirty(f, SignalTaken(n, now)) == Dirty(f, n)
  {
  }

  lemma ReportingWasDirty(f: Foreign, n: Node, now: nat)
    requires Reports(f, n.monitor, n.clipboard, now)
    ensures Dirty(f, n) <==> !Echoes(f, n, now)
    ensures !Dirty(f, n.(monitor := Polled(f, n.monitor, n.clipboard, now)))
  {
  }

  /** Reports made or still to be expected, and changes given up, less the copies they stem from. */
  function Balance(f: Foreign, net: Net): int {
    net.emissions + CountDirty(f, net.nodes) + net.givenUp - net.copies
  }

  /** A poll that reports tips the balance by one if and only if it echoes; no other poll moves it. */
  lemma PollTipsIffEcho(f: Foreign, net: Net, i: nat, now: nat)
    requires i < |net.nodes|
    ensures Balance(f, PollNode(f, net, i, now)) == Balance(f, net) + if Echoes(f, net.nodes[i], now) then 1 else 0
  {
    hide Dirty, Reports, Polled;
    if Reports(f, net.nodes[i].monitor, net.nodes[i].clipboard, now) {
      var n := net.nodes[i];
      ReportingWasDirty(f, n, now);
      CountAfterUpdate(f, net.nodes, i, n.(monitor := Polled(f, n.monitor, n.clipboard, now)));
    }
  }

  /** Reports come from copies, initial contents and echoes alone: every step keeps the account exactly. */
  lemma StepKeepsBalance(f: Foreign, net: Net, a: Action)
    ensures Balance(f, Step(f, net, a)) - Step(f, net, a).echoes == Balance(f, net) - net.echoes
  {
    hide Dirty, Reports, Written, SignalTaken, Polled, Echoes, Balance;
    match a {
      case UserCopy(i, c) =>
        if i < |net.nodes| {
          CountAfterUpdate(f, net.nodes, i, net.nodes[i].(clipboard := Some(c)));
          BalanceOf(f, net);
          BalanceOf(f, Step(f, net, a));
        }
      case Poll(i, now) =>
        if i < |net.nodes| {
          PollTipsIffEcho(f, net, i, now);
          EchoesReport(f, net.nodes[i], now);
        }
      case Deliver(k) =>
        if k < |net.inFlight| && net.inFlight[k].dest < |net.nodes| {
          var p := net.inFlight[k];
          WrittenIsClean(f, net.nodes[p.dest], p.content);
          CountAfterUpdate(f, net.nodes, p.dest, Written(f, net.nodes[p.dest], p.content));
          BalanceOf(f, net);
          BalanceOf(f, Step(f, net, a));
        }
      case Lose(_) =>
        BalanceOf(f, net);
        BalanceOf(f, Step(f, net, a));
      case TakeSignal(i, now) =>
        BalanceOf(f, net);
        BalanceOf(f, Step(f, net, a));
        if i < |net.nodes| && net.nodes[i].signals != [] {
          SignalKeepsDirty(f, net.nodes[i], now);
          CountAfterUpdate(f, net.nodes, i, SignalTaken(net.nodes[i], now));
        }
    }
  }

  lemma BalanceOf(f: Foreign, net: Net)
    ensures Balance(f, net) == net.emissions + CountDirty(f, net.nodes) + net.givenUp - net.copies
  {
  }

  lemma EchoesReport(f: Foreign, n: Node, now: nat)
    ensures Echoes(f, n, now) ==> Reports(f, n.monitor, n.clipboard, now)
  {
  }

  lemma {:induction false} RunKeepsBalance(f: Foreign, net: Net, acts: seq<Action>)
    ensures Balance(f, Run(f, net, acts)) - Run(f, net, acts).echoes == Balance(f, net) - net.echoes
  {
    hide Step, Balance;
    if acts != [] {
      RunKeepsBalance(f, net, acts[..|acts| - 1]);
      StepKeepsBalance(f, Run(f, net, acts[..|acts| - 1]), acts[|acts| - 1]);
    }
  }

  /** Clipboards with something on them. */
  function NonEmpty(clipboards: seq<Option<ClipboardContent>>): nat {
    if clipboards == [] then 0 else (if Readable(clipboards[0]).Some? then 1 else 0) + NonEmpty(clipboards[1..])
  }

  lemma {:induction false} StartDirty(f: Foreign, clipboards: seq<Option<ClipboardContent>>)
    ensures CountDirty(f, Start(clipboards).nodes) == NonEmpty(clipboards)
  {
    if clipboards != [] {
      StartDirty(f, clipboards[1..]);
      assert Start(clipboards).nodes[1..] == Start(clipboards[1..]).nodes;
    }
  }

  /**
   In every run and any delivery order: the reports made, those still to be expected
   and the changes given up are exactly the user copies, the initially non-empty
   clipboards, and the echoes.
   */
  lemma EmissionBalance(f: Foreign, clipboards: seq<Option<ClipboardContent>>, acts: seq<Action>)
    ensures var end := Run(f, Start(clipboards), acts);
            end.emissions + CountDirty(f, end.nodes) + end.givenUp
            == end.copies + NonEmpty(clipboards) + end.echoes
  {
    RunKeepsBalance(f, Start(clipboards), acts);
    StartDirty(f, clipboards);
  }

  predicate IsEcho(f: Foreign, net: Net, a: Action) {
    a.Poll? && a.polled < |net.nodes| && Echoes(f, net.nodes[a.polled], a.now)
  }

  /** No poll of the run reports what the last remote write left on its clipboard. */
  predicate EchoFree(f: Foreign, net: Net, acts: seq<Action>) {
    forall i :: 0 <= i < |acts| ==> !IsEcho(f, Run(f, net, acts[..i]), acts[i])
  }

  lemma StepCountsEcho(f: Foreign, net: Net, a: Action)
    ensures Step(f, net, a).echoes == net.echoes + if IsEcho(f, net, a) then 1 else 0
  {
  }

  /** The tally of echoes stays where it was if and only if no poll echoes. */
  lemma {:induction false} EchoFreeIff(f: Foreign, net: Net, acts: seq<Action>)
    ensures Run(f, net, acts).echoes >= net.echoes
    ensures EchoFree(f, net, acts) <==> Run(f, net, acts).echoes == net.echoes
  {
    hide Step, IsEcho;
    if acts != [] {
      var n := |acts| - 1;
      EchoFreeIff(f, net, acts[..n]);
      StepCountsEcho(f, Run(f, net, acts[..n]), acts[n]);
      EchoFreeExtend(f, net, acts);
    }
  }

  lemma EchoFreeExtend(f: Foreign, net: Net, acts: seq<Action>)
    requires acts != []
    ensures var n := |acts| - 1;
            EchoFree(f, net, acts) <==> EchoFree(f, net, acts[..n]) && !IsEcho(f, Run(f, net, acts[..n]), acts[n])
  {
    hide Run, IsEcho;
    var n := |acts| - 1;
    assert forall i :: 0 <= i < n ==> acts[..n][..i] == acts[..i] && acts[..n][i] == acts[i];
    if EchoFree(f, net, acts) {
      forall i | 0 <= i < n ensures !IsEcho(f, Run(f, net, acts[..n][..i]), acts[..n][i]) {
        assert !IsEcho(f, Run(f, net, acts[..i]), acts[i]);
      }
    }
    if EchoFree(f, net, acts[..n]) && !IsEcho(f, Run(f, net, acts[..n]), acts[n]) {
      forall i | 0 <= i < |acts| ensures !IsEcho(f, Run(f, net, acts[..i]), acts[i]) {
        if i < n {
          assert !IsEcho(f, Run(f, net, acts[..n][..i]), acts[..n][i]);
        }
      }
    }
  }

  /** Every poll happens after the signals of the remote writes before it. */
  predicate PollsAfterSignals(f: Foreign, net: Net, acts: seq<Action>) {
    forall i :: 0 <= i < |acts| ==> PollIsOrdered(Run(f, net, acts[..i]), acts[i])
  }

  predicate PollIsOrdered(net: Net, a: Action) {
    a.Poll? && a.polled < |net.nodes| ==> net.nodes[a.polled].signals == []
  }

  /** Taking the signals before polling is one way to be free of echoes. */
  lemma OrderedIsEchoFree(f: Foreign, net: Net, acts: seq<Action>)
    requires PollsAfterSignals(f, net, acts)
    ensures EchoFree(f, net, acts)
  {
    hide Run, Reports;
    forall i | 0 <= i < |acts| ensures !IsEcho(f, Run(f, net, acts[..i]), acts[i]) {
      assert PollIsOrdered(Run(f, net, acts[..i]), acts[i]);
    }
  }

  /** Every emission leaves at most one parcel per other node. */
  lemma StepKeepsTraffic(f: Foreign, net: Net, a: Action)
    ensures var next := Step(f, net, a);
            && |next.nodes| == |net.nodes|
            && next.emissions >= net.emissions
            && next.writes + |next.inFlight| - net.writes - |net.inFlight|
               <= (if next.emissions > net.emissions then |net.nodes| - 1 else 0)
            && next.emissions <= net.emissions + 1
            && (|net.nodes| == 0 ==> next.emissions == net.emissions)
  {
  }

  /** Exactly the deliveries of a parcel there is, to a node there is, count as remote writes. */
  lemma WritesCounted(f: Foreign, net: Net, a: Action)
    ensures var delivered := a.Deliver? && a.parcel < |net.inFlight| && net.inFlight[a.parcel].dest < |net.nodes|;
            && Step(f, net, a).writes == net.writes + (if delivered then 1 else 0)
            && (delivered || (a.Lose? && a.lost < |net.inFlight|) ==>
                  |Step(f, net, a).inFlight| == |net.inFlight| - 1)
  {
  }

  lemma {:induction false} TrafficBound(f: Foreign, net: Net, acts: seq<Action>)
    requires |net.nodes| > 0
    ensures var end := Run(f, net, acts);
            && |end.nodes| == |net.nodes| && end.emissions >= net.emissions
            && end.writes + |end.inFlight|
               <= net.writes + |net.inFlight| + (|net.nodes| - 1) * (end.emissions - net.emissions)
  {
    hide Step;
    if acts != [] {
      var before := Run(f, net, acts[..|acts| - 1]);
      TrafficBound(f, net, acts[..|acts| - 1]);
      StepKeepsTraffic(f, before, acts[|acts| - 1]);
    }
  }

  /**
   No clipboard loops: if no poll echoes, reports never exceed user copies plus
   initially non-empty clipboards, and remote writes never exceed that many
   broadcasts, however long the run.
   */
  lemma NoClipboardLoops(f: Foreign, clipboards: seq<Option<ClipboardContent>>, acts: seq<Action>)
    requires clipboards != [] && EchoFree(f, Start(clipboards), acts)
    ensures var end := Run(f, Start(clipboards), acts);
            var budget := end.copies + NonEmpty(clipboards);
            end.emissions <= budget && end.writes <= (|clipboards| - 1) * budget
  {
    hide Run, EchoFree, NonEmpty, CountDirty;
    EmissionBalance(f, clipboards, acts);
    EchoFreeIff(f, Start(clipboards), acts);
    TrafficBound(f, Start(clipboards), acts);
    var end := Run(f, Start(clipboards), acts);
    ScaleUp(|clipboards| - 1, end.emissions, end.copies + NonEmpty(clipboards));
  }

  lemma ScaleUp(k: nat, a: nat, b: nat)
    requires a <= b
    ensures k * a <= k * b
  {
  }

  // ------------------------------------------------------------------
  // How far echoes can go
  // ------------------------------------------------------------------

  lemma {:induction false} RunConcat(f: Foreign, net: Net, a: seq<Action>, b: seq<Action>)
    ensures Run(f, net, a + b) == Run(f, Run(f, net, a), b)
  {
    hide Step;
    if b == [] {
      assert a + b == a;
    } else {
      assert (a + b)[..|a + b| - 1] == a + b[..|b| - 1];
      RunConcat(f, net, a, b[..|b| - 1]);
    }
  }

  lemma RunOne(f: Foreign, net: Net, a: Action)
    ensures Run(f, net, [a]) == Step(f, net, a)
  {
    hide Step;
    assert [a][..0] == [];
  }

  lemma RaceSteps(f: Foreign, c: ClipboardContent)
    requires Readable(Some(c)) == Some(c)
    ensures var s2 := Step(f, Step(f, Start([None, None]), UserCopy(0, c)), Poll(0, 0));
            var end := Step(f, Step(f, s2, Deliver(0)), Poll(1, 1));
            end.copies == 1 && end.emissions == 2 && end.echoes == 1
  {
    hide ContentHash, CountDirty;
    var s2 := Step(f, Step(f, Start([None, None]), UserCopy(0, c)), Poll(0, 0));
    assert s2.inFlight == [Parcel(1, c)] && s2.emissions == 1 && s2.echoes == 0;
    var s3 := Step(f, s2, Deliver(0));
    assert s3.nodes[1] == Node(Some(c), NEW_MONITOR, [ContentHash(f, c)]);
  }

  /** An echo: one copy, and a poll that overtakes the signal of its remote write, make two reports. */
  lemma RaceEchoes(f: Foreign, c: ClipboardContent)
    requires Readable(Some(c)) == Some(c)
    ensures var acts := [UserCopy(0, c), Poll(0, 0), Deliver(0), Poll(1, 1)];
            var end := Run(f, Start([None, None]), acts);
            end.copies == 1 && end.emissions == 2 && end.echoes == 1
  {
    hide Step, Run, Start;
    var a0, a1, a2, a3 := UserCopy(0, c), Poll(0, 0), Deliver(0), Poll(1, 1);
    var s0 := Start([None, None]);
    var s1 := Step(f, s0, a0);
    var s2 := Step(f, s1, a1);
    assert [a0, a1, a2, a3] == [a0] + ([a1] + ([a2] + [a3]));
    RunConcat(f, s0, [a0], [a1] + ([a2] + [a3]));
    RunConcat(f, s1, [a1], [a2] + [a3]);
    RunConcat(f, s2, [a2], [a3]);
    RunOne(f, s0, a0);
    RunOne(f, s1, a1);
    RunOne(f, s2, a2);
    RunOne(f, Step(f, s2, a2), a3);
    RaceSteps(f, c);
  }

  /** The node will report c at its next poll from time t on, and then hold back nothing but c. */
  predicate WillReport(f: Foreign, n: Node, c: ClipboardContent, t: nat) {
    var h := ContentHash(f, c);
    && n.clipboard == Some(c) && Readable(n.clipboard).Some?
    && n.monitor.lastHash != Some(h) && n.monitor.remoteHash != Some(h)
    && (n.monitor.lastRemoteWrite.Some? ==> n.monitor.lastRemoteWrite.value + CLIPBOARD_SUPPRESSION_MS <= t)
    && (n.signals == [h] || (n.signals == [] && n.monitor.remoteHash == None))
  }

  /** A server and a client, each about to report its content to the other. */
  predicate Crossed(f: Foreign, net: Net, x: ClipboardContent, y: ClipboardContent, t: nat) {
    && |net.nodes| == 2 && net.inFlight == []
    && WillReport(f, net.nodes[0], x, t) && WillReport(f, net.nodes[1], y, t)
  }

  /** Both poll just before they take the last signal; then each gets the other's report. */
  function Round(t: nat): seq<Action> {
    [Poll(0, t)] + ([Poll(1, t)] + ([TakeSignal(0, t)] + ([TakeSignal(1, t)] + ([Deliver(0)] + [Deliver(0)]))))
  }

  /** What the polls and the signals of a round do to one node. */
  function Exchanged(f: Foreign, n: Node, now: nat): Node {
    var polled := n.(monitor := Polled(f, n.monitor, n.clipboard, now));
    if polled.signals == [] then polled else SignalTaken(polled, now)
  }

  lemma ExchangedReports(f: Foreign, n: Node, c: ClipboardContent, other: ClipboardContent, t: nat)
    requires WillReport(f, n, c, t) && Readable(Some(other)) == Some(other)
    requires ContentHash(f, c) != ContentHash(f, other)
    ensures Reports(f, n.monitor, n.clipboard, t)
    ensures WillReport(f, Written(f, Exchanged(f, n, t), other), other, t + CLIPBOARD_SUPPRESSION_MS)
  {
    hide ContentHash;
  }

  lemma FirstHalf(f: Foreign, net: Net, x: ClipboardContent, y: ClipboardContent, t: nat)
    requires Crossed(f, net, x, y, t)
    requires Reports(f, net.nodes[0].monitor, net.nodes[0].clipboard, t)
    requires Reports(f, net.nodes[1].monitor, net.nodes[1].clipboard, t)
    ensures var polled := Step(f, Step(f, net, Poll(0, t)), Poll(1, t));
            var mid := Step(f, Step(f, polled, TakeSignal(0, t)), TakeSignal(1, t));
            && mid.nodes == [Exchanged(f, net.nodes[0], t), Exchanged(f, net.nodes[1], t)]
            && mid.inFlight == [Parcel(1, x), Parcel(0, y)]
            && mid.emissions == net.emissions + 2 && mid.copies == net.copies
  {
    hide ContentHash, Reports, Echoes;
    var one := Step(f, net, Poll(0, t));
    assert one.inFlight == [Parcel(1, x)] && one.nodes[1] == net.nodes[1];
    var two := Step(f, one, Poll(1, t));
    assert two.inFlight == [Parcel(1, x), Parcel(0, y)];
  }

  lemma SecondHalf(f: Foreign, net: Net, x: ClipboardContent, y: ClipboardContent)
    requires |net.nodes| == 2 && net.inFlight == [Parcel(1, x), Parcel(0, y)]
    ensures var end := Step(f, Step(f, net, Deliver(0)), Deliver(0));
            && end.nodes == [Written(f, net.nodes[0], y), Written(f, net.nodes[1], x)]
            && end.inFlight == [] && end.emissions == net.emissions && end.copies == net.copies
  {
    hide ContentHash, Dirty;
    var one := Step(f, net, Deliver(0));
    assert one.inFlight == [Parcel(0, y)];
  }

  /** After a round the two nodes have exchanged contents and are about to do it again. */
  lemma RoundRepeats(f: Foreign, net: Net, x: ClipboardContent, y: ClipboardContent, t: nat)
    requires Crossed(f, net, x, y, t) && ContentHash(f, x) != ContentHash(f, y)
    ensures var end := Run(f, net, Round(t));
            && Crossed(f, end, y, x, t + CLIPBOARD_SUPPRESSION_MS)
            && end.emissions == net.emissions + 2 && end.copies == net.copies
  {
    hide Step, Run, ContentHash, Reports, Exchanged, Written;
    ExchangedReports(f, net.nodes[0], x, y, t);
    ExchangedReports(f, net.nodes[1], y, x, t);
    FirstHalf(f, net, x, y, t);
    var one := Step(f, net, Poll(0, t));
    var two := Step(f, one, Poll(1, t));
    var three := Step(f, two, TakeSignal(0, t));
    var four := Step(f, three, TakeSignal(1, t));
    SecondHalf(f, four, x, y);
    var five := Step(f, four, Deliver(0));
    var last := [TakeSignal(1, t)] + ([Deliver(0)] + [Deliver(0)]);
    RunConcat(f, net, [Poll(0, t)], [Poll(1, t)] + ([TakeSignal(0, t)] + last));
    RunConcat(f, one, [Poll(1, t)], [TakeSignal(0, t)] + last);
    RunConcat(f, two, [TakeSignal(0, t)], last);
    RunConcat(f, three, [TakeSignal(1, t)], [Deliver(0)] + [Deliver(0)]);
    RunConcat(f, four, [Deliver(0)], [Deliver(0)]);
    RunOne(f, net, Poll(0, t));
    RunOne(f, one, Poll(1, t));
    RunOne(f, two, TakeSignal(0, t));
    RunOne(f, three, TakeSignal(1, t));
    RunOne(f, four, Deliver(0));
    RunOne(f, five, Deliver(0));
  }

  lemma {:induction false} RoundsRepeat(f: Foreign, net: Net, x: ClipboardContent, y: ClipboardContent, t: nat, n: nat)
    returns (acts: seq<Action>)
    requires Crossed(f, net, x, y, t) && ContentHash(f, x) != ContentHash(f, y)
    ensures var end := Run(f, net, acts);
            end.emissions == net.emissions + 2 * n && end.copies == net.copies
    decreases n
  {
    hide Run, ContentHash, Crossed;
    if n == 0 {
      acts := [];
      RunNone(f, net);
    } else {
      RoundRepeats(f, net, x, y, t);
      var more := RoundsRepeat(f, Run(f, net, Round(t)), y, x, t + CLIPBOARD_SUPPRESSION_MS, n - 1);
      acts := Round(t) + more;
      RunConcat(f, net, Round(t), more);
    }
  }

  lemma RunNone(f: Foreign, net: Net)
    ensures Run(f, net, []) == net
  {
  }

  /**
   Echoes are not bounded: two contents copied at once on two machines can be
   exchanged for ever, if each poll just overtakes the one signal sent before it.
   */
  lemma EchoesUnbounded(f: Foreign, x: ClipboardContent, y: ClipboardContent, n: nat)
    requires Readable(Some(x)).Some? && Readable(Some(y)).Some? && ContentHash(f, x) != ContentHash(f, y)
    ensures exists acts ::
      var end := Run(f, Start([None, None]), acts);
      end.copies == 2 && end.emissions == 2 * n
  {
    hide Run, ContentHash;
    var s0 := Start([None, None]);
    var s1 := Step(f, s0, UserCopy(0, x));
    var s2 := Step(f, s1, UserCopy(1, y));
    assert Crossed(f, s2, x, y, 0);
    var more := RoundsRepeat(f, s2, x, y, 0, n);
    var acts := [UserCopy(0, x)] + ([UserCopy(1, y)] + more);
    RunConcat(f, s0, [UserCopy(0, x)], [UserCopy(1, y)] + more);
    RunConcat(f, s1, [UserCopy(1, y)], more);
    RunOne(f, s0, UserCopy(0, x));
    RunOne(f, s1, UserCopy(1, y));
    assert Run(f, s0, acts).copies == 2;
  }

  // ------------------------------------------------------------------
  // A single content
  // ------------------------------------------------------------------

  /** Whatever is readable there hashes to h. */
  predicate Only(f: Foreign, clipboard: Option<ClipboardContent>, h: Hash) {
    Readable(clipboard).Some? ==> ContentHash(f, Readable(clipboard).value) == h
  }

  function Told(n: Node, h: Hash): nat {
    if n.monitor.lastHash == Some(h) then 1 else 0
  }

  /** How many nodes have reported h. */
  function CountTold(nodes: seq<Node>, h: Hash): (k: nat)
    ensures k <= |nodes|
  {
    if nodes == [] then 0 else Told(nodes[0], h) + CountTold(nodes[1..], h)
  }

  lemma {:induction false} ToldAfterUpdate(nodes: seq<Node>, i: nat, n: Node, h: Hash)
    requires i < |nodes|
    ensures CountTold(nodes[i := n], h) == CountTold(nodes, h) - Told(nodes[i], h) + Told(n, h)
  {
    if i == 0 {
      assert nodes[0 := n][1..] == nodes[1..];
    } else {
      ToldAfterUpdate(nodes[1..], i - 1, n, h);
      assert nodes[i := n][1..] == nodes[1..][i - 1 := n];
    }
  }

  predicate SingleContent(f: Foreign, net: Net, h: Hash) {
    && (forall n :: n in net.nodes ==> Only(f, n.clipboard, h))
    && (forall p :: p in net.inFlight ==> Only(f, Some(p.content), h))
    && net.emissions == CountTold(net.nodes, h)
  }

  lemma NodesKeepOnly(f: Foreign, nodes: seq<Node>, i: nat, n: Node, h: Hash)
    requires i < |nodes| && Only(f, n.clipboard, h) && forall m :: m in nodes ==> Only(f, m.clipboard, h)
    ensures forall m :: m in nodes[i := n] ==> Only(f, m.clipboard, h)
  {
    hide Only;
    forall m | m in nodes[i := n] ensures Only(f, m.clipboard, h) {
      assert m == n || m in nodes;
    }
  }

  lemma StepKeepsSingle(f: Foreign, net: Net, a: Action, h: Hash)
    requires SingleContent(f, net, h) && (a.UserCopy? ==> Only(f, Some(a.content), h))
    ensures SingleContent(f, Step(f, net, a), h)
  {
    hide ContentHash, Suppressed, Dirty, CountTold;
    match a {
      case UserCopy(i, c) =>
        if i < |net.nodes| {
          var n := net.nodes[i].(clipboard := Some(c));
          NodesKeepOnly(f, net.nodes, i, n, h);
          ToldAfterUpdate(net.nodes, i, n, h);
        }
      case Poll(i, now) =>
        if i < |net.nodes| && Reports(f, net.nodes[i].monitor, net.nodes[i].clipboard, now) {
          var n := net.nodes[i].(monitor := Polled(f, net.nodes[i].monitor, net.nodes[i].clipboard, now));
          assert net.nodes[i] in net.nodes;
          NodesKeepOnly(f, net.nodes, i, n, h);
          ToldAfterUpdate(net.nodes, i, n, h);
          FanoutExact(|net.nodes|, i, Readable(n.clipboard).value);
        }
      case Deliver(k) =>
        if k < |net.inFlight| && net.inFlight[k].dest < |net.nodes| {
          var p := net.inFlight[k];
          var n := Written(f, net.nodes[p.dest], p.content);
          assert p in net.inFlight;
          NodesKeepOnly(f, net.nodes, p.dest, n, h);
          ToldAfterUpdate(net.nodes, p.dest, n, h);
        }
      case Lose(_) =>
      case TakeSignal(i, now) =>
        if i < |net.nodes| && net.nodes[i].signals != [] {
          assert net.nodes[i] in net.nodes;
          NodesKeepOnly(f, net.nodes, i, SignalTaken(net.nodes[i], now), h);
          ToldAfterUpdate(net.nodes, i, SignalTaken(net.nodes[i], now), h);
        }
    }
  }

  lemma {:induction false} RunKeepsSingle(f: Foreign, net: Net, acts: seq<Action>, h: Hash)
    requires SingleContent(f, net, h)
    requires forall a :: a in acts && a.UserCopy? ==> Only(f, Some(a.content), h)
    ensures SingleContent(f, Run(f, net, acts), h)
    ensures |Run(f, net, acts).nodes| == |net.nodes|
  {
    hide Step, SingleContent, Only;
    if acts != [] {
      var front, last := acts[..|acts| - 1], acts[|acts| - 1];
      assert last in acts;
      RunKeepsSingle(f, net, front, h);
      StepKeepsSingle(f, Run(f, net, front), last, h);
      StepKeepsTraffic(f, Run(f, net, front), last);
    }
  }

  lemma {:induction false} NobodyTold(clipboards: seq<Option<ClipboardContent>>, h: Hash)
    ensures CountTold(Start(clipboards).nodes, h) == 0
  {
    if clipboards != [] {
      NobodyTold(clipboards[1..], h);
      assert Start(clipboards).nodes[1..] == Start(clipboards[1..]).nodes;
    }
  }

  /**
   A single content dies out on its own, whatever overtakes what: if all that is ever
   on a clipboard has one hash, each node reports it once at most.
   */
  lemma SingleContentBound(f: Foreign, clipboards: seq<Option<ClipboardContent>>, acts: seq<Action>, h: Hash)
    requires forall c :: c in clipboards ==> Only(f, c, h)
    requires forall a :: a in acts && a.UserCopy? ==> Only(f, Some(a.content), h)
    ensures Run(f, Start(clipboards), acts).emissions <= |clipboards|
  {
    hide Run, Only;
    NobodyTold(clipboards, h);
    forall n | n in Start(clipboards).nodes ensures Only(f, n.clipboard, h) {
      assert n.clipboard in clipboards;
    }
    RunKeepsSingle(f, Start(clipboards), acts, h);
  }
}
