/**
 What every run of the capture callback keeps.  A run interleaves input events
 with exit requests and changes of the client's presence, in any order.
 */
module CaptureRuns {
  import opened Wrappers
  import opened Capture

  datatype Action = Input(event: Event) | RequestExit | SetHasClient(present: bool)

  function Act(s: Snapshot, a: Action): Snapshot {
    match a
    case Input(e) => Step(s, e).next
    case RequestExit => s.(exitRemote := true)
    case SetHasClient(b) => s.(hasClient := b)
  }

  /** The state after a run; the last action is applied last. */
  function Run(s: Snapshot, acts: seq<Action>): Snapshot {
    if acts == [] then s else Act(Run(s, acts[..|acts| - 1]), acts[|acts| - 1])
  }

  lemma RunExtend(s: Snapshot, acts: seq<Action>, i: nat)
    requires i < |acts|
    ensures Run(s, acts[..i + 1]) == Act(Run(s, acts[..i]), acts[i])
  {
    assert acts[..i + 1][..i] == acts[..i];
  }

  /** Running a list of actions after another. */
  lemma {:induction false} RunConcat(s: Snapshot, a: seq<Action>, b: seq<Action>)
    ensures Run(s, a + b) == Run(Run(s, a), b)
  {
    if b == [] {
      assert a + b == a;
    } else {
      assert (a + b)[..|a + b| - 1] == a + b[..|b| - 1];
      RunConcat(s, a, b[..|b| - 1]);
    }
  }

  // ------------------------------------------------------------------
  // Pass-through and forwarding
  // ------------------------------------------------------------------

  /** What one action adds to the attempted output. */
  function EmittedBy(s: Snapshot, a: Action): seq<Forwarded> {
    if a.Input? then Step(s, a.event).output else []
  }

  lemma ActAppends(s: Snapshot, a: Action)
    ensures Act(s, a).sent == s.sent + EmittedBy(s, a)
  {
  }

  function Emitted(s: Snapshot, acts: seq<Action>): seq<Forwarded> {
    if acts == [] then [] else
      Emitted(s, acts[..|acts| - 1]) + EmittedBy(Run(s, acts[..|acts| - 1]), acts[|acts| - 1])
  }

  lemma {:induction false} SentIsEmitted(s: Snapshot, acts: seq<Action>)
    ensures Run(s, acts).sent == s.sent + Emitted(s, acts)
  {
    if acts != [] {
      SentIsEmitted(s, acts[..|acts| - 1]);
      ActAppends(Run(s, acts[..|acts| - 1]), acts[|acts| - 1]);
    }
  }

  lemma {:induction false} EmittedConcat(s: Snapshot, a: seq<Action>, b: seq<Action>)
    ensures Emitted(s, a + b) == Emitted(s, a) + Emitted(Run(s, a), b)
  {
    hide Step, EmittedBy;
    if b == [] {
      assert a + b == a;
    } else {
      var front := b[..|b| - 1];
      assert (a + b)[..|a + b| - 1] == a + front;
      EmittedConcat(s, a, front);
      RunConcat(s, a, front);
    }
  }

  /** The step's event is kept from the local machine. */
  predicate Suppresses(s: Snapshot, a: Action) {
    a.Input? && !Step(s, a.event).passed
  }

  /** A local callback that switches to remote mode. */
  predicate Crosses(s: Snapshot, a: Action) {
    a.Input? && !ExitCheck(s).isRemote && Act(s, a).isRemote
  }

  /** The events that are suppressed without anything to forward. */
  predicate SilentlySwallowed(s: Snapshot, e: Event) {
    match e
    case MouseMove(x, y) => ExitCheck(s).isRemote && DeltaX(s, x) == 0 && DeltaY(s, y) == 0
    case ButtonPress(b) => b.OtherButton?
    case ButtonRelease(b) => b.OtherButton?
    case _ => false
  }

  /** One step either passes its event on, or keeps it and forwards at most one. */
  lemma StepPartition(s: Snapshot, e: Event)
    ensures Step(s, e).passed ==> EmittedBy(s, Input(e)) == []
    ensures !Step(s, e).passed <==> Step(s, e).next.isRemote
    ensures !Step(s, e).passed ==> s.hasClient
    ensures !Step(s, e).passed ==> |EmittedBy(s, Input(e))| == if SilentlySwallowed(s, e) then 0 else 1
  {
  }

  /** The event a forwarded button, key or wheel message stands for. */
  function Meaning(f: Forwarded): Option<Event> {
    match f
    case MouseButton(b, down) =>
      var button := match b case Left => LeftButton case Right => RightButton case Middle => MiddleButton;
      Some(if down then ButtonPress(button) else ButtonRelease(button))
    case Key(k, down) => Some(if down then KeyPress(k) else KeyRelease(k))
    case Scroll(dx, dy) => Some(Wheel(dx, dy))
    case MouseDelta(_, _) => None
    case BoundaryEnter(_, _) => None
  }

  /** What is forwarded for a button, key or wheel event can be read back as that event. */
  lemma ForwardedFaithfully(s: Snapshot, e: Event)
    requires !e.MouseMove? && !Step(s, e).passed && !SilentlySwallowed(s, e)
    ensures |EmittedBy(s, Input(e))| == 1 && Meaning(EmittedBy(s, Input(e))[0]) == Some(e)
  {
  }

  /** Number of suppressed events of a run that had something to forward. */
  function ForwardingSuppressions(s: Snapshot, acts: seq<Action>): nat {
    if acts == [] then 0 else
      var before := Run(s, acts[..|acts| - 1]);
      var last := acts[|acts| - 1];
      ForwardingSuppressions(s, acts[..|acts| - 1]) +
      if Suppresses(before, last) && !SilentlySwallowed(before, last.event) then 1 else 0
  }

  /** Over a run, there are as many emissions as forwarding suppressions; step by step each is of one event. */
  lemma {:induction false} RunPartition(s: Snapshot, acts: seq<Action>)
    ensures |Run(s, acts).sent| == |s.sent| + ForwardingSuppressions(s, acts)
  {
    if acts != [] {
      RunPartition(s, acts[..|acts| - 1]);
      var last := acts[|acts| - 1];
      if last.Input? {
        StepPartition(Run(s, acts[..|acts| - 1]), last.event);
      }
    }
  }

  lemma ActWithoutClient(s: Snapshot, a: Action)
    requires !s.hasClient && a != SetHasClient(true)
    ensures !Suppresses(s, a) && !Act(s, a).hasClient && Act(s, a).sent == s.sent
  {
    ActAppends(s, a);
  }

  /** Once the client is gone nothing is suppressed or sent until one comes back. */
  lemma {:induction false} NoClientNoSuppression(s: Snapshot, acts: seq<Action>)
    requires !s.hasClient
    requires forall i :: 0 <= i < |acts| ==> acts[i] != SetHasClient(true)
    ensures forall i :: 0 <= i < |acts| ==> !Suppresses(Run(s, acts[..i]), acts[i])
    ensures Run(s, acts).sent == s.sent && !Run(s, acts).hasClient
  {
    hide Step;
    if acts != [] {
      var front := acts[..|acts| - 1];
      NoClientNoSuppression(s, front);
      ActWithoutClient(Run(s, front), acts[|acts| - 1]);
      forall i | 0 <= i < |acts|
        ensures !Suppresses(Run(s, acts[..i]), acts[i])
      {
        if i < |front| {
          assert acts[..i] == front[..i] && acts[i] == front[i];
        }
      }
    }
  }

  // ------------------------------------------------------------------
  // Where the first session begins
  // ------------------------------------------------------------------

  /** Whether a client is there after a run, from the run alone. */
  function Present(acts: seq<Action>): bool {
    if acts == [] then false else
      match acts[|acts| - 1]
      case SetHasClient(b) => b
      case _ => Present(acts[..|acts| - 1])
  }

  /** Whether an exit was requested since the last event. */
  function Requested(acts: seq<Action>): bool {
    if acts == [] then false else
      match acts[|acts| - 1]
      case RequestExit => true
      case Input(_) => false
      case SetHasClient(_) => Requested(acts[..|acts| - 1])
  }

  /** The last reported position. */
  function LastReport(acts: seq<Action>): Option<(int, int)> {
    if acts == [] then None else
      match acts[|acts| - 1]
      case Input(MouseMove(x, y)) => Some((x, y))
      case _ => LastReport(acts[..|acts| - 1])
  }

  lemma ActRemembers(s: Snapshot, a: Action)
    ensures var t := Act(s, a);
            && t.width == s.width && t.height == s.height
            && t.hasClient == (if a.SetHasClient? then a.present else s.hasClient)
            && t.exitRemote == (if a.RequestExit? then true else if a.Input? then false else s.exitRemote)
            && (if a.Input? && a.event.MouseMove?
                then t.prevInitialized && t.prevX == a.event.x && t.prevY == a.event.y
                else t.prevInitialized == s.prevInitialized && t.prevX == s.prevX && t.prevY == s.prevY)
  {
  }

  /** What the callback remembers of a run is what the run says. */
  lemma {:induction false} StateOfRun(width: nat, height: nat, acts: seq<Action>)
    ensures var s := Run(Initial(width, height), acts);
            && s.width == width && s.height == height
            && s.hasClient == Present(acts) && s.exitRemote == Requested(acts)
            && (s.prevInitialized <==> LastReport(acts).Some?)
            && (s.prevInitialized ==> LastReport(acts) == Some((s.prevX, s.prevY)))
  {
    hide Act;
    if acts != [] {
      StateOfRun(width, height, acts[..|acts| - 1]);
      ActRemembers(Run(Initial(width, height), acts[..|acts| - 1]), acts[|acts| - 1]);
    }
  }

  /** A report on the last column or beyond, made while a client is there. */
  predicate ReachesEdge(acts: seq<Action>, i: nat, width: nat)
    requires i < |acts|
  {
    match acts[i]
    case Input(MouseMove(x, _)) => x >= width - 1 && Present(acts[..i])
    case _ => false
  }

  /** Until such a report the callback is local, its cursor where the last report was. */
  lemma LocalStep(s: Snapshot, a: Action)
    requires !s.isRemote && (s.prevInitialized ==> s.posX == s.prevX)
    requires a.Input? && a.event.MouseMove? ==> 0 <= a.event.x <= s.width
    ensures var reaches := a.Input? && a.event.MouseMove? && a.event.x >= s.width - 1 && s.hasClient;
            && (Crosses(s, a) <==> reaches) && (Suppresses(s, a) <==> reaches)
            && var t := Act(s, a);
               !reaches ==> !t.isRemote && (t.prevInitialized ==> t.posX == t.prevX)
  {
  }

  lemma {:induction false} LocalUntilEdge(width: nat, height: nat, acts: seq<Action>, i: nat)
    requires i <= |acts| && ReportsOnScreen(acts, width, height)
    requires forall j :: 0 <= j < i ==> !ReachesEdge(acts, j, width)
    ensures var s := Run(Initial(width, height), acts[..i]);
            !s.isRemote && (s.prevInitialized ==> s.posX == s.prevX)
    ensures forall j :: 0 <= j < i ==> !Suppresses(Run(Initial(width, height), acts[..j]), acts[j])
  {
    hide Step, Act, Crosses, Suppresses;
    if i > 0 {
      LocalUntilEdge(width, height, acts, i - 1);
      var s := Run(Initial(width, height), acts[..i - 1]);
      StateOfRun(width, height, acts[..i - 1]);
      RunExtend(Initial(width, height), acts, i - 1);
      assert !ReachesEdge(acts, i - 1, width);
      LocalStep(s, acts[i - 1]);
    }
  }

  /**
   Where the first session begins, in reports and presence alone: with reports on the
   screen, at the first report on the last column while a client is there; everything
   before it is passed on.
   */
  lemma FirstSession(width: nat, height: nat, acts: seq<Action>, i: nat)
    requires i < |acts| && ReportsOnScreen(acts, width, height)
    requires forall j :: 0 <= j < i ==> !ReachesEdge(acts, j, width)
    ensures StartsSession(Initial(width, height), acts, i) <==> ReachesEdge(acts, i, width)
    ensures Suppresses(Run(Initial(width, height), acts[..i]), acts[i]) <==> ReachesEdge(acts, i, width)
    ensures forall j :: 0 <= j < i ==> !Suppresses(Run(Initial(width, height), acts[..j]), acts[j])
  {
    hide Step, Act, Crosses, Suppresses, Run;
    LocalUntilEdge(width, height, acts, i);
    StateOfRun(width, height, acts[..i]);
    LocalStep(Run(Initial(width, height), acts[..i]), acts[i]);
  }

  // ------------------------------------------------------------------
  // Why a session ends
  // ------------------------------------------------------------------

  /** Action i of the run is an event that ends a remote session. */
  predicate EndsSession(s: Snapshot, acts: seq<Action>, i: nat)
    requires i < |acts|
  {
    acts[i].Input? && Exits(Run(s, acts[..i]))
  }

  /** The callback stays in the session it is in: no event of the run ends it. */
  ghost predicate StaysRemote(s: Snapshot, acts: seq<Action>) {
    s.isRemote && forall i :: 0 <= i < |acts| ==> !EndsSession(s, acts, i)
  }

  lemma StaysRemotePrefix(s: Snapshot, acts: seq<Action>, n: nat)
    requires StaysRemote(s, acts) && n <= |acts|
    ensures StaysRemote(s, acts[..n])
  {
    forall i | 0 <= i < n ensures !EndsSession(s, acts[..n], i) {
      assert acts[..n][..i] == acts[..i];
      assert !EndsSession(s, acts, i);
    }
  }

  predicate StartsSession(s: Snapshot, acts: seq<Action>, i: nat)
    requires i < |acts|
  {
    Crosses(Run(s, acts[..i]), acts[i])
  }

  /** Action k starts the session that is still open just before action i. */
  ghost predicate OpenSince(s: Snapshot, acts: seq<Action>, k: nat, i: nat)
    requires k < i <= |acts|
  {
    && StartsSession(s, acts, k)
    && forall j :: k < j < i ==> !StartsSession(s, acts, j) && !EndsSession(s, acts, j)
  }

  /** How one action can leave the callback remote, and with an exit request pending. */
  lemma ActKeepsRemote(s: Snapshot, a: Action)
    requires Act(s, a).isRemote && !Crosses(s, a)
    ensures s.isRemote && !(a.Input? && Exits(s))
    ensures Act(s, a).exitRemote ==> a == RequestExit || s.exitRemote
  {
  }

  lemma CrossingConsumesRequest(s: Snapshot, a: Action)
    requires Crosses(s, a)
    ensures !Act(s, a).exitRemote
  {
  }

  lemma {:induction false} RemoteHasOpenSession(s: Snapshot, acts: seq<Action>, i: nat) returns (k: nat)
    requires i <= |acts| && !s.isRemote && Run(s, acts[..i]).isRemote
    ensures k < i && OpenSince(s, acts, k, i)
    ensures Run(s, acts[..i]).exitRemote ==> exists j :: k < j < i && acts[j] == RequestExit
    decreases i
  {
    hide Step;
    RunExtend(s, acts, i - 1);
    if StartsSession(s, acts, i - 1) {
      k := i - 1;
      CrossingConsumesRequest(Run(s, acts[..i - 1]), acts[i - 1]);
    } else {
      ActKeepsRemote(Run(s, acts[..i - 1]), acts[i - 1]);
      k := RemoteHasOpenSession(s, acts, i - 1);
    }
  }

  /**
   Every session ends because the client was gone at that event, or because an
   exit was requested after that very session began.  In particular a request
   raised while local never ends a later session.
   */
  lemma SessionEndAttribution(s: Snapshot, acts: seq<Action>, i: nat)
    requires !s.isRemote && i < |acts| && EndsSession(s, acts, i)
    ensures !Run(s, acts[..i]).hasClient
         || exists k, j :: 0 <= k < j < i && OpenSince(s, acts, k, i) && acts[j] == RequestExit
  {
    var k := RemoteHasOpenSession(s, acts, i);
    if Run(s, acts[..i]).hasClient {
      var j :| k < j < i && acts[j] == RequestExit;
    }
  }

  // ------------------------------------------------------------------
  // Grammar and telescoping of the attempted output
  // ------------------------------------------------------------------

  /** Total movement forwarded by one block of output. */
  datatype Displacement = Displacement(dx: int, dy: int)

  /**
   Reads an output stream as a sequence of blocks, each one BoundaryEnter followed
   by remote input, and sums each block's deltas.  `None` on any other shape.
   */
  function Blocks(out: seq<Forwarded>): Option<seq<Displacement>> {
    if out == [] then Some([]) else
      match Blocks(out[..|out| - 1])
      case None => None
      case Some(bs) =>
        match out[|out| - 1]
        case BoundaryEnter(_, _) => Some(bs + [Displacement(0, 0)])
        case MouseDelta(dx, dy) =>
          if bs == [] then None else
            Some(bs[|bs| - 1 := Displacement(bs[|bs| - 1].dx + dx, bs[|bs| - 1].dy + dy)])
        case _ => if bs == [] then None else Some(bs)
  }

  /** A session seen from the reports alone: where it was entered, and the last report in it. */
  datatype Session = Session(entryX: int, entryY: int, lastX: int, lastY: int)

  /** How one action changes the session list: a crossing opens one, a suppressed move extends it. */
  function NextSessions(before: Snapshot, ss: seq<Session>, a: Action): seq<Session> {
    if !a.Input? || !a.event.MouseMove? then ss
    else if Crosses(before, a) then
      ss + [Session(a.event.x, a.event.y, a.event.x, a.event.y)]
    else if Suppresses(before, a) && ss != [] then
      ss[|ss| - 1 := ss[|ss| - 1].(lastX := a.event.x, lastY := a.event.y)]
    else ss
  }

  function Sessions(s: Snapshot, acts: seq<Action>): seq<Session> {
    if acts == [] then [] else
      NextSessions(Run(s, acts[..|acts| - 1]), Sessions(s, acts[..|acts| - 1]), acts[|acts| - 1])
  }

  function Displacements(ss: seq<Session>): seq<Displacement> {
    seq(|ss|, i requires 0 <= i < |ss| => Displacement(ss[i].lastX - ss[i].entryX, ss[i].lastY - ss[i].entryY))
  }

  lemma {:induction false} SessionsTrackReports(s: Snapshot, acts: seq<Action>)
    requires !s.isRemote
    ensures var e := Run(s, acts);
            e.isRemote ==>
              var ss := Sessions(s, acts);
              ss != [] && e.prevInitialized && ss[|ss| - 1].lastX == e.prevX && ss[|ss| - 1].lastY == e.prevY
  {
    if acts != [] {
      SessionsTrackReports(s, acts[..|acts| - 1]);
    }
  }

  /** One more suppressed move of an open session, in both readings of the output. */
  lemma MoveExtendsBlock(out: seq<Forwarded>, ss: seq<Session>, dx: int, dy: int, x: int, y: int)
    requires ss != [] && Blocks(out) == Some(Displacements(ss))
    requires dx == x - ss[|ss| - 1].lastX && dy == y - ss[|ss| - 1].lastY
    ensures var moved := ss[|ss| - 1 := ss[|ss| - 1].(lastX := x, lastY := y)];
            && Blocks(out + [MouseDelta(dx, dy)]) == Some(Displacements(moved))
            && (dx == dy == 0 ==> Displacements(moved) == Displacements(ss))
  {
    var moved := ss[|ss| - 1 := ss[|ss| - 1].(lastX := x, lastY := y)];
    var longer := out + [MouseDelta(dx, dy)];
    assert longer[..|longer| - 1] == out;
    assert Blocks(longer).value == Displacements(moved);
  }

  lemma EnterOpensBlock(out: seq<Forwarded>, ss: seq<Session>, x: int, y: int, enterY: int)
    requires Blocks(out) == Some(Displacements(ss))
    ensures Blocks(out + [BoundaryEnter(ENTER_X, enterY)]) == Some(Displacements(ss + [Session(x, y, x, y)]))
  {
    var longer := out + [BoundaryEnter(ENTER_X, enterY)];
    assert longer[..|longer| - 1] == out;
    assert Blocks(longer).value == Displacements(ss + [Session(x, y, x, y)]);
  }

  lemma SuppressedMove(s: Snapshot, e: Event)
    requires e.MouseMove? && Suppresses(s, Input(e)) && !Crosses(s, Input(e))
    ensures s.isRemote
    ensures Act(s, Input(e)).sent == s.sent + MoveOutput(DeltaX(s, e.x), DeltaY(s, e.y))
  {
  }

  lemma ActionKeepsBlocks(before: Snapshot, ss: seq<Session>, a: Action)
    requires Blocks(before.sent) == Some(Displacements(ss))
    requires before.isRemote ==>
               && ss != [] && before.prevInitialized
               && ss[|ss| - 1].lastX == before.prevX && ss[|ss| - 1].lastY == before.prevY
    ensures Blocks(Act(before, a).sent) == Some(Displacements(NextSessions(before, ss, a)))
  {
    var out := Act(before, a).sent;
    if a.Input? && a.event.MouseMove? {
      var x, y := a.event.x, a.event.y;
      if Crosses(before, a) {
        EnterOpensBlock(before.sent, ss, x, y, Act(before, a).posY);
        assert out == before.sent + [BoundaryEnter(ENTER_X, Act(before, a).posY)];
      } else if Suppresses(before, a) {
        SuppressedMove(before, a.event);
        var dx, dy := DeltaX(before, x), DeltaY(before, y);
        MoveExtendsBlock(before.sent, ss, dx, dy, x, y);
        assert dx == dy == 0 ==> out == before.sent;
      } else {
        assert out == before.sent;
      }
    } else {
      assert out == before.sent || out[..|out| - 1] == before.sent;
    }
  }

  /** The output of any run parses, and its blocks' sums are the sessions' report differences. */
  lemma {:induction false} OutputTelescopes(width: nat, height: nat, acts: seq<Action>)
    ensures Blocks(Run(Initial(width, height), acts).sent)
         == Some(Displacements(Sessions(Initial(width, height), acts)))
  {
    var s := Initial(width, height);
    if acts == [] {
      assert Displacements([]) == [];
    } else {
      var front := acts[..|acts| - 1];
      OutputTelescopes(width, height, front);
      SessionsTrackReports(s, front);
      ActionKeepsBlocks(Run(s, front), Sessions(s, front), acts[|acts| - 1]);
    }
  }

  predicate ReportsOnScreen(acts: seq<Action>, width: nat, height: nat) {
    forall i :: 0 <= i < |acts| && acts[i].Input? && acts[i].event.MouseMove? ==>
      0 <= acts[i].event.x <= width && 0 <= acts[i].event.y <= height
  }

  lemma {:induction false} SessionsOnScreen(s: Snapshot, acts: seq<Action>)
    requires ReportsOnScreen(acts, s.width, s.height)
    ensures forall i :: 0 <= i < |Sessions(s, acts)| ==>
      var t := Sessions(s, acts)[i];
      0 <= t.entryX <= s.width && 0 <= t.lastX <= s.width && 0 <= t.entryY <= s.height && 0 <= t.lastY <= s.height
  {
    if acts != [] {
      assert acts[|acts| - 1] == acts[|acts| - 1];
      SessionsOnScreen(s, acts[..|acts| - 1]);
    }
  }

  /** No block ever moves the client's cursor by more than one server screen. */
  lemma BlocksWithinScreen(width: nat, height: nat, acts: seq<Action>)
    requires ReportsOnScreen(acts, width, height)
    ensures Blocks(Run(Initial(width, height), acts).sent).Some?
    ensures forall i :: 0 <= i < |Blocks(Run(Initial(width, height), acts).sent).value| ==>
      var d := Blocks(Run(Initial(width, height), acts).sent).value[i];
      Abs(d.dx) <= width && Abs(d.dy) <= height
  {
    OutputTelescopes(width, height, acts);
    SessionsOnScreen(Initial(width, height), acts);
  }
}
