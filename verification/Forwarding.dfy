/**
 What the server captures, on its way to the client: to_message
 (crates/ss-input/src/warp_capture.rs), the forwarding task and the client's
 injection task (src/main.rs), with BoundaryEnter on the control channel and all
 other input on the data channel, each as bytes.
 */
module Forwarding {
  import opened Wrappers
  import opened Capture
  import opened CaptureRuns
  import opened ClientCursor
  import opened ServerClientSession
  import Float32
  import Framing
  import B = Bytes
  import Protocol

  type Message = Protocol.Message
  type Octet = B.Byte

  predicate IsExact(n: int) {
    -Float32.EXACT_LIMIT < n < Float32.EXACT_LIMIT
  }

  /** All coordinates of an event are exact as 32-bit floats. */
  predicate Exact(f: Forwarded) {
    match f
    case MouseDelta(dx, dy) => IsExact(dx) && IsExact(dy)
    case Scroll(dx, dy) => IsExact(dx) && IsExact(dy)
    case BoundaryEnter(x, y) => IsExact(x) && IsExact(y)
    case _ => true
  }

  function ToMessage(f: Forwarded): Message
    requires Exact(f)
  {
    match f
    case MouseDelta(dx, dy) => Protocol.MouseDelta(Float32.FromInt(dx), Float32.FromInt(dy))
    case MouseButton(b, down) => Protocol.MouseButton(b, down)
    case Key(k, down) => Protocol.KeyPress(k, down)
    case Scroll(dx, dy) => Protocol.MouseScroll(Float32.FromInt(dx), Float32.FromInt(dy))
    case BoundaryEnter(x, y) => Protocol.BoundaryEnter(1, Float32.FromInt(x), Float32.FromInt(y))
  }

  /** What the client takes a message for, if it is input. */
  function FromMessage(m: Message): Option<Forwarded> {
    match m
    case MouseDelta(a, b) =>
      var (dx, dy) := (Float32.ToInt(a), Float32.ToInt(b));
      if dx.Some? && dy.Some? then Some(MouseDelta(dx.value, dy.value)) else None
    case MouseButton(b, down) => Some(MouseButton(b, down))
    case KeyPress(k, down) => Some(Key(k, down))
    case MouseScroll(a, b) =>
      var (dx, dy) := (Float32.ToInt(a), Float32.ToInt(b));
      if dx.Some? && dy.Some? then Some(Scroll(dx.value, dy.value)) else None
    case BoundaryEnter(_, a, b) =>
      var (x, y) := (Float32.ToInt(a), Float32.ToInt(b));
      if x.Some? && y.Some? then Some(BoundaryEnter(x.value, y.value)) else None
    case _ => None
  }

  /** Every exact event is understood as itself, and its message fits a frame. */
  lemma MessageRoundTrip(f: Forwarded)
    requires Exact(f)
    ensures FromMessage(ToMessage(f)) == Some(f)
  {
    hide Float32.FromInt, Float32.ToInt;
    match f {
      case MouseDelta(dx, dy) =>
        Float32.IntRoundTrip(dx);
        Float32.IntRoundTrip(dy);
      case Scroll(dx, dy) =>
        Float32.IntRoundTrip(dx);
        Float32.IntRoundTrip(dy);
      case BoundaryEnter(x, y) =>
        Float32.IntRoundTrip(x);
        Float32.IntRoundTrip(y);
      case _ =>
    }
  }

  /** Every field of a message carries the number the event has, in its own place; clients are screen 1. */
  lemma MessageValues(f: Forwarded)
    requires Exact(f)
    ensures match (f, ToMessage(f))
            case (MouseDelta(dx, dy), MouseDelta(a, b)) =>
              Float32.Value(a) == dx as real && Float32.Value(b) == dy as real
            case (Scroll(dx, dy), MouseScroll(a, b)) =>
              Float32.Value(a) == dx as real && Float32.Value(b) == dy as real
            case (BoundaryEnter(x, y), BoundaryEnter(target, a, b)) =>
              target == 1 && Float32.Value(a) == x as real && Float32.Value(b) == y as real
            case (MouseButton(b, down), MouseButton(c, pressed)) => c == b && pressed == down
            case (Key(k, down), KeyPress(code, pressed)) => code == k && pressed == down
            case _ => false
  {
    hide Float32.FromInt, Float32.Value;
    match f {
      case MouseDelta(dx, dy) =>
        Float32.ValueOfInt(dx);
        Float32.ValueOfInt(dy);
      case Scroll(dx, dy) =>
        Float32.ValueOfInt(dx);
        Float32.ValueOfInt(dy);
      case BoundaryEnter(x, y) =>
        Float32.ValueOfInt(x);
        Float32.ValueOfInt(y);
      case _ =>
    }
  }

  lemma MessageFits(f: Forwarded)
    requires Exact(f)
    ensures Protocol.Fits(ToMessage(f))
  {
    hide Float32.FromInt;
  }

  predicate AllExact(fs: seq<Forwarded>) {
    forall f :: f in fs ==> Exact(f)
  }

  function Messages(fs: seq<Forwarded>): (ms: seq<Message>)
    requires AllExact(fs)
    ensures |ms| == |fs|
  {
    if fs == [] then [] else
      assert Exact(fs[0]);
      [ToMessage(fs[0])] + Messages(fs[1..])
  }

  /** The input among some messages; the client ignores the rest. */
  function Understood(ms: seq<Message>): seq<Forwarded> {
    if ms == [] then [] else
      (match FromMessage(ms[0]) case Some(f) => [f] case None => []) + Understood(ms[1..])
  }

  /** The input a client gets out of the bytes of a channel. */
  function ReadBack(bytes: seq<Octet>): seq<Forwarded> {
    Understood(Framing.ReadAll(bytes).msgs)
  }

  function Encoded(fs: seq<Forwarded>): seq<Octet>
    requires AllExact(fs)
  {
    Framing.Wire(Messages(fs))
  }

  lemma {:induction false} UnderstoodPrefix(fs: seq<Forwarded>, k: nat)
    requires AllExact(fs) && k <= |fs|
    ensures Understood(Messages(fs)[..k]) == fs[..k]
  {
    hide FromMessage, ToMessage, Exact;
    if k > 0 {
      assert Exact(fs[0]);
      MessageRoundTrip(fs[0]);
      UnderstoodPrefix(fs[1..], k - 1);
      assert Messages(fs)[..k][1..] == Messages(fs[1..])[..k - 1];
      assert fs[..k] == [fs[0]] + fs[1..][..k - 1];
    }
  }

  lemma {:induction false} MessagesFit(fs: seq<Forwarded>)
    requires AllExact(fs)
    ensures forall m :: m in Messages(fs) ==> Protocol.Fits(m)
  {
    hide ToMessage, Exact;
    if fs != [] {
      assert Exact(fs[0]);
      MessageFits(fs[0]);
      MessagesFit(fs[1..]);
    }
  }

  /** How many events are wholly before a cut of their bytes. */
  function Arrived(fs: seq<Forwarded>, cut: nat): (k: nat)
    requires AllExact(fs)
    ensures k <= |fs|
  {
    Framing.Recovered(Messages(fs), cut)
  }

  lemma {:induction false} MessagesPrefix(fs: seq<Forwarded>, k: nat)
    requires AllExact(fs) && k <= |fs|
    ensures AllExact(fs[..k]) && Messages(fs[..k]) == Messages(fs)[..k]
  {
    hide ToMessage, Exact;
    if k > 0 {
      MessagesPrefix(fs[1..], k - 1);
      assert fs[..k][1..] == fs[1..][..k - 1] && fs[..k][0] == fs[0];
      assert Messages(fs)[..k] == [Messages(fs)[0]] + Messages(fs[1..])[..k - 1];
    }
  }

  /** Whatever part of the bytes arrives, the client gets exactly the events wholly in it, in order. */
  lemma ReadBackCut(fs: seq<Forwarded>, cut: nat)
    requires AllExact(fs) && cut <= |Encoded(fs)|
    ensures ReadBack(Encoded(fs)[..cut]) == fs[..Arrived(fs, cut)]
    ensures var k := Arrived(fs, cut);
            && AllExact(fs[..k]) && |Encoded(fs[..k])| <= cut
            && (k < |fs| ==> AllExact(fs[..k + 1]) && cut < |Encoded(fs[..k + 1])|)
  {
    hide Framing.Wire, Framing.ReadAll, Framing.Recovered, Messages, Protocol.Fits;
    var k := Arrived(fs, cut);
    MessagesFit(fs);
    Framing.PrefixExact(Messages(fs), cut);
    Framing.RecoveredExact(Messages(fs), cut);
    UnderstoodPrefix(fs, k);
    MessagesPrefix(fs, k);
    if k < |fs| {
      MessagesPrefix(fs, k + 1);
    }
  }

  /** All bytes give all events. */
  lemma ReadBackAll(fs: seq<Forwarded>)
    requires AllExact(fs)
    ensures ReadBack(Encoded(fs)) == fs
  {
    hide Framing.Wire, Framing.ReadAll, Messages, Understood;
    MessagesFit(fs);
    Framing.ReadAllWritten(Messages(fs));
    UnderstoodPrefix(fs, |fs|);
    assert Messages(fs)[..|fs|] == Messages(fs) && fs[..|fs|] == fs;
  }

  // ------------------------------------------------------------------
  // When the output is exact
  // ------------------------------------------------------------------

  /** Reports are on the screen and wheel steps are small. */
  predicate Physical(a: Action, width: nat, height: nat) {
    match a
    case Input(MouseMove(x, y)) => 0 <= x <= width && 0 <= y <= height
    case Input(Wheel(dx, dy)) => IsExact(dx) && IsExact(dy)
    case _ => true
  }

  /** The last report and the logical cursor are on the screen. */
  predicate Tracked(s: Snapshot, width: nat, height: nat) {
    && s.width == width && s.height == height
    && (s.prevInitialized ==> 0 <= s.prevX <= width && 0 <= s.prevY <= height)
  }

  lemma ExactStep(s: Snapshot, a: Action, width: nat, height: nat)
    requires Tracked(s, width, height) && Physical(a, width, height)
    requires width < Float32.EXACT_LIMIT && height < Float32.EXACT_LIMIT
    ensures Tracked(Act(s, a), width, height) && AllExact(EmittedBy(s, a))
  {
  }

  lemma {:induction false} ExactFrom(s: Snapshot, acts: seq<Action>, width: nat, height: nat)
    requires Tracked(s, width, height) && forall i :: 0 <= i < |acts| ==> Physical(acts[i], width, height)
    requires width < Float32.EXACT_LIMIT && height < Float32.EXACT_LIMIT
    ensures Tracked(Run(s, acts), width, height) && AllExact(Emitted(s, acts))
  {
    hide Step, Act, EmittedBy, Exact, Physical, Tracked;
    if acts != [] {
      var n := |acts| - 1;
      ExactFrom(s, acts[..n], width, height);
      ExactStep(Run(s, acts[..n]), acts[n], width, height);
    }
  }

  /** On screens of fewer than 2^24 pixels a side, everything any run sends is exact, and read back from its bytes. */
  lemma OutputSurvives(width: nat, height: nat, acts: seq<Action>)
    requires forall i :: 0 <= i < |acts| ==> Physical(acts[i], width, height)
    requires width < Float32.EXACT_LIMIT && height < Float32.EXACT_LIMIT
    ensures var out := Emitted(Initial(width, height), acts);
            AllExact(out) && ReadBack(Encoded(out)) == out
  {
    hide Emitted, Exact, Encoded, ReadBack;
    ExactFrom(Initial(width, height), acts, width, height);
    ReadBackAll(Emitted(Initial(width, height), acts));
  }

  // ------------------------------------------------------------------
  // A session over both channels
  // ------------------------------------------------------------------

  /** The client after what it read from the control channel and then from the data channel. */
  function Received(c: Cursor, control: seq<Octet>, data: seq<Octet>): Moved
    requires c.width >= 1 && c.height >= 1
  {
    DeliverAll(DeliverAll(c, ReadBack(control)).cursor, ReadBack(data))
  }

  lemma OpeningDoesNotLeave(s: Snapshot, e: Event, c: Cursor)
    requires Crosses(s, Input(e)) && c.width >= 1 && c.height >= 1
    ensures !DeliverAll(c, EmittedBy(s, Input(e))).leave
  {
    hide EmittedBy, DeliverAll;
    CrossingOutput(s, e);
    DeliverOne(c, EmittedBy(s, Input(e)));
  }

  /**
   From captured events to the client's cursor, through floats, payloads, frames and
   two byte streams: over a session that crosses on event e, a client that got the
   entry and any part of the data bytes asks to leave only if the server's reports
   moved back, and one that got all of them exactly then.
   */
  lemma SessionOverTheWire(s: Snapshot, e: Event, rest: seq<Action>, c: Cursor, cut: nat)
    requires Crosses(s, Input(e)) && StaysRemote(Act(s, Input(e)), rest)
    requires c.width >= 1 && c.height >= 1
    requires AllExact(EmittedBy(s, Input(e))) && AllExact(Emitted(Act(s, Input(e)), rest))
    requires cut <= |Encoded(Emitted(Act(s, Input(e)), rest))|
    ensures var control, data := Encoded(EmittedBy(s, Input(e))), Encoded(Emitted(Act(s, Input(e)), rest));
            var movedBack := MovedBack(ENTER_X, Reports(Act(s, Input(e)), rest), c.width);
            && (Received(c, control, data[..cut]).leave ==> movedBack)
            && (Received(c, control, data).leave <==> movedBack)
  {
    hide Step, Act, EmittedBy, Emitted, MovedBack, Reports, DeliverAll, Encoded, ReadBack, Exact, Arrived;
    var entered := Act(s, Input(e));
    var opening, moves := EmittedBy(s, Input(e)), Emitted(entered, rest);
    ReadBackAll(opening);
    ReadBackAll(moves);
    ReadBackCut(moves, cut);
    OpeningDoesNotLeave(s, e, c);
    LeaveStays(DeliverAll(c, opening).cursor, moves, Arrived(moves, cut));
    SingleAction(s, Input(e));
    EmittedConcat(s, [Input(e)], rest);
    DeliverConcat(c, opening, moves);
    LeaveIffMovedBack(s, e, rest, c);
  }
}
