/**
 The capture callback of the server (crates/ss-input/src/warp_capture.rs): delta
 extraction from reported positions, the local/remote mode switch, and the
 stream of events it attempts to forward.

 Coordinates are integers: raw evdev movement and screen sizes are integral and
 small enough for the source's floating point to be exact.  A key is represented
 by the 32-bit code the source derives from it.
 */
module Capture {
  import opened Wrappers
  import opened Bytes
  import Protocol

  datatype RdevButton = LeftButton | RightButton | MiddleButton | OtherButton(code: nat)

  type Button = Protocol.Button

  /** An input event as the grab callback receives it. */
  datatype Event =
    | MouseMove(x: int, y: int)
    | ButtonPress(pressedButton: RdevButton)
    | ButtonRelease(releasedButton: RdevButton)
    | Wheel(deltaX: int, deltaY: int)
    | KeyPress(pressedKey: U32)
    | KeyRelease(releasedKey: U32)

  /** An event the callback forwards (WarpInputEvent). */
  datatype Forwarded =
    | MouseDelta(dx: int, dy: int)
    | MouseButton(button: Button, buttonDown: bool)
    | Key(keycode: U32, keyDown: bool)
    | Scroll(scrollX: int, scrollY: int)
    | BoundaryEnter(enterX: int, enterY: int)

  /** x coordinate at which the client's cursor enters: BOUNDARY_ZONE_PX + 1. */
  const ENTER_X := 6

  function Clamp(v: int, lo: int, hi: int): (r: int)
    requires lo <= hi
    ensures lo <= r <= hi
  {
    if v < lo then lo else if v > hi then hi else v
  }

  function Abs(v: int): nat {
    if v < 0 then -v else v
  }

  /** Buttons the protocol can name; the others are swallowed in remote mode. */
  function MapButton(b: RdevButton): Option<Button> {
    match b
    case LeftButton => Some(Protocol.Left)
    case RightButton => Some(Protocol.Right)
    case MiddleButton => Some(Protocol.Middle)
    case OtherButton(_) => None
  }

  function ButtonOutput(b: RdevButton, down: bool): seq<Forwarded> {
    match MapButton(b)
    case Some(button) => [MouseButton(button, down)]
    case None => []
  }

  /** The value of a CallbackState object; `sent` is everything it tried to send. */
  datatype Snapshot = Snapshot(
    width: nat, height: nat,
    prevX: int, prevY: int, prevInitialized: bool,
    posX: int, posY: int,
    frozenX: int, frozenY: int,
    isRemote: bool, exitRemote: bool, hasClient: bool,
    sent: seq<Forwarded>)

  function Initial(width: nat, height: nat): Snapshot {
    Snapshot(width, height, 0, 0, false, width / 2, height / 2, 0, 0, false, false, false, [])
  }

  /** A pending exit request, or the loss of the client, ends remote mode at the next event. */
  predicate Exits(s: Snapshot) {
    s.isRemote && (s.exitRemote || !s.hasClient)
  }

  /** The state after the checks that open every callback. */
  function ExitCheck(s: Snapshot): Snapshot {
    if Exits(s)
    then s.(exitRemote := false, isRemote := false, posX := s.frozenX, posY := s.frozenY)
    else s.(exitRemote := false)
  }

  function DeltaX(s: Snapshot, x: int): int {
    if s.prevInitialized then x - s.prevX else 0
  }

  function DeltaY(s: Snapshot, y: int): int {
    if s.prevInitialized then y - s.prevY else 0
  }

  /** Movement bookkeeping, before the mode is looked at. */
  function Track(s: Snapshot, x: int, y: int): Snapshot {
    var baseX := if s.prevInitialized then s.posX else x;
    var baseY := if s.prevInitialized then s.posY else y;
    s.(prevInitialized := true, prevX := x, prevY := y,
       posX := Clamp(baseX + DeltaX(s, x), 0, s.width),
       posY := Clamp(baseY + DeltaY(s, y), 0, s.height))
  }

  /** The new state, what the callback tried to send, and whether the event was passed on. */
  datatype Outcome = Outcome(next: Snapshot, output: seq<Forwarded>, passed: bool)

  /** The outcome of a callback that attempts to send `output`. */
  function Sending(s: Snapshot, output: seq<Forwarded>, passed: bool): Outcome {
    Outcome(s.(sent := s.sent + output), output, passed)
  }

  /** What a suppressed non-move event forwards. */
  function RemoteOutput(e: Event): seq<Forwarded>
    requires !e.MouseMove?
  {
    match e
    case ButtonPress(b) => ButtonOutput(b, true)
    case ButtonRelease(b) => ButtonOutput(b, false)
    case Wheel(dx, dy) => [Scroll(dx, dy)]
    case KeyPress(k) => [Key(k, true)]
    case KeyRelease(k) => [Key(k, false)]
  }

  function MoveOutput(dx: int, dy: int): seq<Forwarded> {
    if dx != 0 || dy != 0 then [MouseDelta(dx, dy)] else []
  }

  /** One callback. */
  function Step(s: Snapshot, e: Event): Outcome {
    var c := ExitCheck(s);
    match e
    case MouseMove(x, y) =>
      var m := Track(c, x, y);
      if c.isRemote then
        Sending(m, MoveOutput(DeltaX(c, x), DeltaY(c, y)), false)
      else if m.posX >= m.width - 1 && m.hasClient then
        Sending(m.(isRemote := true, frozenX := m.posX, frozenY := m.posY), [BoundaryEnter(ENTER_X, m.posY)], false)
      else
        Sending(m, [], true)
    case _ =>
      if c.isRemote then Sending(c, RemoteOutput(e), false) else Sending(c, [], true)
  }

  /** The callback's state, updated in place on every event. */
  class CallbackState {
    const screenWidth: nat
    const screenHeight: nat
    var prevX: int
    var prevY: int
    var prevInitialized: bool
    var posX: int
    var posY: int
    var frozenX: int
    var frozenY: int
    var isRemote: bool
    var exitRemote: bool
    var hasClient: bool
    var sent: seq<Forwarded>

    function View(): Snapshot
      reads this
    {
      Snapshot(screenWidth, screenHeight, prevX, prevY, prevInitialized, posX, posY,
               frozenX, frozenY, isRemote, exitRemote, hasClient, sent)
    }

    constructor (width: nat, height: nat)
      ensures View() == Initial(width, height)
      ensures posX == width / 2 && posY == height / 2 && sent == []
      ensures !prevInitialized && !isRemote && !exitRemote && !hasClient
      ensures prevX == prevY == frozenX == frozenY == 0
    {
      screenWidth, screenHeight := width, height;
      prevX, prevY, prevInitialized := 0, 0, false;
      posX, posY := width / 2, height / 2;
      frozenX, frozenY := 0, 0;
      isRemote, exitRemote, hasClient := false, false, false;
      sent := [];
    }

    /** The client asked for the cursor back. */
    method RequestExit()
      modifies this`exitRemote
      ensures View() == old(View()).(exitRemote := true)
    {
      exitRemote := true;
    }

    /** The set of connected clients became (non-)empty. */
    method SetHasClient(present: bool)
      modifies this`hasClient
      ensures View() == old(View()).(hasClient := present)
    {
      hasClient := present;
    }

    method TrySend(f: Forwarded)
      modifies this`sent
      ensures View() == old(View()).(sent := old(sent) + [f])
    {
      sent := sent + [f];
    }

    /** The checks at the head of the callback: consume a request, notice a lost client. */
    method LeaveRemoteIfDue()
      modifies this`exitRemote, this`isRemote, this`posX, this`posY
      ensures View() == ExitCheck(old(View()))
    {
      var exitRequested := exitRemote;
      exitRemote := false;
      var clientGone := isRemote && !hasClient;
      if (exitRequested || clientGone) && isRemote {
        isRemote := false;
        posX := frozenX;
        posY := frozenY;
      }
    }

    /** Delta from consecutive reports, then the clamped logical position. */
    method TrackMove(x: int, y: int) returns (dx: int, dy: int)
      modifies this`prevX, this`prevY, this`prevInitialized, this`posX, this`posY
      ensures View() == Track(old(View()), x, y)
      ensures dx == DeltaX(old(View()), x) && dy == DeltaY(old(View()), y)
    {
      dx, dy := 0, 0;
      if prevInitialized {
        dx, dy := x - prevX, y - prevY;
      } else {
        prevInitialized := true;
        posX := x;
        posY := y;
      }
      prevX := x;
      prevY := y;
      posX := Clamp(posX + dx, 0, screenWidth);
      posY := Clamp(posY + dy, 0, screenHeight);
    }

    method EnterRemote()
      modifies this`isRemote, this`frozenX, this`frozenY, this`sent
      ensures View() == old(View()).(isRemote := true, frozenX := posX, frozenY := posY,
                                     sent := old(sent) + [BoundaryEnter(ENTER_X, posY)])
    {
      isRemote := true;
      frozenX := posX;
      frozenY := posY;
      TrySend(BoundaryEnter(ENTER_X, posY));
    }

    method SendButton(b: RdevButton, down: bool)
      modifies this`sent
      ensures View() == old(View()).(sent := old(sent) + ButtonOutput(b, down))
    {
      var mapped := MapButton(b);
      if mapped.Some? {
        TrySend(MouseButton(mapped.value, down));
      }
    }

    /** The grab callback; the result says whether the event reaches the local machine. */
    method OnEvent(e: Event) returns (passed: bool)
      modifies this
      ensures View() == Step(old(View()), e).next
      ensures passed == Step(old(View()), e).passed
    {
      LeaveRemoteIfDue();
      var remote := isRemote;
      passed := !remote;
      match e {
        case MouseMove(x, y) =>
          var dx, dy := TrackMove(x, y);
          if remote {
            if dx != 0 || dy != 0 {
              TrySend(MouseDelta(dx, dy));
            }
          } else if posX >= screenWidth - 1 && hasClient {
            EnterRemote();
            passed := false;
          }
        case ButtonPress(b) =>
          if remote {
            SendButton(b, true);
          }
        case ButtonRelease(b) =>
          if remote {
            SendButton(b, false);
          }
        case Wheel(dx, dy) =>
          if remote {
            TrySend(Scroll(dx, dy));
          }
        case KeyPress(k) =>
          if remote {
            TrySend(Key(k, true));
          }
        case KeyRelease(k) =>
          if remote {
            TrySend(Key(k, false));
          }
      }
    }
  }
}
