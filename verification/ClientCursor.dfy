/**
 The client's virtual cursor (src/main.rs, the injection task and the control
 handler): where BoundaryEnter puts it, how each MouseDelta moves it, and when it
 asks for the cursor to go back.
 */
module ClientCursor {
  import opened Capture

  datatype Cursor = Cursor(width: nat, height: nat, x: int, y: int)

  /** The new cursor, and whether the client sent BoundaryLeave. */
  datatype Moved = Moved(cursor: Cursor, leave: bool)

  function Apply(c: Cursor, dx: int, dy: int): Moved
    requires c.width >= 1 && c.height >= 1
  {
    var hitLeft := c.x + dx <= 0;
    Moved(c.(x := if hitLeft then 0 else Clamp(c.x + dx, 0, c.width - 1),
             y := Clamp(c.y + dy, 0, c.height - 1)),
          hitLeft)
  }

  /** One message of a session; input other than movement leaves the cursor alone. */
  function Deliver(c: Cursor, f: Forwarded): Moved
    requires c.width >= 1 && c.height >= 1
  {
    match f
    case BoundaryEnter(x, _) => Moved(c.(x := x, y := c.height / 2), false)
    case MouseDelta(dx, dy) => Apply(c, dx, dy)
    case _ => Moved(c, false)
  }

  /** The cursor pair behind the client's mutex. */
  class ClientVirtualCursor {
    const screenWidth: nat
    const screenHeight: nat
    var vx: int
    var vy: int

    function View(): Cursor
      reads this
    {
      Cursor(screenWidth, screenHeight, vx, vy)
    }

    constructor (width: nat, height: nat)
      ensures View() == Cursor(width, height, width / 2, height / 2)
    {
      screenWidth, screenHeight := width, height;
      vx, vy := width / 2, height / 2;
    }

    method OnMouseDelta(dx: int, dy: int) returns (hitLeft: bool)
      requires screenWidth >= 1 && screenHeight >= 1
      modifies this
      ensures View() == Apply(old(View()), dx, dy).cursor
      ensures hitLeft == Apply(old(View()), dx, dy).leave
    {
      vx := vx + dx;
      vy := vy + dy;
      hitLeft := vx <= 0;
      if hitLeft {
        vx := 0;
      } else {
        vx := Clamp(vx, 0, screenWidth - 1);
      }
      vy := Clamp(vy, 0, screenHeight - 1);
    }

    /** The entry height is ignored: the cursor starts at the vertical centre. */
    method OnBoundaryEnter(enterX: int, enterY: int)
      requires screenWidth >= 1 && screenHeight >= 1
      modifies this
      ensures View() == Deliver(old(View()), BoundaryEnter(enterX, enterY)).cursor
    {
      vx := enterX;
      vy := screenHeight / 2;
    }
  }

  // ------------------------------------------------------------------
  // A whole session of deltas
  // ------------------------------------------------------------------

  datatype Delta = Delta(dx: int, dy: int)

  /** The cursor after a list of deltas, and whether any of them hit the left edge. */
  function Drive(c: Cursor, ds: seq<Delta>): (m: Moved)
    requires c.width >= 1 && c.height >= 1
    ensures m.cursor.width == c.width && m.cursor.height == c.height
  {
    if ds == [] then Moved(c, false) else
      var m := Drive(c, ds[..|ds| - 1]);
      var last := Apply(m.cursor, ds[|ds| - 1].dx, ds[|ds| - 1].dy);
      Moved(last.cursor, m.leave || last.leave)
  }

  /** Sum of the first k horizontal deltas. */
  function Sum(ds: seq<Delta>, k: nat): int
    requires k <= |ds|
  {
    if k == 0 then 0 else Sum(ds, k - 1) + ds[k - 1].dx
  }

  lemma {:induction false} SumOfPrefix(ds: seq<Delta>, n: nat, k: nat)
    requires k <= n <= |ds|
    ensures Sum(ds[..n], k) == Sum(ds, k)
  {
    if k > 0 {
      SumOfPrefix(ds, n, k - 1);
    }
  }

  /** x is the least of start + S_n and of cw - 1 + S_n - S_k for 1 <= k <= n. */
  ghost predicate IsLeastReach(start: int, ds: seq<Delta>, cw: nat, x: int) {
    var n := |ds|;
    && x <= start + Sum(ds, n)
    && (forall k :: 1 <= k <= n ==> x <= cw - 1 + Sum(ds, n) - Sum(ds, k))
    && (x == start + Sum(ds, n) || exists k :: 1 <= k <= n && x == cw - 1 + Sum(ds, n) - Sum(ds, k))
  }

  lemma LeastReachStep(start: int, ds: seq<Delta>, d: Delta, cw: nat, x: int)
    requires cw >= 1 && IsLeastReach(start, ds, cw, x)
    ensures IsLeastReach(start, ds + [d], cw, if x + d.dx <= cw - 1 then x + d.dx else cw - 1)
  {
    var all := ds + [d];
    assert all[..|ds|] == ds;
    forall k | 0 <= k <= |ds| ensures Sum(all, k) == Sum(ds, k) {
      SumOfPrefix(all, |ds|, k);
    }
    var n := |ds|;
    assert Sum(all, n + 1) == Sum(ds, n) + d.dx;
    if x + d.dx > cw - 1 {
      assert cw - 1 == cw - 1 + Sum(all, n + 1) - Sum(all, n + 1);
    } else if x != start + Sum(ds, n) {
      var k :| 1 <= k <= n && x == cw - 1 + Sum(ds, n) - Sum(ds, k);
      assert x + d.dx == cw - 1 + Sum(all, n + 1) - Sum(all, k);
    }
  }

  /** Closed form of the cursor while no delta has hit the left edge. */
  lemma {:induction false} ClosedForm(c: Cursor, ds: seq<Delta>)
    requires c.width >= 1 && c.height >= 1
    requires !Drive(c, ds).leave
    ensures IsLeastReach(c.x, ds, c.width, Drive(c, ds).cursor.x)
  {
    if ds != [] {
      var front, last := ds[..|ds| - 1], ds[|ds| - 1];
      ClosedForm(c, front);
      LeastReachStep(c.x, front, last, c.width, Drive(c, front).cursor.x);
      assert front + [last] == ds;
    }
  }

  /** Some prefix moves left by the start's distance from the edge, or some later run by the whole width. */
  ghost predicate ReachesLeftEdge(start: int, ds: seq<Delta>, cw: nat) {
    exists m :: 1 <= m <= |ds| && LeftBy(start, ds, cw, m)
  }

  ghost predicate LeftBy(start: int, ds: seq<Delta>, cw: nat, m: nat)
    requires m <= |ds|
  {
    start + Sum(ds, m) <= 0 || exists k :: 1 <= k < m && Sum(ds, m) - Sum(ds, k) <= -(cw - 1)
  }

  lemma LeftByOfPrefix(start: int, ds: seq<Delta>, cw: nat, n: nat, m: nat)
    requires m <= n <= |ds|
    ensures LeftBy(start, ds[..n], cw, m) <==> LeftBy(start, ds, cw, m)
  {
    forall k | 0 <= k <= m ensures Sum(ds[..n], k) == Sum(ds, k) {
      SumOfPrefix(ds, n, k);
    }
    assert Sum(ds[..n], m) == Sum(ds, m);
    if k :| 1 <= k < m && Sum(ds, m) - Sum(ds, k) <= -(cw - 1) {
      assert Sum(ds[..n], m) - Sum(ds[..n], k) <= -(cw - 1);
    }
  }

  lemma LastDeltaHits(start: int, ds: seq<Delta>, cw: nat, x: int)
    requires cw >= 1 && ds != [] && IsLeastReach(start, ds[..|ds| - 1], cw, x)
    ensures x + ds[|ds| - 1].dx <= 0 <==> LeftBy(start, ds, cw, |ds|)
  {
    var n := |ds| - 1;
    forall k | 0 <= k <= n ensures Sum(ds[..n], k) == Sum(ds, k) {
      SumOfPrefix(ds, n, k);
    }
    assert Sum(ds[..n], n) == Sum(ds, n);
    if x + ds[n].dx <= 0 && start + Sum(ds, n + 1) > 0 {
      var k :| 1 <= k <= n && x == cw - 1 + Sum(ds[..n], n) - Sum(ds[..n], k);
      assert Sum(ds, n + 1) - Sum(ds, k) <= -(cw - 1);
    }
    if k :| 1 <= k < n + 1 && Sum(ds, n + 1) - Sum(ds, k) <= -(cw - 1) {
      assert x <= cw - 1 + Sum(ds[..n], n) - Sum(ds[..n], k);
    }
  }

  /**
   From any start, the client asks to leave exactly when a prefix of the deltas sums
   to minus the start or less, or a run of consecutive deltas after the first sums to
   -(width - 1) or less.  After an entry the start is 6.
   */
  lemma {:induction false} LeaveIff(c: Cursor, ds: seq<Delta>)
    requires c.width >= 1 && c.height >= 1
    ensures Drive(c, ds).leave <==> ReachesLeftEdge(c.x, ds, c.width)
  {
    if ds != [] {
      var n := |ds| - 1;
      LeaveIff(c, ds[..n]);
      forall m | 0 <= m <= n ensures LeftBy(c.x, ds[..n], c.width, m) <==> LeftBy(c.x, ds, c.width, m) {
        LeftByOfPrefix(c.x, ds, c.width, n, m);
      }
      if !Drive(c, ds[..n]).leave {
        ClosedForm(c, ds[..n]);
        LastDeltaHits(c.x, ds, c.width, Drive(c, ds[..n]).cursor.x);
        if Drive(c, ds).leave {
          assert LeftBy(c.x, ds, c.width, n + 1);
        }
        if m :| 1 <= m <= |ds| && LeftBy(c.x, ds, c.width, m) {
          assert m == n + 1;
        }
      } else {
        var m :| 1 <= m <= n && LeftBy(c.x, ds[..n], c.width, m);
        assert LeftBy(c.x, ds, c.width, m);
      }
    }
  }

  /** A point walking between two walls at 0 and hi. */
  function Walk(start: int, steps: seq<int>, hi: nat): int {
    if steps == [] then start else
      var ahead := Walk(start, steps[..|steps| - 1], hi) + steps[|steps| - 1];
      if ahead <= 0 then 0 else if ahead >= hi then hi else ahead
  }

  function Across(ds: seq<Delta>): (steps: seq<int>)
    ensures |steps| == |ds|
  {
    seq(|ds|, i requires 0 <= i < |ds| => ds[i].dx)
  }

  function Down(ds: seq<Delta>): (steps: seq<int>)
    ensures |steps| == |ds|
  {
    seq(|ds|, i requires 0 <= i < |ds| => ds[i].dy)
  }

  lemma StepsOfPrefix(ds: seq<Delta>, n: nat)
    requires n <= |ds|
    ensures Across(ds[..n]) == Across(ds)[..n] && Down(ds[..n]) == Down(ds)[..n]
  {
  }

  /**
   Over any deltas, hits of the left edge included, x and y are walks between the
   screen's edges, each driven by its own component of the deltas.
   */
  lemma {:induction false} CursorWalks(c: Cursor, ds: seq<Delta>)
    requires c.width >= 1 && c.height >= 1
    ensures Drive(c, ds).cursor.x == Walk(c.x, Across(ds), c.width - 1)
    ensures Drive(c, ds).cursor.y == Walk(c.y, Down(ds), c.height - 1)
  {
    if ds != [] {
      var n := |ds| - 1;
      CursorWalks(c, ds[..n]);
      StepsOfPrefix(ds, n);
    }
  }

  /** At each delta the client asks to leave exactly if that walk would step to 0 or beyond. */
  lemma LeavesAtWall(c: Cursor, ds: seq<Delta>, d: Delta)
    requires c.width >= 1 && c.height >= 1
    ensures Apply(Drive(c, ds).cursor, d.dx, d.dy).leave <==> Walk(c.x, Across(ds), c.width - 1) + d.dx <= 0
  {
    CursorWalks(c, ds);
  }

  // ------------------------------------------------------------------
  // How wide a client must be
  // ------------------------------------------------------------------

  /** Some run of consecutive deltas moved left by the entry offset. */
  ghost predicate MovedLeft(ds: seq<Delta>) {
    exists k: nat, m: nat :: k < m <= |ds| && LeftRun(ds, k, m)
  }

  predicate LeftRun(ds: seq<Delta>, k: nat, m: nat)
    requires k < m <= |ds|
  {
    Sum(ds, m) - Sum(ds, k) <= -ENTER_X
  }

  /** No session bounces back: the client asks to leave only after a real leftward movement. */
  ghost predicate BounceFree(c: Cursor)
    requires c.width >= 1 && c.height >= 1
  {
    forall ds :: Drive(c, ds).leave ==> MovedLeft(ds)
  }

  lemma WideNeverBounces(c: Cursor, ds: seq<Delta>)
    requires c.width > ENTER_X && c.height >= 1 && c.x == ENTER_X && Drive(c, ds).leave
    ensures MovedLeft(ds)
  {
    LeaveIff(c, ds);
    var m :| 1 <= m <= |ds| && LeftBy(c.x, ds, c.width, m);
    if ENTER_X + Sum(ds, m) <= 0 {
      assert LeftRun(ds, 0, m);
    } else {
      var k :| 1 <= k < m && Sum(ds, m) - Sum(ds, k) <= -(c.width - 1);
      assert LeftRun(ds, k, m);
    }
  }

  /** One pixel right, then the client's width less one to the left. */
  lemma NarrowBounces(c: Cursor) returns (ds: seq<Delta>)
    requires 1 <= c.width <= ENTER_X && c.height >= 1 && c.x == ENTER_X
    ensures Drive(c, ds).leave && !MovedLeft(ds)
  {
    ds := [Delta(1, 0), Delta(-(c.width - 1), 1)];
    assert ds[..1] == [Delta(1, 0)] && ds[..1][..0] == [];
    assert Drive(c, ds[..1]).cursor.x == c.width - 1;
    assert Sum(ds, 1) == 1 && Sum(ds, 2) == 1 - (c.width - 1);
  }

  /** Exactly the clients at least 7 pixels wide are free of bounce-back. */
  lemma BounceFreeIff(c: Cursor)
    requires c.width >= 1 && c.height >= 1 && c.x == ENTER_X
    ensures BounceFree(c) <==> c.width >= 7
  {
    if c.width >= 7 {
      forall ds | Drive(c, ds).leave ensures MovedLeft(ds) {
        WideNeverBounces(c, ds);
      }
    } else {
      var ds := NarrowBounces(c);
    }
  }
}
