/**
 The capture callback and the client's cursor together, over one remote session
 whose BoundaryEnter and deltas are delivered in order.
 */
module ServerClientSession {
  import opened Capture
  import opened CaptureRuns
  import opened ClientCursor

  /** The client after a list of messages, and whether it ever sent BoundaryLeave. */
  function DeliverAll(c: Cursor, msgs: seq<Forwarded>): (m: Moved)
    requires c.width >= 1 && c.height >= 1
    ensures m.cursor.width == c.width && m.cursor.height == c.height
  {
    if msgs == [] then Moved(c, false) else
      var m := DeliverAll(c, msgs[..|msgs| - 1]);
      var last := Deliver(m.cursor, msgs[|msgs| - 1]);
      Moved(last.cursor, m.leave || last.leave)
  }

  lemma {:induction false} DeliverConcat(c: Cursor, a: seq<Forwarded>, b: seq<Forwarded>)
    requires c.width >= 1 && c.height >= 1
    ensures var m := DeliverAll(c, a);
            var n := DeliverAll(m.cursor, b);
            DeliverAll(c, a + b) == Moved(n.cursor, m.leave || n.leave)
  {
    if b == [] {
      assert a + b == a;
    } else {
      assert (a + b)[..|a + b| - 1] == a + b[..|b| - 1];
      DeliverConcat(c, a, b[..|b| - 1]);
    }
  }

  /** More messages never take a request to leave back. */
  lemma {:induction false} LeaveStays(c: Cursor, fs: seq<Forwarded>, k: nat)
    requires c.width >= 1 && c.height >= 1 && k <= |fs|
    ensures DeliverAll(c, fs[..k]).leave ==> DeliverAll(c, fs).leave
  {
    hide Deliver;
    if k < |fs| {
      assert fs[..|fs| - 1][..k] == fs[..k];
      LeaveStays(c, fs[..|fs| - 1], k);
    } else {
      assert fs[..k] == fs;
    }
  }

  datatype Point = Point(x: int, y: int)

  /** The positions reported in a session, from the one at its crossing on; a repeated report is none. */
  function Reports(entered: Snapshot, acts: seq<Action>): (ps: seq<Point>)
    ensures ps != [] && ps[0] == Point(entered.prevX, entered.prevY)
  {
    if acts == [] then [Point(entered.prevX, entered.prevY)] else
      Reporting(Reports(entered, acts[..|acts| - 1]), acts[|acts| - 1])
  }

  function Reporting(ps: seq<Point>, a: Action): seq<Point>
    requires ps != []
  {
    match a
    case Input(MouseMove(x, y)) => if ps[|ps| - 1] == Point(x, y) then ps else ps + [Point(x, y)]
    case _ => ps
  }

  function Differences(ps: seq<Point>): (ds: seq<Delta>)
    requires ps != []
    ensures |ds| == |ps| - 1
  {
    seq(|ps| - 1, i requires 0 <= i < |ps| - 1 => Delta(ps[i + 1].x - ps[i].x, ps[i + 1].y - ps[i].y))
  }

  lemma {:induction false} DifferencesTelescope(ps: seq<Point>, k: nat)
    requires k < |ps|
    ensures Sum(Differences(ps), k) == ps[k].x - ps[0].x
  {
    if k > 0 {
      DifferencesTelescope(ps, k - 1);
    }
  }

  /** What the remote callback sends for one action. */
  lemma RemoteOutputShape(s: Snapshot, a: Action)
    requires s.isRemote && s.prevInitialized && !(a.Input? && Exits(s))
    ensures Act(s, a).isRemote && Act(s, a).prevInitialized
    ensures a.Input? && a.event.MouseMove? ==>
              && EmittedBy(s, a) == MoveOutput(a.event.x - s.prevX, a.event.y - s.prevY)
              && Act(s, a).prevX == a.event.x && Act(s, a).prevY == a.event.y
    ensures !(a.Input? && a.event.MouseMove?) ==>
              && Act(s, a).prevX == s.prevX && Act(s, a).prevY == s.prevY
              && |EmittedBy(s, a)| <= 1
              && forall f :: f in EmittedBy(s, a) ==> !f.MouseDelta? && !f.BoundaryEnter?
  {
  }

  lemma DeliverOne(c: Cursor, msgs: seq<Forwarded>)
    requires c.width >= 1 && c.height >= 1 && |msgs| <= 1
    ensures msgs == [] ==> DeliverAll(c, msgs) == Moved(c, false)
    ensures msgs != [] ==> DeliverAll(c, msgs) == Deliver(c, msgs[0])
  {
    if msgs != [] {
      assert msgs[..0] == [];
    }
  }

  lemma DriveSnoc(c: Cursor, ps: seq<Point>, p: Point)
    requires c.width >= 1 && c.height >= 1 && ps != []
    ensures var q := ps[|ps| - 1];
            var m := Drive(c, Differences(ps));
            var n := Apply(m.cursor, p.x - q.x, p.y - q.y);
            Drive(c, Differences(ps + [p])) == Moved(n.cursor, m.leave || n.leave)
  {
    var longer := Differences(ps + [p]);
    assert longer[..|longer| - 1] == Differences(ps);
  }

  /** What is sent for a reported move, delivered, is that move. */
  lemma MoveDelivered(ps: seq<Point>, p: Point, c: Cursor, m: Moved)
    requires c.width >= 1 && c.height >= 1 && ps != []
    requires m == Drive(c, Differences(ps))
    ensures var q := ps[|ps| - 1];
            var d := DeliverAll(m.cursor, MoveOutput(p.x - q.x, p.y - q.y));
            Moved(d.cursor, m.leave || d.leave) == Drive(c, Differences(if p == q then ps else ps + [p]))
  {
    hide Drive, Differences, DeliverAll, Apply;
    var q := ps[|ps| - 1];
    DriveSnoc(c, ps, p);
    DeliverOne(m.cursor, MoveOutput(p.x - q.x, p.y - q.y));
  }

  /** One action of a session keeps the client where the differences of the reports put it. */
  lemma FollowOne(s: Snapshot, a: Action, ps: seq<Point>, c: Cursor, m: Moved)
    requires s.isRemote && s.prevInitialized && !(a.Input? && Exits(s))
    requires c.width >= 1 && c.height >= 1
    requires ps != [] && ps[|ps| - 1] == Point(s.prevX, s.prevY)
    requires m == Drive(c, Differences(ps))
    ensures var next := Act(s, a);
            var d := DeliverAll(m.cursor, EmittedBy(s, a));
            var n := Moved(d.cursor, m.leave || d.leave);
            var qs := Reporting(ps, a);
            && next.isRemote && next.prevInitialized && qs[|qs| - 1] == Point(next.prevX, next.prevY)
            && n == Drive(c, Differences(qs))
  {
    hide Act, Step, EmittedBy, Drive, Differences, DeliverAll, MoveOutput;
    RemoteOutputShape(s, a);
    if a.Input? && a.event.MouseMove? {
      MoveDelivered(ps, Point(a.event.x, a.event.y), c, m);
    } else {
      OtherDelivered(m.cursor, EmittedBy(s, a));
    }
  }

  lemma OtherDelivered(c: Cursor, msgs: seq<Forwarded>)
    requires c.width >= 1 && c.height >= 1 && |msgs| <= 1
    requires forall f :: f in msgs ==> !f.MouseDelta? && !f.BoundaryEnter?
    ensures DeliverAll(c, msgs) == Moved(c, false)
  {
    DeliverOne(c, msgs);
  }

  /** The messages of a session move the client exactly as the differences of the reports do. */
  lemma {:induction false} SessionFollowsReports(entered: Snapshot, acts: seq<Action>, c: Cursor)
    requires entered.prevInitialized && StaysRemote(entered, acts)
    requires c.width >= 1 && c.height >= 1
    ensures var ps := Reports(entered, acts);
            var s := Run(entered, acts);
            var m := DeliverAll(c, Emitted(entered, acts));
            && s.isRemote && s.prevInitialized && ps[|ps| - 1] == Point(s.prevX, s.prevY)
            && m == Drive(c, Differences(ps))
  {
    hide Act, EmittedBy, Drive, Differences, DeliverAll, Reporting;
    if acts == [] {
      NoReportsYet(entered, c);
    } else {
      var n := |acts| - 1;
      StaysRemotePrefix(entered, acts, n);
      SessionFollowsReports(entered, acts[..n], c);
      assert !EndsSession(entered, acts, n);
      var s := Run(entered, acts[..n]);
      FollowOne(s, acts[n], Reports(entered, acts[..n]), c, DeliverAll(c, Emitted(entered, acts[..n])));
      DeliverConcat(c, Emitted(entered, acts[..n]), EmittedBy(s, acts[n]));
    }
  }

  lemma NoReportsYet(entered: Snapshot, c: Cursor)
    requires c.width >= 1 && c.height >= 1
    ensures Drive(c, Differences(Reports(entered, []))) == Moved(c, false) == DeliverAll(c, Emitted(entered, []))
  {
  }

  /** Report j is back from report i by a client width less one, or from the first by where the client started. */
  predicate BackFrom(start: int, ps: seq<Point>, cw: nat, i: nat, j: nat)
    requires i < j < |ps|
  {
    ps[j].x <= ps[i].x - if i == 0 then start else cw - 1
  }

  ghost predicate MovedBack(start: int, ps: seq<Point>, cw: nat) {
    exists i: nat, j: nat :: i < j < |ps| && BackFrom(start, ps, cw, i, j)
  }

  lemma MovedBackReaches(start: int, ps: seq<Point>, cw: nat, i: nat, j: nat)
    requires i < j < |ps| && BackFrom(start, ps, cw, i, j)
    ensures LeftBy(start, Differences(ps), cw, j)
  {
    DifferencesTelescope(ps, i);
    DifferencesTelescope(ps, j);
  }

  lemma ReachesMovedBack(start: int, ps: seq<Point>, cw: nat, m: nat)
    requires 1 <= m < |ps| && LeftBy(start, Differences(ps), cw, m)
    ensures MovedBack(start, ps, cw)
  {
    var ds := Differences(ps);
    DifferencesTelescope(ps, m);
    if start + Sum(ds, m) <= 0 {
      assert BackFrom(start, ps, cw, 0, m);
    } else {
      var k :| 1 <= k < m && Sum(ds, m) - Sum(ds, k) <= -(cw - 1);
      DifferencesTelescope(ps, k);
      assert BackFrom(start, ps, cw, k, m);
    }
  }

  lemma MovedBackIffReaches(start: int, ps: seq<Point>, cw: nat)
    requires ps != []
    ensures MovedBack(start, ps, cw) <==> ReachesLeftEdge(start, Differences(ps), cw)
  {
    hide BackFrom, LeftBy, Differences;
    if MovedBack(start, ps, cw) {
      var i: nat, j: nat :| i < j < |ps| && BackFrom(start, ps, cw, i, j);
      MovedBackReaches(start, ps, cw, i, j);
    }
    if ReachesLeftEdge(start, Differences(ps), cw) {
      var m :| 1 <= m <= |Differences(ps)| && LeftBy(start, Differences(ps), cw, m);
      ReachesMovedBack(start, ps, cw, m);
    }
  }

  lemma CrossingOutput(s: Snapshot, e: Event)
    requires Crosses(s, Input(e))
    ensures e.MouseMove?
    ensures EmittedBy(s, Input(e)) == [BoundaryEnter(ENTER_X, Act(s, Input(e)).posY)]
    ensures var t := Act(s, Input(e)); t.isRemote && t.prevInitialized && t.prevX == e.x && t.prevY == e.y
  {
  }

  lemma SingleAction(s: Snapshot, a: Action)
    ensures Run(s, [a]) == Act(s, a) && Emitted(s, [a]) == EmittedBy(s, a)
  {
    hide Step, EmittedBy;
    assert [a][..0] == [];
  }

  /**
   Over a session that crosses on event e, the client asks to leave if and only if
   the server's reports moved back: by 6 from the entry report, or by the client's
   width less one from any later report.
   */
  lemma LeaveIffMovedBack(s: Snapshot, e: Event, rest: seq<Action>, c: Cursor)
    requires Crosses(s, Input(e)) && StaysRemote(Act(s, Input(e)), rest)
    requires c.width >= 1 && c.height >= 1
    ensures DeliverAll(c, Emitted(s, [Input(e)] + rest)).leave
       <==> MovedBack(ENTER_X, Reports(Act(s, Input(e)), rest), c.width)
  {
    hide Step, EmittedBy, MovedBack, ReachesLeftEdge, Drive, Reports, Differences;
    var entered := Act(s, Input(e));
    CrossingOutput(s, e);
    var opening := EmittedBy(s, Input(e));
    SingleAction(s, Input(e));
    EmittedConcat(s, [Input(e)], rest);
    DeliverConcat(c, opening, Emitted(entered, rest));
    DeliverOne(c, opening);
    var placed := DeliverAll(c, opening).cursor;
    SessionFollowsReports(entered, rest, placed);
    LeaveIff(placed, Differences(Reports(entered, rest)));
    MovedBackIffReaches(ENTER_X, Reports(entered, rest), c.width);
  }

  /**
   Over a session the client's cursor starts at x = 6, half-way down its screen, and
   walks between the edges of its screen as the server's reports differ.
   */
  lemma SessionWalks(s: Snapshot, e: Event, rest: seq<Action>, c: Cursor)
    requires Crosses(s, Input(e)) && StaysRemote(Act(s, Input(e)), rest)
    requires c.width >= 1 && c.height >= 1
    ensures var ds := Differences(Reports(Act(s, Input(e)), rest));
            DeliverAll(c, Emitted(s, [Input(e)] + rest)).cursor
            == Cursor(c.width, c.height, Walk(6, Across(ds), c.width - 1), Walk(c.height / 2, Down(ds), c.height - 1))
  {
    hide Step, EmittedBy, Drive, Reports, Differences, Walk;
    var entered := Act(s, Input(e));
    CrossingOutput(s, e);
    var opening := EmittedBy(s, Input(e));
    SingleAction(s, Input(e));
    EmittedConcat(s, [Input(e)], rest);
    DeliverConcat(c, opening, Emitted(entered, rest));
    DeliverOne(c, opening);
    var placed := DeliverAll(c, opening).cursor;
    SessionFollowsReports(entered, rest, placed);
    CursorWalks(placed, Differences(Reports(entered, rest)));
  }

  /** Without its last report, a list that has not moved back moves back at that report or not at all. */
  lemma FirstMovesBackLast(start: int, ps: seq<Point>, p: Point, cw: nat)
    requires MovedBack(start, ps + [p], cw) && !MovedBack(start, ps, cw)
    ensures exists i: nat :: i < |ps| && BackFrom(start, ps + [p], cw, i, |ps|)
  {
    var i: nat, j: nat :| i < j < |ps + [p]| && BackFrom(start, ps + [p], cw, i, j);
    if j < |ps| {
      assert BackFrom(start, ps, cw, i, j);
    }
  }

  lemma NewestMovedBack(entered: Snapshot, rest: seq<Action>, cw: nat)
    requires rest != [] && cw > ENTER_X
    requires MovedBack(ENTER_X, Reports(entered, rest), cw)
    requires !MovedBack(ENTER_X, Reports(entered, rest[..|rest| - 1]), cw)
    ensures CurrentMovedBack(entered, rest, cw)
  {
    hide BackFrom, MovedBack;
    var n := |rest| - 1;
    var ps := Reports(entered, rest[..n]);
    assert Reports(entered, rest) == Reporting(ps, rest[n]);
    assert rest[n].Input? && rest[n].event.MouseMove?;
    var p := Point(rest[n].event.x, rest[n].event.y);
    FirstMovesBackLast(ENTER_X, ps, p, cw);
    var i: nat :| i < |ps| && BackFrom(ENTER_X, ps + [p], cw, i, |ps|);
    BackByEnterX(ps + [p], cw, i, |ps|);
  }

  /**
   The session's last action is a reported move, and that very report is back from an
   earlier one: by the client's width less one, or from the entry report by 6; so by 6
   at least.
   */
  ghost predicate CurrentMovedBack(entered: Snapshot, rest: seq<Action>, cw: nat) {
    && rest != [] && rest[|rest| - 1].Input? && rest[|rest| - 1].event.MouseMove?
    && var ps := Reports(entered, rest);
       var current := |ps| - 1;
       && ps[current] == Point(rest[|rest| - 1].event.x, rest[|rest| - 1].event.y)
       && exists i: nat :: i < current && BackFrom(ENTER_X, ps, cw, i, current) && ps[current].x <= ps[i].x - ENTER_X
  }

  /** No bounce-back: the client first asks to leave at a report that moved back from an earlier one. */
  lemma NoBounceBack(s: Snapshot, e: Event, rest: seq<Action>, c: Cursor)
    requires Crosses(s, Input(e)) && StaysRemote(Act(s, Input(e)), rest)
    requires c.width > ENTER_X && c.height >= 1
    requires DeliverAll(c, Emitted(s, [Input(e)] + rest)).leave
    requires rest != [] ==> !DeliverAll(c, Emitted(s, [Input(e)] + rest[..|rest| - 1])).leave
    ensures CurrentMovedBack(Act(s, Input(e)), rest, c.width)
  {
    hide Step, Emitted, DeliverAll, MovedBack, CurrentMovedBack, Reports, StaysRemote, Crosses;
    var entered := Act(s, Input(e));
    LeaveIffMovedBack(s, e, rest, c);
    if rest == [] {
      NothingMovedBack(entered, c.width);
    } else {
      StaysRemotePrefix(entered, rest, |rest| - 1);
      LeaveIffMovedBack(s, e, rest[..|rest| - 1], c);
      NewestMovedBack(entered, rest, c.width);
    }
  }

  lemma BackByEnterX(ps: seq<Point>, cw: nat, i: nat, j: nat)
    requires cw > ENTER_X && i < j < |ps| && BackFrom(ENTER_X, ps, cw, i, j)
    ensures ps[j].x <= ps[i].x - ENTER_X
  {
  }

  lemma NothingMovedBack(entered: Snapshot, cw: nat)
    ensures !MovedBack(ENTER_X, Reports(entered, []), cw)
  {
  }

  // ------------------------------------------------------------------
  // Deltas that overtake the entry
  // ------------------------------------------------------------------

  lemma StaysRemoteSplit(s: Snapshot, a: seq<Action>, b: seq<Action>)
    requires StaysRemote(s, a + b) && Run(s, a).isRemote
    ensures StaysRemote(s, a) && StaysRemote(Run(s, a), b)
  {
    hide Step, Run;
    StaysRemotePrefix(s, a + b, |a|);
    assert (a + b)[..|a|] == a;
    forall i | 0 <= i < |b| ensures !EndsSession(Run(s, a), b, i) {
      assert (a + b)[..|a| + i] == a + b[..i];
      RunConcat(s, a, b[..i]);
      assert !EndsSession(s, a + b, |a| + i);
    }
  }

  lemma SessionStaysRemote(s: Snapshot, a: seq<Action>, b: seq<Action>, c: Cursor)
    requires s.prevInitialized && StaysRemote(s, a + b) && c.width >= 1 && c.height >= 1
    ensures Run(s, a).isRemote && Run(s, a).prevInitialized
  {
    hide Step, Run;
    StaysRemotePrefix(s, a + b, |a|);
    assert (a + b)[..|a|] == a;
    SessionFollowsReports(s, a, c);
  }

  /** The client over a stretch of a session, from wherever it is. */
  lemma StretchLeaves(s: Snapshot, acts: seq<Action>, c: Cursor)
    requires s.prevInitialized && StaysRemote(s, acts) && c.width >= 1 && c.height >= 1
    ensures DeliverAll(c, Emitted(s, acts)).leave <==> MovedBack(c.x, Reports(s, acts), c.width)
  {
    hide Step, EmittedBy, MovedBack, ReachesLeftEdge, Drive, Reports, Differences;
    SessionFollowsReports(s, acts, c);
    LeaveIff(c, Differences(Reports(s, acts)));
    MovedBackIffReaches(c.x, Reports(s, acts), c.width);
  }

  /**
   The two channels are not ordered.  If the entry arrives only after what `early`
   sent, the client asks to leave if and only if the reports of `early` moved back
   from the entry report by where its cursor had been left (or later by its width
   less one), or those after it by 6 (or its width less one).
   */
  lemma LeaveIffOvertaken(s: Snapshot, e: Event, early: seq<Action>, late: seq<Action>, c: Cursor)
    requires Crosses(s, Input(e)) && StaysRemote(Act(s, Input(e)), early + late)
    requires c.width >= 1 && c.height >= 1
    ensures var entered := Act(s, Input(e));
            var mid := Run(entered, early);
            DeliverAll(c, Emitted(entered, early) + (EmittedBy(s, Input(e)) + Emitted(mid, late))).leave
            <==> MovedBack(c.x, Reports(entered, early), c.width) || MovedBack(ENTER_X, Reports(mid, late), c.width)
  {
    hide Step, Act, Emitted, EmittedBy, MovedBack, Reports, DeliverAll, Run;
    var entered := Act(s, Input(e));
    CrossingOutput(s, e);
    SessionStaysRemote(entered, early, late, c);
    StaysRemoteSplit(entered, early, late);
    var mid := Run(entered, early);
    var opening := EmittedBy(s, Input(e));
    StretchLeaves(entered, early, c);
    DeliverConcat(c, Emitted(entered, early), opening + Emitted(mid, late));
    var moved := DeliverAll(c, Emitted(entered, early)).cursor;
    DeliverConcat(moved, opening, Emitted(mid, late));
    DeliverOne(moved, opening);
    StretchLeaves(mid, late, DeliverAll(moved, opening).cursor);
  }
}
