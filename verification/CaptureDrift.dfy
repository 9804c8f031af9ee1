/**
 The logical cursor of the capture callback against the real one.

 The real cursor is observed, not modelled by the callback: it starts at the
 first report and takes the clamped movement of every event that is passed on.
 The source's comment at warp_capture.rs:139-142 claims that restoring the
 frozen point on exit puts the two back in sync.  The crossing event itself is
 counted in the frozen point but suppressed, so that is not so; what holds is a
 bound by the movement of the crossing events, and an exact condition.
 */
module CaptureDrift {
  import opened Capture
  import opened CaptureRuns

  /** A run's state, the real cursor, and the movement of the crossing events so far. */
  datatype Observed = Observed(s: Snapshot, realX: int, realY: int, budgetX: nat, budgetY: nat)

  function Observe(o: Observed, a: Action): Observed {
    var next := Act(o.s, a);
    if !a.Input? || !a.event.MouseMove? then
      o.(s := next)
    else
      var x, y := a.event.x, a.event.y;
      var dx, dy := DeltaX(o.s, x), DeltaY(o.s, y);
      var moved :=
        if !o.s.prevInitialized then
          o.(realX := Clamp(x, 0, o.s.width), realY := Clamp(y, 0, o.s.height))
        else if Step(o.s, a.event).passed then
          o.(realX := Clamp(o.realX + dx, 0, o.s.width), realY := Clamp(o.realY + dy, 0, o.s.height))
        else o;
      if Crosses(o.s, a) then
        moved.(s := next, budgetX := o.budgetX + Abs(dx), budgetY := o.budgetY + Abs(dy))
      else
        moved.(s := next)
  }

  function ObserveRun(o: Observed, acts: seq<Action>): Observed
    ensures ObserveRun(o, acts).s == Run(o.s, acts)
  {
    if acts == [] then o else Observe(ObserveRun(o, acts[..|acts| - 1]), acts[|acts| - 1])
  }

  lemma ObserveSnoc(o: Observed, acts: seq<Action>, a: Action)
    ensures ObserveRun(o, acts + [a]) == Observe(ObserveRun(o, acts), a)
  {
    assert (acts + [a])[..|acts + [a]| - 1] == acts;
  }

  function Unobserved(width: nat, height: nat): Observed {
    Observed(Initial(width, height), width / 2, height / 2, 0, 0)
  }

  /** Clamping never moves two points further apart. */
  lemma ClampNonExpansive(a: int, b: int, hi: nat)
    ensures Abs(Clamp(a, 0, hi) - Clamp(b, 0, hi)) <= Abs(a - b)
  {
  }

  lemma AxisDrift(believed: int, actual: int, delta: int, budget: nat, hi: nat)
    requires Abs(believed - actual) <= budget && 0 <= actual <= hi
    ensures Abs(Clamp(believed + delta, 0, hi) - Clamp(actual + delta, 0, hi)) <= budget
    ensures Abs(Clamp(believed + delta, 0, hi) - actual) <= budget + Abs(delta)
  {
    ClampNonExpansive(believed + delta, actual + delta, hi);
    ClampNonExpansive(believed + delta, actual, hi);
  }

  /** The two cursors are within the budget on both axes. */
  predicate Near(o: Observed, x: int, y: int) {
    Abs(x - o.realX) <= o.budgetX && Abs(y - o.realY) <= o.budgetY
  }

  /** The callback's idea of where the real cursor is. */
  function BelievedX(s: Snapshot): int {
    if s.isRemote then s.frozenX else s.posX
  }

  function BelievedY(s: Snapshot): int {
    if s.isRemote then s.frozenY else s.posY
  }

  predicate WithinBudget(o: Observed) {
    && (o.s.isRemote ==> o.s.prevInitialized)
    && (o.s.prevInitialized ==>
          && 0 <= o.realX <= o.s.width && 0 <= o.realY <= o.s.height
          && Near(o, BelievedX(o.s), BelievedY(o.s)))
  }

  /** How a callback moves the believed position: not at all, or by the clamped delta. */
  lemma BelievedStep(s: Snapshot, e: Event)
    requires s.isRemote ==> s.prevInitialized
    ensures var r := Step(s, e);
            && r.next.width == s.width && r.next.height == s.height
            && (s.prevInitialized || e.MouseMove? <==> r.next.prevInitialized)
            && (r.next.isRemote ==> r.next.prevInitialized)
            && (if e.MouseMove? && !s.prevInitialized then
                  BelievedX(r.next) == Clamp(e.x, 0, s.width) && BelievedY(r.next) == Clamp(e.y, 0, s.height)
                else if e.MouseMove? && (r.passed || Crosses(s, Input(e))) then
                  && BelievedX(r.next) == Clamp(BelievedX(s) + DeltaX(s, e.x), 0, s.width)
                  && BelievedY(r.next) == Clamp(BelievedY(s) + DeltaY(s, e.y), 0, s.height)
                else
                  BelievedX(r.next) == BelievedX(s) && BelievedY(r.next) == BelievedY(s))
  {
  }

  lemma ObserveKeepsBudget(o: Observed, a: Action)
    requires WithinBudget(o)
    ensures WithinBudget(Observe(o, a))
  {
    hide Step, Clamp;
    if a.Input? {
      BelievedStep(o.s, a.event);
      if a.event.MouseMove? && o.s.prevInitialized {
        AxisDrift(BelievedX(o.s), o.realX, DeltaX(o.s, a.event.x), o.budgetX, o.s.width);
        AxisDrift(BelievedY(o.s), o.realY, DeltaY(o.s, a.event.y), o.budgetY, o.s.height);
      }
    }
  }

  /** In every run the drift is at most the movement of the crossing events so far. */
  lemma {:induction false} DriftBound(width: nat, height: nat, acts: seq<Action>)
    ensures WithinBudget(ObserveRun(Unobserved(width, height), acts))
  {
    if acts != [] {
      DriftBound(width, height, acts[..|acts| - 1]);
      ObserveKeepsBudget(ObserveRun(Unobserved(width, height), acts[..|acts| - 1]), acts[|acts| - 1]);
    }
  }

  lemma ObserveSpendsOnlyOnCrossing(o: Observed, a: Action)
    ensures !Crosses(o.s, a) ==> Observe(o, a).budgetX == o.budgetX && Observe(o, a).budgetY == o.budgetY
  {
  }

  lemma {:induction false} NoCrossingNoBudget(width: nat, height: nat, acts: seq<Action>)
    requires forall i :: 0 <= i < |acts| ==> !StartsSession(Initial(width, height), acts, i)
    ensures var o := ObserveRun(Unobserved(width, height), acts); o.budgetX == 0 && o.budgetY == 0
  {
    if acts != [] {
      var front := acts[..|acts| - 1];
      forall i | 0 <= i < |front| ensures !StartsSession(Initial(width, height), front, i) {
        assert front[..i] == acts[..i];
        assert !StartsSession(Initial(width, height), acts, i);
      }
      NoCrossingNoBudget(width, height, front);
      assert !StartsSession(Initial(width, height), acts, |front|);
      ObserveSpendsOnlyOnCrossing(ObserveRun(Unobserved(width, height), front), acts[|front|]);
    }
  }

  /** Until the first crossing the logical cursor is exactly the real one. */
  lemma InSyncBeforeFirstCrossing(width: nat, height: nat, acts: seq<Action>)
    requires forall i :: 0 <= i < |acts| ==> !StartsSession(Initial(width, height), acts, i)
    ensures var o := ObserveRun(Unobserved(width, height), acts);
            o.s.prevInitialized && !o.s.isRemote ==> o.s.posX == o.realX && o.s.posY == o.realY
  {
    DriftBound(width, height, acts);
    NoCrossingNoBudget(width, height, acts);
  }

  // ------------------------------------------------------------------
  // Which events are kept from the local machine
  // ------------------------------------------------------------------

  /** Where the callback believes the cursor will be, given the real one and how far it is off. */
  function Expected(o: Observed, before: seq<Action>, x: int): int {
    match LastReport(before)
    case None => x
    case Some(last) =>
      var drift := BelievedX(o.s) - o.realX;
      o.realX + drift + (x - last.0)
  }

  function Ahead(s: Snapshot, x: int): int {
    if s.prevInitialized then BelievedX(s) + (x - s.prevX) else x
  }

  lemma SuppressedStep(s: Snapshot, e: Event)
    requires s.isRemote ==> s.prevInitialized
    ensures !Step(s, e).passed <==>
            s.hasClient && ((s.isRemote && !s.exitRemote)
                            || (e.MouseMove? && (Ahead(s, e.x) >= s.width - 1 || s.width <= 1)))
  {
    if e.MouseMove? && !ExitCheck(s).isRemote {
      assert Track(ExitCheck(s), e.x, e.y).posX == Clamp(Ahead(s, e.x), 0, s.width);
    }
  }

  /**
   In every run: an event is kept from the local machine if and only if a client is
   there and either the session goes on, unasked to end, or the event is a report by
   which the believed cursor reaches the last column (as it always is on a screen of
   one column).
   */
  lemma SuppressedIff(width: nat, height: nat, acts: seq<Action>, i: nat)
    requires i < |acts| && acts[i].Input?
    ensures var before, e := acts[..i], acts[i].event;
            var o := ObserveRun(Unobserved(width, height), before);
            && (Suppresses(o.s, acts[i]) <==>
                  Present(before) && ((o.s.isRemote && !Requested(before))
                                      || (e.MouseMove? && (Expected(o, before, e.x) >= width - 1 || width <= 1))))
  {
    hide Step, Observe;
    DriftBound(width, height, acts[..i]);
    StateOfRun(width, height, acts[..i]);
    SuppressedStep(Run(Initial(width, height), acts[..i]), acts[i].event);
  }

  /**
   A later session begins where the real cursor would reach the last column, give or
   take the movement of the crossings before it.
   */
  lemma CrossingWithinBudget(width: nat, height: nat, acts: seq<Action>, i: nat)
    requires width >= 2 && i < |acts| && acts[i].Input? && acts[i].event.MouseMove?
    requires LastReport(acts[..i]).Some? && Present(acts[..i])
    ensures var o := ObserveRun(Unobserved(width, height), acts[..i]);
            var target := o.realX + (acts[i].event.x - LastReport(acts[..i]).value.0);
            && (target >= width - 1 + o.budgetX ==> Suppresses(o.s, acts[i]))
            && (Crosses(o.s, acts[i]) ==> target >= width - 1 - o.budgetX)
  {
    hide Step, Observe;
    DriftBound(width, height, acts[..i]);
    StateOfRun(width, height, acts[..i]);
    SuppressedIff(width, height, acts, i);
    CrossingSuppresses(Run(Initial(width, height), acts[..i]), acts[i]);
  }

  lemma CrossingSuppresses(s: Snapshot, a: Action)
    ensures Crosses(s, a) ==> Suppresses(s, a) && !(s.isRemote && !s.exitRemote && s.hasClient)
  {
  }

  // ------------------------------------------------------------------
  // When leaving remote mode does restore the real position
  // ------------------------------------------------------------------

  /** The movement is entirely lost to the clamp at the edge the cursor is on. */
  predicate Absorbed(delta: int, at: int, hi: nat) {
    delta == 0 || (delta > 0 && at == hi) || (delta < 0 && at == 0)
  }

  lemma ObserveFrozen(o: Observed, a: Action)
    requires o.s.isRemote && o.s.prevInitialized && !(a.Input? && Exits(o.s))
    ensures var n := Observe(o, a);
            && n.s.isRemote && n.s.prevInitialized && n.s.width == o.s.width && n.s.height == o.s.height
            && n.s.frozenX == o.s.frozenX && n.s.frozenY == o.s.frozenY
            && n.realX == o.realX && n.realY == o.realY
  {
  }

  lemma {:induction false} SessionFreezesBoth(o: Observed, acts: seq<Action>)
    requires o.s.prevInitialized && StaysRemote(o.s, acts)
    ensures var n := ObserveRun(o, acts);
            && n.s.isRemote && n.s.prevInitialized
            && n.s.frozenX == o.s.frozenX && n.s.frozenY == o.s.frozenY
            && n.realX == o.realX && n.realY == o.realY
  {
    hide Step;
    hide Observe;
    if acts != [] {
      var front := acts[..|acts| - 1];
      StaysRemotePrefix(o.s, acts, |front|);
      SessionFreezesBoth(o, front);
      assert !EndsSession(o.s, acts, |front|);
      ObserveFrozen(ObserveRun(o, front), acts[|front|]);
    }
  }

  /** The callback believes the real cursor to be where it is, once it has seen a report. */
  predicate InSync(o: Observed) {
    o.s.prevInitialized ==> BelievedX(o.s) == o.realX && BelievedY(o.s) == o.realY
  }

  /** The real cursor is on the screen, and remote mode was entered by a report. */
  predicate Placed(o: Observed) {
    && (o.s.isRemote ==> o.s.prevInitialized)
    && (o.s.prevInitialized ==> 0 <= o.realX <= o.s.width && 0 <= o.realY <= o.s.height)
  }

  /** If the action crosses, its movement is lost to the edges on both axes. */
  predicate CrossingAbsorbed(o: Observed, a: Action) {
    Crosses(o.s, a) ==>
      && Absorbed(DeltaX(o.s, a.event.x), o.realX, o.s.width)
      && Absorbed(DeltaY(o.s, a.event.y), o.realY, o.s.height)
  }

  lemma ObserveKeepsPlaced(o: Observed, a: Action)
    requires Placed(o)
    ensures Placed(Observe(o, a))
  {
  }

  /** From a point in sync, one action stays in sync exactly if a crossing's movement is absorbed. */
  lemma SyncStep(o: Observed, a: Action)
    requires Placed(o) && InSync(o)
    ensures InSync(Observe(o, a)) <==> CrossingAbsorbed(o, a)
  {
  }

  predicate SyncAt(o: Observed, acts: seq<Action>, i: nat)
    requires i <= |acts|
  {
    InSync(ObserveRun(o, acts[..i]))
  }

  predicate AbsorbedAt(o: Observed, acts: seq<Action>, i: nat)
    requires i < |acts|
  {
    CrossingAbsorbed(ObserveRun(o, acts[..i]), acts[i])
  }

  ghost predicate AlwaysInSync(o: Observed, acts: seq<Action>) {
    forall i :: 0 <= i <= |acts| ==> SyncAt(o, acts, i)
  }

  ghost predicate CrossingsAbsorbed(o: Observed, acts: seq<Action>) {
    forall i :: 0 <= i < |acts| ==> AbsorbedAt(o, acts, i)
  }

  lemma {:induction false} RunKeepsPlaced(o: Observed, acts: seq<Action>)
    requires Placed(o)
    ensures Placed(ObserveRun(o, acts))
  {
    hide Observe, Placed;
    if acts != [] {
      RunKeepsPlaced(o, acts[..|acts| - 1]);
      ObserveKeepsPlaced(ObserveRun(o, acts[..|acts| - 1]), acts[|acts| - 1]);
    }
  }

  lemma PrefixAt(o: Observed, acts: seq<Action>, n: nat, i: nat)
    requires i <= n <= |acts|
    ensures SyncAt(o, acts[..n], i) == SyncAt(o, acts, i)
    ensures i < n ==> AbsorbedAt(o, acts[..n], i) == AbsorbedAt(o, acts, i)
  {
    hide ObserveRun, InSync, CrossingAbsorbed;
    assert acts[..n][..i] == acts[..i];
  }

  lemma SyncPrefixes(o: Observed, acts: seq<Action>)
    requires acts != []
    ensures var n := |acts| - 1;
            && (AlwaysInSync(o, acts) <==> AlwaysInSync(o, acts[..n]) && SyncAt(o, acts, n + 1))
            && (CrossingsAbsorbed(o, acts) <==> CrossingsAbsorbed(o, acts[..n]) && AbsorbedAt(o, acts, n))
  {
    hide SyncAt, AbsorbedAt;
    var n := |acts| - 1;
    forall i | 0 <= i <= n
      ensures SyncAt(o, acts[..n], i) == SyncAt(o, acts, i)
      ensures i < n ==> AbsorbedAt(o, acts[..n], i) == AbsorbedAt(o, acts, i)
    {
      PrefixAt(o, acts, n, i);
    }
  }

  /**
   From any point in sync, the logical and the real cursor agree at every point of a
   run if and only if the movement of every crossing event was absorbed at the
   screen's edges, on both axes.
   */
  lemma {:induction false} AlwaysInSyncIff(o: Observed, acts: seq<Action>)
    requires Placed(o) && InSync(o)
    ensures AlwaysInSync(o, acts) <==> CrossingsAbsorbed(o, acts)
  {
    hide Observe, Placed, InSync, CrossingAbsorbed;
    if acts == [] {
      assert acts[..0] == acts && ObserveRun(o, []) == o;
    } else {
      var n := |acts| - 1;
      AlwaysInSyncIff(o, acts[..n]);
      SyncPrefixes(o, acts);
      RunKeepsPlaced(o, acts[..n]);
      assert acts[..n + 1] == acts;
      if AlwaysInSync(o, acts[..n]) {
        PrefixAt(o, acts, n, n);
        SyncStep(ObserveRun(o, acts[..n]), acts[n]);
      }
    }
  }

  /** A crossing makes a session that froze the point it believed in. */
  lemma CrossingEnters(o: Observed, e: Event)
    requires Crosses(o.s, Input(e))
    ensures var n := Observe(o, Input(e)); n.s == Act(o.s, Input(e)) && n.s.isRemote && n.s.prevInitialized
  {
  }

  /**
   A session entered in sync restores the real position on exit if and only if the
   crossing event's own movement was absorbed at the screen's edges, on both axes.
   The crossing event may itself have ended the session before.
   */
  lemma ResyncIff(o: Observed, e: Event, rest: seq<Action>)
    requires Placed(o) && InSync(o) && Crosses(o.s, Input(e))
    requires StaysRemote(Act(o.s, Input(e)), rest)
    requires Exits(Run(Act(o.s, Input(e)), rest))
    ensures var end := ObserveRun(Observe(o, Input(e)), rest);
            var restored := ExitCheck(end.s);
            !restored.isRemote &&
            ((restored.posX == end.realX && restored.posY == end.realY) <==> CrossingAbsorbed(o, Input(e)))
  {
    hide Step, Observe, CrossingAbsorbed;
    SyncStep(o, Input(e));
    CrossingEnters(o, e);
    SessionFreezesBoth(Observe(o, Input(e)), rest);
  }

  /** First report at x = 1900, a client, a 19-pixel move onto the edge, then the client's exit request. */
  lemma OffByTheCrossing(o: Observed)
    requires o == Unobserved(1920, 1080)
    ensures var o1 := Observe(o, Input(MouseMove(1900, 500)));
            var o3 := Observe(Observe(o1, SetHasClient(true)), Input(MouseMove(1919, 500)));
            var o5 := Observe(Observe(o3, RequestExit), Input(KeyPress(30)));
            !o5.s.isRemote && o5.s.posX == 1919 && o5.realX == 1900
  {
    var o2 := Observe(Observe(o, Input(MouseMove(1900, 500))), SetHasClient(true));
    assert o2.s.posX == 1900 && o2.realX == 1900 && o2.s.prevX == 1900;
    var o3 := Observe(o2, Input(MouseMove(1919, 500)));
    assert o3.s.frozenX == 1919 && o3.s.isRemote && o3.realX == 1900;
  }

  /** A run after which the restored cursor is 19 pixels off: the claim of exact resync fails. */
  lemma ResyncCounterexample()
    ensures var acts := [Input(MouseMove(1900, 500)), SetHasClient(true), Input(MouseMove(1919, 500)), RequestExit,
                         Input(KeyPress(30))];
            var o := ObserveRun(Unobserved(1920, 1080), acts);
            !o.s.isRemote && o.s.posX == 1919 && o.realX == 1900
  {
    hide Step, Observe, Unobserved;
    var a0, a1, a2, a3, a4 :=
      Input(MouseMove(1900, 500)), SetHasClient(true), Input(MouseMove(1919, 500)), RequestExit, Input(KeyPress(30));
    var o := Unobserved(1920, 1080);
    OffByTheCrossing(o);
    assert [] + [a0] == [a0] && [a0] + [a1] == [a0, a1] && [a0, a1] + [a2] == [a0, a1, a2];
    assert [a0, a1, a2] + [a3] == [a0, a1, a2, a3] && [a0, a1, a2, a3] + [a4] == [a0, a1, a2, a3, a4];
    ObserveSnoc(o, [], a0);
    ObserveSnoc(o, [a0], a1);
    ObserveSnoc(o, [a0, a1], a2);
    ObserveSnoc(o, [a0, a1, a2], a3);
    ObserveSnoc(o, [a0, a1, a2, a3], a4);
  }
}
