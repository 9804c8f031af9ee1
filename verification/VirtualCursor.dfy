/**
 The server's virtual cursor over all screens (crates/ss-input/src/virtual_cursor.rs)
 and the log of boundary events it emits as screens come and go.
 */
module VirtualCursor {
  import opened Wrappers
  import opened Bytes
  import opened Layout
  import ClientCursor

  datatype BoundaryEvent = Enter(targetScreen: Id, enterX: int, enterY: int) | Leave(sourceScreen: Id)

  datatype Cursor = Cursor(x: int, y: int, screenId: Id, totalWidth: U32, maxHeight: U32)

  /** Unchecked u32 decrement. */
  function Dec32(n: U32): U32 {
    if n == 0 then 0xFFFF_FFFF else n - 1
  }

  /** Into [0, size), as the four comparisons of apply_delta do it. */
  function Confine(v: int, size: U32): int {
    var low := if v < 0 then 0 else v;
    if low >= size then Dec32(size) else low
  }

  function TallestOr(screens: seq<ScreenInfo>, default: U32): U32 {
    if screens == [] then default
    else if |screens| == 1 then screens[0].height
    else
      var rest := TallestOr(screens[..|screens| - 1], default);
      if screens[|screens| - 1].height > rest then screens[|screens| - 1].height else rest
  }

  function Refreshed(c: Cursor, screens: seq<ScreenInfo>): Cursor {
    c.(totalWidth := RightEdge(screens), maxHeight := TallestOr(screens, 1080))
  }

  datatype Moved = Moved(cursor: Cursor, event: Option<BoundaryEvent>)

  function ScreenIdAt(screens: seq<ScreenInfo>, x: int): Id {
    match ScreenAt(screens, ToU32(x))
    case Some(s) => s.id
    case None => 0
  }

  function AfterDelta(c: Cursor, dx: int, dy: int, screens: seq<ScreenInfo>): Moved {
    var x := Confine(c.x + dx, c.totalWidth);
    var y := Confine(c.y + dy, c.maxHeight);
    var id := ScreenIdAt(screens, x);
    var moved := c.(x := x, y := y, screenId := id);
    if id == c.screenId then Moved(moved, None)
    else
      match ScreenWithId(screens, id)
      case None => Moved(moved, None)
      case Some(s) =>
        Moved(moved, Some(if id == 0 then Leave(c.screenId) else Enter(id, x - s.offsetX, y)))
  }

  class VirtualCursor {
    var globalX: int
    var globalY: int
    var currentScreenId: Id
    var totalWidth: U32
    var maxHeight: U32

    function View(): Cursor
      reads this
    {
      Cursor(globalX, globalY, currentScreenId, totalWidth, maxHeight)
    }

    constructor (serverWidth: U32, serverHeight: U32)
      ensures View() == Cursor(serverWidth / 2, serverHeight / 2, 0, serverWidth, serverHeight)
      ensures View() == Start(serverWidth, serverHeight).cursor
    {
      globalX, globalY, currentScreenId := serverWidth / 2, serverHeight / 2, 0;
      totalWidth, maxHeight := serverWidth, serverHeight;
    }

    method UpdateBounds(coord: CoordinateSystem)
      modifies this
      ensures View() == Refreshed(old(View()), coord.screens)
    {
      totalWidth := RightEdge(coord.screens);
      maxHeight := TallestOr(coord.screens, 1080);
    }

    method SetPosition(x: int, y: int)
      modifies this
      ensures View() == old(View()).(x := x, y := y)
    {
      globalX := x;
      globalY := y;
    }

    method ApplyDelta(dx: int, dy: int, coord: CoordinateSystem) returns (event: Option<BoundaryEvent>)
      modifies this
      ensures Moved(View(), event) == AfterDelta(old(View()), dx, dy, coord.screens)
    {
      globalX := globalX + dx;
      globalY := globalY + dy;
      if globalX < 0 {
        globalX := 0;
      }
      if globalX >= totalWidth {
        globalX := Dec32(totalWidth);
      }
      if globalY < 0 {
        globalY := 0;
      }
      if globalY >= maxHeight {
        globalY := Dec32(maxHeight);
      }
      var newScreenId := ScreenIdAt(coord.screens, globalX);
      if newScreenId == currentScreenId {
        return None;
      }
      var oldScreenId := currentScreenId;
      currentScreenId := newScreenId;
      var newScreen := ScreenWithId(coord.screens, newScreenId);
      if newScreen.None? {
        return None;
      }
      if newScreenId == 0 {
        return Some(Leave(oldScreenId));
      }
      return Some(Enter(newScreenId, globalX - newScreen.value.offsetX, globalY));
    }

    /** Local coordinates on the screen under the cursor, or the global ones off all screens. */
    method LocalPosition(coord: CoordinateSystem) returns (p: Point)
      ensures var l := GlobalToLocal(coord.screens, globalX, globalY);
              p == if l.Some? then Point(l.value.x, l.value.y) else Point(globalX, globalY)
    {
      var screen := ScreenAt(coord.screens, ToU32(globalX));
      if screen.Some? {
        return Point(globalX - screen.value.offsetX, globalY);
      }
      return Point(globalX, globalY);
    }
  }

  // ------------------------------------------------------------------
  // Runs of deltas and layout changes
  // ------------------------------------------------------------------

  /** The layout, the cursor, and every event emitted so far. */
  datatype Desk = Desk(screens: seq<ScreenInfo>, cursor: Cursor, log: seq<BoundaryEvent>)

  /** Bounds are refreshed with every layout change. */
  datatype Action =
    | Delta(dx: int, dy: int)
    | AddScreen(screen: Screen)
    | RemoveScreen(id: Id)
    | SetPosition(x: int, y: int)

  function Start(width: U32, height: U32): Desk {
    Desk([ScreenInfo(0, "server", width, height, 0)], Cursor(width / 2, height / 2, 0, width, height), [])
  }

  function Relayout(d: Desk, screens: seq<ScreenInfo>): Desk {
    d.(screens := screens, cursor := Refreshed(d.cursor, screens))
  }

  function Step(d: Desk, a: Action): Desk {
    match a
    case Delta(dx, dy) =>
      var m := AfterDelta(d.cursor, dx, dy, d.screens);
      d.(cursor := m.cursor, log := d.log + if m.event.Some? then [m.event.value] else [])
    case AddScreen(s) => Relayout(d, Added(d.screens, s.id, s.name, s.width, s.height))
    case RemoveScreen(id) => Relayout(d, Removed(d.screens, id))
    case SetPosition(x, y) => d.(cursor := d.cursor.(x := x, y := y))
  }

  /** Screen 0 is never removed, ids are not reused while in use, and widths fit a u32. */
  predicate Allowed(d: Desk, a: Action) {
    match a
    case AddScreen(s) =>
      (forall t :: t in d.screens ==> t.id != s.id) && TotalWidth(d.screens) + s.width < 0x1_0000_0000
    case RemoveScreen(id) => id != 0
    case _ => true
  }

  function Run(d: Desk, acts: seq<Action>): Desk {
    if acts == [] then d else Step(Run(d, acts[..|acts| - 1]), acts[|acts| - 1])
  }

  predicate AllAllowed(d: Desk, acts: seq<Action>) {
    forall i :: 0 <= i < |acts| ==> Allowed(Run(d, acts[..i]), acts[i])
  }

  /** The screen a reader of the log believes the cursor is on; None if a Leave names another one. */
  function Replay(log: seq<BoundaryEvent>): Option<Id> {
    if log == [] then Some(0) else
      var current :- Replay(log[..|log| - 1]);
      match log[|log| - 1]
      case Enter(target, _, _) => Some(target)
      case Leave(source) => if source == current then Some(0) else None
  }

  predicate LayoutSound(screens: seq<ScreenInfo>) {
    && Tiled(screens) && UniqueIds(screens)
    && screens != [] && screens[0].id == 0 && screens[0].width > 0 && screens[0].height > 0
  }

  /** The height of the tallest screen. */
  predicate IsTallest(screens: seq<ScreenInfo>, h: U32) {
    (forall s :: s in screens ==> s.height <= h) && (exists s :: s in screens && s.height == h)
  }

  predicate DeskSound(d: Desk) {
    && LayoutSound(d.screens)
    && d.cursor.totalWidth == TotalWidth(d.screens)
    && IsTallest(d.screens, d.cursor.maxHeight)
    && Replay(d.log) == Some(d.cursor.screenId)
  }

  lemma TallestSnoc(screens: seq<ScreenInfo>, s: ScreenInfo, h: U32)
    requires IsTallest(screens, h)
    ensures IsTallest(screens + [s], if s.height > h then s.height else h)
  {
    var all := screens + [s];
    var t :| t in screens && t.height == h;
    assert t in all && s in all;
    forall u | u in all ensures u.height <= (if s.height > h then s.height else h) {
      assert u in screens || u == s;
    }
  }

  /** The vertical bound is the height of the tallest screen. */
  lemma {:induction false} TallestExact(screens: seq<ScreenInfo>)
    requires screens != []
    ensures IsTallest(screens, TallestOr(screens, 1080))
  {
    hide IsTallest;
    var n := |screens| - 1;
    if n == 0 {
      TallestOne(screens[0]);
      assert screens == [screens[0]];
    } else {
      TallestExact(screens[..n]);
      TallestSnoc(screens[..n], screens[n], TallestOr(screens[..n], 1080));
      assert screens == screens[..n] + [screens[n]];
    }
  }

  lemma TallestOne(s: ScreenInfo)
    ensures IsTallest([s], s.height)
  {
    assert s in [s];
  }

  lemma LayoutCoversStart(screens: seq<ScreenInfo>)
    requires LayoutSound(screens)
    ensures TotalWidth(screens) > 0
  {
    WidthBeforeMonotone(screens, 1, |screens|);
    assert WidthBefore(screens, 1) == screens[0].width;
  }

  /**
   After a delta the current screen is the unique one containing the cursor, a Leave
   names the screen the cursor was on, and an Enter lands inside its target.
   */
  lemma DeltaLands(d: Desk, dx: int, dy: int)
    requires DeskSound(d)
    ensures var m := AfterDelta(d.cursor, dx, dy, d.screens);
            && 0 <= m.cursor.x < TotalWidth(d.screens) && 0 <= m.cursor.y < d.cursor.maxHeight
            && (exists i ::
                  0 <= i < |d.screens| && Covers(d.screens[i], m.cursor.x) && d.screens[i].id == m.cursor.screenId)
            && (forall i ::
                  0 <= i < |d.screens| && Covers(d.screens[i], m.cursor.x) ==> d.screens[i].id == m.cursor.screenId)
            && (m.event.Some? <==> m.cursor.screenId != d.cursor.screenId)
            && (m.event.Some? && m.event.value.Leave? ==>
                  m.cursor.screenId == 0 && m.event.value.sourceScreen == d.cursor.screenId)
            && (m.event.Some? && m.event.value.Enter? ==>
                  && m.event.value.targetScreen == m.cursor.screenId != 0
                  && LocalToGlobal(d.screens, m.event.value.targetScreen, m.event.value.enterX, m.event.value.enterY)
                     == Point(m.cursor.x, m.cursor.y)
                  && exists i :: 0 <= i < |d.screens| && d.screens[i].id == m.cursor.screenId
                       && 0 <= m.event.value.enterX < d.screens[i].width)
  {
    LayoutCoversStart(d.screens);
    assert d.screens[0] in d.screens;
    var x := Confine(d.cursor.x + dx, d.cursor.totalWidth);
    LookupExact(d.screens, x);
    var i := LookupFindsCovering(d.screens, x);
    FindById(d.screens, i);
  }

  lemma ReplaySnoc(log: seq<BoundaryEvent>, e: BoundaryEvent)
    requires Replay(log).Some?
    ensures Replay(log + [e]) ==
            match e
            case Enter(target, _, _) => Some(target)
            case Leave(source) => if source == Replay(log).value then Some(0) else None
  {
    assert (log + [e])[..|log|] == log;
  }

  lemma DeltaKeeps(d: Desk, dx: int, dy: int)
    requires DeskSound(d)
    ensures DeskSound(Step(d, Delta(dx, dy)))
  {
    hide AfterDelta, LayoutSound, Covers;
    DeltaLands(d, dx, dy);
    var m := AfterDelta(d.cursor, dx, dy, d.screens);
    BoundsKept(d.cursor, dx, dy, d.screens);
    if m.event.Some? {
      ReplaySnoc(d.log, m.event.value);
    } else {
      assert d.log + [] == d.log;
    }
  }

  lemma BoundsKept(c: Cursor, dx: int, dy: int, screens: seq<ScreenInfo>)
    ensures var n := AfterDelta(c, dx, dy, screens).cursor;
            n.totalWidth == c.totalWidth && n.maxHeight == c.maxHeight
  {
  }

  lemma AddKeepsSound(screens: seq<ScreenInfo>, s: Screen)
    requires LayoutSound(screens) && TotalWidth(screens) + s.width < 0x1_0000_0000
    requires forall t :: t in screens ==> t.id != s.id
    ensures LayoutSound(Added(screens, s.id, s.name, s.width, s.height))
  {
    hide Tiled;
    AddKeepsTiled(screens, s.id, s.name, s.width, s.height);
    forall i | 0 <= i < |screens| ensures screens[i].id != s.id {
      assert screens[i] in screens;
    }
  }

  lemma {:induction false} KeptFrom(screens: seq<ScreenInfo>, id: Id)
    ensures forall t :: t in Kept(screens, id) ==> t in screens && t.id != id
    ensures screens != [] && screens[0].id != id ==> Kept(screens, id) != [] && Kept(screens, id)[0] == screens[0]
  {
    if screens != [] {
      KeptFrom(screens[1..], id);
    }
  }

  lemma UniqueIdsCons(s: ScreenInfo, rest: seq<ScreenInfo>)
    requires UniqueIds(rest) && forall t :: t in rest ==> t.id != s.id
    ensures UniqueIds([s] + rest)
  {
    forall i, j | 0 <= i < j < |rest| + 1 ensures ([s] + rest)[i].id != ([s] + rest)[j].id {
      assert rest[j - 1] in rest;
    }
  }

  lemma {:induction false} KeptUnique(screens: seq<ScreenInfo>, id: Id)
    requires UniqueIds(screens)
    ensures UniqueIds(Kept(screens, id))
  {
    if screens != [] {
      var rest := Kept(screens[1..], id);
      KeptUnique(screens[1..], id);
      KeptFrom(screens[1..], id);
      if screens[0].id != id {
        forall t | t in rest ensures t.id != screens[0].id {
          assert t in screens[1..];
        }
        UniqueIdsCons(screens[0], rest);
      } else {
        assert Kept(screens, id) == rest;
      }
    }
  }

  lemma {:induction false} RelaidSameScreens(screens: seq<ScreenInfo>, from: U32)
    ensures forall i :: 0 <= i < |screens| ==>
      Relaid(screens, from)[i] == screens[i].(offsetX := Relaid(screens, from)[i].offsetX)
  {
    if screens != [] {
      var next := Add32(from, screens[0].width);
      RelaidSameScreens(screens[1..], next);
      forall i | 0 < i < |screens|
        ensures Relaid(screens, from)[i] == Relaid(screens[1..], next)[i - 1] && screens[i] == screens[1..][i - 1]
      {
      }
    }
  }

  lemma RemoveKeepsSound(screens: seq<ScreenInfo>, id: Id)
    requires LayoutSound(screens) && id != 0
    ensures LayoutSound(Removed(screens, id))
  {
    hide Tiled, Kept, Relaid;
    assert Tiled(screens);
    RemoveKeepsTiled(screens, id) by {
      TiledFits(screens);
    }
    KeptUnique(screens, id);
    KeptFrom(screens, id);
    RelaidSameScreens(Kept(screens, id), 0);
  }

  lemma TiledFits(screens: seq<ScreenInfo>)
    requires Tiled(screens)
    ensures TotalWidth(screens) < 0x1_0000_0000
  {
  }

  lemma RelayoutKeeps(d: Desk, screens: seq<ScreenInfo>)
    requires DeskSound(d) && LayoutSound(screens)
    ensures DeskSound(Relayout(d, screens))
  {
    TiledEdge(screens);
    TallestExact(screens);
  }

  lemma StepKeeps(d: Desk, a: Action)
    requires DeskSound(d) && Allowed(d, a)
    ensures DeskSound(Step(d, a))
  {
    hide LayoutSound, AfterDelta, Relayout;
    match a {
      case Delta(dx, dy) => DeltaKeeps(d, dx, dy);
      case AddScreen(s) =>
        AddKeepsSound(d.screens, s);
        RelayoutKeeps(d, Added(d.screens, s.id, s.name, s.width, s.height));
      case RemoveScreen(id) =>
        RemoveKeepsSound(d.screens, id);
        RelayoutKeeps(d, Removed(d.screens, id));
      case SetPosition(_, _) =>
    }
  }

  /**
   Over any run of deltas and layout changes, replaying the emitted events from the
   server's screen gives the cursor's current screen, and every Leave names the
   screen replayed so far.
   */
  lemma {:induction false} BoundaryLogReplays(width: U32, height: U32, acts: seq<Action>)
    requires width > 0 && height > 0 && AllAllowed(Start(width, height), acts)
    ensures var end := Run(Start(width, height), acts);
            DeskSound(end) && Replay(end.log) == Some(end.cursor.screenId)
  {
    var d := Start(width, height);
    if acts == [] {
      assert WidthBefore(d.screens, 1) == WidthBefore(d.screens, 0) + width;
      assert d.screens[0] in d.screens;
    } else {
      var n := |acts| - 1;
      ExtendRun(d, acts, n);
      BoundaryLogReplays(width, height, acts[..n]);
      StepKeeps(Run(d, acts[..n]), acts[n]);
    }
  }

  lemma ExtendRun(d: Desk, acts: seq<Action>, n: nat)
    requires AllAllowed(d, acts) && n < |acts|
    ensures AllAllowed(d, acts[..n]) && Allowed(Run(d, acts[..n]), acts[n])
  {
    hide Allowed, Run;
    forall i | 0 <= i < n ensures Allowed(Run(d, acts[..n][..i]), acts[..n][i]) {
      assert acts[..n][..i] == acts[..i];
    }
  }

  // ------------------------------------------------------------------
  // Where deltas take the cursor
  // ------------------------------------------------------------------

  function Deltas(ds: seq<ClientCursor.Delta>): (acts: seq<Action>)
    ensures |acts| == |ds|
  {
    seq(|ds|, i requires 0 <= i < |ds| => Delta(ds[i].dx, ds[i].dy))
  }

  /** What a sound desk says of its bounds. */
  lemma DeskBounds(d: Desk)
    requires DeskSound(d)
    ensures d.cursor.totalWidth == TotalWidth(d.screens) > 0 && d.cursor.maxHeight > 0
  {
    hide Tiled, UniqueIds, TotalWidth, WidthBefore, Replay;
    LayoutCoversStart(d.screens);
    assert d.screens[0] in d.screens;
  }

  lemma WalkOne(v: int, step: int, size: U32)
    requires size > 0
    ensures ClientCursor.Walk(v, [step], size - 1) == Confine(v + step, size)
  {
    assert [step][..0] == [];
    assert ClientCursor.Walk(v, [], size - 1) == v;
  }

  lemma DeltaMoves(d: Desk, dx: int, dy: int)
    ensures var m := Step(d, Delta(dx, dy));
            && m.screens == d.screens && m.cursor.maxHeight == d.cursor.maxHeight
            && m.cursor.x == Confine(d.cursor.x + dx, d.cursor.totalWidth)
            && m.cursor.y == Confine(d.cursor.y + dy, d.cursor.maxHeight)
  {
    hide ScreenIdAt, ScreenWithId, Confine;
  }

  lemma WalkSnoc(start: int, steps: seq<int>, step: int, hi: nat)
    ensures ClientCursor.Walk(start, steps + [step], hi)
         == ClientCursor.Walk(ClientCursor.Walk(start, steps, hi), [step], hi)
  {
    assert (steps + [step])[..|steps|] == steps && [step][..0] == [];
  }

  lemma DeltasSnoc(ds: seq<ClientCursor.Delta>)
    requires ds != []
    ensures var n := |ds| - 1;
            && Deltas(ds)[..n] == Deltas(ds[..n]) && Deltas(ds)[n] == Delta(ds[n].dx, ds[n].dy)
            && ClientCursor.Across(ds) == ClientCursor.Across(ds[..n]) + [ds[n].dx]
            && ClientCursor.Down(ds) == ClientCursor.Down(ds[..n]) + [ds[n].dy]
  {
  }

  /**
   Between layout changes the cursor walks by its deltas between the edges of the whole
   desk: 0 and the total width across, 0 and the tallest screen's height down.
   */
  lemma {:induction false} CursorWalks(d: Desk, ds: seq<ClientCursor.Delta>)
    requires DeskSound(d)
    ensures TotalWidth(d.screens) > 0 && d.cursor.maxHeight > 0
    ensures var end := Run(d, Deltas(ds));
            && DeskSound(end) && end.screens == d.screens && end.cursor.maxHeight == d.cursor.maxHeight
            && end.cursor.x == ClientCursor.Walk(d.cursor.x, ClientCursor.Across(ds), TotalWidth(d.screens) - 1)
            && end.cursor.y == ClientCursor.Walk(d.cursor.y, ClientCursor.Down(ds), d.cursor.maxHeight - 1)
  {
    hide Step, DeskSound, ClientCursor.Walk, ClientCursor.Across, ClientCursor.Down, Deltas, Confine, TotalWidth;
    DeskBounds(d);
    if ds == [] {
      NoWalk(d.cursor.x, TotalWidth(d.screens) - 1);
      NoWalk(d.cursor.y, d.cursor.maxHeight - 1);
    } else {
      var n := |ds| - 1;
      CursorWalks(d, ds[..n]);
      DeltasSnoc(ds);
      var before := Run(d, Deltas(ds[..n]));
      DeskBounds(before);
      DeltaMoves(before, ds[n].dx, ds[n].dy);
      DeltaKeeps(before, ds[n].dx, ds[n].dy);
      WalkSnoc(d.cursor.x, ClientCursor.Across(ds[..n]), ds[n].dx, TotalWidth(d.screens) - 1);
      WalkSnoc(d.cursor.y, ClientCursor.Down(ds[..n]), ds[n].dy, d.cursor.maxHeight - 1);
      WalkOne(before.cursor.x, ds[n].dx, before.cursor.totalWidth);
      WalkOne(before.cursor.y, ds[n].dy, before.cursor.maxHeight);
    }
  }

  lemma NoWalk(start: int, hi: nat)
    ensures ClientCursor.Walk(start, ClientCursor.Across([]), hi) == start
    ensures ClientCursor.Walk(start, ClientCursor.Down([]), hi) == start
  {
  }

  /** Without any screen the desk has no width, and the height of a common one. */
  lemma BoundsWithoutScreens(c: Cursor)
    ensures Refreshed(c, []).totalWidth == 0 && Refreshed(c, []).maxHeight == 1080
  {
  }

  /** A cursor that is placed walks on from where it was placed. */
  lemma PlacedWalks(d: Desk, x: int, y: int, ds: seq<ClientCursor.Delta>)
    requires DeskSound(d)
    ensures TotalWidth(d.screens) > 0 && d.cursor.maxHeight > 0
    ensures var end := Run(Step(d, SetPosition(x, y)), Deltas(ds));
            && end.cursor.x == ClientCursor.Walk(x, ClientCursor.Across(ds), TotalWidth(d.screens) - 1)
            && end.cursor.y == ClientCursor.Walk(y, ClientCursor.Down(ds), d.cursor.maxHeight - 1)
  {
    hide DeskSound, Run, ClientCursor.Walk, TotalWidth;
    StepKeeps(d, SetPosition(x, y));
    CursorWalks(Step(d, SetPosition(x, y)), ds);
  }

  /** Off all screens the cursor counts as on the server's. */
  lemma NoScreenIsServer(c: Cursor, dx: int, dy: int, screens: seq<ScreenInfo>)
    requires ScreenAt(screens, ToU32(AfterDelta(c, dx, dy, screens).cursor.x)).None?
    ensures AfterDelta(c, dx, dy, screens).cursor.screenId == 0
  {
  }
}
