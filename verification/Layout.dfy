/**
 The horizontal screen layout (crates/ss-input/src/boundary.rs): screens with
 cached 32-bit offsets, lookup by global x, and local/global conversion.
 */
module Layout {
  import opened Wrappers
  import opened Bytes

  type Id = i: nat | i < 256

  datatype ScreenInfo = ScreenInfo(id: Id, name: string, width: U32, height: U32, offsetX: U32)

  /** Unchecked u32 addition. */
  function Add32(a: U32, b: U32): U32 {
    if a + b < 0x1_0000_0000 then a + b else a + b - 0x1_0000_0000
  }

  /** Largest right edge, or 0 without screens. */
  function RightEdge(screens: seq<ScreenInfo>): U32 {
    if screens == [] then 0 else
      var rest := RightEdge(screens[..|screens| - 1]);
      var last := screens[|screens| - 1];
      var edge := Add32(last.offsetX, last.width);
      if edge > rest then edge else rest
  }

  function Added(screens: seq<ScreenInfo>, id: Id, name: string, width: U32, height: U32): seq<ScreenInfo> {
    screens + [ScreenInfo(id, name, width, height, RightEdge(screens))]
  }

  function Kept(screens: seq<ScreenInfo>, id: Id): seq<ScreenInfo> {
    if screens == [] then [] else (if screens[0].id != id then [screens[0]] else []) + Kept(screens[1..], id)
  }

  /** Offsets rewritten left to right, starting at `from`. */
  function Relaid(screens: seq<ScreenInfo>, from: U32): (r: seq<ScreenInfo>)
    ensures |r| == |screens|
  {
    if screens == [] then [] else
      [screens[0].(offsetX := from)] + Relaid(screens[1..], Add32(from, screens[0].width))
  }

  function Removed(screens: seq<ScreenInfo>, id: Id): seq<ScreenInfo> {
    Relaid(Kept(screens, id), 0)
  }

  /** `global_x as u32` saturates. */
  function ToU32(x: int): U32 {
    if x < 0 then 0 else if x >= 0x1_0000_0000 then 0xFFFF_FFFF else x
  }

  predicate Covers(s: ScreenInfo, x: U32) {
    s.offsetX <= x < Add32(s.offsetX, s.width)
  }

  /** The first screen covering x. */
  function ScreenAt(screens: seq<ScreenInfo>, x: U32): Option<ScreenInfo> {
    if screens == [] then None else if Covers(screens[0], x) then Some(screens[0]) else ScreenAt(screens[1..], x)
  }

  /** The first screen with the given id. */
  function ScreenWithId(screens: seq<ScreenInfo>, id: Id): Option<ScreenInfo> {
    if screens == [] then None else if screens[0].id == id then Some(screens[0]) else ScreenWithId(screens[1..], id)
  }

  datatype Point = Point(x: int, y: int)
  datatype LocalPoint = LocalPoint(id: Id, x: int, y: int)

  function LocalToGlobal(screens: seq<ScreenInfo>, id: Id, x: int, y: int): Point {
    match ScreenWithId(screens, id)
    case Some(s) => Point(s.offsetX + x, y)
    case None => Point(x, y)
  }

  function GlobalToLocal(screens: seq<ScreenInfo>, x: int, y: int): Option<LocalPoint> {
    match ScreenAt(screens, ToU32(x))
    case Some(s) => Some(LocalPoint(s.id, x - s.offsetX, y))
    case None => None
  }

  class CoordinateSystem {
    var screens: seq<ScreenInfo>

    constructor (serverWidth: U32, serverHeight: U32)
      ensures screens == [ScreenInfo(0, "server", serverWidth, serverHeight, 0)]
    {
      screens := [ScreenInfo(0, "server", serverWidth, serverHeight, 0)];
    }

    method AddScreen(id: Id, name: string, width: U32, height: U32)
      modifies this
      ensures screens == Added(old(screens), id, name, width, height)
    {
      var offsetX := RightEdge(screens);
      screens := screens + [ScreenInfo(id, name, width, height, offsetX)];
    }

    method RemoveScreen(id: Id)
      modifies this
      ensures screens == Removed(old(screens), id)
    {
      hide Relaid, Kept;
      screens := Kept(screens, id);
      ghost var kept := screens;
      var offset: U32 := 0;
      var i := 0;
      while i < |screens|
        invariant i <= |screens| == |kept|
        invariant screens[i..] == kept[i..]
        invariant screens[..i] + Relaid(kept[i..], offset) == Relaid(kept, 0)
      {
        RelaidCons(kept[i..], offset);
        assert kept[i..][0] == screens[i..][0] == screens[i] && kept[i..][1..] == kept[i + 1..];
        ghost var before := screens;
        var width := screens[i].width;
        screens := screens[i := screens[i].(offsetX := offset)];
        assert screens[..i + 1] == before[..i] + [screens[i]];
        assert screens[i + 1..] == before[i..][1..];
        offset := Add32(offset, width);
        i := i + 1;
      }
      RelaidNone(offset);
      assert screens[..i] == screens && kept[i..] == [];
    }
  }

  lemma RelaidCons(screens: seq<ScreenInfo>, from: U32)
    requires screens != []
    ensures Relaid(screens, from)
         == [screens[0].(offsetX := from)] + Relaid(screens[1..], Add32(from, screens[0].width))
  {
  }

  lemma RelaidNone(from: U32)
    ensures Relaid([], from) == []
  {
  }

  // ------------------------------------------------------------------
  // Cached offsets are prefix sums
  // ------------------------------------------------------------------

  /** Sum of the widths of the first k screens. */
  function WidthBefore(screens: seq<ScreenInfo>, k: nat): nat
    requires k <= |screens|
  {
    if k == 0 then 0 else WidthBefore(screens, k - 1) + screens[k - 1].width
  }

  function TotalWidth(screens: seq<ScreenInfo>): nat {
    WidthBefore(screens, |screens|)
  }

  /** Every offset is the width before it, and nothing overflows. */
  predicate Tiled(screens: seq<ScreenInfo>) {
    && TotalWidth(screens) < 0x1_0000_0000
    && forall i :: 0 <= i < |screens| ==> screens[i].offsetX == WidthBefore(screens, i)
  }

  lemma {:induction false} WidthBeforePrefix(screens: seq<ScreenInfo>, more: seq<ScreenInfo>, k: nat)
    requires k <= |screens|
    ensures WidthBefore(screens + more, k) == WidthBefore(screens, k)
  {
    if k > 0 {
      WidthBeforePrefix(screens, more, k - 1);
    }
  }

  lemma {:induction false} WidthBeforeMonotone(screens: seq<ScreenInfo>, i: nat, j: nat)
    requires i <= j <= |screens|
    ensures WidthBefore(screens, i) <= WidthBefore(screens, j)
  {
    if i < j {
      WidthBeforeMonotone(screens, i, j - 1);
    }
  }

  lemma {:induction false} WidthBeforeTail(screens: seq<ScreenInfo>, k: nat)
    requires 0 < k <= |screens|
    ensures WidthBefore(screens, k) == screens[0].width + WidthBefore(screens[1..], k - 1)
  {
    if k > 1 {
      WidthBeforeTail(screens, k - 1);
    }
  }

  lemma TiledPrefix(screens: seq<ScreenInfo>, n: nat)
    requires Tiled(screens) && n <= |screens|
    ensures Tiled(screens[..n]) && TotalWidth(screens[..n]) == WidthBefore(screens, n)
  {
    assert screens == screens[..n] + screens[n..];
    forall k | 0 <= k <= n ensures WidthBefore(screens[..n], k) == WidthBefore(screens, k) {
      WidthBeforePrefix(screens[..n], screens[n..], k);
    }
    WidthBeforeMonotone(screens, n, |screens|);
  }

  lemma {:induction false} TiledEdge(screens: seq<ScreenInfo>)
    requires Tiled(screens)
    ensures RightEdge(screens) == TotalWidth(screens)
  {
    if screens != [] {
      var n := |screens| - 1;
      TiledPrefix(screens, n);
      TiledEdge(screens[..n]);
    }
  }

  lemma AddKeepsTiled(screens: seq<ScreenInfo>, id: Id, name: string, width: U32, height: U32)
    requires Tiled(screens) && TotalWidth(screens) + width < 0x1_0000_0000
    ensures Tiled(Added(screens, id, name, width, height))
    ensures TotalWidth(Added(screens, id, name, width, height)) == TotalWidth(screens) + width
  {
    hide RightEdge;
    TiledEdge(screens);
    var s := ScreenInfo(id, name, width, height, RightEdge(screens));
    var n, all := |screens|, screens + [s];
    WidthBeforePrefix(screens, [s], n);
    assert TotalWidth(all) == WidthBefore(all, n) + width;
    forall i | 0 <= i < n + 1 ensures all[i].offsetX == WidthBefore(all, i) {
      WidthBeforePrefix(screens, [s], i);
    }
  }

  /** A laid-out list: offset k is `from` plus the widths before it. */
  predicate LaidFrom(screens: seq<ScreenInfo>, from: nat) {
    forall i :: 0 <= i < |screens| ==> screens[i].offsetX == from + WidthBefore(screens, i)
  }

  lemma {:induction false} RelaidLays(screens: seq<ScreenInfo>, from: U32)
    requires from + TotalWidth(screens) < 0x1_0000_0000
    ensures LaidFrom(Relaid(screens, from), from)
    ensures TotalWidth(Relaid(screens, from)) == TotalWidth(screens)
  {
    if screens != [] {
      var w := screens[0].width;
      var r := Relaid(screens, from);
      WidthBeforeTail(screens, |screens|);
      RelaidLays(screens[1..], from + w);
      assert r[1..] == Relaid(screens[1..], from + w);
      forall i | 0 < i <= |r| ensures WidthBefore(r, i) == w + WidthBefore(r[1..], i - 1) {
        WidthBeforeTail(r, i);
      }
      forall i | 0 <= i < |r| ensures r[i].offsetX == from + WidthBefore(r, i) {
        if i > 0 {
          assert r[i] == r[1..][i - 1];
        }
      }
    }
  }

  lemma {:induction false} KeptNarrower(screens: seq<ScreenInfo>, id: Id)
    ensures TotalWidth(Kept(screens, id)) <= TotalWidth(screens)
  {
    if screens != [] {
      KeptNarrower(screens[1..], id);
      WidthBeforeTail(screens, |screens|);
      var k := Kept(screens, id);
      if screens[0].id != id {
        WidthBeforeTail(k, |k|);
        assert k[1..] == Kept(screens[1..], id);
      } else {
        assert k == Kept(screens[1..], id);
      }
    }
  }

  lemma RemoveKeepsTiled(screens: seq<ScreenInfo>, id: Id)
    requires TotalWidth(screens) < 0x1_0000_0000
    ensures Tiled(Removed(screens, id)) && TotalWidth(Removed(screens, id)) <= TotalWidth(screens)
  {
    KeptNarrower(screens, id);
    RelaidLays(Kept(screens, id), 0);
  }

  // ------------------------------------------------------------------
  // Refinement of a layout without cached offsets
  // ------------------------------------------------------------------

  /** A screen as the user describes it. */
  datatype Screen = Screen(id: Id, name: string, width: U32, height: U32)

  datatype Op = Add(screen: Screen) | Remove(id: Id)

  function Abstract(screens: seq<ScreenInfo>): seq<Screen> {
    seq(|screens|, i requires 0 <= i < |screens| =>
      Screen(screens[i].id, screens[i].name, screens[i].width, screens[i].height))
  }

  function Without(ss: seq<Screen>, id: Id): seq<Screen> {
    if ss == [] then [] else (if ss[0].id != id then [ss[0]] else []) + Without(ss[1..], id)
  }

  function AbstractOp(ss: seq<Screen>, op: Op): seq<Screen> {
    match op
    case Add(s) => ss + [s]
    case Remove(id) => Without(ss, id)
  }

  function ConcreteOp(screens: seq<ScreenInfo>, op: Op): seq<ScreenInfo> {
    match op
    case Add(s) => Added(screens, s.id, s.name, s.width, s.height)
    case Remove(id) => Removed(screens, id)
  }

  function Width(ss: seq<Screen>): nat {
    if ss == [] then 0 else Width(ss[..|ss| - 1]) + ss[|ss| - 1].width
  }

  function AbstractRun(ss: seq<Screen>, ops: seq<Op>): seq<Screen> {
    if ops == [] then ss else AbstractOp(AbstractRun(ss, ops[..|ops| - 1]), ops[|ops| - 1])
  }

  function ConcreteRun(screens: seq<ScreenInfo>, ops: seq<Op>): seq<ScreenInfo> {
    if ops == [] then screens else ConcreteOp(ConcreteRun(screens, ops[..|ops| - 1]), ops[|ops| - 1])
  }

  lemma {:induction false} AbstractWidth(screens: seq<ScreenInfo>)
    ensures Width(Abstract(screens)) == TotalWidth(screens)
  {
    if screens != [] {
      var n := |screens| - 1;
      AbstractWidth(screens[..n]);
      assert Abstract(screens)[..n] == Abstract(screens[..n]);
      assert screens == screens[..n] + screens[n..];
      WidthBeforePrefix(screens[..n], screens[n..], n);
    }
  }

  lemma {:induction false} AbstractKept(screens: seq<ScreenInfo>, id: Id)
    ensures Abstract(Kept(screens, id)) == Without(Abstract(screens), id)
  {
    if screens == [] {
      assert Abstract([]) == [];
    } else {
      AbstractKept(screens[1..], id);
      assert Abstract(screens)[1..] == Abstract(screens[1..]);
      var head := if screens[0].id != id then [screens[0]] else [];
      assert Abstract(head + Kept(screens[1..], id)) == Abstract(head) + Abstract(Kept(screens[1..], id));
    }
  }

  lemma AbstractCons(s: ScreenInfo, rest: seq<ScreenInfo>)
    ensures Abstract([s] + rest) == [Screen(s.id, s.name, s.width, s.height)] + Abstract(rest)
  {
  }

  lemma {:induction false} AbstractRelaid(screens: seq<ScreenInfo>, from: U32)
    ensures Abstract(Relaid(screens, from)) == Abstract(screens)
  {
    hide Relaid, Abstract;
    if screens == [] {
      RelaidNone(from);
    } else {
      var s, next := screens[0], Add32(from, screens[0].width);
      RelaidCons(screens, from);
      AbstractRelaid(screens[1..], next);
      AbstractCons(s.(offsetX := from), Relaid(screens[1..], next));
      AbstractCons(s, screens[1..]);
      assert screens == [s] + screens[1..];
    }
  }

  lemma OpRefines(screens: seq<ScreenInfo>, op: Op)
    requires Tiled(screens) && Width(AbstractOp(Abstract(screens), op)) < 0x1_0000_0000
    ensures Tiled(ConcreteOp(screens, op))
    ensures Abstract(ConcreteOp(screens, op)) == AbstractOp(Abstract(screens), op)
  {
    AbstractWidth(screens);
    match op {
      case Add(s) =>
        var ss := Abstract(screens) + [s];
        assert ss[..|ss| - 1] == Abstract(screens);
        AddKeepsTiled(screens, s.id, s.name, s.width, s.height);
      case Remove(id) =>
        RemoveKeepsTiled(screens, id);
        AbstractKept(screens, id);
        AbstractRelaid(Kept(screens, id), 0);
    }
  }

  /** No intermediate layout of the run is wider than a u32. */
  predicate FitsThroughout(ss: seq<Screen>, ops: seq<Op>) {
    forall i :: 0 <= i <= |ops| ==> Width(AbstractRun(ss, ops[..i])) < 0x1_0000_0000
  }

  /**
   After any sequence of additions and removals the stored layout is the described
   one, with every cached offset equal to the prefix sum of the widths.
   */
  lemma {:induction false} LayoutRefinement(screens: seq<ScreenInfo>, ops: seq<Op>)
    requires Tiled(screens) && FitsThroughout(Abstract(screens), ops)
    ensures Tiled(ConcreteRun(screens, ops))
    ensures Abstract(ConcreteRun(screens, ops)) == AbstractRun(Abstract(screens), ops)
  {
    hide Tiled, ConcreteOp, AbstractOp, Abstract;
    if ops != [] {
      var n := |ops| - 1;
      forall i | 0 <= i <= n ensures Width(AbstractRun(Abstract(screens), ops[..n][..i])) < 0x1_0000_0000 {
        assert ops[..n][..i] == ops[..i];
      }
      LayoutRefinement(screens, ops[..n]);
      assert ops[..n + 1] == ops;
      OpRefines(ConcreteRun(screens, ops[..n]), ops[n]);
    }
  }

  // ------------------------------------------------------------------
  // Lookup and conversion
  // ------------------------------------------------------------------

  lemma TiledCovers(screens: seq<ScreenInfo>, i: nat, x: U32)
    requires Tiled(screens) && i < |screens|
    ensures Covers(screens[i], x) <==> WidthBefore(screens, i) <= x < WidthBefore(screens, i + 1)
  {
    WidthBeforeMonotone(screens, i + 1, |screens|);
  }

  /** The screens tile [0, total) without overlap ... */
  lemma TilesDisjoint(screens: seq<ScreenInfo>, i: nat, j: nat, x: U32)
    requires Tiled(screens) && i < |screens| && j < |screens| && Covers(screens[i], x) && Covers(screens[j], x)
    ensures i == j
  {
    hide Tiled, Covers, WidthBefore;
    TiledCovers(screens, i, x);
    TiledCovers(screens, j, x);
    if i < j {
      WidthBeforeMonotone(screens, i + 1, j);
    } else if j < i {
      WidthBeforeMonotone(screens, j + 1, i);
    }
  }

  /** ... and without a gap. */
  lemma {:induction false} TilesCover(screens: seq<ScreenInfo>, n: nat, x: U32) returns (i: nat)
    requires Tiled(screens) && n <= |screens| && x < WidthBefore(screens, n)
    ensures i < n && Covers(screens[i], x)
  {
    hide Tiled, Covers;
    if x < WidthBefore(screens, n - 1) {
      i := TilesCover(screens, n - 1, x);
    } else {
      i := n - 1;
      TiledCovers(screens, n - 1, x);
    }
  }

  lemma {:induction false} LookupFindsOnly(screens: seq<ScreenInfo>, i: nat, x: U32)
    requires i < |screens| && Covers(screens[i], x)
    requires forall j :: 0 <= j < |screens| && Covers(screens[j], x) ==> j == i
    ensures ScreenAt(screens, x) == Some(screens[i])
  {
    if i > 0 {
      assert !Covers(screens[0], x);
      forall j | 0 <= j < |screens[1..]| && Covers(screens[1..][j], x) ensures j == i - 1 {
        assert Covers(screens[j + 1], x);
      }
      LookupFindsOnly(screens[1..], i - 1, x);
    }
  }

  lemma {:induction false} LookupFindsCovering(screens: seq<ScreenInfo>, x: U32) returns (i: nat)
    requires ScreenAt(screens, x).Some?
    ensures i < |screens| && Covers(screens[i], x) && ScreenAt(screens, x) == Some(screens[i])
  {
    if Covers(screens[0], x) {
      i := 0;
    } else {
      var j := LookupFindsCovering(screens[1..], x);
      i := j + 1;
    }
  }

  /** Lookup succeeds exactly below the total width, on the one screen that covers x. */
  lemma LookupExact(screens: seq<ScreenInfo>, x: U32)
    requires Tiled(screens)
    ensures ScreenAt(screens, x).Some? <==> x < TotalWidth(screens)
    ensures forall i :: 0 <= i < |screens| && Covers(screens[i], x) ==> ScreenAt(screens, x) == Some(screens[i])
    ensures ScreenAt(screens, x).Some? ==>
      var s := ScreenAt(screens, x).value;
      s in screens && s.offsetX <= x < s.offsetX + s.width
  {
    forall i | 0 <= i < |screens| && Covers(screens[i], x) ensures ScreenAt(screens, x) == Some(screens[i]) {
      forall j | 0 <= j < |screens| && Covers(screens[j], x) ensures j == i {
        TilesDisjoint(screens, j, i, x);
      }
      LookupFindsOnly(screens, i, x);
    }
    if x < TotalWidth(screens) {
      var i := TilesCover(screens, |screens|, x);
    }
    if ScreenAt(screens, x).Some? {
      var i := LookupFindsCovering(screens, x);
      TiledCovers(screens, i, x);
      WidthBeforeMonotone(screens, i + 1, |screens|);
    }
  }

  predicate UniqueIds(screens: seq<ScreenInfo>) {
    forall i, j :: 0 <= i < j < |screens| ==> screens[i].id != screens[j].id
  }

  lemma {:induction false} FindById(screens: seq<ScreenInfo>, i: nat)
    requires UniqueIds(screens) && i < |screens|
    ensures ScreenWithId(screens, screens[i].id) == Some(screens[i])
  {
    if i > 0 {
      assert screens[0].id != screens[i].id;
      FindById(screens[1..], i - 1);
    }
  }

  /** A local point of a screen survives the trip through global coordinates. */
  lemma LocalGlobalLocal(screens: seq<ScreenInfo>, i: nat, x: int, y: int)
    requires Tiled(screens) && UniqueIds(screens) && i < |screens| && 0 <= x < screens[i].width
    ensures var g := LocalToGlobal(screens, screens[i].id, x, y);
            GlobalToLocal(screens, g.x, g.y) == Some(LocalPoint(screens[i].id, x, y))
  {
    FindById(screens, i);
    WidthBeforeMonotone(screens, i + 1, |screens|);
    TiledCovers(screens, i, screens[i].offsetX + x);
    LookupExact(screens, screens[i].offsetX + x);
  }

  /** A global point inside the layout survives the trip through local coordinates. */
  lemma GlobalLocalGlobal(screens: seq<ScreenInfo>, x: int, y: int)
    requires Tiled(screens) && UniqueIds(screens) && 0 <= x < TotalWidth(screens)
    ensures GlobalToLocal(screens, x, y).Some?
    ensures var l := GlobalToLocal(screens, x, y).value;
            LocalToGlobal(screens, l.id, l.x, l.y) == Point(x, y)
  {
    LookupExact(screens, x);
    var i := LookupFindsCovering(screens, x);
    FindById(screens, i);
  }

  lemma {:induction false} UnknownId(screens: seq<ScreenInfo>, id: Id)
    requires forall s :: s in screens ==> s.id != id
    ensures ScreenWithId(screens, id) == None
  {
    if screens != [] {
      UnknownId(screens[1..], id);
    }
  }

  /**
   Conversion is total: a screen nobody knows keeps its coordinates; left of everything
   counts as the leftmost column, and right of everything is on no screen.
   */
  lemma ConversionTotal(screens: seq<ScreenInfo>, id: Id, x: int, y: int)
    requires Tiled(screens)
    ensures (forall s :: s in screens ==> s.id != id) ==> LocalToGlobal(screens, id, x, y) == Point(x, y)
    ensures x >= TotalWidth(screens) ==> GlobalToLocal(screens, x, y) == None
    ensures x < 0 ==>
      match GlobalToLocal(screens, 0, y)
      case None => GlobalToLocal(screens, x, y) == None
      case Some(l) => GlobalToLocal(screens, x, y) == Some(LocalPoint(l.id, l.x + x, y))
  {
    if forall s :: s in screens ==> s.id != id {
      UnknownId(screens, id);
    }
    LookupExact(screens, ToU32(x));
  }

  /** The largest end of any screen, or 0 without screens. */
  predicate IsRightEdge(screens: seq<ScreenInfo>, edge: U32) {
    && (forall s :: s in screens ==> Add32(s.offsetX, s.width) <= edge)
    && (if screens == [] then edge == 0 else exists s :: s in screens && Add32(s.offsetX, s.width) == edge)
  }

  lemma RightEdgeSnoc(screens: seq<ScreenInfo>, s: ScreenInfo, edge: U32)
    requires IsRightEdge(screens, edge)
    ensures var end := Add32(s.offsetX, s.width);
            IsRightEdge(screens + [s], if end > edge then end else edge)
  {
    hide Add32;
    var all, end := screens + [s], Add32(s.offsetX, s.width);
    assert s in all;
    if screens != [] {
      var t :| t in screens && Add32(t.offsetX, t.width) == edge;
      assert t in all;
    }
    forall u | u in all ensures Add32(u.offsetX, u.width) <= (if end > edge then end else edge) {
      assert u in screens || u == s;
    }
  }

  /** The right edge is the largest end of any screen, tiled or not. */
  lemma {:induction false} RightEdgeExact(screens: seq<ScreenInfo>)
    ensures IsRightEdge(screens, RightEdge(screens))
  {
    hide Add32;
    if screens != [] {
      var n := |screens| - 1;
      RightEdgeExact(screens[..n]);
      RightEdgeSnoc(screens[..n], screens[n], RightEdge(screens[..n]));
      assert screens == screens[..n] + [screens[n]];
    }
  }
}
