/**
  Geometry of board layouts (packages/boards/src/layout.ts): the overlap test, widget sizes, the
  first-fit search and the validator of a whole layout.
*/
module BoardLayout {
  import opened Common

  datatype Box = Box(x: int, y: int, w: int, h: int)

  datatype Placement = Placement(itemId: string, box: Box)

  /** Stored size limits of one placement; None is SQL NULL. */
  datatype Bounds = Bounds(minW: Option<int>, minH: Option<int>, maxW: Option<int>, maxH: Option<int>)

  const NO_BOUNDS := Bounds(None, None, None, None)

  datatype Size = Size(w: int, h: int)

  datatype Sizing = Sizing(defaultSize: Size, minSize: Size, maxSize: Size)

  datatype Error = DuplicatePlacement | InvalidGeometry | Collision | NoFreePlacement

  const MAX_ROW := 10_000
  const MAX_HEIGHT := 1_000

  predicate Overlaps(a: Box, b: Box) {
    a.x < b.x + b.w && a.x + a.w > b.x && a.y < b.y + b.h && a.y + a.h > b.y
  }

  // ---------------------------------------------------------------- cells

  /** The box covers the grid cell in column `cx`, row `cy`. */
  predicate Covers(b: Box, cx: int, cy: int) {
    b.x <= cx < b.x + b.w && b.y <= cy < b.y + b.h
  }

  ghost predicate ShareCell(a: Box, b: Box) {
    exists cx, cy :: Covers(a, cx, cy) && Covers(b, cx, cy)
  }

  /** Four inequalities decide whether two proper boxes share a grid cell. */
  lemma OverlapIsSharedCell(a: Box, b: Box)
    requires a.w > 0 && a.h > 0 && b.w > 0 && b.h > 0
    ensures Overlaps(a, b) <==> ShareCell(a, b)
  {
    if Overlaps(a, b) {
      var cx, cy := Max(a.x, b.x), Max(a.y, b.y);
      assert Covers(a, cx, cy) && Covers(b, cx, cy);
    }
  }

  // ---------------------------------------------------------------- sizes

  datatype WidgetSize = WidgetSize(w: int, h: int, minW: int, minH: int, maxW: int, maxH: int)

  function ClampWidgetSize(sizing: Sizing, columns: int): WidgetSize {
    var maxW := Min(sizing.maxSize.w, columns);
    var minW := Min(sizing.minSize.w, maxW);
    var w := Min(Max(sizing.defaultSize.w, minW), maxW);
    var h := Min(Max(sizing.defaultSize.h, sizing.minSize.h), sizing.maxSize.h);
    WidgetSize(w, h, minW, sizing.minSize.h, maxW, sizing.maxSize.h)
  }

  function BoundsOf(size: WidgetSize): Bounds {
    Bounds(Some(size.minW), Some(size.minH), Some(size.maxW), Some(size.maxH))
  }

  /** What the widget catalogue is expected to declare; the default size may be anything. */
  predicate ConsistentSizing(s: Sizing) {
    1 <= s.minSize.w && 1 <= s.maxSize.w && 1 <= s.minSize.h <= s.maxSize.h <= MAX_HEIGHT
  }

  /** `v` is the point of `lo` to `hi` nearest to `wish`. */
  predicate Nearest(v: int, wish: int, lo: int, hi: int) {
    lo <= v <= hi && (wish < lo ==> v == lo) && (wish > hi ==> v == hi) && (lo <= wish <= hi ==> v == wish)
  }

  /** A clamped widget is as near to its default size as its limits and the columns let it be. */
  lemma ClampFits(sizing: Sizing, columns: int)
    requires ConsistentSizing(sizing) && columns >= 1
    ensures var s := ClampWidgetSize(sizing, columns);
            && 1 <= s.minW <= s.w <= s.maxW <= columns
            && 1 <= s.minH <= s.h <= s.maxH <= MAX_HEIGHT
            && Nearest(s.w, sizing.defaultSize.w, s.minW, s.maxW) && Nearest(s.h, sizing.defaultSize.h, s.minH, s.maxH)
            && Nearest(s.minW, sizing.minSize.w, 1, s.maxW) && Nearest(s.maxW, sizing.maxSize.w, 1, columns)
            && s.minH == sizing.minSize.h && s.maxH == sizing.maxSize.h
  {
  }

  // ---------------------------------------------------------------- one placement

  predicate WithinBounds(b: Box, bounds: Bounds) {
    && (bounds.minW.Some? ==> bounds.minW.value <= b.w)
    && (bounds.minH.Some? ==> bounds.minH.value <= b.h)
    && (bounds.maxW.Some? ==> b.w <= bounds.maxW.value)
    && (bounds.maxH.Some? ==> b.h <= bounds.maxH.value)
  }

  predicate OnGrid(b: Box, columns: int) {
    0 <= b.x && 0 <= b.y <= MAX_ROW && 0 < b.w && 0 < b.h <= MAX_HEIGHT && b.x + b.w <= columns
  }

  // ---------------------------------------------------------------- first fit

  predicate Free(existing: seq<Placement>, box: Box) {
    forall i | 0 <= i < |existing| :: !Overlaps(existing[i].box, box)
  }

  /** Positions in the order the search tries them. */
  predicate Before(x: int, y: int, x': int, y': int) { y < y' || (y == y' && x < x') }

  predicate Tried(columns: int, w: int, x: int, y: int) { 0 <= y <= MAX_ROW && 0 <= x <= columns - w }

  ghost predicate IsFirstFit(columns: int, size: Size, existing: seq<Placement>, box: Box) {
    && box.w == Min(size.w, columns) && box.h == size.h
    && Tried(columns, box.w, box.x, box.y) && Free(existing, box)
    && forall x, y | Tried(columns, box.w, x, y) && Before(x, y, box.x, box.y) :: !Free(existing, Box(x, y, box.w, box.h))
  }

  ghost predicate NoneFree(columns: int, size: Size, existing: seq<Placement>) {
    var w := Min(size.w, columns);
    forall x, y | Tried(columns, w, x, y) :: !Free(existing, Box(x, y, w, size.h))
  }

  method IsFree(existing: seq<Placement>, candidate: Box) returns (free: bool)
    ensures free == Free(existing, candidate)
  {
    var i := 0;
    while i < |existing|
      invariant 0 <= i <= |existing|
      invariant forall j | 0 <= j < i :: !Overlaps(existing[j].box, candidate)
    {
      if Overlaps(existing[i].box, candidate) { return false; }
      i := i + 1;
    }
    return true;
  }

  method FindFirstFitPlacement(columns: int, size: Size, existing: seq<Placement>) returns (r: Result<Box, Error>)
    ensures r.Ok? ==> IsFirstFit(columns, size, existing, r.value)
    ensures r.Err? ==> r.error == NoFreePlacement && NoneFree(columns, size, existing)
  {
    hide Free;
    var w, h := Min(size.w, columns), size.h;
    var y := 0;
    while y <= MAX_ROW
      invariant 0 <= y <= MAX_ROW + 1
      invariant forall x', y' | Tried(columns, w, x', y') && y' < y :: !Free(existing, Box(x', y', w, h))
    {
      var x := 0;
      while x <= columns - w
        invariant 0 <= x
        invariant forall x', y' | Tried(columns, w, x', y') && Before(x', y', x, y) :: !Free(existing, Box(x', y', w, h))
      {
        var free := IsFree(existing, Box(x, y, w, h));
        if free { return Ok(Box(x, y, w, h)); }
        x := x + 1;
      }
      y := y + 1;
    }
    return Err(NoFreePlacement);
  }

  lemma FirstFitIsUnique(columns: int, size: Size, existing: seq<Placement>, a: Box, b: Box)
    requires IsFirstFit(columns, size, existing, a) && IsFirstFit(columns, size, existing, b)
    ensures a == b
  {
    assert a == Box(a.x, a.y, b.w, b.h) && b == Box(b.x, b.y, a.w, a.h);
  }

  /** The search cannot fail while every existing box ends at or above the last row. */
  lemma RoomAtTheBottom(columns: int, size: Size, existing: seq<Placement>)
    requires forall i | 0 <= i < |existing| :: existing[i].box.y + existing[i].box.h <= MAX_ROW
    ensures !NoneFree(columns, size, existing)
  {
    var w := Min(size.w, columns);
    assert Tried(columns, w, 0, MAX_ROW);
    assert Free(existing, Box(0, MAX_ROW, w, size.h));
  }

  // ---------------------------------------------------------------- whole layouts

  type Constraints = map<string, Bounds>

  function BoundsFor(constraints: Constraints, itemId: string): Bounds {
    if itemId in constraints then constraints[itemId] else NO_BOUNDS
  }

  predicate PlacementOk(p: Placement, columns: int, constraints: Constraints) {
    OnGrid(p.box, columns) && WithinBounds(p.box, BoundsFor(constraints, p.itemId))
  }

  predicate DistinctIds(ps: seq<Placement>) {
    forall i, j | 0 <= i < j < |ps| :: ps[i].itemId != ps[j].itemId
  }

  predicate Disjoint(ps: seq<Placement>) {
    forall i, j | 0 <= i < j < |ps| :: !Overlaps(ps[i].box, ps[j].box)
  }

  predicate ValidLayout(columns: int, ps: seq<Placement>, constraints: Constraints) {
    && DistinctIds(ps)
    && (forall i | 0 <= i < |ps| :: PlacementOk(ps[i], columns, constraints))
    && Disjoint(ps)
  }

  method ValidateLayoutPlacements(columns: int, ps: seq<Placement>, constraints: Constraints) returns (r: Option<Error>)
    ensures r.None? <==> ValidLayout(columns, ps, constraints)
    ensures r == Some(Collision) ==> DistinctIds(ps) && !Disjoint(ps)
    ensures r.Some? ==> r.value in {DuplicatePlacement, InvalidGeometry, Collision}
  {
    var ids: set<string> := {};
    var i := 0;
    while i < |ps|
      invariant 0 <= i <= |ps|
      invariant forall k :: k in ids <==> exists j | 0 <= j < i :: ps[j].itemId == k
      invariant DistinctIds(ps[..i])
      invariant forall j | 0 <= j < i :: PlacementOk(ps[j], columns, constraints)
    {
      var p := ps[i];
      if p.itemId in ids { return Some(DuplicatePlacement); }
      ids := ids + {p.itemId};
      var bounds := BoundsFor(constraints, p.itemId);
      var b := p.box;
      if b.x < 0 || b.y < 0 || b.w <= 0 || b.h <= 0 || b.x + b.w > columns || b.y > MAX_ROW || b.h > MAX_HEIGHT
         || (bounds.minW.Some? && b.w < bounds.minW.value) || (bounds.minH.Some? && b.h < bounds.minH.value)
         || (bounds.maxW.Some? && b.w > bounds.maxW.value) || (bounds.maxH.Some? && b.h > bounds.maxH.value)
      {
        return Some(InvalidGeometry);
      }
      i := i + 1;
    }
    assert ps[..|ps|] == ps;
    var a := 0;
    while a < |ps|
      invariant 0 <= a <= |ps|
      invariant forall i, j | 0 <= i < a && i < j < |ps| :: !Overlaps(ps[i].box, ps[j].box)
    {
      var b := a + 1;
      while b < |ps|
        invariant a + 1 <= b <= |ps|
        invariant forall j | a < j < b :: !Overlaps(ps[a].box, ps[j].box)
      {
        if Overlaps(ps[a].box, ps[b].box) { return Some(Collision); }
        b := b + 1;
      }
      a := a + 1;
    }
    return None;
  }

  /** The number of boxes on a cell is what users see; the validator allows at most one. */
  ghost predicate NoCellTwice(ps: seq<Placement>) {
    forall i, j, cx, cy | 0 <= i < |ps| && 0 <= j < |ps| && Covers(ps[i].box, cx, cy) && Covers(ps[j].box, cx, cy) :: i == j
  }

  /** The accepted layouts, stated on grid cells. */
  lemma ValidatorIsExact(columns: int, ps: seq<Placement>, constraints: Constraints)
    ensures ValidLayout(columns, ps, constraints) <==>
            && DistinctIds(ps)
            && (forall i | 0 <= i < |ps| :: PlacementOk(ps[i], columns, constraints))
            && NoCellTwice(ps)
  {
    if forall i | 0 <= i < |ps| :: PlacementOk(ps[i], columns, constraints) {
      forall i, j | 0 <= i < j < |ps|
        ensures Overlaps(ps[i].box, ps[j].box) <==> ShareCell(ps[i].box, ps[j].box)
      {
        assert PlacementOk(ps[i], columns, constraints) && PlacementOk(ps[j], columns, constraints);
        OverlapIsSharedCell(ps[i].box, ps[j].box);
      }
      hide PlacementOk, Overlaps;
      if Disjoint(ps) {
        forall i, j, cx, cy | 0 <= i < |ps| && 0 <= j < |ps| && Covers(ps[i].box, cx, cy) && Covers(ps[j].box, cx, cy)
          ensures i == j
        {
          assert ShareCell(ps[i].box, ps[j].box) && ShareCell(ps[j].box, ps[i].box);
        }
      }
      if NoCellTwice(ps) {
        forall i, j | 0 <= i < j < |ps|
          ensures !Overlaps(ps[i].box, ps[j].box)
        {
        }
      }
    }
  }

  lemma OverlapsSymmetric(a: Box, b: Box)
    ensures Overlaps(a, b) == Overlaps(b, a)
  {
  }

  /** A clamped widget put where first fit puts it leaves a valid layout valid. */
  lemma FirstFitKeepsLayoutValid(columns: int, ps: seq<Placement>, constraints: Constraints,
                                 sizing: Sizing, itemId: string, box: Box)
    requires columns >= 1 && ConsistentSizing(sizing) && ValidLayout(columns, ps, constraints)
    requires forall i | 0 <= i < |ps| :: ps[i].itemId != itemId
    requires var s := ClampWidgetSize(sizing, columns); IsFirstFit(columns, Size(s.w, s.h), ps, box)
    ensures ValidLayout(columns, ps + [Placement(itemId, box)],
                        constraints[itemId := BoundsOf(ClampWidgetSize(sizing, columns))])
  {
    ClampFits(sizing, columns);
    var s := ClampWidgetSize(sizing, columns);
    var all, cons := ps + [Placement(itemId, box)], constraints[itemId := BoundsOf(s)];
    hide ClampWidgetSize, Overlaps;
    assert PlacementOk(all[|ps|], columns, cons);
    forall i | 0 <= i < |ps|
      ensures PlacementOk(all[i], columns, cons) && !Overlaps(all[i].box, box)
    {
      assert PlacementOk(ps[i], columns, constraints);
    }
  }

  /** Eleven full-width boxes of the greatest height, one below the other. */
  function Tower(columns: int): seq<Placement> {
    seq(11, i requires 0 <= i < 11 => Placement(["abcdefghijk"[i]], Box(0, 1000 * i, columns, 1000)))
  }

  /** The proviso of RoomAtTheBottom matters: a valid layout can leave no room for any widget. */
  lemma FullLayoutHasNoRoom(columns: int, size: Size)
    requires columns >= 1 && size.w >= 1 && size.h >= 1
    ensures ValidLayout(columns, Tower(columns), map[]) && NoneFree(columns, size, Tower(columns))
  {
    var tower := Tower(columns);
    forall i, j | 0 <= i < j < 11
      ensures tower[i].itemId != tower[j].itemId && !Overlaps(tower[i].box, tower[j].box)
    {
      assert tower[i].itemId[0] == "abcdefghijk"[i] && tower[j].itemId[0] == "abcdefghijk"[j];
    }
    var w := Min(size.w, columns);
    forall x, y | Tried(columns, w, x, y)
      ensures !Free(tower, Box(x, y, w, size.h))
    {
      assert Overlaps(tower[y / 1000].box, Box(x, y, w, size.h));
    }
  }
}
