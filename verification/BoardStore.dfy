/**
  One board with its layouts, items and placements, and the mutations that change it under an
  optimistic revision (packages/db/src/board-runtime.ts), with the snapshot-based preparation of
  packages/boards/src/service.ts.

  Requests name layouts and items by UUIDs in any spelling.  The statements of a transaction find the
  stored identifier; what the program compares in memory is the text as submitted.

  Every mutation is a function on the board, and a method that carries out the transaction
  statement by statement and rolls back on failure.
*/
module BoardStore {
  import opened Common
  import opened BoardLayout

  type LayoutId = string
  type ItemId = string

  datatype Slot = Slot(layout: LayoutId, item: ItemId)

  datatype Row = Row(box: Box, bounds: Bounds)

  datatype Item = Item(title: Option<string>, config: string, version: nat)

  type Rows = map<Slot, Row>

  datatype Board = Board(
    revision: nat,
    name: string,
    layouts: map<LayoutId, int>,
    items: map<ItemId, Item>,
    rows: Rows)

  datatype StoreError = RevisionConflict | RelationMismatch | UniqueViolation | Invalid(reason: BoardLayout.Error)

  // ---------------------------------------------------------------- the invariant

  /** The database gives identifiers back in its own spelling. */
  ghost predicate StoredIds(d: Dialect, b: Board) {
    (forall l | l in b.layouts :: IsStored(d, l)) && (forall i | i in b.items :: IsStored(d, i))
  }

  ghost predicate RowOk(b: Board, s: Slot)
    requires s in b.rows
  {
    s.layout in b.layouts && s.item in b.items && OnGrid(b.rows[s].box, b.layouts[s.layout])
  }

  ghost predicate RowsDisjoint(rows: Rows) {
    forall s, t | s in rows && t in rows && s.layout == t.layout && s != t :: !Overlaps(rows[s].box, rows[t].box)
  }

  /** On every layout the boxes are on the grid and pairwise disjoint. */
  ghost predicate GridOk(d: Dialect, b: Board) {
    && StoredIds(d, b)
    && (forall l | l in b.layouts :: b.layouts[l] >= 1)
    && (forall s | s in b.rows :: RowOk(b, s))
    && RowsDisjoint(b.rows)
  }

  ghost predicate RowLimited(rows: Rows, s: Slot)
    requires s in rows
  {
    WithinBounds(rows[s].box, rows[s].bounds)
  }

  /** Every box is within its size limits. */
  ghost predicate LimitsOk(rows: Rows) { forall s | s in rows :: RowLimited(rows, s) }

  // ---------------------------------------------------------------- layout batches

  function ItemsOn(rows: Rows, layout: LayoutId): (items: set<ItemId>)
    ensures forall i :: i in items <==> Slot(layout, i) in rows
  {
    set s | s in rows && s.layout == layout :: s.item
  }

  function BoxesOf(rows: Rows, layout: LayoutId): map<ItemId, Box> {
    map i | i in ItemsOn(rows, layout) :: rows[Slot(layout, i)].box
  }

  function ConstraintsOf(rows: Rows, layout: LayoutId): Constraints {
    map i | i in ItemsOn(rows, layout) :: rows[Slot(layout, i)].bounds
  }

  /** The stored boxes with the submitted ones laid over them. */
  function Merge(base: map<ItemId, Box>, items: seq<Placement>): map<ItemId, Box> {
    if items == [] then base
    else
      var last := items[|items| - 1];
      Merge(base, items[..|items| - 1])[last.itemId := last.box]
  }

  function Upsert(rows: Rows, s: Slot, box: Box): Rows {
    rows[s := if s in rows then rows[s].(box := box) else Row(box, NO_BOUNDS)]
  }

  function UpsertAll(rows: Rows, layout: LayoutId, items: seq<Placement>): Rows {
    if items == [] then rows
    else
      var last := items[|items| - 1];
      Upsert(UpsertAll(rows, layout, items[..|items| - 1]), Slot(layout, last.itemId), last.box)
  }

  predicate ValidBoxes(columns: int, boxes: map<ItemId, Box>, constraints: Constraints) {
    && (forall i | i in boxes :: PlacementOk(Placement(i, boxes[i]), columns, constraints))
    && (forall i, j | i in boxes && j in boxes && i != j :: !Overlaps(boxes[i], boxes[j]))
  }

  predicate AllKnown(items: map<ItemId, Item>, ps: seq<Placement>) {
    forall k | 0 <= k < |ps| :: ps[k].itemId in items
  }

  datatype Outcome = Committed(board: Board) | Refused(error: StoreError)

  function StoredPlacements(d: Dialect, items: seq<Placement>): (ps: seq<Placement>)
    ensures |ps| == |items| && forall k | 0 <= k < |items| :: ps[k] == Placement(StoredId(d, items[k].itemId), items[k].box)
  {
    seq(|items|, k requires 0 <= k < |items| => Placement(StoredId(d, items[k].itemId), items[k].box))
  }

  /** Layout, items and upserts go by stored identifiers, the merge and its validation by submitted ones. */
  function AfterBatch(d: Dialect, b: Board, layout: LayoutId, expected: nat, items: seq<Placement>, constraints: Constraints)
    : Outcome
  {
    var l, ps := StoredId(d, layout), StoredPlacements(d, items);
    if b.revision != expected then Refused(RevisionConflict)
    else if l !in b.layouts || !DistinctIds(ps) || !AllKnown(b.items, ps) then Refused(RelationMismatch)
    else if !ValidBoxes(b.layouts[l], Merge(BoxesOf(b.rows, l), items), constraints) then Refused(Invalid(Collision))
    else Committed(b.(revision := b.revision + 1, rows := UpsertAll(b.rows, l, ps)))
  }

  // ---------------------------------------------------------------- items

  datatype NewRow = NewRow(layout: LayoutId, row: Row)

  function InsertRows(d: Dialect, layouts: map<LayoutId, int>, rows: Rows, item: ItemId, news: seq<NewRow>)
    : Result<Rows, StoreError>
  {
    if news == [] then Ok(rows)
    else
      match InsertRows(d, layouts, rows, item, news[..|news| - 1])
      case Err(e) => Err(e)
      case Ok(before) =>
        var n := news[|news| - 1];
        var s := Slot(StoredId(d, n.layout), item);
        if s.layout !in layouts then Err(RelationMismatch)
        else if s in before then Err(UniqueViolation)
        else Ok(before[s := n.row])
  }

  function AfterCreate(d: Dialect, b: Board, expected: nat, id: ItemId, item: Item, news: seq<NewRow>): Outcome {
    var i := StoredId(d, id);
    if b.revision != expected then Refused(RevisionConflict)
    else if i in b.items then Refused(UniqueViolation)
    else
      match InsertRows(d, b.layouts, b.rows, i, news)
      case Err(e) => Refused(e)
      case Ok(rows) => Committed(b.(revision := b.revision + 1, items := b.items[i := item], rows := rows))
  }

  function AfterUpdate(d: Dialect, b: Board, expected: nat, id: ItemId, item: Item): Outcome {
    var i := StoredId(d, id);
    if b.revision != expected then Refused(RevisionConflict)
    else if i !in b.items then Refused(RelationMismatch)
    else Committed(b.(revision := b.revision + 1, items := b.items[i := item]))
  }

  /** Deleting an item takes its placements with it. */
  function AfterDelete(d: Dialect, b: Board, expected: nat, id: ItemId): Outcome {
    var i := StoredId(d, id);
    if b.revision != expected then Refused(RevisionConflict)
    else if i !in b.items then Refused(RelationMismatch)
    else Committed(b.(revision := b.revision + 1, items := b.items - {i},
                      rows := map s | s in b.rows && s.item != i :: b.rows[s]))
  }

  function AfterRename(b: Board, expected: nat, name: string): Outcome {
    if b.revision != expected then Refused(RevisionConflict)
    else Committed(b.(revision := b.revision + 1, name := name))
  }

  // ---------------------------------------------------------------- first fit on stored rows

  predicate FreeIn(rows: Rows, layout: LayoutId, box: Box) {
    forall s | s in rows && s.layout == layout :: !Overlaps(rows[s].box, box)
  }

  ghost predicate FirstFitIn(rows: Rows, layout: LayoutId, columns: int, size: Size, box: Box) {
    && box.w == Min(size.w, columns) && box.h == size.h
    && Tried(columns, box.w, box.x, box.y) && FreeIn(rows, layout, box)
    && forall x, y | Tried(columns, box.w, x, y) && Before(x, y, box.x, box.y) :: !FreeIn(rows, layout, Box(x, y, box.w, box.h))
  }

  /** The rows a new item gets: on each layout of the snapshot, the clamped widget at its first fit. */
  ghost predicate PlacedByFirstFit(rows: Rows, layouts: map<LayoutId, int>, sizing: Sizing, news: seq<NewRow>) {
    && (forall k | 0 <= k < |news| ::
          && news[k].layout in layouts
          && var s := ClampWidgetSize(sizing, layouts[news[k].layout]);
             && FirstFitIn(rows, news[k].layout, layouts[news[k].layout], Size(s.w, s.h), news[k].row.box)
             && news[k].row.bounds == BoundsOf(s))
    && (forall i, j | 0 <= i < j < |news| :: news[i].layout != news[j].layout)
  }

  // ---------------------------------------------------------------- what the mutations keep

  lemma UpsertBox(rows: Rows, layout: LayoutId, item: ItemId, box: Box)
    ensures BoxesOf(Upsert(rows, Slot(layout, item), box), layout) == BoxesOf(rows, layout)[item := box]
  {
  }

  /** Upserting rows lays their boxes over the stored ones. */
  lemma {:induction false} UpsertMatchesMerge(rows: Rows, layout: LayoutId, items: seq<Placement>)
    ensures BoxesOf(UpsertAll(rows, layout, items), layout) == Merge(BoxesOf(rows, layout), items)
  {
    if items != [] {
      var init, last := items[..|items| - 1], items[|items| - 1];
      UpsertMatchesMerge(rows, layout, init);
      UpsertBox(UpsertAll(rows, layout, init), layout, last.itemId, last.box);
      hide BoxesOf, Upsert;
    }
  }

  ghost predicate Submitted(items: seq<Placement>, id: ItemId) {
    exists k :: 0 <= k < |items| && items[k].itemId == id
  }

  /** What an upsert leaves alone: other layouts, stored size limits, and rows it does not name. */
  ghost predicate UpsertedFrom(rows: Rows, after: Rows, layout: LayoutId, items: seq<Placement>, s: Slot) {
    && (s in rows ==> s in after && after[s].bounds == rows[s].bounds)
    && (s in after && s !in rows ==> after[s].bounds == NO_BOUNDS && s.layout == layout && Submitted(items, s.item))
    && (s in rows && (s.layout != layout || !Submitted(items, s.item)) ==> after[s] == rows[s])
  }

  lemma {:induction false} UpsertFrame(rows: Rows, layout: LayoutId, items: seq<Placement>, s: Slot)
    ensures UpsertedFrom(rows, UpsertAll(rows, layout, items), layout, items, s)
  {
    if items != [] {
      var init, last := items[..|items| - 1], items[|items| - 1];
      UpsertFrame(rows, layout, init, s);
      assert Submitted(items, s.item) <==> Submitted(init, s.item) || last.itemId == s.item by {
        if Submitted(init, s.item) {
          var k :| 0 <= k < |init| && init[k].itemId == s.item;
          assert items[k].itemId == s.item;
        }
        if last.itemId == s.item {
          assert items[|items| - 1].itemId == s.item;
        }
      }
      hide Submitted;
    }
  }

  /** Every submitted item ends up in the box submitted for it. */
  lemma {:induction false} SubmittedIsStored(rows: Rows, layout: LayoutId, items: seq<Placement>, k: nat)
    requires DistinctIds(items) && k < |items|
    ensures var after := UpsertAll(rows, layout, items); var s := Slot(layout, items[k].itemId);
            s in after && after[s].box == items[k].box
  {
    if k < |items| - 1 {
      SubmittedIsStored(rows, layout, items[..|items| - 1], k);
      assert items[k].itemId != items[|items| - 1].itemId;
    }
  }

  // ---------------------------------------------------------------- what was validated and what is stored

  lemma {:induction false} MergeMeaning(base: map<ItemId, Box>, items: seq<Placement>, id: ItemId)
    ensures id in Merge(base, items) <==> id in base || Submitted(items, id)
    ensures id in base && !Submitted(items, id) ==> Merge(base, items)[id] == base[id]
  {
    if items != [] {
      var init, last := items[..|items| - 1], items[|items| - 1];
      MergeMeaning(base, init, id);
      SubmittedSplits(items, id);
      hide Submitted;
    }
  }

  lemma SubmittedSplits(items: seq<Placement>, id: ItemId)
    requires items != []
    ensures Submitted(items, id) <==> Submitted(items[..|items| - 1], id) || items[|items| - 1].itemId == id
  {
    var init := items[..|items| - 1];
    if Submitted(init, id) {
      var k :| 0 <= k < |init| && init[k].itemId == id;
      assert items[k].itemId == id;
    }
    if items[|items| - 1].itemId == id {
      assert items[|items| - 1].itemId == id;
    }
  }

  lemma {:induction false} MergeTakesSubmitted(base: map<ItemId, Box>, items: seq<Placement>, k: nat)
    requires DistinctIds(items) && k < |items|
    ensures items[k].itemId in Merge(base, items) && Merge(base, items)[items[k].itemId] == items[k].box
  {
    if k < |items| - 1 {
      MergeTakesSubmitted(base, items[..|items| - 1], k);
      assert items[k].itemId != items[|items| - 1].itemId;
    }
  }

  lemma SpelledDistinct(d: Dialect, items: seq<Placement>)
    requires DistinctIds(StoredPlacements(d, items))
    ensures DistinctIds(items)
  {
    hide Lower;
    var ps := StoredPlacements(d, items);
    forall i, j | 0 <= i < j < |items|
      ensures items[i].itemId != items[j].itemId
    {
      assert ps[i].itemId != ps[j].itemId;
    }
  }

  /** The spelling under which an item takes part in the merge: the submitted one, else the stored. */
  ghost function Spelling(d: Dialect, items: seq<Placement>, id: ItemId): ItemId {
    if Submitted(StoredPlacements(d, items), id) then
      var k :| 0 <= k < |items| && StoredPlacements(d, items)[k].itemId == id;
      items[k].itemId
    else id
  }

  ghost predicate BaseIsStored(d: Dialect, base: map<ItemId, Box>) { forall i | i in base :: IsStored(d, i) }

  lemma SubmittedOtherwise(d: Dialect, items: seq<Placement>, id: ItemId)
    requires IsStored(d, id) && !Submitted(StoredPlacements(d, items), id)
    ensures !Submitted(items, id)
  {
    hide Lower;
    forall k | 0 <= k < |items|
      ensures items[k].itemId != id
    {
      assert StoredPlacements(d, items)[k].itemId != id;
    }
  }

  /** Every stored box is among the merged ones, under the spelling its item was submitted in. */
  lemma StoredBoxWasMerged(d: Dialect, base: map<ItemId, Box>, items: seq<Placement>, id: ItemId)
    requires DistinctIds(StoredPlacements(d, items)) && BaseIsStored(d, base)
    requires id in Merge(base, StoredPlacements(d, items))
    ensures var spelled := Spelling(d, items, id);
            && StoredId(d, spelled) == id && spelled in Merge(base, items)
            && Merge(base, items)[spelled] == Merge(base, StoredPlacements(d, items))[id]
  {
    hide Lower, Merge, DistinctIds;
    var ps := StoredPlacements(d, items);
    SpelledDistinct(d, items);
    MergeMeaning(base, ps, id);
    if Submitted(ps, id) {
      var k :| 0 <= k < |items| && ps[k].itemId == id && items[k].itemId == Spelling(d, items, id);
      MergeTakesSubmitted(base, items, k);
      MergeTakesSubmitted(base, ps, k);
    } else {
      MergeMeaning(base, items, id);
      SubmittedOtherwise(d, items, id);
    }
  }

  /** The merged boxes are the stored ones exactly when every item was submitted in its stored spelling. */
  lemma MergedIsStoredExactly(d: Dialect, rows: Rows, layout: LayoutId, items: seq<Placement>)
    requires DistinctIds(StoredPlacements(d, items)) && BaseIsStored(d, BoxesOf(rows, layout))
    ensures BoxesOf(UpsertAll(rows, layout, StoredPlacements(d, items)), layout) == Merge(BoxesOf(rows, layout), items)
            <==> forall k | 0 <= k < |items| :: IsStored(d, items[k].itemId)
  {
    var base, ps := BoxesOf(rows, layout), StoredPlacements(d, items);
    UpsertMatchesMerge(rows, layout, ps);
    hide Lower, Merge, DistinctIds, BoxesOf, UpsertAll;
    if forall k | 0 <= k < |items| :: IsStored(d, items[k].itemId) {
      assert ps == items;
    } else {
      var k :| 0 <= k < |items| && !IsStored(d, items[k].itemId);
      var id := items[k].itemId;
      assert Submitted(items, id);
      MergeMeaning(base, items, id);
      MergeMeaning(base, ps, id);
      NotSubmittedAsStored(d, items, id);
    }
  }

  lemma NotSubmittedAsStored(d: Dialect, items: seq<Placement>, id: ItemId)
    requires !IsStored(d, id)
    ensures !Submitted(StoredPlacements(d, items), id)
  {
    hide Lower;
    forall k | 0 <= k < |items|
      ensures StoredPlacements(d, items)[k].itemId != id
    {
      StoredIdIsStored(d, items[k].itemId);
    }
  }

  function LimitsAt(rows: Rows, s: Slot): Bounds { if s in rows then rows[s].bounds else NO_BOUNDS }

  /** What a batch leaves in a slot it wrote. */
  lemma WrittenRow(d: Dialect, rows: Rows, layout: LayoutId, items: seq<Placement>, k: nat)
    requires DistinctIds(StoredPlacements(d, items)) && k < |items|
    ensures var s := Slot(layout, StoredId(d, items[k].itemId));
            var after := UpsertAll(rows, layout, StoredPlacements(d, items));
            s in after && after[s] == Row(items[k].box, LimitsAt(rows, s))
  {
    hide Lower, DistinctIds, UpsertAll, Submitted;
    var ps := StoredPlacements(d, items);
    SubmittedIsStored(rows, layout, ps, k);
    UpsertFrame(rows, layout, ps, Slot(layout, ps[k].itemId));
  }

  // ---------------------------------------------------------------- batches on the grid

  lemma StoredBoxIsValid(d: Dialect, rows: Rows, layout: LayoutId, columns: int, items: seq<Placement>,
                         constraints: Constraints, s: Slot)
    requires DistinctIds(StoredPlacements(d, items)) && BaseIsStored(d, BoxesOf(rows, layout))
    requires ValidBoxes(columns, Merge(BoxesOf(rows, layout), items), constraints)
    requires s in UpsertAll(rows, layout, StoredPlacements(d, items)) && s.layout == layout
    ensures var merged, spelled := Merge(BoxesOf(rows, layout), items), Spelling(d, items, s.item);
            && StoredId(d, spelled) == s.item && spelled in merged
            && merged[spelled] == UpsertAll(rows, layout, StoredPlacements(d, items))[s].box
            && OnGrid(merged[spelled], columns)
  {
    var ps := StoredPlacements(d, items);
    var after := UpsertAll(rows, layout, ps);
    assert s == Slot(layout, s.item) && s.item in ItemsOn(after, layout);
    assert BoxesOf(after, layout)[s.item] == after[s].box;
    hide Lower, Merge, DistinctIds, BoxesOf, UpsertAll, ItemsOn, Spelling, OnGrid, WithinBounds;
    UpsertMatchesMerge(rows, layout, ps);
    StoredBoxWasMerged(d, BoxesOf(rows, layout), items, s.item);
    var merged, spelled := Merge(BoxesOf(rows, layout), items), Spelling(d, items, s.item);
    assert PlacementOk(Placement(spelled, merged[spelled]), columns, constraints);
  }

  lemma BatchBoxesDisjoint(d: Dialect, b: Board, layout: LayoutId, items: seq<Placement>,
                           constraints: Constraints, s: Slot, t: Slot)
    requires GridOk(d, b) && layout in b.layouts
    requires DistinctIds(StoredPlacements(d, items)) && BaseIsStored(d, BoxesOf(b.rows, layout))
    requires ValidBoxes(b.layouts[layout], Merge(BoxesOf(b.rows, layout), items), constraints)
    requires var after := UpsertAll(b.rows, layout, StoredPlacements(d, items));
             s in after && t in after && s.layout == t.layout && s != t
    ensures var after := UpsertAll(b.rows, layout, StoredPlacements(d, items)); !Overlaps(after[s].box, after[t].box)
  {
    hide UpsertAll, Overlaps, PlacementOk, ItemsOn, Submitted, Lower, Merge, DistinctIds, BoxesOf, Spelling, OnGrid;
    if s.layout == layout {
      StoredBoxIsValid(d, b.rows, layout, b.layouts[layout], items, constraints, s);
      StoredBoxIsValid(d, b.rows, layout, b.layouts[layout], items, constraints, t);
    } else {
      hide ValidBoxes;
      var ps := StoredPlacements(d, items);
      UpsertFrame(b.rows, layout, ps, s);
      UpsertFrame(b.rows, layout, ps, t);
    }
  }

  lemma BatchRowOk(d: Dialect, b: Board, layout: LayoutId, items: seq<Placement>, constraints: Constraints, s: Slot)
    requires GridOk(d, b) && layout in b.layouts && AllKnown(b.items, StoredPlacements(d, items))
    requires DistinctIds(StoredPlacements(d, items)) && BaseIsStored(d, BoxesOf(b.rows, layout))
    requires ValidBoxes(b.layouts[layout], Merge(BoxesOf(b.rows, layout), items), constraints)
    requires s in UpsertAll(b.rows, layout, StoredPlacements(d, items))
    ensures RowOk(b.(rows := UpsertAll(b.rows, layout, StoredPlacements(d, items))), s)
  {
    hide UpsertAll, Overlaps, PlacementOk, ItemsOn, Lower, Merge, DistinctIds, BoxesOf, Spelling, OnGrid;
    UpsertFrame(b.rows, layout, StoredPlacements(d, items), s);
    assert s in b.rows ==> RowOk(b, s);
    if s.layout == layout {
      StoredBoxIsValid(d, b.rows, layout, b.layouts[layout], items, constraints, s);
    }
  }

  lemma StoredBase(d: Dialect, b: Board, layout: LayoutId)
    requires GridOk(d, b)
    ensures BaseIsStored(d, BoxesOf(b.rows, layout))
  {
    hide Lower;
    forall i | i in BoxesOf(b.rows, layout)
      ensures IsStored(d, i)
    {
      assert RowOk(b, Slot(layout, i));
    }
  }

  /** A committed batch keeps every layout on the grid and disjoint, however its identifiers are spelled. */
  lemma BatchKeepsGridOk(d: Dialect, b: Board, layout: LayoutId, expected: nat, items: seq<Placement>, constraints: Constraints)
    requires GridOk(d, b)
    ensures var r := AfterBatch(d, b, layout, expected, items, constraints); r.Committed? ==> GridOk(d, r.board)
  {
    hide Merge, UpsertAll, Overlaps, RowOk, ValidBoxes, BoxesOf, DistinctIds, AllKnown, Lower, IsStored;
    var r := AfterBatch(d, b, layout, expected, items, constraints);
    if r.Committed? {
      var l, after := StoredId(d, layout), r.board;
      StoredBase(d, b, l);
      forall s | s in after.rows
        ensures RowOk(after, s)
      {
        BatchRowOk(d, b, l, items, constraints, s);
        RowOkIgnoresRevision(b.(rows := after.rows), after.revision, s);
      }
      forall s, t | s in after.rows && t in after.rows && s.layout == t.layout && s != t
        ensures !Overlaps(after.rows[s].box, after.rows[t].box)
      {
        BatchBoxesDisjoint(d, b, l, items, constraints, s, t);
      }
    }
  }

  lemma RowOkIgnoresRevision(b: Board, revision: nat, s: Slot)
    requires s in b.rows && RowOk(b, s)
    ensures RowOk(b.(revision := revision), s)
  {
    hide OnGrid;
  }

  // ---------------------------------------------------------------- batches and size limits

  /** The submitted box meets the limits of the slot it goes to. */
  predicate MeetsLimits(d: Dialect, rows: Rows, layout: LayoutId, p: Placement) {
    WithinBounds(p.box, LimitsAt(rows, Slot(StoredId(d, layout), StoredId(d, p.itemId))))
  }

  /** Both identifiers are as stored, so the validator finds the limits. */
  predicate SpelledAsStored(d: Dialect, layout: LayoutId, p: Placement) {
    IsStored(d, layout) && IsStored(d, p.itemId)
  }

  predicate BatchMeetsLimits(d: Dialect, rows: Rows, layout: LayoutId, items: seq<Placement>) {
    forall k | 0 <= k < |items| :: SpelledAsStored(d, layout, items[k]) || MeetsLimits(d, rows, layout, items[k])
  }

  lemma LimitsAreFound(rows: Rows, layout: LayoutId, id: ItemId)
    ensures BoundsFor(ConstraintsOf(rows, layout), id) == LimitsAt(rows, Slot(layout, id))
  {
  }

  lemma ValidatedMeetsLimits(d: Dialect, b: Board, layout: LayoutId, expected: nat, items: seq<Placement>, k: nat)
    requires AfterBatch(d, b, layout, expected, items, ConstraintsOf(b.rows, layout)).Committed?
    requires k < |items| && SpelledAsStored(d, layout, items[k])
    ensures MeetsLimits(d, b.rows, layout, items[k])
  {
    SpelledDistinct(d, items);
    hide Merge, UpsertAll, Overlaps, BoxesOf, ConstraintsOf, DistinctIds, AllKnown, Lower, LimitsAt, WithinBounds,
         OnGrid, BoundsFor;
    var base, p := BoxesOf(b.rows, layout), items[k];
    MergeTakesSubmitted(base, items, k);
    LimitsAreFound(b.rows, layout, p.itemId);
    assert PlacementOk(Placement(p.itemId, Merge(base, items)[p.itemId]), b.layouts[layout], ConstraintsOf(b.rows, layout));
  }

  lemma LimitsAfterUpsert(d: Dialect, rows: Rows, layout: LayoutId, items: seq<Placement>)
    requires LimitsOk(rows) && DistinctIds(StoredPlacements(d, items))
    ensures LimitsOk(UpsertAll(rows, StoredId(d, layout), StoredPlacements(d, items)))
            <==> forall k | 0 <= k < |items| :: MeetsLimits(d, rows, layout, items[k])
  {
    hide UpsertAll, DistinctIds, Lower, WithinBounds, LimitsAt;
    var l, ps := StoredId(d, layout), StoredPlacements(d, items);
    var after := UpsertAll(rows, l, ps);
    if LimitsOk(after) {
      forall k | 0 <= k < |items|
        ensures MeetsLimits(d, rows, layout, items[k])
      {
        WrittenRow(d, rows, l, items, k);
        assert RowLimited(after, Slot(l, ps[k].itemId));
      }
    }
    if forall k | 0 <= k < |items| :: MeetsLimits(d, rows, layout, items[k]) {
      forall s | s in after
        ensures RowLimited(after, s)
      {
        UpsertFrame(rows, l, ps, s);
        if s.layout == l && Submitted(ps, s.item) {
          var k :| 0 <= k < |ps| && ps[k].itemId == s.item;
          WrittenRow(d, rows, l, items, k);
          assert MeetsLimits(d, rows, layout, items[k]);
        } else {
          assert RowLimited(rows, s);
        }
      }
    }
  }

  /**
    A committed batch that was checked against the current size limits keeps them if and only if each
    submitted box meets the limits of its slot or goes by identifiers spelled as stored.
  */
  lemma BatchKeepsLimitsExactly(d: Dialect, b: Board, layout: LayoutId, expected: nat, items: seq<Placement>)
    requires LimitsOk(b.rows)
    ensures var r := AfterBatch(d, b, layout, expected, items, ConstraintsOf(b.rows, layout));
            r.Committed? ==> (LimitsOk(r.board.rows) <==> BatchMeetsLimits(d, b.rows, layout, items))
  {
    hide Merge, UpsertAll, Overlaps, ValidBoxes, BoxesOf, ConstraintsOf, DistinctIds, AllKnown, Lower, LimitsOk,
         MeetsLimits, SpelledAsStored;
    var r := AfterBatch(d, b, layout, expected, items, ConstraintsOf(b.rows, layout));
    if r.Committed? {
      LimitsAfterUpsert(d, b.rows, layout, items);
      forall k | 0 <= k < |items| && SpelledAsStored(d, layout, items[k])
        ensures MeetsLimits(d, b.rows, layout, items[k])
      {
        ValidatedMeetsLimits(d, b, layout, expected, items, k);
      }
    }
  }

  // ---------------------------------------------------------------- the other mutations

  ghost predicate Inserted(d: Dialect, news: seq<NewRow>, layout: LayoutId, row: Row) {
    exists k :: 0 <= k < |news| && StoredId(d, news[k].layout) == layout && news[k].row == row
  }

  /** The insertions change no stored row, and every added one is among those asked for. */
  lemma {:induction false} InsertRowsFrame(d: Dialect, layouts: map<LayoutId, int>, rows: Rows, item: ItemId,
                                           news: seq<NewRow>, s: Slot)
    requires InsertRows(d, layouts, rows, item, news).Ok?
    ensures var after := InsertRows(d, layouts, rows, item, news).value;
            && (s in rows ==> s in after && after[s] == rows[s])
            && (s in after && s !in rows ==> s.item == item && Inserted(d, news, s.layout, after[s]))
  {
    hide Lower;
    if news != [] {
      var init := news[..|news| - 1];
      InsertRowsFrame(d, layouts, rows, item, init, s);
      var before, after := InsertRows(d, layouts, rows, item, init).value, InsertRows(d, layouts, rows, item, news).value;
      if s in before && s !in rows {
        var k :| 0 <= k < |init| && StoredId(d, init[k].layout) == s.layout && init[k].row == before[s];
        assert StoredId(d, news[k].layout) == s.layout && news[k].row == after[s];
      } else if s in after && s !in rows {
        assert StoredId(d, news[|news| - 1].layout) == s.layout && news[|news| - 1].row == after[s];
      }
    }
  }

  /** A created item is on every layout it was placed on, exactly as placed. */
  lemma {:induction false} EveryRowIsInserted(d: Dialect, layouts: map<LayoutId, int>, rows: Rows, item: ItemId,
                                              news: seq<NewRow>, k: nat)
    requires InsertRows(d, layouts, rows, item, news).Ok? && k < |news|
    ensures var after := InsertRows(d, layouts, rows, item, news).value; var s := Slot(StoredId(d, news[k].layout), item);
            s.layout in layouts && s in after && after[s] == news[k].row
  {
    hide Lower;
    var init := news[..|news| - 1];
    if k < |init| {
      EveryRowIsInserted(d, layouts, rows, item, init, k);
      assert init[k] == news[k];
    }
  }

  lemma FirstFitRowIsOk(d: Dialect, b: Board, layout: LayoutId, sizing: Sizing, row: Row)
    requires GridOk(d, b) && ConsistentSizing(sizing) && layout in b.layouts
    requires var s := ClampWidgetSize(sizing, b.layouts[layout]);
             FirstFitIn(b.rows, layout, b.layouts[layout], Size(s.w, s.h), row.box) && row.bounds == BoundsOf(s)
    ensures OnGrid(row.box, b.layouts[layout]) && WithinBounds(row.box, row.bounds)
    ensures FreeIn(b.rows, layout, row.box) && IsStored(d, layout)
  {
    ClampFits(sizing, b.layouts[layout]);
    hide ClampWidgetSize, Lower;
  }

  /** A created item keeps grid and limits when its boxes were computed from the current rows. */
  lemma CreateKeepsLayoutOk(d: Dialect, b: Board, expected: nat, id: ItemId, item: Item, sizing: Sizing, news: seq<NewRow>)
    requires GridOk(d, b) && ConsistentSizing(sizing) && PlacedByFirstFit(b.rows, b.layouts, sizing, news)
    ensures var r := AfterCreate(d, b, expected, id, item, news);
            r.Committed? ==> GridOk(d, r.board) && (LimitsOk(b.rows) ==> LimitsOk(r.board.rows))
  {
    hide InsertRows, Overlaps, OnGrid, WithinBounds, ClampWidgetSize, FirstFitIn, Lower;
    var r := AfterCreate(d, b, expected, id, item, news);
    if r.Committed? {
      var after, i := r.board.rows, StoredId(d, id);
      StoredIdIsStored(d, id);
      forall s: Slot
        ensures s in b.rows ==> s in after && after[s] == b.rows[s]
        ensures s in after && s !in b.rows ==> s.item == i && Inserted(d, news, s.layout, after[s])
      {
        InsertRowsFrame(d, b.layouts, b.rows, i, news, s);
      }
      assert r.board == b.(revision := b.revision + 1, items := b.items[i := item], rows := after);
      hide AfterCreate;
      forall s | s in after && s !in b.rows
        ensures RowOk(r.board, s) && RowLimited(after, s) && FreeIn(b.rows, s.layout, after[s].box) && s.item == i
      {
        var k :| 0 <= k < |news| && StoredId(d, news[k].layout) == s.layout && news[k].row == after[s];
        FirstFitRowIsOk(d, b, news[k].layout, sizing, news[k].row);
      }
      hide PlacedByFirstFit, Inserted;
      forall s | s in after && s in b.rows
        ensures RowOk(r.board, s) && (LimitsOk(b.rows) ==> RowLimited(after, s))
      {
        assert RowOk(b, s);
        assert LimitsOk(b.rows) ==> RowLimited(b.rows, s);
      }
      forall s, t | s in after && t in after && s.layout == t.layout && s != t
        ensures !Overlaps(after[s].box, after[t].box)
      {
        OverlapsSymmetric(after[s].box, after[t].box);
      }
    }
  }

  ghost predicate Kept(d: Dialect, b: Board, r: Outcome) {
    r.Committed? ==> GridOk(d, r.board) && (LimitsOk(b.rows) ==> LimitsOk(r.board.rows))
  }

  lemma UpdateKeeps(d: Dialect, b: Board, expected: nat, id: ItemId, item: Item)
    requires GridOk(d, b)
    ensures Kept(d, b, AfterUpdate(d, b, expected, id, item))
  {
    hide Overlaps, OnGrid, WithinBounds, Lower, LimitsOk, RowsDisjoint;
    StoredIdIsStored(d, id);
    assert forall s | s in b.rows :: RowOk(b, s);
  }

  lemma DeleteKeeps(d: Dialect, b: Board, expected: nat, id: ItemId)
    requires GridOk(d, b)
    ensures Kept(d, b, AfterDelete(d, b, expected, id))
  {
    hide Overlaps, OnGrid, WithinBounds, Lower, StoredId;
    assert forall s | s in b.rows :: RowOk(b, s);
    assert LimitsOk(b.rows) ==> forall s | s in b.rows :: RowLimited(b.rows, s);
  }

  lemma RenameKeeps(d: Dialect, b: Board, expected: nat, name: string)
    requires GridOk(d, b)
    ensures Kept(d, b, AfterRename(b, expected, name))
  {
    hide Overlaps, OnGrid, LimitsOk, RowsDisjoint, IsStored;
    assert forall s | s in b.rows :: RowOk(b, s);
  }

  lemma OthersKeepLayoutOk(d: Dialect, b: Board, expected: nat, id: ItemId, item: Item, name: string)
    requires GridOk(d, b)
    ensures Kept(d, b, AfterUpdate(d, b, expected, id, item))
    ensures Kept(d, b, AfterDelete(d, b, expected, id))
    ensures Kept(d, b, AfterRename(b, expected, name))
  {
    hide Kept, AfterUpdate, AfterDelete, AfterRename, GridOk;
    UpdateKeeps(d, b, expected, id, item);
    DeleteKeeps(d, b, expected, id);
    RenameKeeps(d, b, expected, name);
  }

  // ---------------------------------------------------------------- the store as an object

  class Store {
    const dialect: Dialect
    var revision: nat
    var name: string
    var layouts: map<LayoutId, int>
    var items: map<ItemId, Item>
    var rows: Rows

    ghost function State(): Board
      reads this
    {
      Board(revision, name, layouts, items, rows)
    }

    ghost predicate Effect(before: Board, outcome: Outcome, r: Result<nat, StoreError>)
      reads this
    {
      match outcome
      case Committed(b) => r == Ok(b.revision) && State() == b
      case Refused(Invalid(_)) => r.Err? && r.error.Invalid? && State() == before
      case Refused(e) => r == Err(e) && State() == before
    }

    method UpdateLayoutBatch(layout: LayoutId, expected: nat, ps: seq<Placement>, constraints: Constraints)
      returns (r: Result<nat, StoreError>)
      modifies this
      ensures Effect(old(State()), AfterBatch(dialect, old(State()), layout, expected, ps, constraints), r)
    {
      hide Merge, UpsertAll, ValidBoxes, ValidLayout, BoxesOf, ConstraintsOf, Overlaps, PlacementOk, Lower, StoredId;
      var savedRevision := revision;
      if revision != expected { return Err(RevisionConflict); }
      revision := revision + 1;
      var found, stored := StoredId(dialect, layout), StoredPlacements(dialect, ps);
      if found !in layouts {
        revision := savedRevision;
        return Err(RelationMismatch);
      }
      var distinct := IdsDistinct(ps);
      if !distinct {
        assert !DistinctIds(stored) by { if DistinctIds(stored) { SpelledDistinct(dialect, ps); } }
        revision := savedRevision;
        return Err(RelationMismatch);
      }
      var owned := IdsDistinct(stored);
      if !owned || !AllKnown(items, stored) {
        revision := savedRevision;
        return Err(RelationMismatch);
      }
      var byId := MergedBoxes(BoxesOf(rows, found), ps);
      var values := Values(byId);
      var failure := ValidateLayoutPlacements(layouts[found], values, constraints);
      ListedBoxesValid(layouts[found], byId, values, constraints);
      hide DistinctIds, Lists, Disjoint, AllKnown;
      if failure.Some? {
        revision := savedRevision;
        return Err(Invalid(failure.value));
      }
      WriteRows(found, stored);
      return Ok(expected + 1);
    }

    /** The upserts of one transaction. */
    method WriteRows(layout: LayoutId, ps: seq<Placement>)
      modifies this`rows
      ensures rows == UpsertAll(old(rows), layout, ps)
    {
      var k := 0;
      while k < |ps|
        invariant 0 <= k <= |ps|
        invariant rows == UpsertAll(old(rows), layout, ps[..k])
      {
        assert ps[..k + 1][..k] == ps[..k];
        rows := Upsert(rows, Slot(layout, ps[k].itemId), ps[k].box);
        k := k + 1;
      }
      assert ps[..|ps|] == ps;
    }

    /** The placements of a new item, up to the first that fails. */
    method InsertPlacements(id: ItemId, news: seq<NewRow>) returns (r: Result<(), StoreError>)
      modifies this`rows
      ensures match InsertRows(dialect, layouts, old(rows), id, news)
              case Ok(after) => r == Ok(()) && rows == after
              case Err(e) => r == Err(e)
    {
      var k := 0;
      while k < |news|
        invariant 0 <= k <= |news|
        invariant InsertRows(dialect, layouts, old(rows), id, news[..k]) == Ok(rows)
      {
        assert news[..k + 1][..k] == news[..k];
        var layout := StoredId(dialect, news[k].layout);
        if layout !in layouts || Slot(layout, id) in rows {
          FailedInsertFails(dialect, layouts, old(rows), id, news, k + 1);
          return Err(if layout !in layouts then RelationMismatch else UniqueViolation);
        }
        rows := rows[Slot(layout, id) := news[k].row];
        k := k + 1;
      }
      assert news[..|news|] == news;
      return Ok(());
    }

    method CreateItem(expected: nat, id: ItemId, item: Item, news: seq<NewRow>) returns (r: Result<nat, StoreError>)
      modifies this
      ensures Effect(old(State()), AfterCreate(dialect, old(State()), expected, id, item, news), r)
    {
      hide InsertRows;
      var savedRevision, savedItems, savedRows := revision, items, rows;
      if revision != expected { return Err(RevisionConflict); }
      revision := revision + 1;
      var stored := StoredId(dialect, id);
      if stored in items {
        revision := savedRevision;
        return Err(UniqueViolation);
      }
      items := items[stored := item];
      var placed := InsertPlacements(stored, news);
      if placed.Err? {
        revision, items, rows := savedRevision, savedItems, savedRows;
        return Err(placed.error);
      }
      return Ok(expected + 1);
    }

    method UpdateBoard(expected: nat, newName: string) returns (r: Result<nat, StoreError>)
      modifies this
      ensures Effect(old(State()), AfterRename(old(State()), expected, newName), r)
    {
      if revision != expected { return Err(RevisionConflict); }
      name, revision := newName, revision + 1;
      return Ok(expected + 1);
    }

    method UpdateItem(expected: nat, id: ItemId, item: Item) returns (r: Result<nat, StoreError>)
      modifies this
      ensures Effect(old(State()), AfterUpdate(dialect, old(State()), expected, id, item), r)
    {
      if revision != expected { return Err(RevisionConflict); }
      revision := revision + 1;
      var stored := StoredId(dialect, id);
      if stored !in items {
        revision := revision - 1;
        return Err(RelationMismatch);
      }
      items := items[stored := item];
      return Ok(expected + 1);
    }

    method DeleteItem(expected: nat, id: ItemId) returns (r: Result<nat, StoreError>)
      modifies this
      ensures Effect(old(State()), AfterDelete(dialect, old(State()), expected, id), r)
    {
      if revision != expected { return Err(RevisionConflict); }
      revision := revision + 1;
      var stored := StoredId(dialect, id);
      if stored !in items {
        revision := revision - 1;
        return Err(RelationMismatch);
      }
      items := items - {stored};
      rows := map s | s in rows && s.item != stored :: rows[s];
      return Ok(expected + 1);
    }
  }

  /** `byId` after every submitted placement was set in it. */
  method MergedBoxes(base: map<ItemId, Box>, ps: seq<Placement>) returns (byId: map<ItemId, Box>)
    ensures byId == Merge(base, ps)
  {
    byId := base;
    var k := 0;
    while k < |ps|
      invariant 0 <= k <= |ps|
      invariant byId == Merge(base, ps[..k])
    {
      assert ps[..k + 1][..k] == ps[..k];
      byId := byId[ps[k].itemId := ps[k].box];
      k := k + 1;
    }
    assert ps[..|ps|] == ps;
  }

  method IdsDistinct(ps: seq<Placement>) returns (distinct: bool)
    ensures distinct == DistinctIds(ps)
  {
    var ids: set<ItemId> := {};
    var k := 0;
    while k < |ps|
      invariant 0 <= k <= |ps|
      invariant forall i :: i in ids <==> exists j | 0 <= j < k :: ps[j].itemId == i
      invariant DistinctIds(ps[..k])
    {
      if ps[k].itemId in ids {
        var j :| 0 <= j < k && ps[j].itemId == ps[k].itemId;
        return false;
      }
      ids := ids + {ps[k].itemId};
      k := k + 1;
    }
    assert ps[..|ps|] == ps;
    return true;
  }

  ghost predicate Lists(boxes: map<ItemId, Box>, values: seq<Placement>) {
    && DistinctIds(values)
    && (forall k | 0 <= k < |values| :: values[k].itemId in boxes && boxes[values[k].itemId] == values[k].box)
    && (forall i | i in boxes :: Submitted(values, i))
  }

  /** `[...byId.values()]`, in some order. */
  method Values(boxes: map<ItemId, Box>) returns (values: seq<Placement>)
    ensures Lists(boxes, values)
  {
    values := [];
    var left := boxes.Keys;
    while left != {}
      invariant left <= boxes.Keys
      invariant DistinctIds(values)
      invariant forall k | 0 <= k < |values| ::
                  values[k].itemId in boxes && values[k].itemId !in left && boxes[values[k].itemId] == values[k].box
      invariant forall i | i in boxes && i !in left :: Submitted(values, i)
      decreases left
    {
      var i :| i in left;
      ghost var before := values;
      values := values + [Placement(i, boxes[i])];
      left := left - {i};
      forall j | j in boxes && j !in left
        ensures Submitted(values, j)
      {
        if j == i {
          assert values[|before|].itemId == j;
        } else {
          assert Submitted(before, j);
          var k :| 0 <= k < |before| && before[k].itemId == j;
          assert values[k].itemId == j;
        }
      }
    }
  }

  lemma FreeAmongListed(rows: Rows, layout: LayoutId, values: seq<Placement>, box: Box)
    requires Lists(BoxesOf(rows, layout), values)
    ensures Free(values, box) <==> FreeIn(rows, layout, box)
  {
    hide Overlaps;
    var boxes := BoxesOf(rows, layout);
    if Free(values, box) {
      forall s | s in rows && s.layout == layout
        ensures !Overlaps(rows[s].box, box)
      {
        assert Slot(layout, s.item) == s && s.item in boxes && Submitted(values, s.item);
        var k :| 0 <= k < |values| && values[k].itemId == s.item;
      }
    }
    if FreeIn(rows, layout, box) {
      forall k | 0 <= k < |values|
        ensures !Overlaps(values[k].box, box)
      {
        assert Slot(layout, values[k].itemId) in rows;
      }
    }
  }

  lemma FirstFitAmongListed(rows: Rows, layout: LayoutId, values: seq<Placement>, columns: int, size: Size, box: Box)
    requires Lists(BoxesOf(rows, layout), values) && IsFirstFit(columns, size, values, box)
    ensures FirstFitIn(rows, layout, columns, size, box)
  {
    hide Lists, Free, FreeIn, BoxesOf;
    FreeAmongListed(rows, layout, values, box);
    forall x, y | Tried(columns, box.w, x, y) && Before(x, y, box.x, box.y)
      ensures !FreeIn(rows, layout, Box(x, y, box.w, box.h))
    {
      FreeAmongListed(rows, layout, values, Box(x, y, box.w, box.h));
    }
  }

  /** The placements of a new item, computed from a snapshot: one row for every layout, in order. */
  method PlaceOnLayouts(order: seq<LayoutId>, layouts: map<LayoutId, int>, rows: Rows, sizing: Sizing)
    returns (r: Result<seq<NewRow>, BoardLayout.Error>)
    requires forall i | 0 <= i < |order| :: order[i] in layouts
    requires forall i, j | 0 <= i < j < |order| :: order[i] != order[j]
    ensures r.Ok? ==> PlacedByFirstFit(rows, layouts, sizing, r.value) && |r.value| == |order|
    ensures r.Ok? ==> forall i | 0 <= i < |order| :: r.value[i].layout == order[i]
    ensures r.Err? ==> r.error == NoFreePlacement
    ensures r.Err? ==> exists i :: 0 <= i < |order| && NoRoomOn(rows, order[i], layouts[order[i]], sizing)
  {
    hide ClampWidgetSize, FirstFitIn, IsFirstFit, NoneFree, Lists, BoxesOf;
    var news: seq<NewRow> := [];
    var k := 0;
    while k < |order|
      invariant 0 <= k == |news| <= |order|
      invariant forall i | 0 <= i < k :: news[i].layout == order[i]
      invariant PlacedByFirstFit(rows, layouts, sizing, news)
    {
      var layout, columns := order[k], layouts[order[k]];
      var size := ClampWidgetSize(sizing, columns);
      var existing := Values(BoxesOf(rows, layout));
      var fit := FindFirstFitPlacement(columns, Size(size.w, size.h), existing);
      if fit.Err? {
        NoRoomAmongListed(rows, layout, existing, columns, sizing);
        return Err(fit.error);
      }
      FirstFitAmongListed(rows, layout, existing, columns, Size(size.w, size.h), fit.value);
      news := news + [NewRow(layout, Row(fit.value, BoundsOf(size)))];
      k := k + 1;
    }
    return Ok(news);
  }

  ghost predicate NoRoomOn(rows: Rows, layout: LayoutId, columns: int, sizing: Sizing) {
    var s := ClampWidgetSize(sizing, columns);
    forall x, y | Tried(columns, s.w, x, y) :: !FreeIn(rows, layout, Box(x, y, s.w, s.h))
  }

  lemma NoRoomAmongListed(rows: Rows, layout: LayoutId, values: seq<Placement>, columns: int, sizing: Sizing)
    requires Lists(BoxesOf(rows, layout), values)
    requires var s := ClampWidgetSize(sizing, columns); NoneFree(columns, Size(s.w, s.h), values)
    ensures NoRoomOn(rows, layout, columns, sizing)
  {
    hide Lists, Free, FreeIn, BoxesOf;
    var s := ClampWidgetSize(sizing, columns);
    assert Min(s.w, columns) == s.w;
    forall x, y | Tried(columns, s.w, x, y)
      ensures !FreeIn(rows, layout, Box(x, y, s.w, s.h))
    {
      FreeAmongListed(rows, layout, values, Box(x, y, s.w, s.h));
    }
  }

  lemma ListedBoxesValid(columns: int, boxes: map<ItemId, Box>, values: seq<Placement>, constraints: Constraints)
    requires Lists(boxes, values)
    ensures ValidLayout(columns, values, constraints) <==> ValidBoxes(columns, boxes, constraints)
  {
    hide PlacementOk, Overlaps;
    if ValidLayout(columns, values, constraints) {
      forall i | i in boxes
        ensures PlacementOk(Placement(i, boxes[i]), columns, constraints)
      {
        var k :| 0 <= k < |values| && values[k].itemId == i;
        assert values[k] == Placement(i, boxes[i]);
      }
      forall i, j | i in boxes && j in boxes && i != j
        ensures !Overlaps(boxes[i], boxes[j])
      {
        var k :| 0 <= k < |values| && values[k].itemId == i;
        var l :| 0 <= l < |values| && values[l].itemId == j;
        OverlapsSymmetric(boxes[i], boxes[j]);
      }
    }
    if ValidBoxes(columns, boxes, constraints) {
      forall k | 0 <= k < |values|
        ensures PlacementOk(values[k], columns, constraints)
      {
        assert values[k] == Placement(values[k].itemId, boxes[values[k].itemId]);
      }
    }
  }

  lemma {:induction false} FailedInsertFails(d: Dialect, layouts: map<LayoutId, int>, rows: Rows, item: ItemId,
                                             news: seq<NewRow>, n: nat)
    requires n <= |news| && InsertRows(d, layouts, rows, item, news[..n]).Err?
    ensures InsertRows(d, layouts, rows, item, news) == InsertRows(d, layouts, rows, item, news[..n])
    decreases |news|
  {
    if n < |news| {
      assert news[..|news| - 1][..n] == news[..n];
      FailedInsertFails(d, layouts, rows, item, news[..|news| - 1], n);
    } else {
      assert news[..n] == news;
    }
  }
}
