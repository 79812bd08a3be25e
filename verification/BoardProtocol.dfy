/**
  Any number of clients editing one board at once (packages/boards/src/service.ts over the
  PostgreSQL store of packages/db/src/board-runtime.ts).

  A request first reads a snapshot with separate queries, so what it knows about layouts and
  placements may be torn between revisions; it then commits one transaction guarded by the revision
  its client expects.  Each query and each transaction is one atomic step: the transaction's first
  statement locks the board row until it commits.  Identifiers in requests may be spelled in any way.
*/
module BoardProtocol {
  import opened Common
  import opened BoardLayout
  import opened BoardStore

  type RequestId = nat

  datatype Op =
    | MoveItems(layout: LayoutId, items: seq<Placement>)
    | AddItem(id: ItemId, item: Item, sizing: Sizing)
    | EditItem(id: ItemId, item: Item)
    | RemoveItem(id: ItemId)
    | RenameBoard(name: string)

  /** A request and what its snapshot queries have returned so far. */
  datatype Request = Request(op: Op, expected: nat, layouts: Option<map<LayoutId, int>>, rows: Option<Rows>)

  /** `commits` remembers which request produced each revision after the first. */
  datatype State = State(dialect: Dialect, board: Option<Board>, requests: map<RequestId, Request>, commits: seq<RequestId>)

  datatype Step =
    | Issue(r: RequestId, op: Op, expected: nat)
    | ReadLayouts(r: RequestId)
    | ReadRows(r: RequestId)
    | Commit(r: RequestId, news: seq<NewRow>)
    | Abandon(r: RequestId)
    | DeleteBoard

  predicate LegalOp(op: Op) { op.AddItem? ==> ConsistentSizing(op.sizing) }

  /**
    What the transaction of a request does to the board it finds.  The service gives up on an item that
    its snapshot lacks; letting such a request go on only adds executions.
  */
  function Attempt(d: Dialect, b: Board, q: Request, news: seq<NewRow>): Outcome
    requires q.rows.Some?
  {
    match q.op
    case MoveItems(layout, items) => AfterBatch(d, b, layout, q.expected, items, ConstraintsOf(q.rows.value, layout))
    case AddItem(id, item, _) => AfterCreate(d, b, q.expected, id, item, news)
    case EditItem(id, item) => AfterUpdate(d, b, q.expected, id, item)
    case RemoveItem(id) => AfterDelete(d, b, q.expected, id)
    case RenameBoard(name) => AfterRename(b, q.expected, name)
  }

  /** A new item's rows are those of first fit on the snapshot, one on each layout it saw. */
  ghost predicate PreparedFrom(q: Request, news: seq<NewRow>)
    requires q.rows.Some? && q.layouts.Some?
  {
    q.op.AddItem? ==>
      && PlacedByFirstFit(q.rows.value, q.layouts.value, q.op.sizing, news)
      && forall l | l in q.layouts.value :: exists k :: 0 <= k < |news| && news[k].layout == l
  }

  ghost predicate Next(s: State, step: Step, s': State) {
    match step
    case Issue(r, op, expected) =>
      r !in s.requests && r !in s.commits && LegalOp(op)
      && s' == s.(requests := s.requests[r := Request(op, expected, None, None)])
    case ReadLayouts(r) =>
      r in s.requests
      && var seen := if s.board.Some? then s.board.value.layouts else map[];
         s' == s.(requests := s.requests[r := s.requests[r].(layouts := Some(seen))])
    case ReadRows(r) =>
      r in s.requests
      && var seen := if s.board.Some? then s.board.value.rows else map[];
         s' == s.(requests := s.requests[r := s.requests[r].(rows := Some(seen))])
    case Commit(r, news) =>
      r in s.requests && s.requests[r].rows.Some? && s.requests[r].layouts.Some? && PreparedFrom(s.requests[r], news)
      && CommitStep(s, r, news, s')
    case Abandon(r) =>
      s' == s.(requests := s.requests - {r})
    case DeleteBoard =>
      s' == s.(board := None)
  }

  ghost predicate CommitStep(s: State, r: RequestId, news: seq<NewRow>, s': State)
    requires r in s.requests && s.requests[r].rows.Some?
  {
    if s.board.None? then s' == s.(requests := s.requests - {r})
    else
      match Attempt(s.dialect, s.board.value, s.requests[r], news)
      case Refused(_) => s' == s.(requests := s.requests - {r})
      case Committed(b) => s' == State(s.dialect, Some(b), s.requests - {r}, s.commits + [r])
  }

  /** A new board has layouts and nothing on them. */
  ghost predicate Init(s: State) {
    && s.board.Some? && s.board.value.revision == 1 && s.board.value.rows == map[]
    && StoredIds(s.dialect, s.board.value)
    && (forall l | l in s.board.value.layouts :: s.board.value.layouts[l] >= 1)
    && s.requests == map[] && s.commits == []
  }

  /** The client sends a revision it has read, so one the board has already reached. */
  ghost predicate Honest(s: State, step: Step) {
    step.Issue? && s.board.Some? ==> step.expected <= s.board.value.revision
  }

  ghost predicate IsRun(run: seq<State>, steps: seq<Step>) {
    && |run| == |steps| + 1 && Init(run[0])
    && forall i | 0 <= i < |steps| :: Next(run[i], steps[i], run[i + 1])
  }

  ghost predicate HonestRun(run: seq<State>, steps: seq<Step>) {
    IsRun(run, steps) && forall i | 0 <= i < |steps| :: Honest(run[i], steps[i])
  }

  // ---------------------------------------------------------------- the invariant

  /** A request whose revision is still current has seen the current layouts and placements. */
  ghost predicate Current(b: Board, q: Request) {
    && LegalOp(q.op)
    && q.expected <= b.revision
    && (q.layouts.Some? ==> q.layouts.value == b.layouts)
    && (q.expected == b.revision && q.rows.Some? ==> q.rows.value == b.rows)
  }

  ghost predicate AllCurrent(b: Board, requests: map<RequestId, Request>) {
    forall r | r in requests :: Current(b, requests[r])
  }

  ghost predicate Inv(s: State) {
    s.board.Some? ==>
      && GridOk(s.dialect, s.board.value) && AllCurrent(s.board.value, s.requests)
      && s.board.value.revision == 1 + |s.commits|
  }

  /** Every committed mutation moves on to the next revision and leaves the layouts themselves alone. */
  lemma AttemptMovesOn(d: Dialect, b: Board, q: Request, news: seq<NewRow>)
    requires q.rows.Some?
    ensures var r := Attempt(d, b, q, news);
            r.Committed? ==> q.expected == b.revision && r.board.revision == b.revision + 1 && r.board.layouts == b.layouts
  {
    hide UpsertAll, InsertRows, ConstraintsOf, ValidBoxes, DistinctIds, AllKnown, Lower;
  }

  lemma AttemptKeepsGridOk(d: Dialect, b: Board, q: Request, news: seq<NewRow>)
    requires GridOk(d, b) && Current(b, q) && q.rows.Some? && q.layouts.Some? && PreparedFrom(q, news)
    ensures var r := Attempt(d, b, q, news); r.Committed? ==> GridOk(d, r.board)
  {
    hide GridOk, LimitsOk, Lower;
    AttemptMovesOn(d, b, q, news);
    if Attempt(d, b, q, news).Committed? {
      hide PlacedByFirstFit, ConstraintsOf;
      match q.op
      case MoveItems(layout, items) =>
        hide AfterBatch;
        BatchKeepsGridOk(d, b, layout, q.expected, items, ConstraintsOf(q.rows.value, layout));
      case AddItem(id, item, sizing) =>
        hide AfterCreate;
        CreateKeepsLayoutOk(d, b, q.expected, id, item, sizing, news);
      case EditItem(id, item) =>
        OthersKeepLayoutOk(d, b, q.expected, id, item, "");
      case RemoveItem(id) =>
        OthersKeepLayoutOk(d, b, q.expected, id, Item(None, "", 0), "");
      case RenameBoard(name) =>
        OthersKeepLayoutOk(d, b, q.expected, "", Item(None, "", 0), name);
    }
  }

  /** The one mutation that can break a size limit is a batch whose boxes do not meet them. */
  ghost predicate OpMeetsLimits(d: Dialect, b: Board, op: Op) {
    op.MoveItems? ==> BatchMeetsLimits(d, b.rows, op.layout, op.items)
  }

  lemma AttemptKeepsLimitsExactly(d: Dialect, b: Board, q: Request, news: seq<NewRow>)
    requires GridOk(d, b) && LimitsOk(b.rows)
    requires Current(b, q) && q.rows.Some? && q.layouts.Some? && PreparedFrom(q, news)
    ensures var r := Attempt(d, b, q, news);
            r.Committed? ==> (LimitsOk(r.board.rows) <==> OpMeetsLimits(d, b, q.op))
  {
    hide GridOk, LimitsOk, Lower, BatchMeetsLimits;
    AttemptMovesOn(d, b, q, news);
    if Attempt(d, b, q, news).Committed? {
      hide PlacedByFirstFit, ConstraintsOf;
      match q.op
      case MoveItems(layout, items) =>
        hide AfterBatch;
        BatchKeepsLimitsExactly(d, b, layout, q.expected, items);
      case AddItem(id, item, sizing) =>
        hide AfterCreate;
        CreateKeepsLayoutOk(d, b, q.expected, id, item, sizing, news);
      case EditItem(id, item) =>
        OthersKeepLayoutOk(d, b, q.expected, id, item, "");
      case RemoveItem(id) =>
        OthersKeepLayoutOk(d, b, q.expected, id, Item(None, "", 0), "");
      case RenameBoard(name) =>
        OthersKeepLayoutOk(d, b, q.expected, "", Item(None, "", 0), name);
    }
  }

  lemma CommitKeepsInv(s: State, r: RequestId, news: seq<NewRow>, s': State)
    requires Inv(s) && Next(s, Commit(r, news), s')
    ensures Inv(s')
  {
    hide GridOk, PreparedFrom, Attempt;
    if s.board.Some? {
      var b, q := s.board.value, s.requests[r];
      AttemptMovesOn(s.dialect, b, q, news);
      AttemptKeepsGridOk(s.dialect, b, q, news);
    }
  }

  lemma StepKeepsInv(s: State, step: Step, s': State)
    requires Inv(s) && Honest(s, step) && Next(s, step, s')
    ensures Inv(s')
  {
    if step.Commit? {
      CommitKeepsInv(s, step.r, step.news, s');
    }
    hide GridOk, CommitStep, PreparedFrom;
  }

  lemma {:induction false} InvAlways(run: seq<State>, steps: seq<Step>, i: nat)
    requires HonestRun(run, steps) && i < |run|
    ensures Inv(run[i])
  {
    if i > 0 {
      InvAlways(run, steps, i - 1);
      hide Next, Inv, Honest;
      assert Next(run[i - 1], steps[i - 1], run[i]) && Honest(run[i - 1], steps[i - 1]);
      StepKeepsInv(run[i - 1], steps[i - 1], run[i]);
    }
  }

  // ---------------------------------------------------------------- main results

  /** However requests interleave and spell their identifiers, no board ever shows overlapping or misplaced items. */
  lemma LayoutsAlwaysOk(run: seq<State>, steps: seq<Step>, i: nat)
    requires HonestRun(run, steps) && i < |run| && run[i].board.Some?
    ensures GridOk(run[i].dialect, run[i].board.value)
  {
    hide HonestRun, GridOk;
    InvAlways(run, steps, i);
  }

  ghost predicate LimitsKept(s: State) { s.board.Some? ==> LimitsOk(s.board.value.rows) }

  /** If the step commits a batch, each of its boxes meets the limits of its slot or is spelled as stored. */
  ghost predicate StepMeetsLimits(s: State, step: Step, s': State) {
    step.Commit? && step.r in s.requests && s.board.Some? && |s'.commits| > |s.commits| ==>
      OpMeetsLimits(s.dialect, s.board.value, s.requests[step.r].op)
  }

  lemma StepKeepsLimitsExactly(s: State, step: Step, s': State)
    requires Inv(s) && LimitsKept(s) && Next(s, step, s')
    ensures LimitsKept(s') <==> StepMeetsLimits(s, step, s')
  {
    hide GridOk, PreparedFrom, Attempt, OpMeetsLimits, LimitsOk;
    if step.Commit? && s.board.Some? {
      var b, q := s.board.value, s.requests[step.r];
      AttemptKeepsLimitsExactly(s.dialect, b, q, step.news);
      assert |s.commits + [step.r]| > |s.commits|;
    }
  }

  /** Up to any state all boxes kept their size limits if and only if every committed batch so far met them. */
  lemma {:induction false} LimitsKeptExactly(run: seq<State>, steps: seq<Step>, i: nat)
    requires HonestRun(run, steps) && i < |run|
    ensures (forall j | 0 <= j <= i :: LimitsKept(run[j]))
            <==> forall j | 0 <= j < i :: StepMeetsLimits(run[j], steps[j], run[j + 1])
  {
    hide LimitsKept, StepMeetsLimits, Next, Honest, Init;
    if i == 0 {
      assert LimitsKept(run[0]) by { NothingBreaksLimits(run[0]); }
    } else {
      LimitsKeptExactly(run, steps, i - 1);
      if LimitsKept(run[i - 1]) { RunStepKeepsLimits(run, steps, i - 1); }
    }
  }

  lemma RunStepKeepsLimits(run: seq<State>, steps: seq<Step>, i: nat)
    requires HonestRun(run, steps) && i < |steps| && LimitsKept(run[i])
    ensures LimitsKept(run[i + 1]) <==> StepMeetsLimits(run[i], steps[i], run[i + 1])
  {
    InvAlways(run, steps, i);
    assert Next(run[i], steps[i], run[i + 1]);
    hide HonestRun, Next, Inv, LimitsKept, StepMeetsLimits;
    StepKeepsLimitsExactly(run[i], steps[i], run[i + 1]);
  }

  lemma NothingBreaksLimits(s: State)
    requires Init(s)
    ensures LimitsKept(s)
  {
  }

  /** Every identifier of a batch is in the spelling of the database; in SQLite every spelling is. */
  predicate OpSpelledAsStored(d: Dialect, op: Op) {
    op.MoveItems? ==> forall k | 0 <= k < |op.items| :: SpelledAsStored(d, op.layout, op.items[k])
  }

  ghost predicate AllSpelled(s: State) { forall r | r in s.requests :: OpSpelledAsStored(s.dialect, s.requests[r].op) }

  ghost predicate IssuesSpelled(run: seq<State>, steps: seq<Step>) {
    |run| == |steps| + 1 && forall i | 0 <= i < |steps| :: steps[i].Issue? ==> OpSpelledAsStored(run[i].dialect, steps[i].op)
  }

  lemma {:induction false} RequestsAreSpelled(run: seq<State>, steps: seq<Step>, i: nat)
    requires IsRun(run, steps) && IssuesSpelled(run, steps) && i < |run|
    ensures AllSpelled(run[i])
  {
    hide OpSpelledAsStored, Attempt, PreparedFrom;
    if i > 0 {
      RequestsAreSpelled(run, steps, i - 1);
      assert Next(run[i - 1], steps[i - 1], run[i]);
    }
  }

  /** While batches are spelled as stored, as they always are in SQLite, all boxes keep their size limits. */
  lemma LimitsAlwaysKept(run: seq<State>, steps: seq<Step>, i: nat)
    requires HonestRun(run, steps) && i < |run|
    requires IssuesSpelled(run, steps) || run[0].dialect.Sqlite?
    ensures LimitsKept(run[i])
  {
    hide LimitsKept, Next, Honest, Init, SpelledAsStored, MeetsLimits;
    forall j | 0 <= j < i
      ensures StepMeetsLimits(run[j], steps[j], run[j + 1])
    {
      if IssuesSpelled(run, steps) { RequestsAreSpelled(run, steps, j); } else { SqliteSpelled(run, steps, j); }
    }
    LimitsKeptExactly(run, steps, i);
  }

  lemma {:induction false} SqliteSpelled(run: seq<State>, steps: seq<Step>, i: nat)
    requires IsRun(run, steps) && run[0].dialect.Sqlite? && i < |run|
    ensures run[i].dialect.Sqlite? && AllSpelled(run[i])
  {
    hide Attempt, PreparedFrom;
    if i > 0 {
      SqliteSpelled(run, steps, i - 1);
      assert Next(run[i - 1], steps[i - 1], run[i]);
    }
  }

  lemma NeverReborn(run: seq<State>, steps: seq<Step>, i: nat, j: nat)
    requires IsRun(run, steps) && i <= j < |run| && run[j].board.Some?
    ensures run[i].board.Some? && run[i].board.value.revision <= run[j].board.value.revision
    ensures run[i].commits <= run[j].commits
    decreases j
  {
    if i < j {
      assert Next(run[j - 1], steps[j - 1], run[j]);
      if steps[j - 1].Commit? && run[j - 1].board.Some? {
        AttemptMovesOn(run[j - 1].dialect, run[j - 1].board.value, run[j - 1].requests[steps[j - 1].r], steps[j - 1].news);
      }
      hide Attempt, PreparedFrom;
      NeverReborn(run, steps, i, j - 1);
    }
  }

  ghost predicate Commits(run: seq<State>, steps: seq<Step>, i: nat)
    requires |run| == |steps| + 1
  {
    && i < |steps| && steps[i].Commit? && |run[i + 1].commits| > |run[i].commits|
    && steps[i].r in run[i].requests
  }

  lemma CommitTakesTheNextRevision(run: seq<State>, steps: seq<Step>, i: nat)
    requires IsRun(run, steps) && Commits(run, steps, i)
    ensures run[i].board.Some? && run[i + 1].board.Some?
    ensures run[i].requests[steps[i].r].expected == run[i].board.value.revision
    ensures run[i + 1].board.value.revision == run[i].board.value.revision + 1
  {
    assert Next(run[i], steps[i], run[i + 1]);
    if run[i].board.Some? {
      AttemptMovesOn(run[i].dialect, run[i].board.value, run[i].requests[steps[i].r], steps[i].news);
    }
    hide Attempt, PreparedFrom;
  }

  /** No update is lost: of all requests that expect the same revision, at most one ever commits. */
  lemma NoLostUpdate(run: seq<State>, steps: seq<Step>, i: nat, j: nat)
    requires IsRun(run, steps) && Commits(run, steps, i) && Commits(run, steps, j)
    requires run[i].requests[steps[i].r].expected == run[j].requests[steps[j].r].expected
    ensures i == j
  {
    assert |run| == |steps| + 1;
    hide IsRun;
    CommitTakesTheNextRevision(run, steps, i);
    CommitTakesTheNextRevision(run, steps, j);
    if i < j {
      NeverReborn(run, steps, i + 1, j);
    } else if j < i {
      NeverReborn(run, steps, j + 1, i);
    }
  }

  /** A mutation that is refused leaves the board exactly as it was. */
  lemma RefusalChangesNothing(s: State, r: RequestId, news: seq<NewRow>, s': State)
    requires Next(s, Commit(r, news), s') && s'.commits == s.commits
    ensures s'.board == s.board
  {
    hide Attempt, PreparedFrom;
    assert |s.commits + [r]| > |s.commits|;
  }

  // ---------------------------------------------------------------- two runs in which a layout goes wrong

  const ONE_BY_ONE := Sizing(Size(1, 1), Size(1, 1), Size(1, 1))
  const UP_TO_FOUR := Sizing(Size(1, 1), Size(1, 1), Size(4, 1))
  const CLOCK := Item(None, "", 1)

  function Desktop(): LayoutId { SampleId('a') }

  function ClockId(): ItemId { SampleId('b') }

  function LampId(): ItemId { SampleId('c') }

  function Corner(sizing: Sizing): NewRow { NewRow(Desktop(), Row(Box(0, 0, 1, 1), BoundsOf(ClampWidgetSize(sizing, 12)))) }

  function Empty(): Board { Board(1, "", map[Desktop() := 12], map[], map[]) }

  function WithItem(id: ItemId, sizing: Sizing): Board {
    Board(2, "", map[Desktop() := 12], map[id := CLOCK], map[Slot(Desktop(), id) := Corner(sizing).row])
  }

  /** A request as issued, after its first query, and after both. */
  function Fresh(op: Op, expected: nat): Request { Request(op, expected, None, None) }

  function Half(op: Op, expected: nat): Request { Request(op, expected, Some(map[Desktop() := 12]), None) }

  function Full(op: Op, expected: nat, rows: Rows): Request { Request(op, expected, Some(map[Desktop() := 12]), Some(rows)) }

  lemma SamplesAreStored()
    ensures IsStored(Postgres, Desktop()) && IsStored(Postgres, ClockId()) && IsStored(Postgres, LampId())
    ensures ClockId() != LampId()
  {
    hide IsStored;
    SampleIsStored(Postgres, 'a');
    SampleIsStored(Postgres, 'b');
    SampleIsStored(Postgres, 'c');
    assert ClockId()[0] != LampId()[0];
  }

  lemma CornerIsFirstFit(sizing: Sizing)
    requires sizing in {ONE_BY_ONE, UP_TO_FOUR}
    ensures PlacedByFirstFit(map[], map[Desktop() := 12], sizing, [Corner(sizing)])
  {
    hide SampleId;
    var s := ClampWidgetSize(sizing, 12);
    assert s.w == 1 && s.h == 1;
    assert FirstFitIn(map[], Desktop(), 12, Size(1, 1), Box(0, 0, 1, 1));
  }

  lemma InsertCorner(rows: Rows, id: ItemId, sizing: Sizing)
    requires Slot(Desktop(), id) !in rows
    ensures InsertRows(Postgres, map[Desktop() := 12], rows, id, [Corner(sizing)])
            == Ok(rows[Slot(Desktop(), id) := Corner(sizing).row])
  {
    SamplesAreStored();
    hide Lower, SampleId, Desktop, ClockId, LampId, ClampWidgetSize;
    var news := [Corner(sizing)];
    assert news[..0] == [];
    assert InsertRows(Postgres, map[Desktop() := 12], rows, id, []) == Ok(rows);
  }

  /** The first three steps of a request that finds the board as it is. */
  lemma Reads(s: State, r: RequestId, op: Op, expected: nat)
    requires s.board.Some? && s.board.value.layouts == map[Desktop() := 12] && LegalOp(op)
    requires r !in s.requests && r !in s.commits
    ensures var s1, s2 := s.(requests := s.requests[r := Fresh(op, expected)]), s.(requests := s.requests[r := Half(op, expected)]);
            var s3 := s.(requests := s.requests[r := Full(op, expected, s.board.value.rows)]);
            Next(s, Issue(r, op, expected), s1) && Next(s1, ReadLayouts(r), s2) && Next(s2, ReadRows(r), s3)
  {
    hide CommitStep, PreparedFrom, Desktop, ClockId, LampId;
  }

  /** The first item of an empty board is committed to its corner. */
  lemma AddsCorner(s: State, r: RequestId, id: ItemId, sizing: Sizing)
    requires s.dialect.Postgres? && s.board == Some(Empty()) && r in s.requests && IsStored(Postgres, id)
    requires sizing in {ONE_BY_ONE, UP_TO_FOUR} && s.requests[r] == Full(AddItem(id, CLOCK, sizing), 1, map[])
    ensures Next(s, Commit(r, [Corner(sizing)]), Committing(s, r, WithItem(id, sizing)))
  {
    hide Lower, ClampWidgetSize, PreparedFrom, AfterCreate, Desktop, ClockId, LampId, WithItem, Empty, Corner, Next, Committing;
    CreatesCorner(id, sizing);
    CornerIsPrepared(id, sizing, 1);
    CommitsTo(s, r, [Corner(sizing)], WithItem(id, sizing));
  }

  function Committing(s: State, r: RequestId, b: Board): State {
    State(s.dialect, Some(b), s.requests - {r}, s.commits + [r])
  }

  lemma CommitsTo(s: State, r: RequestId, news: seq<NewRow>, b: Board)
    requires s.board.Some? && r in s.requests && s.requests[r].rows.Some? && s.requests[r].layouts.Some?
    requires PreparedFrom(s.requests[r], news) && Attempt(s.dialect, s.board.value, s.requests[r], news) == Committed(b)
    ensures Next(s, Commit(r, news), Committing(s, r, b))
  {
    hide PreparedFrom, Attempt;
  }

  lemma CreatesCorner(id: ItemId, sizing: Sizing)
    requires IsStored(Postgres, id)
    ensures AfterCreate(Postgres, Empty(), 1, id, CLOCK, [Corner(sizing)]) == Committed(WithItem(id, sizing))
  {
    hide Lower, ClampWidgetSize, InsertRows, Desktop, ClockId, LampId, Corner;
    InsertCorner(map[], id, sizing);
  }

  lemma CornerIsPrepared(id: ItemId, sizing: Sizing, expected: nat)
    requires sizing in {ONE_BY_ONE, UP_TO_FOUR}
    ensures PreparedFrom(Full(AddItem(id, CLOCK, sizing), expected, map[]), [Corner(sizing)])
  {
    hide ClampWidgetSize, PlacedByFirstFit, Desktop, ClockId, LampId;
    CornerIsFirstFit(sizing);
    assert [Corner(sizing)][0].layout == Desktop();
  }

  // A client that guesses a revision the board has not reached.

  function FirstAdd(): Op { AddItem(ClockId(), CLOCK, ONE_BY_ONE) }

  function SecondAdd(): Op { AddItem(LampId(), CLOCK, ONE_BY_ONE) }

  function Stacked(): Board {
    Board(3, "", map[Desktop() := 12], map[ClockId() := CLOCK, LampId() := CLOCK],
          map[Slot(Desktop(), ClockId()) := Corner(ONE_BY_ONE).row, Slot(Desktop(), LampId()) := Corner(ONE_BY_ONE).row])
  }

  /** Requests 0 and 1 both place an item on the empty board; request 1 guesses revision 2. */
  function Guessing(): (seq<State>, seq<Step>) {
    var b, q0, q1 := Some(Empty()), Full(FirstAdd(), 1, map[]), Full(SecondAdd(), 2, map[]);
    ([State(Postgres, b, map[], []),
      State(Postgres, b, map[0 := Fresh(FirstAdd(), 1)], []),
      State(Postgres, b, map[0 := Half(FirstAdd(), 1)], []),
      State(Postgres, b, map[0 := q0], []),
      State(Postgres, b, map[0 := q0, 1 := Fresh(SecondAdd(), 2)], []),
      State(Postgres, b, map[0 := q0, 1 := Half(SecondAdd(), 2)], []),
      State(Postgres, b, map[0 := q0, 1 := q1], []),
      State(Postgres, Some(WithItem(ClockId(), ONE_BY_ONE)), map[1 := q1], [0]),
      State(Postgres, Some(Stacked()), map[], [0, 1])],
     [Issue(0, FirstAdd(), 1), ReadLayouts(0), ReadRows(0),
      Issue(1, SecondAdd(), 2), ReadLayouts(1), ReadRows(1),
      Commit(0, [Corner(ONE_BY_ONE)]), Commit(1, [Corner(ONE_BY_ONE)])])
  }

  lemma StacksItems()
    ensures AfterCreate(Postgres, WithItem(ClockId(), ONE_BY_ONE), 2, LampId(), CLOCK, [Corner(ONE_BY_ONE)])
            == Committed(Stacked())
  {
    hide Lower, ClampWidgetSize, InsertRows, Desktop, ClockId, LampId, Corner;
    SamplesAreStored();
    InsertCorner(map[Slot(Desktop(), ClockId()) := Corner(ONE_BY_ONE).row], LampId(), ONE_BY_ONE);
  }

  lemma StackingCommits(s: State)
    requires s.dialect.Postgres? && s.board == Some(WithItem(ClockId(), ONE_BY_ONE))
    requires 1 in s.requests && s.requests[1] == Full(SecondAdd(), 2, map[])
    ensures Next(s, Commit(1, [Corner(ONE_BY_ONE)]), Committing(s, 1, Stacked()))
  {
    hide AfterCreate, WithItem, Stacked, Desktop, ClockId, LampId, Corner, PreparedFrom, Next, Committing, ClampWidgetSize;
    StacksItems();
    CornerIsPrepared(LampId(), ONE_BY_ONE, 2);
    CommitsTo(s, 1, [Corner(ONE_BY_ONE)], Stacked());
  }

  lemma GuessingRuns(i: nat)
    requires i < 8
    ensures var (run, steps) := Guessing(); Next(run[i], steps[i], run[i + 1])
  {
    hide Next, Stacked, Corner, WithItem, Desktop, ClockId, LampId, Lower, ClampWidgetSize;
    var (run, steps) := Guessing();
    EmptyBoard();
    SamplesAreStored();
    if i < 3 {
      Reads(run[0], 0, FirstAdd(), 1);
    } else if i < 6 {
      Reads(run[3], 1, SecondAdd(), 2);
    } else if i == 6 {
      assert run[6].requests - {0} == run[7].requests && run[6].commits + [0] == run[7].commits;
      AddsCorner(run[6], 0, ClockId(), ONE_BY_ONE);
    } else {
      assert run[7].requests - {1} == map[] && run[7].commits + [1] == run[8].commits;
      StackingCommits(run[7]);
    }
  }

  lemma EmptyBoard()
    ensures Empty().layouts == map[Desktop() := 12] && Empty().rows == map[] && Empty().revision == 1
  {
  }

  /** A client that guesses a revision the board has not reached can put one item on top of another. */
  lemma GuessedRevisionBreaksTheLayout()
    ensures var (run, steps) := Guessing();
            && IsRun(run, steps) && !Honest(run[3], steps[3])
            && run[8].board.Some? && !GridOk(run[8].dialect, run[8].board.value)
  {
    hide Next, Init, Stacked, Corner, WithItem, Desktop, ClockId, LampId, GridOk;
    var (run, steps) := Guessing();
    forall i | 0 <= i < 8
      ensures Next(run[i], steps[i], run[i + 1])
    {
      GuessingRuns(i);
    }
    EmptyIsInit();
    StackedOverlaps();
  }

  lemma EmptyIsInit()
    ensures Init(State(Postgres, Some(Empty()), map[], []))
  {
    hide Lower, SampleId;
    SamplesAreStored();
  }

  lemma StackedOverlaps()
    ensures !GridOk(Postgres, Stacked())
  {
    hide Lower, ClampWidgetSize, Desktop, ClockId, LampId;
    SamplesAreStored();
    var rows := Stacked().rows;
    assert Overlaps(rows[Slot(Desktop(), ClockId())].box, rows[Slot(Desktop(), LampId())].box);
    assert !RowsDisjoint(rows);
  }

  // An honest client that spells the layout in upper case.

  function LimitedAdd(): Op { AddItem(ClockId(), CLOCK, UP_TO_FOUR) }

  function Widening(): Op { MoveItems(SampleId('A'), [Placement(ClockId(), Box(0, 0, 12, 1))]) }

  function Widened(): Board {
    var row := Corner(UP_TO_FOUR).row;
    Board(3, "", map[Desktop() := 12], map[ClockId() := CLOCK], map[Slot(Desktop(), ClockId()) := row.(box := Box(0, 0, 12, 1))])
  }

  /** Request 0 places an item of at most four columns; request 1 makes it twelve columns wide. */
  function Respelling(): (seq<State>, seq<Step>) {
    var q0, b1 := Full(LimitedAdd(), 1, map[]), Some(WithItem(ClockId(), UP_TO_FOUR));
    ([State(Postgres, Some(Empty()), map[], []),
      State(Postgres, Some(Empty()), map[0 := Fresh(LimitedAdd(), 1)], []),
      State(Postgres, Some(Empty()), map[0 := Half(LimitedAdd(), 1)], []),
      State(Postgres, Some(Empty()), map[0 := q0], []),
      State(Postgres, b1, map[], [0]),
      State(Postgres, b1, map[1 := Fresh(Widening(), 2)], [0]),
      State(Postgres, b1, map[1 := Half(Widening(), 2)], [0]),
      State(Postgres, b1, map[1 := Full(Widening(), 2, b1.value.rows)], [0]),
      State(Postgres, Some(Widened()), map[], [0, 1])],
     [Issue(0, LimitedAdd(), 1), ReadLayouts(0), ReadRows(0), Commit(0, [Corner(UP_TO_FOUR)]),
      Issue(1, Widening(), 2), ReadLayouts(1), ReadRows(1), Commit(1, [])])
  }

  lemma WideningStored()
    ensures StoredId(Postgres, SampleId('A')) == Desktop() && SampleId('A') != Desktop()
    ensures StoredId(Postgres, ClockId()) == ClockId()
  {
    hide Lower, SampleId;
    SampleIds();
    SamplesAreStored();
  }

  lemma WideningMerges(rows: Rows, items: seq<Placement>)
    requires items == Widening().items && rows.Keys == {Slot(Desktop(), ClockId())}
    ensures Merge(BoxesOf(rows, Desktop()), items) == map[ClockId() := Box(0, 0, 12, 1)]
    ensures var s := Slot(Desktop(), ClockId());
            UpsertAll(rows, Desktop(), items) == rows[s := rows[s].(box := Box(0, 0, 12, 1))]
  {
    hide SampleId, Desktop, ClockId, LampId, ClampWidgetSize;
    assert items[..0] == [] && items[0] == Placement(ClockId(), Box(0, 0, 12, 1));
    assert BoxesOf(rows, Desktop()).Keys == {ClockId()};
    assert UpsertAll(rows, Desktop(), []) == rows && Merge(BoxesOf(rows, Desktop()), []) == BoxesOf(rows, Desktop());
  }

  lemma WideningRows(rows: Rows, items: seq<Placement>)
    requires items == Widening().items && rows == WithItem(ClockId(), UP_TO_FOUR).rows
    ensures StoredPlacements(Postgres, items) == items && ConstraintsOf(rows, SampleId('A')) == map[]
    ensures Merge(BoxesOf(rows, Desktop()), items) == map[ClockId() := Box(0, 0, 12, 1)]
    ensures UpsertAll(rows, Desktop(), items) == Widened().rows
  {
    hide Lower, SampleId, Desktop, ClockId, LampId, ClampWidgetSize, Merge, UpsertAll, BoxesOf, Corner, ConstraintsOf;
    WideningStored();
    NothingElsewhere(rows, SampleId('A'));
    WideningMerges(rows, items);
  }

  lemma NothingElsewhere(rows: Rows, layout: LayoutId)
    requires forall s | s in rows :: s.layout != layout
    ensures ConstraintsOf(rows, layout) == map[]
  {
    assert ConstraintsOf(rows, layout).Keys == {};
  }

  lemma WideningCommits()
    ensures AfterBatch(Postgres, WithItem(ClockId(), UP_TO_FOUR), SampleId('A'), 2, Widening().items,
                       ConstraintsOf(WithItem(ClockId(), UP_TO_FOUR).rows, SampleId('A')))
            == Committed(Widened())
  {
    hide Lower, SampleId, Desktop, ClockId, LampId, ClampWidgetSize, Overlaps, Merge, UpsertAll, BoxesOf, ConstraintsOf;
    WideningStored();
    WideningRows(WithItem(ClockId(), UP_TO_FOUR).rows, Widening().items);
  }

  lemma RespellingRuns(i: nat)
    requires i < 8
    ensures var (run, steps) := Respelling(); Next(run[i], steps[i], run[i + 1])
  {
    hide Next, Empty, Corner, WithItem, Lower, Desktop, ClockId, LampId, Widened, SampleId;
    var (run, steps) := Respelling();
    EmptyBoard();
    BoardWithItem(ClockId(), UP_TO_FOUR);
    SamplesAreStored();
    if i < 3 {
      Reads(run[0], 0, LimitedAdd(), 1);
    } else if i == 3 {
      assert run[3].requests - {0} == map[];
      assert run[3].commits + [0] == run[4].commits;
      AddsCorner(run[3], 0, ClockId(), UP_TO_FOUR);
    } else if i < 7 {
      Reads(run[4], 1, Widening(), 2);
    } else {
      assert run[7].requests - {1} == map[] && run[7].commits + [1] == run[8].commits;
      WideningCommitted(run[7]);
    }
  }

  lemma BoardWithItem(id: ItemId, sizing: Sizing)
    ensures WithItem(id, sizing).layouts == map[Desktop() := 12] && WithItem(id, sizing).revision == 2
  {
  }

  lemma WideningCommitted(s: State)
    requires s.dialect.Postgres? && s.board == Some(WithItem(ClockId(), UP_TO_FOUR))
    requires 1 in s.requests && s.requests[1] == Full(Widening(), 2, WithItem(ClockId(), UP_TO_FOUR).rows)
    ensures Next(s, Commit(1, []), Committing(s, 1, Widened()))
  {
    hide AfterBatch, WithItem, Widened, Desktop, ClockId, LampId, SampleId, ConstraintsOf, Next, Committing;
    WideningCommits();
    CommitsTo(s, 1, [], Widened());
  }

  /** An honest client that spells the layout in upper case gets a box past its size limit stored. */
  lemma RespelledLayoutEscapesItsLimits()
    ensures var (run, steps) := Respelling();
            HonestRun(run, steps) && run[8].board.Some? && !LimitsOk(run[8].board.value.rows)
  {
    hide Next, Init, Empty, Widened, WithItem, Desktop, ClockId, LampId, LimitsOk, SampleId, Corner;
    var (run, steps) := Respelling();
    forall i | 0 <= i < 8
      ensures Next(run[i], steps[i], run[i + 1])
    {
      RespellingRuns(i);
    }
    EmptyIsInit();
    EmptyBoard();
    BoardWithItem(ClockId(), UP_TO_FOUR);
    WidenedIsTooWide();
  }

  lemma WidenedIsTooWide()
    ensures !LimitsOk(Widened().rows)
  {
    hide Desktop, ClockId, LampId;
    assert !RowLimited(Widened().rows, Slot(Desktop(), ClockId()));
  }
}
