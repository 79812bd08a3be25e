/**
  Exporting the whole database and replacing it in one transaction
  (packages/db/src/backup-runtime.ts), and the restore of an archive over it
  (packages/backup/src/service.ts).
*/
module BackupStore {
  import opened Common
  import opened CanonicalJson
  import opened BackupRows
  import opened BackupArchive

  type Content = map<TableName, seq<StoredRow>>

  /** The database, the columns of every table, and which rows the constraints of a table admit. */
  datatype Schema = Schema(
    dialect: Dialect, parse: string -> Option<Json>, jsonb: Json -> Json,
    columns: TableName -> Columns, admits: (TableName, StoredRow) -> bool)

  function EnvOf(schema: Schema, table: TableName): Env { Env(schema.dialect, table, schema.parse, schema.jsonb) }

  const BATCH := 200

  function InsertOrder(): (names: seq<TableName>)
    ensures |names| == 31
  {
    ["server_settings", "users", "groups", "roles", "user_credentials", "group_members", "role_permissions",
     "user_roles", "group_roles", "integrations", "boards", "apps", "integration_secrets", "layouts", "app_tags",
     "items", "item_layouts", "board_user_permissions", "board_group_permissions", "jobs", "oidc_identities",
     "oidc_group_mappings", "oidc_secrets", "automation_rules", "status_pages", "status_page_services",
     "maintenance_windows", "maintenance_window_targets", "service_slos", "slo_alert_policies",
     "service_dependencies"]
  }

  /** Where each table of the archive stands in the insert order, and back. */
  function InsertPosition(k: nat): nat {
    if k == 0 then 1 else if k == 1 then 2 else if k == 2 then 5 else if k == 3 then 10 else if k == 4 then 13 else if k == 5 then 15 else if k == 6 then 16
    else if k == 7 then 11 else if k == 8 then 14 else if k == 10 then 12 else if k == 11 then 0 else if k == 12 then 4 else if k == 13 then 3 else if k == 14 then 6
    else if k == 15 then 7 else if k == 16 then 8 else k
  }

  function ArchivePosition(i: nat): nat {
    if i == 0 then 11 else if i == 1 then 0 else if i == 2 then 1 else if i == 3 then 13 else if i == 4 then 12 else if i == 5 then 2 else if i == 6 then 14
    else if i == 7 then 15 else if i == 8 then 16 else if i == 10 then 3 else if i == 11 then 7 else if i == 12 then 10 else if i == 13 then 4 else if i == 14 then 8
    else if i == 15 then 5 else if i == 16 then 6 else i
  }

  lemma PositionsInverse(i: nat)
    requires i < 31
    ensures InsertPosition(i) < 31 && ArchivePosition(i) < 31 && InsertPosition(ArchivePosition(i)) == i
  {
  }

  lemma InsertOrderLow(k: nat)
    requires k < 16
    ensures InsertPosition(k) < 31 && InsertOrder()[InsertPosition(k)] == AllTables()[k]
  {
  }

  lemma InsertOrderHigh(k: nat)
    requires 16 <= k < 31
    ensures InsertPosition(k) < 31 && InsertOrder()[InsertPosition(k)] == AllTables()[k]
  {
  }

  lemma InsertOrderAt(k: nat)
    requires k < 31
    ensures InsertPosition(k) < 31 && InsertOrder()[InsertPosition(k)] == AllTables()[k]
  {
    if k < 16 { InsertOrderLow(k); } else { InsertOrderHigh(k); }
  }

  /** No table of the archive is left out of a restore, and none is inserted twice. */
  lemma InsertOrderIsComplete()
    ensures forall n :: n in AllTables() <==> n in InsertOrder()
    ensures forall i, j | 0 <= i < j < 31 :: InsertOrder()[i] != InsertOrder()[j]
  {
    hide InsertOrder, AllTables, InsertPosition, ArchivePosition;
    forall n
      ensures n in AllTables() <==> n in InsertOrder()
    {
      if n in AllTables() {
        var k :| 0 <= k < 31 && AllTables()[k] == n;
        InsertOrderAt(k);
      }
      if n in InsertOrder() {
        var i :| 0 <= i < 31 && InsertOrder()[i] == n;
        PositionsInverse(i);
        InsertOrderAt(ArchivePosition(i));
      }
    }
    forall i, j | 0 <= i < j < 31
      ensures InsertOrder()[i] != InsertOrder()[j]
    {
      PositionsInverse(i);
      PositionsInverse(j);
      var k, l := ArchivePosition(i), ArchivePosition(j);
      InsertOrderAt(k);
      InsertOrderAt(l);
      if k < l { TableNamesDistinct(k, l); } else { TableNamesDistinct(l, k); }
    }
  }

  // ---------------------------------------------------------------- what a table becomes

  function StoredRowOf(schema: Schema, table: TableName, row: Json): Result<StoredRow, RowError> {
    if !row.Obj? then Err(Rejected)
    else
      match StoredCells(EnvOf(schema, table), schema.columns(table), row.members)
      case Err(e) => Err(e)
      case Ok(cells) => if schema.admits(table, cells) then Ok(cells) else Err(Rejected)
  }

  /** All rows of a table as stored, or the first failure. */
  function StoredTable(schema: Schema, table: TableName, rows: seq<Json>): Result<seq<StoredRow>, RowError> {
    if rows == [] then Ok([])
    else
      match StoredTable(schema, table, rows[..|rows| - 1])
      case Err(e) => Err(e)
      case Ok(before) =>
        match StoredRowOf(schema, table, rows[|rows| - 1])
        case Err(e) => Err(e)
        case Ok(cells) => Ok(before + [cells])
  }

  predicate AllStored(schema: Schema, tables: Tables) {
    forall n | n in InsertOrder() && n in tables :: StoredTable(schema, n, tables[n]).Ok?
  }

  function StoredAs(schema: Schema, table: TableName, tables: Tables): seq<StoredRow> {
    if table in tables && StoredTable(schema, table, tables[table]).Ok? then StoredTable(schema, table, tables[table]).value
    else []
  }

  function StoredContent(schema: Schema, tables: Tables): Content {
    map n | n in InsertOrder() :: StoredAs(schema, n, tables)
  }

  function ExportedRow(schema: Schema, table: TableName, cells: StoredRow): Result<Json, RowError> {
    var columns := schema.columns(table);
    if |cells| != |columns| || !DistinctColumns(columns) then Err(Rejected)
    else
      match SerializedRow(schema.parse, columns, ReadRow(EnvOf(schema, table), columns, cells))
      case Err(e) => Err(e)
      case Ok(ms) => Ok(Obj(ms))
  }

  function ExportedTable(schema: Schema, table: TableName, cells: seq<StoredRow>): Result<seq<Json>, RowError> {
    if cells == [] then Ok([])
    else
      match ExportedTable(schema, table, cells[..|cells| - 1])
      case Err(e) => Err(e)
      case Ok(before) =>
        match ExportedRow(schema, table, cells[|cells| - 1])
        case Err(e) => Err(e)
        case Ok(row) => Ok(before + [row])
  }

  /** Inserting in batches stores what inserting everything at once would. */
  lemma {:induction false} StoredInParts(schema: Schema, table: TableName, a: seq<Json>, b: seq<Json>)
    ensures var r := StoredTable(schema, table, a + b);
            if StoredTable(schema, table, a).Err? || StoredTable(schema, table, b).Err? then r.Err?
            else r == Ok(StoredTable(schema, table, a).value + StoredTable(schema, table, b).value)
  {
    hide StoredRowOf;
    if b == [] {
      assert a + b == a;
      var x := StoredTable(schema, table, a);
      assert x.Ok? ==> x.value + [] == x.value;
    } else {
      var init, last := b[..|b| - 1], b[|b| - 1];
      assert (a + b)[..|a + b| - 1] == a + init && (a + b)[|a + b| - 1] == last;
      StoredInParts(schema, table, a, init);
      var x, y, z := StoredTable(schema, table, a), StoredTable(schema, table, init), StoredRowOf(schema, table, last);
      if x.Ok? && y.Ok? && z.Ok? {
        assert (x.value + y.value) + [z.value] == x.value + (y.value + [z.value]);
      }
    }
  }

  // ---------------------------------------------------------------- export after restore

  function Map<A, B>(f: A -> B, xs: seq<A>): (ys: seq<B>)
    ensures |ys| == |xs| && forall i | 0 <= i < |xs| :: ys[i] == f(xs[i])
  {
    if xs == [] then [] else Map(f, xs[..|xs| - 1]) + [f(xs[|xs| - 1])]
  }

  lemma MapConcat<A, B>(f: A -> B, xs: seq<A>, ys: seq<A>)
    ensures Map(f, xs + ys) == Map(f, xs) + Map(f, ys)
  {
    hide Map;
    assert forall i | 0 <= i < |xs| + |ys| :: Map(f, xs + ys)[i] == (Map(f, xs) + Map(f, ys))[i];
  }

  lemma MapWith<A, B>(f: A -> B, before: seq<A>, x: A, after: seq<A>)
    ensures multiset(Map(f, before + [x] + after)) == multiset(Map(f, before + after)) + multiset{f(x)}
  {
    MapConcat(f, before + [x], after);
    MapConcat(f, before, [x]);
    MapConcat(f, before, after);
    assert Map(f, [x]) == [f(x)];
    hide Map;
  }

  lemma SplitPermutation<A>(init: seq<A>, x: A, before: seq<A>, after: seq<A>)
    requires multiset(init + [x]) == multiset(before + [x] + after)
    ensures multiset(init) == multiset(before + after)
  {
    assert multiset(init) == multiset(init + [x]) - multiset{x};
    assert multiset(before + after) == multiset(before + [x] + after) - multiset{x};
  }

  /** The images of a permutation are a permutation of the images. */
  lemma {:induction false} MapPermutes<A, B>(f: A -> B, xs: seq<A>, ys: seq<A>)
    requires multiset(xs) == multiset(ys)
    ensures multiset(Map(f, xs)) == multiset(Map(f, ys))
  {
    hide Map;
    assert |multiset(xs)| == |xs| && |multiset(ys)| == |ys|;
    if xs == [] {
      assert ys == [];
    } else {
      var init, last := xs[..|xs| - 1], xs[|xs| - 1];
      assert xs == init + [last] && xs == init + [last] + [] && init == init + [];
      assert last in multiset(ys);
      var j :| 0 <= j < |ys| && ys[j] == last;
      var before, after := ys[..j], ys[j + 1..];
      assert ys == before + [last] + after;
      SplitPermutation(init, last, before, after);
      MapPermutes(f, init, before + after);
      MapWith(f, init, last, []);
      MapWith(f, before, last, after);
    }
  }

  function ExportOr(schema: Schema, table: TableName): StoredRow -> Json {
    (c: StoredRow) => match ExportedRow(schema, table, c) case Ok(v) => v case Err(_) => Null
  }

  lemma {:induction false} ExportedTableIsMap(schema: Schema, table: TableName, cells: seq<StoredRow>)
    requires forall i | 0 <= i < |cells| :: ExportedRow(schema, table, cells[i]).Ok?
    ensures ExportedTable(schema, table, cells) == Ok(Map(ExportOr(schema, table), cells))
  {
    hide ExportedRow;
    if cells != [] {
      ExportedTableIsMap(schema, table, cells[..|cells| - 1]);
    }
  }

  lemma {:induction false} StoredTableMeaning(schema: Schema, table: TableName, rows: seq<Json>)
    requires StoredTable(schema, table, rows).Ok?
    ensures var cells := StoredTable(schema, table, rows).value;
            |cells| == |rows| && forall i | 0 <= i < |rows| :: StoredRowOf(schema, table, rows[i]) == Ok(cells[i])
  {
    hide StoredRowOf;
    if rows != [] {
      StoredTableMeaning(schema, table, rows[..|rows| - 1]);
    }
  }

  /** An archive row of the table's shape. */
  predicate Shaped(schema: Schema, table: TableName, row: Json) {
    row.Obj? && RowHasShape(table, schema.columns(table), row.members)
  }

  /** A row of the table's shape that the database keeps as it is. */
  predicate Restorable(schema: Schema, table: TableName, row: Json) {
    Shaped(schema, table, row) && RowLasts(EnvOf(schema, table), row.members)
  }

  /** A row with its keys in column order, as SQLite gives it back. */
  function ArrangedRow(schema: Schema, table: TableName): Json -> Json {
    (row: Json) => if Restorable(schema, table, row) then Obj(Arranged(schema.columns(table), row.members)) else row
  }

  predicate RowInOrder(schema: Schema, table: TableName, row: Json) {
    row.Obj? && InColumnOrder(schema.columns(table), row.members)
  }

  lemma RestoredRowExports(schema: Schema, table: TableName, row: Json)
    requires Faithful(schema.parse, schema.jsonb) && Valid(row) && Restorable(schema, table, row) && StoredRowOf(schema, table, row).Ok?
    ensures var back := ExportedRow(schema, table, StoredRowOf(schema, table, row).value);
            && back.Ok? && Same(back.value, row) && Valid(back.value)
            && (schema.dialect.Sqlite? ==> back.value == ArrangedRow(schema, table)(row))
  {
    RowRoundTrip(EnvOf(schema, table), schema.columns(table), row.members);
    hide StoredCells, ReadRow, SerializedRow, RowHasShape, RowLasts, Arranged, Same, Valid, Faithful;
  }

  /** Rows that were in column order already are given back literally. */
  lemma OrderedRowsStay(schema: Schema, table: TableName, rows: seq<Json>)
    requires forall i | 0 <= i < |rows| :: Restorable(schema, table, rows[i]) && RowInOrder(schema, table, rows[i])
    ensures Map(ArrangedRow(schema, table), rows) == rows
  {
    hide Map;
    forall i | 0 <= i < |rows|
      ensures ArrangedRow(schema, table)(rows[i]) == rows[i]
    {
      ArrangedKeeps(table, schema.columns(table), rows[i].members);
      hide RowHasShape, RowLasts, Arranged;
    }
    hide Restorable, RowInOrder, ArrangedRow;
  }

  /** What is exported from a restored row lasts. */
  lemma RestoredRowLasts(schema: Schema, table: TableName, row: Json)
    requires Faithful(schema.parse, schema.jsonb) && Valid(row) && Shaped(schema, table, row) && StoredRowOf(schema, table, row).Ok?
    ensures var back := ExportedRow(schema, table, StoredRowOf(schema, table, row).value);
            back.Ok? && back.value.Obj? && Valid(back.value) && RowLasts(EnvOf(schema, table), back.value.members)
  {
    RowExportLasts(EnvOf(schema, table), schema.columns(table), row.members);
    hide StoredCells, ReadRow, SerializedRow, RowLasts, HasShape, Valid, Faithful, Lookup;
  }

  /** The exports of stored rows exist, and each of them lasts. */
  ghost predicate ExportsLast(schema: Schema, table: TableName, stored: seq<StoredRow>) {
    forall i | 0 <= i < |stored| :: ExportedRowLasts(schema, table, stored[i])
  }

  ghost predicate ExportedRowLasts(schema: Schema, table: TableName, cells: StoredRow) {
    var back := ExportedRow(schema, table, cells);
    back.Ok? && back.value.Obj? && Valid(back.value) && RowLasts(EnvOf(schema, table), back.value.members)
  }

  lemma StoredLast(schema: Schema, table: TableName, rows: seq<Json>, stored: seq<StoredRow>, selected: seq<StoredRow>)
    requires Faithful(schema.parse, schema.jsonb) && StoredTable(schema, table, rows) == Ok(stored)
    requires forall i | 0 <= i < |rows| :: Valid(rows[i]) && Shaped(schema, table, rows[i])
    requires multiset(selected) == multiset(stored)
    ensures ExportsLast(schema, table, stored) && ExportsLast(schema, table, selected)
  {
    StoredTableMeaning(schema, table, rows);
    hide StoredTable, StoredRowOf, Shaped, Valid, ExportedRow, RowLasts, Faithful;
    forall i | 0 <= i < |stored|
      ensures ExportedRowLasts(schema, table, stored[i])
    {
      RestoredRowLasts(schema, table, rows[i]);
    }
    hide ExportedRowLasts;
    forall i | 0 <= i < |selected|
      ensures ExportedRowLasts(schema, table, selected[i])
    {
      assert selected[i] in multiset(selected);
      assert selected[i] in stored;
    }
  }

  /** A row that is found again among exported ones lasts. */
  lemma FoundRowLasts(schema: Schema, table: TableName, selected: seq<StoredRow>, row: Json)
    requires ExportsLast(schema, table, selected) && Valid(row) && Shaped(schema, table, row)
    requires Canonical(row) in multiset(Map(Canonical, Map(ExportOr(schema, table), selected)))
    ensures Restorable(schema, table, row)
  {
    hide Map, Canonical, Valid, RowLasts, ExportedRow, RowHasShape;
    var f := ExportOr(schema, table);
    var j :| 0 <= j < |selected| && Map(Canonical, Map(f, selected))[j] == Canonical(row);
    assert ExportedRowLasts(schema, table, selected[j]);
    CanonicalIsExact(f(selected[j]), row);
    SameRowLasts(EnvOf(schema, table), f(selected[j]).members, row.members);
  }

  /**
    Rows that come back in any order from a restored table always export; they are the archive's rows, as
    multisets up to key order, exactly when every row lasts.  Then they are in SQLite the archive's with
    their keys in column order; in PostgreSQL keys inside jsonb columns may be in any order as well.
  */
  lemma ExportAfterRestore(schema: Schema, table: TableName, rows: seq<Json>, selected: seq<StoredRow>)
    requires Faithful(schema.parse, schema.jsonb)
    requires forall i | 0 <= i < |rows| :: Valid(rows[i]) && Shaped(schema, table, rows[i])
    requires StoredTable(schema, table, rows).Ok?
    requires multiset(selected) == multiset(StoredTable(schema, table, rows).value)
    ensures var r := ExportedTable(schema, table, selected);
            && r.Ok?
            && (multiset(Map(Canonical, r.value)) == multiset(Map(Canonical, rows))
                <==> forall i | 0 <= i < |rows| :: Restorable(schema, table, rows[i]))
            && (schema.dialect.Sqlite? && (forall i | 0 <= i < |rows| :: Restorable(schema, table, rows[i]))
                ==> multiset(r.value) == multiset(Map(ArrangedRow(schema, table), rows)))
            && (schema.dialect.Sqlite?
                && (forall i | 0 <= i < |rows| :: Restorable(schema, table, rows[i]) && RowInOrder(schema, table, rows[i]))
                ==> multiset(r.value) == multiset(rows))
  {
    hide ExportedRow, StoredTable, ExportedTable, Restorable, Shaped, Valid, Canonical, Map, ExportOr, ArrangedRow, RowInOrder, Faithful;
    var stored := StoredTable(schema, table, rows).value;
    StoredLast(schema, table, rows, stored, selected);
    assert forall i | 0 <= i < |stored| :: ExportedRowLasts(schema, table, stored[i]);
    assert forall i | 0 <= i < |stored| :: ExportedRow(schema, table, stored[i]).Ok?;
    SelectedExports(schema, table, selected, stored);
    hide ExportedRowLasts, ExportsLast;
    if forall i | 0 <= i < |rows| :: Restorable(schema, table, rows[i]) {
      LastingRowsReturn(schema, table, rows, selected);
    } else if multiset(Map(Canonical, Map(ExportOr(schema, table), selected))) == multiset(Map(Canonical, rows)) {
      forall i | 0 <= i < |rows|
        ensures Restorable(schema, table, rows[i])
      {
        assert Map(Canonical, rows)[i] == Canonical(rows[i]);
        assert Canonical(rows[i]) in multiset(Map(Canonical, rows));
        FoundRowLasts(schema, table, selected, rows[i]);
      }
    }
  }

  lemma LastingRowsReturn(schema: Schema, table: TableName, rows: seq<Json>, selected: seq<StoredRow>)
    requires Faithful(schema.parse, schema.jsonb)
    requires forall i | 0 <= i < |rows| :: Valid(rows[i]) && Restorable(schema, table, rows[i])
    requires StoredTable(schema, table, rows).Ok?
    requires multiset(selected) == multiset(StoredTable(schema, table, rows).value)
    ensures var back := Map(ExportOr(schema, table), selected);
            && multiset(Map(Canonical, back)) == multiset(Map(Canonical, rows))
            && (schema.dialect.Sqlite? ==> multiset(back) == multiset(Map(ArrangedRow(schema, table), rows)))
            && (schema.dialect.Sqlite? && (forall i | 0 <= i < |rows| :: RowInOrder(schema, table, rows[i]))
                ==> multiset(back) == multiset(rows))
  {
    hide ExportedRow, StoredTable, ExportedTable, Restorable, Valid, Canonical, Map, ExportOr, ArrangedRow, RowInOrder, Faithful;
    var stored, f := StoredTable(schema, table, rows).value, ExportOr(schema, table);
    StoredExports(schema, table, rows, stored);
    PermutedImages(f, Canonical, selected, stored, rows);
    MapPermutes(f, selected, stored);
    if schema.dialect.Sqlite? {
      assert Map(f, stored) == Map(ArrangedRow(schema, table), rows);
      if forall i | 0 <= i < |rows| :: RowInOrder(schema, table, rows[i]) { OrderedRowsStay(schema, table, rows); }
    }
  }

  lemma PermutedImages<A, B, C>(f: A -> B, g: B -> C, selected: seq<A>, stored: seq<A>, rows: seq<B>)
    requires multiset(selected) == multiset(stored)
    requires |stored| == |rows| && forall i | 0 <= i < |stored| :: g(f(stored[i])) == g(rows[i])
    ensures multiset(Map(g, Map(f, selected))) == multiset(Map(g, rows))
  {
    hide Map;
    MapPermutes(f, selected, stored);
    MapPermutes(g, Map(f, selected), Map(f, stored));
    ImagesMatch(f, g, stored, rows);
  }

  lemma SelectedExports(schema: Schema, table: TableName, selected: seq<StoredRow>, stored: seq<StoredRow>)
    requires multiset(selected) == multiset(stored)
    requires forall i | 0 <= i < |stored| :: ExportedRow(schema, table, stored[i]).Ok?
    ensures ExportedTable(schema, table, selected) == Ok(Map(ExportOr(schema, table), selected))
  {
    hide ExportedRow, ExportedTable, ExportOr, Map;
    forall i | 0 <= i < |selected|
      ensures ExportedRow(schema, table, selected[i]).Ok?
    {
      assert selected[i] in multiset(selected);
      assert selected[i] in stored;
    }
    ExportedTableIsMap(schema, table, selected);
  }

  lemma ImagesMatch<A, B, C>(f: A -> B, g: B -> C, xs: seq<A>, ys: seq<B>)
    requires |xs| == |ys| && forall i | 0 <= i < |xs| :: g(f(xs[i])) == g(ys[i])
    ensures Map(g, Map(f, xs)) == Map(g, ys)
  {
    hide Map;
  }

  lemma StoredExports(schema: Schema, table: TableName, rows: seq<Json>, stored: seq<StoredRow>)
    requires Faithful(schema.parse, schema.jsonb) && StoredTable(schema, table, rows) == Ok(stored)
    requires forall i | 0 <= i < |rows| :: Valid(rows[i]) && Restorable(schema, table, rows[i])
    ensures |stored| == |rows|
    ensures forall i | 0 <= i < |rows| :: ExportedRow(schema, table, stored[i]) == Ok(ExportOr(schema, table)(stored[i]))
    ensures forall i | 0 <= i < |rows| :: Canonical(ExportOr(schema, table)(stored[i])) == Canonical(rows[i])
    ensures schema.dialect.Sqlite? ==>
              forall i | 0 <= i < |rows| :: ExportOr(schema, table)(stored[i]) == ArrangedRow(schema, table)(rows[i])
  {
    StoredTableMeaning(schema, table, rows);
    hide ExportedRow, StoredTable, Restorable, ArrangedRow, Valid, Canonical, Same, Faithful, StoredRowOf;
    forall i | 0 <= i < |rows|
      ensures ExportedRow(schema, table, stored[i]) == Ok(ExportOr(schema, table)(stored[i]))
      ensures Canonical(ExportOr(schema, table)(stored[i])) == Canonical(rows[i])
      ensures schema.dialect.Sqlite? ==> ExportOr(schema, table)(stored[i]) == ArrangedRow(schema, table)(rows[i])
    {
      RestoredRowExports(schema, table, rows[i]);
      CanonicalIsExact(ExportedRow(schema, table, stored[i]).value, rows[i]);
    }
  }

  // ---------------------------------------------------------------- the store as an object

  const EPHEMERAL_TABLES: seq<TableName> :=
    ["automation_runs", "automation_runtime_state", "notifications", "incidents", "incident_events", "push_subscriptions"]

  function NothingEphemeral(): Content { map n | n in EPHEMERAL_TABLES :: [] }

  /** The order rows of a table come back in: any, and nothing else. */
  type Selection = (TableName, seq<StoredRow>) -> seq<StoredRow>

  ghost predicate Permutes(select: Selection) {
    forall n, rows :: multiset(select(n, rows)) == multiset(rows)
  }

  /** An export reads every table once. */
  ghost predicate IsExport(schema: Schema, select: Selection, content: Content, tables: Tables) {
    && (forall n :: n in tables <==> n in AllTables())
    && forall n | n in AllTables() :: n in content && ExportedTable(schema, n, select(n, content[n])) == Ok(tables[n])
  }

  /** The first `i` tables of the insert order are stored, the others still empty. */
  function PartStored(schema: Schema, tables: Tables, i: nat): Content
    requires i <= 31
  {
    map n | n in InsertOrder() :: if n in InsertOrder()[..i] then StoredAs(schema, n, tables) else []
  }

  lemma StoreOneMore(schema: Schema, tables: Tables, i: nat)
    requires i < 31
    ensures var n := InsertOrder()[i];
            PartStored(schema, tables, i + 1) == PartStored(schema, tables, i)[n := StoredAs(schema, n, tables)]
  {
    hide InsertOrder, StoredAs;
    assert InsertOrder()[..i + 1] == InsertOrder()[..i] + [InsertOrder()[i]];
  }

  class SnapshotStore {
    var content: Content
    var ephemeral: Content
    const schema: Schema

    constructor (schema: Schema)
      ensures content == map[] && ephemeral == map[] && this.schema == schema
    {
      content, ephemeral := map[], map[];
      this.schema := schema;
    }

    /** SQLite: one statement a row. */
    method InsertRowByRow(table: TableName, rows: seq<Json>) returns (r: Result<seq<StoredRow>, RowError>)
      ensures r.Ok? <==> StoredTable(schema, table, rows).Ok?
      ensures r.Ok? ==> r == StoredTable(schema, table, rows)
    {
      hide StoredRowOf;
      var inserted: seq<StoredRow> := [];
      var i := 0;
      while i < |rows|
        invariant 0 <= i <= |rows|
        invariant StoredTable(schema, table, rows[..i]) == Ok(inserted)
      {
        assert rows[..i + 1][..i] == rows[..i] && rows == rows[..i + 1] + rows[i + 1..];
        StoredInParts(schema, table, rows[..i + 1], rows[i + 1..]);
        var cells := StoredRowOf(schema, table, rows[i]);
        if cells.Err? { return Err(cells.error); }
        inserted := inserted + [cells.value];
        i := i + 1;
      }
      assert rows[..|rows|] == rows;
      return Ok(inserted);
    }

    /** PostgreSQL: one statement a batch of at most 200 rows, all of it or none. */
    method InsertInBatches(table: TableName, rows: seq<Json>) returns (r: Result<seq<StoredRow>, RowError>)
      ensures r.Ok? <==> StoredTable(schema, table, rows).Ok?
      ensures r.Ok? ==> r == StoredTable(schema, table, rows)
    {
      var inserted: seq<StoredRow> := [];
      var index := 0;
      while index < |rows|
        invariant 0 <= index
        invariant StoredTable(schema, table, rows[..Min(index, |rows|)]) == Ok(inserted)
        decreases |rows| - index
      {
        var end := Min(index + BATCH, |rows|);
        var batch := rows[index..end];
        assert rows[..end] == rows[..index] + batch && rows == rows[..end] + rows[end..];
        StoredInParts(schema, table, rows[..index], batch);
        StoredInParts(schema, table, rows[..end], rows[end..]);
        hide StoredTable;
        var cells := InsertRowByRow(table, batch);
        if cells.Err? { return Err(cells.error); }
        inserted := inserted + cells.value;
        index := index + BATCH;
      }
      assert rows[..|rows|] == rows;
      return Ok(inserted);
    }

    method InsertTable(table: TableName, rows: seq<Json>) returns (r: Result<seq<StoredRow>, RowError>)
      ensures r.Ok? <==> StoredTable(schema, table, rows).Ok?
      ensures r.Ok? ==> r == StoredTable(schema, table, rows)
    {
      if schema.dialect.Sqlite? {
        r := InsertRowByRow(table, rows);
      } else {
        r := InsertInBatches(table, rows);
      }
    }

    method DeleteTables()
      modifies this`content
      ensures content == map n | n in InsertOrder() :: []
    {
      hide InsertOrder;
      content := map[];
      var i := |InsertOrder()|;
      while i > 0
        invariant 0 <= i <= |InsertOrder()|
        invariant content == map n | n in InsertOrder()[i..] :: []
      {
        i := i - 1;
        assert InsertOrder()[i..] == [InsertOrder()[i]] + InsertOrder()[i + 1..];
        content := content[InsertOrder()[i] := []];
      }
    }

    method InsertTables(tables: Tables) returns (r: Result<(), RowError>)
      requires content == PartStored(schema, tables, 0)
      requires forall n | n in InsertOrder() :: n in tables
      modifies this`content
      ensures r.Ok? <==> AllStored(schema, tables)
      ensures r.Ok? ==> content == PartStored(schema, tables, 31)
    {
      hide StoredTable, InsertOrder, PartStored;
      var names := InsertOrder();
      var i := 0;
      while i < |names|
        invariant 0 <= i <= |names|
        invariant forall n | n in names[..i] :: StoredTable(schema, n, tables[n]).Ok?
        invariant content == PartStored(schema, tables, i)
      {
        var name := names[i];
        assert names[..i + 1] == names[..i] + [name];
        var rows := InsertTable(name, tables[name]);
        if rows.Err? { return Err(rows.error); }
        StoreOneMore(schema, tables, i);
        content := content[name := rows.value];
        i := i + 1;
      }
      assert names[..|names|] == names;
      return Ok(());
    }

    /** One transaction: the new content complete, or the old content untouched. */
    method ReplaceSnapshot(tables: Tables) returns (r: Result<(), RowError>)
      requires forall n | n in InsertOrder() :: n in tables
      modifies this
      ensures r.Ok? <==> AllStored(schema, tables)
      ensures r.Ok? ==> content == StoredContent(schema, tables) && ephemeral == NothingEphemeral()
      ensures r.Err? ==> content == old(content) && ephemeral == old(ephemeral)
    {
      hide StoredTable, InsertOrder, StoredAs;
      var savedContent, savedEphemeral := content, ephemeral;
      ephemeral := NothingEphemeral();
      DeleteTables();
      assert InsertOrder()[..0] == [] && InsertOrder()[..31] == InsertOrder();
      assert content == PartStored(schema, tables, 0);
      r := InsertTables(tables);
      if r.Err? {
        content, ephemeral := savedContent, savedEphemeral;
      }
    }

    method ExportTable(select: Selection, name: TableName) returns (r: Result<seq<Json>, RowError>)
      requires name in content
      ensures r == ExportedTable(schema, name, select(name, content[name]))
    {
      hide ExportedRow;
      var cells := select(name, content[name]);
      var rows: seq<Json> := [];
      var i := 0;
      while i < |cells|
        invariant 0 <= i <= |cells|
        invariant ExportedTable(schema, name, cells[..i]) == Ok(rows)
      {
        assert cells[..i + 1][..i] == cells[..i];
        var row := ExportedRow(schema, name, cells[i]);
        if row.Err? {
          FailedExportFails(schema, name, cells, i + 1);
          return Err(row.error);
        }
        rows := rows + [row.value];
        i := i + 1;
      }
      assert cells[..|cells|] == cells;
      return Ok(rows);
    }

    /** Reads every table within one transaction. */
    method ExportSnapshot(select: Selection) returns (r: Result<Tables, RowError>)
      requires forall n | n in AllTables() :: n in content
      ensures r.Ok? ==> IsExport(schema, select, content, r.value)
      ensures r.Err? ==> exists n :: n in AllTables() && ExportedTable(schema, n, select(n, content[n])).Err?
    {
      hide ExportedTable, AllTables;
      var tables: Tables := map[];
      var names := AllTables();
      var i := 0;
      while i < |names|
        invariant 0 <= i <= |names|
        invariant forall n :: n in tables <==> n in names[..i]
        invariant forall n | n in names[..i] :: ExportedTable(schema, n, select(n, content[n])) == Ok(tables[n])
      {
        assert names[..i + 1] == names[..i] + [names[i]];
        var rows := ExportTable(select, names[i]);
        if rows.Err? { return Err(rows.error); }
        tables := tables[names[i] := rows.value];
        i := i + 1;
      }
      assert names[..|names|] == names;
      return Ok(tables);
    }
  }

  lemma {:induction false} FailedExportFails(schema: Schema, table: TableName, cells: seq<StoredRow>, n: nat)
    requires n <= |cells| && ExportedTable(schema, table, cells[..n]).Err?
    ensures ExportedTable(schema, table, cells) == ExportedTable(schema, table, cells[..n])
    decreases |cells|
  {
    if n < |cells| {
      assert cells[..|cells| - 1][..n] == cells[..n];
      FailedExportFails(schema, table, cells[..|cells| - 1], n);
    } else {
      assert cells[..n] == cells;
    }
  }

  /** After a restore, an export reads back every table of the archive, whatever order rows come in. */
  lemma RestoreThenExport(schema: Schema, select: Selection, tables: Tables, n: TableName)
    requires Faithful(schema.parse, schema.jsonb) && Permutes(select) && AllStored(schema, tables)
    requires n in AllTables() && n in tables
    requires forall i | 0 <= i < |tables[n]| :: Valid(tables[n][i]) && Shaped(schema, n, tables[n][i])
    ensures n in StoredContent(schema, tables)
    ensures var r := ExportedTable(schema, n, select(n, StoredContent(schema, tables)[n]));
            && r.Ok?
            && (multiset(Map(Canonical, r.value)) == multiset(Map(Canonical, tables[n]))
                <==> forall i | 0 <= i < |tables[n]| :: Restorable(schema, n, tables[n][i]))
            && (schema.dialect.Sqlite? && (forall i | 0 <= i < |tables[n]| :: Restorable(schema, n, tables[n][i]))
                ==> multiset(r.value) == multiset(Map(ArrangedRow(schema, n), tables[n])))
  {
    hide StoredTable, ExportedTable, Faithful, Restorable, Shaped, Valid, Map, Canonical, AllTables, InsertOrder, ArrangedRow, RowInOrder;
    InsertOrderIsComplete();
    ExportAfterRestore(schema, n, tables[n], select(n, StoredContent(schema, tables)[n]));
  }

  // ---------------------------------------------------------------- restoring an archive

  datatype RestoreError = BadArchive(error: BackupArchive.Error) | ConfirmRequired | ExportFailed | RestoreFailed

  datatype Restored = Restored(preRestore: Document)

  /** What the service needs besides the store: the digest, the row schema, and what the clock says. */
  datatype Service = Service(sha: Hash, rows: RowSchema, createdAt: string)

  class BackupService {
    const store: SnapshotStore
    const service: Service
    var persisted: seq<Document>

    constructor (store: SnapshotStore, service: Service)
      ensures this.store == store && this.service == service && persisted == []
    {
      this.store, this.service := store, service;
      persisted := [];
    }

    /**
      Parse, confirm, save what is there, replace.  Whatever fails, the store stays as it was; success
      means the archive's tables are in, and the old content was persisted before it was touched.
    */
    method Restore(input: Document, confirm: bool, select: Selection, canPersist: bool)
      returns (r: Result<Restored, RestoreError>)
      requires forall n | n in AllTables() :: n in store.content
      modifies this`persisted, store
      ensures r.Err? ==> store.content == old(store.content) && store.ephemeral == old(store.ephemeral)
      ensures r.Err? ==> |persisted| <= |old(persisted)| + 1 && old(persisted) <= persisted
      ensures ParseArchive(service.sha, service.rows, input).Err? ==>
                r == Err(BadArchive(ParseArchive(service.sha, service.rows, input).error)) && persisted == old(persisted)
      ensures ParseArchive(service.sha, service.rows, input).Ok? && !confirm ==>
                r == Err(ConfirmRequired) && persisted == old(persisted)
      ensures r.Ok? ==>
                && confirm && ParseArchive(service.sha, service.rows, input).Ok?
                && AllStored(store.schema, ParseArchive(service.sha, service.rows, input).value.tables)
                && store.content == StoredContent(store.schema, ParseArchive(service.sha, service.rows, input).value.tables)
                && store.ephemeral == NothingEphemeral()
                && persisted == old(persisted) + [r.value.preRestore]
                && exists tables ::
                     && IsExport(store.schema, select, old(store.content), tables)
                     && BuildArchive(service.sha, service.rows, tables, service.createdAt) == Ok(r.value.preRestore)
    {
      hide ParseArchive, BuildArchive, AllTables, InsertOrder, AllStored, StoredContent, IsExport;
      var incoming := ParseArchive(service.sha, service.rows, input);
      if incoming.Err? { return Err(BadArchive(incoming.error)); }
      if !confirm { return Err(ConfirmRequired); }
      var exported := store.ExportSnapshot(select);
      if exported.Err? { return Err(ExportFailed); }
      var preRestore := BuildArchive(service.sha, service.rows, exported.value, service.createdAt);
      if preRestore.Err? { return Err(BadArchive(preRestore.error)); }
      if !canPersist { return Err(RestoreFailed); }
      persisted := persisted + [preRestore.value];
      ParsedHasAllTables(service, input);
      var replaced := store.ReplaceSnapshot(incoming.value.tables);
      if replaced.Err? { return Err(RestoreFailed); }
      return Ok(Restored(preRestore.value));
    }
  }

  /** An accepted archive, of whatever version, brings a table for every one that is inserted. */
  lemma ParsedHasAllTables(service: Service, input: Document)
    requires ParseArchive(service.sha, service.rows, input).Ok?
    ensures var tables := ParseArchive(service.sha, service.rows, input).value.tables;
            ValidTables(service.rows, CURRENT, tables) && forall n | n in InsertOrder() :: n in tables
  {
    hide Upgrade, AllTables, InsertOrder, Upgraded, TableOk, ParseArchive, ParseTables;
    var version := input.manifest.schemaVersion;
    var tables := ParseArchive(service.sha, service.rows, input).value.tables;
    AcceptedMeans(service.sha, service.rows, input);
    UpgradeEndsCurrent(service.rows, version, ParseTables(service.rows, version, input.tables).value);
    InsertOrderIsComplete();
    forall n | n in InsertOrder()
      ensures n in tables
    {
      var k :| 0 <= k < 31 && AllTables()[k] == n;
      assert NamesOf(CURRENT)[k] == n;
    }
  }

  // ---------------------------------------------------------------- an accepted archive, restored and exported

  const SETTINGS_COLUMNS: Columns :=
    ["id", "schemaVersion", "instanceName", "onboardingCompleted", "oidcEnabled", "oidcIssuer", "oidcClientId",
     "oidcDisplayName", "oidcScopes", "oidcRedirectUri", "oidcGroupClaim", "oidcAutoLinkVerifiedEmail",
     "oidcAutoProvision", "oidcAllowLocalLogin", "createdAt", "updatedAt"]

  /** The archive schema of a table's rows names the table's columns, each with a type of the column's kind. */
  ghost predicate SchemasAgree(rows: RowSchema, schema: Schema) {
    && schema.columns("server_settings") == SETTINGS_COLUMNS
    && forall n, row | n != "server_settings" && rows(n, row) && Valid(row) ::
         row.Obj? && RowHasShape(n, schema.columns(n), row.members)
  }

  /** Length, first and fifth character tell the settings columns apart. */
  function SettingSignature(s: string): int {
    if |s| < 5 then |s| else |s| * 0x1_0000 + s[0] as int * 256 + s[4] as int
  }

  lemma SettingsColumnsDistinct()
    ensures DistinctColumns(SETTINGS_COLUMNS)
  {
    hide SettingSignature;
    forall i, j | 0 <= i < j < |SETTINGS_COLUMNS|
      ensures SETTINGS_COLUMNS[i] != SETTINGS_COLUMNS[j]
    {
      SignatureOf(i);
      SignatureOf(j);
    }
  }

  const SETTING_SIGNATURES: seq<int> :=
    [2, 881517, 813409, 1273697, 749381, 683849, 814915, 1011524,
     683859, 1011538, 945991, 1666881, 1142593, 1273665, 615284, 619892]

  lemma SignatureOf(i: nat)
    requires i < |SETTINGS_COLUMNS|
    ensures |SETTING_SIGNATURES| == |SETTINGS_COLUMNS| && SettingSignature(SETTINGS_COLUMNS[i]) == SETTING_SIGNATURES[i]
  {
  }

  lemma BaseSettingShape(m: Member)
    requires BaseSettingOk(m)
    ensures m.key in SETTINGS_COLUMNS && HasShape("server_settings", m.key, m.value)
  {
  }

  lemma OidcSettingShape(m: Member)
    requires OidcSettingOk(m)
    ensures m.key in SETTINGS_COLUMNS && HasShape("server_settings", m.key, m.value)
  {
  }

  lemma SettingsColumnListed(i: nat)
    requires i < |SETTINGS_COLUMNS|
    ensures SETTINGS_COLUMNS[i] in SETTINGS_V5 || SETTINGS_COLUMNS[i] in SETTINGS_OIDC
  {
  }

  lemma SettingsHaveShape(row: Json)
    requires SettingsOk(CURRENT, row) && Valid(row)
    ensures RowHasShape("server_settings", SETTINGS_COLUMNS, row.members)
  {
    SettingsColumnsDistinct();
    var ms := row.members;
    hide BaseSettingOk, OidcSettingOk, HasShape, Lookup;
    forall i | 0 <= i < |ms|
      ensures ms[i].key in SETTINGS_COLUMNS && Valid(ms[i].value) && HasShape("server_settings", ms[i].key, ms[i].value)
    {
      if BaseSettingOk(ms[i]) { BaseSettingShape(ms[i]); } else { OidcSettingShape(ms[i]); }
    }
    forall i | 0 <= i < |SETTINGS_COLUMNS|
      ensures Lookup(ms, SETTINGS_COLUMNS[i]).Some?
    {
      SettingsColumnListed(i);
      LookupMeaning(ms, SETTINGS_COLUMNS[i]);
      assert HasKey(ms, SETTINGS_COLUMNS[i]);
    }
    hide Valid;
  }

  lemma DefaultsValid(row: Json)
    requires SettingsOk(5, row) && Valid(row)
    ensures Valid(WithOidcDefaults(row))
  {
    SettingsUpgrade(row);
    var all := WithOidcDefaults(row).members;
    hide BaseSettingOk, OidcSettingOk, HasKey;
    forall k | 0 <= k < |OIDC_DEFAULTS|
      ensures Valid(OIDC_DEFAULTS[k].value)
    {
    }
    forall i | 0 <= i < |all|
      ensures Valid(all[i].value)
    {
      if i < |row.members| { assert all[i] == row.members[i]; } else { assert all[i] == OIDC_DEFAULTS[i - |row.members|]; }
    }
  }

  ghost predicate RowsValid(t: Tables, n: TableName) {
    n in t && forall i | 0 <= i < |t[n]| :: Valid(t[n][i])
  }

  lemma SubmittedRowsValid(service: Service, input: Document, k: nat)
    requires ParseArchive(service.sha, service.rows, input).Ok? && Valid(input.tables)
    requires k < TableCount(input.manifest.schemaVersion)
    ensures var parsed := ParseTables(service.rows, input.manifest.schemaVersion, input.tables);
            parsed.Some? && RowsValid(parsed.value, AllTables()[k])
  {
    hide AllTables, ParseArchive, ParseTables, TableOk, Upgrade;
    var version := input.manifest.schemaVersion;
    AcceptedMeans(service.sha, service.rows, input);
    var t := ParseTables(service.rows, version, input.tables).value;
    ParsedIsValid(service.rows, version, input.tables, t);
    var ms := TablesJson(version, t).members;
    assert NamesOf(version)[k] == AllTables()[k];
    assert ms[k] == Member(AllTables()[k], Arr(t[AllTables()[k]]));
    assert Valid(ms[k].value);
  }

  lemma UpgradedRowsValid(service: Service, input: Document, k: nat)
    requires ParseArchive(service.sha, service.rows, input).Ok? && Valid(input.tables) && k < 31
    ensures RowsValid(ParseArchive(service.sha, service.rows, input).value.tables, AllTables()[k])
  {
    hide AllTables, ParseArchive, ParseTables, ValidTables, TableOk, NewSettings, Upgrade, ValidPart, Valid, WithOidcDefaults, SettingsOk;
    var version := input.manifest.schemaVersion;
    AcceptedMeans(service.sha, service.rows, input);
    var t := ParseTables(service.rows, version, input.tables).value;
    UpgradeEndsCurrent(service.rows, version, t);
    if k < TableCount(version) {
      SubmittedRowsValid(service, input, k);
      if version == 5 { NewSettingsValid(service, t, k); }
      assert Kept(if version == 5 then NewSettings(t) else t, Upgrade(version, t), k);
    } else {
      assert Emptied(Upgrade(version, t), k);
    }
  }

  lemma NewSettingsValid(service: Service, t: Tables, k: nat)
    requires ValidTables(service.rows, 5, t) && k < 20 && RowsValid(t, AllTables()[k])
    ensures RowsValid(NewSettings(t), AllTables()[k])
  {
    hide AllTables, WithOidcDefaults, SettingsOk, Valid;
    assert NamesOf(5)[k] == AllTables()[k];
    if AllTables()[k] == "server_settings" {
      var settings := t["server_settings"];
      forall i | 0 <= i < |settings|
        ensures Valid(WithOidcDefaults(settings[i]))
      {
        assert TableOk(service.rows, 5, NamesOf(5)[k], settings) && RowOk(service.rows, 5, "server_settings", settings[i]);
        DefaultsValid(settings[i]);
      }
    }
  }

  /** Every row of an accepted archive, of whatever version, has the shape of its table. */
  lemma AcceptedRowsHaveShape(service: Service, schema: Schema, input: Document, k: nat, i: nat)
    requires ParseArchive(service.sha, service.rows, input).Ok? && Valid(input.tables) && k < 31
    requires SchemasAgree(service.rows, schema)
    ensures var tables := ParseArchive(service.sha, service.rows, input).value.tables; var n := AllTables()[k];
            && n in tables
            && (i < |tables[n]| ==> Valid(tables[n][i]) && Shaped(schema, n, tables[n][i]))
  {
    hide AllTables, ParseArchive, Valid, RowHasShape, SettingsOk;
    var tables, n := ParseArchive(service.sha, service.rows, input).value.tables, AllTables()[k];
    UpgradedRowsValid(service, input, k);
    ParsedHasAllTables(service, input);
    assert NamesOf(CURRENT)[k] == n;
    if i < |tables[n]| {
      assert TableOk(service.rows, CURRENT, NamesOf(CURRENT)[k], tables[n]) && RowOk(service.rows, CURRENT, n, tables[n][i]);
      if n == "server_settings" {
        assert tables[n][i].Obj? by { SettingsAreObjects(tables[n][i]); }
        SettingsHaveShape(tables[n][i]);
      }
    }
  }

  lemma SettingsAreObjects(row: Json)
    requires SettingsOk(CURRENT, row)
    ensures row.Obj?
  {
  }

  /** No date in the tables is one that no calendar has, and in PostgreSQL no identifier has upper-case digits. */
  ghost predicate AllLast(schema: Schema, tables: Tables) {
    forall n | n in AllTables() && n in tables :: TableLasts(schema, n, tables[n])
  }

  predicate TableLasts(schema: Schema, table: TableName, rows: seq<Json>) {
    forall i | 0 <= i < |rows| :: rows[i].Obj? && RowLasts(EnvOf(schema, table), rows[i].members)
  }

  ghost predicate SameRows(a: Tables, b: Tables) {
    forall n | n in AllTables() :: n in a && n in b && SameTable(a[n], b[n])
  }

  ghost predicate SameTable(a: seq<Json>, b: seq<Json>) {
    multiset(Map(Canonical, a)) == multiset(Map(Canonical, b))
  }

  lemma AcceptedTableSurvives(service: Service, schema: Schema, select: Selection, input: Document, content: Content, k: nat)
    requires Faithful(schema.parse, schema.jsonb) && Permutes(select) && SchemasAgree(service.rows, schema)
    requires ParseArchive(service.sha, service.rows, input).Ok? && Valid(input.tables) && k < 31
    requires var tables := ParseArchive(service.sha, service.rows, input).value.tables;
             AllStored(schema, tables) && content == StoredContent(schema, tables)
    ensures var tables, n := ParseArchive(service.sha, service.rows, input).value.tables, AllTables()[k];
            && n in content && n in tables
            && var r := ExportedTable(schema, n, select(n, content[n]));
               r.Ok? && (SameTable(r.value, tables[n]) <==> TableLasts(schema, n, tables[n]))
  {
    hide Faithful, SchemasAgree, ParseArchive, AllStored, StoredContent, ExportedTable, Valid, Shaped, RowLasts,
         AllTables, Map, Canonical, ArrangedRow, Permutes;
    var tables, n := ParseArchive(service.sha, service.rows, input).value.tables, AllTables()[k];
    AcceptedRowsHaveShape(service, schema, input, k, 0);
    forall i | 0 <= i < |tables[n]|
      ensures Valid(tables[n][i]) && Shaped(schema, n, tables[n][i]) && tables[n][i].Obj?
    {
      AcceptedRowsHaveShape(service, schema, input, k, i);
      ShapedIsObject(schema, n, tables[n][i]);
    }
    RestoreThenExport(schema, select, tables, n);
  }

  lemma ShapedIsObject(schema: Schema, table: TableName, row: Json)
    requires Shaped(schema, table, row)
    ensures row.Obj?
  {
  }

  /**
    An accepted archive of any version, once restored, can be exported, and the export has the same rows
    in every table, whatever order the database keeps keys and rows in, exactly when every date in the
    archive is real and, in PostgreSQL, every identifier is in lower case.
  */
  lemma AcceptedArchiveSurvives(service: Service, schema: Schema, select: Selection, input: Document, content: Content)
    requires Faithful(schema.parse, schema.jsonb) && Permutes(select) && SchemasAgree(service.rows, schema)
    requires ParseArchive(service.sha, service.rows, input).Ok? && Valid(input.tables)
    requires var tables := ParseArchive(service.sha, service.rows, input).value.tables;
             AllStored(schema, tables) && content == StoredContent(schema, tables)
    ensures forall n | n in AllTables() :: n in content && ExportedTable(schema, n, select(n, content[n])).Ok?
    ensures var tables := ParseArchive(service.sha, service.rows, input).value.tables;
            forall exported | IsExport(schema, select, content, exported) ::
              SameRows(exported, tables) <==> AllLast(schema, tables)
  {
    hide Faithful, SchemasAgree, ParseArchive, AllStored, StoredContent, ExportedTable, Valid, AllTables, Permutes, SameTable, TableLasts;
    var tables := ParseArchive(service.sha, service.rows, input).value.tables;
    forall n | n in AllTables()
      ensures n in content && n in tables
      ensures var r := ExportedTable(schema, n, select(n, content[n]));
              r.Ok? && (SameTable(r.value, tables[n]) <==> TableLasts(schema, n, tables[n]))
    {
      var k :| 0 <= k < 31 && AllTables()[k] == n;
      AcceptedTableSurvives(service, schema, select, input, content, k);
    }
  }
}
