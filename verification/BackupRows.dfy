/**
  Rows on their way into and out of a backup (packages/backup/src/rows.ts), the values the two
  databases bind and return for them (packages/db/src/backup-runtime.ts and the column modes of
  packages/db/src/schema), and the round trip of a restored row.
*/
module BackupRows {
  import opened Common
  import opened CanonicalJson
  import opened Calendar
  import opened IsoDates

  /** A JavaScript value of a column; `Date(None)` is an invalid date. */
  datatype Value = Undefined | Plain(json: Json) | Date(time: Option<Time>)

  datatype Kind = DateColumn | BooleanColumn | JsonColumn | JsonOrNullColumn | PlainColumn

  datatype RowError = InvalidTimestamp | InvalidBoolean | InvalidJson | Rejected

  /** What a column of a database row holds. */
  datatype Cell =
    | NullCell
    | TextCell(s: string)
    | NumberCell(text: string)
    | IntCell(n: int)
    | BoolCell(b: bool)
    | TimeCell(time: Time)
    | JsonbCell(v: Json)

  /** The dialect, the table at hand, JSON.parse, and what PostgreSQL's jsonb type gives back for a stored value. */
  datatype Env = Env(dialect: Dialect, table: string, parse: string -> Option<Json>, jsonb: Json -> Json)

  function KindOf(column: string): Kind {
    if column in {"createdAt", "updatedAt", "lastLoginAt", "lastCheckedAt", "passwordUpdatedAt", "scheduledAt",
                  "startedAt", "finishedAt", "lastEnabledAt", "startsAt", "endsAt"} then DateColumn
    else if column in {"isSystemAdmin", "enabled", "onboardingCompleted", "healthcheckEnabled", "oidcEnabled",
                       "oidcAutoLinkVerifiedEmail", "oidcAutoProvision", "oidcAllowLocalLogin",
                       "showIncidentHistory", "excludeMaintenance"} then BooleanColumn
    else if column in {"configJson", "themeJson", "settingsJson", "metadataJson", "triggerConfigJson",
                       "actionConfigJson"} then JsonColumn
    else if column in {"healthcheckConfigJson", "conditionConfigJson"} then JsonOrNullColumn
    else PlainColumn
  }

  /** One boolean column is missing from the list the row code goes by. */
  predicate HasBooleanMode(column: string) { KindOf(column).BooleanColumn? || column == "notifyOnRecovery" }

  /** The columns of type uuid; the identifiers of two tables are texts of the program's own. */
  predicate IsUuidColumn(table: string, column: string) {
    && table != "server_settings" && table != "oidc_secrets"
    && (column in {"id", "groupId", "userId", "boardId", "itemId", "layoutId", "appId", "roleId"}
        || column in {"integrationId", "ownerUserId", "localGroupId", "sourceIntegrationId", "statusPageId", "maintenanceId",
                      "sloId", "createdBy"})
  }

  // ---------------------------------------------------------------- out of the database

  /** Date texts other than ISO ones, and numbers, do not reach this function. */
  function ToIsoDate(v: Value): Result<Json, RowError> {
    match v
    case Undefined => Ok(Null)
    case Plain(Null) => Ok(Null)
    case Date(Some(t)) => Ok(Str(IsoString(t)))
    case Plain(Str(s)) =>
      if IsIsoDateTime(s) && ParseIso(s).Some? then Ok(Str(IsoString(ParseIso(s).value))) else Err(InvalidTimestamp)
    case _ => Err(InvalidTimestamp)
  }

  function ToBoolean(v: Value): Result<Json, RowError> {
    match v
    case Plain(Bool(b)) => Ok(Bool(b))
    case Plain(Num(text)) => if text == "0" then Ok(Bool(false)) else if text == "1" then Ok(Bool(true)) else Err(InvalidBoolean)
    case _ => Err(InvalidBoolean)
  }

  function ToJsonObject(parse: string -> Option<Json>, v: Value, nullable: bool): Result<Json, RowError> {
    match v
    case Undefined => Ok(if nullable then Null else Obj([]))
    case Plain(Null) => Ok(if nullable then Null else Obj([]))
    case Plain(Str(s)) => (match parse(s) case Some(Obj(ms)) => Ok(Obj(ms)) case _ => Err(InvalidJson))
    case Plain(Obj(ms)) => Ok(Obj(ms))
    case _ => Err(InvalidJson)
  }

  function SerializeValue(parse: string -> Option<Json>, column: string, v: Value): Result<Json, RowError> {
    match KindOf(column)
    case DateColumn => ToIsoDate(v)
    case BooleanColumn => ToBoolean(v)
    case JsonColumn => ToJsonObject(parse, v, false)
    case JsonOrNullColumn => ToJsonObject(parse, v, true)
    case PlainColumn =>
      match v
      case Undefined => Ok(Null)
      case Plain(j) => Ok(j)
      case Date(_) => Err(Rejected)
  }

  // ---------------------------------------------------------------- into the database

  function DeserializeValue(dialect: Dialect, column: string, v: Json): Value {
    match KindOf(column)
    case DateColumn =>
      if v.Null? then Plain(Null)
      else if v.Str? && IsIsoDateTime(v.s) then Date(ParseIso(v.s))
      else Date(None)
    case JsonColumn => if v.Null? then Plain(Null) else if dialect.Sqlite? then Plain(Str(Print(v))) else Plain(v)
    case JsonOrNullColumn => if v.Null? then Plain(Null) else if dialect.Sqlite? then Plain(Str(Print(v))) else Plain(v)
    case _ => Plain(v)
  }

  /** An invalid date binds as NaN, which SQLite stores as NULL. */
  function SqliteBind(v: Value): Result<Cell, RowError> {
    match v
    case Undefined => Ok(NullCell)
    case Plain(Null) => Ok(NullCell)
    case Plain(Str(s)) => Ok(TextCell(s))
    case Plain(Num(text)) => Ok(NumberCell(text))
    case Plain(Bool(b)) => Ok(IntCell(if b then 1 else 0))
    case Date(Some(t)) => Ok(IntCell(t))
    case Date(None) => Ok(NullCell)
    case _ => Err(Rejected)
  }

  function SqliteRead(column: string, c: Cell): Value {
    match c
    case NullCell => Plain(Null)
    case TextCell(s) => Plain(Str(s))
    case NumberCell(text) => Plain(Num(text))
    case IntCell(n) => if HasBooleanMode(column) then Plain(Bool(n == 1)) else Date(Some(n))
    case BoolCell(b) => Plain(Bool(b))
    case TimeCell(t) => Date(Some(t))
    case JsonbCell(v) => Plain(v)
  }

  /** A uuid column holds the identifier in the spelling it is printed in; other forms than RFC 9562's do not reach it. */
  function PostgresBind(env: Env, column: string, v: Value): Result<Cell, RowError> {
    match v
    case Undefined => Ok(NullCell)
    case Plain(Null) => Ok(NullCell)
    case Date(Some(t)) => Ok(TimeCell(t))
    case Date(None) => Err(Rejected)
    case Plain(j) =>
      if KindOf(column).JsonColumn? || KindOf(column).JsonOrNullColumn? then Ok(JsonbCell(env.jsonb(j)))
      else
        match j
        case Str(s) =>
          if !IsUuidColumn(env.table, column) then Ok(TextCell(s))
          else if IsUuid(s) then Ok(TextCell(StoredId(Postgres, s)))
          else Err(Rejected)
        case Num(text) => Ok(NumberCell(text))
        case Bool(b) => Ok(BoolCell(b))
        case _ => Err(Rejected)
  }

  function PostgresRead(c: Cell): Value {
    match c
    case NullCell => Plain(Null)
    case TextCell(s) => Plain(Str(s))
    case NumberCell(text) => Plain(Num(text))
    case IntCell(n) => Date(Some(n))
    case BoolCell(b) => Plain(Bool(b))
    case TimeCell(t) => Date(Some(t))
    case JsonbCell(v) => Plain(v)
  }

  function Bind(env: Env, column: string, value: Value): Result<Cell, RowError> {
    if env.dialect.Sqlite? then SqliteBind(value) else PostgresBind(env, column, value)
  }

  function StoreValue(env: Env, column: string, v: Json): Result<Cell, RowError> {
    Bind(env, column, DeserializeValue(env.dialect, column, v))
  }

  function ReadValue(env: Env, column: string, c: Cell): Value {
    if env.dialect.Sqlite? then SqliteRead(column, c) else PostgresRead(c)
  }

  function ExportValue(env: Env, column: string, c: Cell): Result<Json, RowError> {
    SerializeValue(env.parse, column, ReadValue(env, column, c))
  }

  // ---------------------------------------------------------------- one column, there and back

  ghost predicate ParseInverts(parse: string -> Option<Json>, v: Json) {
    Valid(v) ==> parse(Print(v)) == Some(v)
  }

  ghost predicate JsonbKeeps(jsonb: Json -> Json, v: Json) {
    Valid(v) ==> Valid(jsonb(v)) && Same(jsonb(v), v)
  }

  /** `parse` inverts JSON.stringify, and jsonb may reorder keys but change nothing else. */
  ghost predicate Faithful(parse: string -> Option<Json>, jsonb: Json -> Json) {
    (forall v :: ParseInverts(parse, v)) && (forall v :: JsonbKeeps(jsonb, v))
  }

  /** What the archive schema allows in a column of this kind. */
  predicate HasShape(table: string, column: string, v: Json) {
    match KindOf(column)
    case DateColumn => v.Null? || (v.Str? && IsIsoDateTime(v.s))
    case BooleanColumn => v.Bool?
    case JsonColumn => v.Obj?
    case JsonOrNullColumn => v.Null? || v.Obj?
    case PlainColumn =>
      if IsUuidColumn(table, column) then v.Null? || (v.Str? && IsUuid(v.s))
      else v.Null? || v.Str? || v.Num? || (v.Bool? && column == "notifyOnRecovery")
  }

  predicate DateIsReal(column: string, v: Json) {
    KindOf(column).DateColumn? && v.Str? && IsIsoDateTime(v.s) ==> IsRealDate(v.s)
  }

  predicate UuidIsStored(env: Env, column: string, v: Json) {
    IsUuidColumn(env.table, column) && v.Str? ==> IsStored(env.dialect, v.s)
  }

  /** A date that exists, and an identifier spelled as the database prints it. */
  predicate Lasts(env: Env, column: string, v: Json) {
    DateIsReal(column, v) && UuidIsStored(env, column, v)
  }

  /** The value comes back: the same in SQLite, the same up to key order in PostgreSQL. */
  ghost predicate ComesBack(env: Env, column: string, v: Json) {
    var stored := StoreValue(env, column, v);
    && stored.Ok?
    && var r := ExportValue(env, column, stored.value);
       r.Ok? && Valid(r.value) && Same(r.value, v) && (env.dialect.Sqlite? ==> r.value == v)
  }

  lemma DatesAreNotBooleans(column: string)
    requires KindOf(column).DateColumn?
    ensures !HasBooleanMode(column)
  {
  }

  lemma DateCells(env: Env, column: string, time: Option<Time>)
    requires !HasBooleanMode(column)
    ensures var cell := Bind(env, column, Date(time));
            && (time.Some? ==> cell.Ok? && ReadValue(env, column, cell.value) == Date(time))
            && (time.None? ==> cell.Err? || ReadValue(env, column, cell.value) == Plain(Null))
  {
    hide HasBooleanMode, KindOf;
  }

  /** The stored date of a column, and what is exported for it. */
  lemma StoredDate(env: Env, column: string, v: Json)
    requires KindOf(column).DateColumn? && v.Str? && IsIsoDateTime(v.s)
    ensures var stored := StoreValue(env, column, v);
            match ParseIso(v.s)
            case Some(t) => stored.Ok? && ExportValue(env, column, stored.value) == Ok(Str(IsoString(t)))
            case None => stored.Err? || ExportValue(env, column, stored.value) == Ok(Null)
  {
    DatesAreNotBooleans(column);
    hide IsRealDate, ParseIso, IsoString, IsIsoDateTime, KindOf, HasBooleanMode;
    DateCells(env, column, ParseIso(v.s));
    assert DeserializeValue(env.dialect, column, v) == Date(ParseIso(v.s));
    hide Bind, ReadValue, DeserializeValue, ToJsonObject, ToBoolean;
  }

  lemma DateComesBack(env: Env, column: string, v: Json)
    requires KindOf(column).DateColumn? && HasShape(env.table, column, v)
    ensures ComesBack(env, column, v) <==> DateIsReal(column, v)
  {
    hide KindOf, IsRealDate, ParseIso, IsoString, IsIsoDateTime;
    SameIsReflexive(v);
    if v.Str? {
      StoredDate(env, column, v);
      RealDatesSurvive(v.s);
      hide StoreValue, ExportValue;
    }
  }

  lemma JsonCells(env: Env, column: string, v: Json)
    requires (KindOf(column).JsonColumn? || KindOf(column).JsonOrNullColumn?) && v.Obj?
    ensures var stored := StoreValue(env, column, v);
            stored.Ok? && ReadValue(env, column, stored.value)
                          == Plain(if env.dialect.Sqlite? then Str(Print(v)) else env.jsonb(v))
  {
    hide KindOf, Print;
  }

  lemma JsonExports(env: Env, column: string, v: Json, read: Value)
    requires KindOf(column).JsonColumn? || KindOf(column).JsonOrNullColumn?
    requires Faithful(env.parse, env.jsonb) && Valid(v) && v.Obj?
    requires read == Plain(if env.dialect.Sqlite? then Str(Print(v)) else env.jsonb(v))
    ensures var r := SerializeValue(env.parse, column, read);
            r.Ok? && Valid(r.value) && Same(r.value, v) && (env.dialect.Sqlite? ==> r.value == v)
  {
    SameIsReflexive(v);
    assert ParseInverts(env.parse, v) && JsonbKeeps(env.jsonb, v);
    assert env.jsonb(v).Obj?;
    hide KindOf, Print, Valid, Same, Faithful, ToIsoDate, ToBoolean;
  }

  lemma JsonComesBack(env: Env, column: string, v: Json)
    requires KindOf(column).JsonColumn? || KindOf(column).JsonOrNullColumn?
    requires Faithful(env.parse, env.jsonb) && Valid(v) && HasShape(env.table, column, v)
    ensures ComesBack(env, column, v)
  {
    hide KindOf, Print, Faithful;
    if v.Obj? {
      JsonCells(env, column, v);
      JsonExports(env, column, v, ReadValue(env, column, StoreValue(env, column, v).value));
      hide StoreValue, ReadValue, SerializeValue, Valid, Same;
    }
  }

  lemma PlainComesBack(env: Env, column: string, v: Json)
    requires KindOf(column).PlainColumn? || KindOf(column).BooleanColumn?
    requires !IsUuidColumn(env.table, column) && Valid(v) && HasShape(env.table, column, v)
    ensures ComesBack(env, column, v)
  {
    SameIsReflexive(v);
    hide Same, IsUuidColumn;
  }

  lemma ShortUuidNames(column: string)
    requires column in {"id", "groupId", "userId", "boardId", "itemId", "layoutId", "appId", "roleId"}
    ensures KindOf(column).PlainColumn? && !HasBooleanMode(column)
  {
  }

  lemma LongUuidNames(column: string)
    requires column in {"integrationId", "ownerUserId", "localGroupId", "sourceIntegrationId", "statusPageId", "maintenanceId",
                        "sloId", "createdBy"}
    ensures KindOf(column).PlainColumn? && !HasBooleanMode(column)
  {
  }

  lemma UuidColumnsArePlain(table: string, column: string)
    requires IsUuidColumn(table, column)
    ensures KindOf(column).PlainColumn? && !HasBooleanMode(column)
  {
    hide KindOf, HasBooleanMode;
    if column in {"id", "groupId", "userId", "boardId", "itemId", "layoutId", "appId", "roleId"} {
      ShortUuidNames(column);
    } else {
      LongUuidNames(column);
    }
  }

  /** What is exported for an identifier: its stored spelling. */
  lemma UuidExports(env: Env, column: string, s: string)
    requires IsUuidColumn(env.table, column) && IsUuid(s)
    ensures var stored := StoreValue(env, column, Str(s));
            stored.Ok? && ExportValue(env, column, stored.value) == Ok(Str(StoredId(env.dialect, s)))
  {
    hide KindOf, HasBooleanMode, IsUuidColumn, IsUuid, Lower, IsIsoDateTime, ParseIso, IsoString, ToJsonObject, ToBoolean,
         ToIsoDate, Print;
    UuidColumnsArePlain(env.table, column);
    var cell := Bind(env, column, Plain(Str(s)));
    assert DeserializeValue(env.dialect, column, Str(s)) == Plain(Str(s));
    assert cell == Ok(TextCell(StoredId(env.dialect, s)));
    hide Bind, DeserializeValue, StoredId;
    assert ReadValue(env, column, cell.value) == Plain(Str(StoredId(env.dialect, s)));
    hide ReadValue;
  }

  lemma UuidComesBack(env: Env, column: string, v: Json)
    requires IsUuidColumn(env.table, column) && Valid(v) && HasShape(env.table, column, v)
    ensures ComesBack(env, column, v) <==> UuidIsStored(env, column, v)
  {
    hide KindOf, HasBooleanMode, IsUuidColumn, IsUuid, Lower, IsIsoDateTime, ParseIso, IsoString, ToJsonObject, ToBoolean,
         ToIsoDate, Print;
    UuidColumnsArePlain(env.table, column);
    SameIsReflexive(v);
    if v.Str? {
      UuidExports(env, column, v.s);
      hide StoreValue, ExportValue;
    }
  }

  /**
    Whatever the archive schema lets through comes back from a restore and an export, except the dates
    that no calendar has, such as 31 February, which come back as another date, as null, or not at all,
    and in PostgreSQL the identifiers with upper-case digits, which come back in lower case.
  */
  lemma ColumnRoundTrip(env: Env, column: string, v: Json)
    requires Faithful(env.parse, env.jsonb) && Valid(v) && HasShape(env.table, column, v)
    ensures ComesBack(env, column, v) <==> Lasts(env, column, v)
  {
    if IsUuidColumn(env.table, column) {
      UuidColumnsArePlain(env.table, column);
      hide ComesBack, HasShape, KindOf;
      UuidComesBack(env, column, v);
    } else {
      hide ComesBack, HasShape;
      match KindOf(column)
      case DateColumn => DateComesBack(env, column, v);
      case JsonColumn => JsonComesBack(env, column, v);
      case JsonOrNullColumn => JsonComesBack(env, column, v);
      case _ => PlainComesBack(env, column, v);
    }
  }

  /** An identifier of a user that the archive schema accepts and a restore into PostgreSQL changes. */
  lemma UpperCaseIdentifierChanges(env: Env)
    requires env.dialect.Postgres? && env.table == "users"
    ensures HasShape(env.table, "id", Str(SampleId('A')))
    ensures var stored := StoreValue(env, "id", Str(SampleId('A')));
            stored.Ok? && ExportValue(env, "id", stored.value) == Ok(Str(SampleId('a')))
    ensures !ComesBack(env, "id", Str(SampleId('A')))
  {
    hide HasBooleanMode, IsIsoDateTime, IsRealDate, ParseIso, StoreValue, ExportValue, Valid, IsUuid, Lower, KindOf;
    SampleIds();
    assert IsUuidColumn("users", "id");
    hide IsUuidColumn, SampleId;
    UuidColumnsArePlain("users", "id");
    UuidExports(env, "id", SampleId('A'));
  }

  // ---------------------------------------------------------------- whole rows

  type Columns = seq<string>
  type StoredRow = seq<Cell>

  predicate DistinctColumns(columns: Columns) {
    forall i, j | 0 <= i < j < |columns| :: columns[i] != columns[j]
  }

  /** The value of a column of an archive row; a missing one is stored as null. */
  function Deserialized(dialect: Dialect, column: string, row: seq<Member>): Value {
    match Lookup(row, column)
    case Some(v) => DeserializeValue(dialect, column, v)
    case None => if KindOf(column).PlainColumn? || KindOf(column).BooleanColumn? then Undefined else Plain(Null)
  }

  function DeserializedRow(dialect: Dialect, columns: Columns, row: seq<Member>): map<string, Value> {
    map c | c in columns :: Deserialized(dialect, c, row)
  }

  function StoredCells(env: Env, columns: Columns, row: seq<Member>): Result<StoredRow, RowError> {
    if columns == [] then Ok([])
    else
      match StoredCells(env, columns[..|columns| - 1], row)
      case Err(e) => Err(e)
      case Ok(before) =>
        var column := columns[|columns| - 1];
        match Bind(env, column, Deserialized(env.dialect, column, row))
        case Err(e) => Err(e)
        case Ok(cell) => Ok(before + [cell])
  }

  /** The values a driver returns for a stored row, by column. */
  function ReadRow(env: Env, columns: Columns, cells: StoredRow): map<string, Value>
    requires |cells| == |columns| && DistinctColumns(columns)
  {
    if columns == [] then map[]
    else
      var n := |columns| - 1;
      ReadRow(env, columns[..n], cells[..n])[columns[n] := ReadValue(env, columns[n], cells[n])]
  }

  function ValueAt(source: map<string, Value>, column: string): Value {
    if column in source then source[column] else Undefined
  }

  function SerializedRow(parse: string -> Option<Json>, columns: Columns, source: map<string, Value>): Result<seq<Member>, RowError> {
    if columns == [] then Ok([])
    else
      match SerializedRow(parse, columns[..|columns| - 1], source)
      case Err(e) => Err(e)
      case Ok(before) =>
        var column := columns[|columns| - 1];
        match SerializeValue(parse, column, ValueAt(source, column))
        case Err(e) => Err(e)
        case Ok(v) => Ok(before + [Member(column, v)])
  }

  method SerializeBackupRow(parse: string -> Option<Json>, columns: Columns, source: map<string, Value>)
    returns (r: Result<seq<Member>, RowError>)
    ensures r == SerializedRow(parse, columns, source)
  {
    hide SerializeValue;
    var serialized: seq<Member> := [];
    var i := 0;
    while i < |columns|
      invariant 0 <= i <= |columns|
      invariant SerializedRow(parse, columns[..i], source) == Ok(serialized)
    {
      assert columns[..i + 1][..i] == columns[..i];
      var v := SerializeValue(parse, columns[i], ValueAt(source, columns[i]));
      if v.Err? {
        FailureStays(parse, columns, source, i + 1);
        return Err(v.error);
      }
      serialized := serialized + [Member(columns[i], v.value)];
      i := i + 1;
    }
    assert columns[..|columns|] == columns;
    return Ok(serialized);
  }

  lemma {:induction false} FailureStays(parse: string -> Option<Json>, columns: Columns, source: map<string, Value>, n: nat)
    requires n <= |columns| && SerializedRow(parse, columns[..n], source).Err?
    ensures SerializedRow(parse, columns, source) == SerializedRow(parse, columns[..n], source)
    decreases |columns|
  {
    if n < |columns| {
      assert columns[..|columns| - 1][..n] == columns[..n];
      FailureStays(parse, columns[..|columns| - 1], source, n);
    } else {
      assert columns[..n] == columns;
    }
  }

  method DeserializeBackupRow(dialect: Dialect, columns: Columns, row: seq<Member>) returns (r: map<string, Value>)
    ensures r == DeserializedRow(dialect, columns, row)
  {
    hide Deserialized;
    r := map[];
    var i := 0;
    while i < |columns|
      invariant 0 <= i <= |columns|
      invariant r == DeserializedRow(dialect, columns[..i], row)
    {
      assert columns[..i + 1] == columns[..i] + [columns[i]];
      r := r[columns[i] := Deserialized(dialect, columns[i], row)];
      i := i + 1;
    }
    assert columns[..|columns|] == columns;
  }

  /** What the strict archive schema says of a row: every column of its type, in any order, and no other key. */
  predicate RowHasShape(table: string, columns: Columns, row: seq<Member>) {
    && DistinctColumns(columns) && UniqueKeys(row)
    && (forall i | 0 <= i < |columns| :: Lookup(row, columns[i]).Some?)
    && (forall i | 0 <= i < |row| :: row[i].key in columns && Valid(row[i].value) && HasShape(table, row[i].key, row[i].value))
  }

  predicate RowLasts(env: Env, row: seq<Member>) {
    forall i | 0 <= i < |row| :: Lasts(env, row[i].key, row[i].value)
  }

  predicate InColumnOrder(columns: Columns, row: seq<Member>) {
    |row| == |columns| && forall i | 0 <= i < |columns| :: row[i].key == columns[i]
  }

  /** The members of a row rearranged into column order. */
  function Arranged(columns: Columns, row: seq<Member>): (r: seq<Member>)
    requires forall i | 0 <= i < |columns| :: Lookup(row, columns[i]).Some?
    ensures InColumnOrder(columns, r) && forall i | 0 <= i < |columns| :: r[i].value == Lookup(row, columns[i]).value
  {
    seq(|columns|, i requires 0 <= i < |columns| => Member(columns[i], Lookup(row, columns[i]).value))
  }

  /**
    The row is stored, and exporting it gives it back: up to the order of keys, which in SQLite is
    that of the columns and otherwise unchanged.
  */
  ghost predicate RowComesBack(env: Env, columns: Columns, row: seq<Member>)
    requires RowHasShape(env.table, columns, row)
  {
    var stored := StoredCells(env, columns, row);
    && stored.Ok? && |stored.value| == |columns|
    && var back := SerializedRow(env.parse, columns, ReadRow(env, columns, stored.value));
       && back.Ok? && Valid(Obj(back.value)) && Same(Obj(back.value), Obj(row))
       && (env.dialect.Sqlite? ==> back.value == Arranged(columns, row))
  }

  /** Arranging a row keeps its members, and leaves one in column order alone. */
  lemma ArrangedKeeps(table: string, columns: Columns, row: seq<Member>)
    requires RowHasShape(table, columns, row)
    ensures SameElements(Arranged(columns, row), row)
    ensures InColumnOrder(columns, row) ==> Arranged(columns, row) == row
  {
    hide HasShape, Valid;
    var r := Arranged(columns, row);
    forall i | 0 <= i < |columns|
      ensures r[i] in row
    {
      LookupMeaning(row, columns[i]);
    }
    forall k | 0 <= k < |row|
      ensures row[k] in r
      ensures InColumnOrder(columns, row) ==> r[k] == row[k]
    {
      var i :| 0 <= i < |columns| && columns[i] == row[k].key;
      LookupMeaning(row, columns[i]);
      assert r[i] == row[k];
      if InColumnOrder(columns, row) { assert columns[k] == columns[i]; }
    }
  }

  /** Two rows agree up to the order of keys when the one in column order agrees column by column with the other. */
  lemma AgreeByColumn(table: string, columns: Columns, back: seq<Member>, row: seq<Member>)
    requires RowHasShape(table, columns, row) && InColumnOrder(columns, back)
    ensures (forall i | 0 <= i < |columns| :: Valid(back[i].value) && Same(back[i].value, Arranged(columns, row)[i].value))
            <==> Valid(Obj(back)) && Same(Obj(back), Obj(row))
  {
    var o := Arranged(columns, row);
    ArrangedKeeps(table, columns, row);
    hide HasShape, Lookup;
    if forall i | 0 <= i < |columns| :: Valid(back[i].value) && Same(back[i].value, o[i].value) {
      SameByColumn(columns, back, row, o);
    } else if Valid(Obj(back)) && Same(Obj(back), Obj(row)) {
      forall i | 0 <= i < |columns|
        ensures Valid(back[i].value) && Same(back[i].value, o[i].value)
      {
        ColumnOfSame(columns, back, row, o, i);
      }
    }
  }

  lemma SameByColumn(columns: Columns, back: seq<Member>, row: seq<Member>, o: seq<Member>)
    requires DistinctColumns(columns) && InColumnOrder(columns, back) && InColumnOrder(columns, o) && SameElements(o, row)
    requires forall i | 0 <= i < |columns| :: Valid(back[i].value) && Same(back[i].value, o[i].value)
    ensures Valid(Obj(back)) && Same(Obj(back), Obj(row))
  {
    forall i | 0 <= i < |columns|
      ensures Twins(back[i], o[i])
    {
    }
    hide Same, Twins;
    forall i | 0 <= i < |back|
      ensures HasTwin(back[i], row)
    {
      assert o[i] in row;
      var j :| 0 <= j < |row| && row[j] == o[i];
      assert Twins(back[i], row[j]);
    }
    forall j | 0 <= j < |row|
      ensures IsTwin(back, row[j])
    {
      assert row[j] in o;
      var i :| 0 <= i < |o| && o[i] == row[j];
      assert Twins(back[i], row[j]);
    }
    hide HasTwin, IsTwin;
    SameObjects(back, row);
  }

  lemma ColumnOfSame(columns: Columns, back: seq<Member>, row: seq<Member>, o: seq<Member>, i: nat)
    requires DistinctColumns(columns) && InColumnOrder(columns, back) && InColumnOrder(columns, o) && SameElements(o, row)
    requires i < |columns| && Valid(Obj(back)) && Same(Obj(back), Obj(row))
    ensures Valid(back[i].value) && Same(back[i].value, o[i].value)
  {
    hide Same, Valid;
    ValidMember(back, i);
    var j := TwinOf(back, row, i);
    assert row[j] in o;
    var k :| 0 <= k < |o| && o[k] == row[j];
    assert columns[k] == columns[i];
  }

  lemma ValidMember(ms: seq<Member>, i: nat)
    requires Valid(Obj(ms)) && i < |ms|
    ensures Valid(ms[i].value)
  {
  }

  lemma TwinOf(ms: seq<Member>, ns: seq<Member>, i: nat) returns (j: nat)
    requires Same(Obj(ms), Obj(ns)) && i < |ms|
    ensures j < |ns| && ns[j].key == ms[i].key && Same(ms[i].value, ns[j].value)
  {
    assert HasTwin(ms[i], ns);
    hide SameMembers;
    j :| 0 <= j < |ns| && Twins(ms[i], ns[j]);
  }

  lemma {:induction false} StoredCellsMeaning(env: Env, columns: Columns, row: seq<Member>)
    ensures var r := StoredCells(env, columns, row);
            && (r.Ok? <==> forall i | 0 <= i < |columns| :: Bind(env, columns[i], Deserialized(env.dialect, columns[i], row)).Ok?)
            && (r.Ok? ==> |r.value| == |columns|)
            && (r.Ok? ==> forall i | 0 <= i < |columns| ::
                            Bind(env, columns[i], Deserialized(env.dialect, columns[i], row)) == Ok(r.value[i]))
  {
    hide Bind, Deserialized;
    if columns != [] {
      StoredCellsMeaning(env, columns[..|columns| - 1], row);
    }
  }

  lemma {:induction false} ReadRowMeaning(env: Env, columns: Columns, cells: StoredRow, i: nat)
    requires |cells| == |columns| && DistinctColumns(columns) && i < |columns|
    ensures ValueAt(ReadRow(env, columns, cells), columns[i]) == ReadValue(env, columns[i], cells[i])
  {
    hide ReadValue;
    var n := |columns| - 1;
    if i < n { ReadRowMeaning(env, columns[..n], cells[..n], i); }
  }

  lemma {:induction false} SerializedRowMeaning(parse: string -> Option<Json>, columns: Columns, source: map<string, Value>)
    ensures var r := SerializedRow(parse, columns, source);
            && (r.Ok? <==> forall i | 0 <= i < |columns| :: SerializeValue(parse, columns[i], ValueAt(source, columns[i])).Ok?)
            && (r.Ok? ==> |r.value| == |columns|)
            && (r.Ok? ==> forall i | 0 <= i < |columns| ::
                            r.value[i].key == columns[i]
                            && SerializeValue(parse, columns[i], ValueAt(source, columns[i])) == Ok(r.value[i].value))
  {
    hide SerializeValue, ValueAt;
    if columns != [] {
      SerializedRowMeaning(parse, columns[..|columns| - 1], source);
    }
  }

  lemma RowStores(env: Env, columns: Columns, row: seq<Member>)
    requires RowHasShape(env.table, columns, row)
    ensures var r := StoredCells(env, columns, row); var o := Arranged(columns, row);
            && (r.Ok? <==> forall i | 0 <= i < |columns| :: StoreValue(env, columns[i], o[i].value).Ok?)
            && (r.Ok? ==> |r.value| == |columns|)
            && (r.Ok? ==> forall i | 0 <= i < |columns| :: StoreValue(env, columns[i], o[i].value) == Ok(r.value[i]))
  {
    var o := Arranged(columns, row);
    StoredCellsMeaning(env, columns, row);
    forall i | 0 <= i < |columns|
      ensures Deserialized(env.dialect, columns[i], row) == DeserializeValue(env.dialect, columns[i], o[i].value)
    {
    }
    hide StoredCells, Bind, DeserializeValue, Deserialized, RowHasShape;
  }

  lemma RowExports(env: Env, columns: Columns, cells: StoredRow)
    requires |cells| == |columns| && DistinctColumns(columns)
    ensures var r := SerializedRow(env.parse, columns, ReadRow(env, columns, cells));
            && (r.Ok? <==> forall i | 0 <= i < |columns| :: ExportValue(env, columns[i], cells[i]).Ok?)
            && (r.Ok? ==> |r.value| == |columns|)
            && (r.Ok? ==> forall i | 0 <= i < |columns| ::
                            r.value[i].key == columns[i] && ExportValue(env, columns[i], cells[i]) == Ok(r.value[i].value))
  {
    var source := ReadRow(env, columns, cells);
    SerializedRowMeaning(env.parse, columns, source);
    forall i | 0 <= i < |columns|
      ensures ValueAt(source, columns[i]) == ReadValue(env, columns[i], cells[i])
    {
      ReadRowMeaning(env, columns, cells, i);
    }
    hide SerializedRow, SerializeValue, ReadValue, ReadRow, ValueAt;
  }

  /** Stored and exported again, every column of the arranged row comes back. */
  ghost predicate ColumnsComeBack(env: Env, columns: Columns, o: seq<Member>)
    requires InColumnOrder(columns, o)
  {
    forall i | 0 <= i < |columns| :: ComesBack(env, columns[i], o[i].value)
  }

  lemma ComesBackByColumn(env: Env, columns: Columns, row: seq<Member>)
    requires RowHasShape(env.table, columns, row)
    ensures RowComesBack(env, columns, row) <==> ColumnsComeBack(env, columns, Arranged(columns, row))
  {
    RowStores(env, columns, row);
    var stored, o := StoredCells(env, columns, row), Arranged(columns, row);
    if stored.Ok? {
      RowExports(env, columns, stored.value);
      var back := SerializedRow(env.parse, columns, ReadRow(env, columns, stored.value));
      if back.Ok? {
        AgreeByColumn(env.table, columns, back.value, row);
        assert back.value == o <==> forall i | 0 <= i < |columns| :: back.value[i].value == o[i].value;
      }
    }
    hide StoredCells, ReadRow, SerializedRow, StoreValue, ExportValue, Same, HasShape, Valid, RowHasShape, Arranged;
  }

  lemma ArrangedLasts(env: Env, columns: Columns, row: seq<Member>)
    requires RowHasShape(env.table, columns, row)
    ensures var o := Arranged(columns, row);
            && (forall i | 0 <= i < |columns| :: Valid(o[i].value) && HasShape(env.table, columns[i], o[i].value))
            && (RowLasts(env, row) <==> forall i | 0 <= i < |columns| :: Lasts(env, columns[i], o[i].value))
  {
    ArrangedKeeps(env.table, columns, row);
    hide HasShape, Lasts, Valid, Lookup;
    var o := Arranged(columns, row);
    forall i | 0 <= i < |columns|
      ensures Valid(o[i].value) && HasShape(env.table, columns[i], o[i].value)
      ensures RowLasts(env, row) ==> Lasts(env, columns[i], o[i].value)
    {
      assert o[i] in row;
    }
    if forall i | 0 <= i < |columns| :: Lasts(env, columns[i], o[i].value) {
      forall k | 0 <= k < |row|
        ensures Lasts(env, row[k].key, row[k].value)
      {
        assert row[k] in o;
      }
    }
  }

  /** A restored row is exported as it was in the archive, up to the order of keys, exactly when all its values last. */
  lemma RowRoundTrip(env: Env, columns: Columns, row: seq<Member>)
    requires Faithful(env.parse, env.jsonb) && RowHasShape(env.table, columns, row)
    ensures RowComesBack(env, columns, row) <==> RowLasts(env, row)
  {
    ComesBackByColumn(env, columns, row);
    ArrangedLasts(env, columns, row);
    hide RowHasShape, RowComesBack, Arranged, Faithful, HasShape, Lasts, ComesBack, RowLasts;
    var o := Arranged(columns, row);
    forall i | 0 <= i < |columns|
      ensures ComesBack(env, columns[i], o[i].value) <==> Lasts(env, columns[i], o[i].value)
    {
      ColumnRoundTrip(env, columns[i], o[i].value);
    }
  }

  // ---------------------------------------------------------------- what was exported once

  ghost predicate ExportLasts(env: Env, column: string, c: Cell) {
    var r := ExportValue(env, column, c);
    r.Ok? && Valid(r.value) && Lasts(env, column, r.value)
  }

  lemma DateExportLasts(env: Env, column: string, v: Json)
    requires KindOf(column).DateColumn? && HasShape(env.table, column, v)
    requires !IsUuidColumn(env.table, column) && StoreValue(env, column, v).Ok?
    ensures ExportLasts(env, column, StoreValue(env, column, v).value)
  {
    hide KindOf, IsUuidColumn, IsRealDate, ParseIso, IsoString, IsIsoDateTime;
    if v.Str? {
      StoredDate(env, column, v);
      if ParseIso(v.s).Some? { PrintedDatesAreReal(ParseIso(v.s).value); }
      hide StoreValue, ExportValue;
    }
  }

  lemma UuidExportLasts(env: Env, column: string, v: Json)
    requires IsUuidColumn(env.table, column) && HasShape(env.table, column, v)
    ensures StoreValue(env, column, v).Ok? && ExportLasts(env, column, StoreValue(env, column, v).value)
  {
    hide KindOf, HasBooleanMode, IsUuidColumn, IsUuid, Lower, IsIsoDateTime, IsRealDate, ParseIso, IsoString, ToJsonObject,
         ToBoolean, ToIsoDate, Print;
    UuidColumnsArePlain(env.table, column);
    if v.Str? {
      UuidExports(env, column, v.s);
      StoredIdIsStored(env.dialect, v.s);
      hide StoreValue, ExportValue, StoredId;
    }
  }

  /** Whatever is exported after a restore would come back from the next one. */
  lemma ColumnExportLasts(env: Env, column: string, v: Json)
    requires Faithful(env.parse, env.jsonb) && Valid(v) && HasShape(env.table, column, v) && StoreValue(env, column, v).Ok?
    ensures ExportLasts(env, column, StoreValue(env, column, v).value)
  {
    if IsUuidColumn(env.table, column) {
      hide ExportLasts, HasShape, KindOf, StoreValue, IsUuidColumn;
      UuidExportLasts(env, column, v);
    } else if KindOf(column).DateColumn? {
      hide ExportLasts, HasShape, KindOf, StoreValue, IsUuidColumn;
      DateExportLasts(env, column, v);
    } else {
      ColumnRoundTrip(env, column, v);
      hide HasShape, KindOf, StoreValue, ExportValue, IsUuidColumn, Valid, Same, Faithful, IsRealDate, IsIsoDateTime;
    }
  }

  lemma RowExportLasts(env: Env, columns: Columns, row: seq<Member>)
    requires Faithful(env.parse, env.jsonb) && RowHasShape(env.table, columns, row) && StoredCells(env, columns, row).Ok?
    ensures var cells := StoredCells(env, columns, row).value;
            && |cells| == |columns|
            && var back := SerializedRow(env.parse, columns, ReadRow(env, columns, cells));
               back.Ok? && Valid(Obj(back.value)) && RowLasts(env, back.value)
  {
    RowStores(env, columns, row);
    var cells, o := StoredCells(env, columns, row).value, Arranged(columns, row);
    RowExports(env, columns, cells);
    ArrangedLasts(env, columns, row);
    hide StoredCells, ReadRow, SerializedRow, StoreValue, ExportValue, HasShape, Arranged, Valid, Lasts, Faithful;
    forall i | 0 <= i < |columns|
      ensures ExportLasts(env, columns[i], cells[i])
    {
      ColumnExportLasts(env, columns[i], o[i].value);
    }
    var back := SerializedRow(env.parse, columns, ReadRow(env, columns, cells));
    assert back.Ok?;
    ColumnsMakeValid(columns, back.value);
  }

  lemma ColumnsMakeValid(columns: Columns, row: seq<Member>)
    requires DistinctColumns(columns) && InColumnOrder(columns, row)
    requires forall i | 0 <= i < |row| :: Valid(row[i].value)
    ensures Valid(Obj(row))
  {
  }

  lemma SameValueLasts(env: Env, column: string, v: Json, w: Json)
    requires Same(v, w) && Lasts(env, column, v)
    ensures Lasts(env, column, w)
  {
    hide IsUuidColumn, KindOf, IsRealDate, IsIsoDateTime;
    if w.Str? { assert v == w; }
  }

  /** Rows that are equal up to key order last together. */
  lemma SameRowLasts(env: Env, a: seq<Member>, b: seq<Member>)
    requires Same(Obj(a), Obj(b)) && RowLasts(env, a)
    ensures RowLasts(env, b)
  {
    forall j | 0 <= j < |b|
      ensures Lasts(env, b[j].key, b[j].value)
    {
      assert IsTwin(a, b[j]);
      var i :| 0 <= i < |a| && Twins(a[i], b[j]);
      assert Lasts(env, a[i].key, a[i].value);
      SameValueLasts(env, b[j].key, a[i].value, b[j].value);
    }
  }
}
