/**
  The backup archive format (packages/backup/src/archive.ts): building an archive from tables, and
  accepting an archive of any supported schema version with its tables brought up to date.

  Row schemas other than that of the server settings, which alone changes between versions, are the
  parameter `rows`; SHA-256 is the parameter `sha`.
*/
module BackupArchive {
  import opened Common
  import opened CanonicalJson
  import opened Numerals
  import Calendar

  type TableName = string
  type Tables = map<TableName, seq<Json>>
  type RowSchema = (TableName, Json) -> bool
  type Hash = string -> string

  const FORMAT := "homelab-dashboard-backup"
  const APP_VERSION := "1.8.1"
  const CURRENT := 13
  const MAX_BYTES := 8 * 1024 * 1024

  datatype FileEntry = FileEntry(name: string, sha256: string, bytes: int)

  datatype Manifest = Manifest(
    format: string,
    formatVersion: int,
    schemaVersion: int,
    databaseSchemaVersion: int,
    appVersion: string,
    createdAt: string,
    files: seq<FileEntry>)

  /** An archive as it arrives: a manifest of the right shape, and tables of any shape. */
  datatype Document = Document(manifest: Manifest, tables: Json)

  datatype Archive = Archive(manifest: Manifest, tables: Tables)

  datatype Error = TooLarge | ValidationError | IncompatibleSchema | HashMismatch

  // ---------------------------------------------------------------- sizes and digests

  function Utf8Length(s: string): nat {
    if s == "" then 0
    else
      var c := s[0] as int;
      (if c < 0x80 then 1 else if c < 0x800 then 2 else if c < 0x1_0000 then 3 else 4) + Utf8Length(s[1..])
  }

  predicate IsSha256(s: string) { |s| == 64 && forall c | c in s :: IsHexDigit(c) }

  predicate EqualSha256(left: string, right: string) {
    IsSha256(left) && IsSha256(right) && Lower(left) == Lower(right)
  }

  // ---------------------------------------------------------------- forbidden fields

  predicate IsForbiddenAlias(alias: string) {
    || alias == "password" || alias == "apikey" || alias == "token" || alias == "secret" || alias == "sid"
    || alias == "synotoken" || alias == "accesstoken" || alias == "refreshtoken" || alias == "plaintext"
    || alias == "privatekey" || alias == "authorization"
  }

  /** Lower case, as far as it can yield the letters of an alias: ASCII, and the Kelvin sign. */
  function LowerChar(c: char): char { if c == 0x212A as char then 'k' else LowerAscii(c) }

  function NormalizeKey(key: string): string {
    if key == "" then ""
    else if key[0] == '_' || key[0] == '-' then NormalizeKey(key[1..])
    else [LowerChar(key[0])] + NormalizeKey(key[1..])
  }

  predicate Forbidden(key: string) { IsForbiddenAlias(NormalizeKey(key)) }

  predicate NoPlaintextSecrets(v: Json)
    decreases v
  {
    match v
    case Arr(elems) => forall i | 0 <= i < |elems| :: NoPlaintextSecrets(elems[i])
    case Obj(ms) => forall i | 0 <= i < |ms| :: !Forbidden(ms[i].key) && NoPlaintextSecrets(ms[i].value)
    case _ => true
  }

  /** The value reached by descending into elements and members by position. */
  function Below(v: Json, path: seq<nat>): Option<Json>
    decreases |path|
  {
    if path == [] then Some(v)
    else
      match v
      case Arr(elems) => if path[0] < |elems| then Below(elems[path[0]], path[1..]) else None
      case Obj(ms) => if path[0] < |ms| then Below(ms[path[0]].value, path[1..]) else None
      case _ => None
  }

  predicate CleanHere(v: Json) { v.Obj? ==> forall i | 0 <= i < |v.members| :: !Forbidden(v.members[i].key) }

  /** The walk refuses exactly the values that hold a forbidden key at some depth. */
  lemma WalkFindsEveryKey(v: Json)
    ensures NoPlaintextSecrets(v) <==> forall path | Below(v, path).Some? :: CleanHere(Below(v, path).value)
  {
    hide Forbidden;
    if NoPlaintextSecrets(v) {
      forall path | Below(v, path).Some?
        ensures CleanHere(Below(v, path).value)
      {
        CleanBelow(v, path);
      }
    } else {
      var path := OffendingPath(v);
    }
  }

  lemma {:induction false} CleanBelow(v: Json, path: seq<nat>)
    requires NoPlaintextSecrets(v) && Below(v, path).Some?
    ensures CleanHere(Below(v, path).value)
    decreases |path|
  {
    hide Forbidden;
    if path != [] {
      match v
      case Arr(elems) => CleanBelow(elems[path[0]], path[1..]);
      case Obj(ms) => CleanBelow(ms[path[0]].value, path[1..]);
    }
  }

  lemma {:induction false} OffendingPath(v: Json) returns (path: seq<nat>)
    requires !NoPlaintextSecrets(v)
    ensures Below(v, path).Some? && !CleanHere(Below(v, path).value)
    decreases v
  {
    hide Forbidden;
    path := [];
    if CleanHere(v) {
      match v {
        case Arr(elems) =>
          var i :| 0 <= i < |elems| && !NoPlaintextSecrets(elems[i]);
          var rest := OffendingPath(elems[i]);
          path := [i] + rest;
          assert path[1..] == rest;
        case Obj(ms) =>
          var i :| 0 <= i < |ms| && !NoPlaintextSecrets(ms[i].value);
          var rest := OffendingPath(ms[i].value);
          path := [i] + rest;
          assert path[1..] == rest;
      }
    }
  }

  lemma {:induction false} NormalizeConcat(a: string, b: string)
    ensures NormalizeKey(a + b) == NormalizeKey(a) + NormalizeKey(b)
  {
    hide LowerChar;
    if a == "" {
      assert a + b == b;
    } else {
      assert (a + b)[1..] == a[1..] + b;
      NormalizeConcat(a[1..], b);
    }
  }

  /** Neither separators nor the case of ASCII letters hide a forbidden key. */
  lemma SpellingHidesNothing(a: string, c: char, b: string)
    ensures c == '_' || c == '-' ==> Forbidden(a + [c] + b) == Forbidden(a + b)
    ensures Forbidden(a + [c] + b) == Forbidden(a + [LowerAscii(c)] + b)
  {
    hide IsForbiddenAlias;
    NormalizeConcat(a, b);
    NormalizeConcat(a + [c], b);
    NormalizeConcat(a, [c]);
    NormalizeConcat(a + [LowerAscii(c)], b);
    NormalizeConcat(a, [LowerAscii(c)]);
    assert [c][1..] == "" && [LowerAscii(c)][1..] == "";
    assert NormalizeKey([c]) == NormalizeKey([LowerAscii(c)]);
    assert c == '_' || c == '-' ==> NormalizeKey(a) + "" == NormalizeKey(a);
  }

  // ---------------------------------------------------------------- tables of each version

  /** In the order they joined the schema. */
  function AllTables(): (names: seq<TableName>)
    ensures |names| == 31
  {
    ["users", "groups", "group_members", "boards", "layouts", "items", "item_layouts", "apps", "app_tags",
     "integrations", "integration_secrets", "server_settings", "user_credentials", "roles", "role_permissions",
     "user_roles", "group_roles", "board_user_permissions", "board_group_permissions", "jobs",
     "oidc_identities", "oidc_group_mappings", "oidc_secrets",
     "automation_rules",
     "status_pages", "status_page_services", "maintenance_windows", "maintenance_window_targets",
     "service_slos",
     "slo_alert_policies",
     "service_dependencies"]
  }

  predicate IsVersion(v: int) { 5 <= v <= CURRENT }

  /** How many of them a version has; versions 7, 8 and 9 share one schema. */
  function TableCount(version: int): (n: nat)
    ensures 20 <= n <= 31
  {
    if version <= 5 then 20 else if version == 6 then 23 else if version <= 9 then 24
    else if version == 10 then 28 else if version == 11 then 29 else if version == 12 then 30 else 31
  }

  function NamesOf(version: int): seq<TableName> { AllTables()[..TableCount(version)] }

  function MaxRows(table: TableName): nat {
    if table in {"items", "group_members"} then 20_000
    else if table == "item_layouts" then 40_000
    else if table in {"users", "app_tags", "user_credentials", "user_roles", "board_user_permissions",
                      "board_group_permissions", "jobs", "oidc_identities", "maintenance_window_targets"} then 10_000
    else if table in {"status_page_services", "service_dependencies"} then 5_000
    else if table == "groups" then 1_000
    else if table in {"boards", "integrations", "status_pages"} then 500
    else if table == "roles" then 50
    else if table == "oidc_secrets" then 10
    else 2_000
  }

  // ---------------------------------------------------------------- server settings

  predicate IsText(v: Json, least: nat, most: nat) { v.Str? && least <= Utf16Length(v.s) <= most }

  predicate IsTextOrNull(v: Json, most: nat) { v.Null? || IsText(v, 0, most) }

  predicate IsDateText(v: Json) { v.Str? && Calendar.IsIsoDateTime(v.s) }

  /** A positive integer within the safe range, as JavaScript prints it. */
  predicate IsPositiveInteger(v: Json) {
    && v.Num? && v.text != "" && (forall c | c in v.text :: '0' <= c <= '9') && v.text[0] != '0'
    && (|v.text| < 16 || (|v.text| == 16 && !LexLess("9007199254740991", v.text)))
  }

  const SETTINGS_V5: seq<string> :=
    ["id", "schemaVersion", "instanceName", "onboardingCompleted", "createdAt", "updatedAt"]
  const SETTINGS_OIDC: seq<string> :=
    ["oidcEnabled", "oidcIssuer", "oidcClientId", "oidcDisplayName", "oidcScopes", "oidcRedirectUri",
     "oidcGroupClaim", "oidcAutoLinkVerifiedEmail", "oidcAutoProvision", "oidcAllowLocalLogin"]

  predicate BaseSettingOk(m: Member) {
    match m.key
    case "id" => m.value == Str("global")
    case "schemaVersion" => IsPositiveInteger(m.value)
    case "instanceName" => IsTextOrNull(m.value, 200)
    case "onboardingCompleted" => m.value.Bool?
    case "createdAt" => IsDateText(m.value)
    case "updatedAt" => IsDateText(m.value)
    case _ => false
  }

  predicate OidcSettingOk(m: Member) {
    match m.key
    case "oidcEnabled" => m.value.Bool?
    case "oidcIssuer" => IsTextOrNull(m.value, 500)
    case "oidcClientId" => IsTextOrNull(m.value, 200)
    case "oidcDisplayName" => IsTextOrNull(m.value, 80)
    case "oidcScopes" => IsText(m.value, 1, 300)
    case "oidcRedirectUri" => IsTextOrNull(m.value, 500)
    case "oidcGroupClaim" => IsText(m.value, 1, 80)
    case "oidcAutoLinkVerifiedEmail" => m.value.Bool?
    case "oidcAutoProvision" => m.value.Bool?
    case "oidcAllowLocalLogin" => m.value.Bool?
    case _ => false
  }

  predicate HasKey(ms: seq<Member>, key: string) { exists i :: 0 <= i < |ms| && ms[i].key == key }

  /** A strict object: every column present and of its type, and no other key. */
  predicate SettingsOk(version: int, row: Json) {
    && row.Obj? && UniqueKeys(row.members)
    && (forall k | 0 <= k < |SETTINGS_V5| :: HasKey(row.members, SETTINGS_V5[k]))
    && (version >= 6 ==> forall k | 0 <= k < |SETTINGS_OIDC| :: HasKey(row.members, SETTINGS_OIDC[k]))
    && forall i | 0 <= i < |row.members| ::
         BaseSettingOk(row.members[i]) || (version >= 6 && OidcSettingOk(row.members[i]))
  }

  const OIDC_DEFAULTS: seq<Member> :=
    [Member("oidcEnabled", Bool(false)), Member("oidcIssuer", Null), Member("oidcClientId", Null),
     Member("oidcDisplayName", Null), Member("oidcScopes", Str("openid profile email groups")),
     Member("oidcRedirectUri", Null), Member("oidcGroupClaim", Str("groups")),
     Member("oidcAutoLinkVerifiedEmail", Bool(false)), Member("oidcAutoProvision", Bool(false)),
     Member("oidcAllowLocalLogin", Bool(true))]

  // ---------------------------------------------------------------- schemas

  predicate RowOk(rows: RowSchema, version: int, table: TableName, row: Json) {
    if table == "server_settings" then SettingsOk(version, row) else rows(table, row)
  }

  predicate TableOk(rows: RowSchema, version: int, table: TableName, content: seq<Json>) {
    && (if table == "server_settings" then |content| == 1 else |content| <= MaxRows(table))
    && forall i | 0 <= i < |content| :: RowOk(rows, version, table, content[i])
  }

  predicate ValidTables(rows: RowSchema, version: int, t: Tables) {
    && (forall n | n in t :: n in NamesOf(version))
    && (forall k | 0 <= k < |NamesOf(version)| ::
          NamesOf(version)[k] in t && TableOk(rows, version, NamesOf(version)[k], t[NamesOf(version)[k]]))
  }

  function TablesJson(version: int, t: Tables): Json
    requires forall k | 0 <= k < |NamesOf(version)| :: NamesOf(version)[k] in t
  {
    var names := NamesOf(version);
    Obj(seq(|names|, k requires 0 <= k < |names| => Member(names[k], Arr(t[names[k]]))))
  }

  function AsTables(ms: seq<Member>): Tables {
    if ms == [] then map[]
    else
      var last := ms[|ms| - 1];
      AsTables(ms[..|ms| - 1])[last.key := if last.value.Arr? then last.value.elems else []]
  }

  /** Strict parsing of the tables of one version. */
  function ParseTables(rows: RowSchema, version: int, v: Json): Option<Tables> {
    if v.Obj? && UniqueKeys(v.members) && (forall i | 0 <= i < |v.members| :: v.members[i].value.Arr?)
       && ValidTables(rows, version, AsTables(v.members))
    then Some(AsTables(v.members))
    else None
  }

  // ---------------------------------------------------------------- upgrades

  function WithOidcDefaults(row: Json): Json {
    if row.Obj? then Obj(row.members + OIDC_DEFAULTS) else row
  }

  function EmptyTables(names: seq<TableName>): Tables { map n | n in names :: [] }

  /** The server settings of version 5, with the OpenID columns added. */
  function NewSettings(t: Tables): Tables {
    var settings := if "server_settings" in t then t["server_settings"] else [];
    t["server_settings" := seq(|settings|, i requires 0 <= i < |settings| => WithOidcDefaults(settings[i]))]
  }

  function UpgradeV5(t: Tables): Tables {
    NewSettings(t) + EmptyTables(["oidc_identities", "oidc_group_mappings", "oidc_secrets"])
  }

  function UpgradeV6(t: Tables): Tables { t + EmptyTables(["automation_rules"]) }

  function UpgradeV9(t: Tables): Tables {
    t + EmptyTables(["status_pages", "status_page_services", "maintenance_windows", "maintenance_window_targets"])
  }

  function UpgradeV10(t: Tables): Tables { t + EmptyTables(["service_slos"]) }

  function UpgradeV11(t: Tables): Tables { t + EmptyTables(["slo_alert_policies"]) }

  function UpgradeV12(t: Tables): Tables { t + EmptyTables(["service_dependencies"]) }

  /** The chain each version runs through. */
  function Upgrade(version: int, t: Tables): Tables {
    if version == 5 then UpgradeV12(UpgradeV11(UpgradeV10(UpgradeV9(UpgradeV6(UpgradeV5(t))))))
    else if version == 6 then UpgradeV12(UpgradeV11(UpgradeV10(UpgradeV9(UpgradeV6(t)))))
    else if version == 7 || version == 8 || version == 9 then UpgradeV12(UpgradeV11(UpgradeV10(UpgradeV9(t))))
    else if version == 10 then UpgradeV12(UpgradeV11(UpgradeV10(t)))
    else if version == 11 then UpgradeV12(UpgradeV11(t))
    else if version == 12 then UpgradeV12(t)
    else t
  }

  // ---------------------------------------------------------------- manifest

  function FileJson(f: FileEntry): Json {
    Obj([Member("name", Str(f.name)), Member("sha256", Str(f.sha256)), Member("bytes", Num(IntText(f.bytes)))])
  }

  function ManifestJson(m: Manifest): Json {
    Obj([Member("format", Str(m.format)), Member("formatVersion", Num(IntText(m.formatVersion))),
         Member("schemaVersion", Num(IntText(m.schemaVersion))),
         Member("databaseSchemaVersion", Num(IntText(m.databaseSchemaVersion))),
         Member("appVersion", Str(m.appVersion)), Member("createdAt", Str(m.createdAt)),
         Member("files", Arr(seq(|m.files|, i requires 0 <= i < |m.files| => FileJson(m.files[i]))))])
  }

  function DocumentJson(d: Document): Json {
    Obj([Member("manifest", ManifestJson(d.manifest)), Member("tables", d.tables)])
  }

  function ArchiveBytes(d: Document): nat { Utf8Length(Print(DocumentJson(d))) }

  /** The first complaint about a manifest, as the error it turns into. */
  function ManifestProblem(m: Manifest): Option<Error> {
    if m.format != FORMAT || m.formatVersion != 1 then Some(ValidationError)
    else if !IsVersion(m.schemaVersion) || !IsVersion(m.databaseSchemaVersion) then Some(IncompatibleSchema)
    else if !(1 <= Utf16Length(m.appVersion) <= 40) || !Calendar.IsIsoDateTime(m.createdAt) then Some(ValidationError)
    else if |m.files| != 1 || m.files[0].name != "tables.json" || !IsSha256(m.files[0].sha256)
            || !(1 <= m.files[0].bytes <= MAX_BYTES)
    then Some(ValidationError)
    else None
  }

  // ---------------------------------------------------------------- building and accepting

  datatype Digest = Digest(sha256: string, bytes: nat)

  function HashOf(sha: Hash, v: Json): Result<Digest, Error> {
    var canonical := Canonical(v);
    if Utf8Length(canonical) > MAX_BYTES then Err(TooLarge)
    else Ok(Digest(sha(canonical), Utf8Length(canonical)))
  }

  function BuildArchive(sha: Hash, rows: RowSchema, t: Tables, createdAt: string): Result<Document, Error> {
    if !ValidTables(rows, CURRENT, t) then Err(ValidationError)
    else
      var tables := TablesJson(CURRENT, t);
      if !NoPlaintextSecrets(tables) then Err(ValidationError)
      else
        match HashOf(sha, tables)
        case Err(e) => Err(e)
        case Ok(h) =>
          var files := [FileEntry("tables.json", h.sha256, h.bytes)];
          var d := Document(Manifest(FORMAT, 1, CURRENT, CURRENT, APP_VERSION, createdAt, files), tables);
          if ManifestProblem(d.manifest).Some? then Err(ValidationError)
          else if ArchiveBytes(d) > MAX_BYTES then Err(TooLarge)
          else Ok(d)
  }

  function AssertHash(sha: Hash, v: Json, declared: FileEntry): Option<Error> {
    match HashOf(sha, v)
    case Err(e) => Some(e)
    case Ok(h) =>
      if h.bytes != declared.bytes || !EqualSha256(h.sha256, declared.sha256) then Some(HashMismatch) else None
  }

  function ParseArchive(sha: Hash, rows: RowSchema, d: Document): Result<Archive, Error> {
    if ArchiveBytes(d) > MAX_BYTES then Err(TooLarge)
    else if ManifestProblem(d.manifest).Some? then Err(ManifestProblem(d.manifest).value)
    else
      var version := d.manifest.schemaVersion;
      match ParseTables(rows, version, d.tables)
      case None => Err(ValidationError)
      case Some(t) =>
        var tables := TablesJson(version, t);
        if !NoPlaintextSecrets(DocumentJson(d.(tables := tables))) then Err(ValidationError)
        else
          match AssertHash(sha, tables, d.manifest.files[0])
          case Some(e) => Err(e)
          case None => Ok(Archive(d.manifest, Upgrade(version, t)))
  }

  // ---------------------------------------------------------------- table names

  /** Length, first and third character tell all table names apart. */
  function Signature(s: string): int {
    if |s| < 3 then 0 else |s| * 65536 + s[0] as int * 256 + s[2] as int
  }

  function TableIndex(s: string): int {
    var n := Signature(s);
    if n == 357733 then 0 else if n == 419695 then 1 else if n == 878447 then 2 else if n == 418401 then 3
    else if n == 486521 then 4 else if n == 354661 then 5 else if n == 813413 then 6 else if n == 287088 then 7
    else if n == 549232 then 8 else if n == 813428 then 9 else if n == 1272180 then 10 else if n == 1012594 then 11
    else if n == 1078629 then 12 else if n == 356972 then 13 else if n == 1077868 then 14 else if n == 685413 then 15
    else if n == 747375 then 16 else if n == 1466977 then 17 else if n == 1532513 then 18 else if n == 289378 then 19
    else if n == 1011556 then 20 else if n == 1273700 then 21 else if n == 814948 then 22 else if n == 1073524 then 23
    else if n == 815969 then 24 else if n == 1340257 then 25 else if n == 1273193 then 26 else if n == 1731945 then 27
    else if n == 815986 then 28 else if n == 1209199 then 29 else if n == 1340274 then 30 else 31
  }

  lemma TableIndexLow(k: nat)
    requires k < 16
    ensures TableIndex(AllTables()[k]) == k
  {
  }

  lemma TableIndexHigh(k: nat)
    requires 16 <= k < 31
    ensures TableIndex(AllTables()[k]) == k
  {
  }

  lemma TableNamesDistinct(i: nat, j: nat)
    requires i < j < 31
    ensures AllTables()[i] != AllTables()[j]
  {
    hide TableIndex, AllTables;
    if i < 16 { TableIndexLow(i); } else { TableIndexHigh(i); }
    if j < 16 { TableIndexLow(j); } else { TableIndexHigh(j); }
  }

  ghost predicate HasTables(version: int, t: Tables) {
    forall k | 0 <= k < |NamesOf(version)| :: NamesOf(version)[k] in t
  }

  // ---------------------------------------------------------------- tables and their JSON

  lemma TablesJsonUnique(version: int, t: Tables)
    requires HasTables(version, t)
    ensures UniqueKeys(TablesJson(version, t).members)
  {
    hide AllTables;
    forall i, j | 0 <= i < j < |NamesOf(version)|
      ensures NamesOf(version)[i] != NamesOf(version)[j]
    {
      TableNamesDistinct(i, j);
    }
  }

  ghost predicate Content(ms: seq<Member>, i: nat, t: Tables)
    requires i < |ms|
  {
    ms[i].key in t && t[ms[i].key] == if ms[i].value.Arr? then ms[i].value.elems else []
  }

  lemma {:induction false} AsTablesMeaning(ms: seq<Member>)
    requires UniqueKeys(ms)
    ensures forall i | 0 <= i < |ms| :: Content(ms, i, AsTables(ms))
    ensures forall n | n in AsTables(ms) :: HasKey(ms, n)
  {
    if ms != [] {
      var init := ms[..|ms| - 1];
      AsTablesMeaning(init);
      forall i | 0 <= i < |ms|
        ensures Content(ms, i, AsTables(ms))
      {
        if i < |init| { assert Content(init, i, AsTables(init)); }
      }
      forall n | n in AsTables(ms)
        ensures HasKey(ms, n)
      {
        if n in AsTables(init) {
          assert HasKey(init, n);
          var i :| 0 <= i < |init| && init[i].key == n;
          assert ms[i].key == n;
        } else {
          assert ms[|ms| - 1].key == n;
        }
      }
    }
  }

  /** Tables survive being written as JSON and parsed again. */
  lemma TablesRoundTrip(rows: RowSchema, version: int, t: Tables)
    requires ValidTables(rows, version, t)
    ensures ParseTables(rows, version, TablesJson(version, t)) == Some(t)
  {
    hide AllTables;
    var ms, names := TablesJson(version, t).members, NamesOf(version);
    TablesJsonUnique(version, t);
    AsTablesMeaning(ms);
    assert |ms| == |names| && forall i | 0 <= i < |ms| :: ms[i] == Member(names[i], Arr(t[names[i]]));
    hide AsTables, TablesJson, NamesOf, TableOk, UniqueKeys;
    var back := AsTables(ms);
    forall n
      ensures n in back <==> n in t
      ensures n in back ==> back[n] == t[n]
    {
      if n in back {
        assert HasKey(ms, n);
        var i :| 0 <= i < |ms| && ms[i].key == n;
        assert Content(ms, i, back);
      }
      if n in t {
        assert n in names;
        var i :| 0 <= i < |names| && names[i] == n;
        assert Content(ms, i, back);
      }
    }
    assert back == t;
  }

  /** What parsing keeps of a document's tables is all of it, up to the order of keys. */
  lemma ParsedIsSame(rows: RowSchema, version: int, v: Json, t: Tables)
    requires ParseTables(rows, version, v) == Some(t)
    ensures HasTables(version, t) && Same(v, TablesJson(version, t))
  {
    hide AllTables;
    var ms, names := v.members, NamesOf(version);
    AsTablesMeaning(ms);
    var ns := TablesJson(version, t).members;
    assert |ns| == |names| && forall i | 0 <= i < |ns| :: ns[i] == Member(names[i], Arr(t[names[i]]));
    hide AsTables, TablesJson, NamesOf, TableOk, UniqueKeys, Same, Twins;
    forall i | 0 <= i < |ms|
      ensures HasTwin(ms[i], ns)
    {
      assert Content(ms, i, t) && ms[i].key in names;
      var k :| 0 <= k < |names| && names[k] == ms[i].key;
      TwinIsReflexive(ms[i]);
      assert ns[k] == ms[i];
    }
    forall k | 0 <= k < |ns|
      ensures IsTwin(ms, ns[k])
    {
      assert HasKey(ms, names[k]);
      var i :| 0 <= i < |ms| && ms[i].key == names[k];
      assert Content(ms, i, t);
      TwinIsReflexive(ms[i]);
      assert ns[k] == ms[i];
    }
    SameObjects(ms, ns);
  }

  lemma TwinIsReflexive(m: Member)
    ensures Twins(m, m)
  {
    SameIsReflexive(m.value);
  }

  // ---------------------------------------------------------------- upgrades end at the current schema

  lemma {:induction false} TextLength(s: string)
    ensures |s| <= Utf16Length(s) <= 2 * |s|
  {
    if s != "" { TextLength(s[1..]); }
  }

  lemma BaseKeys(m: Member)
    requires BaseSettingOk(m)
    ensures |m.key| >= 2 && m.key[1] != 'i'
  {
  }

  lemma DefaultKeys(k: nat)
    requires k < |OIDC_DEFAULTS|
    ensures |OIDC_DEFAULTS| == |SETTINGS_OIDC| == 10 && OIDC_DEFAULTS[k].key == SETTINGS_OIDC[k]
    ensures |OIDC_DEFAULTS[k].key| >= 5 && OIDC_DEFAULTS[k].key[1] == 'i'
    ensures OidcSettingOk(OIDC_DEFAULTS[k])
  {
    TextLength("openid profile email groups");
    TextLength("groups");
    hide Utf16Length;
  }

  /** Length and fifth character tell the OpenID columns apart. */
  function ColumnSignature(s: string): int {
    if |s| < 5 then 0 else |s| * 256 + s[4] as int
  }

  lemma DefaultsDistinct()
    ensures UniqueKeys(OIDC_DEFAULTS)
  {
    forall i, j | 0 <= i < j < |OIDC_DEFAULTS|
      ensures OIDC_DEFAULTS[i].key != OIDC_DEFAULTS[j].key
    {
      assert ColumnSignature(OIDC_DEFAULTS[i].key) != ColumnSignature(OIDC_DEFAULTS[j].key);
    }
  }

  lemma SettingsUpgrade(row: Json)
    requires SettingsOk(5, row)
    ensures SettingsOk(6, WithOidcDefaults(row))
  {
    var ms := row.members;
    var all := ms + OIDC_DEFAULTS;
    DefaultsDistinct();
    forall k | 0 <= k < |OIDC_DEFAULTS|
      ensures |OIDC_DEFAULTS| == |SETTINGS_OIDC| == 10 && OIDC_DEFAULTS[k].key == SETTINGS_OIDC[k]
      ensures |OIDC_DEFAULTS[k].key| >= 5 && OIDC_DEFAULTS[k].key[1] == 'i' && OidcSettingOk(OIDC_DEFAULTS[k])
    {
      DefaultKeys(k);
    }
    forall i | 0 <= i < |ms|
      ensures |ms[i].key| >= 2 && ms[i].key[1] != 'i' && BaseSettingOk(ms[i])
    {
      BaseKeys(ms[i]);
    }
    hide BaseSettingOk, OidcSettingOk;
    SettingsJoin(ms, OIDC_DEFAULTS);
  }

  /** No setting a version 5 row has is replaced by a default, and every default is there. */
  lemma SettingsUpgradeKeeps(row: Json, key: string)
    requires SettingsOk(5, row)
    ensures Lookup(WithOidcDefaults(row).members, key)
            == if Lookup(row.members, key).Some? then Lookup(row.members, key) else Lookup(OIDC_DEFAULTS, key)
  {
    var ms := row.members;
    LookupConcat(ms, OIDC_DEFAULTS, key);
    LookupMeaning(ms, key);
    LookupMeaning(OIDC_DEFAULTS, key);
    hide Lookup;
    if Lookup(ms, key).Some? && Lookup(OIDC_DEFAULTS, key).Some? {
      var i :| 0 <= i < |ms| && ms[i] == Member(key, Lookup(ms, key).value);
      var k :| 0 <= k < |OIDC_DEFAULTS| && OIDC_DEFAULTS[k] == Member(key, Lookup(OIDC_DEFAULTS, key).value);
      BaseKeys(ms[i]);
      DefaultKeys(k);
      assert false;
    }
  }

  lemma SettingsJoin(ms: seq<Member>, defaults: seq<Member>)
    requires UniqueKeys(ms) && UniqueKeys(defaults) && |defaults| == |SETTINGS_OIDC|
    requires forall k | 0 <= k < |SETTINGS_V5| :: HasKey(ms, SETTINGS_V5[k])
    requires forall i | 0 <= i < |ms| :: |ms[i].key| >= 2 && ms[i].key[1] != 'i' && BaseSettingOk(ms[i])
    requires forall k | 0 <= k < |defaults| ::
               |defaults[k].key| >= 5 && defaults[k].key[1] == 'i' && OidcSettingOk(defaults[k])
               && defaults[k].key == SETTINGS_OIDC[k]
    ensures SettingsOk(6, Obj(ms + defaults))
  {
    hide BaseSettingOk, OidcSettingOk;
    var all := ms + defaults;
    forall i, j | 0 <= i < j < |all|
      ensures all[i].key != all[j].key
    {
      if i < |ms| && j >= |ms| {
        assert all[i].key[1] != all[j].key[1];
      }
    }
    forall k | 0 <= k < |SETTINGS_V5|
      ensures HasKey(all, SETTINGS_V5[k])
    {
      assert HasKey(ms, SETTINGS_V5[k]);
      var i :| 0 <= i < |ms| && ms[i].key == SETTINGS_V5[k];
      assert all[i].key == SETTINGS_V5[k];
    }
    forall k | 0 <= k < |SETTINGS_OIDC|
      ensures HasKey(all, SETTINGS_OIDC[k])
    {
      assert all[|ms| + k].key == SETTINGS_OIDC[k];
    }
  }

  lemma SettingsIsEleventh()
    ensures AllTables()[11] == "server_settings"
  {
  }

  ghost predicate Kept(before: Tables, after: Tables, k: nat)
    requires k < 31
  {
    AllTables()[k] in before && AllTables()[k] in after && after[AllTables()[k]] == before[AllTables()[k]]
  }

  ghost predicate Emptied(after: Tables, k: nat)
    requires k < 31
  {
    AllTables()[k] in after && after[AllTables()[k]] == []
  }

  /** `t` holds exactly the first `n` tables, each as schema version `schema` wants it. */
  ghost predicate ValidPart(rows: RowSchema, schema: int, n: nat, t: Tables)
    requires n <= 31
  {
    && (forall name | name in t :: name in AllTables()[..n])
    && forall k | 0 <= k < n :: AllTables()[k] in t && TableOk(rows, schema, AllTables()[k], t[AllTables()[k]])
  }

  lemma TablesAt(rows: RowSchema, version: int, t: Tables)
    ensures ValidTables(rows, version, t) <==> ValidPart(rows, version, TableCount(version), t)
  {
    hide AllTables, TableOk;
    assert forall k | 0 <= k < TableCount(version) :: NamesOf(version)[k] == AllTables()[k];
  }

  lemma SliceNames(n: nat, m: nat, k: nat)
    requires n <= m <= 31 && k < m
    ensures AllTables()[k] in AllTables()[n..m] <==> n <= k
    ensures AllTables()[k] == "server_settings" <==> k == 11
  {
    hide AllTables;
    var all, slice := AllTables(), AllTables()[n..m];
    if n <= k { assert slice[k - n] == all[k]; }
    if all[k] in slice {
      var j :| 0 <= j < |slice| && slice[j] == all[k];
      if k < n { TableNamesDistinct(k, n + j); }
    }
    SettingsIsEleventh();
    if k < 11 { TableNamesDistinct(k, 11); } else if k > 11 { TableNamesDistinct(11, k); }
  }

  lemma SameSchema(rows: RowSchema, from: int, to: int, table: TableName, content: seq<Json>)
    requires 6 <= from && 6 <= to
    ensures TableOk(rows, from, table, content) <==> TableOk(rows, to, table, content)
  {
    assert forall i | 0 <= i < |content| :: SettingsOk(from, content[i]) <==> SettingsOk(to, content[i]);
  }

  /** Empty tables join a valid set of tables without touching the others. */
  lemma AddEmpty(rows: RowSchema, from: int, to: int, n: nat, m: nat, t: Tables, names: seq<TableName>)
    requires 6 <= from && 6 <= to && 20 <= n <= m <= 31 && ValidPart(rows, from, n, t) && names == AllTables()[n..m]
    ensures ValidPart(rows, to, m, t + EmptyTables(names))
    ensures forall k | 0 <= k < n :: Kept(t, t + EmptyTables(names), k)
    ensures forall k | n <= k < m :: Emptied(t + EmptyTables(names), k)
  {
    var after := t + EmptyTables(names);
    hide AllTables, SettingsOk, MaxRows;
    forall k | 0 <= k < m
      ensures AllTables()[k] in names <==> n <= k
      ensures AllTables()[k] == "server_settings" <==> k == 11
    {
      SliceNames(n, m, k);
    }
    assert AllTables()[..m] == AllTables()[..n] + names;
    forall k | 0 <= k < n
      ensures TableOk(rows, to, AllTables()[k], after[AllTables()[k]])
    {
      SameSchema(rows, from, to, AllTables()[k], t[AllTables()[k]]);
    }
  }

  /** The result of a whole upgrade of an archive that has the first `n` tables. */
  ghost predicate Upgraded(rows: RowSchema, n: nat, t: Tables, after: Tables)
    requires n <= 31
  {
    && ValidPart(rows, CURRENT, 31, after)
    && (forall k | 0 <= k < n :: Kept(t, after, k))
    && (forall k | n <= k < 31 :: Emptied(after, k))
  }

  lemma UpgradeMore(rows: RowSchema, from: int, n: nat, m: nat, t: Tables, names: seq<TableName>, after: Tables)
    requires 6 <= from && 20 <= n <= m <= 31 && ValidPart(rows, from, n, t) && names == AllTables()[n..m]
    requires Upgraded(rows, m, t + EmptyTables(names), after)
    ensures Upgraded(rows, n, t, after)
  {
    AddEmpty(rows, from, CURRENT, n, m, t, names);
    hide AllTables, ValidPart;
    var mid := t + EmptyTables(names);
    forall k | 0 <= k < n
      ensures Kept(t, after, k)
    {
      assert Kept(t, mid, k) && Kept(mid, after, k);
    }
    forall k | n <= k < m
      ensures Emptied(after, k)
    {
      assert Emptied(mid, k) && Kept(mid, after, k);
    }
  }

  lemma AddedNames()
    ensures ["oidc_identities", "oidc_group_mappings", "oidc_secrets"] == AllTables()[20..23]
    ensures ["automation_rules"] == AllTables()[23..24]
    ensures ["status_pages", "status_page_services", "maintenance_windows", "maintenance_window_targets"]
            == AllTables()[24..28]
    ensures ["service_slos"] == AllTables()[28..29]
    ensures ["slo_alert_policies"] == AllTables()[29..30]
    ensures ["service_dependencies"] == AllTables()[30..31]
  {
  }

  lemma UpgradeFrom12(rows: RowSchema, t: Tables)
    requires ValidPart(rows, 12, 30, t)
    ensures Upgraded(rows, 30, t, UpgradeV12(t))
  {
    AddedNames();
    hide AllTables, ValidPart;
    AddEmpty(rows, 12, 13, 30, 31, t, ["service_dependencies"]);
  }

  lemma UpgradeFrom11(rows: RowSchema, t: Tables)
    requires ValidPart(rows, 11, 29, t)
    ensures Upgraded(rows, 29, t, UpgradeV12(UpgradeV11(t)))
  {
    AddedNames();
    hide AllTables, ValidPart, Upgraded;
    AddEmpty(rows, 11, 12, 29, 30, t, ["slo_alert_policies"]);
    UpgradeFrom12(rows, UpgradeV11(t));
    UpgradeMore(rows, 11, 29, 30, t, ["slo_alert_policies"], UpgradeV12(UpgradeV11(t)));
  }

  lemma UpgradeFrom10(rows: RowSchema, t: Tables)
    requires ValidPart(rows, 10, 28, t)
    ensures Upgraded(rows, 28, t, UpgradeV12(UpgradeV11(UpgradeV10(t))))
  {
    AddedNames();
    hide AllTables, ValidPart, Upgraded;
    AddEmpty(rows, 10, 11, 28, 29, t, ["service_slos"]);
    UpgradeFrom11(rows, UpgradeV10(t));
    UpgradeMore(rows, 10, 28, 29, t, ["service_slos"], UpgradeV12(UpgradeV11(UpgradeV10(t))));
  }

  lemma UpgradeFrom9(rows: RowSchema, version: int, t: Tables)
    requires 7 <= version <= 9 && ValidPart(rows, version, 24, t)
    ensures Upgraded(rows, 24, t, UpgradeV12(UpgradeV11(UpgradeV10(UpgradeV9(t)))))
  {
    AddedNames();
    hide AllTables, ValidPart, Upgraded;
    var names := ["status_pages", "status_page_services", "maintenance_windows", "maintenance_window_targets"];
    AddEmpty(rows, version, 10, 24, 28, t, names);
    UpgradeFrom10(rows, UpgradeV9(t));
    UpgradeMore(rows, version, 24, 28, t, names, UpgradeV12(UpgradeV11(UpgradeV10(UpgradeV9(t)))));
  }

  lemma UpgradeFrom6(rows: RowSchema, t: Tables)
    requires ValidPart(rows, 6, 23, t)
    ensures Upgraded(rows, 23, t, UpgradeV12(UpgradeV11(UpgradeV10(UpgradeV9(UpgradeV6(t))))))
  {
    AddedNames();
    hide AllTables, ValidPart, Upgraded;
    AddEmpty(rows, 6, 9, 23, 24, t, ["automation_rules"]);
    UpgradeFrom9(rows, 9, UpgradeV6(t));
    UpgradeMore(rows, 6, 23, 24, t, ["automation_rules"], UpgradeV12(UpgradeV11(UpgradeV10(UpgradeV9(UpgradeV6(t))))));
  }

  lemma SettingsStep(rows: RowSchema, t: Tables)
    requires ValidPart(rows, 5, 20, t)
    ensures ValidPart(rows, 6, 20, NewSettings(t))
    ensures forall k | 0 <= k < 20 && k != 11 :: Kept(t, NewSettings(t), k)
  {
    var after := NewSettings(t);
    SettingsIsEleventh();
    hide AllTables, SettingsOk, WithOidcDefaults;
    forall k | 0 <= k < 20
      ensures AllTables()[k] == "server_settings" <==> k == 11
    {
      SliceNames(0, 31, k);
    }
    assert TableOk(rows, 5, AllTables()[11], t[AllTables()[11]]);
    SettingsUpgrade(t["server_settings"][0]);
    forall k | 0 <= k < 20
      ensures TableOk(rows, 6, AllTables()[k], after[AllTables()[k]])
    {
      assert TableOk(rows, 5, AllTables()[k], t[AllTables()[k]]);
    }
  }

  lemma UpgradeFrom5(rows: RowSchema, t: Tables)
    requires ValidPart(rows, 5, 20, t)
    ensures Upgraded(rows, 20, NewSettings(t), Upgrade(5, t))
  {
    AddedNames();
    SettingsStep(rows, t);
    var names := ["oidc_identities", "oidc_group_mappings", "oidc_secrets"];
    assert UpgradeV5(t) == NewSettings(t) + EmptyTables(names);
    hide AllTables, ValidPart, Upgraded, NewSettings;
    AddEmpty(rows, 6, 6, 20, 23, NewSettings(t), names);
    UpgradeFrom6(rows, UpgradeV5(t));
    UpgradeMore(rows, 6, 20, 23, NewSettings(t), names, Upgrade(5, t));
  }

  /**
    Whatever version an accepted archive has, its upgraded tables satisfy the current schema; every
    table it had is kept as it was, apart from the new settings columns, and every other is empty.
  */
  lemma UpgradeEndsCurrent(rows: RowSchema, version: int, t: Tables)
    requires IsVersion(version) && ValidTables(rows, version, t)
    ensures ValidTables(rows, CURRENT, Upgrade(version, t))
    ensures Upgraded(rows, TableCount(version), if version == 5 then NewSettings(t) else t, Upgrade(version, t))
  {
    hide AllTables, ValidPart, Upgraded, ValidTables, NewSettings, UpgradeV5, UpgradeV6, UpgradeV9, UpgradeV10, UpgradeV11, UpgradeV12;
    TablesAt(rows, version, t);
    TablesAt(rows, CURRENT, Upgrade(version, t));
    if version == 5 {
      UpgradeFrom5(rows, t);
    } else if version == 6 {
      UpgradeFrom6(rows, t);
    } else if version <= 9 {
      UpgradeFrom9(rows, version, t);
    } else if version == 10 {
      UpgradeFrom10(rows, t);
    } else if version == 11 {
      UpgradeFrom11(rows, t);
    } else if version == 12 {
      UpgradeFrom12(rows, t);
    } else {
      UpToDate(rows, t);
    }
    UpgradedIsCurrent(rows, TableCount(version), if version == 5 then NewSettings(t) else t, Upgrade(version, t));
  }

  lemma UpToDate(rows: RowSchema, t: Tables)
    requires ValidPart(rows, CURRENT, 31, t)
    ensures Upgraded(rows, 31, t, t)
  {
    hide AllTables;
  }

  lemma UpgradedIsCurrent(rows: RowSchema, n: nat, t: Tables, after: Tables)
    requires n <= 31 && Upgraded(rows, n, t, after)
    ensures ValidPart(rows, CURRENT, 31, after)
  {
    hide AllTables;
  }

  // ---------------------------------------------------------------- what is built is accepted

  /** The first three characters as a number. */
  function Head(s: string): int {
    if |s| < 3 then 0 else s[0] as int * 65536 + s[1] as int * 256 + s[2] as int
  }

  predicate IsAliasHead(h: int) {
    || h == 7364979 || h == 6385769 || h == 7630699 || h == 7562595 || h == 7563620 || h == 7567726
    || h == 6382435 || h == 7497062 || h == 7367777 || h == 7369321 || h == 6387060
  }

  predicate StartsPlain(key: string) { |key| >= 3 && forall i | 0 <= i < 3 :: 'a' <= key[i] <= 'z' }

  lemma NormalizeStart(key: string)
    requires StartsPlain(key)
    ensures Head(NormalizeKey(key)) == Head(key)
  {
    var one, two := key[1..], key[2..];
    assert one[1..] == two && two[1..] == key[3..];
    assert NormalizeKey(two) == [key[2]] + NormalizeKey(key[3..]);
    assert NormalizeKey(one) == [key[1]] + NormalizeKey(two);
    assert NormalizeKey(key) == [key[0]] + NormalizeKey(one);
  }

  lemma AliasHeads(alias: string)
    requires IsForbiddenAlias(alias)
    ensures IsAliasHead(Head(alias))
  {
  }

  lemma CleanKey(key: string)
    requires StartsPlain(key) && !IsAliasHead(Head(key))
    ensures !Forbidden(key)
  {
    NormalizeStart(key);
    if Forbidden(key) { AliasHeads(NormalizeKey(key)); }
  }

  lemma FileKeysClean()
    ensures !Forbidden("name") && !Forbidden("sha256") && !Forbidden("bytes") && !Forbidden("files")
    ensures !Forbidden("manifest") && !Forbidden("tables")
  {
    hide Forbidden;
    CleanKey("name");
    CleanKey("sha256");
    CleanKey("bytes");
    CleanKey("files");
    CleanKey("manifest");
    CleanKey("tables");
  }

  lemma ManifestKeysClean()
    ensures !Forbidden("format") && !Forbidden("formatVersion") && !Forbidden("schemaVersion")
    ensures !Forbidden("databaseSchemaVersion") && !Forbidden("appVersion") && !Forbidden("createdAt")
  {
    hide Forbidden;
    CleanKey("format");
    CleanKey("formatVersion");
    CleanKey("schemaVersion");
    CleanKey("databaseSchemaVersion");
    CleanKey("appVersion");
    CleanKey("createdAt");
  }

  /** A manifest has no forbidden field, so a document is as clean as its tables. */
  lemma DocumentClean(d: Document)
    ensures NoPlaintextSecrets(DocumentJson(d)) <==> NoPlaintextSecrets(d.tables)
  {
    FileKeysClean();
    ManifestKeysClean();
    hide Forbidden;
    forall i | 0 <= i < |d.manifest.files|
      ensures NoPlaintextSecrets(FileJson(d.manifest.files[i]))
    {
    }
    hide FileJson, Decimal, IntText;
    assert NoPlaintextSecrets(ManifestJson(d.manifest));
    hide ManifestJson;
    var ms := DocumentJson(d).members;
    assert |ms| == 2 && ms[0].key == "manifest" && ms[1].key == "tables";
    assert ms[0].value == ManifestJson(d.manifest) && ms[1].value == d.tables;
  }

  /** Every archive that is built is accepted again and gives back the same tables. */
  lemma BuildThenParse(sha: Hash, rows: RowSchema, t: Tables, createdAt: string)
    requires BuildArchive(sha, rows, t, createdAt).Ok?
    requires forall text :: IsSha256(sha(text))
    ensures var d := BuildArchive(sha, rows, t, createdAt).value;
            ParseArchive(sha, rows, d) == Ok(Archive(d.manifest, t))
  {
    hide TablesJson, ParseTables, DocumentJson, NoPlaintextSecrets, IsSha256, Lower, Canonical, Utf8Length,
         ManifestProblem, ArchiveBytes, AllTables, TableOk;
    var d := BuildArchive(sha, rows, t, createdAt).value;
    TablesRoundTrip(rows, CURRENT, t);
    DocumentClean(d);
    assert d.manifest.schemaVersion == CURRENT && d.tables == TablesJson(CURRENT, t);
    assert AssertHash(sha, d.tables, d.manifest.files[0]).None?;
    assert Upgrade(CURRENT, t) == t;
    hide BuildArchive, AssertHash, Upgrade, ValidTables;
  }

  // ---------------------------------------------------------------- tampering

  /** The digest depends on the tables only, not on the order of keys anywhere in them. */
  lemma HashIgnoresKeyOrder(sha: Hash, v: Json, w: Json)
    requires Valid(v) && Valid(w) && Same(v, w)
    ensures HashOf(sha, v) == HashOf(sha, w)
  {
    CanonicalIsExact(v, w);
    hide Utf8Length, Canonical;
  }

  /** The digest that is checked is that of the tables as they were submitted. */
  lemma HashIsOfTheInput(sha: Hash, rows: RowSchema, version: int, v: Json, t: Tables)
    requires Valid(v) && ParseTables(rows, version, v) == Some(t)
    ensures HasTables(version, t) && Valid(TablesJson(version, t))
    ensures HashOf(sha, TablesJson(version, t)) == HashOf(sha, v)
  {
    ParsedIsSame(rows, version, v, t);
    ParsedIsValid(rows, version, v, t);
    hide ParseTables, TablesJson;
    HashIgnoresKeyOrder(sha, v, TablesJson(version, t));
  }

  lemma ParsedIsValid(rows: RowSchema, version: int, v: Json, t: Tables)
    requires Valid(v) && ParseTables(rows, version, v) == Some(t)
    ensures HasTables(version, t) && Valid(TablesJson(version, t))
  {
    hide AllTables, TableOk;
    TablesJsonUnique(version, t);
    AsTablesMeaning(v.members);
    var names := NamesOf(version);
    forall k | 0 <= k < |names|
      ensures Valid(Arr(t[names[k]]))
    {
      assert HasKey(v.members, names[k]);
      var i :| 0 <= i < |v.members| && v.members[i].key == names[k];
      assert Content(v.members, i, t) && Valid(v.members[i].value);
    }
    hide NamesOf, AsTables;
  }

  /** What acceptance says of a document. */
  lemma AcceptedMeans(sha: Hash, rows: RowSchema, d: Document)
    requires ParseArchive(sha, rows, d).Ok?
    ensures ManifestProblem(d.manifest).None? && |d.manifest.files| == 1 && IsVersion(d.manifest.schemaVersion)
    ensures var version := d.manifest.schemaVersion; var parsed := ParseTables(rows, version, d.tables);
            && parsed.Some? && HasTables(version, parsed.value) && ValidTables(rows, version, parsed.value)
            && AssertHash(sha, TablesJson(version, parsed.value), d.manifest.files[0]).None?
            && ParseArchive(sha, rows, d).value == Archive(d.manifest, Upgrade(version, parsed.value))
  {
    hide TablesJson, DocumentJson, NoPlaintextSecrets, ArchiveBytes, AssertHash, Upgrade, AllTables, TableOk, AsTables, IsSha256,
         Utf16Length, Calendar.IsIsoDateTime;
  }

  /**
    An accepted archive that carries the digest of given tables carries those tables, up to the order
    of keys; the only other way is a pair of different texts with one SHA-256 digest.
  */
  lemma TamperEvident(sha: Hash, rows: RowSchema, d: Document, original: Json)
    requires Valid(d.tables) && Valid(original)
    requires ParseArchive(sha, rows, d).Ok? && HashOf(sha, original).Ok?
    requires EqualSha256(d.manifest.files[0].sha256, HashOf(sha, original).value.sha256)
    ensures Same(d.tables, original)
            || (Canonical(d.tables) != Canonical(original)
                && Lower(sha(Canonical(d.tables))) == Lower(sha(Canonical(original))))
  {
    hide ParseArchive, ParseTables, TablesJson, Canonical, Same, Valid, Lower, Utf8Length, IsSha256, ManifestProblem;
    AcceptedMeans(sha, rows, d);
    var t := ParseTables(rows, d.manifest.schemaVersion, d.tables).value;
    HashIsOfTheInput(sha, rows, d.manifest.schemaVersion, d.tables, t);
    CanonicalIsExact(d.tables, original);
  }
}
