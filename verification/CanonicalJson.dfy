/**
  JSON values, their text, and the canonical form whose digest protects a backup
  (packages/backup/src/json.ts).

  An object is the sequence of its members in the order JavaScript lists them.  A number is the text
  JavaScript prints for it, so two numbers are equal exactly when their texts are.
*/
module CanonicalJson {
  import opened Common

  datatype Json =
    | Null
    | Bool(b: bool)
    | Num(text: string)
    | Str(s: string)
    | Arr(elems: seq<Json>)
    | Obj(members: seq<Member>)

  datatype Member = Member(key: string, value: Json)

  predicate IsNumberChar(c: char) { '0' <= c <= '9' || c == '-' || c == '+' || c == '.' || c == 'e' || c == 'E' }

  /** What a printed number looks like, as far as telling it from its surroundings goes. */
  predicate IsNumberText(s: string) {
    s != "" && ('0' <= s[0] <= '9' || s[0] == '-') && forall c | c in s :: IsNumberChar(c)
  }

  predicate UniqueKeys(ms: seq<Member>) {
    forall i, j | 0 <= i < j < |ms| :: ms[i].key != ms[j].key
  }

  predicate Valid(v: Json) {
    match v
    case Num(text) => IsNumberText(text)
    case Arr(elems) => forall i | 0 <= i < |elems| :: Valid(elems[i])
    case Obj(ms) => UniqueKeys(ms) && forall i | 0 <= i < |ms| :: Valid(ms[i].value)
    case _ => true
  }

  /** The value of an own property. */
  function Lookup(ms: seq<Member>, key: string): Option<Json> {
    if ms == [] then None
    else if ms[|ms| - 1].key == key then Some(ms[|ms| - 1].value)
    else Lookup(ms[..|ms| - 1], key)
  }

  lemma {:induction false} LookupMeaning(ms: seq<Member>, key: string)
    ensures match Lookup(ms, key)
            case Some(v) => exists i :: 0 <= i < |ms| && ms[i] == Member(key, v)
            case None => forall i | 0 <= i < |ms| :: ms[i].key != key
  {
    if ms != [] { LookupMeaning(ms[..|ms| - 1], key); }
  }

  /** Of two runs of members the later one decides. */
  lemma {:induction false} LookupConcat(ms: seq<Member>, ns: seq<Member>, key: string)
    ensures Lookup(ms + ns, key) == if Lookup(ns, key).Some? then Lookup(ns, key) else Lookup(ms, key)
  {
    if ns == [] {
      assert ms + ns == ms;
    } else {
      LookupConcat(ms, ns[..|ns| - 1], key);
      assert (ms + ns)[..|ms + ns| - 1] == ms + ns[..|ns| - 1];
    }
  }

  // ---------------------------------------------------------------- JSON.stringify

  function HexDigit(n: int): char
    requires 0 <= n < 16
  {
    "0123456789abcdef"[n]
  }

  /** Quoting of one character; a string here holds no lone surrogates. */
  function EscapeChar(c: char): string {
    if c == '\"' then "\\\""
    else if c == '\\' then "\\\\"
    else if c == 8 as char then "\\b"
    else if c == 12 as char then "\\f"
    else if c == '\n' then "\\n"
    else if c == '\r' then "\\r"
    else if c == '\t' then "\\t"
    else if c < ' ' then "\\u00" + [HexDigit(c as int / 16), HexDigit(c as int % 16)]
    else [c]
  }

  function Escape(s: string): string {
    if s == "" then "" else EscapeChar(s[0]) + Escape(s[1..])
  }

  function Quote(s: string): string { "\"" + Escape(s) + "\"" }

  function Print(v: Json): string
    decreases v
  {
    match v
    case Null => "null"
    case Bool(b) => if b then "true" else "false"
    case Num(text) => text
    case Str(s) => Quote(s)
    case Arr(elems) => "[" + PrintElems(elems) + "]"
    case Obj(ms) => "{" + PrintMembers(ms) + "}"
  }

  function PrintElems(elems: seq<Json>): string
    decreases elems
  {
    if elems == [] then ""
    else if |elems| == 1 then Print(elems[0])
    else Print(elems[0]) + "," + PrintElems(elems[1..])
  }

  function PrintMembers(ms: seq<Member>): string
    decreases ms
  {
    if ms == [] then ""
    else
      var first := Quote(ms[0].key) + ":" + Print(ms[0].value);
      if |ms| == 1 then first else first + "," + PrintMembers(ms[1..])
  }

  // ---------------------------------------------------------------- printing is injective

  /** Text that may follow a complete value. */
  predicate Closes(rest: string) { rest == "" || rest[0] == ',' || rest[0] == ']' || rest[0] == '}' }

  lemma EscapeCharPrefix(c: char, d: char, r: string, r': string)
    requires EscapeChar(c) + r == EscapeChar(d) + r'
    ensures c == d && r == r'
  {
    var x, y := EscapeChar(c), EscapeChar(d);
    assert (x + r)[0] == x[0] && (y + r')[0] == y[0];
    if |x| >= 2 && |y| >= 2 {
      assert (x + r)[1] == x[1] && (y + r')[1] == y[1];
      if |x| == 6 && |y| == 6 {
        assert (x + r)[4] == x[4] && (y + r')[4] == y[4];
        assert (x + r)[5] == x[5] && (y + r')[5] == y[5];
        HexInjective(c as int, d as int);
      }
    }
    assert |x| == |y|;
    assert r == (x + r)[|x|..] && r' == (y + r')[|y|..];
  }

  lemma HexInjective(a: int, b: int)
    requires 0 <= a < 32 && 0 <= b < 32
    requires HexDigit(a / 16) == HexDigit(b / 16) && HexDigit(a % 16) == HexDigit(b % 16)
    ensures a == b
  {
    var hex := "0123456789abcdef";
    assert forall i, j | 0 <= i < j < 16 :: hex[i] != hex[j];
  }

  lemma Uncons(c: char, x: string, y: string)
    requires [c] + x == [c] + y
    ensures x == y
  {
    assert x == ([c] + x)[1..] && y == ([c] + y)[1..];
  }

  lemma EscapeStart(s: string, r: string)
    ensures var text := Escape(s) + "\"" + r;
            && (s == "" ==> text == "\"" + r)
            && (s != "" ==> text == EscapeChar(s[0]) + (Escape(s[1..]) + "\"" + r) && text[0] != '\"')
  {
    if s != "" {
      assert Escape(s) + "\"" + r == EscapeChar(s[0]) + (Escape(s[1..]) + "\"" + r);
    }
  }

  lemma {:induction false} EscapePrefix(s: string, t: string, r: string, r': string)
    requires Escape(s) + "\"" + r == Escape(t) + "\"" + r'
    ensures s == t && r == r'
  {
    EscapeStart(s, r);
    EscapeStart(t, r');
    hide Escape, EscapeChar;
    assert s == "" <==> t == "";
    if s == "" {
      Uncons('\"', r, r');
    } else {
      EscapeCharPrefix(s[0], t[0], Escape(s[1..]) + "\"" + r, Escape(t[1..]) + "\"" + r');
      EscapePrefix(s[1..], t[1..], r, r');
      assert s == [s[0]] + s[1..] && t == [t[0]] + t[1..];
    }
  }

  lemma QuotePrefix(s: string, t: string, r: string, r': string)
    requires Quote(s) + r == Quote(t) + r'
    ensures s == t && r == r'
  {
    var x, y := Escape(s) + "\"" + r, Escape(t) + "\"" + r';
    assert Quote(s) + r == ['\"'] + x && Quote(t) + r' == ['\"'] + y by { hide Escape; }
    Uncons('\"', x, y);
    EscapePrefix(s, t, r, r');
  }

  lemma NumberPrefix(s: string, t: string, r: string, r': string)
    requires IsNumberText(s) && IsNumberText(t) && Closes(r) && Closes(r') && s + r == t + r'
    ensures s == t && r == r'
  {
    var all := s + r;
    assert all == t + r';
    assert forall k | 0 <= k < |s| :: IsNumberChar(s[k]) && s[k] == all[k];
    assert forall k | 0 <= k < |t| :: IsNumberChar(t[k]) && t[k] == all[k];
    assert |s| < |all| ==> !IsNumberChar(all[|s|]);
    assert |t| < |all| ==> !IsNumberChar(all[|t|]);
    assert s == all[..|s|] && t == all[..|t|] && r == all[|s|..] && r' == all[|t|..];
  }

  /** The first character tells which kind of value follows. */
  function Kind(v: Json): int {
    match v
    case Null => 0
    case Bool(b) => if b then 1 else 2
    case Num(_) => 3
    case Str(_) => 4
    case Arr(_) => 5
    case Obj(_) => 6
  }

  function KindOf(c: char): int {
    if c == 'n' then 0 else if c == 't' then 1 else if c == 'f' then 2
    else if '0' <= c <= '9' || c == '-' then 3
    else if c == '\"' then 4 else if c == '[' then 5 else if c == '{' then 6 else 7
  }

  lemma FirstChar(v: Json)
    requires Valid(v)
    ensures Print(v) != "" && KindOf(Print(v)[0]) == Kind(v)
  {
  }

  lemma SameKind(v: Json, w: Json, r: string, r': string)
    requires Valid(v) && Valid(w) && Print(v) + r == Print(w) + r'
    ensures Kind(v) == Kind(w)
  {
    FirstChar(v);
    FirstChar(w);
    hide Print, KindOf, Valid;
    assert (Print(v) + r)[0] == Print(v)[0] && (Print(w) + r')[0] == Print(w)[0];
  }

  lemma ScalarPrefix(v: Json, w: Json, r: string, r': string)
    requires Valid(v) && Valid(w) && Closes(r) && Closes(r') && Print(v) + r == Print(w) + r'
    requires Kind(v) == Kind(w) && !v.Arr? && !v.Obj?
    ensures v == w && r == r'
  {
    hide Quote, IsNumberText, Closes;
    if v.Num? {
      NumberPrefix(v.text, w.text, r, r');
    } else if v.Str? {
      QuotePrefix(v.s, w.s, r, r');
    } else {
      var n := |Print(v)|;
      assert r == (Print(v) + r)[n..] && r' == (Print(w) + r')[n..];
    }
  }

  lemma Brackets(v: Json)
    ensures v.Arr? ==> Print(v) == "[" + PrintElems(v.elems) + "]"
    ensures v.Obj? ==> Print(v) == "{" + PrintMembers(v.members) + "}"
  {
  }

  lemma DropFirst(c: char, x: string, y: string, close: string, r: string, r': string)
    requires [c] + x + close + r == [c] + y + close + r'
    ensures x + close + r == y + close + r'
  {
    assert [c] + x + close + r == [c] + (x + close + r) && [c] + y + close + r' == [c] + (y + close + r');
    Uncons(c, x + close + r, y + close + r');
  }

  lemma OpenArr(xs: seq<Json>, ys: seq<Json>, r: string, r': string)
    requires Print(Arr(xs)) + r == Print(Arr(ys)) + r'
    ensures PrintElems(xs) + "]" + r == PrintElems(ys) + "]" + r'
  {
    hide Print, PrintElems;
    Brackets(Arr(xs));
    Brackets(Arr(ys));
    DropFirst('[', PrintElems(xs), PrintElems(ys), "]", r, r');
  }

  lemma OpenObj(xs: seq<Member>, ys: seq<Member>, r: string, r': string)
    requires Print(Obj(xs)) + r == Print(Obj(ys)) + r'
    ensures PrintMembers(xs) + "}" + r == PrintMembers(ys) + "}" + r'
  {
    hide Print, PrintMembers;
    Brackets(Obj(xs));
    Brackets(Obj(ys));
    DropFirst('{', PrintMembers(xs), PrintMembers(ys), "}", r, r');
  }

  lemma {:induction false} PrintPrefix(v: Json, w: Json, r: string, r': string)
    requires Valid(v) && Valid(w) && Closes(r) && Closes(r') && Print(v) + r == Print(w) + r'
    ensures v == w && r == r'
    decreases v
  {
    hide Print, PrintElems, PrintMembers, Closes;
    SameKind(v, w, r, r');
    if v.Arr? {
      OpenArr(v.elems, w.elems, r, r');
      ElemsPrefix(v.elems, w.elems, r, r');
    } else if v.Obj? {
      OpenObj(v.members, w.members, r, r');
      MembersPrefix(v.members, w.members, r, r');
    } else {
      ScalarPrefix(v, w, r, r');
    }
  }

  /** What follows the first element of a list that closes with `end`. */
  function AfterElem(elems: seq<Json>, r: string): string
    requires elems != []
  {
    if |elems| == 1 then "]" + r else "," + (PrintElems(elems[1..]) + "]" + r)
  }

  lemma SplitElems(elems: seq<Json>, r: string)
    requires elems != []
    ensures PrintElems(elems) + "]" + r == Print(elems[0]) + AfterElem(elems, r)
  {
    hide Print;
    if |elems| > 1 {
      assert PrintElems(elems) == Print(elems[0]) + "," + PrintElems(elems[1..]);
    }
  }

  lemma ElemsStart(elems: seq<Json>, r: string)
    requires forall i | 0 <= i < |elems| :: Valid(elems[i])
    ensures var text := PrintElems(elems) + "]" + r;
            && (elems == [] ==> text == [']'] + r)
            && (elems != [] ==> text[0] != ']' && text == Print(elems[0]) + AfterElem(elems, r))
  {
    if elems != [] {
      FirstChar(elems[0]);
      SplitElems(elems, r);
    }
  }

  lemma {:induction false} ElemsPrefix(xs: seq<Json>, ys: seq<Json>, r: string, r': string)
    requires (forall i | 0 <= i < |xs| :: Valid(xs[i])) && (forall i | 0 <= i < |ys| :: Valid(ys[i]))
    requires PrintElems(xs) + "]" + r == PrintElems(ys) + "]" + r'
    ensures xs == ys && r == r'
    decreases xs
  {
    ElemsStart(xs, r);
    ElemsStart(ys, r');
    hide Print, PrintElems, Valid;
    assert xs == [] <==> ys == [];
    if xs == [] {
      Uncons(']', r, r');
    } else {
      var a, b := AfterElem(xs, r), AfterElem(ys, r');
      PrintPrefix(xs[0], ys[0], a, b);
      assert a[0] == if |xs| == 1 then ']' else ',';
      assert b[0] == if |ys| == 1 then ']' else ',';
      if |xs| == 1 {
        Uncons(']', r, r');
      } else {
        Uncons(',', PrintElems(xs[1..]) + "]" + r, PrintElems(ys[1..]) + "]" + r');
        ElemsPrefix(xs[1..], ys[1..], r, r');
      }
      assert xs == [xs[0]] + xs[1..] && ys == [ys[0]] + ys[1..];
    }
  }

  function AfterMember(ms: seq<Member>, r: string): string
    requires ms != []
  {
    if |ms| == 1 then "}" + r else "," + (PrintMembers(ms[1..]) + "}" + r)
  }

  lemma SplitMembers(ms: seq<Member>, r: string)
    requires ms != []
    ensures PrintMembers(ms) + "}" + r == Quote(ms[0].key) + (":" + (Print(ms[0].value) + AfterMember(ms, r)))
  {
    hide *;
    PrintMembersFrom(ms);
    AfterMemberFrom(ms, r);
    Regroup(Quote(ms[0].key), Print(ms[0].value), RestOfMembers(ms), "}", r);
  }

  function RestOfMembers(ms: seq<Member>): string
    requires ms != []
  {
    if |ms| == 1 then "" else "," + PrintMembers(ms[1..])
  }

  lemma AfterMemberFrom(ms: seq<Member>, r: string)
    requires ms != []
    ensures RestOfMembers(ms) + "}" + r == AfterMember(ms, r)
  {
    hide PrintMembers;
    assert "" + "}" == "}";
  }

  lemma PrintMembersFrom(ms: seq<Member>)
    requires ms != []
    ensures PrintMembers(ms)
            == Quote(ms[0].key) + ":" + Print(ms[0].value) + RestOfMembers(ms)
  {
    hide Print, Quote;
    var first := Quote(ms[0].key) + ":" + Print(ms[0].value);
    assert first + "" == first;
  }

  lemma Regroup(key: string, value: string, rest: string, close: string, r: string)
    ensures key + ":" + value + rest + close + r == key + (":" + (value + (rest + close + r)))
  {
  }

  lemma MembersStart(ms: seq<Member>, r: string)
    ensures var text := PrintMembers(ms) + "}" + r;
            && (ms == [] ==> text == ['}'] + r)
            && (ms != [] ==> text[0] != '}')
            && (ms != [] ==> text == Quote(ms[0].key) + (":" + (Print(ms[0].value) + AfterMember(ms, r))))
  {
    if ms != [] { SplitMembers(ms, r); }
  }

  lemma {:induction false} MembersPrefix(xs: seq<Member>, ys: seq<Member>, r: string, r': string)
    requires (forall i | 0 <= i < |xs| :: Valid(xs[i].value)) && (forall i | 0 <= i < |ys| :: Valid(ys[i].value))
    requires PrintMembers(xs) + "}" + r == PrintMembers(ys) + "}" + r'
    ensures xs == ys && r == r'
    decreases xs
  {
    MembersStart(xs, r);
    MembersStart(ys, r');
    hide Print, PrintMembers, Valid, Quote;
    assert xs == [] <==> ys == [];
    if xs == [] {
      Uncons('}', r, r');
    } else {
      var a, b := AfterMember(xs, r), AfterMember(ys, r');
      var p, q := Print(xs[0].value) + a, Print(ys[0].value) + b;
      QuotePrefix(xs[0].key, ys[0].key, ":" + p, ":" + q);
      Uncons(':', p, q);
      PrintPrefix(xs[0].value, ys[0].value, a, b);
      assert a[0] == if |xs| == 1 then '}' else ',';
      assert b[0] == if |ys| == 1 then '}' else ',';
      if |xs| == 1 {
        Uncons('}', r, r');
      } else {
        Uncons(',', PrintMembers(xs[1..]) + "}" + r, PrintMembers(ys[1..]) + "}" + r');
        MembersPrefix(xs[1..], ys[1..], r, r');
      }
      assert xs == [xs[0]] + xs[1..] && ys == [ys[0]] + ys[1..];
    }
  }

  /** Two values with the same text are the same value, down to the order of keys. */
  lemma PrintInjective(v: Json, w: Json)
    requires Valid(v) && Valid(w) && Print(v) == Print(w)
    ensures v == w
  {
    assert Print(v) + "" == Print(w) + "";
    PrintPrefix(v, w, "", "");
  }

  // ---------------------------------------------------------------- the order of keys

  /** Orders characters as their UTF-16 code units: an astral character starts with a surrogate. */
  function Rank(c: char): int {
    if 0xE000 <= c as int < 0x10000 then c as int + 0x110000 else c as int
  }

  predicate LexLess(a: string, b: string) {
    b != "" && (a == "" || Rank(a[0]) < Rank(b[0]) || (a[0] == b[0] && LexLess(a[1..], b[1..])))
  }

  /** A canonical decimal below 2^32 - 1: JavaScript lists such keys first, in numeric order. */
  predicate IsArrayIndex(k: string) {
    && k != "" && (forall c | c in k :: '0' <= c <= '9')
    && (k == "0" || k[0] != '0')
    && (|k| < 10 || (|k| == 10 && !LexLess("4294967294", k)))
  }

  /** The order in which an object built from sorted entries lists its keys. */
  predicate KeyLess(a: string, b: string) {
    if IsArrayIndex(a) then !IsArrayIndex(b) || |a| < |b| || (|a| == |b| && LexLess(a, b))
    else !IsArrayIndex(b) && LexLess(a, b)
  }

  lemma {:induction false} LexTotal(a: string, b: string)
    ensures a != b ==> LexLess(a, b) || LexLess(b, a)
    ensures !(LexLess(a, b) && LexLess(b, a)) && !LexLess(a, a)
  {
    if a != "" && b != "" {
      LexTotal(a[1..], b[1..]);
      assert a == [a[0]] + a[1..] && b == [b[0]] + b[1..];
    } else if a != "" {
      LexTotal(a[1..], a[1..]);
    }
  }

  lemma {:induction false} LexTransitive(a: string, b: string, c: string)
    requires LexLess(a, b) && LexLess(b, c)
    ensures LexLess(a, c)
  {
    if a != "" && a[0] == b[0] == c[0] {
      LexTransitive(a[1..], b[1..], c[1..]);
    }
  }

  lemma KeysTotal(a: string, b: string)
    ensures a != b ==> KeyLess(a, b) || KeyLess(b, a)
    ensures !(KeyLess(a, b) && KeyLess(b, a)) && !KeyLess(a, a)
  {
    LexTotal(a, b);
    hide LexLess, IsArrayIndex;
  }

  lemma KeysTransitive(a: string, b: string, c: string)
    requires KeyLess(a, b) && KeyLess(b, c)
    ensures KeyLess(a, c)
  {
    if LexLess(a, b) && LexLess(b, c) { LexTransitive(a, b, c); }
    hide LexLess, IsArrayIndex;
  }

  // ---------------------------------------------------------------- sortDeep

  function Insert(m: Member, ms: seq<Member>): seq<Member> {
    if ms == [] then [m]
    else if KeyLess(m.key, ms[0].key) then [m] + ms
    else [ms[0]] + Insert(m, ms[1..])
  }

  function SortMembers(ms: seq<Member>): seq<Member> {
    if ms == [] then [] else Insert(ms[0], SortMembers(ms[1..]))
  }

  function SortDeep(v: Json): Json
    decreases v
  {
    match v
    case Arr(elems) => Arr(seq(|elems|, i requires 0 <= i < |elems| => SortDeep(elems[i])))
    case Obj(ms) => Obj(SortMembers(SortValues(ms)))
    case _ => v
  }

  function SortValues(ms: seq<Member>): (r: seq<Member>)
    ensures |r| == |ms|
    ensures forall i | 0 <= i < |ms| :: r[i] == Member(ms[i].key, SortDeep(ms[i].value))
    decreases ms
  {
    if ms == [] then [] else [Member(ms[0].key, SortDeep(ms[0].value))] + SortValues(ms[1..])
  }

  function Canonical(v: Json): string { Print(SortDeep(v)) }

  /** Equal up to the order of keys, at every depth. */
  ghost predicate Same(a: Json, b: Json)
    decreases a
  {
    match a
    case Arr(xs) => b.Arr? && |xs| == |b.elems| && forall i | 0 <= i < |xs| :: Same(xs[i], b.elems[i])
    case Obj(ms) => b.Obj? && SameMembers(ms, b.members)
    case _ => a == b
  }

  ghost predicate SameMembers(ms: seq<Member>, ns: seq<Member>)
    decreases ms, 1
  {
    && (forall i | 0 <= i < |ms| :: HasTwin(ms[i], ns))
    && (forall j | 0 <= j < |ns| :: IsTwin(ms, ns[j]))
  }

  ghost predicate HasTwin(m: Member, ns: seq<Member>)
    decreases m, 1
  {
    exists j :: 0 <= j < |ns| && Twins(m, ns[j])
  }

  ghost predicate IsTwin(ms: seq<Member>, n: Member)
    decreases ms, 0
  {
    exists i :: 0 <= i < |ms| && Twins(ms[i], n)
  }

  ghost predicate Twins(m: Member, n: Member)
    decreases m, 0
  {
    m.key == n.key && Same(m.value, n.value)
  }

  // ---------------------------------------------------------------- sorting is canonical

  predicate Sorted(ms: seq<Member>) {
    forall i, j | 0 <= i < j < |ms| :: KeyLess(ms[i].key, ms[j].key)
  }

  predicate SameElements(xs: seq<Member>, ys: seq<Member>) {
    (forall m | m in xs :: m in ys) && (forall m | m in ys :: m in xs)
  }

  lemma {:induction false} InsertMeaning(m: Member, ms: seq<Member>)
    requires Sorted(ms) && forall i | 0 <= i < |ms| :: ms[i].key != m.key
    ensures Sorted(Insert(m, ms)) && SameElements(Insert(m, ms), [m] + ms)
  {
    hide KeyLess;
    if ms != [] {
      KeysTotal(m.key, ms[0].key);
      if KeyLess(m.key, ms[0].key) {
        forall j | 0 <= j < |ms|
          ensures KeyLess(m.key, ms[j].key)
        {
          if j > 0 { KeysTransitive(m.key, ms[0].key, ms[j].key); }
        }
      } else {
        InsertMeaning(m, ms[1..]);
        var rest := Insert(m, ms[1..]);
        assert ms == [ms[0]] + ms[1..];
        forall j | 0 <= j < |rest|
          ensures KeyLess(ms[0].key, rest[j].key)
        {
          assert rest[j] in [m] + ms[1..];
        }
      }
    }
  }

  lemma {:induction false} SortMembersMeaning(ms: seq<Member>)
    requires UniqueKeys(ms)
    ensures Sorted(SortMembers(ms)) && SameElements(SortMembers(ms), ms)
  {
    if ms != [] {
      var rest := SortMembers(ms[1..]);
      SortMembersMeaning(ms[1..]);
      hide Sorted, Insert;
      assert ms == [ms[0]] + ms[1..];
      forall i | 0 <= i < |rest|
        ensures rest[i].key != ms[0].key
      {
        assert rest[i] in ms[1..];
      }
      InsertMeaning(ms[0], rest);
    }
  }

  /** Only one sequence of members is sorted and holds given elements. */
  lemma {:induction false} SortedIsUnique(xs: seq<Member>, ys: seq<Member>)
    requires Sorted(xs) && Sorted(ys) && SameElements(xs, ys)
    ensures xs == ys
  {
    hide KeyLess;
    assert (xs != [] ==> xs[0] in ys) && (ys != [] ==> ys[0] in xs);
    if xs != [] && ys != [] {
      var x, y := xs[0], ys[0];
      assert x in ys && y in xs;
      KeysTotal(x.key, y.key);
      assert x == y;
      SameTails(xs, ys);
      SortedIsUnique(xs[1..], ys[1..]);
      assert xs == [x] + xs[1..] && ys == [y] + ys[1..];
    }
  }

  lemma SameTails(xs: seq<Member>, ys: seq<Member>)
    requires Sorted(xs) && Sorted(ys) && SameElements(xs, ys) && xs != [] && ys != [] && xs[0] == ys[0]
    ensures SameElements(xs[1..], ys[1..])
  {
    KeysTotal(xs[0].key, xs[0].key);
    hide KeyLess;
    assert xs[0] !in xs[1..] && ys[0] !in ys[1..];
    forall m | m in xs[1..]
      ensures m in ys[1..]
    {
      assert m in xs && m in ys;
    }
    forall m | m in ys[1..]
      ensures m in xs[1..]
    {
      assert m in ys && m in xs;
    }
  }

  lemma SameObjects(ms: seq<Member>, ns: seq<Member>)
    requires SameMembers(ms, ns)
    ensures Same(Obj(ms), Obj(ns))
  {
  }

  lemma {:induction false} SameIsReflexive(v: Json)
    ensures Same(v, v)
    decreases v
  {
    match v {
      case Arr(xs) =>
        forall i | 0 <= i < |xs|
          ensures Same(xs[i], xs[i])
        {
          SameIsReflexive(xs[i]);
        }
      case Obj(ms) =>
        forall i | 0 <= i < |ms|
          ensures Twins(ms[i], ms[i])
        {
          SameIsReflexive(ms[i].value);
        }
        ElementsTwin(ms, ms, ms, ms);
      case _ =>
    }
  }

  /** Values that differ only in the order of keys have the same sorted form. */
  lemma {:induction false} SameSortsEqual(a: Json, b: Json)
    requires Valid(a) && Valid(b) && Same(a, b)
    ensures SortDeep(a) == SortDeep(b)
    decreases a
  {
    match a {
      case Arr(xs) =>
        var ys := b.elems;
        forall i | 0 <= i < |xs|
          ensures SortDeep(xs[i]) == SortDeep(ys[i])
        {
          SameSortsEqual(xs[i], ys[i]);
        }
        assert SortDeep(a).elems == SortDeep(b).elems;
      case Obj(ms) =>
        var ns := b.members;
        forall i, j | 0 <= i < |ms| && 0 <= j < |ns| && Twins(ms[i], ns[j])
          ensures SortDeep(ms[i].value) == SortDeep(ns[j].value)
        {
          SameSortsEqual(ms[i].value, ns[j].value);
        }
        assert SortMembers(SortValues(ms)) == SortMembers(SortValues(ns)) by {
          hide Valid, SortMembers, SortValues, SortDeep;
          SameSorted(ms, ns);
        }
      case _ =>
    }
  }

  /** Members paired with images that agree on twins have the same images. */
  lemma TwinElements(ms: seq<Member>, ns: seq<Member>, xs: seq<Member>, ys: seq<Member>)
    requires |xs| == |ms| && |ys| == |ns| && SameMembers(ms, ns)
    requires forall i, j | 0 <= i < |ms| && 0 <= j < |ns| && Twins(ms[i], ns[j]) :: xs[i] == ys[j]
    ensures SameElements(xs, ys)
  {
    hide Twins;
    forall m | m in xs
      ensures m in ys
    {
      var i :| 0 <= i < |xs| && xs[i] == m;
      assert HasTwin(ms[i], ns);
      var j :| 0 <= j < |ns| && Twins(ms[i], ns[j]);
      assert ys[j] == m;
    }
    forall m | m in ys
      ensures m in xs
    {
      var j :| 0 <= j < |ys| && ys[j] == m;
      assert IsTwin(ms, ns[j]);
      var i :| 0 <= i < |ms| && Twins(ms[i], ns[j]);
      assert xs[i] == m;
    }
  }

  lemma ElementsTwin(ms: seq<Member>, ns: seq<Member>, xs: seq<Member>, ys: seq<Member>)
    requires |xs| == |ms| && |ys| == |ns| && SameElements(xs, ys)
    requires forall i, j | 0 <= i < |ms| && 0 <= j < |ns| && xs[i] == ys[j] :: Twins(ms[i], ns[j])
    ensures SameMembers(ms, ns)
  {
    hide Twins;
    forall i | 0 <= i < |ms|
      ensures HasTwin(ms[i], ns)
    {
      assert xs[i] in ys;
      var j :| 0 <= j < |ys| && ys[j] == xs[i];
      assert Twins(ms[i], ns[j]);
    }
    forall j | 0 <= j < |ns|
      ensures IsTwin(ms, ns[j])
    {
      assert ys[j] in xs;
      var i :| 0 <= i < |xs| && xs[i] == ys[j];
      assert Twins(ms[i], ns[j]);
    }
    hide HasTwin, IsTwin, SameElements;
  }

  lemma SameSorted(ms: seq<Member>, ns: seq<Member>)
    requires UniqueKeys(ms) && UniqueKeys(ns) && SameMembers(ms, ns)
    requires forall i, j | 0 <= i < |ms| && 0 <= j < |ns| && Twins(ms[i], ns[j]) ::
               SortDeep(ms[i].value) == SortDeep(ns[j].value)
    ensures SortMembers(SortValues(ms)) == SortMembers(SortValues(ns))
  {
    hide SortDeep, SortValues, Same, SortMembers, Sorted, SameMembers, SameElements;
    var xs, ys := SortValues(ms), SortValues(ns);
    TwinElements(ms, ns, xs, ys);
    hide Twins;
    SortMembersMeaning(xs);
    SortMembersMeaning(ys);
    SameElementsCompose(SortMembers(xs), xs, ys, SortMembers(ys));
    SortedIsUnique(SortMembers(xs), SortMembers(ys));
  }

  lemma SameElementsCompose(a: seq<Member>, b: seq<Member>, c: seq<Member>, d: seq<Member>)
    requires SameElements(a, b) && SameElements(b, c) && SameElements(d, c)
    ensures SameElements(a, d)
  {
  }

  /** Values with the same sorted form differ only in the order of keys. */
  lemma {:induction false} EqualSortsSame(a: Json, b: Json)
    requires Valid(a) && Valid(b) && SortDeep(a) == SortDeep(b)
    ensures Same(a, b)
    decreases a
  {
    match a {
      case Arr(xs) =>
        var ys := b.elems;
        assert |SortDeep(a).elems| == |xs| && |SortDeep(b).elems| == |ys|;
        forall i | 0 <= i < |xs|
          ensures Same(xs[i], ys[i])
        {
          assert SortDeep(a).elems[i] == SortDeep(xs[i]) && SortDeep(b).elems[i] == SortDeep(ys[i]);
          EqualSortsSame(xs[i], ys[i]);
        }
      case Obj(ms) =>
        var ns := b.members;
        forall i, j | 0 <= i < |ms| && 0 <= j < |ns| && ms[i].key == ns[j].key
                      && SortDeep(ms[i].value) == SortDeep(ns[j].value)
          ensures Twins(ms[i], ns[j])
        {
          EqualSortsSame(ms[i].value, ns[j].value);
        }
        assert SameMembers(ms, ns) by {
          hide Valid, SortMembers, SortValues, SortDeep, Same;
          SortedSame(ms, ns);
        }
      case _ =>
    }
  }

  lemma SortedSame(ms: seq<Member>, ns: seq<Member>)
    requires UniqueKeys(ms) && UniqueKeys(ns) && SortMembers(SortValues(ms)) == SortMembers(SortValues(ns))
    requires forall i, j | 0 <= i < |ms| && 0 <= j < |ns| && ms[i].key == ns[j].key
                           && SortDeep(ms[i].value) == SortDeep(ns[j].value) ::
               Twins(ms[i], ns[j])
    ensures SameMembers(ms, ns)
  {
    hide SortDeep, SortValues, SortMembers, Sorted, Twins, SameMembers, SameElements;
    var xs, ys := SortValues(ms), SortValues(ns);
    SortMembersMeaning(xs);
    SortMembersMeaning(ys);
    SameElementsOfOne(xs, ys, SortMembers(xs));
    ElementsTwin(ms, ns, xs, ys);
  }

  lemma SameElementsOfOne(a: seq<Member>, b: seq<Member>, c: seq<Member>)
    requires SameElements(c, a) && SameElements(c, b)
    ensures SameElements(a, b)
  {
  }

  /** Sorting changes nothing but the order of keys, and its result is a JSON value again. */
  lemma {:induction false} SortingIsSame(v: Json)
    requires Valid(v)
    ensures Same(SortDeep(v), v) && Valid(SortDeep(v))
    decreases v
  {
    match v {
      case Arr(xs) =>
        forall i | 0 <= i < |xs|
          ensures Same(SortDeep(xs[i]), xs[i]) && Valid(SortDeep(xs[i]))
        {
          SortingIsSame(xs[i]);
        }
      case Obj(ms) =>
        forall i | 0 <= i < |ms|
          ensures Twins(Member(ms[i].key, SortDeep(ms[i].value)), ms[i]) && Valid(SortDeep(ms[i].value))
        {
          SortingIsSame(ms[i].value);
        }
        assert SameMembers(SortMembers(SortValues(ms)), ms) && Valid(Obj(SortMembers(SortValues(ms)))) by {
          hide SortMembers, SortValues, SortDeep, Same;
          SortingMembersIsSame(ms);
        }
      case _ =>
    }
  }

  lemma SortedIsUniqueKeys(ms: seq<Member>)
    requires Sorted(ms)
    ensures UniqueKeys(ms)
  {
    hide KeyLess;
    forall i, j | 0 <= i < j < |ms|
      ensures ms[i].key != ms[j].key
    {
      KeysTotal(ms[i].key, ms[j].key);
    }
  }

  lemma SortingMembersIsSame(ms: seq<Member>)
    requires UniqueKeys(ms)
    requires forall i | 0 <= i < |ms| ::
               Twins(Member(ms[i].key, SortDeep(ms[i].value)), ms[i]) && Valid(SortDeep(ms[i].value))
    ensures var sorted := SortMembers(SortValues(ms)); SameMembers(sorted, ms) && Valid(Obj(sorted))
  {
    hide SortDeep, SortValues, SortMembers, Sorted, KeyLess, Twins, SameMembers;
    var xs := SortValues(ms);
    var sorted := SortMembers(xs);
    SortMembersMeaning(xs);
    SortedIsUniqueKeys(sorted);
    assert forall j | 0 <= j < |xs| :: Twins(xs[j], ms[j]) && Valid(xs[j].value);
    ElementsTwin(sorted, ms, sorted, xs);
    forall i | 0 <= i < |sorted|
      ensures Valid(sorted[i].value)
    {
      assert sorted[i] in xs;
      var j :| 0 <= j < |xs| && xs[j] == sorted[i];
    }
  }

  // ---------------------------------------------------------------- main results

  /** The canonical text identifies a value exactly up to the order of its keys. */
  lemma CanonicalIsExact(a: Json, b: Json)
    requires Valid(a) && Valid(b)
    ensures Canonical(a) == Canonical(b) <==> Same(a, b)
  {
    SortingIsSame(a);
    SortingIsSame(b);
    hide Print, SortDeep, Same, Valid;
    if Canonical(a) == Canonical(b) {
      PrintInjective(SortDeep(a), SortDeep(b));
      EqualSortsSame(a, b);
    }
    if Same(a, b) { SameSortsEqual(a, b); }
  }

  /** Sorting twice is sorting once, so the canonical text of a canonical value is its plain text. */
  lemma SortingIsIdempotent(v: Json)
    requires Valid(v)
    ensures SortDeep(SortDeep(v)) == SortDeep(v) && Canonical(SortDeep(v)) == Print(SortDeep(v))
  {
    SortingIsSame(v);
    SameSortsEqual(SortDeep(v), v);
  }

  /** `JSON.parse`, on the texts that `JSON.stringify` prints. */
  ghost function ParseText(text: string): Option<Json> {
    if exists v :: Valid(v) && Print(v) == text then
      var v :| Valid(v) && Print(v) == text; Some(v)
    else None
  }

  lemma ParseInvertsPrint(v: Json)
    requires Valid(v)
    ensures ParseText(Print(v)) == Some(v)
  {
    var w := ParseText(Print(v)).value;
    PrintInjective(v, w);
  }
}
