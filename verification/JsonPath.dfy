/**
  The path language of custom API values (packages/custom-api/src/json-path.ts): the cursor parser,
  the text a path renders to, and the lookup along a path.
*/
module JsonPath {
  import opened Common
  import opened Numerals
  import opened CanonicalJson

  datatype Segment = Key(name: string) | Index(index: nat)

  datatype Error = Misconfigured

  const MAX_LENGTH := 128
  const MAX_DEPTH := 8

  // ---------------------------------------------------------------- characters

  predicate IsKeyChar(c: char) {
    'A' <= c <= 'Z' || 'a' <= c <= 'z' || '0' <= c <= '9' || c == '_' || c == '-'
  }

  /** Keys that could reach an object's prototype; a key has ASCII letters only. */
  predicate IsForbiddenKey(name: string) {
    Lower(name) == "__proto__" || Lower(name) == "prototype" || Lower(name) == "constructor"
  }

  predicate IsControl(c: char) { c as int < 0x20 || c as int == 0x7F }

  predicate IsSpaceOrQuote(c: char) { IsSpace(c) || c == '\'' || c == '\"' || c == '`' }

  predicate HasTwoDots(path: string) { exists i | 0 <= i < |path| - 1 :: path[i] == '.' && path[i + 1] == '.' }

  /** The checks that run before the parser looks at the path. */
  predicate PassesFirstChecks(path: string) {
    && 1 <= |path| <= MAX_LENGTH
    && (forall i | 0 <= i < |path| ::
          !IsControl(path[i]) && !IsSpaceOrQuote(path[i]) && path[i] != '*' && path[i] != '$' && path[i] != '?')
    && !HasTwoDots(path)
  }

  // ---------------------------------------------------------------- rendering

  function RenderSegment(s: Segment): string {
    match s
    case Key(name) => "." + name
    case Index(n) => "[" + Decimal(n) + "]"
  }

  function RenderRest(segments: seq<Segment>): string {
    if segments == [] then "" else RenderSegment(segments[0]) + RenderRest(segments[1..])
  }

  /** Only a key at the very front goes without its dot. */
  function Render(segments: seq<Segment>): string {
    if segments != [] && segments[0].Key? then segments[0].name + RenderRest(segments[1..]) else RenderRest(segments)
  }

  predicate ValidKey(name: string) {
    1 <= |name| <= 64 && (forall i | 0 <= i < |name| :: IsKeyChar(name[i])) && !IsForbiddenKey(name)
  }

  predicate ValidSegment(s: Segment) {
    match s
    case Key(name) => ValidKey(name)
    case Index(n) => n <= 999
  }

  predicate ValidPath(segments: seq<Segment>) {
    && 1 <= |segments| <= MAX_DEPTH
    && (forall i | 0 <= i < |segments| :: ValidSegment(segments[i]))
    && |Render(segments)| <= MAX_LENGTH
  }

  // ---------------------------------------------------------------- the parser as a function

  function KeyEnd(path: string, i: nat): (end: nat)
    requires i <= |path|
    ensures i <= end <= |path| && (end < |path| ==> !IsKeyChar(path[end]))
    ensures forall k | i <= k < end :: IsKeyChar(path[k])
    decreases |path| - i
  {
    if i < |path| && IsKeyChar(path[i]) then KeyEnd(path, i + 1) else i
  }

  function DigitsEnd(path: string, i: nat): (end: nat)
    requires i <= |path|
    ensures i <= end <= |path| && (end < |path| ==> !IsDigit(path[end]))
    ensures forall k | i <= k < end :: IsDigit(path[k])
    decreases |path| - i
  {
    if i < |path| && IsDigit(path[i]) then DigitsEnd(path, i + 1) else i
  }

  datatype Read = Read(segment: Segment, next: nat)

  function ReadKey(path: string, i: nat): (r: Option<Read>)
    requires i <= |path|
    ensures r.Some? ==> i < r.value.next <= |path|
  {
    var end := KeyEnd(path, i);
    var name := path[i..end];
    if 1 <= |name| <= 64 && !IsForbiddenKey(name) then Some(Read(Key(name), end)) else None
  }

  function ReadIndex(path: string, i: nat): (r: Option<Read>)
    requires i <= |path|
    ensures r.Some? ==> i < r.value.next <= |path|
  {
    if i == |path| || path[i] != '[' then None
    else
      var end := DigitsEnd(path, i + 1);
      var digits := path[i + 1..end];
      if |digits| == 0 || (|digits| > 1 && digits[0] == '0') || end == |path| || path[end] != ']' || Digits(digits) > 999
         || Digits(digits) < 0
      then None
      else Some(Read(Index(Digits(digits)), end + 1))
  }

  function ReadNext(path: string, i: nat): (r: Option<Read>)
    requires i < |path|
    ensures r.Some? ==> i < r.value.next <= |path|
  {
    if path[i] == '.' then (if i + 1 < |path| then ReadKey(path, i + 1) else None)
    else if path[i] == '[' then ReadIndex(path, i)
    else None
  }

  function Prepend(before: seq<Segment>, rest: Option<seq<Segment>>): Option<seq<Segment>> {
    if rest.Some? then Some(before + rest.value) else None
  }

  function ParseRest(path: string, i: nat): Option<seq<Segment>>
    requires i <= |path|
    decreases |path| - i
  {
    if i == |path| then Some([])
    else
      match ReadNext(path, i)
      case None => None
      case Some(r) => Prepend([r.segment], ParseRest(path, r.next))
  }

  function ReadFirst(path: string): (r: Option<Read>)
    requires path != ""
    ensures r.Some? ==> 0 < r.value.next <= |path|
  {
    if path[0] == '.' || path[0] == ']' then None
    else if path[0] == '[' then ReadIndex(path, 0)
    else ReadKey(path, 0)
  }

  function Parse(path: string): Result<seq<Segment>, Error> {
    if !PassesFirstChecks(path) then Err(Misconfigured)
    else
      match ReadFirst(path)
      case None => Err(Misconfigured)
      case Some(r) =>
        match Prepend([r.segment], ParseRest(path, r.next))
        case None => Err(Misconfigured)
        case Some(segments) => if |segments| > MAX_DEPTH then Err(Misconfigured) else Ok(segments)
  }

  // ---------------------------------------------------------------- the parser as it runs

  method ScanKey(path: string, index: nat) returns (end: nat)
    requires index <= |path|
    ensures end == KeyEnd(path, index)
  {
    end := index;
    while end < |path| && IsKeyChar(path[end])
      invariant index <= end <= |path| && KeyEnd(path, index) == KeyEnd(path, end)
    {
      end := end + 1;
    }
  }

  method ScanDigits(path: string, index: nat) returns (end: nat)
    requires index <= |path|
    ensures end == DigitsEnd(path, index)
  {
    end := index;
    while end < |path| && IsDigit(path[end])
      invariant index <= end <= |path| && DigitsEnd(path, index) == DigitsEnd(path, end)
    {
      end := end + 1;
    }
  }

  method ReadKeyAt(path: string, index: nat) returns (r: Option<Read>)
    requires index <= |path|
    ensures r == ReadKey(path, index)
  {
    var end := ScanKey(path, index);
    var name := path[index..end];
    if !(1 <= |name| <= 64) { return None; }
    if IsForbiddenKey(name) { return None; }
    return Some(Read(Key(name), end));
  }

  method ReadIndexAt(path: string, start: nat) returns (r: Option<Read>)
    requires start <= |path|
    ensures r == ReadIndex(path, start)
  {
    hide Digits;
    if start == |path| || path[start] != '[' { return None; }
    var index := ScanDigits(path, start + 1);
    var digits := path[start + 1..index];
    if |digits| == 0 || (|digits| > 1 && digits[0] == '0') { return None; }
    if index == |path| || path[index] != ']' { return None; }
    var value := Digits(digits);
    if value < 0 || value > 999 { return None; }
    return Some(Read(Index(value), index + 1));
  }

  lemma PrependMore(before: seq<Segment>, s: Segment, rest: Option<seq<Segment>>)
    ensures Prepend(before, Prepend([s], rest)) == Prepend(before + [s], rest)
  {
    if rest.Some? { assert before + ([s] + rest.value) == before + [s] + rest.value; }
  }

  /** The loop after the first segment. */
  method ParseSegments(path: string, first: Read) returns (r: Option<seq<Segment>>)
    requires 0 < first.next <= |path|
    ensures r == Prepend([first.segment], ParseRest(path, first.next))
  {
    hide ReadKey, ReadIndex, Prepend;
    var segments, index := [first.segment], first.next;
    while index < |path|
      invariant 0 < index <= |path|
      invariant Prepend([first.segment], ParseRest(path, first.next)) == Prepend(segments, ParseRest(path, index))
      decreases |path| - index
    {
      assert Prepend(segments, None) == None by { NothingToPrepend(segments); }
      var next: Option<Read>;
      if path[index] == '.' {
        if index + 1 >= |path| { return None; }
        next := ReadKeyAt(path, index + 1);
      } else if path[index] == '[' {
        next := ReadIndexAt(path, index);
      } else {
        return None;
      }
      assert next == ReadNext(path, index);
      if next.None? { return None; }
      PrependMore(segments, next.value.segment, ParseRest(path, next.value.next));
      segments, index := segments + [next.value.segment], next.value.next;
    }
    assert Prepend(segments, Some([])) == Some(segments) by { AllPrepended(segments); }
    return Some(segments);
  }

  lemma NothingToPrepend(segments: seq<Segment>)
    ensures Prepend(segments, None) == None
  {
  }

  lemma AllPrepended(segments: seq<Segment>)
    ensures Prepend(segments, Some([])) == Some(segments)
  {
    assert segments + [] == segments;
  }

  method ParseJsonPath(path: string) returns (r: Result<seq<Segment>, Error>)
    ensures r == Parse(path)
  {
    if !PassesFirstChecks(path) { return Err(Misconfigured); }
    hide PassesFirstChecks, ReadKey, ReadIndex, ParseRest, Prepend;
    var first: Option<Read>;
    if path[0] == '.' || path[0] == ']' { return Err(Misconfigured); }
    if path[0] == '[' {
      first := ReadIndexAt(path, 0);
    } else {
      first := ReadKeyAt(path, 0);
    }
    if first.None? { return Err(Misconfigured); }
    var segments := ParseSegments(path, first.value);
    if segments.None? || |segments.value| > MAX_DEPTH { return Err(Misconfigured); }
    return Ok(segments.value);
  }

  // ---------------------------------------------------------------- what is accepted was rendered

  lemma KeyRendersBack(path: string, i: nat)
    requires i <= |path| && ReadKey(path, i).Some?
    ensures var r := ReadKey(path, i).value;
            r.segment.Key? && ValidSegment(r.segment) && path[i..r.next] == r.segment.name
  {
    hide IsForbiddenKey, IsKeyChar;
  }

  lemma IndexRendersBack(path: string, i: nat)
    requires i <= |path| && ReadIndex(path, i).Some?
    ensures var r := ReadIndex(path, i).value;
            ValidSegment(r.segment) && path[i..r.next] == RenderSegment(r.segment)
  {
    var r := ReadIndex(path, i).value;
    var digits := path[i + 1..r.next - 1];
    assert AllDigits(digits) by {
      forall k | 0 <= k < |digits|
        ensures IsDigit(digits[k])
      {
        assert digits[k] == path[i + 1 + k];
      }
    }
    DecimalOfDigits(digits);
    hide Digits, Decimal, AllDigits;
    assert path[i..r.next] == "[" + digits + "]";
  }

  lemma NextRendersBack(path: string, i: nat)
    requires i < |path| && ReadNext(path, i).Some?
    ensures var r := ReadNext(path, i).value;
            ValidSegment(r.segment) && path[i..r.next] == RenderSegment(r.segment)
  {
    hide ReadKey, ReadIndex, ValidSegment;
    if path[i] == '.' { KeyRendersBack(path, i + 1); } else { IndexRendersBack(path, i); }
  }

  lemma RenderMore(s: Segment, rest: seq<Segment>)
    ensures RenderRest([s] + rest) == RenderSegment(s) + RenderRest(rest)
  {
    assert ([s] + rest)[1..] == rest;
  }

  lemma {:induction false} RestRendersBack(path: string, i: nat)
    requires i <= |path| && ParseRest(path, i).Some?
    ensures var segments := ParseRest(path, i).value;
            path[i..] == RenderRest(segments) && forall k | 0 <= k < |segments| :: ValidSegment(segments[k])
    decreases |path| - i
  {
    hide ReadNext, ValidSegment, RenderSegment;
    if i < |path| {
      var r := ReadNext(path, i).value;
      RestRendersBack(path, r.next);
      NextRendersBack(path, i);
      var rest := ParseRest(path, r.next).value;
      assert ParseRest(path, i).value == [r.segment] + rest;
      hide ParseRest, RenderRest;
      RenderMore(r.segment, rest);
      assert path[i..] == path[i..r.next] + path[r.next..];
    } else {
      assert path[i..] == "";
    }
  }

  lemma FirstRendersBack(path: string)
    requires path != "" && ReadFirst(path).Some?
    ensures var r := ReadFirst(path).value;
            ValidSegment(r.segment) && path[..r.next] == if r.segment.Key? then r.segment.name else RenderSegment(r.segment)
  {
    if path[0] == '[' { IndexRendersBack(path, 0); } else { KeyRendersBack(path, 0); }
    hide ReadKey, ReadIndex, ValidSegment;
  }

  lemma AcceptedRendersBack(path: string)
    requires Parse(path).Ok?
    ensures ValidPath(Parse(path).value) && Render(Parse(path).value) == path
  {
    hide PassesFirstChecks, ReadFirst, ParseRest, ValidSegment, Render, RenderSegment, RenderRest;
    FirstChecksBound(path);
    var r := ReadFirst(path).value;
    FirstRendersBack(path);
    RestRendersBack(path, r.next);
    var rest := ParseRest(path, r.next).value;
    assert Parse(path).value == [r.segment] + rest;
    hide Parse;
    assert path == path[..r.next] + path[r.next..];
    RenderFirst(r.segment, rest);
  }

  lemma FirstChecksBound(path: string)
    requires PassesFirstChecks(path)
    ensures 1 <= |path| <= MAX_LENGTH
  {
  }

  lemma RenderFirst(first: Segment, rest: seq<Segment>)
    ensures Render([first] + rest) == (if first.Key? then first.name else RenderSegment(first)) + RenderRest(rest)
  {
    assert ([first] + rest)[1..] == rest;
  }

  // ---------------------------------------------------------------- what is rendered is accepted

  /** Where a rendered path may continue after a key: a dot, a bracket, or nothing. */
  predicate Stops(rest: string) { rest == "" || rest[0] == '.' || rest[0] == '[' }

  lemma RestStops(segments: seq<Segment>)
    ensures Stops(RenderRest(segments))
  {
  }

  lemma {:induction false} KeyEndAt(path: string, i: nat, name: string, rest: string)
    requires i <= |path| && path[i..] == name + rest && Stops(rest)
    requires forall k | 0 <= k < |name| :: IsKeyChar(name[k])
    ensures KeyEnd(path, i) == i + |name|
    decreases |name|
  {
    if name == "" {
      if rest != "" { assert path[i] == rest[0]; }
    } else {
      assert path[i] == name[0];
      assert path[i + 1..] == path[i..][1..] == name[1..] + rest;
      KeyEndAt(path, i + 1, name[1..], rest);
    }
  }

  lemma Slice(path: string, i: nat, a: string, b: string)
    requires i <= |path| && path[i..] == a + b
    ensures i + |a| <= |path| && path[i..i + |a|] == a && path[i + |a|..] == b
  {
    assert path[i..i + |a|] == path[i..][..|a|] && path[i + |a|..] == path[i..][|a|..];
  }

  lemma KeyIsRead(path: string, i: nat, name: string, rest: string)
    requires i <= |path| && path[i..] == name + rest && Stops(rest) && ValidKey(name)
    ensures i + |name| <= |path| && ReadKey(path, i) == Some(Read(Key(name), i + |name|)) && path[i + |name|..] == rest
  {
    KeyEndAt(path, i, name, rest);
    hide KeyEnd, IsForbiddenKey, Stops, IsKeyChar;
    Slice(path, i, name, rest);
  }

  lemma {:induction false} DigitsEndAt(path: string, i: nat, digits: string, rest: string)
    requires i <= |path| && path[i..] == digits + rest && rest != "" && rest[0] == ']'
    requires forall k | 0 <= k < |digits| :: IsDigit(digits[k])
    ensures DigitsEnd(path, i) == i + |digits|
    decreases |digits|
  {
    if digits == "" {
      assert path[i] == rest[0];
    } else {
      assert path[i] == digits[0];
      assert path[i + 1..] == path[i..][1..] == digits[1..] + rest;
      DigitsEndAt(path, i + 1, digits[1..], rest);
    }
  }

  lemma BracketSlices(path: string, i: nat, digits: string, rest: string)
    requires i <= |path| && path[i..] == "[" + digits + "]" + rest
    ensures var end := i + 1 + |digits|;
            && end < |path| && path[i] == '[' && path[end] == ']'
            && path[i + 1..] == digits + ("]" + rest) && path[i + 1..end] == digits && path[end + 1..] == rest
  {
    var tail, end := "]" + rest, i + 1 + |digits|;
    assert "[" + digits + "]" + rest == "[" + (digits + tail);
    Slice(path, i, "[", digits + tail);
    Slice(path, i + 1, digits, tail);
    Slice(path, end, "]", rest);
    assert path[i..][0] == path[i] && path[end..][0] == path[end];
  }

  lemma DigitsAreRead(path: string, i: nat, digits: string)
    requires i + 1 + |digits| < |path| && path[i] == '[' && path[i + 1 + |digits|] == ']'
    requires path[i + 1..i + 1 + |digits|] == digits && DigitsEnd(path, i + 1) == i + 1 + |digits|
    requires digits != "" && (|digits| > 1 ==> digits[0] != '0') && 0 <= Digits(digits) <= 999
    ensures ReadIndex(path, i) == Some(Read(Index(Digits(digits)), i + 2 + |digits|))
  {
    hide Digits, DigitsEnd;
  }

  lemma DecimalShape(n: nat)
    ensures (forall k | 0 <= k < |Decimal(n)| :: IsDigit(Decimal(n)[k])) && Digits(Decimal(n)) == n
    ensures |Decimal(n)| > 1 ==> Decimal(n)[0] != '0'
  {
    DigitsOfDecimal(n);
    NoLeadingZero(n);
    hide Decimal, Digits;
    assert forall k | 0 <= k < |Decimal(n)| :: Decimal(n)[k] in Decimal(n);
  }

  lemma IndexIsRead(path: string, i: nat, n: nat, rest: string)
    requires i <= |path| && path[i..] == RenderSegment(Index(n)) + rest && n <= 999
    ensures var end := i + |RenderSegment(Index(n))|;
            end <= |path| && ReadIndex(path, i) == Some(Read(Index(n), end)) && path[end..] == rest
  {
    hide Decimal, Digits, DigitsEnd, ReadIndex, AllDigits;
    DecimalShape(n);
    BracketSlices(path, i, Decimal(n), rest);
    DigitsEndAt(path, i + 1, Decimal(n), "]" + rest);
    DigitsAreRead(path, i, Decimal(n));
  }

  lemma NextIsRead(path: string, i: nat, s: Segment, rest: string)
    requires i <= |path| && path[i..] == RenderSegment(s) + rest && Stops(rest) && ValidSegment(s)
    ensures var end := i + |RenderSegment(s)|;
            i < end <= |path| && ReadNext(path, i) == Some(Read(s, end)) && path[end..] == rest
  {
    hide ReadKey, ReadIndex, Decimal, ValidKey, Stops;
    match s
    case Key(name) =>
      assert path[i..] == "." + (name + rest);
      assert path[i] == '.' && path[i + 1..] == path[i..][1..] == name + rest;
      KeyIsRead(path, i + 1, name, rest);
      assert |name| >= 1 by { KeyNotEmpty(name); }
    case Index(n) =>
      assert path[i] == path[i..][0] == '[';
      IndexIsRead(path, i, n, rest);
  }

  lemma KeyNotEmpty(name: string)
    requires ValidKey(name)
    ensures |name| >= 1 && IsKeyChar(name[0])
  {
  }

  lemma {:induction false} RestIsParsed(path: string, i: nat, segments: seq<Segment>)
    requires i <= |path| && path[i..] == RenderRest(segments) && forall k | 0 <= k < |segments| :: ValidSegment(segments[k])
    ensures ParseRest(path, i) == Some(segments)
    decreases |segments|
  {
    hide ReadNext, ValidSegment, RenderSegment, Stops;
    if segments == [] {
      assert i == |path|;
    } else {
      var s, rest := segments[0], segments[1..];
      RestStops(rest);
      NextIsRead(path, i, s, RenderRest(rest));
      RestIsParsed(path, i + |RenderSegment(s)|, rest);
      assert segments == [s] + rest;
    }
  }

  /** The characters of a rendered path: none of those the first checks look for. */
  predicate IsPathChar(c: char) { IsKeyChar(c) || c == '.' || c == '[' || c == ']' }

  predicate CleanFrom(text: string) {
    (forall i | 0 <= i < |text| :: IsPathChar(text[i])) && !HasTwoDots(text)
  }

  lemma CleanConcat(a: string, b: string)
    requires CleanFrom(a) && CleanFrom(b) && (a != "" ==> a[|a| - 1] != '.')
    ensures CleanFrom(a + b)
  {
    hide IsPathChar;
    var both := a + b;
    forall i | 0 <= i < |both| - 1
      ensures !(both[i] == '.' && both[i + 1] == '.')
    {
      if i + 1 < |a| {
        assert both[i] == a[i] && both[i + 1] == a[i + 1];
      } else if i >= |a| {
        assert both[i] == b[i - |a|] && both[i + 1] == b[i - |a| + 1];
      }
    }
  }

  lemma SegmentClean(s: Segment)
    requires ValidSegment(s)
    ensures var text := RenderSegment(s); CleanFrom(text) && text[|text| - 1] != '.'
    ensures s.Key? ==> CleanFrom(s.name) && s.name != "" && s.name[|s.name| - 1] != '.'
  {
    hide IsForbiddenKey;
    match s
    case Key(name) =>
      var text := "." + name;
      assert forall i | 0 < i < |text| :: text[i] == name[i - 1] && IsKeyChar(text[i]);
    case Index(n) =>
      var digits := Decimal(n);
      assert forall i | 0 <= i < |digits| :: digits[i] in digits;
      hide Decimal;
      var text := "[" + digits + "]";
      assert forall i | 0 < i < |text| - 1 :: text[i] == digits[i - 1];
  }

  lemma {:induction false} RestClean(segments: seq<Segment>)
    requires forall k | 0 <= k < |segments| :: ValidSegment(segments[k])
    ensures CleanFrom(RenderRest(segments))
  {
    hide ValidSegment, RenderSegment;
    if segments != [] {
      SegmentClean(segments[0]);
      RestClean(segments[1..]);
      CleanConcat(RenderSegment(segments[0]), RenderRest(segments[1..]));
    }
  }

  /** The first checks reject nothing that the parser would accept. */
  lemma RenderedPassesFirstChecks(segments: seq<Segment>)
    requires ValidPath(segments)
    ensures PassesFirstChecks(Render(segments)) && CleanFrom(Render(segments))
  {
    hide ValidSegment, RenderSegment, IsKeyChar, HasTwoDots;
    RestClean(segments);
    RestClean(segments[1..]);
    SegmentClean(segments[0]);
    if segments[0].Key? {
      CleanConcat(segments[0].name, RenderRest(segments[1..]));
    }
    var path := Render(segments);
    forall i | 0 <= i < |path|
      ensures !IsControl(path[i]) && !IsSpaceOrQuote(path[i]) && path[i] != '*' && path[i] != '$' && path[i] != '?'
    {
      PathCharIsPlain(path[i]);
    }
    NotEmpty(segments);
  }

  lemma PathCharIsPlain(c: char)
    requires IsPathChar(c)
    ensures !IsControl(c) && !IsSpaceOrQuote(c) && c != '*' && c != '$' && c != '?'
  {
  }

  lemma NotEmpty(segments: seq<Segment>)
    requires ValidPath(segments)
    ensures Render(segments) != ""
  {
    if segments[0].Key? { KeyNotEmpty(segments[0].name); }
    hide Decimal, IsForbiddenKey;
  }

  lemma RenderedIsAccepted(segments: seq<Segment>)
    requires ValidPath(segments)
    ensures Parse(Render(segments)) == Ok(segments)
  {
    RenderedPassesFirstChecks(segments);
    var path, first, rest := Render(segments), segments[0], segments[1..];
    RestStops(rest);
    hide PassesFirstChecks, ReadKey, ReadIndex, ParseRest, IsForbiddenKey, Decimal, Stops, CleanFrom;
    assert path[0..] == path;
    assert ValidSegment(first);
    if first.Key? {
      KeyIsRead(path, 0, first.name, RenderRest(rest));
      KeyNotEmpty(first.name);
    } else {
      IndexIsRead(path, 0, first.index, RenderRest(rest));
    }
    var r := ReadFirst(path).value;
    RestIsParsed(path, r.next, rest);
    assert segments == [first] + rest;
  }

  /** The parser accepts exactly the texts of valid paths, and returns the path it is the text of. */
  lemma ParseIsExact(path: string, segments: seq<Segment>)
    ensures Parse(path) == Ok(segments) <==> ValidPath(segments) && Render(segments) == path
  {
    if Parse(path) == Ok(segments) { AcceptedRendersBack(path); }
    if ValidPath(segments) && Render(segments) == path { RenderedIsAccepted(segments); }
  }

  // ---------------------------------------------------------------- lookup

  /** One step into a value; None is JavaScript's undefined. */
  function Step(v: Json, s: Segment): Option<Json> {
    match s
    case Key(name) => if v.Obj? && !IsForbiddenKey(name) then Lookup(v.members, name) else None
    case Index(n) => if v.Arr? && n < |v.elems| then Some(v.elems[n]) else None
  }

  function At(v: Json, segments: seq<Segment>): Option<Json>
    decreases segments
  {
    if segments == [] then Some(v)
    else
      match Step(v, segments[0])
      case None => None
      case Some(child) => At(child, segments[1..])
  }

  /** The loop over segments follows the path; a path that does not parse leads nowhere. */
  method ExtractJsonPath(payload: Json, path: string) returns (r: Option<Json>)
    ensures Parse(path).Err? ==> r == None
    ensures Parse(path).Ok? ==> r == At(payload, Parse(path).value)
  {
    hide IsForbiddenKey, Parse, Lookup;
    var parsed := ParseJsonPath(path);
    if parsed.Err? { return None; }
    var segments, current := parsed.value, payload;
    var i := 0;
    while i < |segments|
      invariant 0 <= i <= |segments|
      invariant At(payload, segments) == At(current, segments[i..])
    {
      var segment := segments[i];
      assert segments[i..][1..] == segments[i + 1..];
      match segment {
        case Key(name) =>
          if !current.Obj? || IsForbiddenKey(name) { return None; }
          var child := Lookup(current.members, name);
          if child.None? { return None; }
          current := child.value;
        case Index(n) =>
          if !current.Arr? || n >= |current.elems| { return None; }
          current := current.elems[n];
      }
      i := i + 1;
    }
    assert segments[i..] == [];
    return Some(current);
  }

  /** Looking up along a path and then along another is looking up along both. */
  lemma {:induction false} LookupComposes(v: Json, a: seq<Segment>, b: seq<Segment>)
    ensures At(v, a + b) == match At(v, a) case None => None case Some(w) => At(w, b)
    decreases a
  {
    hide Step;
    if a == [] {
      assert a + b == b;
    } else {
      assert (a + b)[1..] == a[1..] + b;
      if Step(v, a[0]).Some? { LookupComposes(Step(v, a[0]).value, a[1..], b); }
    }
  }
}
