/** Small datatypes shared by the models. */
module Common {

  datatype Option<+T> = None | Some(value: T)

  datatype Result<+T, +E> = Ok(value: T) | Err(error: E)

  /** Milliseconds since the epoch, as `Date.getTime()` returns them. */
  type Time = int

  function Min(a: int, b: int): int { if a <= b then a else b }

  function Max(a: int, b: int): int { if a <= b then b else a }

  function LowerAscii(c: char): char { if 'A' <= c <= 'Z' then (c as int + 32) as char else c }

  function Lower(s: string): string {
    if s == "" then "" else [LowerAscii(s[0])] + Lower(s[1..])
  }

  lemma {:induction false} LowerAt(s: string, i: nat)
    requires i < |s|
    ensures |Lower(s)| == |s| && Lower(s)[i] == LowerAscii(s[i])
  {
    if |s| > 1 { LowerAt(s[1..], if i > 0 then i - 1 else 0); }
  }

  lemma LowerMeaning(s: string, t: string)
    ensures t == Lower(s) <==> |t| == |s| && forall i | 0 <= i < |s| :: t[i] == LowerAscii(s[i])
  {
    hide Lower;
    if s == "" {
      assert Lower(s) == "" by { LowerOfNothing(); }
    } else {
      LowerAt(s, 0);
      forall i | 0 <= i < |s|
        ensures Lower(s)[i] == LowerAscii(s[i])
      {
        LowerAt(s, i);
      }
    }
  }

  lemma LowerOfNothing()
    ensures Lower("") == ""
  {
  }

  lemma LowerTwice(s: string)
    ensures Lower(Lower(s)) == Lower(s)
  {
    hide Lower;
    LowerMeaning(s, Lower(s));
    LowerMeaning(Lower(s), Lower(s));
  }

  predicate IsHexDigit(c: char) { '0' <= c <= '9' || 'a' <= c <= 'f' || 'A' <= c <= 'F' }

  /** The textual form of RFC 9562 with version 1 to 8, or the nil or the max identifier. */
  predicate IsUuid(s: string) {
    && |s| == 36
    && (forall i | 0 <= i < 36 :: if i in {8, 13, 18, 23} then s[i] == '-' else IsHexDigit(s[i]))
    && (('1' <= s[14] <= '8' && s[19] in {'8', '9', 'a', 'b', 'A', 'B'})
        || s == "00000000-0000-0000-0000-000000000000" || s == "ffffffff-ffff-ffff-ffff-ffffffffffff")
  }

  /** The two databases the program runs on. */
  datatype Dialect = Sqlite | Postgres

  /**
    The identifier that a database compares and gives back for a submitted UUID: PostgreSQL's uuid
    type prints lower case, SQLite keeps the text.
  */
  function StoredId(dialect: Dialect, id: string): string {
    if dialect.Sqlite? then id else Lower(id)
  }

  /** A spelling that the database gives back as it is. */
  predicate IsStored(dialect: Dialect, id: string) { StoredId(dialect, id) == id }

  lemma StoredIdIsStored(dialect: Dialect, id: string)
    ensures IsStored(dialect, StoredId(dialect, id))
  {
    LowerTwice(id);
  }

  /** An identifier whose free digits are all one. */
  function SampleId(digit: char): string {
    seq(36, i => if i in {8, 13, 18, 23} then '-' else if i == 14 then '4' else if i == 19 then '8' else digit)
  }

  /** One identifier in two spellings. */
  lemma SampleIds()
    ensures IsUuid(SampleId('A')) && IsUuid(SampleId('a'))
    ensures Lower(SampleId('A')) == SampleId('a') && SampleId('A') != SampleId('a')
  {
    hide Lower;
    LowerMeaning(SampleId('A'), SampleId('a'));
    assert SampleId('A')[0] != SampleId('a')[0];
  }

  lemma SampleIsStored(d: Dialect, digit: char)
    requires 'a' <= digit <= 'f'
    ensures IsStored(d, SampleId(digit))
  {
    hide Lower;
    LowerMeaning(SampleId(digit), SampleId(digit));
  }

  /** White space and line terminators of ECMA-262, which `trim` and `\s` go by. */
  predicate IsSpace(c: char) {
    var n := c as int;
    || 0x09 <= n <= 0x0D || n == 0x20 || n == 0xA0 || n == 0x1680 || 0x2000 <= n <= 0x200A || n == 0x2028 || n == 0x2029
    || n == 0x202F || n == 0x205F || n == 0x3000 || n == 0xFEFF
  }

  /** Length in UTF-16 code units, which is what JavaScript counts. */
  function Utf16Length(s: string): (n: nat)
    ensures n >= |s|
  {
    if s == "" then 0 else (if s[0] as int > 0xFFFF then 2 else 1) + Utf16Length(s[1..])
  }

  lemma {:induction false} Utf16LengthOfParts(s: string, k: nat)
    requires k <= |s|
    ensures Utf16Length(s[..k]) + Utf16Length(s[k..]) == Utf16Length(s)
  {
    if k == 0 {
      assert s[..0] == "" && s[0..] == s;
    } else {
      Utf16LengthOfParts(s[1..], k - 1);
      assert s[1..][..k - 1] == s[..k][1..] && s[1..][k - 1..] == s[k..];
    }
  }

  predicate Distinct(keys: seq<string>) {
    forall i, j | 0 <= i < j < |keys| :: keys[i] != keys[j]
  }

  function Elements(keys: seq<string>): set<string> { set k | k in keys }

  /** Distinct members of a set are no more than the set has. */
  lemma {:induction false} DistinctFit(keys: seq<string>, ids: set<string>)
    requires Distinct(keys) && Elements(keys) <= ids
    ensures |keys| <= |ids|
  {
    if keys != [] {
      var init, last := keys[..|keys| - 1], keys[|keys| - 1];
      assert last in Elements(keys) && last !in Elements(init);
      forall k | k in Elements(init)
        ensures k in ids - {last}
      {
        assert k in keys;
      }
      DistinctFit(init, ids - {last});
    }
  }
}
