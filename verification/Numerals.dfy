/** Decimal text of numbers. */
module Numerals {
  import opened Common

  function Digit(n: int): char
    requires 0 <= n <= 9
  {
    "0123456789"[n]
  }

  predicate IsDigit(c: char) { '0' <= c <= '9' }

  function DigitValue(c: char): int { c as int - '0' as int }

  predicate AllDigits(s: string) { forall c | c in s :: '0' <= c <= '9' }

  function Power10(k: nat): nat { if k == 0 then 1 else 10 * Power10(k - 1) }

  /** The number a string of digits stands for. */
  function Digits(s: string): int {
    if s == "" then 0 else 10 * Digits(s[..|s| - 1]) + DigitValue(s[|s| - 1])
  }

  /** A natural number as JavaScript prints it, while it prints all digits. */
  function Decimal(n: nat): (s: string)
    ensures |s| > 0 && AllDigits(s)
  {
    if n < 10 then [Digit(n)] else Decimal(n / 10) + [Digit(n % 10)]
  }

  function IntText(n: int): (s: string)
    ensures |s| > 0 && forall c | c in s :: '0' <= c <= '9' || c == '-'
  {
    if n < 0 then "-" + Decimal(-n) else Decimal(n)
  }

  lemma {:induction false} DecimalLength(n: nat, k: nat)
    requires k >= 1 && n < Power10(k)
    ensures |Decimal(n)| <= k
    decreases k
  {
    if n >= 10 {
      DecimalLength(n / 10, k - 1);
    }
  }

  /** Reading a printed number gives it back. */
  lemma {:induction false} DigitsOfDecimal(n: nat)
    ensures Digits(Decimal(n)) == n
  {
    var s := Decimal(n);
    assert DigitValue(Digit(n % 10)) == n % 10;
    if n >= 10 {
      DigitsOfDecimal(n / 10);
      assert s[..|s| - 1] == Decimal(n / 10) && s[|s| - 1] == Digit(n % 10);
    } else {
      assert s[..0] == "";
    }
  }

  lemma {:induction false} NoLeadingZero(n: nat)
    ensures |Decimal(n)| > 1 ==> Decimal(n)[0] != '0'
    ensures n > 0 ==> Decimal(n)[0] != '0'
  {
    if n >= 10 { NoLeadingZero(n / 10); }
  }

  lemma DecimalInjective(a: nat, b: nat)
    requires Decimal(a) == Decimal(b)
    ensures a == b
  {
    DigitsOfDecimal(a);
    DigitsOfDecimal(b);
  }

  lemma DigitsInit(s: string)
    requires AllDigits(s) && s != ""
    ensures AllDigits(s[..|s| - 1]) && 0 <= DigitValue(s[|s| - 1]) <= 9
  {
    var init := s[..|s| - 1];
    assert s[|s| - 1] in s;
    forall i | 0 <= i < |init|
      ensures '0' <= init[i] <= '9'
    {
      assert s[i] == init[i] && s[i] in s;
    }
  }

  lemma {:induction false} DigitsBound(s: string)
    requires AllDigits(s)
    ensures 0 <= Digits(s) < Power10(|s|)
  {
    if s != "" {
      DigitsInit(s);
      DigitsBound(s[..|s| - 1]);
    }
  }

  /** Digits without a superfluous zero in front are the printed form of their number. */
  lemma {:induction false} DecimalOfDigits(s: string)
    requires AllDigits(s) && s != "" && (|s| > 1 ==> s[0] != '0')
    ensures 0 <= Digits(s) && Decimal(Digits(s)) == s
  {
    DigitsInit(s);
    var init, last := s[..|s| - 1], s[|s| - 1];
    assert s == init + [last] && Digit(DigitValue(last)) == last;
    if |s| > 1 {
      DecimalOfDigits(init);
      assert Decimal(0) == [Digit(0)] && init[0] == s[0];
      assert Digits(init) > 0;
      assert Digits(s) / 10 == Digits(init) && Digits(s) % 10 == DigitValue(last);
    } else {
      assert init == "";
    }
  }

  lemma SignShows(n: int)
    ensures n < 0 <==> IntText(n)[0] == '-'
  {
    if n >= 0 { assert IntText(n)[0] in Decimal(n); }
  }

  /** Different numbers have different text. */
  lemma IntTextInjective(a: int, b: int)
    requires IntText(a) == IntText(b)
    ensures a == b
  {
    SignShows(a);
    SignShows(b);
    hide Decimal, AllDigits;
    if a >= 0 && b >= 0 {
      DecimalInjective(a, b);
    } else if a < 0 && b < 0 {
      assert IntText(a)[1..] == Decimal(-a) && IntText(b)[1..] == Decimal(-b);
      DecimalInjective(-a, -b);
    }
  }

  // ---------------------------------------------------------------- numbers as names

  /** Any number of names. */
  function Name(i: nat): string { Decimal(i) }

  function Names(from: nat, to: nat): seq<string>
    requires from <= to
  {
    seq(to - from, i requires 0 <= i < to - from => Name(from + i))
  }

  lemma NameIn(from: nat, to: nat, i: nat)
    requires from <= to
    ensures Name(i) in Names(from, to) <==> from <= i < to
  {
    if from <= i < to { assert Names(from, to)[i - from] == Name(i); }
    if Name(i) in Names(from, to) {
      var k :| 0 <= k < to - from && Names(from, to)[k] == Name(i);
      assert Names(from, to)[k] == Name(from + k);
      DecimalInjective(from + k, i);
    }
  }

  lemma NamesDistinct(from: nat, to: nat)
    requires from <= to
    ensures Distinct(Names(from, to))
  {
    forall i, j | 0 <= i < j < to - from
      ensures Names(from, to)[i] != Names(from, to)[j]
    {
      if Name(from + i) == Name(from + j) { DecimalInjective(from + i, from + j); }
    }
  }

  lemma {:induction false} CountNames(n: nat)
    ensures |Elements(Names(0, n))| == n
  {
    hide Name;
    if n == 0 {
      assert Elements(Names(0, 0)) == {};
    } else {
      CountNames(n - 1);
      NameIn(0, n - 1, n - 1);
      assert Names(0, n) == Names(0, n - 1) + [Name(n - 1)];
      assert Elements(Names(0, n)) == Elements(Names(0, n - 1)) + {Name(n - 1)};
    }
  }

  /** Digits have no upper case. */
  lemma NameIsStored(d: Dialect, i: nat)
    ensures IsStored(d, Name(i))
  {
    hide Lower, Decimal;
    var s := Name(i);
    forall k | 0 <= k < |s|
      ensures LowerAscii(s[k]) == s[k]
    {
      assert s[k] in s;
    }
    LowerMeaning(s, s);
  }
}
