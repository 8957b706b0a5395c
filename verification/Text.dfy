/** Optional and fallible values, and the ASCII case folding applied to every table and column name. */
module Text {

  datatype Option<+T> = None | Some(value: T)

  datatype Result<+T, +E> = Ok(value: T) | Err(error: E)

  function OneOrNone<T>(v: Option<T>): seq<T> {
    if v.Some? then [v.value] else []
  }

  function Max(a: nat, b: nat): nat {
    if a < b then b else a
  }

  function LowerChar(c: char): char {
    if 'A' <= c <= 'Z' then (c as int + 32) as char else c
  }

  /** `to_ascii_lowercase`. */
  function Lower(s: string): string {
    seq(|s|, i requires 0 <= i < |s| => LowerChar(s[i]))
  }

  /** Folding is idempotent, so a name folded on entry may be folded again on use. */
  lemma LowerIdempotent(s: string)
    ensures Lower(Lower(s)) == Lower(s)
  {
    assert forall i | 0 <= i < |s| :: LowerChar(LowerChar(s[i])) == LowerChar(s[i]);
  }

  const UPPER_CASE := "ABCDEFGHIJKLMNOPQRSTUVWXYZ"
  const LOWER_CASE := "abcdefghijklmnopqrstuvwxyz"

  lemma UpperCaseAt(i: nat)
    requires i < 26
    ensures |UPPER_CASE| == 26 && UPPER_CASE[i] as int == 'A' as int + i
  {
    match i
    case 0 => case 1 => case 2 => case 3 => case 4 => case 5 => case 6 => case 7 => case 8 => case 9 => case 10 =>
    case 11 => case 12 => case 13 => case 14 => case 15 => case 16 => case 17 => case 18 => case 19 => case 20 =>
    case 21 => case 22 => case 23 => case 24 => case 25 =>
  }

  lemma LowerCaseAt(i: nat)
    requires i < 26
    ensures |LOWER_CASE| == 26 && LOWER_CASE[i] as int == 'a' as int + i
  {
    match i
    case 0 => case 1 => case 2 => case 3 => case 4 => case 5 => case 6 => case 7 => case 8 => case 9 => case 10 =>
    case 11 => case 12 => case 13 => case 14 => case 15 => case 16 => case 17 => case 18 => case 19 => case 20 =>
    case 21 => case 22 => case 23 => case 24 => case 25 =>
  }

  lemma Alphabets(i: nat)
    requires i < 26
    ensures |UPPER_CASE| == 26 && UPPER_CASE[i] as int == 'A' as int + i
    ensures |LOWER_CASE| == 26 && LOWER_CASE[i] as int == 'a' as int + i
  {
    UpperCaseAt(i);
    LowerCaseAt(i);
  }

  /** Each upper-case letter folds to its partner, and every other character stays. */
  lemma LowerCharExact(c: char)
    ensures |UPPER_CASE| == 26 && |LOWER_CASE| == 26
    ensures forall i | 0 <= i < 26 :: LowerChar(UPPER_CASE[i]) == LOWER_CASE[i]
    ensures c !in UPPER_CASE ==> LowerChar(c) == c
  {
    forall i | 0 <= i < 26
      ensures LowerChar(UPPER_CASE[i]) == LOWER_CASE[i]
    {
      Alphabets(i);
    }
    if 'A' <= c <= 'Z' {
      Alphabets(c as int - 'A' as int);
    }
  }

  /** The same character, or a letter in either case. */
  ghost predicate SameLetter(x: char, y: char) {
    x == y || exists i :: Partners(x, y, i) || Partners(y, x, i)
  }

  predicate Partners(x: char, y: char, i: int) {
    0 <= i < |UPPER_CASE| && i < |LOWER_CASE| && x == UPPER_CASE[i] && y == LOWER_CASE[i]
  }

  lemma SameLetterFolds(x: char, y: char)
    ensures LowerChar(x) == LowerChar(y) <==> SameLetter(x, y)
  {
    LowerCharExact(x);
    LowerCharExact(y);
    forall i | 0 <= i < 26
      ensures UPPER_CASE[i] as int == 'A' as int + i && LOWER_CASE[i] as int == 'a' as int + i
      ensures LowerChar(LOWER_CASE[i]) == LOWER_CASE[i]
    {
      Alphabets(i);
    }
    if LowerChar(x) == LowerChar(y) && x != y {
      if x in UPPER_CASE {
        var i :| 0 <= i < |UPPER_CASE| && UPPER_CASE[i] == x;
        assert y !in UPPER_CASE ==> Partners(x, y, i);
      } else {
        var i :| 0 <= i < |UPPER_CASE| && UPPER_CASE[i] == y;
        assert Partners(y, x, i);
      }
    }
  }

  /** Equal when the case of ASCII letters is ignored. */
  ghost predicate EqualIgnoringCase(a: string, b: string) {
    |a| == |b| && forall i | 0 <= i < |a| :: SameLetter(a[i], b[i])
  }

  /** Folded names are equal exactly when the names are equal ignoring case. */
  lemma LowerIffEqual(a: string, b: string)
    ensures Lower(a) == Lower(b) <==> EqualIgnoringCase(a, b)
  {
    hide SameLetter, LowerChar;
    if Lower(a) == Lower(b) {
      assert |Lower(a)| == |a| && |Lower(b)| == |b|;
      forall i | 0 <= i < |a|
        ensures SameLetter(a[i], b[i])
      {
        assert Lower(a)[i] == LowerChar(a[i]) && Lower(b)[i] == LowerChar(b[i]);
        SameLetterFolds(a[i], b[i]);
      }
    }
    if EqualIgnoringCase(a, b) {
      forall i | 0 <= i < |a|
        ensures Lower(a)[i] == Lower(b)[i]
      {
        SameLetterFolds(a[i], b[i]);
      }
    }
  }

  predicate IsDigit(c: char) {
    '0' <= c <= '9'
  }

  predicate AllDigits(s: string) {
    forall i | 0 <= i < |s| :: IsDigit(s[i])
  }

  function DigitsValue(s: string): nat
    requires AllDigits(s)
  {
    if s == "" then 0 else 10 * DigitsValue(s[..|s| - 1]) + (s[|s| - 1] as int - '0' as int)
  }

  /** `str::parse` for an unsigned integer below `limit`: digits with an optional leading plus sign. */
  function ParseUnsigned(s: string, limit: nat): Option<nat> {
    var digits := if s != "" && s[0] == '+' then s[1..] else s;
    if digits == "" || !AllDigits(digits) || DigitsValue(digits) >= limit then None
    else Some(DigitsValue(digits))
  }

  /** The decimal text of a number. */
  function Decimal(n: nat): (s: string)
    ensures s != "" && AllDigits(s) && DigitsValue(s) == n
    ensures n > 0 ==> s[0] != '0'
    ensures n == 0 ==> s == "0"
  {
    var digit := ('0' as int + n % 10) as char;
    if n < 10 then [digit] else Decimal(n / 10) + [digit]
  }

  const DIGITS := "0123456789"

  function Pow10(n: nat): nat {
    if n == 0 then 1 else 10 * Pow10(n - 1)
  }

  /** What stands to the left of other digits counts tenfold for each of them. */
  lemma {:induction false} DigitsArePositional(a: string, b: string)
    requires AllDigits(a) && AllDigits(b)
    ensures AllDigits(a + b) && DigitsValue(a + b) == DigitsValue(a) * Pow10(|b|) + DigitsValue(b)
  {
    if b == "" {
      assert a + b == a;
    } else {
      var n := |b| - 1;
      DigitsArePositional(a, b[..n]);
      DigitsAppend(a + b[..n], b[n]);
      DigitsAppend(b[..n], b[n]);
      assert b[..n] + [b[n]] == b && a + b[..n] + [b[n]] == a + b;
      hide DigitsValue;
      Tenfold(DigitsValue(a), Pow10(n));
    }
  }

  lemma DigitsAppend(s: string, c: char)
    requires AllDigits(s) && IsDigit(c)
    ensures AllDigits(s + [c]) && DigitsValue(s + [c]) == 10 * DigitsValue(s) + (c as int - '0' as int)
  {
    assert (s + [c])[..|s|] == s;
  }

  lemma Tenfold(a: nat, p: nat)
    ensures a * (10 * p) == 10 * (a * p)
  {
  }

  /** Each digit is worth what it is called. */
  lemma DigitIsWorth(i: nat)
    requires i < |DIGITS|
    ensures AllDigits([DIGITS[i]]) && DigitsValue([DIGITS[i]]) == i
  {
    assert [DIGITS[i]][..0] == "";
    match i
    case 0 => case 1 => case 2 => case 3 => case 4 => case 5 => case 6 => case 7 => case 8 => case 9 =>
  }

  function Zeros(z: nat): string {
    seq(z, _ => '0')
  }

  /** The number's decimal text, possibly after leading zeros. */
  ghost predicate IsNumeral(s: string, n: nat) {
    exists z: nat :: s == Zeros(z) + Decimal(n)
  }

  lemma {:induction false} ZerosAreWorthless(z: nat)
    ensures AllDigits(Zeros(z)) && DigitsValue(Zeros(z)) == 0
  {
    if z > 0 {
      ZerosAreWorthless(z - 1);
      assert Zeros(z)[..z - 1] == Zeros(z - 1);
    }
  }

  /** Every non-empty text of digits is the numeral of its value. */
  lemma {:induction false} DigitsAreNumeral(s: string)
    requires s != "" && AllDigits(s)
    ensures IsNumeral(s, DigitsValue(s))
  {
    var n := |s| - 1;
    var before, c := s[..n], s[n];
    assert s == before + [c];
    DigitsAppend(before, c);
    if n == 0 {
      OneDigit(c);
      assert s == Zeros(0) + Decimal(DigitsValue(s));
    } else {
      DigitsAreNumeral(before);
      var z: nat :| before == Zeros(z) + Decimal(DigitsValue(before));
      NumeralAppend(z, DigitsValue(before), c);
    }
  }

  lemma OneDigit(c: char)
    requires IsDigit(c)
    ensures Decimal(c as int - '0' as int) == [c]
  {
  }

  lemma DecimalAppend(n: nat, c: char)
    requires IsDigit(c) && n > 0
    ensures Decimal(10 * n + (c as int - '0' as int)) == Decimal(n) + [c]
  {
    var value := 10 * n + (c as int - '0' as int);
    assert value / 10 == n && value % 10 == c as int - '0' as int;
  }

  lemma NumeralAppend(z: nat, n: nat, c: char)
    requires IsDigit(c)
    ensures IsNumeral(Zeros(z) + Decimal(n) + [c], 10 * n + (c as int - '0' as int))
  {
    hide Decimal, DigitsValue;
    var value := 10 * n + (c as int - '0' as int);
    if n == 0 {
      OneDigit(c);
      assert Zeros(z) + Decimal(n) + [c] == Zeros(z + 1) + Decimal(value);
    } else {
      DecimalAppend(n, c);
      assert Zeros(z) + Decimal(n) + [c] == Zeros(z) + Decimal(value);
    }
  }

  /** A text parses as a number below the limit exactly when it is its numeral, after an optional plus sign. */
  lemma ParsesExactly(s: string, limit: nat, n: nat)
    ensures ParseUnsigned(s, limit) == Some(n) <==>
            n < limit && (IsNumeral(s, n) || (s != "" && s[0] == '+' && IsNumeral(s[1..], n)))
  {
    var digits := if s != "" && s[0] == '+' then s[1..] else s;
    if digits != "" && AllDigits(digits) {
      DigitsAreNumeral(digits);
    }
    if IsNumeral(digits, n) {
      NumeralIsDigits(digits, n);
    }
    if IsNumeral(s, n) {
      NumeralIsDigits(s, n);
    }
  }

  lemma NumeralIsDigits(s: string, n: nat)
    requires IsNumeral(s, n)
    ensures s != "" && AllDigits(s) && DigitsValue(s) == n
  {
    var z: nat :| s == Zeros(z) + Decimal(n);
    ZerosAreWorthless(z);
    DigitsArePositional(Zeros(z), Decimal(n));
  }

  /** The part before the first separator and the part after it. */
  function SplitOnce(s: string, separator: char): (r: Option<(string, string)>)
    ensures r.None? ==> separator !in s
    ensures r.Some? ==> r.value.0 + [separator] + r.value.1 == s && separator !in r.value.0
  {
    if s == "" then None
    else if s[0] == separator then Some(("", s[1..]))
    else
      match SplitOnce(s[1..], separator)
      case None => None
      case Some((before, after)) => Some(([s[0]] + before, after))
  }

  /** Text built as "before, separator, after" splits back into its parts. */
  lemma {:induction false} SplitOnceInverse(before: string, separator: char, after: string)
    requires separator !in before
    ensures SplitOnce(before + [separator] + after, separator) == Some((before, after))
  {
    var s := before + [separator] + after;
    if before != "" {
      assert s[1..] == before[1..] + [separator] + after;
      SplitOnceInverse(before[1..], separator, after);
      assert [before[0]] + before[1..] == before;
    }
  }

  ghost predicate NoDuplicates<T>(s: seq<T>) {
    forall i, j | 0 <= i < j < |s| :: s[i] != s[j]
  }
}
