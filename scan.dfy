/** The character-level vocabulary of the lexer: the NUL sentinel seen past the
    end of the input, the character classes its scanning loops test, the
    maximal run such a loop consumes, and the decimal parsing of a digit run. */
module Scan {
  import opened Tokens

  /** The largest value of a signed 32-bit integer, the range of the parsed literal. */
  const IntMax: nat := 0x7FFF_FFFF

  predicate IsWhiteSpace(c: char) {
    c == ' ' || ('\t' <= c <= '\r')
  }

  predicate IsLetter(c: char) {
    ('a' <= c <= 'z') || ('A' <= c <= 'Z')
  }

  predicate IsDigit(c: char) {
    '0' <= c <= '9'
  }

  /** Characters that start and continue an identifier. */
  predicate IsIdentChar(c: char) {
    IsLetter(c) || c == '_'
  }

  /** The predicates the lexer's scanning loop is run with. */
  datatype CharClass = Whitespace | IdentChar | Digit | StringBody

  predicate Matches(k: CharClass, c: char)
    ensures Matches(k, c) ==> c != '\0'
  {
    match k
    case Whitespace => IsWhiteSpace(c)
    case IdentChar => IsIdentChar(c)
    case Digit => IsDigit(c)
    case StringBody => c != '\0' && c != '"'
  }

  /** The character under a cursor at index i: the input's character, or the
      NUL sentinel once the cursor is past the end. */
  function CharAt(s: seq<char>, i: nat): (c: char)
  {
    if i < |s| then s[i] else '\0'
  }

  /** Where a scan that starts at p and advances while the character matches k
      comes to rest: the end of the maximal run of matching characters. */
  function ScanEnd(s: seq<char>, p: nat, k: CharClass): (q: nat)
    decreases |s| - p
    ensures p <= q
    ensures p < q ==> q <= |s|
    ensures forall i :: p <= i < q ==> i < |s| && Matches(k, s[i])
    ensures !Matches(k, CharAt(s, q))
  {
    if p < |s| && Matches(k, s[p]) then ScanEnd(s, p + 1, k) else p
  }

  // ---------------------------------------------------------------------------
  // Decimal integers
  // ---------------------------------------------------------------------------

  predicate IsDigits(ds: seq<char>) {
    forall i :: 0 <= i < |ds| ==> IsDigit(ds[i])
  }

  function DigitValue(c: char): (d: nat)
    requires IsDigit(c)
  {
    c as int - '0' as int
  }

  function DigitChar(d: nat): (c: char)
    requires d < 10
    ensures IsDigit(c) && DigitValue(c) == d
  {
    ('0' as int + d) as char
  }

  function Pow10(n: nat): (r: nat)
    ensures r > 0
  {
    if n == 0 then 1 else 10 * Pow10(n - 1)
  }

  /** The value of a run of decimal digits, most significant digit first. */
  function DecimalValue(ds: seq<char>): (v: nat)
    requires IsDigits(ds)
    decreases |ds|
  {
    if |ds| == 0 then 0
    else DecimalValue(ds[..|ds| - 1]) * 10 + DigitValue(ds[|ds| - 1])
  }

  /** A run of n digits is worth less than 10^n. */
  lemma {:induction false} DecimalValueBound(ds: seq<char>)
    requires IsDigits(ds)
    ensures DecimalValue(ds) < Pow10(|ds|)
  {
    if |ds| > 0 {
      var init := ds[..|ds| - 1];
      DecimalValueBound(init);
      assert DecimalValue(ds) < DecimalValue(init) * 10 + 10;
    }
  }

  /** The shortest decimal spelling of n. */
  function DecimalDigits(n: nat): (ds: seq<char>)
    ensures |ds| > 0 && IsDigits(ds)
  {
    if n < 10 then [DigitChar(n)] else DecimalDigits(n / 10) + [DigitChar(n % 10)]
  }

  lemma {:induction false} DecimalRoundTrip(n: nat)
    ensures DecimalValue(DecimalDigits(n)) == n
  {
    if n >= 10 {
      var ds := DecimalDigits(n);
      assert ds[..|ds| - 1] == DecimalDigits(n / 10);
      DecimalRoundTrip(n / 10);
    }
  }

  /** int.Parse on a non-empty digit run: its value, or an overflow failure when
      the value does not fit a signed 32-bit integer. */
  function ParseInt(ds: seq<char>): (r: Result<nat>)
    requires |ds| > 0 && IsDigits(ds)
  {
    var v := DecimalValue(ds);
    if v > IntMax then Failure(IntegerOverflow) else Success(v)
  }

  /** Parsing the decimal spelling of a number gives the number back when it
      is in range, and an overflow failure otherwise. */
  lemma ParseIntRoundTrip(n: nat)
    ensures n <= IntMax ==> ParseInt(DecimalDigits(n)) == Success(n)
    ensures n > IntMax ==> ParseInt(DecimalDigits(n)) == Failure(IntegerOverflow)
  {
    DecimalRoundTrip(n);
  }

  /** A literal of at most nine digits never overflows. */
  lemma ShortLiteralsFit(ds: seq<char>)
    requires 0 < |ds| <= 9 && IsDigits(ds)
    ensures ParseInt(ds) == Success(DecimalValue(ds))
  {
    DecimalValueBound(ds);
    Pow10Monotone(|ds|, 9);
  }

  /** A literal of eleven or more digits that does not start with 0 always overflows. */
  lemma LongLiteralsOverflow(ds: seq<char>)
    requires |ds| >= 11 && IsDigits(ds) && ds[0] != '0'
    ensures ParseInt(ds) == Failure(IntegerOverflow)
  {
    LeadingDigitBound(ds);
    Pow10Monotone(10, |ds| - 1);
  }

  /** A digit run is worth at least its leading digit times its place value. */
  lemma {:induction false} LeadingDigitBound(ds: seq<char>)
    requires |ds| > 0 && IsDigits(ds)
    ensures DecimalValue(ds) >= DigitValue(ds[0]) * Pow10(|ds| - 1)
  {
    if |ds| > 1 {
      var init := ds[..|ds| - 1];
      assert init[0] == ds[0];
      LeadingDigitBound(init);
      var d, x := DigitValue(ds[0]), Pow10(|ds| - 2);
      assert Pow10(|ds| - 1) == 10 * x;
      assert d * (10 * x) == (d * x) * 10;
      assert DecimalValue(ds) >= DecimalValue(init) * 10 >= (d * x) * 10;
    }
  }

  lemma {:induction false} Pow10Monotone(m: nat, n: nat)
    requires m <= n
    ensures Pow10(m) <= Pow10(n)
  {
    if m < n {
      Pow10Monotone(m, n - 1);
    }
  }
}
