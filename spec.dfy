/** The lexer as pure functions of the input and the cursor position: the
    reference that the stateful Lexer class is proved against, and the
    properties of tokenization proved about it. */
module Lexing {
  import opened Tokens
  import opened Scan

  /** The token one call produces, and the cursor position it leaves behind. */
  datatype Step = Step(tok: Token, next: nat)

  /** Where the cursor rests after the leading whitespace at p is skipped. */
  function TokenStart(s: seq<char>, p: nat): (q: nat)
    ensures p <= q && (p < q ==> q <= |s|)
    ensures forall i :: p <= i < q ==> i < |s| && IsWhiteSpace(s[i])
    ensures !IsWhiteSpace(CharAt(s, q))
  {
    ScanEnd(s, p, Whitespace)
  }

  /** One token read with the cursor at position p: skip whitespace, then read
      the token that starts where the cursor comes to rest. */
  function NextTokenAt(s: seq<char>, p: nat): (r: Result<Step>)
    ensures r.Success? && !r.value.tok.Eof? ==> p < r.value.next <= |s|
    ensures CharAt(s, TokenStart(s, p)) == '\0' <==> r == Success(Step(Eof, TokenStart(s, p) + 1))
    ensures r.Success? && r.value.tok.Eof? ==> CharAt(s, TokenStart(s, p)) == '\0'
    ensures r.Success? ==> r.value.tok.Eof? || TokenStart(s, p) < |s|
  {
    TokenAt(s, TokenStart(s, p))
  }

  /** The token that starts at q, tried in order: a string literal, an
      identifier or keyword, an integer, and the operators. */
  function TokenAt(s: seq<char>, q: nat): (r: Result<Step>)
    ensures r.Success? && !r.value.tok.Eof? ==> q < r.value.next <= |s|
    ensures CharAt(s, q) == '\0' <==> r == Success(Step(Eof, q + 1))
    ensures r.Success? && r.value.tok.Eof? ==> CharAt(s, q) == '\0'
  {
    var c := CharAt(s, q);
    if c == '"' then StringAt(s, q)
    else if IsIdentChar(c) then Success(WordAt(s, q))
    else if IsDigit(c) then NumberAt(s, q)
    else Success(OperatorAt(s, q))
  }

  /** A string literal whose opening quote is at q. */
  function StringAt(s: seq<char>, q: nat): (r: Result<Step>)
    requires CharAt(s, q) == '"'
    ensures r.Success? ==> r.value.tok.String? && q + 2 <= r.value.next <= |s|
    ensures r.Failure? ==> r.error == UnterminatedString
  {
    var e := ScanEnd(s, q + 1, StringBody);
    if CharAt(s, e) == '\0' then Failure(UnterminatedString)
    else Success(Step(String(s[q + 1..e]), e + 1))
  }

  /** An identifier or keyword that starts at q. */
  function WordAt(s: seq<char>, q: nat): (r: Step)
    requires IsIdentChar(CharAt(s, q))
    ensures r.tok.Ident? || IsKeyword(r.tok)
    ensures q < r.next <= |s|
  {
    var e := ScanEnd(s, q, IdentChar);
    Step(LookupIdent(s[q..e]), e)
  }

  /** An integer literal that starts at q. */
  function NumberAt(s: seq<char>, q: nat): (r: Result<Step>)
    requires IsDigit(CharAt(s, q))
    ensures r.Success? ==> r.value.tok.Integer? && q < r.value.next <= |s|
    ensures r.Failure? ==> r.error == IntegerOverflow
  {
    var e := ScanEnd(s, q, Digit);
    match ParseInt(s[q..e])
    case Failure(err) => Failure(err)
    case Success(v) => Success(Step(Integer(v), e))
  }

  /** An operator, punctuation, the end of input, or an illegal character at q. */
  function OperatorAt(s: seq<char>, q: nat): (r: Step)
    requires var c := CharAt(s, q); c != '"' && !IsIdentChar(c) && !IsDigit(c)
    ensures r.tok.Eof? <==> CharAt(s, q) == '\0'
    ensures r.tok.Eof? ==> r.next == q + 1
    ensures !r.tok.Eof? ==> q < r.next <= |s|
    ensures !r.tok.Eof? ==> r.next == q + 1 || r.next == q + 2
  {
    var c := CharAt(s, q);
    if (c == '=' || c == '!') && CharAt(s, q + 1) == '=' then
      Step(if c == '=' then EQ else NOT_EQ, q + 2)
    else
      Step(CharToken(c), q + 1)
  }

  /** Where the cursor rests when a call fails: on the NUL sentinel that ends an
      unterminated string literal, or just past the digit run that overflows. */
  function FailureRest(s: seq<char>, p: nat): (e: nat)
    requires NextTokenAt(s, p).Failure?
    ensures var q := TokenStart(s, p);
      NextTokenAt(s, p).error == UnterminatedString ==>
        CharAt(s, q) == '"' && q < e && CharAt(s, e) == '\0' &&
        forall i :: q < i < e ==> i < |s| && s[i] != '"' && s[i] != '\0'
    ensures var q := TokenStart(s, p);
      NextTokenAt(s, p).error == IntegerOverflow ==>
        q < e <= |s| && !IsDigit(CharAt(s, e)) && forall i :: q <= i < e ==> IsDigit(s[i])
  {
    var q := TokenStart(s, p);
    if CharAt(s, q) == '"' then ScanEnd(s, q + 1, StringBody) else ScanEnd(s, q, Digit)
  }

  /** Puts tokens in front of a stream. */
  function Prepend(ts: seq<Token>, st: TokenStream): (r: TokenStream)
  {
    match st
    case Finished(toks) => Finished(ts + toks)
    case Aborted(toks, err) => Aborted(ts + toks, err)
  }

  lemma PrependPrepend(a: seq<Token>, b: seq<Token>, st: TokenStream)
    ensures Prepend(a + b, st) == Prepend(a, Prepend(b, st))
  {
    assert (a + b) + st.tokens == a + (b + st.tokens);
  }

  /** A step that yields a token other than Eof puts it in front of the rest. */
  lemma TokenizeCons(s: seq<char>, p: nat, t: Token, next: nat, rest: seq<Token>)
    requires NextTokenAt(s, p) == Success(Step(t, next)) && !t.Eof?
    requires TokenizeFrom(s, next) == Finished(rest)
    ensures TokenizeFrom(s, p) == Finished([t] + rest)
  {
  }

  /** The token stream read from position p: tokens up to and including Eof,
      or, when a call fails, the tokens before it and the failure. */
  function TokenizeFrom(s: seq<char>, p: nat): (r: TokenStream)
    decreases if p <= |s| then |s| - p + 1 else 0
    ensures r.Finished? ==> |r.tokens| > 0 && r.tokens[|r.tokens| - 1] == Eof
    ensures p >= |s| ==> r == Finished([Eof])
  {
    match NextTokenAt(s, p)
    case Failure(err) => Aborted([], err)
    case Success(Step(t, next)) =>
      if t.Eof? then Finished([Eof]) else Prepend([t], TokenizeFrom(s, next))
  }

  /** The token stream of a whole input, read by a freshly constructed lexer. */
  function Tokenize(s: seq<char>): (r: TokenStream)
    ensures r.Finished? ==> |r.tokens| > 0 && r.tokens[|r.tokens| - 1] == Eof
    ensures |s| == 0 ==> r == Finished([Eof])
  {
    TokenizeFrom(s, 0)
  }

  /** Every finished stream ends with Eof, and that is the only Eof in it; a
      stream cut short by a failure contains no Eof at all. */
  lemma {:induction false} EofPlacement(s: seq<char>, p: nat)
    decreases if p <= |s| then |s| - p + 1 else 0
    ensures var r := TokenizeFrom(s, p);
      (r.Finished? ==> |r.tokens| > 0 && r.tokens[|r.tokens| - 1] == Eof) &&
      (forall i :: 0 <= i < |r.tokens| && r.tokens[i] == Eof ==> r.Finished? && i == |r.tokens| - 1)
  {
    var st := NextTokenAt(s, p);
    if st.Success? && !st.value.tok.Eof? {
      var t, next := st.value.tok, st.value.next;
      EofPlacement(s, next);
      var rest := TokenizeFrom(s, next);
      var r := TokenizeFrom(s, p);
      assert r == Prepend([t], rest);
      forall i | 0 <= i < |r.tokens| && r.tokens[i] == Eof
        ensures r.Finished? && i == |r.tokens| - 1
      {
        assert i > 0 && r.tokens[i] == rest.tokens[i - 1];
      }
    }
  }

  // ---------------------------------------------------------------------------
  // End of input
  // ---------------------------------------------------------------------------

  /** Past the end of the input every call yields Eof, and the cursor still
      moves on by one. */
  lemma EofForever(s: seq<char>, p: nat)
    requires p >= |s|
    ensures NextTokenAt(s, p) == Success(Step(Eof, p + 1))
    ensures TokenizeFrom(s, p) == Finished([Eof])
  {
  }

  lemma EmptyInput()
    ensures Tokenize("") == Finished([Eof])
  {
    EofForever("", 0);
  }

  /** Whitespace yields no token: tokenizing from a whitespace character is the
      same as tokenizing from the character after it. */
  lemma WhitespaceIgnored(s: seq<char>, p: nat)
    requires p < |s| && IsWhiteSpace(s[p])
    ensures NextTokenAt(s, p) == NextTokenAt(s, p + 1)
    ensures TokenizeFrom(s, p) == TokenizeFrom(s, p + 1)
  {
  }

  // ---------------------------------------------------------------------------
  // Identifiers and keywords
  // ---------------------------------------------------------------------------

  /** A token that starts with a letter or underscore is an identifier or a
      keyword spelled by the maximal run of letters and underscores there;
      it is a keyword exactly when the run spells one. */
  lemma IdentifierToken(s: seq<char>, p: nat)
    requires IsIdentChar(CharAt(s, TokenStart(s, p)))
    ensures var q := TokenStart(s, p);
      match NextTokenAt(s, p)
      case Failure(_) => false
      case Success(Step(t, e)) =>
        q < e <= |s| &&
        (forall i :: q <= i < e ==> IsIdentChar(s[i])) &&
        !IsIdentChar(CharAt(s, e)) &&
        (t.Ident? <==> s[q..e] !in KeywordTexts) &&
        (t.Ident? ==> t.name == s[q..e]) &&
        (!t.Ident? ==> IsKeyword(t) && KeywordText(t) == s[q..e])
  {
  }

  /** Identifier and keyword tokens come only from a letter or underscore. */
  lemma IdentifierStart(s: seq<char>, p: nat)
    requires NextTokenAt(s, p).Success?
    requires var t := NextTokenAt(s, p).value.tok; t.Ident? || IsKeyword(t)
    ensures IsIdentChar(CharAt(s, TokenStart(s, p)))
  {
  }

  // ---------------------------------------------------------------------------
  // Integers
  // ---------------------------------------------------------------------------

  /** A token that starts with a digit is read from the maximal run of digits
      there: the run's decimal value when it fits 32 bits, an overflow failure
      otherwise. */
  lemma IntegerToken(s: seq<char>, p: nat)
    requires IsDigit(CharAt(s, TokenStart(s, p)))
    ensures var q := TokenStart(s, p);
      var e := ScanEnd(s, q, Digit);
      q < e <= |s| && IsDigits(s[q..e]) && !IsDigit(CharAt(s, e)) &&
      NextTokenAt(s, p) ==
        if DecimalValue(s[q..e]) <= IntMax then Success(Step(Integer(DecimalValue(s[q..e])), e))
        else Failure(IntegerOverflow)
  {
    NumberDispatch(s, p);
    NumberToken(s, TokenStart(s, p));
  }

  lemma NumberDispatch(s: seq<char>, p: nat)
    requires IsDigit(CharAt(s, TokenStart(s, p)))
    ensures NextTokenAt(s, p) == NumberAt(s, TokenStart(s, p))
  {
  }

  lemma NumberToken(s: seq<char>, q: nat)
    requires IsDigit(CharAt(s, q))
    ensures var e := ScanEnd(s, q, Digit);
      q < e <= |s| && IsDigits(s[q..e]) && !IsDigit(CharAt(s, e)) &&
      NumberAt(s, q) ==
        if DecimalValue(s[q..e]) <= IntMax then Success(Step(Integer(DecimalValue(s[q..e])), e))
        else Failure(IntegerOverflow)
  {
    var e := ScanEnd(s, q, Digit);
    DigitRun(s, q, e);
  }

  lemma DigitRun(s: seq<char>, q: nat, e: nat)
    requires q < e <= |s| && forall i :: q <= i < e ==> Matches(Digit, s[i])
    ensures IsDigits(s[q..e])
  {
  }

  // ---------------------------------------------------------------------------
  // String literals
  // ---------------------------------------------------------------------------

  /** A string token carries exactly the characters between its quotes, none
      of which is a quote or NUL, and the closing quote is consumed. */
  lemma StringToken(s: seq<char>, p: nat)
    requires CharAt(s, TokenStart(s, p)) == '"'
    ensures var q := TokenStart(s, p);
      match NextTokenAt(s, p)
      case Failure(err) => err == UnterminatedString
      case Success(Step(t, e)) =>
        t.String? && q + 2 <= e <= |s| &&
        s[q + 1..e - 1] == t.text && s[e - 1] == '"' &&
        '"' !in t.text && '\0' !in t.text
  {
    var q := TokenStart(s, p);
    if NextTokenAt(s, p).Success? {
      var e := ScanEnd(s, q + 1, StringBody);
      assert forall i :: q + 1 <= i < e ==> s[i] != '"' && s[i] != '\0';
    }
  }

  /** A string literal fails exactly when no closing quote follows the opening
      one before the first NUL or the end of the input. */
  lemma UnterminatedStringLiteral(s: seq<char>, p: nat)
    requires CharAt(s, TokenStart(s, p)) == '"'
    ensures var q := TokenStart(s, p);
      NextTokenAt(s, p).Failure? <==>
        !exists i :: q < i < |s| && s[i] == '"' && forall j :: q < j < i ==> s[j] != '\0'
  {
    var q := TokenStart(s, p);
    var e := ScanEnd(s, q + 1, StringBody);
    if CharAt(s, e) == '\0' {
      forall i | q < i < |s| && s[i] == '"'
        ensures exists j :: q < j < i && s[j] == '\0'
      {
        assert !Matches(StringBody, s[i]) || i >= e;
        assert e < i && s[e] == '\0';
      }
    }
  }

  // ---------------------------------------------------------------------------
  // Operators, punctuation and illegal characters
  // ---------------------------------------------------------------------------

  /** `==` and `!=` take two characters; a lone `=` or `!` and every other
      character of the one-character table take one; any remaining character
      is Illegal, also takes one, and is not a failure. */
  lemma OperatorToken(s: seq<char>, p: nat)
    requires var c := CharAt(s, TokenStart(s, p)); c != '"' && !IsIdentChar(c) && !IsDigit(c)
    ensures var q := TokenStart(s, p);
      var c := CharAt(s, q);
      var n := CharAt(s, q + 1);
      var r := NextTokenAt(s, p);
      r.Success? &&
      (c == '=' && n == '=' ==> r.value == Step(EQ, q + 2)) &&
      (c == '!' && n == '=' ==> r.value == Step(NOT_EQ, q + 2)) &&
      (c in PunctuationChars && !((c == '=' || c == '!') && n == '=') ==>
         r.value.next == q + 1 && IsPunctuation(r.value.tok) && PunctuationChar(r.value.tok) == c) &&
      (c != '\0' && c !in PunctuationChars ==> r.value == Step(Illegal(c), q + 1))
  {
  }

  // ---------------------------------------------------------------------------
  // The NUL sentinel
  // ---------------------------------------------------------------------------

  /** Two inputs that show the same characters up to a NUL at n. */
  ghost predicate AgreeThroughNul(s: seq<char>, t: seq<char>, n: nat) {
    CharAt(s, n) == '\0' && forall j :: 0 <= j <= n ==> CharAt(s, j) == CharAt(t, j)
  }

  lemma {:induction false} ScanAgree(s: seq<char>, t: seq<char>, n: nat, p: nat, k: CharClass)
    requires AgreeThroughNul(s, t, n) && p <= n
    ensures ScanEnd(s, p, k) == ScanEnd(t, p, k) <= n
    decreases n - p
  {
    assert CharAt(s, p) == CharAt(t, p);
    if p < n && p < |s| && Matches(k, s[p]) {
      ScanAgree(s, t, n, p + 1, k);
    }
  }

  lemma SliceAgree(s: seq<char>, t: seq<char>, n: nat, i: nat, j: nat)
    requires AgreeThroughNul(s, t, n) && i <= j <= n && j <= |s| && j <= |t|
    ensures s[i..j] == t[i..j]
  {
    forall m | i <= m < j ensures s[m] == t[m] {
      assert CharAt(s, m) == CharAt(t, m);
    }
  }

  lemma StepAgree(s: seq<char>, t: seq<char>, n: nat, p: nat)
    requires AgreeThroughNul(s, t, n) && p <= n
    ensures NextTokenAt(s, p) == NextTokenAt(t, p)
    ensures NextTokenAt(s, p).Success? && !NextTokenAt(s, p).value.tok.Eof? ==> NextTokenAt(s, p).value.next <= n
  {
    ScanAgree(s, t, n, p, Whitespace);
    TokenAgree(s, t, n, TokenStart(s, p));
  }

  lemma TokenAgree(s: seq<char>, t: seq<char>, n: nat, q: nat)
    requires AgreeThroughNul(s, t, n) && q <= n
    ensures TokenAt(s, q) == TokenAt(t, q)
    ensures TokenAt(s, q).Success? && !TokenAt(s, q).value.tok.Eof? ==> TokenAt(s, q).value.next <= n
  {
    var c := CharAt(s, q);
    assert c == CharAt(t, q);
    if c == '"' {
      StringAgree(s, t, n, q);
      assert StringAt(s, q) == StringAt(t, q);
    } else if IsIdentChar(c) {
      RunAgree(s, t, n, q, IdentChar);
      assert WordAt(s, q) == WordAt(t, q);
    } else if IsDigit(c) {
      RunAgree(s, t, n, q, Digit);
      assert NumberAt(s, q) == NumberAt(t, q);
    } else {
      if c != '\0' {
        assert CharAt(s, q + 1) == CharAt(t, q + 1);
      }
      assert OperatorAt(s, q) == OperatorAt(t, q);
    }
  }

  lemma StringAgree(s: seq<char>, t: seq<char>, n: nat, q: nat)
    requires AgreeThroughNul(s, t, n) && q < n
    ensures var e := ScanEnd(s, q + 1, StringBody);
      e == ScanEnd(t, q + 1, StringBody) && e <= n &&
      CharAt(s, e) == CharAt(t, e) &&
      (CharAt(s, e) != '\0' ==> e < n && s[q + 1..e] == t[q + 1..e])
  {
    ScanAgree(s, t, n, q + 1, StringBody);
    var e := ScanEnd(s, q + 1, StringBody);
    assert CharAt(s, e) == CharAt(t, e);
    if CharAt(s, e) != '\0' {
      SliceAgree(s, t, n, q + 1, e);
    }
  }

  lemma RunAgree(s: seq<char>, t: seq<char>, n: nat, q: nat, k: CharClass)
    requires AgreeThroughNul(s, t, n) && q <= n
    ensures var e := ScanEnd(s, q, k);
      e == ScanEnd(t, q, k) && e <= n && (q < e ==> s[q..e] == t[q..e])
  {
    ScanAgree(s, t, n, q, k);
    var e := ScanEnd(s, q, k);
    if q < e {
      SliceAgree(s, t, n, q, e);
    }
  }

  lemma {:induction false} TokenizeAgree(s: seq<char>, t: seq<char>, n: nat, p: nat)
    requires AgreeThroughNul(s, t, n) && p <= n
    ensures TokenizeFrom(s, p) == TokenizeFrom(t, p)
    decreases n - p
  {
    StepAgree(s, t, n, p);
    match NextTokenAt(s, p)
    case Failure(_) =>
    case Success(Step(tok, next)) =>
      if !tok.Eof? {
        TokenizeAgree(s, t, n, next);
      }
  }

  /** A NUL character inside the input ends tokenization just as the end of
      the input does: everything after the first NUL is ignored. */
  lemma NulEndsInput(s: seq<char>, i: nat)
    requires i < |s| && s[i] == '\0'
    ensures Tokenize(s) == Tokenize(s[..i])
  {
    assert AgreeThroughNul(s, s[..i], i);
    TokenizeAgree(s, s[..i], i, 0);
  }
}
