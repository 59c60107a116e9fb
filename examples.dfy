/** Concrete inputs and the token streams the reference gives for them. Each
    proof walks the cursor through the input one token at a time. */
module Examples {
  import opened Tokens
  import opened Scan
  import opened Lexing

  lemma LetStatement()
    ensures Tokenize("let five = 5;") == Finished([Let, Ident("five"), Assign, Integer(5), Semicolon, Eof])
  {
    LetTrace("let five = 5;");
  }

  /** The input's characters are given one by one rather than as one literal,
      so that the proof takes the steps below instead of evaluating the whole
      input at once. */
  lemma LetTrace(s: seq<char>)
    requires |s| == 13 && s[0] == 'l' && s[1] == 'e' && s[2] == 't' && s[3] == ' '
    requires s[4] == 'f' && s[5] == 'i' && s[6] == 'v' && s[7] == 'e' && s[8] == ' '
    requires s[9] == '=' && s[10] == ' ' && s[11] == '5' && s[12] == ';'
    ensures Tokenize(s) == Finished([Let, Ident("five"), Assign, Integer(5), Semicolon, Eof])
  {
    LetStep(s);
    FiveStep(s);
    AssignStep(s);
    IntegerStep(s);
    SemicolonStep(s);
    EofForever(s, 13);
    TokenizeCons(s, 12, Semicolon, 13, [Eof]);
    TokenizeCons(s, 10, Integer(5), 12, [Semicolon, Eof]);
    TokenizeCons(s, 8, Assign, 10, [Integer(5), Semicolon, Eof]);
    TokenizeCons(s, 3, Ident("five"), 8, [Assign, Integer(5), Semicolon, Eof]);
    TokenizeCons(s, 0, Let, 3, [Ident("five"), Assign, Integer(5), Semicolon, Eof]);
  }

  lemma LetStep(s: seq<char>)
    requires |s| == 13 && s[0] == 'l' && s[1] == 'e' && s[2] == 't' && s[3] == ' '
    ensures NextTokenAt(s, 0) == Success(Step(Let, 3))
  {
  }

  lemma FiveStep(s: seq<char>)
    requires |s| == 13 && s[3] == ' ' && s[4] == 'f' && s[5] == 'i' && s[6] == 'v' && s[7] == 'e' && s[8] == ' '
    ensures NextTokenAt(s, 3) == Success(Step(Ident("five"), 8))
  {
    assert ScanEnd(s, 4, Whitespace) == 4;
    assert TokenStart(s, 3) == 4;
    assert ScanEnd(s, 8, IdentChar) == 8;
    assert ScanEnd(s, 7, IdentChar) == 8;
    assert ScanEnd(s, 6, IdentChar) == 8;
    assert ScanEnd(s, 5, IdentChar) == 8;
    assert ScanEnd(s, 4, IdentChar) == 8;
    assert s[4..8] == "five";
    assert LookupIdent("five") == Ident("five");
  }

  lemma AssignStep(s: seq<char>)
    requires |s| == 13 && s[8] == ' ' && s[9] == '=' && s[10] == ' '
    ensures NextTokenAt(s, 8) == Success(Step(Assign, 10))
  {
  }

  lemma IntegerStep(s: seq<char>)
    requires |s| == 13 && s[10] == ' ' && s[11] == '5' && s[12] == ';'
    ensures NextTokenAt(s, 10) == Success(Step(Integer(5), 12))
  {
    assert ScanEnd(s, 11, Whitespace) == 11;
    assert TokenStart(s, 10) == 11;
    assert ScanEnd(s, 12, Digit) == 12;
    assert ScanEnd(s, 11, Digit) == 12;
    assert s[11..12] == "5";
    assert DecimalValue("5") == 5;
  }

  lemma SemicolonStep(s: seq<char>)
    requires |s| == 13 && s[12] == ';'
    ensures NextTokenAt(s, 12) == Success(Step(Semicolon, 13))
  {
  }

  lemma AssignAndEquality()
    ensures Tokenize("=") == Finished([Assign, Eof])
    ensures Tokenize("==") == Finished([EQ, Eof])
    ensures Tokenize("!") == Finished([Bang, Eof])
    ensures Tokenize("!=") == Finished([NOT_EQ, Eof])
  {
    EqualsSigns();
    BangSigns();
  }

  lemma EqualsSigns()
    ensures Tokenize("=") == Finished([Assign, Eof])
    ensures Tokenize("==") == Finished([EQ, Eof])
  {
  }

  lemma BangSigns()
    ensures Tokenize("!") == Finished([Bang, Eof])
    ensures Tokenize("!=") == Finished([NOT_EQ, Eof])
  {
  }

  lemma StringLiteral()
    ensures Tokenize("\"hello world\"") == Finished([String("hello world"), Eof])
  {
    var s := "\"hello world\"";
    assert ScanEnd(s, 12, StringBody) == 12;
    assert ScanEnd(s, 11, StringBody) == 12;
    assert ScanEnd(s, 10, StringBody) == 12;
    assert ScanEnd(s, 9, StringBody) == 12;
    assert ScanEnd(s, 8, StringBody) == 12;
    assert ScanEnd(s, 7, StringBody) == 12;
    assert ScanEnd(s, 6, StringBody) == 12;
    assert ScanEnd(s, 5, StringBody) == 12;
    assert ScanEnd(s, 4, StringBody) == 12;
    assert ScanEnd(s, 3, StringBody) == 12;
    assert ScanEnd(s, 2, StringBody) == 12;
    assert ScanEnd(s, 1, StringBody) == 12;
    assert TokenStart(s, 0) == 0;
    assert s[1..12] == "hello world";
    assert NextTokenAt(s, 0) == Success(Step(String("hello world"), 13));
    EofForever(s, 13);
  }

  lemma UnterminatedStringFails()
    ensures Tokenize("\"abc") == Aborted([], UnterminatedString)
  {
  }

  lemma IllegalCharacterContinues()
    ensures Tokenize("@") == Finished([Illegal('@'), Eof])
  {
  }

  lemma KeywordNeedsExactMatch()
    ensures Tokenize("iffy") == Finished([Ident("iffy"), Eof])
  {
    var s := "iffy";
    assert ScanEnd(s, 4, IdentChar) == 4;
    assert ScanEnd(s, 3, IdentChar) == 4;
    assert ScanEnd(s, 2, IdentChar) == 4;
    assert ScanEnd(s, 1, IdentChar) == 4;
    assert ScanEnd(s, 0, IdentChar) == 4;
    assert TokenStart(s, 0) == 0;
    assert s[0..4] == s;
    assert LookupIdent(s) == Ident(s);
    assert NextTokenAt(s, 0) == Success(Step(Ident("iffy"), 4));
    EofForever(s, 4);
  }

  lemma IdentifierStopsAtDigit()
    ensures Tokenize("x1") == Finished([Ident("x"), Integer(1), Eof])
  {
    var s := "x1";
    assert ScanEnd(s, 1, IdentChar) == 1;
    assert ScanEnd(s, 0, IdentChar) == 1;
    assert TokenStart(s, 0) == 0;
    assert s[0..1] == "x";
    assert LookupIdent("x") == Ident("x");
    assert NextTokenAt(s, 0) == Success(Step(Ident("x"), 1));
    assert ScanEnd(s, 2, Digit) == 2;
    assert ScanEnd(s, 1, Digit) == 2;
    assert TokenStart(s, 1) == 1;
    assert s[1..2] == "1";
    assert DecimalValue("1") == 1;
    assert NextTokenAt(s, 1) == Success(Step(Integer(1), 2));
    EofForever(s, 2);
    assert TokenizeFrom(s, 1) == Finished([Integer(1), Eof]);
  }

  lemma WhitespaceBetweenTokens()
    ensures Tokenize("let  \n x") == Finished([Let, Ident("x"), Eof])
  {
    var s := "let  \n x";
    assert ScanEnd(s, 3, IdentChar) == 3;
    assert ScanEnd(s, 2, IdentChar) == 3;
    assert ScanEnd(s, 1, IdentChar) == 3;
    assert ScanEnd(s, 0, IdentChar) == 3;
    assert TokenStart(s, 0) == 0;
    assert s[0..3] == "let";
    assert NextTokenAt(s, 0) == Success(Step(Let, 3));
    assert ScanEnd(s, 7, Whitespace) == 7;
    assert ScanEnd(s, 6, Whitespace) == 7;
    assert ScanEnd(s, 5, Whitespace) == 7;
    assert ScanEnd(s, 4, Whitespace) == 7;
    assert ScanEnd(s, 3, Whitespace) == 7;
    assert ScanEnd(s, 8, IdentChar) == 8;
    assert ScanEnd(s, 7, IdentChar) == 8;
    assert s[7..8] == "x";
    assert LookupIdent("x") == Ident("x");
    assert NextTokenAt(s, 3) == Success(Step(Ident("x"), 8));
    EofForever(s, 8);
    assert TokenizeFrom(s, 3) == Finished([Ident("x"), Eof]);
  }

  lemma NulInsideInput()
    ensures Tokenize("a\0b") == Finished([Ident("a"), Eof])
  {
    var s := "a\0b";
    assert ScanEnd(s, 1, IdentChar) == 1;
    assert ScanEnd(s, 0, IdentChar) == 1;
    assert TokenStart(s, 0) == 0;
    assert s[0..1] == "a";
    assert LookupIdent("a") == Ident("a");
    assert NextTokenAt(s, 0) == Success(Step(Ident("a"), 1));
    assert TokenStart(s, 1) == 1;
    assert NextTokenAt(s, 1) == Success(Step(Eof, 2));
  }

  lemma LiteralOverflow()
    ensures Tokenize("12345678901") == Aborted([], IntegerOverflow)
  {
    var s := "12345678901";
    assert ScanEnd(s, 11, Digit) == 11;
    assert ScanEnd(s, 10, Digit) == 11;
    assert ScanEnd(s, 9, Digit) == 11;
    assert ScanEnd(s, 8, Digit) == 11;
    assert ScanEnd(s, 7, Digit) == 11;
    assert ScanEnd(s, 6, Digit) == 11;
    assert ScanEnd(s, 5, Digit) == 11;
    assert ScanEnd(s, 4, Digit) == 11;
    assert ScanEnd(s, 3, Digit) == 11;
    assert ScanEnd(s, 2, Digit) == 11;
    assert ScanEnd(s, 1, Digit) == 11;
    assert ScanEnd(s, 0, Digit) == 11;
    assert TokenStart(s, 0) == 0;
    assert s[0..11] == s;
    LongLiteralsOverflow(s);
    assert NextTokenAt(s, 0) == Failure(IntegerOverflow);
  }
}
