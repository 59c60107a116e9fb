/** The lexer itself: a mutable cursor over an immutable input, advanced one
    character at a time. Each operation is proved against the pure reference
    of module Lexing. */
module Monkey {
  import opened Tokens
  import opened Scan
  import opened Lexing

  /** The outcome of a NextToken call from position p agrees with one step of the
      reference: the same token and the same resting position, or the same
      failure with the cursor left where the failing scan stopped. */
  ghost predicate Produced(s: seq<char>, p: nat, r: Result<Token>, position: nat) {
    match NextTokenAt(s, p)
    case Success(Step(t, next)) => r == Success(t) && position == next
    case Failure(err) => r == Failure(err) && position == FailureRest(s, p)
  }

  class Lexer {
    var position: nat
    var readPosition: nat
    var currentChar: char
    const input: seq<char>

    /** The cursor invariant: the read position is one past the position, and
        the current character is the one at the position, or NUL past the end. */
    ghost predicate Valid()
      reads this
    {
      readPosition == position + 1 && currentChar == CharAt(input, position)
    }

    constructor (s: seq<char>)
      ensures Valid() && input == s
      ensures position == 0 && readPosition == 1
      ensures currentChar == if |s| == 0 then '\0' else s[0]
    {
      position := 0;
      readPosition := 0;
      currentChar := '\0';
      input := s;
      new;
      ReadChar();
    }

    /** Drives NextToken until it yields Eof, collecting every token, Eof included. */
    method ParseTokens() returns (r: TokenStream)
      requires Valid()
      modifies this
      ensures Valid()
      ensures r == TokenizeFrom(input, old(position))
    {
      var tokens: seq<Token> := [];
      ghost var before := position;
      var tok := NextToken();
      while tok.Success? && !tok.value.Eof?
        invariant Valid()
        invariant Produced(input, before, tok, position)
        invariant Prepend(tokens, TokenizeFrom(input, before)) == TokenizeFrom(input, old(position))
        decreases |input| - before
      {
        PrependPrepend(tokens, [tok.value], TokenizeFrom(input, position));
        tokens := tokens + [tok.value];
        before := position;
        tok := NextToken();
      }
      match tok
      case Failure(err) => r := Aborted(tokens, err);
      case Success(t) => r := Finished(tokens + [t]);
    }

    /** Skips whitespace and reads one token, advancing the cursor past it. */
    method NextToken() returns (r: Result<Token>)
      requires Valid()
      modifies this
      ensures Valid()
      ensures Produced(input, old(position), r, position)
      ensures r.Success? && !r.value.Eof? ==> old(position) < position <= |input|
    {
      SkipWhitespace();

      if currentChar == '"' {
        var str := ReadString();
        match str
        case Failure(err) => return Failure(err);
        case Success(text) => return Success(String(text));
      }

      if IsLetter(currentChar) || currentChar == '_' {
        var ident := ReadIdent();
        return Success(LookupIdent(ident));
      }

      if IsDigit(currentChar) {
        var n := ReadInt();
        match n
        case Failure(err) => return Failure(err);
        case Success(v) => return Success(Integer(v));
      }

      var token: Token;
      match currentChar {
        case '=' =>
          var next := Peek();
          if next == '=' {
            token := SkipAndReturn(EQ);
          } else {
            token := Assign;
          }
        case '!' =>
          var next := Peek();
          if next == '=' {
            token := SkipAndReturn(NOT_EQ);
          } else {
            token := Bang;
          }
        case _ =>
          token := CharToken(currentChar);
      }

      ReadChar();

      return Success(token);
    }

    /** Moves the cursor one character on. */
    method ReadChar()
      modifies this
      ensures position == old(readPosition) && readPosition == old(readPosition) + 1
      ensures currentChar == CharAt(input, old(readPosition))
      ensures Valid()
    {
      if readPosition >= |input| {
        currentChar := '\0';
      } else {
        currentChar := input[readPosition];
      }

      position := readPosition;
      readPosition := readPosition + 1;
    }

    /** The character after the current one, without moving the cursor. */
    method Peek() returns (c: char)
      requires Valid()
      ensures c == CharAt(input, position + 1)
    {
      if readPosition >= |input| {
        return '\0';
      } else {
        return input[readPosition];
      }
    }

    method SkipWhitespace()
      requires Valid()
      modifies this
      ensures Valid()
      ensures position == TokenStart(input, old(position))
    {
      ReadWhile(Whitespace);
    }

    /** Reads the maximal run of letters and underscores at the cursor. */
    method ReadIdent() returns (ident: seq<char>)
      requires Valid() && position <= |input|
      modifies this
      ensures Valid() && position == ScanEnd(input, old(position), IdentChar)
      ensures ident == input[old(position)..position]
    {
      var start := position;

      ReadWhile(IdentChar);

      return input[start..position];
    }

    /** Reads a string literal: steps over the opening quote, reads up to the
        closing quote and steps over it too, or fails at the NUL sentinel. */
    method ReadString() returns (r: Result<seq<char>>)
      requires Valid()
      modifies this
      ensures Valid()
      ensures var start := if old(currentChar) == '"' then old(position) + 1 else old(position);
        var e := ScanEnd(input, start, StringBody);
        if CharAt(input, e) == '\0' then r == Failure(UnterminatedString) && position == e
        else r == Success(input[start..e]) && position == e + 1
    {
      if currentChar == '"' {
        ReadChar();
      }

      var start := position;

      ReadWhile(StringBody);

      if currentChar == '\0' {
        return Failure(UnterminatedString);
      }

      var stringValue := input[start..position];

      ReadChar();

      return Success(stringValue);
    }

    /** Advances the cursor for as long as the current character matches k. */
    method ReadWhile(k: CharClass)
      requires Valid()
      modifies this
      ensures Valid() && position == ScanEnd(input, old(position), k)
    {
      while Matches(k, currentChar)
        invariant Valid()
        invariant position <= ScanEnd(input, old(position), k)
        invariant ScanEnd(input, position, k) == ScanEnd(input, old(position), k)
        decreases ScanEnd(input, old(position), k) - position
      {
        ReadChar();
      }
    }

    /** Reads the maximal run of digits at the cursor and parses it. */
    method ReadInt() returns (r: Result<nat>)
      requires Valid() && IsDigit(currentChar)
      modifies this
      ensures Valid() && position == ScanEnd(input, old(position), Digit)
      ensures old(position) < position && r == ParseInt(input[old(position)..position])
    {
      var start := position;

      ReadWhile(Digit);

      return ParseInt(input[start..position]);
    }

    /** Moves the cursor one character on and hands back the given token. */
    method SkipAndReturn(tokenInfo: Token) returns (r: Token)
      requires Valid()
      modifies this
      ensures Valid() && position == old(position) + 1
      ensures r == tokenInfo
    {
      ReadChar();
      return tokenInfo;
    }
  }

  /** A fresh lexer over s, driven to the end, yields the reference token stream. */
  method Lex(s: seq<char>) returns (r: TokenStream)
    ensures r == Tokenize(s)
  {
    var lexer := new Lexer(s);
    r := lexer.ParseTokens();
  }
}
