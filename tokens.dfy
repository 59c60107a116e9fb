/** Tokens of the Monkey language, the lexer's failure kinds, and the two
    fixed lookup tables the lexer consults: reserved words and single-character
    operators / punctuation. */
module Tokens {

  /** One lexical token: a kind, with a payload for Illegal, Ident, Integer and String. */
  datatype Token =
    | Illegal(ch: char)
    | Eof
    | Ident(name: string)
    | Integer(value: nat)
    | String(text: string)
    | Assign | Plus | Minus | Bang | Asterisk | Slash | LT | GT | EQ | NOT_EQ
    | Comma | Semicolon | LParen | RParen | LSquirly | RSquirly
    | Function | Let | True | False | If | Else | Return

  /** The conditions under which the lexer stops with an exception instead of a token. */
  datatype LexError =
    | UnterminatedString   // a string literal reaches the end of input before its closing quote
    | IntegerOverflow      // a digit run whose value does not fit a signed 32-bit integer

  /** The outcome of one call that may throw. */
  datatype Result<T> = Success(value: T) | Failure(error: LexError)

  /** What a consumer of the token enumeration observes: every token up to and
      including Eof, or the tokens yielded before the enumeration threw. */
  datatype TokenStream =
    | Finished(tokens: seq<Token>)
    | Aborted(tokens: seq<Token>, error: LexError)

  // ---------------------------------------------------------------------------
  // Reserved words
  // ---------------------------------------------------------------------------

  predicate IsKeyword(t: Token) {
    t.Function? || t.Let? || t.True? || t.False? || t.If? || t.Else? || t.Return?
  }

  /** The spelling of each reserved word. */
  function KeywordText(t: Token): (w: string)
    requires IsKeyword(t)
    ensures |w| > 0
  {
    match t
    case Function => "fn"
    case Let => "let"
    case True => "true"
    case False => "false"
    case If => "if"
    case Else => "else"
    case Return => "return"
  }

  const KeywordTexts: set<string> := {"fn", "let", "true", "false", "if", "else", "return"}

  /** Classifies the text of a scanned identifier: an exact match of a reserved
      word gives that keyword, anything else an identifier carrying the text. */
  function LookupIdent(w: string): (t: Token)
    ensures t.Ident? <==> w !in KeywordTexts
    ensures t.Ident? ==> t.name == w
    ensures !t.Ident? ==> IsKeyword(t) && KeywordText(t) == w
  {
    if w == "fn" then Function
    else if w == "let" then Let
    else if w == "true" then True
    else if w == "false" then False
    else if w == "if" then If
    else if w == "else" then Else
    else if w == "return" then Return
    else Ident(w)
  }

  /** Looking up a reserved word's spelling gives back that reserved word. */
  lemma KeywordRoundTrip(t: Token)
    requires IsKeyword(t)
    ensures KeywordText(t) in KeywordTexts
    ensures LookupIdent(KeywordText(t)) == t
  {
  }

  // ---------------------------------------------------------------------------
  // Single-character operators and punctuation
  // ---------------------------------------------------------------------------

  predicate IsPunctuation(t: Token) {
    t.Assign? || t.Bang? || t.Minus? || t.Slash? || t.Asterisk? || t.LT? || t.GT? ||
    t.Plus? || t.Comma? || t.Semicolon? || t.LParen? || t.RParen? || t.LSquirly? || t.RSquirly?
  }

  /** The character each single-character token is written with. */
  function PunctuationChar(t: Token): (c: char)
    requires IsPunctuation(t)
  {
    match t
    case Assign => '='
    case Bang => '!'
    case Minus => '-'
    case Slash => '/'
    case Asterisk => '*'
    case LT => '<'
    case GT => '>'
    case Plus => '+'
    case Comma => ','
    case Semicolon => ';'
    case LParen => '('
    case RParen => ')'
    case LSquirly => '{'
    case RSquirly => '}'
  }

  const PunctuationChars: set<char> :=
    {'=', '!', '-', '/', '*', '<', '>', '+', ',', ';', '(', ')', '{', '}'}

  /** The one-character table of the lexer: each operator or punctuation
      character gives its token, the NUL sentinel gives Eof, and every other
      character is Illegal and carried along as the payload. */
  function CharToken(c: char): (t: Token)
    ensures t.Eof? <==> c == '\0'
    ensures t.Illegal? <==> c != '\0' && c !in PunctuationChars
    ensures t.Illegal? ==> t.ch == c
    ensures c in PunctuationChars ==> IsPunctuation(t) && PunctuationChar(t) == c
    ensures IsPunctuation(t) || t.Eof? || t.Illegal?
  {
    match c
    case '=' => Assign
    case '!' => Bang
    case '-' => Minus
    case '/' => Slash
    case '*' => Asterisk
    case '<' => LT
    case '>' => GT
    case '+' => Plus
    case ',' => Comma
    case ';' => Semicolon
    case '(' => LParen
    case ')' => RParen
    case '{' => LSquirly
    case '}' => RSquirly
    case '\0' => Eof
    case _ => Illegal(c)
  }

  /** The table is a bijection between the fourteen characters and the
      fourteen single-character tokens. */
  lemma PunctuationRoundTrip(t: Token)
    requires IsPunctuation(t)
    ensures PunctuationChar(t) in PunctuationChars
    ensures CharToken(PunctuationChar(t)) == t
  {
  }
}
