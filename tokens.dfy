/** Tokens (src/monkey/token.h, src/token.c): the kinds the lexer
    produces, a token as a value, its printed form, and the token record
    the lexer fills in place. */
module Tokens {
  import opened Strings

  datatype TokenKind =
    | None | End | Illegal | Comment | Identifier
    // keywords
    | Let | If | Else | Function | Return | Macro | Quote | Unquote
    // literals
    | Integer | String | True | False
    // operators
    | Assign | Plus | Minus | Multiply | Divide | Equal | Greater | GreaterEqual
    | Less | LessEqual | Not | NotEqual
    // delimiters
    | Comma | Colon | Semicolon | LeftParen | LeftBrace | LeftBracket
    | RightParen | RightBrace | RightBracket

  /** A token as the parser sees it: kind, source line and column, and the
      lexeme text. */
  datatype Token = Token(kind: TokenKind, line: nat, position: int, lexeme: string)

  /** The token that token_init and token_reset produce. */
  const EmptyToken := Token(TokenKind.None, 0, 0, [])

  predicate IsOperator(kind: TokenKind)
  {
    kind in {Assign, Plus, Minus, Multiply, Divide, Equal, Greater, GreaterEqual,
             Less, LessEqual, Not, NotEqual}
  }

  /** The kinds whose printed form shows the lexeme in parentheses. */
  predicate ShowsLexeme(kind: TokenKind)
  {
    kind in {Illegal, Comment, Identifier, Integer, String}
  }

  /** The fixed name token_print uses for a kind that does not show its
      lexeme; empty for the kinds it has no case for. */
  function FixedName(kind: TokenKind): string
  {
    match kind
    case None => "NONE"
    case End => "END"
    case Let => "LET"
    case If => "IF"
    case Else => "ELSE"
    case Function => "FUNCTION"
    case Return => "RETURN"
    case True => "TRUE"
    case False => "FALSE"
    case Comma => "COMMA"
    case Colon => "COLON"
    case Semicolon => "SEMICOLON"
    case LeftParen => "LEFT_PAREN"
    case LeftBrace => "LEFT_BRACE"
    case LeftBracket => "LEFT_BRACKET"
    case RightParen => "RIGHT_PAREN"
    case RightBrace => "RIGHT_BRACE"
    case RightBracket => "RIGHT_BRACKET"
    case Illegal => "ILLEGAL"
    case Comment => "COMMENT"
    case Identifier => "IDENTIFIER"
    case Integer => "INTEGER"
    case String => "STRING"
    case _ => ""
  }

  /** token_print, as the text it writes. */
  function TokenText(t: Token): string
  {
    if ShowsLexeme(t.kind) then FixedName(t.kind) + "(" + t.lexeme + ")\n"
    else if IsOperator(t.kind) then "OPERATOR[" + t.lexeme + "]\n"
    else if t.kind in {Macro, Quote, Unquote} then ""
    else FixedName(t.kind) + "\n"
  }

  /** Literal, identifier, comment and illegal tokens print as NAME(lexeme),
      operators as OPERATOR[lexeme]; every other kind prints a fixed line
      that does not depend on the lexeme, and line and column are never
      printed. */
  lemma TokenTextShape(t: Token, lexeme: string, line: nat, position: int)
    ensures ShowsLexeme(t.kind) ==>
      |TokenText(t)| > |t.lexeme| + 2 && TokenText(t)[|TokenText(t)| - |t.lexeme| - 2..] == t.lexeme + ")\n"
    ensures IsOperator(t.kind) ==> TokenText(t) == "OPERATOR[" + t.lexeme + "]\n"
    ensures !ShowsLexeme(t.kind) && !IsOperator(t.kind) ==>
      TokenText(t) == TokenText(Token(t.kind, line, position, lexeme))
    ensures TokenText(t) == TokenText(t.(line := line, position := position))
  {
    if ShowsLexeme(t.kind) {
      var r := TokenText(t);
      assert r == (FixedName(t.kind) + "(") + (t.lexeme + ")\n");
    }
  }

  /** The token record of src/token.c: kind, line and column fields and an
      embedded lexeme buffer, all overwritten in place. */
  class TokenBuffer {
    var kind: TokenKind
    var line: nat
    var position: int
    const lexeme: StringBuffer

    ghost predicate Valid()
      reads this, lexeme, lexeme.value
    {
      lexeme.Valid()
    }

    /** The token this record currently holds. */
    function Value(): Token
      reads this, lexeme, lexeme.value
      requires Valid()
    {
      Token(kind, line, position, lexeme.Text())
    }

    /** token_init: kind NONE, line and column 0, an unallocated lexeme. */
    constructor Init()
      ensures Valid() && fresh(lexeme)
      ensures Value() == EmptyToken
      ensures lexeme.value == null
    {
      kind := TokenKind.None;
      line := 0;
      position := 0;
      lexeme := new StringBuffer.Init();
    }

    /** token_reset: back to kind NONE, line and column 0 and an empty
        lexeme whose storage (and capacity) is kept. */
    method Reset()
      requires Valid()
      modifies this, lexeme, lexeme.value
      ensures Valid()
      ensures Value() == EmptyToken
      ensures lexeme.value == old(lexeme.value) && lexeme.size == old(lexeme.size)
    {
      kind := TokenKind.None;
      line := 0;
      position := 0;
      lexeme.Reset();
    }

    /** Extends the lexeme by one character (the lexer's token_extend). */
    method Extend(c: char)
      requires Valid()
      modifies lexeme, lexeme.value
      ensures Valid()
      ensures Value() == old(Value()).(lexeme := old(Value().lexeme) + [c])
      ensures lexeme.value == old(lexeme.value) || fresh(lexeme.value)
    {
      lexeme.Append(c);
    }

    /** token_copy: duplicate kind, line and column and deep-copy the
        lexeme, so the copy owns storage of its own. */
    method Copy(source: TokenBuffer)
      requires Valid() && source.Valid()
      modifies this, lexeme
      ensures Valid()
      ensures Value() == old(source.Value())
      ensures lexeme.value == null || fresh(lexeme.value)
    {
      var k, l, p := source.kind, source.line, source.position;
      lexeme.Copy(source.lexeme);
      kind, line, position := k, l, p;
    }
  }
}
