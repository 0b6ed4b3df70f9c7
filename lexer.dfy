/** The lexer of src/lexer.c. The input file becomes a character stream
    over a sequence with a cursor: fgetc reads the character under the
    cursor and advances it, ungetc moves it back, and the end-of-file
    indicator is set by a read at the end and cleared by ungetc.

    `Scan` is the specification of lexer_next_aux: the token state machine
    written as a recursive function over the remaining input. The method
    `NextAux` is the goto-driven loop of the source, proved to compute it. */
module Lexer {
  import opened LibC
  import opened Strings
  import opened Tokens

  /** The value fgetc returns at the end of the input. */
  const EOF: int := -1

  class CharStream {
    const input: seq<char>
    var cursor: nat
    var eof: bool

    ghost predicate Valid()
      reads this
    {
      cursor <= |input|
    }

    constructor Open(text: seq<char>)
      ensures Valid() && input == text && cursor == 0 && !eof
    {
      input := text;
      cursor := 0;
      eof := false;
    }

    /** fgetc: the next character as a non-negative code, or EOF (and the
        end-of-file indicator set) when the input is exhausted. */
    method Getc() returns (c: int)
      requires Valid()
      modifies this
      ensures Valid()
      ensures old(cursor) < |input| ==>
        c == input[old(cursor)] as int && cursor == old(cursor) + 1 && eof == old(eof)
      ensures old(cursor) == |input| ==> c == EOF && cursor == old(cursor) && eof
    {
      if cursor < |input| {
        c := input[cursor] as int;
        cursor := cursor + 1;
      } else {
        c := EOF;
        eof := true;
      }
    }

    /** ungetc of the character just read: step back and clear the
        end-of-file indicator. */
    method Ungetc(c: char)
      requires Valid() && 0 < cursor && input[cursor - 1] == c
      modifies this
      ensures Valid() && cursor == old(cursor) - 1 && !eof
    {
      cursor := cursor - 1;
      eof := false;
    }
  }

  /** The token kinds lexer_next_aux can be in at the top of its loop. */
  predicate Resumable(kind: TokenKind)
  {
    kind in {TokenKind.None, Comment, Identifier, Integer, TokenKind.String,
             Assign, Divide, Greater, Less, Not}
  }

  /** The kinds that may end at the end of the input without being
      illegal: the input just seen is a complete token. */
  predicate EndsAtEof(kind: TokenKind)
  {
    kind in {Identifier, Integer, Assign, Divide, Greater, Less}
  }

  /** Whether `c` ends a token of kind `kind` without belonging to it. */
  predicate Terminates(kind: TokenKind, c: char)
  {
    match kind
    case Identifier => !IsAlnum(c) && c != '_'
    case Integer => !IsDigit(c)
    case String => c == '"'
    case Assign | Greater | Less | Not => c != '='
    case Divide => c != '/'
    case _ => false
  }

  /** The kind of a token that is complete after its single character,
      ILLEGAL for a character that starts no token. */
  function SingleKind(c: char): TokenKind
  {
    match c
    case '+' => Plus
    case '-' => Minus
    case '*' => Multiply
    case ',' => Comma
    case ':' => Colon
    case ';' => Semicolon
    case '(' => LeftParen
    case '{' => LeftBrace
    case '[' => LeftBracket
    case ')' => RightParen
    case '}' => RightBrace
    case ']' => RightBracket
    case _ => Illegal
  }

  /** The operator characters that need one character of lookahead. */
  predicate Opens(c: char)
  {
    c == '=' || c == '/' || c == '>' || c == '<' || c == '!'
  }

  function OpenKind(c: char): (k: TokenKind)
    requires Opens(c)
    ensures Resumable(k)
  {
    match c
    case '=' => Assign
    case '/' => Divide
    case '>' => Greater
    case '<' => Less
    case '!' => Not
  }

  /** The kind an operator token becomes once an `=` follows. */
  function WithEqual(kind: TokenKind): TokenKind
  {
    match kind
    case Assign => Equal
    case Greater => GreaterEqual
    case Less => LessEqual
    case _ => NotEqual
  }

  /** What lexer_next_aux leaves behind: its result, the token kind and
      lexeme, and the stream's cursor and end-of-file indicator. */
  datatype Scan = Scan(ok: bool, kind: TokenKind, lexeme: string, cursor: nat, eof: bool)

  /** lexer_next_aux, resumed with the token in state `kind`/`lexeme` and
      the stream at `cursor`. */
  function Aux(input: seq<char>, cursor: nat, kind: TokenKind, lexeme: string): (r: Scan)
    requires cursor <= |input| && Resumable(kind)
    ensures cursor <= r.cursor <= |input|
    ensures r.eof ==> r.cursor == |input|
    ensures r.ok <==> r.kind != Illegal
    ensures r.kind != TokenKind.None && r.kind != Comment
    ensures kind == TokenKind.None ==> r.eof || cursor < r.cursor
    decreases |input| - cursor
  {
    if cursor == |input| then
      if kind == TokenKind.None || kind == Comment then Scan(true, End, lexeme, cursor, true)
      else if EndsAtEof(kind) then Scan(true, kind, lexeme, cursor, true)
      else Scan(false, Illegal, lexeme, cursor, true)
    else
      var c := input[cursor];
      var next := cursor + 1;
      if kind == TokenKind.None && IsSpace(c) then Aux(input, next, TokenKind.None, lexeme)
      else if kind == TokenKind.None && c == '"' then Aux(input, next, TokenKind.String, lexeme)
      else if kind == Comment && c == '\n' then Aux(input, next, TokenKind.None, [])
      else if Terminates(kind, c) then
        // the closing quote is consumed; every other terminator is pushed back
        if kind == TokenKind.String then Scan(true, kind, lexeme, next, false)
        else Scan(true, kind, lexeme, cursor, false)
      else
        var extended := lexeme + [c];
        if kind in {Comment, Identifier, Integer, TokenKind.String} then
          Aux(input, next, kind, extended)
        else if kind == Divide then Aux(input, next, Comment, extended)
        else if kind != TokenKind.None then Scan(true, WithEqual(kind), extended, next, false)
        else if IsAlpha(c) then Aux(input, next, Identifier, extended)
        else if IsDigit(c) then Aux(input, next, Integer, extended)
        else if Opens(c) then Aux(input, next, OpenKind(c), extended)
        else Scan(SingleKind(c) != Illegal, SingleKind(c), extended, next, false)
  }

  /** The keyword classification of lexer_next: strncmp over the length
      of each keyword, so the keyword only has to be a prefix. */
  function Keyword(lexeme: string): (k: TokenKind)
    ensures k == Identifier <==>
      !("let" <= lexeme || "if" <= lexeme || "else" <= lexeme || "fn" <= lexeme
        || "return" <= lexeme || "true" <= lexeme || "false" <= lexeme)
  {
    if "let" <= lexeme then Let
    else if "if" <= lexeme then If
    else if "else" <= lexeme then Else
    else if "fn" <= lexeme then Function
    else if "return" <= lexeme then Return
    else if "true" <= lexeme then True
    else if "false" <= lexeme then False
    else Identifier
  }

  /** What lexer_next leaves behind. */
  datatype Lexed = Lexed(ok: bool, token: Token, cursor: nat, eof: bool)

  /** lexer_next: reset the token; fail at once if the end-of-file
      indicator is already set; otherwise run the state machine from an
      empty token and classify identifiers as keywords. */
  function NextToken(input: seq<char>, cursor: nat, eof: bool): (r: Lexed)
    requires cursor <= |input|
    ensures r.cursor <= |input|
    ensures eof ==> r == Lexed(false, EmptyToken, cursor, eof)
    ensures r.ok ==> r.token.kind !in {TokenKind.None, Comment, Illegal}
    ensures r.token.line == 0 && r.token.position == 0
  {
    if eof then Lexed(false, EmptyToken, cursor, eof)
    else
      var s := Aux(input, cursor, TokenKind.None, []);
      var kind := if s.ok && s.kind == Identifier then Keyword(s.lexeme) else s.kind;
      Lexed(s.ok, Token(kind, 0, 0, s.lexeme), s.cursor, s.eof)
  }

  /** One pass through the body of lexer_next_aux: read a character and
      either finish the token (`done`) or carry on in a new state from
      which the rest of the input gives the same scan. */
  method Step(stream: CharStream, token: TokenBuffer) returns (done: bool, ok: bool)
    requires stream.Valid() && token.Valid() && Resumable(token.kind) && !stream.eof
    modifies stream, token, token.lexeme, token.lexeme.value
    ensures stream.Valid() && token.Valid()
    ensures token.lexeme.value == old(token.lexeme.value) || fresh(token.lexeme.value)
    ensures (token.line == old(token.line) || token.line == 0) && (token.position == old(token.position) || token.position == 0)
    ensures var r := Aux(stream.input, old(stream.cursor), old(token.kind), old(token.lexeme.Text()));
      if done then
        && ok == r.ok && token.kind == r.kind && token.lexeme.Text() == r.lexeme
        && stream.cursor == r.cursor && stream.eof == r.eof
      else
        && Resumable(token.kind) && old(stream.cursor) < stream.cursor && !stream.eof
        && Aux(stream.input, stream.cursor, token.kind, token.lexeme.Text()) == r
  {
    var c := stream.Getc();
    if c == EOF {
      done := true;
      ok := AtEnd(stream, token);
    } else {
      done, ok := Consume(stream, token, c as char);
    }
  }

  /** The loop body once a character `c` has been read: white space before
      a token is dropped, a quote opens a string, a newline ends a comment,
      a terminator finishes the token (pushed back unless it is the closing
      quote), and anything else extends the token. */
  method Consume(stream: CharStream, token: TokenBuffer, c: char) returns (done: bool, ok: bool)
    requires stream.Valid() && token.Valid() && Resumable(token.kind) && !stream.eof
    requires 0 < stream.cursor && stream.input[stream.cursor - 1] == c
    modifies stream, token, token.lexeme, token.lexeme.value
    ensures stream.Valid() && token.Valid() && !stream.eof
    ensures token.lexeme.value == old(token.lexeme.value) || fresh(token.lexeme.value)
    ensures (token.line == old(token.line) || token.line == 0) && (token.position == old(token.position) || token.position == 0)
    ensures var r := Aux(stream.input, old(stream.cursor) - 1, old(token.kind), old(token.lexeme.Text()));
      if done then
        && ok == r.ok && token.kind == r.kind && token.lexeme.Text() == r.lexeme
        && stream.cursor == r.cursor && !r.eof
      else
        && Resumable(token.kind) && stream.cursor == old(stream.cursor)
        && Aux(stream.input, stream.cursor, token.kind, token.lexeme.Text()) == r
  {
    if token.kind == TokenKind.None && IsSpace(c) {
      return false, false;
    }
    if token.kind == TokenKind.None && c == '"' {
      token.kind := TokenKind.String;
      return false, false;
    }
    if token.kind == Comment && c == '\n' {
      token.Reset();
      return false, false;
    } else if Terminates(token.kind, c) {
      if token.kind != TokenKind.String {
        stream.Ungetc(c);
      }
      return true, true;
    }
    done, ok := Extend(stream, token, c);
  }

  /** The end of the input reached in state `token.kind`: states that may
      end at the end of file complete, a comment or no token at all gives
      END, and any other state (an open string, say) is illegal. */
  method AtEnd(stream: CharStream, token: TokenBuffer) returns (ok: bool)
    requires stream.Valid() && token.Valid() && Resumable(token.kind)
    requires stream.cursor == |stream.input|
    modifies token
    ensures token.Valid()
    ensures token.line == old(token.line) && token.position == old(token.position)
    ensures var r := Aux(stream.input, stream.cursor, old(token.kind), token.lexeme.Text());
      ok == r.ok && token.kind == r.kind && token.lexeme.Text() == r.lexeme && r.eof
  {
    if token.kind == TokenKind.None || token.kind == Comment {
      token.kind := End;
      ok := true;
    } else if EndsAtEof(token.kind) {
      ok := true;
    } else {
      token.kind := Illegal;
      ok := false;
    }
  }

  /** The rest of the loop body, once `c` has been appended: a token with
      lookahead completes or turns into a comment; in state NONE the
      character starts a new token. */
  method Extend(stream: CharStream, token: TokenBuffer, c: char) returns (done: bool, ok: bool)
    requires stream.Valid() && token.Valid() && Resumable(token.kind) && 0 < stream.cursor
    requires stream.input[stream.cursor - 1] == c && !Terminates(token.kind, c)
    requires token.kind == TokenKind.None ==> !IsSpace(c) && c != '"'
    requires token.kind == Comment ==> c != '\n'
    modifies token, token.lexeme, token.lexeme.value
    ensures token.Valid()
    ensures token.lexeme.value == old(token.lexeme.value) || fresh(token.lexeme.value)
    ensures token.line == old(token.line) && token.position == old(token.position)
    ensures var r := Aux(stream.input, stream.cursor - 1, old(token.kind), old(token.lexeme.Text()));
      if done then
        ok == r.ok && token.kind == r.kind && token.lexeme.Text() == r.lexeme
        && stream.cursor == r.cursor && !r.eof
      else
        Resumable(token.kind) && Aux(stream.input, stream.cursor, token.kind, token.lexeme.Text()) == r
  {
    ghost var lexeme := token.lexeme.Text();
    token.Extend(c);
    done, ok := Appended(stream, token, c, lexeme);
  }

  /** The state change once `c` has been appended to `lexeme`: tokens that
      run on stay in their state, a `/` followed by anything but a
      terminator opens a comment, a one-character operator with lookahead
      completes as its two-character form, and in state NONE the character
      starts a new token. */
  method Appended(stream: CharStream, token: TokenBuffer, c: char, ghost lexeme: string) returns (done: bool, ok: bool)
    requires stream.Valid() && token.Valid() && Resumable(token.kind) && 0 < stream.cursor
    requires stream.input[stream.cursor - 1] == c && !Terminates(token.kind, c)
    requires token.kind == TokenKind.None ==> !IsSpace(c) && c != '"'
    requires token.kind == Comment ==> c != '\n'
    requires token.lexeme.Text() == lexeme + [c]
    modifies token
    ensures token.Valid()
    ensures token.line == old(token.line) && token.position == old(token.position)
    ensures var r := Aux(stream.input, stream.cursor - 1, old(token.kind), lexeme);
      if done then
        ok == r.ok && token.kind == r.kind && token.lexeme.Text() == r.lexeme
        && stream.cursor == r.cursor && !r.eof
      else
        Resumable(token.kind) && Aux(stream.input, stream.cursor, token.kind, token.lexeme.Text()) == r
  {
    ok := false;
    if token.kind in {Comment, Identifier, Integer, TokenKind.String} {
      return false, false;
    } else if token.kind == Divide {
      token.kind := Comment;
      return false, false;
    } else if token.kind != TokenKind.None {
      token.kind := WithEqual(token.kind);
      return true, true;
    }
    done, ok := Begin(stream, token, c, lexeme);
  }

  /** The start of a new token in state NONE, `c` already appended to
      `lexeme`: the character decides the kind, and whether the token is
      complete. */
  method Begin(stream: CharStream, token: TokenBuffer, c: char, ghost lexeme: string) returns (done: bool, ok: bool)
    requires stream.Valid() && token.Valid() && token.kind == TokenKind.None && 0 < stream.cursor
    requires stream.input[stream.cursor - 1] == c && !IsSpace(c) && c != '"'
    requires token.lexeme.Text() == lexeme + [c]
    modifies token
    ensures token.Valid()
    ensures token.line == old(token.line) && token.position == old(token.position)
    ensures var r := Aux(stream.input, stream.cursor - 1, TokenKind.None, lexeme);
      if done then
        ok == r.ok && token.kind == r.kind && token.lexeme.Text() == r.lexeme
        && stream.cursor == r.cursor && !r.eof
      else
        Resumable(token.kind) && Aux(stream.input, stream.cursor, token.kind, token.lexeme.Text()) == r
  {
    ghost var input, cursor, extended := stream.input, stream.cursor, lexeme + [c];
    assert Aux(input, cursor - 1, TokenKind.None, lexeme)
        == if IsAlpha(c) then Aux(input, cursor, Identifier, extended)
           else if IsDigit(c) then Aux(input, cursor, Integer, extended)
           else if Opens(c) then Aux(input, cursor, OpenKind(c), extended)
           else Scan(SingleKind(c) != Illegal, SingleKind(c), extended, cursor, false);
    ok := false;
    if IsAlpha(c) {
      token.kind := Identifier;
      done := false;
    } else if IsDigit(c) {
      token.kind := Integer;
      done := false;
    } else if Opens(c) {
      token.kind := OpenKind(c);
      done := false;
    } else {
      token.kind := SingleKind(c);
      done, ok := true, token.kind != Illegal;
    }
  }

  /** lexer_next_aux: the loop of the source, each `goto next` a new
      iteration. */
  method NextAux(stream: CharStream, token: TokenBuffer) returns (ok: bool)
    requires stream.Valid() && token.Valid() && Resumable(token.kind) && !stream.eof
    modifies stream, token, token.lexeme, token.lexeme.value
    ensures stream.Valid() && token.Valid()
    ensures (token.line == old(token.line) || token.line == 0) && (token.position == old(token.position) || token.position == 0)
    ensures var r := Aux(stream.input, old(stream.cursor), old(token.kind), old(token.lexeme.Text()));
      && ok == r.ok && token.kind == r.kind && token.lexeme.Text() == r.lexeme
      && stream.cursor == r.cursor && stream.eof == r.eof
  {
    ghost var goal := Aux(stream.input, stream.cursor, token.kind, token.lexeme.Text());
    var done := false;
    ok := false;
    while !done
      invariant stream.Valid() && token.Valid()
      invariant token.lexeme.value == old(token.lexeme.value) || fresh(token.lexeme.value)
      invariant (token.line == old(token.line) || token.line == 0) && (token.position == old(token.position) || token.position == 0)
      invariant !done ==> Resumable(token.kind) && !stream.eof
      invariant !done ==> Aux(stream.input, stream.cursor, token.kind, token.lexeme.Text()) == goal
      invariant done ==>
        && ok == goal.ok && token.kind == goal.kind && token.lexeme.Text() == goal.lexeme
        && stream.cursor == goal.cursor && stream.eof == goal.eof
      decreases !done, |stream.input| - stream.cursor
    {
      done, ok := Step(stream, token);
    }
  }

  /** lexer_next. */
  method Next(stream: CharStream, token: TokenBuffer) returns (ok: bool)
    requires stream.Valid() && token.Valid()
    modifies stream, token, token.lexeme, token.lexeme.value
    ensures stream.Valid() && token.Valid()
    ensures var r := NextToken(stream.input, old(stream.cursor), old(stream.eof));
      ok == r.ok && token.Value() == r.token && stream.cursor == r.cursor && stream.eof == r.eof
  {
    token.Reset();
    if stream.eof {
      return false;
    }
    ok := NextAux(stream, token);
    if !ok || token.kind != Identifier {
      return;
    }
    token.kind := Keyword(token.lexeme.Text());
  }
}
