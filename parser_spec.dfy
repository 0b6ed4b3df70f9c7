/** The Pratt parser of src/parser.c as functions over a parser state.

    The lexer behind the parser is a token sequence whose last token is
    END; once the parser reaches it, the lookahead stays END. The state
    holds the sequence, the position of the current token (-1 before the
    first parser_next, when the current token is the one token_init
    produces) and the last error recorded.

    Every C parse function returns a success flag and fills in a node; here
    it returns `Success(state, node)` or `Failure(state)`. */
module ParserSpec {
  import opened LibC
  import opened Wrappers
  import opened Tokens
  import opened Operations
  import opened Ast

  /** The error kinds of src/monkey/error.h together with those the parser
      uses beyond them; `NoError` stands for the state error_init leaves. */
  datatype ErrorType =
    | NoError
    | LetTokenAssign | LetTokenIdentifier | TokenIllegal | TokenUnexpected
    | GroupExpectedParen | IfExpectedLeftParen | IfExpectedRightParen
    | BlockExpectedLeftBrace | BlockExpectedRightBrace
    | PutsExpectedLeftParen | PutsExpectedRightParen
    | FunctionExpectedLeftParen | FunctionExpectedIdentifier | FunctionExpectedComma
    | CallExpectedComma

  /** An error: its kind and a copy of the token the parser was at. */
  datatype ParseError = ParseError(kind: ErrorType, token: Token)

  const NoParseError := ParseError(NoError, EmptyToken)

  datatype PState = PState(tokens: seq<Token>, pos: int, error: ParseError)

  datatype Outcome<T> = Success(state: PState, value: T) | Failure(state: PState)

  /** A token stream as the lexer delivers it: non-empty and ending in END. */
  predicate WellEnded(tokens: seq<Token>)
  {
    |tokens| > 0 && tokens[|tokens| - 1].kind == End
  }

  predicate Valid(s: PState)
  {
    WellEnded(s.tokens) && -1 <= s.pos < |s.tokens|
  }

  /** The number of times parser_next can still move forward. */
  function Remaining(s: PState): nat
    requires Valid(s)
  {
    |s.tokens| - 1 - s.pos
  }

  /** The state after parser_init. */
  function Start(tokens: seq<Token>): (s: PState)
    requires WellEnded(tokens)
    ensures Valid(s) && Remaining(s) == |tokens|
  {
    PState(tokens, -1, NoParseError)
  }

  function Current(s: PState): Token
    requires Valid(s)
  {
    if s.pos < 0 then EmptyToken else s.tokens[s.pos]
  }

  function Lookahead(s: PState): Token
    requires Valid(s)
  {
    s.tokens[if s.pos + 1 < |s.tokens| then s.pos + 1 else s.pos]
  }

  /** Whether `s` and `t` read the same token stream and `t` is no
      further back. */
  predicate Later(s: PState, t: PState)
    requires Valid(s)
  {
    Valid(t) && t.tokens == s.tokens && Remaining(t) <= Remaining(s)
  }

  /** The state change of parser_next: the lookahead becomes the current
      token and the token after it the lookahead. */
  function Advance(s: PState): (t: PState)
    requires Valid(s)
    ensures Later(s, t) && t.error == s.error
    ensures Current(t) == Lookahead(s)
    ensures Remaining(s) > 0 ==> Remaining(t) == Remaining(s) - 1
    ensures Remaining(s) == 0 ==> t == s
    ensures Current(s).kind != End ==> Remaining(t) < Remaining(s)
  {
    if s.pos + 1 < |s.tokens| then s.(pos := s.pos + 1) else s
  }

  /** The result of parser_next: false exactly when the new current token
      is END or ILLEGAL. */
  predicate NextResult(s: PState)
    requires Valid(s)
  {
    Current(Advance(s)).kind != End && Current(Advance(s)).kind != Illegal
  }

  /** parser_error: record the error kind with a copy of the current
      token. */
  function Fail(s: PState, kind: ErrorType): (t: PState)
    requires Valid(s)
    ensures Valid(t) && t.tokens == s.tokens && t.pos == s.pos
    ensures t.error == ParseError(kind, Current(s))
  {
    s.(error := ParseError(kind, Current(s)))
  }

  /** parser_next_if: advance only when the lookahead has the kind. */
  function NextIf(s: PState, kind: TokenKind): (r: (PState, bool))
    requires Valid(s)
    ensures Later(s, r.0) && r.0.error == s.error
    ensures r.1 <==> Lookahead(s).kind == kind
    ensures r.1 ==> r.0 == Advance(s) && Current(r.0).kind == kind
    ensures !r.1 ==> r.0 == s
  {
    if Lookahead(s).kind == kind then (Advance(s), true) else (s, false)
  }

  /** parser_next_expect: always advance; when the new current token is
      not of the kind, record the error with that token and fail. */
  function NextExpect(s: PState, kind: TokenKind, err: ErrorType): (r: (PState, bool))
    requires Valid(s)
    ensures Later(s, r.0) && r.0.pos == Advance(s).pos
    ensures r.1 <==> Lookahead(s).kind == kind
    ensures r.1 ==> r.0 == Advance(s)
    ensures !r.1 ==> r.0.error == ParseError(err, Lookahead(s))
    ensures r.1 && kind != End ==> Remaining(r.0) < Remaining(s)
  {
    var t := Advance(s);
    if Current(t).kind != kind then (Fail(t, err), false) else (t, true)
  }

  /** parser_parse_infix_operation: the operator named by the lookahead,
      if any. */
  function InfixOperation(kind: TokenKind): (op: Operation)
    ensures op == NoOperation || IsBinary(op)
  {
    match kind
    case Equal => Operation.Equal
    case NotEqual => Operation.NotEqual
    case Less => Operation.Less
    case LessEqual => Operation.LessEqual
    case Greater => Operation.Greater
    case GreaterEqual => Operation.GreaterEqual
    case Plus => Add
    case Minus => Subtract
    case Divide => Operation.Divide
    case Multiply => Operation.Multiply
    case _ => NoOperation
  }

  /** The contract every parse function keeps: the same tokens, no step
      back, and on success a current token other than END. */
  predicate Sound<T>(s: PState, r: Outcome<T>)
    requires Valid(s)
  {
    Later(s, r.state) && (r.Success? ==> Current(r.state).kind != End)
  }

  /** parser_parse_expression_next: parser_next, then parse an expression.
      At the end of the stream parser_next stays put and the expression
      parse fails on END at once; that case is written out so that the
      recursion visibly moves forward (`ExpressionNextUnfolds` shows it is
      the same function). */
  function ExpressionNext(s: PState, p: Precedence): (r: Outcome<Expression>)
    requires Valid(s)
    ensures Sound(s, r)
    ensures r.Success? ==> Remaining(r.state) < Remaining(s)
    decreases Remaining(s), 13
  {
    if Remaining(s) == 0 then Failure(Fail(s, TokenUnexpected))
    else ParseExpression(Advance(s), p)
  }

  /** parser_parse_expression: a left operand, then the infix loop. */
  function ParseExpression(s: PState, p: Precedence): (r: Outcome<Expression>)
    requires Valid(s)
    ensures Sound(s, r)
    decreases Remaining(s), 17
  {
    match ParseLeft(s)
    case Failure(t) => Failure(t)
    case Success(t, left) => ParseRight(t, left, p)
  }

  /** parser_parse_expression_left: dispatch on the current token. */
  function ParseLeft(s: PState): (r: Outcome<Expression>)
    requires Valid(s)
    ensures Sound(s, r)
    decreases Remaining(s), 15
  {
    var token := Current(s);
    match token.kind
    case Identifier => Success(s, IdentifierExpression(token.lexeme))
    case Integer => Success(s, IntegerExpression(Atoi(token.lexeme)))
    case String => Success(s, StringExpression(token.lexeme))
    case True => Success(s, BoolExpression(true))
    case False => Success(s, BoolExpression(false))
    case Minus => ParsePrefix(s, Negative)
    case Not => ParsePrefix(s, Operation.Not)
    case LeftParen => ParseGrouped(s)
    case If => ParseConditional(s)
    case Function => ParseFunction(s)
    case Macro => Failure(s)
    case Quote => Failure(s)
    case Unquote => Failure(s)
    case _ => Failure(Fail(s, TokenUnexpected))
  }

  /** parser_parse_prefix_expression: the operand at PREFIX precedence. */
  function ParsePrefix(s: PState, op: Operation): (r: Outcome<Expression>)
    requires Valid(s)
    ensures Sound(s, r)
    decreases Remaining(s), 14
  {
    match ExpressionNext(s, Prefix)
    case Failure(t) => Failure(t)
    case Success(t, operand) => Success(t, PrefixExpression(op, operand))
  }

  /** parser_parse_grouped_expression: an inner expression at LOWEST, then
      a `)` lookahead; without one the error carries the current token,
      the last one of the inner expression. */
  function ParseGrouped(s: PState): (r: Outcome<Expression>)
    requires Valid(s)
    ensures Sound(s, r)
    decreases Remaining(s), 14
  {
    match ExpressionNext(s, Lowest)
    case Failure(t) => Failure(t)
    case Success(t, inner) =>
      var (u, closed) := NextIf(t, RightParen);
      if closed then Success(u, inner) else Failure(Fail(t, GroupExpectedParen))
  }

  /** parser_parse_conditional_expression: `(` condition `)` block, then
      an optional `else` block. */
  function ParseConditional(s: PState): (r: Outcome<Expression>)
    requires Valid(s)
    ensures Sound(s, r)
    decreases Remaining(s), 14
  {
    var (t1, open) := NextExpect(s, LeftParen, IfExpectedLeftParen);
    if !open then Failure(t1)
    else match ExpressionNext(t1, Lowest)
      case Failure(t2) => Failure(t2)
      case Success(t2, condition) =>
        var (t3, close) := NextExpect(t2, RightParen, IfExpectedRightParen);
        if !close then Failure(t3)
        else match ParseBlock(t3)
          case Failure(t4) => Failure(t4)
          case Success(t4, consequence) =>
            var (t5, otherwise) := NextIf(t4, Else);
            if !otherwise then Success(t4, ConditionalExpression(condition, consequence, Option.None))
            else match ParseBlock(t5)
              case Failure(t6) => Failure(t6)
              case Success(t6, alternate) => Success(t6, ConditionalExpression(condition, consequence, Some(alternate)))
  }

  /** parser_parse_function_expression: `(` parameters, then the body. */
  function ParseFunction(s: PState): (r: Outcome<Expression>)
    requires Valid(s)
    ensures Sound(s, r)
    decreases Remaining(s), 14
  {
    var (t1, open) := NextExpect(s, LeftParen, FunctionExpectedLeftParen);
    if !open then Failure(t1)
    else match ParseParameters(t1)
      case Failure(t2) => Failure(t2)
      case Success(t2, parameters) =>
        match ParseBlock(t2)
        case Failure(t3) => Failure(t3)
        case Success(t3, body) => Success(t3, FunctionExpression(parameters, body))
  }

  /** parser_parse_function_parameters: `)` at once, or an identifier
      followed by any number of `,` identifier pairs, then `)`. */
  function ParseParameters(s: PState): (r: Outcome<seq<string>>)
    requires Valid(s)
    ensures Sound(s, r)
  {
    var (t, closed) := NextIf(s, RightParen);
    if closed then Success(t, [])
    else
      var (t1, named) := NextExpect(s, Identifier, FunctionExpectedIdentifier);
      if !named then Failure(t1) else ParametersLoop(t1, [Current(t1).lexeme])
  }

  /** The loop of parser_parse_function_parameters. */
  function ParametersLoop(s: PState, names: seq<string>): (r: Outcome<seq<string>>)
    requires Valid(s) && Current(s).kind != End
    ensures Sound(s, r)
    ensures r.Success? ==> |r.value| >= |names| && r.value[..|names|] == names
    decreases Remaining(s)
  {
    var (t, closed) := NextIf(s, RightParen);
    if closed then Success(t, names)
    else
      var (t1, comma) := NextExpect(s, Comma, FunctionExpectedComma);
      if !comma then Failure(t1)
      else
        var (t2, named) := NextExpect(t1, Identifier, FunctionExpectedIdentifier);
        if !named then Failure(t2) else ParametersLoop(t2, names + [Current(t2).lexeme])
  }

  /** parser_parse_block_expression: `{`, then statements up to `}`. */
  function ParseBlock(s: PState): (r: Outcome<seq<Statement>>)
    requires Valid(s)
    ensures Sound(s, r)
    ensures r.Success? ==> Current(r.state).kind == RightBrace
    decreases Remaining(s), 21
  {
    var (t, open) := NextExpect(s, LeftBrace, BlockExpectedLeftBrace);
    if !open then Failure(t) else BlockLoop(Advance(t), [])
  }

  /** The loop of parser_parse_block_expression: parse a statement and
      move past it until the current token is `}`. */
  function BlockLoop(s: PState, statements: seq<Statement>): (r: Outcome<seq<Statement>>)
    requires Valid(s)
    ensures Sound(s, r)
    ensures r.Success? ==> Current(r.state).kind == RightBrace
    ensures r.Success? ==> |r.value| >= |statements| && r.value[..|statements|] == statements
    decreases Remaining(s), 20
  {
    if Current(s).kind == RightBrace then Success(s, statements)
    else match ParseStatement(s)
      case Failure(t) => Failure(t)
      case Success(t, statement) => BlockLoop(Advance(t), statements + [statement])
  }

  /** parser_parse_call_arguments: `)` at once, or an expression followed
      by any number of `,` expression pairs, then `)`. The call parser
      never invokes it. */
  function ParseCallArguments(s: PState): (r: Outcome<seq<Expression>>)
    requires Valid(s)
    ensures Sound(s, r)
  {
    var (t, closed) := NextIf(s, RightParen);
    if closed then Success(t, [])
    else match ExpressionNext(s, Lowest)
      case Failure(t1) => Failure(t1)
      case Success(t1, argument) => ArgumentsLoop(t1, [argument])
  }

  /** The loop of parser_parse_call_arguments. */
  function ArgumentsLoop(s: PState, arguments: seq<Expression>): (r: Outcome<seq<Expression>>)
    requires Valid(s) && Current(s).kind != End
    ensures Sound(s, r)
    ensures r.Success? ==> |r.value| >= |arguments| && r.value[..|arguments|] == arguments
    decreases Remaining(s)
  {
    var (t, closed) := NextIf(s, RightParen);
    if closed then Success(t, arguments)
    else
      var (t1, comma) := NextExpect(s, Comma, CallExpectedComma);
      if !comma then Failure(t1)
      else match ExpressionNext(t1, Lowest)
        case Failure(t2) => Failure(t2)
        case Success(t2, argument) => ArgumentsLoop(t2, arguments + [argument])
  }

  /** parser_parse_expression_right: while the lookahead is an infix
      operator binding tighter than `minimum`, fold the expression so far
      into the left operand and parse the right operand at the operator's
      own precedence. A `(` lookahead first wraps the expression in a call
      without arguments. */
  function ParseRight(s: PState, left: Expression, minimum: Precedence): (r: Outcome<Expression>)
    requires Valid(s)
    ensures Later(s, r.state)
    ensures r.Success? ==> r.state == s || Current(r.state).kind != End
    decreases Remaining(s), 16
  {
    var (t, call) := NextIf(s, LeftParen);
    var e := if call then CallExpression(left, []) else left;
    var op := InfixOperation(Lookahead(t).kind);
    if op == NoOperation then Success(t, e)
    else
      var p := OperationPrecedence(op);
      if Level(p) <= Level(minimum) then Success(t, e)
      else
        var u := Advance(Advance(t));
        match ParseExpression(u, p)
        case Failure(v) => Failure(v)
        case Success(v, right) => ParseRight(v, InfixExpression(op, e, right), minimum)
  }

  /** parser_parse_statement with the three statement parsers. */
  function ParseStatement(s: PState): (r: Outcome<Statement>)
    requires Valid(s)
    ensures Sound(s, r)
    ensures r.Success? ==> r.value.kind != NoStatement
    decreases Remaining(s), 19
  {
    match Current(s).kind
    case Let => ParseLet(s)
    case Return => ParseReturn(s)
    case _ => ParseExpressionStatement(s)
  }

  /** parser_parse_let_statement: an identifier, `=`, an expression and an
      optional `;`. */
  function ParseLet(s: PState): (r: Outcome<Statement>)
    requires Valid(s)
    ensures Sound(s, r)
    ensures r.Success? ==> r.value.kind == LetStatement && r.value.identifier.Some?
    decreases Remaining(s), 18
  {
    var (t1, named) := NextExpect(s, Identifier, LetTokenIdentifier);
    if !named then Failure(t1)
    else
      var name := Current(t1).lexeme;
      var (t2, assign) := NextExpect(t1, Assign, LetTokenAssign);
      if !assign then Failure(t2)
      else match ExpressionNext(t2, Lowest)
        case Failure(t3) => Failure(t3)
        case Success(t3, value) =>
          Success(NextIf(t3, Semicolon).0, Statement(LetStatement, Some(name), value))
  }

  /** parser_parse_return_statement: an expression and an optional `;`. */
  function ParseReturn(s: PState): (r: Outcome<Statement>)
    requires Valid(s)
    ensures Sound(s, r)
    ensures r.Success? ==> r.value.kind == ReturnStatement
    decreases Remaining(s), 18
  {
    match ExpressionNext(s, Lowest)
    case Failure(t) => Failure(t)
    case Success(t, value) => Success(NextIf(t, Semicolon).0, Statement(ReturnStatement, Option.None, value))
  }

  /** parser_parse_expression_statement: an expression starting at the
      current token and an optional `;`. */
  function ParseExpressionStatement(s: PState): (r: Outcome<Statement>)
    requires Valid(s)
    ensures Sound(s, r)
    ensures r.Success? ==> r.value.kind == ExpressionStatement
    decreases Remaining(s), 18
  {
    match ParseExpression(s, Lowest)
    case Failure(t) => Failure(t)
    case Success(t, value) => Success(NextIf(t, Semicolon).0, Statement(ExpressionStatement, Option.None, value))
  }

  /** What parser_parse_program leaves behind: the final state, the result
      and the statements it added to the program. */
  datatype ProgramResult = ProgramResult(state: PState, ok: bool, statements: seq<Statement>)

  /** The loop of parser_parse_program: while parser_next reports a token
      other than END or ILLEGAL, parse a statement; stop at the first
      failure. An ILLEGAL token ends the program with ERROR_TOKEN_ILLEGAL. */
  function ProgramLoop(s: PState, statements: seq<Statement>): (r: ProgramResult)
    requires Valid(s)
    ensures Later(s, r.state)
    ensures |r.statements| >= |statements| && r.statements[..|statements|] == statements
    ensures r.ok ==> Current(r.state).kind == End
    decreases Remaining(s)
  {
    var t := Advance(s);
    if Current(t).kind == End then ProgramResult(t, true, statements)
    else if Current(t).kind == Illegal then ProgramResult(Fail(t, TokenIllegal), false, statements)
    else match ParseStatement(t)
      case Failure(u) => ProgramResult(u, false, statements)
      case Success(u, statement) =>
        var r := ProgramLoop(u, statements + [statement]);
        assert r.statements[..|statements|] == r.statements[..|statements| + 1][..|statements|];
        r
  }

  /** parser_parse_program from the state parser_init leaves. */
  function ParseProgram(tokens: seq<Token>): (r: ProgramResult)
    requires WellEnded(tokens)
    ensures Valid(r.state) && r.state.tokens == tokens
    ensures r.ok ==> Current(r.state).kind == End
  {
    ProgramLoop(Start(tokens), [])
  }
}
