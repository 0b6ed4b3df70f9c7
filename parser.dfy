/** The parser of src/parser.c as it runs: a `Parser` object whose current
    token, lookahead and last error every step overwrites, with the loops
    of the C code. Each method is proved to leave the state, and to return
    the flag and the node, that the function of module ParserSpec of the
    same name gives for the state before the call. The lexer is the token
    sequence it would deliver; `pos` is how far the parser has read. */
module Parsing {
  import opened LibC
  import opened Wrappers
  import opened Tokens
  import opened Operations
  import opened Ast
  import opened ParserSpec

  /** A C parse function's report against its specifying outcome. */
  predicate Yields<T(==)>(ok: bool, value: T, state: PState, r: Outcome<T>)
  {
    ok == r.Success? && state == r.state && (ok ==> value == r.value)
  }

  /** parser_next steps forward whenever the token it hands over as the
      new current one is not END. */
  lemma AdvanceMoves(s: PState)
    requires ParserSpec.Valid(s)
    ensures Current(Advance(s)).kind != End ==> Remaining(Advance(s)) < Remaining(s)
  {
    if Remaining(s) == 0 {
      assert s.pos == |s.tokens| - 1;
    }
  }

  class Parser {
    const tokens: seq<Token>
    var pos: int
    var token: Token
    var next: Token
    var error: ParseError

    /** The parser's state as the specification sees it. */
    function State(): PState
      reads this
    {
      PState(tokens, pos, error)
    }

    /** The token fields hold the current token and the lookahead. */
    ghost predicate Valid()
      reads this
    {
      ParserSpec.Valid(State()) && token == Current(State()) && next == Lookahead(State())
    }

    /** parser_init: the current token is the one token_init gives, the
        lookahead the first token, and no error is recorded. */
    constructor Init(stream: seq<Token>)
      requires WellEnded(stream)
      ensures Valid() && State() == Start(stream)
    {
      tokens := stream;
      pos := -1;
      token := EmptyToken;
      next := stream[0];
      error := NoParseError;
    }

    /** parser_next. */
    method Next() returns (more: bool)
      requires Valid()
      modifies this
      ensures Valid() && State() == Advance(old(State()))
      ensures more == NextResult(old(State()))
    {
      token := next;
      if pos + 1 < |tokens| {
        pos := pos + 1;
      }
      next := tokens[if pos + 1 < |tokens| then pos + 1 else pos];
      more := token.kind != End && token.kind != Illegal;
    }

    /** parser_error. */
    method Error(kind: ErrorType)
      requires Valid()
      modifies this
      ensures Valid() && State() == Fail(old(State()), kind)
    {
      error := ParseError(kind, token);
    }

    /** parser_next_if. */
    method NextIf(kind: TokenKind) returns (moved: bool)
      requires Valid()
      modifies this
      ensures Valid() && (State(), moved) == ParserSpec.NextIf(old(State()), kind)
    {
      moved := next.kind == kind;
      if moved {
        var _ := Next();
      }
    }

    /** parser_next_expect. */
    method NextExpect(kind: TokenKind, err: ErrorType) returns (found: bool)
      requires Valid()
      modifies this
      ensures Valid() && (State(), found) == ParserSpec.NextExpect(old(State()), kind, err)
    {
      var _ := Next();
      found := token.kind == kind;
      if !found {
        Error(err);
      }
    }

    /** parser_parse_expression_next. Past the end, parser_next leaves END
        current and the expression parse fails on it at once; that failure
        is taken here directly. */
    method ExpressionNext(p: Precedence) returns (ok: bool, e: Expression)
      requires Valid()
      modifies this
      ensures Valid() && Yields(ok, e, State(), ParserSpec.ExpressionNext(old(State()), p))
      decreases Remaining(State()), 13
    {
      ghost var s := State();
      var _ := Next();
      AdvanceMoves(s);
      if token.kind == End {
        assert ParserSpec.ParseLeft(State()) == Failure(Fail(State(), TokenUnexpected));
        Error(TokenUnexpected);
        return false, NoExpression;
      }
      ok, e := ParseExpression(p);
    }

    /** parser_parse_expression. */
    method ParseExpression(p: Precedence) returns (ok: bool, e: Expression)
      requires Valid()
      modifies this
      ensures Valid() && Yields(ok, e, State(), ParserSpec.ParseExpression(old(State()), p))
      decreases Remaining(State()), 17
    {
      ok, e := ParseLeft();
      if ok {
        ok, e := ParseRight(e, p);
      }
    }

    /** parser_parse_expression_left. */
    method ParseLeft() returns (ok: bool, e: Expression)
      requires Valid()
      modifies this
      ensures Valid() && Yields(ok, e, State(), ParserSpec.ParseLeft(old(State())))
      decreases Remaining(State()), 15
    {
      match token.kind
      case Identifier => ok, e := true, IdentifierExpression(token.lexeme);
      case Integer => ok, e := true, IntegerExpression(Atoi(token.lexeme));
      case String => ok, e := true, StringExpression(token.lexeme);
      case True => ok, e := true, BoolExpression(true);
      case False => ok, e := true, BoolExpression(false);
      case Minus => ok, e := ParsePrefix(Negative);
      case Not => ok, e := ParsePrefix(Operation.Not);
      case LeftParen => ok, e := ParseGrouped();
      case If => ok, e := ParseConditional();
      case Function => ok, e := ParseFunction();
      case Macro => ok, e := false, NoExpression;
      case Quote => ok, e := false, NoExpression;
      case Unquote => ok, e := false, NoExpression;
      case _ =>
        Error(TokenUnexpected);
        ok, e := false, NoExpression;
    }

    /** parser_parse_prefix_expression. */
    method ParsePrefix(op: Operation) returns (ok: bool, e: Expression)
      requires Valid()
      modifies this
      ensures Valid() && Yields(ok, e, State(), ParserSpec.ParsePrefix(old(State()), op))
      decreases Remaining(State()), 14
    {
      var operand;
      ok, operand := ExpressionNext(Prefix);
      e := PrefixExpression(op, operand);
    }

    /** parser_parse_grouped_expression. */
    method ParseGrouped() returns (ok: bool, e: Expression)
      requires Valid()
      modifies this
      ensures Valid() && Yields(ok, e, State(), ParserSpec.ParseGrouped(old(State())))
      decreases Remaining(State()), 14
    {
      ok, e := ExpressionNext(Lowest);
      if !ok {
        return;
      }
      ok := NextIf(RightParen);
      if !ok {
        Error(GroupExpectedParen);
      }
    }

    /** parser_parse_conditional_expression. */
    method ParseConditional() returns (ok: bool, e: Expression)
      requires Valid()
      modifies this
      ensures Valid() && Yields(ok, e, State(), ParserSpec.ParseConditional(old(State())))
      decreases Remaining(State()), 14
    {
      e := NoExpression;
      ok := NextExpect(LeftParen, IfExpectedLeftParen);
      if !ok {
        return;
      }
      var condition;
      ok, condition := ExpressionNext(Lowest);
      if !ok {
        return;
      }
      ok := NextExpect(RightParen, IfExpectedRightParen);
      if !ok {
        return;
      }
      var consequence;
      ok, consequence := ParseBlock();
      if !ok {
        return;
      }
      var otherwise := NextIf(Else);
      if !otherwise {
        return true, ConditionalExpression(condition, consequence, Option.None);
      }
      var alternate;
      ok, alternate := ParseBlock();
      e := ConditionalExpression(condition, consequence, Some(alternate));
    }

    /** parser_parse_function_expression. */
    method ParseFunction() returns (ok: bool, e: Expression)
      requires Valid()
      modifies this
      ensures Valid() && Yields(ok, e, State(), ParserSpec.ParseFunction(old(State())))
      decreases Remaining(State()), 14
    {
      e := NoExpression;
      ok := NextExpect(LeftParen, FunctionExpectedLeftParen);
      if !ok {
        return;
      }
      var parameters, body;
      ok, parameters := ParseParameters();
      if !ok {
        return;
      }
      ok, body := ParseBlock();
      e := FunctionExpression(parameters, body);
    }

    /** parser_parse_function_parameters: `)` at once, or a first name and
        then `,` name pairs until `)`. */
    method ParseParameters() returns (ok: bool, names: seq<string>)
      requires Valid()
      modifies this
      ensures Valid() && Yields(ok, names, State(), ParserSpec.ParseParameters(old(State())))
    {
      names := [];
      var closed := NextIf(RightParen);
      if closed {
        return true, [];
      }
      ok := NextExpect(Identifier, FunctionExpectedIdentifier);
      if !ok {
        return;
      }
      names := [token.lexeme];
      while true
        invariant Valid() && Current(State()).kind != End
        invariant ParserSpec.ParseParameters(old(State())) == ParametersLoop(State(), names)
        decreases Remaining(State())
      {
        closed := NextIf(RightParen);
        if closed {
          return true, names;
        }
        ok := NextExpect(Comma, FunctionExpectedComma);
        if !ok {
          return;
        }
        ok := NextExpect(Identifier, FunctionExpectedIdentifier);
        if !ok {
          return;
        }
        names := names + [token.lexeme];
      }
    }

    /** parser_parse_block_expression: `{`, then statements, each followed
        by a step forward, until the current token is `}`. */
    method ParseBlock() returns (ok: bool, statements: seq<Statement>)
      requires Valid()
      modifies this
      ensures Valid() && Yields(ok, statements, State(), ParserSpec.ParseBlock(old(State())))
      decreases Remaining(State()), 21
    {
      statements := [];
      ok := NextExpect(LeftBrace, BlockExpectedLeftBrace);
      if !ok {
        return;
      }
      var _ := Next();
      while token.kind != RightBrace
        invariant Valid() && Later(old(State()), State())
        invariant ParserSpec.ParseBlock(old(State())) == BlockLoop(State(), statements)
        decreases Remaining(State())
      {
        ghost var s := State();
        var statement;
        ok, statement := ParseStatement();
        if !ok {
          return;
        }
        statements := statements + [statement];
        AdvanceMoves(State());
        var _ := Next();
        assert Remaining(State()) < Remaining(s);
      }
      ok := true;
    }

    /** parser_parse_call_arguments: `)` at once, or a first argument and
        then `,` argument pairs until `)`. */
    method ParseCallArguments() returns (ok: bool, arguments: seq<Expression>)
      requires Valid()
      modifies this
      ensures Valid() && Yields(ok, arguments, State(), ParserSpec.ParseCallArguments(old(State())))
    {
      arguments := [];
      var closed := NextIf(RightParen);
      if closed {
        return true, [];
      }
      var argument;
      ok, argument := ExpressionNext(Lowest);
      if !ok {
        return;
      }
      arguments := [argument];
      while true
        invariant Valid() && Current(State()).kind != End
        invariant ParserSpec.ParseCallArguments(old(State())) == ArgumentsLoop(State(), arguments)
        decreases Remaining(State())
      {
        closed := NextIf(RightParen);
        if closed {
          return true, arguments;
        }
        ok := NextExpect(Comma, CallExpectedComma);
        if !ok {
          return;
        }
        ok, argument := ExpressionNext(Lowest);
        if !ok {
          return;
        }
        arguments := arguments + [argument];
      }
    }

    /** parser_parse_expression_right: a `(` lookahead wraps the expression
        in a call; then, while the lookahead is an operator binding tighter
        than the minimum, step onto its right operand, parse it at the
        operator's precedence and fold. */
    method ParseRight(left: Expression, minimum: Precedence) returns (ok: bool, e: Expression)
      requires Valid()
      modifies this
      ensures Valid() && Yields(ok, e, State(), ParserSpec.ParseRight(old(State()), left, minimum))
      decreases Remaining(State()), 16
    {
      e := left;
      while true
        invariant Valid() && Later(old(State()), State())
        invariant ParserSpec.ParseRight(old(State()), left, minimum) == ParserSpec.ParseRight(State(), e, minimum)
        decreases Remaining(State())
      {
        ghost var s := State();
        var call := NextIf(LeftParen);
        if call {
          e := CallExpression(e, []);
        }
        var op := InfixOperation(next.kind);
        if op == NoOperation {
          return true, e;
        }
        var p := OperationPrecedence(op);
        if Level(p) <= Level(minimum) {
          return true, e;
        }
        var _ := Next();
        var _ := Next();
        var right;
        ok, right := ParseExpression(p);
        if !ok {
          return;
        }
        e := InfixExpression(op, e, right);
      }
    }

    /** parser_parse_statement. */
    method ParseStatement() returns (ok: bool, statement: Statement)
      requires Valid()
      modifies this
      ensures Valid() && Yields(ok, statement, State(), ParserSpec.ParseStatement(old(State())))
      decreases Remaining(State()), 19
    {
      if token.kind == Let {
        ok, statement := ParseLet();
      } else if token.kind == Return {
        ok, statement := ParseReturn();
      } else {
        ok, statement := ParseExpressionStatement();
      }
    }

    /** parser_parse_let_statement. */
    method ParseLet() returns (ok: bool, statement: Statement)
      requires Valid()
      modifies this
      ensures Valid() && Yields(ok, statement, State(), ParserSpec.ParseLet(old(State())))
      decreases Remaining(State()), 18
    {
      statement := StatementInit;
      ok := NextExpect(Identifier, LetTokenIdentifier);
      if !ok {
        return;
      }
      var name := token.lexeme;
      ok := NextExpect(Assign, LetTokenAssign);
      if !ok {
        return;
      }
      var value;
      ok, value := ExpressionNext(Lowest);
      if !ok {
        return;
      }
      var _ := NextIf(Semicolon);
      statement := Statement(LetStatement, Some(name), value);
    }

    /** parser_parse_return_statement. */
    method ParseReturn() returns (ok: bool, statement: Statement)
      requires Valid()
      modifies this
      ensures Valid() && Yields(ok, statement, State(), ParserSpec.ParseReturn(old(State())))
      decreases Remaining(State()), 18
    {
      statement := StatementInit;
      var value;
      ok, value := ExpressionNext(Lowest);
      if !ok {
        return;
      }
      var _ := NextIf(Semicolon);
      statement := Statement(ReturnStatement, Option.None, value);
    }

    /** parser_parse_expression_statement. */
    method ParseExpressionStatement() returns (ok: bool, statement: Statement)
      requires Valid()
      modifies this
      ensures Valid() && Yields(ok, statement, State(), ParserSpec.ParseExpressionStatement(old(State())))
      decreases Remaining(State()), 18
    {
      statement := StatementInit;
      var value;
      ok, value := ParseExpression(Lowest);
      if !ok {
        return;
      }
      var _ := NextIf(Semicolon);
      statement := Statement(ExpressionStatement, Option.None, value);
    }

    /** parser_parse_program: while parser_next reports a token other than
        END or ILLEGAL, parse a statement and add it; stop at the first
        failure; an ILLEGAL token records ERROR_TOKEN_ILLEGAL. */
    method ParseProgram() returns (ok: bool, statements: seq<Statement>)
      requires Valid()
      modifies this
      ensures Valid()
      ensures ProgramLoop(old(State()), []) == ProgramResult(State(), ok, statements)
    {
      statements := [];
      while true
        invariant Valid() && Later(old(State()), State())
        invariant ProgramLoop(old(State()), []) == ProgramLoop(State(), statements)
        decreases Remaining(State())
      {
        ghost var s := State();
        AdvanceMoves(s);
        var more := Next();
        if !more {
          break;
        }
        var statement;
        ok, statement := ParseStatement();
        if !ok {
          return;
        }
        statements := statements + [statement];
      }
      if token.kind == Illegal {
        Error(TokenIllegal);
        return false, statements;
      }
      ok := true;
    }
  }
}
