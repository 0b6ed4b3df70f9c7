/** Properties of the parser specification (src/parser.c). */
module ParserProperties {
  import opened LibC
  import opened Wrappers
  import opened Tokens
  import opened Operations
  import opened Ast
  import opened ParserSpec

  /** ExpressionNext is exactly parser_next followed by
      parser_parse_expression, the end-of-stream case included. */
  lemma {:induction false} ExpressionNextUnfolds(s: PState, p: Precedence)
    requires Valid(s)
    ensures ExpressionNext(s, p) == ParseExpression(Advance(s), p)
  {
    if Remaining(s) == 0 {
      assert Current(s).kind == End;
      assert ParseLeft(s) == Failure(Fail(s, TokenUnexpected));
    }
  }

  /** parser_next hands the lookahead over as the new current token and
      reports false exactly on END and ILLEGAL; once at END it stays
      there. */
  lemma {:induction false} NextMovesLookahead(s: PState)
    requires Valid(s)
    ensures Current(Advance(s)) == Lookahead(s)
    ensures NextResult(s) <==> Lookahead(s).kind !in {End, Illegal}
    ensures Current(s).kind == End && s.pos == |s.tokens| - 1 ==> Advance(s) == s
    ensures s.pos + 1 < |s.tokens| ==> Lookahead(Advance(s)) == s.tokens[if s.pos + 2 < |s.tokens| then s.pos + 2 else s.pos + 1]
  {
  }

  /** A token that starts no expression fails the expression parse at
      once with ERROR_TOKEN_UNEXPECTED and a copy of that token; macro,
      quote and unquote fail without recording an error. */
  lemma {:induction false} LeftRejects(s: PState, p: Precedence)
    requires Valid(s)
    ensures Current(s).kind !in {Identifier, Integer, TokenKind.String, True, False, Minus, TokenKind.Not,
                                  LeftParen, If, TokenKind.Function, Macro, Quote, Unquote} ==>
      ParseExpression(s, p) == Failure(Fail(s, TokenUnexpected))
    ensures Current(s).kind in {Macro, Quote, Unquote} ==> ParseExpression(s, p) == Failure(s)
  {
  }

  /** The token kinds that make a leaf on their own. */
  predicate IsLeaf(t: Token)
  {
    t.kind in {Identifier, Integer, TokenKind.String, True, False}
  }

  /** The leaf node parser_parse_expression_left builds for a leaf token:
      integers through atoi, names and strings from the lexeme. */
  function Leaf(t: Token): (e: Expression)
    requires IsLeaf(t)
    ensures TypeOf(e) in {IdentifierType, IntegerType, StringType, BoolType}
  {
    match t.kind
    case Identifier => IdentifierExpression(t.lexeme)
    case Integer => IntegerExpression(Atoi(t.lexeme))
    case String => StringExpression(t.lexeme)
    case True => BoolExpression(true)
    case _ => BoolExpression(false)
  }

  lemma {:induction false} LeftLeaf(s: PState)
    requires Valid(s) && IsLeaf(Current(s))
    ensures ParseLeft(s) == Success(s, Leaf(Current(s)))
  {
  }

  /** A leaf followed by neither `(` nor an operator binding tighter than
      the minimum is a whole expression: the parse stops on the leaf. */
  lemma {:induction false} LoneLeaf(s: PState, p: Precedence)
    requires Valid(s) && IsLeaf(Current(s)) && Lookahead(s).kind != LeftParen
    requires !IsInfix(Lookahead(s)) || Level(OperationPrecedence(BinaryOf(Lookahead(s)))) <= Level(p)
    ensures ParseExpression(s, p) == Success(s, Leaf(Current(s)))
  {
    LeftLeaf(s);
    RightStops(s, Leaf(Current(s)), p);
  }

  /** The binary operator of an operator token. */
  function BinaryOf(t: Token): Operation
  {
    InfixOperation(t.kind)
  }

  predicate IsInfix(t: Token)
  {
    BinaryOf(t) != NoOperation
  }

  /** The infix loop stops when the lookahead is neither `(` nor an
      operator binding tighter than the minimum. */
  lemma {:induction false} RightStops(s: PState, left: Expression, minimum: Precedence)
    requires Valid(s) && Lookahead(s).kind != LeftParen
    requires !IsInfix(Lookahead(s)) || Level(OperationPrecedence(BinaryOf(Lookahead(s)))) <= Level(minimum)
    ensures ParseRight(s, left, minimum) == Success(s, left)
  {
  }

  /** An operator binding tighter than the minimum takes the expression so
      far as its left operand and the next expression, at its own
      precedence, as its right one; the loop then continues after it. */
  lemma {:induction false} RightFolds(s: PState, left: Expression, minimum: Precedence, op: Operation, u: PState, v: PState, right: Expression)
    requires Valid(s) && Lookahead(s).kind != LeftParen && op == BinaryOf(Lookahead(s)) && op != NoOperation
    requires Level(OperationPrecedence(op)) > Level(minimum)
    requires u == Advance(Advance(s)) && ParseExpression(u, OperationPrecedence(op)) == Success(v, right)
    ensures Valid(v)
    ensures ParseRight(s, left, minimum) == ParseRight(v, InfixExpression(op, left, right), minimum)
  {
  }


  /** One turn of the infix loop over a leaf operand: an operator binding
      tighter than the minimum, then a leaf (`s2`, two tokens on) that
      the token after it does not take away, fold into the expression so
      far. */
  lemma {:induction false} FoldLeaf(s: PState, s2: PState, left: Expression, minimum: Precedence)
    requires Valid(s) && s2 == Advance(Advance(s)) && IsInfix(Lookahead(s))
    requires Level(OperationPrecedence(BinaryOf(Lookahead(s)))) > Level(minimum)
    requires IsLeaf(Current(s2)) && Lookahead(s2).kind != LeftParen
    requires !IsInfix(Lookahead(s2))
          || Level(OperationPrecedence(BinaryOf(Lookahead(s2)))) <= Level(OperationPrecedence(BinaryOf(Lookahead(s))))
    ensures ParseRight(s, left, minimum)
         == ParseRight(s2, InfixExpression(BinaryOf(Lookahead(s)), left, Leaf(Current(s2))), minimum)
  {
    var op := BinaryOf(Lookahead(s));
    LoneLeaf(s2, OperationPrecedence(op));
    RightFolds(s, left, minimum, op, s2, s2, Leaf(Current(s2)));
  }

  /** Two leaves joined by an operator that binds tighter than the minimum,
      and followed by neither `(` nor another operator, make one infix
      node. */
  lemma {:induction false} LeafPair(s: PState, s2: PState, p: Precedence)
    requires Valid(s) && s2 == Advance(Advance(s)) && IsLeaf(Current(s)) && IsInfix(Lookahead(s))
    requires Level(OperationPrecedence(BinaryOf(Lookahead(s)))) > Level(p)
    requires IsLeaf(Current(s2)) && !IsInfix(Lookahead(s2)) && Lookahead(s2).kind != LeftParen
    ensures ParseExpression(s, p) == Success(s2, InfixExpression(BinaryOf(Lookahead(s)), Leaf(Current(s)), Leaf(Current(s2))))
  {
    var op := BinaryOf(Lookahead(s));
    var e := InfixExpression(op, Leaf(Current(s)), Leaf(Current(s2)));
    LeftLeaf(s);
    LoneLeaf(s2, OperationPrecedence(op));
    RightFolds(s, Leaf(Current(s)), p, op, s2, s2, Leaf(Current(s2)));
    RightStops(s2, e, p);
  }

  /** A `(` lookahead wraps the expression in a call without arguments;
      when no operator follows, the loop stops on the `(`. */
  lemma {:induction false} CallWraps(s: PState, left: Expression, minimum: Precedence)
    requires Valid(s) && Lookahead(s).kind == LeftParen && !IsInfix(Lookahead(Advance(s)))
    ensures ParseRight(s, left, minimum) == Success(Advance(s), CallExpression(left, []))
  {
  }

  /** parser_next followed by the expression parse, when the next token is
      a leaf followed by neither an operator nor `(`. */
  lemma {:induction false} NextLeaf(s: PState, p: Precedence)
    requires Valid(s) && IsLeaf(Lookahead(s))
    requires !IsInfix(Lookahead(Advance(s))) && Lookahead(Advance(s)).kind != LeftParen
    ensures ExpressionNext(s, p) == Success(Advance(s), Leaf(Lookahead(s)))
  {
    ExpressionNextUnfolds(s, p);
    LoneLeaf(Advance(s), p);
  }

  /** A leaf followed by neither an operator, `(` nor `;` is a whole
      expression statement, which ends on the leaf. */
  lemma {:induction false} LeafStatement(t: PState)
    requires Valid(t) && IsLeaf(Current(t))
    requires !IsInfix(Lookahead(t)) && Lookahead(t).kind !in {LeftParen, Semicolon}
    ensures ParseStatement(t) == Success(t, Statement(ExpressionStatement, Option.None, Leaf(Current(t))))
  {
    LoneLeaf(t, Lowest);
    assert ParseStatement(t) == ParseExpressionStatement(t);
  }

  /** One pass of the block loop: a statement, then parser_next past it. */
  lemma {:induction false} BlockStep(s: PState, statements: seq<Statement>, t: PState, statement: Statement)
    requires Valid(s) && Current(s).kind != RightBrace && ParseStatement(s) == Success(t, statement)
    ensures Valid(t)
    ensures BlockLoop(s, statements) == BlockLoop(Advance(t), statements + [statement])
  {
  }

  /** One pass of the program loop: parser_next, then a statement. */
  lemma {:induction false} ProgramStep(s: PState, statements: seq<Statement>, u: PState, statement: Statement)
    requires Valid(s) && Lookahead(s).kind !in {End, Illegal}
    requires ParseStatement(Advance(s)) == Success(u, statement)
    ensures Valid(u)
    ensures ProgramLoop(s, statements) == ProgramLoop(u, statements + [statement])
  {
  }

  /** The program loop ends successfully when parser_next reaches END. */
  lemma {:induction false} ProgramEnd(s: PState, statements: seq<Statement>)
    requires Valid(s) && Lookahead(s).kind == End
    ensures ProgramLoop(s, statements) == ProgramResult(Advance(s), true, statements)
  {
  }

  /** One pass of the argument loop: `,` then an argument expression. */
  lemma {:induction false} ArgumentStep(s: PState, arguments: seq<Expression>, u: PState, argument: Expression)
    requires Valid(s) && Current(s).kind != End && Lookahead(s).kind == Comma
    requires ExpressionNext(Advance(s), Lowest) == Success(u, argument)
    ensures Valid(u) && Current(u).kind != End
    ensures ArgumentsLoop(s, arguments) == ArgumentsLoop(u, arguments + [argument])
  {
  }

  /** A first argument that is a lone leaf starts the argument loop. */
  lemma {:induction false} FirstLeafArgument(s: PState)
    requires Valid(s) && IsLeaf(Lookahead(s))
    requires !IsInfix(Lookahead(Advance(s))) && Lookahead(Advance(s)).kind != LeftParen
    ensures Current(Advance(s)).kind != End
    ensures ParseCallArguments(s) == ArgumentsLoop(Advance(s), [Leaf(Lookahead(s))])
  {
    NextLeaf(s, Lowest);
  }

  /** `,` and a lone leaf (`s2`, two tokens on) add that leaf to the
      arguments. */
  lemma {:induction false} LeafArgument(s: PState, s2: PState, arguments: seq<Expression>)
    requires Valid(s) && Current(s).kind != End && Lookahead(s).kind == Comma && s2 == Advance(Advance(s))
    requires IsLeaf(Current(s2)) && !IsInfix(Lookahead(s2)) && Lookahead(s2).kind != LeftParen
    ensures Current(s2).kind != End
    ensures ArgumentsLoop(s, arguments) == ArgumentsLoop(s2, arguments + [Leaf(Current(s2))])
  {
    NextLeaf(Advance(s), Lowest);
    ArgumentStep(s, arguments, s2, Leaf(Current(s2)));
  }

  /** `)` ends the argument loop with the arguments gathered. */
  lemma {:induction false} ArgumentsClose(s: PState, arguments: seq<Expression>)
    requires Valid(s) && Current(s).kind != End && Lookahead(s).kind == RightParen
    ensures ArgumentsLoop(s, arguments) == Success(Advance(s), arguments)
  {
  }

  /** An expression statement: the expression, then an optional `;` that
      only moves the parser on by one token; the statement is the same
      with or without it. */
  lemma {:induction false} ExpressionStatementOf(s: PState, t: PState, e: Expression)
    requires Valid(s) && Current(s).kind !in {Let, Return} && ParseExpression(s, Lowest) == Success(t, e)
    ensures Valid(t)
    ensures Lookahead(t).kind != Semicolon ==> ParseStatement(s) == Success(t, Statement(ExpressionStatement, Option.None, e))
    ensures Lookahead(t).kind == Semicolon ==> ParseStatement(s) == Success(Advance(t), Statement(ExpressionStatement, Option.None, e))
  {
    assert ParseStatement(s) == ParseExpressionStatement(s);
  }

  /** A let statement `let name = leaf`, where `v` is the value's token
      (three tokens on), followed by neither an operator nor `(`. */
  lemma {:induction false} LetLeaf(s: PState, v: PState)
    requires Valid(s) && Current(s).kind == Let && Lookahead(s).kind == Identifier
    requires Lookahead(Advance(s)).kind == Assign && v == Advance(Advance(Advance(s)))
    requires IsLeaf(Current(v)) && !IsInfix(Lookahead(v)) && Lookahead(v).kind != LeftParen
    ensures ParseStatement(s)
         == Success(NextIf(v, Semicolon).0, Statement(LetStatement, Some(Lookahead(s).lexeme), Leaf(Current(v))))
  {
    NextLeaf(Advance(Advance(s)), Lowest);
    assert ParseStatement(s) == ParseLet(s);
  }

  /** Three leaves joined by two infix operators where the second does not
      bind tighter than the first: the first pair is grouped, so equal
      precedence associates to the left. `s2` and `s4` are the states two
      and four tokens on. */
  lemma {:induction false} LeftGroups(s: PState, s2: PState, s4: PState, x: Expression, o1: Operation, y: Expression,
                                      o2: Operation, z: Expression)
    requires Valid(s) && s2 == Advance(Advance(s)) && s4 == Advance(Advance(s2))
    requires IsLeaf(Current(s)) && IsInfix(Lookahead(s)) && IsLeaf(Current(s2)) && IsInfix(Lookahead(s2)) && IsLeaf(Current(s4))
    requires !IsInfix(Lookahead(s4)) && Lookahead(s4).kind != LeftParen
    requires x == Leaf(Current(s)) && y == Leaf(Current(s2)) && z == Leaf(Current(s4))
    requires o1 == BinaryOf(Lookahead(s)) && o2 == BinaryOf(Lookahead(s2))
    requires Level(OperationPrecedence(o2)) <= Level(OperationPrecedence(o1))
    ensures ParseExpression(s, Lowest) == Success(s4, InfixExpression(o2, InfixExpression(o1, x, y), z))
  {
    var xy := InfixExpression(o1, x, y);
    LeftLeaf(s);
    FoldLeaf(s, s2, x, Lowest);
    FoldLeaf(s2, s4, xy, Lowest);
    RightStops(s4, InfixExpression(o2, xy, z), Lowest);
  }

  /** Three leaves joined by two infix operators where the second binds
      tighter than the first: the second pair is grouped. */
  lemma {:induction false} RightGroups(s: PState, s2: PState, s4: PState, x: Expression, o1: Operation, y: Expression,
                                       o2: Operation, z: Expression)
    requires Valid(s) && s2 == Advance(Advance(s)) && s4 == Advance(Advance(s2))
    requires IsLeaf(Current(s)) && IsInfix(Lookahead(s)) && IsLeaf(Current(s2)) && IsInfix(Lookahead(s2)) && IsLeaf(Current(s4))
    requires !IsInfix(Lookahead(s4)) && Lookahead(s4).kind != LeftParen
    requires x == Leaf(Current(s)) && y == Leaf(Current(s2)) && z == Leaf(Current(s4))
    requires o1 == BinaryOf(Lookahead(s)) && o2 == BinaryOf(Lookahead(s2))
    requires Level(OperationPrecedence(o2)) > Level(OperationPrecedence(o1))
    ensures ParseExpression(s, Lowest) == Success(s4, InfixExpression(o1, x, InfixExpression(o2, y, z)))
  {
    var yz := InfixExpression(o2, y, z);
    LeftLeaf(s);
    LeafPair(s2, s4, OperationPrecedence(o1));
    RightFolds(s, x, Lowest, o1, s2, s4, yz);
    RightStops(s4, InfixExpression(o1, x, yz), Lowest);
  }

  /** Three leaves joined by two infix operators: when the second
      operator does not bind tighter than the first, the first pair is
      grouped (so equal precedence associates to the left); when it binds
      tighter, the second pair is. */
  lemma {:induction false} TwoOperators(s: PState, s2: PState, s4: PState)
    requires Valid(s) && s2 == Advance(Advance(s)) && s4 == Advance(Advance(s2))
    requires IsLeaf(Current(s)) && IsInfix(Lookahead(s)) && IsLeaf(Current(s2)) && IsInfix(Lookahead(s2)) && IsLeaf(Current(s4))
    requires !IsInfix(Lookahead(s4)) && Lookahead(s4).kind != LeftParen
    ensures var x, y, z := Leaf(Current(s)), Leaf(Current(s2)), Leaf(Current(s4));
      var o1, o2 := BinaryOf(Lookahead(s)), BinaryOf(Lookahead(s2));
      && (Level(OperationPrecedence(o2)) <= Level(OperationPrecedence(o1)) ==>
            ParseExpression(s, Lowest) == Success(s4, InfixExpression(o2, InfixExpression(o1, x, y), z)))
      && (Level(OperationPrecedence(o2)) > Level(OperationPrecedence(o1)) ==>
            ParseExpression(s, Lowest) == Success(s4, InfixExpression(o1, x, InfixExpression(o2, y, z))))
  {
    var x, y, z := Leaf(Current(s)), Leaf(Current(s2)), Leaf(Current(s4));
    var o1, o2 := BinaryOf(Lookahead(s)), BinaryOf(Lookahead(s2));
    if Level(OperationPrecedence(o2)) <= Level(OperationPrecedence(o1)) {
      LeftGroups(s, s2, s4, x, o1, y, o2, z);
    } else {
      RightGroups(s, s2, s4, x, o1, y, o2, z);
    }
  }

  /** An integer token's leaf is its atoi value. */
  lemma {:induction false} IntegerLeaf(t: Token)
    requires t.kind == Integer
    ensures IsLeaf(t) && Leaf(t) == IntegerExpression(Atoi(t.lexeme))
  {
  }

  /** Three integer leaves joined by `-` group to the left. */
  lemma {:induction false} SubtractionLeaves(s: PState, s2: PState, s4: PState)
    requires Valid(s) && s2 == Advance(Advance(s)) && s4 == Advance(Advance(s2))
    requires Current(s).kind == Integer && Lookahead(s).kind == Minus && Current(s2).kind == Integer
    requires Lookahead(s2).kind == Minus && Current(s4).kind == Integer
    requires !IsInfix(Lookahead(s4)) && Lookahead(s4).kind != LeftParen
    ensures ParseExpression(s, Lowest)
         == Success(s4, InfixExpression(Subtract, InfixExpression(Subtract, Leaf(Current(s)), Leaf(Current(s2))), Leaf(Current(s4))))
  {
    LeftGroups(s, s2, s4, Leaf(Current(s)), Subtract, Leaf(Current(s2)), Subtract, Leaf(Current(s4)));
  }

  /** Three integers joined by `-`, `a - b - c`, parse as `((a - b) - c)`. */
  lemma {:induction false} SubtractionAssociatesLeft(s: PState, s2: PState, s4: PState)
    requires Valid(s) && s2 == Advance(Advance(s)) && s4 == Advance(Advance(s2))
    requires Current(s).kind == Integer && Lookahead(s).kind == Minus && Current(s2).kind == Integer
    requires Lookahead(s2).kind == Minus && Current(s4).kind == Integer
    requires !IsInfix(Lookahead(s4)) && Lookahead(s4).kind != LeftParen
    ensures var a, b, c := IntegerExpression(Atoi(Current(s).lexeme)), IntegerExpression(Atoi(Current(s2).lexeme)),
                           IntegerExpression(Atoi(Current(s4).lexeme));
      ParseExpression(s, Lowest) == Success(s4, InfixExpression(Subtract, InfixExpression(Subtract, a, b), c))
  {
    SubtractionLeaves(s, s2, s4);
    IntegerLeaf(Current(s));
    IntegerLeaf(Current(s2));
    IntegerLeaf(Current(s4));
  }

  /** Integer leaves joined by `+` then `*` group to the right. */
  lemma {:induction false} ProductLeaves(s: PState, s2: PState, s4: PState)
    requires Valid(s) && s2 == Advance(Advance(s)) && s4 == Advance(Advance(s2))
    requires Current(s).kind == Integer && Lookahead(s).kind == Plus && Current(s2).kind == Integer
    requires Lookahead(s2).kind == TokenKind.Multiply && Current(s4).kind == Integer
    requires !IsInfix(Lookahead(s4)) && Lookahead(s4).kind != LeftParen
    ensures ParseExpression(s, Lowest)
         == Success(s4, InfixExpression(Add, Leaf(Current(s)), InfixExpression(Operation.Multiply, Leaf(Current(s2)), Leaf(Current(s4)))))
  {
    RightGroups(s, s2, s4, Leaf(Current(s)), Add, Leaf(Current(s2)), Operation.Multiply, Leaf(Current(s4)));
  }

  /** Three integers joined by `+` and `*`, `a + b * c`, parse as
      `(a + (b * c))`. */
  lemma {:induction false} ProductBindsTighter(s: PState, s2: PState, s4: PState)
    requires Valid(s) && s2 == Advance(Advance(s)) && s4 == Advance(Advance(s2))
    requires Current(s).kind == Integer && Lookahead(s).kind == Plus && Current(s2).kind == Integer
    requires Lookahead(s2).kind == TokenKind.Multiply && Current(s4).kind == Integer
    requires !IsInfix(Lookahead(s4)) && Lookahead(s4).kind != LeftParen
    ensures var a, b, c := IntegerExpression(Atoi(Current(s).lexeme)), IntegerExpression(Atoi(Current(s2).lexeme)),
                           IntegerExpression(Atoi(Current(s4).lexeme));
      ParseExpression(s, Lowest) == Success(s4, InfixExpression(Add, a, InfixExpression(Operation.Multiply, b, c)))
  {
    ProductLeaves(s, s2, s4);
    IntegerLeaf(Current(s));
    IntegerLeaf(Current(s2));
    IntegerLeaf(Current(s4));
  }

  /** An example on fixed inputs: the two shapes above print with their
      grouping made explicit, as `((1 - 2) - 3)` and `(1 + (2 * 3))`. */
  lemma {:induction false} PrintedGrouping(one: Expression, two: Expression, three: Expression)
    requires one == IntegerExpression(1) && two == IntegerExpression(2) && three == IntegerExpression(3)
    ensures ExpressionText(InfixExpression(Subtract, InfixExpression(Subtract, one, two), three)) == "((1 - 2) - 3)"
    ensures ExpressionText(InfixExpression(Add, one, InfixExpression(Operation.Multiply, two, three))) == "(1 + (2 * 3))"
  {
    assert ExpressionText(one) == "1" && ExpressionText(two) == "2" && ExpressionText(three) == "3";
  }

  /** parser_next_expect fails on a kind mismatch and records the error
      with the token it moved onto: a program starting `let` followed by
      anything but a name fails with ERROR_LET_TOKEN_IDENTIFIER carrying
      that token, and no statement is added. */
  lemma {:induction false} LetWithoutName(tokens: seq<Token>)
    requires WellEnded(tokens) && |tokens| >= 2 && tokens[0].kind == Let && tokens[1].kind != Identifier
    ensures ParseProgram(tokens) == ProgramResult(PState(tokens, 1, ParseError(LetTokenIdentifier, tokens[1])), false, [])
  {
    var s := Advance(Start(tokens));
    assert ParseStatement(s) == ParseLet(s);
    FailingStatementStopsProgram(Start(tokens), []);
  }

  /** A let statement `let name = leaf` right after the state `s`, then
      END, with or without a `;` in between: the program loop ends
      successfully with that one statement. `v` is the state at the
      value. */
  lemma {:induction false} LetThenEnd(s: PState, v: PState)
    requires Valid(s) && Lookahead(s).kind == Let && Lookahead(Advance(s)).kind == Identifier
    requires Lookahead(Advance(Advance(s))).kind == Assign && v == Advance(Advance(Advance(Advance(s))))
    requires IsLeaf(Current(v)) && !IsInfix(Lookahead(v)) && Lookahead(v).kind != LeftParen
    requires Lookahead(NextIf(v, Semicolon).0).kind == End
    ensures ProgramLoop(s, [])
         == ProgramResult(Advance(NextIf(v, Semicolon).0), true,
                          [Statement(LetStatement, Some(Lookahead(Advance(s)).lexeme), Leaf(Current(v)))])
  {
    var a := Advance(s);
    var statement := Statement(LetStatement, Some(Lookahead(a).lexeme), Leaf(Current(v)));
    var b := NextIf(v, Semicolon).0;
    LetLeaf(a, v);
    ProgramStep(s, [], b, statement);
    assert [] + [statement] == [statement];
    ProgramEnd(b, [statement]);
  }

  /** The program `let name = leaf;` is that one let statement. */
  lemma {:induction false} LetProgramWithSemicolon(tokens: seq<Token>)
    requires |tokens| == 6 && WellEnded(tokens)
    requires tokens[0].kind == Let && tokens[1].kind == Identifier && tokens[2].kind == Assign
    requires IsLeaf(tokens[3]) && tokens[4].kind == Semicolon
    ensures ParseProgram(tokens)
         == ProgramResult(PState(tokens, 5, NoParseError), true,
                          [Statement(LetStatement, Some(tokens[1].lexeme), Leaf(tokens[3]))])
  {
    var s := Start(tokens);
    var v := PState(tokens, 3, NoParseError);
    assert v == Advance(Advance(Advance(Advance(s))));
    LetThenEnd(s, v);
  }

  /** The program `let name = leaf`, without `;`, is that one let
      statement. */
  lemma {:induction false} LetProgramWithoutSemicolon(tokens: seq<Token>)
    requires |tokens| == 5 && WellEnded(tokens)
    requires tokens[0].kind == Let && tokens[1].kind == Identifier && tokens[2].kind == Assign
    requires IsLeaf(tokens[3])
    ensures ParseProgram(tokens)
         == ProgramResult(PState(tokens, 4, NoParseError), true,
                          [Statement(LetStatement, Some(tokens[1].lexeme), Leaf(tokens[3]))])
  {
    var s := Start(tokens);
    var v := PState(tokens, 3, NoParseError);
    assert v == Advance(Advance(Advance(Advance(s))));
    LetThenEnd(s, v);
  }

  /** The `;` after a let statement is optional: `let x = v;` and
      `let x = v` are the same single-statement program. */
  lemma {:induction false} LetSemicolonOptional(with: seq<Token>, without: seq<Token>)
    requires |with| == 6 && WellEnded(with) && |without| == 5 && WellEnded(without)
    requires with[..4] == without[..4] && with[4].kind == Semicolon
    requires with[0].kind == Let && with[1].kind == Identifier && with[2].kind == Assign && IsLeaf(with[3])
    ensures ParseProgram(with).ok && ParseProgram(without).ok
    ensures ParseProgram(with).statements == ParseProgram(without).statements
         == [Statement(LetStatement, Some(with[1].lexeme), Leaf(with[3]))]
  {
    assert with[0] == without[0] && with[1] == without[1] && with[2] == without[2] && with[3] == without[3];
    LetProgramWithSemicolon(with);
    LetProgramWithoutSemicolon(without);
  }

  /** An ILLEGAL token where a statement would start ends the program
      with ERROR_TOKEN_ILLEGAL and that token, keeping the statements
      parsed before it. */
  lemma {:induction false} IllegalStopsProgram(s: PState, statements: seq<Statement>)
    requires Valid(s) && Lookahead(s).kind == Illegal
    ensures ProgramLoop(s, statements)
         == ProgramResult(Advance(s).(error := ParseError(TokenIllegal, Lookahead(s))), false, statements)
  {
  }

  /** The program parse stops at the first statement that fails and
      returns that statement's failure state with the statements before
      it. */
  lemma {:induction false} FailingStatementStopsProgram(s: PState, statements: seq<Statement>)
    requires Valid(s) && Lookahead(s).kind !in {End, Illegal}
    requires ParseStatement(Advance(s)).Failure?
    ensures ProgramLoop(s, statements) == ProgramResult(ParseStatement(Advance(s)).state, false, statements)
  {
  }

  /** A grouped expression returns the inner expression itself (no group
      node). When the `)` is missing the error carries the current token,
      which is the last token of the inner expression, not the offending
      lookahead: `(1 2` reports ERROR_EXPRESSION_GROUP_EXPECTED_PAREN at
      `1`. */
  lemma {:induction false} GroupedLeaf(s: PState)
    requires Valid(s) && Current(s).kind == LeftParen && IsLeaf(Lookahead(s))
    requires !IsInfix(Lookahead(Advance(s))) && Lookahead(Advance(s)).kind != LeftParen
    ensures Lookahead(Advance(s)).kind == RightParen ==>
      ParseLeft(s) == Success(Advance(Advance(s)), Leaf(Lookahead(s)))
    ensures Lookahead(Advance(s)).kind != RightParen ==>
      ParseLeft(s) == Failure(Fail(Advance(s), GroupExpectedParen))
  {
    NextLeaf(s, Lowest);
    assert ParseLeft(s) == ParseGrouped(s);
  }

  /** A `(` after an expression wraps it in a call without arguments and
      leaves the `(` as the current token; the argument list is never
      parsed, so the program `f()` fails on the `)` with
      ERROR_TOKEN_UNEXPECTED after the call statement. */
  lemma {:induction false} CallLeavesArguments(tokens: seq<Token>)
    requires WellEnded(tokens) && |tokens| >= 4 && tokens[0].kind == Identifier
    requires tokens[1].kind == LeftParen && tokens[2].kind == RightParen
    ensures var call := CallExpression(IdentifierExpression(tokens[0].lexeme), []);
      ParseExpression(PState(tokens, 0, NoParseError), Lowest) == Success(PState(tokens, 1, NoParseError), call)
    ensures var call := CallExpression(IdentifierExpression(tokens[0].lexeme), []);
      ParseProgram(tokens)
      == ProgramResult(PState(tokens, 2, ParseError(TokenUnexpected, tokens[2])), false,
                       [Statement(ExpressionStatement, Option.None, call)])
  {
    var s := Advance(Start(tokens));
    var t := Advance(s);
    var u := Advance(t);
    var f := IdentifierExpression(tokens[0].lexeme);
    var call := CallExpression(f, []);
    var statement := Statement(ExpressionStatement, Option.None, call);
    LeftLeaf(s);
    CallWraps(s, f, Lowest);
    ExpressionStatementOf(s, t, call);
    ProgramStep(Start(tokens), [], t, statement);
    LeftRejects(u, Lowest);
    assert ParseStatement(u) == ParseExpressionStatement(u);
    FailingStatementStopsProgram(t, [statement]);
  }

  /** `()` is an empty parameter list. */
  lemma {:induction false} NoParameters(s: PState)
    requires Valid(s) && Lookahead(s).kind == RightParen
    ensures ParseParameters(s) == Success(Advance(s), [])
  {
  }

  /** `(a, b)` names a and b, in that order; `s2` and `s4` are the states
      at the `,` and at the `)`. */
  lemma {:induction false} TwoParameters(s: PState, s2: PState, s4: PState)
    requires Valid(s) && s2 == Advance(Advance(s)) && s4 == Advance(Advance(s2))
    requires Lookahead(s).kind == Identifier && Current(s2).kind == Comma
    requires Lookahead(s2).kind == Identifier && Current(s4).kind == RightParen
    ensures ParseParameters(s) == Success(s4, [Lookahead(s).lexeme, Lookahead(s2).lexeme])
  {
    var a, b := Lookahead(s).lexeme, Lookahead(s2).lexeme;
    var s1, s3 := Advance(s), Advance(s2);
    assert ParseParameters(s) == ParametersLoop(s1, [a]);
    assert ParametersLoop(s1, [a]) == ParametersLoop(s3, [a] + [b]);
    assert [a] + [b] == [a, b];
  }

  /** A parameter name followed by neither `,` nor `)` fails with
      FUNCTION_EXPECTED_COMMA at the token found instead. */
  lemma {:induction false} ParameterWithoutComma(s: PState)
    requires Valid(s) && Lookahead(s).kind == Identifier && Lookahead(Advance(s)).kind !in {Comma, RightParen}
    ensures ParseParameters(s) == Failure(Fail(Advance(Advance(s)), FunctionExpectedComma))
  {
    assert ParseParameters(s) == ParametersLoop(Advance(s), [Lookahead(s).lexeme]);
  }

  /** A parameter list that does not start with a name or `)` fails with
      FUNCTION_EXPECTED_IDENTIFIER at the token found instead. */
  lemma {:induction false} ParameterWithoutName(s: PState)
    requires Valid(s) && Lookahead(s).kind !in {Identifier, RightParen}
    ensures ParseParameters(s) == Failure(Fail(Advance(s), FunctionExpectedIdentifier))
  {
  }

  /** Argument lists have the same shape as parameter lists, each
      argument an expression at LOWEST precedence: `(x, y)` over two
      leaves gives their two nodes, in order. */
  lemma {:induction false} TwoArguments(s: PState, s2: PState, s4: PState)
    requires Valid(s) && s2 == Advance(Advance(s)) && s4 == Advance(Advance(s2))
    requires IsLeaf(Lookahead(s)) && Current(s2).kind == Comma
    requires IsLeaf(Lookahead(s2)) && Current(s4).kind == RightParen
    ensures ParseCallArguments(s) == Success(s4, [Leaf(Lookahead(s)), Leaf(Lookahead(s2))])
  {
    var x, y := Leaf(Lookahead(s)), Leaf(Lookahead(s2));
    var s1, s3 := Advance(s), Advance(s2);
    FirstLeafArgument(s);
    LeafArgument(s1, s3, [x]);
    assert [x] + [y] == [x, y];
    ArgumentsClose(s3, [x, y]);
  }

  /** An argument followed by neither `,` nor `)` fails with
      CALL_EXPECTED_COMMA at the token found instead. */
  lemma {:induction false} ArgumentError(s: PState)
    requires Valid(s) && IsLeaf(Lookahead(s)) && !IsInfix(Lookahead(Advance(s)))
    requires Lookahead(Advance(s)).kind !in {LeftParen, Comma, RightParen}
    ensures ParseCallArguments(s) == Failure(Fail(Advance(Advance(s)), CallExpectedComma))
  {
    FirstLeafArgument(s);
  }

  /** A block holding one leaf expression statement, `{ x }`; `x` is the
      state at the leaf, two tokens on. */
  lemma {:induction false} LeafBlock(s: PState, x: PState)
    requires Valid(s) && Lookahead(s).kind == LeftBrace && x == Advance(Advance(s))
    requires IsLeaf(Current(x)) && Lookahead(x).kind == RightBrace
    ensures ParseBlock(s) == Success(Advance(x), [Statement(ExpressionStatement, Option.None, Leaf(Current(x)))])
  {
    var statement := Statement(ExpressionStatement, Option.None, Leaf(Current(x)));
    LeafStatement(x);
    BlockStep(x, [], x, statement);
    assert [] + [statement] == [statement];
  }

  /** `if (c) { x } else { y }` over three leaves is a conditional with
      one statement in each branch; `c`, `x` and `y` are the states at
      the three leaves. */
  lemma {:induction false} IfElse(s: PState, c: PState, x: PState, y: PState)
    requires Valid(s) && Current(s).kind == If && Lookahead(s).kind == LeftParen
    requires c == Advance(Advance(s)) && IsLeaf(Current(c)) && Lookahead(c).kind == RightParen
    requires x == Advance(Advance(Advance(c))) && Lookahead(Advance(c)).kind == LeftBrace
    requires IsLeaf(Current(x)) && Lookahead(x).kind == RightBrace && Lookahead(Advance(x)).kind == Else
    requires y == Advance(Advance(Advance(Advance(x)))) && Lookahead(Advance(Advance(x))).kind == LeftBrace
    requires IsLeaf(Current(y)) && Lookahead(y).kind == RightBrace
    ensures ParseLeft(s)
         == Success(Advance(y),
                    ConditionalExpression(Leaf(Current(c)),
                                          [Statement(ExpressionStatement, Option.None, Leaf(Current(x)))],
                                          Some([Statement(ExpressionStatement, Option.None, Leaf(Current(y)))])))
  {
    assert ParseLeft(s) == ParseConditional(s);
    NextLeaf(Advance(s), Lowest);
    LeafBlock(Advance(c), x);
    LeafBlock(Advance(Advance(x)), y);
  }

  /** Without the `(` after `if` the parse fails with
      ERROR_EXPRESSION_IF_EXPECTED_LEFT_PAREN at the token found. */
  lemma {:induction false} IfWithoutParenthesis(s: PState)
    requires Valid(s) && Current(s).kind == If && Lookahead(s).kind != LeftParen
    ensures ParseLeft(s) == Failure(Fail(Advance(s), IfExpectedLeftParen))
  {
  }
}
