/** Properties of the composite forms of the parser (src/parser.c) for
    every input: prefix operands, groups, conditionals, function literals
    with their parameter lists, and statements with their optional `;`. */
module ParserForms {
  import opened Wrappers
  import opened Tokens
  import opened Operations
  import opened Ast
  import opened ParserSpec
  import opened ParserProperties

  /** The operation of a prefix operator token. */
  function PrefixOf(kind: TokenKind): (op: Operation)
    requires kind in {Minus, TokenKind.Not}
    ensures IsUnary(op) && OperationPrecedence(op) == Prefix
  {
    if kind == Minus then Negative else Operation.Not
  }

  /** No infix operator binds tighter than PREFIX, so an expression parsed
      at PREFIX precedence is its left operand alone, wrapped in a call
      when a `(` follows: an infix operator is never folded into it. */
  lemma {:induction false} PrefixOperandTakesNoOperator(s: PState, t: PState, left: Expression)
    requires Valid(s) && ParseLeft(s) == Success(t, left)
    ensures Valid(t)
    ensures var (u, call) := NextIf(t, LeftParen);
      ParseExpression(s, Prefix) == Success(u, if call then CallExpression(left, []) else left)
  {
    var (u, call) := NextIf(t, LeftParen);
    var op := InfixOperation(Lookahead(u).kind);
    if op != NoOperation {
      assert Level(OperationPrecedence(op)) < Level(Prefix);
    }
  }

  /** `-` or `!` before a leaf applies to that leaf alone, whatever token
      follows the leaf (other than `(`). */
  lemma {:induction false} PrefixLeaf(s: PState)
    requires Valid(s) && Current(s).kind in {Minus, TokenKind.Not}
    requires IsLeaf(Lookahead(s)) && Lookahead(Advance(s)).kind != LeftParen
    ensures ParseLeft(s) == Success(Advance(s), PrefixExpression(PrefixOf(Current(s).kind), Leaf(Lookahead(s))))
  {
    var a := Advance(s);
    LeftLeaf(a);
    PrefixOperandTakesNoOperator(a, a, Leaf(Current(a)));
    ExpressionNextUnfolds(s, Prefix);
    assert ParseLeft(s) == ParsePrefix(s, PrefixOf(Current(s).kind));
  }

  /** `-a + b`: a prefix operator before a leaf that an infix operator and
      a second leaf follow applies to the first leaf only, and the prefix
      expression is the infix operator's left operand, `((-a) + b)`,
      whatever the infix operator. `a` and `b` are the states at the two
      leaves. */
  lemma {:induction false} PrefixBindsTighter(s: PState, a: PState, b: PState)
    requires Valid(s) && Current(s).kind in {Minus, TokenKind.Not} && a == Advance(s) && b == Advance(Advance(a))
    requires IsLeaf(Current(a)) && IsInfix(Lookahead(a))
    requires IsLeaf(Current(b)) && !IsInfix(Lookahead(b)) && Lookahead(b).kind != LeftParen
    ensures ParseExpression(s, Lowest)
         == Success(b, InfixExpression(BinaryOf(Lookahead(a)),
                                       PrefixExpression(PrefixOf(Current(s).kind), Leaf(Current(a))),
                                       Leaf(Current(b))))
  {
    var operand := PrefixExpression(PrefixOf(Current(s).kind), Leaf(Current(a)));
    PrefixLeaf(s);
    FoldLeaf(a, b, operand, Lowest);
    RightStops(b, InfixExpression(BinaryOf(Lookahead(a)), operand, Leaf(Current(b))), Lowest);
  }

  /** parser_parse_grouped_expression for any inner expression: a failure
      inside is the group's failure; the inner expression itself, with no
      group node, is the value when a `)` follows it; otherwise the parse
      fails with ERROR_EXPRESSION_GROUP_EXPECTED_PAREN at the inner
      expression's last token. */
  lemma {:induction false} Grouped(s: PState)
    requires Valid(s) && Current(s).kind == LeftParen
    ensures var r := ExpressionNext(s, Lowest);
      && (r.Failure? ==> ParseLeft(s) == Failure(r.state))
      && (r.Success? && Lookahead(r.state).kind == RightParen ==> ParseLeft(s) == Success(Advance(r.state), r.value))
      && (r.Success? && Lookahead(r.state).kind != RightParen ==> ParseLeft(s) == Failure(Fail(r.state, GroupExpectedParen)))
  {
    assert ParseLeft(s) == ParseGrouped(s);
  }

  /** `(a o1 b) o2 c`: the parentheses group the first pair whatever the
      two operators' precedences. `a`, `b` and `c` are the states at the
      three leaves. */
  lemma {:induction false} GroupOverridesPrecedence(s: PState, a: PState, b: PState, c: PState)
    requires Valid(s) && Current(s).kind == LeftParen && a == Advance(s) && b == Advance(Advance(a))
    requires IsLeaf(Current(a)) && IsInfix(Lookahead(a)) && IsLeaf(Current(b)) && Lookahead(b).kind == RightParen
    requires IsInfix(Lookahead(Advance(b))) && c == Advance(Advance(Advance(b)))
    requires IsLeaf(Current(c)) && !IsInfix(Lookahead(c)) && Lookahead(c).kind != LeftParen
    ensures ParseExpression(s, Lowest)
         == Success(c, InfixExpression(BinaryOf(Lookahead(Advance(b))),
                                       InfixExpression(BinaryOf(Lookahead(a)), Leaf(Current(a)), Leaf(Current(b))),
                                       Leaf(Current(c))))
  {
    var inner := InfixExpression(BinaryOf(Lookahead(a)), Leaf(Current(a)), Leaf(Current(b)));
    var close := Advance(b);
    ExpressionNextUnfolds(s, Lowest);
    LeafPair(a, b, Lowest);
    Grouped(s);
    FoldLeaf(close, c, inner, Lowest);
    RightStops(c, InfixExpression(BinaryOf(Lookahead(close)), inner, Leaf(Current(c))), Lowest);
  }

  /** parser_parse_conditional_expression once `if (` condition `)` and the
      consequence block have been parsed: without `else` the conditional
      ends on the consequence's `}` with no alternative; with `else` the
      alternative block follows, and its failure is the conditional's. */
  lemma {:induction false} ConditionalParts(s: PState, t2: PState, condition: Expression, t4: PState,
                                            consequence: seq<Statement>)
    requires Valid(s) && Current(s).kind == If && Lookahead(s).kind == LeftParen
    requires ExpressionNext(Advance(s), Lowest) == Success(t2, condition)
    requires Valid(t2) && Lookahead(t2).kind == RightParen
    requires ParseBlock(Advance(t2)) == Success(t4, consequence)
    ensures Valid(t4)
    ensures Lookahead(t4).kind != Else ==>
      ParseLeft(s) == Success(t4, ConditionalExpression(condition, consequence, Option.None))
    ensures Lookahead(t4).kind == Else ==>
      ParseLeft(s) == match ParseBlock(Advance(t4))
        case Failure(t6) => Failure(t6)
        case Success(t6, alternate) => Success(t6, ConditionalExpression(condition, consequence, Some(alternate)))
  {
    assert ParseLeft(s) == ParseConditional(s);
  }

  /** A condition not followed by `)` fails with
      ERROR_EXPRESSION_IF_EXPECTED_RIGHT_PAREN at the token found instead. */
  lemma {:induction false} ConditionWithoutParenthesis(s: PState, t2: PState, condition: Expression)
    requires Valid(s) && Current(s).kind == If && Lookahead(s).kind == LeftParen
    requires ExpressionNext(Advance(s), Lowest) == Success(t2, condition)
    requires Valid(t2) && Lookahead(t2).kind != RightParen
    ensures ParseLeft(s) == Failure(Fail(Advance(t2), IfExpectedRightParen))
  {
    assert ParseLeft(s) == ParseConditional(s);
  }

  /** `if (c) { x }` over two leaves, not followed by `else`: a conditional
      with no alternative, ending on the `}`. `c` and `x` are the states at
      the two leaves. */
  lemma {:induction false} IfWithoutElse(s: PState, c: PState, x: PState)
    requires Valid(s) && Current(s).kind == If && Lookahead(s).kind == LeftParen
    requires c == Advance(Advance(s)) && IsLeaf(Current(c)) && Lookahead(c).kind == RightParen
    requires x == Advance(Advance(Advance(c))) && Lookahead(Advance(c)).kind == LeftBrace
    requires IsLeaf(Current(x)) && Lookahead(x).kind == RightBrace && Lookahead(Advance(x)).kind != Else
    ensures ParseLeft(s)
         == Success(Advance(x), ConditionalExpression(Leaf(Current(c)),
                                                      [Statement(ExpressionStatement, Option.None, Leaf(Current(x)))],
                                                      Option.None))
  {
    NextLeaf(Advance(s), Lowest);
    LeafBlock(Advance(c), x);
    ConditionalParts(s, c, Leaf(Current(c)), Advance(x), [Statement(ExpressionStatement, Option.None, Leaf(Current(x)))]);
  }

  /** parser_parse_function_expression once the parameters are parsed: the
      body block follows, and its failure is the literal's. */
  lemma {:induction false} FunctionParts(s: PState, t2: PState, parameters: seq<string>)
    requires Valid(s) && Current(s).kind == TokenKind.Function && Lookahead(s).kind == LeftParen
    requires ParseParameters(Advance(s)) == Success(t2, parameters)
    ensures Valid(t2)
    ensures ParseLeft(s) == match ParseBlock(t2)
      case Failure(t3) => Failure(t3)
      case Success(t3, body) => Success(t3, FunctionExpression(parameters, body))
  {
    assert ParseLeft(s) == ParseFunction(s);
  }

  /** `fn` not followed by `(` fails with
      ERROR_EXPRESSION_FUNCTION_EXPECTED_LEFT_PAREN at the token found. */
  lemma {:induction false} FunctionWithoutParenthesis(s: PState)
    requires Valid(s) && Current(s).kind == TokenKind.Function && Lookahead(s).kind != LeftParen
    ensures ParseLeft(s) == Failure(Fail(Advance(s), FunctionExpectedLeftParen))
  {
    assert ParseLeft(s) == ParseFunction(s);
  }

  /** One pass of the parameter loop: `,` and a name add the name; `,` and
      anything else fails with FUNCTION_EXPECTED_IDENTIFIER at that token. */
  lemma {:induction false} ParameterStep(s: PState, names: seq<string>)
    requires Valid(s) && Current(s).kind != End && Lookahead(s).kind == Comma
    ensures Current(Advance(s)).kind == Comma
    ensures Lookahead(Advance(s)).kind == Identifier ==>
      ParametersLoop(s, names) == ParametersLoop(Advance(Advance(s)), names + [Lookahead(Advance(s)).lexeme])
    ensures Lookahead(Advance(s)).kind != Identifier ==>
      ParametersLoop(s, names) == Failure(Fail(Advance(Advance(s)), FunctionExpectedIdentifier))
  {
  }

  /** `)` ends the parameter loop with the names gathered. */
  lemma {:induction false} ParametersClose(s: PState, names: seq<string>)
    requires Valid(s) && Current(s).kind != End && Lookahead(s).kind == RightParen
    ensures ParametersLoop(s, names) == Success(Advance(s), names)
  {
  }

  /** The grammar the parameter loop reads, as a reference: the tokens
      after the current one spell `, name` any number of times and then
      `)`. The result is the state at the `)` and the names in order, or
      None when the tokens do not have that shape. */
  function ParameterTail(s: PState): (r: Option<(PState, seq<string>)>)
    requires Valid(s) && Current(s).kind != End
    ensures r.Some? ==> Later(s, r.value.0) && Current(r.value.0).kind == RightParen
    decreases Remaining(s)
  {
    if Lookahead(s).kind == RightParen then Some((Advance(s), []))
    else if Lookahead(s).kind == Comma && Lookahead(Advance(s)).kind == Identifier then
      var rest := ParameterTail(Advance(Advance(s)));
      if rest.None? then Option.None else Some((rest.value.0, [Lookahead(Advance(s)).lexeme] + rest.value.1))
    else Option.None
  }

  /** The parameter loop accepts exactly the token shapes of
      `ParameterTail`: on those it appends every name, in order, and ends
      on the `)`; on any other shape it fails. */
  lemma {:induction false} ParameterList(s: PState, names: seq<string>)
    requires Valid(s) && Current(s).kind != End
    ensures ParameterTail(s).Some? ==>
      ParametersLoop(s, names) == Success(ParameterTail(s).value.0, names + ParameterTail(s).value.1)
    ensures ParameterTail(s).None? ==> ParametersLoop(s, names).Failure?
    decreases Remaining(s)
  {
    if Lookahead(s).kind == RightParen {
      ParametersClose(s, names);
      assert names + [] == names;
    } else if Lookahead(s).kind == Comma && Lookahead(Advance(s)).kind == Identifier {
      var next := Advance(Advance(s));
      ParameterList(next, names + [Lookahead(Advance(s)).lexeme]);
      if ParameterTail(next).Some? {
        NameThenList(s, names);
      } else {
        NameThenFailure(s, names);
      }
    } else if Lookahead(s).kind == Comma {
      ParameterStep(s, names);
    }
  }

  /** The step of `ParameterList` over `, name` when the rest has the
      shape: the name goes before the rest's names. */
  lemma {:induction false} NameThenList(s: PState, names: seq<string>)
    requires Valid(s) && Current(s).kind != End && Lookahead(s).kind == Comma && Lookahead(Advance(s)).kind == Identifier
    requires ParameterTail(Advance(Advance(s))).Some?
    requires var next, more := Advance(Advance(s)), names + [Lookahead(Advance(s)).lexeme];
      ParametersLoop(next, more) == Success(ParameterTail(next).value.0, more + ParameterTail(next).value.1)
    ensures ParameterTail(s).Some?
    ensures ParametersLoop(s, names) == Success(ParameterTail(s).value.0, names + ParameterTail(s).value.1)
  {
    var next, name := Advance(Advance(s)), Lookahead(Advance(s)).lexeme;
    ParameterStep(s, names);
    TailAfterName(s);
    var rest := ParameterTail(next).value.1;
    assert names + [name] + rest == names + ([name] + rest);
  }

  /** `ParameterTail` over `, name` and a well-shaped rest: the rest's
      state, and the name before the rest's names. */
  lemma {:induction false} TailAfterName(s: PState)
    requires Valid(s) && Current(s).kind != End && Lookahead(s).kind == Comma && Lookahead(Advance(s)).kind == Identifier
    requires ParameterTail(Advance(Advance(s))).Some?
    ensures var rest := ParameterTail(Advance(Advance(s))).value;
      ParameterTail(s) == Some((rest.0, [Lookahead(Advance(s)).lexeme] + rest.1))
  {
  }

  /** The step of `ParameterList` over `, name` when the rest does not
      have the shape: the loop fails. */
  lemma {:induction false} NameThenFailure(s: PState, names: seq<string>)
    requires Valid(s) && Current(s).kind != End && Lookahead(s).kind == Comma && Lookahead(Advance(s)).kind == Identifier
    requires ParameterTail(Advance(Advance(s))).None?
    requires ParametersLoop(Advance(Advance(s)), names + [Lookahead(Advance(s)).lexeme]).Failure?
    ensures ParameterTail(s).None? && ParametersLoop(s, names).Failure?
  {
    ParameterStep(s, names);
  }

  /** parser_parse_function_parameters: `)` at once gives no names; a name
      followed by the shape of `ParameterTail` gives that name and the
      following ones, in order; anything else fails. */
  lemma {:induction false} Parameters(s: PState)
    requires Valid(s)
    ensures Lookahead(s).kind == RightParen ==> ParseParameters(s) == Success(Advance(s), [])
    ensures Lookahead(s).kind == Identifier && ParameterTail(Advance(s)).Some? ==>
      ParseParameters(s) == Success(ParameterTail(Advance(s)).value.0, [Lookahead(s).lexeme] + ParameterTail(Advance(s)).value.1)
    ensures Lookahead(s).kind == Identifier && ParameterTail(Advance(s)).None? ==> ParseParameters(s).Failure?
    ensures Lookahead(s).kind !in {Identifier, RightParen} ==> ParseParameters(s).Failure?
  {
    if Lookahead(s).kind == Identifier {
      ParameterList(Advance(s), [Lookahead(s).lexeme]);
    }
  }

  /** parser_parse_let_statement for any value: the statement binds the
      name to the value, and a `;` after the value only moves the parser
      on by one token. */
  lemma {:induction false} LetSemicolon(s: PState, t: PState, value: Expression)
    requires Valid(s) && Current(s).kind == Let && Lookahead(s).kind == Identifier
    requires Lookahead(Advance(s)).kind == Assign && ExpressionNext(Advance(Advance(s)), Lowest) == Success(t, value)
    ensures Valid(t)
    ensures Lookahead(t).kind == Semicolon ==>
      ParseStatement(s) == Success(Advance(t), Statement(LetStatement, Some(Lookahead(s).lexeme), value))
    ensures Lookahead(t).kind != Semicolon ==>
      ParseStatement(s) == Success(t, Statement(LetStatement, Some(Lookahead(s).lexeme), value))
  {
    assert ParseStatement(s) == ParseLet(s);
  }

  /** parser_parse_return_statement for any value: a failure of the value
      is the statement's failure; otherwise the statement returns the
      value, and a `;` after it only moves the parser on by one token. */
  lemma {:induction false} ReturnSemicolon(s: PState)
    requires Valid(s) && Current(s).kind == Return
    ensures var r := ExpressionNext(s, Lowest);
      && (r.Failure? ==> ParseStatement(s) == Failure(r.state))
      && (r.Success? && Lookahead(r.state).kind == Semicolon ==>
            ParseStatement(s) == Success(Advance(r.state), Statement(ReturnStatement, Option.None, r.value)))
      && (r.Success? && Lookahead(r.state).kind != Semicolon ==>
            ParseStatement(s) == Success(r.state, Statement(ReturnStatement, Option.None, r.value)))
  {
    assert ParseStatement(s) == ParseReturn(s);
  }
}
