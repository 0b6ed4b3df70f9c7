/** What the evaluator of src/eval.c promises, stated over the functions of
    module Evaluator: type errors are failures, operands are evaluated left
    to right, blocks stop at a failure or a return, the returned mark ends
    at a call boundary, calls check their arity, and scoping is dynamic. */
module EvalProperties {
  import opened Wrappers
  import opened Operations
  import opened Ast
  import opened Objects
  import opened Functions
  import opened Environments
  import opened Evaluator

  /** An identifier fails exactly when no scope binds it; otherwise it
      gives an unmarked copy of the innermost binding. */
  lemma IdentifierFailsIffUnbound(equal: (Object, Object) -> bool, fuel: nat, scopes: seq<Scope>, name: string, o: Object)
    requires fuel > 0 && |scopes| > 0
    ensures EvalExpression(equal, fuel, scopes, IdentifierExpression(name), o).Failed?
        <==> forall i :: 0 <= i < |scopes| ==> name !in scopes[i]
    ensures EvalExpression(equal, fuel, scopes, IdentifierExpression(name), o).Done? ==>
      EvalExpression(equal, fuel, scopes, IdentifierExpression(name), o).result == Copy(Lookup(scopes, name).value) &&
      !EvalExpression(equal, fuel, scopes, IdentifierExpression(name), o).result.returned
  {
    LookupFailsIffUnbound(scopes, name);
  }

  /** Unary minus succeeds exactly on integers whose negation a C `int`
      holds, and negating twice gives the Object back. */
  lemma NegationInvolution(v: Object)
    requires v.value.Integer? && IsInt(v.value.integer)
    ensures Negate(v).Done? <==> v.value.integer != IntMin
    ensures Negate(v).Done? ==> Negate(Negate(v).result) == Done(v, "")
  {
  }

  /** Unary minus and `!` fail on operands of the wrong type. */
  lemma PrefixTypeErrors(v: Object)
    ensures Negate(v).Failed? <==> !v.value.Integer? || !IsInt(-v.value.integer)
    ensures !v.value.Integer? ==> Negate(v).error == NonIntegerNegation
    ensures Invert(v).Failed? <==> !v.value.Bool?
    ensures !v.value.Bool? ==> Invert(v).error == NonBoolNot
  {
  }

  /** `!` inverts a boolean, and inverting twice gives the Object back. */
  lemma NotInvolution(v: Object)
    requires v.value.Bool?
    ensures Invert(v).Done? && Invert(v).result.value == Bool(!v.value.boolean)
    ensures Invert(Invert(v).result) == Done(v, "")
  {
  }

  /** A prefix expression evaluates its operand into the caller's Object
      and applies the operator there; an operand failure is the whole
      failure, and an operator other than `-` and `!` fails afterwards. */
  lemma PrefixSemantics(equal: (Object, Object) -> bool, fuel: nat, scopes: seq<Scope>, op: Operation,
                        operand: Expression, o: Object)
    requires fuel > 0 && |scopes| > 0
    ensures var inner := EvalExpression(equal, fuel - 1, scopes, operand, o);
      var whole := EvalExpression(equal, fuel, scopes, PrefixExpression(op, operand), o);
      (inner.Failed? ==> whole == inner) &&
      (inner.Done? && op == Negative ==> whole.Done? == (inner.result.value.Integer? && IsInt(-inner.result.value.integer))) &&
      (inner.Done? && op == Negative && whole.Done? ==> whole.result == Object(Integer(-inner.result.value.integer), inner.result.returned)) &&
      (inner.Done? && op == Operation.Not ==> whole.Done? == inner.result.value.Bool?) &&
      (inner.Done? && op == Operation.Not && whole.Done? ==> whole.result == Object(Bool(!inner.result.value.boolean), inner.result.returned)) &&
      (inner.Done? && op != Negative && op != Operation.Not ==> whole == Failed(UnknownPrefix(op), inner.output))
  {
  }

  /** An infix expression evaluates its left operand first, into the
      caller's Object, then its right one, into a fresh Object: a failing
      left operand fails the whole before the right one runs (none of its
      output appears), a failing right operand fails it before the
      operator applies, and the output is the left's then the right's. */
  lemma InfixLeftToRight(equal: (Object, Object) -> bool, fuel: nat, scopes: seq<Scope>, op: Operation,
                         left: Expression, right: Expression, o: Object)
    requires fuel > 0 && |scopes| > 0
    ensures var l := EvalExpression(equal, fuel - 1, scopes, left, o);
      var r := EvalExpression(equal, fuel - 1, scopes, right, Uninitialised);
      var whole := EvalExpression(equal, fuel, scopes, InfixExpression(op, left, right), o);
      (l.Failed? ==> whole == l) &&
      (l.Done? && r.Failed? ==> whole == Failed(r.error, l.output + r.output)) &&
      (l.Done? && r.Done? ==> whole == After(l.output + r.output, InfixAux(equal, op, l.result, r.result)))
  {
  }

  /** `==` and `!=` always give a boolean in the left Object, `!=` the
      negation of object_equal and `==` object_equal itself. */
  lemma ComparisonIsBoolean(equal: (Object, Object) -> bool, left: Object, right: Object)
    ensures InfixAux(equal, Operation.Equal, left, right) == Done(Object(Bool(equal(left, right)), left.returned), "")
    ensures InfixAux(equal, NotEqual, left, right).Done?
    ensures InfixAux(equal, NotEqual, left, right).result.value
         == Bool(!InfixAux(equal, Operation.Equal, left, right).result.value.boolean)
  {
  }

  /** `<`, `<=`, `>` and `>=` succeed exactly on two integers; a
      non-integer left operand and a right operand of another type are
      the two type errors. */
  lemma InequalityTyping(op: Operation, left: Object, right: Object)
    requires op in {Greater, GreaterEqual, Less, LessEqual}
    ensures InfixAux(EqualValues, op, left, right).Done? <==> left.value.Integer? && right.value.Integer?
    ensures !left.value.Integer? ==> InfixAux(EqualValues, op, left, right) == Failed(NonIntegerOperand(op), "")
    ensures left.value.Integer? && !right.value.Integer? ==>
      InfixAux(EqualValues, op, left, right) == Failed(MismatchedTypes(op), "")
    ensures InfixAux(EqualValues, op, left, right).Done? ==>
      InfixAux(EqualValues, op, left, right).result.value.Bool? &&
      InfixAux(EqualValues, op, left, right).result.returned == left.returned
  {
  }

  /** A stand-in for object_equal where one is needed: equal contents. */
  function EqualValues(a: Object, b: Object): (r: bool)
    ensures r <==> a.value == b.value
  {
    a.value == b.value
  }

  /** The four orderings agree with each other: `a > b` is `b < a`,
      `a >= b` is `!(a < b)` and `a <= b` is `!(a > b)`. */
  lemma InequalitiesAgree(a: int, b: int, m: bool, k: bool)
    ensures Inequality(Greater, Object(Integer(a), m), Object(Integer(b), k)).result.value
         == Inequality(Less, Object(Integer(b), m), Object(Integer(a), k)).result.value
    ensures Inequality(GreaterEqual, Object(Integer(a), m), Object(Integer(b), k)).result.value
         == Bool(!Inequality(Less, Object(Integer(a), m), Object(Integer(b), k)).result.value.boolean)
    ensures Inequality(LessEqual, Object(Integer(a), m), Object(Integer(b), k)).result.value
         == Bool(!Inequality(Greater, Object(Integer(a), m), Object(Integer(b), k)).result.value.boolean)
  {
  }

  /** Arithmetic succeeds on two strings only for `+`, and on two integers
      for `+ - * /` unless C leaves the result undefined; every other
      combination of types fails. */
  lemma ArithmeticTyping(op: Operation, left: Object, right: Object)
    requires op in {Add, Subtract, Operation.Multiply, Operation.Divide}
    ensures left.value.Str? ==>
      (Arithmetic(op, left, right).Done? <==> op == Add && right.value.Str?)
    ensures left.value.Str? && op == Add && right.value.Str? ==>
      Arithmetic(op, left, right).result == Object(Str(left.value.text + right.value.text), left.returned)
    ensures !left.value.Str? && !left.value.Integer? ==> Arithmetic(op, left, right) == Failed(NonIntegerOperand(op), "")
    ensures left.value.Integer? && !right.value.Integer? ==> Arithmetic(op, left, right) == Failed(MismatchedTypes(op), "")
    ensures Arithmetic(op, left, right).Done? && left.value.Integer? ==>
      right.value.Integer? && Arithmetic(op, left, right).result.returned == left.returned &&
      IsInt(Arithmetic(op, left, right).result.value.integer)
    ensures left.value.Integer? && right.value.Integer? && op == Operation.Divide && right.value.integer == 0 ==>
      Arithmetic(op, left, right) == Failed(UndefinedBehaviour, "")
  {
  }

  /** Subtraction undoes an addition that did not overflow. */
  lemma SubtractUndoesAdd(a: int, b: int, m: bool, k: bool)
    requires IsInt(a) && IsInt(b) && IsInt(a + b)
    ensures Arithmetic(Add, Object(Integer(a), m), Object(Integer(b), k)) == Done(Object(Integer(a + b), m), "")
    ensures Arithmetic(Subtract, Arithmetic(Add, Object(Integer(a), m), Object(Integer(b), k)).result, Object(Integer(b), k))
         == Done(Object(Integer(a), m), "")
  {
  }

  /** Integer division truncates toward zero (section 6.5.5 of ISO/IEC
      9899:2011): the remainder is smaller than the divisor and has the
      sign of the dividend. */
  lemma QuotientTruncates(a: int, b: int)
    requires b != 0
    ensures Abs(a - Quotient(a, b) * b) < Abs(b)
    ensures a - Quotient(a, b) * b == 0 || (a - Quotient(a, b) * b < 0 <==> a < 0)
  {
    var m, k := Abs(a) / Abs(b), Abs(a) % Abs(b);
    var p := m * Abs(b);
    assert Abs(a) == p + k && 0 <= k < Abs(b);
    var q := Quotient(a, b);
    if (a < 0) == (b < 0) {
      assert q == m;
      ProductSign(m, b);
    } else {
      assert q == -m;
      ProductSign(-m, b);
      assert -m * Abs(b) == -p;
    }
  }

  /** A product with a negated factor is the negated product. */
  lemma ProductSign(x: int, y: int)
    ensures x * y == (if y < 0 then -(x * Abs(y)) else x * Abs(y))
  {
  }

  /** Negating the dividend negates the quotient, as truncation toward
      zero does and flooring would not. */
  lemma QuotientOfNegation(a: int, b: int)
    requires b != 0
    ensures Quotient(-a, b) == -Quotient(a, b)
  {
    assert Abs(-a) == Abs(a);
    if a == 0 {
      assert Abs(a) / Abs(b) == 0;
    }
  }

  /** A conditional fails on a non-boolean condition; otherwise it frees
      the Object and runs the chosen block in a new innermost scope, which
      the result does not carry out; a false condition without `else`
      runs no block at all. */
  lemma ConditionalSemantics(equal: (Object, Object) -> bool, fuel: nat, scopes: seq<Scope>, condition: Expression,
                             consequence: seq<Statement>, alternate: Option<seq<Statement>>, o: Object)
    requires fuel > 0 && |scopes| > 0
    ensures var c := EvalExpression(equal, fuel - 1, scopes, condition, o);
      var whole := EvalExpression(equal, fuel, scopes, ConditionalExpression(condition, consequence, alternate), o);
      var freed := Object(Indeterminate, if c.Done? then c.result.returned else false);
      (c.Failed? ==> whole == c) &&
      (c.Done? && !c.result.value.Bool? ==> whole == Failed(NonBoolCondition, c.output)) &&
      (c.Done? && c.result.value == Bool(false) && alternate.None? ==> whole == Done(freed, c.output)) &&
      (c.Done? && c.result.value == Bool(false) && alternate.Some? ==>
        whole == After(c.output, BlockAux(equal, fuel - 1, [map[]] + scopes, alternate.value, freed))) &&
      (c.Done? && c.result.value == Bool(true) ==>
        whole == After(c.output, BlockAux(equal, fuel - 1, [map[]] + scopes, consequence, freed)))
  {
    var c := EvalExpression(equal, fuel - 1, scopes, condition, o);
    if c.Done? && c.result.value.Bool? {
      var freed := Object(Indeterminate, c.result.returned);
      var whole := EvalExpression(equal, fuel, scopes, ConditionalExpression(condition, consequence, alternate), o);
      assert whole == EvalConditional(equal, fuel - 1, scopes, condition, consequence, alternate, o);
      assert EvalStatementBlock(equal, fuel - 1, scopes, consequence, freed)
          == BlockAux(equal, fuel - 1, [map[]] + scopes, consequence, freed);
      if alternate.Some? {
        assert EvalStatementBlock(equal, fuel - 1, scopes, alternate.value, freed)
            == BlockAux(equal, fuel - 1, [map[]] + scopes, alternate.value, freed);
      }
    }
  }

  /** Whether a block's outcome ends its run early: a failure, or a result
      carrying the returned mark. */
  predicate Stops(r: Outcome)
  {
    r.Failed? || r.result.returned
  }

  /** A block stops at its first failure and at its first returned result:
      once a run has stopped, statements after it make no difference. */
  lemma {:induction false} BlockStopsEarly(equal: (Object, Object) -> bool, fuel: nat, scopes: seq<Scope>,
                                           block: seq<Statement>, rest: seq<Statement>, o: Object)
    requires |scopes| > 0 && |block| > 0
    requires Stops(BlockAux(equal, fuel, scopes, block, o))
    ensures BlockAux(equal, fuel, scopes, block + rest, o) == BlockAux(equal, fuel, scopes, block, o)
    decreases |block|
  {
    assert (block + rest)[0] == block[0];
    var effect := EvalStatement(equal, fuel, scopes, block[0], o);
    if effect.outcome.Done? && !effect.outcome.result.returned && |block| > 1 {
      var next := Object(Indeterminate, false);
      assert (block + rest)[1..] == block[1..] + rest;
      BlockStopsEarly(equal, fuel, effect.scopes, block[1..], rest, next);
    }
  }

  /** A block that finishes without stopping early gives the last
      statement's result; the output is the statements' outputs in
      order. */
  lemma {:induction false} BlockContinues(equal: (Object, Object) -> bool, fuel: nat, scopes: seq<Scope>,
                                          s: Statement, rest: seq<Statement>, o: Object)
    requires |scopes| > 0 && |rest| > 0
    requires EvalStatement(equal, fuel, scopes, s, o).outcome.Done?
    requires !EvalStatement(equal, fuel, scopes, s, o).outcome.result.returned
    ensures var effect := EvalStatement(equal, fuel, scopes, s, o);
      BlockAux(equal, fuel, scopes, [s] + rest, o)
        == After(effect.outcome.output, BlockAux(equal, fuel, effect.scopes, rest, Object(Indeterminate, false)))
  {
    assert ([s] + rest)[0] == s && ([s] + rest)[1..] == rest;
  }

  /** `let` binds the name in the innermost scope to an unmarked copy of
      the value, leaves every other name and every enclosing scope as it
      was, and frees the Object; a failing expression binds nothing. */
  lemma LetBindsInnermost(equal: (Object, Object) -> bool, fuel: nat, scopes: seq<Scope>, name: string,
                          e: Expression, o: Object)
    requires |scopes| > 0
    ensures var v := EvalExpression(equal, fuel, scopes, e, o);
      var r := EvalStatement(equal, fuel, scopes, Statement(LetStatement, Some(name), e), o);
      (v.Failed? ==> r == Effect(v, scopes)) &&
      (v.Done? ==>
        r.outcome == Done(Object(Indeterminate, v.result.returned), v.output) &&
        r.scopes[1..] == scopes[1..] &&
        Lookup(r.scopes, name) == Some(Copy(v.result)) &&
        !Lookup(r.scopes, name).value.returned &&
        forall other :: other != name ==> Lookup(r.scopes, other) == Lookup(scopes, other))
  {
    var v := EvalExpression(equal, fuel, scopes, e, o);
    if v.Done? {
      forall other | other != name
        ensures Lookup(Bind(scopes, name, v.result), other) == Lookup(scopes, other)
      {
        InsertThenRetrieve(scopes, name, other, v.result);
      }
      InsertThenRetrieve(scopes, name, name, v.result);
    }
  }

  /** `return` gives its expression's value with the returned mark set,
      so a block stops right after it. */
  lemma ReturnStopsBlock(equal: (Object, Object) -> bool, fuel: nat, scopes: seq<Scope>, e: Expression,
                         rest: seq<Statement>, o: Object)
    requires |scopes| > 0
    ensures var v := EvalExpression(equal, fuel, scopes, e, o);
      var block := [Statement(ReturnStatement, None, e)] + rest;
      BlockAux(equal, fuel, scopes, block, o) == if v.Done? then Done(v.result.(returned := true), v.output) else v
  {
    var s := Statement(ReturnStatement, None, e);
    BlockStopsEarly(equal, fuel, scopes, [s], rest, o);
    assert [s] + rest == [s] + rest;
  }

  /** A call fails unless the callee is a function or a builtin; a
      function call never passes the returned mark on to its caller; a
      builtin takes exactly one argument. */
  lemma CallSemantics(equal: (Object, Object) -> bool, fuel: nat, scopes: seq<Scope>, callee: Expression,
                      arguments: seq<Expression>, o: Object)
    requires fuel > 0 && |scopes| > 0
    ensures var f := EvalExpression(equal, fuel - 1, scopes, callee, Uninitialised);
      var whole := EvalExpression(equal, fuel, scopes, CallExpression(callee, arguments), o);
      (f.Failed? ==> whole == f) &&
      (f.Done? && !f.result.value.Function? && !f.result.value.Internal? ==> whole == Failed(NonFunctionCall, f.output)) &&
      (f.Done? && f.result.value.Function? && whole.Done? ==> !whole.result.returned) &&
      (f.Done? && f.result.value.Internal? && |arguments| == 0 ==> whole == Failed(NotEnoughArguments, f.output)) &&
      (f.Done? && f.result.value.Internal? && |arguments| > 1 ==> whole == Failed(TooManyArguments, f.output))
  {
    var f := EvalExpression(equal, fuel - 1, scopes, callee, Uninitialised);
    if f.Done? && f.result.value.Internal? {
      var inner := CallInternal(equal, fuel - 1, scopes, f.result.value.builtin, arguments, o);
      assert EvalExpression(equal, fuel, scopes, CallExpression(callee, arguments), o) == After(f.output, inner);
      assert f.output + "" == f.output;
    }
  }

  /** The output written while binding arguments. */
  function BindOutput(equal: (Object, Object) -> bool, fuel: nat, scopes: seq<Scope>, parameters: seq<string>,
                      arguments: seq<Expression>): string
    requires |scopes| > 1
  {
    match BindArguments(equal, fuel, scopes, parameters, arguments)
    case Bound(_, out) => out
    case Unbound(_, out) => out
  }

  /** With arguments that all evaluate, binding succeeds exactly when the
      counts match; extra arguments fail as too many and missing ones as
      not enough. */
  lemma {:induction false} ArityChecked(equal: (Object, Object) -> bool, fuel: nat, scopes: seq<Scope>,
                                        parameters: seq<string>, arguments: seq<Expression>)
    requires |scopes| > 1
    requires forall i :: 0 <= i < |arguments| ==> EvalExpression(equal, fuel, scopes[1..], arguments[i], Uninitialised).Done?
    ensures |parameters| == |arguments| <==> BindArguments(equal, fuel, scopes, parameters, arguments).Bound?
    ensures |parameters| < |arguments| ==>
      BindArguments(equal, fuel, scopes, parameters, arguments) == Unbound(TooManyArguments, BindOutput(equal, fuel, scopes, parameters, arguments))
    ensures |parameters| > |arguments| ==>
      BindArguments(equal, fuel, scopes, parameters, arguments) == Unbound(NotEnoughArguments, BindOutput(equal, fuel, scopes, parameters, arguments))
    decreases |parameters|
  {
    if |parameters| > 0 && |arguments| > 0 {
      var v := EvalExpression(equal, fuel, scopes[1..], arguments[0], Uninitialised);
      assert v.Done?;
      var next := Bind(scopes, parameters[0], v.result);
      assert next[1..] == scopes[1..];
      assert forall i :: 0 <= i < |arguments[1..]| ==> arguments[1..][i] == arguments[i + 1];
      ArityChecked(equal, fuel, next, parameters[1..], arguments[1..]);
      var tail := BindArguments(equal, fuel, next, parameters[1..], arguments[1..]);
      assert BindArguments(equal, fuel, scopes, parameters, arguments)
          == if tail.Unbound? then Unbound(tail.unboundError, v.output + tail.unboundOutput)
             else Bound(tail.bound, v.output + tail.boundOutput);
    }
  }

  /** Parameters with distinct names are each bound, in the call's own
      scope, to an unmarked copy of their argument evaluated in the
      caller's scopes; names that are not parameters keep their binding. */
  lemma {:induction false} ArgumentsBound(equal: (Object, Object) -> bool, fuel: nat, scopes: seq<Scope>,
                                          parameters: seq<string>, arguments: seq<Expression>)
    requires |scopes| > 1
    requires forall i, j :: 0 <= i < j < |parameters| ==> parameters[i] != parameters[j]
    ensures var r := BindArguments(equal, fuel, scopes, parameters, arguments);
      r.Bound? ==>
        (forall i :: 0 <= i < |parameters| ==>
          parameters[i] in r.bound[0] &&
          EvalExpression(equal, fuel, scopes[1..], arguments[i], Uninitialised).Done? &&
          r.bound[0][parameters[i]] == Copy(EvalExpression(equal, fuel, scopes[1..], arguments[i], Uninitialised).result)) &&
        (forall n :: n !in parameters ==> (n in r.bound[0] <==> n in scopes[0]))  &&
        (forall n :: n !in parameters && n in scopes[0] ==> r.bound[0][n] == scopes[0][n])
    decreases |parameters|
  {
    var r := BindArguments(equal, fuel, scopes, parameters, arguments);
    if r.Bound? && |parameters| > 0 {
      var v := EvalExpression(equal, fuel, scopes[1..], arguments[0], Uninitialised);
      var next := Bind(scopes, parameters[0], v.result);
      assert next[1..] == scopes[1..];
      ArgumentsBound(equal, fuel, next, parameters[1..], arguments[1..]);
      assert parameters[0] !in parameters[1..];
      forall i | 0 <= i < |parameters|
        ensures parameters[i] in r.bound[0]
        ensures EvalExpression(equal, fuel, scopes[1..], arguments[i], Uninitialised).Done?
        ensures r.bound[0][parameters[i]] == Copy(EvalExpression(equal, fuel, scopes[1..], arguments[i], Uninitialised).result)
      {
        if i > 0 {
          assert parameters[i] == parameters[1..][i - 1] && arguments[i] == arguments[1..][i - 1];
        }
      }
    }
  }

  /** Scoping is dynamic: a function body sees the bindings of the scope
      it is called from, so an identifier in the body of a function
      without parameters evaluates as it would at the call site. */
  lemma DynamicScope(equal: (Object, Object) -> bool, fuel: nat, scopes: seq<Scope>, name: string, o: Object)
    requires fuel > 1 && |scopes| > 0
    ensures var body := [Statement(ExpressionStatement, None, IdentifierExpression(name))];
      var call := CallExternal(equal, fuel, scopes, [], body, [], o);
      var here := EvalExpression(equal, fuel, scopes, IdentifierExpression(name), o);
      (call.Failed? <==> here.Failed?) && (call.Done? ==> call == here)
  {
    var inner := [map[]] + scopes;
    var s := Statement(ExpressionStatement, None, IdentifierExpression(name));
    PushHidesNothing(scopes, name);
    assert BindArguments(equal, fuel, inner, [], []) == Bound(inner, "");
    assert EvalExpression(equal, fuel, inner, s.expression, o) == EvalIdentifier(inner, name);
    assert EvalIdentifier(inner, name) == EvalIdentifier(scopes, name);
    assert BlockAux(equal, fuel, inner, [s], o) == EvalIdentifier(scopes, name);
  }

  /** An array literal gives one element per expression, each evaluated in
      order into an Object that starts out NULL. */
  lemma {:induction false} ElementsInOrder(equal: (Object, Object) -> bool, fuel: nat, scopes: seq<Scope>, elements: seq<Expression>)
    requires |scopes| > 0
    ensures var r := EvalElements(equal, fuel, scopes, elements);
      r.Built? ==> forall i :: 0 <= i < |elements| ==>
        EvalExpression(equal, fuel, scopes, elements[i], Object(Null, false)) == Done(r.elements[i], EvalExpression(equal, fuel, scopes, elements[i], Object(Null, false)).output)
    decreases |elements|
  {
    var r := EvalElements(equal, fuel, scopes, elements);
    if r.Built? && |elements| > 0 {
      ElementsInOrder(equal, fuel, scopes, elements[1..]);
      forall i | 0 < i < |elements|
        ensures elements[i] == elements[1..][i - 1]
      {
      }
    }
  }

  /** An array literal without elements still gives one NULL element. */
  lemma EmptyArrayHasNullElement(equal: (Object, Object) -> bool, fuel: nat, scopes: seq<Scope>, o: Object)
    requires fuel > 0 && |scopes| > 0
    ensures EvalExpression(equal, fuel, scopes, ArrayExpression([]), o) == Done(Object(Array([Object(Null, false)]), o.returned), "")
  {
  }

  /** A program starts with `puts` and `len` bound to the builtins, which
      its own lets may shadow. */
  lemma GlobalsHoldBuiltins()
    ensures Lookup([Globals], "puts") == Some(Object(Internal(Puts), false))
    ensures Lookup([Globals], "len") == Some(Object(Internal(Len), false))
    ensures forall name :: name != "puts" && name != "len" ==> Lookup([Globals], name).None?
  {
  }
}
