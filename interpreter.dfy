/** The evaluators of src/eval.c as they run: each writes its result into
    an Object cell its caller supplies and reports success, environments
    are linked `Environment` objects whose tables `let` and argument
    binding update in place, and blocks and array literals are loops.
    Every method is proved to agree with the function of module Evaluator
    that specifies it, evaluated on the scopes of the environment chain
    and the cell's contents before the call; `output` is what `puts`
    wrote meanwhile. */
module Interpreter {
  import opened Wrappers
  import opened Operations
  import opened Ast
  import opened Objects
  import opened Functions
  import opened Environments
  import opened Evaluator

  /** A C evaluator's report against the specifying outcome: the success
      flag, the output, and on success the Object left in the cell. */
  predicate Reports(ok: bool, output: string, after: Object, r: Outcome)
  {
    ok == r.Done? && output == r.output && (ok ==> after == r.result)
  }

  /** Elements already built, in front of the outcome for the rest. */
  function Prepended(built: seq<Object>, out: string, r: Elements): Elements
  {
    match r
    case Built(rest, o) => Built(built + rest, out + o)
    case Unbuilt(e, o) => Unbuilt(e, out + o)
  }

  /** evaluate_identifier_expression. */
  method EvaluateIdentifier(env: Environment, name: string, cell: ObjectCell) returns (ok: bool, output: string)
    requires env.Valid()
    modifies cell
    ensures Reports(ok, output, cell.Get(), EvalIdentifier(env.Scopes(), name))
  {
    ok := env.Retrieve(name, cell);
    output := "";
  }

  /** evaluate_prefix_negative_operation. */
  method NegativeOperation(cell: ObjectCell) returns (ok: bool)
    modifies cell
    ensures Reports(ok, "", cell.Get(), Negate(old(cell.Get())))
  {
    if !cell.value.Integer? || !IsInt(-cell.value.integer) {
      return false;
    }
    cell.value := Integer(-cell.value.integer);
    ok := true;
  }

  /** evaluate_prefix_not_operation. */
  method NotOperation(cell: ObjectCell) returns (ok: bool)
    modifies cell
    ensures Reports(ok, "", cell.Get(), Invert(old(cell.Get())))
  {
    if !cell.value.Bool? {
      return false;
    }
    cell.value := Bool(!cell.value.boolean);
    ok := true;
  }

  /** evaluate_prefix_expression. */
  method EvaluatePrefix(equal: (Object, Object) -> bool, fuel: nat, env: Environment, op: Operation,
                        operand: Expression, cell: ObjectCell) returns (ok: bool, output: string)
    requires env.Valid()
    modifies cell
    ensures Reports(ok, output, cell.Get(), EvalPrefix(equal, fuel, env.Scopes(), op, operand, old(cell.Get())))
    decreases fuel, 1
  {
    ok, output := EvaluateExpression(equal, fuel, env, operand, cell);
    if !ok {
      return;
    }
    if op == Negative {
      ok := NegativeOperation(cell);
    } else if op == Operation.Not {
      ok := NotOperation(cell);
    } else {
      ok := false;
    }
  }

  /** evaluate_infix_comparison_operation. */
  method ComparisonOperation(equal: (Object, Object) -> bool, op: Operation, cell: ObjectCell, right: ObjectCell)
    returns (ok: bool)
    requires cell != right
    modifies cell
    ensures Reports(ok, "", cell.Get(), Comparison(equal, op, old(cell.Get()), right.Get()))
  {
    var result := equal(cell.Get(), right.Get());
    if op == NotEqual {
      result := !result;
    } else if op != Operation.Equal {
      return false;
    }
    cell.Free();
    ok := cell.InitBool(result);
  }

  /** evaluate_infix_inequality_operation. */
  method InequalityOperation(op: Operation, cell: ObjectCell, right: ObjectCell) returns (ok: bool)
    requires cell != right
    modifies cell
    ensures Reports(ok, "", cell.Get(), Inequality(op, old(cell.Get()), right.Get()))
  {
    if !cell.value.Integer? || !right.value.Integer? {
      return false;
    }
    var a, b := cell.value.integer, right.value.integer;
    var result;
    if op == Greater {
      result := a > b;
    } else if op == GreaterEqual {
      result := a >= b;
    } else if op == Less {
      result := a < b;
    } else if op == LessEqual {
      result := a <= b;
    } else {
      return false;
    }
    cell.Free();
    ok := cell.InitBool(result);
  }

  /** evaluate_infix_arithmetic_operation, in place in the left cell. */
  method ArithmeticOperation(op: Operation, cell: ObjectCell, right: ObjectCell) returns (ok: bool)
    requires cell != right
    modifies cell
    ensures Reports(ok, "", cell.Get(), Arithmetic(op, old(cell.Get()), right.Get()))
  {
    if cell.value.Str? {
      if op != Add || !right.value.Str? {
        return false;
      }
      cell.value := Str(cell.value.text + right.value.text);
      return true;
    }
    if !cell.value.Integer? || !right.value.Integer? {
      return false;
    }
    var a, b := cell.value.integer, right.value.integer;
    var n;
    if op == Add {
      n := a + b;
    } else if op == Subtract {
      n := a - b;
    } else if op == Operation.Multiply {
      n := a * b;
    } else if op == Operation.Divide && b != 0 {
      n := Quotient(a, b);
    } else {
      return false;
    }
    if !IsInt(n) {
      return false;
    }
    cell.value := Integer(n);
    ok := true;
  }

  /** evaluate_infix_expression_aux. */
  method InfixOperation(equal: (Object, Object) -> bool, op: Operation, cell: ObjectCell, right: ObjectCell)
    returns (ok: bool)
    requires cell != right
    modifies cell
    ensures Reports(ok, "", cell.Get(), InfixAux(equal, op, old(cell.Get()), right.Get()))
  {
    if op == Operation.Equal || op == NotEqual {
      ok := ComparisonOperation(equal, op, cell, right);
    } else if op in {Greater, GreaterEqual, Less, LessEqual} {
      ok := InequalityOperation(op, cell, right);
    } else if op in {Add, Subtract, Operation.Multiply, Operation.Divide} {
      ok := ArithmeticOperation(op, cell, right);
    } else {
      ok := false;
    }
  }

  /** evaluate_infix_expression: the left operand into the cell, the right
      one into a fresh local cell, then the operator. */
  method EvaluateInfix(equal: (Object, Object) -> bool, fuel: nat, env: Environment, op: Operation,
                       left: Expression, right: Expression, cell: ObjectCell) returns (ok: bool, output: string)
    requires env.Valid()
    modifies cell
    ensures Reports(ok, output, cell.Get(), EvalInfix(equal, fuel, env.Scopes(), op, left, right, old(cell.Get())))
    decreases fuel, 1
  {
    ghost var scopes := env.Scopes();
    ghost var whole := EvalInfix(equal, fuel, scopes, op, left, right, old(cell.Get()));
    ok, output := EvaluateExpression(equal, fuel, env, left, cell);
    if !ok {
      return;
    }
    var rightCell := new ObjectCell.Local();
    var out;
    ok, out := EvaluateExpression(equal, fuel, env, right, rightCell);
    ghost var r := EvalExpression(equal, fuel, scopes, right, Uninitialised);
    assert whole == if r.Failed? then Failed(r.error, output + r.output)
                    else After(output + r.output, InfixAux(equal, op, cell.Get(), r.result));
    output := output + out;
    if !ok {
      return;
    }
    ok := InfixOperation(equal, op, cell, rightCell);
  }

  /** evaluate_statement_block_aux: the statements in order into the one
      cell, stopping at a failure or a returned result and freeing the
      cell between statements. The environment is the block's own. */
  method StatementBlockAux(equal: (Object, Object) -> bool, fuel: nat, env: Environment, block: seq<Statement>,
                           cell: ObjectCell) returns (ok: bool, output: string)
    requires env.Valid()
    modifies env, cell
    ensures Reports(ok, output, cell.Get(), BlockAux(equal, fuel, old(env.Scopes()), block, old(cell.Get())))
    ensures env.Scopes() == BlockScopes(equal, fuel, old(env.Scopes()), block, old(cell.Get()))
    decreases fuel, 2
  {
    output := "";
    var i := 0;
    while i < |block|
      invariant i <= |block| && (|block| > 0 ==> i < |block|)
      invariant BlockAux(equal, fuel, old(env.Scopes()), block, old(cell.Get()))
             == After(output, BlockAux(equal, fuel, env.Scopes(), block[i..], cell.Get()))
      invariant BlockScopes(equal, fuel, old(env.Scopes()), block, old(cell.Get()))
             == BlockScopes(equal, fuel, env.Scopes(), block[i..], cell.Get())
      decreases |block| - i
    {
      ghost var scopes, before, written := env.Scopes(), cell.Get(), output;
      var out;
      ok, out := EvaluateStatement(equal, fuel, env, block[i], cell);
      ghost var effect := EvalStatement(equal, fuel, scopes, block[i], before);
      assert block[i..][0] == block[i];
      BlockUnfolds(equal, fuel, scopes, block[i..], before);
      output := output + out;
      if !ok || cell.returned || i == |block| - 1 {
        return;
      }
      cell.Free();
      assert block[i..][1..] == block[i + 1..];
      ghost var freed := Object(Indeterminate, effect.outcome.result.returned);
      assert cell.Get() == freed && env.Scopes() == effect.scopes;
      assert BlockAux(equal, fuel, scopes, block[i..], before)
          == After(out, BlockAux(equal, fuel, env.Scopes(), block[i + 1..], cell.Get()));
      assert BlockScopes(equal, fuel, scopes, block[i..], before)
          == BlockScopes(equal, fuel, env.Scopes(), block[i + 1..], cell.Get());
      AfterTwice(written, out, BlockAux(equal, fuel, env.Scopes(), block[i + 1..], cell.Get()));
      i := i + 1;
    }
    ok := true;
  }

  /** evaluate_statement_block: a new environment inside the given one
      for the block; the given chain is left as it was. */
  method EvaluateStatementBlock(equal: (Object, Object) -> bool, fuel: nat, env: Environment, block: seq<Statement>,
                                cell: ObjectCell) returns (ok: bool, output: string)
    requires env.Valid()
    modifies cell
    ensures Reports(ok, output, cell.Get(), EvalStatementBlock(equal, fuel, env.Scopes(), block, old(cell.Get())))
    decreases fuel, 3
  {
    var inner := new Environment.Push(env);
    ok, output := StatementBlockAux(equal, fuel, inner, block, cell);
  }

  /** evaluate_conditional_expression. */
  method EvaluateConditional(equal: (Object, Object) -> bool, fuel: nat, env: Environment, condition: Expression,
                             consequence: seq<Statement>, alternate: Option<seq<Statement>>, cell: ObjectCell)
    returns (ok: bool, output: string)
    requires env.Valid()
    modifies cell
    ensures Reports(ok, output, cell.Get(),
                    EvalConditional(equal, fuel, env.Scopes(), condition, consequence, alternate, old(cell.Get())))
    decreases fuel, 4
  {
    ok, output := EvaluateExpression(equal, fuel, env, condition, cell);
    if !ok {
      return;
    }
    if !cell.value.Bool? {
      return false, output;
    }
    var result := cell.value.boolean;
    cell.Free();
    if !result && alternate.None? {
      return;
    }
    var block := if result then consequence else alternate.value;
    var out;
    ok, out := EvaluateStatementBlock(equal, fuel, env, block, cell);
    output := output + out;
  }

  /** evaluate_call_expression_arguments: each argument evaluated into a
      fresh local cell in the enclosing environment and inserted, under
      its parameter's name, into this one. */
  method BindParameters(equal: (Object, Object) -> bool, fuel: nat, env: Environment, parameters: seq<string>,
                        arguments: seq<Expression>) returns (ok: bool, output: string)
    requires env.Valid() && env.next != null
    modifies env
    ensures var r := BindArguments(equal, fuel, old(env.Scopes()), parameters, arguments);
      ok == r.Bound? && (ok ==> output == r.boundOutput && env.Scopes() == r.bound) &&
      (!ok ==> output == r.unboundOutput)
    decreases fuel, 3, |parameters|
  {
    if |parameters| == 0 && |arguments| == 0 {
      return true, "";
    } else if |parameters| == 0 || |arguments| == 0 {
      return false, "";
    }
    var argument := new ObjectCell.Local();
    ok, output := EvaluateExpression(equal, fuel, env.next, arguments[0], argument);
    if !ok {
      return;
    }
    env.Insert(parameters[0], argument);
    var out;
    ok, out := BindParameters(equal, fuel, env, parameters[1..], arguments[1..]);
    output := output + out;
  }

  /** evaluate_call_expression_external: a new environment inside the
      caller's, the arguments bound in it, the body run in it into the
      cell, and the returned mark cleared. */
  method CallExternal(equal: (Object, Object) -> bool, fuel: nat, env: Environment, parameters: seq<string>,
                      body: seq<Statement>, arguments: seq<Expression>, cell: ObjectCell) returns (ok: bool, output: string)
    requires env.Valid()
    modifies cell
    ensures Reports(ok, output, cell.Get(), Evaluator.CallExternal(equal, fuel, env.Scopes(), parameters, body, arguments, old(cell.Get())))
    decreases fuel, 4
  {
    ghost var scopes, o := env.Scopes(), cell.Get();
    var inner := new Environment.Push(env);
    assert inner !in env.Repr;
    ok, output := BindParameters(equal, fuel, inner, parameters, arguments);
    assert env.Scopes() == scopes;
    if !ok {
      return;
    }
    ghost var bound := inner.Scopes();
    assert BindArguments(equal, fuel, [map[]] + scopes, parameters, arguments) == Bound(bound, output);
    var out;
    ok, out := StatementBlockAux(equal, fuel, inner, body, cell);
    assert env.Scopes() == scopes;
    ghost var r := BlockAux(equal, fuel, bound, body, o);
    assert Reports(ok, out, cell.Get(), r);
    assert Evaluator.CallExternal(equal, fuel, scopes, parameters, body, arguments, o)
        == if r.Done? then Done(r.result.(returned := false), output + r.output) else Failed(r.error, output + r.output);
    output := output + out;
    if ok && cell.returned {
      cell.returned := false;
    }
    assert ok ==> cell.Get() == r.result.(returned := false);
    assert env.Scopes() == scopes;
  }

  /** evaluate_call_expression_internal: the one argument into the cell,
      then the builtin on it. */
  method CallInternal(equal: (Object, Object) -> bool, fuel: nat, env: Environment, builtin: Builtin,
                      arguments: seq<Expression>, cell: ObjectCell) returns (ok: bool, output: string)
    requires env.Valid()
    modifies cell
    ensures Reports(ok, output, cell.Get(), Evaluator.CallInternal(equal, fuel, env.Scopes(), builtin, arguments, old(cell.Get())))
    decreases fuel, 1
  {
    if |arguments| != 1 {
      return false, "";
    }
    ok, output := EvaluateExpression(equal, fuel, env, arguments[0], cell);
    if !ok {
      return;
    }
    var out;
    ok, out := Invoke(builtin, cell);
    output := output + out;
  }

  /** evaluate_call_expression: the callee into a fresh local cell, then
      the call by the kind of Object it holds. */
  method EvaluateCall(equal: (Object, Object) -> bool, fuel: nat, env: Environment, callee: Expression,
                      arguments: seq<Expression>, cell: ObjectCell) returns (ok: bool, output: string)
    requires env.Valid()
    modifies cell
    ensures Reports(ok, output, cell.Get(), EvalCall(equal, fuel, env.Scopes(), callee, arguments, old(cell.Get())))
    decreases fuel, 5
  {
    var fn := new ObjectCell.Local();
    ok, output := EvaluateExpression(equal, fuel, env, callee, fn);
    if !ok {
      return;
    }
    assert EvalExpression(equal, fuel, env.Scopes(), callee, Uninitialised) == Done(fn.Get(), output);
    var out;
    match fn.value {
      case Function(parameters, body) =>
        ok, out := CallExternal(equal, fuel, env, parameters, body, arguments, cell);
      case Internal(builtin) =>
        ok, out := CallInternal(equal, fuel, env, builtin, arguments, cell);
      case _ =>
        ok, out := false, "";
    }
    output := output + out;
  }

  /** Building the elements in two parts is building them at once. */
  lemma PrependedTwice(built: seq<Object>, output: string, more: seq<Object>, out: string, r: Elements)
    ensures Prepended(built, output, Prepended(more, out, r)) == Prepended(built + more, output + out, r)
  {
    assert forall rest: seq<Object> :: built + (more + rest) == (built + more) + rest;
  }

  /** The loop of evaluate_array_expression: each element into its own
      cell, which starts out NULL, in order, stopping at the first
      failure. */
  method EvaluateElements(equal: (Object, Object) -> bool, fuel: nat, env: Environment, elements: seq<Expression>)
    returns (ok: bool, built: seq<Object>, output: string)
    requires env.Valid()
    ensures var r := EvalElements(equal, fuel, env.Scopes(), elements);
      ok == r.Built? && (ok ==> built == r.elements && output == r.builtOutput) && (!ok ==> output == r.elementOutput)
    decreases fuel, 1
  {
    ghost var scopes := env.Scopes();
    built, output := [], "";
    var i := 0;
    while i < |elements|
      invariant i <= |elements|
      invariant EvalElements(equal, fuel, scopes, elements)
             == Prepended(built, output, EvalElements(equal, fuel, scopes, elements[i..]))
    {
      var element := new ObjectCell.Local();
      element.value := Null;
      var out;
      ok, out := EvaluateExpression(equal, fuel, env, elements[i], element);
      assert elements[i..][0] == elements[i] && elements[i..][1..] == elements[i + 1..];
      ghost var rest := EvalElements(equal, fuel, scopes, elements[i + 1..]);
      if !ok {
        ghost var e := EvalExpression(equal, fuel, scopes, elements[i], Object(Null, false));
        assert EvalElements(equal, fuel, scopes, elements[i..]) == Unbuilt(e.error, out);
        output := output + out;
        return;
      }
      assert EvalElements(equal, fuel, scopes, elements[i..]) == Prepended([element.Get()], out, rest);
      PrependedTwice(built, output, [element.Get()], out, rest);
      built, output := built + [element.Get()], output + out;
      i := i + 1;
    }
    assert elements[i..] == [];
    assert built + [] == built && output + "" == output;
    ok := true;
  }

  /** evaluate_array_expression: the elements, then the cell becomes the
      array of them; the first element's cell exists before the loop
      runs, so an empty literal gives one NULL element. */
  method EvaluateArray(equal: (Object, Object) -> bool, fuel: nat, env: Environment, elements: seq<Expression>,
                       cell: ObjectCell) returns (ok: bool, output: string)
    requires env.Valid()
    modifies cell
    ensures Reports(ok, output, cell.Get(), EvalArray(equal, fuel, env.Scopes(), elements, old(cell.Get())))
    decreases fuel, 2
  {
    if |elements| == 0 {
      cell.value := Array([Object(Null, false)]);
      return true, "";
    }
    var built;
    ok, built, output := EvaluateElements(equal, fuel, env, elements);
    if ok {
      cell.value := Array(built);
    }
  }

  /** evaluate_expression: dispatch on the expression's kind. */
  method EvaluateExpression(equal: (Object, Object) -> bool, fuel: nat, env: Environment, e: Expression,
                            cell: ObjectCell) returns (ok: bool, output: string)
    requires env.Valid()
    modifies cell
    ensures Reports(ok, output, cell.Get(), EvalExpression(equal, fuel, env.Scopes(), e, old(cell.Get())))
    decreases fuel, 0
  {
    if fuel == 0 {
      return false, "";
    }
    output := "";
    match e
    case IdentifierExpression(name) =>
      ok, output := EvaluateIdentifier(env, name, cell);
    case IntegerExpression(n) =>
      ok := cell.InitInteger(n);
    case StringExpression(s) =>
      ok := cell.InitString(s);
    case BoolExpression(b) =>
      ok := cell.InitBool(b);
    case PrefixExpression(op, operand) =>
      ok, output := EvaluatePrefix(equal, fuel - 1, env, op, operand, cell);
    case InfixExpression(op, left, right) =>
      ok, output := EvaluateInfix(equal, fuel - 1, env, op, left, right, cell);
    case ConditionalExpression(condition, consequence, alternate) =>
      ok, output := EvaluateConditional(equal, fuel - 1, env, condition, consequence, alternate, cell);
    case FunctionExpression(parameters, body) =>
      ok := cell.InitFunction(parameters, body);
    case CallExpression(callee, arguments) =>
      ok, output := EvaluateCall(equal, fuel - 1, env, callee, arguments, cell);
    case ArrayExpression(elements) =>
      ok, output := EvaluateArray(equal, fuel - 1, env, elements, cell);
    case NoExpression =>
      ok := false;
  }

  /** evaluate_statement with evaluate_let_statement and
      evaluate_return_statement: a let inserts the value into this
      environment and frees the cell; a return marks the cell. */
  method EvaluateStatement(equal: (Object, Object) -> bool, fuel: nat, env: Environment, s: Statement,
                           cell: ObjectCell) returns (ok: bool, output: string)
    requires env.Valid()
    modifies env, cell
    ensures var effect := EvalStatement(equal, fuel, old(env.Scopes()), s, old(cell.Get()));
      Reports(ok, output, cell.Get(), effect.outcome) && env.Scopes() == effect.scopes
    decreases fuel, 1
  {
    match s.kind
    case LetStatement =>
      if s.identifier.None? {
        return false, "";
      }
      ok, output := EvaluateExpression(equal, fuel, env, s.expression, cell);
      if !ok {
        return;
      }
      env.Insert(s.identifier.value, cell);
      cell.Free();
    case ReturnStatement =>
      ok, output := EvaluateExpression(equal, fuel, env, s.expression, cell);
      if ok {
        cell.returned := true;
      }
    case ExpressionStatement =>
      ok, output := EvaluateExpression(equal, fuel, env, s.expression, cell);
    case NoStatement =>
      ok, output := false, "";
  }

  /** evaluate_program: a global environment holding `puts` and `len`,
      then the statements into a fresh cell. The C function reports
      nothing; here the success flag and the output are returned. */
  method EvaluateProgram(equal: (Object, Object) -> bool, fuel: nat, program: seq<Statement>)
    returns (ok: bool, output: string)
    ensures var r := EvalProgram(equal, fuel, program);
      ok == r.Done? && output == r.output
  {
    var env := new Environment.Push(null);
    env.table := env.table["puts" := Object(Internal(Puts), false)];
    env.table := env.table["len" := Object(Internal(Len), false)];
    assert env.table == Globals;
    assert env.Scopes() == [Globals];
    var cell := new ObjectCell.Local();
    ok, output := StatementBlockAux(equal, fuel, env, program, cell);
  }
}
