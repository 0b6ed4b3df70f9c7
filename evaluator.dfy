/** The tree-walking evaluator of src/eval.c as functions.

    Each C evaluator writes into an Object its caller supplies and returns
    a success flag; here it takes the Object's contents before the call
    and returns `Done(result, output)` with the contents after it, or
    `Failed(error, output)` where the C code prints a diagnostic (or, for
    a few paths, nothing) and returns false. `output` is what `puts` wrote
    meanwhile. The environment chain is a sequence of scopes, innermost
    first; expressions never change it, and a statement changes only its
    innermost scope.

    `equal` is object_equal, which is not part of this model. `fuel`
    bounds the depth of nested expression evaluations: a user function
    may recurse forever, and when the fuel runs out the evaluation fails
    with `OutOfFuel`, which the C program never does. C's 32-bit `int`
    overflow and division by zero, undefined in C, fail with
    `UndefinedBehaviour`. */
module Evaluator {
  import opened Wrappers
  import opened Operations
  import opened Ast
  import opened Objects
  import opened Functions
  import opened Environments

  const IntMin: int := -0x8000_0000
  const IntMax: int := 0x7FFF_FFFF

  /** Whether a C `int` can hold the value. */
  predicate IsInt(n: int)
  {
    IntMin <= n <= IntMax
  }

  function Abs(n: int): nat
  {
    if n < 0 then -n else n
  }

  /** C's `/` on `int`: the quotient truncated toward zero. */
  function Quotient(a: int, b: int): int
    requires b != 0
  {
    var m := Abs(a) / Abs(b);
    if (a < 0) == (b < 0) then m else -m
  }

  datatype EvalError =
    | MissingVariable(name: string)
    | NonIntegerNegation
    | NonBoolNot
    | UnknownPrefix(prefix: Operation)
    | UnknownComparison(comparison: Operation)
    | NonIntegerOperand(operandOf: Operation)
    | MismatchedTypes(operandsOf: Operation)
    | InvalidStringOperation(stringOperation: Operation)
    | MismatchedStringTypes(stringOperandsOf: Operation)
    | UnknownInequality(inequality: Operation)
    | UnknownArithmetic(arithmetic: Operation)
    | UnknownInfix(infix: Operation)
    | NonBoolCondition
    | TooManyArguments
    | NotEnoughArguments
    | NonFunctionCall
    | UnexpectedExpression
    | UnexpectedStatement
    | BuiltinFailed(builtin: Builtin)
    | UndefinedBehaviour
    | OutOfFuel

  datatype Outcome =
    | Done(result: Object, output: string)
    | Failed(error: EvalError, output: string)

  /** A statement's outcome and the scopes after it. */
  datatype Effect = Effect(outcome: Outcome, scopes: seq<Scope>)

  /** The scopes after binding a call's arguments, or the failure. */
  datatype Binding =
    | Bound(bound: seq<Scope>, boundOutput: string)
    | Unbound(unboundError: EvalError, unboundOutput: string)

  /** The element Objects of an array, or the failure. */
  datatype Elements =
    | Built(elements: seq<Object>, builtOutput: string)
    | Unbuilt(elementError: EvalError, elementOutput: string)

  /** An outcome preceded by output written earlier. */
  function After(out: string, r: Outcome): (s: Outcome)
    ensures s.Done? == r.Done? && s.output == out + r.output
    ensures s.Done? ==> s.result == r.result
    ensures s.Failed? ==> s.error == r.error
  {
    match r
    case Done(v, o) => Done(v, out + o)
    case Failed(e, o) => Failed(e, out + o)
  }

  /** Output written in two steps is the two texts in order. */
  lemma AfterTwice(first: string, second: string, r: Outcome)
    ensures After(first, After(second, r)) == After(first + second, r)
  {
    assert first + (second + r.output) == first + second + r.output;
  }

  /** The global scope evaluate_program starts with: the two builtins. */
  const Globals: Scope := map["puts" := Object(Internal(Puts), false), "len" := Object(Internal(Len), false)]

  /** evaluate_expression. */
  function EvalExpression(equal: (Object, Object) -> bool, fuel: nat, scopes: seq<Scope>, e: Expression, o: Object): Outcome
    requires |scopes| > 0
    decreases fuel, 0
  {
    if fuel == 0 then Failed(OutOfFuel, "")
    else match e
      case IdentifierExpression(name) => EvalIdentifier(scopes, name)
      case IntegerExpression(n) => Done(Object(Integer(n), o.returned), "")
      case StringExpression(s) => Done(Object(Str(s), o.returned), "")
      case BoolExpression(b) => Done(Object(Bool(b), o.returned), "")
      case PrefixExpression(op, operand) => EvalPrefix(equal, fuel - 1, scopes, op, operand, o)
      case InfixExpression(op, left, right) => EvalInfix(equal, fuel - 1, scopes, op, left, right, o)
      case ConditionalExpression(c, consequence, alternate) =>
        EvalConditional(equal, fuel - 1, scopes, c, consequence, alternate, o)
      case FunctionExpression(parameters, body) => Done(Object(Function(parameters, body), o.returned), "")
      case CallExpression(callee, arguments) => EvalCall(equal, fuel - 1, scopes, callee, arguments, o)
      case ArrayExpression(elements) => EvalArray(equal, fuel - 1, scopes, elements, o)
      case NoExpression => Failed(UnexpectedExpression, "")
  }

  /** evaluate_identifier_expression: a copy of the innermost binding. */
  function EvalIdentifier(scopes: seq<Scope>, name: string): (r: Outcome)
    ensures r.output == ""
  {
    match Lookup(scopes, name)
    case None => Failed(MissingVariable(name), "")
    case Some(b) => Done(Copy(b), "")
  }

  /** evaluate_prefix_negative_operation, in place. */
  function Negate(v: Object): (r: Outcome)
    ensures r.output == ""
  {
    if !v.value.Integer? then Failed(NonIntegerNegation, "")
    else if !IsInt(-v.value.integer) then Failed(UndefinedBehaviour, "")
    else Done(v.(value := Integer(-v.value.integer)), "")
  }

  /** evaluate_prefix_not_operation, in place. */
  function Invert(v: Object): (r: Outcome)
    ensures r.output == ""
  {
    if !v.value.Bool? then Failed(NonBoolNot, "")
    else Done(v.(value := Bool(!v.value.boolean)), "")
  }

  /** evaluate_prefix_expression: the operand into the same Object, then
      the operator in place. */
  function EvalPrefix(equal: (Object, Object) -> bool, fuel: nat, scopes: seq<Scope>, op: Operation,
                      operand: Expression, o: Object): Outcome
    requires |scopes| > 0
    decreases fuel, 1
  {
    match EvalExpression(equal, fuel, scopes, operand, o)
    case Failed(e, out) => Failed(e, out)
    case Done(v, out) =>
      if op == Negative then After(out, Negate(v))
      else if op == Operation.Not then After(out, Invert(v))
      else Failed(UnknownPrefix(op), out)
  }

  /** evaluate_infix_comparison_operation: `==` gives object_equal and
      `!=` its negation, as a boolean in the left Object. */
  function Comparison(equal: (Object, Object) -> bool, op: Operation, left: Object, right: Object): (r: Outcome)
    ensures r.output == ""
  {
    var same := equal(left, right);
    if op == NotEqual then Done(Object(Bool(!same), left.returned), "")
    else if op != Operation.Equal then Failed(UnknownComparison(op), "")
    else Done(Object(Bool(same), left.returned), "")
  }

  /** evaluate_infix_inequality_operation. */
  function Inequality(op: Operation, left: Object, right: Object): (r: Outcome)
    ensures r.output == ""
  {
    if Tag(left.value) != ObjectInteger then Failed(NonIntegerOperand(op), "")
    else if Tag(right.value) != Tag(left.value) then Failed(MismatchedTypes(op), "")
    else
      var a, b := left.value.integer, right.value.integer;
      match op
      case Greater => Done(Object(Bool(a > b), left.returned), "")
      case GreaterEqual => Done(Object(Bool(a >= b), left.returned), "")
      case Less => Done(Object(Bool(a < b), left.returned), "")
      case LessEqual => Done(Object(Bool(a <= b), left.returned), "")
      case _ => Failed(UnknownInequality(op), "")
  }

  /** evaluate_infix_arithmetic_operation: string concatenation, or C
      `int` arithmetic in the left Object. string_concatenate is not part
      of this model; it is taken to append the right string to the left
      one. */
  function Arithmetic(op: Operation, left: Object, right: Object): (r: Outcome)
    ensures r.output == ""
  {
    if left.value.Str? then
      if op != Add then Failed(InvalidStringOperation(op), "")
      else if !right.value.Str? then Failed(MismatchedStringTypes(op), "")
      else Done(left.(value := Str(left.value.text + right.value.text)), "")
    else if !left.value.Integer? then Failed(NonIntegerOperand(op), "")
    else if !right.value.Integer? then Failed(MismatchedTypes(op), "")
    else
      var a, b := left.value.integer, right.value.integer;
      if op !in {Add, Subtract, Operation.Multiply, Operation.Divide} then Failed(UnknownArithmetic(op), "")
      else if op == Operation.Divide && b == 0 then Failed(UndefinedBehaviour, "")
      else
        var n :=
          if op == Add then a + b
          else if op == Subtract then a - b
          else if op == Operation.Multiply then a * b
          else Quotient(a, b);
        if !IsInt(n) then Failed(UndefinedBehaviour, "")
        else Done(left.(value := Integer(n)), "")
  }

  /** evaluate_infix_expression_aux: dispatch on the operator. */
  function InfixAux(equal: (Object, Object) -> bool, op: Operation, left: Object, right: Object): (r: Outcome)
    ensures r.output == ""
  {
    match op
    case Equal => Comparison(equal, op, left, right)
    case NotEqual => Comparison(equal, op, left, right)
    case Greater => Inequality(op, left, right)
    case GreaterEqual => Inequality(op, left, right)
    case Less => Inequality(op, left, right)
    case LessEqual => Inequality(op, left, right)
    case Add => Arithmetic(op, left, right)
    case Subtract => Arithmetic(op, left, right)
    case Multiply => Arithmetic(op, left, right)
    case Divide => Arithmetic(op, left, right)
    case _ => Failed(UnknownInfix(op), "")
  }

  /** evaluate_infix_expression: the left operand into the Object, then the
      right one into a fresh local, then the operator. */
  function EvalInfix(equal: (Object, Object) -> bool, fuel: nat, scopes: seq<Scope>, op: Operation,
                     left: Expression, right: Expression, o: Object): Outcome
    requires |scopes| > 0
    decreases fuel, 1
  {
    match EvalExpression(equal, fuel, scopes, left, o)
    case Failed(e, out) => Failed(e, out)
    case Done(l, out) =>
      match EvalExpression(equal, fuel, scopes, right, Uninitialised)
      case Failed(e, out2) => Failed(e, out + out2)
      case Done(r, out2) => After(out + out2, InfixAux(equal, op, l, r))
  }

  /** evaluate_statement_block_aux: the statements in order, in the given
      scopes, into the one Object; stop at the first failure or at the
      first result with the returned mark, and free the Object between
      statements. An empty block leaves the Object as it was. */
  function BlockAux(equal: (Object, Object) -> bool, fuel: nat, scopes: seq<Scope>, block: seq<Statement>, o: Object): Outcome
    requires |scopes| > 0
    decreases fuel, 2, |block|
  {
    if |block| == 0 then Done(o, "")
    else
      var effect := EvalStatement(equal, fuel, scopes, block[0], o);
      match effect.outcome
      case Failed(e, out) => Failed(e, out)
      case Done(v, out) =>
        if v.returned || |block| == 1 then Done(v, out)
        else After(out, BlockAux(equal, fuel, effect.scopes, block[1..], Object(Indeterminate, v.returned)))
  }

  /** The scopes evaluate_statement_block_aux leaves behind: those after
      the last statement it ran. Only the innermost scope can differ from
      the scopes it started with. */
  function BlockScopes(equal: (Object, Object) -> bool, fuel: nat, scopes: seq<Scope>, block: seq<Statement>,
                       o: Object): (r: seq<Scope>)
    requires |scopes| > 0
    ensures |r| == |scopes| && r[1..] == scopes[1..]
    decreases |block|
  {
    if |block| == 0 then scopes
    else
      var effect := EvalStatement(equal, fuel, scopes, block[0], o);
      if effect.outcome.Failed? || effect.outcome.result.returned || |block| == 1 then effect.scopes
      else BlockScopes(equal, fuel, effect.scopes, block[1..], Object(Indeterminate, effect.outcome.result.returned))
  }

  /** One statement of a block: when it fails, returns or is the last, the
      block's outcome and scopes are the statement's; otherwise the rest of
      the block runs in the statement's scopes on a freed Object. */
  lemma BlockUnfolds(equal: (Object, Object) -> bool, fuel: nat, scopes: seq<Scope>, block: seq<Statement>, o: Object)
    requires |scopes| > 0 && |block| > 0
    ensures var effect := EvalStatement(equal, fuel, scopes, block[0], o);
      if effect.outcome.Failed? || effect.outcome.result.returned || |block| == 1 then
        BlockAux(equal, fuel, scopes, block, o) == effect.outcome && BlockScopes(equal, fuel, scopes, block, o) == effect.scopes
      else
        var freed := Object(Indeterminate, effect.outcome.result.returned);
        && BlockAux(equal, fuel, scopes, block, o)
           == After(effect.outcome.output, BlockAux(equal, fuel, effect.scopes, block[1..], freed))
        && BlockScopes(equal, fuel, scopes, block, o) == BlockScopes(equal, fuel, effect.scopes, block[1..], freed)
  {
  }

  /** evaluate_statement_block: the block in a new innermost scope, which
      is discarded afterwards. */
  function EvalStatementBlock(equal: (Object, Object) -> bool, fuel: nat, scopes: seq<Scope>, block: seq<Statement>,
                              o: Object): Outcome
    requires |scopes| > 0
    decreases fuel, 3
  {
    BlockAux(equal, fuel, [map[]] + scopes, block, o)
  }

  /** evaluate_conditional_expression: the condition into the Object, which
      must then hold a boolean; the Object is freed and the chosen block
      runs into it. A false condition without an `else` runs nothing. */
  function EvalConditional(equal: (Object, Object) -> bool, fuel: nat, scopes: seq<Scope>, condition: Expression,
                           consequence: seq<Statement>, alternate: Option<seq<Statement>>, o: Object): Outcome
    requires |scopes| > 0
    decreases fuel, 4
  {
    match EvalExpression(equal, fuel, scopes, condition, o)
    case Failed(e, out) => Failed(e, out)
    case Done(v, out) =>
      if !v.value.Bool? then Failed(NonBoolCondition, out)
      else
        var freed := Object(Indeterminate, v.returned);
        if !v.value.boolean && alternate.None? then Done(freed, out)
        else if !v.value.boolean then After(out, EvalStatementBlock(equal, fuel, scopes, alternate.value, freed))
        else After(out, EvalStatementBlock(equal, fuel, scopes, consequence, freed))
  }

  /** evaluate_call_expression_arguments: pair parameters with arguments
      in order; each argument is evaluated into a fresh local in the
      calling scopes (all but the innermost) and bound in the innermost,
      the call's own. */
  function BindArguments(equal: (Object, Object) -> bool, fuel: nat, scopes: seq<Scope>, parameters: seq<string>,
                         arguments: seq<Expression>): (r: Binding)
    requires |scopes| > 1
    ensures r.Bound? ==> |r.bound| == |scopes| && r.bound[1..] == scopes[1..]
    ensures r.Bound? ==> |parameters| == |arguments|
    decreases fuel, 3, |parameters|
  {
    if |parameters| == 0 && |arguments| == 0 then Bound(scopes, "")
    else if |parameters| == 0 then Unbound(TooManyArguments, "")
    else if |arguments| == 0 then Unbound(NotEnoughArguments, "")
    else match EvalExpression(equal, fuel, scopes[1..], arguments[0], Uninitialised)
      case Failed(e, out) => Unbound(e, out)
      case Done(v, out) =>
        match BindArguments(equal, fuel, Bind(scopes, parameters[0], v), parameters[1..], arguments[1..])
        case Unbound(e, out2) => Unbound(e, out + out2)
        case Bound(bound, out2) => Bound(bound, out + out2)
  }

  /** evaluate_call_expression_external: a new scope inside the calling
      scopes, the arguments bound in it, then the body's statements run
      in it into the caller's Object; the returned mark is cleared. */
  function CallExternal(equal: (Object, Object) -> bool, fuel: nat, scopes: seq<Scope>, parameters: seq<string>,
                        body: seq<Statement>, arguments: seq<Expression>, o: Object): (r: Outcome)
    requires |scopes| > 0
    ensures r.Done? ==> !r.result.returned
    decreases fuel, 4
  {
    match BindArguments(equal, fuel, [map[]] + scopes, parameters, arguments)
    case Unbound(e, out) => Failed(e, out)
    case Bound(bound, out) =>
      match BlockAux(equal, fuel, bound, body, o)
      case Failed(e, out2) => Failed(e, out + out2)
      case Done(v, out2) => Done(v.(returned := false), out + out2)
  }

  /** evaluate_call_expression_internal: exactly one argument, evaluated
      into the caller's Object, which the builtin then rewrites. */
  function CallInternal(equal: (Object, Object) -> bool, fuel: nat, scopes: seq<Scope>, builtin: Builtin,
                        arguments: seq<Expression>, o: Object): Outcome
    requires |scopes| > 0
    decreases fuel, 1
  {
    if |arguments| == 0 then Failed(NotEnoughArguments, "")
    else if |arguments| > 1 then Failed(TooManyArguments, "")
    else match EvalExpression(equal, fuel, scopes, arguments[0], o)
      case Failed(e, out) => Failed(e, out)
      case Done(v, out) =>
        var call := Apply(builtin, v);
        if call.ok then Done(call.result, out + call.output) else Failed(BuiltinFailed(builtin), out + call.output)
  }

  /** evaluate_call_expression: the callee into a fresh local, then a user
      function or a builtin call. */
  function EvalCall(equal: (Object, Object) -> bool, fuel: nat, scopes: seq<Scope>, callee: Expression,
                    arguments: seq<Expression>, o: Object): Outcome
    requires |scopes| > 0
    decreases fuel, 5
  {
    match EvalExpression(equal, fuel, scopes, callee, Uninitialised)
    case Failed(e, out) => Failed(e, out)
    case Done(f, out) =>
      match f.value
      case Function(parameters, body) => After(out, CallExternal(equal, fuel, scopes, parameters, body, arguments, o))
      case Internal(builtin) => After(out, CallInternal(equal, fuel, scopes, builtin, arguments, o))
      case _ => Failed(NonFunctionCall, out)
  }

  /** The loop of evaluate_array_expression: each element into its own
      Object, which starts out NULL. */
  function EvalElements(equal: (Object, Object) -> bool, fuel: nat, scopes: seq<Scope>, elements: seq<Expression>): (r: Elements)
    requires |scopes| > 0
    ensures r.Built? ==> |r.elements| == |elements|
    decreases fuel, 1, |elements|
  {
    if |elements| == 0 then Built([], "")
    else match EvalExpression(equal, fuel, scopes, elements[0], Object(Null, false))
      case Failed(e, out) => Unbuilt(e, out)
      case Done(v, out) =>
        match EvalElements(equal, fuel, scopes, elements[1..])
        case Unbuilt(e, out2) => Unbuilt(e, out + out2)
        case Built(rest, out2) => Built([v] + rest, out + out2)
  }

  /** evaluate_array_expression: the first element Object exists before
      the loop runs, so an empty literal gives one NULL element. */
  function EvalArray(equal: (Object, Object) -> bool, fuel: nat, scopes: seq<Scope>, elements: seq<Expression>,
                     o: Object): Outcome
    requires |scopes| > 0
    decreases fuel, 2
  {
    if |elements| == 0 then Done(Object(Array([Object(Null, false)]), o.returned), "")
    else match EvalElements(equal, fuel, scopes, elements)
      case Unbuilt(e, out) => Failed(e, out)
      case Built(objects, out) => Done(Object(Array(objects), o.returned), out)
  }

  /** evaluate_statement with the let and return evaluators. */
  function EvalStatement(equal: (Object, Object) -> bool, fuel: nat, scopes: seq<Scope>, s: Statement, o: Object): (r: Effect)
    requires |scopes| > 0
    ensures |r.scopes| == |scopes| && r.scopes[1..] == scopes[1..]
    ensures s.kind != LetStatement || r.outcome.Failed? ==> r.scopes == scopes
    ensures s.kind == ReturnStatement && r.outcome.Done? ==> r.outcome.result.returned
    decreases fuel, 1
  {
    match s.kind
    case LetStatement =>
      if s.identifier.None? then Effect(Failed(UnexpectedStatement, ""), scopes)
      else (match EvalExpression(equal, fuel, scopes, s.expression, o)
        case Failed(e, out) => Effect(Failed(e, out), scopes)
        case Done(v, out) => Effect(Done(Object(Indeterminate, v.returned), out), Bind(scopes, s.identifier.value, v)))
    case ReturnStatement =>
      (match EvalExpression(equal, fuel, scopes, s.expression, o)
       case Failed(e, out) => Effect(Failed(e, out), scopes)
       case Done(v, out) => Effect(Done(v.(returned := true), out), scopes))
    case ExpressionStatement => Effect(EvalExpression(equal, fuel, scopes, s.expression, o), scopes)
    case NoStatement => Effect(Failed(UnexpectedStatement, ""), scopes)
  }

  /** evaluate_program: the statements in a global scope holding the
      builtins, into a fresh Object. */
  function EvalProgram(equal: (Object, Object) -> bool, fuel: nat, program: seq<Statement>): Outcome
  {
    BlockAux(equal, fuel, [Globals], program, Uninitialised)
  }
}
