/** The syntax tree (src/monkey/expression.h, src/expression.c,
    src/statement.c) and its fully parenthesised printed form. Statement
    lists, parameter lists and argument lists, linked lists in the source,
    are sequences here. */
module Ast {
  import opened Wrappers
  import opened LibC
  import opened Operations

  datatype ExpressionType =
    | NoType | IntegerType | BoolType | StringType | IdentifierType | PrefixType
    | InfixType | ConditionalType | FunctionType | CallType | ArrayType

  datatype Expression =
    | NoExpression
    | IntegerExpression(integer: int)
    | BoolExpression(boolean: bool)
    | StringExpression(text: string)
    | IdentifierExpression(name: string)
    | PrefixExpression(operation: Operation, operand: Expression)
    | InfixExpression(operation: Operation, left: Expression, right: Expression)
    | ConditionalExpression(condition: Expression, consequence: seq<Statement>,
                            alternate: Option<seq<Statement>>)
    | FunctionExpression(parameters: seq<string>, body: seq<Statement>)
    | CallExpression(callee: Expression, arguments: seq<Expression>)
    | ArrayExpression(elements: seq<Expression>)

  datatype StatementType = NoStatement | LetStatement | ReturnStatement | ExpressionStatement

  /** A statement: its type, the bound name of a let statement and its
      expression. */
  datatype Statement = Statement(kind: StatementType, identifier: Option<string>, expression: Expression)

  function TypeOf(e: Expression): ExpressionType
  {
    match e
    case NoExpression => NoType
    case IntegerExpression(_) => IntegerType
    case BoolExpression(_) => BoolType
    case StringExpression(_) => StringType
    case IdentifierExpression(_) => IdentifierType
    case PrefixExpression(_, _) => PrefixType
    case InfixExpression(_, _, _) => InfixType
    case ConditionalExpression(_, _, _) => ConditionalType
    case FunctionExpression(_, _) => FunctionType
    case CallExpression(_, _) => CallType
    case ArrayExpression(_) => ArrayType
  }

  /** expression_init: a node of the given type whose operand slots are
      empty. The payload of the other types is left unset in the source;
      here it is zero, false or empty. */
  function ExpressionInit(t: ExpressionType): (e: Expression)
    ensures TypeOf(e) == t
    ensures e.PrefixExpression? ==> e.operand == NoExpression
    ensures e.InfixExpression? ==> e.left == NoExpression && e.right == NoExpression
  {
    match t
    case NoType => NoExpression
    case IntegerType => IntegerExpression(0)
    case BoolType => BoolExpression(false)
    case StringType => StringExpression([])
    case IdentifierType => IdentifierExpression([])
    case PrefixType => PrefixExpression(NoOperation, NoExpression)
    case InfixType => InfixExpression(NoOperation, NoExpression, NoExpression)
    case ConditionalType => ConditionalExpression(NoExpression, [], None)
    case FunctionType => FunctionExpression([], [])
    case CallType => CallExpression(NoExpression, [])
    case ArrayType => ArrayExpression([])
  }

  /** statement_init: no type, no name, an empty expression. */
  const StatementInit := Statement(NoStatement, None, NoExpression)

  /** expression_print, as the text it writes. */
  function ExpressionText(e: Expression): string
  {
    match e
    case BoolExpression(b) => if b then "true" else "false"
    case IntegerExpression(n) => IntText(n)
    case StringExpression(s) => "\"" + s + "\""
    case IdentifierExpression(name) => name
    case PrefixExpression(op, operand) => "(" + OperationText(op) + ExpressionText(operand) + ")"
    case InfixExpression(op, left, right) =>
      "(" + ExpressionText(left) + OperationText(op) + ExpressionText(right) + ")"
    case _ => ""
  }

  /** statement_print, as the text it writes. */
  function StatementText(s: Statement): string
  {
    var lead :=
      if s.kind == LetStatement then "let " + (if s.identifier.Some? then s.identifier.value else "") + " = "
      else if s.kind == ReturnStatement then "return "
      else "";
    lead + ExpressionText(s.expression) + ";\n"
  }

  /** The number of times `c` occurs in `s`. */
  function Count(c: char, s: string): nat
  {
    if |s| == 0 then 0 else (if s[0] == c then 1 else 0) + Count(c, s[1..])
  }

  lemma {:induction false} CountAppend(c: char, a: string, b: string)
    ensures Count(c, a + b) == Count(c, a) + Count(c, b)
  {
    if |a| > 0 {
      assert (a + b)[0] == a[0] && (a + b)[1..] == a[1..] + b;
      CountAppend(c, a[1..], b);
    } else {
      assert a + b == b;
    }
  }

  /** The number of prefix and infix nodes of an operator tree. */
  function OperatorNodes(e: Expression): nat
  {
    match e
    case PrefixExpression(_, operand) => 1 + OperatorNodes(operand)
    case InfixExpression(_, left, right) => 1 + OperatorNodes(left) + OperatorNodes(right)
    case _ => 0
  }

  /** Whether every string literal and identifier of the tree is free of
      parentheses. */
  predicate PlainLeaves(e: Expression)
  {
    match e
    case StringExpression(s) => '(' !in s && ')' !in s
    case IdentifierExpression(name) => '(' !in name && ')' !in name
    case PrefixExpression(_, operand) => PlainLeaves(operand)
    case InfixExpression(_, left, right) => PlainLeaves(left) && PlainLeaves(right)
    case _ => true
  }

  lemma {:induction false} NoParenthesesCounted(c: char, s: string)
    requires c !in s
    ensures Count(c, s) == 0
  {
    if |s| > 0 {
      assert s[0] != c;
      NoParenthesesCounted(c, s[1..]);
    }
  }

  lemma {:induction false} PlainTextsHaveNoParentheses(e: Expression)
    requires !e.PrefixExpression? && !e.InfixExpression? && PlainLeaves(e)
    ensures Count('(', ExpressionText(e)) == 0 && Count(')', ExpressionText(e)) == 0
  {
    var t := ExpressionText(e);
    match e
    case IntegerExpression(n) =>
      var digits := if n < 0 then NatText(-n) else NatText(n);
      assert forall i :: 0 <= i < |digits| ==> IsDigit(digits[i]);
      if n < 0 { assert t == "-" + digits; }
      assert '(' !in t && ')' !in t;
      NoParenthesesCounted('(', t);
      NoParenthesesCounted(')', t);
    case StringExpression(s) =>
      assert t == "\"" + s + "\"";
      assert '(' !in t && ')' !in t;
      NoParenthesesCounted('(', t);
      NoParenthesesCounted(')', t);
    case _ =>
      NoParenthesesCounted('(', t);
      NoParenthesesCounted(')', t);
  }

  /** The printed form is fully parenthesised: each prefix and infix node
      contributes exactly one pair of parentheses, and literals and
      operators none. */
  lemma {:induction false} FullyParenthesised(e: Expression)
    requires PlainLeaves(e)
    ensures Count('(', ExpressionText(e)) == OperatorNodes(e)
    ensures Count(')', ExpressionText(e)) == OperatorNodes(e)
  {
    match e
    case PrefixExpression(op, operand) =>
      FullyParenthesised(operand);
      var o := OperationText(op);
      NoParenthesesCounted('(', o);
      NoParenthesesCounted(')', o);
      assert ExpressionText(e) == "(" + o + ExpressionText(operand) + ")";
      CountAppend('(', "(" + o + ExpressionText(operand), ")");
      CountAppend('(', "(" + o, ExpressionText(operand));
      CountAppend('(', "(", o);
      CountAppend(')', "(" + o + ExpressionText(operand), ")");
      CountAppend(')', "(" + o, ExpressionText(operand));
      CountAppend(')', "(", o);
    case InfixExpression(op, left, right) =>
      FullyParenthesised(left);
      FullyParenthesised(right);
      var o := OperationText(op);
      var l, r := ExpressionText(left), ExpressionText(right);
      NoParenthesesCounted('(', o);
      NoParenthesesCounted(')', o);
      assert ExpressionText(e) == "(" + l + o + r + ")";
      CountAppend('(', "(" + l + o + r, ")");
      CountAppend('(', "(" + l + o, r);
      CountAppend('(', "(" + l, o);
      CountAppend('(', "(", l);
      CountAppend(')', "(" + l + o + r, ")");
      CountAppend(')', "(" + l + o, r);
      CountAppend(')', "(" + l, o);
      CountAppend(')', "(", l);
    case _ =>
      PlainTextsHaveNoParentheses(e);
  }

  /** Only the six printable types produce text: conditionals, function
      literals, calls, arrays and the empty expression print nothing. */
  lemma SilentTypes(e: Expression)
    requires TypeOf(e) in {NoType, ConditionalType, FunctionType, CallType, ArrayType}
    ensures ExpressionText(e) == ""
  {
  }

  /** The printed form of an integer literal reads back, through atoi, as
      the literal's value. */
  lemma IntegerTextReadsBack(n: int)
    ensures Atoi(ExpressionText(IntegerExpression(n))) == n
  {
    AtoiInvertsIntText(n);
  }

  /** A statement prints as its kind's lead-in ("let NAME = ", "return " or
      nothing), then its expression, then ";\n". */
  lemma StatementTextShape(s: Statement)
    ensures s.kind == LetStatement && s.identifier.Some? ==>
      StatementText(s) == "let " + s.identifier.value + " = " + ExpressionText(s.expression) + ";\n"
    ensures s.kind == ReturnStatement ==> StatementText(s) == "return " + ExpressionText(s.expression) + ";\n"
    ensures s.kind in {ExpressionStatement, NoStatement} ==> StatementText(s) == ExpressionText(s.expression) + ";\n"
    ensures StatementText(StatementInit) == ";\n"
  {
  }
}
