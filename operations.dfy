/** Operators and their binding strength (src/monkey/operation.h,
    src/operation.c). */
module Operations {

  datatype Operation =
    | NoOperation
    | Equal | NotEqual | Greater | GreaterEqual | Less | LessEqual
    | Add | Subtract | Multiply | Divide
    | Not | Negative

  datatype Precedence = Lowest | Equality | Relational | Sum | Product | Prefix | Call

  /** The numeric value of each level in the C enumeration; the parser
      compares levels through it. */
  function Level(p: Precedence): (n: nat)
    ensures n <= 6
  {
    match p
    case Lowest => 0
    case Equality => 1
    case Relational => 2
    case Sum => 3
    case Product => 4
    case Prefix => 5
    case Call => 6
  }

  predicate IsBinary(op: Operation)
  {
    op in {Equal, NotEqual, Greater, GreaterEqual, Less, LessEqual, Add, Subtract, Multiply, Divide}
  }

  predicate IsUnary(op: Operation)
  {
    op in {Not, Negative}
  }

  /** operation_precedence. OPERATION_NONE has no case in the switch, so
      it is excluded here. */
  function OperationPrecedence(op: Operation): (p: Precedence)
    requires op != NoOperation
    ensures IsBinary(op) ==> Level(Lowest) < Level(p) < Level(Prefix)
    ensures IsUnary(op) <==> p == Prefix
    ensures p != Call && p != Lowest
  {
    match op
    case Equal | NotEqual => Equality
    case Greater | GreaterEqual | Less | LessEqual => Relational
    case Add | Subtract => Sum
    case Multiply | Divide => Product
    case Not | Negative => Prefix
  }

  /** The precedence levels are totally and strictly ordered by their
      enumeration values, LOWEST = 0 up to CALL = 6. */
  lemma LevelsStrictlyOrdered(p: Precedence, q: Precedence)
    ensures Level(p) == Level(q) <==> p == q
    ensures Level(Lowest) < Level(Equality) < Level(Relational) < Level(Sum)
            < Level(Product) < Level(Prefix) < Level(Call)
  {
  }

  /** Products bind tighter than sums, sums than comparisons, comparisons
      than equality tests. */
  lemma BindingOrder(a: Operation, b: Operation)
    requires a in {Multiply, Divide} && b in {Add, Subtract}
    ensures Level(OperationPrecedence(a)) > Level(OperationPrecedence(b))
    ensures Level(OperationPrecedence(b)) > Level(OperationPrecedence(Less))
    ensures Level(OperationPrecedence(Less)) > Level(OperationPrecedence(Equal))
  {
  }

  /** operation_print, as the text it writes: binary operators with a
      space on either side, unary ones bare, nothing for OPERATION_NONE. */
  function OperationText(op: Operation): (s: string)
    ensures IsBinary(op) ==> |s| >= 3 && s[0] == ' ' && s[|s| - 1] == ' '
    ensures IsUnary(op) ==> |s| == 1
    ensures op == NoOperation <==> s == ""
  {
    match op
    case NoOperation => ""
    case Equal => " == "
    case NotEqual => " != "
    case Greater => " > "
    case GreaterEqual => " >= "
    case Less => " < "
    case LessEqual => " <= "
    case Add => " + "
    case Subtract => " - "
    case Multiply => " * "
    case Divide => " / "
    case Not => "!"
    case Negative => "-"
  }

  /** Different operators print differently, so the printed form of an
      operator identifies it. */
  lemma OperationTextInjective(a: Operation, b: Operation)
    requires OperationText(a) == OperationText(b)
    ensures a == b
  {
  }
}
