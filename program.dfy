/** The growable statement array of src/program.c. */
module Programs {
  import opened Ast

  class Program {
    var statements: array<Statement>
    var size: nat
    var length: nat

    /** length <= size == capacity of the array, and the capacity is never
        zero. */
    ghost predicate Valid()
      reads this
    {
      size == statements.Length && 1 <= size && length <= size
    }

    /** The statements added so far, in order. */
    ghost function Items(): seq<Statement>
      requires Valid()
      reads this, statements
    {
      statements[..length]
    }

    /** program_init: room for one statement, none stored. */
    constructor Init()
      ensures Valid() && fresh(statements)
      ensures size == 1 && length == 0 && Items() == []
    {
      statements := new Statement[1](_ => StatementInit);
      size := 1;
      length := 0;
    }

    /** program_extend: when full, double the capacity, copying the stored
        statements over; then store the statement at index `length` and
        count it. */
    method Extend(statement: Statement)
      requires Valid()
      modifies this, statements
      ensures Valid()
      ensures Items() == old(Items()) + [statement]
      ensures length == old(length) + 1
      ensures size == if old(size) <= old(length) then 2 * old(size) else old(size)
      ensures statements == old(statements) || fresh(statements)
      ensures old(size) == Capacity(old(length)) ==> size == Capacity(length)
    {
      if size <= length {
        var grown := new Statement[2 * size](_ => StatementInit);
        forall i | 0 <= i < length {
          grown[i] := statements[i];
        }
        statements := grown;
        size := 2 * size;
      }
      statements[length] := statement;
      length := length + 1;
    }
  }

  predicate PowerOfTwo(c: nat)
  {
    c == 1 || (c > 1 && c % 2 == 0 && PowerOfTwo(c / 2))
  }

  /** The capacity after n extensions of a fresh program, step by step
      as Extend grows it. */
  function Capacity(n: nat): nat
  {
    if n == 0 then 1
    else
      var c := Capacity(n - 1);
      if c <= n - 1 then 2 * c else c
  }

  /** Doubling from one keeps the capacity the least power of two that
      holds the statements: never less than their number and, once there
      is one, less than twice it. */
  lemma {:induction false} CapacityIsLeastPowerOfTwo(n: nat)
    ensures PowerOfTwo(Capacity(n)) && n <= Capacity(n)
    ensures n > 0 ==> Capacity(n) < 2 * n
  {
    if n > 0 {
      CapacityIsLeastPowerOfTwo(n - 1);
      var c := Capacity(n - 1);
      if c <= n - 1 {
        assert (2 * c) / 2 == c;
      }
    }
  }
}
