/** Run-time values (src/object.c, src/monkey/object.h). An Object is a
    tagged value plus the `returned` mark that a `return` statement sets.
    The evaluator writes its results into Objects its callers supply;
    `ObjectCell` is such an Object updated in place, and the datatype
    `Object` is the value it holds at a given moment. */
module Objects {
  import opened LibC
  import opened Ast

  /** The object tags: those of src/monkey/object.h together with the
      internal (builtin) and array tags the evaluator uses, and a tag for
      an object whose contents the source leaves unspecified. */
  datatype ObjectType =
    | ObjectNull | ObjectInteger | ObjectString | ObjectBool | ObjectFunction
    | ObjectInternal | ObjectArray | ObjectUnknown

  /** The two builtins of src/functions.c. */
  datatype Builtin = Puts | Len

  /** A tag with its payload. A function value holds only its function
      literal (parameters and body), no environment. `Indeterminate` is
      the contents of an object that was never initialised or that
      object_free has released. */
  datatype Value =
    | Null
    | Integer(integer: int)
    | Str(text: string)
    | Bool(boolean: bool)
    | Function(parameters: seq<string>, body: seq<Statement>)
    | Internal(builtin: Builtin)
    | Array(elements: seq<Object>)
    | Indeterminate

  datatype Object = Object(value: Value, returned: bool)

  /** A C local `Object object;` before anything is written to it; the
      mark is taken to be clear. */
  const Uninitialised := Object(Indeterminate, false)

  function Tag(v: Value): ObjectType
  {
    match v
    case Null => ObjectNull
    case Integer(_) => ObjectInteger
    case Str(_) => ObjectString
    case Bool(_) => ObjectBool
    case Function(_, _) => ObjectFunction
    case Internal(_) => ObjectInternal
    case Array(_) => ObjectArray
    case Indeterminate => ObjectUnknown
  }

  /** object_copy: the tag and payload of the source with the returned
      mark cleared. */
  function Copy(o: Object): (r: Object)
    ensures r.value == o.value && !r.returned
  {
    Object(o.value, false)
  }

  /** Copying twice is copying once, and a copy is unaffected by the mark
      of its source. */
  lemma CopyIdempotent(o: Object, b: bool)
    ensures Copy(Copy(o)) == Copy(o)
    ensures Copy(o.(returned := b)) == Copy(o)
  {
  }

  /** object_print, as the text it writes. Internal, array and
      indeterminate objects have no case and print nothing. */
  function ObjectText(v: Value): string
  {
    match v
    case Null => "NULL\n"
    case Bool(b) => "bool: " + (if b then "true" else "false") + "\n"
    case Integer(n) => "integer: " + IntText(n) + "\n"
    case Str(s) => "string: " + s + "\n"
    case Function(_, _) => "function\n"
    case _ => ""
  }

  /** The tags object_print knows. */
  predicate Printable(v: Value)
  {
    Tag(v) in {ObjectNull, ObjectBool, ObjectInteger, ObjectString, ObjectFunction}
  }

  /** Each printable object prints as one newline-terminated line, and the
      others print nothing. */
  lemma PrintedLine(v: Value)
    ensures Printable(v) <==> ObjectText(v) != ""
    ensures Printable(v) ==> ObjectText(v)[|ObjectText(v)| - 1] == '\n'
  {
  }

  /** The line printed for an integer reads back, through atoi, as the
      integer. */
  lemma IntegerLineReadsBack(n: int)
    ensures var line := ObjectText(Integer(n));
      |line| > 10 && line[..9] == "integer: " && Atoi(line[9..|line| - 1]) == n
  {
    var line := ObjectText(Integer(n));
    assert line[9..|line| - 1] == IntText(n);
    AtoiInvertsIntText(n);
  }

  /** Null, booleans, integers and strings print differently from each
      other: the printed line determines the value. */
  lemma {:induction false} ScalarsPrintDistinctly(a: Value, b: Value)
    requires Tag(a) in {ObjectNull, ObjectBool, ObjectInteger, ObjectString}
    requires Tag(b) in {ObjectNull, ObjectBool, ObjectInteger, ObjectString}
    requires ObjectText(a) == ObjectText(b)
    ensures a == b
  {
    var t, u := ObjectText(a), ObjectText(b);
    assert t[0] == u[0];
    if a.Integer? {
      assert t[9..|t| - 1] == IntText(a.integer);
      assert u[9..|t| - 1] == IntText(b.integer);
      AtoiInvertsIntText(a.integer);
      AtoiInvertsIntText(b.integer);
    } else if a.Str? {
      assert t[8..|t| - 1] == a.text;
      assert u[8..|t| - 1] == b.text;
    } else if a.Bool? {
      assert t[6] == u[6];
    }
  }

  /** An Object that callers hand to the evaluator to be written. */
  class ObjectCell {
    var value: Value
    var returned: bool

    function Get(): Object
      reads this
    {
      Object(value, returned)
    }

    /** A fresh C local: contents not yet written. */
    constructor Local()
      ensures Get() == Uninitialised
    {
      value := Indeterminate;
      returned := false;
    }

    /** object_init_integer: sets tag and payload, leaves the mark alone,
        and reports success. */
    method InitInteger(n: int) returns (ok: bool)
      modifies this
      ensures ok && Get() == Object(Integer(n), old(returned))
    {
      value := Integer(n);
      ok := true;
    }

    /** object_init_string. */
    method InitString(s: string) returns (ok: bool)
      modifies this
      ensures ok && Get() == Object(Str(s), old(returned))
    {
      value := Str(s);
      ok := true;
    }

    /** object_init_bool. */
    method InitBool(b: bool) returns (ok: bool)
      modifies this
      ensures ok && Get() == Object(Bool(b), old(returned))
    {
      value := Bool(b);
      ok := true;
    }

    /** object_init_function. */
    method InitFunction(parameters: seq<string>, body: seq<Statement>) returns (ok: bool)
      modifies this
      ensures ok && Get() == Object(Function(parameters, body), old(returned))
    {
      value := Function(parameters, body);
      ok := true;
    }

    /** object_copy from another cell (or this one). */
    method CopyFrom(source: ObjectCell)
      modifies this
      ensures Get() == Copy(old(source.Get()))
    {
      value := source.value;
      returned := false;
    }

    /** object_free: the contents become unspecified; the mark stays. */
    method Free()
      modifies this
      ensures Get() == Object(Indeterminate, old(returned))
    {
      value := Indeterminate;
    }
  }
}
