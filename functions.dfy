/** The builtins of src/functions.c. Each receives its one argument in
    the caller's Object and overwrites it in place with its result;
    `puts` also writes the argument's printed form, returned here as
    text. */
module Functions {
  import opened Objects

  /** What a builtin leaves behind: its success flag, the Object it was
      given as rewritten, and the text it wrote. */
  datatype Call = Call(ok: bool, result: Object, output: string)

  /** function_length and function_puts on the argument Object. The length
      is the one string_length reports, the number of characters. */
  function Apply(b: Builtin, o: Object): Call
  {
    match b
    case Len =>
      if !o.value.Str? then Call(false, o, "")
      else Call(true, Object(Integer(|o.value.text|), o.returned), "")
    case Puts => Call(true, o.(value := Indeterminate), ObjectText(o.value))
  }

  /** len fails on anything but a string, writing nothing and leaving the
      Object as it was; on a string it replaces the Object's value with
      the string's length and keeps the returned mark. */
  lemma LenCounts(o: Object)
    ensures !Apply(Len, o).ok <==> Tag(o.value) != ObjectString
    ensures !Apply(Len, o).ok ==> Apply(Len, o).result == o
    ensures Apply(Len, o).ok ==>
      Apply(Len, o).result.value == Integer(|o.value.text|) && Apply(Len, o).result.returned == o.returned
    ensures Apply(Len, o).output == ""
  {
  }

  /** puts always succeeds, writes exactly object_print of its argument
      and frees the argument. */
  lemma PutsPrints(o: Object)
    ensures Apply(Puts, o).ok
    ensures Apply(Puts, o).output == ObjectText(o.value)
    ensures Apply(Puts, o).result == Object(Indeterminate, o.returned)
  {
  }

  /** The length len reports for a concatenation is the sum of the
      lengths. */
  lemma LenOfConcatenation(a: string, b: string, m: bool)
    ensures Apply(Len, Object(Str(a + b), m)).result.value.integer
         == Apply(Len, Object(Str(a), m)).result.value.integer + Apply(Len, Object(Str(b), m)).result.value.integer
  {
  }

  /** A builtin applied in place to the caller's Object. */
  method Invoke(b: Builtin, cell: ObjectCell) returns (ok: bool, output: string)
    modifies cell
    ensures var r := Apply(b, old(cell.Get()));
      ok == r.ok && output == r.output && cell.Get() == r.result
  {
    output := "";
    match b
    case Len =>
      if !cell.value.Str? {
        ok := false;
        return;
      }
      var length := |cell.value.text|;
      cell.Free();
      ok := cell.InitInteger(length);
    case Puts =>
      output := ObjectText(cell.value);
      cell.Free();
      ok := true;
  }
}
