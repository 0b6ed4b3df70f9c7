/** The growable, NUL-terminated character buffer of src/string.c.
    A buffer is either unallocated (`value == null`, size and position 0)
    or an array of `size` characters whose first `position` characters are
    the text and whose remaining characters are all NUL. */
module Strings {

  const NUL: char := '\0'

  /** What C's string functions see of a character array: everything
      before the first NUL. */
  function CString(s: seq<char>): (r: seq<char>)
    ensures |r| <= |s| && r == s[..|r|]
    ensures NUL !in r
    ensures |r| < |s| ==> s[|r|] == NUL
  {
    if |s| == 0 || s[0] == NUL then [] else [s[0]] + CString(s[1..])
  }

  /** When the text before a NUL holds no NUL, C sees exactly that text. */
  lemma {:induction false} CStringOfTerminated(s: seq<char>, n: nat)
    requires n < |s| && s[n] == NUL
    requires NUL !in s[..n]
    ensures CString(s) == s[..n]
  {
    if n > 0 {
      assert s[0] in s[..n];
      assert s[1..][n - 1] == NUL;
      assert s[1..][..n - 1] == s[..n][1..];
      CStringOfTerminated(s[1..], n - 1);
    }
  }

  class StringBuffer {
    var size: nat
    var position: nat
    var value: array?<char>

    /** The buffer invariant that string_append maintains: the write
        position stays strictly below the capacity and everything from
        it onwards is NUL, so the buffer is always NUL-terminated. */
    ghost predicate Valid()
      reads this, value
    {
      if value == null then size == 0 && position == 0
      else
        && value.Length == size
        && 2 <= size
        && position < size
        && forall i :: position <= i < size ==> value[i] == NUL
    }

    /** The characters written since the last reset. */
    function Text(): (t: seq<char>)
      reads this, value
      requires Valid()
      ensures |t| == position
    {
      if value == null then [] else value[..position]
    }

    /** string_init: no buffer, size 0, position 0. */
    constructor Init()
      ensures Valid()
      ensures size == 0 && position == 0 && value == null
      ensures Text() == []
    {
      size := 0;
      position := 0;
      value := null;
    }

    /** string_reset: zero the whole buffer and rewind, keeping the
        capacity. */
    method Reset()
      requires Valid()
      modifies this, value
      ensures Valid()
      ensures value == old(value) && size == old(size) && position == 0
      ensures value != null ==> forall i :: 0 <= i < value.Length ==> value[i] == NUL
      ensures Text() == []
    {
      if value != null {
        forall i | 0 <= i < value.Length {
          value[i] := NUL;
        }
      }
      position := 0;
    }

    /** string_append: allocate two NUL characters on first use, double
        the capacity (zeroing the new half) once the position reaches the
        last slot, then write `c` at the position and advance. */
    method Append(c: char)
      requires Valid()
      modifies this, value
      ensures Valid()
      ensures Text() == old(Text()) + [c]
      ensures position == old(position) + 1
      ensures old(value) == null ==> size == 2 && fresh(value)
      ensures old(value) != null && old(position) >= old(size) - 1 ==> size == 2 * old(size) && fresh(value)
      ensures old(value) != null && old(position) < old(size) - 1 ==> size == old(size) && value == old(value)
    {
      if value == null {
        value := new char[2](_ => NUL);
        size := 2;
      } else if position >= size - 1 {
        var old_value := value;
        var n := size;
        value := new char[2 * n](i requires 0 <= i < 2 * n reads old_value =>
                                   if i < n then old_value[i] else NUL);
        size := 2 * n;
      }
      value[position] := c;
      position := position + 1;
    }

    /** string_copy: take the size and position of `source` and a fresh
        copy of its buffer (none when the source has none). */
    method Copy(source: StringBuffer)
      requires Valid() && source.Valid()
      modifies this
      ensures Valid()
      ensures size == old(source.size) && position == old(source.position)
      ensures old(source.value) == null ==> value == null
      ensures old(source.value) != null ==> fresh(value) && value[..] == old(source.value[..])
      ensures Text() == old(source.Text())
    {
      var n := source.size;
      var p := source.position;
      var src := source.value;
      if src == null {
        value := null;
      } else {
        value := new char[n](i requires 0 <= i < n reads src => src[i]);
      }
      size := n;
      position := p;
    }

    /** string_equal: two missing buffers are equal, one missing buffer is
        unequal to any allocated one, and otherwise the texts are
        compared as C strings. */
    predicate Equal(other: StringBuffer)
      reads this, value, other, other.value
      requires Valid() && other.Valid()
    {
      if value == null && other.value == null then true
      else if value == null || other.value == null then false
      else CString(value[..]) == CString(other.value[..])
    }

    /** What strcmp compares is the text itself as long as no NUL was
        appended. */
    lemma CStringIsText()
      requires Valid() && value != null
      requires NUL !in Text()
      ensures CString(value[..]) == Text()
    {
      assert value[..][..position] == Text();
      CStringOfTerminated(value[..], position);
    }
  }

  /** Two allocated buffers holding NUL-free texts are equal exactly when
      their texts are. */
  lemma EqualIsTextEquality(a: StringBuffer, b: StringBuffer)
    requires a.Valid() && b.Valid() && a.value != null && b.value != null
    requires NUL !in a.Text() && NUL !in b.Text()
    ensures a.Equal(b) <==> a.Text() == b.Text()
  {
    a.CStringIsText();
    b.CStringIsText();
  }

  /** A reset buffer that still owns its storage is not equal to a buffer
      that never had any, although both hold the empty text. */
  lemma EmptyIsNotUnallocated(a: StringBuffer, b: StringBuffer)
    requires a.Valid() && b.Valid() && a.value != null && b.value == null
    ensures a.Text() == b.Text() <==> a.position == 0
    ensures !a.Equal(b)
  {
  }
}
