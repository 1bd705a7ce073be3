/** C strings as the code that walks them with a pointer sees them: the byte at the pointer and
    what lies behind it, up to the terminating NUL. */
module CString {

  type byte = b: int | 1 <= b < 256 witness 1

  datatype Str = End | Ch(c: byte, rest: Str)

  function Length(s: Str): nat {
    if s.End? then 0 else 1 + Length(s.rest)
  }

  function Append(s: Str, t: Str): Str {
    if s.End? then t else Ch(s.c, Append(s.rest, t))
  }

  /** The bytes of a string, as they lie in memory. */
  function Raw(s: Str): (r: seq<int>)
    ensures |r| == Length(s)
  {
    if s.End? then [] else [s.c] + Raw(s.rest)
  }

  lemma {:induction false} RawIsBytes(s: Str)
    ensures forall i :: 0 <= i < Length(s) ==> 0 < Raw(s)[i] < 256
  {
    if s.Ch? { RawIsBytes(s.rest); }
  }
}
