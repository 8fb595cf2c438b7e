/** Types shared by every part of the model. */
module Basics {

  type byte = x: int | 0 <= x < 0x100
  type Bytes = seq<byte>

  /** Rust's `i64`, with its range and no arithmetic of its own. */
  type i64 = x: int | -0x8000_0000_0000_0000 <= x < 0x8000_0000_0000_0000

  /** One 64-bit word. */
  type u64 = x: int | 0 <= x < 0x1_0000_0000_0000_0000

  datatype Option<+T> = None | Some(value: T)

  datatype Result<+T, +E> = Ok(value: T) | Err(error: E) {
    predicate IsFailure() {
      Err?
    }

    function PropagateFailure<U>(): Result<U, E>
      requires Err?
    {
      Err(error)
    }

    function Extract(): T
      requires Ok?
    {
      value
    }
  }

  predicate Continuation(b: byte) {
    0x80 <= b <= 0xBF
  }

  /** Whether `b` is well-formed UTF-8, the check behind `String::from_utf8`. */
  predicate ValidUtf8(b: Bytes) {
    if b == [] then true
    else if b[0] <= 0x7F then ValidUtf8(b[1..])
    else if 0xC2 <= b[0] <= 0xDF then
      |b| >= 2 && Continuation(b[1]) && ValidUtf8(b[2..])
    else if 0xE0 <= b[0] <= 0xEF then
      && |b| >= 3
      && Continuation(b[1]) && Continuation(b[2])
      && (b[0] == 0xE0 ==> 0xA0 <= b[1])
      && (b[0] == 0xED ==> b[1] <= 0x9F)
      && ValidUtf8(b[3..])
    else if 0xF0 <= b[0] <= 0xF4 then
      && |b| >= 4
      && Continuation(b[1]) && Continuation(b[2]) && Continuation(b[3])
      && (b[0] == 0xF0 ==> 0x90 <= b[1])
      && (b[0] == 0xF4 ==> b[1] <= 0x8F)
      && ValidUtf8(b[4..])
    else false
  }

  /** Rust's `String`: the bytes of a well-formed UTF-8 text. */
  type Text = b: Bytes | ValidUtf8(b) witness []

  type SiteId = Bytes

  /** One replicated cell of a table, the key of a row of `crsql_changes`. */
  datatype Cell = Cell(table: Text, pk: Bytes, cid: Text)

  lemma SomeMember<T>(s: seq<T>)
    ensures s == [] || exists x :: x in s
  {
    if s != [] {
      assert s[0] in s;
    }
  }
}
