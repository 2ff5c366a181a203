/**
 Bytes, results and the fixed-width casts shared by the whole model.

 A byte is a `char` below 256, so that the byte-string literals of the program
 (`b"coin.TRANSFER"`) are Dafny string literals here.
 */
module Base {
  datatype Option<+T> = None | Some(value: T)

  datatype Result<+T, +E> = Ok(value: T) | Err(error: E)

  /** A result without a value: `:-` returns from the caller when it is a failure. */
  datatype Outcome<+E> = Pass | Fail(error: E) {
    predicate IsFailure() { Fail? }

    function PropagateFailure(): Outcome<E> { this }
  }

  type Byte = c: char | c as int < 256 witness ' '
  type Bytes = string

  type u8 = n: int | 0 <= n < 0x100
  type u16 = n: int | 0 <= n < 0x1_0000
  type u32 = n: int | 0 <= n < 0x1_0000_0000

  /** `n as u8`, `n as u16`: the truncating casts. */
  function U8(n: nat): u8 { n % 0x100 }

  function U16(n: nat): u16 { n % 0x1_0000 }

  /** Concatenation by name, so that a proof can carry a long text without its bytes. */
  function Cat<T>(a: seq<T>, b: seq<T>): seq<T> { a + b }

  predicate IsDigit(c: char) { '0' <= c <= '9' }

  predicate IsBlank(c: char) { c == ' ' || c == '\t' || c == '\n' || c == '\r' }

  predicate Blank(s: Bytes) { forall i | 0 <= i < |s| :: IsBlank(s[i]) }

  predicate AllBytes(s: Bytes) { forall i | 0 <= i < |s| :: s[i] as int < 256 }

  predicate Digits(s: Bytes) { forall i | 0 <= i < |s| :: IsDigit(s[i]) }
}
