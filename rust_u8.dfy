/** Rust's `u8` and the three ways the firmware does arithmetic on it.
    A debug build checks every `+`, `-` and `*` and panics when the exact
    result leaves 0..=255; `wrapping_add` instead reduces modulo 256. */
module RustU8 {

  /** An unsigned 8-bit integer. */
  newtype u8 = x: int | 0 <= x < 256

  /** The outcome of one checked operation: its value, or the overflow panic
      that a debug build raises. Failure-compatible, so `:-` propagates a panic
      the way Rust unwinds out of the enclosing function. */
  datatype Checked<+T> = Value(value: T) | Overflow {

    predicate IsFailure() {
      Overflow?
    }

    function PropagateFailure<U>(): Checked<U> {
      Overflow
    }

    function Extract(): T
      requires Value?
    {
      value
    }
  }

  /** `a + b` in a debug build. */
  function CheckedAdd(a: u8, b: u8): (r: Checked<u8>)
    ensures r.Value? <==> a as int + b as int <= 255
    ensures r.Value? ==> r.value as int == a as int + b as int
  {
    if a <= 255 - b then Value(a + b) else Overflow
  }

  /** `a - b` in a debug build. */
  function CheckedSub(a: u8, b: u8): (r: Checked<u8>)
    ensures r.Value? <==> b <= a
    ensures r.Value? ==> r.value as int == a as int - b as int
  {
    if b <= a then Value(a - b) else Overflow
  }

  /** `a * b` in a debug build. */
  function CheckedMul(a: u8, b: u8): (r: Checked<u8>)
    ensures r.Value? <==> a as int * b as int <= 255
    ensures r.Value? ==> r.value as int == a as int * b as int
  {
    var p := a as int * b as int;
    if p <= 255 then Value(p as u8) else Overflow
  }

  /** `a.wrapping_add(b)`: never panics, and agrees with `a + b` modulo 256. */
  function WrappingAdd(a: u8, b: u8): (r: u8)
    ensures r as int == (a as int + b as int) % 256
  {
    if a <= 255 - b then a + b else (a as int + b as int - 256) as u8
  }

  /** Where the checked addition succeeds, wrapping addition gives the same
      value; where it panics, wrapping addition has wrapped past zero. */
  lemma WrappingAgreesWithChecked(a: u8, b: u8)
    ensures CheckedAdd(a, b).Value? ==> WrappingAdd(a, b) == CheckedAdd(a, b).value
    ensures CheckedAdd(a, b).Overflow? ==> WrappingAdd(a, b) < a && WrappingAdd(a, b) < b
  {
  }
}
