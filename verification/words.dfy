/** Machine words and the small failure types every other module uses. */
module Words {

  type uint8 = x: int | 0 <= x < 0x100
  type uint16 = x: int | 0 <= x < 0x1_0000
  type uint32 = x: int | 0 <= x < 0x1_0000_0000
  type uint64 = x: int | 0 <= x < 0x1_0000_0000_0000_0000
  type int16 = x: int | -0x8000 <= x < 0x8000
  type int32 = x: int | -0x8000_0000 <= x < 0x8000_0000

  type bytes = seq<uint8>

  datatype Option<+T> = None | Some(value: T)

  datatype Result<+T, +E> = Ok(value: T) | Err(error: E) {
    predicate IsFailure() {
      Err?
    }

    function PropagateFailure<U>(): Result<U, E>
      requires Err?
    {
      Err(error)
    }

    function Extract(): T
      requires Ok?
    {
      value
    }
  }

  /** Rust's wrapping `as i32` cast of a `u32`. */
  function AsInt32(v: uint32): int32 {
    if v < 0x8000_0000 then v else v - 0x1_0000_0000
  }

  /** Rust's `i32::saturating_sub`. */
  function SaturatingSub(a: int32, b: int32): int32 {
    var d := a - b;
    if d < -0x8000_0000 then -0x8000_0000 else if d >= 0x8000_0000 then 0x7FFF_FFFF else d
  }

  /** `v.clamp(0, u16::MAX) as u16`. */
  function ClampToUint16(v: int32): uint16 {
    if v < 0 then 0 else if v > 0xFFFF then 0xFFFF else v
  }

  // Sequence facts the verifier does not find on its own inside larger proofs.

  lemma Assoc<T>(a: seq<T>, b: seq<T>, c: seq<T>)
    ensures (a + b) + c == a + (b + c)
  {
  }

  lemma NothingAppended<T>(a: seq<T>)
    ensures a + [] == a && [] + a == a
  {
  }
}
