/** Types shared by every part of the model. */
module Common {

  datatype Option<+T> = None | Some(value: T)

  datatype Result<+T, +E> = Ok(value: T) | Err(error: E)

  /** A Solana address, written in the base-58 form the bot prints and sorts by. */
  type Pubkey = string

  const TWO_32: nat := 0x1_0000_0000
  const TWO_64: nat := 0x1_0000_0000_0000_0000
  const TWO_128: nat := TWO_64 * TWO_64

  type byte = n: nat | n < 256
  type u64 = n: nat | n < TWO_64
  type u128 = n: nat | n < TWO_128

  /** `u32::saturating_add(1)`. */
  function SaturatingInc32(n: nat): nat
  {
    if n + 1 < TWO_32 then n + 1 else TWO_32 - 1
  }

  /** `n += 1` on a `u32` in a release build, where overflow wraps. */
  function WrappingInc32(n: nat): nat
  {
    (n + 1) % TWO_32
  }

  function Elements<T(==)>(s: seq<T>): set<T>
  {
    set x | x in s
  }

  function Max(a: nat, b: nat): nat
  {
    if a < b then b else a
  }

  function MaxReal(a: real, b: real): real
  {
    if a < b then b else a
  }

  /** `a.duration_since(b)` on instants, which saturates at zero. */
  function Elapsed(now: nat, since: nat): nat
  {
    if now >= since then now - since else 0
  }
}
