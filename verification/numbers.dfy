/** Integer helpers shared by the walker and the controller. */
module Numbers {

  /** Absolute value, as `std::abs` on an `int`. */
  function Abs(x: int): nat
  {
    if x < 0 then -x else x
  }

  function Max(a: int, b: int): int
  {
    if a < b then b else a
  }
}
