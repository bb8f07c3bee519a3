/** Register bit helpers shared by the peripheral drivers. */
module CommonMacros {

  /** The mask `1 << n` of bit `n` of an 8-bit register. */
  function Bit(n: bv8): (m: bv8)
    requires n < 8
    ensures m != 0 && m & (m - 1) == 0
  {
    (1 as bv8) << n
  }
}
