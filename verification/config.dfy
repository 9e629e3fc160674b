/** Constants, field widths and port-mask helpers of the MPR121Manager class.

    The C++ fields are fixed-width unsigned integers; here they are subset
    types of `int` with the same ranges, so that every value the model
    stores is one the C++ field could hold. */
module Config {

  /** `uint8_t`: ports, margins passed to the margin setters, counters. */
  type uint8 = x: int | 0 <= x < 0x100

  /** `uint16_t`: raw readings, value bounds, stored margins. */
  type uint16 = x: int | 0 <= x < 0x1_0000

  /** Number of electrodes on the board; valid ports are 0 .. MaxPort - 1. */
  const MaxPort: nat := 12

  /** Smoothing coefficient of the exponential filter (a `const float`, never changed). */
  const Alpha: real := 0.6

  /** Default I2C address of the constructor (ADDR strapped to GND). */
  const DefaultAddress: uint8 := 0x5A

  /** Default active-port mask of the constructor: every port selected. */
  const DefaultPortMask: uint16 := 0xFFFF

  /** Bit `i` of a mask, `(mask >> i) & 1` on naturals: shifting right by one
      place halves the mask, and the low bit is its parity. */
  predicate BitSet(mask: nat, i: nat)
    decreases i
  {
    if i == 0 then mask % 2 == 1 else BitSet(mask / 2, i - 1)
  }

  /** The guard shared by `isTouched` and the six setters: the port is in
      range and its bit is set in the active-port mask. */
  predicate PortEnabled(mask: uint16, port: uint8) {
    port < MaxPort && BitSet(mask, port)
  }

  /** The default mask selects every port of the board. */
  lemma DefaultMaskSelectsAll(i: nat)
    requires i < MaxPort
    ensures PortEnabled(DefaultPortMask, i)
  {
    assert Pow2(4) == 16;
    assert Pow2(8) == 256;
    assert Pow2(12) == 4096;
    assert Pow2(16) == 0x1_0000;
    AllOnesBitSet(16, i);
  }

  /** A mask of `k` ones, `(1 << k) - 1`, has each of its low `k` bits set. */
  lemma {:induction false} AllOnesBitSet(k: nat, i: nat)
    requires i < k
    ensures BitSet(Pow2(k) - 1, i)
  {
    if i > 0 {
      assert (Pow2(k) - 1) / 2 == Pow2(k - 1) - 1;
      AllOnesBitSet(k - 1, i - 1);
    }
  }

  /** `1 << k` for shifts that stay within a machine word. */
  function Pow2(k: nat): (p: nat)
    ensures p >= 1
  {
    if k == 0 then 1 else 2 * Pow2(k - 1)
  }
}
