/** Powers of two, and where unsigned integers of the machine wrap around. */
module Powers {

  const TWO_TO_6: nat := 64
  const TWO_TO_8: nat := 0x100
  const TWO_TO_14: nat := 0x4000
  const TWO_TO_16: nat := 0x1_0000
  const TWO_TO_30: nat := 0x4000_0000
  const TWO_TO_31: nat := 0x8000_0000
  const TWO_TO_32: nat := 0x1_0000_0000
  const TWO_TO_35: nat := 0x8_0000_0000
  const TWO_TO_62: nat := 0x4000_0000_0000_0000
  const TWO_TO_64: nat := 0x1_0000_0000_0000_0000

  function Pow2(n: nat): (r: nat)
    ensures r > 0
  {
    if n == 0 then 1 else 2 * Pow2(n - 1)
  }

  lemma {:induction false} Pow2Monotone(a: nat, b: nat)
    requires a <= b
    ensures Pow2(a) <= Pow2(b) && (a < b ==> Pow2(a) < Pow2(b))
  {
    if a < b {
      Pow2Monotone(a, b - 1);
    }
  }
}
