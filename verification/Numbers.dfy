/** Numbers shared by the components. */
module Numbers {

  type Byte = b: int | 0 <= b < 0x100

  type Bytes = seq<Byte>

  function Pow2(n: nat): (p: nat)
    ensures p >= 1
  {
    if n == 0 then 1 else 2 * Pow2(n - 1)
  }
}
