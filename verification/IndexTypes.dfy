/** Types shared by the two built-in indexes. Keys are compared and divided, values only stored and
    XORed. */
module IndexTypes {
  type Key = nat
  type Val = bv64

  function Min(a: int, b: int): int { if a < b then a else b }

  function Max0(n: int): int { if n < 0 then 0 else n }
}
