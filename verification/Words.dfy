/** Machine words, and what else every part needs. */
module Words {
  const MAX64: nat := 0xFFFF_FFFF_FFFF_FFFF
  const WORD64: nat := MAX64 + 1
  const WORD32: nat := 0x1_0000_0000

  datatype Option<+T> = None | Some(value: T)

  function Min(a: nat, b: nat): nat {
    if a <= b then a else b
  }
}
