// Octets, and the sixteen and thirty-two bit counters they are counted with.
module Bytes {
  type byte = x: nat | x < 0x100

  const TWO_16: nat := 0x1_0000
  const TWO_32: nat := 0x1_0000_0000

  function Min(a: nat, b: nat): nat {
    if a < b then a else b
  }

  function Max(a: nat, b: nat): nat {
    if a < b then b else a
  }
}
