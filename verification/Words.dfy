/** Bounded machine words as naturals, with the saturating operations of `u64` and `U256`. */
module Words {
  const U64_MAX: nat := 0xFFFF_FFFF_FFFF_FFFF
  const U256_MAX: nat := 0xFFFF_FFFF_FFFF_FFFF_FFFF_FFFF_FFFF_FFFF_FFFF_FFFF_FFFF_FFFF_FFFF_FFFF_FFFF_FFFF

  type U64 = n: nat | n <= U64_MAX
  type U256 = n: nat | n <= U256_MAX

  datatype Option<+T> = None | Some(value: T)

  function Min(a: nat, b: nat): nat {
    if a <= b then a else b
  }

  function SatSub(a: nat, b: nat): nat {
    if a <= b then 0 else a - b
  }

  function SatAdd64(a: nat, b: nat): U64 {
    Min(a + b, U64_MAX)
  }

  function SatMul64(a: nat, b: nat): U64 {
    Min(a * b, U64_MAX)
  }

  function SatAdd256(a: nat, b: nat): U256 {
    Min(a + b, U256_MAX)
  }

  function SatMul256(a: nat, b: nat): U256 {
    Min(a * b, U256_MAX)
  }

  lemma MulLe(x: nat, y: nat, z: nat)
    requires x <= y
    ensures x * z <= y * z
  {
  }

  /** A price that fits 64 bits times gas stays far below 256 bits. */
  lemma NoSaturation(price: nat, gas: nat)
    requires price <= U64_MAX && gas <= U64_MAX
    ensures SatMul256(price, gas) == price * gas
  {
    MulLe(price, U64_MAX, gas);
    MulLe(gas, U64_MAX, U64_MAX);
  }
}
