/**
 The gas a retry needs before it may start: revm's intrinsic gas for its kind and calldata, and
 the calldata floor of EIP-7623 where ArbOS enables it.
 */
module RetryGas {
  import opened Words
  import opened Bytes
  import opened Ledger
  import opened Retryables

  const CALL_GAS: nat := 21_000
  const CREATE_GAS: nat := 53_000
  const TOKEN_GAS: nat := 4
  const FLOOR_TOKEN_GAS: nat := 10
  const NONZERO_BYTE_TOKENS: nat := 4
  const INITCODE_WORD_GAS: nat := 2
  const ARBOS_VERSION_SHANGHAI: nat := 11
  const ARBOS_VERSION_PRAGUE: nat := 40

  /** One token for a zero byte, four for any other. */
  function Tokens(data: seq<Byte>): nat {
    if data == [] then 0 else (if data[0] == 0 then 1 else NONZERO_BYTE_TOKENS) + Tokens(data[1..])
  }

  function InitcodeGas(data: seq<Byte>, version: U64): nat {
    if version >= ARBOS_VERSION_SHANGHAI then INITCODE_WORD_GAS * ((|data| + 31) / 32) else 0
  }

  function IntrinsicGas(to: Option<Address>, data: seq<Byte>, version: U64): nat {
    TOKEN_GAS * Tokens(data) + if to.Some? then CALL_GAS else CREATE_GAS + InitcodeGas(data, version)
  }

  predicate FloorApplies(s: Settings) {
    s.arbosVersion >= ARBOS_VERSION_PRAGUE && s.calldataPriceIncrease
  }

  function FloorGas(data: seq<Byte>, s: Settings): nat {
    if FloorApplies(s) then CALL_GAS + FLOOR_TOKEN_GAS * Tokens(data) else 0
  }

  /** The least gas limit with which a retry starts. */
  function GasNeeded(to: Option<Address>, data: seq<Byte>, s: Settings): nat {
    Max(IntrinsicGas(to, data, s.arbosVersion), FloorGas(data, s))
  }

  function Max(a: nat, b: nat): nat {
    if a <= b then b else a
  }

  lemma {:induction false} TokensBound(data: seq<Byte>)
    ensures |data| <= Tokens(data) <= NONZERO_BYTE_TOKENS * |data|
    decreases |data|
  {
    if data != [] {
      TokensBound(data[1..]);
    }
  }

  /** The gas that every other check asks for, 21,000, suffices exactly for a call without calldata. */
  lemma OnlyBareCallsAreCheap(to: Option<Address>, data: seq<Byte>, s: Settings)
    ensures GasNeeded(to, data, s) >= CALL_GAS
    ensures GasNeeded(to, data, s) == CALL_GAS <==> to.Some? && data == []
    ensures to.None? ==> GasNeeded(to, data, s) >= CREATE_GAS
  {
    TokensBound(data);
  }

  /** The floor decides for every call with calldata, and for a creation once its calldata outweighs the creation. */
  lemma FloorDecides(to: Option<Address>, data: seq<Byte>, s: Settings)
    requires FloorApplies(s)
    ensures FloorGas(data, s) > IntrinsicGas(to, data, s.arbosVersion)
       <==> if to.Some? then data != []
            else 6 * Tokens(data) > CREATE_GAS - CALL_GAS + InitcodeGas(data, s.arbosVersion)
  {
    TokensBound(data);
  }
}
