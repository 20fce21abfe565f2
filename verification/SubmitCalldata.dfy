/** The ABI calldata of a submission: what the decoder accepts, and that it recovers what was encoded. */
module SubmitCalldata {
  import opened Words
  import opened Bytes
  import opened Ledger
  import opened Retryables
  import opened Journaled
  import opened SubmitRetryable
  import opened ScheduledRetries

  const SELECTOR: seq<Byte> := [0xc9, 0xf9, 0x5d, 0x32]
  const HEAD_WORDS: nat := 11
  const HEAD_BYTES: nat := HEAD_WORDS * 32

  datatype DecodeError = TooShort | WrongSelector | NumberTooBig | BadOffset | OutOfBounds

  datatype Decoded = Decoded(requestId: U256, call: SubmitCall)

  function AddressOfWord(word: U256): Address {
    word % ADDRESS_BOUND
  }

  /** An all-zero word is a creation. */
  function OptionalAddress(word: U256): Option<Address> {
    if word == 0 then None else Some(AddressOfWord(word))
  }

  /** The bytes at an offset that holds their length first. An offset so large that the bounds check itself overflows
      aborts the decoder, which is an error like the others here. */
  function DecodeData(args: seq<Byte>, offset: U256): Result<seq<Byte>, DecodeError>
    requires |args| <= U64_MAX
  {
    if offset > U64_MAX then Err(NumberTooBig)
    else if offset % 32 != 0 || offset < HEAD_BYTES then Err(BadOffset)
    else if offset + 32 > |args| then Err(OutOfBounds)
    else
      var length := AbiWord(args, offset / 32);
      if length > U64_MAX then Err(NumberTooBig)
      else if SatAdd64(offset + 32, length) > |args| then Err(OutOfBounds)
      else Ok(args[offset + 32..SatAdd64(offset + 32, length)])
  }

  function Decode(input: seq<Byte>): Result<Decoded, DecodeError>
    requires |input| <= U64_MAX
  {
    if |input| < 4 + HEAD_BYTES + 32 then Err(TooShort)
    else if input[..4] != SELECTOR then Err(WrongSelector)
    else
      var args := input[4..];
      if AbiWord(args, 5) > U64_MAX then Err(NumberTooBig)
      else
        match DecodeData(args, AbiWord(args, 10))
        case Err(e) => Err(e)
        case Ok(data) =>
          Ok(Decoded(AbiWord(args, 0),
                     SubmitCall(AbiWord(args, 1), AbiWord(args, 2), AbiWord(args, 3), AbiWord(args, 4), AbiWord(args, 5),
                                AbiWord(args, 6), AddressOfWord(AbiWord(args, 7)), AddressOfWord(AbiWord(args, 8)),
                                OptionalAddress(AbiWord(args, 9)), data)))
  }

  // ---------- Encoding ----------

  function Flatten(words: seq<U256>): (s: seq<Byte>)
    ensures |s| == 32 * |words|
  {
    if words == [] then [] else Flatten(words[..|words| - 1]) + ToBytes(words[|words| - 1], WORD_BYTES)
  }

  function HeadOf(id: U256, call: SubmitCall): seq<U256>
    requires |call.retryData| <= U64_MAX
  {
    [id, call.l1BaseFee, call.depositValue, call.retryValue, call.gasFeeCap, call.gasLimit, call.maxSubmissionFee,
     call.feeRefundAddress, call.beneficiary, if call.retryTo.Some? then call.retryTo.value else 0, HEAD_BYTES,
     |call.retryData|]
  }

  function Padding(n: nat): seq<Byte> {
    seq((32 - n % 32) % 32, _ => 0)
  }

  function Encode(id: U256, call: SubmitCall): seq<Byte>
    requires |call.retryData| <= U64_MAX
  {
    SELECTOR + (Flatten(HeadOf(id, call)) + (call.retryData + Padding(|call.retryData|)))
  }

  // ---------- Round trip ----------

  lemma {:induction false} WordAt(words: seq<U256>, tail: seq<Byte>, i: nat)
    requires i < |words|
    ensures AbiWord(Flatten(words) + tail, i) == words[i]
    decreases |words|
  {
    var front, last := words[..|words| - 1], words[|words| - 1];
    var rest := ToBytes(last, WORD_BYTES) + tail;
    assert Flatten(words) + tail == Flatten(front) + rest;
    if i < |front| {
      WordAt(front, rest, i);
    } else {
      assert (Flatten(front) + rest)[32 * i..32 * i + 32] == ToBytes(last, WORD_BYTES);
      WordReads(last);
    }
  }

  lemma DataReads(args: seq<Byte>, head: seq<Byte>, data: seq<Byte>, tail: seq<Byte>)
    requires args == head + (data + tail) && |head| == HEAD_BYTES + 32 && |args| <= U64_MAX
    requires AbiWord(args, HEAD_WORDS) == |data|
    ensures DecodeData(args, HEAD_BYTES) == Ok(data)
  {
    assert args[HEAD_BYTES + 32..HEAD_BYTES + 32 + |data|] == data;
  }

  /** Decoding recovers the request id and the call, except that a call to the zero address comes back as a creation. */
  lemma CalldataRoundTrip(id: U256, call: SubmitCall)
    requires |call.retryData| <= U64_MAX && |Encode(id, call)| <= U64_MAX
    ensures Decode(Encode(id, call))
         == Ok(Decoded(id, call.(retryTo := if call.retryTo == Some(ZERO_ADDRESS) then None else call.retryTo)))
  {
    var words, data := HeadOf(id, call), call.retryData;
    var tail := data + Padding(|data|);
    var args := Flatten(words) + tail;
    assert Encode(id, call)[..4] == SELECTOR && Encode(id, call)[4..] == args;
    HeadReads(id, call, args, tail);
    DataReads(args, Flatten(words), data, Padding(|data|));
    AddressRoundTrip(call.feeRefundAddress);
    AddressRoundTrip(call.beneficiary);
    if call.retryTo.Some? {
      AddressRoundTrip(call.retryTo.value);
    }
  }

  lemma HeadReads(id: U256, call: SubmitCall, args: seq<Byte>, tail: seq<Byte>)
    requires |call.retryData| <= U64_MAX && args == Flatten(HeadOf(id, call)) + tail
    ensures |args| >= HEAD_BYTES + 32
    ensures forall i: nat :: i <= HEAD_WORDS ==> AbiWord(args, i) == HeadOf(id, call)[i]
  {
    forall i: nat | i <= HEAD_WORDS
      ensures AbiWord(args, i) == HeadOf(id, call)[i]
    {
      WordAt(HeadOf(id, call), tail, i);
    }
  }

  /** So the round trip is exact unless the call goes to the zero address. */
  lemma ExactRoundTrip(id: U256, call: SubmitCall)
    requires |call.retryData| <= U64_MAX && |Encode(id, call)| <= U64_MAX
    ensures Decode(Encode(id, call)) == Ok(Decoded(id, call)) <==> call.retryTo != Some(ZERO_ADDRESS)
  {
    CalldataRoundTrip(id, call);
  }

  // ---------- The hook from its calldata ----------

  datatype HookError = Undecodable(decode: DecodeError) | Submit(submit: SubmitError)

  /** A submission as it arrives: undecodable calldata changes nothing, anything else is the submission it encodes. */
  method ApplyCalldata(j: Journal, chainId: Option<U64>, from: Address, id: TicketId, input: seq<Byte>, now: U64, baseFee: U64)
    returns (r: Result<Outcome, HookError>)
    requires |input| <= U64_MAX
    requires Decode(input).Ok? ==> Total(j.balances) + Decode(input).value.call.depositValue <= U256_MAX
    modifies j`balances, j`tickets, j`timeoutQueue, j`logs, j`pendingZombies
    ensures r.Err? <==> Decode(input).Err? || chainId.None?
    ensures r.Err? ==> j.balances == old(j.balances) && j.tickets == old(j.tickets) && j.timeoutQueue == old(j.timeoutQueue)
                       && j.logs == old(j.logs) && j.pendingZombies == old(j.pendingZombies)
    ensures r.Ok? ==>
              var filtered := Filtered(j.settings, j.filteredTxs, id);
              var call := Redirected(Decode(input).value.call, j.settings, filtered);
              var q := QuoteOf(call, j.settings, baseFee);
              var minted := Mint(old(j.balances), from, call.depositValue);
              var stage := StageOf(minted, from, j.escrowOf(id), call, j.settings, q, filtered);
              && r == Ok(OutcomeOf(stage, call, filtered))
              && Total(j.balances) == Total(old(j.balances)) + (if stage.FeeAboveMax? then 0 else call.depositValue)
              && j.balances == (if stage.FeeAboveMax? then old(j.balances)
                                else Settle(minted, PaymentsOf(stage, from, j.escrowOf(id), call, j.settings, q)))
              && Recorded(stage, chainId.value, from, id, call, j.settings, now, q, old(j.tickets), j.tickets,
                          old(j.timeoutQueue), j.timeoutQueue, old(j.logs), j.logs)
              && j.pendingZombies == old(j.pendingZombies) + NewZombies(stage, id, call, j.settings)
  {
    match Decode(input) {
      case Err(e) => r := Err(Undecodable(e));
      case Ok(decoded) =>
        var outcome := ApplySubmitRetryable(j, chainId, from, id, decoded.call, now, baseFee);
        r := match outcome
             case Err(e) => Err(Submit(e))
             case Ok(o) => Ok(o);
    }
  }
}
