/** Turning RedeemScheduled logs and stored records back into the retries they announce. */
module ScheduledRetries {
  import opened Words
  import opened Bytes
  import opened Ledger
  import opened Retryables
  import opened SubmitRetryable

  predicate IsRedeemScheduledLog(log: Log) {
    log.address == ARB_RETRYABLE_TX_ADDRESS && |log.topics| == 4 && log.topics[0] == REDEEM_SCHEDULED
  }

  /** The `index`th ABI word of the data. */
  function AbiWord(data: seq<Byte>, index: nat): U256
    requires 32 * (index + 1) <= |data|
  {
    var word := data[32 * index..32 * index + 32];
    FromBytesBound(word);
    Pow256ThirtyTwo();
    FromBytes(word)
  }

  /** The retry a log schedules in the given state, if any. A topic that is not a plain word is a hash,
      which is never a sequence number. */
  function RetryFromLog(tickets: Tickets, log: Log, baseFee: U64, chainId: U64): Option<TxRetry> {
    if !IsRedeemScheduledLog(log) || |log.data| != 128 then None
    else if !log.topics[1].Word? || !log.topics[3].Word? then None
    else
      var donated := AbiWord(log.data, 0);
      var sequence := log.topics[3].word;
      var id := log.topics[1].word;
      var ticket := RecordOf(tickets, id);
      if donated > U64_MAX || donated == 0 || sequence > U64_MAX then None
      else if ticket.numTries == 0 || SatSub(ticket.numTries, 1) != sequence then None
      else Some(TxRetry(chainId, sequence, ticket.from, baseFee, donated, ToOfRaw(ticket.toRaw), ticket.callvalue,
                        ticket.calldata, id, AbiWord(log.data, 1) % ADDRESS_BOUND, AbiWord(log.data, 2),
                        AbiWord(log.data, 3)))
  }

  /** All retries scheduled by a transaction's logs, in log order. */
  function RetriesFromLogs(tickets: Tickets, logs: seq<Log>, baseFee: U64, chainId: U64): seq<TxRetry> {
    if logs == [] then []
    else
      RetriesFromLogs(tickets, logs[..|logs|-1], baseFee, chainId)
      + match RetryFromLog(tickets, logs[|logs|-1], baseFee, chainId)
        case None => []
        case Some(tx) => [tx]
  }

  /** What each log schedules by itself. */
  function Outcomes(tickets: Tickets, logs: seq<Log>, baseFee: U64, chainId: U64): (os: seq<Option<TxRetry>>)
    ensures |os| == |logs| && forall i :: 0 <= i < |logs| ==> os[i] == RetryFromLog(tickets, logs[i], baseFee, chainId)
  {
    seq(|logs|, i requires 0 <= i < |logs| => RetryFromLog(tickets, logs[i], baseFee, chainId))
  }

  function Somes(os: seq<Option<TxRetry>>): seq<TxRetry> {
    if os == [] then []
    else Somes(os[..|os|-1]) + if os[|os|-1].Some? then [os[|os|-1].value] else []
  }

  lemma SomesLast(os: seq<Option<TxRetry>>, o: Option<TxRetry>)
    ensures Somes(os + [o]) == Somes(os) + if o.Some? then [o.value] else []
  {
    assert (os + [o])[..|os|] == os;
  }

  lemma {:induction false} ScanIsSomes(tickets: Tickets, logs: seq<Log>, baseFee: U64, chainId: U64)
    ensures RetriesFromLogs(tickets, logs, baseFee, chainId) == Somes(Outcomes(tickets, logs, baseFee, chainId))
    decreases |logs|
  {
    if logs != [] {
      var init, o := logs[..|logs|-1], RetryFromLog(tickets, logs[|logs|-1], baseFee, chainId);
      ScanIsSomes(tickets, init, baseFee, chainId);
      assert Outcomes(tickets, logs, baseFee, chainId) == Outcomes(tickets, init, baseFee, chainId) + [o];
      SomesLast(Outcomes(tickets, init, baseFee, chainId), o);
    }
  }

  method ScheduledRetriesFromRedeemLogs(tickets: Tickets, logs: seq<Log>, baseFee: U64, chainId: U64)
    returns (scheduled: seq<TxRetry>)
    ensures scheduled == RetriesFromLogs(tickets, logs, baseFee, chainId)
  {
    scheduled := [];
    for i := 0 to |logs|
      invariant scheduled == RetriesFromLogs(tickets, logs[..i], baseFee, chainId)
    {
      assert logs[..i+1][..i] == logs[..i];
      var log := logs[i];
      if !IsRedeemScheduledLog(log) || |log.data| != 128 || !log.topics[1].Word? || !log.topics[3].Word? {
        continue;
      }
      var donated := AbiWord(log.data, 0);
      if donated > U64_MAX || donated == 0 {
        continue;
      }
      var donor := AbiWord(log.data, 1) % ADDRESS_BOUND;
      var sequence := log.topics[3].word;
      if sequence > U64_MAX {
        continue;
      }
      var id := log.topics[1].word;
      var ticket := RecordOf(tickets, id);
      if ticket.numTries == 0 || SatSub(ticket.numTries, 1) != sequence {
        continue;
      }
      scheduled := scheduled + [TxRetry(chainId, sequence, ticket.from, baseFee, donated, ToOfRaw(ticket.toRaw),
                                        ticket.callvalue, ticket.calldata, id, donor, AbiWord(log.data, 2),
                                        AbiWord(log.data, 3))];
    }
    assert logs[..|logs|] == logs;
  }

  // ---------- The announcement carries the whole retry ----------

  lemma FourWords(w0: seq<Byte>, w1: seq<Byte>, w2: seq<Byte>, w3: seq<Byte>)
    requires |w0| == |w1| == |w2| == |w3| == 32
    ensures var data := w0 + w1 + w2 + w3;
            && |data| == 128
            && data[0..32] == w0 && data[32..64] == w1 && data[64..96] == w2 && data[96..128] == w3
  {
  }

  lemma WordReads(n: U256)
    ensures FromBytes(ToBytes(n, WORD_BYTES)) == n
  {
    Pow256ThirtyTwo();
    BytesRoundTrip(n, WORD_BYTES);
  }

  lemma LogDataRoundTrip(address: Address, tx: TxRetry)
    ensures var data := RedeemScheduledLog(address, tx).data;
            && |data| == 128
            && AbiWord(data, 0) == tx.gasLimit
            && AbiWord(data, 1) == tx.refundTo
            && AbiWord(data, 2) == tx.maxRefund
            && AbiWord(data, 3) == tx.submissionFeeRefund
  {
    FourWords(ToBytes(tx.gasLimit, WORD_BYTES), ToBytes(tx.refundTo, WORD_BYTES),
              ToBytes(tx.maxRefund, WORD_BYTES), ToBytes(tx.submissionFeeRefund, WORD_BYTES));
    WordReads(tx.gasLimit);
    WordReads(tx.refundTo);
    WordReads(tx.maxRefund);
    WordReads(tx.submissionFeeRefund);
  }

  /** The record from which a retry can be rebuilt. */
  predicate Records(ticket: Ticket, tx: TxRetry) {
    && ticket.from == tx.from
    && ToOfRaw(ticket.toRaw) == tx.to
    && ticket.callvalue == tx.value
    && ticket.calldata == tx.input
  }

  /** The scan rebuilds the announced retry exactly when the announcement is the ticket's latest try
      and donates gas. */
  lemma AnnouncementRoundTrip(tickets: Tickets, tx: TxRetry, baseFee: U64, chainId: U64)
    requires Records(RecordOf(tickets, tx.ticketId), tx)
    requires tx.gasFeeCap == baseFee && tx.chainId == chainId
    ensures RetryFromLog(tickets, RedeemScheduledLog(ARB_RETRYABLE_TX_ADDRESS, tx), baseFee, chainId)
         == if tx.gasLimit != 0 && RecordOf(tickets, tx.ticketId).numTries == tx.nonce + 1 then Some(tx) else None
  {
    var log := RedeemScheduledLog(ARB_RETRYABLE_TX_ADDRESS, tx);
    LogTopics(tx, log);
    LogDataRoundTrip(ARB_RETRYABLE_TX_ADDRESS, tx);
    AddressRoundTrip(tx.refundTo);
    ReadAnnouncement(tickets, log, baseFee, chainId, tx);
  }

  lemma LogTopics(tx: TxRetry, log: Log)
    requires log == RedeemScheduledLog(ARB_RETRYABLE_TX_ADDRESS, tx)
    ensures IsRedeemScheduledLog(log) && log.topics[1] == Word(tx.ticketId) && log.topics[3] == Word(tx.nonce)
  {
  }

  lemma AddressRoundTrip(a: Address)
    ensures a % ADDRESS_BOUND == a
  {
  }

  lemma ReadAnnouncement(tickets: Tickets, log: Log, baseFee: U64, chainId: U64, tx: TxRetry)
    requires IsRedeemScheduledLog(log) && log.topics[1] == Word(tx.ticketId) && log.topics[3] == Word(tx.nonce)
    requires |log.data| == 128 && AbiWord(log.data, 0) == tx.gasLimit && AbiWord(log.data, 1) % ADDRESS_BOUND == tx.refundTo
    requires AbiWord(log.data, 2) == tx.maxRefund && AbiWord(log.data, 3) == tx.submissionFeeRefund
    requires Records(RecordOf(tickets, tx.ticketId), tx) && tx.gasFeeCap == baseFee && tx.chainId == chainId
    ensures RetryFromLog(tickets, log, baseFee, chainId)
         == if tx.gasLimit != 0 && RecordOf(tickets, tx.ticketId).numTries == tx.nonce + 1 then Some(tx) else None
  {
  }

  /** Rebuilding the auto-redeem from the submission alone. */
  method BuildScheduledRetryFromSubmit(chainId: U64, from: Address, id: TicketId, call: SubmitCall, s: Settings, baseFee: U64)
    returns (tx: TxRetry)
    ensures var q := QuoteOf(call, s, baseFee);
            q.fee <= call.maxSubmissionFee ==> tx == AutoRedeem(chainId, from, id, call, s, q)
  {
    var q := QuoteOf(call, s, baseFee);
    var maxRefund := RebuildMaxRefund(call, s, q);
    tx := TxRetry(chainId, 0, from, baseFee, call.gasLimit, call.retryTo, call.retryValue, call.retryData, id,
                  call.feeRefundAddress, maxRefund, q.fee);
  }

  /** The rebuild's walk through the deposit, stated as ranges of the refundable part. */
  method RebuildFunds(call: SubmitCall, q: Quote, overestimate: nat, ghost d: nat)
    returns (withheldFee: nat, withheldGas: nat, available: nat)
    requires d == Refundable(call)
    ensures withheldFee == Slice(d, 0, q.fee)
    ensures withheldGas == Slice(d, q.fee + overestimate, q.gasCost)
    ensures available == d - Min(d, q.fee + overestimate + q.gasCost + q.priceGap)
  {
    var _, left := TakeFunds(call.depositValue, call.retryValue, call.depositValue, 0);
    var refunded;
    withheldFee, left := TakeFunds(left, q.fee, d, 0);
    refunded, left := TakeFunds(left, overestimate, d, q.fee);
    withheldGas, left := TakeFunds(left, q.gasCost, d, q.fee + overestimate);
    refunded, left := TakeFunds(left, q.priceGap, d, q.fee + overestimate + q.gasCost);
    available := left;
  }

  method RebuildMaxRefund(call: SubmitCall, s: Settings, q: Quote) returns (maxRefund: U256)
    ensures q.fee <= call.maxSubmissionFee ==> maxRefund == Min(MaxRefund(AmountsOf(call, s, q)), U256_MAX)
  {
    var withheldFee, withheldGas, available :=
      RebuildFunds(call, q, SatSub(call.maxSubmissionFee, q.fee), Refundable(call));
    available := SatAdd256(available, withheldGas);
    maxRefund := SatAdd256(available, withheldFee);
  }

  /** The retry hashed into the log, and the retry rebuilt from the log and the record just written, agree. */
  lemma AutoRedeemSurvivesItsLog(tickets: Tickets, chainId: U64, from: Address, id: TicketId, call: SubmitCall, s: Settings,
                                 now: U64, baseFee: U64)
    requires call.gasLimit >= TX_GAS
    ensures var tx := AutoRedeem(chainId, from, id, call, s, QuoteOf(call, s, baseFee));
            var log := RedeemScheduledLog(ARB_RETRYABLE_TX_ADDRESS, tx);
            && log.topics[2] == RetryHash(tx)
            && RetryFromLog(tickets[id := NewTicket(Scheduled, from, call, now)], log, baseFee, chainId) == Some(tx)
  {
    var tx := AutoRedeem(chainId, from, id, call, s, QuoteOf(call, s, baseFee));
    ToRoundTrip(call.retryTo);
    AnnouncementRoundTrip(tickets[id := NewTicket(Scheduled, from, call, now)], tx, baseFee, chainId);
  }

  /** After a scheduled submission the queue receives exactly its auto-redeem. */
  lemma ScheduledSubmitYieldsItsRedeem(tickets: Tickets, chainId: U64, from: Address, id: TicketId, call: SubmitCall,
                                       s: Settings, now: U64, baseFee: U64)
    requires call.gasLimit >= TX_GAS
    ensures var tx := AutoRedeem(chainId, from, id, call, s, QuoteOf(call, s, baseFee));
            RetriesFromLogs(tickets[id := NewTicket(Scheduled, from, call, now)],
                            [TicketCreatedLog(id), RedeemScheduledLog(ARB_RETRYABLE_TX_ADDRESS, tx)], baseFee, chainId)
            == [tx]
  {
    var tx := AutoRedeem(chainId, from, id, call, s, QuoteOf(call, s, baseFee));
    var tickets' := tickets[id := NewTicket(Scheduled, from, call, now)];
    AutoRedeemSurvivesItsLog(tickets, chainId, from, id, call, s, now, baseFee);
    SecondLogSchedules(tickets', TicketCreatedLog(id), RedeemScheduledLog(ARB_RETRYABLE_TX_ADDRESS, tx), baseFee, chainId, tx);
  }

  lemma SecondLogSchedules(tickets: Tickets, first: Log, second: Log, baseFee: U64, chainId: U64, tx: TxRetry)
    requires !IsRedeemScheduledLog(first) && RetryFromLog(tickets, second, baseFee, chainId) == Some(tx)
    ensures RetriesFromLogs(tickets, [first, second], baseFee, chainId) == [tx]
  {
    assert [first, second][..1] == [first] && [first][..0] == [];
    assert RetriesFromLogs(tickets, [first], baseFee, chainId) == [];
  }
}
