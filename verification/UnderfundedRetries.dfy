/**
 Scheduling asks a retry for 21,000 gas, whatever its calldata: which submissions and redeems
 schedule a retry that then lacks the gas to start.
 */
module UnderfundedRetries {
  import opened Words
  import opened Ledger
  import opened Retryables
  import opened SubmitRetryable
  import opened RetryGas
  import opened RetryTx
  import opened Redeem
  import opened ScheduledRetries
  import opened EscrowRuns

  /** The auto-redeem a submission schedules is refused in its own block exactly when the submitted gas limit is below
      what the destination and calldata need, or the sender's nonce cannot grow. */
  lemma AutoRedeemIsRefused(c: Chain, w: World, from: Address, id: TicketId, call: SubmitCall, now: U64, baseFee: U64,
                            chainId: U64, nonce: U64)
    requires Proper(c) && Backed(c, w) && Allowed(c, w, Submit(from, id, call, now, baseFee, false))
    requires StageOf(Mint(w.balances, from, call.depositValue), from, c.escrowOf(id), call, c.settings,
                     QuoteOf(call, c.settings, baseFee), false).Scheduled?
    ensures var v := Submitted(c, w, from, id, call, now, baseFee, false);
            var tx := AutoRedeem(chainId, from, id, call, c.settings, QuoteOf(call, c.settings, baseFee));
            && RetriesFromLogs(v.tickets, [TicketCreatedLog(id), RedeemScheduledLog(ARB_RETRYABLE_TX_ADDRESS, tx)], baseFee,
                               chainId) == [tx]
            && (Refusal(v, nonce, tx, now, c.escrowOf(id), c.settings).Some?
                <==> call.gasLimit < GasNeeded(call.retryTo, call.retryData, c.settings)
                     || (call.retryTo.Some? && nonce == U64_MAX))
            && (GasRefusal(tx, c.settings).Some? <==> call.gasLimit < GasNeeded(call.retryTo, call.retryData, c.settings))
  {
    var v := Submitted(c, w, from, id, call, now, baseFee, false);
    var q := QuoteOf(call, c.settings, baseFee);
    ScheduledTickets(c, w, from, id, call, now, q, v);
    SubmitKeepsBacked(c, w, from, id, call, now, baseFee, false);
    ScheduledSubmitYieldsItsRedeem(w.tickets, chainId, from, id, call, c.settings, now, baseFee);
    FreshRetryIsRefused(c, v, AutoRedeem(chainId, from, id, call, c.settings, q), now, nonce);
  }

  lemma ScheduledTickets(c: Chain, w: World, from: Address, id: TicketId, call: SubmitCall, now: U64, q: Quote, v: World)
    requires StageOf(Mint(w.balances, from, call.depositValue), from, c.escrowOf(id), call, c.settings, q, false).Scheduled?
    requires v == SubmittedCall(c, w, from, id, call, now, q, false)
    ensures v.tickets == w.tickets[id := NewTicket(Scheduled, from, call, now)] && call.gasLimit >= TX_GAS
  {
  }

  /** A retry of a live, backed ticket. */
  lemma FreshRetryIsRefused(c: Chain, v: World, tx: TxRetry, now: U64, nonce: U64)
    requires Proper(c) && Backed(c, v) && RetryOf(v, tx, now)
    ensures Refusal(v, nonce, tx, now, c.escrowOf(tx.ticketId), c.settings).Some?
       <==> tx.gasLimit < GasNeeded(tx.to, tx.input, c.settings) || (tx.to.Some? && nonce == U64_MAX)
  {
  }

  /** A fully funded submission with exactly the 21,000 gas asked for is scheduled, and its redeem refused for gas
      unless it is a call without calldata. */
  lemma LeastGasIsNotEnough(minted: Balances, from: Address, escrow: Address, id: TicketId, call: SubmitCall, s: Settings,
                            baseFee: U64, chainId: U64)
    requires FullyFunded(call, QuoteOf(call, s, baseFee)) && BalanceOf(minted, from) >= call.depositValue
    requires call.gasLimit == TX_GAS && call.gasFeeCap >= baseFee
    ensures var q := QuoteOf(call, s, baseFee);
            && StageOf(minted, from, escrow, call, s, q, false) == Scheduled
            && (GasRefusal(AutoRedeem(chainId, from, id, call, s, q), s).Some? <==> call.retryTo.None? || call.retryData != [])
  {
    FundedIsScheduled(minted, from, escrow, call, s, QuoteOf(call, s, baseFee));
    OnlyBareCallsAreCheap(call.retryTo, call.retryData, s);
  }

  /** The retry a redeem announces lacks gas exactly when the redeem was called with less than it reserves and its
      retry needs; the redeem itself only asks for 21,000 beyond the reservation. */
  lemma RedeemedRetryLacksGas(st: State, env: Env, call: RedeemCall, s: Settings)
    requires RedeemOutcome(st, env, call).Announced? && s.arbosVersion == env.version
    ensures var ticket := RecordOf(st.tickets, call.ticketId);
            var r := RedeemOutcome(st, env, call);
            && r.tx.gasLimit >= RETRY_TX_GAS_MINIMUM
            && (GasRefusal(r.tx, s).Some?
                <==> call.gasLimit < Reserved(st, call.ticketId, env.version)
                                     + GasNeeded(ToOfRaw(ticket.toRaw), ticket.calldata, s))
  {
    RedeemChargesMoreThanItDonates(st, env, call);
  }

  /** So the least donation is enough exactly for tickets that call without calldata. */
  lemma LeastDonationIsNotEnough(st: State, env: Env, call: RedeemCall, s: Settings)
    requires RedeemOutcome(st, env, call).Announced? && s.arbosVersion == env.version
    requires call.gasLimit == Reserved(st, call.ticketId, env.version) + RETRY_TX_GAS_MINIMUM
    ensures var ticket := RecordOf(st.tickets, call.ticketId);
            GasRefusal(RedeemOutcome(st, env, call).tx, s).Some?
            <==> ToOfRaw(ticket.toRaw).None? || ticket.calldata != []
  {
    var ticket := RecordOf(st.tickets, call.ticketId);
    RedeemedRetryLacksGas(st, env, call, s);
    OnlyBareCallsAreCheap(ToOfRaw(ticket.toRaw), ticket.calldata, s);
  }
}
