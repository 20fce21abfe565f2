/** A retry from its gas check to the end of its hooks, and when it drops the message it is queued in. */
module RetryFate {
  import opened Words
  import opened Ledger
  import opened Retryables
  import opened L2Pricing
  import opened Journaled
  import opened RetryGas
  import opened RetryTx
  import opened EscrowRuns

  /** How the execution between the hooks ends; a failure is rolled back. */
  datatype Ending = Failed | Succeeded(after: World, pricing: Pricing)

  function PricingAfter(p: Pricing, ending: Ending): Pricing {
    if ending.Succeeded? then ending.pricing else p
  }

  /** The error that ends a retry, and with it the message. */
  function Fate(c: Chain, w: World, p: Pricing, nonce: U64, tx: TxRetry, now: U64, gasUsed: U64, ending: Ending)
    : Option<RetryError>
  {
    var refused := Refusal(w, nonce, tx, now, c.escrowOf(tx.ticketId), c.settings);
    if refused.Some? then refused
    else if Grown(PricingAfter(p, ending), gasUsed, c.settings.arbosVersion).None? then Some(MultiGasBacklog)
    else if ending.Failed? && !Funded(FeesSettled(Released(c, w, tx).balances, tx, c.settings, false,
                                                  HookAmountsOf(tx, c.settings, gasUsed)),
                                      Payment(tx.from, c.escrowOf(tx.ticketId), RecordOf(w.tickets, tx.ticketId).callvalue))
    then Some(CallvalueTransferFailed)
    else None
  }

  function AfterRetry(c: Chain, w: World, tx: TxRetry, gasUsed: U64, ending: Ending): World {
    match ending
    case Failed => Hooked(c, Released(c, w, tx), tx, false, gasUsed)
    case Succeeded(after, _) => Hooked(c, after, tx, true, gasUsed)
  }

  function NonceOf(nonces: map<Address, U64>, a: Address): U64 {
    if a in nonces then nonces[a] else 0
  }

  /** The gas check and the hook before execution. */
  method StartRetry(j: Journal, tx: TxRetry, now: U64, ghost c: Chain) returns (err: Option<RetryError>)
    requires j.Solvent() && c.escrowOf == j.escrowOf && c.settings == j.settings
    modifies j`balances, j`nonces
    ensures var w := World(old(j.balances), j.tickets);
            var nonce := NonceOf(old(j.nonces), tx.from);
            && err == Refusal(w, nonce, tx, now, c.escrowOf(tx.ticketId), c.settings)
            && (err.None? ==>
                  && j.Solvent() && World(j.balances, j.tickets) == Released(c, w, tx)
                  && j.nonces == if tx.to.Some? then old(j.nonces)[tx.from := nonce + 1] else old(j.nonces))
  {
    err := ValidateRetry(tx, j.settings);
    if err.None? {
      err := RetryPreExecution(j, tx, now);
    }
  }

  /** A retry from start to end: its error is its fate, and without one the hooks have done all they promise. */
  method TransactRetry(j: Journal, tx: TxRetry, now: U64, gas: GasRecord, ending: Ending, ghost c: Chain)
    returns (err: Option<RetryError>)
    requires j.Solvent() && c.escrowOf == j.escrowOf && c.settings == j.settings
    requires ending.Succeeded? ==> Total(ending.after.balances) <= U256_MAX
    modifies j
    ensures var w := World(old(j.balances), old(j.tickets));
            var nonce := NonceOf(old(j.nonces), tx.from);
            var gasUsed := GasUsed(tx.gasLimit, gas);
            && err == Fate(c, w, old(j.pricing), nonce, tx, now, gasUsed, ending)
            && (err.None? ==>
                  && World(j.balances, j.tickets) == AfterRetry(c, w, tx, gasUsed, ending)
                  && Some(j.pricing) == Grown(PricingAfter(old(j.pricing), ending), gasUsed, c.settings.arbosVersion)
                  && j.nonces == if tx.to.Some? then old(j.nonces)[tx.from := SatAdd64(nonce, 1)] else old(j.nonces))
  {
    err := StartRetry(j, tx, now, c);
    if err.Some? {
      return;
    }
    if ending.Succeeded? {
      j.balances, j.tickets, j.pricing := ending.after.balances, ending.after.tickets, ending.pricing;
    }
    err := RetryEndTxHook(j, tx, ending.Succeeded?, gas);
  }

  /** All the reasons, for every retry, sender and state: too little gas, a missing or expired ticket, an escrow short
      of its callvalue, a nonce that cannot grow, the multi-gas model, or a failure whose callvalue cannot go back. */
  lemma WhenARetryIsFatal(c: Chain, w: World, p: Pricing, nonce: U64, tx: TxRetry, now: U64, gasUsed: U64, ending: Ending)
    requires Total(w.balances) <= U256_MAX
    ensures var ticket, s := RecordOf(w.tickets, tx.ticketId), c.settings;
            var released := Released(c, w, tx).balances;
            Fate(c, w, p, nonce, tx, now, gasUsed, ending).Some?
            <==> || tx.gasLimit < GasNeeded(tx.to, tx.input, s)
                 || !Exists(ticket, now)
                 || ticket.callvalue > BalanceOf(w.balances, c.escrowOf(tx.ticketId))
                 || (tx.to.Some? && nonce == U64_MAX)
                 || (s.arbosVersion >= ARBOS_MULTI_GAS_CONSTRAINTS && PricingAfter(p, ending).multi != [])
                 || (ending.Failed? && ticket.callvalue != 0
                     && !CanPutBack(BalanceOf(released, s.infraFeeAccount), BalanceOf(released, s.networkFeeAccount), tx, s,
                                    HookAmountsOf(tx, s, gasUsed), OwnWei(c, w, tx), ticket.callvalue))
  {
    var escrow, callvalue := c.escrowOf(tx.ticketId), RecordOf(w.tickets, tx.ticketId).callvalue;
    if callvalue <= BalanceOf(w.balances, escrow) {
      CallvalueReturns(c, w, tx, gasUsed);
      ReturnVerdict(c, w, tx, gasUsed);
    }
  }

  /** The return transfer fails only for lack of funds. */
  lemma ReturnVerdict(c: Chain, w: World, tx: TxRetry, gasUsed: U64)
    requires Total(w.balances) <= U256_MAX
    ensures var settled := FeesSettled(Released(c, w, tx).balances, tx, c.settings, false, HookAmountsOf(tx, c.settings, gasUsed));
            var back := Payment(tx.from, c.escrowOf(tx.ticketId), RecordOf(w.tickets, tx.ticketId).callvalue);
            TransferVerdict(settled, back) == None <==> Funded(settled, back)
  {
    var h := HookAmountsOf(tx, c.settings, gasUsed);
    var escrow, callvalue := c.escrowOf(tx.ticketId), RecordOf(w.tickets, tx.ticketId).callvalue;
    PayConserves(w.balances, Payment(escrow, tx.from, callvalue));
    RefundedConserves(Released(c, w, tx).balances, HookRefunds(c.settings, false, h), tx);
    OnlyFundsMatter(FeesSettled(Released(c, w, tx).balances, tx, c.settings, false, h), Payment(tx.from, escrow, callvalue));
  }

  /** For a retry of an ordinary sender, queued while its ticket was live, only four of them are left after any run. */
  lemma WhenAQueuedRetryIsFatal(c: Chain, w: World, steps: seq<Step>, p: Pricing, nonce: U64, tx: TxRetry, now: U64,
                                gasUsed: U64, ending: Ending)
    requires Proper(c) && Backed(c, w) && Run(c, w, steps)
    requires tx.ticketId in w.tickets && tx.from == w.tickets[tx.ticketId].from
    requires forall i :: 0 <= i < |steps| ==> !Submits(steps[i], tx.ticketId)
    ensures var v := WorldAfter(c, w, steps);
            Fate(c, v, p, nonce, tx, now, gasUsed, ending).Some?
            <==> || tx.gasLimit < GasNeeded(tx.to, tx.input, c.settings)
                 || (exists i :: 0 <= i < |steps| && Drops(steps[i], tx.ticketId))
                 || RecordOf(v.tickets, tx.ticketId).timeout < now
                 || (tx.to.Some? && nonce == U64_MAX)
                 || (c.settings.arbosVersion >= ARBOS_MULTI_GAS_CONSTRAINTS && PricingAfter(p, ending).multi != [])
  {
    var v := WorldAfter(c, w, steps);
    QueuedRetryIsRefused(c, w, steps, tx, now, nonce);
    if Refusal(v, nonce, tx, now, c.escrowOf(tx.ticketId), c.settings).None? {
      LostExactlyWhenDropped(c, w, steps, tx.ticketId);
      RunsKeepTicketsBacked(c, w, steps);
      RetryTransfersSucceed(c, v, tx, now, gasUsed);
      ReturnVerdict(c, v, tx, gasUsed);
    }
  }
}
