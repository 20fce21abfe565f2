/** A retryable whose sender is the network fee account: its failed redeem may not find its callvalue again. */
module FeeAccountSender {
  import opened Words
  import opened Ledger
  import opened Retryables
  import opened Journaled
  import opened SubmitRetryable
  import opened RetryTx
  import opened EscrowRuns

  /** A transaction of account `a` that sends all it has elsewhere. */
  function Drained(w: World, a: Address, elsewhere: Address): World {
    w.(balances := Pay(w.balances, Payment(a, elsewhere, BalanceOf(w.balances, a))))
  }

  lemma WholeSlice(budget: nat, before: nat, want: nat)
    requires before + want <= budget
    ensures Slice(budget, before, want) == want
  {
  }

  /** A fully funded submission hands its redeem at least the fee and all the gas paid for. */
  lemma BudgetCoversRedeem(call: SubmitCall, s: Settings, q: Quote)
    requires FullyFunded(call, q) && Coherent(call, q) && call.gasFeeCap >= q.baseFee
    ensures MaxRefund(AmountsOf(call, s, q)) >= q.fee + q.gasCost
  {
    WholeSlice(Refundable(call), 0, q.fee);
    WholeSlice(Refundable(call), call.maxSubmissionFee, q.gasCost);
  }

  /** What that budget grants of the redeem's unused gas: all of it. */
  lemma UnusedGasIsGranted(tx: TxRetry, s: Settings, gasUsed: U64)
    requires s.infraFeeAccount == ZERO_ADDRESS && tx.gasFeeCap <= U64_MAX && gasUsed <= tx.gasLimit
    requires tx.submissionFeeRefund + tx.gasFeeCap * tx.gasLimit <= tx.maxRefund
    ensures Granted(NetworkRefund(s, HookAmountsOf(tx, s, gasUsed)), tx) == tx.gasFeeCap * (tx.gasLimit - gasUsed)
    ensures !HookAmountsOf(tx, s, gasUsed).infraActive
  {
    var price, gasLeft := tx.gasFeeCap, tx.gasLimit - gasUsed;
    NoSaturation(price, gasUsed);
    NoSaturation(price, gasLeft);
    assert price * tx.gasLimit == price * gasUsed + price * gasLeft;
    WholeSlice(tx.maxRefund, tx.submissionFeeRefund + price * gasUsed, price * gasLeft);
  }

  /** Once the account is drained, the callvalue returns exactly when nothing is granted out of it. */
  lemma DrainedPutsBack(c: Chain, w: World, v: World, tx: TxRetry, elsewhere: Address, gasUsed: U64)
    requires v == Drained(w, tx.from, elsewhere) && Total(w.balances) <= U256_MAX
    requires tx.from == c.settings.networkFeeAccount != ZERO_ADDRESS && c.settings.infraFeeAccount == ZERO_ADDRESS
    requires elsewhere != tx.from && tx.refundTo != tx.from && tx.from != c.escrowOf(tx.ticketId)
    requires 0 < RecordOf(w.tickets, tx.ticketId).callvalue <= BalanceOf(w.balances, c.escrowOf(tx.ticketId))
    ensures var h := HookAmountsOf(tx, c.settings, gasUsed);
            TransferVerdict(FeesSettled(Released(c, v, tx).balances, tx, c.settings, false, h),
                            Payment(tx.from, c.escrowOf(tx.ticketId), RecordOf(w.tickets, tx.ticketId).callvalue)) == None
            <==> Granted(NetworkRefund(c.settings, h), tx) == 0
    ensures BalanceOf(v.balances, c.escrowOf(tx.ticketId)) >= BalanceOf(w.balances, c.escrowOf(tx.ticketId))
  {
    var drain := Payment(tx.from, elsewhere, BalanceOf(w.balances, tx.from));
    PayConserves(w.balances, drain);
    PaySpares(w.balances, drain, c.escrowOf(tx.ticketId));
    PayBalance(w.balances, drain, tx.from);
    assert OwnWei(c, v, tx) == 0;
    CallvalueReturns(c, v, tx, gasUsed);
  }

  /** A funded submission of the network account leaves a live ticket with its callvalue in escrow. */
  lemma NetworkSubmits(c: Chain, w: World, id: TicketId, call: SubmitCall, now: U64, q: Quote, v: World)
    requires Proper(c) && id in c.ids && Total(w.balances) + call.depositValue <= U256_MAX
    requires FullyFunded(call, q) && Coherent(call, q) && call.gasLimit >= TX_GAS && call.gasFeeCap >= q.baseFee
    requires v == SubmittedCall(c, w, c.settings.networkFeeAccount, id, call, now, q, false)
    ensures RecordOf(v.tickets, id) == NewTicket(Scheduled, c.settings.networkFeeAccount, call, now)
    ensures BalanceOf(v.balances, c.escrowOf(id)) >= call.retryValue && Total(v.balances) <= U256_MAX
    ensures c.escrowOf(id) != c.settings.networkFeeAccount
  {
    var network, escrow := c.settings.networkFeeAccount, c.escrowOf(id);
    var minted := Mint(w.balances, network, call.depositValue);
    assert IsEscrow(c, escrow);
    FundedIsScheduled(minted, network, escrow, call, c.settings, q);
    SubmitFillsEscrow(minted, network, escrow, call, c.settings, q, false);
    MintAdds(w.balances, network, call.depositValue);
    SettleConserves(minted, PaymentsOf(Scheduled, network, escrow, call, c.settings, q));
  }

  /** Submitting from the network account, draining it, and a failed redeem: the callvalue cannot be put back exactly
      when some gas was left unused at a positive price. */
  lemma DrainedFeeAccountAborts(c: Chain, w: World, id: TicketId, call: SubmitCall, now: U64, baseFee: U64, chainId: U64,
                                elsewhere: Address, gasUsed: U64)
    requires Proper(c) && id in c.ids && Total(w.balances) + call.depositValue <= U256_MAX
    requires c.settings.networkFeeAccount != ZERO_ADDRESS && c.settings.infraFeeAccount == ZERO_ADDRESS
    requires FullyFunded(call, QuoteOf(call, c.settings, baseFee)) && call.gasLimit >= TX_GAS && call.gasFeeCap >= baseFee
    requires call.retryValue > 0 && call.feeRefundAddress != c.settings.networkFeeAccount
    requires elsewhere != c.settings.networkFeeAccount && gasUsed <= call.gasLimit
    ensures var network, escrow := c.settings.networkFeeAccount, c.escrowOf(id);
            var tx := AutoRedeem(chainId, network, id, call, c.settings, QuoteOf(call, c.settings, baseFee));
            var v := Drained(Submitted(c, w, network, id, call, now, baseFee, false), network, elsewhere);
            && RecordOf(v.tickets, id) == NewTicket(Scheduled, network, call, now)
            && BalanceOf(v.balances, escrow) >= call.retryValue
            && (TransferVerdict(FeesSettled(Released(c, v, tx).balances, tx, c.settings, false,
                                            HookAmountsOf(tx, c.settings, gasUsed)),
                                Payment(network, escrow, call.retryValue)) != None
                <==> gasUsed < call.gasLimit && baseFee > 0)
  {
    var network := c.settings.networkFeeAccount;
    var q := QuoteOf(call, c.settings, baseFee);
    var submitted := Submitted(c, w, network, id, call, now, baseFee, false);
    var tx := AutoRedeem(chainId, network, id, call, c.settings, q);
    NetworkSubmits(c, w, id, call, now, q, submitted);
    DrainedPutsBack(c, submitted, Drained(submitted, network, elsewhere), tx, elsewhere, gasUsed);
    BudgetCoversRedeem(call, c.settings, q);
    SlicesPartition(call, c.settings, q);
    NoSaturation(baseFee, call.gasLimit);
    UnusedGasIsGranted(tx, c.settings, gasUsed);
    PositiveProduct(baseFee, call.gasLimit - gasUsed);
  }

  lemma PositiveProduct(x: nat, y: nat)
    ensures x * y > 0 <==> x > 0 && y > 0
  {
  }

  /** One wei of callvalue and exactly the price of 100,000 gas at 0.1 gwei. */
  function FeeAccountCall(refundTo: Address): SubmitCall {
    SubmitCall(0, 10_000_000_000_001, 1, 100_000_000, 100_000, 0, refundTo, ZERO_ADDRESS, Some(1), [])
  }

  /** So that submission, with 40,000 gas used, leaves a redeem whose callvalue cannot be put back. */
  lemma FeeAccountSenderCanAbort(c: Chain, w: World, id: TicketId, call: SubmitCall, now: U64, baseFee: U64, chainId: U64,
                                 elsewhere: Address, gasUsed: U64)
    requires Proper(c) && id in c.ids && Total(w.balances) + call.depositValue <= U256_MAX
    requires c.settings.networkFeeAccount != ZERO_ADDRESS && c.settings.infraFeeAccount == ZERO_ADDRESS
    requires call == FeeAccountCall(call.feeRefundAddress) && baseFee == 100_000_000 && gasUsed == 40_000
    requires call.feeRefundAddress != c.settings.networkFeeAccount && elsewhere != c.settings.networkFeeAccount
    ensures var network := c.settings.networkFeeAccount;
            var tx := AutoRedeem(chainId, network, id, call, c.settings, QuoteOf(call, c.settings, baseFee));
            var v := Drained(Submitted(c, w, network, id, call, now, baseFee, false), network, elsewhere);
            TransferVerdict(FeesSettled(Released(c, v, tx).balances, tx, c.settings, false,
                                        HookAmountsOf(tx, c.settings, gasUsed)),
                            Payment(network, c.escrowOf(id), call.retryValue)) != None
  {
    var q := QuoteOf(call, c.settings, baseFee);
    assert q.fee == 0 && q.maxGasCost == 10_000_000_000_000;
    DrainedFeeAccountAborts(c, w, id, call, now, baseFee, chainId, elsewhere, gasUsed);
  }
}
