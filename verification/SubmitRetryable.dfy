/**
 Submitting a retryable: mint the L1 deposit, split it through a chain of capped
 takes, escrow the callvalue, create the ticket and maybe schedule its auto-redeem.
 */
module SubmitRetryable {
  import opened Words
  import opened Bytes
  import opened Ledger
  import opened Retryables
  import opened Journaled

  const TX_GAS: nat := 21_000
  const ARBOS_VERSION_STYLUS: nat := 30
  const ARBOS_VERSION_TRANSACTION_FILTERING: nat := 60
  const U128_MAX: nat := 0xFFFF_FFFF_FFFF_FFFF_FFFF_FFFF_FFFF_FFFF

  datatype SubmitCall = SubmitCall(
    l1BaseFee: U256,
    depositValue: U256,
    retryValue: U256,
    gasFeeCap: U256,
    gasLimit: U64,
    maxSubmissionFee: U256,
    feeRefundAddress: Address,
    beneficiary: Address,
    retryTo: Option<Address>,
    retryData: seq<Byte>)

  datatype Outcome = Created(gasUsed: U64) | Failed(gasUsed: U64)

  datatype SubmitError = MissingChainId | TransferFailed(step: string)

  datatype Result<+T, +E> = Ok(value: T) | Err(error: E)

  /** The submission fee; the `U256` product wraps. */
  function SubmissionFee(dataLen: nat, l1BaseFee: U256): U256 {
    var units := Min(1400 + Min(6 * dataLen, U128_MAX), U128_MAX);
    (l1BaseFee * units) % (U256_MAX + 1)
  }

  // ---------- What the deposit pays for, as slices of one budget ----------

  /** The part of the half-open range [before, before + want) that lies below `budget`. */
  function Slice(budget: nat, before: nat, want: nat): nat {
    Min(budget, before + want) - Min(budget, before)
  }

  /** All amounts a submission may move, each stated as a range of the refundable deposit. */
  datatype Amounts = Amounts(
    refundable: nat,
    withheldFee: nat,
    feeRefund: nat,
    gasCostRefund: nat,
    infraCost: nat,
    networkCost: nat,
    withheldGas: nat,
    gasPriceRefund: nat,
    left: nat)

  /** The deposit not needed for the callvalue: all that may ever be refunded. */
  function Refundable(call: SubmitCall): nat {
    call.depositValue - Min(call.depositValue, call.retryValue)
  }

  /** The products of prices and gas, computed once. */
  datatype Quote = Quote(baseFee: U64, fee: U256, maxGasCost: U256, gasCost: U256, infraWanted: U256, priceGap: U256)

  function QuoteOf(call: SubmitCall, s: Settings, baseFee: U64): (q: Quote)
    ensures q.baseFee == baseFee
    ensures Coherent(call, q)
  {
    assert baseFee <= call.gasFeeCap ==> baseFee * call.gasLimit <= call.gasFeeCap * call.gasLimit;
    Quote(baseFee,
          SubmissionFee(|call.retryData|, call.l1BaseFee),
          SatMul256(call.gasFeeCap, call.gasLimit),
          SatMul256(baseFee, call.gasLimit),
          SatMul256(Min(s.minBaseFee, baseFee), call.gasLimit),
          SatMul256(SatSub(call.gasFeeCap, baseFee), call.gasLimit))
  }

  /** The one relation between the products that the hook relies on. */
  predicate Coherent(call: SubmitCall, q: Quote) {
    q.baseFee <= call.gasFeeCap ==> q.gasCost <= q.maxGasCost
  }

  function AmountsOf(call: SubmitCall, s: Settings, q: Quote): Amounts {
    var d := Refundable(call);
    var m := call.maxSubmissionFee;
    var infraCost := if s.infraFeeAccount == ZERO_ADDRESS then 0 else Min(q.gasCost, q.infraWanted);
    Amounts(d, Slice(d, 0, q.fee), Slice(d, q.fee, SatSub(m, q.fee)),
            Slice(d, m, q.maxGasCost),
            infraCost, q.gasCost - infraCost,
            Slice(d, m, q.gasCost), Slice(d, m + q.gasCost, q.priceGap),
            d - Min(d, m + q.gasCost + q.priceGap))
  }

  function MaxRefund(a: Amounts): nat {
    a.left + a.withheldGas + a.withheldFee
  }

  // ---------- The stages a submission can end in, and its payments ----------

  datatype Stage = FeeAboveMax | Unfunded | NoEscrow | NotScheduled | ChargedButFiltered | Scheduled

  function OpeningPayments(from: Address, call: SubmitCall, s: Settings, q: Quote, a: Amounts): Payments {
    Then(Then(NoPayments, Payment(from, s.networkFeeAccount, q.fee)),
         Payment(from, call.feeRefundAddress, a.feeRefund))
  }

  function CreationPayments(from: Address, escrow: Address, call: SubmitCall, s: Settings, q: Quote, a: Amounts): Payments {
    Then(OpeningPayments(from, call, s, q, a), Payment(from, escrow, call.retryValue))
  }

  function StageOf(minted: Balances, from: Address, escrow: Address, call: SubmitCall, s: Settings,
                   q: Quote, filtered: bool): Stage
  {
    var a := AmountsOf(call, s, q);
    if call.maxSubmissionFee < q.fee then FeeAboveMax
    else if BalanceOf(minted, from) < call.maxSubmissionFee then Unfunded
    else if BalanceOf(Settle(minted, OpeningPayments(from, call, s, q, a)), from) < call.retryValue then NoEscrow
    else
      CreatedStage(BalanceOf(Settle(minted, CreationPayments(from, escrow, call, s, q, a)), from), call, q, filtered)
  }

  /** Once the ticket exists: whether its redeem can be paid for, from the funds the sender has left. */
  function CreatedStage(funds: nat, call: SubmitCall, q: Quote, filtered: bool): Stage {
    if funds < q.maxGasCost || call.gasLimit < TX_GAS || call.gasFeeCap < q.baseFee then NotScheduled
    else if filtered then ChargedButFiltered
    else Scheduled
  }

  function PaymentsOf(stage: Stage, from: Address, escrow: Address, call: SubmitCall, s: Settings,
                      q: Quote): Payments
  {
    var a := AmountsOf(call, s, q);
    match stage
    case FeeAboveMax => NoPayments
    case Unfunded => NoPayments
    case NoEscrow =>
      Then(Then(OpeningPayments(from, call, s, q, a),
                Payment(s.networkFeeAccount, from, q.fee)),
           Payment(from, call.feeRefundAddress, a.withheldFee))
    case NotScheduled =>
      Then(CreationPayments(from, escrow, call, s, q, a), Payment(from, call.feeRefundAddress, a.gasCostRefund))
    case _ =>
      Then(Then(Then(CreationPayments(from, escrow, call, s, q, a),
                     Payment(from, s.infraFeeAccount, a.infraCost)),
                Payment(from, s.networkFeeAccount, a.networkCost)),
           Payment(from, call.feeRefundAddress, a.gasPriceRefund))
  }

  /** What the fee-refund address is paid in that role. */
  function RoleRefunds(stage: Stage, a: Amounts): nat {
    match stage
    case FeeAboveMax => 0
    case Unfunded => 0
    case NoEscrow => a.feeRefund + a.withheldFee
    case NotScheduled => a.feeRefund + a.gasCostRefund
    case _ => a.feeRefund + a.gasPriceRefund
  }

  function OutcomeOf(stage: Stage, call: SubmitCall, filtered: bool): Outcome {
    match stage
    case NotScheduled => if filtered then Failed(0) else Created(0)
    case ChargedButFiltered => Failed(call.gasLimit)
    case Scheduled => Created(call.gasLimit)
    case _ => Failed(0)
  }

  predicate CreatesTicket(stage: Stage) {
    stage.NotScheduled? || stage.ChargedButFiltered? || stage.Scheduled?
  }

  function NewTicket(stage: Stage, from: Address, call: SubmitCall, now: U64): Ticket {
    Ticket(if stage.Scheduled? then 1 else 0, from, RawTo(call.retryTo), call.retryValue, call.beneficiary,
           SatAdd64(now, RETRYABLE_LIFETIME_SECONDS), 0, call.retryData)
  }

  /** The auto-redeem that a scheduled submission announces. */
  function AutoRedeem(chainId: U64, from: Address, id: TicketId, call: SubmitCall, s: Settings, q: Quote): TxRetry {
    FirstTry(chainId, from, id, call, q, Min(MaxRefund(AmountsOf(call, s, q)), U256_MAX))
  }

  function FirstTry(chainId: U64, from: Address, id: TicketId, call: SubmitCall, q: Quote, maxRefund: U256): TxRetry {
    TxRetry(chainId, 0, from, q.baseFee, call.gasLimit, call.retryTo, call.retryValue, call.retryData, id,
            call.feeRefundAddress, maxRefund, q.fee)
  }

  /** A filtered submission pays its refunds and its escrow release to the filtered-funds recipient. */
  function Redirected(call: SubmitCall, s: Settings, filtered: bool): SubmitCall {
    var recipient := if s.filteredFundsRecipient == ZERO_ADDRESS then s.networkFeeAccount else s.filteredFundsRecipient;
    if filtered then call.(feeRefundAddress := recipient, beneficiary := recipient) else call
  }

  // ---------- Properties of the amounts ----------

  /** The takes partition the refundable deposit: nothing is counted twice and nothing is lost. */
  lemma SlicesPartition(call: SubmitCall, s: Settings, q: Quote)
    requires q.fee <= call.maxSubmissionFee
    ensures var a := AmountsOf(call, s, q);
            && a.withheldFee + a.feeRefund + a.withheldGas + a.gasPriceRefund + a.left == a.refundable
            && a.withheldFee + a.feeRefund + a.gasCostRefund <= a.refundable
            && a.infraCost + a.networkCost == q.gasCost
            && MaxRefund(a) <= U256_MAX
  {
  }

  /** Refunds to the fee-refund address stay inside the refundable deposit, and a scheduled
      auto-redeem is handed exactly the part of it not yet refunded. */
  lemma RefundsWithinDeposit(stage: Stage, call: SubmitCall, s: Settings, q: Quote)
    requires stage.FeeAboveMax? || q.fee <= call.maxSubmissionFee
    ensures var a := AmountsOf(call, s, q);
            && RoleRefunds(stage, a) <= Refundable(call)
            && (stage.Scheduled? ==> RoleRefunds(stage, a) + MaxRefund(a) == Refundable(call))
  {
    if !stage.FeeAboveMax? {
      SlicesPartition(call, s, q);
    }
  }

  // ---------- No payment of a submission can lack funds ----------

  lemma SliceWithin(budget: nat, before: nat, want: nat)
    ensures Slice(budget, before, want) <= want
    ensures Slice(budget, before, want) <= budget - Min(budget, before)
  {
  }

  /** After the fee and the refund of its overestimate, the sender has lost at most both and the network account can
      give the fee back. */
  lemma OpeningAffordable(minted: Balances, from: Address, call: SubmitCall, s: Settings, q: Quote, a: Amounts)
    requires a == AmountsOf(call, s, q)
    requires q.fee <= call.maxSubmissionFee <= BalanceOf(minted, from)
    ensures var ps := OpeningPayments(from, call, s, q, a);
            && Affordable(minted, ps)
            && BalanceOf(Settle(minted, ps), from) >= BalanceOf(minted, from) - q.fee - a.feeRefund
            && BalanceOf(Settle(minted, ps), s.networkFeeAccount) >= q.fee
  {
    var fee := Payment(from, s.networkFeeAccount, q.fee);
    var refund := Payment(from, call.feeRefundAddress, a.feeRefund);
    SliceWithin(a.refundable, q.fee, call.maxSubmissionFee - q.fee);
    assert Settle(minted, NoPayments) == minted && Affordable(minted, NoPayments);
    PayLast(minted, NoPayments, fee);
    PayBalance(minted, fee, from);
    PayLast(minted, Then(NoPayments, fee), refund);
  }

  lemma NoEscrowAffordable(minted: Balances, from: Address, escrow: Address, call: SubmitCall, s: Settings,
                           q: Quote, filtered: bool)
    requires StageOf(minted, from, escrow, call, s, q, filtered).NoEscrow?
    ensures Affordable(minted, PaymentsOf(NoEscrow, from, escrow, call, s, q))
  {
    var a := AmountsOf(call, s, q);
    var opening := OpeningPayments(from, call, s, q, a);
    var back := Payment(s.networkFeeAccount, from, q.fee);
    OpeningAffordable(minted, from, call, s, q, a);
    PayLast(minted, opening, back);
    SliceWithin(a.refundable, 0, q.fee);
    PayLast(minted, Then(opening, back), Payment(from, call.feeRefundAddress, a.withheldFee));
  }

  /** What the fee and its refund leave of the deposit. */
  lemma BudgetLeft(deposit: nat, value: nat, fee: nat, max: nat)
    requires fee <= max
    ensures var d := deposit - Min(deposit, value);
            deposit - fee - Slice(d, fee, max - fee) - value >= d - Min(d, max) || d <= max
  {
  }

  /** After the escrow the sender still holds the whole unspent refund budget. */
  lemma SenderCoversBudget(minted: Balances, from: Address, escrow: Address, call: SubmitCall, s: Settings,
                           q: Quote, filtered: bool, a: Amounts)
    requires a == AmountsOf(call, s, q)
    requires BalanceOf(minted, from) >= call.depositValue
    requires CreatesTicket(StageOf(minted, from, escrow, call, s, q, filtered))
    ensures var ps := CreationPayments(from, escrow, call, s, q, a);
            && Affordable(minted, ps)
            && BalanceOf(Settle(minted, ps), from) >= a.refundable - Min(a.refundable, call.maxSubmissionFee)
  {
    OpeningAffordable(minted, from, call, s, q, a);
    PayLast(minted, OpeningPayments(from, call, s, q, a), Payment(from, escrow, call.retryValue));
    BudgetLeft(call.depositValue, call.retryValue, q.fee, call.maxSubmissionFee);
  }

  lemma NotScheduledAffordable(minted: Balances, from: Address, escrow: Address, call: SubmitCall, s: Settings,
                               q: Quote, filtered: bool)
    requires BalanceOf(minted, from) >= call.depositValue
    requires StageOf(minted, from, escrow, call, s, q, filtered).NotScheduled?
    ensures Affordable(minted, PaymentsOf(NotScheduled, from, escrow, call, s, q))
  {
    var a := AmountsOf(call, s, q);
    SenderCoversBudget(minted, from, escrow, call, s, q, filtered, a);
    SliceWithin(a.refundable, call.maxSubmissionFee, q.maxGasCost);
    PayLast(minted, CreationPayments(from, escrow, call, s, q, a), Payment(from, call.feeRefundAddress, a.gasCostRefund));
  }

  /** Gas cost and price refund together fit what the sender holds. */
  lemma GasFits(funds: nat, d: nat, max: nat, gasCost: nat, gap: nat)
    requires funds >= gasCost && funds >= d - Min(d, max)
    ensures gasCost + Slice(d, max + gasCost, gap) <= funds
  {
  }

  lemma ChargedAffordable(minted: Balances, from: Address, escrow: Address, call: SubmitCall, s: Settings,
                          q: Quote, filtered: bool)
    requires Coherent(call, q)
    requires BalanceOf(minted, from) >= call.depositValue
    requires var stage := StageOf(minted, from, escrow, call, s, q, filtered);
             stage.ChargedButFiltered? || stage.Scheduled?
    ensures Affordable(minted, PaymentsOf(Scheduled, from, escrow, call, s, q))
  {
    var a := AmountsOf(call, s, q);
    SenderCoversBudget(minted, from, escrow, call, s, q, filtered, a);
    var created := CreationPayments(from, escrow, call, s, q, a);
    GasFits(BalanceOf(Settle(minted, created), from), a.refundable, call.maxSubmissionFee, q.gasCost, q.priceGap);
    ThreeMore(minted, created, Payment(from, s.infraFeeAccount, a.infraCost), Payment(from, s.networkFeeAccount, a.networkCost),
              Payment(from, call.feeRefundAddress, a.gasPriceRefund));
  }

  lemma ThreeMore(b: Balances, ps: Payments, p1: Payment, p2: Payment, p3: Payment)
    requires Affordable(b, ps) && p1.src == p2.src == p3.src
    requires p1.amount + p2.amount + p3.amount <= BalanceOf(Settle(b, ps), p1.src)
    ensures Affordable(b, Then(Then(Then(ps, p1), p2), p3))
  {
    PayLast(b, ps, p1);
    PayLast(b, Then(ps, p1), p2);
    PayLast(b, Then(Then(ps, p1), p2), p3);
  }

  /** No transfer of a submission except the escrow one can lack funds, whatever addresses coincide. */
  lemma SubmitNeverLacksFunds(minted: Balances, from: Address, escrow: Address, call: SubmitCall, s: Settings,
                              q: Quote, filtered: bool)
    requires Coherent(call, q)
    requires BalanceOf(minted, from) >= call.depositValue
    ensures var stage := StageOf(minted, from, escrow, call, s, q, filtered);
            Affordable(minted, PaymentsOf(stage, from, escrow, call, s, q))
  {
    match StageOf(minted, from, escrow, call, s, q, filtered)
    case FeeAboveMax =>
    case Unfunded =>
    case NoEscrow => NoEscrowAffordable(minted, from, escrow, call, s, q, filtered);
    case NotScheduled => NotScheduledAffordable(minted, from, escrow, call, s, q, filtered);
    case _ => ChargedAffordable(minted, from, escrow, call, s, q, filtered);
  }

  /** The deposit alone covers the fee cap, the callvalue and all gas at the fee cap. */
  predicate FullyFunded(call: SubmitCall, q: Quote) {
    && q.fee <= call.maxSubmissionFee
    && call.maxSubmissionFee + call.retryValue + q.maxGasCost <= call.depositValue
  }

  /** Such a submission schedules its redeem exactly when it offers 21,000 gas at the base fee, whatever the redeem
      itself will need. */
  lemma FundedIsScheduled(minted: Balances, from: Address, escrow: Address, call: SubmitCall, s: Settings, q: Quote)
    requires FullyFunded(call, q) && BalanceOf(minted, from) >= call.depositValue
    ensures StageOf(minted, from, escrow, call, s, q, false)
         == if call.gasLimit >= TX_GAS && call.gasFeeCap >= q.baseFee then Scheduled else NotScheduled
  {
    var a := AmountsOf(call, s, q);
    OpeningAffordable(minted, from, call, s, q, a);
    SliceWithin(a.refundable, q.fee, call.maxSubmissionFee - q.fee);
    PayLast(minted, OpeningPayments(from, call, s, q, a), Payment(from, escrow, call.retryValue));
  }

  // ---------- The hook itself ----------

  /** Takes up to `requested` from what is left of a budget after `before` was asked of it. */
  method TakeFunds(available: nat, requested: nat, ghost budget: nat, ghost before: nat)
    returns (taken: nat, left: nat)
    requires available == budget - Min(budget, before)
    ensures taken == Slice(budget, before, requested)
    ensures left == budget - Min(budget, before + requested)
  {
    taken := Min(available, requested);
    left := SatSub(available, taken);
  }

  /** A transfer that is skipped when there is nothing to move. */
  method TransferIfAny(j: Journal, src: Address, dst: Address, amount: U256) returns (ok: bool)
    requires j.Solvent() && Funded(j.balances, Payment(src, dst, amount))
    modifies j`balances
    ensures ok && j.Solvent() && Total(j.balances) == Total(old(j.balances))
    ensures j.balances == Pay(old(j.balances), Payment(src, dst, amount))
  {
    ok := true;
    if amount > 0 {
      var err := j.Transfer(src, dst, amount);
      ok := err.None?;
    }
  }

  /** The first transfers: the submission fee, then the refund of its overestimate. */
  method ChargeSubmissionFee(j: Journal, from: Address, call: SubmitCall, q: Quote, ghost a: Amounts)
    returns (ok: bool, available: nat, withheldFee: nat)
    requires j.Solvent() && a == AmountsOf(call, j.settings, q)
    requires q.fee <= call.maxSubmissionFee <= BalanceOf(j.balances, from)
    modifies j`balances
    ensures ok && j.Solvent() && Total(j.balances) == Total(old(j.balances))
    ensures available == a.refundable - Min(a.refundable, call.maxSubmissionFee) && withheldFee == a.withheldFee
    ensures j.balances == Settle(old(j.balances), OpeningPayments(from, call, j.settings, q, a))
  {
    OpeningAffordable(j.balances, from, call, j.settings, q, a);
    ok, available, withheldFee := false, 0, 0;
    var _, afterValue := TakeFunds(call.depositValue, call.retryValue, call.depositValue, 0);
    var err := j.Transfer(from, j.settings.networkFeeAccount, q.fee);
    if err.Some? {
      return;
    }
    withheldFee, available := TakeFunds(afterValue, q.fee, a.refundable, 0);
    var feeRefund;
    feeRefund, available := TakeFunds(available, SatSub(call.maxSubmissionFee, q.fee), a.refundable, q.fee);
    ok := TransferIfAny(j, from, call.feeRefundAddress, feeRefund);
  }

  /** The escrow could not be funded: give the fee back to the sender, and the part of it withheld
      from the deposit to the fee-refund address. */
  method UndoSubmissionFee(j: Journal, from: Address, escrow: Address, call: SubmitCall, q: Quote,
                           withheldFee: nat, ghost minted: Balances, ghost a: Amounts)
    returns (ok: bool)
    requires j.Solvent() && a == AmountsOf(call, j.settings, q) && withheldFee == a.withheldFee
    requires j.balances == Settle(minted, OpeningPayments(from, call, j.settings, q, a))
    requires Affordable(minted, PaymentsOf(NoEscrow, from, escrow, call, j.settings, q))
    modifies j`balances
    ensures ok && Total(j.balances) == Total(old(j.balances))
    ensures j.balances == Settle(minted, PaymentsOf(NoEscrow, from, escrow, call, j.settings, q))
  {
    ok := TransferIfAny(j, j.settings.networkFeeAccount, from, q.fee);
    if !ok {
      return;
    }
    ok := TransferIfAny(j, from, call.feeRefundAddress, withheldFee);
  }

  /** Prepaying the auto-redeem's gas: the infra share, then the rest to the network account. */
  method PayGasCost(j: Journal, from: Address, q: Quote, ghost infraCost: nat, ghost networkShare: nat)
    returns (ok: bool)
    requires j.Solvent() && q.gasCost <= BalanceOf(j.balances, from)
    requires infraCost == if j.settings.infraFeeAccount == ZERO_ADDRESS then 0 else Min(q.gasCost, q.infraWanted)
    requires networkShare == q.gasCost - infraCost
    modifies j`balances
    ensures ok && j.Solvent() && Total(j.balances) == Total(old(j.balances))
    ensures j.balances == Pay(Pay(old(j.balances), Payment(from, j.settings.infraFeeAccount, infraCost)),
                              Payment(from, j.settings.networkFeeAccount, networkShare))
  {
    ok := false;
    var networkCost: nat := q.gasCost;
    if j.settings.infraFeeAccount != ZERO_ADDRESS {
      var cost;
      cost, networkCost := TakeFunds(networkCost, q.infraWanted, q.gasCost, 0);
      ok := TransferIfAny(j, from, j.settings.infraFeeAccount, cost);
      if !ok {
        return;
      }
    }
    ok := TransferIfAny(j, from, j.settings.networkFeeAccount, networkCost);
  }

  /** The last takes: gas funds withheld, the price overestimate refunded, the rest left for the redeem. */
  method TakeGasFunds(call: SubmitCall, s: Settings, q: Quote, available: nat, withheldFee: nat, ghost a: Amounts)
    returns (refund: nat, maxRefund: U256)
    requires a == AmountsOf(call, s, q) && q.fee <= call.maxSubmissionFee
    requires available == a.refundable - Min(a.refundable, call.maxSubmissionFee) && withheldFee == a.withheldFee
    ensures refund == a.gasPriceRefund <= U256_MAX && maxRefund == MaxRefund(a)
  {
    var withheldGas, left;
    withheldGas, left := TakeFunds(available, q.gasCost, a.refundable, call.maxSubmissionFee);
    refund, left := TakeFunds(left, q.priceGap, a.refundable, call.maxSubmissionFee + q.gasCost);
    SlicesPartition(call, s, q);
    maxRefund := SatAdd256(SatAdd256(left, withheldGas), withheldFee);
  }

  /** A redeem can be scheduled: prepay its gas, then refund the price overestimate. */
  method ChargeRedeemGas(j: Journal, from: Address, escrow: Address, call: SubmitCall, q: Quote,
                         available0: nat, withheldFee: nat, ghost minted: Balances, ghost a: Amounts)
    returns (ok: bool, maxRefund: U256)
    requires j.Solvent() && a == AmountsOf(call, j.settings, q)
    requires q.fee <= call.maxSubmissionFee && q.gasCost <= BalanceOf(j.balances, from)
    requires available0 == a.refundable - Min(a.refundable, call.maxSubmissionFee) && withheldFee == a.withheldFee
    requires j.balances == Settle(minted, CreationPayments(from, escrow, call, j.settings, q, a))
    requires Affordable(minted, PaymentsOf(Scheduled, from, escrow, call, j.settings, q))
    modifies j`balances
    ensures ok && Total(j.balances) == Total(old(j.balances))
    ensures maxRefund == MaxRefund(a)
    ensures j.balances == Settle(minted, PaymentsOf(Scheduled, from, escrow, call, j.settings, q))
  {
    maxRefund := 0;
    ok := PayGasCost(j, from, q, a.infraCost, a.networkCost);
    if !ok {
      return;
    }
    var refund, rest := TakeGasFunds(call, j.settings, q, available0, withheldFee, a);
    ok := TransferIfAny(j, from, call.feeRefundAddress, refund);
    maxRefund := rest;
  }

  /** No redeem can be scheduled: the gas deposit goes back to the fee-refund address. */
  method RefundGasDeposit(j: Journal, from: Address, escrow: Address, call: SubmitCall, q: Quote, available: nat,
                          ghost minted: Balances, ghost a: Amounts)
    returns (ok: bool)
    requires j.Solvent() && a == AmountsOf(call, j.settings, q)
    requires available == a.refundable - Min(a.refundable, call.maxSubmissionFee)
    requires j.balances == Settle(minted, CreationPayments(from, escrow, call, j.settings, q, a))
    requires Affordable(minted, PaymentsOf(NotScheduled, from, escrow, call, j.settings, q))
    modifies j`balances
    ensures ok && Total(j.balances) == Total(old(j.balances))
    ensures j.balances == Settle(minted, PaymentsOf(NotScheduled, from, escrow, call, j.settings, q))
  {
    var refund, _ := TakeFunds(available, q.maxGasCost, a.refundable, call.maxSubmissionFee);
    ok := TransferIfAny(j, from, call.feeRefundAddress, refund);
  }

  /** The effect a submission with the given stage has on tickets and logs. */
  ghost predicate Recorded(stage: Stage, chainId: U64, from: Address, id: TicketId, call: SubmitCall, s: Settings,
                           now: U64, q: Quote, tickets: Tickets, tickets': Tickets,
                           queue: seq<TicketId>, queue': seq<TicketId>, logs: seq<Log>, logs': seq<Log>)
  {
    if !CreatesTicket(stage) then tickets' == tickets && queue' == queue && logs' == logs
    else
      && tickets' == tickets[id := NewTicket(stage, from, call, now)]
      && queue' == queue + [id]
      && logs' == logs + [TicketCreatedLog(id)]
                  + if stage.Scheduled? then
                      [RedeemScheduledLog(ARB_RETRYABLE_TX_ADDRESS, AutoRedeem(chainId, from, id, call, s, q))]
                    else []
  }

  /** Before Stylus a scheduled ticket without callvalue may have its escrow account revived by its redeem. */
  function NewZombies(stage: Stage, id: TicketId, call: SubmitCall, s: Settings): seq<TicketId> {
    if stage.Scheduled? && call.retryValue == 0 && s.arbosVersion < ARBOS_VERSION_STYLUS then [id] else []
  }

  method WriteTicket(j: Journal, from: Address, id: TicketId, call: SubmitCall, now: U64)
    modifies j`tickets, j`timeoutQueue, j`logs
    ensures j.tickets == old(j.tickets)[id := NewTicket(NotScheduled, from, call, now)]
    ensures j.timeoutQueue == old(j.timeoutQueue) + [id] && j.logs == old(j.logs) + [TicketCreatedLog(id)]
  {
    var timeout := SatAdd64(now, RETRYABLE_LIFETIME_SECONDS);
    j.tickets := j.tickets[id := Ticket(0, from, RawTo(call.retryTo), call.retryValue, call.beneficiary, timeout, 0,
                                        call.retryData)];
    j.timeoutQueue := j.timeoutQueue + [id];
    j.logs := j.logs + [TicketCreatedLog(id)];
  }

  /** Marks the first try, announces the auto-redeem and remembers an escrow it may revive. */
  method AnnounceRedeem(j: Journal, chainId: U64, from: Address, id: TicketId, call: SubmitCall, now: U64, q: Quote,
                        maxRefund: U256, ghost before: Tickets)
    requires j.tickets == before[id := NewTicket(NotScheduled, from, call, now)]
    modifies j`tickets, j`logs, j`pendingZombies
    ensures j.tickets == before[id := NewTicket(Scheduled, from, call, now)]
    ensures j.logs
         == old(j.logs) + [RedeemScheduledLog(ARB_RETRYABLE_TX_ADDRESS, FirstTry(chainId, from, id, call, q, maxRefund))]
    ensures j.pendingZombies == old(j.pendingZombies) + NewZombies(Scheduled, id, call, j.settings)
  {
    j.tickets := j.tickets[id := j.tickets[id].(numTries := 1)];
    var retry := TxRetry(chainId, 0, from, q.baseFee, call.gasLimit, call.retryTo, call.retryValue, call.retryData,
                         id, call.feeRefundAddress, maxRefund, q.fee);
    j.logs := j.logs + [RedeemScheduledLog(ARB_RETRYABLE_TX_ADDRESS, retry)];
    if call.retryValue == 0 && j.settings.arbosVersion < ARBOS_VERSION_STYLUS {
      j.pendingZombies := j.pendingZombies + [id];
    }
  }

  /** From the funded escrow on: write the ticket, settle its gas deposit, and maybe schedule its redeem. */
  method CreateTicket(j: Journal, chainId: U64, from: Address, id: TicketId, call: SubmitCall, filtered: bool,
                      now: U64, q: Quote, available: nat, withheldFee: nat, ghost minted: Balances, ghost stage: Stage,
                      ghost a: Amounts)
    returns (r: Result<Outcome, SubmitError>)
    requires Coherent(call, q) && q.fee <= call.maxSubmissionFee
    requires j.Solvent()
    requires stage == CreatedStage(BalanceOf(j.balances, from), call, q, filtered)
    requires a == AmountsOf(call, j.settings, q)
    requires available == a.refundable - Min(a.refundable, call.maxSubmissionFee) && withheldFee == a.withheldFee
    requires j.balances == Settle(minted, CreationPayments(from, j.escrowOf(id), call, j.settings, q, a))
    requires Affordable(minted, PaymentsOf(stage, from, j.escrowOf(id), call, j.settings, q))
    modifies j`balances, j`tickets, j`timeoutQueue, j`logs, j`pendingZombies
    ensures Total(j.balances) == Total(old(j.balances))
    ensures r == Ok(OutcomeOf(stage, call, filtered))
    ensures j.balances == Settle(minted, PaymentsOf(stage, from, j.escrowOf(id), call, j.settings, q))
    ensures Recorded(stage, chainId, from, id, call, j.settings, now, q, old(j.tickets), j.tickets,
                     old(j.timeoutQueue), j.timeoutQueue, old(j.logs), j.logs)
    ensures j.pendingZombies == old(j.pendingZombies) + NewZombies(stage, id, call, j.settings)
  {
    WriteTicket(j, from, id, call, now);
    var ok, maxRefund;
    if BalanceOf(j.balances, from) < q.maxGasCost || call.gasLimit < TX_GAS || call.gasFeeCap < q.baseFee {
      ok := RefundGasDeposit(j, from, j.escrowOf(id), call, q, available, minted, a);
      return if !ok then Err(TransferFailed("gas-cost refund"))
        else Ok(if filtered then Failed(0) else Created(0));
    }
    ok, maxRefund := ChargeRedeemGas(j, from, j.escrowOf(id), call, q, available, withheldFee, minted, a);
    if !ok {
      return Err(TransferFailed("redeem gas"));
    }
    if filtered {
      return Ok(Failed(call.gasLimit));
    }
    AnnounceRedeem(j, chainId, from, id, call, now, q, maxRefund, old(j.tickets));
    r := Ok(Created(call.gasLimit));
  }

  predicate Filtered(s: Settings, filteredTxs: set<TicketId>, id: TicketId) {
    s.arbosVersion >= ARBOS_VERSION_TRANSACTION_FILTERING && id in filteredTxs
  }

  /** Once the sender covers the fee cap: fee, escrow and ticket. */
  method SubmitFunded(j: Journal, chainId: U64, from: Address, id: TicketId, call: SubmitCall, q: Quote,
                      filtered: bool, now: U64, ghost minted: Balances)
    returns (r: Result<Outcome, SubmitError>)
    requires Coherent(call, q) && j.Solvent() && j.balances == minted
    requires q.fee <= call.maxSubmissionFee <= BalanceOf(minted, from)
    requires var stage := StageOf(minted, from, j.escrowOf(id), call, j.settings, q, filtered);
             Affordable(minted, PaymentsOf(stage, from, j.escrowOf(id), call, j.settings, q))
    modifies j`balances, j`tickets, j`timeoutQueue, j`logs, j`pendingZombies
    ensures var stage := StageOf(minted, from, j.escrowOf(id), call, j.settings, q, filtered);
            && r == Ok(OutcomeOf(stage, call, filtered))
            && Total(j.balances) == Total(minted)
            && j.balances == Settle(minted, PaymentsOf(stage, from, j.escrowOf(id), call, j.settings, q))
            && Recorded(stage, chainId, from, id, call, j.settings, now, q, old(j.tickets), j.tickets,
                        old(j.timeoutQueue), j.timeoutQueue, old(j.logs), j.logs)
            && j.pendingZombies == old(j.pendingZombies) + NewZombies(stage, id, call, j.settings)
  {
    ghost var a := AmountsOf(call, j.settings, q);
    var escrow := j.escrowOf(id);
    var ok, available, withheldFee := ChargeSubmissionFee(j, from, call, q, a);
    if !ok {
      return Err(TransferFailed("submission fee"));
    }
    if call.retryValue > 0 {
      var err := j.Transfer(from, escrow, call.retryValue);
      if err.Some? {
        ok := UndoSubmissionFee(j, from, escrow, call, q, withheldFee, minted, a);
        if !ok {
          return Err(TransferFailed("submission fee revert"));
        }
        return Ok(Failed(0));
      }
    }
    r := CreateTicket(j, chainId, from, id, call, filtered, now, q, available, withheldFee, minted,
                      CreatedStage(BalanceOf(j.balances, from), call, q, filtered), a);
  }

  /** The submission proper, once its prices are known. */
  method SubmitQuoted(j: Journal, chainId: U64, from: Address, id: TicketId, call: SubmitCall, q: Quote,
                      filtered: bool, now: U64)
    returns (r: Result<Outcome, SubmitError>)
    requires Coherent(call, q)
    requires Total(j.balances) + call.depositValue <= U256_MAX
    modifies j`balances, j`tickets, j`timeoutQueue, j`logs, j`pendingZombies
    ensures var minted := Mint(old(j.balances), from, call.depositValue);
            var stage := StageOf(minted, from, j.escrowOf(id), call, j.settings, q, filtered);
            && r == Ok(OutcomeOf(stage, call, filtered))
            && Total(j.balances) == Total(old(j.balances)) + (if stage.FeeAboveMax? then 0 else call.depositValue)
            && j.balances == (if stage.FeeAboveMax? then old(j.balances)
                              else Settle(minted, PaymentsOf(stage, from, j.escrowOf(id), call, j.settings, q)))
            && Recorded(stage, chainId, from, id, call, j.settings, now, q, old(j.tickets), j.tickets,
                        old(j.timeoutQueue), j.timeoutQueue, old(j.logs), j.logs)
            && j.pendingZombies == old(j.pendingZombies) + NewZombies(stage, id, call, j.settings)
  {
    if call.maxSubmissionFee < q.fee {
      return Ok(Failed(0));
    }
    j.BalanceIncr(from, call.depositValue);
    ghost var minted := j.balances;
    SubmitNeverLacksFunds(minted, from, j.escrowOf(id), call, j.settings, q, filtered);
    if BalanceOf(j.balances, from) < call.maxSubmissionFee {
      return Ok(Failed(0));
    }
    r := SubmitFunded(j, chainId, from, id, call, q, filtered, now, minted);
  }

  /** The whole submission. It never aborts on a transfer, mints exactly the deposit unless the fee cap
      was too low, and leaves the balances, tickets and logs its stage calls for. */
  method ApplySubmitRetryable(j: Journal, chainId: Option<U64>, from: Address, id: TicketId, original: SubmitCall,
                              now: U64, baseFee: U64)
    returns (r: Result<Outcome, SubmitError>)
    requires Total(j.balances) + original.depositValue <= U256_MAX
    modifies j`balances, j`tickets, j`timeoutQueue, j`logs, j`pendingZombies
    ensures chainId.None? ==>
              r == Err(MissingChainId) && j.balances == old(j.balances) && j.tickets == old(j.tickets)
              && j.timeoutQueue == old(j.timeoutQueue) && j.logs == old(j.logs) && j.pendingZombies == old(j.pendingZombies)
    ensures chainId.Some? ==>
              var filtered := Filtered(j.settings, j.filteredTxs, id);
              var call := Redirected(original, j.settings, filtered);
              var q := QuoteOf(call, j.settings, baseFee);
              var minted := Mint(old(j.balances), from, call.depositValue);
              var stage := StageOf(minted, from, j.escrowOf(id), call, j.settings, q, filtered);
              && r == Ok(OutcomeOf(stage, call, filtered))
              && Total(j.balances) == Total(old(j.balances)) + (if stage.FeeAboveMax? then 0 else call.depositValue)
              && j.balances == (if stage.FeeAboveMax? then old(j.balances)
                                else Settle(minted, PaymentsOf(stage, from, j.escrowOf(id), call, j.settings, q)))
              && Recorded(stage, chainId.value, from, id, call, j.settings, now, q, old(j.tickets), j.tickets,
                          old(j.timeoutQueue), j.timeoutQueue, old(j.logs), j.logs)
              && j.pendingZombies == old(j.pendingZombies) + NewZombies(stage, id, call, j.settings)
  {
    if chainId.None? {
      return Err(MissingChainId);
    }
    var filtered := Filtered(j.settings, j.filteredTxs, id);
    var call := Redirected(original, j.settings, filtered);
    var q := QuoteOf(call, j.settings, baseFee);
    r := SubmitQuoted(j, chainId.value, from, id, call, q, filtered, now);
  }
}
