/** What a submission and its auto-redeem do to the refund recipient and the fee accounts together. */
module RetryMoney {
  import opened Words
  import opened Ledger
  import opened Retryables
  import opened SubmitRetryable
  import opened RetryTx

  // ---------- What the refund address is paid ----------

  /** An address that plays no other part in a submission. */
  predicate Bystander(a: Address, from: Address, escrow: Address, s: Settings) {
    a != from && a != escrow && a != s.networkFeeAccount && a != s.infraFeeAccount
  }

  /** In every stage the payments to the refund address are its refunds, and it pays nothing. */
  lemma RoleRefundsAreReceived(stage: Stage, from: Address, escrow: Address, call: SubmitCall, s: Settings, q: Quote)
    requires Bystander(call.feeRefundAddress, from, escrow, s)
    ensures var ps := PaymentsOf(stage, from, escrow, call, s, q);
            && Received(ps, call.feeRefundAddress) == RoleRefunds(stage, AmountsOf(call, s, q))
            && Sent(ps, call.feeRefundAddress) == 0
  {
    var a, r := AmountsOf(call, s, q), call.feeRefundAddress;
    var first := Then(NoPayments, Payment(from, s.networkFeeAccount, q.fee));
    var opening := OpeningPayments(from, call, s, q, a);
    assert Received(first, r) == 0 && Sent(first, r) == 0;
    assert opening == Then(first, Payment(from, r, a.feeRefund));
    assert Received(opening, r) == a.feeRefund && Sent(opening, r) == 0;
    var created := CreationPayments(from, escrow, call, s, q, a);
    assert Received(created, r) == a.feeRefund && Sent(created, r) == 0;
    var ps := PaymentsOf(stage, from, escrow, call, s, q);
    match stage {
      case FeeAboveMax =>
      case Unfunded =>
      case NoEscrow => assert Received(ps.earlier, r) == a.feeRefund && Sent(ps.earlier, r) == 0;
      case NotScheduled =>
      case _ =>
        assert Received(ps.earlier.earlier, r) == a.feeRefund && Sent(ps.earlier.earlier, r) == 0;
        assert Received(ps.earlier, r) == a.feeRefund && Sent(ps.earlier, r) == 0;
    }
  }

  /** So its balance grows by exactly its refunds. */
  lemma SubmitRefundsBalance(minted: Balances, from: Address, escrow: Address, call: SubmitCall, s: Settings, q: Quote,
                             filtered: bool)
    requires Bystander(call.feeRefundAddress, from, escrow, s) && Coherent(call, q)
    requires BalanceOf(minted, from) >= call.depositValue
    ensures var stage := StageOf(minted, from, escrow, call, s, q, filtered);
            BalanceOf(Settle(minted, PaymentsOf(stage, from, escrow, call, s, q)), call.feeRefundAddress)
            == BalanceOf(minted, call.feeRefundAddress) + RoleRefunds(stage, AmountsOf(call, s, q))
  {
    var stage := StageOf(minted, from, escrow, call, s, q, filtered);
    SubmitNeverLacksFunds(minted, from, escrow, call, s, q, filtered);
    RoleRefundsAreReceived(stage, from, escrow, call, s, q);
    SettleBalance(minted, PaymentsOf(stage, from, escrow, call, s, q), call.feeRefundAddress);
  }

  lemma HookRefundsBalance(b: Balances, tx: TxRetry, s: Settings, success: bool, h: HookAmounts)
    requires tx.refundTo != tx.from && tx.refundTo != s.networkFeeAccount && tx.refundTo != s.infraFeeAccount
    ensures BalanceOf(FeesSettled(b, tx, s, success, h), tx.refundTo)
         == BalanceOf(b, tx.refundTo) + RolePaid(b, HookRefunds(s, success, h), tx)
  {
    OnlyFeeAccountsAreAsked(s, success, h, tx.refundTo);
    RolePaidIsGained(b, HookRefunds(s, success, h), tx);
  }

  /** Refunds in that role, over a submission and its auto-redeem, stay within deposit less callvalue for any aliasing
      of addresses and whatever the fee accounts hold when the redeem ends. */
  lemma RolePaymentsWithinDeposit(call: SubmitCall, s: Settings, baseFee: U64, chainId: U64, from: Address, id: TicketId,
                                  atEnd: Balances, success: bool, gasUsed: U64)
    requires QuoteOf(call, s, baseFee).fee <= call.maxSubmissionFee
    ensures var q := QuoteOf(call, s, baseFee);
            var tx := AutoRedeem(chainId, from, id, call, s, q);
            RoleRefunds(Scheduled, AmountsOf(call, s, q))
            + RolePaid(atEnd, HookRefunds(s, success, HookAmountsOf(tx, s, gasUsed)), tx)
            <= Refundable(call)
  {
    var q := QuoteOf(call, s, baseFee);
    RefundsWithinDeposit(Scheduled, call, s, q);
    SlicesPartition(call, s, q);
    var tx := AutoRedeem(chainId, from, id, call, s, q);
    HookWithinBudget(atEnd, tx, s, success, HookAmountsOf(tx, s, gasUsed));
  }

  /** On the ledger: what a scheduled submission and the end hook of its redeem add to the refund address's balance
      is together at most the deposit less the callvalue. */
  lemma RefundsNeverExceedDeposit(minted: Balances, atEnd: Balances, from: Address, escrow: Address, call: SubmitCall,
                                  s: Settings, baseFee: U64, chainId: U64, id: TicketId, success: bool, gasUsed: U64)
    requires Bystander(call.feeRefundAddress, from, escrow, s) && BalanceOf(minted, from) >= call.depositValue
    requires StageOf(minted, from, escrow, call, s, QuoteOf(call, s, baseFee), false).Scheduled?
    ensures var q := QuoteOf(call, s, baseFee);
            var tx := AutoRedeem(chainId, from, id, call, s, q);
            var submitted := Settle(minted, PaymentsOf(Scheduled, from, escrow, call, s, q));
            var refunded := FeesSettled(atEnd, tx, s, success, HookAmountsOf(tx, s, gasUsed));
            BalanceOf(submitted, call.feeRefundAddress) - BalanceOf(minted, call.feeRefundAddress)
            + BalanceOf(refunded, call.feeRefundAddress) - BalanceOf(atEnd, call.feeRefundAddress)
            <= call.depositValue - Min(call.depositValue, call.retryValue)
  {
    var q := QuoteOf(call, s, baseFee);
    var tx := AutoRedeem(chainId, from, id, call, s, q);
    SubmitRefundsBalance(minted, from, escrow, call, s, q, false);
    HookRefundsBalance(atEnd, tx, s, success, HookAmountsOf(tx, s, gasUsed));
    RolePaymentsWithinDeposit(call, s, baseFee, chainId, from, id, atEnd, success, gasUsed);
  }

  // ---------- What the fee accounts keep ----------

  /** What a scheduled submission brings one fee account. */
  function SubmitIncome(account: Address, s: Settings, q: Quote, a: Amounts): nat {
    (if account == s.networkFeeAccount then q.fee + a.networkCost else 0)
    + (if account == s.infraFeeAccount then a.infraCost else 0)
  }

  lemma SubmitIncomeIsKept(minted: Balances, account: Address, from: Address, escrow: Address, call: SubmitCall,
                           s: Settings, q: Quote)
    requires Affordable(minted, PaymentsOf(Scheduled, from, escrow, call, s, q))
    requires account != from && account != call.feeRefundAddress && account != escrow
    ensures BalanceOf(Settle(minted, PaymentsOf(Scheduled, from, escrow, call, s, q)), account)
         == BalanceOf(minted, account) + SubmitIncome(account, s, q, AmountsOf(call, s, q))
  {
    var ps := PaymentsOf(Scheduled, from, escrow, call, s, q);
    SettleBalance(minted, ps, account);
    var a := AmountsOf(call, s, q);
    var first := Then(NoPayments, Payment(from, s.networkFeeAccount, q.fee));
    assert Received(first, account) == if account == s.networkFeeAccount then q.fee else 0;
    assert Sent(first, account) == 0;
    var opening := OpeningPayments(from, call, s, q, a);
    assert opening == Then(first, Payment(from, call.feeRefundAddress, a.feeRefund));
    assert Received(opening, account) == if account == s.networkFeeAccount then q.fee else 0;
    assert Sent(opening, account) == 0;
    var created := CreationPayments(from, escrow, call, s, q, a);
    assert Received(created, account) == Received(opening, account) && Sent(created, account) == 0;
    var gas1 := Then(created, Payment(from, s.infraFeeAccount, a.infraCost));
    var gas2 := Then(gas1, Payment(from, s.networkFeeAccount, a.networkCost));
    assert Received(gas1, account) == Received(opening, account) + if account == s.infraFeeAccount then a.infraCost else 0;
    assert Sent(gas1, account) == 0;
    assert Received(gas2, account) == Received(gas1, account) + if account == s.networkFeeAccount then a.networkCost else 0;
    assert Sent(gas2, account) == 0;
    assert ps == Then(gas2, Payment(from, call.feeRefundAddress, a.gasPriceRefund));
  }

  /** What the end hook asks of one fee account. */
  function Asked(account: Address, s: Settings, success: bool, h: HookAmounts): nat {
    (if success && account == s.networkFeeAccount then h.fee else 0)
    + (if h.infraActive && account == s.infraFeeAccount then h.infra else 0)
    + (if account == s.networkFeeAccount then h.network else 0)
  }

  lemma AskedIs(account: Address, s: Settings, success: bool, h: HookAmounts)
    ensures AskedOf(HookRefunds(s, success, h), account) == Asked(account, s, success, h)
  {
    var first := FeeRefunds(s, success, h);
    assert AskedOf(first, account) == if success && account == s.networkFeeAccount then h.fee else 0;
    assert AskedOf(WithInfraRefund(first, s, h), account)
        == AskedOf(first, account) + if h.infraActive && account == s.infraFeeAccount then h.infra else 0;
  }

  /** A solvent fee account pays exactly what it is asked for. */
  lemma HookOutflow(b: Balances, account: Address, tx: TxRetry, s: Settings, success: bool, h: HookAmounts)
    requires account != ZERO_ADDRESS && account != tx.from && account != tx.refundTo
    requires Asked(account, s, success, h) <= BalanceOf(b, account)
    ensures BalanceOf(FeesSettled(b, tx, s, success, h), account) == BalanceOf(b, account) - Asked(account, s, success, h)
  {
    AskedIs(account, s, success, h);
    SolventPaysAll(b, HookRefunds(s, success, h), tx, account);
  }

  lemma MulSplit(price: nat, x: nat, y: nat)
    ensures price * (x + y) == price * x + price * y
  {
  }

  /** The three kinds of gas money, before and after, without saturation. */
  lemma GasMoney(call: SubmitCall, s: Settings, baseFee: U64, tx: TxRetry, gasUsed: U64)
    requires tx.gasFeeCap == baseFee && tx.gasLimit == call.gasLimit && gasUsed <= call.gasLimit
    ensures var q := QuoteOf(call, s, baseFee);
            var h := HookAmountsOf(tx, s, gasUsed);
            var k := Min(s.minBaseFee, baseFee);
            var gasLeft := call.gasLimit - gasUsed;
            && q.gasCost == baseFee * gasUsed + baseFee * gasLeft
            && q.infraWanted == k * gasUsed + k * gasLeft
            && k * gasUsed <= baseFee * gasUsed && k * gasLeft <= baseFee * gasLeft
            && h.infra == (if h.infraActive then k * gasLeft else 0)
            && h.infra + h.network == baseFee * gasLeft
  {
    var k := Min(s.minBaseFee, baseFee);
    var gasLeft := call.gasLimit - gasUsed;
    NoSaturation(baseFee, call.gasLimit);
    NoSaturation(k, call.gasLimit);
    NoSaturation(baseFee, gasLeft);
    NoSaturation(k, gasLeft);
    MulSplit(baseFee, gasUsed, gasLeft);
    MulSplit(k, gasUsed, gasLeft);
    MulLe(k, baseFee, gasUsed);
    MulLe(k, baseFee, gasLeft);
  }

  /** The share of the infra account that a pre-version-5 redeem fails to give back. */
  function StuckInfra(s: Settings, baseFee: U64, gasLeft: nat): nat {
    if s.infraFeeAccount != ZERO_ADDRESS && s.arbosVersion < ARBOS_VERSION_INFRA_FEES
    then Min(s.minBaseFee, baseFee) * gasLeft else 0
  }

  /** What the infra account is owed for `gasUsed`. */
  function InfraDue(s: Settings, baseFee: U64, gasUsed: nat): nat {
    if s.infraFeeAccount == ZERO_ADDRESS then 0 else Min(s.minBaseFee, baseFee) * gasUsed
  }

  /** Over a submission and its auto-redeem each solvent fee account keeps the price of the gas really used,
      split between infra and network, and the network account keeps the submission fee exactly when the
      redeem failed. Before ArbOS 5 the infra account also keeps the price of the unused gas, at the
      network account's expense. Accounts may coincide. */
  lemma FeeAccountsNet(minted: Balances, atEnd: Balances, account: Address, from: Address, escrow: Address,
                       call: SubmitCall, s: Settings, baseFee: U64, chainId: U64, id: TicketId, success: bool,
                       gasUsed: U64)
    requires gasUsed <= call.gasLimit
    requires account != ZERO_ADDRESS && account != from && account != call.feeRefundAddress && account != escrow
    requires BalanceOf(minted, from) >= call.depositValue
    requires StageOf(minted, from, escrow, call, s, QuoteOf(call, s, baseFee), false).Scheduled?
    requires var tx := AutoRedeem(chainId, from, id, call, s, QuoteOf(call, s, baseFee));
             Asked(account, s, success, HookAmountsOf(tx, s, gasUsed)) <= BalanceOf(atEnd, account)
    ensures var q := QuoteOf(call, s, baseFee);
            var tx := AutoRedeem(chainId, from, id, call, s, q);
            var submitted := Settle(minted, PaymentsOf(Scheduled, from, escrow, call, s, q));
            var refunded := FeesSettled(atEnd, tx, s, success, HookAmountsOf(tx, s, gasUsed));
            var due := InfraDue(s, baseFee, gasUsed);
            var stuck := StuckInfra(s, baseFee, call.gasLimit - gasUsed);
            BalanceOf(submitted, account) - BalanceOf(minted, account)
            + BalanceOf(refunded, account) - BalanceOf(atEnd, account)
            == (if account == s.infraFeeAccount then due + stuck else 0)
               + (if account == s.networkFeeAccount
                  then baseFee * gasUsed - due - stuck + (if success then 0 else q.fee) else 0)
  {
    var q := QuoteOf(call, s, baseFee);
    var tx := AutoRedeem(chainId, from, id, call, s, q);
    SubmitNeverLacksFunds(minted, from, escrow, call, s, q, false);
    SubmitIncomeIsKept(minted, account, from, escrow, call, s, q);
    HookOutflow(atEnd, account, tx, s, success, HookAmountsOf(tx, s, gasUsed));
    NetArithmetic(account, call, s, baseFee, tx, success, gasUsed);
  }

  lemma NetArithmetic(account: Address, call: SubmitCall, s: Settings, baseFee: U64, tx: TxRetry, success: bool,
                      gasUsed: U64)
    requires gasUsed <= call.gasLimit && account != ZERO_ADDRESS
    requires tx.gasFeeCap == baseFee && tx.gasLimit == call.gasLimit
    requires tx.submissionFeeRefund == QuoteOf(call, s, baseFee).fee
    ensures var q := QuoteOf(call, s, baseFee);
            var due := InfraDue(s, baseFee, gasUsed);
            var stuck := StuckInfra(s, baseFee, call.gasLimit - gasUsed);
            SubmitIncome(account, s, q, AmountsOf(call, s, q)) - Asked(account, s, success, HookAmountsOf(tx, s, gasUsed))
            == (if account == s.infraFeeAccount then due + stuck else 0)
               + (if account == s.networkFeeAccount
                  then baseFee * gasUsed - due - stuck + (if success then 0 else q.fee) else 0)
  {
    GasMoney(call, s, baseFee, tx, gasUsed);
    var q := QuoteOf(call, s, baseFee);
    var a := AmountsOf(call, s, q);
    var k := Min(s.minBaseFee, baseFee);
    assert a.infraCost == if s.infraFeeAccount == ZERO_ADDRESS then 0 else q.infraWanted;
  }
}
