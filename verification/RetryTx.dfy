/**
 Running a retry: take the callvalue out of escrow, and after execution refund the
 prepaid fees against the remaining deposit budget, then delete the ticket or
 restore its escrow.
 */
module RetryTx {
  import opened Words
  import opened Ledger
  import opened Retryables
  import opened L2Pricing
  import opened Journaled
  import opened SubmitRetryable
  import opened RetryGas

  const ARBOS_VERSION_INFRA_FEES: nat := 5

  datatype RetryError =
    | CallGasCostMoreThanGasLimit
    | GasFloorMoreThanGasLimit
    | TicketNotFound
    | CallvalueTransferFailed
    | NonceOverflow
    | MultiGasBacklog

  /** revm's gas record at the end of a transaction. */
  datatype GasRecord = GasRecord(remaining: U64, refunded: int, reservoir: U64)

  function GasUsed(limit: U64, gas: GasRecord): U64 {
    SatSub(SatSub(SatSub(limit, gas.remaining), if gas.refunded < 0 then 0 else gas.refunded), gas.reservoir)
  }

  // ---------- One fee refund ----------

  /** A refund asked of a fee account; `start` is where its range of the deposit budget begins. */
  datatype Refund = Refund(account: Address, amount: nat, start: nat)

  /** The part of a refund that the budget grants to the refund address. */
  function Granted(r: Refund, tx: TxRetry): (n: nat)
    ensures n <= r.amount
  {
    Slice(tx.maxRefund, r.start, r.amount)
  }

  /** Moves a refund out of its account: what the budget grants to the refund address and the rest to the sender,
      each capped by what the account still holds. A zero account pays nothing. */
  function FeeRefunded(b: Balances, r: Refund, tx: TxRetry): Balances {
    if r.account == ZERO_ADDRESS then b else
    var b1 := Pay(b, Payment(r.account, tx.refundTo, Min(Granted(r, tx), BalanceOf(b, r.account))));
    Pay(b1, Payment(r.account, tx.from, Min(r.amount - Granted(r, tx), BalanceOf(b1, r.account))))
  }

  /** What the refund address is paid, and what the sender is paid after that. */
  function ToRefundee(balance: nat, r: Refund, tx: TxRetry): nat {
    if r.account == ZERO_ADDRESS then 0 else Min(Granted(r, tx), balance)
  }

  function ToSender(balance: nat, r: Refund, tx: TxRetry): nat {
    if r.account == ZERO_ADDRESS then 0
    else Min(r.amount - Granted(r, tx), balance - if tx.refundTo == r.account then 0 else ToRefundee(balance, r, tx))
  }

  lemma FeeRefundConserves(b: Balances, r: Refund, tx: TxRetry)
    ensures Total(FeeRefunded(b, r, tx)) == Total(b)
  {
    if r.account != ZERO_ADDRESS {
      var p1 := Payment(r.account, tx.refundTo, Min(Granted(r, tx), BalanceOf(b, r.account)));
      PayConserves(b, p1);
      var b1 := Pay(b, p1);
      PayConserves(b1, Payment(r.account, tx.from, Min(r.amount - Granted(r, tx), BalanceOf(b1, r.account))));
    }
  }

  /** Every other account gains exactly what it is paid as refund address and as sender. */
  lemma FeeRefundOther(b: Balances, r: Refund, tx: TxRetry, other: Address)
    requires other != r.account
    ensures var balance := BalanceOf(b, r.account);
            BalanceOf(FeeRefunded(b, r, tx), other)
            == BalanceOf(b, other) + (if other == tx.refundTo then ToRefundee(balance, r, tx) else 0)
               + (if other == tx.from then ToSender(balance, r, tx) else 0)
  {
    if r.account != ZERO_ADDRESS {
      var p1 := Payment(r.account, tx.refundTo, Min(Granted(r, tx), BalanceOf(b, r.account)));
      var b1 := Pay(b, p1);
      PayBalance(b, p1, other);
      PayBalance(b, p1, r.account);
      PayBalance(b1, Payment(r.account, tx.from, Min(r.amount - Granted(r, tx), BalanceOf(b1, r.account))), other);
    }
  }

  /** The fee account loses exactly that, except for what it pays itself. */
  lemma FeeRefundOwn(b: Balances, r: Refund, tx: TxRetry)
    ensures var balance := BalanceOf(b, r.account);
            BalanceOf(FeeRefunded(b, r, tx), r.account)
            == balance - (if r.account == tx.refundTo then 0 else ToRefundee(balance, r, tx))
               - (if r.account == tx.from then 0 else ToSender(balance, r, tx))
  {
    if r.account != ZERO_ADDRESS {
      var p1 := Payment(r.account, tx.refundTo, Min(Granted(r, tx), BalanceOf(b, r.account)));
      var b1 := Pay(b, p1);
      PayBalance(b, p1, r.account);
      PayBalance(b1, Payment(r.account, tx.from, Min(r.amount - Granted(r, tx), BalanceOf(b1, r.account))), r.account);
    }
  }

  /** Nitro's `refund()` helper with its shrinking budget, of which `start` was asked before. */
  method RetryFeeRefund(j: Journal, account: Address, amount: nat, refundTo: Address, from: Address, budget: nat,
                        ghost start: nat, ghost tx: TxRetry)
    returns (left: nat)
    requires j.Solvent() && budget == tx.maxRefund - Min(tx.maxRefund, start) && refundTo == tx.refundTo && from == tx.from
    modifies j`balances
    ensures j.Solvent() && Total(j.balances) == Total(old(j.balances))
    ensures left == tx.maxRefund - Min(tx.maxRefund, start + amount)
    ensures j.balances == FeeRefunded(old(j.balances), Refund(account, amount, start), tx)
  {
    if amount == 0 {
      return budget;
    }
    var toRefundee := Min(amount, budget);
    left := SatSub(budget, toRefundee);
    if account == ZERO_ADDRESS {
      return;
    }
    TransferUpTo(j, account, refundTo, toRefundee);
    TransferUpTo(j, account, from, SatSub(amount, toRefundee));
  }

  /** Moves what is wanted, or all there is. */
  method TransferUpTo(j: Journal, src: Address, dst: Address, wanted: nat)
    requires j.Solvent()
    modifies j`balances
    ensures j.Solvent() && Total(j.balances) == Total(old(j.balances))
    ensures j.balances == Pay(old(j.balances), Payment(src, dst, Min(wanted, BalanceOf(old(j.balances), src))))
  {
    BalanceLeTotal(j.balances, src);
    var actual := Min(wanted, BalanceOf(j.balances, src));
    if actual > 0 {
      var _ := j.Transfer(src, dst, actual);
    }
  }

  // ---------- Refunds one after the other ----------

  /** Refunds in order, the latest outermost. */
  datatype Refunds = NoRefunds | AndRefund(earlier: Refunds, last: Refund)

  function Refunded(b: Balances, rs: Refunds, tx: TxRetry): Balances {
    match rs
    case NoRefunds => b
    case AndRefund(earlier, r) => FeeRefunded(Refunded(b, earlier, tx), r, tx)
  }

  lemma {:induction false} RefundedConserves(b: Balances, rs: Refunds, tx: TxRetry)
    ensures Total(Refunded(b, rs, tx)) == Total(b)
  {
    if rs.AndRefund? {
      RefundedConserves(b, rs.earlier, tx);
      FeeRefundConserves(Refunded(b, rs.earlier, tx), rs.last, tx);
    }
  }

  /** Nothing is asked of `other`. */
  predicate NotAsked(rs: Refunds, other: Address) {
    match rs
    case NoRefunds => true
    case AndRefund(earlier, r) => NotAsked(earlier, other) && r.account != other
  }

  /** Nothing was taken from `other`, and only the two recipients gain. */
  predicate Spared(b: Balances, b': Balances, tx: TxRetry, other: Address) {
    && BalanceOf(b', other) >= BalanceOf(b, other)
    && (other != tx.refundTo && other != tx.from ==> BalanceOf(b', other) == BalanceOf(b, other))
  }

  lemma {:induction false} RefundsSpare(b: Balances, rs: Refunds, tx: TxRetry, other: Address)
    requires NotAsked(rs, other)
    ensures Spared(b, Refunded(b, rs, tx), tx, other)
  {
    if rs.AndRefund? {
      RefundsSpare(b, rs.earlier, tx, other);
      FeeRefundOther(Refunded(b, rs.earlier, tx), rs.last, tx, other);
    }
  }

  /** All that the refund address is paid in that role. */
  function RolePaid(b: Balances, rs: Refunds, tx: TxRetry): nat {
    match rs
    case NoRefunds => 0
    case AndRefund(earlier, r) =>
      RolePaid(b, earlier, tx) + ToRefundee(BalanceOf(Refunded(b, earlier, tx), r.account), r, tx)
  }

  /** It is what the refund address's balance grows by, when that is no party otherwise. */
  lemma {:induction false} RolePaidIsGained(b: Balances, rs: Refunds, tx: TxRetry)
    requires NotAsked(rs, tx.refundTo) && tx.refundTo != tx.from
    ensures BalanceOf(Refunded(b, rs, tx), tx.refundTo) == BalanceOf(b, tx.refundTo) + RolePaid(b, rs, tx)
  {
    if rs.AndRefund? {
      RolePaidIsGained(b, rs.earlier, tx);
      FeeRefundOther(Refunded(b, rs.earlier, tx), rs.last, tx, tx.refundTo);
    }
  }

  /** The ranges follow one another and end by `end`. */
  predicate InOrder(rs: Refunds, end: nat) {
    match rs
    case NoRefunds => true
    case AndRefund(earlier, r) => InOrder(earlier, r.start) && r.start + r.amount <= end
  }

  lemma {:induction false} RolePaidWithinBudget(b: Balances, rs: Refunds, tx: TxRetry, end: nat)
    requires InOrder(rs, end)
    ensures RolePaid(b, rs, tx) <= Min(tx.maxRefund, end)
  {
    if rs.AndRefund? {
      RolePaidWithinBudget(b, rs.earlier, tx, rs.last.start);
    }
  }

  function AskedOf(rs: Refunds, account: Address): nat {
    match rs
    case NoRefunds => 0
    case AndRefund(earlier, r) => AskedOf(earlier, account) + if r.account == account then r.amount else 0
  }

  /** A solvent fee account that is neither recipient pays exactly what it is asked for. */
  lemma {:induction false} SolventPaysAll(b: Balances, rs: Refunds, tx: TxRetry, account: Address)
    requires account != ZERO_ADDRESS && account != tx.from && account != tx.refundTo
    requires AskedOf(rs, account) <= BalanceOf(b, account)
    ensures BalanceOf(Refunded(b, rs, tx), account) == BalanceOf(b, account) - AskedOf(rs, account)
  {
    if rs.AndRefund? {
      var b1 := Refunded(b, rs.earlier, tx);
      SolventPaysAll(b, rs.earlier, tx, account);
      if rs.last.account == account {
        FeeRefundOwn(b1, rs.last, tx);
      } else {
        FeeRefundOther(b1, rs.last, tx, account);
      }
    }
  }

  // ---------- The fee half of the retry's end hook ----------

  /** The amounts the end hook asks of the fee accounts, and where each starts in the deposit budget. */
  datatype HookAmounts = HookAmounts(fee: nat, gasCost: nat, infra: nat, network: nat, infraActive: bool)

  function HookAmountsOf(tx: TxRetry, s: Settings, gasUsed: U64): HookAmounts {
    var gasLeft := SatSub(tx.gasLimit, gasUsed);
    var whole := SatMul256(tx.gasFeeCap, gasLeft);
    var active := s.arbosVersion >= ARBOS_VERSION_INFRA_FEES && s.infraFeeAccount != ZERO_ADDRESS;
    var infra := if active then Min(SatMul256(Min(s.minBaseFee, tx.gasFeeCap), gasLeft), whole) else 0;
    HookAmounts(tx.submissionFeeRefund, SatMul256(tx.gasFeeCap, gasUsed), infra, whole - infra, active)
  }

  function InfraRefund(s: Settings, h: HookAmounts): Refund {
    Refund(s.infraFeeAccount, h.infra, h.fee + h.gasCost)
  }

  function NetworkRefund(s: Settings, h: HookAmounts): Refund {
    Refund(s.networkFeeAccount, h.network, h.fee + h.gasCost + h.infra)
  }

  /** The submission fee after a success, the infra share of the unused gas, and the rest from the network account. */
  function FeeRefunds(s: Settings, success: bool, h: HookAmounts): Refunds {
    if success then AndRefund(NoRefunds, Refund(s.networkFeeAccount, h.fee, 0)) else NoRefunds
  }

  function WithInfraRefund(rs: Refunds, s: Settings, h: HookAmounts): Refunds {
    if h.infraActive then AndRefund(rs, InfraRefund(s, h)) else rs
  }

  function HookRefunds(s: Settings, success: bool, h: HookAmounts): Refunds {
    AndRefund(WithInfraRefund(FeeRefunds(s, success, h), s, h), NetworkRefund(s, h))
  }

  /** The balances after all fee refunds of a retry. */
  function FeesSettled(b: Balances, tx: TxRetry, s: Settings, success: bool, h: HookAmounts): Balances {
    Refunded(b, HookRefunds(s, success, h), tx)
  }

  /** Only the two fee accounts are asked for anything. */
  lemma OnlyFeeAccountsAreAsked(s: Settings, success: bool, h: HookAmounts, other: Address)
    requires other != s.networkFeeAccount && other != s.infraFeeAccount
    ensures NotAsked(HookRefunds(s, success, h), other)
  {
    assert NotAsked(FeeRefunds(s, success, h), other);
    assert NotAsked(WithInfraRefund(FeeRefunds(s, success, h), s, h), other);
  }

  /** The hook never pays the refund address more than the redeem's refund budget. */
  lemma HookWithinBudget(b: Balances, tx: TxRetry, s: Settings, success: bool, h: HookAmounts)
    ensures RolePaid(b, HookRefunds(s, success, h), tx) <= tx.maxRefund
  {
    var first := FeeRefunds(s, success, h);
    assert InOrder(first, h.fee);
    InOrderLater(first, h.fee, h.fee + h.gasCost);
    assert InOrder(WithInfraRefund(first, s, h), h.fee + h.gasCost + h.infra) by {
      InOrderLater(first, h.fee, h.fee + h.gasCost + h.infra);
    }
    RolePaidWithinBudget(b, HookRefunds(s, success, h), tx, h.fee + h.gasCost + h.infra + h.network);
  }

  lemma InOrderLater(rs: Refunds, end: nat, later: nat)
    requires InOrder(rs, end) && end <= later
    ensures InOrder(rs, later)
  {
  }

  /** The next refund of the hook. */
  method RefundNext(j: Journal, tx: TxRetry, account: Address, amount: nat, budget: nat, ghost r: Refund,
                    ghost done: Refunds, ghost start: Balances)
    returns (left: nat)
    requires j.Solvent() && j.balances == Refunded(start, done, tx)
    requires r.account == account && r.amount == amount && budget == tx.maxRefund - Min(tx.maxRefund, r.start)
    modifies j`balances
    ensures j.Solvent() && Total(j.balances) == Total(old(j.balances))
    ensures left == tx.maxRefund - Min(tx.maxRefund, r.start + r.amount)
    ensures j.balances == Refunded(start, AndRefund(done, r), tx)
  {
    left := RetryFeeRefund(j, account, amount, tx.refundTo, tx.from, budget, r.start, tx);
    assert r == Refund(account, amount, r.start);
  }

  /** A success refunds the submission fee; a failure only charges it against the budget. */
  method RefundSubmissionFee(j: Journal, tx: TxRetry, success: bool, ghost h: HookAmounts) returns (budget: nat)
    requires j.Solvent() && h.fee == tx.submissionFeeRefund
    modifies j`balances
    ensures j.Solvent() && Total(j.balances) == Total(old(j.balances))
    ensures budget == tx.maxRefund - Min(tx.maxRefund, h.fee)
    ensures j.balances == Refunded(old(j.balances), FeeRefunds(j.settings, success, h), tx)
  {
    if success {
      budget := RefundNext(j, tx, j.settings.networkFeeAccount, tx.submissionFeeRefund, tx.maxRefund,
                           Refund(j.settings.networkFeeAccount, h.fee, 0), NoRefunds, j.balances);
    } else {
      budget := SatSub(tx.maxRefund, tx.submissionFeeRefund);
    }
  }

  method SettleFees(j: Journal, tx: TxRetry, success: bool, gasUsed: U64)
    requires j.Solvent()
    modifies j`balances
    ensures j.Solvent() && Total(j.balances) == Total(old(j.balances))
    ensures j.balances == FeesSettled(old(j.balances), tx, j.settings, success, HookAmountsOf(tx, j.settings, gasUsed))
  {
    ghost var h := HookAmountsOf(tx, j.settings, gasUsed);
    var gasLeft := SatSub(tx.gasLimit, gasUsed);
    var budget := RefundSubmissionFee(j, tx, success, h);
    budget := SatSub(budget, SatMul256(tx.gasFeeCap, gasUsed));
    RefundGas(j, tx, SatMul256(tx.gasFeeCap, gasLeft), SatMul256(Min(j.settings.minBaseFee, tx.gasFeeCap), gasLeft),
              budget, h, FeeRefunds(j.settings, success, h), old(j.balances));
  }

  method RefundInfra(j: Journal, tx: TxRetry, wanted: U256, budget: nat, ghost h: HookAmounts, ghost done: Refunds,
                     ghost start: Balances)
    returns (left: nat)
    requires j.Solvent() && j.balances == Refunded(start, done, tx)
    requires h.infraActive == (j.settings.arbosVersion >= ARBOS_VERSION_INFRA_FEES
                               && j.settings.infraFeeAccount != ZERO_ADDRESS)
    requires h.infra == if h.infraActive then wanted else 0
    requires budget == tx.maxRefund - Min(tx.maxRefund, h.fee + h.gasCost)
    modifies j`balances
    ensures j.Solvent() && Total(j.balances) == Total(old(j.balances))
    ensures left == tx.maxRefund - Min(tx.maxRefund, h.fee + h.gasCost + h.infra)
    ensures j.balances == Refunded(start, WithInfraRefund(done, j.settings, h), tx)
  {
    left := budget;
    if j.settings.arbosVersion >= ARBOS_VERSION_INFRA_FEES && j.settings.infraFeeAccount != ZERO_ADDRESS {
      left := RefundNext(j, tx, j.settings.infraFeeAccount, wanted, left, InfraRefund(j.settings, h), done, start);
    }
  }

  /** Unused gas: the infra share first, then the rest from the network account. */
  method RefundGas(j: Journal, tx: TxRetry, whole: U256, infraWanted: U256, budget: nat, ghost h: HookAmounts,
                   ghost done: Refunds, ghost start: Balances)
    requires j.Solvent() && j.balances == Refunded(start, done, tx)
    requires h.infraActive == (j.settings.arbosVersion >= ARBOS_VERSION_INFRA_FEES
                               && j.settings.infraFeeAccount != ZERO_ADDRESS)
    requires h.infra == (if h.infraActive then Min(infraWanted, whole) else 0) && h.network == whole - h.infra
    requires budget == tx.maxRefund - Min(tx.maxRefund, h.fee + h.gasCost)
    modifies j`balances
    ensures j.Solvent() && Total(j.balances) == Total(old(j.balances))
    ensures j.balances == Refunded(start, AndRefund(WithInfraRefund(done, j.settings, h), NetworkRefund(j.settings, h)), tx)
  {
    var active := j.settings.arbosVersion >= ARBOS_VERSION_INFRA_FEES && j.settings.infraFeeAccount != ZERO_ADDRESS;
    var left := RefundInfra(j, tx, Min(infraWanted, whole), budget, h, done, start);
    var networkRefund := if active then SatSub(whole, Min(infraWanted, whole)) else whole;
    left := RefundNext(j, tx, j.settings.networkFeeAccount, networkRefund, left, NetworkRefund(j.settings, h),
                       WithInfraRefund(done, j.settings, h), start);
  }

  // ---------- Ticket life cycle ----------

  datatype World = World(balances: Balances, tickets: Tickets)

  /** The escrow is emptied into the beneficiary's account and the record erased. */
  function Deleted(w: World, id: TicketId, escrow: Address): World {
    var ticket := RecordOf(w.tickets, id);
    if ticket.timeout == 0 then w
    else World(Pay(w.balances, Payment(escrow, ticket.beneficiary, BalanceOf(w.balances, escrow))), w.tickets - {id})
  }

  /** After execution: a success deletes the ticket, a failure puts the callvalue back into escrow. */
  function Concluded(w: World, tx: TxRetry, escrow: Address, success: bool): World {
    if success then Deleted(w, tx.ticketId, escrow)
    else w.(balances := Pay(w.balances, Payment(tx.from, escrow, RecordOf(w.tickets, tx.ticketId).callvalue)))
  }

  /** Why revm rejects a retry before any hook has run. */
  function GasRefusal(tx: TxRetry, s: Settings): Option<RetryError> {
    if IntrinsicGas(tx.to, tx.input, s.arbosVersion) > tx.gasLimit then Some(CallGasCostMoreThanGasLimit)
    else if FloorGas(tx.input, s) > tx.gasLimit then Some(GasFloorMoreThanGasLimit)
    else None
  }

  /** Why the pre-execution hook refuses a retry. */
  function HookRefusal(w: World, nonce: U64, tx: TxRetry, now: U64, escrow: Address): Option<RetryError> {
    var ticket := RecordOf(w.tickets, tx.ticketId);
    if !Exists(ticket, now) then Some(TicketNotFound)
    else if !Funded(w.balances, Payment(escrow, tx.from, ticket.callvalue)) then Some(CallvalueTransferFailed)
    else if tx.to.Some? && nonce == U64_MAX then Some(NonceOverflow)
    else None
  }

  /** Why a retry does not even start to execute: too little gas, or a refusal of its hook. */
  function Refusal(w: World, nonce: U64, tx: TxRetry, now: U64, escrow: Address, s: Settings): Option<RetryError> {
    if GasRefusal(tx, s).Some? then GasRefusal(tx, s) else HookRefusal(w, nonce, tx, now, escrow)
  }

  /** The only check of a retry outside its hooks. */
  method ValidateRetry(tx: TxRetry, s: Settings) returns (err: Option<RetryError>)
    ensures err == GasRefusal(tx, s)
    ensures err.Some? <==> tx.gasLimit < GasNeeded(tx.to, tx.input, s)
  {
    var initial, floor := IntrinsicGas(tx.to, tx.input, s.arbosVersion), FloorGas(tx.input, s);
    if initial > tx.gasLimit {
      return Some(CallGasCostMoreThanGasLimit);
    }
    if floor > tx.gasLimit {
      return Some(GasFloorMoreThanGasLimit);
    }
    err := None;
  }

  method RetryPreExecution(j: Journal, tx: TxRetry, now: U64) returns (err: Option<RetryError>)
    requires j.Solvent()
    modifies j`balances, j`nonces
    ensures var ticket := RecordOf(j.tickets, tx.ticketId);
            var p := Payment(j.escrowOf(tx.ticketId), tx.from, ticket.callvalue);
            var nonce := if tx.from in old(j.nonces) then old(j.nonces)[tx.from] else 0;
            && err == HookRefusal(World(old(j.balances), j.tickets), nonce, tx, now, j.escrowOf(tx.ticketId))
            && (err.None? ==>
                  && j.Solvent()
                  && Total(j.balances) == Total(old(j.balances))
                  && j.balances == Pay(old(j.balances), p)
                  && j.nonces == (if tx.to.Some? then old(j.nonces)[tx.from := nonce + 1] else old(j.nonces)))
  {
    var ticket := RecordOf(j.tickets, tx.ticketId);
    if !Exists(ticket, now) {
      return Some(TicketNotFound);
    }
    if ticket.callvalue > 0 {
      var failure := j.Transfer(j.escrowOf(tx.ticketId), tx.from, ticket.callvalue);
      if failure.Some? {
        return Some(CallvalueTransferFailed);
      }
    }
    if tx.to.Some? {
      var nonce := if tx.from in j.nonces then j.nonces[tx.from] else 0;
      if nonce == U64_MAX {
        return Some(NonceOverflow);
      }
      j.nonces := j.nonces[tx.from := nonce + 1];
    }
    err := None;
  }

  method DeleteRetryable(j: Journal, id: TicketId) returns (existed: bool)
    requires j.Solvent()
    modifies j`balances, j`tickets
    ensures j.Solvent() && Total(j.balances) == Total(old(j.balances))
    ensures existed == (RecordOf(old(j.tickets), id).timeout != 0)
    ensures World(j.balances, j.tickets) == Deleted(World(old(j.balances), old(j.tickets)), id, j.escrowOf(id))
  {
    var ticket := RecordOf(j.tickets, id);
    if ticket.timeout == 0 {
      return false;
    }
    var escrow := j.escrowOf(id);
    BalanceLeTotal(j.balances, escrow);
    var _ := j.Transfer(escrow, ticket.beneficiary, BalanceOf(j.balances, escrow));
    j.tickets := j.tickets - {id};
    existed := true;
  }

  method RetryPostExecution(j: Journal, tx: TxRetry, success: bool) returns (err: Option<RetryError>)
    requires j.Solvent()
    modifies j`balances, j`tickets, j`revived
    ensures Total(j.balances) == Total(old(j.balances))
    ensures World(j.balances, j.tickets)
         == Concluded(World(old(j.balances), old(j.tickets)), tx, j.escrowOf(tx.ticketId), success)
    ensures j.revived == old(j.revived) + Revived(success, tx, j.pendingZombies, j.escrowOf(tx.ticketId))
    ensures var back := Payment(tx.from, j.escrowOf(tx.ticketId), RecordOf(old(j.tickets), tx.ticketId).callvalue);
            err == if success || Funded(old(j.balances), back) then None else Some(CallvalueTransferFailed)
  {
    err := None;
    var zombie := tx.ticketId in j.pendingZombies;
    var callvalue := RecordOf(j.tickets, tx.ticketId).callvalue;
    if success {
      var _ := DeleteRetryable(j, tx.ticketId);
      if zombie {
        j.revived := j.revived + {j.escrowOf(tx.ticketId)};
      }
    } else if callvalue > 0 {
      var failure := j.Transfer(tx.from, j.escrowOf(tx.ticketId), callvalue);
      if failure.Some? {
        err := Some(CallvalueTransferFailed);
      }
    }
  }

  /** A successful redeem in the block of its submission revives the escrow account. */
  function Revived(success: bool, tx: TxRetry, pending: seq<TicketId>, escrow: Address): set<Address> {
    if success && tx.ticketId in pending then {escrow} else {}
  }

  /** The whole end hook of a retry: fee refunds, the backlog grown by the gas used, then the ticket's fate. The
      multi-gas model stops it half way. */
  method RetryEndTxHook(j: Journal, tx: TxRetry, success: bool, gas: GasRecord) returns (err: Option<RetryError>)
    requires j.Solvent()
    modifies j`balances, j`tickets, j`revived, j`pricing
    ensures Total(j.balances) == Total(old(j.balances))
    ensures var gasUsed := GasUsed(tx.gasLimit, gas);
            var h := HookAmountsOf(tx, j.settings, gasUsed);
            var settled := World(FeesSettled(old(j.balances), tx, j.settings, success, h), old(j.tickets));
            var escrow := j.escrowOf(tx.ticketId);
            match Grown(old(j.pricing), gasUsed, j.settings.arbosVersion)
            case None => err == Some(MultiGasBacklog)
            case Some(grown) =>
              && World(j.balances, j.tickets) == Concluded(settled, tx, escrow, success)
              && j.pricing == grown
              && j.revived == old(j.revived) + Revived(success, tx, j.pendingZombies, escrow)
              && var back := Payment(tx.from, escrow, RecordOf(old(j.tickets), tx.ticketId).callvalue);
                 err == if success || Funded(settled.balances, back) then None else Some(CallvalueTransferFailed)
  {
    var gasUsed := GasUsed(tx.gasLimit, gas);
    SettleFees(j, tx, success, gasUsed);
    var grown := GrowBacklog(j.pricing, gasUsed, j.settings.arbosVersion);
    if grown.None? {
      return Some(MultiGasBacklog);
    }
    j.pricing := grown.value;
    err := RetryPostExecution(j, tx, success);
  }
}
