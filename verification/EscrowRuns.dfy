/** Over every run of submissions and retries, each live ticket's callvalue stays in its escrow. */
module EscrowRuns {
  import opened Words
  import opened Ledger
  import opened Retryables
  import opened Journaled
  import opened SubmitRetryable
  import opened RetryGas
  import opened RetryTx

  /** Everything a run keeps fixed: the tickets it may create, where their escrows live and who receives fees. */
  datatype Chain = Chain(ids: set<TicketId>, escrowOf: TicketId -> Address, settings: Settings)

  predicate IsEscrow(c: Chain, a: Address) {
    exists id :: id in c.ids && c.escrowOf(id) == a
  }

  /** Escrow addresses are hash outputs: no two of the run's tickets share one, and none is a fee account. */
  predicate Proper(c: Chain) {
    && (forall id, id' :: id in c.ids && id' in c.ids && c.escrowOf(id) == c.escrowOf(id') ==> id == id')
    && !IsEscrow(c, c.settings.networkFeeAccount)
    && !IsEscrow(c, c.settings.infraFeeAccount)
  }

  /** A retryable's sender is neither a fee account nor an escrow. */
  predicate OrdinarySender(c: Chain, a: Address) {
    a != c.settings.networkFeeAccount && a != c.settings.infraFeeAccount && !IsEscrow(c, a)
  }

  /** The invariant: every live ticket is backed by its own escrow. */
  ghost predicate Backed(c: Chain, w: World) {
    && Total(w.balances) <= U256_MAX
    && forall id | id in w.tickets ::
         && id in c.ids
         && w.tickets[id].timeout != 0
         && OrdinarySender(c, w.tickets[id].from)
         && w.tickets[id].callvalue <= BalanceOf(w.balances, c.escrowOf(id))
  }

  /** What execution outside the retryable hooks may do: it never takes from an escrow whose ticket
      survives, creates no ticket, and changes no surviving ticket's sender or callvalue. It may cancel,
      reap or keep tickets alive, and move any other money. */
  ghost predicate LeavesEscrows(c: Chain, w: World, w': World) {
    && Total(w'.balances) <= U256_MAX
    && forall id | id in w'.tickets ::
         && id in w.tickets
         && w'.tickets[id].timeout != 0
         && w'.tickets[id].from == w.tickets[id].from
         && w'.tickets[id].callvalue == w.tickets[id].callvalue
         && BalanceOf(w'.balances, c.escrowOf(id)) >= BalanceOf(w.balances, c.escrowOf(id))
  }

  datatype Step =
    | Submit(from: Address, id: TicketId, call: SubmitCall, now: U64, baseFee: U64, filtered: bool)
    | FailedRetry(tx: TxRetry, now: U64, gasUsed: U64)
    | SuccessfulRetry(tx: TxRetry, now: U64, gasUsed: U64, executed: World)
    | Elsewhere(after: World)

  // ---------- The effect of one step ----------

  function Submitted(c: Chain, w: World, from: Address, id: TicketId, original: SubmitCall, now: U64, baseFee: U64,
                     filtered: bool): World
  {
    var call := Redirected(original, c.settings, filtered);
    SubmittedCall(c, w, from, id, call, now, QuoteOf(call, c.settings, baseFee), filtered)
  }

  function SubmittedCall(c: Chain, w: World, from: Address, id: TicketId, call: SubmitCall, now: U64, q: Quote,
                         filtered: bool): World
  {
    var minted := Mint(w.balances, from, call.depositValue);
    var stage := StageOf(minted, from, c.escrowOf(id), call, c.settings, q, filtered);
    if stage.FeeAboveMax? then w
    else World(Settle(minted, PaymentsOf(stage, from, c.escrowOf(id), call, c.settings, q)),
               if CreatesTicket(stage) then w.tickets[id := NewTicket(stage, from, call, now)] else w.tickets)
  }

  /** The state in which a retry starts executing. */
  function Released(c: Chain, w: World, tx: TxRetry): World {
    var callvalue := RecordOf(w.tickets, tx.ticketId).callvalue;
    w.(balances := Pay(w.balances, Payment(c.escrowOf(tx.ticketId), tx.from, callvalue)))
  }

  /** The state after the end hook of a retry whose execution ended in `w`. */
  function Hooked(c: Chain, w: World, tx: TxRetry, success: bool, gasUsed: U64): World {
    var h := HookAmountsOf(tx, c.settings, gasUsed);
    Concluded(w.(balances := FeesSettled(w.balances, tx, c.settings, success, h)), tx, c.escrowOf(tx.ticketId), success)
  }

  /** A retry is scheduled from the stored record of a ticket that still exists when it runs. */
  predicate RetryOf(w: World, tx: TxRetry, now: U64) {
    && tx.ticketId in w.tickets
    && Exists(w.tickets[tx.ticketId], now)
    && tx.from == w.tickets[tx.ticketId].from
  }

  ghost predicate Allowed(c: Chain, w: World, step: Step) {
    match step
    case Submit(from, id, call, _, _, _) =>
      id in c.ids && id !in w.tickets && OrdinarySender(c, from) && Total(w.balances) + call.depositValue <= U256_MAX
    case FailedRetry(tx, now, gasUsed) => RetryOf(w, tx, now)
    case SuccessfulRetry(tx, now, gasUsed, executed) =>
      RetryOf(w, tx, now) && LeavesEscrows(c, Released(c, w, tx), executed)
    case Elsewhere(after) => LeavesEscrows(c, w, after)
  }

  /** A failed retry's execution is rolled back, so its end hook runs on the released state. */
  function After(c: Chain, w: World, step: Step): World {
    match step
    case Submit(from, id, call, now, baseFee, filtered) => Submitted(c, w, from, id, call, now, baseFee, filtered)
    case FailedRetry(tx, _, gasUsed) => Hooked(c, Released(c, w, tx), tx, false, gasUsed)
    case SuccessfulRetry(tx, _, gasUsed, executed) => Hooked(c, executed, tx, true, gasUsed)
    case Elsewhere(after) => after
  }

  // ---------- Submissions ----------

  /** A submission's payments never come out of a third account. */
  lemma SubmitSpares(minted: Balances, other: Address, stage: Stage, from: Address, escrow: Address, call: SubmitCall,
                     s: Settings, q: Quote)
    requires other != from && other != s.networkFeeAccount
    ensures BalanceOf(Settle(minted, PaymentsOf(stage, from, escrow, call, s, q)), other) >= BalanceOf(minted, other)
  {
    var opening := OpeningPayments(from, call, s, q, AmountsOf(call, s, q));
    assert NeverPays(opening.earlier, other);
    assert NeverPays(opening, other);
    var ps := PaymentsOf(stage, from, escrow, call, s, q);
    if CreatesTicket(stage) {
      assert NeverPays(CreationPayments(from, escrow, call, s, q, AmountsOf(call, s, q)), other);
    }
    if stage.ChargedButFiltered? || stage.Scheduled? {
      assert NeverPays(ps.earlier.earlier, other);
    }
    if !stage.FeeAboveMax? && !stage.Unfunded? {
      assert NeverPays(ps.earlier, other);
    }
    assert NeverPays(ps, other);
    SettleSpares(minted, ps, other);
  }

  predicate NeverPays(ps: Payments, other: Address) {
    match ps
    case NoPayments => true
    case Then(earlier, p) => p.src != other && NeverPays(earlier, other)
  }

  lemma {:induction false} SettleSpares(b: Balances, ps: Payments, other: Address)
    ensures NeverPays(ps, other) ==> BalanceOf(Settle(b, ps), other) >= BalanceOf(b, other)
    decreases ps
  {
    if ps.Then? {
      SettleSpares(b, ps.earlier, other);
    }
  }

  /** A created ticket's escrow holds its callvalue. */
  lemma SubmitFillsEscrow(minted: Balances, from: Address, escrow: Address, call: SubmitCall, s: Settings, q: Quote,
                          filtered: bool)
    requires Coherent(call, q) && BalanceOf(minted, from) >= call.depositValue
    requires escrow != from && escrow != s.networkFeeAccount
    ensures var stage := StageOf(minted, from, escrow, call, s, q, filtered);
            CreatesTicket(stage) ==>
              BalanceOf(Settle(minted, PaymentsOf(stage, from, escrow, call, s, q)), escrow) >= call.retryValue
  {
    var stage := StageOf(minted, from, escrow, call, s, q, filtered);
    if CreatesTicket(stage) {
      var a := AmountsOf(call, s, q);
      var created := CreationPayments(from, escrow, call, s, q, a);
      SenderCoversBudget(minted, from, escrow, call, s, q, filtered, a);
      EscrowPaid(Settle(minted, created.earlier), created.last);
      var b := Settle(minted, created);
      assert BalanceOf(b, escrow) >= call.retryValue;
      if stage.NotScheduled? {
        PaySpares(b, Payment(from, call.feeRefundAddress, a.gasCostRefund), escrow);
      } else {
        var b1 := Pay(b, Payment(from, s.infraFeeAccount, a.infraCost));
        var b2 := Pay(b1, Payment(from, s.networkFeeAccount, a.networkCost));
        PaySpares(b, Payment(from, s.infraFeeAccount, a.infraCost), escrow);
        PaySpares(b1, Payment(from, s.networkFeeAccount, a.networkCost), escrow);
        PaySpares(b2, Payment(from, call.feeRefundAddress, a.gasPriceRefund), escrow);
        assert Settle(minted, PaymentsOf(stage, from, escrow, call, s, q).earlier.earlier) == b1;
      }
    }
  }

  lemma PaySpares(b: Balances, p: Payment, other: Address)
    requires p.src != other
    ensures BalanceOf(Pay(b, p), other) >= BalanceOf(b, other)
  {
  }

  lemma EscrowPaid(b: Balances, p: Payment)
    requires Funded(b, p) && p.src != p.dst
    ensures BalanceOf(Pay(b, p), p.dst) >= p.amount
  {
  }

  lemma SubmitKeepsBacked(c: Chain, w: World, from: Address, id: TicketId, original: SubmitCall, now: U64, baseFee: U64,
                          filtered: bool)
    requires Proper(c) && Backed(c, w)
    requires id in c.ids && id !in w.tickets && OrdinarySender(c, from) && Total(w.balances) + original.depositValue <= U256_MAX
    ensures Backed(c, Submitted(c, w, from, id, original, now, baseFee, filtered))
  {
    var call := Redirected(original, c.settings, filtered);
    SubmittedCallKeepsBacked(c, w, from, id, call, now, QuoteOf(call, c.settings, baseFee), filtered);
  }

  lemma SubmittedCallKeepsBacked(c: Chain, w: World, from: Address, id: TicketId, call: SubmitCall, now: U64, q: Quote,
                                 filtered: bool)
    requires Proper(c) && Backed(c, w) && Coherent(call, q)
    requires id in c.ids && id !in w.tickets && OrdinarySender(c, from) && Total(w.balances) + call.depositValue <= U256_MAX
    ensures Backed(c, SubmittedCall(c, w, from, id, call, now, q, filtered))
  {
    var minted := Mint(w.balances, from, call.depositValue);
    var stage := StageOf(minted, from, c.escrowOf(id), call, c.settings, q, filtered);
    var settled := Settle(minted, PaymentsOf(stage, from, c.escrowOf(id), call, c.settings, q));
    MintAdds(w.balances, from, call.depositValue);
    SettleConserves(minted, PaymentsOf(stage, from, c.escrowOf(id), call, c.settings, q));
    SubmissionPays(c, minted, from, id, call, q, filtered);
    SettledIsBacked(c, w, minted, settled, stage, from, id, call, now);
  }

  /** The new escrow is filled and no other is touched. */
  lemma SubmissionPays(c: Chain, minted: Balances, from: Address, id: TicketId, call: SubmitCall, q: Quote, filtered: bool)
    requires Proper(c) && id in c.ids && OrdinarySender(c, from) && Coherent(call, q)
    requires BalanceOf(minted, from) >= call.depositValue
    ensures var stage := StageOf(minted, from, c.escrowOf(id), call, c.settings, q, filtered);
            var settled := Settle(minted, PaymentsOf(stage, from, c.escrowOf(id), call, c.settings, q));
            && (CreatesTicket(stage) ==> BalanceOf(settled, c.escrowOf(id)) >= call.retryValue)
            && (forall other :: other in c.ids ==> BalanceOf(settled, c.escrowOf(other)) >= BalanceOf(minted, c.escrowOf(other)))
  {
    var escrow := c.escrowOf(id);
    var stage := StageOf(minted, from, escrow, call, c.settings, q, filtered);
    assert IsEscrow(c, escrow);
    SubmitFillsEscrow(minted, from, escrow, call, c.settings, q, filtered);
    forall other | other in c.ids
      ensures BalanceOf(Settle(minted, PaymentsOf(stage, from, escrow, call, c.settings, q)), c.escrowOf(other))
           >= BalanceOf(minted, c.escrowOf(other))
    {
      assert IsEscrow(c, c.escrowOf(other));
      SubmitSpares(minted, c.escrowOf(other), stage, from, escrow, call, c.settings, q);
    }
  }

  /** Escrows that did not shrink back the old tickets, and a filled one the new. */
  lemma SettledIsBacked(c: Chain, w: World, minted: Balances, settled: Balances, stage: Stage, from: Address, id: TicketId,
                        call: SubmitCall, now: U64)
    requires Backed(c, w) && id in c.ids && OrdinarySender(c, from) && Total(settled) <= U256_MAX
    requires minted == Mint(w.balances, from, call.depositValue)
    requires CreatesTicket(stage) ==> BalanceOf(settled, c.escrowOf(id)) >= call.retryValue
    requires forall other :: other in c.ids ==> BalanceOf(settled, c.escrowOf(other)) >= BalanceOf(minted, c.escrowOf(other))
    ensures Backed(c, World(settled, if CreatesTicket(stage) then w.tickets[id := NewTicket(stage, from, call, now)]
                                     else w.tickets))
  {
    assert forall a: Address :: BalanceOf(minted, a) >= BalanceOf(w.balances, a);
  }

  // ---------- Retries ----------

  /** Fee refunds only ever come out of fee accounts. */
  lemma FeesSpare(b: Balances, tx: TxRetry, s: Settings, success: bool, h: HookAmounts, other: Address)
    requires other != s.networkFeeAccount && other != s.infraFeeAccount
    ensures Spared(b, FeesSettled(b, tx, s, success, h), tx, other)
  {
    OnlyFeeAccountsAreAsked(s, success, h, other);
    RefundsSpare(b, HookRefunds(s, success, h), tx, other);
  }

  /** Neither transfer of a live ticket's callvalue can fail: out of escrow before execution, and back into
      it after a failure. A failed retry leaves the escrow what it was, plus any fee refund sent to it. */
  lemma RetryTransfersSucceed(c: Chain, w: World, tx: TxRetry, now: U64, gasUsed: U64)
    requires Proper(c) && Backed(c, w) && RetryOf(w, tx, now)
    ensures var callvalue := w.tickets[tx.ticketId].callvalue;
            var escrow := c.escrowOf(tx.ticketId);
            var released := Released(c, w, tx);
            var h := HookAmountsOf(tx, c.settings, gasUsed);
            var refunded := FeesSettled(released.balances, tx, c.settings, false, h);
            && TransferVerdict(w.balances, Payment(escrow, tx.from, callvalue)) == None
            && TransferVerdict(refunded, Payment(tx.from, escrow, callvalue)) == None
            && BalanceOf(Hooked(c, released, tx, false, gasUsed).balances, escrow) >= BalanceOf(w.balances, escrow)
            && (tx.refundTo != escrow ==>
                  BalanceOf(Hooked(c, released, tx, false, gasUsed).balances, escrow) == BalanceOf(w.balances, escrow))
  {
    var callvalue := w.tickets[tx.ticketId].callvalue;
    var escrow := c.escrowOf(tx.ticketId);
    assert IsEscrow(c, escrow);
    var h := HookAmountsOf(tx, c.settings, gasUsed);
    var out := Payment(escrow, tx.from, callvalue);
    OnlyFundsMatter(w.balances, out);
    PayConserves(w.balances, out);
    var released := Pay(w.balances, out);
    FeesSpare(released, tx, c.settings, false, h, tx.from);
    FeesSpare(released, tx, c.settings, false, h, escrow);
    RefundedConserves(released, HookRefunds(c.settings, false, h), tx);
    OnlyFundsMatter(FeesSettled(released, tx, c.settings, false, h), Payment(tx.from, escrow, callvalue));
  }

  /** Taking the callvalue out of its own escrow leaves every other ticket backed. */
  lemma ReleaseSparesOthers(c: Chain, w: World, tx: TxRetry, id: TicketId)
    requires Proper(c) && id in c.ids && tx.ticketId in c.ids && id != tx.ticketId
    ensures BalanceOf(Released(c, w, tx).balances, c.escrowOf(id)) >= BalanceOf(w.balances, c.escrowOf(id))
  {
  }

  lemma FailedRetryKeepsBacked(c: Chain, w: World, tx: TxRetry, now: U64, gasUsed: U64)
    requires Proper(c) && Backed(c, w) && RetryOf(w, tx, now)
    ensures Backed(c, Hooked(c, Released(c, w, tx), tx, false, gasUsed))
  {
    var released := Released(c, w, tx);
    var h := HookAmountsOf(tx, c.settings, gasUsed);
    var w' := Hooked(c, released, tx, false, gasUsed);
    var refunded := FeesSettled(released.balances, tx, c.settings, false, h);
    var back := Payment(tx.from, c.escrowOf(tx.ticketId), w.tickets[tx.ticketId].callvalue);
    RetryTransfersSucceed(c, w, tx, now, gasUsed);
    RefundedConserves(released.balances, HookRefunds(c.settings, false, h), tx);
    PayConserves(w.balances, Payment(c.escrowOf(tx.ticketId), tx.from, w.tickets[tx.ticketId].callvalue));
    PayConserves(refunded, back);
    forall id | id in w.tickets && id != tx.ticketId
      ensures BalanceOf(w'.balances, c.escrowOf(id)) >= BalanceOf(w.balances, c.escrowOf(id))
    {
      assert IsEscrow(c, c.escrowOf(id));
      ReleaseSparesOthers(c, w, tx, id);
      FeesSpare(released.balances, tx, c.settings, false, h, c.escrowOf(id));
      PaySpares(refunded, back, c.escrowOf(id));
    }
  }

  lemma SuccessfulRetryKeepsBacked(c: Chain, w: World, tx: TxRetry, now: U64, gasUsed: U64, executed: World)
    requires Proper(c) && Backed(c, w) && RetryOf(w, tx, now)
    requires LeavesEscrows(c, Released(c, w, tx), executed)
    ensures Backed(c, Hooked(c, executed, tx, true, gasUsed))
    ensures tx.ticketId !in Hooked(c, executed, tx, true, gasUsed).tickets
  {
    var h := HookAmountsOf(tx, c.settings, gasUsed);
    var refunded := executed.(balances := FeesSettled(executed.balances, tx, c.settings, true, h));
    var w' := Hooked(c, executed, tx, true, gasUsed);
    var escrow := c.escrowOf(tx.ticketId);
    RefundedConserves(executed.balances, HookRefunds(c.settings, true, h), tx);
    var release := Payment(escrow, RecordOf(executed.tickets, tx.ticketId).beneficiary, BalanceOf(refunded.balances, escrow));
    PayConserves(refunded.balances, release);
    forall id | id in executed.tickets && id != tx.ticketId
      ensures BalanceOf(w'.balances, c.escrowOf(id)) >= BalanceOf(w.balances, c.escrowOf(id))
    {
      assert IsEscrow(c, c.escrowOf(id));
      ReleaseSparesOthers(c, w, tx, id);
      FeesSpare(executed.balances, tx, c.settings, true, h, c.escrowOf(id));
      PaySpares(refunded.balances, release, c.escrowOf(id));
    }
  }

  // ---------- Whole runs ----------

  ghost predicate Run(c: Chain, w: World, steps: seq<Step>)
    decreases |steps|
  {
    steps == [] || (Allowed(c, w, steps[0]) && Run(c, After(c, w, steps[0]), steps[1..]))
  }

  ghost function WorldAfter(c: Chain, w: World, steps: seq<Step>): World
    requires Run(c, w, steps)
    decreases |steps|
  {
    if steps == [] then w else WorldAfter(c, After(c, w, steps[0]), steps[1..])
  }

  lemma StepKeepsBacked(c: Chain, w: World, step: Step)
    requires Proper(c) && Backed(c, w) && Allowed(c, w, step)
    ensures Backed(c, After(c, w, step))
  {
    match step
    case Submit(from, id, call, now, baseFee, filtered) => SubmitKeepsBacked(c, w, from, id, call, now, baseFee, filtered);
    case FailedRetry(tx, now, gasUsed) => FailedRetryKeepsBacked(c, w, tx, now, gasUsed);
    case SuccessfulRetry(tx, now, gasUsed, executed) => SuccessfulRetryKeepsBacked(c, w, tx, now, gasUsed, executed);
    case Elsewhere(_) =>
  }

  /** In every run, between any two transactions, every live ticket's escrow holds its callvalue. */
  lemma {:induction false} RunsKeepTicketsBacked(c: Chain, w: World, steps: seq<Step>)
    requires Proper(c) && Backed(c, w) && Run(c, w, steps)
    ensures Backed(c, WorldAfter(c, w, steps))
    decreases |steps|
  {
    if steps != [] {
      StepKeepsBacked(c, w, steps[0]);
      RunsKeepTicketsBacked(c, After(c, w, steps[0]), steps[1..]);
    }
  }

  /** So neither transfer of a live ticket's callvalue fails, however the run went before. */
  lemma LiveTicketTransfersNeverFail(c: Chain, w: World, steps: seq<Step>, tx: TxRetry, now: U64, gasUsed: U64)
    requires Proper(c) && Run(c, w, steps) && w.tickets == map[] && Total(w.balances) <= U256_MAX
    requires RetryOf(WorldAfter(c, w, steps), tx, now)
    ensures var v := WorldAfter(c, w, steps);
            var escrow := c.escrowOf(tx.ticketId);
            var callvalue := v.tickets[tx.ticketId].callvalue;
            var refunded := FeesSettled(Released(c, v, tx).balances, tx, c.settings, false,
                                        HookAmountsOf(tx, c.settings, gasUsed));
            && TransferVerdict(v.balances, Payment(escrow, tx.from, callvalue)) == None
            && TransferVerdict(refunded, Payment(tx.from, escrow, callvalue)) == None
  {
    RunsKeepTicketsBacked(c, w, steps);
    RetryTransfersSucceed(c, WorldAfter(c, w, steps), tx, now, gasUsed);
  }

  // ---------- When a queued retry is refused ----------

  /** The step takes a ticket away: its own retry succeeds, or other execution drops it. */
  predicate Drops(step: Step, id: TicketId) {
    match step
    case Submit(_, _, _, _, _, _) => false
    case FailedRetry(_, _, _) => false
    case SuccessfulRetry(tx, _, _, executed) => tx.ticketId == id || id !in executed.tickets
    case Elsewhere(after) => id !in after.tickets
  }

  predicate Submits(step: Step, id: TicketId) {
    step.Submit? && step.id == id
  }

  /** A ticket leaves only through its own success or a step that drops it, and until then keeps its sender. */
  lemma StepKeepsTicket(c: Chain, w: World, step: Step, id: TicketId)
    requires Backed(c, w) && Allowed(c, w, step) && id in w.tickets
    ensures id in After(c, w, step).tickets <==> !Drops(step, id)
    ensures id in After(c, w, step).tickets ==> After(c, w, step).tickets[id].from == w.tickets[id].from
  {
  }

  lemma StepAddsNoOther(c: Chain, w: World, step: Step, id: TicketId)
    requires Allowed(c, w, step) && id !in w.tickets && !Submits(step, id)
    ensures id !in After(c, w, step).tickets
  {
  }

  lemma {:induction false} GoneStaysGone(c: Chain, w: World, steps: seq<Step>, id: TicketId)
    requires Run(c, w, steps) && id !in w.tickets && forall i :: 0 <= i < |steps| ==> !Submits(steps[i], id)
    ensures id !in WorldAfter(c, w, steps).tickets
    decreases |steps|
  {
    if steps != [] {
      StepAddsNoOther(c, w, steps[0], id);
      GoneStaysGone(c, After(c, w, steps[0]), steps[1..], id);
    }
  }

  /** Over a run that does not submit it again, a live ticket is gone exactly when some step dropped it. */
  lemma {:induction false} LostExactlyWhenDropped(c: Chain, w: World, steps: seq<Step>, id: TicketId)
    requires Proper(c) && Backed(c, w) && Run(c, w, steps) && id in w.tickets
    requires forall i :: 0 <= i < |steps| ==> !Submits(steps[i], id)
    ensures id !in WorldAfter(c, w, steps).tickets <==> exists i :: 0 <= i < |steps| && Drops(steps[i], id)
    ensures id in WorldAfter(c, w, steps).tickets ==> WorldAfter(c, w, steps).tickets[id].from == w.tickets[id].from
    decreases |steps|
  {
    if steps != [] {
      var next, rest := After(c, w, steps[0]), steps[1..];
      StepKeepsBacked(c, w, steps[0]);
      StepKeepsTicket(c, w, steps[0], id);
      if id in next.tickets {
        LostExactlyWhenDropped(c, next, rest, id);
        assert forall i :: 0 < i < |steps| ==> steps[i] == rest[i - 1];
        assert forall i :: 0 <= i < |rest| ==> rest[i] == steps[i + 1];
      } else {
        GoneStaysGone(c, next, rest, id);
      }
    }
  }

  /** A retry queued for a live ticket is refused at its turn exactly when its gas limit is below what its kind and
      calldata need, the ticket was dropped or has expired by then, or the sender's nonce cannot grow; never for lack
      of callvalue. */
  lemma QueuedRetryIsRefused(c: Chain, w: World, steps: seq<Step>, tx: TxRetry, now: U64, nonce: U64)
    requires Proper(c) && Backed(c, w) && Run(c, w, steps)
    requires tx.ticketId in w.tickets && tx.from == w.tickets[tx.ticketId].from
    requires forall i :: 0 <= i < |steps| ==> !Submits(steps[i], tx.ticketId)
    ensures var v := WorldAfter(c, w, steps);
            Refusal(v, nonce, tx, now, c.escrowOf(tx.ticketId), c.settings)
            == if tx.gasLimit < GasNeeded(tx.to, tx.input, c.settings) then GasRefusal(tx, c.settings)
               else if (exists i :: 0 <= i < |steps| && Drops(steps[i], tx.ticketId))
                       || RecordOf(v.tickets, tx.ticketId).timeout < now then Some(TicketNotFound)
               else if tx.to.Some? && nonce == U64_MAX then Some(NonceOverflow)
               else None
    ensures tx.gasLimit < GasNeeded(tx.to, tx.input, c.settings) ==> GasRefusal(tx, c.settings).Some?
  {
    LostExactlyWhenDropped(c, w, steps, tx.ticketId);
    RunsKeepTicketsBacked(c, w, steps);
  }

  // ---------- Any sender: when the callvalue can be put back ----------

  /** Whether a sender with `own` wei before the release can put the callvalue back after a failed retry, given what
      the fee accounts hold: only a fee account can fail to, and only by being charged more than it had. */
  predicate CanPutBack(infraHolds: nat, networkHolds: nat, tx: TxRetry, s: Settings, h: HookAmounts, own: nat,
                       callvalue: nat)
  {
    var infra, network := InfraRefund(s, h), NetworkRefund(s, h);
    var isInfra := h.infraActive && tx.from == s.infraFeeAccount;
    var isNetwork := s.networkFeeAccount != ZERO_ADDRESS && tx.from == s.networkFeeAccount;
    if tx.refundTo == tx.from then true
    else if isInfra && isNetwork then Granted(infra, tx) + Granted(network, tx) <= own
    else if isNetwork then Granted(network, tx) <= own + if h.infraActive then ToSender(infraHolds, infra, tx) else 0
    else if isInfra then
      var charged := Min(Granted(infra, tx), own + callvalue);
      charged <= own + ToSender(networkHolds + if tx.refundTo == s.networkFeeAccount then charged else 0, network, tx)
    else true
  }

  /** What the sender of a retry holds besides the callvalue, which its own escrow holds too. */
  function OwnWei(c: Chain, w: World, tx: TxRetry): nat {
    SatSub(BalanceOf(w.balances, tx.from),
           if tx.from == c.escrowOf(tx.ticketId) then RecordOf(w.tickets, tx.ticketId).callvalue else 0)
  }

  /** For every sender, the return transfer of a failed retry succeeds exactly when the fee refunds leave the
      callvalue untouched. */
  lemma CallvalueReturns(c: Chain, w: World, tx: TxRetry, gasUsed: U64)
    requires Total(w.balances) <= U256_MAX
    requires RecordOf(w.tickets, tx.ticketId).callvalue <= BalanceOf(w.balances, c.escrowOf(tx.ticketId))
    ensures var callvalue := RecordOf(w.tickets, tx.ticketId).callvalue;
            var released := Released(c, w, tx).balances;
            var h := HookAmountsOf(tx, c.settings, gasUsed);
            TransferVerdict(FeesSettled(released, tx, c.settings, false, h),
                            Payment(tx.from, c.escrowOf(tx.ticketId), callvalue)) == None
            <==> callvalue == 0
                 || CanPutBack(BalanceOf(released, c.settings.infraFeeAccount),
                               BalanceOf(released, c.settings.networkFeeAccount), tx, c.settings, h, OwnWei(c, w, tx), callvalue)
  {
    var callvalue, escrow := RecordOf(w.tickets, tx.ticketId).callvalue, c.escrowOf(tx.ticketId);
    var h := HookAmountsOf(tx, c.settings, gasUsed);
    var released := Released(c, w, tx).balances;
    PayConserves(w.balances, Payment(escrow, tx.from, callvalue));
    assert BalanceOf(released, tx.from) == OwnWei(c, w, tx) + callvalue;
    RefundedConserves(released, HookRefunds(c.settings, false, h), tx);
    OnlyFundsMatter(FeesSettled(released, tx, c.settings, false, h), Payment(tx.from, escrow, callvalue));
    if callvalue > 0 {
      SenderAfterFailure(released, tx, c.settings, h, OwnWei(c, w, tx), callvalue);
    }
  }

  lemma SenderAfterFailure(b: Balances, tx: TxRetry, s: Settings, h: HookAmounts, own: nat, callvalue: nat)
    requires BalanceOf(b, tx.from) == own + callvalue && callvalue > 0
    requires h.infraActive ==> s.infraFeeAccount != ZERO_ADDRESS
    ensures BalanceOf(FeesSettled(b, tx, s, false, h), tx.from) >= callvalue
       <==> CanPutBack(BalanceOf(b, s.infraFeeAccount), BalanceOf(b, s.networkFeeAccount), tx, s, h, own, callvalue)
  {
    var infra, network := InfraRefund(s, h), NetworkRefund(s, h);
    var b2 := if h.infraActive then FeeRefunded(b, infra, tx) else b;
    FailureRefunds(b, b2, tx, s, h);
    SenderAfterInfra(b, b2, tx, s, h);
    SenderAfterNetwork(b2, FeeRefunded(b2, network, tx), tx, network);
  }

  /** The sender's balance after the network refund. */
  lemma SenderAfterNetwork(b: Balances, b': Balances, tx: TxRetry, network: Refund)
    requires b' == FeeRefunded(b, network, tx)
    ensures var holds := BalanceOf(b, network.account);
            BalanceOf(b', tx.from)
            == if tx.from == network.account then holds - (if tx.refundTo == tx.from then 0 else ToRefundee(holds, network, tx))
               else BalanceOf(b, tx.from) + (if tx.refundTo == tx.from then ToRefundee(holds, network, tx) else 0)
                    + ToSender(holds, network, tx)
  {
    if tx.from == network.account {
      FeeRefundOwn(b, network, tx);
    } else {
      FeeRefundOther(b, network, tx, tx.from);
    }
  }

  lemma FailureRefunds(b: Balances, b2: Balances, tx: TxRetry, s: Settings, h: HookAmounts)
    requires b2 == if h.infraActive then FeeRefunded(b, InfraRefund(s, h), tx) else b
    ensures FeesSettled(b, tx, s, false, h) == FeeRefunded(b2, NetworkRefund(s, h), tx)
  {
    var done := WithInfraRefund(NoRefunds, s, h);
    assert Refunded(b, NoRefunds, tx) == b;
    assert Refunded(b, done, tx) == b2;
    assert HookRefunds(s, false, h) == AndRefund(done, NetworkRefund(s, h));
  }

  /** The sender's and the network account's balances after the infra refund. */
  lemma SenderAfterInfra(b: Balances, b2: Balances, tx: TxRetry, s: Settings, h: HookAmounts)
    requires b2 == if h.infraActive then FeeRefunded(b, InfraRefund(s, h), tx) else b
    ensures var infra := InfraRefund(s, h);
            var holds := BalanceOf(b, s.infraFeeAccount);
            && BalanceOf(b2, tx.from)
               == (if !h.infraActive then BalanceOf(b, tx.from)
                   else if tx.from == s.infraFeeAccount then
                     BalanceOf(b, tx.from) - (if tx.refundTo == tx.from then 0 else ToRefundee(holds, infra, tx))
                   else BalanceOf(b, tx.from) + (if tx.refundTo == tx.from then ToRefundee(holds, infra, tx) else 0)
                        + ToSender(holds, infra, tx))
            && (s.networkFeeAccount != s.infraFeeAccount && s.networkFeeAccount != tx.from ==>
                  BalanceOf(b2, s.networkFeeAccount)
                  == BalanceOf(b, s.networkFeeAccount)
                     + if h.infraActive && tx.refundTo == s.networkFeeAccount then ToRefundee(holds, infra, tx) else 0)
  {
    var infra := InfraRefund(s, h);
    if h.infraActive {
      if tx.from == s.infraFeeAccount {
        FeeRefundOwn(b, infra, tx);
      } else {
        FeeRefundOther(b, infra, tx, tx.from);
      }
      if s.networkFeeAccount != s.infraFeeAccount {
        FeeRefundOther(b, infra, tx, s.networkFeeAccount);
      }
    }
  }
}
