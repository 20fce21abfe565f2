/**
 Messages executed by the hooks of this project, and two kinds of message that they drop: one
 ticket redeemed by two transactions, and a submission whose redeem lacks the gas to start.
 */
module DroppedMessages {
  import opened Words
  import opened Ledger
  import opened Retryables
  import opened L2Pricing
  import opened RetryGas
  import opened RetryTx
  import opened Redeem
  import opened ScheduledRetries
  import opened Frames
  import opened EscrowRuns
  import opened RetryFate
  import opened UnderfundedRetries
  import opened MessageQueue
  import opened RefusedRetries
  import SubmitRetryable

  datatype Incoming = Incoming(from: Address, id: TicketId, call: SubmitRetryable.SubmitCall, filtered: bool)

  /** A block in which transactions run given frames, make given payments and submit given retryables. */
  datatype Machine = Machine(chain: Chain, now: U64, baseFee: U64, chainId: U64, frameOf: Envelope -> Frame,
                             paymentsOf: Envelope -> Payments, submissionOf: nat -> Incoming)

  datatype ChainState = ChainState(world: World, pricing: Pricing, nonces: map<Address, U64>)

  function EnvOf(m: Machine): Env {
    Env(m.now, m.chain.settings.arbosVersion, m.baseFee, m.chainId)
  }

  function StateOf(s: ChainState): State {
    State(s.world.tickets, s.pricing)
  }

  predicate Runs(m: Machine, s: ChainState, f: Frame, gas: nat) {
    f.limit <= gas && FitsFrame(f, StateOf(s), EnvOf(m))
  }

  // ---------- One transaction ----------

  function TransactSubmit(m: Machine, s: ChainState, x: Incoming, usergas: U64): Transacted<ChainState> {
    var call := SubmitRetryable.Redirected(x.call.(gasLimit := usergas), m.chain.settings, x.filtered);
    Submits(m, s, x.(call := call), SubmitRetryable.QuoteOf(call, m.chain.settings, m.baseFee))
  }

  /** The submission once its call is redirected and quoted. */
  function Submits(m: Machine, s: ChainState, x: Incoming, q: SubmitRetryable.Quote): Transacted<ChainState> {
    Reports(m, s, x, q, StageAt(m, s, x, q), SubmittedCall(m.chain, s.world, x.from, x.id, x.call, m.now, q, x.filtered))
  }

  function Reports(m: Machine, s: ChainState, x: Incoming, q: SubmitRetryable.Quote, stage: SubmitRetryable.Stage, w: World)
    : Transacted<ChainState>
  {
    var tx := SubmitRetryable.AutoRedeem(m.chainId, x.from, x.id, x.call, m.chain.settings, q);
    Transacted(SubmitRetryable.OutcomeOf(stage, x.call, x.filtered).Created?, s.(world := w), w.tickets,
               if !SubmitRetryable.CreatesTicket(stage) then []
               else if stage.Scheduled? then [TicketCreatedLog(x.id), RedeemScheduledLog(ARB_RETRYABLE_TX_ADDRESS, tx)]
               else [TicketCreatedLog(x.id)])
  }

  function StageAt(m: Machine, s: ChainState, x: Incoming, q: SubmitRetryable.Quote): SubmitRetryable.Stage {
    SubmitRetryable.StageOf(Mint(s.world.balances, x.from, x.call.depositValue), x.from, m.chain.escrowOf(x.id), x.call,
                            m.chain.settings, q, x.filtered)
  }

  /** An ordinary transaction, its own fees aside. */
  function TransactPlain(m: Machine, s: ChainState, e: Envelope, gasLimit: U64): Transacted<ChainState> {
    var f := m.frameOf(e);
    var fits := Runs(m, s, f, gasLimit);
    var ran := if fits then RunFrame(f, StateOf(s), EnvOf(m)) else Ran(StateOf(s), [], 0);
    var success := fits && f.end.Success?;
    var balances := if success then Settle(s.world.balances, m.paymentsOf(e)) else s.world.balances;
    match Grown(ran.state.pricing, Min(gasLimit, gasLimit - Min(gasLimit, f.limit) + ran.spent), m.chain.settings.arbosVersion)
    case None => Fatal
    case Some(grown) =>
      Transacted(success, ChainState(World(balances, ran.state.tickets), grown, s.nonces), ran.state.tickets, ran.logs)
  }

  /** How a retry's execution ends and the gas it uses, refunds aside. */
  function EndingOf(m: Machine, s: ChainState, tx: TxRetry): (Ending, U64, seq<Log>) {
    var f, e := m.frameOf(RetryEnvelope(tx)), RetryEnvelope(tx);
    var intrinsic := IntrinsicGas(tx.to, tx.input, m.chain.settings.arbosVersion);
    if intrinsic <= tx.gasLimit && Runs(m, s, f, tx.gasLimit - intrinsic) then
      var ran := RunFrame(f, StateOf(s), EnvOf(m));
      var released := Released(m.chain, s.world, tx).balances;
      (if f.end.Success? then Succeeded(World(Settle(released, m.paymentsOf(e)), ran.state.tickets), ran.state.pricing) else Failed,
       Min(tx.gasLimit, Max(intrinsic + ran.spent, FloorGas(tx.input, m.chain.settings))),
       if f.end.Success? then ran.logs else [])
    else (Failed, tx.gasLimit, [])
  }

  function TransactRetry(m: Machine, s: ChainState, tx: TxRetry): Transacted<ChainState> {
    var (ending, gasUsed, logs) := EndingOf(m, s, tx);
    var nonce := NonceOf(s.nonces, tx.from);
    if Fate(m.chain, s.world, s.pricing, nonce, tx, m.now, gasUsed, ending).Some? then Fatal
    else
      var w := AfterRetry(m.chain, s.world, tx, gasUsed, ending);
      Transacted(ending.Succeeded?,
                 ChainState(w, Grown(PricingAfter(s.pricing, ending), gasUsed, m.chain.settings.arbosVersion).value,
                            if tx.to.Some? then s.nonces[tx.from := SatAdd64(nonce, 1)] else s.nonces),
                 w.tickets, logs)
  }

  function Transact(m: Machine, s: ChainState, e: Envelope): Transacted<ChainState> {
    match e
    case SubmitEnvelope(i, usergas) => TransactSubmit(m, s, m.submissionOf(i), usergas)
    case PlainEnvelope(_, gasLimit) => TransactPlain(m, s, e, gasLimit)
    case RetryEnvelope(tx) => TransactRetry(m, s, tx)
  }

  function Executor(m: Machine): (ChainState, Envelope) -> Transacted<ChainState> {
    (s, e) => Transact(m, s, e)
  }

  function AllSupported(): Envelope -> bool {
    e => true
  }

  // ---------- The hooks meet the queue's contract ----------

  lemma SubmitIsPlausible(m: Machine, s: ChainState, i: nat, usergas: U64)
    ensures Plausible(SubmitEnvelope(i, usergas), TransactSubmit(m, s, m.submissionOf(i), usergas), m.baseFee, m.chainId)
  {
    var x, r := m.submissionOf(i), TransactSubmit(m, s, m.submissionOf(i), usergas);
    var call := SubmitRetryable.Redirected(x.call.(gasLimit := usergas), m.chain.settings, x.filtered);
    var sub := Submission(s.world.tickets, x.from, x.id, call, m.chain.settings, m.now);
    if r.success {
      SubmitsLogs(m, s, x.(call := call), SubmitRetryable.QuoteOf(call, m.chain.settings, m.baseFee), sub, r);
    }
  }

  lemma SubmitsLogs(m: Machine, s: ChainState, x: Incoming, q: SubmitRetryable.Quote, sub: Submission,
                    r: Transacted<ChainState>)
    requires q == SubmitRetryable.QuoteOf(x.call, m.chain.settings, m.baseFee)
    requires sub == Submission(s.world.tickets, x.from, x.id, x.call, m.chain.settings, m.now)
    requires r == Submits(m, s, x, q) && r.success
    ensures SubmissionLogs(sub, r.tickets, r.logs, m.baseFee, m.chainId)
  {
  }

  /** Whatever the block's transactions do, their logs are logs the queue can bear. */
  lemma HooksArePlausible(m: Machine, s: ChainState, e: Envelope)
    ensures Plausible(e, Executor(m)(s, e), m.baseFee, m.chainId)
  {
    var x := Execution(m.frameOf(e), StateOf(s), EnvOf(m));
    match e
    case SubmitEnvelope(i, usergas) => SubmitIsPlausible(m, s, i, usergas);
    case PlainEnvelope(_, gasLimit) =>
      var r := TransactPlain(m, s, e, gasLimit);
      if r.Transacted? && r.success {
        assert ExecutionLogs(x, gasLimit, r.logs);
      }
    case RetryEnvelope(tx) =>
      var r := TransactRetry(m, s, tx);
      if r.Transacted? && r.success {
        assert ExecutionLogs(x, tx.gasLimit, r.logs);
      }
  }

  lemma AllArePlausible(m: Machine)
    ensures forall s, e :: Plausible(e, Executor(m)(s, e), m.baseFee, m.chainId)
  {
    forall s, e
      ensures Plausible(e, Executor(m)(s, e), m.baseFee, m.chainId)
    {
      HooksArePlausible(m, s, e);
    }
  }

  /** A retry is fatal exactly by its fate. */
  lemma FatalIsFate(m: Machine, s: ChainState, tx: TxRetry)
    ensures var (ending, gasUsed, _) := EndingOf(m, s, tx);
            TransactRetry(m, s, tx).Fatal?
            <==> Fate(m.chain, s.world, s.pricing, NonceOf(s.nonces, tx.from), tx, m.now, gasUsed, ending).Some?
  {
  }

  // ---------- One ticket redeemed by two transactions ----------

  /** A transaction that does nothing but call `redeem` with all its gas. */
  function RedeemFrame(call: RedeemCall): Frame {
    Frame(call.gasLimit, Do(CallRedeem(0, 0, call, 0), Done), Success)
  }

  lemma RedeemFrameRuns(call: RedeemCall, st: State, env: Env)
    requires RedeemOutcome(st, env, call).Announced?
    ensures var r := RedeemOutcome(st, env, call);
            && FitsFrame(RedeemFrame(call), st, env)
            && RunFrame(RedeemFrame(call), st, env) == Ran(r.state, [RedeemScheduledLog(ARB_RETRYABLE_TX_ADDRESS, r.tx)], r.spent)
  {
    var r := RedeemOutcome(st, env, call);
    var step, log := CallRedeem(0, 0, call, 0), RedeemScheduledLog(ARB_RETRYABLE_TX_ADDRESS, r.tx);
    assert RunStep(step, st, env) == Ran(r.state, [log], r.spent);
    assert RunSteps(Done, r.state, env) == Ran(r.state, [], 0);
    assert [log] + [] == [log];
  }

  /** The envelope's transaction redeems, and the redeem goes through. */
  predicate Redeems(m: Machine, s: ChainState, e: Envelope, call: RedeemCall) {
    && e.PlainEnvelope? && m.frameOf(e) == RedeemFrame(call) && call.gasLimit <= e.gasLimit
    && RedeemOutcome(StateOf(s), EnvOf(m), call).Announced?
    && Transact(m, s, e).Transacted?
  }

  lemma RedeemTransaction(m: Machine, s: ChainState, e: Envelope, call: RedeemCall)
    requires Redeems(m, s, e, call) && RecordOf(s.world.tickets, call.ticketId).numTries < U64_MAX
    ensures var r, x := RedeemOutcome(StateOf(s), EnvOf(m), call), Transact(m, s, e);
            && x.success && x.next.world.tickets == x.tickets == r.state.tickets
            && r.tx.ticketId == call.ticketId
            && RetriesFromLogs(x.tickets, x.logs, m.baseFee, m.chainId) == [r.tx]
            && RecordOf(x.tickets, call.ticketId).numTries == RecordOf(s.world.tickets, call.ticketId).numTries + 1
  {
    RedeemFrameRuns(call, StateOf(s), EnvOf(m));
    RedeemSchedulesItsRetry(StateOf(s), EnvOf(m), call);
  }

  /** After a retry has succeeded, any other retry of its ticket is fatal. */
  lemma SucceededTicketIsGone(m: Machine, s: ChainState, first: TxRetry, second: TxRetry)
    requires first.ticketId == second.ticketId
    requires TransactRetry(m, s, first).Transacted? && TransactRetry(m, s, first).success
    ensures TransactRetry(m, TransactRetry(m, s, first).next, second).Fatal?
  {
    var next := TransactRetry(m, s, first).next;
    assert RecordOf(next.world.tickets, first.ticketId).timeout == 0;
    assert HookRefusal(next.world, NonceOf(next.nonces, second.from), second, m.now, m.chain.escrowOf(second.ticketId)).Some?;
  }

  /** Two transactions redeem one ticket, and the first retry succeeds. */
  predicate RedeemsOneTicketTwice(m: Machine, s: ChainState, e1: Envelope, e2: Envelope, first: RedeemCall,
                                  second: RedeemCall)
  {
    && first.ticketId == second.ticketId && RecordOf(s.world.tickets, first.ticketId).numTries < U64_MAX - 1
    && Redeems(m, s, e1, first)
    && var s1 := Transact(m, s, e1).next;
       && Redeems(m, s1, e2, second)
       && var x3 := TransactRetry(m, Transact(m, s1, e2).next, RedeemOutcome(StateOf(s), EnvOf(m), first).tx);
          x3.Transacted? && x3.success
  }

  lemma SecondIsFatal(m: Machine, s: ChainState, e1: Envelope, e2: Envelope, first: RedeemCall, second: RedeemCall)
    returns (t1: TxRetry, t2: TxRetry)
    requires RedeemsOneTicketTwice(m, s, e1, e2, first, second)
    ensures t1.ticketId == t2.ticketId == first.ticketId
    ensures RedeemsTwice(Executor(m), s, e1, e2, t1, t2, m.baseFee, m.chainId)
  {
    var s1 := Transact(m, s, e1).next;
    t1, t2 := RedeemOutcome(StateOf(s), EnvOf(m), first).tx, RedeemOutcome(StateOf(s1), EnvOf(m), second).tx;
    RedeemTransaction(m, s, e1, first);
    RedeemTransaction(m, s1, e2, second);
    SucceededTicketIsGone(m, Transact(m, s1, e2).next, t1, t2);
  }

  lemma TwoRedeemsNeverFinish(m: Machine, s: ChainState, e1: Envelope, e2: Envelope, first: RedeemCall, second: RedeemCall,
                              ran: seq<Entry<ChainState>>)
    requires RedeemsOneTicketTwice(m, s, e1, e2, first, second)
    requires AllFaithful(ran, s, Executor(m), AllSupported(), true, m.baseFee, m.chainId)
    ensures Envelopes(ran) != [e1, e2] + Enveloped(Schedule(ran))
  {
    var t1, t2 := SecondIsFatal(m, s, e1, e2, first, second);
    BothCannotFinish(Executor(m), AllSupported(), s, e1, e2, t1, t2, m.baseFee, m.chainId, ran);
  }

  /** Whatever the block, such a message is dropped. */
  method RunTwoRedeems(m: Machine, s: ChainState, e1: Envelope, e2: Envelope, first: RedeemCall, second: RedeemCall)
    returns (out: Option<MessageQueue.Outcome<ChainState>>)
    requires RedeemsOneTicketTwice(m, s, e1, e2, first, second)
    ensures out.None?
  {
    AllArePlausible(m);
    ghost var ran, pending;
    out, ran, pending := ExecuteMessage(Executor(m), AllSupported(), s, [e1, e2], true, m.baseFee, m.chainId);
    if out.Some? {
      TwoRedeemsNeverFinish(m, s, e1, e2, first, second, out.value.entries);
      assert false;
    }
  }

  // ---------- A submission whose redeem lacks gas ----------

  /** The submission is not filtered and schedules its redeem. */
  predicate SchedulesRedeem(m: Machine, s: ChainState, x: Incoming) {
    !x.filtered && StageAt(m, s, x, SubmitRetryable.QuoteOf(x.call, m.chain.settings, m.baseFee)).Scheduled?
  }

  function RedeemOf(m: Machine, x: Incoming): TxRetry {
    SubmitRetryable.AutoRedeem(m.chainId, x.from, x.id, x.call, m.chain.settings,
                               SubmitRetryable.QuoteOf(x.call, m.chain.settings, m.baseFee))
  }

  lemma ScheduledReport(m: Machine, s: ChainState, x: Incoming, q: SubmitRetryable.Quote, w: World, r: Transacted<ChainState>)
    requires !x.filtered && r == Reports(m, s, x, q, SubmitRetryable.Scheduled, w)
    ensures r.success && r.next == s.(world := w) && r.tickets == w.tickets
    ensures r.logs == [TicketCreatedLog(x.id),
                       RedeemScheduledLog(ARB_RETRYABLE_TX_ADDRESS,
                                          SubmitRetryable.AutoRedeem(m.chainId, x.from, x.id, x.call, m.chain.settings, q))]
  {
  }

  lemma SubmissionQueuesItsRedeem(m: Machine, s: ChainState, x: Incoming, r: Transacted<ChainState>)
    requires SchedulesRedeem(m, s, x) && r == TransactSubmit(m, s, x, x.call.gasLimit)
    ensures r.Transacted? && r.success && r.next.pricing == s.pricing && r.next.nonces == s.nonces
    ensures r.next.world == Submitted(m.chain, s.world, x.from, x.id, x.call, m.now, m.baseFee, false)
    ensures r.tickets == r.next.world.tickets
                      == s.world.tickets[x.id := SubmitRetryable.NewTicket(SubmitRetryable.Scheduled, x.from, x.call, m.now)]
    ensures RetriesFromLogs(r.tickets, r.logs, m.baseFee, m.chainId) == [RedeemOf(m, x)]
  {
    assert x.call.(gasLimit := x.call.gasLimit) == x.call;
    var q := SubmitRetryable.QuoteOf(x.call, m.chain.settings, m.baseFee);
    var w := SubmittedCall(m.chain, s.world, x.from, x.id, x.call, m.now, q, false);
    ScheduledTickets(m.chain, s.world, x.from, x.id, x.call, m.now, q, w);
    ScheduledReport(m, s, x, q, w, r);
    ScheduledSubmitYieldsItsRedeem(s.world.tickets, m.chainId, x.from, x.id, x.call, m.chain.settings, m.now, m.baseFee);
  }

  /** In a block of backed tickets the submission's ticket is live and backed when its redeem has its turn. */
  lemma RedeemIsLive(m: Machine, s: ChainState, x: Incoming, next: ChainState)
    requires Proper(m.chain) && Backed(m.chain, s.world) && SchedulesRedeem(m, s, x)
    requires Allowed(m.chain, s.world, Submit(x.from, x.id, x.call, m.now, m.baseFee, false))
    requires next == TransactSubmit(m, s, x, x.call.gasLimit).next
    ensures Backed(m.chain, next.world) && RetryOf(next.world, RedeemOf(m, x), m.now)
    ensures next.nonces == s.nonces && next.pricing == s.pricing
  {
    SubmissionQueuesItsRedeem(m, s, x, TransactSubmit(m, s, x, x.call.gasLimit));
    SubmitKeepsBacked(m.chain, s.world, x.from, x.id, x.call, m.now, m.baseFee, false);
  }

  /** A retry of a live and backed ticket is fatal in exactly three cases. */
  lemma LiveRetryIsFatal(m: Machine, s: ChainState, tx: TxRetry)
    requires Proper(m.chain) && Backed(m.chain, s.world) && RetryOf(s.world, tx, m.now)
    ensures TransactRetry(m, s, tx).Fatal?
       <==> || tx.gasLimit < GasNeeded(tx.to, tx.input, m.chain.settings)
            || (tx.to.Some? && NonceOf(s.nonces, tx.from) == U64_MAX)
            || (m.chain.settings.arbosVersion >= ARBOS_MULTI_GAS_CONSTRAINTS
                && PricingAfter(s.pricing, EndingOf(m, s, tx).0).multi != [])
  {
    var (ending, gasUsed, _) := EndingOf(m, s, tx);
    assert Run(m.chain, s.world, []) && WorldAfter(m.chain, s.world, []) == s.world;
    FatalIsFate(m, s, tx);
    WhenAQueuedRetryIsFatal(m.chain, s.world, [], s.pricing, NonceOf(s.nonces, tx.from), tx, m.now, gasUsed, ending);
  }

  /** So is the redeem that a submission of an ordinary sender schedules. */
  lemma WhenAnAutoRedeemIsFatal(m: Machine, s: ChainState, x: Incoming, next: ChainState)
    requires Proper(m.chain) && Backed(m.chain, s.world) && SchedulesRedeem(m, s, x)
    requires Allowed(m.chain, s.world, Submit(x.from, x.id, x.call, m.now, m.baseFee, false))
    requires next == TransactSubmit(m, s, x, x.call.gasLimit).next
    ensures TransactRetry(m, next, RedeemOf(m, x)).Fatal?
       <==> || x.call.gasLimit < GasNeeded(x.call.retryTo, x.call.retryData, m.chain.settings)
            || (x.call.retryTo.Some? && NonceOf(s.nonces, x.from) == U64_MAX)
            || (m.chain.settings.arbosVersion >= ARBOS_MULTI_GAS_CONSTRAINTS
                && PricingAfter(s.pricing, EndingOf(m, next, RedeemOf(m, x)).0).multi != [])
  {
    RedeemIsLive(m, s, x, next);
    LiveRetryIsFatal(m, next, RedeemOf(m, x));
  }

  lemma UnderfundedIsFatal(m: Machine, s: ChainState, tx: TxRetry)
    requires tx.gasLimit < GasNeeded(tx.to, tx.input, m.chain.settings)
    ensures TransactRetry(m, s, tx).Fatal?
  {
  }

  lemma UnderfundedIsInVain(m: Machine, s: ChainState, i: nat)
    requires var x := m.submissionOf(i);
             SchedulesRedeem(m, s, x) && x.call.gasLimit < GasNeeded(x.call.retryTo, x.call.retryData, m.chain.settings)
    ensures RetriedInVain(Executor(m), s, SubmitEnvelope(i, m.submissionOf(i).call.gasLimit), RedeemOf(m, m.submissionOf(i)),
                          m.baseFee, m.chainId)
  {
    var x := m.submissionOf(i);
    var r := TransactSubmit(m, s, x, x.call.gasLimit);
    SubmissionQueuesItsRedeem(m, s, x, r);
    UnderfundedIsFatal(m, r.next, RedeemOf(m, x));
    assert Executor(m)(s, SubmitEnvelope(i, x.call.gasLimit)) == r;
  }

  /** A message that is one submission with too little gas for its redeem is dropped by that redeem. */
  method RunUnderfundedSubmission(m: Machine, s: ChainState, i: nat) returns (out: Option<MessageQueue.Outcome<ChainState>>)
    requires var x := m.submissionOf(i);
             SchedulesRedeem(m, s, x) && x.call.gasLimit < GasNeeded(x.call.retryTo, x.call.retryData, m.chain.settings)
    ensures out.None?
  {
    AllArePlausible(m);
    ghost var ran, pending;
    out, ran, pending := ExecuteMessage(Executor(m), AllSupported(), s, [SubmitEnvelope(i, m.submissionOf(i).call.gasLimit)], true,
                                        m.baseFee, m.chainId);
    if out.Some? {
      UnderfundedIsInVain(m, s, i);
      AloneCannotFinish(Executor(m), AllSupported(), s, SubmitEnvelope(i, m.submissionOf(i).call.gasLimit),
                        RedeemOf(m, m.submissionOf(i)), m.baseFee, m.chainId, out.value.entries);
      assert false;
    }
  }

  /** That is every fully funded, unfiltered submission with exactly 21,000 gas that creates or carries calldata. */
  lemma LeastGasIsUnderfunded(m: Machine, s: ChainState, x: Incoming)
    requires !x.filtered && SubmitRetryable.FullyFunded(x.call, SubmitRetryable.QuoteOf(x.call, m.chain.settings, m.baseFee))
    requires x.call.gasLimit == SubmitRetryable.TX_GAS && x.call.gasFeeCap >= m.baseFee
    requires x.call.retryTo.None? || x.call.retryData != []
    ensures SchedulesRedeem(m, s, x) && x.call.gasLimit < GasNeeded(x.call.retryTo, x.call.retryData, m.chain.settings)
  {
    LeastGasIsNotEnough(Mint(s.world.balances, x.from, x.call.depositValue), x.from, m.chain.escrowOf(x.id), x.id, x.call,
                        m.chain.settings, m.baseFee, m.chainId);
  }

  /** One byte of calldata and the price of 21,000 gas at 0.1 gwei. */
  function OneByteCall(refundTo: Address): SubmitRetryable.SubmitCall {
    SubmitRetryable.SubmitCall(0, 2_100_000_000_000, 0, 100_000_000, 21_000, 0, refundTo, refundTo, Some(1), [1])
  }

  lemma OneByteIsUnderfunded(m: Machine, s: ChainState, from: Address, id: TicketId)
    requires m.baseFee == 100_000_000
    ensures var x := Incoming(from, id, OneByteCall(from), false);
            SchedulesRedeem(m, s, x) && x.call.gasLimit < GasNeeded(x.call.retryTo, x.call.retryData, m.chain.settings)
  {
    var call := OneByteCall(from);
    var q := SubmitRetryable.QuoteOf(call, m.chain.settings, m.baseFee);
    assert q.fee == 0 && q.maxGasCost == 2_100_000_000_000;
    LeastGasIsUnderfunded(m, s, Incoming(from, id, call, false));
  }

  // ---------- A block in which both redeems go through ----------

  function LiveTicket(from: Address): Ticket {
    Ticket(1, from, 1, 0, from, 1_700_000_000, 0, [])
  }

  function RedeemWith(caller: Address, id: TicketId): RedeemCall {
    RedeemCall(caller, id, 1_000_000, 36)
  }

  /** Every ordinary transaction redeems the ticket with a million gas, and the retries succeed at once. */
  function TwoRedeemsMachine(c: Chain, caller: Address, id: TicketId): Machine {
    Machine(c, 1_699_999_999, 100_000_000, 42_161,
            (e: Envelope) => if e.PlainEnvelope? then RedeemFrame(RedeemWith(caller, id)) else Frame(0, Done, Success),
            (e: Envelope) => NoPayments,
            (i: nat) => Incoming(caller, id, OneByteCall(caller), false))
  }

  function TwoRedeemsStart(id: TicketId, from: Address): ChainState {
    ChainState(World(map[], map[id := LiveTicket(from)]), Pricing(0, [], []), map[])
  }

  /** The legacy pricing model, whatever its backlog, and the live ticket without calldata. */
  predicate ReadyToRedeem(s: ChainState, id: TicketId, from: Address, tries: nat) {
    && s.pricing.constraints == [] && s.pricing.multi == [] && s.nonces == map[] && s.world.balances == map[]
    && tries < 10 && id in s.world.tickets && s.world.tickets[id] == LiveTicket(from).(numTries := tries)
  }

  lemma OneRedeemGoesThrough(c: Chain, s: ChainState, id: TicketId, from: Address, caller: Address, tries: nat, e: Envelope)
    requires c.settings.arbosVersion == 40 && ReadyToRedeem(s, id, from, tries) && tries < 9
    requires e.PlainEnvelope? && e.gasLimit >= 1_000_000
    ensures var m := TwoRedeemsMachine(c, caller, id);
            Redeems(m, s, e, RedeemWith(caller, id)) && ReadyToRedeem(Transact(m, s, e).next, id, from, tries + 1)
  {
    var m, st := TwoRedeemsMachine(c, caller, id), StateOf(s);
    assert BacklogUpdateCost(st.pricing, 40) == 20_800;
    assert Reserved(st, id, 40) == 52_055;
    assert DonatedGas(st, EnvOf(m), RedeemWith(caller, id)) == Some(947_945);
    assert ShrinkCost(st.pricing, 947_945, 40) <= 20_800;
    assert CallExtraGas(36, 32) == 806;
    RedeemFrameRuns(RedeemWith(caller, id), st, EnvOf(m));
  }

  lemma FirstRetrySucceeds(c: Chain, s: ChainState, id: TicketId, from: Address, caller: Address, tries: nat, tx: TxRetry)
    requires c.settings.arbosVersion == 40 && ReadyToRedeem(s, id, from, tries)
    requires tx.ticketId == id && tx.to == Some(1) && tx.input == [] && tx.gasLimit >= CALL_GAS
    ensures var x := TransactRetry(TwoRedeemsMachine(c, caller, id), s, tx);
            x.Transacted? && x.success
  {
    var m := TwoRedeemsMachine(c, caller, id);
    OnlyBareCallsAreCheap(tx.to, tx.input, c.settings);
    assert Runs(m, s, Frame(0, Done, Success), tx.gasLimit - CALL_GAS);
    assert EndingOf(m, s, tx).0.Succeeded?;
  }

  /** Such a block exists: two transactions of 1,100,000 gas each. */
  lemma TwoRedeemsGoThrough(c: Chain, id: TicketId, from: Address, caller: Address)
    requires c.settings.arbosVersion == 40
    ensures RedeemsOneTicketTwice(TwoRedeemsMachine(c, caller, id), TwoRedeemsStart(id, from), PlainEnvelope(0, 1_100_000),
                                  PlainEnvelope(1, 1_100_000), RedeemWith(caller, id), RedeemWith(caller, id))
  {
    var m, s := TwoRedeemsMachine(c, caller, id), TwoRedeemsStart(id, from);
    var e1, e2 := PlainEnvelope(0, 1_100_000), PlainEnvelope(1, 1_100_000);
    OneRedeemGoesThrough(c, s, id, from, caller, 1, e1);
    var s1 := Transact(m, s, e1).next;
    OneRedeemGoesThrough(c, s1, id, from, caller, 2, e2);
    FirstRetrySucceeds(c, Transact(m, s1, e2).next, id, from, caller, 3, RedeemOutcome(StateOf(s), EnvOf(m), RedeemWith(caller, id)).tx);
  }
}
