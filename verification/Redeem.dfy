/** The `redeem` precompile: what it reserves, donates, charges and announces. */
module Redeem {
  import opened Words
  import opened Ledger
  import opened Retryables
  import opened L2Pricing
  import opened Journaled

  const RETRY_TX_GAS_MINIMUM: nat := 21_000
  const REDEEM_SCHEDULED_EVENT_GAS: nat := 375 + 4 * 375 + 128 * 8
  const REDEEM_COPY_GAS: nat := 3
  const REDEEM_READ_BURNS_BASE: nat := 28_353
  const REDEEM_SIZE_SLOAD_GAS: nat := 50
  const COPY_GAS: nat := 3
  const ARBOS_STATE_OPEN_GAS: nat := 800

  /** Event, result copy and base read burns: the least a redeem keeps for itself. */
  const REDEEM_OVERHEAD: nat := 31_255

  datatype RedeemCall = RedeemCall(caller: Address, ticketId: TicketId, gasLimit: U64, inputLen: nat)

  /** What a redeem reads of its block and transaction. */
  datatype Env = Env(now: U64, version: U64, baseFee: U64, chainId: U64)

  /** The part of the chain state that redeems read and write. */
  datatype State = State(tickets: Tickets, pricing: Pricing)

  function WordsForBytes(n: nat): nat {
    (n + 31) / 32
  }

  function BacklogCostLookupBurn(version: U64): nat {
    if ARBOS_MULTI_CONSTRAINT_FIX <= version < ARBOS_MULTI_GAS_CONSTRAINTS then STORAGE_READ_COST else 0
  }

  function ReadBurns(calldataLen: nat, version: U64): nat {
    var words := WordsForBytes(calldataLen);
    REDEEM_READ_BURNS_BASE + REDEEM_SIZE_SLOAD_GAS * words + STORAGE_READ_COST * SatSub(words, 1)
    + BacklogCostLookupBurn(version)
  }

  /** Gas the redeem keeps back before donating the rest. */
  function Reserved(st: State, id: TicketId, version: U64): nat {
    REDEEM_SCHEDULED_EVENT_GAS + REDEEM_COPY_GAS + BacklogUpdateCost(st.pricing, version)
    + ReadBurns(|RecordOf(st.tickets, id).calldata|, version)
  }

  /** The per-call gas that dispatch folds in around the body. */
  function CallExtraGas(inputLen: nat, outputLen: nat): nat {
    COPY_GAS * WordsForBytes(SatSub(inputLen, 4)) + COPY_GAS * WordsForBytes(outputLen) + ARBOS_STATE_OPEN_GAS
  }

  /** The retry a redeem announces. */
  function RedeemTx(st: State, env: Env, call: RedeemCall, donated: U64): TxRetry {
    var ticket := RecordOf(st.tickets, call.ticketId);
    TxRetry(env.chainId, ticket.numTries, ticket.from, env.baseFee, donated, ToOfRaw(ticket.toRaw), ticket.callvalue,
            ticket.calldata, call.ticketId, call.caller, U256_MAX, 0)
  }

  /** Gas the body records for itself; dispatch adds the per-call gas. */
  function BodyGas(gasLimit: U64, overreserve: nat, extra: nat): nat {
    SatSub(SatSub(gasLimit, overreserve), extra)
  }

  datatype Outcome = Refused | Announced(tx: TxRetry, state: State, spent: nat)

  /** The gas a redeem donates, if the ticket exists and the gas suffices. */
  function DonatedGas(st: State, env: Env, call: RedeemCall): Option<U64> {
    var reserved := Reserved(st, call.ticketId, env.version);
    if !Exists(RecordOf(st.tickets, call.ticketId), env.now) then None
    else if call.gasLimit < reserved || call.gasLimit - reserved < RETRY_TX_GAS_MINIMUM then None
    else Some(call.gasLimit - reserved)
  }

  /** The gas the whole call charges, if the reserved `cost` covers the backlog update and the body leaves
      enough for dispatch. */
  function ChargedGas(p: Pricing, env: Env, call: RedeemCall, donated: U64, cost: nat): Option<nat> {
    var actual := ShrinkCost(p, donated, env.version);
    var extra := CallExtraGas(call.inputLen, 32);
    if actual > cost then None
    else
      var body := BodyGas(call.gasLimit, cost - actual, extra);
      if call.gasLimit - body < extra then None else Some(body + extra)
  }

  /** The precompile call as a whole. A refusal (missing ticket, too little gas, an underestimated backlog
      update, or an input too long for its copy gas) rolls back whatever the body wrote. */
  function RedeemOutcome(st: State, env: Env, call: RedeemCall): Outcome {
    match DonatedGas(st, env, call)
    case None => Refused
    case Some(donated) =>
      match ChargedGas(st.pricing, env, call, donated, BacklogUpdateCost(st.pricing, env.version))
      case None => Refused
      case Some(spent) =>
        var ticket := RecordOf(st.tickets, call.ticketId);
        Announced(RedeemTx(st, env, call, donated),
                  State(st.tickets[call.ticketId := ticket.(numTries := SatAdd64(ticket.numTries, 1))],
                        Shrunk(st.pricing, donated, env.version)),
                  spent)
  }

  /** A successful redeem charges its caller for everything it donates and at least its fixed overhead on top,
      whatever the input length, calldata and pricing model; and it never charges more than it was given. */
  lemma RedeemChargesMoreThanItDonates(st: State, env: Env, call: RedeemCall)
    ensures var r := RedeemOutcome(st, env, call);
            r.Announced? ==>
              && r.tx.gasLimit >= RETRY_TX_GAS_MINIMUM
              && r.spent >= r.tx.gasLimit + REDEEM_OVERHEAD
                            + ShrinkCost(st.pricing, r.tx.gasLimit, env.version)
              && r.spent <= call.gasLimit
  {
  }

  /** When the input is of ordinary length the charge is the whole gas limit less what was reserved for the backlog
      update beyond its cost. */
  lemma OrdinaryRedeemCharge(st: State, env: Env, call: RedeemCall)
    requires RedeemOutcome(st, env, call).Announced?
    requires CallExtraGas(call.inputLen, 32) <= Reserved(st, call.ticketId, env.version)
                                                - BacklogUpdateCost(st.pricing, env.version)
    ensures var r := RedeemOutcome(st, env, call);
            r.spent == call.gasLimit - (BacklogUpdateCost(st.pricing, env.version)
                                        - ShrinkCost(st.pricing, r.tx.gasLimit, env.version))
  {
  }

  method ShrinkBacklog(j: Journal, gas: U64, version: U64) returns (cost: nat)
    modifies j`pricing
    ensures j.pricing == Shrunk(old(j.pricing), gas, version)
    ensures cost == ShrinkCost(old(j.pricing), gas, version)
  {
    var p := j.pricing;
    match ModelOf(p, version) {
    case Legacy =>
      var updated := SatSub(p.gasBacklog, gas);
      j.pricing := p.(gasBacklog := updated);
      cost := (if version >= ARBOS_SINGLE_GAS_CONSTRAINTS then STORAGE_READ_COST else 0)
              + STORAGE_READ_COST + WriteCost(updated);
    case SingleGas =>
      var updated;
      updated, cost := ShrinkConstraints(p.constraints, gas);
      j.pricing := p.(constraints := updated);
    case MultiGas =>
      var updated := ShrinkMultiConstraints(p.multi, gas);
      assert updated == Shrunk(p, gas, version).multi;
      j.pricing := p.(multi := updated);
      cost := STORAGE_READ_COST + STORAGE_WRITE_COST;
    }
    if version >= ARBOS_MULTI_GAS_CONSTRAINTS {
      cost := STORAGE_READ_COST + STORAGE_WRITE_COST;
    }
  }

  /** From the announcement on: shrink the backlog, settle the body's gas and let dispatch add its own. */
  method FinishRedeem(j: Journal, env: Env, call: RedeemCall, donated: U64, cost: nat) returns (spent: Option<nat>)
    modifies j`pricing
    ensures j.pricing == Shrunk(old(j.pricing), donated, env.version)
    ensures spent == ChargedGas(old(j.pricing), env, call, donated, cost)
  {
    var actual := ShrinkBacklog(j, donated, env.version);
    var extra := CallExtraGas(call.inputLen, 32);
    if actual > cost {
      return None;
    }
    var body := BodyGas(call.gasLimit, cost - actual, extra);
    return if call.gasLimit - body < extra then None else Some(body + extra);
  }

  /** The donation: what is left of the gas after everything the redeem must still pay for. */
  method ReserveGas(j: Journal, env: Env, call: RedeemCall, ticket: Ticket, ghost st: State)
    returns (donated: Option<U64>, cost: nat)
    requires j.pricing == st.pricing && ticket == RecordOf(st.tickets, call.ticketId) && Exists(ticket, env.now)
    ensures donated == DonatedGas(st, env, call)
    ensures cost == BacklogUpdateCost(st.pricing, env.version)
  {
    cost := BacklogUpdateCost(j.pricing, env.version);
    var futureGasCosts := REDEEM_SCHEDULED_EVENT_GAS + REDEEM_COPY_GAS + cost;
    var reserved := futureGasCosts + ReadBurns(|ticket.calldata|, env.version);
    if call.gasLimit < reserved || call.gasLimit - reserved < RETRY_TX_GAS_MINIMUM {
      return None, cost;
    }
    donated := Some(call.gasLimit - reserved);
  }

  /** The redeem body followed by dispatch, on the live journal; a refusal is rolled back. */
  method RunRedeem(j: Journal, env: Env, call: RedeemCall) returns (spent: Option<nat>)
    modifies j`tickets, j`pricing, j`logs
    ensures var r := RedeemOutcome(State(old(j.tickets), old(j.pricing)), env, call);
            if r.Refused? then
              spent == None && j.tickets == old(j.tickets) && j.pricing == old(j.pricing) && j.logs == old(j.logs)
            else
              spent == Some(r.spent) && j.tickets == r.state.tickets && j.pricing == r.state.pricing
              && j.logs == old(j.logs) + [RedeemScheduledLog(ARB_RETRYABLE_TX_ADDRESS, r.tx)]
  {
    var savedTickets, savedPricing, savedLogs := j.tickets, j.pricing, j.logs;
    ghost var st := State(j.tickets, j.pricing);
    var ticket := RecordOf(j.tickets, call.ticketId);
    if !Exists(ticket, env.now) {
      return None;
    }
    j.tickets := j.tickets[call.ticketId := ticket.(numTries := SatAdd64(ticket.numTries, 1))];
    var donated, cost := ReserveGas(j, env, call, ticket, st);
    if donated.None? {
      j.tickets := savedTickets;
      return None;
    }
    var tx := TxRetry(env.chainId, ticket.numTries, ticket.from, env.baseFee, donated.value, ToOfRaw(ticket.toRaw),
                      ticket.callvalue, ticket.calldata, call.ticketId, call.caller, U256_MAX, 0);
    j.logs := j.logs + [RedeemScheduledLog(ARB_RETRYABLE_TX_ADDRESS, tx)];
    spent := FinishRedeem(j, env, call, donated.value, cost);
    if spent.None? {
      j.tickets, j.pricing, j.logs := savedTickets, savedPricing, savedLogs;
    }
  }
}
