/**
 EVM execution as far as redeems are concerned: a tree of call frames that burn gas,
 call each other, emit logs and call the retryable precompile. Everything else a
 frame does is invisible here.
 */
module Frames {
  import opened Words
  import opened Retryables
  import opened Redeem
  import opened ScheduledRetries

  datatype FrameEnd = Success | Revert | Halt

  /** A call frame with the gas it was given. */
  datatype Frame = Frame(limit: nat, steps: Steps, end: FrameEnd)

  datatype Steps = Done | Do(first: Step, rest: Steps)

  datatype Step =
    | Compute(gas: nat)
    | Emit(gas: nat, log: Log)
    | Cancel(gas: nat, id: TicketId)
    | Keepalive(gas: nat, id: TicketId)
    // A call costs its caller `overhead`, of which `stipend` is lent to the callee.
    | Call(overhead: nat, stipend: nat, callee: Frame)
    | CallRedeem(overhead: nat, stipend: nat, call: RedeemCall, refusedSpent: nat)

  /** What running something did: the state and logs that survive, and the gas it cost its caller. */
  datatype Ran = Ran(state: State, logs: seq<Log>, spent: nat)

  function Cancelled(st: State, id: TicketId): State {
    st.(tickets := st.tickets - {id})
  }

  function KeptAlive(st: State, id: TicketId): State {
    var ticket := RecordOf(st.tickets, id);
    if ticket.timeout == 0 then st
    else
      var extended := SatAdd64(SatAdd64(ticket.timeout, SatMul64(ticket.windowsLeft, RETRYABLE_LIFETIME_SECONDS)),
                               RETRYABLE_LIFETIME_SECONDS);
      st.(tickets := st.tickets[id := ticket.(timeout := extended, windowsLeft := 0)])
  }

  /** A frame's state changes and logs survive only its success; a halt burns all its gas. */
  function RunFrame(f: Frame, st: State, env: Env): Ran
    decreases f, 1
  {
    var r := RunSteps(f.steps, st, env);
    match f.end
    case Success => r
    case Revert => Ran(st, [], r.spent)
    case Halt => Ran(st, [], f.limit)
  }

  function RunSteps(steps: Steps, st: State, env: Env): Ran
    decreases steps, 1
  {
    match steps
    case Done => Ran(st, [], 0)
    case Do(first, rest) =>
      var r1 := RunStep(first, st, env);
      var r2 := RunSteps(rest, r1.state, env);
      Ran(r2.state, r1.logs + r2.logs, r1.spent + r2.spent)
  }

  function RunStep(step: Step, st: State, env: Env): Ran
    decreases step, 0
  {
    match step
    case Compute(gas) => Ran(st, [], gas)
    case Emit(gas, log) => Ran(st, [log], gas)
    case Cancel(gas, id) => Ran(Cancelled(st, id), [], gas)
    case Keepalive(gas, id) => Ran(KeptAlive(st, id), [], gas)
    case Call(overhead, stipend, callee) =>
      var r := RunFrame(callee, st, env);
      Ran(r.state, r.logs, SatSub(overhead + r.spent, stipend))
    case CallRedeem(overhead, stipend, call, refusedSpent) =>
      match RedeemOutcome(st, env, call)
      case Refused => Ran(st, [], SatSub(overhead + refusedSpent, stipend))
      case Announced(tx, st', spent) =>
        Ran(st', [RedeemScheduledLog(ARB_RETRYABLE_TX_ADDRESS, tx)], SatSub(overhead + spent, stipend))
  }

  // ---------- The gas discipline of the EVM ----------

  /** Every step of the frame had its gas when it needed it, and only the precompile logs under its own address. */
  predicate FitsFrame(f: Frame, st: State, env: Env)
    decreases f, 1
  {
    FitsSteps(f.steps, st, env, f.limit)
  }

  predicate FitsSteps(steps: Steps, st: State, env: Env, gas: nat)
    decreases steps, 1
  {
    match steps
    case Done => true
    case Do(first, rest) =>
      var r := RunStep(first, st, env);
      FitsStep(first, st, env, gas) && (r.spent <= gas ==> FitsSteps(rest, r.state, env, gas - r.spent))
  }

  predicate FitsStep(step: Step, st: State, env: Env, gas: nat)
    decreases step, 0
  {
    match step
    case Compute(g) => g <= gas
    case Emit(g, log) => g <= gas && log.address != ARB_RETRYABLE_TX_ADDRESS
    case Cancel(g, _) => g <= gas
    case Keepalive(g, _) => g <= gas
    case Call(overhead, stipend, callee) =>
      && stipend <= overhead && overhead + callee.limit <= gas + stipend
      && FitsFrame(callee, st, env)
    case CallRedeem(overhead, stipend, call, refusedSpent) =>
      && stipend <= overhead && overhead + call.gasLimit <= gas + stipend
      && refusedSpent <= call.gasLimit
  }

  // ---------- Donated gas is paid for ----------

  /** The gas a log promises to a retry, with the redeem's own overhead. */
  function LogWeight(log: Log): nat {
    if IsRedeemScheduledLog(log) && |log.data| == 128 then AbiWord(log.data, 0) + REDEEM_OVERHEAD else 0
  }

  function LogsWeight(logs: seq<Log>): nat {
    if logs == [] then 0 else LogsWeight(logs[..|logs|-1]) + LogWeight(logs[|logs|-1])
  }

  lemma {:induction false} LogsWeightAppend(a: seq<Log>, b: seq<Log>)
    ensures LogsWeight(a + b) == LogsWeight(a) + LogsWeight(b)
    decreases |b|
  {
    if b == [] {
      assert a + b == a;
    } else {
      assert (a + b)[..|a + b|-1] == a + b[..|b|-1];
      LogsWeightAppend(a, b[..|b|-1]);
    }
  }

  /** Whatever redeems a frame makes, at any depth, the gas donated in its surviving logs was charged to it,
      and the frame never spends more than it was given. */
  lemma {:induction false} FramePaysForItsLogs(f: Frame, st: State, env: Env)
    requires FitsFrame(f, st, env)
    ensures var r := RunFrame(f, st, env);
            LogsWeight(r.logs) <= r.spent <= f.limit
    decreases f, 1
  {
    StepsPayForTheirLogs(f.steps, st, env, f.limit);
  }

  lemma {:induction false} StepsPayForTheirLogs(steps: Steps, st: State, env: Env, gas: nat)
    requires FitsSteps(steps, st, env, gas)
    ensures var r := RunSteps(steps, st, env);
            LogsWeight(r.logs) <= r.spent <= gas
    decreases steps, 1
  {
    match steps
    case Done =>
    case Do(first, rest) =>
      var r1 := RunStep(first, st, env);
      StepPaysForItsLogs(first, st, env, gas);
      StepsPayForTheirLogs(rest, r1.state, env, gas - r1.spent);
      LogsWeightAppend(r1.logs, RunSteps(rest, r1.state, env).logs);
  }

  lemma {:induction false} StepPaysForItsLogs(step: Step, st: State, env: Env, gas: nat)
    requires FitsStep(step, st, env, gas)
    ensures var r := RunStep(step, st, env);
            LogsWeight(r.logs) <= r.spent <= gas
    decreases step, 0
  {
    match step
    case Compute(_) =>
    case Emit(_, log) => SingleLogWeight(log);
    case Cancel(_, _) =>
    case Keepalive(_, _) =>
    case Call(_, _, callee) => FramePaysForItsLogs(callee, st, env);
    case CallRedeem(_, _, call, _) =>
      RedeemChargesMoreThanItDonates(st, env, call);
      var r := RedeemOutcome(st, env, call);
      if r.Announced? {
        LogDataRoundTrip(ARB_RETRYABLE_TX_ADDRESS, r.tx);
        SingleLogWeight(RedeemScheduledLog(ARB_RETRYABLE_TX_ADDRESS, r.tx));
      }
  }

  lemma SingleLogWeight(log: Log)
    ensures LogsWeight([log]) == LogWeight(log)
  {
    assert [log][..0] == [];
    assert LogsWeight([]) == 0;
  }

  // ---------- From logs to scheduled retries ----------

  /** One unit per transaction on top of its gas. */
  function RetriesWeight(txs: seq<TxRetry>): nat {
    if txs == [] then 0 else RetriesWeight(txs[..|txs|-1]) + txs[|txs|-1].gasLimit + 1
  }

  function Sum(ns: seq<nat>): nat {
    if ns == [] then 0 else Sum(ns[..|ns|-1]) + ns[|ns|-1]
  }

  lemma {:induction false} WeightWithinSum(os: seq<Option<TxRetry>>, ns: seq<nat>)
    requires |os| == |ns| && forall i :: 0 <= i < |os| && os[i].Some? ==> os[i].value.gasLimit + 1 <= ns[i]
    ensures RetriesWeight(Somes(os)) <= Sum(ns)
    decreases |os|
  {
    if os != [] {
      WeightWithinSum(os[..|os|-1], ns[..|ns|-1]);
      var earlier := Somes(os[..|os|-1]);
      if os[|os|-1].Some? {
        assert (earlier + [os[|os|-1].value])[..|earlier|] == earlier;
      } else {
        assert earlier + [] == earlier;
      }
    }
  }

  function LogWeights(logs: seq<Log>): (ns: seq<nat>)
    ensures |ns| == |logs| && forall i :: 0 <= i < |logs| ==> ns[i] == LogWeight(logs[i])
  {
    seq(|logs|, i requires 0 <= i < |logs| => LogWeight(logs[i]))
  }

  lemma {:induction false} LogsWeightIsSum(logs: seq<Log>)
    ensures LogsWeight(logs) == Sum(LogWeights(logs))
    decreases |logs|
  {
    if logs != [] {
      LogsWeightIsSum(logs[..|logs|-1]);
      assert LogWeights(logs)[..|logs|-1] == LogWeights(logs[..|logs|-1]);
    }
  }

  lemma ScheduledLogWeight(tickets: Tickets, log: Log, baseFee: U64, chainId: U64)
    ensures var o := RetryFromLog(tickets, log, baseFee, chainId);
            o.Some? ==> o.value.gasLimit + 1 <= LogWeight(log)
  {
  }

  /** The retries a transaction schedules weigh no more than the gas its logs donate. */
  lemma ScheduledWithinLogs(tickets: Tickets, logs: seq<Log>, baseFee: U64, chainId: U64)
    ensures RetriesWeight(RetriesFromLogs(tickets, logs, baseFee, chainId)) <= LogsWeight(logs)
  {
    var os := Outcomes(tickets, logs, baseFee, chainId);
    ScanIsSomes(tickets, logs, baseFee, chainId);
    LogsWeightIsSum(logs);
    forall i | 0 <= i < |os|
      ensures os[i].Some? ==> os[i].value.gasLimit + 1 <= LogWeights(logs)[i]
    {
      ScheduledLogWeight(tickets, logs[i], baseFee, chainId);
    }
    WeightWithinSum(os, LogWeights(logs));
  }
}
