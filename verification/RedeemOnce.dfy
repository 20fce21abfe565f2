/** However often one transaction redeems a ticket, at any call depth, it schedules at most one retry of it. */
module RedeemOnce {
  import opened Words
  import opened Retryables
  import opened Redeem
  import opened ScheduledRetries
  import opened Frames

  /** Whether the log announces a try of ticket `id`. */
  predicate Announces(log: Log, id: TicketId) {
    IsRedeemScheduledLog(log) && log.topics[1] == Word(id) && log.topics[3].Word?
  }

  /** The sequence numbers announced for `id`, in order. */
  function Tries(logs: seq<Log>, id: TicketId): seq<nat> {
    if logs == [] then []
    else
      Tries(logs[..|logs|-1], id)
      + if Announces(logs[|logs|-1], id) then [logs[|logs|-1].topics[3].word] else []
  }

  lemma {:induction false} TriesAppend(a: seq<Log>, b: seq<Log>, id: TicketId)
    ensures Tries(a + b, id) == Tries(a, id) + Tries(b, id)
    decreases |b|
  {
    if b == [] {
      assert a + b == a;
    } else {
      assert (a + b)[..|a + b|-1] == a + b[..|b|-1];
      TriesAppend(a, b[..|b|-1], id);
    }
  }

  /** Sequence numbers climb until the counter saturates. */
  predicate Climbing(tries: seq<nat>) {
    forall i, j :: 0 <= i < j < |tries| ==> tries[i] < tries[j] || tries[j] == U64_MAX
  }

  /** What every step keeps: announced numbers climb, and a live ticket's counter is one past the last. */
  predicate Counted(tries: seq<nat>, st: State, id: TicketId) {
    && Climbing(tries)
    && (tries != [] ==>
          && tries[|tries|-1] <= U64_MAX
          && (Exists'(st, id) ==> RecordOf(st.tickets, id).numTries == SatAdd64(tries[|tries|-1], 1)))
  }

  predicate Exists'(st: State, id: TicketId) {
    RecordOf(st.tickets, id).timeout != 0
  }

  lemma AnotherTry(tries: seq<nat>, st: State, id: TicketId)
    requires Counted(tries, st, id) && Exists'(st, id)
    ensures Climbing(tries + [RecordOf(st.tickets, id).numTries])
  {
  }

  lemma {:induction false} FrameKeepsCount(f: Frame, st: State, env: Env, tries: seq<nat>, id: TicketId)
    requires FitsFrame(f, st, env) && Counted(tries, st, id)
    ensures var r := RunFrame(f, st, env);
            Counted(tries + Tries(r.logs, id), r.state, id)
    decreases f, 1
  {
    var r := RunFrame(f, st, env);
    if f.end.Success? {
      StepsKeepCount(f.steps, st, env, f.limit, tries, id);
    } else {
      assert r.logs == [] && r.state == st;
      assert tries + [] == tries;
    }
  }

  lemma {:induction false} StepsKeepCount(steps: Steps, st: State, env: Env, gas: nat, tries: seq<nat>, id: TicketId)
    requires FitsSteps(steps, st, env, gas) && Counted(tries, st, id)
    ensures var r := RunSteps(steps, st, env);
            Counted(tries + Tries(r.logs, id), r.state, id)
    decreases steps, 1
  {
    match steps
    case Done => assert tries + [] == tries;
    case Do(first, rest) =>
      var r1 := RunStep(first, st, env);
      var r2 := RunSteps(rest, r1.state, env);
      StepPaysForItsLogs(first, st, env, gas);
      StepKeepsCount(first, st, env, gas, tries, id);
      StepsKeepCount(rest, r1.state, env, gas - r1.spent, tries + Tries(r1.logs, id), id);
      JoinTries(tries, r1.logs, r2.logs, id);
  }

  lemma JoinTries(tries: seq<nat>, a: seq<Log>, b: seq<Log>, id: TicketId)
    ensures tries + Tries(a + b, id) == tries + Tries(a, id) + Tries(b, id)
  {
    TriesAppend(a, b, id);
  }

  lemma {:induction false} StepKeepsCount(step: Step, st: State, env: Env, gas: nat, tries: seq<nat>, id: TicketId)
    requires FitsStep(step, st, env, gas) && Counted(tries, st, id)
    ensures var r := RunStep(step, st, env);
            Counted(tries + Tries(r.logs, id), r.state, id)
    decreases step, 0
  {
    assert tries + [] == tries;
    match step
    case Compute(_) =>
    case Emit(_, log) => SingleTry(log, id);
    case Cancel(_, other) => CancelKeepsCount(st, other, tries, id);
    case Keepalive(_, other) => KeepaliveKeepsCount(st, other, tries, id);
    case Call(_, _, callee) => FrameKeepsCount(callee, st, env, tries, id);
    case CallRedeem(_, _, call, _) =>
      if RedeemOutcome(st, env, call).Announced? {
        RedeemStepKeepsCount(st, env, call, tries, id);
      }
  }

  lemma CancelKeepsCount(st: State, other: TicketId, tries: seq<nat>, id: TicketId)
    requires Counted(tries, st, id)
    ensures Counted(tries, Cancelled(st, other), id)
  {
  }

  lemma KeepaliveKeepsCount(st: State, other: TicketId, tries: seq<nat>, id: TicketId)
    requires Counted(tries, st, id)
    ensures Counted(tries, KeptAlive(st, other), id)
  {
  }

  lemma RedeemStepKeepsCount(st: State, env: Env, call: RedeemCall, tries: seq<nat>, id: TicketId)
    requires RedeemOutcome(st, env, call).Announced? && Counted(tries, st, id)
    ensures var r := RedeemOutcome(st, env, call);
            Counted(tries + Tries([RedeemScheduledLog(ARB_RETRYABLE_TX_ADDRESS, r.tx)], id), r.state, id)
  {
    var r := RedeemOutcome(st, env, call);
    AnnouncedIsRedeemed(st, env, call);
    RedeemKeepsCount(st, r.state, r.tx, tries, id);
  }

  lemma SingleTry(log: Log, id: TicketId)
    ensures Tries([log], id) == if Announces(log, id) then [log.topics[3].word] else []
  {
    assert [log][..0] == [];
  }

  /** What a redeem does to its ticket and says about it. */
  predicate Redeemed(st: State, st': State, tx: TxRetry) {
    var ticket := RecordOf(st.tickets, tx.ticketId);
    && ticket.timeout != 0 && tx.nonce == ticket.numTries
    && st'.tickets == st.tickets[tx.ticketId := ticket.(numTries := SatAdd64(ticket.numTries, 1))]
  }

  lemma AnnouncedIsRedeemed(st: State, env: Env, call: RedeemCall)
    requires RedeemOutcome(st, env, call).Announced?
    ensures Redeemed(st, RedeemOutcome(st, env, call).state, RedeemOutcome(st, env, call).tx)
  {
  }

  lemma RedeemKeepsCount(st: State, st': State, tx: TxRetry, tries: seq<nat>, id: TicketId)
    requires Counted(tries, st, id) && Redeemed(st, st', tx)
    ensures Counted(tries + Tries([RedeemScheduledLog(ARB_RETRYABLE_TX_ADDRESS, tx)], id), st', id)
  {
    var log := RedeemScheduledLog(ARB_RETRYABLE_TX_ADDRESS, tx);
    SingleTry(log, id);
    LogTopics(tx, log);
    if id == tx.ticketId {
      AnotherTry(tries, st, id);
    } else {
      assert tries + [] == tries;
    }
  }

  // ---------- At most one announcement passes the scan ----------

  function CountFor(txs: seq<TxRetry>, id: TicketId): nat {
    if txs == [] then 0
    else CountFor(txs[..|txs|-1], id) + if txs[|txs|-1].ticketId == id then 1 else 0
  }

  function Occurrences(tries: seq<nat>, n: nat): nat {
    if tries == [] then 0
    else Occurrences(tries[..|tries|-1], n) + if tries[|tries|-1] == n then 1 else 0
  }

  lemma {:induction false} OccursOnce(tries: seq<nat>, n: nat)
    requires Climbing(tries) && n < U64_MAX
    ensures Occurrences(tries, n) <= 1
    ensures Occurrences(tries, n) == 1 <==> n in tries
    decreases |tries|
  {
    if tries != [] {
      OccursOnce(tries[..|tries|-1], n);
      assert tries == tries[..|tries|-1] + [tries[|tries|-1]];
    }
  }

  function Ones(flags: seq<bool>): nat {
    if flags == [] then 0 else Ones(flags[..|flags|-1]) + if flags[|flags|-1] then 1 else 0
  }

  predicate Counts(o: Option<TxRetry>, id: TicketId) {
    o.Some? && o.value.ticketId == id
  }

  lemma CountForLast(os: seq<Option<TxRetry>>, id: TicketId)
    requires os != []
    ensures CountFor(Somes(os), id) == CountFor(Somes(os[..|os|-1]), id) + if Counts(os[|os|-1], id) then 1 else 0
  {
    var earlier := Somes(os[..|os|-1]);
    if os[|os|-1].Some? {
      assert (earlier + [os[|os|-1].value])[..|earlier|] == earlier;
    } else {
      assert earlier + [] == earlier;
    }
  }

  lemma {:induction false} CountAtMost(os: seq<Option<TxRetry>>, flags: seq<bool>, id: TicketId)
    requires |os| == |flags| && forall i :: 0 <= i < |os| && Counts(os[i], id) ==> flags[i]
    ensures CountFor(Somes(os), id) <= Ones(flags)
    decreases |os|
  {
    if os != [] {
      CountAtMost(os[..|os|-1], flags[..|flags|-1], id);
      CountForLast(os, id);
    }
  }

  lemma {:induction false} CountAtLeast(os: seq<Option<TxRetry>>, flags: seq<bool>, id: TicketId)
    requires |os| == |flags| && forall i :: 0 <= i < |os| && flags[i] ==> Counts(os[i], id)
    ensures CountFor(Somes(os), id) >= Ones(flags)
    decreases |os|
  {
    if os != [] {
      CountAtLeast(os[..|os|-1], flags[..|flags|-1], id);
      CountForLast(os, id);
    }
  }

  /** The log announces try `n` of the ticket. */
  predicate AnnouncesTry(log: Log, id: TicketId, n: nat) {
    Announces(log, id) && log.topics[3].word == n
  }

  function TryFlags(logs: seq<Log>, id: TicketId, n: nat): (flags: seq<bool>)
    ensures |flags| == |logs| && forall i :: 0 <= i < |logs| ==> flags[i] == AnnouncesTry(logs[i], id, n)
  {
    seq(|logs|, i requires 0 <= i < |logs| => AnnouncesTry(logs[i], id, n))
  }

  lemma {:induction false} OccurrencesAreFlags(logs: seq<Log>, id: TicketId, n: nat)
    ensures Occurrences(Tries(logs, id), n) == Ones(TryFlags(logs, id, n))
    decreases |logs|
  {
    if logs != [] {
      var earlier := Tries(logs[..|logs|-1], id);
      OccurrencesAreFlags(logs[..|logs|-1], id, n);
      assert TryFlags(logs, id, n)[..|logs|-1] == TryFlags(logs[..|logs|-1], id, n);
      if Announces(logs[|logs|-1], id) {
        assert Tries(logs, id)[..|earlier|] == earlier;
      } else {
        assert earlier + [] == earlier;
      }
    }
  }

  lemma OneIsLatest(tickets: Tickets, log: Log, baseFee: U64, chainId: U64, id: TicketId)
    requires Counts(RetryFromLog(tickets, log, baseFee, chainId), id)
    ensures RecordOf(tickets, id).numTries != 0 && AnnouncesTry(log, id, RecordOf(tickets, id).numTries - 1)
  {
  }

  lemma OutcomesAreLatest(tickets: Tickets, logs: seq<Log>, baseFee: U64, chainId: U64, id: TicketId, flags: seq<bool>)
    requires |flags| == |logs|
    requires RecordOf(tickets, id).numTries != 0 ==>
      forall i :: 0 <= i < |logs| && AnnouncesTry(logs[i], id, RecordOf(tickets, id).numTries - 1) ==> flags[i]
    ensures CountFor(RetriesFromLogs(tickets, logs, baseFee, chainId), id) <= Ones(flags)
  {
    var os := Outcomes(tickets, logs, baseFee, chainId);
    ScanIsSomes(tickets, logs, baseFee, chainId);
    forall i | 0 <= i < |os| && Counts(os[i], id)
      ensures flags[i]
    {
      OneIsLatest(tickets, logs[i], baseFee, chainId, id);
    }
    CountAtMost(os, flags, id);
  }

  /** Every scheduled retry of `id` comes from an announcement of its latest try. */
  lemma ScheduledAreLatest(tickets: Tickets, logs: seq<Log>, baseFee: U64, chainId: U64, id: TicketId, n: nat)
    requires RecordOf(tickets, id).numTries == n + 1
    ensures CountFor(RetriesFromLogs(tickets, logs, baseFee, chainId), id) <= Occurrences(Tries(logs, id), n)
  {
    var flags := TryFlags(logs, id, n);
    OutcomesAreLatest(tickets, logs, baseFee, chainId, id, flags);
    OccurrencesAreFlags(logs, id, n);
  }

  lemma UntriedIsNotScheduled(tickets: Tickets, logs: seq<Log>, baseFee: U64, chainId: U64, id: TicketId)
    requires RecordOf(tickets, id).numTries == 0
    ensures CountFor(RetriesFromLogs(tickets, logs, baseFee, chainId), id) == 0
  {
    var none := seq(|logs|, _ => false);
    OutcomesAreLatest(tickets, logs, baseFee, chainId, id, none);
    NoOnes(none);
  }

  lemma {:induction false} NoOnes(flags: seq<bool>)
    requires forall i :: 0 <= i < |flags| ==> !flags[i]
    ensures Ones(flags) == 0
    decreases |flags|
  {
    if flags != [] {
      NoOnes(flags[..|flags|-1]);
    }
  }

  /** What an execution leaves behind for the scan. */
  lemma ExecutionCounts(f: Frame, st: State, env: Env, id: TicketId)
    requires FitsFrame(f, st, env)
    ensures var r := RunFrame(f, st, env);
            Counted(Tries(r.logs, id), r.state, id)
  {
    FrameKeepsCount(f, st, env, [], id);
    assert [] + Tries(RunFrame(f, st, env).logs, id) == Tries(RunFrame(f, st, env).logs, id);
  }

  lemma AtMostOneOfTries(tickets: Tickets, logs: seq<Log>, baseFee: U64, chainId: U64, id: TicketId, n: nat)
    requires RecordOf(tickets, id).numTries == n + 1 && Climbing(Tries(logs, id))
    ensures CountFor(RetriesFromLogs(tickets, logs, baseFee, chainId), id) <= 1
  {
    ScheduledAreLatest(tickets, logs, baseFee, chainId, id, n);
    OccursOnce(Tries(logs, id), n);
  }

  /** Over any execution, at most one retry per ticket is scheduled. */
  lemma AtMostOneRetryPerTicket(f: Frame, st: State, env: Env, id: TicketId)
    requires FitsFrame(f, st, env)
    ensures var r := RunFrame(f, st, env);
            CountFor(RetriesFromLogs(r.state.tickets, r.logs, env.baseFee, env.chainId), id) <= 1
  {
    var r := RunFrame(f, st, env);
    ExecutionCounts(f, st, env, id);
    var n := RecordOf(r.state.tickets, id).numTries;
    if n == 0 {
      UntriedIsNotScheduled(r.state.tickets, r.logs, env.baseFee, env.chainId, id);
    } else {
      AtMostOneOfTries(r.state.tickets, r.logs, env.baseFee, env.chainId, id, n - 1);
    }
  }

  // ---------- And the latest one does ----------

  /** A log that announces a try of `id` is one the scan can read. */
  predicate Legible(log: Log, id: TicketId) {
    Announces(log, id) ==> |log.data| == 128 && 0 < AbiWord(log.data, 0) <= U64_MAX && log.topics[3].word <= U64_MAX
  }

  predicate Readable(logs: seq<Log>, id: TicketId) {
    forall i :: 0 <= i < |logs| ==> Legible(logs[i], id)
  }

  lemma {:induction false} FrameLogsReadable(f: Frame, st: State, env: Env, id: TicketId)
    requires FitsFrame(f, st, env)
    ensures Readable(RunFrame(f, st, env).logs, id)
    decreases f, 1
  {
    StepsLogsReadable(f.steps, st, env, f.limit, id);
  }

  lemma {:induction false} StepsLogsReadable(steps: Steps, st: State, env: Env, gas: nat, id: TicketId)
    requires FitsSteps(steps, st, env, gas)
    ensures Readable(RunSteps(steps, st, env).logs, id)
    decreases steps, 1
  {
    match steps
    case Done =>
    case Do(first, rest) =>
      var r1 := RunStep(first, st, env);
      StepPaysForItsLogs(first, st, env, gas);
      StepLogsReadable(first, st, env, gas, id);
      StepsLogsReadable(rest, r1.state, env, gas - r1.spent, id);
  }

  lemma {:induction false} StepLogsReadable(step: Step, st: State, env: Env, gas: nat, id: TicketId)
    requires FitsStep(step, st, env, gas)
    ensures Readable(RunStep(step, st, env).logs, id)
    decreases step, 0
  {
    match step
    case Call(_, _, callee) => FrameLogsReadable(callee, st, env, id);
    case CallRedeem(_, _, call, _) =>
      var r := RedeemOutcome(st, env, call);
      if r.Announced? {
        LogDataRoundTrip(ARB_RETRYABLE_TX_ADDRESS, r.tx);
        RedeemChargesMoreThanItDonates(st, env, call);
      }
    case _ =>
  }

  lemma LatestIsScheduled(tickets: Tickets, log: Log, baseFee: U64, chainId: U64, id: TicketId)
    requires RecordOf(tickets, id).numTries != 0 && AnnouncesTry(log, id, RecordOf(tickets, id).numTries - 1)
    requires Legible(log, id)
    ensures Counts(RetryFromLog(tickets, log, baseFee, chainId), id)
  {
  }

  lemma LatestAreScheduled(tickets: Tickets, logs: seq<Log>, baseFee: U64, chainId: U64, id: TicketId)
    requires Readable(logs, id)
    requires RecordOf(tickets, id).numTries != 0
    ensures CountFor(RetriesFromLogs(tickets, logs, baseFee, chainId), id)
            >= Occurrences(Tries(logs, id), RecordOf(tickets, id).numTries - 1)
  {
    var latest := RecordOf(tickets, id).numTries - 1;
    var os := Outcomes(tickets, logs, baseFee, chainId);
    ScanIsSomes(tickets, logs, baseFee, chainId);
    OccurrencesAreFlags(logs, id, latest);
    forall i | 0 <= i < |os| && TryFlags(logs, id, latest)[i]
      ensures Counts(os[i], id)
    {
      LatestIsScheduled(tickets, logs[i], baseFee, chainId, id);
    }
    CountAtLeast(os, TryFlags(logs, id, latest), id);
  }

  /** A ticket that was redeemed at least once, is still there and whose counter has not saturated gets
      exactly one retry. */
  lemma RedeemedTicketIsRetriedOnce(f: Frame, st: State, env: Env, id: TicketId)
    requires FitsFrame(f, st, env)
    requires var r := RunFrame(f, st, env);
             Tries(r.logs, id) != [] && RecordOf(r.state.tickets, id).timeout != 0
             && RecordOf(r.state.tickets, id).numTries < U64_MAX
    ensures var r := RunFrame(f, st, env);
            CountFor(RetriesFromLogs(r.state.tickets, r.logs, env.baseFee, env.chainId), id) == 1
  {
    var r := RunFrame(f, st, env);
    AtMostOneRetryPerTicket(f, st, env, id);
    ExecutionCounts(f, st, env, id);
    FrameLogsReadable(f, st, env, id);
    LatestAreScheduled(r.state.tickets, r.logs, env.baseFee, env.chainId, id);
    OccursOnce(Tries(r.logs, id), RecordOf(r.state.tickets, id).numTries - 1);
  }
}
