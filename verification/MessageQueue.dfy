/** Executing a message: a FIFO queue of its transactions and of the retries they schedule. */
module MessageQueue {
  import opened Words
  import opened Ledger
  import opened Retryables
  import opened Redeem
  import opened ScheduledRetries
  import opened Frames
  import SubmitRetryable

  datatype Envelope =
    | SubmitEnvelope(index: nat, usergas: U64)
    | PlainEnvelope(index: nat, gasLimit: U64)
    | RetryEnvelope(tx: TxRetry)

  /** What one transaction did to the chain: fatal errors abort the whole message. */
  datatype Transacted<+S> = Fatal | Transacted(success: bool, next: S, tickets: Tickets, logs: seq<Log>)

  // ---------- What is known of a transaction's logs ----------

  /** A submission and the ticket it created. */
  datatype Submission = Submission(others: Tickets, from: Address, id: TicketId, call: SubmitRetryable.SubmitCall,
                                   settings: Settings, now: U64)

  /** The logs of a successful submission: its ticket, and its auto-redeem if one was scheduled. */
  predicate SubmissionLogs(sub: Submission, tickets: Tickets, logs: seq<Log>, baseFee: U64, chainId: U64) {
    logs == [TicketCreatedLog(sub.id)]
    || (&& sub.call.gasLimit >= SubmitRetryable.TX_GAS
        && tickets == sub.others[sub.id := SubmitRetryable.NewTicket(SubmitRetryable.Scheduled, sub.from, sub.call, sub.now)]
        && var q := SubmitRetryable.QuoteOf(sub.call, sub.settings, baseFee);
           var tx := SubmitRetryable.AutoRedeem(chainId, sub.from, sub.id, sub.call, sub.settings, q);
           logs == [TicketCreatedLog(sub.id), RedeemScheduledLog(ARB_RETRYABLE_TX_ADDRESS, tx)])
  }

  /** The submit hook discharges this: whenever it reports a created ticket, its logs are submission logs. */
  lemma SubmitHookLogs(minted: Balances, escrow: Address, chainId: U64, sub: Submission, filtered: bool, baseFee: U64,
                       tickets': Tickets, queue: seq<TicketId>, queue': seq<TicketId>, logs': seq<Log>)
    requires var q := SubmitRetryable.QuoteOf(sub.call, sub.settings, baseFee);
             var stage := SubmitRetryable.StageOf(minted, sub.from, escrow, sub.call, sub.settings, q, filtered);
             && SubmitRetryable.OutcomeOf(stage, sub.call, filtered).Created?
             && SubmitRetryable.Recorded(stage, chainId, sub.from, sub.id, sub.call, sub.settings, sub.now, q, sub.others,
                                         tickets', queue, queue', [], logs')
    ensures SubmissionLogs(sub, tickets', logs', baseFee, chainId)
  {
    var log := TicketCreatedLog(sub.id);
    assert [] + [log] + [] == [log];
    assert forall other :: [] + [log] + [other] == [log, other];
  }

  /** A frame run by the EVM within a transaction's gas. */
  datatype Execution = Execution(frame: Frame, state: State, env: Env)

  predicate ExecutionLogs(x: Execution, gasLimit: nat, logs: seq<Log>) {
    FitsFrame(x.frame, x.state, x.env) && x.frame.limit <= gasLimit && logs == RunFrame(x.frame, x.state, x.env).logs
  }

  /** The contract of execution: a successful submission logs what the submit hook logs, and any other successful
      transaction logs what some frame tree logs within its gas. */
  ghost predicate Plausible<S>(e: Envelope, r: Transacted<S>, baseFee: U64, chainId: U64) {
    r.Fatal? || !r.success ||
    match e
    case SubmitEnvelope(_, usergas) =>
      exists sub: Submission :: sub.call.gasLimit == usergas && SubmissionLogs(sub, r.tickets, r.logs, baseFee, chainId)
    case PlainEnvelope(_, gasLimit) => exists x :: ExecutionLogs(x, gasLimit, r.logs)
    case RetryEnvelope(tx) => exists x :: ExecutionLogs(x, tx.gasLimit, r.logs)
  }

  // ---------- The weight of the queue ----------

  function Weight(e: Envelope): nat {
    match e
    case SubmitEnvelope(_, usergas) => usergas + 2
    case PlainEnvelope(_, gasLimit) => gasLimit + 1
    case RetryEnvelope(tx) => tx.gasLimit + 1
  }

  function QueueWeight(queue: seq<Envelope>): nat {
    if queue == [] then 0 else Weight(queue[0]) + QueueWeight(queue[1..])
  }

  lemma {:induction false} QueueWeightAppend(a: seq<Envelope>, b: seq<Envelope>)
    ensures QueueWeight(a + b) == QueueWeight(a) + QueueWeight(b)
    decreases |a|
  {
    if a == [] {
      assert a + b == b;
    } else {
      assert (a + b)[1..] == a[1..] + b;
      QueueWeightAppend(a[1..], b);
    }
  }

  function Enveloped(txs: seq<TxRetry>): seq<Envelope> {
    seq(|txs|, i requires 0 <= i < |txs| => RetryEnvelope(txs[i]))
  }

  lemma {:induction false} EnvelopedWeight(txs: seq<TxRetry>)
    ensures QueueWeight(Enveloped(txs)) == RetriesWeight(txs)
    decreases |txs|
  {
    if txs != [] {
      var init := txs[..|txs|-1];
      var last := RetryEnvelope(txs[|txs|-1]);
      EnvelopedWeight(init);
      assert Enveloped(txs) == Enveloped(init) + [last];
      QueueWeightAppend(Enveloped(init), [last]);
      assert [last][1..] == [];
      assert QueueWeight([last]) == Weight(last);
    }
  }

  /** Whatever a transaction schedules weighs strictly less than the transaction itself. */
  lemma {:induction false} ScheduleWeighsLess<S>(e: Envelope, r: Transacted<S>, baseFee: U64, chainId: U64)
    requires Plausible(e, r, baseFee, chainId) && r.Transacted? && r.success
    ensures RetriesWeight(RetriesFromLogs(r.tickets, r.logs, baseFee, chainId)) < Weight(e)
  {
    match e
    case SubmitEnvelope(_, usergas) =>
      var sub: Submission :| sub.call.gasLimit == usergas && SubmissionLogs(sub, r.tickets, r.logs, baseFee, chainId);
      SubmissionSchedules(sub, r.tickets, r.logs, baseFee, chainId);
    case PlainEnvelope(_, gasLimit) =>
      var x :| ExecutionLogs(x, gasLimit, r.logs);
      ExecutionSchedules(x, gasLimit, r.tickets, r.logs, baseFee, chainId);
    case RetryEnvelope(tx) =>
      var x :| ExecutionLogs(x, tx.gasLimit, r.logs);
      ExecutionSchedules(x, tx.gasLimit, r.tickets, r.logs, baseFee, chainId);
  }

  lemma ExecutionSchedules(x: Execution, gasLimit: nat, tickets: Tickets, logs: seq<Log>, baseFee: U64, chainId: U64)
    requires ExecutionLogs(x, gasLimit, logs)
    ensures RetriesWeight(RetriesFromLogs(tickets, logs, baseFee, chainId)) <= gasLimit
  {
    FramePaysForItsLogs(x.frame, x.state, x.env);
    ScheduledWithinLogs(tickets, logs, baseFee, chainId);
  }

  lemma SubmissionSchedules(sub: Submission, tickets: Tickets, logs: seq<Log>, baseFee: U64, chainId: U64)
    requires SubmissionLogs(sub, tickets, logs, baseFee, chainId)
    ensures RetriesWeight(RetriesFromLogs(tickets, logs, baseFee, chainId)) <= sub.call.gasLimit + 1
  {
    if logs == [TicketCreatedLog(sub.id)] {
      assert logs[..0] == [];
      assert RetriesFromLogs(tickets, logs, baseFee, chainId) == [];
    } else {
      ScheduledSubmitYieldsItsRedeem(sub.others, chainId, sub.from, sub.id, sub.call, sub.settings, sub.now, baseFee);
      var tx := SubmitRetryable.AutoRedeem(chainId, sub.from, sub.id, sub.call, sub.settings,
                                           SubmitRetryable.QuoteOf(sub.call, sub.settings, baseFee));
      SingleRetryWeight(tx);
    }
  }

  lemma SingleRetryWeight(tx: TxRetry)
    ensures RetriesWeight([tx]) == tx.gasLimit + 1
  {
    assert [tx][..0] == [];
  }

  // ---------- The loop ----------

  /** One popped transaction: `result` is None when its envelope is not supported and it is skipped. */
  datatype Entry<+S> = Entry(envelope: Envelope, result: Option<Transacted<S>>, scheduled: seq<TxRetry>)

  datatype Outcome<+S> = Outcome(attempted: nat, executed: nat, skipped: nat, entries: seq<Entry<S>>, final: S)

  function Envelopes<S>(entries: seq<Entry<S>>): seq<Envelope> {
    seq(|entries|, i requires 0 <= i < |entries| => entries[i].envelope)
  }

  /** Everything the entries scheduled, in order. */
  function Schedule<S>(entries: seq<Entry<S>>): seq<TxRetry> {
    if entries == [] then [] else Schedule(entries[..|entries|-1]) + entries[|entries|-1].scheduled
  }

  /** How many of the entries were executed rather than skipped. */
  function ExecutedCount<S>(entries: seq<Entry<S>>): nat {
    if entries == [] then 0
    else ExecutedCount(entries[..|entries|-1]) + if entries[|entries|-1].result.Some? then 1 else 0
  }

  /** The chain state after the entries; a dry run commits nothing. */
  function StateAfter<S>(s: S, entries: seq<Entry<S>>, commits: bool): S {
    if entries == [] then s
    else
      var last := entries[|entries|-1];
      if commits && last.result.Some? && last.result.value.Transacted? then last.result.value.next
      else StateAfter(s, entries[..|entries|-1], commits)
  }

  /** The entry records what executing its envelope in state `s` gives. */
  predicate Faithful<S(==)>(entry: Entry<S>, s: S, transact: (S, Envelope) -> Transacted<S>, supported: Envelope -> bool,
                            commits: bool, baseFee: U64, chainId: U64)
  {
    if !supported(entry.envelope) then entry.result == None && entry.scheduled == []
    else
      var r := transact(s, entry.envelope);
      && r.Transacted?
      && entry.result == Some(r)
      && entry.scheduled == if commits && r.success then RetriesFromLogs(r.tickets, r.logs, baseFee, chainId) else []
  }

  predicate AllFaithful<S(==)>(entries: seq<Entry<S>>, s: S, transact: (S, Envelope) -> Transacted<S>,
                               supported: Envelope -> bool, commits: bool, baseFee: U64, chainId: U64)
  {
    forall i :: 0 <= i < |entries| ==>
      Faithful(entries[i], StateAfter(s, entries[..i], commits), transact, supported, commits, baseFee, chainId)
  }

  lemma {:induction false} AppendEntry<S>(entries: seq<Entry<S>>, entry: Entry<S>, s: S, commits: bool)
    ensures Envelopes(entries + [entry]) == Envelopes(entries) + [entry.envelope]
    ensures Schedule(entries + [entry]) == Schedule(entries) + entry.scheduled
    ensures ExecutedCount(entries + [entry]) == ExecutedCount(entries) + if entry.result.Some? then 1 else 0
    ensures StateAfter(s, entries + [entry], commits)
         == if commits && entry.result.Some? && entry.result.value.Transacted? then entry.result.value.next
            else StateAfter(s, entries, commits)
    ensures forall i :: 0 <= i <= |entries| ==> (entries + [entry])[..i] == entries[..i]
  {
    assert (entries + [entry])[..|entries|] == entries;
  }

  lemma EnvelopedAppend(a: seq<TxRetry>, b: seq<TxRetry>)
    ensures Enveloped(a + b) == Enveloped(a) + Enveloped(b)
  {
  }

  /** Popping the front and queueing behind the rest keeps the order of everything ever queued. */
  lemma Fifo(popped: seq<Envelope>, front: Envelope, rest: seq<Envelope>, txs: seq<Envelope>, before: seq<Envelope>,
             added: seq<Envelope>)
    requires popped + ([front] + rest) == txs + before
    ensures popped + [front] + (rest + added) == txs + (before + added)
  {
    assert popped + [front] + (rest + added) == popped + ([front] + rest) + added;
  }

  /** Executes one popped transaction; None when the error is fatal. */
  method RunOne<S(!new,==)>(transact: (S, Envelope) -> Transacted<S>, supported: Envelope -> bool, s: S,
                            envelope: Envelope, commits: bool, baseFee: U64, chainId: U64)
    returns (done: Option<Entry<S>>)
    requires Plausible(envelope, transact(s, envelope), baseFee, chainId)
    ensures done.None? <==> supported(envelope) && transact(s, envelope).Fatal?
    ensures done.Some? ==>
              && done.value.envelope == envelope
              && Faithful(done.value, s, transact, supported, commits, baseFee, chainId)
              && RetriesWeight(done.value.scheduled) < Weight(envelope)
  {
    if !supported(envelope) {
      return Some(Entry(envelope, None, []));
    }
    var r := transact(s, envelope);
    if r.Fatal? {
      return None;
    }
    var scheduled := [];
    if commits && r.success {
      scheduled := ScheduledRetriesFromRedeemLogs(r.tickets, r.logs, baseFee, chainId);
      ScheduleWeighsLess(envelope, r, baseFee, chainId);
    }
    done := Some(Entry(envelope, Some(r), scheduled));
  }

  lemma {:induction false} FaithfulAppend<S(!new)>(entries: seq<Entry<S>>, entry: Entry<S>, s: S, transact: (S, Envelope) -> Transacted<S>,
                                supported: Envelope -> bool, commits: bool, baseFee: U64, chainId: U64)
    requires AllFaithful(entries, s, transact, supported, commits, baseFee, chainId)
    requires Faithful(entry, StateAfter(s, entries, commits), transact, supported, commits, baseFee, chainId)
    ensures AllFaithful(entries + [entry], s, transact, supported, commits, baseFee, chainId)
  {
    AppendEntry(entries, entry, s, commits);
    assert entries[..|entries|] == entries;
  }

  /** Runs a message to the end. It always ends: the queue loses weight at every pop, however many retries
      schedule retries. Every transaction of the message runs, in order, before any retry; the retries then run
      in the order they were scheduled; and nothing is lost or run twice. A fatal transaction drops the message:
      `ran` is what had run by then and `pending` the queue, with the fatal transaction at its front. */
  method ExecuteMessage<S(!new,==)>(transact: (S, Envelope) -> Transacted<S>, supported: Envelope -> bool, start: S,
                                    txs: seq<Envelope>, commits: bool, baseFee: U64, chainId: U64)
    returns (out: Option<Outcome<S>>, ghost ran: seq<Entry<S>>, ghost pending: seq<Envelope>)
    requires forall s, e :: Plausible(e, transact(s, e), baseFee, chainId)
    ensures out.Some? ==>
              var o := out.value;
              && Envelopes(o.entries) == txs + Enveloped(Schedule(o.entries))
              && AllFaithful(o.entries, start, transact, supported, commits, baseFee, chainId)
              && o.attempted == |txs|
              && o.executed == ExecutedCount(o.entries)
              && o.executed + o.skipped == |txs| + |Schedule(o.entries)|
              && o.final == StateAfter(start, o.entries, commits)
    ensures out.None? ==>
              && Envelopes(ran) + pending == txs + Enveloped(Schedule(ran))
              && AllFaithful(ran, start, transact, supported, commits, baseFee, chainId)
              && pending != []
              && supported(pending[0])
              && transact(StateAfter(start, ran, commits), pending[0]).Fatal?
  {
    var queue, s, entries := txs, start, [];
    var executed, skipped := 0, 0;
    while queue != []
      invariant Envelopes(entries) + queue == txs + Enveloped(Schedule(entries))
      invariant AllFaithful(entries, start, transact, supported, commits, baseFee, chainId)
      invariant executed + skipped == |entries| && executed == ExecutedCount(entries)
      invariant s == StateAfter(start, entries, commits)
      decreases QueueWeight(queue)
    {
      var front, rest := queue[0], queue[1..];
      assert queue == [front] + rest;
      var done := RunOne(transact, supported, s, front, commits, baseFee, chainId);
      if done.None? {
        return None, entries, queue;
      }
      var entry := done.value;
      if entry.result.None? {
        skipped := skipped + 1;
      } else {
        executed := executed + 1;
        if commits {
          s := entry.result.value.next;
        }
      }
      queue := rest + Enveloped(entry.scheduled);
      AppendEntry(entries, entry, start, commits);
      FaithfulAppend(entries, entry, start, transact, supported, commits, baseFee, chainId);
      Fifo(Envelopes(entries), front, rest, txs, Enveloped(Schedule(entries)), Enveloped(entry.scheduled));
      EnvelopedAppend(Schedule(entries), entry.scheduled);
      EnvelopedWeight(entry.scheduled);
      QueueWeightAppend(rest, Enveloped(entry.scheduled));
      entries := entries + [entry];
    }
    assert |Envelopes(entries)| == |entries|;
    assert Envelopes(entries) + queue == Envelopes(entries);
    out, ran, pending := Some(Outcome(|txs|, executed, skipped, entries, s)), entries, queue;
  }
}
