/**
 Retries that are refused when their turn comes: the second retry of a ticket that two
 transactions redeemed, and what a refused retry does to the queue it is in.
 */
module RefusedRetries {
  import opened Words
  import opened Retryables
  import opened RetryTx
  import opened Redeem
  import opened ScheduledRetries
  import opened EscrowRuns
  import opened MessageQueue

  /** One redeem schedules its retry, as long as the counter has not saturated. */
  lemma RedeemSchedulesItsRetry(st: State, env: Env, call: RedeemCall)
    requires RedeemOutcome(st, env, call).Announced? && RecordOf(st.tickets, call.ticketId).numTries < U64_MAX
    ensures var r := RedeemOutcome(st, env, call);
            && r.tx.ticketId == call.ticketId
            && r.tx.from == RecordOf(st.tickets, call.ticketId).from
            && RecordOf(r.state.tickets, call.ticketId).numTries == RecordOf(st.tickets, call.ticketId).numTries + 1
            && RetriesFromLogs(r.state.tickets, [RedeemScheduledLog(ARB_RETRYABLE_TX_ADDRESS, r.tx)], env.baseFee, env.chainId)
               == [r.tx]
  {
    var r := RedeemOutcome(st, env, call);
    var log := RedeemScheduledLog(ARB_RETRYABLE_TX_ADDRESS, r.tx);
    RedeemChargesMoreThanItDonates(st, env, call);
    AnnouncementRoundTrip(r.state.tickets, r.tx, env.baseFee, env.chainId);
    assert [log][..0] == [];
    assert RetriesFromLogs(r.state.tickets, [], env.baseFee, env.chainId) == [];
  }

  /** Both redeems schedule a retry of the ticket, with consecutive sequence numbers. */
  lemma BothRetriesAreQueued(st: State, env: Env, first: RedeemCall, second: RedeemCall)
    requires first.ticketId == second.ticketId && RecordOf(st.tickets, first.ticketId).numTries < U64_MAX - 1
    requires RedeemOutcome(st, env, first).Announced?
    requires RedeemOutcome(RedeemOutcome(st, env, first).state, env, second).Announced?
    ensures var r1 := RedeemOutcome(st, env, first);
            var r2 := RedeemOutcome(r1.state, env, second);
            && RetriesFromLogs(r1.state.tickets, [RedeemScheduledLog(ARB_RETRYABLE_TX_ADDRESS, r1.tx)], env.baseFee,
                               env.chainId) == [r1.tx]
            && RetriesFromLogs(r2.state.tickets, [RedeemScheduledLog(ARB_RETRYABLE_TX_ADDRESS, r2.tx)], env.baseFee,
                               env.chainId) == [r2.tx]
            && r1.tx.ticketId == r2.tx.ticketId == first.ticketId && r2.tx.nonce == r1.tx.nonce + 1
  {
    RedeemSchedulesItsRetry(st, env, first);
    RedeemSchedulesItsRetry(RedeemOutcome(st, env, first).state, env, second);
  }

  /** Once the first retry has succeeded, the second is refused whatever happens in between. */
  lemma SecondRetryIsRefused(c: Chain, w: World, run: seq<Step>, second: TxRetry, now: U64, nonce: U64)
    requires Proper(c) && Backed(c, w) && Run(c, w, run)
    requires second.ticketId in w.tickets && second.from == w.tickets[second.ticketId].from
    requires run != [] && run[0].SuccessfulRetry? && run[0].tx.ticketId == second.ticketId
    requires forall i :: 0 <= i < |run| ==> !Submits(run[i], second.ticketId)
    ensures var refused := Refusal(WorldAfter(c, w, run), nonce, second, now, c.escrowOf(second.ticketId), c.settings);
            refused == if GasRefusal(second, c.settings).Some? then GasRefusal(second, c.settings) else Some(TicketNotFound)
  {
    assert Drops(run[0], second.ticketId);
    QueuedRetryIsRefused(c, w, run, second, now, nonce);
  }

  // ---------- The message is dropped ----------

  lemma {:induction false} ScheduleGrows<S>(entries: seq<Entry<S>>, k: nat)
    requires k <= |entries|
    ensures Schedule(entries[..k]) <= Schedule(entries)
    decreases |entries|
  {
    if k == |entries| {
      assert entries[..k] == entries;
    } else {
      var init := entries[..|entries| - 1];
      ScheduleGrows(init, k);
      assert init[..k] == entries[..k];
    }
  }

  /** The two redeems and the two retries they queue, as executing them one after the other turns out. */
  predicate RedeemsTwice<S>(transact: (S, Envelope) -> Transacted<S>, start: S, e1: Envelope, e2: Envelope, t1: TxRetry,
                            t2: TxRetry, baseFee: U64, chainId: U64)
  {
    var x1 := transact(start, e1);
    && x1.Transacted? && x1.success && RetriesFromLogs(x1.tickets, x1.logs, baseFee, chainId) == [t1]
    && var x2 := transact(x1.next, e2);
       && x2.Transacted? && x2.success && RetriesFromLogs(x2.tickets, x2.logs, baseFee, chainId) == [t2]
       && var x3 := transact(x2.next, RetryEnvelope(t1));
          x3.Transacted? && transact(x3.next, RetryEnvelope(t2)).Fatal?
  }

  /** However far a run of that message has come, its queue is not empty: the run can only end at the refused retry. */
  lemma {:induction false} MessageCannotFinish<S(!new)>(transact: (S, Envelope) -> Transacted<S>, supported: Envelope -> bool, start: S,
                                        e1: Envelope, e2: Envelope, t1: TxRetry, t2: TxRetry, baseFee: U64, chainId: U64,
                                        ran: seq<Entry<S>>, pending: seq<Envelope>)
    requires forall e :: supported(e)
    requires RedeemsTwice(transact, start, e1, e2, t1, t2, baseFee, chainId)
    requires Envelopes(ran) + pending == [e1, e2] + Enveloped(Schedule(ran))
    requires AllFaithful(ran, start, transact, supported, true, baseFee, chainId)
    ensures pending != []
  {
    BothCannotFinish(transact, supported, start, e1, e2, t1, t2, baseFee, chainId, ran);
    assert Envelopes(ran) + [] == Envelopes(ran);
  }

  lemma {:induction false} BothCannotFinish<S(!new)>(transact: (S, Envelope) -> Transacted<S>, supported: Envelope -> bool, start: S,
                                                     e1: Envelope, e2: Envelope, t1: TxRetry, t2: TxRetry, baseFee: U64,
                                                     chainId: U64, ran: seq<Entry<S>>)
    requires forall e :: supported(e)
    requires RedeemsTwice(transact, start, e1, e2, t1, t2, baseFee, chainId)
    requires AllFaithful(ran, start, transact, supported, true, baseFee, chainId)
    ensures Envelopes(ran) != [e1, e2] + Enveloped(Schedule(ran))
  {
    if Envelopes(ran) == [e1, e2] + Enveloped(Schedule(ran)) {
      FourthIsRefused(transact, supported, start, e1, e2, t1, t2, baseFee, chainId, ran);
      assert false;
    }
  }

  /** The first three entries fix the fourth transaction and its fate. */
  lemma {:induction false} FourthIsRefused<S(!new)>(transact: (S, Envelope) -> Transacted<S>, supported: Envelope -> bool, start: S,
                                 e1: Envelope, e2: Envelope, t1: TxRetry, t2: TxRetry, baseFee: U64, chainId: U64,
                                 ran: seq<Entry<S>>)
    requires forall e :: supported(e)
    requires RedeemsTwice(transact, start, e1, e2, t1, t2, baseFee, chainId)
    requires Envelopes(ran) == [e1, e2] + Enveloped(Schedule(ran))
    requires forall i :: 0 <= i < |ran| && i < 3 ==>
      Faithful(ran[i], StateAfter(start, ran[..i], true), transact, supported, true, baseFee, chainId)
    ensures |ran| >= 4 && ran[3].envelope == RetryEnvelope(t2)
    ensures transact(StateAfter(start, ran[..3], true), ran[3].envelope).Fatal?
    ensures !Faithful(ran[3], StateAfter(start, ran[..3], true), transact, supported, true, baseFee, chainId)
  {
    FirstTwo(transact, supported, start, e1, e2, t1, t2, baseFee, chainId, ran);
    EnvelopesAre(ran, e1, e2);
    assert Faithful(ran[2], StateAfter(start, ran[..2], true), transact, supported, true, baseFee, chainId);
    var s2 := transact(transact(start, e1).next, e2).next;
    ThirdState(transact, supported, start, t1, baseFee, chainId, ran, s2);
    assert transact(transact(s2, RetryEnvelope(t1)).next, RetryEnvelope(t2)).Fatal?;
  }

  /** The state in which the second retry has its turn. */
  lemma {:induction false} ThirdState<S(!new)>(transact: (S, Envelope) -> Transacted<S>, supported: Envelope -> bool, start: S,
                                               t1: TxRetry, baseFee: U64, chainId: U64, ran: seq<Entry<S>>, s2: S)
    requires |ran| >= 3 && supported(ran[2].envelope) && ran[2].envelope == RetryEnvelope(t1)
    requires StateAfter(start, ran[..2], true) == s2 && transact(s2, RetryEnvelope(t1)).Transacted?
    requires Faithful(ran[2], s2, transact, supported, true, baseFee, chainId)
    ensures StateAfter(start, ran[..3], true) == transact(s2, RetryEnvelope(t1)).next
  {
    LastOf(start, ran, 3);
  }

  lemma {:induction false} LastOf<S>(start: S, ran: seq<Entry<S>>, k: nat)
    requires 0 < k <= |ran|
    ensures StateAfter(start, ran[..k], true)
         == if ran[k - 1].result.Some? && ran[k - 1].result.value.Transacted? then ran[k - 1].result.value.next
            else StateAfter(start, ran[..k - 1], true)
    ensures Schedule(ran[..k]) == Schedule(ran[..k - 1]) + ran[k - 1].scheduled
  {
    assert ran[..k][..k - 1] == ran[..k - 1];
  }

  lemma {:induction false} FirstTwo<S(!new)>(transact: (S, Envelope) -> Transacted<S>, supported: Envelope -> bool, start: S,
                                             e1: Envelope, e2: Envelope, t1: TxRetry, t2: TxRetry, baseFee: U64,
                                             chainId: U64, ran: seq<Entry<S>>)
    requires forall e :: supported(e)
    requires RedeemsTwice(transact, start, e1, e2, t1, t2, baseFee, chainId)
    requires Envelopes(ran) == [e1, e2] + Enveloped(Schedule(ran))
    requires forall i :: 0 <= i < |ran| && i < 3 ==>
      Faithful(ran[i], StateAfter(start, ran[..i], true), transact, supported, true, baseFee, chainId)
    ensures |ran| >= 4 && Schedule(ran)[0] == t1 && Schedule(ran)[1] == t2
    ensures StateAfter(start, ran[..2], true) == transact(transact(start, e1).next, e2).next
  {
    var x1 := transact(start, e1);
    var x2 := transact(x1.next, e2);
    EnvelopesAre(ran, e1, e2);
    NothingYet(start, ran);
    EntryIs(transact, supported, start, ran[0], x1, t1, baseFee, chainId);
    AfterOne(start, ran, x1);
    EntryIs(transact, supported, x1.next, ran[1], x2, t2, baseFee, chainId);
    AfterTwo(start, ran, x1, x2, t1, t2);
    ScheduleGrows(ran, 2);
  }

  /** The entry of a transaction that succeeds and schedules one retry. */
  lemma {:induction false} EntryIs<S(!new)>(transact: (S, Envelope) -> Transacted<S>, supported: Envelope -> bool, s: S,
                                            entry: Entry<S>, x: Transacted<S>, t: TxRetry, baseFee: U64, chainId: U64)
    requires supported(entry.envelope) && x == transact(s, entry.envelope) && x.Transacted? && x.success
    requires RetriesFromLogs(x.tickets, x.logs, baseFee, chainId) == [t]
    requires Faithful(entry, s, transact, supported, true, baseFee, chainId)
    ensures entry.result == Some(x) && entry.scheduled == [t]
  {
  }

  lemma {:induction false} AfterOne<S>(start: S, ran: seq<Entry<S>>, x1: Transacted<S>)
    requires |ran| >= 1 && x1.Transacted? && ran[0].result == Some(x1)
    ensures StateAfter(start, ran[..1], true) == x1.next
  {
    LastOf(start, ran, 1);
  }

  lemma {:induction false} AfterTwo<S>(start: S, ran: seq<Entry<S>>, x1: Transacted<S>, x2: Transacted<S>, t1: TxRetry,
                                       t2: TxRetry)
    requires |ran| >= 2 && x2.Transacted? && ran[1].result == Some(x2)
    requires ran[0].scheduled == [t1] && ran[1].scheduled == [t2]
    ensures StateAfter(start, ran[..2], true) == x2.next && Schedule(ran[..2]) == [t1, t2]
  {
    NothingYet(start, ran);
    LastOf(start, ran, 1);
    LastOf(start, ran, 2);
  }

  lemma {:induction false} NothingYet<S>(start: S, ran: seq<Entry<S>>)
    ensures StateAfter(start, ran[..0], true) == start && Schedule(ran[..0]) == []
  {
  }

  /** The message's own transactions come first, then what was scheduled. */
  lemma {:induction false} EnvelopesAre<S>(ran: seq<Entry<S>>, e1: Envelope, e2: Envelope)
    requires Envelopes(ran) == [e1, e2] + Enveloped(Schedule(ran))
    ensures |ran| == 2 + |Schedule(ran)| && ran[0].envelope == e1 && ran[1].envelope == e2
    ensures forall i :: 2 <= i < |ran| ==> ran[i].envelope == RetryEnvelope(Schedule(ran)[i - 2])
  {
    assert forall i :: 0 <= i < |ran| ==> Envelopes(ran)[i] == ran[i].envelope;
    assert ([e1, e2] + Enveloped(Schedule(ran)))[0] == e1 && ([e1, e2] + Enveloped(Schedule(ran)))[1] == e2;
  }

  // ---------- One transaction and its retry ----------

  /** The transaction succeeds and schedules one retry, which is then refused. */
  predicate RetriedInVain<S>(transact: (S, Envelope) -> Transacted<S>, start: S, e: Envelope, t: TxRetry, baseFee: U64,
                             chainId: U64)
  {
    var x := transact(start, e);
    && x.Transacted? && x.success && RetriesFromLogs(x.tickets, x.logs, baseFee, chainId) == [t]
    && transact(x.next, RetryEnvelope(t)).Fatal?
  }

  /** No run of that transaction as a message empties its queue. */
  lemma {:induction false} AloneCannotFinish<S(!new)>(transact: (S, Envelope) -> Transacted<S>, supported: Envelope -> bool, start: S,
                                                      e: Envelope, t: TxRetry, baseFee: U64, chainId: U64, ran: seq<Entry<S>>)
    requires forall e :: supported(e)
    requires RetriedInVain(transact, start, e, t, baseFee, chainId)
    requires AllFaithful(ran, start, transact, supported, true, baseFee, chainId)
    ensures Envelopes(ran) != [e] + Enveloped(Schedule(ran))
  {
    if Envelopes(ran) == [e] + Enveloped(Schedule(ran)) {
      FirstIs(ran, e);
      assert Faithful(ran[0], StateAfter(start, ran[..0], true), transact, supported, true, baseFee, chainId);
      NextIs(transact, supported, start, e, t, baseFee, chainId, ran);
      assert false;
    }
  }

  lemma {:induction false} FirstIs<S>(ran: seq<Entry<S>>, e: Envelope)
    requires Envelopes(ran) == [e] + Enveloped(Schedule(ran))
    ensures |ran| == 1 + |Schedule(ran)| && ran[0].envelope == e
    ensures forall i :: 1 <= i < |ran| ==> ran[i].envelope == RetryEnvelope(Schedule(ran)[i - 1])
  {
    assert forall i :: 0 <= i < |ran| ==> Envelopes(ran)[i] == ran[i].envelope;
    assert ([e] + Enveloped(Schedule(ran)))[0] == e;
  }

  lemma {:induction false} NextIs<S(!new)>(transact: (S, Envelope) -> Transacted<S>, supported: Envelope -> bool, start: S,
                                           e: Envelope, t: TxRetry, baseFee: U64, chainId: U64, ran: seq<Entry<S>>)
    requires forall e :: supported(e)
    requires RetriedInVain(transact, start, e, t, baseFee, chainId)
    requires |ran| == 1 + |Schedule(ran)| && ran[0].envelope == e
    requires forall i :: 1 <= i < |ran| ==> ran[i].envelope == RetryEnvelope(Schedule(ran)[i - 1])
    requires Faithful(ran[0], StateAfter(start, ran[..0], true), transact, supported, true, baseFee, chainId)
    ensures |ran| >= 2 && !Faithful(ran[1], StateAfter(start, ran[..1], true), transact, supported, true, baseFee, chainId)
  {
    NothingYet(start, ran);
    EntryIs(transact, supported, start, ran[0], transact(start, e), t, baseFee, chainId);
    LastOf(start, ran, 1);
    ScheduleGrows(ran, 1);
    assert Schedule(ran[..1]) == [t];
  }
}
