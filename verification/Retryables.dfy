/**
 The stored retryable ticket, the transactions and logs made from it, and the
 ArbOS settings the retryable code reads.
 */
module Retryables {
  import opened Words
  import opened Bytes
  import opened Ledger

  type TicketId = U256

  const RETRYABLE_LIFETIME_SECONDS: U64 := 7 * 24 * 60 * 60
  const ARB_RETRYABLE_TX_ADDRESS: Address := 0x6e
  const NIL_ADDRESS_REPRESENTATION: U256 :=
    0x8000_0000_0000_0000_0000_0000_0000_0000_0000_0000_0000_0000_0000_0000_0000_0000

  /** A retryable record, slot by slot; an unwritten record reads back as all zeroes. */
  datatype Ticket = Ticket(
    numTries: U64,
    from: Address,
    toRaw: U256,
    callvalue: U256,
    beneficiary: Address,
    timeout: U64,
    windowsLeft: U64,
    calldata: seq<Byte>)

  type Tickets = map<TicketId, Ticket>

  const NO_TICKET: Ticket := Ticket(0, 0, 0, 0, 0, 0, 0, [])

  function RecordOf(tickets: Tickets, id: TicketId): Ticket {
    if id in tickets then tickets[id] else NO_TICKET
  }

  predicate Exists(ticket: Ticket, now: U64) {
    ticket.timeout != 0 && ticket.timeout >= now
  }

  function RawTo(to: Option<Address>): U256 {
    match to
    case Some(a) => a
    case None => NIL_ADDRESS_REPRESENTATION
  }

  function ToOfRaw(raw: U256): Option<Address> {
    if raw == NIL_ADDRESS_REPRESENTATION then None else Some(raw % ADDRESS_BOUND)
  }

  /** A destination survives being stored, and a creation is not confused with a call. */
  lemma ToRoundTrip(to: Option<Address>)
    ensures ToOfRaw(RawTo(to)) == to
  {
  }

  datatype TxRetry = TxRetry(
    chainId: U256,
    nonce: U64,
    from: Address,
    gasFeeCap: U256,
    gasLimit: U64,
    to: Option<Address>,
    value: U256,
    input: seq<Byte>,
    ticketId: TicketId,
    refundTo: Address,
    maxRefund: U256,
    submissionFeeRefund: U256)

  // Hashes are symbolic: a hash is the value it was taken of, so distinct preimages never collide.
  datatype Topic = EventSignature(name: string) | Word(word: U256) | RetryHash(tx: TxRetry)

  datatype Log = Log(address: Address, topics: seq<Topic>, data: seq<Byte>)

  const TICKET_CREATED: Topic := EventSignature("TicketCreated(bytes32)")
  const REDEEM_SCHEDULED: Topic :=
    EventSignature("RedeemScheduled(bytes32,bytes32,uint64,uint64,address,uint256,uint256)")

  function TicketCreatedLog(id: TicketId): Log {
    Log(ARB_RETRYABLE_TX_ADDRESS, [TICKET_CREATED, Word(id)], [])
  }

  /** The RedeemScheduled event: three indexed words and four ABI words of data. */
  function RedeemScheduledLog(address: Address, tx: TxRetry): Log {
    Log(address,
        [REDEEM_SCHEDULED, Word(tx.ticketId), RetryHash(tx), Word(tx.nonce)],
        ToBytes(tx.gasLimit, WORD_BYTES) + ToBytes(tx.refundTo, WORD_BYTES)
        + ToBytes(tx.maxRefund, WORD_BYTES) + ToBytes(tx.submissionFeeRefund, WORD_BYTES))
  }

  /** ArbOS storage the retryable and fee code reads but does not write. */
  datatype Settings = Settings(
    arbosVersion: U64,
    networkFeeAccount: Address,
    infraFeeAccount: Address,
    minBaseFee: U256,
    filteredFundsRecipient: Address,
    calldataPriceIncrease: bool)
}
