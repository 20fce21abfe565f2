/** The mutable chain state that the transaction hooks update step by step. */
module Journaled {
  import opened Words
  import opened Ledger
  import opened Retryables
  import opened L2Pricing

  datatype TransferError = OutOfFunds | OverflowPayment

  /** What the journal answers to a transfer request. */
  function TransferVerdict(b: Balances, p: Payment): Option<TransferError> {
    if !Funded(b, p) then Some(OutOfFunds)
    else if p.amount != 0 && p.src != p.dst && BalanceOf(b, p.dst) + p.amount > U256_MAX then Some(OverflowPayment)
    else None
  }

  /** With all wei together fitting 256 bits, a transfer fails only for lack of funds. */
  lemma OnlyFundsMatter(b: Balances, p: Payment)
    requires Total(b) <= U256_MAX
    ensures TransferVerdict(b, p) == if Funded(b, p) then None else Some(OutOfFunds)
  {
    if p.src != p.dst {
      TwoBalancesLeTotal(b, p.src, p.dst);
    }
  }

  class Journal {
    const escrowOf: TicketId -> Address
    const settings: Settings
    const filteredTxs: set<TicketId>
    var balances: Balances
    var nonces: map<Address, U64>
    var tickets: Tickets
    var timeoutQueue: seq<TicketId>
    var logs: seq<Log>
    var pricing: Pricing
    // Tickets of this block whose escrow a successful redeem brings back as an empty account, and those brought back.
    var pendingZombies: seq<TicketId>
    var revived: set<Address>

    ghost predicate Solvent()
      reads this
    {
      Total(balances) <= U256_MAX
    }

    constructor (escrowOf: TicketId -> Address, settings: Settings, filteredTxs: set<TicketId>, balances: Balances,
                 pricing: Pricing)
      ensures this.escrowOf == escrowOf && this.settings == settings && this.filteredTxs == filteredTxs
      ensures this.balances == balances && this.pricing == pricing
      ensures tickets == map[] && nonces == map[] && timeoutQueue == [] && logs == []
      ensures pendingZombies == [] && revived == {}
    {
      this.escrowOf := escrowOf;
      this.settings := settings;
      this.filteredTxs := filteredTxs;
      this.balances := balances;
      this.pricing := pricing;
      nonces, tickets, timeoutQueue, logs := map[], map[], [], [];
      pendingZombies, revived := [], {};
    }

    method BalanceIncr(a: Address, v: nat)
      requires Total(balances) + v <= U256_MAX
      modifies this`balances
      ensures balances == Mint(old(balances), a, v)
      ensures Total(balances) == Total(old(balances)) + v
    {
      MintAdds(balances, a, v);
      balances := balances[a := BalanceOf(balances, a) + v];
    }

    method Transfer(src: Address, dst: Address, amount: U256) returns (err: Option<TransferError>)
      requires Solvent()
      modifies this`balances
      ensures Solvent() && Total(balances) == Total(old(balances))
      ensures balances == Pay(old(balances), Payment(src, dst, amount))
      ensures err == if Funded(old(balances), Payment(src, dst, amount)) then None else Some(OutOfFunds)
    {
      var p := Payment(src, dst, amount);
      OnlyFundsMatter(balances, p);
      PayConserves(balances, p);
      if BalanceOf(balances, src) < amount {
        return Some(OutOfFunds);
      }
      if amount == 0 || src == dst {
        return None;
      }
      if BalanceOf(balances, dst) + amount > U256_MAX {
        return Some(OverflowPayment);
      }
      balances := balances[src := BalanceOf(balances, src) - amount];
      balances := balances[dst := BalanceOf(balances, dst) + amount];
      return None;
    }
  }
}
