/** Account balances, the journal's transfer, and the sum of all wei. */
module Ledger {

  const ADDRESS_BOUND: nat := 0x1_0000_0000_0000_0000_0000_0000_0000_0000_0000_0000

  type Address = a: nat | a < ADDRESS_BOUND
  type Balances = map<Address, nat>

  const ZERO_ADDRESS: Address := 0

  function BalanceOf(b: Balances, a: Address): nat {
    if a in b then b[a] else 0
  }

  /** The sum of all balances. */
  ghost function Total(b: Balances): nat {
    if b == map[] then 0 else
    var a :| a in b;
    b[a] + Total(b - {a})
  }

  lemma {:induction false} TotalRemove(b: Balances, a: Address)
    requires a in b
    ensures Total(b) == b[a] + Total(b - {a})
    decreases |b|
  {
    var c :| c in b && Total(b) == b[c] + Total(b - {c});
    if a != c {
      var rest := b - {c};
      TotalRemove(rest, a);
      TotalRemove(b - {a}, c);
      assert rest - {a} == b - {a} - {c};
    }
  }

  lemma TotalUpdate(b: Balances, a: Address, v: nat)
    ensures Total(b[a := v]) + BalanceOf(b, a) == Total(b) + v
  {
    TotalRemove(b[a := v], a);
    assert b[a := v] - {a} == b - {a};
    if a in b {
      TotalRemove(b, a);
    } else {
      assert b - {a} == b;
    }
  }

  lemma BalanceLeTotal(b: Balances, a: Address)
    ensures BalanceOf(b, a) <= Total(b)
  {
    if a in b {
      TotalRemove(b, a);
    }
  }

  /** Two distinct accounts cannot hold more than everything. */
  lemma TwoBalancesLeTotal(b: Balances, a: Address, c: Address)
    requires a != c
    ensures BalanceOf(b, a) + BalanceOf(b, c) <= Total(b)
  {
    if a in b {
      TotalRemove(b, a);
      BalanceLeTotal(b - {a}, c);
    } else {
      BalanceLeTotal(b, c);
    }
  }

  // A transfer skipped because its amount is zero and one that moves nothing are the same.
  datatype Payment = Payment(src: Address, dst: Address, amount: nat)

  predicate Funded(b: Balances, p: Payment) {
    p.amount <= BalanceOf(b, p.src)
  }

  /** The balances after a payment; an unfunded payment or one to oneself changes nothing. */
  function Pay(b: Balances, p: Payment): Balances {
    if p.amount == 0 || p.src == p.dst || !Funded(b, p) then b
    else b[p.src := BalanceOf(b, p.src) - p.amount][p.dst := BalanceOf(b, p.dst) + p.amount]
  }

  lemma PayConserves(b: Balances, p: Payment)
    ensures Total(Pay(b, p)) == Total(b)
  {
    if p.amount != 0 && p.src != p.dst && Funded(b, p) {
      var debited := b[p.src := BalanceOf(b, p.src) - p.amount];
      TotalUpdate(b, p.src, BalanceOf(b, p.src) - p.amount);
      TotalUpdate(debited, p.dst, BalanceOf(b, p.dst) + p.amount);
    }
  }

  /** What a funded payment does to one balance. */
  lemma PayBalance(b: Balances, p: Payment, a: Address)
    requires Funded(b, p)
    ensures BalanceOf(Pay(b, p), a)
         == BalanceOf(b, a) + (if a == p.dst && a != p.src then p.amount else 0)
            - (if a == p.src && a != p.dst then p.amount else 0)
  {
  }

  function Mint(b: Balances, a: Address, v: nat): Balances {
    b[a := BalanceOf(b, a) + v]
  }

  lemma MintAdds(b: Balances, a: Address, v: nat)
    ensures Total(Mint(b, a, v)) == Total(b) + v
  {
    TotalUpdate(b, a, BalanceOf(b, a) + v);
  }

  // ---------- Lists of payments ----------

  /** Payments in order, the latest outermost. */
  datatype Payments = NoPayments | Then(earlier: Payments, last: Payment)

  /** The balances after all payments of the list, in order. */
  function Settle(b: Balances, ps: Payments): Balances {
    match ps
    case NoPayments => b
    case Then(earlier, p) => Pay(Settle(b, earlier), p)
  }

  /** Every payment of the list is funded when its turn comes. */
  predicate Affordable(b: Balances, ps: Payments) {
    match ps
    case NoPayments => true
    case Then(earlier, p) => Affordable(b, earlier) && Funded(Settle(b, earlier), p)
  }

  /** One more payment at the end: what it does to the ledger, its payer and its receiver. */
  lemma PayLast(b: Balances, ps: Payments, p: Payment)
    requires Affordable(b, ps) && Funded(Settle(b, ps), p)
    ensures Affordable(b, Then(ps, p)) && Settle(b, Then(ps, p)) == Pay(Settle(b, ps), p)
    ensures BalanceOf(Settle(b, Then(ps, p)), p.src) >= BalanceOf(Settle(b, ps), p.src) - p.amount
    ensures BalanceOf(Settle(b, Then(ps, p)), p.dst) >= p.amount
    ensures forall a: Address :: a != p.src ==> BalanceOf(Settle(b, Then(ps, p)), a) >= BalanceOf(Settle(b, ps), a)
  {
    var before := Settle(b, ps);
    PayBalance(before, p, p.src);
    PayBalance(before, p, p.dst);
    forall a: Address
      ensures a != p.src ==> BalanceOf(Pay(before, p), a) >= BalanceOf(before, a)
    {
      PayBalance(before, p, a);
    }
  }

  function Received(ps: Payments, a: Address): nat {
    match ps
    case NoPayments => 0
    case Then(earlier, p) => Received(earlier, a) + if p.dst == a then p.amount else 0
  }

  function Sent(ps: Payments, a: Address): nat {
    match ps
    case NoPayments => 0
    case Then(earlier, p) => Sent(earlier, a) + if p.src == a then p.amount else 0
  }

  lemma {:induction false} SettleConserves(b: Balances, ps: Payments)
    ensures Total(Settle(b, ps)) == Total(b)
    decreases ps
  {
    match ps
    case NoPayments =>
    case Then(earlier, p) =>
      SettleConserves(b, earlier);
      PayConserves(Settle(b, earlier), p);
  }

  /** An account ends with what it had, plus what it received, minus what it sent. */
  lemma {:induction false} SettleBalance(b: Balances, ps: Payments, a: Address)
    requires Affordable(b, ps)
    ensures BalanceOf(Settle(b, ps), a) + Sent(ps, a) == BalanceOf(b, a) + Received(ps, a)
    decreases ps
  {
    match ps
    case NoPayments =>
    case Then(earlier, _) => SettleBalance(b, earlier, a);
  }
}
