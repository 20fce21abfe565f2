/**
 Fees of an ordinary transaction: prepayment, L1 poster gas, the compute cap,
 the refund cap, and the split of what was really used.
 */
module FeeSettlement {
  import opened Words
  import opened Ledger
  import opened L2Pricing
  import opened Frames

  const BATCH_POSTER_ADDRESS: Address := 0xA4B000000000000000000073657175656e636572
  const L1_PRICER_FUNDS_POOL_ADDRESS: Address := 0xA4B00000000000000000000000000000000000f6
  const ARBOS_2: nat := 2
  const ARBOS_5: nat := 5
  const ARBOS_9: nat := 9
  const ARBOS_10: nat := 10
  const ARBOS_50: nat := 50
  const ARBOS_60: nat := 60
  const TX_DATA_NON_ZERO_GAS: nat := 16

  /** The signed types, the contract type 0x66 and the unsigned type 0x65. revm checks fees of the first only. */
  datatype TxKind = Standard | Contract | Unsigned

  datatype Tx = Tx(kind: TxKind, caller: Address, nonce: U64, isCall: bool, gasLimit: U64, value: U256,
                   maxFeePerGas: nat, priorityFee: Option<nat>)

  datatype Block = Block(baseFee: U64, coinbase: Address)

  /** ArbOS settings that fee settlement reads; they do not change during a transaction. */
  datatype Fees = Fees(
    version: U64,
    collectTipsFlag: U64,
    networkFeeAccount: Address,
    infraFeeAccount: Address,
    minBaseFee: U256,
    pricePerUnit: U256,
    perBlockGasLimit: U64,
    perTxGasLimit: U64)

  /** What the chain context and revm tell about one transaction: its intrinsic gas, the length of its compressed
      bytes (None when it has none), its EIP-7702 refund, its EIP-7623 floor, and whether the London refund rule applies. */
  datatype Sizes = Sizes(intrinsicGas: U64, compressedLen: Option<U64>, authRefund: int, floorGas: U64, london: bool)

  /** How the first frame ended, what gas and refund it left, and the wei it moved. */
  datatype Exec = Exec(end: FrameEnd, remaining: U64, refunded: int, moved: Payments)

  /** revm's gas record of the transaction. */
  datatype Gas = Gas(remaining: nat, refunded: int)

  // ---------- Prices ----------

  predicate CollectTips(f: Fees, block: Block) {
    block.coinbase == BATCH_POSTER_ADDRESS && (f.version == ARBOS_9 || (f.version >= ARBOS_60 && f.collectTipsFlag != 0))
  }

  /** The price the transaction itself offers: its cap, or base fee plus priority fee when that is less. */
  function OwnPrice(tx: Tx, block: Block): nat {
    match tx.priorityFee
    case None => tx.maxFeePerGas
    case Some(priority) => Min(tx.maxFeePerGas, block.baseFee + priority)
  }

  /** The effective price, clamped to the base fee. */
  function EffectivePrice(tx: Tx, block: Block): nat {
    Min(OwnPrice(tx, block), block.baseFee)
  }

  /** Clamped, the priority fee no longer matters. */
  lemma EffectivePriceIsCapped(tx: Tx, block: Block)
    ensures EffectivePrice(tx, block) == Min(tx.maxFeePerGas, block.baseFee)
  {
  }

  function PaidPrice(tx: Tx, block: Block, f: Fees): nat {
    if CollectTips(f, block) then EffectivePrice(tx, block) else block.baseFee
  }

  function PosterPrice(tx: Tx, block: Block, f: Fees): nat {
    if PaidPrice(tx, block, f) == 0 then block.baseFee else PaidPrice(tx, block, f)
  }

  // ---------- Gas ----------

  /** Calldata units of a transaction; only the batch poster's blocks have any. */
  function CalldataUnits(compressedLen: Option<U64>, block: Block): U64 {
    if block.coinbase != BATCH_POSTER_ADDRESS || compressedLen.None? then 0
    else SatMul64(TX_DATA_NON_ZERO_GAS, compressedLen.value)
  }

  function PosterGasFor(compressedLen: Option<U64>, block: Block, f: Fees, price: nat): U64 {
    if price == 0 then 0
    else Min(SatMul256(f.pricePerUnit, CalldataUnits(compressedLen, block)) / price, U64_MAX)
  }

  function PosterGas(tx: Tx, block: Block, f: Fees, z: Sizes): U64 {
    PosterGasFor(z.compressedLen, block, f, PosterPrice(tx, block, f))
  }

  function LimitOrUnlimited(limit: U64): U64 {
    if limit == 0 then U64_MAX else limit
  }

  /** The cap on compute gas. */
  function MaxCompute(f: Fees, intrinsicGas: U64): U64 {
    if f.version < ARBOS_50 then LimitOrUnlimited(f.perBlockGasLimit)
    else SatSub(LimitOrUnlimited(f.perTxGasLimit), intrinsicGas)
  }

  function HoldGas(limit: U64, intrinsicGas: U64, posterGas: U64, maxCompute: U64): U64 {
    SatSub(SatSub(SatSub(limit, intrinsicGas), posterGas), maxCompute)
  }

  function TotalInitial(intrinsicGas: U64, posterGas: U64, holdGas: U64): U64 {
    SatAdd64(SatAdd64(intrinsicGas, posterGas), holdGas)
  }

  /** The gas the first frame starts with. */
  function FrameGas(limit: U64, intrinsicGas: U64, posterGas: U64, maxCompute: U64): nat {
    SatSub(limit, TotalInitial(intrinsicGas, posterGas, HoldGas(limit, intrinsicGas, posterGas, maxCompute)))
  }

  /** A transaction that can pay its overhead is admitted, and its first frame gets what is left, capped. One that
      cannot is rejected, unless its limit is the largest `u64`, where the sums saturate. */
  lemma FirstFrameIsCapped(limit: U64, intrinsicGas: U64, posterGas: U64, maxCompute: U64)
    ensures var hold := HoldGas(limit, intrinsicGas, posterGas, maxCompute);
            && (TotalInitial(intrinsicGas, posterGas, hold) <= limit
                <==> intrinsicGas + posterGas <= limit || limit == U64_MAX)
            && (intrinsicGas + posterGas <= limit ==>
                  FrameGas(limit, intrinsicGas, posterGas, maxCompute)
                  == Min(limit - intrinsicGas - posterGas, maxCompute))
  {
  }

  /** Gas returned by the first frame; a halt returns none. */
  function Returned(x: Exec): U64 {
    if x.end.Halt? then 0 else x.remaining
  }

  /** The record after the frame: rebuilt at the transaction's limit, then the held gas handed back. */
  function FrameRecord(x: Exec, holdGas: U64): Gas {
    Gas(Returned(x) + holdGas, if x.end.Success? then x.refunded else 0)
  }

  /** Gas spent before any refund. */
  function Spent(limit: U64, x: Exec, holdGas: U64): nat {
    SatSub(limit, FrameRecord(x, holdGas).remaining)
  }

  /** Held gas caps compute but is never billed: before refunds a transaction pays for intrinsic gas, poster gas and
      the compute it used, on success, revert and halt alike. */
  lemma HeldGasIsNotBilled(limit: U64, intrinsicGas: U64, posterGas: U64, maxCompute: U64, x: Exec)
    requires intrinsicGas + posterGas <= limit
    requires x.remaining <= FrameGas(limit, intrinsicGas, posterGas, maxCompute)
    ensures var hold := HoldGas(limit, intrinsicGas, posterGas, maxCompute);
            var compute := FrameGas(limit, intrinsicGas, posterGas, maxCompute) - Returned(x);
            Spent(limit, x, hold) == intrinsicGas + posterGas + compute
  {
    FirstFrameIsCapped(limit, intrinsicGas, posterGas, maxCompute);
  }

  /** The refund after its cap, which leaves poster gas out of the refundable part. */
  function RefundCap(refund: int, refundable: nat, london: bool): (r: nat)
    ensures r <= refundable
  {
    Min(if refund < 0 then 0 else refund, refundable / (if london then 5 else 2))
  }

  /** The bill once the refund is taken off and the calldata floor applied. */
  function AfterRefund(spent: nat, refund: int, posterGas: U64, z: Sizes): nat {
    var used := spent - RefundCap(refund, SatSub(spent, posterGas), z.london);
    if used < z.floorGas then z.floorGas else used
  }

  /** Gas the transaction is billed for, after refund and floor. */
  function GasUsed(limit: U64, posterGas: U64, z: Sizes, x: Exec, holdGas: U64): nat {
    AfterRefund(Spent(limit, x, holdGas), FrameRecord(x, holdGas).refunded + z.authRefund, posterGas, z)
  }

  /** Poster gas is never refunded, so computing gas used for compute never saturates; and the bill never
      exceeds the limit. */
  lemma PosterGasIsBilled(limit: U64, posterGas: U64, maxCompute: U64, z: Sizes, x: Exec)
    requires z.floorGas <= limit
    requires var hold := HoldGas(limit, z.intrinsicGas, posterGas, maxCompute);
             TotalInitial(z.intrinsicGas, posterGas, hold) <= limit
    requires x.remaining <= FrameGas(limit, z.intrinsicGas, posterGas, maxCompute)
    ensures var hold := HoldGas(limit, z.intrinsicGas, posterGas, maxCompute);
            posterGas <= GasUsed(limit, posterGas, z, x, hold) <= limit
  {
  }

  // ---------- Money ----------

  /** Everything a settled transaction charges and credits, in wei. */
  datatype Bill = Bill(prepaid: nat, refund: nat, infra: nat, network: nat, posterFee: nat)

  function ComputeGas(gasUsed: nat, posterGas: nat): nat {
    SatSub(gasUsed, posterGas)
  }

  function Cost(price: nat, gas: nat): nat {
    price * gas
  }

  function InfraShare(f: Fees, baseFee: U64, compute: nat): nat {
    if f.version >= ARBOS_5 && f.infraFeeAccount != ZERO_ADDRESS
    then Min(Cost(Min(f.minBaseFee, baseFee), compute), Cost(baseFee, compute)) else 0
  }

  function BillOf(tx: Tx, block: Block, f: Fees, posterGas: U64, gasUsed: nat): Bill
    requires gasUsed <= tx.gasLimit
  {
    var compute := ComputeGas(gasUsed, posterGas);
    var infra := InfraShare(f, block.baseFee, compute);
    Bill(Cost(PaidPrice(tx, block, f), tx.gasLimit), Cost(block.baseFee, tx.gasLimit - gasUsed),
         infra, Cost(block.baseFee, compute) - infra, Cost(PosterPrice(tx, block, f), posterGas))
  }

  function Credits(bill: Bill): nat {
    bill.refund + bill.infra + bill.network + bill.posterFee
  }

  lemma Distribute(price: nat, a: nat, b: nat, c: nat)
    ensures price * a + price * b + price * c == price * (a + b + c)
  {
  }

  /** All credits together: the base fee for the gas that is not poster gas, the poster price for the rest. */
  lemma CreditsTotal(tx: Tx, block: Block, f: Fees, posterGas: U64, gasUsed: nat)
    requires posterGas <= gasUsed <= tx.gasLimit
    ensures Credits(BillOf(tx, block, f, posterGas, gasUsed))
         == Cost(block.baseFee, tx.gasLimit - posterGas) + Cost(PosterPrice(tx, block, f), posterGas)
  {
    Distribute(block.baseFee, tx.gasLimit - gasUsed, gasUsed - posterGas, 0);
  }

  /** Settlement conserves wei exactly when the prepayment was made at the base fee, or nothing was prepaid at a
      lower price that is later credited at the base fee. Prepaying below the base fee happens only to a
      transaction whose own price is below it while tips are collected. */
  lemma SettlementBalances(tx: Tx, block: Block, f: Fees, posterGas: U64, gasUsed: nat)
    requires posterGas <= gasUsed <= tx.gasLimit
    ensures var bill := BillOf(tx, block, f, posterGas, gasUsed);
            Credits(bill) == bill.prepaid
            <==> (!CollectTips(f, block) || tx.maxFeePerGas >= block.baseFee
                  || tx.gasLimit == 0 || (tx.maxFeePerGas > 0 && tx.gasLimit == posterGas))
    ensures var bill := BillOf(tx, block, f, posterGas, gasUsed);
            Credits(bill) >= bill.prepaid
  {
    CreditsTotal(tx, block, f, posterGas, gasUsed);
    EffectivePriceIsCapped(tx, block);
    var b, p := block.baseFee, PaidPrice(tx, block, f);
    var rest := tx.gasLimit - posterGas;
    Distribute(b, rest, posterGas, 0);
    Distribute(p, rest, posterGas, 0);
    PriceGap(b, p, rest);
    PriceGap(b, p, tx.gasLimit);
  }

  lemma PriceGap(high: nat, low: nat, gas: nat)
    requires low <= high
    ensures low * gas <= high * gas
    ensures low * gas == high * gas <==> low == high || gas == 0
  {
    if low < high && gas > 0 {
      assert (high - low) * gas > 0;
    }
  }

  // ---------- The hooks ----------

  datatype Rejection =
    | FeeCapTooLow | PriorityAboveCap | IntrinsicAboveLimit | FloorAboveLimit
    | CallerHasCode | WrongNonce | LackOfFunds | GasBelowOverhead | MultiGasBacklog

  /** What the sender's account says. */
  datatype Account = Account(nonce: U64, hasCode: bool)

  /** The chain context's fee fields and the state the hooks update. */
  class Context {
    const code: set<Address>
    var balances: Balances
    var nonces: map<Address, U64>
    var pricing: Pricing
    var unitsSinceUpdate: U64
    var l1FeesAvailable: nat
    var paidGasPrice: nat
    var posterGas: U64
    var posterFee: nat
    var holdGas: U64
    var gas: Gas

    constructor (code: set<Address>, balances: Balances, nonces: map<Address, U64>, pricing: Pricing,
                 unitsSinceUpdate: U64, l1FeesAvailable: nat)
      ensures this.code == code && this.balances == balances && this.nonces == nonces && this.pricing == pricing
      ensures this.unitsSinceUpdate == unitsSinceUpdate && this.l1FeesAvailable == l1FeesAvailable
    {
      this.code := code;
      this.balances := balances;
      this.nonces := nonces;
      this.pricing := pricing;
      this.unitsSinceUpdate := unitsSinceUpdate;
      this.l1FeesAvailable := l1FeesAvailable;
      paidGasPrice, posterGas, posterFee, holdGas, gas := 0, 0, 0, 0, Gas(0, 0);
    }

    function AccountOf(a: Address): Account
      reads this
    {
      Account(if a in nonces then nonces[a] else 0, a in code)
    }

    /** `reset_poster_state`. Whatever was paid, everything after it is settled at the base fee and tips nothing. */
    method ResetPosterState()
      modifies this`paidGasPrice, this`posterGas, this`posterFee, this`holdGas
      ensures posterGas == 0 && posterFee == 0 && holdGas == 0 && paidGasPrice == 0
      ensures forall block :: SettlementPrice(paidGasPrice, block) == block.baseFee
      ensures forall block, compute :: Tip(paidGasPrice, block, compute) == 0
    {
      paidGasPrice, posterGas, posterFee, holdGas := 0, 0, 0, 0;
      forall block: Block, compute: nat
        ensures Tip(0, block, compute) == 0
      {
        NoTip(block, compute);
      }
    }

    /** The checks made before any state is read. */
    method ValidateEnv(tx: Tx, block: Block, z: Sizes) returns (rejected: Option<Rejection>)
      ensures rejected == EnvVerdict(tx, block, z)
      ensures rejected.None? && tx.maxFeePerGas < block.baseFee ==> tx.kind.Unsigned?
    {
      if tx.kind.Contract? && tx.maxFeePerGas < block.baseFee {
        return Some(FeeCapTooLow);
      }
      if tx.kind.Standard? {
        if tx.priorityFee.Some? && tx.priorityFee.value > tx.maxFeePerGas {
          return Some(PriorityAboveCap);
        }
        if OwnPrice(tx, block) < block.baseFee {
          return Some(FeeCapTooLow);
        }
      }
      if z.intrinsicGas > tx.gasLimit {
        return Some(IntrinsicAboveLimit);
      }
      if z.floorGas > tx.gasLimit {
        return Some(FloorAboveLimit);
      }
      return None;
    }

    /** The caller must cover the declared fee cap; only the paid price is deducted. An admitted caller pays exactly
        the price of the whole gas limit and can still pay the value, unless the check itself saturated. */
    method ValidateAndDeduct(tx: Tx, block: Block, f: Fees) returns (rejected: Option<Rejection>)
      modifies this`balances, this`paidGasPrice, this`nonces
      ensures rejected == StateVerdict(old(balances), old(AccountOf(tx.caller)), tx, PaidPrice(tx, block, f))
      ensures rejected.None? ==>
                && paidGasPrice == PaidPrice(tx, block, f)
                && balances == Deducted(old(balances), tx, PaidPrice(tx, block, f))
                && Total(balances) + Cost(PaidPrice(tx, block, f), tx.gasLimit) == Total(old(balances))
                && (BalanceOf(old(balances), tx.caller) < U256_MAX ==> tx.value <= BalanceOf(balances, tx.caller))
                && nonces == if tx.isCall then old(nonces)[tx.caller := SatAdd64(old(AccountOf(tx.caller)).nonce, 1)]
                             else old(nonces)
      ensures rejected.Some? ==> balances == old(balances) && nonces == old(nonces)
    {
      var account := AccountOf(tx.caller);
      var paid := if CollectTips(f, block) then EffectivePrice(tx, block) else block.baseFee;
      var maxForCheck := if tx.maxFeePerGas < paid then paid else tx.maxFeePerGas;
      if account.hasCode {
        return Some(CallerHasCode);
      }
      if !tx.kind.Contract? && tx.nonce != account.nonce {
        return Some(WrongNonce);
      }
      var balance := BalanceOf(balances, tx.caller);
      if balance < SatAdd256(SatMul256(maxForCheck, tx.gasLimit), tx.value) {
        return Some(LackOfFunds);
      }
      PayerCovers(balances, tx, paid);
      balances := balances[tx.caller := SatSub(balance, SatMul256(paid, tx.gasLimit))];
      if tx.isCall {
        nonces := nonces[tx.caller := SatAdd64(account.nonce, 1)];
      }
      paidGasPrice := paid;
      return None;
    }

    /** The poster charge and the compute cap. The price is read before the reset erases it. */
    method ChargeGas(tx: Tx, block: Block, f: Fees, z: Sizes)
      requires paidGasPrice == PaidPrice(tx, block, f)
      modifies this`paidGasPrice, this`posterGas, this`posterFee, this`holdGas, this`unitsSinceUpdate
      ensures paidGasPrice == 0
      ensures posterGas == PosterGas(tx, block, f, z)
      ensures posterFee == SatMul256(PosterPrice(tx, block, f), posterGas)
      ensures holdGas == HoldGas(tx.gasLimit, z.intrinsicGas, posterGas, MaxCompute(f, z.intrinsicGas))
      ensures unitsSinceUpdate == SatAdd64(old(unitsSinceUpdate), CalldataUnits(z.compressedLen, block))
    {
      var price := paidGasPrice;
      ResetPosterState();
      if price == 0 {
        price := if CollectTips(f, block) then EffectivePrice(tx, block) else block.baseFee;
      }
      if price == 0 {
        price := block.baseFee;
      }
      posterGas := PosterGasFor(z.compressedLen, block, f, price);
      posterFee := SatMul256(price, posterGas);
      if CalldataUnits(z.compressedLen, block) > 0 {
        unitsSinceUpdate := SatAdd64(unitsSinceUpdate, CalldataUnits(z.compressedLen, block));
      }
      var afterOverhead := SatSub(SatSub(tx.gasLimit, z.intrinsicGas), posterGas);
      holdGas := SatSub(afterOverhead, MaxCompute(f, z.intrinsicGas));
    }

    /** Reserves the overhead, runs the frame and hands the held gas back. */
    method Execute(tx: Tx, z: Sizes, x: Exec) returns (ok: bool)
      modifies this`balances, this`gas
      ensures ok == (TotalInitial(z.intrinsicGas, posterGas, holdGas) <= tx.gasLimit)
      ensures ok ==> balances == Settle(old(balances), x.moved) && gas == FrameRecord(x, holdGas)
      ensures !ok ==> balances == old(balances)
    {
      if TotalInitial(z.intrinsicGas, posterGas, holdGas) > tx.gasLimit {
        return false;
      }
      balances := Settle(balances, x.moved);
      gas := Gas(if x.end.Halt? then 0 else x.remaining, if x.end.Success? then x.refunded else 0);
      gas := gas.(remaining := gas.remaining + holdGas);
      return true;
    }

    /** The refund, capped by a fraction of the refundable gas, and the calldata floor: afterwards the record bills
        exactly `used`. */
    method Refund(tx: Tx, z: Sizes, ghost used: nat)
      requires gas.remaining <= tx.gasLimit && z.floorGas <= tx.gasLimit
      requires used == AfterRefund(tx.gasLimit - gas.remaining, gas.refunded + z.authRefund, posterGas, z)
      modifies this`gas
      ensures gas.refunded >= 0 && gas.remaining + gas.refunded + used == tx.gasLimit
    {
      var recorded := gas.refunded + z.authRefund;
      var spent := SatSub(tx.gasLimit, gas.remaining);
      var cap := SatSub(spent, posterGas) / (if z.london then 5 else 2);
      gas := gas.(refunded := Min(if recorded < 0 then 0 else recorded, cap));
      if SatSub(spent, gas.refunded) < z.floorGas {
        gas := Gas(SatSub(tx.gasLimit, z.floorGas), 0);
      }
    }

    method ReimburseCaller(tx: Tx, block: Block, ghost returned: U64)
      requires gas.refunded >= 0 && gas.remaining + gas.refunded == returned
      modifies this`balances
      ensures balances == Mint(old(balances), tx.caller, SatMul256(SettlementPrice(paidGasPrice, block), returned))
    {
      var price := if paidGasPrice == 0 then block.baseFee else paidGasPrice;
      balances := Mint(balances, tx.caller, SatMul256(price, SatAdd64(gas.remaining, gas.refunded)));
    }

    /** The end hook: compute cost split between infra and network, tips on compute, the poster fee, and the backlog
        grown by compute gas. */
    method RewardBeneficiary(tx: Tx, block: Block, f: Fees, ghost used: nat) returns (ok: bool)
      requires gas.refunded >= 0 && gas.remaining + gas.refunded + used == tx.gasLimit
      modifies this`balances, this`l1FeesAvailable, this`pricing
      ensures var compute := ComputeGas(used, posterGas);
              && balances == Rewarded(old(balances), block, f, compute, Tip(paidGasPrice, block, compute), posterFee)
              && ok == Grown(old(pricing), compute, f.version).Some?
              && (if ok then Some(pricing) == Grown(old(pricing), compute, f.version) else pricing == old(pricing))
      ensures l1FeesAvailable == old(l1FeesAvailable) + if f.version >= ARBOS_10 then posterFee else 0
    {
      var gasUsed := SatSub(SatSub(tx.gasLimit, gas.remaining), gas.refunded);
      var compute := SatSub(gasUsed, posterGas);
      var price := if paidGasPrice == 0 then block.baseFee else paidGasPrice;
      var tip := SatMul256(SatSub(price, block.baseFee), compute);
      CreditShares(block, f, compute, tip);
      var grown := GrowBacklog(pricing, compute, f.version);
      ok := grown.Some?;
      if ok {
        pricing := grown.value;
      }
    }

    method CreditShares(block: Block, f: Fees, compute: U64, tip: nat)
      modifies this`balances, this`l1FeesAvailable
      ensures balances == Rewarded(old(balances), block, f, compute, tip, posterFee)
      ensures l1FeesAvailable == old(l1FeesAvailable) + if f.version >= ARBOS_10 then posterFee else 0
    {
      var infraCost, networkCost := SplitCompute(block, f, compute);
      CreditIfAny(f.infraFeeAccount, infraCost);
      CreditIfAny(f.networkFeeAccount, networkCost);
      CreditIfAny(f.networkFeeAccount, tip);
      if posterFee > 0 {
        balances := Mint(balances, PosterDestination(block, f), posterFee);
        if f.version >= ARBOS_10 {
          l1FeesAvailable := l1FeesAvailable + posterFee;
        }
      }
    }

    method CreditIfAny(account: Address, amount: nat)
      modifies this`balances
      ensures balances == Credited(old(balances), account, amount)
    {
      if amount > 0 && account != ZERO_ADDRESS {
        balances := Mint(balances, account, amount);
      }
    }

    /** Refund, reimbursement and reward of an executed transaction. */
    method Conclude(tx: Tx, block: Block, f: Fees, z: Sizes, ghost used: nat) returns (ok: bool)
      requires gas.remaining <= tx.gasLimit && paidGasPrice == 0 && z.floorGas <= tx.gasLimit
      requires posterGas <= used <= tx.gasLimit
      requires used == AfterRefund(tx.gasLimit - gas.remaining, gas.refunded + z.authRefund, posterGas, z)
      modifies this`balances, this`gas, this`l1FeesAvailable, this`pricing
      ensures balances == Rewarded(Mint(old(balances), tx.caller, Cost(block.baseFee, tx.gasLimit - used)), block, f,
                                   ComputeGas(used, posterGas), 0, posterFee)
      ensures ok == Grown(old(pricing), ComputeGas(used, posterGas), f.version).Some?
      ensures if ok then Some(pricing) == Grown(old(pricing), ComputeGas(used, posterGas), f.version)
              else pricing == old(pricing)
    {
      Refund(tx, z, used);
      NoSaturation(block.baseFee, tx.gasLimit - used);
      NoTip(block, ComputeGas(used, posterGas));
      ReimburseCaller(tx, block, tx.gasLimit - used);
      ok := RewardBeneficiary(tx, block, f, used);
    }

    /** Up to the end of execution. Rejections leave the balances alone. */
    method Begin(tx: Tx, block: Block, f: Fees, z: Sizes, x: Exec, ghost poster: U64) returns (rejected: Option<Rejection>)
      requires poster == PosterGas(tx, block, f, z)
      modifies this
      ensures rejected == EarlyVerdict(old(balances), old(AccountOf(tx.caller)), tx, block, f, z)
      ensures pricing == old(pricing)
      ensures rejected.Some? ==> balances == old(balances)
      ensures rejected.None? ==>
                && balances == Settle(Deducted(old(balances), tx, PaidPrice(tx, block, f)), x.moved)
                && gas == FrameRecord(x, holdGas) && paidGasPrice == 0 && posterGas == poster
                && posterFee == SatMul256(PosterPrice(tx, block, f), poster)
                && holdGas == HoldGas(tx.gasLimit, z.intrinsicGas, poster, MaxCompute(f, z.intrinsicGas))
                && TotalInitial(z.intrinsicGas, poster, holdGas) <= tx.gasLimit
    {
      var start := balances;
      rejected := ValidateEnv(tx, block, z);
      if rejected.Some? {
        return;
      }
      rejected := ValidateAndDeduct(tx, block, f);
      if rejected.Some? {
        return;
      }
      ChargeGas(tx, block, f, z);
      var ok := Execute(tx, z, x);
      if !ok {
        balances := start;
        return Some(GasBelowOverhead);
      }
      rejected := None;
    }

    /** The same, with what the gas record will bill. */
    method BeginBilled(tx: Tx, block: Block, f: Fees, z: Sizes, x: Exec, ghost poster: U64, ghost used: nat)
      returns (rejected: Option<Rejection>)
      requires poster == PosterGas(tx, block, f, z) && used == BilledGas(tx, block, f, z, x)
      requires x.remaining <= FrameGas(tx.gasLimit, z.intrinsicGas, poster, MaxCompute(f, z.intrinsicGas))
      modifies this
      ensures rejected == EarlyVerdict(old(balances), old(AccountOf(tx.caller)), tx, block, f, z)
      ensures pricing == old(pricing)
      ensures rejected.Some? ==> balances == old(balances)
      ensures rejected.None? ==>
                && balances == Settle(Deducted(old(balances), tx, PaidPrice(tx, block, f)), x.moved)
                && paidGasPrice == 0 && posterGas == poster && posterFee == SatMul256(PosterPrice(tx, block, f), poster)
                && gas.remaining <= tx.gasLimit && z.floorGas <= tx.gasLimit && poster <= used <= tx.gasLimit
                && used == AfterRefund(tx.gasLimit - gas.remaining, gas.refunded + z.authRefund, poster, z)
    {
      rejected := Begin(tx, block, f, z, x, poster);
      if rejected.None? {
        ExecutedGas(tx, block, f, z, x, poster, used, holdGas);
      }
    }

    /** A whole unfiltered transaction. Rejections leave balances and backlogs alone. */
    method Settled(tx: Tx, block: Block, f: Fees, z: Sizes, x: Exec) returns (rejected: Option<Rejection>)
      requires x.remaining <= FrameGas(tx.gasLimit, z.intrinsicGas, PosterGas(tx, block, f, z), MaxCompute(f, z.intrinsicGas))
      modifies this
      ensures rejected == Verdict(old(balances), old(AccountOf(tx.caller)), old(pricing), tx, block, f, z)
      ensures rejected.Some? ==> balances == old(balances) && pricing == old(pricing)
      ensures rejected.None? ==>
                var poster := PosterGas(tx, block, f, z);
                var used := BilledGas(tx, block, f, z, x);
                && poster <= used <= tx.gasLimit
                && balances == Final(old(balances), tx, block, f, z, x, BillOf(tx, block, f, poster, used))
                && Some(pricing) == Grown(old(pricing), used - poster, f.version)
    {
      ghost var poster, used := PosterGas(tx, block, f, z), BilledGas(tx, block, f, z, x);
      var start := balances;
      rejected := BeginBilled(tx, block, f, z, x, poster, used);
      if rejected.None? {
        var ok := Conclude(tx, block, f, z, used);
        if ok {
          FinalBalances(start, tx, block, f, z, x, poster, used);
        } else {
          balances := start;
          rejected := Some(MultiGasBacklog);
        }
      }
    }
  }

  /** What the gas record bills once the frame has ended. */
  lemma ExecutedGas(tx: Tx, block: Block, f: Fees, z: Sizes, x: Exec, poster: U64, used: nat, hold: U64)
    requires poster == PosterGas(tx, block, f, z) && used == BilledGas(tx, block, f, z, x) && z.floorGas <= tx.gasLimit
    requires hold == HoldGas(tx.gasLimit, z.intrinsicGas, poster, MaxCompute(f, z.intrinsicGas))
    requires TotalInitial(z.intrinsicGas, poster, hold) <= tx.gasLimit
    requires x.remaining <= FrameGas(tx.gasLimit, z.intrinsicGas, poster, MaxCompute(f, z.intrinsicGas))
    ensures var record := FrameRecord(x, hold);
            && record.remaining <= tx.gasLimit
            && poster <= used <= tx.gasLimit
            && used == AfterRefund(tx.gasLimit - record.remaining, record.refunded + z.authRefund, poster, z)
  {
    PosterGasIsBilled(tx.gasLimit, poster, MaxCompute(f, z.intrinsicGas), z, x);
  }

  lemma FinalBalances(b: Balances, tx: Tx, block: Block, f: Fees, z: Sizes, x: Exec, poster: U64, used: nat)
    requires poster == PosterGas(tx, block, f, z) && used == BilledGas(tx, block, f, z, x) && used <= tx.gasLimit
    ensures Rewarded(Mint(Settle(Deducted(b, tx, PaidPrice(tx, block, f)), x.moved), tx.caller,
                          Cost(block.baseFee, tx.gasLimit - used)),
                     block, f, ComputeGas(used, poster), 0, SatMul256(PosterPrice(tx, block, f), poster))
         == Final(b, tx, block, f, z, x, BillOf(tx, block, f, poster, used))
  {
    NoSaturation(PosterPrice(tx, block, f), poster);
  }

  /** The price the later hooks use: the base fee whenever the recorded price was erased. */
  function SettlementPrice(paid: nat, block: Block): nat {
    if paid == 0 then block.baseFee else paid
  }

  function Tip(paid: nat, block: Block, compute: nat): nat {
    SatMul256(SatSub(SettlementPrice(paid, block), block.baseFee), compute)
  }

  /** Once the paid price is erased no tip is ever credited. */
  lemma NoTip(block: Block, compute: nat)
    ensures Tip(0, block, compute) == 0
  {
    assert 0 * compute == 0;
  }

  /** The infra and network shares of the compute cost. */
  method SplitCompute(block: Block, f: Fees, compute: U64) returns (infra: nat, network: nat)
    ensures infra == InfraShare(f, block.baseFee, compute)
    ensures network == Cost(block.baseFee, compute) - infra
  {
    NoSaturation(block.baseFee, compute);
    NoSaturation(Min(f.minBaseFee, block.baseFee), compute);
    infra, network := 0, SatMul256(block.baseFee, compute);
    if f.version >= ARBOS_5 && f.infraFeeAccount != ZERO_ADDRESS {
      infra := Min(SatMul256(Min(f.minBaseFee, block.baseFee), compute), network);
      network := SatSub(network, infra);
    }
  }

  function PosterDestination(block: Block, f: Fees): Address {
    if f.version >= ARBOS_2 then L1_PRICER_FUNDS_POOL_ADDRESS else block.coinbase
  }

  function Credited(b: Balances, account: Address, amount: nat): Balances {
    if amount == 0 || account == ZERO_ADDRESS then b else Mint(b, account, amount)
  }

  /** The balances after the end hook. */
  function Rewarded(b: Balances, block: Block, f: Fees, compute: nat, tip: nat, posterFee: nat): Balances {
    var infra := InfraShare(f, block.baseFee, compute);
    var b1 := Credited(b, f.infraFeeAccount, infra);
    var b2 := Credited(b1, f.networkFeeAccount, Cost(block.baseFee, compute) - infra);
    var b3 := Credited(b2, f.networkFeeAccount, tip);
    if posterFee == 0 then b3 else Mint(b3, PosterDestination(block, f), posterFee)
  }

  /** Turned away by the fee and gas checks: only an unsigned transaction may offer less than the base fee. */
  function EnvVerdict(tx: Tx, block: Block, z: Sizes): Option<Rejection> {
    if tx.kind.Standard? && tx.priorityFee.Some? && tx.priorityFee.value > tx.maxFeePerGas then Some(PriorityAboveCap)
    else if !tx.kind.Unsigned? && tx.maxFeePerGas < block.baseFee then Some(FeeCapTooLow)
    else if z.intrinsicGas > tx.gasLimit then Some(IntrinsicAboveLimit)
    else if z.floorGas > tx.gasLimit then Some(FloorAboveLimit)
    else None
  }

  /** Turned away by the sender's account. */
  function StateVerdict(b: Balances, account: Account, tx: Tx, paid: nat): Option<Rejection> {
    if account.hasCode then Some(CallerHasCode)
    else if !tx.kind.Contract? && tx.nonce != account.nonce then Some(WrongNonce)
    else if BalanceOf(b, tx.caller) < MaxFee(tx, paid) then Some(LackOfFunds)
    else None
  }

  /** Turned away before or at the start of execution. */
  function EarlyVerdict(b: Balances, account: Account, tx: Tx, block: Block, f: Fees, z: Sizes): Option<Rejection> {
    var poster := PosterGas(tx, block, f, z);
    var hold := HoldGas(tx.gasLimit, z.intrinsicGas, poster, MaxCompute(f, z.intrinsicGas));
    if EnvVerdict(tx, block, z).Some? then EnvVerdict(tx, block, z)
    else if StateVerdict(b, account, tx, PaidPrice(tx, block, f)).Some? then
      StateVerdict(b, account, tx, PaidPrice(tx, block, f))
    else if TotalInitial(z.intrinsicGas, poster, hold) > tx.gasLimit then Some(GasBelowOverhead)
    else None
  }

  /** Which transactions are turned away; the multi-gas model turns away everything at the very end. */
  function Verdict(b: Balances, account: Account, p: Pricing, tx: Tx, block: Block, f: Fees, z: Sizes): Option<Rejection> {
    if EarlyVerdict(b, account, tx, block, f, z).Some? then EarlyVerdict(b, account, tx, block, f, z)
    else if ModelOf(p, f.version).MultiGas? then Some(MultiGasBacklog)
    else None
  }

  function BilledGas(tx: Tx, block: Block, f: Fees, z: Sizes, x: Exec): nat {
    var poster := PosterGas(tx, block, f, z);
    GasUsed(tx.gasLimit, poster, z, x, HoldGas(tx.gasLimit, z.intrinsicGas, poster, MaxCompute(f, z.intrinsicGas)))
  }

  /** Prepay, execute, reimburse, reward. */
  function Final(b: Balances, tx: Tx, block: Block, f: Fees, z: Sizes, x: Exec, bill: Bill): Balances {
    var executed := Settle(Deducted(b, tx, PaidPrice(tx, block, f)), x.moved);
    var compute := ComputeGas(BilledGas(tx, block, f, z, x), PosterGas(tx, block, f, z));
    Rewarded(Mint(executed, tx.caller, bill.refund), block, f, compute, 0, bill.posterFee)
  }

  function MaxFee(tx: Tx, paid: nat): nat {
    SatAdd256(SatMul256(if tx.maxFeePerGas < paid then paid else tx.maxFeePerGas, tx.gasLimit), tx.value)
  }

  function Deducted(b: Balances, tx: Tx, paid: nat): Balances {
    b[tx.caller := SatSub(BalanceOf(b, tx.caller), SatMul256(paid, tx.gasLimit))]
  }

  // ---------- Wei in, wei out ----------

  lemma CreditedTotal(b: Balances, account: Address, amount: nat)
    ensures Total(Credited(b, account, amount)) == Total(b) + if account == ZERO_ADDRESS then 0 else amount
  {
    if amount != 0 && account != ZERO_ADDRESS {
      MintAdds(b, account, amount);
    }
  }

  lemma RewardedTotal(b: Balances, block: Block, f: Fees, compute: nat, posterFee: nat)
    ensures var infra := InfraShare(f, block.baseFee, compute);
            var network := Cost(block.baseFee, compute) - infra;
            Total(Rewarded(b, block, f, compute, 0, posterFee))
            == Total(b) + infra + (if f.networkFeeAccount == ZERO_ADDRESS then 0 else network) + posterFee
  {
    var infra := InfraShare(f, block.baseFee, compute);
    var network := Cost(block.baseFee, compute) - infra;
    var b1 := Credited(b, f.infraFeeAccount, infra);
    var b2 := Credited(b1, f.networkFeeAccount, network);
    CreditedTotal(b, f.infraFeeAccount, infra);
    CreditedTotal(b1, f.networkFeeAccount, network);
    MintAdds(b2, PosterDestination(block, f), posterFee);
  }

  lemma DeductedTotal(b: Balances, tx: Tx, paid: nat)
    requires BalanceOf(b, tx.caller) >= SatMul256(paid, tx.gasLimit)
    ensures Total(Deducted(b, tx, paid)) + SatMul256(paid, tx.gasLimit) == Total(b)
  {
    TotalUpdate(b, tx.caller, BalanceOf(b, tx.caller) - SatMul256(paid, tx.gasLimit));
  }

  /** Wei that reaches nobody: the network share when no network account is set. */
  function Burned(f: Fees, bill: Bill): nat {
    if f.networkFeeAccount == ZERO_ADDRESS then bill.network else 0
  }

  /** A caller that covers the check can pay what is deducted and the value on top. */
  lemma PayerCovers(b: Balances, tx: Tx, paid: nat)
    requires paid <= U64_MAX && MaxFee(tx, paid) <= BalanceOf(b, tx.caller)
    ensures SatMul256(paid, tx.gasLimit) == Cost(paid, tx.gasLimit) <= BalanceOf(b, tx.caller)
    ensures Total(Deducted(b, tx, paid)) + Cost(paid, tx.gasLimit) == Total(b)
    ensures BalanceOf(b, tx.caller) < U256_MAX ==> tx.value <= BalanceOf(Deducted(b, tx, paid), tx.caller)
  {
    NoSaturation(paid, tx.gasLimit);
    MulLe(paid, if tx.maxFeePerGas < paid then paid else tx.maxFeePerGas, tx.gasLimit);
    DeductedTotal(b, tx, paid);
  }

  /** The ledger after an admitted transaction, whatever execution moved. */
  lemma LedgerAfterSettlement(b: Balances, account: Account, tx: Tx, block: Block, f: Fees, z: Sizes, x: Exec, bill: Bill)
    requires EarlyVerdict(b, account, tx, block, f, z).None?
    requires BilledGas(tx, block, f, z, x) <= tx.gasLimit
    requires bill == BillOf(tx, block, f, PosterGas(tx, block, f, z), BilledGas(tx, block, f, z, x))
    ensures Total(Final(b, tx, block, f, z, x, bill)) + bill.prepaid + Burned(f, bill) == Total(b) + Credits(bill)
  {
    var paid := PaidPrice(tx, block, f);
    PayerCovers(b, tx, paid);
    var deducted := Deducted(b, tx, paid);
    SettleConserves(deducted, x.moved);
    var executed := Settle(deducted, x.moved);
    MintAdds(executed, tx.caller, bill.refund);
    var compute := ComputeGas(BilledGas(tx, block, f, z, x), PosterGas(tx, block, f, z));
    RewardedTotal(Mint(executed, tx.caller, bill.refund), block, f, compute, bill.posterFee);
  }

  /** Fee settlement conserves wei for every admitted transaction with a network account, except exactly the unsigned
      ones that offer less than the base fee while tips are collected (and have gas to settle). */
  lemma SettlementConservesWei(b: Balances, account: Account, p: Pricing, tx: Tx, block: Block, f: Fees, z: Sizes, x: Exec)
    requires Verdict(b, account, p, tx, block, f, z).None? && f.networkFeeAccount != ZERO_ADDRESS
    requires x.remaining <= FrameGas(tx.gasLimit, z.intrinsicGas, PosterGas(tx, block, f, z), MaxCompute(f, z.intrinsicGas))
    ensures var used := BilledGas(tx, block, f, z, x);
            var poster := PosterGas(tx, block, f, z);
            && poster <= used <= tx.gasLimit
            && (Total(Final(b, tx, block, f, z, x, BillOf(tx, block, f, poster, used))) == Total(b)
                <==> (tx.kind != Unsigned || !CollectTips(f, block) || tx.maxFeePerGas >= block.baseFee
                      || tx.gasLimit == 0 || (tx.maxFeePerGas > 0 && tx.gasLimit == poster)))
  {
    var poster := PosterGas(tx, block, f, z);
    PosterGasIsBilled(tx.gasLimit, poster, MaxCompute(f, z.intrinsicGas), z, x);
    var used := BilledGas(tx, block, f, z, x);
    var bill := BillOf(tx, block, f, poster, used);
    LedgerAfterSettlement(b, account, tx, block, f, z, x, bill);
    SettlementBalances(tx, block, f, poster, used);
  }

  /** Credits only grow balances, so none of them overflows when all wei and what the settlement adds fit 256 bits;
      with a settlement that conserves wei, when all wei do. */
  lemma CreditsFit(b: Balances, account: Account, tx: Tx, block: Block, f: Fees, z: Sizes, x: Exec, bill: Bill, a: Address)
    requires EarlyVerdict(b, account, tx, block, f, z).None?
    requires BilledGas(tx, block, f, z, x) <= tx.gasLimit
    requires bill == BillOf(tx, block, f, PosterGas(tx, block, f, z), BilledGas(tx, block, f, z, x))
    requires Total(b) + Credits(bill) <= U256_MAX + bill.prepaid
    ensures BalanceOf(Final(b, tx, block, f, z, x, bill), a) <= U256_MAX
  {
    LedgerAfterSettlement(b, account, tx, block, f, z, x, bill);
    BalanceLeTotal(Final(b, tx, block, f, z, x, bill), a);
  }

  // An unsigned transaction offering 1 under a base fee of 2, in a block of the batch poster with tips collected.
  const UNDERPRICED_BLOCK: Block := Block(2, BATCH_POSTER_ADDRESS)
  const UNDERPRICED_FEES: Fees := Fees(ARBOS_9, 0, 1, 0, 0, 0, 0, 0)
  const UNDERPRICED_SIZES: Sizes := Sizes(21_000, Some(100), 0, 0, true)
  const UNDERPRICED_EXEC: Exec := Exec(Success, 9_000, 0, NoPayments)
  const UNDERPRICED_SENDER: Account := Account(0, false)

  function UnderpricedTx(priority: Option<nat>): Tx {
    Tx(Unsigned, 7, 0, true, 50_000, 0, 1, priority)
  }

  lemma UnderpricedPrices(priority: Option<nat>)
    ensures var tx := UnderpricedTx(priority);
            && PaidPrice(tx, UNDERPRICED_BLOCK, UNDERPRICED_FEES) == 1
            && PosterPrice(tx, UNDERPRICED_BLOCK, UNDERPRICED_FEES) == 1
            && PosterGas(tx, UNDERPRICED_BLOCK, UNDERPRICED_FEES, UNDERPRICED_SIZES) == 0
  {
    EffectivePriceIsCapped(UnderpricedTx(priority), UNDERPRICED_BLOCK);
  }

  lemma UnderpricedIsAdmitted(b: Balances, priority: Option<nat>)
    requires BalanceOf(b, 7) >= 50_000
    ensures Verdict(b, UNDERPRICED_SENDER, Pricing(0, [], []), UnderpricedTx(priority), UNDERPRICED_BLOCK, UNDERPRICED_FEES,
                    UNDERPRICED_SIZES).None?
  {
    UnderpricedPrices(priority);
    assert MaxFee(UnderpricedTx(priority), 1) == 50_000;
  }

  lemma UnderpricedGas(priority: Option<nat>)
    ensures BilledGas(UnderpricedTx(priority), UNDERPRICED_BLOCK, UNDERPRICED_FEES, UNDERPRICED_SIZES, UNDERPRICED_EXEC)
         == 41_000
  {
    UnderpricedPrices(priority);
  }

  lemma UnderpricedBill(priority: Option<nat>)
    ensures var bill := BillOf(UnderpricedTx(priority), UNDERPRICED_BLOCK, UNDERPRICED_FEES, 0, 41_000);
            bill.prepaid == 50_000 && Credits(bill) == 100_000
  {
    UnderpricedPrices(priority);
    CreditsTotal(UnderpricedTx(priority), UNDERPRICED_BLOCK, UNDERPRICED_FEES, 0, 41_000);
    assert Cost(2, 50_000) == 100_000 && Cost(1, 50_000) == 50_000 && Cost(1, 0) == 0;
  }

  /** The failing family is not empty: that transaction is admitted, and settling it prints 50,000 wei. */
  lemma UnderpricedUnsignedPrintsWei(b: Balances, priority: Option<nat>)
    requires BalanceOf(b, 7) >= 50_000
    ensures var tx := UnderpricedTx(priority);
            var poster := PosterGas(tx, UNDERPRICED_BLOCK, UNDERPRICED_FEES, UNDERPRICED_SIZES);
            var used := BilledGas(tx, UNDERPRICED_BLOCK, UNDERPRICED_FEES, UNDERPRICED_SIZES, UNDERPRICED_EXEC);
            && Verdict(b, UNDERPRICED_SENDER, Pricing(0, [], []), tx, UNDERPRICED_BLOCK, UNDERPRICED_FEES,
                       UNDERPRICED_SIZES).None?
            && used <= tx.gasLimit
            && Total(Final(b, tx, UNDERPRICED_BLOCK, UNDERPRICED_FEES, UNDERPRICED_SIZES, UNDERPRICED_EXEC,
                           BillOf(tx, UNDERPRICED_BLOCK, UNDERPRICED_FEES, poster, used)))
               == Total(b) + 50_000
  {
    var tx := UnderpricedTx(priority);
    UnderpricedPrices(priority);
    UnderpricedIsAdmitted(b, priority);
    UnderpricedGas(priority);
    UnderpricedBill(priority);
    var bill := BillOf(tx, UNDERPRICED_BLOCK, UNDERPRICED_FEES, 0, 41_000);
    LedgerAfterSettlement(b, UNDERPRICED_SENDER, tx, UNDERPRICED_BLOCK, UNDERPRICED_FEES, UNDERPRICED_SIZES,
                          UNDERPRICED_EXEC, bill);
  }
}
