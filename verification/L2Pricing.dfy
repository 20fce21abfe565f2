/** The L2 gas backlog: what a redeem reserves for shrinking it, and what shrinking it costs. */
module L2Pricing {
  import opened Words

  const STORAGE_READ_COST: nat := 800
  const STORAGE_WRITE_COST: nat := 20_000
  const STORAGE_WRITE_ZERO_COST: nat := 5_000
  const ARBOS_SINGLE_GAS_CONSTRAINTS: nat := 50
  const ARBOS_MULTI_CONSTRAINT_FIX: nat := 51
  const ARBOS_MULTI_GAS_CONSTRAINTS: nat := 60

  datatype MultiConstraint = MultiConstraint(backlog: U64, singleDimWeight: U64)

  /** The legacy backlog, the single-gas constraint backlogs and the multi-gas constraints. */
  datatype Pricing = Pricing(gasBacklog: U64, constraints: seq<U64>, multi: seq<MultiConstraint>)

  datatype GasModel = Legacy | SingleGas | MultiGas

  function ModelOf(p: Pricing, version: U64): GasModel {
    if version >= ARBOS_MULTI_GAS_CONSTRAINTS && |p.multi| > 0 then MultiGas
    else if version >= ARBOS_SINGLE_GAS_CONSTRAINTS && |p.constraints| > 0 then SingleGas
    else Legacy
  }

  /** What a redeem sets aside for the trailing backlog update. */
  function BacklogUpdateCost(p: Pricing, version: U64): U64 {
    if version >= ARBOS_MULTI_GAS_CONSTRAINTS then STORAGE_READ_COST + STORAGE_WRITE_COST
    else
      var modelRead := if version >= ARBOS_SINGLE_GAS_CONSTRAINTS then STORAGE_READ_COST else 0;
      if version >= ARBOS_MULTI_CONSTRAINT_FIX && |p.constraints| > 0
      then SatAdd64(modelRead + STORAGE_READ_COST, SatMul64(|p.constraints|, STORAGE_READ_COST + STORAGE_WRITE_COST))
      else modelRead + STORAGE_READ_COST + STORAGE_WRITE_COST
  }

  function WriteCost(updated: nat): nat {
    if updated == 0 then STORAGE_WRITE_ZERO_COST else STORAGE_WRITE_COST
  }

  /** The cost of walking the single-gas constraints, before the meter saturates. */
  function TraversalCost(backlogs: seq<U64>, gas: U64): nat {
    if backlogs == [] then 0
    else TraversalCost(backlogs[..|backlogs|-1], gas)
         + STORAGE_READ_COST + WriteCost(SatSub(backlogs[|backlogs|-1], gas))
  }

  /** The cost the backlog update really incurs. */
  function ShrinkCost(p: Pricing, gas: U64, version: U64): U64 {
    if version >= ARBOS_MULTI_GAS_CONSTRAINTS then STORAGE_READ_COST + STORAGE_WRITE_COST
    else if ModelOf(p, version).SingleGas? then SatAdd64(2 * STORAGE_READ_COST, TraversalCost(p.constraints, gas))
    else
      (if version >= ARBOS_SINGLE_GAS_CONSTRAINTS then STORAGE_READ_COST else 0)
      + STORAGE_READ_COST + WriteCost(SatSub(p.gasBacklog, gas))
  }

  function ShrunkBacklogs(backlogs: seq<U64>, gas: U64): (updated: seq<U64>)
    ensures |updated| == |backlogs|
    ensures forall i :: 0 <= i < |backlogs| ==> updated[i] == SatSub(backlogs[i], gas)
  {
    seq(|backlogs|, i requires 0 <= i < |backlogs| => SatSub(backlogs[i], gas))
  }

  /** Only the single-dimension weight of a multi-gas constraint matters to a redeem. */
  function ShrunkMulti(c: MultiConstraint, gas: U64): MultiConstraint {
    c.(backlog := SatSub(c.backlog, SatMul64(gas, c.singleDimWeight)))
  }

  function Shrunk(p: Pricing, gas: U64, version: U64): Pricing {
    match ModelOf(p, version)
    case Legacy => p.(gasBacklog := SatSub(p.gasBacklog, gas))
    case SingleGas => p.(constraints := ShrunkBacklogs(p.constraints, gas))
    case MultiGas => p.(multi := seq(|p.multi|, i requires 0 <= i < |p.multi| => ShrunkMulti(p.multi[i], gas)))
  }

  lemma {:induction false} TraversalCostBound(backlogs: seq<U64>, gas: U64)
    ensures TraversalCost(backlogs, gas) <= |backlogs| * (STORAGE_READ_COST + STORAGE_WRITE_COST)
    decreases |backlogs|
  {
    if backlogs != [] {
      TraversalCostBound(backlogs[..|backlogs|-1], gas);
    }
  }

  /** The reservation covers the update, except at ArbOS 50 with enough configured constraints. */
  lemma ReservationFallsShort(p: Pricing, gas: U64, version: U64)
    ensures ShrinkCost(p, gas, version) > BacklogUpdateCost(p, version)
       <==> version == ARBOS_SINGLE_GAS_CONSTRAINTS && TraversalCost(p.constraints, gas) > STORAGE_WRITE_COST
  {
    TraversalCostBound(p.constraints, gas);
  }

  /** Walking the constraints one by one, as the storage-backed vector is updated. */
  method ShrinkConstraints(backlogs: seq<U64>, gas: U64) returns (updated: seq<U64>, cost: U64)
    ensures updated == ShrunkBacklogs(backlogs, gas)
    ensures cost == SatAdd64(2 * STORAGE_READ_COST, TraversalCost(backlogs, gas))
  {
    updated, cost := [], 2 * STORAGE_READ_COST;
    for i := 0 to |backlogs|
      invariant |updated| == i && forall k :: 0 <= k < i ==> updated[k] == SatSub(backlogs[k], gas)
      invariant cost == SatAdd64(2 * STORAGE_READ_COST, TraversalCost(backlogs[..i], gas))
    {
      assert backlogs[..i+1][..i] == backlogs[..i];
      var next := SatSub(backlogs[i], gas);
      updated := updated + [next];
      cost := SatAdd64(cost, STORAGE_READ_COST + WriteCost(next));
    }
    assert backlogs[..|backlogs|] == backlogs;
  }

  method ShrinkMultiConstraints(multi: seq<MultiConstraint>, gas: U64) returns (updated: seq<MultiConstraint>)
    ensures |updated| == |multi|
    ensures forall i :: 0 <= i < |multi| ==>
      && updated[i].singleDimWeight == multi[i].singleDimWeight
      && updated[i].backlog == SatSub(multi[i].backlog, SatMul64(gas, multi[i].singleDimWeight))
  {
    updated := [];
    for i := 0 to |multi|
      invariant |updated| == i && forall k :: 0 <= k < i ==> updated[k] == ShrunkMulti(multi[k], gas)
    {
      var weightedGas := SatMul64(gas, multi[i].singleDimWeight);
      updated := updated + [multi[i].(backlog := SatSub(multi[i].backlog, weightedGas))];
    }
  }

  // ---------- Growing the backlog ----------

  function GrownBacklogs(backlogs: seq<U64>, gas: U64): (updated: seq<U64>)
    ensures |updated| == |backlogs|
    ensures forall i :: 0 <= i < |backlogs| ==> updated[i] == SatAdd64(backlogs[i], gas)
  {
    seq(|backlogs|, i requires 0 <= i < |backlogs| => SatAdd64(backlogs[i], gas))
  }

  /** The backlogs once `gas` was used; the multi-gas model cannot be grown by a single number. */
  function Grown(p: Pricing, gas: U64, version: U64): Option<Pricing> {
    match ModelOf(p, version)
    case Legacy => Some(p.(gasBacklog := SatAdd64(p.gasBacklog, gas)))
    case SingleGas => Some(p.(constraints := GrownBacklogs(p.constraints, gas)))
    case MultiGas => None
  }

  method GrowBacklog(p: Pricing, gas: U64, version: U64) returns (grown: Option<Pricing>)
    ensures grown == Grown(p, gas, version)
    ensures grown.None? <==> version >= ARBOS_MULTI_GAS_CONSTRAINTS && p.multi != []
  {
    match ModelOf(p, version) {
      case Legacy =>
        grown := Some(p.(gasBacklog := SatAdd64(p.gasBacklog, gas)));
      case SingleGas =>
        var updated: seq<U64> := [];
        for i := 0 to |p.constraints|
          invariant |updated| == i && forall k :: 0 <= k < i ==> updated[k] == SatAdd64(p.constraints[k], gas)
        {
          updated := updated + [SatAdd64(p.constraints[i], gas)];
        }
        assert updated == GrownBacklogs(p.constraints, gas);
        grown := Some(p.(constraints := updated));
      case MultiGas =>
        grown := None;
    }
  }

  /** The backlogs that the active single-number model keeps. */
  function ActiveBacklogs(p: Pricing, version: U64): seq<U64> {
    match ModelOf(p, version)
    case Legacy => [p.gasBacklog]
    case SingleGas => p.constraints
    case MultiGas => []
  }

  /** A retry that uses all the gas its redeem donated puts the backlogs back where they were, exactly when each of
      them held that much. */
  lemma GrowthUndoesShrinking(p: Pricing, gas: U64, version: U64)
    requires !ModelOf(p, version).MultiGas?
    ensures Grown(Shrunk(p, gas, version), gas, version) == Some(p)
       <==> forall i :: 0 <= i < |ActiveBacklogs(p, version)| ==> ActiveBacklogs(p, version)[i] >= gas
  {
    var q := Shrunk(p, gas, version);
    assert ModelOf(q, version) == ModelOf(p, version);
    if ModelOf(p, version).Legacy? {
      assert ActiveBacklogs(p, version)[0] == p.gasBacklog;
    } else {
      var back := GrownBacklogs(q.constraints, gas);
      assert Grown(q, gas, version) == Some(p.(constraints := back));
      assert ActiveBacklogs(p, version) == p.constraints;
      assert forall i :: 0 <= i < |back| ==> (back[i] == p.constraints[i] <==> p.constraints[i] >= gas);
      if forall i :: 0 <= i < |back| ==> p.constraints[i] >= gas {
        assert back == p.constraints;
      } else {
        var i :| 0 <= i < |back| && p.constraints[i] < gas;
        assert back[i] != p.constraints[i] && ActiveBacklogs(p, version)[i] < gas;
      }
    }
  }
}
