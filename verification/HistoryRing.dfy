/**
 The EIP-2935 history write at the start of each block: the parent hash goes to slot
 (number - 1) modulo the serve window.
 */
module HistoryRing {
  import opened Words

  const HISTORY_SERVE_WINDOW: nat := 393_168
  const HISTORY_VERSION: nat := 40

  type Ring = map<nat, U256>

  /** What the chain says about each block: the version its start sees, and its hash. */
  datatype Chain = Chain(version: nat -> nat, hash: nat -> U256)

  function Slot(block: nat): nat {
    block % HISTORY_SERVE_WINDOW
  }

  function Written(ring: Ring, chain: Chain, number: nat): Ring {
    if chain.version(number) >= HISTORY_VERSION && number > 0
    then ring[Slot(number - 1) := chain.hash(number - 1)] else ring
  }

  /** After the starts of blocks `first` up to but not including `next`: every block of the last window that they could
      record has its hash in its slot. */
  ghost predicate Served(ring: Ring, chain: Chain, first: nat, next: nat) {
    forall block: nat :: first <= block + 1 < next <= block + 1 + HISTORY_SERVE_WINDOW ==>
      Slot(block) in ring && ring[Slot(block)] == chain.hash(block)
  }

  class HistoryStorage {
    var slots: Ring

    constructor (slots: Ring)
      ensures this.slots == slots
    {
      this.slots := slots;
    }

    /** The history write of a block start. It touches one slot, and from version 40 on it keeps the window served. */
    method StartBlock(chain: Chain, number: nat)
      modifies this
      ensures slots == Written(old(slots), chain, number)
      ensures forall k :: (number == 0 || k != Slot(number - 1)) && k in old(slots) ==> k in slots && slots[k] == old(slots)[k]
      ensures forall first: nat ::
        0 < first <= number && chain.version(number) >= HISTORY_VERSION && Served(old(slots), chain, first, number)
        ==> Served(slots, chain, first, number + 1)
    {
      ghost var before := slots;
      var parent: U256 := if number == 0 then 0 else chain.hash(number - 1);
      if chain.version(number) >= HISTORY_VERSION && number > 0 {
        slots := slots[(number - 1) % HISTORY_SERVE_WINDOW := parent];
      }
      forall first: nat | 0 < first <= number && chain.version(number) >= HISTORY_VERSION && Served(before, chain, first, number)
        ensures Served(slots, chain, first, number + 1)
      {
        WriteKeepsServing(before, chain, first, number);
      }
    }
  }

  lemma WriteKeepsServing(ring: Ring, chain: Chain, first: nat, number: nat)
    requires 0 < first <= number && chain.version(number) >= HISTORY_VERSION && Served(ring, chain, first, number)
    ensures Served(Written(ring, chain, number), chain, first, number + 1)
  {
    forall block: nat | first <= block + 1 < number + 1 <= block + 1 + HISTORY_SERVE_WINDOW
      ensures Slot(block) in Written(ring, chain, number) && Written(ring, chain, number)[Slot(block)] == chain.hash(block)
    {
      if block != number - 1 {
        SlotsDiffer(block, number - 1);
      }
    }
  }

  /** The ring after the starts of blocks `first` up to but not including `next`. */
  function After(ring: Ring, chain: Chain, first: nat, next: nat): Ring
    requires first <= next
    decreases next
  {
    if next == first then ring else Written(After(ring, chain, first, next - 1), chain, next - 1)
  }

  lemma SlotsDiffer(a: nat, b: nat)
    requires a < b < a + HISTORY_SERVE_WINDOW
    ensures Slot(a) != Slot(b)
  {
  }

  /** In a run of consecutive blocks at version 40 or above the window is served, whatever the ring held before. */
  lemma {:induction false} WindowIsKept(ring: Ring, chain: Chain, first: nat, next: nat)
    requires 0 < first <= next
    requires forall n :: first <= n < next ==> chain.version(n) >= HISTORY_VERSION
    ensures Served(After(ring, chain, first, next), chain, first, next)
    decreases next
  {
    if first < next {
      WindowIsKept(ring, chain, first, next - 1);
      WriteKeepsServing(After(ring, chain, first, next - 1), chain, first, next - 1);
    }
  }

  /** One block later its slot holds the hash of the block a full window on. */
  lemma WindowIsExact(ring: Ring, chain: Chain, first: nat, block: nat)
    requires 0 < first <= block + 1
    requires forall n :: first <= n <= block + HISTORY_SERVE_WINDOW + 1 ==> chain.version(n) >= HISTORY_VERSION
    ensures var after := After(ring, chain, first, block + HISTORY_SERVE_WINDOW + 2);
            Slot(block) in after && after[Slot(block)] == chain.hash(block + HISTORY_SERVE_WINDOW)
  {
    WindowIsKept(ring, chain, first, block + HISTORY_SERVE_WINDOW + 2);
    assert Slot(block + HISTORY_SERVE_WINDOW) == Slot(block);
  }
}
