/**
 The ArbOS address set: a 1-indexed list of members with its size in slot 0, and an index
 from each member to its position.
 */
module AddressSets {
  import opened Words
  import opened Ledger

  /** Storage words by slot; an unwritten slot reads zero. */
  type Slots = map<nat, nat>

  function Read(slots: Slots, k: nat): nat {
    if k in slots then slots[k] else 0
  }

  datatype Store = Store(list: Slots, index: Slots)

  function Size(s: Store): nat {
    Read(s.list, 0)
  }

  /** Positions 1..size hold the members, list and index are mutual inverses, and what lies beyond is zero. */
  ghost predicate Tidy(s: Store) {
    && Size(s) <= U64_MAX
    && (forall i: nat :: 1 <= i <= Size(s) ==> Read(s.list, i) < ADDRESS_BOUND && Read(s.index, Read(s.list, i)) == i)
    && (forall a: nat :: Read(s.index, a) != 0 ==>
          Read(s.index, a) <= Size(s) && Read(s.list, Read(s.index, a)) == a)
    && (forall i: nat :: i > Size(s) ==> Read(s.list, i) == 0)
  }

  ghost function MembersOf(s: Store): set<Address> {
    set a: Address | a in s.index.Keys && Read(s.index, a) != 0
  }

  lemma MemberIs(s: Store, a: Address)
    ensures a in MembersOf(s) <==> Read(s.index, a) != 0
  {
  }

  /** The members at positions 1..n. */
  ghost function FirstMembers(s: Store, n: nat): set<Address> {
    set a: Address | a in s.index.Keys && 1 <= Read(s.index, a) <= n
  }

  lemma {:induction false} FirstMembersCount(s: Store, n: nat)
    requires Tidy(s) && n <= Size(s)
    ensures |FirstMembers(s, n)| == n
  {
    if n == 0 {
      assert FirstMembers(s, n) == {};
    } else {
      var last := Read(s.list, n);
      assert Read(s.index, last) == n;
      assert FirstMembers(s, n) == FirstMembers(s, n - 1) + {last};
      FirstMembersCount(s, n - 1);
    }
  }

  lemma SizeIsCardinality(s: Store)
    requires Tidy(s)
    ensures |MembersOf(s)| == Size(s)
  {
    assert MembersOf(s) == FirstMembers(s, Size(s));
    FirstMembersCount(s, Size(s));
  }

  // ---------- Adding and removing ----------

  function AfterAdd(s: Store, a: Address): Store {
    if Read(s.index, a) != 0 then s
    else
      var size := SatAdd64(Size(s), 1);
      Store(s.list[size := a][0 := size], s.index[a := size])
  }

  function AfterRemove(s: Store, a: Address): Store {
    var position := Read(s.index, a);
    if position == 0 then s
    else
      var size := Size(s);
      var last := Read(s.list, size);
      var moved := if position != size then Store(s.list[position := last], s.index[last := position]) else s;
      Store(moved.list[size := 0][0 := SatSub(size, 1)], moved.index[a := 0])
  }

  lemma AddReads(s: Store, a: Address, k: nat)
    requires Read(s.index, a) == 0 && Size(s) < U64_MAX
    ensures Size(AfterAdd(s, a)) == Size(s) + 1
    ensures k > 0 ==> Read(AfterAdd(s, a).list, k) == if k == Size(s) + 1 then a else Read(s.list, k)
    ensures Read(AfterAdd(s, a).index, k) == if k == a then Size(s) + 1 else Read(s.index, k)
  {
  }

  lemma AddKeepsTidy(s: Store, t: Store, a: Address)
    requires Tidy(s) && Read(s.index, a) == 0 && Size(s) < U64_MAX && t == AfterAdd(s, a)
    ensures Tidy(t)
  {
    AddReads(s, a, 1);
    forall i: nat | 1 <= i <= Size(t)
      ensures Read(t.list, i) < ADDRESS_BOUND && Read(t.index, Read(t.list, i)) == i
    {
      AddReads(s, a, i);
      AddReads(s, a, Read(t.list, i));
    }
    forall b: nat | Read(t.index, b) != 0
      ensures Read(t.index, b) <= Size(t) && Read(t.list, Read(t.index, b)) == b
    {
      AddReads(s, a, b);
      AddReads(s, a, Read(t.index, b));
    }
    forall i: nat | i > Size(t)
      ensures Read(t.list, i) == 0
    {
      AddReads(s, a, i);
    }
  }

  lemma AddRefines(s: Store, a: Address)
    requires Tidy(s) && (a in MembersOf(s) || Size(s) < U64_MAX)
    ensures Tidy(AfterAdd(s, a)) && MembersOf(AfterAdd(s, a)) == MembersOf(s) + {a}
  {
    MemberIs(s, a);
    if Read(s.index, a) == 0 {
      AddKeepsTidy(s, AfterAdd(s, a), a);
      forall b: Address
        ensures b in MembersOf(AfterAdd(s, a)) <==> b in MembersOf(s) + {a}
      {
        AddReads(s, a, b);
        MemberIs(s, b);
        MemberIs(AfterAdd(s, a), b);
      }
    }
  }

  /** A full list saturates: the new member takes over the last position, and the index of the old one dangles. */
  lemma AddToFullBreaks(s: Store, a: Address)
    requires Tidy(s) && a !in MembersOf(s) && Size(s) == U64_MAX
    ensures !Tidy(AfterAdd(s, a))
  {
    MemberIs(s, a);
    var last := Read(s.list, U64_MAX);
    assert Read(s.index, last) == U64_MAX;
    assert Read(AfterAdd(s, a).index, last) == U64_MAX;
  }

  /** What is read after a removal, which moves the last member into the gap. */
  lemma RemoveReads(s: Store, a: Address, k: nat)
    requires Tidy(s) && Read(s.index, a) != 0
    ensures Size(AfterRemove(s, a)) == Size(s) - 1
    ensures k > 0 ==>
      Read(AfterRemove(s, a).list, k)
      == if k == Size(s) then 0 else if k == Read(s.index, a) then Read(s.list, Size(s)) else Read(s.list, k)
    ensures Read(AfterRemove(s, a).index, k)
         == if k == a then 0 else if k == Read(s.list, Size(s)) then Read(s.index, a) else Read(s.index, k)
  {
    assert Read(s.index, Read(s.list, Size(s))) == Size(s);
  }

  lemma RemoveKeepsTidy(s: Store, t: Store, a: Address)
    requires Tidy(s) && Read(s.index, a) != 0 && t == AfterRemove(s, a)
    ensures Tidy(t)
  {
    assert Read(s.index, Read(s.list, Size(s))) == Size(s);
    RemoveReads(s, a, 1);
    forall i: nat | 1 <= i <= Size(t)
      ensures Read(t.list, i) < ADDRESS_BOUND && Read(t.index, Read(t.list, i)) == i
    {
      RemoveReads(s, a, i);
      RemoveReads(s, a, Read(t.list, i));
      assert Read(s.index, Read(s.list, i)) == i;
    }
    forall b: nat | Read(t.index, b) != 0
      ensures Read(t.index, b) <= Size(t) && Read(t.list, Read(t.index, b)) == b
    {
      RemoveReads(s, a, b);
      RemoveReads(s, a, Read(t.index, b));
    }
    forall i: nat | i > Size(t)
      ensures Read(t.list, i) == 0
    {
      RemoveReads(s, a, i);
    }
  }

  lemma RemoveRefines(s: Store, a: Address)
    requires Tidy(s)
    ensures Tidy(AfterRemove(s, a)) && MembersOf(AfterRemove(s, a)) == MembersOf(s) - {a}
  {
    MemberIs(s, a);
    if Read(s.index, a) != 0 {
      RemoveKeepsTidy(s, AfterRemove(s, a), a);
      assert Read(s.index, Read(s.list, Size(s))) == Size(s);
      forall b: Address
        ensures b in MembersOf(AfterRemove(s, a)) <==> b in MembersOf(s) - {a}
      {
        RemoveReads(s, a, b);
        MemberIs(s, b);
        MemberIs(AfterRemove(s, a), b);
      }
    }
  }

  // ---------- Runs ----------

  datatype Op = Add(a: Address) | Remove(a: Address)

  function Apply(s: Store, op: Op): Store {
    match op
    case Add(a) => AfterAdd(s, a)
    case Remove(a) => AfterRemove(s, a)
  }

  function Run(ops: seq<Op>): Store {
    if ops == [] then Store(map[], map[]) else Apply(Run(ops[..|ops| - 1]), ops[|ops| - 1])
  }

  /** The mathematical set after the same operations. */
  function SetAfter(ops: seq<Op>): set<Address> {
    if ops == [] then {}
    else
      match ops[|ops| - 1]
      case Add(a) => SetAfter(ops[..|ops| - 1]) + {a}
      case Remove(a) => SetAfter(ops[..|ops| - 1]) - {a}
  }

  /** Every run whose set never outgrows the size field refines that set. */
  lemma {:induction false} RunsRefine(ops: seq<Op>)
    requires forall i :: 0 <= i <= |ops| ==> |SetAfter(ops[..i])| <= U64_MAX
    ensures Tidy(Run(ops)) && MembersOf(Run(ops)) == SetAfter(ops) && Size(Run(ops)) == |SetAfter(ops)|
  {
    if ops != [] {
      var before, op := ops[..|ops| - 1], ops[|ops| - 1];
      forall i | 0 <= i <= |before|
        ensures |SetAfter(before[..i])| <= U64_MAX
      {
        assert before[..i] == ops[..i];
      }
      RunsRefine(before);
      assert ops[..|ops|] == ops;
      match op {
        case Add(a) =>
          if a in SetAfter(before) {
            AddRefines(Run(before), a);
          } else {
            assert |SetAfter(before) + {a}| == |SetAfter(before)| + 1;
            AddRefines(Run(before), a);
          }
        case Remove(a) => RemoveRefines(Run(before), a);
      }
      SizeIsCardinality(Run(ops));
    }
  }

  // ---------- The storage-backed set ----------

  class AddressSet {
    var list: Slots
    var index: Slots

    constructor ()
      ensures Contents() == Run([])
    {
      list := map[];
      index := map[];
    }

    ghost function Contents(): Store
      reads this
    {
      Store(list, index)
    }

    method IsMember(a: Address) returns (member: bool)
      ensures member <==> a in MembersOf(Contents())
    {
      member := Read(index, a) != 0;
    }

    method Add(a: Address)
      modifies this
      ensures Contents() == AfterAdd(old(Contents()), a)
      ensures old(Tidy(Contents())) ==>
        (Tidy(Contents()) && MembersOf(Contents()) == old(MembersOf(Contents())) + {a}
         <==> a in old(MembersOf(Contents())) || old(Size(Contents())) < U64_MAX)
    {
      ghost var before := Contents();
      var member := IsMember(a);
      if !member {
        var size := SatAdd64(Read(list, 0), 1);
        index := index[a := size];
        list := list[size := a];
        list := list[0 := size];
      }
      if Tidy(before) && (a in MembersOf(before) || Size(before) < U64_MAX) {
        AddRefines(before, a);
      } else if Tidy(before) {
        AddToFullBreaks(before, a);
      }
    }

    method Remove(a: Address)
      modifies this
      ensures Contents() == AfterRemove(old(Contents()), a)
      ensures old(Tidy(Contents())) ==>
        Tidy(Contents()) && MembersOf(Contents()) == old(MembersOf(Contents())) - {a}
    {
      ghost var before := Contents();
      var position := Read(index, a);
      if position != 0 {
        var size := Read(list, 0);
        if position != size {
          var last := Read(list, size);
          index := index[last := position];
          list := list[position := last];
        }
        index := index[a := 0];
        list := list[size := 0];
        list := list[0 := SatSub(size, 1)];
      }
      if Tidy(before) {
        RemoveRefines(before, a);
      }
    }

    /** The members in storage order, each once. */
    method AllMembers() returns (members: seq<Address>)
      requires Tidy(Contents())
      ensures |members| == Size(Contents())
      ensures forall a :: a in members <==> a in MembersOf(Contents())
      ensures forall i, j :: 0 <= i < j < |members| ==> members[i] != members[j]
      ensures forall i :: 0 <= i < |members| ==> Read(index, members[i]) == i + 1
    {
      members := [];
      var size := Read(list, 0);
      for i := 1 to size + 1
        invariant |members| == i - 1
        invariant forall j :: 0 <= j < |members| ==> members[j] == Read(list, j + 1)
      {
        members := members + [Read(list, i)];
      }
      forall a: Address
        ensures a in members <==> a in MembersOf(Contents())
      {
        if Read(index, a) != 0 {
          assert members[Read(index, a) - 1] == a;
        }
      }
    }
  }
}
