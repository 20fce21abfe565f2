/**
 Rebuilding a trie from a path map, after Appendix D of the Ethereum Yellow Paper with
 opaque subtrees standing for their hash; and rebuilding what was collected.
 */
module TrieBuild {
  import opened Words
  import opened PartialTrie

  /** Nodes whose encoding is shorter than a hash are referred to in place. Which ones are is left open. */
  function Refer(n: Node, small: Node -> bool): Child {
    if small(n) then Inline(n) else ByHash(Keccak(n))
  }

  /** The entries whose path starts with `x`, with that nibble taken off. */
  function Below(m: Entries, x: Nibble): (r: Entries)
    ensures forall p: Path :: Get(r, p) == Get(m, [x] + p)
  {
    var tails := set k | k in m.Keys && k != [] && k[0] == x :: k[1..];
    var r: Entries := map p: Path | p in tails && [x] + p in m :: m[[x] + p];
    assert forall p: Path :: p in r <==> [x] + p in m by {
      forall p: Path | [x] + p in m
        ensures p in r
      {
        assert ([x] + p)[1..] == p;
      }
    }
    r
  }

  predicate AllStartWith(m: Entries, x: Nibble) {
    forall k :: k in m ==> k != [] && k[0] == x
  }

  predicate Within(m: Entries, room: nat) {
    forall k :: k in m ==> |k| <= room
  }

  lemma OneKey(m: Entries, a: Path, b: Path)
    requires |m| == 1 && a in m && b in m
    ensures a == b
  {
    if a != b {
      TwoKeys(m, a, b);
    }
  }

  lemma TwoKeys(m: Entries, a: Path, b: Path)
    requires a in m && b in m && a != b
    ensures |m| >= 2
  {
    assert {a, b} <= m.Keys;
    SubsetSize({a, b}, m.Keys);
  }

  lemma {:induction false} SubsetSize(a: set<Path>, b: set<Path>)
    requires a <= b
    ensures |a| <= |b|
    decreases |a|
  {
    if a != {} {
      var x :| x in a;
      SubsetSize(a - {x}, b - {x});
    }
  }

  function OnlyKey(m: Entries): (k: Path)
    requires |m| == 1
    ensures k in m
  {
    assert m.Keys != {};
    assert forall a, b :: a in m && b in m ==> a == b by {
      forall a, b | a in m && b in m
        ensures a == b
      {
        OneKey(m, a, b);
      }
    }
    var k :| k in m;
    k
  }

  /** One nibble in front of a node that stands alone. */
  function Lift(x: Nibble, n: Node, small: Node -> bool): Node {
    if n.Extension? then Extension([x] + n.key, n.child) else Extension([x], Refer(n, small))
  }

  /** The node for a path map. `room` bounds the length of its paths. */
  function BuildNode(m: Entries, room: nat, small: Node -> bool): Node
    decreases room, 0
  {
    if m == map[] then EmptyRoot
    else if |m| == 1 then
      var k := OnlyKey(m);
      match m[k]
      case LeafEntry(value) => Leaf(k, value)
      case Subtree(hash) => Extension(k, ByHash(hash))
    else if room == 0 then EmptyRoot
    else if CommonHead(m).Some? then
      Lift(CommonHead(m).value, BuildNode(Below(m, CommonHead(m).value), room - 1, small), small)
    else Branch(BuildChildren(m, room - 1, small))
  }

  function BuildChildren(m: Entries, room: nat, small: Node -> bool): (cs: seq<Child>)
    ensures |cs| == 16
    decreases room, 2
  {
    seq(16, i requires 0 <= i < 16 => BuildRef(Below(m, i), room, small))
  }

  /** The reference to the node for a path map; an opaque subtree at the root of the map is its own reference. */
  function BuildRef(m: Entries, room: nat, small: Node -> bool): Child
    decreases room, 1
  {
    if m == map[] then Absent
    else if [] in m && m[[]].Subtree? then ByHash(m[[]].hash)
    else Refer(BuildNode(m, room, small), small)
  }

  function CommonHead(m: Entries): (x: Option<Nibble>)
    ensures x.Some? ==> AllStartWith(m, x.value)
    ensures forall y: Nibble :: m != map[] && AllStartWith(m, y) ==> x == Some(y)
  {
    if m == map[] then None else HeadFrom(m, 0)
  }

  function HeadFrom(m: Entries, x: nat): (r: Option<Nibble>)
    requires m != map[] && x <= 16
    requires forall y: Nibble :: y < x ==> !AllStartWith(m, y)
    ensures r.Some? ==> AllStartWith(m, r.value)
    ensures forall y: Nibble :: AllStartWith(m, y) ==> r == Some(y)
    decreases 16 - x
  {
    if x == 16 then None
    else if AllStartWith(m, x) then
      assert forall y: Nibble :: AllStartWith(m, y) ==> y == x by {
        var k :| k in m;
        assert k[0] == x;
      }
      Some(x)
    else HeadFrom(m, x + 1)
  }

  // ---------- Canonical tries ----------

  function Target(c: Child): Node
    requires !c.Absent?
  {
    if c.Inline? then c.node else c.hash.preimage
  }

  /** A node as the construction makes it: no empty extension, an extension only above a branch, at least two
      children in a branch, and every reference the one its target's size calls for. */
  ghost predicate Canonical(n: Node, small: Node -> bool)
    decreases n, 0
  {
    match n
    case EmptyRoot => false
    case Leaf(_, _) => true
    case Extension(key, child) =>
      key != [] && !child.Absent? && Target(child).Branch? && CanonicalRef(child, small)
    case Branch(children) =>
      && |children| == 16
      && (forall i :: 0 <= i < 16 && !children[i].Absent? ==> CanonicalRef(children[i], small))
      && (exists i, j :: 0 <= i < j < 16 && !children[i].Absent? && !children[j].Absent?)
  }

  ghost predicate CanonicalRef(c: Child, small: Node -> bool)
    decreases c, 1
  {
    match c
    case Absent => false
    case Inline(n) => small(n) && Canonical(n, small)
    case ByHash(h) => !small(h.preimage) && Canonical(h.preimage, small)
  }

  // ---------- Collecting and rebuilding ----------

  ghost predicate Collected(m: Entries, n: Node, revealed: iset<Hash>) {
    forall p: Path :: Get(m, p) == EntryAt(n, p, revealed)
  }

  ghost predicate CollectedChild(m: Entries, c: Child, revealed: iset<Hash>) {
    forall p: Path :: Get(m, p) == ChildEntryAt(c, p, revealed)
  }

  lemma SameEntries(m: Entries, m': Entries)
    requires forall p: Path :: Get(m, p) == Get(m', p)
    ensures m == m'
  {
    forall p
      ensures p in m <==> p in m'
      ensures p in m && p in m' ==> m[p] == m'[p]
    {
      assert Get(m, p) == Get(m', p);
    }
  }

  /** Something lies below every canonical node. */
  lemma {:induction false} SomeEntry(n: Node, small: Node -> bool, revealed: iset<Hash>) returns (p: Path)
    requires Canonical(n, small)
    ensures EntryAt(n, p, revealed).Some?
    decreases n, 0
  {
    match n
    case Leaf(key, _) => p := key;
    case Extension(key, child) =>
      var q := SomeChildEntry(child, small, revealed);
      p := key + q;
      assert p[|key|..] == q;
    case Branch(children) =>
      var i: Nibble :| !children[i].Absent?;
      var q := SomeChildEntry(children[i], small, revealed);
      p := [i] + q;
      assert p[1..] == q;
  }

  lemma {:induction false} SomeChildEntry(c: Child, small: Node -> bool, revealed: iset<Hash>) returns (p: Path)
    requires CanonicalRef(c, small)
    ensures ChildEntryAt(c, p, revealed).Some?
    decreases c, 1
  {
    if c.ByHash? && c.hash !in revealed {
      p := [];
    } else {
      p := SomeEntry(Target(c), small, revealed);
    }
  }

  /** A branch's entries spread over at least two first nibbles. */
  lemma BranchSpreads(m: Entries, children: seq<Child>, small: Node -> bool, revealed: iset<Hash>)
    requires Canonical(Branch(children), small) && Collected(m, Branch(children), revealed)
    ensures |m| >= 2 && CommonHead(m).None?
    ensures forall x: Nibble :: !AllStartWith(m, x)
  {
    var i: Nibble, j: Nibble :| i < j && !children[i].Absent? && !children[j].Absent?;
    var p := SomeChildEntry(children[i], small, revealed);
    var q := SomeChildEntry(children[j], small, revealed);
    assert ([i] + p)[1..] == p && ([j] + q)[1..] == q;
    assert Get(m, [i] + p).Some? && Get(m, [j] + q).Some?;
    TwoKeys(m, [i] + p, [j] + q);
  }

  lemma BelowBranch(m: Entries, children: seq<Child>, i: Nibble, revealed: iset<Hash>)
    requires i < |children| && Collected(m, Branch(children), revealed)
    ensures CollectedChild(Below(m, i), children[i], revealed)
  {
    forall p: Path
      ensures Get(Below(m, i), p) == ChildEntryAt(children[i], p, revealed)
    {
      assert ([i] + p)[1..] == p;
      assert Get(m, [i] + p) == EntryAt(Branch(children), [i] + p, revealed);
    }
  }

  lemma BelowWithin(m: Entries, x: Nibble, room: nat)
    requires Within(m, room) && room > 0
    ensures Within(Below(m, x), room - 1)
  {
    forall k | k in Below(m, x)
      ensures |k| <= room - 1
    {
      assert Get(Below(m, x), k) == Get(m, [x] + k);
    }
  }

  /** `m` is `inner` with `prefix` in front of every path. */
  ghost predicate Prefixed(m: Entries, prefix: Path, inner: Entries) {
    forall p: Path :: Get(m, p) == if prefix <= p then Get(inner, p[|prefix|..]) else None
  }

  lemma BelowPrefixed(m: Entries, prefix: Path, inner: Entries)
    requires prefix != [] && Prefixed(m, prefix, inner)
    ensures Prefixed(Below(m, prefix[0]), prefix[1..], inner)
    ensures AllStartWith(m, prefix[0])
  {
    forall p: Path
      ensures Get(Below(m, prefix[0]), p) == if prefix[1..] <= p then Get(inner, p[|prefix[1..]|..]) else None
    {
      var q := [prefix[0]] + p;
      assert q[1..] == p;
      assert prefix <= q <==> prefix[1..] <= p;
      if prefix[1..] <= p {
        assert q[|prefix|..] == p[|prefix[1..]|..];
      }
    }
    forall k | k in m
      ensures k != [] && k[0] == prefix[0]
    {
      assert Get(m, k).Some?;
    }
  }

  lemma PrefixedKeys(m: Entries, prefix: Path, inner: Entries, a: Path)
    requires Prefixed(m, prefix, inner) && a in inner
    ensures prefix + a in m
  {
    assert (prefix + a)[|prefix|..] == a;
    assert Get(m, prefix + a) == Get(inner, a);
  }

  lemma TwoEntries(m: Entries) returns (a: Path, b: Path)
    requires |m| >= 2
    ensures a in m && b in m && a != b
  {
    assert |m.Keys| >= 2;
    a :| a in m.Keys;
    var others := m.Keys - {a};
    assert |others| == |m.Keys| - 1;
    b :| b in others;
  }

  lemma PrefixedSize(m: Entries, prefix: Path, inner: Entries)
    requires Prefixed(m, prefix, inner) && |inner| >= 2
    ensures |m| >= 2
  {
    var a, b := TwoEntries(inner);
    PrefixedKeys(m, prefix, inner, a);
    PrefixedKeys(m, prefix, inner, b);
    assert (prefix + a)[|prefix|..] == a && (prefix + b)[|prefix|..] == b;
    TwoKeys(m, prefix + a, prefix + b);
  }

  // One-step views of the construction.

  lemma BuildCommon(m: Entries, x: Nibble, room: nat, small: Node -> bool)
    requires |m| >= 2 && AllStartWith(m, x) && room > 0
    ensures BuildNode(m, room, small) == Lift(x, BuildNode(Below(m, x), room - 1, small), small)
  {
    assert m != map[];
  }

  lemma BuildSpread(m: Entries, children: seq<Child>, room: nat, small: Node -> bool)
    requires |m| >= 2 && CommonHead(m).None? && room > 0 && |children| == 16
    requires forall i: Nibble :: BuildRef(Below(m, i), room - 1, small) == children[i]
    ensures BuildNode(m, room, small) == Branch(children)
  {
    assert m != map[];
    assert BuildChildren(m, room - 1, small) == children;
  }

  lemma BuildSingle(k: Path, entry: Entry, room: nat, small: Node -> bool)
    ensures BuildNode(map[k := entry], room, small)
         == match entry { case LeafEntry(value) => Leaf(k, value) case Subtree(hash) => Extension(k, ByHash(hash)) }
  {
    assert |map[k := entry]| == 1;
  }

  lemma PrefixedOnce(m: Entries, x: Nibble, inner: Entries)
    requires Prefixed(m, [x], inner)
    ensures Below(m, x) == inner
  {
    forall p: Path
      ensures Get(Below(m, x), p) == Get(inner, p)
    {
      assert ([x] + p)[1..] == p;
    }
    SameEntries(Below(m, x), inner);
  }

  /** A node lifted over one shared nibble. */
  lemma BuildLifted(m: Entries, prefix: Path, inner: Entries, tail: Node, room: nat, small: Node -> bool)
    requires prefix != [] && Prefixed(m, prefix, inner) && |inner| >= 2 && room > 0
    requires BuildNode(Below(m, prefix[0]), room - 1, small) == tail
    ensures BuildNode(m, room, small) == Lift(prefix[0], tail, small)
  {
    BelowPrefixed(m, prefix, inner);
    PrefixedSize(m, prefix, inner);
    BuildCommon(m, prefix[0], room, small);
  }

  ghost predicate Builds(m: Entries, room: nat, small: Node -> bool, n: Node) {
    BuildNode(m, room, small) == n
  }

  lemma BuildUnderNibble(m: Entries, x: Nibble, inner: Entries, branch: Node, room: nat, small: Node -> bool)
    requires Prefixed(m, [x], inner) && |inner| >= 2
    requires branch.Branch? && Builds(inner, room, small, branch)
    ensures Builds(m, room + 1, small, Extension([x], Refer(branch, small)))
  {
    PrefixedOnce(m, x, inner);
    BuildLifted(m, [x], inner, branch, room + 1, small);
  }

  lemma BuildUnderMore(m: Entries, prefix: Path, below: Entries, rest: Path, inner: Entries, ref: Child, room: nat,
                       small: Node -> bool)
    requires |prefix| >= 2 && Prefixed(m, prefix, inner) && |inner| >= 2 && room > 0
    requires below == Below(m, prefix[0]) && rest == prefix[1..]
    requires Builds(below, room - 1, small, Extension(rest, ref))
    ensures Builds(m, room, small, Extension(prefix, ref))
  {
    assert [prefix[0]] + rest == prefix;
    BuildLifted(m, prefix, inner, Extension(rest, ref), room, small);
  }

  /** A shared prefix above at least two spread-out entries becomes one extension. */
  lemma {:induction false} BuildUnderPrefix(m: Entries, prefix: Path, inner: Entries, branch: Node, room: nat, above: nat,
                                            small: Node -> bool)
    requires prefix != [] && Prefixed(m, prefix, inner) && |inner| >= 2 && above == room + |prefix|
    requires branch.Branch? && Builds(inner, room, small, branch)
    ensures Builds(m, above, small, Extension(prefix, Refer(branch, small)))
    decreases |prefix|
  {
    if |prefix| == 1 {
      assert prefix == [prefix[0]];
      BuildUnderNibble(m, prefix[0], inner, branch, room, small);
    } else {
      BelowPrefixed(m, prefix, inner);
      var below, rest := Below(m, prefix[0]), prefix[1..];
      BuildUnderPrefix(below, rest, inner, branch, room, above - 1, small);
      BuildUnderMore(m, prefix, below, rest, inner, Refer(branch, small), above, small);
    }
  }

  // ---------- Rebuilding gives back what was collected ----------

  /** The entries below an extension with a revealed target, without its prefix. */
  lemma ExtensionInner(m: Entries, prefix: Path, child: Child, revealed: iset<Hash>) returns (inner: Entries)
    requires Collected(m, Extension(prefix, child), revealed)
    ensures Prefixed(m, prefix, inner) && CollectedChild(inner, child, revealed)
    ensures forall room: nat | |prefix| <= room :: Within(m, room) ==> Within(inner, room - |prefix|)
  {
    var tails := set k | k in m.Keys && prefix <= k :: k[|prefix|..];
    inner := map p: Path | p in tails && prefix + p in m :: m[prefix + p];
    forall p: Path
      ensures Get(inner, p) == Get(m, prefix + p) == ChildEntryAt(child, p, revealed)
    {
      assert (prefix + p)[|prefix|..] == p;
    }
    forall p: Path
      ensures Get(m, p) == if prefix <= p then Get(inner, p[|prefix|..]) else None
    {
      if prefix <= p {
        assert p == prefix + p[|prefix|..];
      }
    }
  }

  /** Rebuilding canonically from a canonical node's collected entries returns that node, whichever of its
      subtrees are opaque. */
  lemma {:induction false} RebuildNode(m: Entries, n: Node, room: nat, small: Node -> bool, revealed: iset<Hash>)
    requires Canonical(n, small) && Collected(m, n, revealed) && Within(m, room)
    ensures Builds(m, room, small, n)
    decreases n, 2
  {
    match n
    case Leaf(key, value) =>
      SameEntries(m, map[key := LeafEntry(value)]);
      BuildSingle(key, LeafEntry(value), room, small);
    case Extension(prefix, child) =>
      if child.ByHash? && child.hash !in revealed {
        RebuildOpaqueExtension(m, prefix, child.hash, room, small, revealed);
      } else {
        RebuildExtension(m, prefix, child, room, small, revealed);
      }
    case Branch(children) =>
      RebuildBranch(m, children, room, small, revealed);
  }

  lemma {:induction false} RebuildExtension(m: Entries, prefix: Path, child: Child, room: nat, small: Node -> bool,
                                            revealed: iset<Hash>)
    requires Canonical(Extension(prefix, child), small) && Collected(m, Extension(prefix, child), revealed)
    requires Within(m, room) && (child.ByHash? ==> child.hash in revealed)
    ensures Builds(m, room, small, Extension(prefix, child))
    decreases Extension(prefix, child), 1
  {
    var inner := ExtensionInner(m, prefix, child, revealed);
    InnerSpreads(m, prefix, inner, Target(child), room, small, revealed);
    RebuildNode(inner, Target(child), room - |prefix|, small, revealed);
    BuildUnderPrefix(m, prefix, inner, Target(child), room - |prefix|, room, small);
  }

  lemma InnerSpreads(m: Entries, prefix: Path, inner: Entries, branch: Node, room: nat, small: Node -> bool,
                     revealed: iset<Hash>)
    requires branch.Branch? && Canonical(branch, small) && Collected(inner, branch, revealed)
    requires Prefixed(m, prefix, inner) && Within(m, room)
    ensures |inner| >= 2 && |prefix| <= room
  {
    BranchSpreads(inner, branch.children, small, revealed);
    RoomForPrefix(m, prefix, inner, room);
  }

  lemma RoomForPrefix(m: Entries, prefix: Path, inner: Entries, room: nat)
    requires Prefixed(m, prefix, inner) && |inner| >= 2 && Within(m, room)
    ensures |prefix| <= room
  {
    var a, b := TwoEntries(inner);
    PrefixedKeys(m, prefix, inner, a);
  }

  lemma OpaqueExtensionEntry(prefix: Path, hash: Hash, p: Path, revealed: iset<Hash>)
    requires hash !in revealed
    ensures EntryAt(Extension(prefix, ByHash(hash)), p, revealed) == if p == prefix then Some(Subtree(hash)) else None
  {
    if prefix <= p {
      assert p == prefix + p[|prefix|..];
      assert p == prefix <==> p[|prefix|..] == [];
      assert EntryAt(Extension(prefix, ByHash(hash)), p, revealed) == ChildEntryAt(ByHash(hash), p[|prefix|..], revealed);
    }
  }

  lemma RebuildOpaqueExtension(m: Entries, prefix: Path, hash: Hash, room: nat, small: Node -> bool, revealed: iset<Hash>)
    requires hash !in revealed && Collected(m, Extension(prefix, ByHash(hash)), revealed)
    ensures BuildNode(m, room, small) == Extension(prefix, ByHash(hash))
  {
    forall p: Path
      ensures Get(m, p) == Get(map[prefix := Subtree(hash)], p)
    {
      OpaqueExtensionEntry(prefix, hash, p, revealed);
    }
    SameEntries(m, map[prefix := Subtree(hash)]);
    BuildSingle(prefix, Subtree(hash), room, small);
  }

  lemma {:induction false} RebuildBranch(m: Entries, children: seq<Child>, room: nat, small: Node -> bool, revealed: iset<Hash>)
    requires Canonical(Branch(children), small) && Collected(m, Branch(children), revealed) && Within(m, room)
    ensures BuildNode(m, room, small) == Branch(children)
    decreases Branch(children), 1
  {
    BranchSpreads(m, children, small, revealed);
    RoomForBranch(m, children, room, revealed);
    forall i: Nibble
      ensures BuildRef(Below(m, i), room - 1, small) == children[i]
    {
      RebuildChild(m, children, i, Below(m, i), room, small, revealed);
    }
    BuildSpread(m, children, room, small);
  }

  lemma {:induction false} RebuildChild(m: Entries, children: seq<Child>, i: Nibble, below: Entries, room: nat,
                                        small: Node -> bool, revealed: iset<Hash>)
    requires Canonical(Branch(children), small) && Collected(m, Branch(children), revealed) && Within(m, room) && room > 0
    requires below == Below(m, i)
    ensures BuildRef(below, room - 1, small) == children[i]
    decreases Branch(children), 0
  {
    BelowBranch(m, children, i, revealed);
    BelowWithin(m, i, room);
    if children[i].Absent? {
      SameEntries(below, map[]);
    } else {
      RebuildRef(below, children[i], room - 1, small, revealed);
    }
  }

  lemma RoomForBranch(m: Entries, children: seq<Child>, room: nat, revealed: iset<Hash>)
    requires Collected(m, Branch(children), revealed) && |m| >= 2 && Within(m, room)
    ensures room > 0
  {
    var a, b := TwoEntries(m);
    assert Get(m, a) == EntryAt(Branch(children), a, revealed);
  }

  lemma {:induction false} RebuildRef(m: Entries, c: Child, room: nat, small: Node -> bool, revealed: iset<Hash>)
    requires CanonicalRef(c, small) && CollectedChild(m, c, revealed) && Within(m, room)
    ensures BuildRef(m, room, small) == c
    decreases c, 2
  {
    var q := SomeChildEntry(c, small, revealed);
    assert Get(m, q).Some?;
    assert Get(m, []) == ChildEntryAt(c, [], revealed);
    if !(c.ByHash? && c.hash !in revealed) {
      RebuildNode(m, Target(c), room, small, revealed);
    }
  }
}
