/**
 When a path map with opaque subtrees and the full key-value map it stands for build the
 same root.
 */
module TrieAgreement {
  import opened Words
  import opened PartialTrie
  import opened TrieBuild

  ghost function Everything(): iset<Hash> {
    iset h: Hash | h.Keccak?
  }

  /** What an entry holds at a key relative to its own path. */
  ghost function Content(e: Entry, key: Path): Option<Entry> {
    match e
    case LeafEntry(_) => if key == [] then Some(e) else None
    case Subtree(hash) => EntryAt(hash.preimage, key, Everything())
  }

  /** `full` is the key-value map that `m` stands for: below each entry it has that entry's content, and it has
      nothing that no entry covers. */
  ghost predicate Denotes(m: Entries, full: Entries) {
    && (forall p: Path, q: Path {:trigger Content(m[p], q)} :: p in m ==> Get(full, p + q) == Content(m[p], q))
    && (forall k: Path {:trigger Covered(m, k)} :: k in full ==> Covered(m, k))
  }

  ghost predicate Covered(m: Entries, k: Path) {
    exists i :: 0 <= i <= |k| && k[..i] in m
  }

  ghost predicate PrefixFree(m: Entries) {
    forall p, q :: p in m && q in m && p <= q ==> p == q
  }

  /** Every opaque subtree is a node the construction would have referred to by hash. */
  ghost predicate Sound(m: Entries, small: Node -> bool) {
    forall p :: p in m && m[p].Subtree? ==> CanonicalRef(ByHash(m[p].hash), small)
  }

  /** Another entry parts from `p` at its last nibble. */
  ghost predicate Anchored(m: Entries, p: Path) {
    p == [] || exists q :: q in m && q != p && p[..|p| - 1] <= q
  }

  /** Every opaque leaf or extension still hangs off a branch. */
  ghost predicate Steady(m: Entries) {
    forall p {:trigger Anchored(m, p)} :: p in m && m[p].Subtree? && !m[p].hash.preimage.Branch? ==> Anchored(m, p)
  }

  // ---------- One nibble down ----------

  lemma BelowHas(m: Entries, x: Nibble, p: Path)
    ensures p in Below(m, x) <==> [x] + p in m
    ensures p in Below(m, x) ==> Below(m, x)[p] == m[[x] + p]
  {
    assert Get(Below(m, x), p) == Get(m, [x] + p);
  }

  lemma BelowSound(m: Entries, x: Nibble, small: Node -> bool)
    requires Sound(m, small) && PrefixFree(m)
    ensures Sound(Below(m, x), small) && PrefixFree(Below(m, x))
  {
    forall p | p in Below(m, x)
      ensures Below(m, x)[p].Subtree? ==> CanonicalRef(ByHash(Below(m, x)[p].hash), small)
    {
      BelowHas(m, x, p);
    }
    forall p, q | p in Below(m, x) && q in Below(m, x) && p <= q
      ensures p == q
    {
      BelowHas(m, x, p);
      BelowHas(m, x, q);
      assert [x] + p <= [x] + q;
      assert ([x] + p)[1..] == p && ([x] + q)[1..] == q;
    }
  }

  lemma BelowDenotes(m: Entries, full: Entries, x: Nibble)
    requires Denotes(m, full) && [] !in m
    ensures Denotes(Below(m, x), Below(full, x))
  {
    forall p: Path, q: Path | p in Below(m, x)
      ensures Get(Below(full, x), p + q) == Content(Below(m, x)[p], q)
    {
      BelowHas(m, x, p);
      assert [x] + (p + q) == ([x] + p) + q;
    }
    forall k | k in Below(full, x)
      ensures Covered(Below(m, x), k)
    {
      BelowHas(full, x, k);
      assert Covered(m, [x] + k);
      var i :| 0 <= i <= |[x] + k| && ([x] + k)[..i] in m;
      assert ([x] + k)[..i] == [x] + k[..i - 1];
      BelowHas(m, x, k[..i - 1]);
    }
  }

  /** Every entry covers something. */
  lemma Populated(m: Entries, full: Entries, p: Path, small: Node -> bool) returns (q: Path)
    requires Denotes(m, full) && Sound(m, small) && p in m
    ensures p + q in full
  {
    match m[p] {
      case LeafEntry(_) => q := [];
      case Subtree(hash) => q := SomeEntry(hash.preimage, small, Everything());
    }
    assert Get(full, p + q) == Content(m[p], q);
  }

  lemma SameHeads(m: Entries, full: Entries, x: Nibble, small: Node -> bool)
    requires Denotes(m, full) && Sound(m, small) && [] !in m
    ensures AllStartWith(m, x) <==> AllStartWith(full, x)
  {
    if AllStartWith(m, x) {
      forall k | k in full
        ensures k != [] && k[0] == x
      {
        assert Covered(m, k);
        var i :| 0 <= i <= |k| && k[..i] in m;
        assert k[..i][0] == k[0];
      }
    }
    if AllStartWith(full, x) {
      forall p | p in m
        ensures p != [] && p[0] == x
      {
        var q := Populated(m, full, p, small);
        assert (p + q)[0] == p[0];
      }
    }
  }

  /** Two keys with a common extension are one, when no entry is a prefix of another. */
  lemma NoSharedExtension(m: Entries, p: Path, q: Path, k: Path)
    requires PrefixFree(m) && p in m && q in m && p <= k && q <= k
    ensures p == q
  {
    assert p <= q || q <= p by {
      assert p == k[..|p|] && q == k[..|q|];
    }
  }

  lemma BothPlural(m: Entries, full: Entries, small: Node -> bool)
    requires Denotes(m, full) && Sound(m, small) && PrefixFree(m) && |m| >= 2
    ensures |full| >= 2
  {
    var a, b := TwoEntries(m);
    var p := Populated(m, full, a, small);
    var q := Populated(m, full, b, small);
    if a + p == b + q {
      NoSharedExtension(m, a, b, a + p);
    }
    TwoKeys(full, a + p, b + q);
  }

  lemma BothEmpty(m: Entries, full: Entries, small: Node -> bool)
    requires Denotes(m, full) && Sound(m, small)
    ensures m == map[] <==> full == map[]
  {
    if m != map[] {
      var p :| p in m;
      var q := Populated(m, full, p, small);
    }
    assert full == map[] || exists k :: k in full && Covered(m, k);
  }

  /** Anchoring is decided below the first nibble, once there are two entries. */
  lemma SteadyBelow(m: Entries)
    requires |m| >= 2 && [] !in m
    ensures Steady(m) <==> forall x: Nibble :: Steady(Below(m, x))
  {
    forall x: Nibble, p: Path | p in Below(m, x)
      ensures [x] + p in m && m[[x] + p] == Below(m, x)[p]
      ensures Anchored(m, [x] + p) <==> Anchored(Below(m, x), p)
    {
      BelowHas(m, x, p);
      if p == [] {
        assert [x] + p == [x];
        AnchoredAtTop(m, x);
      } else {
        AnchoredBelow(m, x, p);
      }
    }
    if forall x: Nibble :: Steady(Below(m, x)) {
      forall p | p in m && m[p].Subtree? && !m[p].hash.preimage.Branch?
        ensures Anchored(m, p)
      {
        assert p == [p[0]] + p[1..];
        BelowHas(m, p[0], p[1..]);
        assert Steady(Below(m, p[0]));
      }
    }
  }

  lemma AnchoredAtTop(m: Entries, x: Nibble)
    requires |m| >= 2 && [x] in m
    ensures Anchored(m, [x])
  {
    var a, b := TwoEntries(m);
    var q := if a == [x] then b else a;
    assert q in m && q != [x] && [x][..0] <= q;
  }

  lemma AnchoredBelow(m: Entries, x: Nibble, p: Path)
    requires p != []
    ensures Anchored(m, [x] + p) <==> Anchored(Below(m, x), p)
  {
    var long := [x] + p;
    assert long[..|long| - 1] == [x] + p[..|p| - 1];
    if Anchored(m, long) {
      var q :| q in m && q != long && long[..|long| - 1] <= q;
      assert q[0] == long[0];
      assert q == [x] + q[1..];
      BelowHas(m, x, q[1..]);
      assert p[..|p| - 1] <= q[1..];
    }
    if Anchored(Below(m, x), p) {
      var q :| q in Below(m, x) && q != p && p[..|p| - 1] <= q;
      BelowHas(m, x, q);
      assert ([x] + q)[1..] == q && long[1..] == p;
      assert long[..|long| - 1] <= [x] + q;
    }
  }

  // ---------- One entry ----------

  lemma ReferInjective(a: Node, b: Node, small: Node -> bool)
    ensures Refer(a, small) == Refer(b, small) <==> a == b
  {
  }

  /** The content of an opaque subtree rebuilds to the very node it hides. */
  lemma ContentRebuilds(full: Entries, hash: Hash, room: nat, small: Node -> bool)
    requires CanonicalRef(ByHash(hash), small) && Within(full, room)
    requires Collected(full, hash.preimage, Everything())
    ensures BuildRef(full, room, small) == ByHash(hash)
  {
    assert CollectedChild(full, ByHash(hash), Everything());
    RebuildRef(full, ByHash(hash), room, small, Everything());
  }

  /** Two maps build the same reference. */
  ghost predicate Agree(m: Entries, full: Entries, room: nat, small: Node -> bool) {
    BuildRef(m, room, small) == BuildRef(full, room, small)
  }

  lemma OnlyAtTop(m: Entries, full: Entries, room: nat, small: Node -> bool)
    requires Sound(m, small) && PrefixFree(m) && Denotes(m, full) && Within(full, room) && [] in m
    ensures Agree(m, full, room, small) && Steady(m)
  {
    forall p | p in m
      ensures p == []
    {
      assert [] <= p;
    }
    match m[[]] {
      case LeafEntry(value) =>
        assert m == map[[] := m[[]]];
        LeafDenotesItself(m, full, []);
      case Subtree(hash) =>
        TopCollected(m, full);
        ContentRebuilds(full, hash, room, small);
    }
  }

  lemma TopCollected(m: Entries, full: Entries)
    requires Denotes(m, full) && [] in m && m[[]].Subtree?
    ensures Collected(full, m[[]].hash.preimage, Everything())
  {
    forall q: Path
      ensures Get(full, q) == Content(m[[]], q)
    {
      assert [] + q == q;
    }
  }

  /** The node that the content of an opaque subtree makes `path` further up. */
  ghost function Joined(path: Path, hash: Hash): Node {
    match hash.preimage
    case EmptyRoot => EmptyRoot
    case Leaf(key, value) => Leaf(path + key, value)
    case Extension(key, child) => Extension(path + key, child)
    case Branch(_) => Extension(path, ByHash(hash))
  }

  lemma JoinedEntries(path: Path, hash: Hash, k: Path)
    ensures EntryAt(Joined(path, hash), k, Everything())
         == if path <= k then EntryAt(hash.preimage, k[|path|..], Everything()) else None
  {
    match hash.preimage {
      case EmptyRoot =>
      case Leaf(key, _) =>
        if path <= k {
          assert k == path + k[|path|..];
          assert k == path + key <==> k[|path|..] == key;
        }
      case Extension(key, _) =>
        if path <= k {
          assert path + key <= k <==> key <= k[|path|..];
          if key <= k[|path|..] {
            assert k[|path|..][|key|..] == k[|path + key|..];
          }
        }
      case Branch(_) =>
    }
  }

  lemma JoinedCollected(m: Entries, full: Entries, path: Path, hash: Hash)
    requires m == map[path := Subtree(hash)] && Denotes(m, full)
    ensures Collected(full, Joined(path, hash), Everything())
  {
    forall k: Path
      ensures Get(full, k) == EntryAt(Joined(path, hash), k, Everything())
    {
      JoinedEntries(path, hash, k);
      if path <= k {
        assert k == path + k[|path|..];
        assert Get(full, path + k[|path|..]) == Content(m[path], k[|path|..]);
      } else {
        assert k in full ==> Covered(m, k);
      }
    }
  }

  /** An opaque subtree on its own is rebuilt as an extension above it, which is right just above branches. */
  lemma OneOpaque(m: Entries, full: Entries, path: Path, hash: Hash, room: nat, small: Node -> bool)
    requires m == map[path := Subtree(hash)] && path != [] && CanonicalRef(ByHash(hash), small)
    requires Denotes(m, full) && Within(full, room)
    ensures BuildNode(m, room, small) == BuildNode(full, room, small) <==> hash.preimage.Branch?
  {
    BuildSingle(path, Subtree(hash), room, small);
    JoinedCollected(m, full, path, hash);
    RebuildNode(full, Joined(path, hash), room, small, Everything());
  }

  lemma OneEntry(m: Entries, full: Entries, room: nat, small: Node -> bool)
    requires Sound(m, small) && Denotes(m, full) && Within(full, room) && |m| == 1 && [] !in m && [] !in full
    ensures Agree(m, full, room, small) <==> Steady(m)
  {
    var path := OnlyKey(m);
    forall k | k in m
      ensures k == path
    {
      OneKey(m, k, path);
    }
    assert m == map[path := m[path]];
    BothEmpty(m, full, small);
    ReferInjective(BuildNode(m, room, small), BuildNode(full, room, small), small);
    match m[path] {
      case LeafEntry(value) =>
        LeafDenotesItself(m, full, path);
      case Subtree(hash) =>
        OneOpaque(m, full, path, hash, room, small);
        assert !Anchored(m, path);
    }
  }

  lemma LeafDenotesItself(m: Entries, full: Entries, path: Path)
    requires path in m && m == map[path := m[path]] && m[path].LeafEntry? && Denotes(m, full)
    ensures m == full
  {
    forall k: Path
      ensures Get(m, k) == Get(full, k)
    {
      if path <= k {
        assert k == path + k[|path|..];
        assert k == path <==> k[|path|..] == [];
        assert Get(full, path + k[|path|..]) == Content(m[path], k[|path|..]);
      } else {
        assert k in full ==> Covered(m, k);
      }
    }
    SameEntries(m, full);
  }

  // ---------- Two entries or more ----------

  lemma PluralKey(m: Entries, room: nat, small: Node -> bool)
    requires |m| >= 2
    ensures BuildNode(m, room, small).Extension? ==> BuildNode(m, room, small).key != []
  {
    assert m != map[];
  }

  lemma LiftInjective(x: Nibble, a: Node, b: Node, small: Node -> bool)
    requires a.Extension? ==> a.key != []
    requires b.Extension? ==> b.key != []
    ensures Lift(x, a, small) == Lift(x, b, small) <==> a == b
  {
    if a.Extension? && b.Extension? {
      assert ([x] + a.key)[1..] == a.key && ([x] + b.key)[1..] == b.key;
    }
  }

  lemma PluralBelow(m: Entries, x: Nibble)
    requires |m| >= 2 && AllStartWith(m, x)
    ensures |Below(m, x)| >= 2
  {
    var a, b := TwoEntries(m);
    assert a == [x] + a[1..] && b == [x] + b[1..];
    BelowHas(m, x, a[1..]);
    BelowHas(m, x, b[1..]);
    TwoKeys(Below(m, x), a[1..], b[1..]);
  }

  lemma PluralHasNoTop(m: Entries)
    requires PrefixFree(m) && |m| >= 2
    ensures [] !in m
  {
    var a, b := TwoEntries(m);
    assert [] <= a && [] <= b;
  }

  lemma TopStaysOut(m: Entries, full: Entries)
    requires Denotes(m, full) && [] !in m
    ensures [] !in full
  {
    assert [] in full ==> Covered(m, []);
  }

  lemma CommonAgrees(m: Entries, full: Entries, x: Nibble, room: nat, small: Node -> bool)
    requires |m| >= 2 && |full| >= 2 && AllStartWith(m, x) && AllStartWith(full, x) && room > 0
    requires [] !in Below(m, x) && [] !in Below(full, x)
    ensures Agree(m, full, room, small)
       <==> Agree(Below(m, x), Below(full, x), room - 1, small)
  {
    var n, n' := BuildNode(Below(m, x), room - 1, small), BuildNode(Below(full, x), room - 1, small);
    PluralBelow(m, x);
    PluralBelow(full, x);
    PluralKey(Below(m, x), room - 1, small);
    PluralKey(Below(full, x), room - 1, small);
    ReferInjective(n, n', small);
    LiftInjective(x, n, n', small);
    BuildCommon(m, x, room, small);
    BuildCommon(full, x, room, small);
    ReferInjective(Lift(x, n, small), Lift(x, n', small), small);
    assert [] !in m && [] !in full;
  }

  lemma SpreadAgrees(m: Entries, full: Entries, room: nat, small: Node -> bool)
    requires |m| >= 2 && |full| >= 2 && CommonHead(m).None? && CommonHead(full).None? && room > 0
    requires [] !in m && [] !in full
    ensures Agree(m, full, room, small)
       <==> forall x: Nibble ::
              Agree(Below(m, x), Below(full, x), room - 1, small)
  {
    var cs, cs' := BuildChildren(m, room - 1, small), BuildChildren(full, room - 1, small);
    assert BuildNode(m, room, small) == Branch(cs) by { assert m != map[]; }
    assert BuildNode(full, room, small) == Branch(cs') by { assert full != map[]; }
    ReferInjective(Branch(cs), Branch(cs'), small);
    if cs == cs' {
      forall x: Nibble
        ensures Agree(Below(m, x), Below(full, x), room - 1, small)
      {
        assert cs[x] == cs'[x];
      }
    }
  }

  /** A path map builds the reference that its full map builds exactly when every opaque leaf or extension
      hangs off a branch. */
  lemma {:induction false} PartialAgrees(m: Entries, full: Entries, room: nat, small: Node -> bool)
    requires Sound(m, small) && PrefixFree(m) && Denotes(m, full) && Within(full, room)
    ensures Agree(m, full, room, small) <==> Steady(m)
    decreases room, 2
  {
    BothEmpty(m, full, small);
    if m != map[] && [] in m {
      OnlyAtTop(m, full, room, small);
    } else if m != map[] {
      TopStaysOut(m, full);
      if |m| == 1 {
        OneEntry(m, full, room, small);
      } else {
        PluralAgrees(m, full, room, small);
      }
    }
  }

  lemma {:induction false} PluralAgrees(m: Entries, full: Entries, room: nat, small: Node -> bool)
    requires Sound(m, small) && PrefixFree(m) && Denotes(m, full) && Within(full, room)
    requires |m| >= 2 && [] !in m && [] !in full
    ensures Agree(m, full, room, small) <==> Steady(m)
    decreases room, 1
  {
    BothPlural(m, full, small);
    var k :| k in full;
    assert room > 0;
    SteadyBelow(m);
    forall x: Nibble
      ensures AllStartWith(m, x) <==> AllStartWith(full, x)
      ensures Agree(Below(m, x), Below(full, x), room - 1, small) <==> Steady(Below(m, x))
    {
      SameHeads(m, full, x, small);
      BelowAgrees(m, full, x, Below(m, x), Below(full, x), room, small, Agree(Below(m, x), Below(full, x), room - 1, small),
                  Steady(Below(m, x)));
    }
    if CommonHead(m).Some? {
      CommonHeadAgrees(m, full, CommonHead(m).value, room, small);
    } else {
      assert CommonHead(full).None?;
      SpreadAgrees(m, full, room, small);
    }
  }

  lemma BelowReady(m: Entries, full: Entries, x: Nibble, below: Entries, fullBelow: Entries, room: nat,
                   small: Node -> bool)
    requires Sound(m, small) && PrefixFree(m) && Denotes(m, full) && Within(full, room) && room > 0 && [] !in m
    requires below == Below(m, x) && fullBelow == Below(full, x)
    ensures Sound(below, small) && PrefixFree(below) && Denotes(below, fullBelow)
    ensures Within(fullBelow, room - 1)
  {
    BelowSound(m, x, small);
    BelowDenotes(m, full, x);
    BelowWithin(full, x, room);
  }

  lemma {:induction false} BelowAgrees(m: Entries, full: Entries, x: Nibble, below: Entries, fullBelow: Entries, room: nat,
                                       small: Node -> bool, agree: bool, steady: bool)
    requires Sound(m, small) && PrefixFree(m) && Denotes(m, full) && Within(full, room) && room > 0 && [] !in m
    requires below == Below(m, x) && fullBelow == Below(full, x)
    requires agree == Agree(below, fullBelow, room - 1, small) && steady == Steady(below)
    ensures agree <==> steady
    decreases room, 0
  {
    BelowReady(m, full, x, below, fullBelow, room, small);
    PartialAgrees(below, fullBelow, room - 1, small);
  }

  lemma CommonHeadAgrees(m: Entries, full: Entries, x: Nibble, room: nat, small: Node -> bool)
    requires Sound(m, small) && PrefixFree(m) && Denotes(m, full) && room > 0
    requires |m| >= 2 && |full| >= 2 && [] !in m && AllStartWith(m, x) && AllStartWith(full, x)
    ensures Agree(m, full, room, small)
       <==> Agree(Below(m, x), Below(full, x), room - 1, small)
    ensures forall y: Nibble :: y != x ==> Steady(Below(m, y))
  {
    BelowSound(m, x, small);
    BelowDenotes(m, full, x);
    PluralBelow(m, x);
    PluralHasNoTop(Below(m, x));
    TopStaysOut(Below(m, x), Below(full, x));
    CommonAgrees(m, full, x, room, small);
    forall y: Nibble | y != x
      ensures Steady(Below(m, y))
    {
      forall p: Path
        ensures p !in Below(m, y)
      {
        BelowHas(m, y, p);
        assert ([y] + p)[0] == y;
      }
    }
  }

  /** The same for the root node, which is revealed. */
  lemma RootAgrees(m: Entries, full: Entries, room: nat, small: Node -> bool)
    requires Sound(m, small) && PrefixFree(m) && Denotes(m, full) && Within(full, room)
    requires [] in m ==> m[[]].LeafEntry?
    ensures BuildNode(m, room, small) == BuildNode(full, room, small) <==> Steady(m)
  {
    PartialAgrees(m, full, room, small);
    BothEmpty(m, full, small);
    ReferInjective(BuildNode(m, room, small), BuildNode(full, room, small), small);
    if [] in full {
      assert Covered(m, []);
      assert Get(full, [] + []) == Content(m[[]], []);
    }
  }
}
