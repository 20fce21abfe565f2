/**
 Recomputing a state root from proof nodes and updates: collect, apply the updates to the
 path map, rebuild.
 */
module TrieUpdate {
  import opened Words
  import opened PartialTrie
  import opened TrieLookup
  import opened TrieBuild
  import opened TrieAgreement

  const KEY_NIBBLES: nat := 64

  // ---------- What was collected ----------

  /** Whatever is revealed, an entry stands for everything below its path. */
  lemma {:induction false} EntryCovers(n: Node, p: Path, q: Path, revealed: iset<Hash>)
    requires EntryAt(n, p, revealed).Some?
    ensures EntryAt(n, p + q, Everything()) == Content(EntryAt(n, p, revealed).value, q)
    decreases n, 0
  {
    match n
    case Leaf(key, _) => assert p + q == key <==> q == [];
    case Extension(key, child) =>
      assert (p + q)[|key|..] == p[|key|..] + q;
      ChildEntryCovers(child, p[|key|..], q, revealed);
    case Branch(children) =>
      assert (p + q)[1..] == p[1..] + q;
      ChildEntryCovers(children[p[0]], p[1..], q, revealed);
  }

  lemma {:induction false} ChildEntryCovers(c: Child, p: Path, q: Path, revealed: iset<Hash>)
    requires ChildEntryAt(c, p, revealed).Some?
    ensures ChildEntryAt(c, p + q, Everything()) == Content(ChildEntryAt(c, p, revealed).value, q)
    decreases c, 1
  {
    match c
    case Inline(node) => EntryCovers(node, p, q, revealed);
    case ByHash(hash) =>
      if hash in revealed {
        EntryCovers(hash.preimage, p, q, revealed);
      } else {
        assert p + q == q;
      }
  }

  /** Every key the trie holds is covered by an entry. */
  lemma {:induction false} KeyIsCovered(n: Node, k: Path, revealed: iset<Hash>) returns (i: nat)
    requires EntryAt(n, k, Everything()).Some?
    ensures i <= |k| && EntryAt(n, k[..i], revealed).Some?
    decreases n, 0
  {
    match n
    case Leaf(key, _) =>
      i := |k|;
      assert k[..i] == k;
    case Extension(key, child) =>
      var j := ChildKeyIsCovered(child, k[|key|..], revealed);
      i := |key| + j;
      assert k[..i][|key|..] == k[|key|..][..j];
    case Branch(children) =>
      var j := ChildKeyIsCovered(children[k[0]], k[1..], revealed);
      i := 1 + j;
      assert k[..i][1..] == k[1..][..j];
  }

  lemma {:induction false} ChildKeyIsCovered(c: Child, k: Path, revealed: iset<Hash>) returns (i: nat)
    requires ChildEntryAt(c, k, Everything()).Some?
    ensures i <= |k| && ChildEntryAt(c, k[..i], revealed).Some?
    decreases c, 1
  {
    match c
    case Inline(node) => i := KeyIsCovered(node, k, revealed);
    case ByHash(hash) =>
      if hash in revealed {
        i := KeyIsCovered(hash.preimage, k, revealed);
      } else {
        i := 0;
      }
  }

  /** An opaque subtree is a canonical reference, and unless it is a branch it hangs off one. */
  lemma {:induction false} OpaqueIsAnchored(n: Node, p: Path, small: Node -> bool, revealed: iset<Hash>)
    returns (q: Path)
    requires Canonical(n, small) && EntryAt(n, p, revealed).Some? && EntryAt(n, p, revealed).value.Subtree?
    ensures CanonicalRef(ByHash(EntryAt(n, p, revealed).value.hash), small) && p != []
    ensures EntryAt(n, p, revealed).value.hash.preimage.Branch?
         || (EntryAt(n, q, revealed).Some? && q != p && p[..|p| - 1] <= q)
    decreases n, 0
  {
    match n
    case Extension(key, child) =>
      var rest := ChildOpaqueIsAnchored(child, p[|key|..], small, revealed);
      q := key + rest;
      assert q[|key|..] == rest;
      if p[|key|..] != [] {
        assert p[..|p| - 1] == key + p[|key|..][..|p| - |key| - 1];
      }
    case Branch(children) =>
      if p[1..] != [] {
        var rest := ChildOpaqueIsAnchored(children[p[0]], p[1..], small, revealed);
        q := [p[0]] + rest;
        assert q[1..] == rest;
        assert p[..|p| - 1] == [p[0]] + p[1..][..|p| - 2];
      } else {
        var rest := ChildOpaqueIsAnchored(children[p[0]], p[1..], small, revealed);
        var i: Nibble :| i != p[0] && !children[i].Absent?;
        rest := SomeChildEntry(children[i], small, revealed);
        q := [i] + rest;
        assert q[1..] == rest;
      }
  }

  lemma {:induction false} ChildOpaqueIsAnchored(c: Child, p: Path, small: Node -> bool, revealed: iset<Hash>)
    returns (q: Path)
    requires CanonicalRef(c, small)
    requires ChildEntryAt(c, p, revealed).Some? && ChildEntryAt(c, p, revealed).value.Subtree?
    ensures CanonicalRef(ByHash(ChildEntryAt(c, p, revealed).value.hash), small)
    ensures p == [] ==> c == ByHash(ChildEntryAt(c, p, revealed).value.hash)
    ensures p == [] || ChildEntryAt(c, p, revealed).value.hash.preimage.Branch?
         || (ChildEntryAt(c, q, revealed).Some? && q != p && p[..|p| - 1] <= q)
    decreases c, 1
  {
    q := [];
    if !(c.ByHash? && c.hash !in revealed) {
      q := OpaqueIsAnchored(Target(c), p, small, revealed);
    }
  }

  /** A secure trie: canonical, or empty, with keys of one length. */
  ghost predicate SecureTrie(n: Node, small: Node -> bool) {
    && (n == EmptyRoot || Canonical(n, small))
    && forall k: Path :: EntryAt(n, k, Everything()).Some? ==> |k| == KEY_NIBBLES
  }

  ghost predicate FullKeys(m: Entries) {
    forall k :: k in m ==> |k| == KEY_NIBBLES
  }

  /** A path map that stands for a full key-value map and may be handed to the construction. */
  ghost predicate StandsFor(m: Entries, full: Entries, small: Node -> bool) {
    Sound(m, small) && PrefixFree(m) && Denotes(m, full) && FullKeys(full)
  }

  lemma CollectedSound(m: Entries, n: Node, small: Node -> bool, revealed: iset<Hash>)
    requires SecureTrie(n, small) && Collected(m, n, revealed)
    ensures Sound(m, small) && Steady(m) && PrefixFree(m)
    ensures [] in m ==> m[[]].LeafEntry?
  {
    forall p | p in m && m[p].Subtree?
      ensures CanonicalRef(ByHash(m[p].hash), small) && p != []
      ensures m[p].hash.preimage.Branch? || Anchored(m, p)
    {
      assert Get(m, p) == EntryAt(n, p, revealed);
      var q := OpaqueIsAnchored(n, p, small, revealed);
      assert Get(m, q) == EntryAt(n, q, revealed);
    }
    forall p, q | p in m && q in m && p <= q
      ensures p == q
    {
      assert Get(m, p) == EntryAt(n, p, revealed) && Get(m, q) == EntryAt(n, q, revealed);
      EntriesPrefixFree(n, p, q, revealed);
    }
  }

  /** What was collected stands for the trie's whole content, whatever is revealed. */
  lemma CollectedStands(m: Entries, full: Entries, n: Node, small: Node -> bool, revealed: iset<Hash>)
    requires SecureTrie(n, small) && Collected(m, n, revealed) && Collected(full, n, Everything())
    ensures StandsFor(m, full, small) && Steady(m)
  {
    CollectedSound(m, n, small, revealed);
    forall p: Path, q: Path | p in m
      ensures Get(full, p + q) == Content(m[p], q)
    {
      assert Get(m, p) == EntryAt(n, p, revealed);
      EntryCovers(n, p, q, revealed);
    }
    forall k | k in full
      ensures Covered(m, k) && |k| == KEY_NIBBLES
    {
      assert Get(full, k) == EntryAt(n, k, Everything());
      var i := KeyIsCovered(n, k, revealed);
      assert Get(m, k[..i]) == EntryAt(n, k[..i], revealed);
    }
  }

  // Every trie has a full key-value map.

  lemma {:induction false} FullMapBelow(n: Node, path: Path, before: Entries) returns (m: Entries)
    ensures Added(m, before, path, n, Everything())
    decreases n, 17
  {
    match n {
      case EmptyRoot => m := before;
      case Leaf(key, value) =>
        m := before[path + key := LeafEntry(value)];
        LeafAdded(before, path, key, value, Everything());
      case Extension(key, child) =>
        m := FullMapBelowChild(child, path + key, before);
        ExtensionAdded(m, before, path, key, child, Everything());
      case Branch(children) =>
        m := FullMapBelowChildren(n, 16, path, before);
        BranchAdded(m, before, path, children, Everything());
    }
  }

  lemma {:induction false} FullMapBelowChildren(n: Node, count: nat, path: Path, before: Entries) returns (m: Entries)
    requires n.Branch? && count <= 16
    ensures ChildrenAdded(m, before, path, n.children, count, Everything())
    decreases n, count
  {
    m := before;
    if count > 0 {
      var mid := FullMapBelowChildren(n, count - 1, path, before);
      m := mid;
      if count - 1 < |n.children| {
        m := FullMapBelowChild(n.children[count - 1], path + [count - 1], mid);
        ChildrenAddedStep(m, mid, before, path, n.children, count - 1, Everything());
      }
    }
  }

  lemma {:induction false} FullMapBelowChild(c: Child, path: Path, before: Entries) returns (m: Entries)
    ensures ChildAdded(m, before, path, c, Everything())
    decreases c, 18
  {
    if c.Absent? {
      m := before;
    } else {
      m := FullMapBelow(Target(c), path, before);
    }
  }

  lemma FullMapExists(n: Node) returns (full: Entries)
    ensures Collected(full, n, Everything())
  {
    full := FullMapBelow(n, [], map[]);
    CollectedIs(full, n, Everything());
  }

  // ---------- Updates ----------

  /** A new value for a key, or its removal. */
  type Updates = map<Path, Option<Value>>

  function Change(u: Option<Value>): Option<Entry> {
    match u
    case Some(value) => Some(LeafEntry(value))
    case None => None
  }

  /** `after` is `before` overridden by the updates. */
  ghost predicate Overridden(after: Entries, before: Entries, updates: Updates) {
    forall p: Path :: Get(after, p) == if p in updates then Change(updates[p]) else Get(before, p)
  }

  /** Updates at full-length keys, none of them inside an opaque subtree. */
  ghost predicate InRevealed(m: Entries, updates: Updates) {
    forall k :: k in updates ==> |k| == KEY_NIBBLES && !exists p :: p in m && m[p].Subtree? && p <= k
  }

  lemma EntryLength(m: Entries, full: Entries, p: Path, small: Node -> bool)
    requires StandsFor(m, full, small) && p in m
    ensures |p| <= KEY_NIBBLES
    ensures m[p].LeafEntry? ==> |p| == KEY_NIBBLES
  {
    var q := Populated(m, full, p, small);
    if m[p].LeafEntry? {
      assert Get(full, p + []) == Content(m[p], []);
      assert p + [] == p;
    }
  }

  lemma UpdatedPrefixFree(m: Entries, full: Entries, updates: Updates, after: Entries, small: Node -> bool)
    requires StandsFor(m, full, small) && InRevealed(m, updates) && Overridden(after, m, updates)
    ensures PrefixFree(after)
  {
    forall p, q | p in after && q in after && p <= q
      ensures p == q
    {
      assert Get(after, p).Some? && Get(after, q).Some?;
      if p !in updates {
        EntryLength(m, full, p, small);
      }
      if q !in updates {
        EntryLength(m, full, q, small);
      }
    }
  }

  lemma UpdatedSound(m: Entries, updates: Updates, after: Entries, small: Node -> bool)
    requires Sound(m, small) && Overridden(after, m, updates)
    ensures Sound(after, small)
  {
    forall p | p in after && after[p].Subtree?
      ensures CanonicalRef(ByHash(after[p].hash), small)
    {
      assert Get(after, p) == Get(m, p);
    }
  }

  lemma UpdatedContent(m: Entries, full: Entries, updates: Updates, after: Entries, fullAfter: Entries, small: Node -> bool,
                       p: Path, q: Path)
    requires StandsFor(m, full, small) && InRevealed(m, updates) && p in after
    requires Overridden(after, m, updates) && Overridden(fullAfter, full, updates)
    ensures Get(fullAfter, p + q) == Content(after[p], q)
  {
    var whole := p + q;
    assert Get(after, p).Some?;
    assert q == [] ==> whole == p;
    if p !in updates {
      EntryLength(m, full, p, small);
      assert Get(full, whole) == Content(m[p], q);
    }
    assert whole in full ==> |whole| == KEY_NIBBLES;
    assert p <= whole;
  }

  lemma UpdatedCovered(m: Entries, full: Entries, updates: Updates, after: Entries, fullAfter: Entries, small: Node -> bool,
                       k: Path)
    requires StandsFor(m, full, small) && InRevealed(m, updates) && k in fullAfter
    requires Overridden(after, m, updates) && Overridden(fullAfter, full, updates)
    ensures Covered(after, k) && |k| == KEY_NIBBLES
  {
    assert Get(fullAfter, k).Some?;
    if k in updates {
      assert Get(after, k).Some? && k[..|k|] == k;
    } else {
      assert Covered(m, k);
      var i :| 0 <= i <= |k| && k[..i] in m;
      assert i == |k| ==> k[..i] == k;
      assert Get(after, k[..i]) == Get(m, k[..i]);
    }
  }

  /** Updating the path map is updating the key-value map it stands for, removals included. */
  lemma UpdatedStands(m: Entries, full: Entries, updates: Updates, after: Entries, fullAfter: Entries, small: Node -> bool)
    requires StandsFor(m, full, small) && InRevealed(m, updates)
    requires Overridden(after, m, updates) && Overridden(fullAfter, full, updates)
    ensures StandsFor(after, fullAfter, small)
  {
    UpdatedPrefixFree(m, full, updates, after, small);
    UpdatedSound(m, updates, after, small);
    forall p: Path, q: Path | p in after
      ensures Get(fullAfter, p + q) == Content(after[p], q)
    {
      UpdatedContent(m, full, updates, after, fullAfter, small, p, q);
    }
    forall k | k in fullAfter
      ensures Covered(after, k) && |k| == KEY_NIBBLES
    {
      UpdatedCovered(m, full, updates, after, fullAfter, small, k);
    }
  }

  /** Updates that remove nothing keep every opaque subtree on its branch. */
  lemma InsertionsKeepSteady(m: Entries, updates: Updates, after: Entries)
    requires Steady(m) && InRevealed(m, updates) && Overridden(after, m, updates)
    requires forall k :: k in updates ==> updates[k].Some?
    ensures Steady(after)
  {
    forall p | p in after && after[p].Subtree? && !after[p].hash.preimage.Branch?
      ensures Anchored(after, p)
    {
      assert Get(after, p) == Get(m, p);
      assert Anchored(m, p);
      if p != [] {
        var q :| q in m && q != p && p[..|p| - 1] <= q;
        assert Get(after, q).Some?;
      }
    }
  }

  // ---------- Recomputing the root ----------

  ghost predicate Uncut(n: Node, updates: Updates, revealed: iset<Hash>) {
    forall k :: k in updates ==> |k| == KEY_NIBBLES && !Hidden(n, k, revealed)
  }

  /** An entry that is still there after the updates. */
  ghost predicate Survives(n: Node, q: Path, updates: Updates, revealed: iset<Hash>) {
    if q in updates then updates[q].Some? else EntryAt(n, q, revealed).Some?
  }

  /** A surviving entry parts from `p` at its last nibble. */
  ghost predicate Neighboured(n: Node, p: Path, updates: Updates, revealed: iset<Hash>) {
    |p| > 0 && exists q: Path :: Survives(n, q, updates, revealed) && q != p && p[..|p| - 1] <= q
  }

  /** After the updates every opaque leaf or extension still has a neighbour at its branch. */
  ghost predicate NoCollapse(n: Node, updates: Updates, revealed: iset<Hash>) {
    forall p: Path, h: Hash ::
      EntryAt(n, p, revealed) == Some(Subtree(h)) && !h.preimage.Branch? ==> Neighboured(n, p, updates, revealed)
  }

  lemma UncutInRevealed(m: Entries, n: Node, updates: Updates, revealed: iset<Hash>)
    requires Collected(m, n, revealed) && Uncut(n, updates, revealed)
    ensures InRevealed(m, updates)
  {
    forall k: Path, p | p in m && m[p].Subtree? && p <= k
      ensures Hidden(n, k, revealed)
    {
      assert k[..|p|] == p;
      assert Get(m, p) == EntryAt(n, p, revealed);
    }
  }

  lemma AfterUpdates(m: Entries, n: Node, updates: Updates, after: Entries, revealed: iset<Hash>, p: Path)
    requires Collected(m, n, revealed) && InRevealed(m, updates) && Overridden(after, m, updates)
    ensures p in after <==> Survives(n, p, updates, revealed)
    ensures forall h :: Get(after, p) == Some(Subtree(h)) <==> EntryAt(n, p, revealed) == Some(Subtree(h))
  {
    assert Get(m, p) == EntryAt(n, p, revealed);
    assert Get(after, p) == if p in updates then Change(updates[p]) else Get(m, p);
  }

  lemma AnchoredIsNeighboured(m: Entries, n: Node, updates: Updates, after: Entries, revealed: iset<Hash>, p: Path)
    requires Collected(m, n, revealed) && InRevealed(m, updates) && Overridden(after, m, updates) && p != []
    ensures Anchored(after, p) <==> Neighboured(n, p, updates, revealed)
  {
    if Anchored(after, p) {
      var q :| q in after && q != p && p[..|p| - 1] <= q;
      AfterUpdates(m, n, updates, after, revealed, q);
    }
    if Neighboured(n, p, updates, revealed) {
      var q: Path :| Survives(n, q, updates, revealed) && q != p && p[..|p| - 1] <= q;
      AfterUpdates(m, n, updates, after, revealed, q);
    }
  }

  lemma OpaqueAfterUpdates(m: Entries, n: Node, updates: Updates, after: Entries, small: Node -> bool,
                           revealed: iset<Hash>, p: Path)
    requires SecureTrie(n, small) && Collected(m, n, revealed) && InRevealed(m, updates) && Overridden(after, m, updates)
    requires p in after && after[p].Subtree?
    ensures EntryAt(n, p, revealed) == Some(after[p])
    ensures Anchored(after, p) <==> Neighboured(n, p, updates, revealed)
  {
    AfterUpdates(m, n, updates, after, revealed, p);
    assert Get(after, p) == Some(Subtree(after[p].hash));
    var _ := OpaqueIsAnchored(n, p, small, revealed);
    AnchoredIsNeighboured(m, n, updates, after, revealed, p);
  }

  /** The condition on the updates is the condition on the updated path map. */
  lemma SteadyIsNoCollapse(m: Entries, n: Node, updates: Updates, after: Entries, small: Node -> bool,
                           revealed: iset<Hash>)
    requires SecureTrie(n, small) && Collected(m, n, revealed) && InRevealed(m, updates) && Overridden(after, m, updates)
    ensures Steady(after) <==> NoCollapse(n, updates, revealed)
  {
    if Steady(after) {
      forall p: Path, h: Hash | EntryAt(n, p, revealed) == Some(Subtree(h)) && !h.preimage.Branch?
        ensures Neighboured(n, p, updates, revealed)
      {
        AfterUpdates(m, n, updates, after, revealed, p);
        assert Get(after, p) == Some(Subtree(h));
        OpaqueAfterUpdates(m, n, updates, after, small, revealed, p);
      }
    }
    if NoCollapse(n, updates, revealed) {
      forall p | p in after && after[p].Subtree? && !after[p].hash.preimage.Branch?
        ensures Anchored(after, p)
      {
        OpaqueAfterUpdates(m, n, updates, after, small, revealed, p);
      }
    }
  }

  /** Rebuilding from the updated path map gives the root of the updated key-value map exactly when no opaque
      leaf or extension lost its branch; updates that remove nothing never cause that. */
  lemma RecomputedRoot(m: Entries, after: Entries, full: Entries, fullAfter: Entries, n: Node, updates: Updates,
                       small: Node -> bool, revealed: iset<Hash>)
    requires SecureTrie(n, small) && Uncut(n, updates, revealed)
    requires Collected(m, n, revealed) && Collected(full, n, Everything())
    requires Overridden(after, m, updates) && Overridden(fullAfter, full, updates)
    ensures BuildNode(after, KEY_NIBBLES, small) == BuildNode(fullAfter, KEY_NIBBLES, small)
       <==> NoCollapse(n, updates, revealed)
    ensures (forall k :: k in updates ==> updates[k].Some?) ==> NoCollapse(n, updates, revealed)
  {
    CollectedSound(m, n, small, revealed);
    CollectedStands(m, full, n, small, revealed);
    UncutInRevealed(m, n, updates, revealed);
    UpdatedStands(m, full, updates, after, fullAfter, small);
    SteadyIsNoCollapse(m, n, updates, after, small, revealed);
    assert [] !in updates && Get(after, []) == Get(m, []);
    RootAgrees(after, fullAfter, KEY_NIBBLES, small);
    if forall k :: k in updates ==> updates[k].Some? {
      InsertionsKeepSteady(m, updates, after);
    }
  }

  /** Two leaves under one branch, at first nibbles 0 and 1. */
  function TwoLeaves(key: Path, v: Value, w: Value): Node {
    Branch(seq(16, i => if i == 0 then ByHash(Keccak(Leaf(key, v)))
                        else if i == 1 then ByHash(Keccak(Leaf(key, w))) else Absent))
  }

  lemma TwoLeavesEntry(key: Path, v: Value, w: Value, p: Path, revealed: iset<Hash>)
    ensures EntryAt(TwoLeaves(key, v, w), p, revealed)
         == if p == [] || p[0] > 1 then None
            else var leaf := Leaf(key, if p[0] == 0 then v else w);
                 if Keccak(leaf) !in revealed then (if p[1..] == [] then Some(Subtree(Keccak(leaf))) else None)
                 else if p[1..] == key then Some(LeafEntry(leaf.value)) else None
  {
    if p != [] {
      assert EntryAt(TwoLeaves(key, v, w), p, revealed)
          == ChildEntryAt(TwoLeaves(key, v, w).children[p[0]], p[1..], revealed);
      assert EntryAt(Leaf(key, v), p[1..], revealed) == if p[1..] == key then Some(LeafEntry(v)) else None;
      assert EntryAt(Leaf(key, w), p[1..], revealed) == if p[1..] == key then Some(LeafEntry(w)) else None;
    }
  }

  lemma TwoLeavesSecure(key: Path, v: Value, w: Value, small: Node -> bool)
    requires |key| == KEY_NIBBLES - 1 && !small(Leaf(key, v)) && !small(Leaf(key, w))
    ensures SecureTrie(TwoLeaves(key, v, w), small)
  {
    var n := TwoLeaves(key, v, w);
    assert !n.children[0].Absent? && !n.children[1].Absent?;
    assert CanonicalRef(n.children[0], small) && CanonicalRef(n.children[1], small);
    forall k: Path | EntryAt(n, k, Everything()).Some?
      ensures |k| == KEY_NIBBLES
    {
      TwoLeavesEntry(key, v, w, k, Everything());
    }
  }

  // The maps of that trie when only its root and its first leaf are proved, before and after the first key is removed.

  function TwoLeavesProof(key: Path, v: Value, w: Value): seq<Node> {
    [TwoLeaves(key, v, w), Leaf(key, v)]
  }

  function FirstRemoved(key: Path): Updates {
    map[[0] + key := None]
  }

  function ProvedEntries(key: Path, v: Value, w: Value): Entries {
    map[[0] + key := LeafEntry(v), [1] := Subtree(Keccak(Leaf(key, w)))]
  }

  function AllEntries(key: Path, v: Value, w: Value): Entries {
    map[[0] + key := LeafEntry(v), [1] + key := LeafEntry(w)]
  }

  lemma TwoLeavesMaps(key: Path, v: Value, w: Value)
    requires v != w && key != []
    ensures Collected(ProvedEntries(key, v, w), TwoLeaves(key, v, w), Proved(TwoLeavesProof(key, v, w)))
    ensures Collected(AllEntries(key, v, w), TwoLeaves(key, v, w), Everything())
    ensures Overridden(map[[1] := Subtree(Keccak(Leaf(key, w)))], ProvedEntries(key, v, w), FirstRemoved(key))
    ensures Overridden(map[[1] + key := LeafEntry(w)], AllEntries(key, v, w), FirstRemoved(key))
  {
    assert TwoLeavesProof(key, v, w)[1] == Leaf(key, v);
    assert Keccak(Leaf(key, v)) in Proved(TwoLeavesProof(key, v, w)) && Keccak(Leaf(key, w)) !in Proved(TwoLeavesProof(key, v, w));
    forall p: Path
      ensures Get(ProvedEntries(key, v, w), p) == EntryAt(TwoLeaves(key, v, w), p, Proved(TwoLeavesProof(key, v, w)))
      ensures Get(AllEntries(key, v, w), p) == EntryAt(TwoLeaves(key, v, w), p, Everything())
    {
      TwoLeavesEntry(key, v, w, p, Proved(TwoLeavesProof(key, v, w)));
      TwoLeavesEntry(key, v, w, p, Everything());
      if p != [] {
        assert p == [p[0]] + p[1..];
        assert p == [1] <==> p[0] == 1 && p[1..] == [];
      }
    }
    assert ([0] + key)[0] == 0 && ([1] + key)[0] == 1;
  }

  /** Removing the proved one of two sibling leaves leaves the opaque one without a branch. The root is then rebuilt
      with an extension above a leaf, where the trie without the key is a single leaf: the two roots differ. */
  lemma RemovalCanCollapse(key: Path, v: Value, w: Value, small: Node -> bool)
    requires |key| == KEY_NIBBLES - 1 && v != w && !small(Leaf(key, v)) && !small(Leaf(key, w))
    ensures var n, revealed := TwoLeaves(key, v, w), Proved(TwoLeavesProof(key, v, w));
            && SecureTrie(n, small) && Uncut(n, FirstRemoved(key), revealed) && !NoCollapse(n, FirstRemoved(key), revealed)
    ensures BuildNode(map[[1] := Subtree(Keccak(Leaf(key, w)))], KEY_NIBBLES, small)
         == Extension([1], ByHash(Keccak(Leaf(key, w))))
    ensures BuildNode(map[[1] + key := LeafEntry(w)], KEY_NIBBLES, small) == Leaf([1] + key, w)
  {
    var n, revealed := TwoLeaves(key, v, w), Proved(TwoLeavesProof(key, v, w));
    TwoLeavesSecure(key, v, w, small);
    TwoLeavesMaps(key, v, w);
    forall i: nat, h | i <= |[0] + key|
      ensures EntryAt(n, ([0] + key)[..i], revealed) != Some(Subtree(h))
    {
      TwoLeavesEntry(key, v, w, ([0] + key)[..i], revealed);
    }
    BuildSingle([1], Subtree(Keccak(Leaf(key, w))), KEY_NIBBLES, small);
    BuildSingle([1] + key, LeafEntry(w), KEY_NIBBLES, small);
    RecomputedRoot(ProvedEntries(key, v, w), map[[1] := Subtree(Keccak(Leaf(key, w)))], AllEntries(key, v, w),
                   map[[1] + key := LeafEntry(w)], n, FirstRemoved(key), small, revealed);
  }

  /** With nothing to update, the root comes back, whichever subtrees are opaque. */
  lemma NothingToUpdate(m: Entries, n: Node, small: Node -> bool, revealed: iset<Hash>)
    requires SecureTrie(n, small) && Collected(m, n, revealed)
    ensures BuildNode(m, KEY_NIBBLES, small) == n
  {
    if n == EmptyRoot {
      SameEntries(m, map[]);
    } else {
      forall p | p in m
        ensures |p| <= KEY_NIBBLES
      {
        assert Get(m, p) == EntryAt(n, p, revealed);
        CollectedSound(m, n, small, revealed);
        var q := [];
        if m[p].Subtree? {
          q := SomeEntry(m[p].hash.preimage, small, Everything());
        }
        EntryCovers(n, p, q, revealed);
      }
      RebuildNode(m, n, KEY_NIBBLES, small, revealed);
    }
  }

  /** In a canonical trie every extension uses up some of the key, so lookup visits few nodes. */
  lemma {:induction false} CanonicalIsConsuming(n: Node, small: Node -> bool)
    requires Canonical(n, small)
    ensures Consuming(n)
    decreases n, 0
  {
    match n
    case Leaf(_, _) =>
    case Extension(_, child) => CanonicalChildIsConsuming(child, small);
    case Branch(children) =>
      forall i | 0 <= i < |children|
        ensures ConsumingChild(children[i])
      {
        if !children[i].Absent? {
          CanonicalChildIsConsuming(children[i], small);
        }
      }
  }

  lemma {:induction false} CanonicalChildIsConsuming(c: Child, small: Node -> bool)
    requires CanonicalRef(c, small)
    ensures ConsumingChild(c)
    decreases c, 1
  {
    CanonicalIsConsuming(Target(c), small);
  }

  datatype Recomputed = RootMissing | Root(hash: Hash)

  ghost function Proved(proofNodes: seq<Node>): iset<Hash> {
    iset h: Hash | h.preimage in proofNodes
  }

  /** The proof nodes by their hash. */
  method IndexNodes(proofNodes: seq<Node>) returns (index: Index)
    ensures Genuine(index) && Known(index) == Proved(proofNodes)
  {
    index := map[];
    for i := 0 to |proofNodes|
      invariant Genuine(index) && Known(index) == Proved(proofNodes[..i])
    {
      assert proofNodes[..i + 1] == proofNodes[..i] + [proofNodes[i]];
      var before := index;
      index := index[Keccak(proofNodes[i]) := proofNodes[i]];
      forall h: Hash
        ensures h in Known(index) <==> h in Proved(proofNodes[..i + 1])
      {
        assert h in Known(before) <==> h in Proved(proofNodes[..i]);
        assert h == Keccak(h.preimage);
      }
    }
    assert proofNodes[..|proofNodes|] == proofNodes;
  }

  method ApplyUpdates(before: Entries, updates: Updates) returns (entries: Entries)
    ensures Overridden(entries, before, updates)
  {
    entries := before;
    var pending := updates.Keys;
    while pending != {}
      invariant pending <= updates.Keys
      invariant forall p: Path ::
        Get(entries, p) == if p in updates && p !in pending then Change(updates[p]) else Get(before, p)
      decreases |pending|
    {
      var key :| key in pending;
      pending := pending - {key};
      match updates[key] {
        case Some(value) => entries := entries[key := LeafEntry(value)];
        case None => entries := entries - {key};
      }
    }
  }

  method RecomputeRoot(root: Hash, proofNodes: seq<Node>, updates: Updates, small: Node -> bool) returns (r: Recomputed)
    ensures r.RootMissing? <==> root != Keccak(EmptyRoot) && root.preimage !in proofNodes
    ensures r.Root? && SecureTrie(root.preimage, small) && updates == map[] ==> r.hash == root
    ensures forall full, fullAfter ::
      && r.Root? && SecureTrie(root.preimage, small) && Uncut(root.preimage, updates, Proved(proofNodes))
      && Collected(full, root.preimage, Everything()) && Overridden(fullAfter, full, updates)
      ==> (r.hash == Keccak(BuildNode(fullAfter, KEY_NIBBLES, small))
           <==> NoCollapse(root.preimage, updates, Proved(proofNodes)))
  {
    var index := IndexNodes(proofNodes);
    ghost var revealed := Known(index);
    assert root in index <==> root in revealed;
    var entries: Entries := map[];
    if root != Keccak(EmptyRoot) {
      if root !in index {
        return RootMissing;
      }
      var collector := new Collector(index);
      collector.Collect(index[root], []);
      entries := collector.entries;
      CollectedIs(entries, root.preimage, revealed);
    }
    ghost var collected := entries;
    assert Collected(collected, root.preimage, revealed);
    entries := ApplyUpdates(entries, updates);
    r := Root(Keccak(BuildNode(entries, KEY_NIBBLES, small)));
    if SecureTrie(root.preimage, small) && updates == map[] {
      SameEntries(entries, collected);
      NothingToUpdate(collected, root.preimage, small, revealed);
    }
    forall full, fullAfter |
      && SecureTrie(root.preimage, small) && Uncut(root.preimage, updates, revealed)
      && Collected(full, root.preimage, Everything()) && Overridden(fullAfter, full, updates)
      ensures r.hash == Keccak(BuildNode(fullAfter, KEY_NIBBLES, small)) <==> NoCollapse(root.preimage, updates, revealed)
    {
      RecomputedRoot(collected, entries, full, fullAfter, root.preimage, updates, small, revealed);
    }
  }
}
