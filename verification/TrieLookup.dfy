/** Looking up one key in a witness, and its agreement with the collected path map. */
module TrieLookup {
  import opened Words
  import opened PartialTrie

  datatype Answer = Found(value: Value) | NotThere | MissingNode(hash: Hash)

  /** Some opaque entry lies on the way to `key`. */
  ghost predicate Hidden(node: Node, key: Path, revealed: iset<Hash>) {
    exists i, h :: 0 <= i <= |key| && EntryAt(node, key[..i], revealed) == Some(Subtree(h))
  }

  ghost predicate ChildHidden(child: Child, key: Path, revealed: iset<Hash>) {
    exists i, h :: 0 <= i <= |key| && ChildEntryAt(child, key[..i], revealed) == Some(Subtree(h))
  }

  /** What the answer means in terms of the entries below a node. */
  ghost predicate Right(node: Node, key: Path, revealed: iset<Hash>, a: Answer) {
    match a
    case Found(value) => EntryAt(node, key, revealed) == Some(LeafEntry(value))
    case MissingNode(hash) => exists i :: 0 <= i <= |key| && EntryAt(node, key[..i], revealed) == Some(Subtree(hash))
    case NotThere => EntryAt(node, key, revealed) == None && !Hidden(node, key, revealed)
  }

  ghost predicate ChildRight(child: Child, key: Path, revealed: iset<Hash>, a: Answer) {
    match a
    case Found(value) => ChildEntryAt(child, key, revealed) == Some(LeafEntry(value))
    case MissingNode(hash) => exists i :: 0 <= i <= |key| && ChildEntryAt(child, key[..i], revealed) == Some(Subtree(hash))
    case NotThere => ChildEntryAt(child, key, revealed) == None && !ChildHidden(child, key, revealed)
  }

  // ---------- Entries are prefix-free ----------

  /** No entry lies strictly above another, whatever is revealed. */
  lemma {:induction false} EntriesPrefixFree(node: Node, p: Path, q: Path, revealed: iset<Hash>)
    requires EntryAt(node, p, revealed).Some? && EntryAt(node, q, revealed).Some? && p <= q
    ensures p == q
    decreases node, 0
  {
    match node
    case Leaf(_, _) =>
    case Extension(key, child) =>
      ChildEntriesPrefixFree(child, p[|key|..], q[|key|..], revealed);
      assert p == key + p[|key|..] && q == key + q[|key|..];
    case Branch(children) =>
      ChildEntriesPrefixFree(children[p[0]], p[1..], q[1..], revealed);
      assert p == [p[0]] + p[1..] && q == [q[0]] + q[1..];
  }

  lemma {:induction false} ChildEntriesPrefixFree(child: Child, p: Path, q: Path, revealed: iset<Hash>)
    requires ChildEntryAt(child, p, revealed).Some? && ChildEntryAt(child, q, revealed).Some? && p <= q
    ensures p == q
    decreases child, 1
  {
    match child
    case Inline(node) => EntriesPrefixFree(node, p, q, revealed);
    case ByHash(hash) =>
      if hash in revealed {
        EntriesPrefixFree(hash.preimage, p, q, revealed);
      }
  }

  /** So every key has exactly one right answer. */
  lemma RightAnswerUnique(node: Node, key: Path, revealed: iset<Hash>, a: Answer, a': Answer)
    requires Right(node, key, revealed, a) && Right(node, key, revealed, a')
    ensures a == a'
  {
    if a.MissingNode? {
      var i :| 0 <= i <= |key| && EntryAt(node, key[..i], revealed) == Some(Subtree(a.hash));
      HiddenIsFinal(node, key, i, revealed, a');
    } else if a'.MissingNode? {
      var i :| 0 <= i <= |key| && EntryAt(node, key[..i], revealed) == Some(Subtree(a'.hash));
      HiddenIsFinal(node, key, i, revealed, a);
    }
  }

  lemma HiddenIsFinal(node: Node, key: Path, i: nat, revealed: iset<Hash>, a: Answer)
    requires i <= |key| && EntryAt(node, key[..i], revealed).Some? && EntryAt(node, key[..i], revealed).value.Subtree?
    requires Right(node, key, revealed, a)
    ensures a == MissingNode(EntryAt(node, key[..i], revealed).value.hash)
  {
    var h := EntryAt(node, key[..i], revealed).value.hash;
    match a
    case Found(_) => EntriesPrefixFree(node, key[..i], key, revealed);
    case NotThere => assert false;
    case MissingNode(h') =>
      var j :| 0 <= j <= |key| && EntryAt(node, key[..j], revealed) == Some(Subtree(h'));
      if i <= j {
        assert key[..i] == key[..j][..i];
        EntriesPrefixFree(node, key[..i], key[..j], revealed);
      } else {
        assert key[..j] == key[..i][..j];
        EntriesPrefixFree(node, key[..j], key[..i], revealed);
      }
  }

  // ---------- One step of the loop ----------

  lemma ThroughExtension(prefix: Path, child: Child, suffix: Path, revealed: iset<Hash>, a: Answer)
    requires prefix <= suffix && ChildRight(child, suffix[|prefix|..], revealed, a)
    ensures Right(Extension(prefix, child), suffix, revealed, a)
  {
    var node, rest := Extension(prefix, child), suffix[|prefix|..];
    forall i | 0 <= i <= |rest|
      ensures EntryAt(node, suffix[..|prefix| + i], revealed) == ChildEntryAt(child, rest[..i], revealed)
    {
      assert suffix[..|prefix| + i][|prefix|..] == rest[..i];
    }
    if a.NotThere? {
      forall i, h | 0 <= i <= |suffix|
        ensures EntryAt(node, suffix[..i], revealed) != Some(Subtree(h))
      {
        if i >= |prefix| {
          assert EntryAt(node, suffix[..|prefix| + (i - |prefix|)], revealed)
              == ChildEntryAt(child, rest[..i - |prefix|], revealed);
        }
      }
    }
  }

  lemma ThroughBranch(children: seq<Child>, suffix: Path, revealed: iset<Hash>, a: Answer)
    requires suffix != [] && suffix[0] < |children| && ChildRight(children[suffix[0]], suffix[1..], revealed, a)
    ensures Right(Branch(children), suffix, revealed, a)
  {
    var node, child, rest := Branch(children), children[suffix[0]], suffix[1..];
    forall i | 0 <= i <= |rest|
      ensures EntryAt(node, suffix[..1 + i], revealed) == ChildEntryAt(child, rest[..i], revealed)
    {
      assert suffix[..1 + i][1..] == rest[..i];
    }
    if a.NotThere? {
      forall i, h | 0 <= i <= |suffix|
        ensures EntryAt(node, suffix[..i], revealed) != Some(Subtree(h))
      {
        if i >= 1 {
          assert EntryAt(node, suffix[..1 + (i - 1)], revealed) == ChildEntryAt(child, rest[..i - 1], revealed);
        }
      }
    }
  }

  lemma BranchStops(children: seq<Child>, suffix: Path, revealed: iset<Hash>)
    requires suffix == [] || suffix[0] >= |children| || children[suffix[0]].Absent?
    ensures Right(Branch(children), suffix, revealed, NotThere)
  {
    forall i, h | 0 <= i <= |suffix|
      ensures EntryAt(Branch(children), suffix[..i], revealed) != Some(Subtree(h))
    {
    }
  }

  lemma OpaqueChild(hash: Hash, rest: Path, revealed: iset<Hash>)
    requires hash !in revealed
    ensures ChildRight(ByHash(hash), rest, revealed, MissingNode(hash))
  {
    assert rest[..0] == [];
    assert ChildEntryAt(ByHash(hash), rest[..0], revealed) == Some(Subtree(hash));
  }

  /** Every extension in the trie uses up some of the key. */
  ghost predicate Consuming(node: Node)
    decreases node, 0
  {
    match node
    case EmptyRoot => true
    case Leaf(_, _) => true
    case Extension(key, child) => key != [] && ConsumingChild(child)
    case Branch(children) => forall i :: 0 <= i < |children| ==> ConsumingChild(children[i])
  }

  ghost predicate ConsumingChild(child: Child)
    decreases child, 1
  {
    match child
    case Absent => true
    case Inline(node) => Consuming(node)
    case ByHash(hash) => Consuming(hash.preimage)
  }

  /** Looks up a key from the root, node by node; `root` is None for the empty trie. The root's own node may be
      missing too. `visited` nodes are decoded: at most one per nibble of the key and one more. */
  method TrieValue(index: Index, root: Option<Hash>, key: Path) returns (a: Answer, ghost visited: nat)
    requires Genuine(index)
    ensures root.Some? && Consuming(root.value.preimage) ==> visited <= |key| + 1
    ensures root.None? ==> a == NotThere
    ensures root.Some? && root.value !in index ==> a == MissingNode(root.value)
    ensures root.Some? && root.value in index ==> Right(root.value.preimage, key, Known(index), a)
  {
    visited := 0;
    if root.None? {
      a := NotThere;
      return;
    }
    if root.value !in index {
      a := MissingNode(root.value);
      return;
    }
    var current, position: nat := index[root.value], 0;
    while true
      invariant position <= |key|
      invariant forall r :: Right(current, key[position..], Known(index), r) ==>
                              Right(root.value.preimage, key, Known(index), r)
      invariant Consuming(root.value.preimage) ==> Consuming(current) && visited <= position
      decreases current
    {
      visited := visited + 1;
      ghost var here := current;
      ghost var suffix := key[position..];
      var child := Absent;
      match current {
        case EmptyRoot =>
          a := NotThere;
          return;
        case Leaf(leafKey, value) =>
          a := if key[position..] == leafKey then Found(value) else NotThere;
          return;
        case Extension(prefix, next) =>
          if !(prefix <= key[position..]) {
            a := NotThere;
            return;
          }
          position := position + |prefix|;
          child := next;
        case Branch(children) =>
          if position == |key| || key[position] >= |children| || children[key[position]].Absent? {
            BranchStops(children, suffix, Known(index));
            a := NotThere;
            return;
          }
          child := children[key[position]];
          position := position + 1;
      }
      forall r | ChildRight(child, key[position..], Known(index), r)
        ensures Right(here, suffix, Known(index), r)
      {
        match here
        case Extension(prefix, next) =>
          assert suffix[|prefix|..] == key[position..];
          ThroughExtension(prefix, next, suffix, Known(index), r);
        case Branch(children) =>
          assert suffix[1..] == key[position..];
          ThroughBranch(children, suffix, Known(index), r);
      }
      match child {
        case Absent =>
          a := NotThere;
          return;
        case Inline(node) => current := node;
        case ByHash(hash) =>
          if hash !in index {
            OpaqueChild(hash, key[position..], Known(index));
            a := MissingNode(hash);
            return;
          }
          current := index[hash];
      }
    }
  }

  // ---------- The two walkers agree ----------

  /** For every node set and key: lookup finds a value exactly when the collected map has that leaf at the key,
      reports a missing node exactly when an opaque entry's path is a prefix of the key, and absence otherwise. */
  lemma WalkersAgree(m: Entries, node: Node, revealed: iset<Hash>, key: Path, a: Answer)
    requires Added(m, map[], [], node, revealed) && Right(node, key, revealed, a)
    ensures forall v :: a == Found(v) <==> Get(m, key) == Some(LeafEntry(v))
    ensures a.MissingNode? <==> exists p, h :: p <= key && Get(m, p) == Some(Subtree(h))
    ensures a.NotThere? <==> Get(m, key) == None && !exists p, h :: p <= key && Get(m, p) == Some(Subtree(h))
  {
    CollectedIs(m, node, revealed);
    forall p, h | p <= key && Get(m, p) == Some(Subtree(h))
      ensures a == MissingNode(h)
    {
      assert p == key[..|p|];
      HiddenIsFinal(node, key, |p|, revealed, a);
    }
    if a.MissingNode? {
      var i :| 0 <= i <= |key| && EntryAt(node, key[..i], revealed) == Some(Subtree(a.hash));
      assert key[..i] <= key && Get(m, key[..i]) == Some(Subtree(a.hash));
      forall v
        ensures Get(m, key) != Some(LeafEntry(v))
      {
        if Get(m, key) == Some(LeafEntry(v)) {
          EntriesPrefixFree(node, key[..i], key, revealed);
        }
      }
    }
  }

  lemma CollectedIs(m: Entries, node: Node, revealed: iset<Hash>)
    requires Added(m, map[], [], node, revealed)
    ensures forall p: Path :: Get(m, p) == EntryAt(node, p, revealed)
  {
    forall p: Path
      ensures Get(m, p) == EntryAt(node, p, revealed)
    {
      assert p[0..] == p;
    }
  }
}
