/**
 Partially revealed Merkle-Patricia tries: nodes, the walker that collects a path map
 with opaque subtrees, and the walker that looks up one key.

 Hashes are symbolic: the hash of a node is the node under a constructor, so hashing
 is injective and a hash never contains itself.
 */
module PartialTrie {
  import opened Words
  import opened Bytes

  type Nibble = n: nat | n < 16
  type Path = seq<Nibble>
  type Value = seq<Byte>

  datatype Hash = Keccak(preimage: Node)

  /** A child reference: none, the hash of a node, or a short node in place. */
  datatype Child = Absent | ByHash(hash: Hash) | Inline(node: Node)

  datatype Node =
    | EmptyRoot
    | Leaf(key: Path, value: Value)
    | Extension(key: Path, child: Child)
    | Branch(children: seq<Child>)

  /** The revealed nodes, indexed by their hash. */
  type Index = map<Hash, Node>

  predicate Genuine(index: Index) {
    forall h :: h in index ==> index[h] == h.preimage
  }

  ghost function Known(index: Index): iset<Hash> {
    iset h | h in index
  }

  datatype Entry = LeafEntry(value: Value) | Subtree(hash: Hash)

  type Entries = map<Path, Entry>

  function Get(m: Entries, k: Path): Option<Entry> {
    if k in m then Some(m[k]) else None
  }

  // ---------- What the collecting walker finds ----------

  /** The entry that lies exactly at relative path `p` below a revealed node. */
  ghost function EntryAt(node: Node, p: Path, revealed: iset<Hash>): Option<Entry>
    decreases node, 0
  {
    match node
    case EmptyRoot => None
    case Leaf(key, value) => if p == key then Some(LeafEntry(value)) else None
    case Extension(key, child) => if key <= p then ChildEntryAt(child, p[|key|..], revealed) else None
    case Branch(children) =>
      if p != [] && p[0] < |children| then ChildEntryAt(children[p[0]], p[1..], revealed) else None
  }

  ghost function ChildEntryAt(child: Child, p: Path, revealed: iset<Hash>): Option<Entry>
    decreases child, 1
  {
    match child
    case Absent => None
    case Inline(node) => EntryAt(node, p, revealed)
    case ByHash(hash) =>
      if hash in revealed then EntryAt(hash.preimage, p, revealed)
      else if p == [] then Some(Subtree(hash)) else None
  }

  /** `m` is `before` with a node's entries added below `path`. */
  ghost predicate Added(m: Entries, before: Entries, path: Path, node: Node, revealed: iset<Hash>) {
    forall p: Path :: Get(m, p) ==
      if path <= p && EntryAt(node, p[|path|..], revealed).Some? then EntryAt(node, p[|path|..], revealed) else Get(before, p)
  }

  ghost predicate ChildAdded(m: Entries, before: Entries, path: Path, child: Child, revealed: iset<Hash>) {
    forall p: Path :: Get(m, p) ==
      if path <= p && ChildEntryAt(child, p[|path|..], revealed).Some? then ChildEntryAt(child, p[|path|..], revealed)
      else Get(before, p)
  }

  /** The first `n` children of a branch have been added. */
  ghost predicate ChildrenAdded(m: Entries, before: Entries, path: Path, children: seq<Child>, n: nat, revealed: iset<Hash>) {
    forall p: Path :: Get(m, p) ==
      if path < p && p[|path|] < n && p[|path|] < |children|
         && ChildEntryAt(children[p[|path|]], p[|path|+1..], revealed).Some?
      then ChildEntryAt(children[p[|path|]], p[|path|+1..], revealed)
      else Get(before, p)
  }

  lemma ExtensionAdded(m: Entries, before: Entries, path: Path, key: Path, child: Child, revealed: iset<Hash>)
    requires ChildAdded(m, before, path + key, child, revealed)
    ensures Added(m, before, path, Extension(key, child), revealed)
  {
    forall p: Path
      ensures Get(m, p) ==
        if path <= p && EntryAt(Extension(key, child), p[|path|..], revealed).Some?
        then EntryAt(Extension(key, child), p[|path|..], revealed) else Get(before, p)
    {
      if path <= p {
        var q := p[|path|..];
        assert p == path + q;
        assert path + key <= p <==> key <= q;
        if key <= q {
          assert q[|key|..] == p[|path + key|..];
        }
      }
    }
  }

  lemma ChildrenAddedStep(m: Entries, mid: Entries, before: Entries, path: Path, children: seq<Child>, i: Nibble,
                          revealed: iset<Hash>)
    requires i < |children|
    requires ChildrenAdded(mid, before, path, children, i, revealed)
    requires ChildAdded(m, mid, path + [i], children[i], revealed)
    ensures ChildrenAdded(m, before, path, children, i + 1, revealed)
  {
    forall p: Path
      ensures Get(m, p) ==
        if path < p && p[|path|] < i + 1 && p[|path|] < |children|
           && ChildEntryAt(children[p[|path|]], p[|path|+1..], revealed).Some?
        then ChildEntryAt(children[p[|path|]], p[|path|+1..], revealed)
        else Get(before, p)
    {
      if path < p {
        assert path + [i] <= p <==> p[|path|] == i;
      }
    }
  }

  lemma BranchAdded(m: Entries, before: Entries, path: Path, children: seq<Child>, revealed: iset<Hash>)
    requires ChildrenAdded(m, before, path, children, 16, revealed)
    ensures Added(m, before, path, Branch(children), revealed)
  {
    forall p: Path
      ensures Get(m, p) ==
        if path <= p && EntryAt(Branch(children), p[|path|..], revealed).Some?
        then EntryAt(Branch(children), p[|path|..], revealed) else Get(before, p)
    {
      if path < p {
        var q := p[|path|..];
        assert q[0] == p[|path|] && q[1..] == p[|path|+1..];
      }
    }
  }

  class Collector {
    const index: Index
    var entries: Entries

    constructor (index: Index)
      ensures this.index == index && entries == map[]
    {
      this.index := index;
      entries := map[];
    }

    /** Records the leaves and opaque boundaries of a revealed node. */
    method Collect(node: Node, path: Path)
      requires Genuine(index)
      modifies this`entries
      ensures Added(entries, old(entries), path, node, Known(index))
      decreases node, 0
    {
      match node {
        case EmptyRoot =>
        case Leaf(key, value) =>
          entries := entries[path + key := LeafEntry(value)];
          LeafAdded(old(entries), path, key, value, Known(index));
        case Extension(key, child) =>
          ResolveChild(child, path + key);
          ExtensionAdded(entries, old(entries), path, key, child, Known(index));
        case Branch(children) =>
          for i := 0 to 16
            invariant ChildrenAdded(entries, old(entries), path, children, i, Known(index))
          {
            if i < |children| && !children[i].Absent? {
              ghost var mid := entries;
              ResolveChild(children[i], path + [i]);
              ChildrenAddedStep(entries, mid, old(entries), path, children, i, Known(index));
            }
          }
          BranchAdded(entries, old(entries), path, children, Known(index));
      }
    }

    /** Recurses into a revealed child, or records it as opaque. */
    method ResolveChild(child: Child, path: Path)
      requires Genuine(index)
      modifies this`entries
      ensures ChildAdded(entries, old(entries), path, child, Known(index))
      decreases child, 1
    {
      match child {
        case Absent =>
        case Inline(node) => Collect(node, path);
        case ByHash(hash) =>
          if hash in index {
            Collect(index[hash], path);
          } else {
            entries := entries[path := Subtree(hash)];
            OpaqueAdded(old(entries), path, hash, Known(index));
          }
      }
    }
  }

  lemma LeafAdded(before: Entries, path: Path, key: Path, value: Value, revealed: iset<Hash>)
    ensures Added(before[path + key := LeafEntry(value)], before, path, Leaf(key, value), revealed)
  {
    forall p: Path | path <= p
      ensures p == path + key <==> p[|path|..] == key
    {
      assert p == path + p[|path|..];
    }
  }

  lemma OpaqueAdded(before: Entries, path: Path, hash: Hash, revealed: iset<Hash>)
    requires hash !in revealed
    ensures ChildAdded(before[path := Subtree(hash)], before, path, ByHash(hash), revealed)
  {
    forall p: Path | path <= p
      ensures p == path <==> p[|path|..] == []
    {
      assert p == path + p[|path|..];
    }
  }
}
