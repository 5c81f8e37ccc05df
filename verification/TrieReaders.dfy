/**
 The two readers of a witness: `Collect` flattens every revealed node into path entries, `TrieValue`
 walks to one key.  They give the same account of every key.
 */
module TrieReaders {
  import opened Words
  import opened Trie

  datatype Answer = Found(value: Value) | Absent | Missing(hash: Hash)

  /** Walking a tree by key. */
  ghost function Lookup(t: Tree, key: Path): Answer {
    match t
    case TEmpty => Absent
    case TLeaf(k, value) => if key == k then Found(value) else Absent
    case TExtension(k, child) => if k <= key then Lookup(child, key[|k|..]) else Absent
    case TBranch(children) =>
      if key == [] || key[0] >= |children| then Absent else Lookup(children[key[0]], key[1..])
    case Opaque(h) => Missing(h)
  }

  /** A hashed subtree sits at some prefix of the key. */
  ghost predicate OpaqueAbove(t: Tree, key: Path, h: Hash) {
    exists p :: p <= key && At(t, p) == Some(Subtree(h))
  }

  /** What an answer to a lookup says about the leaves and hashed subtrees of the tree. */
  ghost predicate Agrees(answer: Answer, t: Tree, key: Path) {
    && (forall v :: answer == Found(v) <==> At(t, key) == Some(LeafEntry(v)))
    && (forall h :: answer == Missing(h) <==> OpaqueAbove(t, key, h))
  }

  lemma {:induction false} AgreesBelow(answer: Answer, t: Tree, key: Path)
    requires t.TExtension? && t.key <= key && Agrees(answer, t.child, key[|t.key|..])
    ensures Agrees(answer, t, key)
  {
    var p, tail := t.key, key[|t.key|..];
    forall h
      ensures OpaqueAbove(t, key, h) <==> OpaqueAbove(t.child, tail, h)
    {
      if OpaqueAbove(t.child, tail, h) {
        var q :| q <= tail && At(t.child, q) == Some(Subtree(h));
        assert (p + q)[|p|..] == q;
        assert p + q <= key && At(t, p + q) == Some(Subtree(h));
      }
      if OpaqueAbove(t, key, h) {
        var q :| q <= key && At(t, q) == Some(Subtree(h));
        assert q[|p|..] <= tail && At(t.child, q[|p|..]) == Some(Subtree(h));
      }
    }
  }

  lemma {:induction false} AgreesInBranch(answer: Answer, t: Tree, key: Path)
    requires t.TBranch? && key != [] && key[0] < |t.children|
    requires Agrees(answer, t.children[key[0]], key[1..])
    ensures Agrees(answer, t, key)
  {
    var sub, tail := t.children[key[0]], key[1..];
    forall h
      ensures OpaqueAbove(t, key, h) <==> OpaqueAbove(sub, tail, h)
    {
      if OpaqueAbove(sub, tail, h) {
        var q :| q <= tail && At(sub, q) == Some(Subtree(h));
        var k := [key[0]] + q;
        assert k[1..] == q;
        assert k <= key && At(t, k) == Some(Subtree(h));
      }
      if OpaqueAbove(t, key, h) {
        var k :| k <= key && At(t, k) == Some(Subtree(h));
        assert k[1..] <= tail && At(sub, k[1..]) == Some(Subtree(h));
      }
    }
  }

  /** Lookup finds exactly the leaf at the key, and misses exactly where a hashed subtree is in the way. */
  lemma {:induction false} LookupAgrees(t: Tree, key: Path)
    ensures Agrees(Lookup(t, key), t, key)
  {
    match t
    case TEmpty =>
    case TLeaf(k, value) =>
    case TExtension(k, child) =>
      if k <= key {
        LookupAgrees(child, key[|k|..]);
        AgreesBelow(Lookup(child, key[|k|..]), t, key);
      }
    case TBranch(children) =>
      if key != [] && key[0] < |children| {
        LookupAgrees(children[key[0]], key[1..]);
        AgreesInBranch(Lookup(children[key[0]], key[1..]), t, key);
      }
    case Opaque(h) =>
      var root: Path := [];
      assert root <= key && At(t, root) == Some(Subtree(h));
  }

  // ------------------------------------------------------------------ walking by key

  method NodeByHash(db: Witness, h: Hash) returns (node: Option<Node>)
    ensures node == if h in db then Some(db[h]) else None
  {
    if h in db {
      return Some(db[h]);
    }
    return None;
  }

  /** Reads the value at `key`, or reports that the witness does not reach it. */
  method TrieValue(db: Witness, ghost rank: Hash -> nat, emptyRootHash: Hash, root: Hash, key: Path)
    returns (answer: Answer)
    requires Acyclic(db, rank)
    ensures answer == if root == emptyRootHash then Absent
                      else Lookup(ResolveRef(db, rank, HashRef(root), rank(root) + 1), key)
  {
    if root == emptyRootHash {
      return Absent;
    }
    var first := NodeByHash(db, root);
    if first.None? {
      return Missing(root);
    }
    var current, position := first.value, 0;
    ghost var bound := rank(root);
    ghost var goal := Lookup(ResolveRef(db, rank, HashRef(root), rank(root) + 1), key);
    assert key[0..] == key;
    while true
      invariant position <= |key| && Below(db, rank, current, bound)
      invariant goal == Lookup(Resolve(db, rank, current, bound), key[position..])
      decreases bound, current
    {
      var child: Ref;
      match current {
        case EmptyRoot => return Absent;
        case Leaf(k, value) =>
          return if key[position..] == k then Found(value) else Absent;
        case Extension(k, c) =>
          if !(k <= key[position..]) {
            return Absent;
          }
          assert key[position..][|k|..] == key[position + |k|..];
          position, child := position + |k|, c;
        case Branch(children) =>
          if position == |key| {
            return Absent;
          }
          child := children[key[position]];
          assert key[position..][1..] == key[position + 1..];
          position := position + 1;
      }
      assert goal == Lookup(ResolveRef(db, rank, child, bound), key[position..]);
      match child {
        case NoChild => return Absent;
        case HashRef(h) =>
          var next := NodeByHash(db, h);
          if next.None? {
            return Missing(h);
          }
          current, bound := next.value, rank(h);
        case Inline(node) =>
          current := node;
      }
    }
  }

  // ------------------------------------------------------------------ flattening

  class Collector {
    var entries: Entries

    constructor ()
      ensures entries == map[]
    {
      entries := map[];
    }

    /** Records the leaves and opaque boundaries below `node`, which sits at `path`. */
    method Collect(db: Witness, ghost rank: Hash -> nat, node: Node, path: Path, ghost bound: nat)
      requires Acyclic(db, rank) && Below(db, rank, node, bound)
      modifies this
      ensures var t := Resolve(db, rank, node, bound);
              forall k :: Read(entries, k) == Else(AtBelow(t, path, k), Read(old(entries), k))
      decreases bound, node, 0
    {
      ghost var t := Resolve(db, rank, node, bound);
      match node {
        case EmptyRoot =>
        case Leaf(key, value) =>
          entries := entries[path + key := LeafEntry(value)];
          forall k
            ensures AtBelow(t, path, k) == if k == path + key then Some(LeafEntry(value)) else None
          {
            LeafBelow(key, value, path, k);
          }
        case Extension(key, child) =>
          CollectRef(db, rank, child, path + key, bound);
          forall k
            ensures AtBelow(t, path, k) == AtBelow(t.child, path + key, k)
          {
            ExtensionBelow(t, path, k);
          }
        case Branch(children) =>
          ghost var start := entries;
          for i := 0 to 16
            invariant forall k :: Read(entries, k) == Else(AtChildren(t, path, i, k), Read(start, k))
          {
            CollectRef(db, rank, children[i], path + [i], bound);
            forall k
              ensures AtChildren(t, path, i + 1, k) == Else(AtBelow(t.children[i], path + [i], k), AtChildren(t, path, i, k))
            {
              ChildBelow(t, path, i, k);
            }
          }
      }
    }

    method CollectRef(db: Witness, ghost rank: Hash -> nat, ref: Ref, path: Path, ghost bound: nat)
      requires Acyclic(db, rank) && RefBelow(db, rank, ref, bound)
      modifies this
      ensures var t := ResolveRef(db, rank, ref, bound);
              forall k :: Read(entries, k) == Else(AtBelow(t, path, k), Read(old(entries), k))
      decreases bound, ref, 1
    {
      match ref {
        case NoChild =>
        case HashRef(h) =>
          if h in db {
            Collect(db, rank, db[h], path, rank(h));
          } else {
            entries := entries[path := Subtree(h)];
            forall k
              ensures AtBelow(Opaque(h), path, k) == if k == path then Some(Subtree(h)) else None
            {
              if path <= k {
                assert k == path + k[|path|..];
              }
            }
          }
        case Inline(node) =>
          Collect(db, rank, node, path, bound);
      }
    }
  }

  lemma {:induction false} LeafBelow(key: Path, value: Value, path: Path, k: Path)
    ensures AtBelow(TLeaf(key, value), path, k) == if k == path + key then Some(LeafEntry(value)) else None
  {
    if path <= k {
      assert k == path + k[|path|..];
    }
  }

  lemma {:induction false} ExtensionBelow(t: Tree, path: Path, k: Path)
    requires t.TExtension?
    ensures AtBelow(t, path, k) == AtBelow(t.child, path + t.key, k)
  {
    if path <= k && t.key <= k[|path|..] {
      assert k == path + k[|path|..];
      assert k[|path|..][|t.key|..] == k[|path + t.key|..];
    }
    if path + t.key <= k {
      assert k[..|path|] == path && k[|path|..][..|t.key|] == t.key;
    }
  }

  /** What `k` leads to through the first `n` children of a branch at `path`. */
  function AtChildren(t: Tree, path: Path, n: nat, k: Path): Option<Entry> {
    if path < k && k[|path|] < n then AtBelow(t, path, k) else None
  }

  lemma {:induction false} ChildBelow(t: Tree, path: Path, i: Nibble, k: Path)
    requires t.TBranch? && |t.children| == 16
    ensures AtChildren(t, path, i + 1, k) == Else(AtBelow(t.children[i], path + [i], k), AtChildren(t, path, i, k))
  {
    if path < k && k[|path|] == i {
      assert k[..|path|] + [k[|path|]] == k[..|path| + 1];
      assert k[|path|..][1..] == k[|path + [i]|..];
    }
  }

  // ------------------------------------------------------------------ agreement

  /**
   For every key the walk and the flattened entries of the same witness agree: a value is found exactly
   when that leaf was recorded at the key, a node is reported missing exactly when a hashed subtree was
   recorded at a prefix of the key, and absence is reported exactly when neither is the case.
   */
  method ReadBoth(db: Witness, ghost rank: Hash -> nat, emptyRootHash: Hash, root: Hash, key: Path)
    returns (answer: Answer, entries: Entries)
    requires Acyclic(db, rank) && root in db && root != emptyRootHash
    ensures forall v :: answer == Found(v) <==> Read(entries, key) == Some(LeafEntry(v))
    ensures forall h :: answer == Missing(h) <==> exists p :: p <= key && Read(entries, p) == Some(Subtree(h))
    ensures answer == Absent <==>
            (forall v :: Read(entries, key) != Some(LeafEntry(v)))
            && (forall p, h :: p <= key ==> Read(entries, p) != Some(Subtree(h)))
  {
    answer := TrieValue(db, rank, emptyRootHash, root, key);
    var c := new Collector();
    c.Collect(db, rank, db[root], [], rank(root));
    entries := c.entries;
    ghost var t := Resolve(db, rank, db[root], rank(root));
    forall k
      ensures Read(entries, k) == At(t, k)
    {
      assert k[0..] == k;
    }
    LookupAgrees(t, key);
    Summary(answer, t, entries, key);
  }

  lemma {:induction false} Summary(answer: Answer, t: Tree, entries: Entries, key: Path)
    requires forall k :: Read(entries, k) == At(t, k)
    requires Agrees(answer, t, key)
    ensures forall v :: answer == Found(v) <==> Read(entries, key) == Some(LeafEntry(v))
    ensures forall h :: answer == Missing(h) <==> exists p :: p <= key && Read(entries, p) == Some(Subtree(h))
    ensures answer == Absent <==>
            (forall v :: Read(entries, key) != Some(LeafEntry(v)))
            && (forall p, h :: p <= key ==> Read(entries, p) != Some(Subtree(h)))
  {
    forall h
      ensures OpaqueAbove(t, key, h) <==> exists p :: p <= key && Read(entries, p) == Some(Subtree(h))
    {
    }
  }
}
