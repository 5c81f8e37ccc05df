/**
 Root hashes of partial tries, and the recomputation of a root after updates.

 Hashing and node sizes are parameters: `hash` is Keccak of the node's encoding, `small` says that the
 encoding is shorter than a hash, in which case the node is embedded in its parent.
 */
module TrieRoot {
  import opened Words
  import opened Trie
  import opened TrieReaders
  import opened TrieRebuild

  datatype Codec = Codec(hash: Node -> Hash, small: Node -> bool)

  type Updates = map<Path, Option<Value>>

  // ------------------------------------------------------------------ encoding trees

  /** The root node of a tree. */
  ghost function Encode(c: Codec, t: Tree): Node
    decreases t, 0
  {
    match t
    case TEmpty => EmptyRoot
    case TLeaf(key, value) => Leaf(key, value)
    case TExtension(key, child) => Extension(key, RefOf(c, child))
    case TBranch(children) => Branch(seq(|children|, i requires 0 <= i < |children| => RefOf(c, children[i])))
    case Opaque(_) => EmptyRoot
  }

  /** How a parent refers to a tree. */
  ghost function RefOf(c: Codec, t: Tree): Ref
    decreases t, 1
  {
    match t
    case TEmpty => NoChild
    case Opaque(h) => HashRef(h)
    case _ =>
      var node := Encode(c, t);
      if c.small(node) then Inline(node) else HashRef(c.hash(node))
  }

  ghost function RootHash(c: Codec, t: Tree): Hash {
    if t.Opaque? then t.hash else c.hash(Encode(c, t))
  }

  // ------------------------------------------------------------------ witnesses of real tries

  /** The nodes that `node` leads to are referred to the way the encoding refers to them. */
  ghost predicate Encoded(c: Codec, db: Witness, rank: Hash -> nat, node: Node, bound: nat)
    requires Acyclic(db, rank) && Below(db, rank, node, bound)
    decreases bound, node, 0
  {
    match node
    case EmptyRoot => true
    case Leaf(_, _) => true
    case Extension(_, child) => RefEncoded(c, db, rank, child, bound)
    case Branch(children) => forall i :: 0 <= i < 16 ==> RefEncoded(c, db, rank, children[i], bound)
  }

  ghost predicate RefEncoded(c: Codec, db: Witness, rank: Hash -> nat, ref: Ref, bound: nat)
    requires Acyclic(db, rank) && RefBelow(db, rank, ref, bound)
    decreases bound, ref, 1
  {
    match ref
    case NoChild => true
    case Inline(node) => node != EmptyRoot && c.small(node) && Encoded(c, db, rank, node, bound)
    case HashRef(h) =>
      h in db ==>
        && db[h] != EmptyRoot && !c.small(db[h]) && c.hash(db[h]) == h
        && Encoded(c, db, rank, db[h], rank(h))
  }

  /** Reading a node and encoding the tree it stands for gives back the node. */
  lemma {:induction false} EncodeResolve(c: Codec, db: Witness, rank: Hash -> nat, node: Node, bound: nat)
    requires Acyclic(db, rank) && Below(db, rank, node, bound) && Encoded(c, db, rank, node, bound)
    ensures Encode(c, Resolve(db, rank, node, bound)) == node
    ensures !Resolve(db, rank, node, bound).Opaque?
    ensures Resolve(db, rank, node, bound).TEmpty? <==> node.EmptyRoot?
    decreases bound, node, 0
  {
    match node
    case EmptyRoot =>
    case Leaf(_, _) =>
    case Extension(_, child) => EncodeResolveRef(c, db, rank, child, bound);
    case Branch(children) =>
      forall i | 0 <= i < 16
        ensures RefOf(c, ResolveRef(db, rank, children[i], bound)) == children[i]
      {
        EncodeResolveRef(c, db, rank, children[i], bound);
      }
      assert Encode(c, Resolve(db, rank, node, bound)).children == children;
  }

  lemma {:induction false} EncodeResolveRef(c: Codec, db: Witness, rank: Hash -> nat, ref: Ref, bound: nat)
    requires Acyclic(db, rank) && RefBelow(db, rank, ref, bound) && RefEncoded(c, db, rank, ref, bound)
    ensures RefOf(c, ResolveRef(db, rank, ref, bound)) == ref
    decreases bound, ref, 1
  {
    match ref
    case NoChild =>
    case Inline(node) => EncodeResolve(c, db, rank, node, bound);
    case HashRef(h) =>
      if h in db {
        EncodeResolve(c, db, rank, db[h], rank(h));
      }
  }

  // ------------------------------------------------------------------ recomputing a root

  /** The nodes of a proof by hash; of nodes with the same hash the last counts. */
  function ByHash(c: Codec, nodes: seq<Node>): Witness {
    if nodes == [] then map[]
    else var last := nodes[|nodes| - 1]; ByHash(c, nodes[..|nodes| - 1])[c.hash(last) := last]
  }

  /** The hashes of a witness are those of the proof nodes, each leading to a node with that hash. */
  lemma {:induction false} ByHashExactly(c: Codec, nodes: seq<Node>, h: Hash)
    ensures h in ByHash(c, nodes) <==> exists i :: 0 <= i < |nodes| && c.hash(nodes[i]) == h
    ensures h in ByHash(c, nodes) ==> c.hash(ByHash(c, nodes)[h]) == h && ByHash(c, nodes)[h] in nodes
  {
    if nodes != [] {
      var n := |nodes| - 1;
      ByHashExactly(c, nodes[..n], h);
      if i :| 0 <= i < n && c.hash(nodes[..n][i]) == h {
        assert nodes[i] == nodes[..n][i];
      }
      if i :| 0 <= i < |nodes| && c.hash(nodes[i]) == h {
        assert i < n ==> nodes[..n][i] == nodes[i];
      }
    }
  }

  /** The tree a witness reveals below a root it holds. */
  ghost function Revealed(c: Codec, db: Witness, rank: Hash -> nat, root: Hash): Tree
    requires Acyclic(db, rank)
    requires root == c.hash(EmptyRoot) || root in db
  {
    if root == c.hash(EmptyRoot) then TEmpty else Resolve(db, rank, db[root], rank(root))
  }

  function Written(u: Option<Value>): Option<Entry> {
    if u.Some? then Some(LeafEntry(u.value)) else None
  }

  /** Entries with updates applied. */
  ghost predicate Updated(e: Entries, updates: Updates, r: Entries) {
    forall k {:trigger Read(r, k)} :: Read(r, k) == if k in updates then Written(updates[k]) else Read(e, k)
  }

  /** What the library's hash builder computes from entries none of which lies below another. */
  ghost predicate BuildsRoots(c: Codec, build: Entries -> Hash) {
    forall e {:trigger build(e)} :: PrefixFree(e) ==> build(e) == RootHash(c, Compose(e))
  }

  /**
   Recomputes a root from proof nodes and updates.  It fails exactly when the root node is missing;
   otherwise the result is the root of the trie whose entries are those revealed, with the updates applied.
   */
  method RecomputeRoot(c: Codec, build: Entries -> Hash, ghost rank: Hash -> nat,
                       root: Hash, nodes: seq<Node>, updates: Updates) returns (r: Option<Hash>)
    requires BuildsRoots(c, build) && Acyclic(ByHash(c, nodes), rank)
    ensures r.None? <==> root != c.hash(EmptyRoot) && root !in ByHash(c, nodes)
    ensures r.Some? ==> forall e, e' ::
                Represents(e, Revealed(c, ByHash(c, nodes), rank, root)) && Updated(e, updates, e') && PrefixFree(e')
                ==> r.value == RootHash(c, Compose(e'))
    ensures updates == map[] && Anchored(c, ByHash(c, nodes), rank, root) ==> r == Some(root)
  {
    var db: Witness := map[];
    for i := 0 to |nodes|
      invariant db == ByHash(c, nodes[..i])
    {
      assert nodes[..i + 1][..i] == nodes[..i];
      db := db[c.hash(nodes[i]) := nodes[i]];
    }
    assert nodes[..|nodes|] == nodes;

    var flat := new Collector();
    if root != c.hash(EmptyRoot) {
      if root !in db {
        return None;
      }
      flat.Collect(db, rank, db[root], [], rank(root));
    }
    ghost var revealed := Revealed(c, db, rank, root);
    ghost var before := flat.entries;
    FromRoot(before, revealed);

    var entries := ApplyUpdates(flat.entries, updates);
    r := Some(build(entries));
    if updates == map[] && Anchored(c, db, rank, root) {
      NoUpdatesReproduceRoot(c, db, rank, root, before);
      SameUpdate(before, updates, entries, before);
    }
    forall e, e' | Represents(e, revealed) && Updated(e, updates, e') && PrefixFree(e')
      ensures r.value == RootHash(c, Compose(e'))
    {
      SameEntries(before, e, revealed);
      SameUpdate(e, updates, entries, e');
    }
  }

  method ApplyUpdates(e: Entries, updates: Updates) returns (r: Entries)
    ensures Updated(e, updates, r)
  {
    r := e;
    var todo := updates.Keys;
    while todo != {}
      invariant todo <= updates.Keys
      invariant forall k {:trigger Read(r, k)} ::
                  Read(r, k) == if k in updates && k !in todo then Written(updates[k]) else Read(e, k)
    {
      var k :| k in todo;
      ghost var was := r;
      match updates[k] {
        case Some(v) => r := r[k := LeafEntry(v)];
        case None => r := r - {k};
      }
      todo := todo - {k};
      assert forall x {:trigger Read(r, x)} :: Read(r, x) == if x == k then Written(updates[k]) else Read(was, x);
    }
  }

  lemma {:induction false} FromRoot(e: Entries, t: Tree)
    requires forall k :: Read(e, k) == Else(AtBelow(t, [], k), None)
    ensures Represents(e, t)
  {
    forall k {:trigger Read(e, k)}
      ensures Read(e, k) == At(t, k)
    {
      assert k[0..] == k;
    }
  }

  lemma {:induction false} SameEntries(a: Entries, b: Entries, t: Tree)
    requires Represents(a, t) && Represents(b, t)
    ensures a == b
  {
    forall k
      ensures k in a <==> k in b
      ensures k in a && k in b ==> a[k] == b[k]
    {
      assert Read(a, k) == Read(b, k);
    }
  }

  lemma {:induction false} SameUpdate(e: Entries, updates: Updates, a: Entries, b: Entries)
    requires Updated(e, updates, a) && Updated(e, updates, b)
    ensures a == b
  {
    forall k
      ensures k in a <==> k in b
      ensures k in a && k in b ==> a[k] == b[k]
    {
      assert Read(a, k) == Read(b, k);
    }
  }

  /** The witness holds the root node of a canonical trie, and its nodes refer to each other as the encoding does. */
  ghost predicate Anchored(c: Codec, db: Witness, rank: Hash -> nat, root: Hash)
    requires Acyclic(db, rank)
  {
    || root == c.hash(EmptyRoot)
    || (&& root in db && c.hash(db[root]) == root && Encoded(c, db, rank, db[root], rank(root))
        && Canonical(Revealed(c, db, rank, root)))
  }

  /** Without updates, a witness of a canonical trie reproduces the root it is anchored to. */
  lemma {:induction false} NoUpdatesReproduceRoot(c: Codec, db: Witness, rank: Hash -> nat, root: Hash, e: Entries)
    requires Acyclic(db, rank) && Anchored(c, db, rank, root)
    requires Represents(e, Revealed(c, db, rank, root))
    ensures Updated(e, map[], e) && PrefixFree(e) && RootHash(c, Compose(e)) == root
  {
    var t := Revealed(c, db, rank, root);
    if root == c.hash(EmptyRoot) {
      NoEntries(e);
    } else {
      RebuildIdentity(t, e);
      EncodeResolve(c, db, rank, db[root], rank(root));
    }
  }
}
