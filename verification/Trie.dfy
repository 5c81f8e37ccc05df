/**
 Partial Merkle-Patricia tries: trie nodes as a witness carries them, and the tree they stand for, in
 which a subtree missing from the witness is known only by its hash.
 */
module Trie {
  import opened Words

  type Nibble = x: nat | x < 16
  type Path = seq<Nibble>
  type Hash = nat
  type Value = seq<nat>

  datatype Node =
    | EmptyRoot
    | Leaf(key: Path, value: Value)
    | Extension(key: Path, child: Ref)
    | Branch(children: seq<Ref>)

  /** A child slot: empty, a hash, or a node too short to be hashed. */
  datatype Ref =
    | NoChild
    | HashRef(hash: Hash)
    | Inline(node: Node)

  type Witness = map<Hash, Node>

  datatype Tree =
    | TEmpty
    | TLeaf(key: Path, value: Value)
    | TExtension(key: Path, child: Tree)
    | TBranch(children: seq<Tree>)
    | Opaque(hash: Hash)

  // ------------------------------------------------------------------ acyclic witnesses

  /** Branches have sixteen slots, and every hash that `node` leads to within the witness ranks below `bound`. */
  ghost predicate Below(db: Witness, rank: Hash -> nat, node: Node, bound: nat)
    decreases node
  {
    match node
    case EmptyRoot => true
    case Leaf(_, _) => true
    case Extension(_, child) => RefBelow(db, rank, child, bound)
    case Branch(children) =>
      |children| == 16 && forall i :: 0 <= i < 16 ==> RefBelow(db, rank, children[i], bound)
  }

  ghost predicate RefBelow(db: Witness, rank: Hash -> nat, ref: Ref, bound: nat)
    decreases ref
  {
    match ref
    case NoChild => true
    case HashRef(h) => h in db ==> rank(h) < bound
    case Inline(node) => Below(db, rank, node, bound)
  }

  /** Following hashes always goes down in rank, as it does when hashes are hashes of contents. */
  ghost predicate Acyclic(db: Witness, rank: Hash -> nat) {
    forall h :: h in db ==> Below(db, rank, db[h], rank(h))
  }

  /** The tree that a node stands for. */
  ghost function Resolve(db: Witness, rank: Hash -> nat, node: Node, bound: nat): Tree
    requires Acyclic(db, rank) && Below(db, rank, node, bound)
    decreases bound, node
  {
    match node
    case EmptyRoot => TEmpty
    case Leaf(key, value) => TLeaf(key, value)
    case Extension(key, child) => TExtension(key, ResolveRef(db, rank, child, bound))
    case Branch(children) =>
      TBranch(seq(16, i requires 0 <= i < 16 => ResolveRef(db, rank, children[i], bound)))
  }

  ghost function ResolveRef(db: Witness, rank: Hash -> nat, ref: Ref, bound: nat): Tree
    requires Acyclic(db, rank) && RefBelow(db, rank, ref, bound)
    decreases bound, ref
  {
    match ref
    case NoChild => TEmpty
    case HashRef(h) => if h in db then Resolve(db, rank, db[h], rank(h)) else Opaque(h)
    case Inline(node) => Resolve(db, rank, node, bound)
  }

  // ------------------------------------------------------------------ flattened form

  datatype Entry = LeafEntry(value: Value) | Subtree(hash: Hash)

  type Entries = map<Path, Entry>

  function Read(e: Entries, k: Path): Option<Entry> {
    if k in e then Some(e[k]) else None
  }

  /** The leaf or hashed subtree at exactly the path `q` of a tree. */
  function At(t: Tree, q: Path): Option<Entry> {
    match t
    case TEmpty => None
    case TLeaf(key, value) => if q == key then Some(LeafEntry(value)) else None
    case TExtension(key, child) => if key <= q then At(child, q[|key|..]) else None
    case TBranch(children) => if q != [] && q[0] < |children| then At(children[q[0]], q[1..]) else None
    case Opaque(h) => if q == [] then Some(Subtree(h)) else None
  }

  /** What `path` leads to in a tree rooted at `root`. */
  function AtBelow(t: Tree, root: Path, path: Path): Option<Entry> {
    if root <= path then At(t, path[|root|..]) else None
  }

  function Else(a: Option<Entry>, b: Option<Entry>): Option<Entry> {
    if a.Some? then a else b
  }
}
