/**
 Updating a partial trie.

 A witness hides some subtrees of the full trie behind their hashes.  Recomputing the root from what is
 revealed gives the root of the updated full trie, except when an update leaves an extension above a hidden
 subtree whose own root could be merged with it.
 */
module TrieUpdate {
  import opened Words
  import opened Trie
  import opened TrieReaders
  import opened TrieRebuild
  import opened TrieRoot

  // ------------------------------------------------------------------ uncovering hidden subtrees

  /** The tree with every hidden subtree put back. */
  ghost function Fill(t: Tree, hidden: Hash -> Tree): Tree {
    match t
    case TEmpty => t
    case TLeaf(_, _) => t
    case TExtension(key, child) => TExtension(key, Fill(child, hidden))
    case TBranch(children) => TBranch(seq(|children|, i requires 0 <= i < |children| => Fill(children[i], hidden)))
    case Opaque(h) => hidden(h)
  }

  ghost predicate Whole(t: Tree) {
    match t
    case TEmpty => true
    case TLeaf(_, _) => true
    case TExtension(_, child) => Whole(child)
    case TBranch(children) => forall i :: 0 <= i < |children| ==> Whole(children[i])
    case Opaque(_) => false
  }

  /** The hidden subtree is a canonical trie that its parent refers to by this hash. */
  ghost predicate Good(c: Codec, hidden: Hash -> Tree, h: Hash) {
    var t := hidden(h);
    Canonical(t) && Whole(t) && RefOf(c, t) == HashRef(h)
  }

  ghost predicate Fillable(c: Codec, hidden: Hash -> Tree, t: Tree) {
    match t
    case TEmpty => true
    case TLeaf(_, _) => true
    case TExtension(_, child) => Fillable(c, hidden, child)
    case TBranch(children) => forall i :: 0 <= i < |children| ==> Fillable(c, hidden, children[i])
    case Opaque(h) => Good(c, hidden, h)
  }

  /** Every hidden subtree directly below an extension is a branch. */
  ghost predicate Unmerged(t: Tree, hidden: Hash -> Tree) {
    match t
    case TEmpty => true
    case TLeaf(_, _) => true
    case TExtension(_, child) => if child.Opaque? then hidden(child.hash).TBranch? else Unmerged(child, hidden)
    case TBranch(children) => forall i :: 0 <= i < |children| ==> Unmerged(children[i], hidden)
    case Opaque(_) => true
  }

  /** Uncovering hidden subtrees does not change how a tree is referred to. */
  lemma {:induction false} FillRef(c: Codec, hidden: Hash -> Tree, t: Tree)
    requires Fillable(c, hidden, t)
    ensures RefOf(c, Fill(t, hidden)) == RefOf(c, t)
    ensures RootHash(c, Fill(t, hidden)) == RootHash(c, t)
    ensures Whole(Fill(t, hidden))
  {
    match t
    case TEmpty =>
    case TLeaf(_, _) =>
    case Opaque(h) =>
    case TExtension(_, child) => FillRef(c, hidden, child);
    case TBranch(children) =>
      var u := Fill(t, hidden);
      forall i | 0 <= i < |children|
        ensures RefOf(c, u.children[i]) == RefOf(c, children[i]) && Whole(u.children[i])
      {
        FillRef(c, hidden, children[i]);
      }
      assert Encode(c, u).children == Encode(c, t).children;
  }

  /** The full tree is canonical exactly when nothing could be merged. */
  lemma {:induction false} FillCanonical(c: Codec, hidden: Hash -> Tree, t: Tree)
    requires Canonical(t) && Fillable(c, hidden, t)
    ensures Canonical(Fill(t, hidden)) <==> Unmerged(t, hidden)
    decreases t, 1
  {
    match t
    case TLeaf(_, _) =>
    case Opaque(_) =>
    case TExtension(_, child) =>
      if child.Opaque? {
        assert Fill(child, hidden) == hidden(child.hash);
      } else {
        FillCanonical(c, hidden, child);
      }
    case TBranch(children) => FillBranch(c, hidden, t);
  }

  lemma {:induction false} FillBranch(c: Codec, hidden: Hash -> Tree, t: Tree)
    requires t.TBranch? && Canonical(t) && Fillable(c, hidden, t)
    ensures Canonical(Fill(t, hidden)) <==> Unmerged(t, hidden)
    decreases t, 0
  {
    var u := Fill(t, hidden);
    forall i | 0 <= i < 16
      ensures u.children[i].TEmpty? <==> t.children[i].TEmpty?
      ensures u.children[i].TEmpty? || Canonical(u.children[i]) <==> Unmerged(t.children[i], hidden)
    {
      if !t.children[i].TEmpty? {
        FillCanonical(c, hidden, t.children[i]);
      }
    }
    var i, j :| 0 <= i < j < 16 && !t.children[i].TEmpty? && !t.children[j].TEmpty?;
    assert !u.children[i].TEmpty? && !u.children[j].TEmpty?;
  }

  // ------------------------------------------------------------------ hashes determine whole trees

  ghost predicate Injective(c: Codec) {
    forall a, b :: c.hash(a) == c.hash(b) ==> a == b
  }

  lemma {:induction false} EncodeInjective(c: Codec, a: Tree, b: Tree)
    requires Injective(c) && Whole(a) && Whole(b) && Encode(c, a) == Encode(c, b)
    ensures a == b
    decreases a, 0
  {
    match a
    case TEmpty =>
    case TLeaf(_, _) =>
    case TExtension(_, child) => RefInjective(c, child, b.child);
    case TBranch(children) =>
      assert |children| == |Encode(c, a).children| == |b.children|;
      forall i | 0 <= i < |children|
        ensures children[i] == b.children[i]
      {
        assert Encode(c, a).children[i] == Encode(c, b).children[i];
        RefInjective(c, children[i], b.children[i]);
      }
  }

  lemma {:induction false} RefInjective(c: Codec, a: Tree, b: Tree)
    requires Injective(c) && Whole(a) && Whole(b) && RefOf(c, a) == RefOf(c, b)
    ensures a == b
    decreases a, 1
  {
    if !a.TEmpty? {
      EncodeInjective(c, a, b);
    }
  }

  // ------------------------------------------------------------------ reading the full trie

  /** The subtree hidden behind `h` at the path `p` covers the key `k`. */
  ghost predicate Hides(t: Tree, p: Path, k: Path, h: Hash) {
    p <= k && At(t, p) == Some(Subtree(h))
  }

  /** What the full trie holds at `k`, told from the revealed leaves and the hidden subtrees. */
  ghost predicate Reads(t: Tree, hidden: Hash -> Tree, k: Path, r: Option<Entry>) {
    && (At(t, k).Some? && At(t, k).value.LeafEntry? ==> r == At(t, k))
    && (forall p, h :: Hides(t, p, k, h) ==> r == At(hidden(h), k[|p|..]))
    && (r.Some? ==> r == At(t, k) || exists p, h :: Hides(t, p, k, h))
  }

  lemma {:induction false} ReadsBelow(t: Tree, hidden: Hash -> Tree, k: Path, r: Option<Entry>)
    requires t.TExtension? && t.key <= k && Reads(t.child, hidden, k[|t.key|..], r)
    ensures Reads(t, hidden, k, r)
  {
    var key, tail := t.key, k[|t.key|..];
    forall p, h | Hides(t, p, k, h)
      ensures r == At(hidden(h), k[|p|..])
    {
      assert Hides(t.child, p[|key|..], tail, h);
      assert tail[|p[|key|..]|..] == k[|p|..];
    }
    if q, h :| Hides(t.child, q, tail, h) {
      assert (key + q)[|key|..] == q;
      assert Hides(t, key + q, k, h);
    }
  }

  lemma {:induction false} ReadsInBranch(t: Tree, hidden: Hash -> Tree, k: Path, r: Option<Entry>)
    requires t.TBranch? && k != [] && k[0] < |t.children| && Reads(t.children[k[0]], hidden, k[1..], r)
    ensures Reads(t, hidden, k, r)
  {
    var sub, tail := t.children[k[0]], k[1..];
    forall p, h | Hides(t, p, k, h)
      ensures r == At(hidden(h), k[|p|..])
    {
      assert Hides(sub, p[1..], tail, h);
      assert tail[|p[1..]|..] == k[|p|..];
    }
    if q, h :| Hides(sub, q, tail, h) {
      var p := [k[0]] + q;
      assert p[1..] == q;
      assert Hides(t, p, k, h);
    }
  }

  lemma {:induction false} FillReads(t: Tree, hidden: Hash -> Tree, k: Path)
    ensures Reads(t, hidden, k, At(Fill(t, hidden), k))
  {
    match t
    case TEmpty =>
    case TLeaf(_, _) =>
    case TExtension(key, child) =>
      if key <= k {
        FillReads(child, hidden, k[|key|..]);
        ReadsBelow(t, hidden, k, At(Fill(child, hidden), k[|key|..]));
      }
    case TBranch(children) =>
      if k != [] && k[0] < |children| {
        FillReads(children[k[0]], hidden, k[1..]);
        ReadsInBranch(t, hidden, k, At(Fill(children[k[0]], hidden), k[1..]));
      }
    case Opaque(h) =>
      assert Hides(t, [], k, h) && k[0..] == k;
  }

  // ------------------------------------------------------------------ updates outside hidden subtrees

  /** No updated key lies in a hidden subtree: the proof of every updated key is part of the witness. */
  ghost predicate Outside(e: Entries, updates: Updates) {
    forall p, k :: k in updates && p in e && p <= k ==> e[p].LeafEntry?
  }

  /** Updating what is revealed updates the full trie. */
  lemma {:induction false} UpdateReads(t: Tree, t': Tree, hidden: Hash -> Tree, e: Entries, e': Entries, updates: Updates, k: Path)
    requires Represents(e, t) && Represents(e', t') && Updated(e, updates, e') && Outside(e, updates)
    ensures At(Fill(t', hidden), k) == if k in updates then Written(updates[k]) else At(Fill(t, hidden), k)
  {
    FillReads(t, hidden, k);
    FillReads(t', hidden, k);
    forall p, h
      ensures Hides(t', p, k, h) <==> k !in updates && Hides(t, p, k, h)
    {
      assert Read(e, p) == At(t, p) && Read(e', p) == At(t', p);
    }
    assert Read(e, k) == At(t, k) && Read(e', k) == At(t', k);
    if k !in updates {
      ReadsAlike(t, t', hidden, k, At(Fill(t, hidden), k), At(Fill(t', hidden), k));
    }
  }

  lemma {:induction false} ReadsAlike(t: Tree, t': Tree, hidden: Hash -> Tree, k: Path, r: Option<Entry>, r': Option<Entry>)
    requires Reads(t, hidden, k, r) && Reads(t', hidden, k, r')
    requires At(t, k) == At(t', k)
    requires forall p, h :: Hides(t', p, k, h) <==> Hides(t, p, k, h)
    ensures r == r'
  {
    if p, h :| Hides(t, p, k, h) {
      assert Hides(t', p, k, h);
    } else if At(t, k).Some? && At(t, k).value.Subtree? {
      assert Hides(t, k, k, At(t, k).value.hash);
    }
  }

  // ------------------------------------------------------------------ recomputed roots

  /** All keys have the same length, as hashed keys do. */
  ghost predicate Keyed(full: Entries, n: nat) {
    forall k :: k in full ==> full[k].LeafEntry? && |k| == n
  }

  lemma {:induction false} UpdateKeyed(full: Entries, full': Entries, updates: Updates, n: nat)
    requires Keyed(full, n) && Updated(full, updates, full') && forall k :: k in updates ==> |k| == n
    ensures Keyed(full', n)
  {
    forall k | k in full'
      ensures full'[k].LeafEntry? && |k| == n
    {
      assert Read(full', k).Some?;
    }
  }

  /** The revealed part of a full trie: its entries, its tree, and what the hidden subtrees are. */
  ghost predicate PartOf(c: Codec, hidden: Hash -> Tree, t: Tree, e: Entries, full: Entries, n: nat) {
    && Represents(e, t)
    && Keyed(full, n) && Represents(full, Fill(t, hidden))
    && forall p :: p in e && e[p].Subtree? ==> Good(c, hidden, e[p].hash)
  }

  lemma {:induction false} EntryLength(c: Codec, hidden: Hash -> Tree, t: Tree, e: Entries, full: Entries, n: nat, p: Path)
    requires PartOf(c, hidden, t, e, full, n) && p in e
    ensures |p| <= n && (e[p].LeafEntry? ==> |p| == n)
  {
    assert Read(e, p) == At(t, p);
    FillReads(t, hidden, p);
    assert Read(full, p) == At(Fill(t, hidden), p);
    if e[p].Subtree? {
      var q := HasEntry(hidden(e[p].hash));
      var k := p + q;
      FillReads(t, hidden, k);
      assert Hides(t, p, k, e[p].hash) && k[|p|..] == q;
      assert Read(full, k) == At(Fill(t, hidden), k);
    }
  }

  /** Updating keys outside the hidden subtrees keeps the entries apart. */
  lemma {:induction false} UpdatePrefixFree(c: Codec, hidden: Hash -> Tree, t: Tree, e: Entries, full: Entries, n: nat,
                                            updates: Updates, e': Entries)
    requires PartOf(c, hidden, t, e, full, n)
    requires Updated(e, updates, e') && Outside(e, updates) && forall k :: k in updates ==> |k| == n
    ensures PrefixFree(e')
  {
    RepresentedPrefixFree(e, t);
    forall a, b | a in e' && b in e' && a <= b
      ensures a == b
    {
      assert Read(e', a).Some? && Read(e', b).Some?;
      if a !in updates {
        EntryLength(c, hidden, t, e, full, n, a);
      }
      if b !in updates {
        EntryLength(c, hidden, t, e, full, n, b);
      }
    }
  }

  lemma {:induction false} FillableFrom(c: Codec, hidden: Hash -> Tree, t: Tree)
    requires Canonical(t) || t.TEmpty?
    requires forall p, h :: At(t, p) == Some(Subtree(h)) ==> Good(c, hidden, h)
    ensures Fillable(c, hidden, t)
  {
    match t
    case TEmpty =>
    case TLeaf(_, _) =>
    case Opaque(h) =>
      assert At(t, []) == Some(Subtree(h));
    case TExtension(key, child) =>
      forall q, h | At(child, q) == Some(Subtree(h))
        ensures Good(c, hidden, h)
      {
        assert (key + q)[|key|..] == q;
        assert At(t, key + q) == Some(Subtree(h));
      }
      FillableFrom(c, hidden, child);
    case TBranch(children) =>
      forall i | 0 <= i < 16
        ensures Fillable(c, hidden, children[i])
      {
        forall q, h | At(children[i], q) == Some(Subtree(h))
          ensures Good(c, hidden, h)
        {
          assert ([i] + q)[1..] == q;
          assert At(t, [i] + q) == Some(Subtree(h));
        }
        FillableFrom(c, hidden, children[i]);
      }
  }

  lemma {:induction false} UpdatedFillable(c: Codec, hidden: Hash -> Tree, e: Entries, e': Entries, updates: Updates, t': Tree)
    requires forall p :: p in e && e[p].Subtree? ==> Good(c, hidden, e[p].hash)
    requires Updated(e, updates, e') && ChildSound(e', t')
    ensures Fillable(c, hidden, t')
  {
    forall p, h | At(t', p) == Some(Subtree(h))
      ensures Good(c, hidden, h)
    {
      assert Read(e', p) == At(t', p);
      assert p in e && e[p] == Subtree(h);
    }
    FillableFrom(c, hidden, t');
  }

  /** What updating the revealed part and updating the full trie lead to. */
  ghost predicate UpdatedPart(c: Codec, hidden: Hash -> Tree, t: Tree, full: Entries, u: Tree) {
    && Fillable(c, hidden, t) && (Canonical(t) || t.TEmpty?)
    && Represents(full, Fill(t, hidden))
    && ChildSound(full, u) && Composes(full, u) && Whole(u)
  }

  lemma {:induction false} UpdateBoth(c: Codec, hidden: Hash -> Tree, t: Tree, e: Entries, full: Entries, n: nat,
                                      updates: Updates, e': Entries, full': Entries)
    requires PartOf(c, hidden, t, e, full, n)
    requires Outside(e, updates) && forall k :: k in updates ==> |k| == n
    requires Updated(e, updates, e') && Updated(full, updates, full')
    ensures PrefixFree(e') && PrefixFree(full')
    ensures UpdatedPart(c, hidden, Compose(e'), full', Compose(full'))
  {
    UpdatePrefixFree(c, hidden, t, e, full, n, updates, e');
    UpdateKeyed(full, full', updates, n);
    var t', u := Compose(e'), Compose(full');
    ComposesSound(e', t');
    ComposesSound(full', u);
    UpdatedFillable(c, hidden, e, e', updates, t');
    LeavesWhole(full', u);
    forall k {:trigger Read(full', k)}
      ensures Read(full', k) == At(Fill(t', hidden), k)
    {
      UpdateReads(t, t', hidden, e, e', updates, k);
      assert Read(full, k) == At(Fill(t, hidden), k);
    }
  }

  /** Nothing to merge: the roots are the same. */
  lemma {:induction false} RootsMatch(c: Codec, hidden: Hash -> Tree, t: Tree, full: Entries, u: Tree)
    requires UpdatedPart(c, hidden, t, full, u) && Unmerged(t, hidden)
    ensures RootHash(c, t) == RootHash(c, u)
  {
    var f := Fill(t, hidden);
    FillRef(c, hidden, t);
    if t.TEmpty? {
      NoEntries(full);
    } else {
      FillCanonical(c, hidden, t);
      Rebuilds(f, full);
      ComposesUnique(full, f, u);
    }
  }

  /** Something to merge: the roots differ. */
  lemma {:induction false} RootsDiffer(c: Codec, hidden: Hash -> Tree, t: Tree, full: Entries, u: Tree)
    requires Injective(c) && UpdatedPart(c, hidden, t, full, u) && !Unmerged(t, hidden)
    ensures RootHash(c, t) != RootHash(c, u)
  {
    var f := Fill(t, hidden);
    FillRef(c, hidden, t);
    FillCanonical(c, hidden, t);
    if RootHash(c, t) == RootHash(c, u) {
      EncodeInjective(c, f, u);
    }
  }

  /**
   The root recomputed from the revealed part is the root of the updated full trie if and only if no
   extension was left above a hidden leaf or extension.
   */
  lemma {:induction false} RecomputedRootExact(c: Codec, hidden: Hash -> Tree, t: Tree, e: Entries, full: Entries, n: nat,
                                               updates: Updates, e': Entries, full': Entries)
    requires Injective(c) && PartOf(c, hidden, t, e, full, n)
    requires Outside(e, updates) && forall k :: k in updates ==> |k| == n
    requires Updated(e, updates, e') && Updated(full, updates, full')
    ensures PrefixFree(e') && PrefixFree(full')
    ensures RootHash(c, Compose(e')) == RootHash(c, Compose(full')) <==> Unmerged(Compose(e'), hidden)
  {
    UpdateBoth(c, hidden, t, e, full, n, updates, e', full');
    if Unmerged(Compose(e'), hidden) {
      RootsMatch(c, hidden, Compose(e'), full', Compose(full'));
    } else {
      RootsDiffer(c, hidden, Compose(e'), full', Compose(full'));
    }
  }

  /** A full trie built from leaves hides nothing. */
  lemma {:induction false} LeavesWhole(full: Entries, u: Tree)
    requires Canonical(u) || u.TEmpty?
    requires Represents(full, u) && forall k :: k in full ==> full[k].LeafEntry?
    ensures Whole(u)
  {
    forall p, h
      ensures At(u, p) != Some(Subtree(h))
    {
      assert Read(full, p) == At(u, p);
    }
    NothingHidden(u);
  }

  lemma {:induction false} NothingHidden(t: Tree)
    requires Canonical(t) || t.TEmpty?
    requires forall p, h :: At(t, p) != Some(Subtree(h))
    ensures Whole(t)
  {
    match t
    case TEmpty =>
    case TLeaf(_, _) =>
    case Opaque(h) =>
      assert At(t, []) == Some(Subtree(h));
    case TExtension(key, child) =>
      forall q, h
        ensures At(child, q) != Some(Subtree(h))
      {
        assert (key + q)[|key|..] == q;
        assert At(t, key + q) == At(child, q);
      }
      NothingHidden(child);
    case TBranch(children) =>
      forall i | 0 <= i < 16
        ensures Whole(children[i])
      {
        forall q, h
          ensures At(children[i], q) != Some(Subtree(h))
        {
          assert ([i] + q)[1..] == q;
          assert At(t, [i] + q) == At(children[i], q);
        }
        NothingHidden(children[i]);
      }
  }
}
