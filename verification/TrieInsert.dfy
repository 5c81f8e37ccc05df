/**
 Updates that only set values.  They can never leave an extension above a hidden subtree that could be merged
 with it, so the recomputed root is right; a deletion beside a hidden leaf shows that deletions can.
 */
module TrieInsert {
  import opened Words
  import opened Trie
  import opened TrieReaders
  import opened TrieRebuild
  import opened TrieRoot
  import opened TrieUpdate

  // ------------------------------------------------------------------ subtrees by path

  /** The canonical tree of what lies below the nibble `i`. */
  ghost function Down(t: Tree, i: Nibble): Tree {
    match t
    case TEmpty => TEmpty
    case TLeaf(key, value) => if key != [] && key[0] == i then TLeaf(key[1..], value) else TEmpty
    case TExtension(key, child) =>
      if key == [] || key[0] != i then TEmpty else if |key| == 1 then child else TExtension(key[1..], child)
    case TBranch(children) => if i < |children| then children[i] else TEmpty
    case Opaque(_) => TEmpty
  }

  ghost predicate Sound(t: Tree) {
    Canonical(t) || t.TEmpty?
  }

  lemma {:induction false} DownAt(t: Tree, i: Nibble, q: Path)
    requires Sound(t)
    ensures At(Down(t, i), q) == At(t, [i] + q)
  {
    var k := [i] + q;
    assert k[1..] == q;
    match t
    case TEmpty =>
    case Opaque(_) =>
    case TBranch(_) =>
    case TLeaf(key, _) =>
      if key != [] && key[0] == i {
        assert key == [i] + key[1..];
      }
    case TExtension(key, child) =>
      if key[0] == i {
        assert key == [i] + key[1..];
        assert key <= k <==> key[1..] <= q;
        if key <= k {
          assert k[|key|..] == q[|key| - 1..];
        }
      }
  }

  lemma {:induction false} DownSound(e: Entries, t: Tree, i: Nibble, hidden: Hash -> Tree)
    requires ChildSound(e, t) && Unmerged(t, hidden)
    ensures ChildSound(Strip(e, [i]), Down(t, i)) && Unmerged(Down(t, i), hidden)
  {
    var sub, d := Strip(e, [i]), Down(t, i);
    forall q {:trigger Read(sub, q)}
      ensures Read(sub, q) == At(d, q)
    {
      InStrip(e, [i], q);
      assert Read(e, [i] + q) == At(t, [i] + q);
      DownAt(t, i, q);
    }
    EmptyAlike(sub, d);
  }

  lemma {:induction false} EmptyAlike(e: Entries, t: Tree)
    requires Represents(e, t) && Sound(t)
    ensures ChildSound(e, t)
  {
    if t.TEmpty? {
      NoEntries(e);
    } else {
      var k := HasEntry(t);
      assert Read(e, k) == At(t, k);
    }
  }

  ghost function DownPath(t: Tree, p: Path): Tree
    decreases |p|
  {
    if p == [] then t else DownPath(Down(t, p[0]), p[1..])
  }

  lemma {:induction false} StripTwice(e: Entries, p: Path, q: Path)
    ensures Strip(Strip(e, p), q) == Strip(e, p + q)
  {
    var a, b := Strip(Strip(e, p), q), Strip(e, p + q);
    forall k
      ensures k in a <==> k in b
      ensures k in a && k in b ==> a[k] == b[k]
    {
      assert p + (q + k) == p + q + k;
      InStrip(Strip(e, p), q, k);
      InStrip(e, p, q + k);
      InStrip(e, p + q, k);
      assert Read(a, k) == Read(b, k);
    }
  }

  lemma {:induction false} StripNothing(e: Entries)
    ensures Strip(e, []) == e
  {
    var a := Strip(e, []);
    forall k
      ensures k in a <==> k in e
      ensures k in a && k in e ==> a[k] == e[k]
    {
      InStrip(e, [], k);
      assert [] + k == k;
      assert Read(a, k) == Read(e, k);
    }
  }

  lemma {:induction false} DownPathSound(e: Entries, t: Tree, p: Path, hidden: Hash -> Tree)
    requires ChildSound(e, t) && Unmerged(t, hidden)
    ensures ChildSound(Strip(e, p), DownPath(t, p)) && Unmerged(DownPath(t, p), hidden)
    decreases |p|
  {
    if p == [] {
      StripNothing(e);
    } else {
      DownSound(e, t, p[0], hidden);
      DownPathSound(Strip(e, [p[0]]), Down(t, p[0]), p[1..], hidden);
      StripTwice(e, [p[0]], p[1..]);
      assert [p[0]] + p[1..] == p;
    }
  }

  // ------------------------------------------------------------------ growing entries

  /** No entry goes away, and no hidden subtree appears or changes. */
  ghost predicate Grows(e: Entries, e': Entries) {
    && (forall k {:trigger Read(e, k)} :: Read(e, k).Some? ==> Read(e', k).Some?)
    && (forall k {:trigger Read(e', k)} :: Read(e', k).Some? && Read(e', k).value.Subtree? ==> Read(e, k) == Read(e', k))
  }

  lemma {:induction false} GrowsBelow(e: Entries, e': Entries, p: Path)
    requires Grows(e, e')
    ensures Grows(Strip(e, p), Strip(e', p))
  {
    forall k {:trigger Read(Strip(e, p), k)}
      ensures Read(Strip(e, p), k).Some? ==> Read(Strip(e', p), k).Some?
    {
      InStrip(e, p, k);
      InStrip(e', p, k);
    }
    forall k {:trigger Read(Strip(e', p), k)}
      ensures Read(Strip(e', p), k).Some? && Read(Strip(e', p), k).value.Subtree? ==>
                Read(Strip(e, p), k) == Read(Strip(e', p), k)
    {
      InStrip(e, p, k);
      InStrip(e', p, k);
    }
  }

  /** A single hidden subtree was there before, alone. */
  lemma {:induction false} SingleHidden(e: Entries, t: Tree, e': Entries, t': Tree)
    requires ChildSound(e, t) && ChildSound(e', t') && Grows(e, e')
    requires t'.TExtension? && t'.child.Opaque?
    ensures t == t'
  {
    var key := t'.key;
    SingleEntry(e', t', key);
    assert Read(e', key) == Some(Subtree(t'.child.hash));
    assert Read(e, key) == Read(e', key);
    forall k
      ensures k in e <==> k in e'
      ensures k in e && k in e' ==> e[k] == e'[k]
    {
      assert Read(e, k).Some? ==> Read(e', k).Some?;
    }
    assert e == e';
    Rebuilds(t', e);
    Rebuilds(t, e);
    ComposesUnique(e, t, t');
  }

  /** Growing entries leave nothing to merge where there was nothing to merge. */
  lemma {:induction false} GrowthUnmerged(e: Entries, t: Tree, e': Entries, t': Tree, hidden: Hash -> Tree)
    requires ChildSound(e, t) && ChildSound(e', t') && Grows(e, e') && Unmerged(t, hidden)
    ensures Unmerged(t', hidden)
    decreases t'
  {
    match t'
    case TEmpty =>
    case TLeaf(_, _) =>
    case Opaque(_) =>
    case TExtension(key, child) =>
      if child.Opaque? {
        SingleHidden(e, t, e', t');
      } else {
        DownPathSound(e, t, key, hidden);
        GrowsBelow(e, e', key);
        StripExtension(e', t');
        EmptyAlike(Strip(e', key), child);
        GrowthUnmerged(Strip(e, key), DownPath(t, key), Strip(e', key), child, hidden);
      }
    case TBranch(children) =>
      forall i | 0 <= i < 16
        ensures Unmerged(children[i], hidden)
      {
        DownSound(e, t, i, hidden);
        GrowsBelow(e, e', [i]);
        StripChild(e', t', i);
        EmptyAlike(Strip(e', [i]), children[i]);
        GrowthUnmerged(Strip(e, [i]), Down(t, i), Strip(e', [i]), children[i], hidden);
      }
  }

  // ------------------------------------------------------------------ the part of a canonical trie

  /** The revealed part of a canonical trie is canonical itself, and has nothing to merge. */
  lemma {:induction false} PartSound(c: Codec, hidden: Hash -> Tree, t: Tree)
    requires Sound(Fill(t, hidden))
    requires forall p, h :: At(t, p) == Some(Subtree(h)) ==> Good(c, hidden, h)
    ensures Sound(t) && Unmerged(t, hidden)
    ensures t.TEmpty? <==> Fill(t, hidden).TEmpty?
    decreases t, 1
  {
    match t
    case TEmpty =>
    case TLeaf(_, _) =>
    case Opaque(h) =>
      assert At(t, []) == Some(Subtree(h));
    case TExtension(key, child) =>
      forall q, h | At(child, q) == Some(Subtree(h))
        ensures Good(c, hidden, h)
      {
        assert (key + q)[|key|..] == q;
        assert At(t, key + q) == Some(Subtree(h));
      }
      PartSound(c, hidden, child);
      if child.Opaque? {
        assert At(child, []) == Some(Subtree(child.hash));
      }
    case TBranch(children) => PartSoundBranch(c, hidden, t);
  }

  lemma {:induction false} PartSoundBranch(c: Codec, hidden: Hash -> Tree, t: Tree)
    requires t.TBranch? && Canonical(Fill(t, hidden))
    requires forall p, h :: At(t, p) == Some(Subtree(h)) ==> Good(c, hidden, h)
    ensures Canonical(t) && Unmerged(t, hidden)
    decreases t, 0
  {
    var children, f := t.children, Fill(t, hidden).children;
    forall i | 0 <= i < 16
      ensures Sound(children[i]) && Unmerged(children[i], hidden) && (children[i].TEmpty? <==> f[i].TEmpty?)
    {
      forall q, h | At(children[i], q) == Some(Subtree(h))
        ensures Good(c, hidden, h)
      {
        assert ([i] + q)[1..] == q;
        assert At(t, [i] + q) == Some(Subtree(h));
      }
      assert f[i] == Fill(children[i], hidden);
      PartSound(c, hidden, children[i]);
    }
    var i, j :| 0 <= i < j < 16 && !f[i].TEmpty? && !f[j].TEmpty?;
    assert !children[i].TEmpty? && !children[j].TEmpty?;
  }

  // ------------------------------------------------------------------ results

  /** Every update sets a value: nothing is deleted. */
  ghost predicate NoDeletion(updates: Updates) {
    forall k :: k in updates ==> updates[k].Some?
  }

  /**
   Without deletions, the root recomputed from a witness of a canonical trie is the root of the updated full
   trie.
   */
  lemma {:induction false} InsertionsExact(c: Codec, hidden: Hash -> Tree, t: Tree, e: Entries, full: Entries, n: nat,
                                           updates: Updates, e': Entries, full': Entries)
    requires PartOf(c, hidden, t, e, full, n) && Sound(Fill(t, hidden))
    requires Outside(e, updates) && NoDeletion(updates) && forall k :: k in updates ==> |k| == n
    requires Updated(e, updates, e') && Updated(full, updates, full')
    ensures PrefixFree(e') && PrefixFree(full')
    ensures RootHash(c, Compose(e')) == RootHash(c, Compose(full'))
  {
    UpdateBoth(c, hidden, t, e, full, n, updates, e', full');
    InsertionsUnmerged(c, hidden, t, e, updates, e', Compose(e'));
    RootsMatch(c, hidden, Compose(e'), full', Compose(full'));
  }

  /** Some extension of the tree lies directly above the subtree hidden behind `h`. */
  ghost predicate Extended(t: Tree, h: Hash) {
    match t
    case TEmpty => false
    case TLeaf(_, _) => false
    case TExtension(_, child) => if child.Opaque? then child.hash == h else Extended(child, h)
    case TBranch(children) => exists i :: 0 <= i < |children| && Extended(children[i], h)
    case Opaque(_) => false
  }

  lemma {:induction false} UnmergedExactly(t: Tree, hidden: Hash -> Tree)
    ensures Unmerged(t, hidden) <==> forall h :: Extended(t, h) ==> hidden(h).TBranch?
  {
    match t
    case TEmpty =>
    case TLeaf(_, _) =>
    case Opaque(_) =>
    case TExtension(_, child) =>
      if child.Opaque? {
        assert Extended(t, child.hash);
      } else {
        UnmergedExactly(child, hidden);
        assert forall h :: Extended(t, h) <==> Extended(child, h);
      }
    case TBranch(children) =>
      forall i | 0 <= i < |children|
        ensures Unmerged(children[i], hidden) <==> forall h :: Extended(children[i], h) ==> hidden(h).TBranch?
      {
        UnmergedExactly(children[i], hidden);
      }
      forall i, h | 0 <= i < |children| && Extended(children[i], h)
        ensures Extended(t, h)
      {
      }
  }

  /** Every extension above a hidden subtree was above it before; a caller sees both tries. */
  ghost predicate NothingNewExtended(t: Tree, t': Tree) {
    forall h :: Extended(t', h) ==> Extended(t, h)
  }

  /**
   Deletions included: when no extension has come to lie above a hidden subtree that had none before, the root
   recomputed from a witness of a canonical trie is the root of the updated full trie.
   */
  lemma {:induction false} VisiblyExact(c: Codec, hidden: Hash -> Tree, t: Tree, e: Entries, full: Entries, n: nat,
                                        updates: Updates, e': Entries, full': Entries)
    requires PartOf(c, hidden, t, e, full, n) && Sound(Fill(t, hidden))
    requires Outside(e, updates) && forall k :: k in updates ==> |k| == n
    requires Updated(e, updates, e') && Updated(full, updates, full')
    requires PrefixFree(e') ==> NothingNewExtended(t, Compose(e'))
    ensures PrefixFree(e') && PrefixFree(full')
    ensures RootHash(c, Compose(e')) == RootHash(c, Compose(full'))
  {
    UpdateBoth(c, hidden, t, e, full, n, updates, e', full');
    HiddenGood(c, hidden, t, e);
    PartSound(c, hidden, t);
    UnmergedExactly(t, hidden);
    UnmergedExactly(Compose(e'), hidden);
    RootsMatch(c, hidden, Compose(e'), full', Compose(full'));
  }

  lemma {:induction false} HiddenGood(c: Codec, hidden: Hash -> Tree, t: Tree, e: Entries)
    requires Represents(e, t) && forall p :: p in e && e[p].Subtree? ==> Good(c, hidden, e[p].hash)
    ensures forall p, h :: At(t, p) == Some(Subtree(h)) ==> Good(c, hidden, h)
  {
    forall p, h | At(t, p) == Some(Subtree(h))
      ensures Good(c, hidden, h)
    {
      assert Read(e, p) == At(t, p);
    }
  }

  lemma {:induction false} InsertionsUnmerged(c: Codec, hidden: Hash -> Tree, t: Tree, e: Entries, updates: Updates,
                                              e': Entries, t': Tree)
    requires Represents(e, t) && Sound(Fill(t, hidden)) && NoDeletion(updates) && Outside(e, updates)
    requires forall p :: p in e && e[p].Subtree? ==> Good(c, hidden, e[p].hash)
    requires Updated(e, updates, e') && Composes(e', t')
    ensures Unmerged(t', hidden)
  {
    HiddenGood(c, hidden, t, e);
    PartSound(c, hidden, t);
    EmptyAlike(e, t);
    ComposesSound(e', t');
    InsertionsGrow(e, updates, e');
    GrowthUnmerged(e, t, e', t', hidden);
  }

  lemma {:induction false} InsertionsGrow(e: Entries, updates: Updates, e': Entries)
    requires NoDeletion(updates) && Updated(e, updates, e')
    ensures Grows(e, e')
  {
    forall k {:trigger Read(e, k)}
      ensures Read(e, k).Some? ==> Read(e', k).Some?
    {
      assert Read(e', k) == if k in updates then Written(updates[k]) else Read(e, k);
    }
  }

  /**
   Recomputing the root of an updated trie, from the proof nodes of a witness to the root of the full trie.
   The ghost parameters say what the witness hides and what the full trie holds before and after.
   */
  method RecomputeUpdatedRoot(c: Codec, build: Entries -> Hash, ghost rank: Hash -> nat, root: Hash, nodes: seq<Node>,
                              updates: Updates, ghost hidden: Hash -> Tree, ghost e: Entries, ghost full: Entries,
                              ghost n: nat, ghost e': Entries, ghost full': Entries)
    returns (r: Option<Hash>)
    requires BuildsRoots(c, build) && Acyclic(ByHash(c, nodes), rank)
    requires root == c.hash(EmptyRoot) || root in ByHash(c, nodes)
    requires PartOf(c, hidden, Revealed(c, ByHash(c, nodes), rank, root), e, full, n)
    requires Outside(e, updates) && forall k :: k in updates ==> |k| == n
    requires Updated(e, updates, e') && Updated(full, updates, full')
    ensures PrefixFree(e') && PrefixFree(full')
    ensures var t := Revealed(c, ByHash(c, nodes), rank, root);
            Sound(Fill(t, hidden)) && (NoDeletion(updates) || NothingNewExtended(t, Compose(e'))) ==>
              r == Some(RootHash(c, Compose(full')))
    ensures Injective(c) ==> (r == Some(RootHash(c, Compose(full'))) <==> Unmerged(Compose(e'), hidden))
  {
    r := RecomputeRoot(c, build, rank, root, nodes, updates);
    ghost var t := Revealed(c, ByHash(c, nodes), rank, root);
    UpdateBoth(c, hidden, t, e, full, n, updates, e', full');
    if Sound(Fill(t, hidden)) && NoDeletion(updates) {
      InsertionsExact(c, hidden, t, e, full, n, updates, e', full');
    }
    if Sound(Fill(t, hidden)) && NothingNewExtended(t, Compose(e')) {
      VisiblyExact(c, hidden, t, e, full, n, updates, e', full');
    }
    if Injective(c) {
      RecomputedRootExact(c, hidden, t, e, full, n, updates, e', full');
    }
  }

  // ------------------------------------------------------------------ a merge that is missed

  /** Two leaves below a branch, the second of them hidden. */
  ghost function HalfHidden(x: Path, a: Value, h: Hash): Tree {
    TBranch(seq(16, i => if i == 0 then TLeaf(x, a) else if i == 1 then Opaque(h) else TEmpty))
  }

  lemma {:induction false} HalfHiddenAt(x: Path, a: Value, h: Hash, k: Path)
    ensures At(HalfHidden(x, a, h), k) == if k == [0] + x then Some(LeafEntry(a)) else if k == [1] then Some(Subtree(h)) else None
  {
    if k != [] {
      assert k == [k[0]] + k[1..];
    }
  }

  ghost function HiddenLeaf(y: Path, b: Value): Hash -> Tree {
    _ => TLeaf(y, b)
  }

  lemma {:induction false} FilledChild(x: Path, a: Value, h: Hash, y: Path, b: Value, i: Nibble)
    ensures var f := Fill(HalfHidden(x, a, h), HiddenLeaf(y, b));
            f.TBranch? && |f.children| == 16
            && f.children[i] == if i == 0 then TLeaf(x, a) else if i == 1 then TLeaf(y, b) else TEmpty
  {
    var t, hidden := HalfHidden(x, a, h), HiddenLeaf(y, b);
    assert Fill(t, hidden).children[i] == Fill(t.children[i], hidden);
  }

  lemma {:induction false} HalfFilled(x: Path, a: Value, h: Hash, y: Path, b: Value)
    ensures Canonical(Fill(HalfHidden(x, a, h), HiddenLeaf(y, b)))
  {
    var f := Fill(HalfHidden(x, a, h), HiddenLeaf(y, b)).children;
    forall i | 0 <= i < 16
      ensures f[i] == if i == 0 then TLeaf(x, a) else if i == 1 then TLeaf(y, b) else TEmpty
    {
      FilledChild(x, a, h, y, b, i);
    }
    assert !f[0].TEmpty? && !f[1].TEmpty?;
  }

  lemma {:induction false} HalfFilledAt(x: Path, a: Value, h: Hash, y: Path, b: Value, k: Path)
    ensures At(Fill(HalfHidden(x, a, h), HiddenLeaf(y, b)), k) ==
            if k == [0] + x then Some(LeafEntry(a)) else if k == [1] + y then Some(LeafEntry(b)) else None
  {
    if k != [] {
      assert k == [k[0]] + k[1..];
      FilledChild(x, a, h, y, b, k[0]);
    }
  }

  /** Hiding one of two leaves makes a witness. */
  lemma {:induction false} HalfHiddenPart(c: Codec, x: Path, y: Path, a: Value, b: Value, e: Entries, full: Entries)
    requires |x| == |y| && !c.small(Leaf(y, b))
    requires e == map[[0] + x := LeafEntry(a), [1] := Subtree(c.hash(Leaf(y, b)))]
    requires full == map[[0] + x := LeafEntry(a), [1] + y := LeafEntry(b)]
    ensures PartOf(c, HiddenLeaf(y, b), HalfHidden(x, a, c.hash(Leaf(y, b))), e, full, |x| + 1)
  {
    var h := c.hash(Leaf(y, b));
    assert ([0] + x)[0] != [1][0] && ([0] + x)[0] != ([1] + y)[0];
    forall k {:trigger Read(e, k)}
      ensures Read(e, k) == At(HalfHidden(x, a, h), k)
    {
      HalfHiddenAt(x, a, h, k);
    }
    forall k {:trigger Read(full, k)}
      ensures Read(full, k) == At(Fill(HalfHidden(x, a, h), HiddenLeaf(y, b)), k)
    {
      HalfFilledAt(x, a, h, y, b, k);
    }
    assert Good(c, HiddenLeaf(y, b), h);
  }

  /**
   Deleting the only revealed leaf beside a hidden one, for keys of any length.  The full trie becomes a single
   leaf; the recomputation puts an extension above the hidden leaf and gets a different root.
   */
  lemma {:induction false} MissedMerge(c: Codec, x: Path, y: Path, a: Value, b: Value)
    returns (hidden: Hash -> Tree, t: Tree, e: Entries, full: Entries, updates: Updates, e': Entries, full': Entries)
    requires Injective(c) && |x| == |y| && !c.small(Leaf(y, b))
    ensures PartOf(c, hidden, t, e, full, |x| + 1) && Canonical(Fill(t, hidden))
    ensures updates == map[[0] + x := None] && Outside(e, updates)
    ensures Updated(e, updates, e') && Updated(full, updates, full')
    ensures PrefixFree(e') && PrefixFree(full') && RootHash(c, Compose(e')) != RootHash(c, Compose(full'))
  {
    var h, first, one: Path, second := c.hash(Leaf(y, b)), [0] + x, [1], [1] + y;
    hidden, t := HiddenLeaf(y, b), HalfHidden(x, a, h);
    e, full := map[first := LeafEntry(a), one := Subtree(h)], map[first := LeafEntry(a), second := LeafEntry(b)];
    HalfHiddenPart(c, x, y, a, b, e, full);
    HalfFilled(x, a, h, y, b);
    updates := map[first := None];
    e', full' := map[one := Subtree(h)], map[second := LeafEntry(b)];
    assert first[0] != one[0] && first[0] != second[0];
    assert !(one <= first);
    RootsOfSingles(c, e', one, h, full', second, b);
  }

  lemma {:induction false} RootsOfSingles(c: Codec, e: Entries, p: Path, h: Hash, full: Entries, k: Path, b: Value)
    requires Injective(c) && p != [] && e == map[p := Subtree(h)] && full == map[k := LeafEntry(b)]
    ensures PrefixFree(e) && PrefixFree(full) && RootHash(c, Compose(e)) != RootHash(c, Compose(full))
  {
    assert IsSingle(e, p) && IsSingle(full, k);
    ComposesUnique(e, TExtension(p, Opaque(h)), Compose(e));
    ComposesUnique(full, TLeaf(k, b), Compose(full));
  }
}
