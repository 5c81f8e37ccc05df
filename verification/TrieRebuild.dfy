/**
 Rebuilding a trie from its flattened entries by the recursive definition of Appendix D of the Yellow
 Paper, extended to entries that stand for a subtree known only by its hash.

 Flattening and rebuilding are inverse to each other: every canonical trie is rebuilt from its entries,
 and every prefix-free set of entries is rebuilt into the one canonical trie with exactly those entries.
 */
module TrieRebuild {
  import opened Words
  import opened Trie
  import opened TrieReaders

  /** The shape every trie has: no empty subtrees, no chains that could be merged. */
  ghost predicate Canonical(t: Tree) {
    match t
    case TEmpty => false
    case TLeaf(_, _) => true
    case TExtension(key, child) => key != [] && (child.TBranch? || child.Opaque?) && Canonical(child)
    case TBranch(children) =>
      && |children| == 16
      && (forall i :: 0 <= i < 16 ==> children[i].TEmpty? || Canonical(children[i]))
      && (exists i, j :: 0 <= i < j < 16 && !children[i].TEmpty? && !children[j].TEmpty?)
    case Opaque(_) => true
  }

  ghost predicate Represents(e: Entries, t: Tree) {
    forall k {:trigger Read(e, k)} :: Read(e, k) == At(t, k)
  }

  ghost predicate PrefixFree(e: Entries) {
    forall a, b :: a in e && b in e && a <= b ==> a == b
  }

  ghost predicate IsStrip(e: Entries, p: Path, r: Entries) {
    forall q {:trigger Read(r, q)} :: Read(r, q) == Read(e, p + q)
  }

  /** The entries below the path `p`, with `p` taken off. */
  ghost function Strip(e: Entries, p: Path): (r: Entries)
    ensures IsStrip(e, p, r)
  {
    StripExists(e, p);
    var r :| IsStrip(e, p, r);
    r
  }

  lemma {:induction false} StripExists(e: Entries, p: Path)
    ensures exists r :: IsStrip(e, p, r)
  {
    var keys := set k | k in e.Keys && p <= k :: k[|p|..];
    assert forall k: Path :: k in e && p <= k ==> p + k[|p|..] == k;
    var r: Entries := map q | q in keys :: e[p + q];
    assert forall q: Path :: p + q in e ==> p <= p + q && (p + q)[|p|..] == q;
    assert IsStrip(e, p, r);
  }

  ghost predicate IsSingle(e: Entries, k: Path) {
    k in e && forall x :: x in e ==> x == k
  }

  ghost predicate Several(e: Entries) {
    e != map[] && !(exists k :: IsSingle(e, k))
  }

  // ------------------------------------------------------------------ common prefixes

  ghost predicate Common(e: Entries, p: Path) {
    forall k :: k in e ==> p <= k
  }

  ghost predicate LongestCommon(e: Entries, p: Path) {
    Common(e, p) && forall q :: Common(e, q) ==> |q| <= |p|
  }

  /** Extends a common prefix as far as it goes. */
  lemma {:induction false} LongestExists(e: Entries, p: Path, k: Path) returns (longest: Path)
    requires k in e && Common(e, p)
    ensures LongestCommon(e, longest)
    decreases |k| - |p|
  {
    if q :| Common(e, q) && |p| < |q| {
      longest := LongestExists(e, q, k);
    } else {
      longest := p;
    }
  }

  lemma {:induction false} LongestUnique(e: Entries, p: Path, q: Path)
    requires e != map[] && LongestCommon(e, p) && LongestCommon(e, q)
    ensures p == q
  {
    var k :| k in e;
    assert p <= k && q <= k;
    assert p == k[..|p|] && q == k[..|q|];
  }

  // ------------------------------------------------------------------ the recursive definition

  /**
   `t` is what the recursive definition builds from the entries: a single entry becomes a leaf, or the
   hashed subtree it stands for below an extension; several entries that share a prefix become an
   extension; several that do not become a branch.
   */
  ghost predicate Composes(e: Entries, t: Tree)
    decreases t
  {
    match t
    case TEmpty => e == map[]
    case TLeaf(key, value) => IsSingle(e, key) && e[key] == LeafEntry(value)
    case Opaque(h) => IsSingle(e, []) && e[[]] == Subtree(h)
    case TExtension(key, child) =>
      && key != []
      && if child.Opaque? then IsSingle(e, key) && e[key] == Subtree(child.hash)
         else Several(e) && LongestCommon(e, key) && Composes(Strip(e, key), child)
    case TBranch(children) =>
      && |children| == 16
      && Several(e) && [] !in e && LongestCommon(e, [])
      && forall i :: 0 <= i < 16 ==> Composes(Strip(e, [i]), children[i])
  }

  /** The recursive definition builds at most one trie. */
  lemma {:induction false} ComposesUnique(e: Entries, t: Tree, u: Tree)
    requires Composes(e, t) && Composes(e, u)
    ensures t == u
    decreases t
  {
    match t
    case TEmpty =>
    case TLeaf(key, value) =>
    case Opaque(h) =>
    case TExtension(key, child) =>
      if !child.Opaque? {
        assert !u.TLeaf? && !u.Opaque? && !u.TEmpty?;
        LongestUnique(e, key, if u.TExtension? then u.key else []);
        ComposesUnique(Strip(e, key), child, u.child);
      }
    case TBranch(children) =>
      if u.TExtension? {
        LongestUnique(e, u.key, []);
      }
      assert u.TBranch?;
      forall i | 0 <= i < 16
        ensures children[i] == u.children[i]
      {
        ComposesUnique(Strip(e, [i]), children[i], u.children[i]);
      }
  }

  // ------------------------------------------------------------------ flatten, then rebuild

  /** A canonical tree has an entry. */
  lemma {:induction false} HasEntry(t: Tree) returns (k: Path)
    requires Canonical(t)
    ensures At(t, k).Some?
  {
    match t
    case TLeaf(key, _) => k := key;
    case TExtension(key, child) =>
      var q := HasEntry(child);
      k := key + q;
      assert k[|key|..] == q;
    case TBranch(children) =>
      var i, j :| 0 <= i < j < 16 && !children[i].TEmpty? && !children[j].TEmpty?;
      var q := HasEntry(children[i]);
      k := [i] + q;
      assert k[1..] == q;
    case Opaque(_) => k := [];
  }

  /** A canonical branch has entries that part at the first nibble. */
  lemma {:induction false} BranchParts(t: Tree) returns (a: Path, b: Path)
    requires t.TBranch? && Canonical(t)
    ensures At(t, a).Some? && At(t, b).Some? && a != [] && b != [] && a[0] != b[0]
  {
    var i, j :| 0 <= i < j < 16 && !t.children[i].TEmpty? && !t.children[j].TEmpty?;
    var q := HasEntry(t.children[i]);
    var r := HasEntry(t.children[j]);
    a, b := [i] + q, [j] + r;
    assert a[1..] == q && b[1..] == r;
  }

  /** Entries that part right after the path `p` have `p` as their longest common prefix. */
  lemma {:induction false} PrefixIs(e: Entries, p: Path, a: Path, b: Path)
    requires Common(e, p) && a in e && b in e
    requires |p| < |a| && |p| < |b| && a[|p|] != b[|p|]
    ensures LongestCommon(e, p) && Several(e)
  {
    forall q | Common(e, q)
      ensures |q| <= |p|
    {
      assert q <= a && q <= b;
    }
  }

  lemma {:induction false} StripExtension(e: Entries, t: Tree)
    requires t.TExtension? && Represents(e, t)
    ensures Represents(Strip(e, t.key), t.child)
  {
    forall q {:trigger Read(Strip(e, t.key), q)}
      ensures Read(Strip(e, t.key), q) == At(t.child, q)
    {
      assert Read(Strip(e, t.key), q) == Read(e, t.key + q) == At(t, t.key + q);
      assert (t.key + q)[|t.key|..] == q;
    }
  }

  lemma {:induction false} StripChild(e: Entries, t: Tree, i: Nibble)
    requires t.TBranch? && i < |t.children| && Represents(e, t)
    ensures Represents(Strip(e, [i]), t.children[i])
  {
    forall q {:trigger Read(Strip(e, [i]), q)}
      ensures Read(Strip(e, [i]), q) == At(t.children[i], q)
    {
      assert Read(Strip(e, [i]), q) == Read(e, [i] + q) == At(t, [i] + q);
      assert ([i] + q)[1..] == q;
    }
  }

  /** A canonical trie is built from the entries it flattens to. */
  lemma {:induction false} Rebuilds(t: Tree, e: Entries)
    requires Canonical(t) && Represents(e, t)
    ensures Composes(e, t)
    decreases t
  {
    if t.TBranch? {
      BranchEntries(t, e);
      forall i | 0 <= i < 16
        ensures Composes(Strip(e, [i]), t.children[i])
      {
        StripChild(e, t, i);
        if t.children[i].TEmpty? {
          NoEntries(Strip(e, [i]));
        } else {
          Rebuilds(t.children[i], Strip(e, [i]));
        }
      }
    } else if t.TExtension? && t.child.TBranch? {
      var a, b := ExtensionParts(t, e);
      PrefixIs(e, t.key, a, b);
      StripExtension(e, t);
      Rebuilds(t.child, Strip(e, t.key));
    } else {
      SingleEntry(e, t, if t.Opaque? then [] else t.key);
    }
  }

  lemma {:induction false} BranchEntries(t: Tree, e: Entries)
    requires t.TBranch? && Canonical(t) && Represents(e, t)
    ensures Several(e) && [] !in e && LongestCommon(e, [])
  {
    var a, b := BranchParts(t);
    assert Read(e, a) == At(t, a) && Read(e, b) == At(t, b) && Read(e, []) == At(t, []);
    PrefixIs(e, [], a, b);
  }

  /** Trees of one entry: a leaf, a hashed subtree, or an extension to one. */
  lemma {:induction false} SingleEntry(e: Entries, t: Tree, key: Path)
    requires Represents(e, t)
    requires || (t.TLeaf? && key == t.key)
             || (t.Opaque? && key == [])
             || (t.TExtension? && t.child.Opaque? && key == t.key)
    ensures IsSingle(e, key)
    ensures e[key] == if t.TLeaf? then LeafEntry(t.value) else Subtree(if t.Opaque? then t.hash else t.child.hash)
  {
    forall k
      ensures k in e <==> k == key
      ensures k == key ==> At(t, k) == Read(e, k)
    {
      assert Read(e, k) == At(t, k);
      if t.TExtension? && t.key <= k {
        assert k == t.key + k[|t.key|..];
      }
    }
    assert Read(e, key) == At(t, key);
  }

  lemma {:induction false} NoEntries(e: Entries)
    requires Represents(e, TEmpty)
    ensures e == map[]
  {
    forall k
      ensures k !in e
    {
      assert Read(e, k) == None;
    }
  }

  lemma {:induction false} ExtensionParts(t: Tree, e: Entries) returns (a: Path, b: Path)
    requires t.TExtension? && t.child.TBranch? && Canonical(t) && Represents(e, t)
    ensures Common(e, t.key) && [] !in e && a in e && b in e
    ensures |t.key| < |a| && |t.key| < |b| && a[|t.key|] != b[|t.key|]
  {
    var key := t.key;
    var x, y := BranchParts(t.child);
    a, b := key + x, key + y;
    EntryBelow(t, e, x);
    EntryBelow(t, e, y);
    forall k | k in e
      ensures key <= k
    {
      assert Read(e, k) == At(t, k);
    }
  }

  lemma {:induction false} EntryBelow(t: Tree, e: Entries, q: Path)
    requires t.TExtension? && Represents(e, t) && At(t.child, q).Some?
    ensures t.key + q in e
  {
    assert (t.key + q)[|t.key|..] == q;
    assert Read(e, t.key + q) == At(t, t.key + q);
  }

  /** The entries of a tree never lie below one another. */
  lemma {:induction false} EntriesApart(t: Tree, a: Path, b: Path)
    requires At(t, a).Some? && At(t, b).Some? && a <= b
    ensures a == b
  {
    match t
    case TLeaf(_, _) =>
    case Opaque(_) =>
    case TExtension(key, child) =>
      EntriesApart(child, a[|key|..], b[|key|..]);
      assert a == key + a[|key|..] && b == key + b[|key|..];
    case TBranch(children) =>
      EntriesApart(children[a[0]], a[1..], b[1..]);
      assert a == [a[0]] + a[1..] && b == [b[0]] + b[1..];
  }

  lemma {:induction false} RepresentedPrefixFree(e: Entries, t: Tree)
    requires Represents(e, t)
    ensures PrefixFree(e)
  {
    forall a, b | a in e && b in e && a <= b
      ensures a == b
    {
      assert Read(e, a) == At(t, a) && Read(e, b) == At(t, b);
      EntriesApart(t, a, b);
    }
  }

  // ------------------------------------------------------------------ rebuild, then flatten

  /** What the recursive definition builds is canonical and has exactly the given entries. */
  lemma {:induction false} ComposesSound(e: Entries, t: Tree)
    requires Composes(e, t)
    ensures ChildSound(e, t)
    decreases t
  {
    match t
    case TEmpty =>
    case TLeaf(key, _) => SingleSound(e, key, t);
    case Opaque(_) => SingleSound(e, [], t);
    case TExtension(key, child) =>
      if child.Opaque? {
        SingleSound(e, key, t);
      } else {
        ComposesSound(Strip(e, key), child);
        ExtensionSound(e, t);
      }
    case TBranch(children) =>
      forall i | 0 <= i < 16
        ensures ChildSound(Strip(e, [i]), children[i])
      {
        ComposesSound(Strip(e, [i]), children[i]);
      }
      BranchRepresents(e, t);
      BranchCanonical(e, t);
  }

  /** A child slot: empty without entries, otherwise a canonical trie with those entries. */
  ghost predicate ChildSound(e: Entries, t: Tree) {
    Represents(e, t) && if e == map[] then t.TEmpty? else Canonical(t)
  }

  lemma {:induction false} SingleSound(e: Entries, k: Path, t: Tree)
    requires IsSingle(e, k)
    requires t == match e[k]
                  case LeafEntry(value) => TLeaf(k, value)
                  case Subtree(h) => if k == [] then Opaque(h) else TExtension(k, Opaque(h))
    ensures ChildSound(e, t)
  {
    forall x {:trigger Read(e, x)}
      ensures Read(e, x) == At(t, x)
    {
      OnlyEntry(t, k, x);
    }
  }

  /** What a tree of one entry holds at a path. */
  lemma {:induction false} OnlyEntry(t: Tree, k: Path, x: Path)
    requires || (t.TLeaf? && t.key == k)
             || (t.Opaque? && k == [])
             || (t.TExtension? && t.key == k && t.child.Opaque?)
    ensures At(t, x) == if x != k then None
                        else Some(if t.TLeaf? then LeafEntry(t.value)
                                  else Subtree(if t.Opaque? then t.hash else t.child.hash))
  {
    if t.TExtension? && k <= x {
      assert x == k + x[|k|..];
    }
  }

  lemma {:induction false} ExtensionSound(e: Entries, t: Tree)
    requires t.TExtension? && !t.child.Opaque? && Composes(e, t)
    requires ChildSound(Strip(e, t.key), t.child)
    ensures ChildSound(e, t)
  {
    StrippedParts(e, t.key);
    if t.child.TExtension? && !t.child.child.Opaque? {
      LongestUnique(Strip(e, t.key), t.child.key, []);
    }
    ExtensionRepresents(e, t.key, t.child);
  }

  lemma {:induction false} ExtensionRepresents(e: Entries, p: Path, child: Tree)
    requires Common(e, p) && Represents(Strip(e, p), child)
    ensures Represents(e, TExtension(p, child))
  {
    forall k {:trigger Read(e, k)}
      ensures Read(e, k) == At(TExtension(p, child), k)
    {
      if p <= k {
        var q := k[|p|..];
        assert k == p + q;
        InStrip(e, p, q);
        assert Read(Strip(e, p), q) == At(child, q);
      }
    }
  }

  lemma {:induction false} BranchRepresents(e: Entries, t: Tree)
    requires t.TBranch? && |t.children| == 16 && [] !in e
    requires forall i :: 0 <= i < 16 ==> ChildSound(Strip(e, [i]), t.children[i])
    ensures Represents(e, t)
  {
    forall k {:trigger Read(e, k)}
      ensures Read(e, k) == At(t, k)
    {
      if k != [] {
        var i, q := k[0], k[1..];
        assert k == [i] + q;
        InStrip(e, [i], q);
        assert ChildSound(Strip(e, [i]), t.children[i]);
        assert Read(Strip(e, [i]), q) == At(t.children[i], q);
      }
    }
  }

  lemma {:induction false} BranchCanonical(e: Entries, t: Tree)
    requires t.TBranch? && |t.children| == 16
    requires e != map[] && [] !in e && LongestCommon(e, [])
    requires forall i :: 0 <= i < 16 ==> ChildSound(Strip(e, [i]), t.children[i])
    ensures Canonical(t)
  {
    var a, b := FirstNibblesPart(e);
    FilledSlot(e, t, a);
    FilledSlot(e, t, b);
    var i, j := if a[0] < b[0] then a[0] else b[0], if a[0] < b[0] then b[0] else a[0];
    assert 0 <= i < j < 16 && !t.children[i].TEmpty? && !t.children[j].TEmpty?;
    forall i | 0 <= i < 16
      ensures t.children[i].TEmpty? || Canonical(t.children[i])
    {
      assert ChildSound(Strip(e, [i]), t.children[i]);
    }
  }

  lemma {:induction false} FilledSlot(e: Entries, t: Tree, k: Path)
    requires t.TBranch? && |t.children| == 16 && k in e && k != []
    requires ChildSound(Strip(e, [k[0]]), t.children[k[0]])
    ensures !t.children[k[0]].TEmpty?
  {
    assert k == [k[0]] + k[1..];
    InStrip(e, [k[0]], k[1..]);
  }

  lemma {:induction false} FirstNibblesPart(e: Entries) returns (a: Path, b: Path)
    requires e != map[] && [] !in e && LongestCommon(e, [])
    ensures a in e && b in e && a != [] && b != [] && a[0] != b[0]
  {
    a :| a in e;
    assert !Common(e, [a[0]]);
    b :| b in e && !([a[0]] <= b);
  }

  /** Once the longest common prefix is taken off, no common prefix is left. */
  lemma {:induction false} StrippedParts(e: Entries, p: Path)
    requires Several(e) && LongestCommon(e, p)
    ensures Several(Strip(e, p)) && LongestCommon(Strip(e, p), [])
  {
    var sub := Strip(e, p);
    var k :| k in e;
    KeyBelow(e, p, k);
    if s :| IsSingle(sub, s) {
      forall x | x in e
        ensures x == p + s
      {
        KeyBelow(e, p, x);
      }
      assert IsSingle(e, p + s);
    }
    forall q | Common(sub, q)
      ensures |q| == 0
    {
      forall x | x in e
        ensures p + q <= x
      {
        KeyBelow(e, p, x);
      }
      assert Common(e, p + q);
    }
  }

  lemma {:induction false} KeyBelow(e: Entries, p: Path, k: Path)
    requires Common(e, p) && k in e
    ensures k == p + k[|p|..] && k[|p|..] in Strip(e, p)
  {
    assert k == p + k[|p|..];
    InStrip(e, p, k[|p|..]);
  }

  lemma {:induction false} InStrip(e: Entries, p: Path, q: Path)
    ensures q in Strip(e, p) <==> p + q in e
    ensures Read(Strip(e, p), q) == Read(e, p + q)
  {
    assert Read(Strip(e, p), q) == Read(e, p + q);
  }

  lemma {:induction false} StripPrefixFree(e: Entries, p: Path)
    requires PrefixFree(e)
    ensures PrefixFree(Strip(e, p))
  {
    forall a, b | a in Strip(e, p) && b in Strip(e, p) && a <= b
      ensures a == b
    {
      InStrip(e, p, a);
      InStrip(e, p, b);
      assert p + a <= p + b;
      assert a == (p + a)[|p|..] && b == (p + b)[|p|..];
    }
  }

  /** Two or more prefix-free entries: none sits at the root. */
  lemma {:induction false} NoneAtRoot(e: Entries)
    requires PrefixFree(e) && Several(e)
    ensures [] !in e
  {
    var root: Path := [];
    assert !IsSingle(e, root);
    assert forall x :: x in e ==> root <= x;
  }

  // ------------------------------------------------------------------ every prefix-free map has a trie

  ghost predicate Within(e: Entries, d: nat) {
    forall k :: k in e ==> |k| <= d
  }

  lemma {:induction false} StripWithin(e: Entries, p: Path, d: nat)
    requires Within(e, d) && |p| <= d
    ensures Within(Strip(e, p), d - |p|)
  {
    forall q | q in Strip(e, p)
      ensures |q| <= d - |p|
    {
      assert Read(Strip(e, p), q) == Read(e, p + q);
    }
  }

  lemma {:induction false} Bounded(keys: set<Path>) returns (d: nat)
    ensures forall k :: k in keys ==> |k| <= d
  {
    if keys == {} {
      d := 0;
    } else {
      var k :| k in keys;
      d := Bounded(keys - {k});
      d := if d < |k| then |k| else d;
    }
  }

  lemma {:induction false} Composition(e: Entries, d: nat) returns (t: Tree)
    requires PrefixFree(e) && Within(e, d)
    ensures Composes(e, t)
    decreases d, 0
  {
    if e == map[] {
      t := TEmpty;
    } else if k :| IsSingle(e, k) {
      t := match e[k]
        case LeafEntry(value) => TLeaf(k, value)
        case Subtree(h) => if k == [] then Opaque(h) else TExtension(k, Opaque(h));
    } else {
      NoneAtRoot(e);
      var k :| k in e;
      assert Common(e, []);
      var p := LongestExists(e, [], k);
      assert p <= k && |k| <= d && k != [];
      if p == [] {
        var children := Compositions(e, d, 16);
        t := TBranch(children);
      } else {
        StripWithin(e, p, d);
        StripPrefixFree(e, p);
        StrippedParts(e, p);
        var child := Composition(Strip(e, p), d - |p|);
        t := TExtension(p, child);
      }
    }
  }

  lemma {:induction false} Compositions(e: Entries, d: nat, n: nat) returns (ts: seq<Tree>)
    requires PrefixFree(e) && Within(e, d) && d > 0 && n <= 16
    ensures |ts| == n && forall i :: 0 <= i < n ==> Composes(Strip(e, [i]), ts[i])
    decreases d - 1, n + 1
  {
    if n == 0 {
      ts := [];
    } else {
      var front := Compositions(e, d, n - 1);
      var i: Nibble := n - 1;
      StripWithin(e, [i], d);
      StripPrefixFree(e, [i]);
      var last := Composition(Strip(e, [i]), d - 1);
      ts := front + [last];
    }
  }

  /** The trie with the given entries, none of which lies below another. */
  ghost function Compose(e: Entries): (t: Tree)
    requires PrefixFree(e)
    ensures Composes(e, t)
  {
    assert exists t :: Composes(e, t) by {
      var d := Bounded(e.Keys);
      var t := Composition(e, d);
    }
    var t :| Composes(e, t);
    t
  }

  // ------------------------------------------------------------------ results

  /** Rebuilding what a canonical trie flattens to gives back that trie. */
  lemma {:induction false} RebuildIdentity(t: Tree, e: Entries)
    requires Canonical(t) && Represents(e, t)
    ensures PrefixFree(e) && Compose(e) == t
  {
    RepresentedPrefixFree(e, t);
    Rebuilds(t, e);
    ComposesUnique(e, t, Compose(e));
  }

  /** Flattening what prefix-free entries are rebuilt into gives back those entries. */
  lemma {:induction false} FlattenIdentity(e: Entries)
    requires PrefixFree(e)
    ensures Represents(e, Compose(e))
    ensures if e == map[] then Compose(e) == TEmpty else Canonical(Compose(e))
  {
    ComposesSound(e, Compose(e));
  }
}
