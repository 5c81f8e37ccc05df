/**
 The block-scoped cache of recently run Stylus programs, against its history of use.
 */
module RecentWasms {
  type CodeHash = nat

  // ------------------------------------------------------------------ recency

  function Without(s: seq<CodeHash>, h: CodeHash): seq<CodeHash> {
    if s == [] then [] else (if s[0] == h then [] else [s[0]]) + Without(s[1..], h)
  }

  function Take(s: seq<CodeHash>, n: nat): seq<CodeHash> {
    if n <= |s| then s[..n] else s
  }

  /** The distinct hashes of a history, the most recently used first. */
  function Recency(history: seq<CodeHash>): seq<CodeHash> {
    if history == [] then []
    else
      var last := history[|history| - 1];
      [last] + Without(Recency(history[..|history| - 1]), last)
  }

  /** The position of the last use of `h`, counted from one; zero if it was never used. */
  function LastUse(history: seq<CodeHash>, h: CodeHash): nat {
    if history == [] then 0
    else if history[|history| - 1] == h then |history|
    else LastUse(history[..|history| - 1], h)
  }

  ghost predicate Distinct(s: seq<CodeHash>) {
    forall i, j :: 0 <= i < j < |s| ==> s[i] != s[j]
  }

  ghost predicate LatestFirst(history: seq<CodeHash>, s: seq<CodeHash>) {
    forall i, j :: 0 <= i < j < |s| ==> LastUse(history, s[i]) > LastUse(history, s[j])
  }

  lemma {:induction false} WithoutMembers(s: seq<CodeHash>, h: CodeHash, x: CodeHash)
    ensures x in Without(s, h) <==> x in s && x != h
  {
    if s != [] {
      WithoutMembers(s[1..], h, x);
    }
  }

  lemma {:induction false} WithoutAbsent(s: seq<CodeHash>, h: CodeHash)
    requires h !in s
    ensures Without(s, h) == s
  {
    if s != [] {
      WithoutAbsent(s[1..], h);
    }
  }

  lemma {:induction false} WithoutOne(s: seq<CodeHash>, i: nat)
    requires Distinct(s) && i < |s|
    ensures Without(s, s[i]) == s[..i] + s[i + 1..]
  {
    if i == 0 {
      WithoutAbsent(s[1..], s[0]);
    } else {
      WithoutOne(s[1..], i - 1);
      assert s[..i] + s[i + 1..] == [s[0]] + (s[1..][..i - 1] + s[1..][i..]);
    }
  }

  lemma {:induction false} WithoutKeeps(history: seq<CodeHash>, s: seq<CodeHash>, h: CodeHash)
    requires LatestFirst(history, s)
    ensures LatestFirst(history, Without(s, h))
  {
    if s != [] {
      var tail := Without(s[1..], h);
      WithoutKeeps(history, s[1..], h);
      forall x | x in tail
        ensures LastUse(history, s[0]) > LastUse(history, x)
      {
        WithoutMembers(s[1..], h, x);
        var j :| 0 <= j < |s[1..]| && s[1..][j] == x;
        assert s[j + 1] == x;
      }
    }
  }

  lemma {:induction false} LastUseBounded(history: seq<CodeHash>, h: CodeHash)
    ensures LastUse(history, h) <= |history| && (LastUse(history, h) > 0 <==> h in history)
    ensures LastUse(history, h) > 0 ==> history[LastUse(history, h) - 1] == h
  {
    if history != [] {
      LastUseBounded(history[..|history| - 1], h);
    }
  }

  /** The recency list holds exactly the hashes used, each once, ordered by their last use. */
  lemma {:induction false} RecencyMeaning(history: seq<CodeHash>)
    ensures forall x :: x in Recency(history) <==> x in history
    ensures LatestFirst(history, Recency(history)) && Distinct(Recency(history))
  {
    if history != [] {
      var n := |history| - 1;
      var older, last := history[..n], history[n];
      var rest := Without(Recency(older), last);
      RecencyMeaning(older);
      assert history == older + [last];
      forall x
        ensures x in rest <==> x in older && x != last
      {
        WithoutMembers(Recency(older), last, x);
      }
      WithoutKeeps(older, Recency(older), last);
      RecencyExtends(history, rest);
    }
  }

  lemma {:induction false} RecencyExtends(history: seq<CodeHash>, rest: seq<CodeHash>)
    requires history != []
    requires var n := |history| - 1; LatestFirst(history[..n], rest) && history[n] !in rest
    ensures LatestFirst(history, [history[|history| - 1]] + rest)
  {
    var n := |history| - 1;
    var s := [history[n]] + rest;
    forall i, j | 0 <= i < j < |s|
      ensures LastUse(history, s[i]) > LastUse(history, s[j])
    {
      assert s[j] == rest[j - 1];
      LastUseBounded(history[..n], s[j]);
      if i > 0 {
        assert s[i] == rest[i - 1];
      }
    }
  }

  // ------------------------------------------------------------------ the cache

  function Room(capacity: nat): nat {
    if capacity == 0 then 1 else capacity
  }

  /** The cache after a use of `h`. */
  function Used(recent: seq<CodeHash>, h: CodeHash, capacity: nat): seq<CodeHash> {
    [h] + if h in recent then Without(recent, h)
    else if |recent| >= Room(capacity) && recent != [] then recent[..|recent| - 1]
    else recent
  }

  lemma {:induction false} UsedDistinct(recent: seq<CodeHash>, h: CodeHash, capacity: nat)
    requires Distinct(recent)
    ensures Distinct(Used(recent, h, capacity))
    ensures |Used(recent, h, capacity)| <= if |recent| <= Room(capacity) then Room(capacity) else |recent|
  {
    if h in recent {
      var i :| 0 <= i < |recent| && recent[i] == h;
      WithoutOne(recent, i);
      WithoutDistinct(recent, h, i);
      FrontDistinct(h, Without(recent, h));
    } else {
      FrontDistinct(h, Used(recent, h, capacity)[1..]);
    }
  }

  lemma {:induction false} WithoutDistinct(s: seq<CodeHash>, h: CodeHash, i: nat)
    requires Distinct(s) && i < |s| && s[i] == h && Without(s, h) == s[..i] + s[i + 1..]
    ensures Distinct(Without(s, h)) && h !in Without(s, h)
  {
    var r := s[..i] + s[i + 1..];
    forall a | 0 <= a < |r|
      ensures r[a] == s[if a < i then a else a + 1]
    {
    }
  }

  lemma {:induction false} FrontDistinct(h: CodeHash, s: seq<CodeHash>)
    requires Distinct(s) && h !in s
    ensures Distinct([h] + s)
  {
    var r := [h] + s;
    forall i, j | 0 <= i < j < |r|
      ensures r[i] != r[j]
    {
      assert r[j] == s[j - 1];
      assert i > 0 ==> r[i] == s[i - 1];
    }
  }

  /** A hit moves to the front; a miss is put there, and the last entry makes room for it once the capacity is reached. */
  lemma {:induction false} UsedInNumbers(recent: seq<CodeHash>, h: CodeHash, capacity: nat)
    requires Distinct(recent)
    ensures var r := Used(recent, h, capacity);
            && r[0] == h && (h in recent ==> |r| == |recent|)
            && (h !in recent && |recent| < capacity ==> r == [h] + recent)
            && (h !in recent && 0 < capacity <= |recent| ==> r == [h] + recent[..|recent| - 1])
            && (h !in recent && capacity == 0 && |recent| <= 1 ==> r == [h])
  {
    if h in recent {
      var i :| 0 <= i < |recent| && recent[i] == h;
      WithoutOne(recent, i);
    }
  }

  /** A bounded prefix of the recency list is all that the next bounded prefix needs. */
  lemma {:induction false} UsedPrefix(s: seq<CodeHash>, h: CodeHash, capacity: nat)
    requires Distinct(s)
    ensures Used(Take(s, Room(capacity)), h, capacity) == Take([h] + Without(s, h), Room(capacity))
  {
    var n := Room(capacity);
    if h !in s {
      WithoutAbsent(s, h);
    } else {
      var i :| 0 <= i < |s| && s[i] == h;
      WithoutOne(s, i);
      if i < n {
        HitPrefix(s, i, n);
      } else {
        MissPrefix(s, i, n);
      }
    }
  }

  lemma {:induction false} HitPrefix(s: seq<CodeHash>, i: nat, n: nat)
    requires Distinct(s) && i < |s| && i < n
    ensures s[i] in Take(s, n)
    ensures [s[i]] + Without(Take(s, n), s[i]) == Take([s[i]] + (s[..i] + s[i + 1..]), n)
  {
    var front := Take(s, n);
    assert front[i] == s[i];
    WithoutOne(front, i);
    assert front[i + 1..] == Take(s[i + 1..], n - i - 1);
  }

  lemma {:induction false} MissPrefix(s: seq<CodeHash>, i: nat, n: nat)
    requires Distinct(s) && 1 <= n <= i < |s|
    ensures s[i] !in Take(s, n) && |Take(s, n)| == n
    ensures [s[i]] + Take(s, n)[..n - 1] == Take([s[i]] + (s[..i] + s[i + 1..]), n)
  {
    assert forall j :: 0 <= j < n ==> s[j] != s[i];
  }

  /** The most recently used hashes of the first `n` uses, as many as fit. */
  function Newest(uses: seq<CodeHash>, n: nat, capacity: nat): seq<CodeHash>
    requires n <= |uses|
  {
    Take(Recency(uses[..n]), if capacity == 0 then 1 else capacity)
  }

  lemma {:induction false} NewestNext(uses: seq<CodeHash>, n: nat, capacity: nat)
    requires n < |uses|
    ensures Used(Newest(uses, n, capacity), uses[n], capacity) == Newest(uses, n + 1, capacity)
  {
    RecencyMeaning(uses[..n]);
    UsedPrefix(Recency(uses[..n]), uses[n], capacity);
    assert uses[..n + 1][..n] == uses[..n];
  }

  /** Each use is a hit exactly when its hash is among the most recently used of the uses before it. */
  ghost predicate HitsRight(uses: seq<CodeHash>, hits: seq<bool>, capacity: nat) {
    |hits| <= |uses| && forall i :: 0 <= i < |hits| ==> (hits[i] <==> uses[i] in Newest(uses, i, capacity))
  }

  lemma {:induction false} HitsMore(uses: seq<CodeHash>, hits: seq<bool>, recent: seq<CodeHash>, hit: bool, capacity: nat)
    requires |hits| < |uses| && HitsRight(uses, hits, capacity)
    requires recent == Newest(uses, |hits|, capacity) && (hit <==> uses[|hits|] in recent)
    ensures HitsRight(uses, hits + [hit], capacity)
  {
  }

  class Cache {
    var recent: seq<CodeHash>

    ghost predicate Valid()
      reads this
    {
      Distinct(recent)
    }

    constructor ()
      ensures Valid() && recent == []
    {
      recent := [];
    }

    /** Records a use and tells whether the hash was cached. */
    method InsertRecentWasm(h: CodeHash, capacity: nat) returns (hit: bool)
      requires Valid()
      modifies this
      ensures Valid() && recent == Used(old(recent), h, capacity)
      ensures hit <==> h in old(recent)
    {
      UsedDistinct(recent, h, capacity);
      var i := 0;
      while i < |recent| && recent[i] != h
        invariant i <= |recent| && recent == old(recent) && h !in recent[..i]
      {
        i := i + 1;
      }
      if i < |recent| {
        WithoutOne(recent, i);
        recent := recent[..i] + recent[i + 1..];
        recent := [h] + recent;
        return true;
      }
      if |recent| >= Room(capacity) {
        recent := recent[..|recent| - 1];
      }
      recent := [h] + recent;
      return false;
    }

    /**
     With a constant capacity the cache is always the most recently used hashes, as many as fit, and a use is
     a hit exactly when its hash is among those of the uses before it.
     */
    method UseAll(uses: seq<CodeHash>, capacity: nat) returns (hits: seq<bool>)
      requires recent == []
      modifies this
      ensures recent == Newest(uses, |uses|, capacity)
      ensures |hits| == |uses| && HitsRight(uses, hits, capacity)
    {
      hits := [];
      for i := 0 to |uses|
        invariant Valid() && recent == Newest(uses, i, capacity)
        invariant |hits| == i && HitsRight(uses, hits, capacity)
      {
        NewestNext(uses, i, capacity);
        ghost var before := recent;
        var hit := InsertRecentWasm(uses[i], capacity);
        HitsMore(uses, hits, before, hit, capacity);
        hits := hits + [hit];
      }
    }

    /** Whatever the capacities, no hash is held twice and the largest capacity is never exceeded. */
    method UseVarying(uses: seq<(CodeHash, nat)>, ghost largest: nat)
      requires Valid() && |recent| <= Room(largest)
      requires forall i :: 0 <= i < |uses| ==> uses[i].1 <= largest
      modifies this
      ensures Distinct(recent) && |recent| <= if largest == 0 then 1 else largest
    {
      for i := 0 to |uses|
        invariant Valid() && |recent| <= Room(largest)
      {
        UsedDistinct(recent, uses[i].0, uses[i].1);
        var _ := InsertRecentWasm(uses[i].0, uses[i].1);
      }
    }
  }
}
