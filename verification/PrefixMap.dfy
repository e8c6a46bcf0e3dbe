/**
  The abstract value of the radix cache: a finite map that sends every cached,
  non-empty token prefix to the KV-pool slot holding its last token.
 */
module PrefixMap {
  type Token = int
  type Slot = int
  type Path = seq<Token>
  type Entries = map<Path, Slot>

  /** A prefix is cached only together with all its own non-empty prefixes. */
  ghost predicate PrefixClosed(entries: Entries) {
    forall p | p in entries :: p != [] && (|p| > 1 ==> p[..|p| - 1] in entries)
  }

  /** Number of leading tokens of `key` that are cached, counting upwards from `n`. */
  ghost function MatchFrom(entries: Entries, key: Path, n: nat): (r: nat)
    requires n <= |key|
    ensures n <= r <= |key|
    ensures forall i | n < i <= r :: key[..i] in entries
    ensures r < |key| ==> key[..r + 1] !in entries
    decreases |key| - n
  {
    if n < |key| && key[..n + 1] in entries then MatchFrom(entries, key, n + 1) else n
  }

  ghost function LongestMatch(entries: Entries, key: Path): (r: nat)
    ensures r <= |key|
    ensures forall i | 0 < i <= r :: key[..i] in entries
    ensures r < |key| ==> key[..r + 1] !in entries
  {
    MatchFrom(entries, key, 0)
  }

  /** The slots of the first `n` prefixes of `key`; the padding slot 0 where one is not cached. */
  ghost function SlotsOf(entries: Entries, key: Path, n: nat): (slots: seq<Slot>)
    requires n <= |key|
    ensures |slots| == n
  {
    seq(n, i requires 0 <= i < n => if key[..i + 1] in entries then entries[key[..i + 1]] else 0)
  }

  /** The non-empty prefixes of a key. */
  ghost function Prefixes(key: Path): (r: set<Path>)
    ensures forall p :: p in r <==> p != [] && p <= key
  {
    var r := set i | 0 < i <= |key| :: key[..i];
    assert forall p | p != [] && p <= key :: p == key[..|p|];
    r
  }

  /** Inserting `key` adds its missing prefixes and keeps every entry already there. */
  ghost function InsertAll(entries: Entries, key: Path, value: seq<Slot>): (r: Entries)
    requires |key| == |value|
    ensures r.Keys == entries.Keys + Prefixes(key)
    ensures forall p | p in r :: r[p] == if p in entries then entries[p] else value[|p| - 1]
  {
    (map p | p in Prefixes(key) :: value[|p| - 1]) + entries
  }

  lemma InsertedAt(entries: Entries, key: Path, value: seq<Slot>, j: nat)
    requires 0 < j <= |key| == |value|
    ensures key[..j] in InsertAll(entries, key, value)
    ensures InsertAll(entries, key, value)[key[..j]] == if key[..j] in entries then entries[key[..j]] else value[j - 1]
  {
    assert key[..j] <= key && |key[..j]| == j;
  }

  /** The slots of a cached prefix, one by one. */
  lemma CachedSlot(entries: Entries, key: Path, j: nat)
    requires 0 < j <= LongestMatch(entries, key)
    ensures key[..j] in entries && entries[key[..j]] == SlotsOf(entries, key, LongestMatch(entries, key))[j - 1]
  {
    hide MatchFrom;
    var n := LongestMatch(entries, key);
    hide LongestMatch;
    assert key[..j - 1 + 1] == key[..j];
  }

  lemma {:induction false} CachedPrefixes(entries: Entries, p: Path, n: nat)
    requires PrefixClosed(entries) && p in entries && 0 < n <= |p|
    ensures p[..n] in entries
    decreases |p|
  {
    if n < |p| {
      CachedPrefixes(entries, p[..|p| - 1], n);
      assert p[..|p| - 1][..n] == p[..n];
    } else {
      assert p[..n] == p;
    }
  }

  /** Nothing beyond the longest match is cached. */
  lemma LongestMatchIsMaximal(entries: Entries, key: Path, n: nat)
    requires PrefixClosed(entries) && LongestMatch(entries, key) < n <= |key|
    ensures key[..n] !in entries
  {
    var m := LongestMatch(entries, key);
    assert key[..n][..m + 1] == key[..m + 1];
    if key[..n] in entries {
      CachedPrefixes(entries, key[..n], m + 1);
    }
  }

  /** The longest match is characterised by where the cached prefixes stop. */
  lemma LongestMatchIs(entries: Entries, key: Path, n: nat)
    requires PrefixClosed(entries) && n <= |key|
    requires n > 0 ==> key[..n] in entries
    requires n < |key| ==> key[..n + 1] !in entries
    ensures LongestMatch(entries, key) == n
  {
    var m := LongestMatch(entries, key);
    if m < n {
      LongestMatchIsMaximal(entries, key, n);
    }
  }

  /** An insert leaves a prefix-closed map in which the whole key is cached. */
  lemma InsertKeepsPrefixClosed(entries: Entries, key: Path, value: seq<Slot>)
    requires PrefixClosed(entries) && |key| == |value|
    ensures PrefixClosed(InsertAll(entries, key, value))
    ensures LongestMatch(InsertAll(entries, key, value), key) == |key|
  {
    var r := InsertAll(entries, key, value);
    forall p | p in r ensures p != [] && (|p| > 1 ==> p[..|p| - 1] in r) {
      if p !in entries && |p| > 1 {
        assert p[..|p| - 1] == key[..|p| - 1];
      }
    }
    assert |key| > 0 ==> key[..|key|] == key;
    LongestMatchIs(r, key, |key|);
  }

  lemma LongestMatchWhole(entries: Entries, key: Path)
    requires PrefixClosed(entries) && key != []
    ensures LongestMatch(entries, key) == |key| <==> key in entries
  {
    assert key[..|key|] == key;
    if key in entries && LongestMatch(entries, key) < |key| {
      LongestMatchIsMaximal(entries, key, |key|);
    }
  }

  /** The prefixes of `key` longer than `n` tokens and no longer than `k`. */
  ghost function Longer(key: Path, n: nat, k: nat): (r: set<Path>)
    requires n <= k <= |key|
    ensures forall p :: p in r <==> p <= key && n < |p| <= k
  {
    var r := set i | n < i <= k :: key[..i];
    assert forall p | p <= key && n < |p| <= k :: p == key[..|p|];
    r
  }

  lemma {:induction false} LongerSize(key: Path, n: nat, k: nat)
    requires n <= k <= |key|
    ensures |Longer(key, n, k)| == k - n
    decreases k
  {
    if n < k {
      LongerSize(key, n, k - 1);
      assert forall p | p <= key && |p| == k :: p == key[..k];
      assert Longer(key, n, k) == Longer(key, n, k - 1) + {key[..k]};
    } else {
      assert Longer(key, n, k) == {};
    }
  }

  /** The prefixes that an insert adds. */
  lemma NotCached(entries: Entries, key: Path)
    requires PrefixClosed(entries)
    ensures Prefixes(key) - entries.Keys == Longer(key, LongestMatch(entries, key), |key|)
  {
    var n := LongestMatch(entries, key);
    forall p | p != [] && p <= key ensures p !in entries <==> n < |p| {
      assert p == key[..|p|];
      if n < |p| {
        LongestMatchIsMaximal(entries, key, |p|);
      }
    }
  }

  /** An insert adds one entry for every token beyond the longest match. */
  lemma InsertSize(entries: Entries, key: Path, value: seq<Slot>)
    requires PrefixClosed(entries) && |key| == |value|
    ensures |InsertAll(entries, key, value)| == |entries| + |key| - LongestMatch(entries, key)
  {
    var r, missing := InsertAll(entries, key, value), Prefixes(key) - entries.Keys;
    NotCached(entries, key);
    LongerSize(key, LongestMatch(entries, key), |key|);
    hide LongestMatch, Longer, PrefixClosed, InsertAll, Prefixes;
    assert r.Keys == entries.Keys + missing;
    assert |r| == |r.Keys| && |entries| == |entries.Keys|;
  }
}
