/** Sequence helpers shared by the store: the JS `find`, a filter by key
 *  (`Group`), the keys of a JS `Map` in insertion order (`Keys`), sums
 *  (`Weight`) and the fact that grouping partitions a sequence. */
module Seqs {

  datatype Option<T> = None | Some(value: T)

  function Min(a: int, b: int): int { if a <= b then a else b }

  function Max(a: int, b: int): int { if a >= b then a else b }

  predicate Distinct<T(==)>(s: seq<T>)
  {
    forall i, j :: 0 <= i < j < |s| ==> s[i] != s[j]
  }

  /** In a sequence without repeats every element occurs at most once. */
  lemma {:induction false} DistinctMultiplicity<T>(s: seq<T>, x: T)
    requires Distinct(s)
    ensures multiset(s)[x] <= 1
    decreases |s|
  {
    if s != [] {
      assert s == [s[0]] + s[1..];
      assert Distinct(s[1..]);
      DistinctMultiplicity(s[1..], x);
      if x == s[0] {
        assert x !in s[1..];
      }
    }
  }

  /** Index of the first element satisfying `p` (what `Array.prototype.find` returns). */
  function FindFirst<T>(s: seq<T>, p: T -> bool): (r: Option<nat>)
    ensures r.Some? ==> r.value < |s| && p(s[r.value])
    ensures r.Some? ==> forall j :: 0 <= j < r.value ==> !p(s[j])
    ensures r.None? <==> forall j :: 0 <= j < |s| ==> !p(s[j])
  {
    if s == [] then None
    else if p(s[0]) then Some(0)
    else
      match FindFirst(s[1..], p)
      case None =>
        assert forall j :: 1 <= j < |s| ==> s[j] == s[1..][j - 1];
        None
      case Some(k) =>
        assert forall j :: 1 <= j < |s| ==> s[j] == s[1..][j - 1];
        Some(k + 1)
  }

  /** The elements of `s` whose key is `k`, in their original order
   *  (`s.filter(x => key(x) === k)`). */
  function Group<T(==,!new), K(==,!new)>(s: seq<T>, key: T -> K, k: K): (r: seq<T>)
    ensures |r| <= |s|
  {
    if s == [] then []
    else
      var p := s[..|s| - 1];
      assert s == p + [s[|s| - 1]];
      Group(p, key, k) + (if key(s[|s| - 1]) == k then [s[|s| - 1]] else [])
  }

  /** `x` is in the group of `k` exactly when it is in `s` with key `k`. */
  lemma {:induction false} GroupMember<T(!new), K(!new)>(s: seq<T>, key: T -> K, k: K, x: T)
    ensures x in Group(s, key, k) <==> x in s && key(x) == k
    decreases |s|
  {
    if s != [] {
      var p := s[..|s| - 1];
      assert s == p + [s[|s| - 1]];
      GroupMember(p, key, k, x);
    }
  }

  /** The distinct keys of `s` in order of first occurrence: the key order of
   *  a JS `Map` filled by one `set` per element. */
  function Keys<T, K(==,!new)>(s: seq<T>, key: T -> K): (r: seq<K>)
    ensures Distinct(r)
    ensures forall k :: k in r <==> exists i :: 0 <= i < |s| && key(s[i]) == k
  {
    if s == [] then []
    else
      var p := s[..|s| - 1];
      var ks := Keys(p, key);
      var k := key(s[|s| - 1]);
      assert forall i :: 0 <= i < |p| ==> s[i] == p[i];
      if k in ks then ks else ks + [k]
  }

  /** Sum of `w` over `s`. */
  function Weight<T>(s: seq<T>, w: T -> int): int
  {
    if s == [] then 0 else Weight(s[..|s| - 1], w) + w(s[|s| - 1])
  }

  /** Sum, over the keys `ks`, of the weight of each key's group. */
  function SumGroups<T(==,!new), K(==,!new)>(s: seq<T>, key: T -> K, w: T -> int, ks: seq<K>): int
  {
    if ks == [] then 0
    else SumGroups(s, key, w, ks[..|ks| - 1]) + Weight(Group(s, key, ks[|ks| - 1]), w)
  }

  lemma GroupSnoc<T(!new), K(!new)>(s: seq<T>, x: T, key: T -> K, k: K)
    ensures Group(s + [x], key, k) == Group(s, key, k) + (if key(x) == k then [x] else [])
  {
    assert (s + [x])[..|s|] == s;
  }

  lemma GroupCons<T(!new), K(!new)>(x: T, s: seq<T>, key: T -> K, k: K)
    ensures Group([x] + s, key, k) == (if key(x) == k then [x] else []) + Group(s, key, k)
  {
    GroupAppend([x], s, key, k);
    GroupSnoc([], x, key, k);
    assert [] + [x] == [x];
  }

  lemma KeysSnoc<T, K(!new)>(s: seq<T>, x: T, key: T -> K)
    ensures Keys(s + [x], key) == if key(x) in Keys(s, key) then Keys(s, key) else Keys(s, key) + [key(x)]
  {
    assert (s + [x])[..|s|] == s;
  }

  lemma {:induction false} GroupAppend<T(!new), K(!new)>(a: seq<T>, b: seq<T>, key: T -> K, k: K)
    ensures Group(a + b, key, k) == Group(a, key, k) + Group(b, key, k)
    decreases |b|
  {
    if b == [] {
      assert a + b == a;
    } else {
      var p := b[..|b| - 1];
      var x := b[|b| - 1];
      assert b == p + [x];
      assert a + b == (a + p) + [x];
      GroupSnoc(a + p, x, key, k);
      GroupSnoc(p, x, key, k);
      GroupAppend(a, p, key, k);
    }
  }

  /** A key that occurs has a non-empty group. */
  lemma GroupOfPresentKey<T(!new), K(!new)>(s: seq<T>, key: T -> K, k: K)
    requires k in Keys(s, key)
    ensures |Group(s, key, k)| >= 1
  {
    var i :| 0 <= i < |s| && key(s[i]) == k;
    GroupMember(s, key, k, s[i]);
    assert s[i] in Group(s, key, k);
  }

  /** A key that does not occur has an empty group. */
  lemma GroupOfAbsentKey<T(!new), K(!new)>(s: seq<T>, key: T -> K, k: K)
    requires k !in Keys(s, key)
    ensures Group(s, key, k) == []
  {
  }

  lemma WeightSnoc<T>(s: seq<T>, x: T, w: T -> int)
    ensures Weight(s + [x], w) == Weight(s, w) + w(x)
  {
    assert (s + [x])[..|s|] == s;
  }

  lemma {:induction false} WeightAppend<T>(a: seq<T>, b: seq<T>, w: T -> int)
    ensures Weight(a + b, w) == Weight(a, w) + Weight(b, w)
    decreases |b|
  {
    if b == [] {
      assert a + b == a;
    } else {
      var p := b[..|b| - 1];
      var x := b[|b| - 1];
      assert b == p + [x];
      assert a + b == (a + p) + [x];
      WeightSnoc(a + p, x, w);
      WeightSnoc(p, x, w);
      WeightAppend(a, p, w);
    }
  }

  /** The weight of a sequence under the constant weight 1 is its length. */
  lemma {:induction false} WeightOfOnes<T>(s: seq<T>, w: T -> int)
    requires forall x :: w(x) == 1
    ensures Weight(s, w) == |s|
    decreases |s|
  {
    if s != [] {
      WeightOfOnes(s[..|s| - 1], w);
    }
  }

  lemma {:induction false} WeightNonNegative<T>(s: seq<T>, w: T -> int)
    requires forall i :: 0 <= i < |s| ==> w(s[i]) >= 0
    ensures Weight(s, w) >= 0
    decreases |s|
  {
    if s != [] {
      var p := s[..|s| - 1];
      assert forall i :: 0 <= i < |p| ==> p[i] == s[i];
      WeightNonNegative(p, w);
    }
  }

  /** With non-negative weights, a prefix never weighs more than the whole. */
  lemma WeightOfPrefix<T>(s: seq<T>, n: nat, w: T -> int)
    requires n <= |s|
    requires forall i :: 0 <= i < |s| ==> w(s[i]) >= 0
    ensures Weight(s[..n], w) <= Weight(s, w)
  {
    assert s == s[..n] + s[n..];
    WeightAppend(s[..n], s[n..], w);
    assert forall i :: 0 <= i < |s[n..]| ==> s[n..][i] == s[n + i];
    WeightNonNegative(s[n..], w);
  }

  /** Adding one element to the grouped sequence adds its weight to exactly
   *  the group of its key, if that key is among `ks`. */
  lemma {:induction false} SumGroupsSnoc<T(!new), K(!new)>(s: seq<T>, x: T, key: T -> K, w: T -> int, ks: seq<K>)
    requires Distinct(ks)
    ensures SumGroups(s + [x], key, w, ks)
         == SumGroups(s, key, w, ks) + (if key(x) in ks then w(x) else 0)
    decreases |ks|
  {
    if ks != [] {
      var init := ks[..|ks| - 1];
      var k := ks[|ks| - 1];
      assert ks == init + [k];
      assert Distinct(init);
      SumGroupsSnoc(s, x, key, w, init);
      GroupSnoc(s, x, key, k);
      if key(x) == k {
        assert key(x) !in init;
        WeightSnoc(Group(s, key, k), x, w);
      } else {
        assert Group(s + [x], key, k) == Group(s, key, k);
        assert (key(x) in ks) == (key(x) in init);
      }
    }
  }

  lemma SumGroupsAppendKey<T(!new), K(!new)>(s: seq<T>, key: T -> K, w: T -> int, ks: seq<K>, k: K)
    ensures SumGroups(s, key, w, ks + [k]) == SumGroups(s, key, w, ks) + Weight(Group(s, key, k), w)
  {
    assert (ks + [k])[..|ks|] == ks;
  }

  /** Grouping by key partitions a sequence: the group weights, summed over
   *  all keys that occur, add up to the weight of the whole sequence. */
  lemma {:induction false} Partition<T(!new), K(!new)>(s: seq<T>, key: T -> K, w: T -> int)
    ensures SumGroups(s, key, w, Keys(s, key)) == Weight(s, w)
    decreases |s|
  {
    if s != [] {
      var p := s[..|s| - 1];
      var x := s[|s| - 1];
      assert s == p + [x];
      Partition(p, key, w);
      KeysSnoc(p, x, key);
      WeightSnoc(p, x, w);
      var ks := Keys(p, key);
      SumGroupsSnoc(p, x, key, w, ks);
      if key(x) !in ks {
        SumGroupsAppendKey(s, key, w, ks, key(x));
        GroupOfAbsentKey(p, key, key(x));
        GroupSnoc(p, x, key, key(x));
        assert Group(s, key, key(x)) == [x];
        assert Weight([x], w) == w(x) by { WeightSnoc([], x, w); assert [] + [x] == [x]; }
      }
    }
  }

  /** A JS `Map` filled in one pass over `s`, one `set` per element: its keys
   *  in insertion order are `order`, and each key holds `agg` of that key's
   *  elements. */
  ghost predicate Tally<T(!new), K(!new), V>(s: seq<T>, key: T -> K, agg: (K, seq<T>) -> V, order: seq<K>, m: map<K, V>)
  {
    && order == Keys(s, key)
    && (forall k :: k in m <==> k in order)
    && (forall k :: k in m ==> m[k] == agg(k, Group(s, key, k)))
  }

  /** Storing the aggregate of the extended group under the new element's key
   *  (appending the key to the order when it is new) keeps the tally. */
  lemma TallyStep<T(!new), K(!new), V>(s: seq<T>, x: T, key: T -> K, agg: (K, seq<T>) -> V,
                                       order: seq<K>, m: map<K, V>, k: K, v: V)
    requires Tally(s, key, agg, order, m)
    requires key(x) == k
    requires v == agg(k, Group(s, key, k) + [x])
    ensures Tally(s + [x], key, agg, if k in m then order else order + [k], m[k := v])
  {
    var m' := m[k := v];
    assert (if k in m then order else order + [k]) == Keys(s + [x], key) by {
      KeysSnoc(s, x, key);
    }
    forall j | j in m' ensures m'[j] == agg(j, Group(s + [x], key, j)) {
      GroupSnoc(s, x, key, j);
      if j != k {
        assert j in m && m'[j] == m[j];
        assert Group(s + [x], key, j) == Group(s, key, j);
      } else {
        assert m'[j] == v;
        assert Group(s + [x], key, j) == Group(s, key, k) + [x];
      }
    }
  }

  /** `s.slice(offset, offset + limit)` for non-negative arguments. */
  function Window<T>(s: seq<T>, limit: nat, offset: nat): (r: seq<T>)
    ensures |r| <= limit
    ensures offset >= |s| ==> r == []
    ensures offset < |s| ==> |r| == Min(limit, |s| - offset)
    ensures forall i :: 0 <= i < |r| ==> offset + i < |s| && r[i] == s[offset + i]
  {
    s[Min(offset, |s|)..Min(offset + limit, |s|)]
  }

  /** The windows of pages 1 .. n of size `size`, concatenated. */
  ghost function PagesOf<T>(s: seq<T>, size: nat, n: nat): seq<T>
  {
    if n == 0 then [] else PagesOf(s, size, n - 1) + Window(s, size, (n - 1) * size)
  }

  lemma MulSucc(m: nat, size: nat)
    ensures (m + 1) * size == m * size + size
  {
  }

  lemma {:induction false} PagesOfPrefix<T>(s: seq<T>, size: nat, n: nat)
    ensures PagesOf(s, size, n) == s[..Min(n * size, |s|)]
  {
    if n == 0 {
      assert n * size == 0;
      assert s[..0] == [];
    } else {
      PagesOfPrefix(s, size, n - 1);
      var offset := (n - 1) * size;
      MulSucc(n - 1, size);
      var lo := Min(offset, |s|);
      var hi := Min(n * size, |s|);
      assert PagesOf(s, size, n) == s[..lo] + Window(s, size, offset);
      assert Window(s, size, offset) == s[lo..hi];
      assert s[..lo] + s[lo..hi] == s[..hi];
    }
  }

}
