/** The stable sort behind every `Array.prototype.sort` call of the store.
 *  Each comparator of db.js is "descending on a pair of integers" once its
 *  keys are negated where it sorts ascending, so one insertion sort on a
 *  lexicographic `Rank` serves all of them. JS `sort` is stable (ES2019),
 *  and so is this one: elements of equal rank keep their input order. */
module Sorting {
  import opened Seqs

  datatype Rank = Rank(major: int, minor: int)

  /** `a` sorts strictly before `b`: the comparator returns a negative value. */
  predicate Ahead(a: Rank, b: Rank)
  {
    a.major > b.major || (a.major == b.major && a.minor > b.minor)
  }

  ghost predicate Descending<T>(s: seq<T>, rank: T -> Rank)
  {
    forall i, j :: 0 <= i < j < |s| ==> !Ahead(rank(s[j]), rank(s[i]))
  }

  ghost predicate StrictlyDescending<T>(s: seq<T>, rank: T -> Rank)
  {
    forall i, j :: 0 <= i < j < |s| ==> Ahead(rank(s[i]), rank(s[j]))
  }

  /** Inserts `x` before the first element that is not ranked ahead of it. */
  function Insert<T(==,!new)>(x: T, s: seq<T>, rank: T -> Rank): (r: seq<T>)
    ensures multiset(r) == multiset(s) + multiset{x}
    ensures forall y :: y in r ==> y == x || y in s
  {
    if s == [] || !Ahead(rank(s[0]), rank(x)) then [x] + s
    else
      assert s == [s[0]] + s[1..];
      [s[0]] + Insert(x, s[1..], rank)
  }

  lemma {:induction false} InsertSorted<T(!new)>(x: T, s: seq<T>, rank: T -> Rank)
    requires Descending(s, rank)
    ensures Descending(Insert(x, s, rank), rank)
    decreases |s|
  {
    if s != [] && Ahead(rank(s[0]), rank(x)) {
      var t := Insert(x, s[1..], rank);
      assert Descending(s[1..], rank);
      InsertSorted(x, s[1..], rank);
      forall j | 0 <= j < |t| ensures !Ahead(rank(t[j]), rank(s[0])) {
        assert t[j] in t;
        if t[j] != x {
          var k :| 0 <= k < |s[1..]| && s[1..][k] == t[j];
          assert s[k + 1] == t[j];
        }
      }
      var r := [s[0]] + t;
      assert Insert(x, s, rank) == r;
      forall i, j | 0 <= i < j < |r| ensures !Ahead(rank(r[j]), rank(r[i])) {
        if i > 0 {
          assert r[i] == t[i - 1] && r[j] == t[j - 1];
        } else {
          assert r[j] == t[j - 1];
        }
      }
    }
  }

  /** Sorts by rank, highest first; ties keep their input order. */
  function SortDesc<T(==,!new)>(s: seq<T>, rank: T -> Rank): (r: seq<T>)
    ensures multiset(r) == multiset(s)
    ensures |r| == |s|
    ensures forall y :: y in r <==> y in s
    ensures Descending(r, rank)
  {
    if s == [] then []
    else
      assert s == [s[0]] + s[1..];
      var t := SortDesc(s[1..], rank);
      InsertSorted(s[0], t, rank);
      var r := Insert(s[0], t, rank);
      assert forall y :: y in r <==> y in multiset(r);
      assert forall y :: y in s <==> y in multiset(s);
      r
  }

  lemma {:induction false} InsertStable<T(!new)>(x: T, s: seq<T>, rank: T -> Rank, k: Rank)
    ensures Group(Insert(x, s, rank), rank, k) == Group([x], rank, k) + Group(s, rank, k)
    decreases |s|
  {
    GroupCons(x, [], rank, k);
    assert [x] + [] == [x];
    if s == [] || !Ahead(rank(s[0]), rank(x)) {
      GroupCons(x, s, rank, k);
    } else {
      var t := s[1..];
      assert s == [s[0]] + t;
      InsertStable(x, t, rank, k);
      GroupCons(s[0], Insert(x, t, rank), rank, k);
      GroupCons(s[0], t, rank, k);
      // `s[0]` is ranked ahead of `x`, so at most one of the two has rank `k`.
      if rank(x) == k {
        assert rank(s[0]) != k;
        assert Group(Insert(x, s, rank), rank, k) == Group(Insert(x, t, rank), rank, k);
        assert Group(s, rank, k) == Group(t, rank, k);
      } else {
        assert Group([x], rank, k) == [];
        assert Group(Insert(x, t, rank), rank, k) == Group(t, rank, k);
      }
    }
  }

  /** Stability: for every rank, the elements of that rank come out in the
   *  order they went in. */
  lemma {:induction false} SortStable<T(!new)>(s: seq<T>, rank: T -> Rank, k: Rank)
    ensures Group(SortDesc(s, rank), rank, k) == Group(s, rank, k)
    decreases |s|
  {
    if s != [] {
      assert s == [s[0]] + s[1..];
      SortStable(s[1..], rank, k);
      InsertStable(s[0], SortDesc(s[1..], rank), rank, k);
      GroupAppend([s[0]], s[1..], rank, k);
    }
  }

  lemma {:induction false} InsertWeight<T(!new)>(x: T, s: seq<T>, rank: T -> Rank, w: T -> int)
    ensures Weight(Insert(x, s, rank), w) == w(x) + Weight(s, w)
    decreases |s|
  {
    WeightSnoc([], x, w);
    assert [] + [x] == [x];
    if s == [] || !Ahead(rank(s[0]), rank(x)) {
      WeightAppend([x], s, w);
    } else {
      assert s == [s[0]] + s[1..];
      InsertWeight(x, s[1..], rank, w);
      WeightAppend([s[0]], Insert(x, s[1..], rank), w);
      WeightAppend([s[0]], s[1..], w);
    }
  }

  /** Sorting does not change a sum over the elements. */
  lemma {:induction false} SortWeight<T(!new)>(s: seq<T>, rank: T -> Rank, w: T -> int)
    ensures Weight(SortDesc(s, rank), w) == Weight(s, w)
    decreases |s|
  {
    if s != [] {
      assert s == [s[0]] + s[1..];
      SortWeight(s[1..], rank, w);
      InsertWeight(s[0], SortDesc(s[1..], rank), rank, w);
      WeightAppend([s[0]], s[1..], w);
      WeightSnoc([], s[0], w);
      assert [] + [s[0]] == [s[0]];
    }
  }

  /** A sequence that is already in order is returned unchanged. */
  lemma {:induction false} SortOfSorted<T(!new)>(s: seq<T>, rank: T -> Rank)
    requires Descending(s, rank)
    ensures SortDesc(s, rank) == s
    decreases |s|
  {
    if s != [] {
      assert Descending(s[1..], rank);
      SortOfSorted(s[1..], rank);
      assert s == [s[0]] + s[1..];
    }
  }

  /** When no two elements share a rank, the sorted order is strict. */
  lemma {:induction false} SortStrict<T(!new)>(s: seq<T>, rank: T -> Rank)
    requires forall i, j :: 0 <= i < j < |s| ==> rank(s[i]) != rank(s[j])
    ensures StrictlyDescending(SortDesc(s, rank), rank)
    decreases |s|
  {
    if s != [] {
      var t := SortDesc(s[1..], rank);
      SortStrict(s[1..], rank);
      assert forall y :: y in t ==> rank(y) != rank(s[0]) by {
        forall y | y in t ensures rank(y) != rank(s[0]) {
          assert y in s[1..];
          var j :| 0 <= j < |s[1..]| && s[1..][j] == y;
          assert s[j + 1] == y;
        }
      }
      InsertStrict(s[0], t, rank);
    }
  }

  lemma {:induction false} InsertStrict<T(!new)>(x: T, s: seq<T>, rank: T -> Rank)
    requires StrictlyDescending(s, rank)
    requires forall y :: y in s ==> rank(y) != rank(x)
    ensures StrictlyDescending(Insert(x, s, rank), rank)
    decreases |s|
  {
    if s == [] || !Ahead(rank(s[0]), rank(x)) {
      var r := [x] + s;
      forall i, j | 0 <= i < j < |r| ensures Ahead(rank(r[i]), rank(r[j])) {
        if i > 0 {
          assert r[i] == s[i - 1] && r[j] == s[j - 1];
        } else {
          assert r[j] == s[j - 1];
          assert s[0] in s && s[j - 1] in s;
        }
      }
    } else {
      var t := Insert(x, s[1..], rank);
      assert StrictlyDescending(s[1..], rank);
      assert forall y :: y in s[1..] ==> y in s;
      InsertStrict(x, s[1..], rank);
      forall j | 0 <= j < |t| ensures Ahead(rank(s[0]), rank(t[j])) {
        assert t[j] in t;
        if t[j] != x {
          var k :| 0 <= k < |s[1..]| && s[1..][k] == t[j];
          assert s[k + 1] == t[j];
        }
      }
      var r := [s[0]] + t;
      forall i, j | 0 <= i < j < |r| ensures Ahead(rank(r[i]), rank(r[j])) {
        if i > 0 {
          assert r[i] == t[i - 1] && r[j] == t[j - 1];
        } else {
          assert r[j] == t[j - 1];
        }
      }
    }
  }
}
