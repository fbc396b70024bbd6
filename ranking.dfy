/**
 * Python's stable descending sort, `sorted(s, key=key, reverse=True)`, which is
 * what both `list.sort(key=..., reverse=True)` and `Counter.most_common` do:
 * larger keys first, and elements with equal keys keep their input order.
 * It is modelled as an insertion sort; the lemmas below state the three
 * things Python promises (a permutation, descending, stable) and how the sort
 * interacts with a threshold filter.
 */
module Ranking {

  /** Python's `s[:n]` for a non-negative `n`: the first `n` elements, or all of them. */
  function Take<T>(s: seq<T>, n: nat): (r: seq<T>)
    ensures |r| == if n < |s| then n else |s|
    ensures r == s[..|r|]
  {
    s[..if n < |s| then n else |s|]
  }

  /** Put `x` in front of the first element whose key does not exceed `x`'s. */
  function Insert<T>(x: T, s: seq<T>, key: T -> int): (r: seq<T>)
    ensures |r| == |s| + 1
  {
    if s == [] || key(s[0]) <= key(x) then [x] + s else [s[0]] + Insert(x, s[1..], key)
  }

  /** `sorted(s, key=key, reverse=True)`. */
  function SortDesc<T>(s: seq<T>, key: T -> int): (r: seq<T>)
    ensures |r| == |s|
  {
    if s == [] then [] else Insert(s[0], SortDesc(s[1..], key), key)
  }

  predicate SortedDesc<T>(s: seq<T>, key: T -> int)
  {
    forall i, j :: 0 <= i < j < |s| ==> key(s[i]) >= key(s[j])
  }

  /** The elements of `s` whose key is `v`, in their order in `s`. */
  function WithKey<T>(s: seq<T>, key: T -> int, v: int): seq<T>
  {
    if s == [] then [] else (if key(s[0]) == v then [s[0]] else []) + WithKey(s[1..], key, v)
  }

  /** `[x for x in s if key(x) >= t]`. */
  function AtLeast<T>(s: seq<T>, key: T -> int, t: int): (r: seq<T>)
    ensures |r| <= |s|
  {
    if s == [] then [] else (if key(s[0]) >= t then [s[0]] else []) + AtLeast(s[1..], key, t)
  }

  ghost predicate IsPrefixOf<T>(p: seq<T>, s: seq<T>)
  {
    |p| <= |s| && s[..|p|] == p
  }

  // ----- Insert -----

  lemma {:induction false} InsertMultiset<T>(x: T, s: seq<T>, key: T -> int)
    ensures multiset(Insert(x, s, key)) == multiset(s) + multiset{x}
  {
    if s != [] && key(s[0]) > key(x) {
      InsertMultiset(x, s[1..], key);
      assert s == [s[0]] + s[1..];
    }
  }

  lemma {:induction false} InsertSorted<T>(x: T, s: seq<T>, key: T -> int)
    requires SortedDesc(s, key)
    ensures SortedDesc(Insert(x, s, key), key)
  {
    if s != [] && key(s[0]) > key(x) {
      InsertSorted(x, s[1..], key);
      InsertMultiset(x, s[1..], key);
      var r := Insert(x, s, key);
      forall j | 1 <= j < |r| ensures key(r[0]) >= key(r[j]) {
        var u := Insert(x, s[1..], key);
        assert r[j] == u[j - 1];
        assert u[j - 1] in multiset(u);
        assert u[j - 1] in multiset(s[1..]) || u[j - 1] == x;
        if u[j - 1] != x {
          var m :| 0 <= m < |s[1..]| && s[1..][m] == u[j - 1];
          assert s[m + 1] == u[j - 1];
        }
      }
    }
  }

  lemma WithKeyCons<T>(y: T, t: seq<T>, key: T -> int, v: int)
    ensures WithKey([y] + t, key, v) == (if key(y) == v then [y] else []) + WithKey(t, key, v)
  {
    assert ([y] + t)[1..] == t;
  }

  lemma {:induction false} InsertWithKey<T>(x: T, s: seq<T>, key: T -> int, v: int)
    ensures WithKey(Insert(x, s, key), key, v) == (if key(x) == v then [x] else []) + WithKey(s, key, v)
  {
    if s == [] || key(s[0]) <= key(x) {
      WithKeyCons(x, s, key, v);
    } else {
      var u := Insert(x, s[1..], key);
      InsertWithKey(x, s[1..], key, v);
      WithKeyCons(s[0], u, key, v);
      WithKeyCons(s[0], s[1..], key, v);
      assert [s[0]] + s[1..] == s;
      if key(x) == v {
        assert key(s[0]) != v;
      }
    }
  }

  // ----- what the sort promises -----

  /** The result is a rearrangement of the input. */
  lemma {:induction false} SortDescPermutation<T>(s: seq<T>, key: T -> int)
    ensures multiset(SortDesc(s, key)) == multiset(s)
  {
    if s != [] {
      SortDescPermutation(s[1..], key);
      InsertMultiset(s[0], SortDesc(s[1..], key), key);
      assert s == [s[0]] + s[1..];
    }
  }

  /** The result is in descending order of key. */
  lemma {:induction false} SortDescSorted<T>(s: seq<T>, key: T -> int)
    ensures SortedDesc(SortDesc(s, key), key)
  {
    if s != [] {
      SortDescSorted(s[1..], key);
      InsertSorted(s[0], SortDesc(s[1..], key), key);
    }
  }

  /** The sort is stable: the elements sharing any one key keep their input order. */
  lemma {:induction false} SortDescStable<T>(s: seq<T>, key: T -> int, v: int)
    ensures WithKey(SortDesc(s, key), key, v) == WithKey(s, key, v)
  {
    if s != [] {
      SortDescStable(s[1..], key, v);
      InsertWithKey(s[0], SortDesc(s[1..], key), key, v);
    }
  }

  // ----- sorting and a threshold -----

  lemma {:induction false} InsertAtFront<T>(x: T, s: seq<T>, key: T -> int)
    requires s == [] || key(s[0]) <= key(x)
    ensures Insert(x, s, key) == [x] + s
  {
  }

  lemma {:induction false} AtLeastHeadBound<T>(s: seq<T>, key: T -> int, t: int)
    requires SortedDesc(s, key) && s != []
    ensures AtLeast(s, key, t) == [] || key(AtLeast(s, key, t)[0]) <= key(s[0])
  {
    if key(s[0]) < t && s[1..] != [] {
      AtLeastHeadBound(s[1..], key, t);
    }
  }

  lemma {:induction false} AtLeastInsert<T>(x: T, s: seq<T>, key: T -> int, t: int)
    requires SortedDesc(s, key)
    ensures AtLeast(Insert(x, s, key), key, t)
            == if key(x) >= t then Insert(x, AtLeast(s, key, t), key) else AtLeast(s, key, t)
  {
    if s == [] {
    } else if key(s[0]) <= key(x) {
      assert ([x] + s)[1..] == s;
      if key(x) >= t {
        AtLeastHeadBound(s, key, t);
        InsertAtFront(x, AtLeast(s, key, t), key);
      }
    } else {
      AtLeastInsert(x, s[1..], key, t);
      assert ([s[0]] + Insert(x, s[1..], key))[1..] == Insert(x, s[1..], key);
    }
  }

  /** Filtering the ranking by a threshold is ranking the filtered input. */
  lemma {:induction false} AtLeastSortDesc<T>(s: seq<T>, key: T -> int, t: int)
    ensures AtLeast(SortDesc(s, key), key, t) == SortDesc(AtLeast(s, key, t), key)
  {
    if s != [] {
      AtLeastSortDesc(s[1..], key, t);
      SortDescSorted(s[1..], key);
      AtLeastInsert(s[0], SortDesc(s[1..], key), key, t);
      var rest := AtLeast(s[1..], key, t);
      if key(s[0]) >= t {
        assert AtLeast(s, key, t) == [s[0]] + rest;
        assert ([s[0]] + rest)[1..] == rest;
      } else {
        assert AtLeast(s, key, t) == rest;
      }
    }
  }

  /** In a descending sequence, the elements at or above a threshold form a prefix. */
  lemma {:induction false} AtLeastOfSortedIsPrefix<T>(s: seq<T>, key: T -> int, t: int)
    requires SortedDesc(s, key)
    ensures IsPrefixOf(AtLeast(s, key, t), s)
  {
    if s != [] {
      var rest := s[1..];
      assert SortedDesc(rest, key) by {
        forall i, j | 0 <= i < j < |rest| ensures key(rest[i]) >= key(rest[j]) {
          assert rest[i] == s[i + 1] && rest[j] == s[j + 1];
        }
      }
      AtLeastOfSortedIsPrefix(rest, key, t);
      if key(s[0]) < t {
        forall i | 0 <= i < |rest| ensures key(rest[i]) < t {
          assert rest[i] == s[i + 1];
        }
        AtLeastNone(rest, key, t);
        assert AtLeast(s, key, t) == [];
      } else {
        var p := AtLeast(rest, key, t);
        assert AtLeast(s, key, t) == [s[0]] + p;
        assert s[..|p| + 1] == [s[0]] + rest[..|p|];
      }
    }
  }

  lemma {:induction false} AtLeastNone<T>(s: seq<T>, key: T -> int, t: int)
    requires forall i :: 0 <= i < |s| ==> key(s[i]) < t
    ensures AtLeast(s, key, t) == []
  {
    if s != [] {
      AtLeastNone(s[1..], key, t);
    }
  }

  /** Filtering at a lower threshold and then at a higher one is filtering at the higher one. */
  lemma {:induction false} AtLeastTwice<T>(s: seq<T>, key: T -> int, t1: int, t2: int)
    requires t1 <= t2
    ensures AtLeast(AtLeast(s, key, t1), key, t2) == AtLeast(s, key, t2)
  {
    if s != [] {
      AtLeastTwice(s[1..], key, t1, t2);
      var rest := AtLeast(s[1..], key, t1);
      if key(s[0]) >= t1 {
        assert AtLeast(s, key, t1) == [s[0]] + rest;
        assert ([s[0]] + rest)[1..] == rest;
      } else {
        assert AtLeast(s, key, t1) == rest;
        assert AtLeast(s, key, t2) == AtLeast(s[1..], key, t2);
      }
    }
  }

  /** Raising the threshold keeps a prefix of the ranked result. */
  lemma ThresholdMonotone<T>(s: seq<T>, key: T -> int, t1: int, t2: int)
    requires t1 <= t2
    ensures IsPrefixOf(SortDesc(AtLeast(s, key, t2), key), SortDesc(AtLeast(s, key, t1), key))
  {
    var low := AtLeast(s, key, t1);
    AtLeastTwice(s, key, t1, t2);
    AtLeastSortDesc(low, key, t2);
    SortDescSorted(low, key);
    AtLeastOfSortedIsPrefix(SortDesc(low, key), key, t2);
  }

  // ----- facts about the filters -----

  lemma {:induction false} AtLeastMembers<T>(s: seq<T>, key: T -> int, t: int)
    ensures forall x :: multiset(AtLeast(s, key, t))[x] == if key(x) >= t then multiset(s)[x] else 0
  {
    if s != [] {
      AtLeastMembers(s[1..], key, t);
      assert s == [s[0]] + s[1..];
    }
  }

  lemma AtLeastCons<T>(y: T, u: seq<T>, key: T -> int, t: int)
    ensures AtLeast([y] + u, key, t) == (if key(y) >= t then [y] else []) + AtLeast(u, key, t)
  {
    assert ([y] + u)[1..] == u;
  }

  lemma {:induction false} AtLeastSnoc<T>(s: seq<T>, x: T, key: T -> int, t: int)
    ensures AtLeast(s + [x], key, t) == AtLeast(s, key, t) + (if key(x) >= t then [x] else [])
  {
    if s == [] {
      AtLeastCons(x, [], key, t);
      assert [] + [x] == [x] + [];
    } else {
      var h0 := if key(s[0]) >= t then [s[0]] else [];
      var hx := if key(x) >= t then [x] else [];
      var rest := AtLeast(s[1..], key, t);
      AtLeastSnoc(s[1..], x, key, t);
      assert s + [x] == [s[0]] + (s[1..] + [x]);
      AtLeastCons(s[0], s[1..] + [x], key, t);
      assert AtLeast(s + [x], key, t) == h0 + (rest + hx);
      assert AtLeast(s, key, t) == h0 + rest;
      assert h0 + (rest + hx) == (h0 + rest) + hx;
    }
  }

  /** Among the elements kept by a threshold, those with key `v` are all of them if `v` passes and none otherwise. */
  lemma {:induction false} WithKeyAtLeast<T>(s: seq<T>, key: T -> int, t: int, v: int)
    ensures WithKey(AtLeast(s, key, t), key, v) == if v >= t then WithKey(s, key, v) else []
  {
    if s != [] {
      WithKeyAtLeast(s[1..], key, t, v);
      var rest := AtLeast(s[1..], key, t);
      if key(s[0]) >= t {
        assert AtLeast(s, key, t) == [s[0]] + rest;
        assert ([s[0]] + rest)[1..] == rest;
      } else {
        assert AtLeast(s, key, t) == rest;
      }
    }
  }

  lemma {:induction false} WithKeyAppend<T>(a: seq<T>, b: seq<T>, key: T -> int, v: int)
    ensures WithKey(a + b, key, v) == WithKey(a, key, v) + WithKey(b, key, v)
  {
    if a != [] {
      WithKeyAppend(a[1..], b, key, v);
      assert (a + b)[0] == a[0];
      assert (a + b)[1..] == a[1..] + b;
    } else {
      assert a + b == b;
    }
  }

  /** Taking a prefix keeps, for every key, a prefix of the elements with that key. */
  lemma WithKeyTake<T>(s: seq<T>, n: nat, key: T -> int, v: int)
    requires n <= |s|
    ensures IsPrefixOf(WithKey(s[..n], key, v), WithKey(s, key, v))
  {
    WithKeyAppend(s[..n], s[n..], key, v);
    assert s[..n] + s[n..] == s;
  }

  /** Cutting a descending sequence after `m` elements keeps the largest keys: nothing cut is larger than anything kept. */
  lemma SortedPrefixDominates<T>(s: seq<T>, key: T -> int, m: nat)
    requires SortedDesc(s, key) && m <= |s|
    ensures multiset(s[..m]) <= multiset(s)
    ensures forall x, y :: x in s[..m] && y in multiset(s) - multiset(s[..m]) ==> key(y) <= key(x)
  {
    assert s == s[..m] + s[m..];
    assert multiset(s) == multiset(s[..m]) + multiset(s[m..]);
    assert multiset(s) - multiset(s[..m]) == multiset(s[m..]);
    forall x, y | x in s[..m] && y in multiset(s) - multiset(s[..m]) ensures key(y) <= key(x) {
      var p :| 0 <= p < m && s[..m][p] == x;
      assert y in s[m..];
      var q :| 0 <= q < |s| - m && s[m..][q] == y;
      assert s[m + q] == y && s[p] == x;
    }
  }

  // ----- the head of the ranking -----

  /** The position of the leftmost element with the largest key (an independent, linear-scan definition). */
  function FirstMaxIndex<T>(s: seq<T>, key: T -> int): (i: nat)
    requires s != []
    ensures i < |s|
  {
    if |s| == 1 then 0
    else
      var j := FirstMaxIndex(s[1..], key);
      if key(s[0]) >= key(s[1..][j]) then 0 else j + 1
  }

  /** FirstMaxIndex is what its name says: no key is larger, and every element before it is smaller. */
  lemma {:induction false} FirstMaxIndexIsLeftmostMax<T>(s: seq<T>, key: T -> int)
    requires s != []
    ensures forall j :: 0 <= j < |s| ==> key(s[j]) <= key(s[FirstMaxIndex(s, key)])
    ensures forall j :: 0 <= j < FirstMaxIndex(s, key) ==> key(s[j]) < key(s[FirstMaxIndex(s, key)])
  {
    if |s| > 1 {
      FirstMaxIndexIsLeftmostMax(s[1..], key);
      var i := FirstMaxIndex(s, key);
      forall j | 0 < j < |s| ensures key(s[j]) <= key(s[i]) {
        assert s[j] == s[1..][j - 1];
      }
      forall j | 0 < j < i ensures key(s[j]) < key(s[i]) {
        assert s[j] == s[1..][j - 1];
      }
    }
  }

  /** The first element of the ranking is the leftmost element with the largest key. */
  lemma {:induction false} SortDescHead<T>(s: seq<T>, key: T -> int)
    requires s != []
    ensures SortDesc(s, key)[0] == s[FirstMaxIndex(s, key)]
  {
    if |s| > 1 {
      SortDescHead(s[1..], key);
    }
  }
}
