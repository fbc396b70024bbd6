/**
 * Python's `collections.Counter` over string keys, as the core uses it:
 * `c[k] += 1` (a missing key counts as 0 and is appended at the end on its
 * first increment), `c[k]`, `sum(c.values())` and `c.most_common(n)`.
 * A counter is its items in insertion order.
 */
module Counters {
  import opened Ranking

  datatype Entry = Entry(key: string, count: nat)

  type Counter = seq<Entry>

  /** The sort key of `most_common`: an item's count. */
  function EntryCount(e: Entry): int
  {
    e.count
  }

  /** The keys, in insertion order. */
  function Keys(c: Counter): seq<string>
  {
    if c == [] then [] else [c[0].key] + Keys(c[1..])
  }

  /** Every counter the core builds: distinct keys, each seen at least once. */
  ghost predicate Valid(c: Counter)
  {
    c == [] || (c[0].count >= 1 && c[0].key !in Keys(c[1..]) && Valid(c[1..]))
  }

  /** `c[k]`, with 0 for a missing key. */
  function Count(c: Counter, k: string): nat
  {
    if c == [] then 0 else (if c[0].key == k then c[0].count else 0) + Count(c[1..], k)
  }

  /** `sum(c.values())`. */
  function Total(c: Counter): nat
  {
    if c == [] then 0 else c[0].count + Total(c[1..])
  }

  /** `c[k] += 1`. */
  function Inc(c: Counter, k: string): (r: Counter)
    ensures Count(r, k) == Count(c, k) + 1
    ensures forall j :: j != k ==> Count(r, j) == Count(c, j)
    ensures Total(r) == Total(c) + 1
    ensures k in Keys(c) ==> Keys(r) == Keys(c)
    ensures k !in Keys(c) ==> Keys(r) == Keys(c) + [k]
    ensures Valid(c) ==> Valid(r)
  {
    if c == [] then [Entry(k, 1)]
    else if c[0].key == k then [Entry(k, c[0].count + 1)] + c[1..]
    else
      var r := [c[0]] + Inc(c[1..], k);
      assert r[1..] == Inc(c[1..], k);
      r
  }

  /** `c.most_common(n)`: the items ranked by count, descending, ties in insertion order, first `n`. */
  function MostCommon(c: Counter, n: nat): (r: seq<Entry>)
    ensures |r| == if n < |c| then n else |c|
  {
    Take(SortDesc(c, EntryCount), n)
  }

  // ----- counters -----

  lemma {:induction false} KeysLength(c: Counter)
    ensures |Keys(c)| == |c|
    ensures forall i :: 0 <= i < |c| ==> Keys(c)[i] == c[i].key
  {
    if c != [] {
      KeysLength(c[1..]);
    }
  }

  /** In a valid counter, a key is present exactly when its count is positive, and each item's count is `c[key]`. */
  lemma {:induction false} ValidCount(c: Counter)
    requires Valid(c)
    ensures forall k :: k in Keys(c) <==> Count(c, k) > 0
    ensures forall e :: e in c ==> e.count >= 1 && Count(c, e.key) == e.count
  {
    if c != [] {
      ValidCount(c[1..]);
      assert c == [c[0]] + c[1..];
      forall e | e in c ensures e.count >= 1 && Count(c, e.key) == e.count {
        if e != c[0] {
          assert e in c[1..];
          KeysLength(c[1..]);
          var i :| 0 <= i < |c[1..]| && c[1..][i] == e;
          assert Keys(c[1..])[i] == e.key;
        }
      }
    }
  }

  /** A counter's total is zero exactly when every count is. */
  lemma {:induction false} TotalOfEmpty(c: Counter)
    ensures Total(c) == 0 <==> forall e :: e in c ==> e.count == 0
  {
    if c != [] {
      TotalOfEmpty(c[1..]);
      assert c == [c[0]] + c[1..];
    }
  }

  // ----- most_common -----

  /** `most_common(n)` is in descending order of count. */
  lemma MostCommonSorted(c: Counter, n: nat)
    ensures SortedDesc(MostCommon(c, n), EntryCount)
  {
    SortDescSorted(c, EntryCount);
  }

  /** `most_common(n)` returns items of the counter, none twice, and leaves out only items whose count is no larger than any kept. */
  lemma MostCommonTop(c: Counter, n: nat)
    ensures multiset(MostCommon(c, n)) <= multiset(c)
    ensures forall e, d :: e in MostCommon(c, n) && d in multiset(c) - multiset(MostCommon(c, n)) ==> d.count <= e.count
  {
    var s := SortDesc(c, EntryCount);
    var m := if n < |s| then n else |s|;
    SortDescPermutation(c, EntryCount);
    SortDescSorted(c, EntryCount);
    SortedPrefixDominates(s, EntryCount, m);
  }

  /** Ties keep insertion order: for every count, the kept items with that count are the first ones inserted with it. */
  lemma MostCommonStable(c: Counter, n: nat, v: int)
    ensures IsPrefixOf(WithKey(MostCommon(c, n), EntryCount, v), WithKey(c, EntryCount, v))
  {
    var s := SortDesc(c, EntryCount);
    var m := if n < |s| then n else |s|;
    SortDescStable(c, EntryCount, v);
    WithKeyTake(s, m, EntryCount, v);
  }

  /** `most_common(1)` of a non-empty counter is its leftmost item with the largest count. */
  lemma MostCommonOne(c: Counter)
    requires c != []
    ensures MostCommon(c, 1) == [c[FirstMaxIndex(c, EntryCount)]]
    ensures forall j :: 0 <= j < |c| ==> c[j].count <= MostCommon(c, 1)[0].count
    ensures forall j :: 0 <= j < FirstMaxIndex(c, EntryCount) ==> c[j].count < MostCommon(c, 1)[0].count
  {
    SortDescHead(c, EntryCount);
    FirstMaxIndexIsLeftmostMax(c, EntryCount);
    var i := FirstMaxIndex(c, EntryCount);
    forall j | 0 <= j < |c| ensures c[j].count <= c[i].count {
      assert EntryCount(c[j]) <= EntryCount(c[i]);
    }
    forall j | 0 <= j < i ensures c[j].count < c[i].count {
      assert EntryCount(c[j]) < EntryCount(c[i]);
    }
  }

  /**
   * `r` is a top-`n` ranking of `c`: at most `n` items of `c`, highest count
   * first, nothing left out counting more than anything kept, and for every
   * count the kept items with it are the first inserted with it.
   */
  ghost predicate IsTopRanking(r: seq<Entry>, c: Counter, n: nat)
  {
    && |r| == (if n < |c| then n else |c|)
    && SortedDesc(r, EntryCount)
    && multiset(r) <= multiset(c)
    && (forall e, d :: e in r && d in multiset(c) - multiset(r) ==> d.count <= e.count)
    && (forall v :: IsPrefixOf(WithKey(r, EntryCount, v), WithKey(c, EntryCount, v)))
  }

  /** `most_common(n)` is a top-`n` ranking. */
  lemma MostCommonRanks(c: Counter, n: nat)
    ensures IsTopRanking(MostCommon(c, n), c, n)
  {
    MostCommonSorted(c, n);
    MostCommonTop(c, n);
    forall v ensures IsPrefixOf(WithKey(MostCommon(c, n), EntryCount, v), WithKey(c, EntryCount, v)) {
      MostCommonStable(c, n, v);
    }
  }

  /** The items `most_common` returns are items of the counter; for a valid counter they carry positive counts. */
  lemma MostCommonItems(c: Counter, n: nat)
    requires Valid(c)
    ensures forall e :: e in MostCommon(c, n) ==> e in c && e.count >= 1 && Count(c, e.key) == e.count
  {
    MostCommonTop(c, n);
    ValidCount(c);
    forall e | e in MostCommon(c, n) ensures e in c {
      assert e in multiset(MostCommon(c, n));
    }
  }

  // ----- insertion order -----

  /** The position of the first `k` in `s`, or `|s|` when `k` does not occur. */
  function FirstAt(s: seq<string>, k: string): (i: nat)
    ensures i <= |s|
    ensures i < |s| ==> s[i] == k
    ensures forall j :: 0 <= j < i ==> s[j] != k
  {
    if s == [] then 0
    else
      var f := FirstAt(s[..|s| - 1], k);
      if f < |s| - 1 then f else if s[|s| - 1] == k then |s| - 1 else |s|
  }

  /** `k` occurs in `s` exactly when its first position is inside `s`. */
  lemma FirstAtInside(s: seq<string>, k: string)
    ensures k in s <==> FirstAt(s, k) < |s|
  {
    if k in s {
      var j :| 0 <= j < |s| && s[j] == k;
    }
  }

  /** The first position of `k` in `s + t`: in `s` when it occurs there, otherwise past `s`. */
  lemma FirstAtAppend(s: seq<string>, t: seq<string>, k: string)
    ensures FirstAt(s + t, k) == if k in s then FirstAt(s, k) else |s| + FirstAt(t, k)
  {
    FirstAtInside(s, k);
    if k in s {
      var g := FirstAt(s, k);
      assert (s + t)[g] == k;
      assert forall j :: 0 <= j < g ==> (s + t)[j] == s[j];
    } else {
      var g := FirstAt(t, k);
      assert forall j :: 0 <= j < |s| ==> (s + t)[j] == s[j];
      assert forall j :: 0 <= j < g ==> (s + t)[|s| + j] == t[j];
      if g < |t| {
        assert (s + t)[|s| + g] == k;
      }
    }
  }

  /**
   * The keys of a counter with keys `known` after `c[k] += 1` for each `k`
   * of `ks` in turn: each new key is appended at its first increment.
   */
  function Arrivals(known: seq<string>, ks: seq<string>): seq<string>
  {
    if ks == [] then known
    else
      var prev := Arrivals(known, ks[..|ks| - 1]);
      if ks[|ks| - 1] in prev then prev else prev + [ks[|ks| - 1]]
  }

  /** One more increment appends its key when the key is new. */
  lemma ArrivalsSnoc(known: seq<string>, ks: seq<string>, k: string)
    ensures Arrivals(known, ks + [k]) == if k in Arrivals(known, ks) then Arrivals(known, ks) else Arrivals(known, ks) + [k]
  {
    assert (ks + [k])[..|ks|] == ks;
  }

  /** Increments `ks` then `ls` add the keys that `ks + ls` adds. */
  lemma {:induction false} ArrivalsAppend(known: seq<string>, ks: seq<string>, ls: seq<string>)
    ensures Arrivals(known, ks + ls) == Arrivals(Arrivals(known, ks), ls)
  {
    if ls == [] {
      assert ks + ls == ks;
    } else {
      ArrivalsAppend(known, ks, ls[..|ls| - 1]);
      assert (ks + ls)[..|ks + ls| - 1] == ks + ls[..|ls| - 1];
      assert (ks + ls)[|ks + ls| - 1] == ls[|ls| - 1];
    }
  }

  /**
   * After the increments `ks` the keys are those known or incremented, and
   * they stand in the order of their first occurrence in `known + ks`.
   */
  lemma {:induction false} ArrivalsOrder(known: seq<string>, ks: seq<string>)
    ensures forall k :: k in Arrivals(known, ks) <==> k in known + ks
    ensures forall a, b :: a in known + ks && b in known + ks ==>
      (FirstAt(Arrivals(known, ks), a) < FirstAt(Arrivals(known, ks), b) <==> FirstAt(known + ks, a) < FirstAt(known + ks, b))
  {
    if ks == [] {
      assert known + ks == known;
    } else {
      var init := ks[..|ks| - 1];
      var x := ks[|ks| - 1];
      ArrivalsOrder(known, init);
      var s := known + init;
      var p := Arrivals(known, init);
      assert known + ks == s + [x];
      forall a, b | a in s + [x] && b in s + [x]
        ensures FirstAt(Arrivals(known, ks), a) < FirstAt(Arrivals(known, ks), b) <==> FirstAt(s + [x], a) < FirstAt(s + [x], b)
      {
        FirstAtAppend(s, [x], a);
        FirstAtAppend(s, [x], b);
        FirstAtInside(s, a);
        FirstAtInside(s, b);
        FirstAtInside(p, a);
        FirstAtInside(p, b);
        if x !in p {
          FirstAtAppend(p, [x], a);
          FirstAtAppend(p, [x], b);
        }
      }
    }
  }
}
