/**
 * The stable sort every JavaScript engine gives `Array.prototype.sort`: elements ordered by a key, equal keys in
 * the order they came.  A stable sort is determined by what stands under each key, which is how this project
 * shows results independent of listing order.
 */
module StableSort {
  /** A comparator's verdict as a key: compared by `a`, then `b`, then `c`. */
  datatype Key = Key(a: int, b: int, c: int)

  predicate Leq(x: Key, y: Key) {
    x.a < y.a || (x.a == y.a && (x.b < y.b || (x.b == y.b && x.c <= y.c)))
  }

  predicate Less(x: Key, y: Key) {
    Leq(x, y) && x != y
  }

  /** Ascending, adjacent pair by adjacent pair from the end. */
  predicate IsSorted<T>(s: seq<T>, key: T -> Key)
    decreases |s|
  {
    |s| <= 1 || (Leq(key(s[|s| - 2]), key(s[|s| - 1])) && IsSorted(s[..|s| - 1], key))
  }

  lemma {:induction false} SortedAppend<T>(s: seq<T>, x: T, key: T -> Key)
    requires IsSorted(s, key) && (s != [] ==> Leq(key(s[|s| - 1]), key(x)))
    ensures IsSorted(s + [x], key)
  {
    var t := s + [x];
    assert t[..|t| - 1] == s;
    assert s != [] ==> t[|t| - 2] == s[|s| - 1];
  }

  /** Place `x` after every element whose key does not exceed its own. */
  function Insert<T>(s: seq<T>, x: T, key: T -> Key): seq<T>
    decreases |s|
  {
    if s == [] then [x]
    else if Leq(key(s[|s| - 1]), key(x)) then s + [x]
    else Insert(s[..|s| - 1], x, key) + [s[|s| - 1]]
  }

  function Sort<T>(s: seq<T>, key: T -> Key): seq<T>
    decreases |s|
  {
    if s == [] then [] else Insert(Sort(s[..|s| - 1], key), s[|s| - 1], key)
  }

  /** The elements under one key, in order. */
  function Under<T>(s: seq<T>, k: Key, key: T -> Key): seq<T>
    decreases |s|
  {
    if s == [] then []
    else
      var earlier := Under(s[..|s| - 1], k, key);
      if key(s[|s| - 1]) == k then earlier + [s[|s| - 1]] else earlier
  }

  lemma {:induction false} UnderAppend<T>(s: seq<T>, x: T, k: Key, key: T -> Key)
    ensures Under(s + [x], k, key) == if key(x) == k then Under(s, k, key) + [x] else Under(s, k, key)
  {
  }

  lemma {:induction false} UnderConcat<T>(s: seq<T>, t: seq<T>, k: Key, key: T -> Key)
    ensures Under(s + t, k, key) == Under(s, k, key) + Under(t, k, key)
    decreases |t|
  {
    if t == [] {
      assert s + t == s;
    } else {
      var t0, x := t[..|t| - 1], t[|t| - 1];
      assert s + t == (s + t0) + [x];
      UnderAppend(s + t0, x, k, key);
      UnderConcat(s, t0, k, key);
    }
  }

  lemma {:induction false} InsertSorted<T>(s: seq<T>, x: T, key: T -> Key)
    requires IsSorted(s, key)
    ensures IsSorted(Insert(s, x, key), key)
    ensures var r := Insert(s, x, key);
            r != [] && (r[|r| - 1] == x || (s != [] && r[|r| - 1] == s[|s| - 1] && Less(key(x), key(s[|s| - 1]))))
    decreases |s|
  {
    if s != [] {
      var s0, y := s[..|s| - 1], s[|s| - 1];
      if Leq(key(y), key(x)) {
        SortedAppend(s, x, key);
      } else {
        InsertSorted(s0, x, key);
        SortedAppend(Insert(s0, x, key), y, key);
      }
    }
  }

  lemma {:induction false} SortSorted<T>(s: seq<T>, key: T -> Key)
    ensures IsSorted(Sort(s, key), key)
    decreases |s|
  {
    if s != [] {
      SortSorted(s[..|s| - 1], key);
      InsertSorted(Sort(s[..|s| - 1], key), s[|s| - 1], key);
    }
  }

  lemma {:induction false} UnderDropLast<T>(s: seq<T>, k: Key, key: T -> Key)
    requires s != []
    ensures var s0, y := s[..|s| - 1], s[|s| - 1];
            Under(s, k, key) == if key(y) == k then Under(s0, k, key) + [y] else Under(s0, k, key)
  {
  }

  lemma {:induction false} InsertUnder<T>(s: seq<T>, x: T, k: Key, key: T -> Key)
    ensures Under(Insert(s, x, key), k, key) == Under(s + [x], k, key)
    decreases |s|
  {
    if s != [] && !Leq(key(s[|s| - 1]), key(x)) {
      var s0, y := s[..|s| - 1], s[|s| - 1];
      InsertUnder(s0, x, k, key);
      UnderAppend(Insert(s0, x, key), y, k, key);
      UnderAppend(s0, x, k, key);
      UnderAppend(s, x, k, key);
      UnderDropLast(s, k, key);
      if key(x) == k {
        assert key(y) != k;
      }
    } else if s == [] {
      assert s + [x] == [x];
    }
  }

  /** Sorting keeps what stands under each key, in order: the sort is stable and loses nothing. */
  lemma {:induction false} SortUnder<T>(s: seq<T>, k: Key, key: T -> Key)
    ensures Under(Sort(s, key), k, key) == Under(s, k, key)
    decreases |s|
  {
    if s != [] {
      SortUnder(s[..|s| - 1], k, key);
      InsertUnder(Sort(s[..|s| - 1], key), s[|s| - 1], k, key);
      UnderAppend(Sort(s[..|s| - 1], key), s[|s| - 1], k, key);
    }
  }

  lemma {:induction false} UnderLast<T>(s: seq<T>, key: T -> Key)
    requires s != []
    ensures var u := Under(s, key(s[|s| - 1]), key);
            u != [] && u[|u| - 1] == s[|s| - 1]
  {
  }

  lemma {:induction false} UnderStored<T>(s: seq<T>, k: Key, key: T -> Key)
    requires Under(s, k, key) != []
    ensures exists i :: 0 <= i < |s| && key(s[i]) == k
    decreases |s|
  {
    if key(s[|s| - 1]) != k {
      UnderStored(s[..|s| - 1], k, key);
      var i :| 0 <= i < |s| - 1 && key(s[..|s| - 1][i]) == k;
      assert key(s[i]) == k;
    }
  }

  lemma {:induction false} LastIsGreatest<T>(s: seq<T>, i: nat, key: T -> Key)
    requires IsSorted(s, key) && i < |s|
    ensures Leq(key(s[i]), key(s[|s| - 1]))
    decreases |s|
  {
    if i < |s| - 1 {
      assert s[..|s| - 1][i] == s[i];
      LastIsGreatest(s[..|s| - 1], i, key);
    }
  }

  lemma {:induction false} SortedPairs<T>(s: seq<T>, i: nat, j: nat, key: T -> Key)
    requires IsSorted(s, key) && i <= j < |s|
    ensures Leq(key(s[i]), key(s[j]))
    decreases |s|
  {
    if j == |s| - 1 {
      LastIsGreatest(s, i, key);
    } else {
      SortedPairs(s[..|s| - 1], i, j, key);
    }
  }

  /** Two sorted sequences with the same elements under every key are the same sequence. */
  lemma {:induction false} SortedIsDetermined<T>(s: seq<T>, t: seq<T>, key: T -> Key)
    requires IsSorted(s, key) && IsSorted(t, key)
    requires forall k :: Under(s, k, key) == Under(t, k, key)
    ensures s == t
    decreases |s|
  {
    if s == [] {
      if t != [] {
        UnderLast(t, key);
      }
    } else if t == [] {
      UnderLast(s, key);
    } else {
      LastsAgree(s, t, key);
      var s0, t0 := s[..|s| - 1], t[..|t| - 1];
      forall k ensures Under(s0, k, key) == Under(t0, k, key) {
        assert Under(s, k, key) == Under(t, k, key);
        UnderFronts(s, t, k, key);
      }
      SortedIsDetermined(s0, t0, key);
      assert s == s[..|s| - 1] + [s[|s| - 1]];
    }
  }

  lemma {:induction false} UnderFronts<T>(s: seq<T>, t: seq<T>, k: Key, key: T -> Key)
    requires s != [] && t != [] && s[|s| - 1] == t[|t| - 1]
    requires Under(s, k, key) == Under(t, k, key)
    ensures Under(s[..|s| - 1], k, key) == Under(t[..|t| - 1], k, key)
  {
    var u, v := Under(s[..|s| - 1], k, key), Under(t[..|t| - 1], k, key);
    if key(s[|s| - 1]) == k {
      assert u == (u + [s[|s| - 1]])[..|u|];
      assert v == (v + [t[|t| - 1]])[..|v|];
    }
  }

  lemma {:induction false} LastsAgree<T>(s: seq<T>, t: seq<T>, key: T -> Key)
    requires s != [] && t != [] && IsSorted(s, key) && IsSorted(t, key)
    requires forall k :: Under(s, k, key) == Under(t, k, key)
    ensures s[|s| - 1] == t[|t| - 1]
  {
    var x, y := s[|s| - 1], t[|t| - 1];
    UnderLast(s, key);
    UnderLast(t, key);
    assert Under(s, key(x), key) == Under(t, key(x), key);
    assert Under(s, key(y), key) == Under(t, key(y), key);
    UnderStored(t, key(x), key);
    UnderStored(s, key(y), key);
    var i :| 0 <= i < |t| && key(t[i]) == key(x);
    var j :| 0 <= j < |s| && key(s[j]) == key(y);
    LastIsGreatest(t, i, key);
    LastIsGreatest(s, j, key);
  }

  /** So sorting forgets the listing order, up to what stands under each key. */
  lemma {:induction false} SortForgetsOrder<T>(s: seq<T>, t: seq<T>, key: T -> Key)
    requires forall k :: Under(s, k, key) == Under(t, k, key)
    ensures Sort(s, key) == Sort(t, key)
  {
    SortSorted(s, key);
    SortSorted(t, key);
    forall k ensures Under(Sort(s, key), k, key) == Under(Sort(t, key), k, key) {
      SortUnder(s, k, key);
      SortUnder(t, k, key);
    }
    SortedIsDetermined(Sort(s, key), Sort(t, key), key);
  }

  lemma {:induction false} InsertContains<T>(s: seq<T>, x: T, key: T -> Key)
    ensures forall y :: y in Insert(s, x, key) <==> y in s || y == x
    decreases |s|
  {
    if s != [] && !Leq(key(s[|s| - 1]), key(x)) {
      InsertContains(s[..|s| - 1], x, key);
      assert s == s[..|s| - 1] + [s[|s| - 1]];
    }
  }

  lemma {:induction false} SortContains<T>(s: seq<T>, key: T -> Key)
    ensures forall y :: y in Sort(s, key) <==> y in s
    decreases |s|
  {
    if s != [] {
      SortContains(s[..|s| - 1], key);
      InsertContains(Sort(s[..|s| - 1], key), s[|s| - 1], key);
      assert s == s[..|s| - 1] + [s[|s| - 1]];
    }
  }

  lemma {:induction false} InsertMultiset<T>(s: seq<T>, x: T, key: T -> Key)
    ensures multiset(Insert(s, x, key)) == multiset(s) + multiset{x}
    decreases |s|
  {
    if s != [] && !Leq(key(s[|s| - 1]), key(x)) {
      InsertMultiset(s[..|s| - 1], x, key);
      assert s == s[..|s| - 1] + [s[|s| - 1]];
    }
  }

  lemma {:induction false} SortMultiset<T>(s: seq<T>, key: T -> Key)
    ensures multiset(Sort(s, key)) == multiset(s)
    decreases |s|
  {
    if s != [] {
      SortMultiset(s[..|s| - 1], key);
      InsertMultiset(Sort(s[..|s| - 1], key), s[|s| - 1], key);
      assert s == s[..|s| - 1] + [s[|s| - 1]];
    }
  }

  /** A total over the elements. */
  function SumBy<T>(s: seq<T>, f: T -> real): real
    decreases |s|
  {
    if s == [] then 0.0 else SumBy(s[..|s| - 1], f) + f(s[|s| - 1])
  }

  lemma {:induction false} SumAppend<T>(s: seq<T>, x: T, f: T -> real)
    ensures SumBy(s + [x], f) == SumBy(s, f) + f(x)
  {
  }

  lemma {:induction false} SumConcat<T>(s: seq<T>, t: seq<T>, f: T -> real)
    ensures SumBy(s + t, f) == SumBy(s, f) + SumBy(t, f)
    decreases |t|
  {
    if t == [] {
      assert s + t == s;
    } else {
      assert s + t == (s + t[..|t| - 1]) + [t[|t| - 1]];
      SumAppend(s + t[..|t| - 1], t[|t| - 1], f);
      SumConcat(s, t[..|t| - 1], f);
    }
  }

  lemma {:induction false} InsertSum<T>(s: seq<T>, x: T, key: T -> Key, f: T -> real)
    ensures SumBy(Insert(s, x, key), f) == SumBy(s, f) + f(x)
    decreases |s|
  {
    if s == [] || Leq(key(s[|s| - 1]), key(x)) {
      SumAppend(s, x, f);
    } else {
      InsertSum(s[..|s| - 1], x, key, f);
      SumAppend(Insert(s[..|s| - 1], x, key), s[|s| - 1], f);
    }
  }

  lemma {:induction false} SortSum<T>(s: seq<T>, key: T -> Key, f: T -> real)
    ensures SumBy(Sort(s, key), f) == SumBy(s, f)
    decreases |s|
  {
    if s != [] {
      SortSum(s[..|s| - 1], key, f);
      InsertSum(Sort(s[..|s| - 1], key), s[|s| - 1], key, f);
    }
  }

  // ---------------------------------------------------------------------------------------------
  // Keys that differ
  // ---------------------------------------------------------------------------------------------

  ghost predicate Distinct<T>(s: seq<T>, key: T -> Key) {
    forall i, j :: 0 <= i < j < |s| ==> key(s[i]) != key(s[j])
  }

  lemma {:induction false} UnderNone<T>(s: seq<T>, k: Key, key: T -> Key)
    requires forall x :: x in s ==> key(x) != k
    ensures Under(s, k, key) == []
    decreases |s|
  {
    if s != [] {
      assert s[|s| - 1] in s && forall x :: x in s[..|s| - 1] ==> x in s;
      UnderNone(s[..|s| - 1], k, key);
    }
  }

  lemma {:induction false} UnderOne<T>(s: seq<T>, i: nat, key: T -> Key)
    requires Distinct(s, key) && i < |s|
    ensures Under(s, key(s[i]), key) == [s[i]]
    decreases |s|
  {
    var front := s[..|s| - 1];
    if i < |s| - 1 {
      UnderOne(front, i, key);
    } else {
      UnderNone(front, key(s[i]), key);
    }
  }

  lemma {:induction false} UnderCounts<T>(s: seq<T>, i: nat, j: nat, key: T -> Key)
    requires i < j < |s| && key(s[i]) == key(s[j])
    ensures |Under(s, key(s[i]), key)| >= 2
    decreases |s|
  {
    if j < |s| - 1 {
      UnderCounts(s[..|s| - 1], i, j, key);
    } else {
      UnderStands(s[..|s| - 1], i, key);
    }
  }

  lemma {:induction false} UnderStands<T>(s: seq<T>, i: nat, key: T -> Key)
    requires i < |s|
    ensures |Under(s, key(s[i]), key)| >= 1
    decreases |s|
  {
    if i < |s| - 1 {
      UnderStands(s[..|s| - 1], i, key);
    }
  }

  /** Sorting keeps keys distinct. */
  lemma {:induction false} SortDistinct<T>(s: seq<T>, key: T -> Key)
    requires Distinct(s, key)
    ensures Distinct(Sort(s, key), key)
  {
    var t := Sort(s, key);
    forall i, j | 0 <= i < j < |t| ensures key(t[i]) != key(t[j]) {
      if key(t[i]) == key(t[j]) {
        UnderCounts(t, i, j, key);
        SortUnder(s, key(t[i]), key);
        UnderStored(s, key(t[i]), key);
        var m :| 0 <= m < |s| && key(s[m]) == key(t[i]);
        UnderOne(s, m, key);
      }
    }
  }

  lemma {:induction false} UnderSame<T>(s: seq<T>, t: seq<T>, k: Key, key: T -> Key)
    requires Distinct(s, key) && Distinct(t, key) && forall x :: x in s <==> x in t
    ensures Under(s, k, key) == Under(t, k, key)
  {
    if i :| 0 <= i < |s| && key(s[i]) == k {
      assert s[i] in t;
      var j :| 0 <= j < |t| && t[j] == s[i];
      UnderOne(s, i, key);
      UnderOne(t, j, key);
    } else {
      UnderNone(s, k, key);
      UnderNone(t, k, key);
    }
  }

  /** Two listings of the same elements with distinct keys sort alike. */
  lemma {:induction false} SortOfSameElements<T>(s: seq<T>, t: seq<T>, key: T -> Key)
    requires Distinct(s, key) && Distinct(t, key) && forall x :: x in s <==> x in t
    ensures Sort(s, key) == Sort(t, key)
  {
    forall k ensures Under(s, k, key) == Under(t, k, key) {
      UnderSame(s, t, k, key);
    }
    SortForgetsOrder(s, t, key);
  }
}
