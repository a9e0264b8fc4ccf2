/** Python's ordering of `str` values (lexicographic by code point, a
    proper prefix first) and `sorted()` on a list of strings. Under a total
    order the sorted list is unique, so an insertion sort describes the
    result of Python's own sort. */
module StringOrder {
  /** `a < b` on strings. */
  predicate Less(a: string, b: string)
    decreases |a|
  {
    if a == [] then b != []
    else if b == [] then false
    else if a[0] != b[0] then a[0] < b[0]
    else Less(a[1..], b[1..])
  }

  /** `a <= b` on strings. */
  predicate LessEq(a: string, b: string) {
    a == b || Less(a, b)
  }

  lemma {:induction false} LessIrreflexive(a: string)
    ensures !Less(a, a)
    decreases |a|
  {
    if a != [] {
      LessIrreflexive(a[1..]);
    }
  }

  lemma {:induction false} LessTransitive(a: string, b: string, c: string)
    requires Less(a, b) && Less(b, c)
    ensures Less(a, c)
    decreases |a|
  {
    if a != [] && a[0] == b[0] && b[0] == c[0] {
      LessTransitive(a[1..], b[1..], c[1..]);
    }
  }

  /** Two different strings are ordered one way or the other, never both. */
  lemma {:induction false} LessTotal(a: string, b: string)
    ensures a != b <==> Less(a, b) || Less(b, a)
    ensures !(Less(a, b) && Less(b, a))
    decreases |a|
  {
    if a == [] || b == [] {
    } else if a[0] == b[0] {
      LessTotal(a[1..], b[1..]);
      assert a == [a[0]] + a[1..] && b == [b[0]] + b[1..];
    }
  }

  lemma LessEqTransitive(a: string, b: string, c: string)
    requires LessEq(a, b) && LessEq(b, c)
    ensures LessEq(a, c)
  {
    if a != b && b != c {
      LessTransitive(a, b, c);
    }
  }

  predicate Sorted(s: seq<string>) {
    forall i, j :: 0 <= i < j < |s| ==> LessEq(s[i], s[j])
  }

  predicate StrictlySorted(s: seq<string>) {
    forall i, j :: 0 <= i < j < |s| ==> Less(s[i], s[j])
  }

  predicate Distinct(s: seq<string>) {
    forall i, j :: 0 <= i < j < |s| ==> s[i] != s[j]
  }

  /** Insert `x` in front of the first item not below it. */
  function Insert(x: string, s: seq<string>): (r: seq<string>)
    ensures |r| == |s| + 1
  {
    if s == [] then [x]
    else if LessEq(x, s[0]) then [x] + s
    else [s[0]] + Insert(x, s[1..])
  }

  /** `sorted(s)` */
  function Sort(s: seq<string>): (r: seq<string>)
    ensures |r| == |s|
  {
    if s == [] then [] else Insert(s[0], Sort(s[1..]))
  }

  /** An item below every item of a sorted list can go in front of it. */
  lemma ConsSorted(y: string, t: seq<string>)
    requires Sorted(t)
    requires forall z :: z in t ==> LessEq(y, z)
    ensures Sorted([y] + t)
  {
    forall i, j | 0 <= i < j < |t| + 1
      ensures LessEq(([y] + t)[i], ([y] + t)[j])
    {
      if i == 0 {
        assert t[j - 1] in t;
      }
    }
  }

  /** The head of a sorted list is below every item of it. */
  lemma SortedHeadBelow(s: seq<string>, z: string)
    requires Sorted(s) && z in s
    ensures LessEq(s[0], z)
  {
    var j :| 0 <= j < |s| && s[j] == z;
    if j > 0 {
      assert LessEq(s[0], s[j]);
    }
  }

  lemma {:induction false} InsertSpec(x: string, s: seq<string>)
    requires Sorted(s)
    ensures Sorted(Insert(x, s))
    ensures multiset(Insert(x, s)) == multiset(s) + multiset{x}
    decreases |s|
  {
    if s == [] {
    } else if LessEq(x, s[0]) {
      forall z | z in s
        ensures LessEq(x, z)
      {
        SortedHeadBelow(s, z);
        LessEqTransitive(x, s[0], z);
      }
      ConsSorted(x, s);
    } else {
      var rest := s[1..];
      assert s == [s[0]] + rest;
      InsertSpec(x, rest);
      var tail := Insert(x, rest);
      LessTotal(x, s[0]);
      forall z | z in tail
        ensures LessEq(s[0], z)
      {
        assert z in multiset(tail);
        if z != x {
          assert z in rest;
          SortedHeadBelow(s, z);
        }
      }
      ConsSorted(s[0], tail);
    }
  }

  /** `sorted(s)` is ordered and holds the items of `s`, each as often. */
  lemma {:induction false} SortSpec(s: seq<string>)
    ensures Sorted(Sort(s))
    ensures multiset(Sort(s)) == multiset(s)
    decreases |s|
  {
    if s != [] {
      SortSpec(s[1..]);
      InsertSpec(s[0], Sort(s[1..]));
      assert s == [s[0]] + s[1..];
    }
  }

  /** Sorting items that differ pairwise gives a strictly increasing list. */
  lemma SortDistinct(s: seq<string>)
    requires Distinct(s)
    ensures StrictlySorted(Sort(s))
  {
    SortSpec(s);
    var r := Sort(s);
    forall i, j | 0 <= i < j < |r|
      ensures Less(r[i], r[j])
    {
      assert r[i] != r[j] by {
        MultisetCount(s, r, r[i]);
        if r[i] == r[j] {
          TwoPositions(r, i, j);
        }
      }
    }
  }

  /** An item of a list without repetitions occurs once. */
  lemma {:induction false} DistinctCount(s: seq<string>, x: string)
    requires Distinct(s)
    ensures multiset(s)[x] <= 1
    decreases |s|
  {
    if s != [] {
      var init := s[..|s| - 1];
      DistinctCount(init, x);
      assert s == init + [s[|s| - 1]];
      if s[|s| - 1] == x {
        assert x !in init;
      }
    }
  }

  lemma MultisetCount(s: seq<string>, r: seq<string>, x: string)
    requires Distinct(s) && multiset(r) == multiset(s)
    ensures multiset(r)[x] <= 1
  {
    DistinctCount(s, x);
  }

  /** An item at two positions occurs at least twice. */
  lemma TwoPositions(r: seq<string>, i: int, j: int)
    requires 0 <= i < j < |r| && r[i] == r[j]
    ensures multiset(r)[r[i]] >= 2
  {
    var x := r[i];
    assert r == r[..j] + [r[j]] + r[j + 1..];
    assert r[..j] == r[..i] + [r[i]] + r[i + 1..j];
    assert multiset(r[..j])[x] >= 1;
  }
}
