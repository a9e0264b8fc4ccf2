/** The three shapes of scan the query layer is built from: a list
    comprehension `[x for x in xs if p(x)]` (Filter), a generator that yields
    the matching items as it walks the stream (Stream), and a loop that returns
    the first match (FirstMatch). */
module Seqs {
  import opened Wrappers

  /** The keys of an association list, in order. */
  function Keys<K, V>(ps: seq<(K, V)>): (ks: seq<K>)
    ensures |ks| == |ps|
    ensures forall i :: 0 <= i < |ps| ==> ks[i] == ps[i].0
  {
    seq(|ps|, i requires 0 <= i < |ps| => ps[i].0)
  }

  /** The prefix of full length is the sequence itself. */
  lemma TakeAll<T>(s: seq<T>)
    ensures s[..|s|] == s
  {
  }

  /** A non-empty sequence is its front followed by its last item. */
  lemma FrontLast<T>(s: seq<T>)
    requires s != []
    ensures s[..|s| - 1] + [s[|s| - 1]] == s
  {
  }

  /** `[x for x in s if p(x)]`: the list grows by appending, one item at a time. */
  function Filter<T>(s: seq<T>, p: T -> bool): (r: seq<T>)
    ensures |r| <= |s|
  {
    if s == [] then [] else Filter(s[..|s| - 1], p) + (if p(s[|s| - 1]) then [s[|s| - 1]] else [])
  }

  /** One more item of the scan appends it to the list when it passes. */
  lemma FilterStep<T>(s: seq<T>, i: nat, p: T -> bool)
    requires i < |s|
    ensures Filter(s[..i + 1], p) == Filter(s[..i], p) + (if p(s[i]) then [s[i]] else [])
  {
    assert s[..i + 1][..i] == s[..i];
  }

  /** An item is in the comprehension's list exactly when it is in `s` and passes `p`. */
  lemma {:induction false} FilterMembers<T>(s: seq<T>, p: T -> bool)
    ensures forall x :: x in Filter(s, p) <==> x in s && p(x)
    decreases |s|
  {
    if s != [] {
      var init := s[..|s| - 1];
      FilterMembers(init, p);
      assert s == init + [s[|s| - 1]];
    }
  }

  /** The comprehension keeps the order of `s`. */
  lemma {:induction false} FilterSubsequence<T>(s: seq<T>, p: T -> bool)
    ensures IsSubsequence(Filter(s, p), s)
    decreases |s|
  {
    if s != [] {
      var init, last := s[..|s| - 1], s[|s| - 1];
      FilterSubsequence(init, p);
      SubsequenceExtend(Filter(init, p), init, last, p(last));
      assert s == init + [last];
    }
  }

  /** `for x in s: if p(x): yield x`: what a generator hands out, head first. */
  function Stream<T>(s: seq<T>, p: T -> bool): (r: seq<T>)
  {
    if s == [] then [] else (if p(s[0]) then [s[0]] else []) + Stream(s[1..], p)
  }

  /** The items of `a` appear in `b` in the same order (not necessarily adjacent). */
  ghost predicate IsSubsequence<T>(a: seq<T>, b: seq<T>)
    decreases |b|
  {
    a == [] ||
    (b != [] &&
     ((a[|a| - 1] == b[|b| - 1] && IsSubsequence(a[..|a| - 1], b[..|b| - 1]))
      || IsSubsequence(a, b[..|b| - 1])))
  }

  lemma SubsequenceExtend<T>(a: seq<T>, b: seq<T>, x: T, keep: bool)
    requires IsSubsequence(a, b)
    ensures IsSubsequence(a + (if keep then [x] else []), b + [x])
  {
    var b' := b + [x];
    assert b'[..|b'| - 1] == b;
    if keep {
      var a' := a + [x];
      assert a'[..|a'| - 1] == a;
    } else {
      assert a + [] == a;
    }
  }

  /** Filtering distributes over concatenation. */
  lemma {:induction false} FilterAppend<T>(a: seq<T>, b: seq<T>, p: T -> bool)
    ensures Filter(a + b, p) == Filter(a, p) + Filter(b, p)
    decreases |b|
  {
    if b == [] {
      assert a + b == a;
    } else {
      var n := |b| - 1;
      assert (a + b)[..|a + b| - 1] == a + b[..n];
      assert (a + b)[|a + b| - 1] == b[n];
      FilterAppend(a, b[..n], p);
    }
  }

  /** The generator yields exactly the comprehension's list, in the same order. */
  lemma {:induction false} StreamIsFilter<T>(s: seq<T>, p: T -> bool)
    ensures Stream(s, p) == Filter(s, p)
    decreases |s|
  {
    if s != [] {
      StreamIsFilter(s[1..], p);
      assert s == [s[0]] + s[1..];
      FilterAppend([s[0]], s[1..], p);
      assert [s[0]][..0] == [];
    }
  }

  /** Splitting a sequence by a predicate `p` and by its negation `q` loses
      nothing and duplicates nothing. */
  lemma {:induction false} FilterPartition<T>(s: seq<T>, p: T -> bool, q: T -> bool)
    requires forall x :: q(x) == !p(x)
    ensures multiset(Filter(s, p)) + multiset(Filter(s, q)) == multiset(s)
    ensures |Filter(s, p)| + |Filter(s, q)| == |s|
    decreases |s|
  {
    if s != [] {
      var init, x := s[..|s| - 1], s[|s| - 1];
      FilterPartition(init, p, q);
      FrontLast(s);
      assert multiset(s) == multiset(init) + multiset{x};
      assert q(x) == !p(x);
    }
  }

  /** Nothing is dropped when every item passes, and nothing is kept when none does. */
  lemma {:induction false} FilterExtremes<T>(s: seq<T>, p: T -> bool)
    ensures (forall i :: 0 <= i < |s| ==> p(s[i])) ==> Filter(s, p) == s
    ensures (forall i :: 0 <= i < |s| ==> !p(s[i])) ==> Filter(s, p) == []
    decreases |s|
  {
    if s != [] {
      var init := s[..|s| - 1];
      FilterExtremes(init, p);
      assert s == init + [s[|s| - 1]];
    }
  }

  /** `for x in s: if p(x): return x` followed by `return None`. */
  function FirstMatch<T(==)>(s: seq<T>, p: T -> bool): (r: Option<T>)
    ensures r.None? <==> forall i :: 0 <= i < |s| ==> !p(s[i])
    ensures r.Some? ==> exists i :: FirstMatchAt(s, p, i) && s[i] == r.value
  {
    if s == [] then None
    else if p(s[0]) then
      assert FirstMatchAt(s, p, 0);
      Some(s[0])
    else
      var r := FirstMatch(s[1..], p);
      if r.Some? then
        var i :| FirstMatchAt(s[1..], p, i) && s[1..][i] == r.value;
        assert FirstMatchAt(s, p, i + 1);
        r
      else
        r
  }

  /** Position `i` holds a match and no earlier position does. */
  predicate FirstMatchAt<T>(s: seq<T>, p: T -> bool, i: int) {
    0 <= i < |s| && p(s[i]) && forall j :: 0 <= j < i ==> !p(s[j])
  }

  /** The first item a scan returns is the head of the comprehension's list:
      `[x for x in s if p(x)][0]` and the first-match loop agree. */
  lemma {:induction false} FirstMatchIsFilterHead<T>(s: seq<T>, p: T -> bool)
    ensures FirstMatch(s, p).None? <==> Filter(s, p) == []
    ensures Filter(s, p) != [] ==> FirstMatch(s, p) == Some(Filter(s, p)[0])
  {
    StreamIsFilter(s, p);
    StreamHead(s, p);
  }

  lemma {:induction false} StreamHead<T>(s: seq<T>, p: T -> bool)
    ensures FirstMatch(s, p).None? <==> Stream(s, p) == []
    ensures Stream(s, p) != [] ==> FirstMatch(s, p) == Some(Stream(s, p)[0])
    decreases |s|
  {
    if s != [] && !p(s[0]) {
      StreamHead(s[1..], p);
    }
  }

  /** A scan that reaches position `i` with no earlier match returns the
      item there. */
  lemma {:induction false} FirstMatchAtIndex<T>(s: seq<T>, p: T -> bool, i: int)
    requires FirstMatchAt(s, p, i)
    ensures FirstMatch(s, p) == Some(s[i])
    decreases |s|
  {
    if i > 0 {
      assert FirstMatchAt(s[1..], p, i - 1);
      FirstMatchAtIndex(s[1..], p, i - 1);
    }
  }

  /** A test every item passes keeps the whole sequence. */
  lemma {:induction false} FilterAllPass<T>(s: seq<T>, p: T -> bool)
    requires forall i :: 0 <= i < |s| ==> p(s[i])
    ensures Filter(s, p) == s
    decreases |s|
  {
    if s != [] {
      FilterAllPass(s[..|s| - 1], p);
    }
  }

  /** Two tests that agree on every item of `s` select the same items. */
  lemma {:induction false} FilterCongruence<T>(s: seq<T>, p: T -> bool, q: T -> bool)
    requires forall i :: 0 <= i < |s| ==> p(s[i]) == q(s[i])
    ensures Filter(s, p) == Filter(s, q)
    decreases |s|
  {
    if s != [] {
      FilterCongruence(s[..|s| - 1], p, q);
    }
  }

  /** `[f(x) for x in xs]` where `f` may raise: the first exception, in
      order, ends the loop. */
  function MapResult<A, B, E>(xs: seq<A>, f: A -> Result<B, E>): Result<seq<B>, E>
  {
    if xs == [] then Success([])
    else
      match f(xs[0])
      case Failure(e) => Failure(e)
      case Success(y) =>
        match MapResult(xs[1..], f)
        case Failure(e) => Failure(e)
        case Success(ys) => Success([y] + ys)
  }

  /** A successful run has one result per item, each that item's own; a
      failed run reports the exception of some item, every item before
      which succeeded. */
  lemma {:induction false} MapResultSpec<A, B, E>(xs: seq<A>, f: A -> Result<B, E>)
    ensures var r := MapResult(xs, f);
            && (r.Success? ==> |r.value| == |xs| && forall i :: 0 <= i < |xs| ==> f(xs[i]) == Success(r.value[i]))
            && (r.Failure? ==> exists i :: 0 <= i < |xs| && f(xs[i]) == Failure(r.error) &&
                                           forall j :: 0 <= j < i ==> f(xs[j]).Success?)
    decreases |xs|
  {
    if xs != [] && f(xs[0]).Success? {
      MapResultSpec(xs[1..], f);
      var r := MapResult(xs[1..], f);
      if r.Failure? {
        var i :| 0 <= i < |xs[1..]| && f(xs[1..][i]) == Failure(r.error) &&
                 forall j :: 0 <= j < i ==> f(xs[1..][j]).Success?;
        assert f(xs[i + 1]) == Failure(r.error);
        assert forall j :: 1 <= j < i + 1 ==> xs[j] == xs[1..][j - 1];
      } else {
        assert forall i :: 1 <= i < |xs| ==> xs[i] == xs[1..][i - 1];
      }
    } else if xs != [] {
      assert f(xs[0]) == Failure(MapResult(xs, f).error);
    }
  }

  /** Every item succeeds exactly when the whole run does. */
  lemma {:induction false} MapResultAllSucceed<A, B, E>(xs: seq<A>, f: A -> Result<B, E>)
    ensures MapResult(xs, f).Success? <==> forall i :: 0 <= i < |xs| ==> f(xs[i]).Success?
    decreases |xs|
  {
    MapResultSpec(xs, f);
    if xs != [] && f(xs[0]).Success? {
      MapResultAllSucceed(xs[1..], f);
      assert forall i :: 1 <= i < |xs| ==> xs[i] == xs[1..][i - 1];
    }
  }

  /** `ys` put in front of a successful run; a failure stays as it is. */
  function PrependAll<B, E>(ys: seq<B>, r: Result<seq<B>, E>): Result<seq<B>, E> {
    match r
    case Success(rest) => Success(ys + rest)
    case Failure(e) => Failure(e)
  }

  /** One step of the loop behind `MapResult`: the run over `xs[k..]` is the
      head's result followed by the run over `xs[k + 1..]`. */
  lemma MapResultStep<A, B, E>(xs: seq<A>, k: nat, f: A -> Result<B, E>, done: seq<B>)
    requires k < |xs|
    ensures f(xs[k]).Failure? ==> PrependAll(done, MapResult(xs[k..], f)) == Failure(f(xs[k]).error)
    ensures f(xs[k]).Success? ==>
      PrependAll(done, MapResult(xs[k..], f)) == PrependAll(done + [f(xs[k]).value], MapResult(xs[k + 1..], f))
  {
    assert xs[k..][1..] == xs[k + 1..];
    if f(xs[k]).Success? && MapResult(xs[k + 1..], f).Success? {
      assert done + ([f(xs[k]).value] + MapResult(xs[k + 1..], f).value) ==
             (done + [f(xs[k]).value]) + MapResult(xs[k + 1..], f).value;
    }
  }

  /** Putting nothing in front changes nothing, and putting two runs in
      front one after the other is putting their concatenation in front. */
  lemma PrependAllNil<B, E>(r: Result<seq<B>, E>)
    ensures PrependAll([], r) == r
    ensures r.Success? ==> PrependAll(r.value, Success([])) == r
  {
    if r.Success? {
      assert [] + r.value == r.value;
      assert r.value + [] == r.value;
    }
  }

  /** What consuming a generator produces: the items it yielded, in order,
      and the exception that ended it early, if any. */
  datatype Run<T, E> = Run(items: seq<T>, error: Option<E>)

  /** The generator `for x in xs: yield f(x)` where `f` may raise: it yields
      each result and stops at the first exception. */
  function Drain<A, B, E>(xs: seq<A>, f: A -> Result<B, E>): (r: Run<B, E>)
    ensures |r.items| <= |xs|
  {
    if xs == [] then Run([], None)
    else
      match f(xs[0])
      case Failure(e) => Run([], Some(e))
      case Success(y) =>
        var rest := Drain(xs[1..], f);
        Run([y] + rest.items, rest.error)
  }

  /** `list(gen)`: the yielded items, or the exception that ended the generator. */
  function Collect<T, E>(r: Run<T, E>): Result<seq<T>, E> {
    if r.error.Some? then Failure(r.error.value) else Success(r.items)
  }

  /** Draining the lazy generator into a list is mapping eagerly: the same
      list, or the same first exception. */
  lemma {:induction false} DrainCollect<A, B, E>(xs: seq<A>, f: A -> Result<B, E>)
    ensures Collect(Drain(xs, f)) == MapResult(xs, f)
    decreases |xs|
  {
    if xs != [] && f(xs[0]).Success? {
      DrainCollect(xs[1..], f);
    }
  }

  /** The items a generator yields before it stops are the results of a
      prefix of the input, and it stops early exactly at a failure. */
  lemma {:induction false} DrainSpec<A, B, E>(xs: seq<A>, f: A -> Result<B, E>)
    ensures var r := Drain(xs, f);
            && (forall i :: 0 <= i < |r.items| ==> f(xs[i]) == Success(r.items[i]))
            && (r.error.None? ==> |r.items| == |xs|)
            && (r.error.Some? ==> |r.items| < |xs| && f(xs[|r.items|]) == Failure(r.error.value))
    decreases |xs|
  {
    if xs != [] && f(xs[0]).Success? {
      DrainSpec(xs[1..], f);
      var r := Drain(xs, f);
      var rest := Drain(xs[1..], f);
      assert r.items == [f(xs[0]).value] + rest.items;
      forall i | 0 <= i < |r.items|
        ensures f(xs[i]) == Success(r.items[i])
      {
        if i > 0 {
          assert r.items[i] == rest.items[i - 1];
          assert xs[1..][i - 1] == xs[i];
        }
      }
      if r.error.Some? {
        assert xs[1..][|rest.items|] == xs[|r.items|];
      }
    }
  }

  /** A generator that filters another one: `for x in gen: if p(x): yield x`.
      It yields the matching items and re-raises the inner exception. */
  function StreamRun<T, E>(r: Run<T, E>, p: T -> bool): Run<T, E> {
    Run(Stream(r.items, p), r.error)
  }

  /** `[x for x in gen if p(x)]`: the matching items once the generator is
      exhausted, or its exception. */
  function FilterRun<T, E>(r: Run<T, E>, p: T -> bool): Result<seq<T>, E> {
    if r.error.Some? then Failure(r.error.value) else Success(Filter(r.items, p))
  }

  /** The list comprehension and the filtering generator agree, and both
      filter the list of everything the generator yields. */
  lemma FilterRunAgree<T, E>(r: Run<T, E>, p: T -> bool)
    ensures Collect(StreamRun(r, p)) == FilterRun(r, p)
    ensures FilterRun(r, p) == match Collect(r)
                               case Success(all) => Success(Filter(all, p))
                               case Failure(e) => Failure(e)
    ensures FilterRun(r, p).Success? ==>
              (forall x :: x in FilterRun(r, p).value <==> x in r.items && p(x)) &&
              IsSubsequence(FilterRun(r, p).value, r.items)
  {
    StreamIsFilter(r.items, p);
    FilterMembers(r.items, p);
    FilterSubsequence(r.items, p);
  }

  /** `for x in gen: if p(x): return x` followed by `return None`: an
      exception raised before the first match escapes. */
  function FirstInRun<T(==), E>(r: Run<T, E>, p: T -> bool): Result<Option<T>, E> {
    match FirstMatch(r.items, p)
    case Some(x) => Success(Some(x))
    case None => if r.error.Some? then Failure(r.error.value) else Success(None)
  }

  /** The search finds the first match among the yielded items, whatever
      the generator would have raised afterwards; it reports nothing only
      when no yielded item matches and the generator ended normally, and it
      raises only when no yielded item matches. */
  lemma FirstInRunSpec<T, E>(r: Run<T, E>, p: T -> bool)
    ensures FirstInRun(r, p).Success? && FirstInRun(r, p).value.Some? ==>
              exists i :: FirstMatchAt(r.items, p, i) && r.items[i] == FirstInRun(r, p).value.value
    ensures FirstInRun(r, p) == Success(None) <==>
              r.error.None? && forall i :: 0 <= i < |r.items| ==> !p(r.items[i])
    ensures FirstInRun(r, p).Failure? <==>
              r.error.Some? && forall i :: 0 <= i < |r.items| ==> !p(r.items[i])
    ensures FirstInRun(r, p).Failure? ==> FirstInRun(r, p).error == r.error.value
  {
  }
}
