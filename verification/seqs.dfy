/** Order-preserving selection over sequences: the shape of every list
    comprehension with an `if` and every loop with a `continue` in the core. */
module Seqs {
  import opened Wrappers

  /** `[x for x in s if p(x)]`. */
  function Filter<T(==)>(s: seq<T>, p: T -> bool): (r: seq<T>)
    ensures |r| <= |s|
    ensures forall i :: 0 <= i < |r| ==> r[i] in s && p(r[i])
    ensures forall i :: 0 <= i < |s| && p(s[i]) ==> s[i] in r
  {
    if s == [] then [] else (if p(s[0]) then [s[0]] else []) + Filter(s[1..], p)
  }

  /** `a` can be obtained from `b` by deleting elements, keeping the order of the rest. */
  predicate IsSubsequence<T(==)>(a: seq<T>, b: seq<T>)
    decreases |b|
  {
    a == [] || (b != [] && ((a[0] == b[0] && IsSubsequence(a[1..], b[1..])) || IsSubsequence(a, b[1..])))
  }

  /** Filtering never reorders: its result is a subsequence of its input. */
  lemma {:induction false} FilterIsSubsequence<T>(s: seq<T>, p: T -> bool)
    ensures IsSubsequence(Filter(s, p), s)
  {
    if s != [] {
      FilterIsSubsequence(s[1..], p);
      if p(s[0]) {
        assert Filter(s, p) == [s[0]] + Filter(s[1..], p);
        assert Filter(s, p)[1..] == Filter(s[1..], p);
      } else {
        assert Filter(s, p) == Filter(s[1..], p);
      }
    }
  }

  /** Filtering distributes over concatenation, so it keeps relative order. */
  lemma {:induction false} FilterAppend<T>(a: seq<T>, b: seq<T>, p: T -> bool)
    ensures Filter(a + b, p) == Filter(a, p) + Filter(b, p)
  {
    if a == [] {
      assert a + b == b;
    } else {
      assert (a + b)[0] == a[0] && (a + b)[1..] == a[1..] + b;
      FilterAppend(a[1..], b, p);
    }
  }

  /** Filtering a second time with the same predicate changes nothing. */
  lemma {:induction false} FilterIdempotent<T>(s: seq<T>, p: T -> bool)
    ensures Filter(Filter(s, p), p) == Filter(s, p)
  {
    if s != [] {
      FilterIdempotent(s[1..], p);
      if p(s[0]) {
        var f := Filter(s, p);
        assert f == [s[0]] + Filter(s[1..], p);
        assert f[0] == s[0] && f[1..] == Filter(s[1..], p);
        assert Filter(f, p) == [s[0]] + Filter(f[1..], p);
      } else {
        assert Filter(s, p) == Filter(s[1..], p);
      }
    }
  }

  /** When every element passes, the filter is the identity. */
  lemma {:induction false} FilterKeepsAll<T>(s: seq<T>, p: T -> bool)
    requires forall i :: 0 <= i < |s| ==> p(s[i])
    ensures Filter(s, p) == s
  {
    if s != [] {
      FilterKeepsAll(s[1..], p);
    }
  }

  /** Two predicates that agree on every element select the same elements. */
  lemma {:induction false} FilterCongruent<T>(s: seq<T>, p: T -> bool, q: T -> bool)
    requires forall i :: 0 <= i < |s| ==> p(s[i]) == q(s[i])
    ensures Filter(s, p) == Filter(s, q)
  {
    if s != [] {
      FilterCongruent(s[1..], p, q);
    }
  }

  /** A loop that builds one result per element, in order, and raises at the
      first element whose step raises. */
  function MapResults<A, B, E>(xs: seq<A>, f: A -> Result<B, E>): (r: Result<seq<B>, E>)
    ensures r.Success? <==> forall i :: 0 <= i < |xs| ==> f(xs[i]).Success?
    ensures r.Success? ==> |r.value| == |xs| && forall i :: 0 <= i < |xs| ==> f(xs[i]) == Success(r.value[i])
    ensures r.Failure? ==> exists i :: 0 <= i < |xs| && f(xs[i]) == Failure(r.error)
  {
    if xs == [] then
      Success([])
    else
      match f(xs[0])
      case Failure(e) => Failure(e)
      case Success(y) =>
        match MapResults(xs[1..], f)
        case Failure(e) =>
          ghost var i :| 0 <= i < |xs[1..]| && f(xs[1..][i]) == Failure(e);
          assert xs[1..][i] == xs[i + 1];
          Failure(e)
        case Success(ys) => Success([y] + ys)
  }

  /** A loop that appends each element's results to one list, in order, and
      raises at the first element whose step raises. */
  function ConcatResults<A, B, E>(xs: seq<A>, f: A -> Result<seq<B>, E>): (r: Result<seq<B>, E>)
    ensures r.Success? <==> forall i :: 0 <= i < |xs| ==> f(xs[i]).Success?
    ensures r.Failure? ==> exists i :: 0 <= i < |xs| && f(xs[i]) == Failure(r.error)
  {
    if xs == [] then
      Success([])
    else
      match f(xs[0])
      case Failure(e) => Failure(e)
      case Success(ys) =>
        match ConcatResults(xs[1..], f)
        case Failure(e) =>
          ghost var i :| 0 <= i < |xs[1..]| && f(xs[1..][i]) == Failure(e);
          assert xs[1..][i] == xs[i + 1];
          Failure(e)
        case Success(zs) => Success(ys + zs)
  }

  /** On a single element the loop's outcome is that element's outcome:
      its values when it succeeds, its error when it fails. */
  lemma ConcatResultsSingle<A, B, E>(x: A, f: A -> Result<seq<B>, E>)
    ensures ConcatResults([x], f) == f(x)
  {
    assert [x][1..] == [];
    if f(x).Success? {
      assert ConcatResults([x][1..], f) == Success([]);
      assert f(x).value + [] == f(x).value;
    }
  }

  /** Running the loop over two lists in turn is running it over their concatenation. */
  lemma {:induction false} ConcatResultsAppend<A, B, E>(xs: seq<A>, ys: seq<A>, f: A -> Result<seq<B>, E>)
    requires ConcatResults(xs, f).Success? && ConcatResults(ys, f).Success?
    ensures ConcatResults(xs + ys, f) == Success(ConcatResults(xs, f).value + ConcatResults(ys, f).value)
  {
    var b := ConcatResults(ys, f).value;
    if xs == [] {
      assert xs + ys == ys;
      assert ConcatResults(xs, f).value + b == b;
    } else {
      var both := xs + ys;
      assert both[0] == xs[0] && both[1..] == xs[1..] + ys;
      ConcatResultsAppend(xs[1..], ys, f);
      var head := f(xs[0]).value;
      var a := ConcatResults(xs[1..], f).value;
      assert head + (a + b) == (head + a) + b;
    }
  }

  /** When every step yields only elements satisfying `p`, so does the loop. */
  lemma {:induction false} ConcatResultsAll<A, B, E>(xs: seq<A>, f: A -> Result<seq<B>, E>, p: B -> bool)
    requires ConcatResults(xs, f).Success?
    requires forall i, j :: 0 <= i < |xs| && f(xs[i]).Success? && 0 <= j < |f(xs[i]).value| ==> p(f(xs[i]).value[j])
    ensures forall k :: 0 <= k < |ConcatResults(xs, f).value| ==> p(ConcatResults(xs, f).value[k])
  {
    if xs != [] {
      assert forall i :: 0 <= i < |xs[1..]| ==> xs[1..][i] == xs[i + 1];
      ConcatResultsAll(xs[1..], f, p);
      var head := f(xs[0]).value;
      var rest := ConcatResults(xs[1..], f).value;
      assert forall k :: 0 <= k < |head| ==> (head + rest)[k] == head[k];
      assert forall k :: |head| <= k < |head + rest| ==> (head + rest)[k] == rest[k - |head|];
    }
  }

  /** Nothing a step yields is lost. */
  lemma {:induction false} ConcatResultsContains<A, B, E>(xs: seq<A>, f: A -> Result<seq<B>, E>, i: nat, y: B)
    requires ConcatResults(xs, f).Success?
    requires i < |xs| && f(xs[i]).Success? && y in f(xs[i]).value
    ensures y in ConcatResults(xs, f).value
  {
    if i > 0 {
      assert xs[1..][i - 1] == xs[i];
      ConcatResultsContains(xs[1..], f, i - 1, y);
    }
  }

  /** Nothing appears that no step yielded: each element of the loop's
      result comes from the result of some step. */
  lemma {:induction false} ConcatResultsFrom<A, B, E>(xs: seq<A>, f: A -> Result<seq<B>, E>, k: nat)
    requires ConcatResults(xs, f).Success? && k < |ConcatResults(xs, f).value|
    ensures exists i, j :: 0 <= i < |xs| && f(xs[i]).Success? && 0 <= j < |f(xs[i]).value|
                           && f(xs[i]).value[j] == ConcatResults(xs, f).value[k]
  {
    var head := f(xs[0]).value;
    var rest := ConcatResults(xs[1..], f).value;
    assert ConcatResults(xs, f).value == head + rest;
    if k < |head| {
      assert f(xs[0]).value[k] == ConcatResults(xs, f).value[k];
    } else {
      ConcatResultsFrom(xs[1..], f, k - |head|);
      var i, j :| 0 <= i < |xs[1..]| && f(xs[1..][i]).Success? && 0 <= j < |f(xs[1..][i]).value|
                  && f(xs[1..][i]).value[j] == rest[k - |head|];
      assert xs[1..][i] == xs[i + 1];
      assert f(xs[i + 1]).value[j] == ConcatResults(xs, f).value[k];
    }
  }

  /** Steps that agree on every element give the same loop result. */
  lemma {:induction false} ConcatResultsCongruent<A, B, E>(xs: seq<A>, f: A -> Result<seq<B>, E>, g: A -> Result<seq<B>, E>)
    requires forall i :: 0 <= i < |xs| ==> f(xs[i]) == g(xs[i])
    ensures ConcatResults(xs, f) == ConcatResults(xs, g)
  {
    if xs != [] {
      assert forall i :: 0 <= i < |xs[1..]| ==> xs[1..][i] == xs[i + 1];
      ConcatResultsCongruent(xs[1..], f, g);
    }
  }
}
