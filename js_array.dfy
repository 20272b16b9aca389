/**
 * The parts of JavaScript's Array.prototype that the pages rely on:
 * `filter` (search boxes, delete-by-id, eligible tutors) and `find`
 * (looking a record up by id). `undefined` is modelled by `Option.None`.
 */
module JsArray {

  datatype Option<+T> = None | Some(value: T) {
    function GetOr(default: T): T {
      match this
      case Some(v) => v
      case None => default
    }
  }

  /** `a` can be obtained from `b` by deleting elements, keeping the order. */
  predicate IsSubsequence<T(==)>(a: seq<T>, b: seq<T>)
    decreases |b|
  {
    a == [] || (b != [] && ((a[0] == b[0] && IsSubsequence(a[1..], b[1..])) || IsSubsequence(a, b[1..])))
  }

  /**
   * `s.filter(p)`: keeps, in order, exactly the elements satisfying `p`
   * (the order and the multiplicities are the two lemmas below).
   */
  function Filter<T(==,!new)>(s: seq<T>, p: T -> bool): (r: seq<T>)
    ensures |r| <= |s|
    ensures forall x :: x in r <==> x in s && p(x)
  {
    if s == [] then []
    else
      var rest := Filter(s[1..], p);
      assert forall x :: x in s <==> x == s[0] || x in s[1..] by {
        assert s == [s[0]] + s[1..];
      }
      if p(s[0]) then [s[0]] + rest else rest
  }

  /** The kept elements keep their order. */
  lemma {:induction false} FilterIsSubsequence<T(!new)>(s: seq<T>, p: T -> bool)
    ensures IsSubsequence(Filter(s, p), s)
  {
    if s != [] {
      FilterIsSubsequence(s[1..], p);
      var rest := Filter(s[1..], p);
      if p(s[0]) {
        assert ([s[0]] + rest)[0] == s[0] && ([s[0]] + rest)[1..] == rest;
      } else if rest != [] {
        assert IsSubsequence(rest, s[1..]);
      }
    }
  }

  /** Each kept element occurs as often as in the input; the others not at all. */
  lemma {:induction false} FilterMultiset<T(!new)>(s: seq<T>, p: T -> bool)
    ensures forall x :: multiset(Filter(s, p))[x] == if p(x) then multiset(s)[x] else 0
  {
    if s != [] {
      FilterMultiset(s[1..], p);
      assert s == [s[0]] + s[1..];
      assert multiset(s) == multiset([s[0]]) + multiset(s[1..]);
      if p(s[0]) {
        assert multiset(Filter(s, p)) == multiset([s[0]]) + multiset(Filter(s[1..], p));
      }
    }
  }

  /** A filter whose predicate holds of every element returns the array unchanged. */
  lemma {:induction false} FilterKeepsAll<T(!new)>(s: seq<T>, p: T -> bool)
    requires forall k | 0 <= k < |s| :: p(s[k])
    ensures Filter(s, p) == s
  {
    if s != [] {
      FilterKeepsAll(s[1..], p);
    }
  }

  /** A filter whose predicate holds of no element returns the empty array. */
  lemma {:induction false} FilterKeepsNone<T(!new)>(s: seq<T>, p: T -> bool)
    requires forall k | 0 <= k < |s| :: !p(s[k])
    ensures Filter(s, p) == []
  {
    if s != [] {
      FilterKeepsNone(s[1..], p);
    }
  }

  /**
   * Filtering with a stronger predicate yields a subsequence of the result of
   * filtering with a weaker one: a narrower search never shows a row that a
   * wider search hides, and never reorders rows.
   */
  lemma {:induction false} FilterNarrows<T(!new)>(s: seq<T>, strong: T -> bool, weak: T -> bool)
    requires forall x :: strong(x) ==> weak(x)
    ensures IsSubsequence(Filter(s, strong), Filter(s, weak))
  {
    if s != [] {
      FilterNarrows(s[1..], strong, weak);
      var a, b := Filter(s[1..], strong), Filter(s[1..], weak);
      if strong(s[0]) {
        assert Filter(s, strong) == [s[0]] + a && Filter(s, weak) == [s[0]] + b;
        assert ([s[0]] + a)[1..] == a && ([s[0]] + b)[1..] == b;
      } else if weak(s[0]) {
        assert Filter(s, strong) == a && Filter(s, weak) == [s[0]] + b;
        assert ([s[0]] + b)[1..] == b;
        SubsequenceOfTail(a, s[0], b);
      }
    }
  }

  /** Filtering twice, the second time with a stronger predicate, is filtering once with it. */
  lemma {:induction false} FilterThenFilter<T(!new)>(s: seq<T>, weak: T -> bool, strong: T -> bool)
    requires forall x :: strong(x) ==> weak(x)
    ensures Filter(Filter(s, weak), strong) == Filter(s, strong)
  {
    if s != [] {
      FilterThenFilter(s[1..], weak, strong);
      if weak(s[0]) {
        assert Filter(s, weak) == [s[0]] + Filter(s[1..], weak);
        assert Filter(s, weak)[1..] == Filter(s[1..], weak);
      }
    }
  }

  /** Filtering distributes over concatenation. */
  lemma {:induction false} FilterAppend<T(!new)>(a: seq<T>, b: seq<T>, p: T -> bool)
    ensures Filter(a + b, p) == Filter(a, p) + Filter(b, p)
  {
    if a == [] {
      assert a + b == b;
    } else {
      var ab := a + b;
      assert ab[0] == a[0] && ab[1..] == a[1..] + b;
      FilterAppend(a[1..], b, p);
      if p(a[0]) {
        var x, y := Filter(a[1..], p), Filter(b, p);
        assert Filter(a, p) == [a[0]] + x;
        assert Filter(ab, p) == [a[0]] + (x + y);
        assert [a[0]] + (x + y) == ([a[0]] + x) + y;
      } else {
        assert Filter(a, p) == Filter(a[1..], p);
        assert Filter(ab, p) == Filter(ab[1..], p);
      }
    }
  }

  lemma {:induction false} SubsequenceOfTail<T>(a: seq<T>, x: T, b: seq<T>)
    requires IsSubsequence(a, b)
    ensures IsSubsequence(a, [x] + b)
  {
    assert ([x] + b)[1..] == b;
  }

  /**
   * `s.find(p)`: the first element satisfying `p`, or `undefined` when there
   * is none.
   */
  function Find<T>(s: seq<T>, p: T -> bool): (r: Option<T>)
    ensures r.None? <==> forall k | 0 <= k < |s| :: !p(s[k])
    ensures r.Some? ==> exists k | 0 <= k < |s| :: s[k] == r.value && p(s[k]) && forall j | 0 <= j < k :: !p(s[j])
    ensures forall k | 0 <= k < |s| && p(s[k]) && (forall j | 0 <= j < k :: !p(s[j])) :: r == Some(s[k])
  {
    if s == [] then None
    else if p(s[0]) then Some(s[0])
    else
      var r := Find(s[1..], p);
      assert forall k | 1 <= k < |s| :: s[k] == s[1..][k - 1];
      r
  }
}
