/** Order-preserving filtering and the subsequence relation, used for the catalogue's list comprehensions. */
module Sequences {

  /** `a` is obtained from `b` by deleting elements, keeping the rest in order. */
  ghost predicate SubsequenceOf<T>(a: seq<T>, b: seq<T>)
    decreases |b|
  {
    if |a| == 0 then true
    else if |b| == 0 then false
    else if a[0] == b[0] then SubsequenceOf(a[1..], b[1..])
    else SubsequenceOf(a, b[1..])
  }

  /** No element occurs twice. */
  ghost predicate NoDuplicates<T>(s: seq<T>) {
    forall i, j :: 0 <= i < j < |s| ==> s[i] != s[j]
  }

  /** The indices of `s` whose element satisfies `p`: an independent description of a filter's length. */
  ghost function IndicesWhere<T>(s: seq<T>, p: T -> bool): set<int> {
    set i | 0 <= i < |s| && p(s[i])
  }

  /** The elements of `s` that satisfy `p`, in their order in `s` (a Python list comprehension with a condition). */
  function Filter<T(!new)>(s: seq<T>, p: T -> bool): (r: seq<T>)
    ensures forall x :: x in r <==> x in s && p(x)
    ensures |r| <= |s|
    ensures SubsequenceOf(r, s)
  {
    if |s| == 0 then []
    else
      var rest := Filter(s[1..], p);
      if p(s[0]) then [s[0]] + rest else rest
  }

  /** Filtering distributes over concatenation. */
  lemma {:induction false} FilterConcat<T(!new)>(a: seq<T>, b: seq<T>, p: T -> bool)
    ensures Filter(a + b, p) == Filter(a, p) + Filter(b, p)
    decreases |a|
  {
    if |a| == 0 {
      assert a + b == b;
    } else {
      assert (a + b)[1..] == a[1..] + b;
      FilterConcat(a[1..], b, p);
    }
  }

  /** The length of a filter is the number of indices whose element passes. */
  lemma {:induction false} FilterLength<T(!new)>(s: seq<T>, p: T -> bool)
    ensures |Filter(s, p)| == |IndicesWhere(s, p)|
    decreases |s|
  {
    if |s| == 0 {
      assert IndicesWhere(s, p) == {};
    } else {
      var init, last := s[..|s| - 1], s[|s| - 1];
      assert s == init + [last];
      FilterLength(init, p);
      FilterConcat(init, [last], p);
      assert Filter([last], p) == (if p(last) then [last] else []) by {
        assert [last][1..] == [];
      }
      IndicesSnoc(init, last, p);
    }
  }

  /** Appending one element adds its index exactly when it passes. */
  lemma IndicesSnoc<T>(init: seq<T>, last: T, p: T -> bool)
    ensures |IndicesWhere(init + [last], p)| == |IndicesWhere(init, p)| + (if p(last) then 1 else 0)
  {
    var s := init + [last];
    var before := IndicesWhere(init, p);
    forall i | 0 <= i < |init| ensures s[i] == init[i] { }
    if p(last) {
      assert IndicesWhere(s, p) == before + {|init|};
      assert |init| !in before;
    } else {
      assert IndicesWhere(s, p) == before;
    }
  }

  /** Two passing elements keep their relative order in the filter. */
  lemma {:induction false} FilterKeepsOrder<T(!new)>(s: seq<T>, p: T -> bool, i: int, j: int)
    requires 0 <= i < j < |s| && p(s[i]) && p(s[j])
    ensures exists a, b :: 0 <= a < b < |Filter(s, p)| && Filter(s, p)[a] == s[i] && Filter(s, p)[b] == s[j]
    decreases |s|
  {
    var tail := s[1..];
    var f := Filter(s, p);
    if i == 0 {
      assert tail[j - 1] == s[j];
      assert s[j] in Filter(tail, p);
      var b :| 0 <= b < |Filter(tail, p)| && Filter(tail, p)[b] == s[j];
      assert f[0] == s[0] && f[b + 1] == s[j];
    } else {
      FilterKeepsOrder(tail, p, i - 1, j - 1);
      var a, b :| 0 <= a < b < |Filter(tail, p)| && Filter(tail, p)[a] == s[i] && Filter(tail, p)[b] == s[j];
      if p(s[0]) {
        assert f[a + 1] == s[i] && f[b + 1] == s[j];
      } else {
        assert f[a] == s[i] && f[b] == s[j];
      }
    }
  }

  /** Filtering a sequence without repetitions gives one without repetitions. */
  lemma {:induction false} FilterNoDuplicates<T(!new)>(s: seq<T>, p: T -> bool)
    requires NoDuplicates(s)
    ensures NoDuplicates(Filter(s, p))
    decreases |s|
  {
    if |s| > 0 {
      var tail := s[1..];
      assert NoDuplicates(tail) by {
        forall i, j | 0 <= i < j < |tail| ensures tail[i] != tail[j] {
          assert tail[i] == s[i + 1] && tail[j] == s[j + 1];
        }
      }
      FilterNoDuplicates(tail, p);
      if p(s[0]) {
        assert s[0] !in tail;
        var f := Filter(s, p);
        forall i, j | 0 <= i < j < |f| ensures f[i] != f[j] {
          if i == 0 {
            assert f[j] in Filter(tail, p);
          } else {
            assert f[i] == Filter(tail, p)[i - 1] && f[j] == Filter(tail, p)[j - 1];
          }
        }
      }
    }
  }
}
