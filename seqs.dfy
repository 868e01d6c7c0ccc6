/** Sequence operations that stand for what the document database does with a collection:
    find the first match, filter, and sort descending on several keys. */
module Seqs {
  import opened Base

  /** The index of the first element satisfying `p`, as `findOne` walks a collection in natural order. */
  function FirstWhere<T>(s: seq<T>, p: T -> bool): (r: Option<nat>)
    ensures r.Some? ==> r.value < |s| && p(s[r.value]) && forall j :: 0 <= j < r.value ==> !p(s[j])
    ensures r.None? ==> forall j :: 0 <= j < |s| ==> !p(s[j])
  {
    if s == [] then None
    else if p(s[0]) then Some(0)
    else match FirstWhere(s[1..], p)
      case None => None
      case Some(i) => Some(i + 1)
  }

  /** `r` is `s` with some elements left out and the rest in their original order. */
  predicate IsSubsequence<T(==)>(r: seq<T>, s: seq<T>)
    decreases |s|
  {
    r == [] || (s != [] && ((r[0] == s[0] && IsSubsequence(r[1..], s[1..])) || IsSubsequence(r, s[1..])))
  }

  /** The elements of `s` that satisfy `p`, in order (Array.prototype.filter, or a query's matches). */
  function Filter<T(==,!new)>(s: seq<T>, p: T -> bool): (r: seq<T>)
    ensures forall x :: x in r <==> x in s && p(x)
    ensures IsSubsequence(r, s)
  {
    if s == [] then []
    else
      var rest := Filter(s[1..], p);
      assert s == [s[0]] + s[1..];
      if p(s[0]) then [s[0]] + rest else rest
  }

  /** Filtering keeps every element satisfying the condition as often as it occurs, and no other. */
  lemma {:induction false} FilterCounts<T(!new)>(s: seq<T>, p: T -> bool)
    ensures forall x :: multiset(Filter(s, p))[x] == if p(x) then multiset(s)[x] else 0
  {
    if s != [] {
      assert s == [s[0]] + s[1..];
      FilterCounts(s[1..], p);
    }
  }

  /** Filtering by a condition every element satisfies keeps the whole sequence. */
  lemma {:induction false} FilterAll<T(!new)>(s: seq<T>, p: T -> bool)
    requires forall x :: x in s ==> p(x)
    ensures Filter(s, p) == s
  {
    if s != [] {
      assert s == [s[0]] + s[1..];
      FilterAll(s[1..], p);
    }
  }

  /** Filtering by two predicates that agree on every element gives the same result. */
  lemma {:induction false} FilterAgrees<T(!new)>(s: seq<T>, p: T -> bool, q: T -> bool)
    requires forall x :: x in s ==> p(x) == q(x)
    ensures Filter(s, p) == Filter(s, q)
  {
    if s != [] {
      assert forall x :: x in s[1..] ==> x in s;
      FilterAgrees(s[1..], p, q);
    }
  }

  /** Filtering distributes over concatenation. */
  lemma {:induction false} FilterConcat<T(!new)>(a: seq<T>, b: seq<T>, p: T -> bool)
    ensures Filter(a + b, p) == Filter(a, p) + Filter(b, p)
  {
    if a == [] {
      assert a + b == b;
    } else {
      var ab := a + b;
      assert ab[0] == a[0] && ab[1..] == a[1..] + b;
      FilterConcat(a[1..], b, p);
    }
  }

  /** Filtering a one-element sequence keeps the element exactly when it satisfies the condition. */
  lemma FilterSingleton<T(!new)>(x: T, p: T -> bool)
    ensures Filter([x], p) == if p(x) then [x] else []
  {
    assert [x][1..] == [];
  }

  /** Removing the element at `i` removes it, and only it, from what the filter keeps. */
  lemma FilterRemoveAt<T(!new)>(s: seq<T>, i: nat, p: T -> bool)
    requires i < |s|
    ensures multiset(Filter(s[..i] + s[i + 1..], p))
              == multiset(Filter(s, p)) - (if p(s[i]) then multiset{s[i]} else multiset{})
  {
    var a, x, b := s[..i], s[i], s[i + 1..];
    assert s == a + ([x] + b);
    FilterConcat(a, [x] + b, p);
    FilterConcat([x], b, p);
    FilterConcat(a, b, p);
    FilterSingleton(x, p);
    var fa, fb := Filter(a, p), Filter(b, p);
    if p(x) {
      assert Filter(s, p) == fa + ([x] + fb);
      RemoveMiddle(fa, [x], fb);
    } else {
      assert Filter(s, p) == fa + ([] + fb);
      RemoveMiddle(fa, [], fb);
    }
  }

  /** Taking the middle part out of a concatenation takes its elements out of the multiset. */
  lemma RemoveMiddle<T>(a: seq<T>, m: seq<T>, b: seq<T>)
    ensures multiset(a + b) == multiset(a + (m + b)) - multiset(m)
  {
  }

  /** No value occurs twice. */
  predicate NoDuplicates<T(==)>(s: seq<T>) {
    forall i, j :: 0 <= i < j < |s| ==> s[i] != s[j]
  }

  /** Lexicographic order on key vectors: the order of a multi-key ascending sort. */
  predicate LexLeq(a: seq<int>, b: seq<int>) {
    a == [] || (b != [] && (a[0] < b[0] || (a[0] == b[0] && LexLeq(a[1..], b[1..]))))
  }

  lemma {:induction false} LexLeqTotal(a: seq<int>, b: seq<int>)
    ensures LexLeq(a, b) || LexLeq(b, a)
  {
    if a != [] && b != [] && a[0] == b[0] {
      LexLeqTotal(a[1..], b[1..]);
    }
  }

  lemma {:induction false} LexLeqTransitive(a: seq<int>, b: seq<int>, c: seq<int>)
    requires LexLeq(a, b) && LexLeq(b, c)
    ensures LexLeq(a, c)
  {
    if a != [] && a[0] == b[0] && b[0] == c[0] {
      LexLeqTransitive(a[1..], b[1..], c[1..]);
    }
  }

  /** Every earlier element's key is at least every later element's: a descending sort on every key. */
  predicate SortedDescending<T>(s: seq<T>, key: T -> seq<int>) {
    forall i, j :: 0 <= i < j < |s| ==> LexLeq(key(s[j]), key(s[i]))
  }

  /** Places `x` into descending-sorted `s`, after the elements whose key is at least its own. */
  function InsertDescending<T(==)>(x: T, s: seq<T>, key: T -> seq<int>): (r: seq<T>)
    requires SortedDescending(s, key)
    ensures multiset(r) == multiset(s) + multiset{x}
    ensures SortedDescending(r, key)
  {
    if s == [] then [x]
    else if LexLeq(key(s[0]), key(x)) && key(s[0]) != key(x) then
      assert forall j :: 0 <= j < |s| ==> LexLeq(key(s[j]), key(x)) by {
        forall j | 0 <= j < |s| ensures LexLeq(key(s[j]), key(x)) {
          if j > 0 { LexLeqTransitive(key(s[j]), key(s[0]), key(x)); }
        }
      }
      [x] + s
    else
      LexLeqTotal(key(s[0]), key(x));
      var rest := InsertDescending(x, s[1..], key);
      assert s == [s[0]] + s[1..];
      assert forall y :: y in multiset(rest) ==> LexLeq(key(y), key(s[0])) by {
        forall y | y in multiset(rest) ensures LexLeq(key(y), key(s[0])) {
          if y != x {
            assert y in s[1..];
            var j :| 0 <= j < |s[1..]| && s[1..][j] == y;
            assert s[j + 1] == y;
          } else {
            if key(x) == key(s[0]) { LexLeqTotal(key(x), key(s[0])); }
          }
        }
      }
      assert forall j :: 0 <= j < |rest| ==> LexLeq(key(rest[j]), key(s[0])) by {
        forall j | 0 <= j < |rest| ensures LexLeq(key(rest[j]), key(s[0])) {
          assert rest[j] in multiset(rest);
        }
      }
      [s[0]] + rest
  }

  /** The result of `.sort({k1: -1, k2: -1, ...})`: a permutation of `s`, descending on the key vector.
      The relative order of records with equal keys is not something the database promises. */
  function SortDescending<T(==)>(s: seq<T>, key: T -> seq<int>): (r: seq<T>)
    ensures multiset(r) == multiset(s)
    ensures SortedDescending(r, key)
  {
    if s == [] then []
    else
      assert s == [s[0]] + s[1..];
      InsertDescending(s[0], SortDescending(s[1..], key), key)
  }
}
