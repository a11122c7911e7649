/** Sequence folds shared by the ledger and the pages: JavaScript's
    `Array.prototype.filter`, the sums computed with `reduce`, and the
    stable `Array.prototype.sort`. Every fold takes the last element off,
    so that it visits the elements in the order `reduce` does. */
module Seqs {

  /** `a` is `b` with some elements dropped and the rest kept in order. */
  predicate IsSubsequence<T(==)>(a: seq<T>, b: seq<T>)
    decreases |b|
  {
    if a == [] then true
    else if b == [] then false
    else (a[|a| - 1] == b[|b| - 1] && IsSubsequence(a[..|a| - 1], b[..|b| - 1]))
         || IsSubsequence(a, b[..|b| - 1])
  }

  /** No element occurs twice. */
  predicate Distinct<T(==)>(s: seq<T>) {
    forall i, j :: 0 <= i < j < |s| ==> s[i] != s[j]
  }

  /** `s.filter(p)`: the elements satisfying `p`, in their order in `s`. */
  function Filter<T(==)>(s: seq<T>, p: T -> bool): (r: seq<T>)
    ensures |r| <= |s|
  {
    if s == [] then []
    else
      var r' := Filter(s[..|s| - 1], p);
      if p(s[|s| - 1]) then r' + [s[|s| - 1]] else r'
  }

  /** An element is kept exactly when it occurs in `s` and satisfies `p`. */
  lemma {:induction false} FilterIn<T>(s: seq<T>, p: T -> bool, x: T)
    ensures x in Filter(s, p) <==> x in s && p(x)
  {
    if s != [] {
      var s', y := s[..|s| - 1], s[|s| - 1];
      FilterIn(s', p, x);
      LastSplit(s);
      assert x in s <==> x in s' || x == y;
    }
  }

  /** The negation of a filter predicate. */
  function Not<T>(p: T -> bool): T -> bool {
    x => !p(x)
  }

  /** Filtering one element more at the end of the input. */
  lemma FilterSnoc<T>(s: seq<T>, x: T, p: T -> bool)
    ensures Filter(s + [x], p) == Filter(s, p) + (if p(x) then [x] else [])
  {
    assert (s + [x])[..|s|] == s;
  }

  /** A non-empty sequence is its front followed by its last element. */
  lemma LastSplit<T>(s: seq<T>)
    requires s != []
    ensures s == s[..|s| - 1] + [s[|s| - 1]]
  {
  }

  /** A subsequence whose elements all satisfy `p` is no longer than the filter. */
  lemma {:induction false} SubsequenceBound<T>(r: seq<T>, s: seq<T>, p: T -> bool)
    requires IsSubsequence(r, s)
    requires forall i :: 0 <= i < |r| ==> p(r[i])
    ensures |r| <= |Filter(s, p)|
    decreases |s|
  {
    if r != [] && s != [] {
      var r', s' := r[..|r| - 1], s[..|s| - 1];
      if r[|r| - 1] == s[|s| - 1] && IsSubsequence(r', s') {
        SubsequenceBound(r', s', p);
      } else {
        SubsequenceBound(r, s', p);
      }
    }
  }

  /** The filter is the only subsequence of `s` that keeps only elements
      satisfying `p` and has as many elements as there are such elements. */
  lemma {:induction false} FilterUnique<T>(r: seq<T>, s: seq<T>, p: T -> bool)
    requires IsSubsequence(r, s)
    requires forall i :: 0 <= i < |r| ==> p(r[i])
    requires |r| == |Filter(s, p)|
    ensures r == Filter(s, p)
    decreases |s|, 1
  {
    if s != [] && r != [] {
      var r', s', x := r[..|r| - 1], s[..|s| - 1], s[|s| - 1];
      if r[|r| - 1] == x && IsSubsequence(r', s') {
        FilterUniqueLast(r, s, p);
      } else {
        assert IsSubsequence(r, s');
        LastSplit(s);
        FilterSnoc(s', x, p);
        if p(x) {
          SubsequenceBound(r, s', p);
          assert false;
        } else {
          FilterUnique(r, s', p);
        }
      }
    }
  }

  /** The case of `FilterUnique` where `r` ends with the last element of `s`. */
  lemma {:induction false} FilterUniqueLast<T>(r: seq<T>, s: seq<T>, p: T -> bool)
    requires r != [] && s != [] && r[|r| - 1] == s[|s| - 1]
    requires IsSubsequence(r[..|r| - 1], s[..|s| - 1])
    requires forall i :: 0 <= i < |r| ==> p(r[i])
    requires |r| == |Filter(s, p)|
    ensures r == Filter(s, p)
    decreases |s|, 0
  {
    var r', s', x := r[..|r| - 1], s[..|s| - 1], s[|s| - 1];
    LastSplit(s);
    LastSplit(r);
    FilterSnoc(s', x, p);
    FilterUnique(r', s', p);
  }

  /** `r` keeps exactly the elements of `s` that satisfy `p`, each as often
      as it occurs in `s`, in the order of `s`. */
  predicate Selects<T(==)>(r: seq<T>, s: seq<T>, p: T -> bool) {
    && IsSubsequence(r, s)
    && (forall x :: x in r ==> x in s)
    && (forall x :: x in s ==> multiset(r)[x] == (if p(x) then multiset(s)[x] else 0))
  }

  /** The filter selects what it should. */
  lemma {:induction false} FilterSelects<T>(s: seq<T>, p: T -> bool)
    ensures Selects(Filter(s, p), s, p)
  {
    if s != [] {
      var s', x := s[..|s| - 1], s[|s| - 1];
      FilterSelects(s', p);
      LastSplit(s);
    }
  }

  /** A predicate every element satisfies filters nothing out. */
  lemma {:induction false} FilterAll<T>(s: seq<T>, p: T -> bool)
    requires forall x :: x in s ==> p(x)
    ensures Filter(s, p) == s
  {
    if s != [] {
      FilterAll(s[..|s| - 1], p);
      LastSplit(s);
    }
  }

  /** The positions of `s` whose element satisfies `p`. */
  function Positions<T>(s: seq<T>, p: T -> bool): set<int> {
    set k | 0 <= k < |s| && p(s[k])
  }

  /** The filter keeps one element per satisfying position. */
  lemma {:induction false} FilterCount<T>(s: seq<T>, p: T -> bool)
    ensures |Filter(s, p)| == |Positions(s, p)|
  {
    if s != [] {
      var s', n := s[..|s| - 1], |s| - 1;
      FilterCount(s', p);
      var before := Positions(s', p);
      assert n !in before;
      if p(s[n]) {
        assert Positions(s, p) == before + {n};
      } else {
        assert Positions(s, p) == before;
      }
    }
  }

  /** Two predicates no element satisfies together select at most `|s|`
      elements between them. */
  lemma {:induction false} FilterDisjoint<T>(s: seq<T>, p: T -> bool, q: T -> bool)
    requires forall x :: x in s ==> !(p(x) && q(x))
    ensures |Filter(s, p)| + |Filter(s, q)| <= |s|
  {
    if s != [] {
      FilterDisjoint(s[..|s| - 1], p, q);
    }
  }

  /** `s.reduce((acc, x) => acc + f(x), 0)`. */
  function Sum<T>(s: seq<T>, f: T -> int): int {
    if s == [] then 0 else Sum(s[..|s| - 1], f) + f(s[|s| - 1])
  }

  /** Appending one element adds its value to the sum. */
  lemma SumSnoc<T>(s: seq<T>, x: T, f: T -> int)
    ensures Sum(s + [x], f) == Sum(s, f) + f(x)
  {
    assert (s + [x])[..|s|] == s;
  }

  /** A sum splits into the part over the elements satisfying `p` and the
      part over the rest. */
  lemma {:induction false} SumSplit<T>(s: seq<T>, f: T -> int, p: T -> bool)
    ensures Sum(s, f) == Sum(Filter(s, p), f) + Sum(Filter(s, Not(p)), f)
  {
    if s != [] {
      var s', x := s[..|s| - 1], s[|s| - 1];
      SumSplit(s', f, p);
      if p(x) {
        assert (Filter(s', p) + [x])[..|Filter(s', p)|] == Filter(s', p);
      } else {
        assert (Filter(s', Not(p)) + [x])[..|Filter(s', Not(p))|] == Filter(s', Not(p));
      }
    }
  }

  /** Ordered by `key`, largest first (equal keys allowed). */
  predicate SortedDesc<T>(s: seq<T>, key: T -> int) {
    forall i, j :: 0 <= i < j < |s| ==> key(s[i]) >= key(s[j])
  }

  /** The filter predicate "has key `k`". */
  function KeyIs<T>(key: T -> int, k: int): T -> bool {
    x => key(x) == k
  }

  /** Inserts `x` into `t` after every element whose key is at least `x`'s. */
  function Insert<T(==)>(t: seq<T>, x: T, key: T -> int): (r: seq<T>)
    ensures multiset(r) == multiset(t) + multiset{x}
  {
    if t == [] || key(t[|t| - 1]) >= key(x) then t + [x]
    else
      LastSplit(t);
      Insert(t[..|t| - 1], x, key) + [t[|t| - 1]]
  }

  /** A bound every key of `t` and `x`'s key meet is met after insertion. */
  lemma {:induction false} InsertLowerBound<T>(t: seq<T>, x: T, key: T -> int, b: int)
    requires forall i :: 0 <= i < |t| ==> key(t[i]) >= b
    requires key(x) >= b
    ensures forall i :: 0 <= i < |Insert(t, x, key)| ==> key(Insert(t, x, key)[i]) >= b
  {
    if t != [] && key(t[|t| - 1]) < key(x) {
      InsertLowerBound(t[..|t| - 1], x, key, b);
    }
  }

  lemma {:induction false} InsertSorted<T>(t: seq<T>, x: T, key: T -> int)
    requires SortedDesc(t, key)
    ensures SortedDesc(Insert(t, x, key), key)
  {
    if t != [] && key(t[|t| - 1]) < key(x) {
      var t', y := t[..|t| - 1], t[|t| - 1];
      InsertSorted(t', x, key);
      var u := Insert(t', x, key);
      InsertLowerBound(t', x, key, key(y));
      forall i, j | 0 <= i < j < |u + [y]| ensures key((u + [y])[i]) >= key((u + [y])[j]) {
        if j == |u| {
          assert (u + [y])[i] == u[i];
        }
      }
    }
  }

  /** Two appended pieces of which one is empty can be swapped. */
  lemma AppendSwap<T>(a: seq<T>, xs: seq<T>, ys: seq<T>)
    requires xs == [] || ys == []
    ensures a + xs + ys == a + ys + xs
  {
    if xs == [] {
      assert a + xs == a;
    } else {
      assert a + ys == a;
    }
  }

  /** Inserting `x` keeps the relative order of the elements of each key. */
  lemma {:induction false} InsertStable<T>(t: seq<T>, x: T, key: T -> int, k: int)
    ensures Filter(Insert(t, x, key), KeyIs(key, k))
         == Filter(t, KeyIs(key, k)) + (if key(x) == k then [x] else [])
  {
    var p := KeyIs(key, k);
    if t == [] || key(t[|t| - 1]) >= key(x) {
      FilterSnoc(t, x, p);
    } else {
      var t', y := t[..|t| - 1], t[|t| - 1];
      LastSplit(t);
      var u := Insert(t', x, key);
      assert Insert(t, x, key) == u + [y];
      var xs, ys := (if key(x) == k then [x] else []), (if p(y) then [y] else []);
      InsertStable(t', x, key, k);
      FilterSnoc(u, y, p);
      FilterSnoc(t', y, p);
      // `y` outranks `x`, so at most one of the two has the key `k`.
      AppendSwap(Filter(t', p), xs, ys);
    }
  }

  /** A stable sort by `key`, largest first: insertion sort. */
  function SortDesc<T(==)>(s: seq<T>, key: T -> int): (r: seq<T>)
    ensures multiset(r) == multiset(s) && |r| == |s|
    ensures SortedDesc(r, key)
  {
    if s == [] then []
    else
      var t := SortDesc(s[..|s| - 1], key);
      LastSplit(s);
      InsertSorted(t, s[|s| - 1], key);
      var r := Insert(t, s[|s| - 1], key);
      assert |multiset(r)| == |r| && |multiset(s)| == |s|;
      r
  }

  /** Sorting keeps elements with equal keys in their input order. */
  lemma {:induction false} SortStable<T>(s: seq<T>, key: T -> int, k: int)
    ensures Filter(SortDesc(s, key), KeyIs(key, k)) == Filter(s, KeyIs(key, k))
  {
    if s != [] {
      var s', x := s[..|s| - 1], s[|s| - 1];
      SortStable(s', key, k);
      InsertStable(SortDesc(s', key), x, key, k);
      FilterSnoc(s', x, KeyIs(key, k));
      LastSplit(s);
    }
  }

  /** In a sequence without repeats every element occurs once. */
  lemma {:induction false} DistinctOnce<T>(s: seq<T>, x: T)
    requires Distinct(s)
    ensures multiset(s)[x] <= 1
  {
    if s != [] {
      var s' := s[..|s| - 1];
      DistinctOnce(s', x);
      LastSplit(s);
      assert s[|s| - 1] !in s';
    }
  }

  /** A permutation of a sequence without repeats has none either. */
  lemma DistinctPermutation<T>(a: seq<T>, b: seq<T>)
    requires multiset(a) == multiset(b) && Distinct(a)
    ensures Distinct(b)
  {
    forall i, j | 0 <= i < j < |b| ensures b[i] != b[j] {
      if b[i] == b[j] {
        assert b == b[..j] + b[j..];
        assert b[i] in b[..j] && b[j] in b[j..];
        assert multiset(b)[b[i]] == multiset(b[..j])[b[i]] + multiset(b[j..])[b[i]];
        DistinctOnce(a, b[i]);
      }
    }
  }

  /** In a sorted sequence without repeated keys the order is strict. */
  lemma SortedDistinctStrict(s: seq<int>)
    requires SortedDesc(s, Id) && Distinct(s)
    ensures forall i, j :: 0 <= i < j < |s| ==> s[i] > s[j]
  {
    forall i, j | 0 <= i < j < |s| ensures s[i] > s[j] {
      assert Id(s[i]) >= Id(s[j]);
    }
  }

  /** The identity key: sorts integers themselves. */
  function Id(n: int): int { n }

  /** The negated key: `SortDesc(s, Neg)` sorts integers smallest first. */
  function Neg(n: int): int { -n }
}
