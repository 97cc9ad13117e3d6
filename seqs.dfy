/** The LINQ operators the services use (Where, FirstOrDefault, Sum, Select,
    Distinct, OrderByDescending, Skip, Take), as functions on sequences,
    with the facts about them that the service proofs need. */
module Seqs {
  import opened Wrappers

  /** `Where`: the elements satisfying `p`, in their original order. */
  function Filter<T>(s: seq<T>, p: T -> bool): (r: seq<T>)
    ensures |r| <= |s|
    ensures forall x :: x in r ==> x in s && p(x)
    ensures forall x :: x in s && p(x) ==> x in r
    ensures forall i :: 0 <= i < |r| ==> p(r[i])
    decreases |s|
  {
    if s == [] then []
    else
      var init, last := s[..|s| - 1], s[|s| - 1];
      assert s == init + [last];
      Filter(init, p) + (if p(last) then [last] else [])
  }

  lemma {:induction false} FilterConcat<T>(a: seq<T>, b: seq<T>, p: T -> bool)
    ensures Filter(a + b, p) == Filter(a, p) + Filter(b, p)
    decreases |b|
  {
    if b == [] {
      assert a + b == a;
    } else {
      var init, last := b[..|b| - 1], b[|b| - 1];
      assert (a + b)[..|a + b| - 1] == a + init;
      FilterConcat(a, init, p);
    }
  }

  /** Filtering keeps every element satisfying `p` with its multiplicity. */
  lemma {:induction false} FilterCount<T>(s: seq<T>, p: T -> bool, x: T)
    ensures multiset(Filter(s, p))[x] == if p(x) then multiset(s)[x] else 0
    decreases |s|
  {
    if s != [] {
      var init, last := s[..|s| - 1], s[|s| - 1];
      assert s == init + [last];
      FilterCount(init, p, x);
    }
  }

  lemma FilterPermutation<T>(s: seq<T>, t: seq<T>, p: T -> bool)
    requires multiset(s) == multiset(t)
    ensures multiset(Filter(s, p)) == multiset(Filter(t, p))
  {
    var a, b := multiset(Filter(s, p)), multiset(Filter(t, p));
    forall x ensures a[x] == b[x] {
      FilterCount(s, p, x);
      FilterCount(t, p, x);
    }
    assert a == b;
  }

  /** Nothing satisfying `p`, nothing kept. */
  lemma {:induction false} FilterNone<T>(s: seq<T>, p: T -> bool)
    requires forall x :: x in s ==> !p(x)
    ensures Filter(s, p) == []
    decreases |s|
  {
    if s != [] {
      FilterNone(s[..|s| - 1], p);
    }
  }

  /** Everything satisfying `p`, everything kept. */
  lemma {:induction false} FilterAll<T>(s: seq<T>, p: T -> bool)
    requires forall x :: x in s ==> p(x)
    ensures Filter(s, p) == s
    decreases |s|
  {
    if s != [] {
      FilterAll(s[..|s| - 1], p);
      assert s == s[..|s| - 1] + [s[|s| - 1]];
    }
  }

  /** Filtering twice is filtering once by the conjunction. */
  lemma {:induction false} FilterFilter<T>(s: seq<T>, p: T -> bool, q: T -> bool)
    ensures Filter(Filter(s, p), q) == Filter(s, x => p(x) && q(x))
    decreases |s|
  {
    if s != [] {
      var init, last := s[..|s| - 1], s[|s| - 1];
      FilterFilter(init, p, q);
      FilterConcat(Filter(init, p), if p(last) then [last] else [], q);
    }
  }

  /** Two filters whose predicates agree on the elements give the same result. */
  lemma {:induction false} FilterExt<T>(s: seq<T>, p: T -> bool, q: T -> bool)
    requires forall x :: x in s ==> (p(x) <==> q(x))
    ensures Filter(s, p) == Filter(s, q)
    decreases |s|
  {
    if s != [] {
      var init, last := s[..|s| - 1], s[|s| - 1];
      assert s == init + [last];
      FilterExt(init, p, q);
    }
  }

  /** Filtering after appending one element. */
  lemma FilterSnoc<T>(s: seq<T>, x: T, p: T -> bool)
    ensures Filter(s + [x], p) == Filter(s, p) + (if p(x) then [x] else [])
  {
    assert (s + [x])[..|s|] == s;
  }

  /** Filtering a sequence sorted by a key leaves it sorted. */
  lemma {:induction false} FilterSortedDesc<T>(s: seq<T>, p: T -> bool, key: T -> real)
    requires SortedDesc(s, key)
    ensures SortedDesc(Filter(s, p), key)
    decreases |s|
  {
    if s != [] {
      var init, last := s[..|s| - 1], s[|s| - 1];
      assert SortedDesc(init, key) by {
        forall i, j | 0 <= i < j < |init| ensures key(init[i]) >= key(init[j]) {
          assert init[i] == s[i] && init[j] == s[j];
        }
      }
      FilterSortedDesc(init, p, key);
      var f := Filter(init, p);
      forall y | y in init ensures key(y) >= key(last) {
        var i :| 0 <= i < |init| && init[i] == y;
        assert s[i] == y;
      }
    }
  }

  /** `Sum(f)`: adds `f` over the sequence, last element last. */
  function SumOf<T>(s: seq<T>, f: T -> real): real
    decreases |s|
  {
    if s == [] then 0.0 else SumOf(s[..|s| - 1], f) + f(s[|s| - 1])
  }

  lemma {:induction false} SumOfConcat<T>(a: seq<T>, b: seq<T>, f: T -> real)
    ensures SumOf(a + b, f) == SumOf(a, f) + SumOf(b, f)
    decreases |b|
  {
    if b == [] {
      assert a + b == a;
    } else {
      var init := b[..|b| - 1];
      assert (a + b)[..|a + b| - 1] == a + init;
      SumOfConcat(a, init, f);
    }
  }

  /** A sum does not depend on the order in which the elements are visited. */
  lemma {:induction false} SumOfPermutation<T>(s: seq<T>, t: seq<T>, f: T -> real)
    requires multiset(s) == multiset(t)
    ensures SumOf(s, f) == SumOf(t, f)
    decreases |s|
  {
    if s == [] {
      assert |t| == |multiset(t)| == 0;
    } else {
      var init, last := s[..|s| - 1], s[|s| - 1];
      assert s == init + [last];
      assert last in multiset(t);
      var i :| 0 <= i < |t| && t[i] == last;
      assert t == t[..i] + [last] + t[i + 1..];
      var rest := t[..i] + t[i + 1..];
      assert multiset(t) == multiset(t[..i]) + multiset{last} + multiset(t[i + 1..]);
      assert multiset(rest) == multiset(t[..i]) + multiset(t[i + 1..]);
      assert multiset(s) == multiset(init) + multiset{last};
      assert multiset(init) == multiset(s) - multiset{last};
      assert multiset(rest) == multiset(t) - multiset{last};
      SumOfPermutation(init, rest, f);
      SumOfConcat(t[..i] + [last], t[i + 1..], f);
      SumOfConcat(t[..i], [last], f);
      SumOfConcat(t[..i], t[i + 1..], f);
      assert SumOf([last], f) == f(last) by {
        assert [last][..0] == [];
      }
    }
  }

  /** The sum over a filter, unfolded at the last element. */
  lemma SumOfFilterSnoc<T>(s: seq<T>, p: T -> bool, f: T -> real)
    requires s != []
    ensures SumOf(Filter(s, p), f) ==
      SumOf(Filter(s[..|s| - 1], p), f) + (if p(s[|s| - 1]) then f(s[|s| - 1]) else 0.0)
  {
    var init, last := s[..|s| - 1], s[|s| - 1];
    var a := Filter(init, p);
    assert Filter(s, p) == a + (if p(last) then [last] else []);
    if p(last) {
      SumOfSnoc(a, last, f);
    } else {
      assert a + [] == a;
    }
  }

  /** Appending one element to the visited sequence adds its term. */
  lemma SumOfSnoc<T>(s: seq<T>, x: T, f: T -> real)
    ensures SumOf(s + [x], f) == SumOf(s, f) + f(x)
  {
    assert (s + [x])[..|s|] == s;
  }

  /** Adding a function that is zero on every element adds nothing. */
  lemma {:induction false} SumOfZero<T>(s: seq<T>, f: T -> real)
    requires forall x :: x in s ==> f(x) == 0.0
    ensures SumOf(s, f) == 0.0
    decreases |s|
  {
    if s != [] {
      assert s[..|s| - 1] + [s[|s| - 1]] == s;
      SumOfZero(s[..|s| - 1], f);
    }
  }

  /** Two functions that agree on the elements have the same sum. */
  lemma {:induction false} SumOfExt<T>(s: seq<T>, f: T -> real, g: T -> real)
    requires forall x :: x in s ==> f(x) == g(x)
    ensures SumOf(s, f) == SumOf(s, g)
    decreases |s|
  {
    if s != [] {
      assert s[..|s| - 1] + [s[|s| - 1]] == s;
      SumOfExt(s[..|s| - 1], f, g);
    }
  }

  /** Summing a filtered sequence is summing `f` where `p` holds and 0 elsewhere. */
  lemma {:induction false} SumOfFilter<T>(s: seq<T>, p: T -> bool, f: T -> real)
    ensures SumOf(Filter(s, p), f) == SumOf(s, x => if p(x) then f(x) else 0.0)
    decreases |s|
  {
    if s != [] {
      var init, last := s[..|s| - 1], s[|s| - 1];
      SumOfFilter(init, p, f);
      SumOfConcat(Filter(init, p), if p(last) then [last] else [], f);
      if p(last) {
        assert [last][..0] == [];
      }
    }
  }

  /** The sum of a pointwise sum or difference splits. */
  lemma {:induction false} SumOfLinear<T>(s: seq<T>, f: T -> real, g: T -> real, h: T -> real)
    requires forall x :: x in s ==> h(x) == f(x) + g(x)
    ensures SumOf(s, h) == SumOf(s, f) + SumOf(s, g)
    decreases |s|
  {
    if s != [] {
      assert s[..|s| - 1] + [s[|s| - 1]] == s;
      SumOfLinear(s[..|s| - 1], f, g, h);
    }
  }

  lemma {:induction false} SumOfNonNegative<T>(s: seq<T>, f: T -> real)
    requires forall x :: x in s ==> f(x) >= 0.0
    ensures SumOf(s, f) >= 0.0
    decreases |s|
  {
    if s != [] {
      assert s[..|s| - 1] + [s[|s| - 1]] == s;
      SumOfNonNegative(s[..|s| - 1], f);
    }
  }

  /** `FirstOrDefault(p)`, as the position of the first element satisfying `p`. */
  function IndexWhere<T>(s: seq<T>, p: T -> bool): (r: Option<nat>)
    ensures r.Some? ==> r.value < |s| && p(s[r.value])
    ensures r.Some? ==> forall j :: 0 <= j < r.value ==> !p(s[j])
    ensures r.None? <==> forall j :: 0 <= j < |s| ==> !p(s[j])
    decreases |s|
  {
    if s == [] then None
    else if p(s[0]) then Some(0)
    else match IndexWhere(s[1..], p)
      case None => None
      case Some(k) => Some(k + 1)
  }

  /** `FirstOrDefault(p)`: the first element satisfying `p`, if any. */
  function First<T>(s: seq<T>, p: T -> bool): (r: Option<T>)
    ensures r.Some? ==> r.value in s && p(r.value)
    ensures r.None? <==> forall x :: x in s ==> !p(x)
  {
    match IndexWhere(s, p)
    case None => None
    case Some(i) => Some(s[i])
  }

  /** `Select(f)`. */
  function Map<T, U>(s: seq<T>, f: T -> U): (r: seq<U>)
    ensures |r| == |s|
    ensures forall i :: 0 <= i < |s| ==> r[i] == f(s[i])
  {
    seq(|s|, i requires 0 <= i < |s| => f(s[i]))
  }

  predicate NoDuplicates<T(==)>(s: seq<T>) {
    forall i, j :: 0 <= i < j < |s| ==> s[i] != s[j]
  }

  /** `Distinct()`: each element once, in order of first occurrence. */
  function Distinct<T(==)>(s: seq<T>): (r: seq<T>)
    ensures forall x :: x in r ==> x in s
    ensures forall x :: x in s ==> x in r
    ensures NoDuplicates(r)
    ensures |r| <= |s|
    decreases |s|
  {
    if s == [] then []
    else
      var init, last := s[..|s| - 1], s[|s| - 1];
      assert s == init + [last];
      var d := Distinct(init);
      if last in d then d else d + [last]
  }

  /** `Skip(n)`: a negative count skips nothing. */
  function Skip<T>(s: seq<T>, n: int): (r: seq<T>)
    ensures |r| == if n <= 0 then |s| else if n >= |s| then 0 else |s| - n
    ensures forall i :: 0 <= i < |r| ==> r[i] == s[i + |s| - |r|]
  {
    if n <= 0 then s else if n >= |s| then [] else s[n..]
  }

  /** `Take(n)`: a non-positive count takes nothing. */
  function Take<T>(s: seq<T>, n: int): (r: seq<T>)
    ensures |r| == if n <= 0 then 0 else if n >= |s| then |s| else n
    ensures forall i :: 0 <= i < |r| ==> r[i] == s[i]
    ensures forall x :: x in r ==> x in s
  {
    if n <= 0 then [] else if n >= |s| then s else s[..n]
  }

  /** `Skip(n).Take(m)` is the slice that starts at `n` (clamped to the
      sequence) and holds at most `m` elements. */
  lemma SkipTake<T>(s: seq<T>, n: int, m: int)
    ensures var lo := if n <= 0 then 0 else if n >= |s| then |s| else n;
      var hi := if m <= 0 then lo else if lo + m >= |s| then |s| else lo + m;
      Take(Skip(s, n), m) == s[lo..hi]
  {
    var lo := if n <= 0 then 0 else if n >= |s| then |s| else n;
    var hi := if m <= 0 then lo else if lo + m >= |s| then |s| else lo + m;
    var r := Take(Skip(s, n), m);
    assert |r| == hi - lo;
    forall i | 0 <= i < |r| ensures r[i] == s[lo..hi][i] {
      assert r[i] == Skip(s, n)[i];
    }
  }

  /** A slice of a sorted sequence is sorted, and its elements are the
      sequence's. */
  lemma SliceSortedDesc<T>(s: seq<T>, lo: int, hi: int, key: T -> real)
    requires 0 <= lo <= hi <= |s| && SortedDesc(s, key)
    ensures SortedDesc(s[lo..hi], key)
    ensures forall x :: x in s[lo..hi] ==> x in s
  {
    var r := s[lo..hi];
    forall i, j | 0 <= i < j < |r| ensures key(r[i]) >= key(r[j]) {
      assert r[i] == s[lo + i] && r[j] == s[lo + j];
    }
    forall x | x in r ensures x in s {
      var i :| 0 <= i < |r| && r[i] == x;
      assert s[lo + i] == x;
    }
  }

  /** A page `Skip(n).Take(m)` of a sorted sequence: sorted, made of the
      sequence's elements, at most `m` long, the slice from `n` when `n` is
      in range, empty past the end, and the first page for `n <= 0`. */
  lemma SkipTakeSortedDesc<T>(s: seq<T>, n: int, m: int, key: T -> real)
    requires SortedDesc(s, key)
    ensures |Take(Skip(s, n), m)| <= (if m <= 0 then 0 else m)
    ensures SortedDesc(Take(Skip(s, n), m), key)
    ensures forall x :: x in Take(Skip(s, n), m) ==> x in s
    ensures 0 <= n <= |s| && 0 <= m ==> Take(Skip(s, n), m) == s[n..if n + m <= |s| then n + m else |s|]
    ensures n >= |s| ==> Take(Skip(s, n), m) == []
    ensures n <= 0 ==> Take(Skip(s, n), m) == Take(s, m)
  {
    var lo := if n <= 0 then 0 else if n >= |s| then |s| else n;
    var hi := if m <= 0 then lo else if lo + m >= |s| then |s| else lo + m;
    SkipTake(s, n, m);
    SliceSortedDesc(s, lo, hi, key);
    if n <= 0 {
      SkipTake(s, 0, m);
      assert Skip(s, 0) == s;
    }
  }

  /** `f(x)` is among the images of a sequence that holds `x`. */
  lemma MapMember<T, U>(s: seq<T>, f: T -> U, x: T)
    requires x in s
    ensures f(x) in Map(s, f)
  {
    var i :| 0 <= i < |s| && s[i] == x;
    assert Map(s, f)[i] == f(x);
  }

  /** Two sequences with the same multiset hold the same elements. */
  lemma SameElements<T>(s: seq<T>, t: seq<T>)
    requires multiset(s) == multiset(t)
    ensures forall x :: x in s ==> x in t
  {
    forall x | x in s ensures x in t {
      assert x in multiset(s);
    }
  }

  /** Keys never increase from left to right. */
  predicate SortedDesc<T>(s: seq<T>, key: T -> real) {
    forall i, j :: 0 <= i < j < |s| ==> key(s[i]) >= key(s[j])
  }

  /** Puts `x` before the first element whose key is not above x's, so that
      `x` stays ahead of later elements with an equal key. */
  function InsertDesc<T>(x: T, s: seq<T>, key: T -> real): (r: seq<T>)
    ensures multiset(r) == multiset(s) + multiset{x}
    ensures |r| == |s| + 1
    decreases |s|
  {
    if s == [] || key(s[0]) <= key(x) then [x] + s
    else
      assert s == [s[0]] + s[1..];
      [s[0]] + InsertDesc(x, s[1..], key)
  }

  lemma {:induction false} InsertDescSorted<T>(x: T, s: seq<T>, key: T -> real)
    requires SortedDesc(s, key)
    ensures SortedDesc(InsertDesc(x, s, key), key)
    decreases |s|
  {
    if s != [] && key(s[0]) > key(x) {
      var rest := s[1..];
      assert SortedDesc(rest, key) by {
        forall i, j | 0 <= i < j < |rest| ensures key(rest[i]) >= key(rest[j]) {
          assert rest[i] == s[i + 1] && rest[j] == s[j + 1];
        }
      }
      InsertDescSorted(x, rest, key);
      var tail := InsertDesc(x, rest, key);
      assert s == [s[0]] + rest;
      forall j | 0 <= j < |tail| ensures key(s[0]) >= key(tail[j]) {
        assert tail[j] in multiset(tail);
        if tail[j] != x {
          assert tail[j] in multiset(rest);
          var k :| 0 <= k < |rest| && rest[k] == tail[j];
          assert s[k + 1] == tail[j];
        }
      }
      ConsSorted(s[0], tail, key);
    }
  }

  /** A head not below any element of a sorted tail keeps the sequence sorted. */
  lemma ConsSorted<T>(h: T, tail: seq<T>, key: T -> real)
    requires SortedDesc(tail, key)
    requires forall j :: 0 <= j < |tail| ==> key(h) >= key(tail[j])
    ensures SortedDesc([h] + tail, key)
  {
    var r := [h] + tail;
    forall i, j | 0 <= i < j < |r| ensures key(r[i]) >= key(r[j]) {
      assert r[j] == tail[j - 1];
      if i > 0 {
        assert r[i] == tail[i - 1];
      }
    }
  }

  /** A prefix of a sorted sequence is sorted, and no element left out of it
      has a larger key than an element kept. */
  lemma TakeSortedDesc<T>(s: seq<T>, n: int, key: T -> real)
    requires SortedDesc(s, key)
    ensures SortedDesc(Take(s, n), key)
    ensures forall x, y :: x in s && x !in Take(s, n) && y in Take(s, n) ==> key(x) <= key(y)
  {
    var r := Take(s, n);
    forall i, j | 0 <= i < j < |r| ensures key(r[i]) >= key(r[j]) {
      assert r[i] == s[i] && r[j] == s[j];
    }
    forall x, y | x in s && x !in r && y in r ensures key(x) <= key(y) {
      var k :| 0 <= k < |s| && s[k] == x;
      var j :| 0 <= j < |r| && r[j] == y;
      assert forall i :: 0 <= i < |r| ==> s[i] != x;
      assert s[j] == y;
    }
  }

  /** `OrderByDescending(key)`: a stable insertion sort. */
  function SortDesc<T>(s: seq<T>, key: T -> real): (r: seq<T>)
    ensures SortedDesc(r, key)
    ensures multiset(r) == multiset(s)
    ensures |r| == |s|
    decreases |s|
  {
    if s == [] then []
    else
      assert s == [s[0]] + s[1..];
      var sorted := SortDesc(s[1..], key);
      InsertDescSorted(s[0], sorted, key);
      InsertDesc(s[0], sorted, key)
  }
}
