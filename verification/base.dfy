/**
  Shared vocabulary: an Option type for JavaScript's `undefined`/`null`, and the
  array operations the components use (`filter`, counting, removal, `splice`).
 */
module Base {

  /** `undefined` / `null` versus a present value. */
  datatype Option<T> = None | Some(value: T)

  function Min(a: int, b: int): int { if a <= b then a else b }

  function Max(a: int, b: int): int { if a >= b then a else b }

  /** `s.slice(0, n)`: the first `n` elements, or all of them when there are fewer. */
  function Take<T>(s: seq<T>, n: int): (r: seq<T>)
    ensures |r| == Min(Max(0, n), |s|) && r == s[..|r|]
  {
    if n <= 0 then [] else if n >= |s| then s else s[..n]
  }

  /** `Array.prototype.filter`: the elements satisfying `p`, in their original order. */
  function Filter<T(!new)>(s: seq<T>, p: T -> bool): (r: seq<T>)
    ensures |r| <= |s|
    ensures forall i :: 0 <= i < |r| ==> p(r[i])
    ensures forall x :: x in r <==> x in s && p(x)
    decreases |s|
  {
    if |s| == 0 then []
    else if p(s[0]) then [s[0]] + Filter(s[1..], p)
    else Filter(s[1..], p)
  }

  /** `a` can be obtained from `b` by deleting elements (order is kept). */
  predicate IsSubseq<T(==)>(a: seq<T>, b: seq<T>)
    decreases |b|
  {
    |a| == 0 ||
    (|b| > 0 && if a[0] == b[0] then IsSubseq(a[1..], b[1..]) else IsSubseq(a, b[1..]))
  }

  /** Number of occurrences of `x` in `s`. */
  function Occ<T(==)>(s: seq<T>, x: T): nat
    decreases |s|
  {
    if |s| == 0 then 0 else (if s[0] == x then 1 else 0) + Occ(s[1..], x)
  }

  /** `s.filter(y => y !== x)`: every copy of `x` removed, the rest kept in order. */
  function RemoveAll<T(==,!new)>(s: seq<T>, x: T): (r: seq<T>)
    ensures x !in r
    ensures forall y :: y in r <==> y in s && y != x
    ensures forall y :: y != x ==> Occ(r, y) == Occ(s, y)
    ensures |r| == |s| - Occ(s, x)
    decreases |s|
  {
    if |s| == 0 then []
    else if s[0] == x then RemoveAll(s[1..], x)
    else [s[0]] + RemoveAll(s[1..], x)
  }

  /** `copy.splice(i, 1)`: the element at index `i` deleted. */
  function RemoveAt<T>(s: seq<T>, i: nat): (r: seq<T>)
    requires i < |s|
    ensures |r| == |s| - 1
    ensures forall j :: 0 <= j < i ==> r[j] == s[j]
    ensures forall j :: i <= j < |r| ==> r[j] == s[j + 1]
  {
    s[..i] + s[i + 1..]
  }

  /**
    `Math.round(part / whole * 100)` read with exact arithmetic: the integer
    nearest to 100 * part / whole, halves rounded up; 0 when `whole` is 0.
   */
  function RoundedPercent(part: nat, whole: nat): (r: int)
    requires part <= whole
    ensures 0 <= r <= 100
    ensures whole > 0 ==> 200 * part - whole < 2 * whole * r <= 200 * part + whole
    ensures part == whole && whole > 0 ==> r == 100
    ensures part == 0 ==> r == 0
  {
    if whole == 0 then 0
    else
      var r := (200 * part + whole) / (2 * whole);
      RoundingBounds(part, whole, r);
      r
  }

  lemma RoundingBounds(part: nat, whole: nat, r: int)
    requires 0 < whole && part <= whole
    requires r == (200 * part + whole) / (2 * whole)
    ensures 0 <= r <= 100
    ensures 200 * part - whole < 2 * whole * r <= 200 * part + whole
    ensures part == whole ==> r == 100
    ensures part == 0 ==> r == 0
  {
    DivisionBounds(200 * part + whole, 2 * whole);
    if r > 100 {
      MultiplyMonotone(2 * whole, 101, r);
    }
    if part == whole && r < 100 {
      MultiplyMonotone(2 * whole, r + 1, 100);
    }
    if part == 0 && r > 0 {
      MultiplyMonotone(2 * whole, 1, r);
    }
  }

  lemma DivisionBounds(n: nat, d: nat)
    requires d > 0
    ensures d * (n / d) <= n < d * (n / d + 1)
  {
  }

  lemma MultiplyMonotone(k: nat, a: int, b: int)
    requires a <= b
    ensures k * a <= k * b
  {
  }

  lemma {:induction false} FilterIsSubseq<T(!new)>(s: seq<T>, p: T -> bool)
    ensures IsSubseq(Filter(s, p), s)
    decreases |s|
  {
    if |s| > 0 {
      FilterIsSubseq(s[1..], p);
      var r := Filter(s, p);
      if !p(s[0]) && |r| > 0 {
        assert p(r[0]);
        assert r[0] != s[0];
      }
    }
  }

  lemma {:induction false} RemoveAllIsSubseq<T(!new)>(s: seq<T>, x: T)
    ensures IsSubseq(RemoveAll(s, x), s)
    decreases |s|
  {
    if |s| > 0 {
      RemoveAllIsSubseq(s[1..], x);
      var r := RemoveAll(s, x);
      if s[0] == x && |r| > 0 {
        assert r[0] in r;
        assert r[0] != s[0];
      }
    }
  }

  /** Filtering by `p` and then by `q` is filtering once by their conjunction `pq`. */
  lemma {:induction false} FilterFilter<T(!new)>(s: seq<T>, p: T -> bool, q: T -> bool, pq: T -> bool)
    requires forall x :: pq(x) == (p(x) && q(x))
    ensures Filter(Filter(s, p), q) == Filter(s, pq)
    decreases |s|
  {
    if |s| > 0 {
      FilterFilter(s[1..], p, q, pq);
    }
  }

  /** Predicates that agree on the elements of `s` filter it identically. */
  lemma {:induction false} FilterCongruent<T(!new)>(s: seq<T>, p: T -> bool, q: T -> bool)
    requires forall x :: x in s ==> p(x) == q(x)
    ensures Filter(s, p) == Filter(s, q)
    decreases |s|
  {
    if |s| > 0 {
      FilterCongruent(s[1..], p, q);
    }
  }

  /** A predicate that holds of every element keeps the whole sequence. */
  lemma {:induction false} FilterAll<T(!new)>(s: seq<T>, p: T -> bool)
    requires forall x :: x in s ==> p(x)
    ensures Filter(s, p) == s
    decreases |s|
  {
    if |s| > 0 {
      FilterAll(s[1..], p);
    }
  }

  /** An element count splits into those satisfying `p` and those satisfying its negation `q`. */
  lemma {:induction false} FilterComplement<T(!new)>(s: seq<T>, p: T -> bool, q: T -> bool)
    requires forall x :: q(x) == !p(x)
    ensures |Filter(s, p)| + |Filter(s, q)| == |s|
    decreases |s|
  {
    if |s| > 0 {
      FilterComplement(s[1..], p, q);
    }
  }

  /** A weaker predicate keeps at least as many elements. */
  lemma {:induction false} FilterMonotone<T(!new)>(s: seq<T>, p: T -> bool, q: T -> bool)
    requires forall x :: p(x) ==> q(x)
    ensures |Filter(s, p)| <= |Filter(s, q)|
    decreases |s|
  {
    if |s| > 0 {
      FilterMonotone(s[1..], p, q);
    }
  }

  /** Three pairwise-exclusive predicates, each implying `q`, keep together at most what `q` keeps. */
  lemma {:induction false} FilterDisjointSum<T(!new)>(s: seq<T>, p1: T -> bool, p2: T -> bool, p3: T -> bool, q: T -> bool)
    requires forall x :: p1(x) ==> q(x) && !p2(x) && !p3(x)
    requires forall x :: p2(x) ==> q(x) && !p3(x)
    requires forall x :: p3(x) ==> q(x)
    ensures |Filter(s, p1)| + |Filter(s, p2)| + |Filter(s, p3)| <= |Filter(s, q)|
    decreases |s|
  {
    if |s| > 0 {
      FilterDisjointSum(s[1..], p1, p2, p3, q);
    }
  }

  /** Removing the same element twice is removing it once. */
  lemma {:induction false} RemoveAllIdempotent<T(!new)>(s: seq<T>, x: T)
    ensures RemoveAll(RemoveAll(s, x), x) == RemoveAll(s, x)
    decreases |s|
  {
    if |s| > 0 {
      RemoveAllIdempotent(s[1..], x);
    }
  }

  /** Filtering distributes over concatenation. */
  lemma {:induction false} FilterAppend<T(!new)>(a: seq<T>, b: seq<T>, p: T -> bool)
    ensures Filter(a + b, p) == Filter(a, p) + Filter(b, p)
    decreases |a|
  {
    if |a| > 0 {
      FilterAppend(a[1..], b, p);
      FilterAppendStep(a, b, p);
    } else {
      assert a + b == b;
    }
  }

  /** A count by `Filter` grows by one exactly when the appended element passes. */
  lemma FilterCountAppend<T(!new)>(s: seq<T>, x: T, p: T -> bool)
    ensures |Filter(s + [x], p)| == |Filter(s, p)| + (if p(x) then 1 else 0)
  {
    FilterAppend(s, [x], p);
    FilterUnfold([x], p);
    assert [x][1..] == [];
  }

  /** The inductive step of `FilterAppend`: from `a[1..]` to `a`. */
  lemma FilterAppendStep<T(!new)>(a: seq<T>, b: seq<T>, p: T -> bool)
    requires |a| > 0
    requires Filter(a[1..] + b, p) == Filter(a[1..], p) + Filter(b, p)
    ensures Filter(a + b, p) == Filter(a, p) + Filter(b, p)
  {
    ConcatTail(a, b);
    FilterUnfold(a + b, p);
    FilterUnfold(a, p);
    ConsAssoc(a[0], Filter(a[1..], p), Filter(b, p));
  }

  /** One step of `Filter`'s recursion. */
  lemma FilterUnfold<T(!new)>(s: seq<T>, p: T -> bool)
    requires |s| > 0
    ensures Filter(s, p) == if p(s[0]) then [s[0]] + Filter(s[1..], p) else Filter(s[1..], p)
  {
  }

  lemma ConcatTail<T>(a: seq<T>, b: seq<T>)
    requires |a| > 0
    ensures (a + b)[0] == a[0] && (a + b)[1..] == a[1..] + b
  {
    assert (a + b)[1..] == a[1..] + b;
  }

  lemma ConsAssoc<T>(x: T, u: seq<T>, v: seq<T>)
    ensures [x] + (u + v) == ([x] + u) + v
  {
  }


  /** Removing an element that does not occur changes nothing. */
  lemma {:induction false} RemoveAllAbsent<T(!new)>(s: seq<T>, x: T)
    requires x !in s
    ensures RemoveAll(s, x) == s
    decreases |s|
  {
    if |s| > 0 {
      RemoveAllAbsent(s[1..], x);
    }
  }

  /** Removing `x` from a sequence ending in `x` drops that last element too. */
  lemma {:induction false} RemoveAllAppendSelf<T(!new)>(s: seq<T>, x: T)
    ensures RemoveAll(s + [x], x) == RemoveAll(s, x)
    decreases |s|
  {
    if |s| > 0 {
      RemoveAllAppendSelf(s[1..], x);
      assert (s + [x])[1..] == s[1..] + [x];
    } else {
      assert [x][1..] == [];
    }
  }

  /** Appending `x` adds one occurrence of `x` and none of anything else. */
  lemma {:induction false} OccAppend<T>(s: seq<T>, x: T)
    ensures forall y :: Occ(s + [x], y) == Occ(s, y) + (if y == x then 1 else 0)
    decreases |s|
  {
    if |s| > 0 {
      OccAppend(s[1..], x);
      assert (s + [x])[1..] == s[1..] + [x];
    } else {
      assert s + [x] == [x];
      assert forall y :: Occ([x], y) == (if y == x then 1 else 0) by {
        forall y ensures Occ([x], y) == (if y == x then 1 else 0) {
          assert [x][1..] == [];
        }
      }
    }
  }

  /** In a sequence without repeats every element occurs at most once. */
  lemma {:induction false} DistinctOnce<T>(s: seq<T>, e: T)
    requires forall i, j :: 0 <= i < j < |s| ==> s[i] != s[j]
    ensures multiset(s)[e] <= 1
    decreases |s|
  {
    if |s| > 0 {
      assert s == [s[0]] + s[1..];
      DistinctOnce(s[1..], e);
      if s[0] == e {
        assert e !in s[1..];
      }
    }
  }

  /** An element found at two positions occurs at least twice. */
  lemma RepeatTwice<T>(s: seq<T>, i: nat, j: nat)
    requires i < j < |s| && s[i] == s[j]
    ensures multiset(s)[s[i]] >= 2
  {
    assert s == s[..j] + s[j..];
    assert s[i] in s[..j];
    assert s[j..] == [s[j]] + s[j + 1..];
  }

  /** An element that does not occur has no occurrences. */
  /** Filtering keeps every copy of an element that passes and none of one that fails. */
  lemma {:induction false} FilterOcc<T(!new)>(s: seq<T>, p: T -> bool)
    ensures forall e :: Occ(Filter(s, p), e) == (if p(e) then Occ(s, e) else 0)
    decreases |s|
  {
    if |s| > 0 {
      FilterOcc(s[1..], p);
      if p(s[0]) {
        assert ([s[0]] + Filter(s[1..], p))[1..] == Filter(s[1..], p);
      }
    }
  }

  lemma {:induction false} OccAbsent<T>(s: seq<T>, x: T)
    requires x !in s
    ensures Occ(s, x) == 0
    decreases |s|
  {
    if |s| > 0 {
      assert s[0] != x && s[1..] <= s[1..];
      assert x !in s[1..];
      OccAbsent(s[1..], x);
    }
  }

  /** Putting the removed element back at its index restores the sequence. */
  lemma RemoveAtInverse<T>(s: seq<T>, i: nat)
    requires i < |s|
    ensures RemoveAt(s, i)[..i] + [s[i]] + RemoveAt(s, i)[i..] == s
    ensures multiset(RemoveAt(s, i)) + multiset{s[i]} == multiset(s)
  {
    var r := RemoveAt(s, i);
    assert r[..i] == s[..i];
    assert r[i..] == s[i + 1..];
    assert s == s[..i] + [s[i]] + s[i + 1..];
  }

  /** Replacing the element at `i` changes the number kept by `p` only by what `p` says of the two values. */
  lemma {:induction false} FilterUpdate<T(!new)>(s: seq<T>, i: nat, x: T, p: T -> bool)
    requires i < |s|
    ensures |Filter(s[i := x], p)| + (if p(s[i]) then 1 else 0) == |Filter(s, p)| + (if p(x) then 1 else 0)
    decreases |s|
  {
    if i > 0 {
      assert s[i := x][1..] == s[1..][i - 1 := x];
      FilterUpdate(s[1..], i - 1, x, p);
    } else {
      assert s[i := x][1..] == s[1..];
    }
  }

  /** A sequence that starts with `acc + [t]` starts with `acc`, followed by `t`. */
  lemma ExtendedPrefix<T>(r: seq<T>, acc: seq<T>, t: T)
    requires |r| >= |acc| + 1 && r[..|acc| + 1] == acc + [t]
    ensures r[..|acc|] == acc && r[|acc|] == t
  {
    assert r[..|acc|] == r[..|acc| + 1][..|acc|];
    assert r[|acc|] == r[..|acc| + 1][|acc|];
  }
}
