/** A 0/1 matrix with rows and columns counted from 1, read row by row as one binary number. */
module RowMajor {

  /** The number spelled by the cells up to column `j` of row `t`, in a matrix of `n` columns. */
  function Value(bit: (int, int) -> bool, n: nat, t: nat, j: nat): nat
    decreases t, j
  {
    if t == 0 then 0
    else if j == 0 then Value(bit, n, t - 1, n)
    else 2 * Value(bit, n, t, j - 1) + if bit(t, j) then 1 else 0
  }

  /** One more than the largest number that many cells can spell. */
  function Limit(n: nat, t: nat, j: nat): nat
    decreases t, j
  {
    if t == 0 then 1
    else if j == 0 then Limit(n, t - 1, n)
    else 2 * Limit(n, t, j - 1)
  }

  lemma {:induction false} ValueBelowLimit(bit: (int, int) -> bool, n: nat, t: nat, j: nat)
    ensures Value(bit, n, t, j) < Limit(n, t, j)
    decreases t, j
  {
    if t == 0 {
    } else if j == 0 {
      ValueBelowLimit(bit, n, t - 1, n);
    } else {
      ValueBelowLimit(bit, n, t, j - 1);
    }
  }

  ghost predicate AgreeBefore(bit: (int, int) -> bool, bit': (int, int) -> bool, n: nat, t: nat, j: nat) {
    && (forall t', j' :: 1 <= t' < t && 1 <= j' <= n ==> bit(t', j') == bit'(t', j'))
    && (forall j' :: 1 <= t && 1 <= j' < j ==> bit(t, j') == bit'(t, j'))
  }

  lemma {:induction false} EqualPrefix(bit: (int, int) -> bool, bit': (int, int) -> bool, n: nat, t: nat, j: nat)
    requires j <= n && AgreeBefore(bit, bit', n, t, j + 1)
    ensures Value(bit, n, t, j) == Value(bit', n, t, j)
    decreases t, j
  {
    if t == 0 {
    } else if j == 0 {
      EqualPrefix(bit, bit', n, t - 1, n);
    } else {
      EqualPrefix(bit, bit', n, t, j - 1);
    }
  }

  /** Turning the first differing cell from 0 to 1 increases the number, whatever happens to later cells. */
  lemma {:induction false} FirstDifferenceDecides(bit: (int, int) -> bool, bit': (int, int) -> bool,
                                                  n: nat, t: nat, j: nat, t': nat, j': nat)
    requires 1 <= t && 1 <= j <= n && j' <= n
    requires t < t' || (t == t' && j <= j')
    requires AgreeBefore(bit, bit', n, t, j) && !bit(t, j) && bit'(t, j)
    ensures Value(bit, n, t', j') < Value(bit', n, t', j')
    decreases t', j'
  {
    if t == t' && j == j' {
      EqualPrefix(bit, bit', n, t, j - 1);
    } else if j' == 0 {
      FirstDifferenceDecides(bit, bit', n, t, j, t' - 1, n);
    } else {
      FirstDifferenceDecides(bit, bit', n, t, j, t', j' - 1);
    }
  }
}

/** The finitely many 0/1 vectors of one length. */
module Bits {

  function AllBits(n: nat): set<seq<bool>> {
    if n == 0 then {[]} else (set b | b in AllBits(n - 1) :: b + [false]) + (set b | b in AllBits(n - 1) :: b + [true])
  }

  lemma {:induction false} BitsAreAll(b: seq<bool>)
    ensures b in AllBits(|b|)
  {
    if b != [] {
      var front := b[..|b| - 1];
      BitsAreAll(front);
      if b[|b| - 1] { assert b == front + [true]; } else { assert b == front + [false]; }
    }
  }
}

/** A value, or none. */
module Options {
  datatype Option<+T> = None | Some(value: T)
}

/** Products of reals, one fact at a time. */
module Products {

  lemma {:induction false} Distributes(a: real, b: real, c: real)
    ensures a * (b + c) == a * b + a * c
  {
  }

  lemma {:induction false} ProductNonneg(a: real, b: real)
    requires 0.0 <= a && 0.0 <= b
    ensures 0.0 <= a * b
  {
  }

  lemma {:induction false} ProductPositive(a: real, b: real)
    requires 0.0 < a && 0.0 < b
    ensures 0.0 < a * b
  {
  }

  lemma {:induction false} ProductMonotone(a: real, b: real, c: real)
    requires 0.0 <= a && b <= c
    ensures a * b <= a * c
  {
    ProductNonneg(a, c - b);
    Distributes(a, c - b, b);
  }
}

/** Columns of a matrix, cut and compared from one row on. */
module Tails {
  import opened Sums

  /** `f` before row `t`, `g` from `t` on. */
  function Splice(f: int -> real, g: int -> real, t: int): int -> real {
    k => if k < t then f(k) else g(k)
  }

  lemma SumOfSplice(f: int -> real, g: int -> real, t: int, lo: int, hi: int)
    ensures hi <= t ==> Sum(Splice(f, g, t), lo, hi) == Sum(f, lo, hi)
    ensures t <= lo ==> Sum(Splice(f, g, t), lo, hi) == Sum(g, lo, hi)
    ensures lo <= t <= hi ==> Sum(Splice(f, g, t), lo, hi) == Sum(f, lo, t) + Sum(g, t, hi)
  {
    var s := Splice(f, g, t);
    if hi <= t { SumCongruent(s, f, lo, hi); }
    if t <= lo { SumCongruent(s, g, lo, hi); }
    if lo <= t <= hi {
      SumSplit(s, lo, t, hi);
      SumCongruent(s, f, lo, t);
      SumCongruent(s, g, t, hi);
    }
  }

  /** The first vector is lexicographically at least the second, over the indices from `t` to `last`. */
  predicate LexAtLeast(f: int -> real, g: int -> real, t: int, last: int)
    decreases last - t
  {
    t > last || f(t) > g(t) || (f(t) == g(t) && LexAtLeast(f, g, t + 1, last))
  }

  lemma {:induction false} LexViolation(f: int -> real, g: int -> real, t: int, last: int) returns (r: int)
    requires forall k :: t <= k <= last ==> Binary(f(k)) && Binary(g(k))
    requires !LexAtLeast(f, g, t, last)
    ensures t <= r <= last && f(r) == 0.0 && g(r) == 1.0
    ensures forall k :: t <= k < r ==> f(k) == g(k)
    decreases last - t
  {
    if f(t) < g(t) { r := t; } else { r := LexViolation(f, g, t + 1, last); }
  }

  lemma {:induction false} LexFails(f: int -> real, g: int -> real, t: int, r: int, last: int)
    requires t <= r <= last && f(r) < g(r) && forall k :: t <= k < r ==> f(k) == g(k)
    ensures !LexAtLeast(f, g, t, last)
    decreases r - t
  {
    if t < r { LexFails(f, g, t + 1, r, last); }
  }

  lemma {:induction false} LexTransitive(f: int -> real, g: int -> real, h: int -> real, t: int, last: int)
    requires LexAtLeast(f, g, t, last) && LexAtLeast(g, h, t, last)
    ensures LexAtLeast(f, h, t, last)
    decreases last - t
  {
    if t <= last && f(t) == g(t) == h(t) { LexTransitive(f, g, h, t + 1, last); }
  }
}

/** Finite sums of real terms over a half-open index range, as `quicksum(f(k) for k in range(lo, hi))`. */
module Sums {

  function Sum(f: int -> real, lo: int, hi: int): real
    decreases hi - lo
  {
    if hi <= lo then 0.0 else Sum(f, lo, hi - 1) + f(hi - 1)
  }

  predicate Binary(v: real) {
    v == 0.0 || v == 1.0
  }

  lemma {:induction false} SumCongruent(f: int -> real, g: int -> real, lo: int, hi: int)
    requires forall k :: lo <= k < hi ==> f(k) == g(k)
    ensures Sum(f, lo, hi) == Sum(g, lo, hi)
    decreases hi - lo
  {
    if lo < hi { SumCongruent(f, g, lo, hi - 1); }
  }

  lemma {:induction false} SumSplit(f: int -> real, lo: int, mid: int, hi: int)
    requires lo <= mid <= hi
    ensures Sum(f, lo, hi) == Sum(f, lo, mid) + Sum(f, mid, hi)
    decreases hi - mid
  {
    if mid < hi { SumSplit(f, lo, mid, hi - 1); }
  }

  lemma {:induction false} SumPlus(f: int -> real, g: int -> real, h: int -> real, lo: int, hi: int)
    requires forall k :: lo <= k < hi ==> h(k) == f(k) + g(k)
    ensures Sum(h, lo, hi) == Sum(f, lo, hi) + Sum(g, lo, hi)
    decreases hi - lo
  {
    if lo < hi { SumPlus(f, g, h, lo, hi - 1); }
  }

  lemma {:induction false} SumScaled(c: real, f: int -> real, g: int -> real, lo: int, hi: int)
    requires forall k :: lo <= k < hi ==> g(k) == c * f(k)
    ensures Sum(g, lo, hi) == c * Sum(f, lo, hi)
    decreases hi - lo
  {
    if lo < hi { SumScaled(c, f, g, lo, hi - 1); }
  }

  lemma {:induction false} SumMonotone(f: int -> real, g: int -> real, lo: int, hi: int)
    requires forall k :: lo <= k < hi ==> f(k) <= g(k)
    ensures Sum(f, lo, hi) <= Sum(g, lo, hi)
    decreases hi - lo
  {
    if lo < hi { SumMonotone(f, g, lo, hi - 1); }
  }

  lemma {:induction false} SumNonneg(f: int -> real, lo: int, hi: int)
    requires forall k :: lo <= k < hi ==> 0.0 <= f(k)
    ensures 0.0 <= Sum(f, lo, hi)
    decreases hi - lo
  {
    if lo < hi { SumNonneg(f, lo, hi - 1); }
  }

  lemma {:induction false} SumZero(f: int -> real, lo: int, hi: int)
    requires forall k :: lo <= k < hi ==> f(k) == 0.0
    ensures Sum(f, lo, hi) == 0.0
    decreases hi - lo
  {
    if lo < hi { SumZero(f, lo, hi - 1); }
  }

  lemma SumExtended(f: int -> real, lo: int, mid: int, hi: int)
    requires lo <= mid <= hi
    requires forall k :: mid <= k < hi ==> f(k) == 0.0
    ensures Sum(f, lo, hi) == Sum(f, lo, mid)
  {
    SumSplit(f, lo, mid, hi);
    SumZero(f, mid, hi);
  }

  /** Only the term at `i` is non-zero. */
  lemma {:induction false} SumSingle(f: int -> real, lo: int, hi: int, i: int)
    requires lo <= i < hi
    requires forall k :: lo <= k < hi && k != i ==> f(k) == 0.0
    ensures Sum(f, lo, hi) == f(i)
    decreases hi - lo
  {
    if i == hi - 1 { SumZero(f, lo, hi - 1); } else { SumSingle(f, lo, hi - 1, i); }
  }

  /** Only the terms at `i` and `i + 1` are non-zero. */
  lemma SumPair(f: int -> real, lo: int, hi: int, i: int)
    requires lo <= i < i + 1 < hi
    requires forall k :: lo <= k < hi && k != i && k != i + 1 ==> f(k) == 0.0
    ensures Sum(f, lo, hi) == f(i) + f(i + 1)
  {
    SumSplit(f, lo, i + 1, hi);
    SumSingle(f, lo, i + 1, i);
    SumSingle(f, i + 1, hi, i + 1);
  }

  /** No term of a non-negative sum exceeds it. */
  lemma {:induction false} TermAtMostSum(f: int -> real, lo: int, hi: int, i: int)
    requires lo <= i < hi
    requires forall k :: lo <= k < hi ==> 0.0 <= f(k)
    ensures f(i) <= Sum(f, lo, hi)
    decreases hi - lo
  {
    if i == hi - 1 { SumNonneg(f, lo, hi - 1); } else { TermAtMostSum(f, lo, hi - 1, i); }
  }

  /** Nor do two terms together. */
  lemma {:induction false} TwoTermsAtMostSum(f: int -> real, lo: int, hi: int, i: int, j: int)
    requires lo <= i < j < hi
    requires forall k :: lo <= k < hi ==> 0.0 <= f(k)
    ensures f(i) + f(j) <= Sum(f, lo, hi)
    decreases hi - lo
  {
    if j == hi - 1 { TermAtMostSum(f, lo, hi - 1, i); } else { TwoTermsAtMostSum(f, lo, hi - 1, i, j); }
  }

  /** A positive sum has a positive term. */
  lemma {:induction false} PositiveTerm(f: int -> real, lo: int, hi: int) returns (i: int)
    requires Sum(f, lo, hi) > 0.0
    ensures lo <= i < hi && f(i) > 0.0
    decreases hi - lo
  {
    if f(hi - 1) > 0.0 { i := hi - 1; } else { i := PositiveTerm(f, lo, hi - 1); }
  }

  /** A 0/1 vector that sums to one has exactly one 1. */
  lemma OneHot(z: int -> real, n: int) returns (s: int)
    requires forall k :: 0 <= k < n ==> Binary(z(k))
    requires Sum(z, 0, n) == 1.0
    ensures 0 <= s < n && z(s) == 1.0 && forall k :: 0 <= k < n && k != s ==> z(k) == 0.0
  {
    s := PositiveTerm(z, 0, n);
    forall k | 0 <= k < n && k != s ensures z(k) == 0.0 {
      if k < s { TwoTermsAtMostSum(z, 0, n, k, s); } else { TwoTermsAtMostSum(z, 0, n, s, k); }
    }
  }

  /** Terms that differ by what a third function loses from one index to the next. */
  lemma {:induction false} SumTelescopes(f: int -> real, g: int -> real, w: int -> real, n: nat)
    requires forall k :: 1 <= k <= n ==> f(k) + w(k) == g(k) + w(k - 1)
    ensures Sum(f, 1, n + 1) + w(n) == Sum(g, 1, n + 1) + w(0)
  {
    if n > 0 { SumTelescopes(f, g, w, n - 1); }
  }

  /** Two index functions that differ at `i` only. */
  lemma {:induction false} SumChanged(f: int -> real, g: int -> real, lo: int, hi: int, i: int)
    requires lo <= i < hi
    requires forall k :: lo <= k < hi && k != i ==> f(k) == g(k)
    ensures Sum(g, lo, hi) == Sum(f, lo, hi) + g(i) - f(i)
    decreases hi - lo
  {
    if i == hi - 1 { SumCongruent(f, g, lo, hi - 1); } else { SumChanged(f, g, lo, hi - 1, i); }
  }

  /** Two index functions that trade the terms at `i` and `j` have the same sum. */
  lemma {:induction false} SumTraded(f: int -> real, g: int -> real, lo: int, hi: int, i: int, j: int)
    requires lo <= i < j < hi
    requires f(i) + f(j) == g(i) + g(j)
    requires forall k :: lo <= k < hi && k != i && k != j ==> f(k) == g(k)
    ensures Sum(f, lo, hi) == Sum(g, lo, hi)
  {
    SumSplit(f, lo, j, hi);
    SumSplit(g, lo, j, hi);
    SumSplit(f, lo, i, j);
    SumSplit(g, lo, i, j);
    SumCongruent(f, g, lo, i);
    SumSplit(f, i, i + 1, j);
    SumSplit(g, i, i + 1, j);
    SumCongruent(f, g, i + 1, j);
    SumSplit(f, j, j + 1, hi);
    SumSplit(g, j, j + 1, hi);
    SumCongruent(f, g, j + 1, hi);
    SumSingle(f, i, i + 1, i);
    SumSingle(g, i, i + 1, i);
    SumSingle(f, j, j + 1, j);
    SumSingle(g, j, j + 1, j);
  }

  function RowOf(f: (int, int) -> real, i: int): int -> real { j => f(i, j) }

  function ColumnOf(f: (int, int) -> real, j: int): int -> real { i => f(i, j) }

  function RowSums(f: (int, int) -> real, lo: int, hi: int): int -> real { i => Sum(RowOf(f, i), lo, hi) }

  function ColumnSums(f: (int, int) -> real, lo: int, hi: int): int -> real { j => Sum(ColumnOf(f, j), lo, hi) }

  /** The order of a double sum over a rectangle can be exchanged. */
  lemma {:induction false} SumExchanged(f: (int, int) -> real, lo: int, hi: int, lo': int, hi': int)
    ensures Sum(RowSums(f, lo', hi'), lo, hi) == Sum(ColumnSums(f, lo, hi), lo', hi')
    decreases hi - lo
  {
    if hi <= lo {
      SumZero(ColumnSums(f, lo, hi), lo', hi');
    } else {
      SumExchanged(f, lo, hi - 1, lo', hi');
      SumPlus(ColumnSums(f, lo, hi - 1), RowOf(f, hi - 1), ColumnSums(f, lo, hi), lo', hi');
    }
  }

  /** `quicksum(f(k) for k in list)`. */
  function SumOver(list: seq<int>, f: int -> real): real {
    if list == [] then 0.0 else SumOver(list[..|list| - 1], f) + f(list[|list| - 1])
  }

  lemma SumOverAppend(list: seq<int>, k: int, f: int -> real)
    ensures SumOver(list + [k], f) == SumOver(list, f) + f(k)
  {
    assert (list + [k])[..|list|] == list;
  }

  /** `n * c`, by repeated addition. */
  function Times(n: nat, c: real): real {
    if n == 0 then 0.0 else Times(n - 1, c) + c
  }

  lemma {:induction false} TimesGrows(n: nat, m: nat, c: real)
    requires n <= m && 0.0 <= c
    ensures Times(n, c) <= Times(m, c)
    decreases m
  {
    if n < m { TimesGrows(n, m - 1, c); }
  }

  lemma {:induction false} SumAtMost(f: int -> real, c: real, n: nat)
    requires forall k :: 0 <= k < n ==> f(k) <= c
    ensures Sum(f, 0, n) <= Times(n, c)
  {
    if n > 0 { SumAtMost(f, c, n - 1); }
  }

  lemma {:induction false} SumAtLeast(f: int -> real, c: real, n: nat)
    requires forall k :: 0 <= k < n ==> f(k) >= c
    ensures Sum(f, 0, n) >= Times(n, c)
  {
    if n > 0 { SumAtLeast(f, c, n - 1); }
  }

  /** A gap at one index is a gap between the sums. */
  lemma {:induction false} SumGap(f: int -> real, g: int -> real, lo: int, hi: int, i: int, gap: real)
    requires lo <= i < hi && f(i) + gap <= g(i)
    requires forall k :: lo <= k < hi && k != i ==> f(k) <= g(k)
    ensures Sum(f, lo, hi) + gap <= Sum(g, lo, hi)
    decreases hi - lo
  {
    if i == hi - 1 { SumMonotone(f, g, lo, hi - 1); } else { SumGap(f, g, lo, hi - 1, i, gap); }
  }

  predicate IsInteger(v: real) { v == v.Floor as real }

  lemma IntegersAdd(a: real, b: real)
    requires IsInteger(a) && IsInteger(b)
    ensures IsInteger(a + b)
  {
    assert a + b == (a.Floor + b.Floor) as real;
  }

  lemma {:induction false} SumIsInteger(f: int -> real, lo: int, hi: int)
    requires forall k :: lo <= k < hi ==> IsInteger(f(k))
    ensures IsInteger(Sum(f, lo, hi))
    decreases hi - lo
  {
    if lo < hi {
      SumIsInteger(f, lo, hi - 1);
      IntegersAdd(Sum(f, lo, hi - 1), f(hi - 1));
    }
  }

  /** Only the terms at `i` and `j` are non-zero. */
  lemma SumTwo(f: int -> real, lo: int, hi: int, i: int, j: int)
    requires lo <= i < j < hi
    requires forall k :: lo <= k < hi && k != i && k != j ==> f(k) == 0.0
    ensures Sum(f, lo, hi) == f(i) + f(j)
  {
    SumSplit(f, lo, j, hi);
    SumSingle(f, lo, j, i);
    SumSingle(f, j, hi, j);
  }

  /** Three terms of a non-negative sum do not exceed it. */
  lemma ThreeTermsAtMostSum(f: int -> real, lo: int, hi: int, i: int, j: int, k: int)
    requires lo <= i < j < k < hi
    requires forall t :: lo <= t < hi ==> 0.0 <= f(t)
    ensures f(i) + f(j) + f(k) <= Sum(f, lo, hi)
  {
    SumSplit(f, lo, k, hi);
    TwoTermsAtMostSum(f, lo, k, i, j);
    TermAtMostSum(f, k, hi, k);
  }

  lemma {:induction false} Telescope(a: int -> real, w: int -> real, b: int -> real, c: int -> real, n: nat)
    requires forall t :: 1 <= t <= n ==> a(t) == w(t) - w(t - 1) - b(t) + c(t)
    ensures Sum(a, 1, n + 1) == w(n) - w(0) - Sum(b, 1, n + 1) + Sum(c, 1, n + 1)
  {
    if n > 0 { Telescope(a, w, b, c, n - 1); }
  }

  lemma {:induction false} SumsGrow(f: int -> real, n: nat, m: nat)
    requires n <= m && forall t :: 1 <= t <= m ==> 0.0 <= f(t)
    ensures 0.0 <= Sum(f, 1, n + 1) <= Sum(f, 1, m + 1)
  {
    SumSplit(f, 1, n + 1, m + 1);
    SumNonneg(f, 1, n + 1);
    SumNonneg(f, n + 1, m + 1);
  }

  function AllOnes(): int -> real { k => 1.0 }

  lemma {:induction false} SumOfOnes(n: nat)
    ensures Sum(AllOnes(), 0, n) == n as real
  {
    if n > 0 { SumOfOnes(n - 1); }
  }
}

/** Lists of indices. */
module Lists {

  ghost predicate Distinct(S: seq<int>) {
    forall a, b :: 0 <= a < b < |S| ==> S[a] != S[b]
  }

  ghost predicate AllIn(S: seq<int>, K: seq<int>) {
    forall a :: 0 <= a < |S| ==> S[a] in K
  }

  /** The position of a job in a list. */
  function Position(order: seq<int>, j: int): (k: nat)
    ensures j in order ==> k < |order| && order[k] == j
  {
    if order == [] then 0 else if order[|order| - 1] == j then |order| - 1 else Position(order[..|order| - 1], j)
  }

  lemma {:induction false} DistinctSize(s: seq<int>)
    requires Distinct(s)
    ensures |set k | 0 <= k < |s| :: s[k]| == |s|
  {
    if s != [] {
      var m := |s| - 1;
      DistinctSize(s[..m]);
      assert (set k | 0 <= k < |s| :: s[k]) == (set k | 0 <= k < m :: s[..m][k]) + {s[m]};
      assert s[m] !in (set k | 0 <= k < m :: s[..m][k]);
    }
  }

  function UpTo(n: nat): (s: set<nat>)
    ensures forall i :: i in s <==> 1 <= i <= n
    ensures |s| == n
  {
    if n == 0 then {} else UpTo(n - 1) + {n}
  }

  /** Distinct numbers from 1 to n are at most n, and n of them leave none out. */
  lemma DistinctUpTo(n: nat, order: seq<int>)
    requires forall k :: 0 <= k < |order| ==> 1 <= order[k] <= n
    requires Distinct(order)
    ensures |order| <= n
    ensures |order| == n <==> forall i :: 1 <= i <= n ==> i in order
  {
    var numbers, all := set k | 0 <= k < |order| :: order[k], UpTo(n);
    DistinctSize(order);
    assert numbers <= all;
    assert all == numbers + (all - numbers);
    assert forall i :: i in numbers <==> i in order;
    assert |all| == |numbers| + |all - numbers|;
    if |order| == n { assert all - numbers == {}; }
    if forall i :: 1 <= i <= n ==> i in order { assert all == numbers; }
  }
}

/** Sums over lists of indices without repetition. */
module ListSums {
  import opened Sums
  import opened Lists

  ghost predicate NonNegativeOn(K: seq<int>, f: int -> real) {
    forall k :: 0 <= k < |K| ==> 0.0 <= f(K[k])
  }

  function Without(S: seq<int>, k: nat): seq<int>
    requires k < |S|
  {
    S[..k] + S[k + 1..]
  }

  lemma {:induction false} SumWithout(S: seq<int>, k: nat, f: int -> real)
    requires k < |S|
    ensures SumOver(S, f) == SumOver(Without(S, k), f) + f(S[k])
  {
    if k == |S| - 1 {
      assert Without(S, k) == S[..k];
    } else {
      var front := S[..|S| - 1];
      SumWithout(front, k, f);
      assert Without(S, k) == Without(front, k) + [S[|S| - 1]];
      SumOverAppend(Without(front, k), S[|S| - 1], f);
    }
  }

  lemma {:induction false} SubListSum(S: seq<int>, K: seq<int>, f: int -> real)
    requires Distinct(S) && AllIn(S, K) && NonNegativeOn(K, f)
    ensures SumOver(S, f) <= SumOver(K, f)
    decreases |S|, |K|
  {
    if S == [] {
      if K != [] {
        assert NonNegativeOn(K[..|K| - 1], f);
        SubListSum(S, K[..|K| - 1], f);
      }
    } else {
      var m := |S| - 1;
      var k :| 0 <= k < |K| && K[k] == S[m];
      forall a | 0 <= a < m ensures S[a] in Without(K, k) {
        var b :| 0 <= b < |K| && K[b] == S[a];
        assert Without(K, k)[if b < k then b else b - 1] == S[a];
      }
      SubListSum(S[..m], Without(K, k), f);
      SumWithout(K, k, f);
    }
  }

  lemma {:induction false} SumOfList(list: seq<int>, f: int -> real, g: int -> real, n: nat)
    requires n <= |list| && forall k :: 0 <= k < n ==> g(k) == f(list[k])
    ensures Sum(g, 0, n) == SumOver(list[..n], f)
  {
    if n > 0 {
      SumOfList(list, f, g, n - 1);
      assert list[..n][..n - 1] == list[..n - 1];
    }
  }

  /** Every number from 1 to n once. */
  ghost predicate IsPermutation(n: nat, order: seq<int>) {
    |order| == n && Distinct(order) && forall k :: 0 <= k < n ==> 1 <= order[k] <= n
  }

  lemma {:induction false} WithoutLargest(n: nat, order: seq<int>, k: nat)
    requires 1 <= n && IsPermutation(n, order) && k < n && order[k] == n
    ensures IsPermutation(n - 1, Without(order, k))
  {
    var rest := Without(order, k);
    assert forall a :: 0 <= a < n - 1 ==> rest[a] == order[if a < k then a else a + 1];
  }

  lemma {:induction false} SumOverAll(n: nat, order: seq<int>, f: int -> real)
    requires IsPermutation(n, order)
    ensures SumOver(order, f) == Sum(f, 1, n + 1)
  {
    if n > 0 {
      DistinctUpTo(n, order);
      assert n in order;
      var k :| 0 <= k < n && order[k] == n;
      WithoutLargest(n, order, k);
      SumWithout(order, k, f);
      SumOverAll(n - 1, Without(order, k), f);
    }
  }

  /** A sum over the positions of an order of 1..n is one over the numbers. */
  lemma {:induction false} SumAlongOrder(n: nat, order: seq<int>, f: int -> real, g: int -> real)
    requires IsPermutation(n, order) && forall k :: 0 <= k < n ==> g(k) == f(order[k])
    ensures Sum(g, 0, n) == Sum(f, 1, n + 1)
  {
    SumOfList(order, f, g, n);
    assert order[..n] == order;
    SumOverAll(n, order, f);
  }

  function Scaled(c: real, f: int -> real, j: int): real { c * f(j) }

  function ScaledBy(c: real, f: int -> real): int -> real { j => Scaled(c, f, j) }

  lemma {:induction false} SumOverScaled(list: seq<int>, c: real, f: int -> real)
    ensures SumOver(list, ScaledBy(c, f)) == c * SumOver(list, f)
  {
    if list != [] { SumOverScaled(list[..|list| - 1], c, f); }
  }

  lemma {:induction false} SumOverMonotone(list: seq<int>, f: int -> real, g: int -> real)
    requires forall k :: 0 <= k < |list| ==> f(list[k]) <= g(list[k])
    ensures SumOver(list, f) <= SumOver(list, g)
  {
    if list != [] { SumOverMonotone(list[..|list| - 1], f, g); }
  }
}
