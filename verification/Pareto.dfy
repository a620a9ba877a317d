/** The incremental Pareto front, for minimization of all objectives. */
module ParetoFront {

  type Point = seq<real>

  // ---------- dominance ----------

  /** At most as large everywhere, and smaller somewhere. */
  ghost predicate Dominated(a: Point, b: Point) {
    && |a| == |b|
    && (forall k :: 0 <= k < |a| ==> a[k] <= b[k])
    && (exists k :: 0 <= k < |a| && a[k] < b[k])
  }

  /** Decides whether `a` dominates `b`. */
  method Dominates(a: Point, b: Point) returns (dominating: bool)
    requires |a| == |b|
    ensures dominating <==> Dominated(a, b)
  {
    dominating := false;
    for i := 0 to |a|
      invariant forall k :: 0 <= k < i ==> a[k] <= b[k]
      invariant dominating <==> exists k :: 0 <= k < i && a[k] < b[k]
    {
      if a[i] > b[i] {
        return false;
      }
      if a[i] < b[i] {
        dominating := true;
      }
    }
  }

  lemma DominanceIsTransitive(a: Point, b: Point, c: Point)
    requires Dominated(a, b) && Dominated(b, c)
    ensures Dominated(a, c)
  {
    var k :| 0 <= k < |a| && a[k] < b[k];
    assert a[k] < c[k];
  }

  /** No candidate dominates `p`. */
  ghost predicate Undominated(p: Point, cand: seq<Point>) {
    forall k :: 0 <= k < |cand| ==> !Dominated(cand[k], p)
  }

  /** The front holds exactly the undominated candidates, and one of them covers every candidate. */
  ghost predicate IsFront(front: set<Point>, cand: seq<Point>) {
    && (forall p :: p in front <==> p in cand && Undominated(p, cand))
    && (forall k :: 0 <= k < |cand| ==> Covered(cand[k], front))
  }

  ghost predicate Covered(c: Point, front: set<Point>) {
    c in front || exists m :: m in front && Dominated(m, c)
  }

  /** The front after the next candidate: without what it dominates, and with it unless it is dominated. */
  ghost predicate Updated(front: set<Point>, i: Point, front': set<Point>) {
    forall p :: p in front' <==>
                (p in front && !Dominated(i, p)) || (p == i && forall j :: j in front ==> !Dominated(j, i))
  }

  /** A candidate that some front member dominates removes nothing. */
  lemma DominatedRemovesNothing(front: set<Point>, cand: seq<Point>, i: Point, j: Point, p: Point)
    requires IsFront(front, cand) && j in front && p in front && Dominated(j, i)
    ensures !Dominated(i, p)
  {
    var k :| 0 <= k < |cand| && cand[k] == j;
    if Dominated(i, p) { DominanceIsTransitive(j, i, p); }
  }

  /** Being dominated by a candidate is being dominated by a front member. */
  lemma FrontDecides(front: set<Point>, cand: seq<Point>, i: Point)
    requires IsFront(front, cand)
    ensures Undominated(i, cand) <==> forall j :: j in front ==> !Dominated(j, i)
  {
    forall k | 0 <= k < |cand| && Dominated(cand[k], i) ensures exists j :: j in front && Dominated(j, i) {
      assert Covered(cand[k], front);
      if cand[k] !in front {
        var m :| m in front && Dominated(m, cand[k]);
        DominanceIsTransitive(m, cand[k], i);
      }
    }
    forall j | j in front && Undominated(i, cand) ensures !Dominated(j, i) {
      var k :| 0 <= k < |cand| && cand[k] == j;
    }
  }

  /** A front member still covers what it covered, itself or through the newcomer. */
  lemma StillCovered(front: set<Point>, i: Point, front': set<Point>, m: Point, c: Point)
    requires Updated(front, i, front') && m in front && (m == c || Dominated(m, c))
    requires m in front' || (i in front' && Dominated(i, m))
    ensures Covered(c, front')
  {
    if m !in front' && m != c { DominanceIsTransitive(i, m, c); }
  }

  lemma UpdateCovers(front: set<Point>, cand: seq<Point>, i: Point, front': set<Point>, c: Point)
    requires IsFront(front, cand) && Updated(front, i, front') && (c == i || c in cand)
    ensures Covered(c, front')
  {
    if j :| j in front && Dominated(j, i) {
      forall p | p in front ensures p in front' { DominatedRemovesNothing(front, cand, i, j, p); }
    } else {
      assert i in front';
    }
    if c != i {
      var k :| 0 <= k < |cand| && cand[k] == c;
      assert Covered(cand[k], front);
      var m :| m in front && (m == c || Dominated(m, c));
      StillCovered(front, i, front', m, c);
    }
  }

  /** One step of the outer loop keeps the front. */
  lemma UpdateIsFront(front: set<Point>, cand: seq<Point>, i: Point, front': set<Point>)
    requires IsFront(front, cand) && Updated(front, i, front')
    ensures IsFront(front', cand + [i])
  {
    var all := cand + [i];
    FrontDecides(front, cand, i);
    forall k | 0 <= k < |all| ensures Covered(all[k], front') {
      UpdateCovers(front, cand, i, front', all[k]);
    }
    forall p ensures Undominated(p, all) <==> Undominated(p, cand) && !Dominated(i, p) {
      if Undominated(p, all) {
        forall k | 0 <= k < |cand| ensures !Dominated(cand[k], p) { assert all[k] == cand[k]; }
        assert all[|cand|] == i;
      }
    }
    forall p ensures p in front' <==> p in all && Undominated(p, all) {
      assert p in all <==> p in cand || p == i;
    }
  }

  // ---------- sorting the front ----------

  /** The order of tuples. */
  predicate LexAtMost(a: Point, b: Point) {
    a == [] || (b != [] && (a[0] < b[0] || (a[0] == b[0] && LexAtMost(a[1..], b[1..]))))
  }

  lemma {:induction false} LexTotal(a: Point, b: Point)
    ensures LexAtMost(a, b) || LexAtMost(b, a)
  {
    if a != [] && b != [] && a[0] == b[0] { LexTotal(a[1..], b[1..]); }
  }

  lemma {:induction false} LexTransitive(a: Point, b: Point, c: Point)
    requires LexAtMost(a, b) && LexAtMost(b, c)
    ensures LexAtMost(a, c)
  {
    if a != [] && a[0] == b[0] == c[0] { LexTransitive(a[1..], b[1..], c[1..]); }
  }

  /** At the first coordinate where they differ, `a` is smaller. */
  ghost predicate FirstSmaller(a: Point, b: Point) {
    exists k :: 0 <= k < |a| && k < |b| && a[..k] == b[..k] && a[k] < b[k]
  }

  /** The order of tuples of one length, coordinate by coordinate. */
  lemma {:induction false} LexMeans(a: Point, b: Point)
    requires |a| == |b|
    ensures LexAtMost(a, b) <==> a == b || FirstSmaller(a, b)
  {
    if a == [] {
    } else if a[0] != b[0] {
      if a[0] < b[0] { assert a[..0] == b[..0]; }
      assert forall k :: 1 <= k < |a| && a[..k] == b[..k] ==> a[..k][0] == b[..k][0];
    } else {
      LexMeans(a[1..], b[1..]);
      TailsCompare(a, b);
    }
  }

  lemma {:induction false} TailsCompare(a: Point, b: Point)
    requires |a| == |b| >= 1 && a[0] == b[0]
    ensures a == b <==> a[1..] == b[1..]
    ensures FirstSmaller(a, b) <==> FirstSmaller(a[1..], b[1..])
  {
    var x, y := a[1..], b[1..];
    assert a == [a[0]] + x && b == [b[0]] + y;
    if k :| 0 <= k < |a| && k < |b| && a[..k] == b[..k] && a[k] < b[k] {
      assert x[..k - 1] == a[..k][1..] && y[..k - 1] == b[..k][1..] && x[k - 1] < y[k - 1];
    }
    if k :| 0 <= k < |x| && k < |y| && x[..k] == y[..k] && x[k] < y[k] {
      assert a[..k + 1] == [a[0]] + x[..k] && b[..k + 1] == [b[0]] + y[..k] && a[k + 1] < b[k + 1];
    }
  }

  ghost predicate Sorted(s: seq<Point>) {
    forall i, j :: 0 <= i < j < |s| ==> s[i] != s[j] && LexAtMost(s[i], s[j])
  }

  /** `r` is `s` with `p` put at position `k`. */
  ghost predicate Inserted(s: seq<Point>, k: nat, p: Point, r: seq<Point>) {
    && k <= |s| && |r| == |s| + 1 && r[k] == p
    && (forall i :: 0 <= i < k ==> r[i] == s[i])
    && (forall i :: k < i < |r| ==> r[i] == s[i - 1])
  }

  lemma InsertedIsSorted(s: seq<Point>, k: nat, p: Point, r: seq<Point>)
    requires Sorted(s) && Inserted(s, k, p, r) && p !in s
    requires forall i :: 0 <= i < k ==> LexAtMost(s[i], p)
    requires k < |s| ==> LexAtMost(p, s[k])
    ensures Sorted(r)
  {
    forall i | k <= i < |s| ensures LexAtMost(p, s[i]) {
      if i > k { LexTransitive(p, s[k], s[i]); }
    }
  }

  lemma InsertedHolds(s: seq<Point>, k: nat, p: Point, r: seq<Point>)
    requires Inserted(s, k, p, r)
    ensures forall q :: q in r <==> q in s || q == p
  {
    forall q | q in s ensures q in r {
      var i :| 0 <= i < |s| && s[i] == q;
      assert r[if i < k then i else i + 1] == q;
    }
    assert r[k] == p;
  }

  /** Sorted insertion of a point that is not there yet. */
  method Insert(s: seq<Point>, p: Point) returns (r: seq<Point>)
    requires Sorted(s) && p !in s
    ensures Sorted(r) && forall q :: q in r <==> q in s || q == p
  {
    var k := 0;
    while k < |s| && LexAtMost(s[k], p)
      invariant 0 <= k <= |s| && forall i :: 0 <= i < k ==> LexAtMost(s[i], p)
    {
      k := k + 1;
    }
    if k < |s| { LexTotal(s[k], p); }
    r := s[..k] + [p] + s[k..];
    InsertedIsSorted(s, k, p, r);
    InsertedHolds(s, k, p, r);
  }

  // ---------- the algorithm ----------

  /** Exactly the undominated candidates, sorted and without repetition, in whatever order they come. */
  method ParetoFront(cand: seq<Point>) returns (result: seq<Point>)
    requires forall i, j :: 0 <= i < j < |cand| ==> |cand[i]| == |cand[j]|
    ensures Sorted(result) && forall i, j :: 0 <= i < j < |result| ==> FirstSmaller(result[i], result[j])
    ensures forall p :: p in result <==> p in cand && Undominated(p, cand)
  {
    var front: set<Point> := {};
    assert IsFront(front, cand[..0]);
    for n := 0 to |cand|
      invariant IsFront(front, cand[..n])
    {
      var i, addI := cand[n], true;
      ghost var before := front;
      var rest := front;
      while rest != {}
        invariant rest <= before && rest <= front <= before
        invariant forall p :: p in front <==> p in rest || (p in before && !Dominated(i, p))
        invariant addI <==> forall j :: j in before - rest ==> !Dominated(j, i)
        decreases rest
      {
        var j :| j in rest;
        rest := rest - {j};
        assert j in cand[..n];
        var iOverJ := Dominates(i, j);
        if iOverJ {
          front := front - {j};
        }
        var jOverI := Dominates(j, i);
        if jOverI {
          addI := false;
        }
      }
      if addI {
        front := front + {i};
      }
      assert cand[..n + 1] == cand[..n] + [i];
      UpdateIsFront(before, cand[..n], i, front);
    }
    assert cand[..|cand|] == cand;
    result := [];
    var rest := front;
    while rest != {}
      invariant rest <= front && Sorted(result)
      invariant forall p :: p in result <==> p in front && p !in rest
      decreases rest
    {
      var p :| p in rest;
      rest := rest - {p};
      result := Insert(result, p);
    }
    forall i, j | 0 <= i < j < |result| ensures FirstSmaller(result[i], result[j]) {
      assert result[i] in cand && result[j] in cand;
      LexMeans(result[i], result[j]);
    }
  }
}
