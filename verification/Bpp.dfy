/** First-fit decreasing bin packing, with its worst-case guarantee. */
module BinPacking {
  import opened Sums
  import opened Weighing
  import opened FirstFitShapes

  /** Every item of a later bin would have overfilled every earlier bin. */
  lemma {:induction false} NoTailItemFits(sol: seq<seq<real>>, B: real, q: nat, k: nat)
    requires FirstFitShape(sol, B) && q <= k <= |sol|
    ensures NoneFits(sol[..q], B, Flatten(sol[q..k]))
    decreases k
  {
    if q < k {
      NoTailItemFits(sol, B, q, k - 1);
      assert sol[q..k][..k - 1 - q] == sol[q..k - 1];
      assert Flatten(sol[q..k]) == Flatten(sol[q..k - 1]) + sol[k - 1];
      BinDoesNotFit(sol, B, q, k - 1);
      NeitherFits(sol[..q], B, Flatten(sol[q..k - 1]), sol[k - 1]);
    }
  }

  /** If bin `q` holds no item larger than half, the items from it on overflow the `q` bins before. */
  lemma TotalExceeds(sol: seq<seq<real>>, B: real, q: nat)
    requires FirstFitShape(sol, B) && q < |sol| && sol[q][0] <= B / 2.0
    requires 1 <= q <= 2 * (|sol| - 1 - q) + 1
    ensures Load(Flatten(sol)) > Times(q, B)
  {
    var tail := Flatten(sol[q..]);
    TailIsLong(sol, B, q);
    NoTailItemFits(sol, B, q, |sol|);
    assert sol[q..|sol|] == sol[q..];
    TailOverflows(sol, tail, B, q, q);
    LoadGrows(tail, q);
    LoadInTwoParts(sol, q);
  }

  /** First fit decreasing uses at most three bins where any packing uses two. */
  lemma {:induction false} ThreeHalves(sol: seq<seq<real>>, packing: seq<seq<real>>, s: seq<real>, B: real)
    requires FirstFitShape(sol, B) && multiset(Flatten(sol)) == multiset(s)
    requires IsPacking(packing, s, B) && AllPositive(s) && 0.0 < B && s != []
    ensures 2 * |sol| <= 3 * |packing|
  {
    var k, m := |sol|, |packing|;
    var q := (2 * k + 2) / 3 - 1;
    SameItemsPositive(s, Flatten(packing));
    PackingBigCount(packing, B);
    PackingTotal(packing, B);
    WeighSameItems(Flatten(sol), Flatten(packing), Big(B));
    WeighSameItems(Flatten(sol), Flatten(packing), Size());
    assert |multiset(s)| == |s| && |multiset(Flatten(packing))| == |Flatten(packing)|;
    if sol[q][0] > B / 2.0 {
      ManyBigItems(sol, B, q);
      TimesOne(q + 1);
      TimesOne(m);
    } else if q >= 1 {
      TotalExceeds(sol, B, q);
      if m <= q { TimesGrows(m, q, B); }
    }
  }

  /** The inner loop: the first bin with room, or the number of bins. */
  method FirstFit(remain: seq<real>, item: real) returns (j: nat)
    ensures j <= |remain| && forall i :: 0 <= i < j ==> remain[i] < item
    ensures j < |remain| ==> remain[j] >= item
  {
    j := |remain|;
    for i := 0 to |remain|
      invariant j == |remain| && forall k :: 0 <= k < i ==> remain[k] < item
    {
      if remain[i] >= item {
        j := i;
        break;
      }
    }
  }

  /** The next item goes into the first bin with room, or opens one. */
  method Place(remain: seq<real>, sol: seq<seq<real>>, item: real, B: real)
      returns (remain': seq<real>, sol': seq<seq<real>>, j: nat)
    requires IsRemain(remain, sol, B)
    ensures IsRemain(remain', sol', B) && PlacedFirst(sol, sol', j, item, B)
  {
    j := FirstFit(remain, item);
    if j < |remain| {
      RemainAfterPlacing(remain, sol, B, j, item);
      remain' := remain[j := remain[j] - item];
      sol' := sol[j := sol[j] + [item]];
    } else {
      RemainAfterOpening(remain, sol, B, item);
      sol' := sol + [[item]];
      remain' := remain + [B - item];
    }
  }

  /** The loop over the sorted items. */
  method PackInOrder(items: seq<real>, B: real) returns (sol: seq<seq<real>>)
    ensures Placed(sol, items, B)
  {
    var remain := [B];
    sol := [[]];
    for n := 0 to |items|
      invariant Placed(sol, items[..n], B)
      invariant IsRemain(remain, sol, B)
    {
      ghost var before := sol;
      var j;
      remain, sol, j := Place(remain, sol, items[n], B);
      assert PlacedFirst(before, sol, j, items[n], B) && PlacedNext(before, sol, items[n], B);
      assert items[..n + 1][..n] == items[..n];
    }
    assert items[..|items|] == items;
  }

  /** Keeps the items; and if every item fits a bin, overfills none and meets the 3/2 bound. */
  method FFD(s: seq<real>, B: real) returns (sol: seq<seq<real>>)
    ensures multiset(Flatten(sol)) == multiset(s) && FirstFitPacking(sol, B)
    ensures ItemsFit(s, B) && s != [] ==> FirstFitShape(sol, B) && NoOverfull(sol, B) && WithinThreeHalves(sol, s, B)
  {
    var items := SortedDown(s);
    sol := PackInOrder(items, B);
    PlacedIsPacked(sol, items, B);
    PlacedIsFirstFit(sol, items, B);
    if ItemsFit(s, B) && s != [] {
      FinishedShape(sol, items, s, B);
    }
  }

  /** There is one such packing of given items: the contract of FFD leaves no choice. */
  lemma {:induction false} FirstFitIsDetermined(P: seq<seq<real>>, Q: seq<seq<real>>, B: real)
    requires FirstFitPacking(P, B) && FirstFitPacking(Q, B) && multiset(Flatten(P)) == multiset(Flatten(Q))
    ensures P == Q
    decreases |Flatten(P)|
  {
    if Flatten(P) == [] {
      NothingPacked(P, B);
      assert |multiset(Flatten(Q))| == |Flatten(Q)|;
      NothingPacked(Q, B);
    } else {
      var x := Smallest(Flatten(P));
      SameItems(P, Q, x);
      var p, i := StepBack(P, B, x);
      var q, j := StepBack(Q, B, x);
      FirstFitIsDetermined(p, q, B);
      PlacedOnce(p, P, i, Q, j, x, B);
    }
  }

  lemma FinishedShape(sol: seq<seq<real>>, items: seq<real>, s: seq<real>, B: real)
    requires Placed(sol, items, B) && Decreasing(items)
    requires multiset(items) == multiset(s) && ItemsFit(s, B) && s != []
    ensures FirstFitShape(sol, B) && NoOverfull(sol, B) && WithinThreeHalves(sol, s, B)
  {
    assert |multiset(s)| == |s| && |multiset(items)| == |items|;
    SameItemsFit(s, items, B);
    PlacedIsPacked(sol, items, B);
    assert 0.0 < s[0] <= B;
    PlacedHasShape(sol, items, B);
    forall packing | IsPacking(packing, s, B) ensures 2 * |sol| <= 3 * |packing| {
      ThreeHalves(sol, packing, s, B);
    }
  }
}

/** What first fit leaves behind, and what a packing must hold. */
module FirstFitShapes {
  import opened Sums
  import opened Weighing

  // ---------- packings ----------

  ghost predicate NoOverfull(bins: seq<seq<real>>, B: real) {
    forall j :: 0 <= j < |bins| ==> Load(bins[j]) <= B
  }

  /** The same items, in bins that hold them. */
  ghost predicate IsPacking(bins: seq<seq<real>>, s: seq<real>, B: real) {
    multiset(Flatten(bins)) == multiset(s) && NoOverfull(bins, B)
  }

  /** What first fit leaves behind when items come in decreasing order. */
  ghost predicate FirstFitShape(sol: seq<seq<real>>, B: real) {
    && |sol| >= 1
    && (forall j :: 0 <= j < |sol| ==> sol[j] != [] && AllPositive(sol[j]))
    && NoRoomBefore(sol, B)
    && FirstIsLargest(sol)
  }

  /** No item would have fitted into an earlier bin. */
  ghost predicate NoRoomBefore(sol: seq<seq<real>>, B: real) {
    forall i, j, a :: 0 <= i < j < |sol| && 0 <= a < |sol[j]| ==> Load(sol[i]) + sol[j][a] > B
  }

  /** The item that opened a bin is at least as large as everything in that bin and in later ones. */
  ghost predicate FirstIsLargest(sol: seq<seq<real>>) {
    forall i, j, a :: 0 <= i <= j < |sol| && 0 <= a < |sol[j]| && sol[i] != [] ==> sol[i][0] >= sol[j][a]
  }

  /** The items that are at least `x`. */
  function AtLeast(x: real): real -> real { z => if z >= x then z else 0.0 }

  /** When an item came, with everything at least as large packed before, no earlier bin had room for it. */
  ghost predicate NoEarlierRoom(sol: seq<seq<real>>, B: real) {
    forall i, j, a :: 0 <= i < j < |sol| && 0 <= a < |sol[j]| ==> Weigh(sol[i], AtLeast(sol[j][a])) + sol[j][a] > B
  }

  /** An item that did not open its bin fitted into it. */
  ghost predicate FitsWhenPlaced(sol: seq<seq<real>>, B: real) {
    forall j, a :: 0 <= j < |sol| && 0 <= a < |sol[j]| && (a >= 1 || j == 0) ==> Load(sol[j][..a]) + sol[j][a] <= B
  }

  /** Bins are opened in the order of the items; only the first one is there from the start. */
  ghost predicate OpenedInOrder(sol: seq<seq<real>>) {
    forall i, j :: 1 <= i < j < |sol| && sol[i] != [] && sol[j] != [] ==> sol[i][0] >= sol[j][0]
  }

  /** Every bin in decreasing order, every item in the first bin that had room for it. */
  ghost predicate FirstFitPacking(sol: seq<seq<real>>, B: real) {
    && |sol| >= 1 && NoEarlierRoom(sol, B) && FitsWhenPlaced(sol, B) && OpenedInOrder(sol)
    && (forall j :: 0 <= j < |sol| ==> Decreasing(sol[j]) && (j >= 1 ==> sol[j] != []))
  }

  /** At most three bins where any packing of the same items uses two. */
  ghost predicate WithinThreeHalves(sol: seq<seq<real>>, s: seq<real>, B: real) {
    forall packing :: IsPacking(packing, s, B) ==> 2 * |sol| <= 3 * |packing|
  }

  // ---------- the guarantee ----------

  function Big(B: real): real -> real { x => if x > B / 2.0 then 1.0 else 0.0 }

  /** A bin that is not overfull holds at most one item larger than half, and none if it is at most half full. */
  lemma {:induction false} AtMostOneBig(bin: seq<real>, B: real)
    requires AllPositive(bin) && Load(bin) <= B
    ensures Weigh(bin, Big(B)) <= 1.0
    ensures Load(bin) <= B / 2.0 ==> Weigh(bin, Big(B)) == 0.0
  {
    if bin != [] {
      NonnegativeLoad(bin[..|bin| - 1]);
      AtMostOneBig(bin[..|bin| - 1], B);
    }
  }

  lemma {:induction false} BigOpens(bin: seq<real>, B: real, k: int)
    requires 0 <= k < |bin| && bin[k] > B / 2.0
    ensures Weigh(bin, Big(B)) >= 1.0
  {
    if k == |bin| - 1 {
      BigCountNonneg(bin[..|bin| - 1], B);
    } else {
      BigOpens(bin[..|bin| - 1], B, k);
    }
  }

  lemma {:induction false} BigCountNonneg(bin: seq<real>, B: real)
    ensures Weigh(bin, Big(B)) >= 0.0
  {
    if bin != [] { BigCountNonneg(bin[..|bin| - 1], B); }
  }

  /** A packing needs a bin for every item larger than half. */
  lemma PackingBigCount(bins: seq<seq<real>>, B: real)
    requires AllPositive(Flatten(bins)) && NoOverfull(bins, B)
    ensures Weigh(Flatten(bins), Big(B)) <= Times(|bins|, 1.0)
  {
    var counts := BinWeights(bins, Big(B));
    forall j | 0 <= j < |bins| ensures counts(j) <= 1.0 {
      FlattenPositive(bins, j);
      AtMostOneBig(bins[j], B);
    }
    SumAtMost(counts, 1.0, |bins|);
    WeighFlatten(bins, Big(B));
  }

  /** A packing holds no more than all its bins can. */
  lemma PackingTotal(bins: seq<seq<real>>, B: real)
    requires NoOverfull(bins, B)
    ensures Load(Flatten(bins)) <= Times(|bins|, B)
  {
    SumAtMost(BinWeights(bins, Size()), B, |bins|);
    WeighFlatten(bins, Size());
  }

  /** If bin `q` holds an item larger than half, so does every bin before it. */
  lemma ManyBigItems(sol: seq<seq<real>>, B: real, q: nat)
    requires FirstFitShape(sol, B) && q < |sol| && sol[q][0] > B / 2.0
    ensures Weigh(Flatten(sol), Big(B)) >= Times(q + 1, 1.0)
  {
    var counts := BinWeights(sol, Big(B));
    forall j | 0 <= j < |sol| ensures counts(j) >= if j <= q then 1.0 else 0.0 { BigInBin(sol, B, q, j); }
    SumAtLeast(counts, 1.0, q + 1);
    SumNonneg(counts, q + 1, |sol|);
    SumSplit(counts, 0, q + 1, |sol|);
    WeighFlatten(sol, Big(B));
  }

  lemma BigInBin(sol: seq<seq<real>>, B: real, q: nat, j: nat)
    requires FirstFitShape(sol, B) && q < |sol| && sol[q][0] > B / 2.0 && j < |sol|
    ensures BinWeights(sol, Big(B))(j) >= if j <= q then 1.0 else 0.0
  {
    if j <= q {
      assert sol[j][0] >= sol[q][0];
      BigOpens(sol[j], B, 0);
    } else {
      BigCountNonneg(sol[j], B);
    }
  }

  /** If the item that opens the next bin is small, the bin before it holds two items. */
  lemma TwoItems(sol: seq<seq<real>>, B: real, q: int, k: int)
    requires FirstFitShape(sol, B) && 0 <= q <= k < |sol| - 1 && sol[q][0] <= B / 2.0
    ensures |sol[k]| >= 2
  {
    assert sol[q][0] >= sol[k][0] && sol[q][0] >= sol[k + 1][0];
    assert Load(sol[k]) + sol[k + 1][0] > B;
    if |sol[k]| == 1 { LoadOfOne(sol[k]); }
  }

  /** Bins from `q` on hold only small items, so all but the last hold two of them. */
  lemma {:induction false} ManySmallItems(sol: seq<seq<real>>, B: real, q: int, k: int)
    requires FirstFitShape(sol, B) && 0 <= q <= k < |sol| && sol[q][0] <= B / 2.0
    ensures |Flatten(sol[q..k])| >= 2 * (k - q)
    decreases k
  {
    if q < k {
      ManySmallItems(sol, B, q, k - 1);
      TwoItems(sol, B, q, k - 1);
      assert sol[q..k][..k - 1 - q] == sol[q..k - 1];
    }
  }

  /** Items from bin `q` on, one for each earlier bin, overflow those bins on average. */
  lemma {:induction false} TailOverflows(sol: seq<seq<real>>, tail: seq<real>, B: real, q: int, r: nat)
    requires r <= q <= |sol| && r <= |tail| && NoneFits(sol[..q], B, tail)
    ensures Sum(BinWeights(sol, Size()), 0, r) + Load(tail[..r]) >= Times(r, B)
    ensures r > 0 ==> Sum(BinWeights(sol, Size()), 0, r) + Load(tail[..r]) > Times(r, B)
    decreases r
  {
    if r > 0 {
      TailOverflows(sol, tail, B, q, r - 1);
      assert tail[..r][..r - 1] == tail[..r - 1];
      assert sol[..q][r - 1] == sol[r - 1];
    }
  }

  ghost predicate NoneFits(bins: seq<seq<real>>, B: real, items: seq<real>) {
    AllPositive(items) && forall i, a :: 0 <= i < |bins| && 0 <= a < |items| ==> Load(bins[i]) + items[a] > B
  }

  lemma {:induction false} NeitherFits(bins: seq<seq<real>>, B: real, a: seq<real>, b: seq<real>)
    requires NoneFits(bins, B, a) && NoneFits(bins, B, b)
    ensures NoneFits(bins, B, a + b)
  {
  }

  lemma {:induction false} BinDoesNotFit(sol: seq<seq<real>>, B: real, q: nat, k: nat)
    requires FirstFitShape(sol, B) && q <= k < |sol|
    ensures NoneFits(sol[..q], B, sol[k])
  {
  }

  lemma LoadInTwoParts(sol: seq<seq<real>>, q: nat)
    requires q <= |sol|
    ensures Load(Flatten(sol)) == Sum(BinWeights(sol, Size()), 0, q) + Load(Flatten(sol[q..]))
  {
    assert sol == sol[..q] + sol[q..];
    FlattenConcat(sol[..q], sol[q..]);
    WeighConcat(Flatten(sol[..q]), Flatten(sol[q..]), Size());
    WeighFlatten(sol[..q], Size());
    SumCongruent(BinWeights(sol[..q], Size()), BinWeights(sol, Size()), 0, q);
  }

  lemma TailIsLong(sol: seq<seq<real>>, B: real, q: nat)
    requires FirstFitShape(sol, B) && q < |sol| && sol[q][0] <= B / 2.0
    ensures |Flatten(sol[q..])| >= 2 * (|sol| - 1 - q) + 1
  {
    var k := |sol|;
    ManySmallItems(sol, B, q, k - 1);
    assert sol[q..][..k - 1 - q] == sol[q..k - 1];
  }

  lemma {:induction false} TimesOne(n: nat)
    ensures Times(n, 1.0) == n as real
  {
    if n > 0 { TimesOne(n - 1); }
  }

  // ---------- the algorithm ----------

  ghost predicate Decreasing(s: seq<real>) {
    forall i, j :: 0 <= i < j < |s| ==> s[i] >= s[j]
  }

  /** `sorted(s, reverse=True)`. */
  function SortedDown(s: seq<real>): (r: seq<real>)
    ensures multiset(r) == multiset(s) && Decreasing(r)
  {
    if s == [] then []
    else
      assert s == [s[0]] + s[1..];
      Insert(s[0], SortedDown(s[1..]))
  }

  function Insert(x: real, s: seq<real>): (r: seq<real>)
    requires Decreasing(s)
    ensures multiset(r) == multiset(s) + multiset{x} && Decreasing(r)
  {
    if s == [] || x >= s[0] then
      InsertedInFront(x, s);
      [x] + s
    else
      assert Decreasing(s[1..]);
      var r := Insert(x, s[1..]);
      InsertedBelow(x, s, r);
      [s[0]] + r
  }

  lemma InsertedInFront(x: real, s: seq<real>)
    requires Decreasing(s) && (s == [] || x >= s[0])
    ensures multiset([x] + s) == multiset(s) + multiset{x} && Decreasing([x] + s)
  {
  }

  lemma InsertedBelow(x: real, s: seq<real>, r: seq<real>)
    requires s != [] && Decreasing(s) && x < s[0] && multiset(r) == multiset(s[1..]) + multiset{x} && Decreasing(r)
    ensures multiset([s[0]] + r) == multiset(s) + multiset{x} && Decreasing([s[0]] + r)
  {
    assert s == [s[0]] + s[1..];
    FirstIsAbove(x, s, r);
  }

  lemma FirstIsAbove(x: real, s: seq<real>, r: seq<real>)
    requires s != [] && Decreasing(s) && x < s[0] && multiset(r) == multiset(s[1..]) + multiset{x}
    ensures forall j :: 0 <= j < |r| ==> s[0] >= r[j]
  {
    forall j | 0 <= j < |r| ensures s[0] >= r[j] {
      assert r[j] in multiset(r);
      assert r[j] == x || r[j] in multiset(s[1..]);
      if r[j] in multiset(s[1..]) {
        var k :| 0 <= k < |s[1..]| && s[1..][k] == r[j];
      }
    }
  }

  ghost predicate ItemsFit(s: seq<real>, B: real) {
    forall k :: 0 <= k < |s| ==> 0.0 < s[k] <= B
  }

  /** Everything packed so far is at least as large as the items still to come. */
  ghost predicate AboveAll(sol: seq<seq<real>>, x: real) {
    forall j, a :: 0 <= j < |sol| && 0 <= a < |sol[j]| ==> sol[j][a] >= x
  }

  ghost predicate PartialShape(sol: seq<seq<real>>, B: real) {
    && (forall j :: 0 <= j < |sol| ==> AllPositive(sol[j]))
    && NoOverfull(sol, B) && NoRoomBefore(sol, B) && FirstIsLargest(sol)
  }

  /** Putting the next item into the first bin with room keeps the shape. */
  lemma PlaceKeepsShape(sol: seq<seq<real>>, B: real, j: nat, x: real)
    requires PartialShape(sol, B) && AboveAll(sol, x) && 0.0 < x && j < |sol|
    requires sol == [[]] || NoEmptyBin(sol)
    requires Load(sol[j]) + x <= B && forall i :: 0 <= i < j ==> Load(sol[i]) + x > B
    ensures PartialShape(sol[j := sol[j] + [x]], B)
  {
    PlaceKeepsLoads(sol, B, j, x);
    PlaceKeepsLargest(sol, j, x);
  }

  lemma PlaceKeepsLoads(sol: seq<seq<real>>, B: real, j: nat, x: real)
    requires NoOverfull(sol, B) && NoRoomBefore(sol, B) && 0.0 < x && j < |sol|
    requires Load(sol[j]) + x <= B && forall i :: 0 <= i < j ==> Load(sol[i]) + x > B
    ensures NoOverfull(sol[j := sol[j] + [x]], B) && NoRoomBefore(sol[j := sol[j] + [x]], B)
  {
    assert Load(sol[j] + [x]) == Load(sol[j]) + x by { assert (sol[j] + [x])[..|sol[j]|] == sol[j]; }
  }

  lemma PlaceKeepsLargest(sol: seq<seq<real>>, j: nat, x: real)
    requires FirstIsLargest(sol) && AboveAll(sol, x) && j < |sol| && (sol == [[]] || NoEmptyBin(sol))
    ensures FirstIsLargest(sol[j := sol[j] + [x]])
  {
  }

  /** So does opening a new bin when no bin has room. */
  lemma OpenKeepsShape(sol: seq<seq<real>>, B: real, x: real)
    requires PartialShape(sol, B) && AboveAll(sol, x) && 0.0 < x <= B
    requires forall i :: 0 <= i < |sol| ==> Load(sol[i]) + x > B
    ensures PartialShape(sol + [[x]], B)
  {
    LoadOfOne([x]);
  }

  lemma {:induction false} WeighAtLeast(bin: seq<real>, x: real)
    requires forall a :: 0 <= a < |bin| ==> bin[a] >= x
    ensures Weigh(bin, AtLeast(x)) == Load(bin)
  {
    if bin != [] { WeighAtLeast(bin[..|bin| - 1], x); }
  }

  lemma {:induction false} WeighAppended(bin: seq<real>, x: real, f: real -> real)
    ensures Weigh(bin + [x], f) == Weigh(bin, f) + f(x)
  {
    assert (bin + [x])[..|bin|] == bin;
  }

  /** The loads of earlier bins, seen by an item that comes after everything in them. */
  lemma {:induction false} LoadsSeen(sol: seq<seq<real>>, x: real, i: nat)
    requires AboveAll(sol, x) && i < |sol|
    ensures Weigh(sol[i], AtLeast(x)) == Load(sol[i])
  {
    WeighAtLeast(sol[i], x);
  }

  lemma {:induction false} PlaceKeepsRoom(sol: seq<seq<real>>, B: real, j: nat, x: real)
    requires NoEarlierRoom(sol, B) && AboveAll(sol, x) && j < |sol| && Load(sol[j]) + x <= B
    requires forall i :: 0 <= i < j ==> Load(sol[i]) + x > B
    ensures NoEarlierRoom(sol[j := sol[j] + [x]], B)
  {
    var sol' := sol[j := sol[j] + [x]];
    forall i, k, a | 0 <= i < k < |sol'| && 0 <= a < |sol'[k]|
      ensures Weigh(sol'[i], AtLeast(sol'[k][a])) + sol'[k][a] > B {
      var y := sol'[k][a];
      LoadsSeen(sol, x, i);
      if k == j && a == |sol[j]| {
        assert y == x;
      } else {
        assert y == sol[k][a] >= x;
        if i == j { WeighAppended(sol[j], x, AtLeast(y)); }
      }
    }
  }

  lemma {:induction false} PlaceKeepsFits(sol: seq<seq<real>>, B: real, j: nat, x: real)
    requires FitsWhenPlaced(sol, B) && j < |sol| && Load(sol[j]) + x <= B
    ensures FitsWhenPlaced(sol[j := sol[j] + [x]], B)
  {
    var sol' := sol[j := sol[j] + [x]];
    forall k, a | 0 <= k < |sol'| && 0 <= a < |sol'[k]| && (a >= 1 || k == 0)
      ensures Load(sol'[k][..a]) + sol'[k][a] <= B {
      assert sol'[k][..a] == sol[k][..a];
      if a == |sol[k]| { assert sol[k][..a] == sol[k]; }
    }
  }

  lemma {:induction false} PlaceKeepsFirstFit(sol: seq<seq<real>>, B: real, j: nat, x: real)
    requires FirstFitPacking(sol, B) && AboveAll(sol, x) && j < |sol|
    requires Load(sol[j]) + x <= B && forall i :: 0 <= i < j ==> Load(sol[i]) + x > B
    ensures FirstFitPacking(sol[j := sol[j] + [x]], B)
  {
    PlaceKeepsRoom(sol, B, j, x);
    PlaceKeepsFits(sol, B, j, x);
  }

  lemma {:induction false} OpenKeepsRoom(sol: seq<seq<real>>, B: real, x: real)
    requires NoEarlierRoom(sol, B) && AboveAll(sol, x) && forall i :: 0 <= i < |sol| ==> Load(sol[i]) + x > B
    ensures NoEarlierRoom(sol + [[x]], B)
  {
    var sol' := sol + [[x]];
    forall i, k, a | 0 <= i < k < |sol'| && 0 <= a < |sol'[k]|
      ensures Weigh(sol'[i], AtLeast(sol'[k][a])) + sol'[k][a] > B {
      LoadsSeen(sol, x, i);
      if k < |sol| {
        assert sol'[k][a] == sol[k][a] && sol'[i] == sol[i];
      } else {
        assert sol'[k] == [x] && sol'[i] == sol[i];
      }
    }
  }

  lemma {:induction false} OpenKeepsOrder(sol: seq<seq<real>>, x: real)
    requires OpenedInOrder(sol) && AboveAll(sol, x)
    ensures OpenedInOrder(sol + [[x]])
  {
  }

  lemma {:induction false} OpenKeepsFits(sol: seq<seq<real>>, B: real, x: real)
    requires FitsWhenPlaced(sol, B) && |sol| >= 1
    ensures FitsWhenPlaced(sol + [[x]], B)
  {
    var sol' := sol + [[x]];
    forall k, a | 0 <= k < |sol'| && 0 <= a < |sol'[k]| && (a >= 1 || k == 0)
      ensures Load(sol'[k][..a]) + sol'[k][a] <= B {
      assert k < |sol| && sol'[k] == sol[k];
    }
  }

  lemma {:induction false} OpenKeepsFirstFit(sol: seq<seq<real>>, B: real, x: real)
    requires FirstFitPacking(sol, B) && AboveAll(sol, x)
    requires forall i :: 0 <= i < |sol| ==> Load(sol[i]) + x > B
    ensures FirstFitPacking(sol + [[x]], B)
  {
    OpenKeepsRoom(sol, B, x);
    OpenKeepsOrder(sol, x);
    OpenKeepsFits(sol, B, x);
  }

  ghost predicate NoEmptyBin(sol: seq<seq<real>>) { forall j :: 0 <= j < |sol| ==> sol[j] != [] }

  lemma NoEmptyAfterPlacing(sol: seq<seq<real>>, j: nat, x: real)
    requires j < |sol| && (sol == [[]] || NoEmptyBin(sol))
    ensures NoEmptyBin(sol[j := sol[j] + [x]])
  {
  }

  // ---------- one packing only ----------

  /** `sol` is `before` with `x` in bin `j`, the first one with room for it. */
  ghost predicate PlacedFirst(before: seq<seq<real>>, sol: seq<seq<real>>, j: nat, x: real, B: real) {
    && j <= |before| && (forall i :: 0 <= i < j ==> Load(before[i]) + x > B)
    && (if j < |before| then Load(before[j]) + x <= B && sol == before[j := before[j] + [x]]
        else sol == before + [[x]])
  }

  lemma {:induction false} NothingPacked(sol: seq<seq<real>>, B: real)
    requires FirstFitPacking(sol, B) && Flatten(sol) == []
    ensures sol == [[]]
  {
    forall j, a | 0 <= j < |sol| && 0 <= a < |sol[j]| ensures sol[j][a] in Flatten(sol) { BinItemIsItem(sol, j, a); }
    assert forall j :: 0 <= j < |sol| ==> |sol[j]| == 0;
  }

  lemma {:induction false} BinItemIsItem(sol: seq<seq<real>>, j: nat, a: nat)
    requires j < |sol| && a < |sol[j]|
    ensures sol[j][a] in Flatten(sol)
  {
    var n := |sol| - 1;
    if j < n { BinItemIsItem(sol[..n], j, a); }
  }

  lemma {:induction false} ItemIsInBin(sol: seq<seq<real>>, x: real) returns (j: nat)
    requires x in Flatten(sol)
    ensures j < |sol| && x in sol[j]
  {
    var n := |sol| - 1;
    if x in sol[n] { j := n; } else { j := ItemIsInBin(sol[..n], x); }
  }

  lemma {:induction false} LastBinWith(sol: seq<seq<real>>, x: real, from: nat) returns (j: nat)
    requires from < |sol| && x in sol[from]
    ensures j < |sol| && x in sol[j] && forall k :: j < k < |sol| ==> x !in sol[k]
    decreases |sol| - from
  {
    j := from;
    if k :| from < k < |sol| && x in sol[k] { j := LastBinWith(sol, x, k); }
  }

  lemma {:induction false} Smallest(s: seq<real>) returns (x: real)
    requires s != []
    ensures x in s && forall k :: 0 <= k < |s| ==> x <= s[k]
  {
    x := s[0];
    if |s| > 1 {
      var y := Smallest(s[1..]);
      if y < x { x := y; }
    }
  }

  lemma {:induction false} SameItems(P: seq<seq<real>>, Q: seq<seq<real>>, x: real)
    requires multiset(Flatten(P)) == multiset(Flatten(Q)) && x in Flatten(P)
    requires forall k :: 0 <= k < |Flatten(P)| ==> x <= Flatten(P)[k]
    ensures x in Flatten(Q) && AboveAll(P, x) && AboveAll(Q, x)
  {
    assert x in multiset(Flatten(Q));
    forall j, a | 0 <= j < |P| && 0 <= a < |P[j]| ensures P[j][a] >= x { BinItemIsItem(P, j, a); }
    forall j, a | 0 <= j < |Q| && 0 <= a < |Q[j]| ensures Q[j][a] >= x {
      BinItemIsItem(Q, j, a);
      assert Q[j][a] in multiset(Flatten(P));
    }
  }

  lemma {:induction false} StepBack(sol: seq<seq<real>>, B: real, x: real) returns (before: seq<seq<real>>, j: nat)
    requires FirstFitPacking(sol, B) && AboveAll(sol, x) && x in Flatten(sol)
    ensures FirstFitPacking(before, B) && PlacedFirst(before, sol, j, x, B)
    ensures |Flatten(before)| < |Flatten(sol)|
    ensures multiset(Flatten(before)) == multiset(Flatten(sol)) - multiset{x}
  {
    before, j := LastPlaced(sol, B, x);
    OneItemLess(sol, before, j, x);
    assert |multiset(Flatten(sol))| == |Flatten(sol)| && |multiset(Flatten(before))| == |Flatten(before)|;
  }

  lemma {:induction false} OneItemLess(sol: seq<seq<real>>, before: seq<seq<real>>, j: nat, x: real)
    requires j <= |before| && sol == if j < |before| then before[j := before[j] + [x]] else before + [[x]]
    ensures multiset(Flatten(sol)) == multiset(Flatten(before)) + multiset{x}
  {
    if j < |before| { FlattenUpdate(before, j, x); } else { FlattenOpen(before, x); }
  }

  lemma {:induction false} EarlierAreFull(sol: seq<seq<real>>, before: seq<seq<real>>, B: real, x: real, j: nat)
    requires FirstFitPacking(sol, B) && AboveAll(sol, x) && j < |sol| && x in sol[j]
    requires j <= |before| && forall i :: 0 <= i < j ==> before[i] == sol[i]
    ensures forall i :: 0 <= i < j ==> Load(before[i]) + x > B
  {
    forall i | 0 <= i < j ensures Load(before[i]) + x > B { LoadBefore(sol, B, x, i, j); }
  }

  lemma {:induction false} DropLast(sol: seq<seq<real>>, B: real, x: real, j: nat)
    requires FirstFitPacking(sol, B) && AboveAll(sol, x) && 0 < j < |sol| && sol[j] == [x]
    requires forall k :: j < k < |sol| ==> x !in sol[k]
    ensures FirstFitPacking(sol[..j], B) && PlacedFirst(sol[..j], sol, j, x, B)
  {
    SingleIsLast(sol, B, x, j);
    PrefixIsFirstFit(sol, B, j);
    EarlierAreFull(sol, sol[..j], B, x, j);
  }

  lemma {:induction false} ShortenBin(sol: seq<seq<real>>, B: real, x: real, j: nat, front: seq<real>)
    requires FirstFitPacking(sol, B) && AboveAll(sol, x) && EndsSmallest(sol, j, front, x)
    requires front != [] || j == 0
    ensures FirstFitPacking(sol[j := front], B) && PlacedFirst(sol[j := front], sol, j, x, B)
  {
    WithoutLast(sol, B, x, j, front);
    assert x == sol[j][|front|];
    EarlierAreFull(sol, sol[j := front], B, x, j);
  }

  lemma {:induction false} LastSmallest(sol: seq<seq<real>>, B: real, x: real) returns (j: nat, front: seq<real>)
    requires FirstFitPacking(sol, B) && AboveAll(sol, x) && x in Flatten(sol)
    ensures EndsSmallest(sol, j, front, x)
  {
    var some := ItemIsInBin(sol, x);
    j := LastBinWith(sol, x, some);
    front := sol[j][..|sol[j]| - 1];
    EndsWithSmallest(sol[j], x);
  }

  /** The last bin that holds a smallest item holds it at its end; without it the packing is first fit as well. */
  lemma {:induction false} LastPlaced(sol: seq<seq<real>>, B: real, x: real) returns (before: seq<seq<real>>, j: nat)
    requires FirstFitPacking(sol, B) && AboveAll(sol, x) && x in Flatten(sol)
    ensures FirstFitPacking(before, B) && PlacedFirst(before, sol, j, x, B)
  {
    var front;
    j, front := LastSmallest(sol, B, x);
    if front == [] && j > 0 {
      assert sol[j] == [x];
      DropLast(sol, B, x, j);
      before := sol[..j];
    } else {
      ShortenBin(sol, B, x, j, front);
      before := sol[j := front];
    }
  }

  lemma {:induction false} EndsWithSmallest(bin: seq<real>, x: real)
    requires Decreasing(bin) && x in bin && forall a :: 0 <= a < |bin| ==> x <= bin[a]
    ensures bin == bin[..|bin| - 1] + [x]
  {
    var a :| 0 <= a < |bin| && bin[a] == x;
    assert a < |bin| - 1 ==> bin[a] >= bin[|bin| - 1];
  }

  lemma {:induction false} LoadBefore(sol: seq<seq<real>>, B: real, x: real, i: nat, j: nat)
    requires FirstFitPacking(sol, B) && AboveAll(sol, x) && i < j < |sol| && x in sol[j]
    ensures Load(sol[i]) + x > B
  {
    var a :| 0 <= a < |sol[j]| && sol[j][a] == x;
    WeighAtLeast(sol[i], x);
    assert Weigh(sol[i], AtLeast(sol[j][a])) + sol[j][a] > B;
  }

  lemma {:induction false} SingleIsLast(sol: seq<seq<real>>, B: real, x: real, j: nat)
    requires FirstFitPacking(sol, B) && AboveAll(sol, x) && 1 <= j < |sol| && sol[j] == [x]
    requires forall k :: j < k < |sol| ==> x !in sol[k]
    ensures j == |sol| - 1
  {
    if j + 1 < |sol| { NextHoldsIt(sol, x, j); }
  }

  lemma {:induction false} NextHoldsIt(sol: seq<seq<real>>, x: real, j: nat)
    requires OpenedInOrder(sol) && AboveAll(sol, x) && 1 <= j < j + 1 < |sol| && sol[j] == [x] && sol[j + 1] != []
    ensures x in sol[j + 1]
  {
    assert sol[j + 1][0] == x;
  }

  lemma {:induction false} PrefixIsFirstFit(sol: seq<seq<real>>, B: real, j: nat)
    requires FirstFitPacking(sol, B) && 1 <= j <= |sol|
    ensures FirstFitPacking(sol[..j], B)
  {
  }

  /** The last item of bin `j` is a smallest one, and there is none like it in later bins. */
  ghost predicate EndsSmallest(sol: seq<seq<real>>, j: nat, front: seq<real>, x: real) {
    && j < |sol| && sol[j] == front + [x] && (forall k :: j < k < |sol| ==> x !in sol[k])
    && forall k, a :: 0 <= k < |sol| && 0 <= a < |sol[k]| ==> x <= sol[k][a]
  }

  lemma {:induction false} RoomWithoutLast(sol: seq<seq<real>>, B: real, x: real, j: nat, front: seq<real>)
    requires NoEarlierRoom(sol, B) && EndsSmallest(sol, j, front, x)
    ensures NoEarlierRoom(sol[j := front], B)
  {
    var before := sol[j := front];
    forall i, k, a | 0 <= i < k < |before| && 0 <= a < |before[k]|
      ensures Weigh(before[i], AtLeast(before[k][a])) + before[k][a] > B {
      var y := sol[k][a];
      assert before[k][a] == y && Weigh(sol[i], AtLeast(sol[k][a])) + sol[k][a] > B;
      if i == j {
        assert y in sol[k];
        WeighAppended(front, x, AtLeast(y));
      }
    }
  }

  lemma {:induction false} FitsWithoutLast(sol: seq<seq<real>>, B: real, x: real, j: nat, front: seq<real>)
    requires FitsWhenPlaced(sol, B) && EndsSmallest(sol, j, front, x)
    ensures FitsWhenPlaced(sol[j := front], B)
    ensures front != [] || j == 0 ==> Load(front) + x <= B
  {
    var before := sol[j := front];
    forall k, a | 0 <= k < |before| && 0 <= a < |before[k]| && (a >= 1 || k == 0)
      ensures Load(before[k][..a]) + before[k][a] <= B {
      assert before[k][..a] == sol[k][..a] && before[k][a] == sol[k][a];
    }
    if front != [] || j == 0 { assert sol[j][..|front|] == front && sol[j][|front|] == x; }
  }

  lemma {:induction false} WithoutLast(sol: seq<seq<real>>, B: real, x: real, j: nat, front: seq<real>)
    requires FirstFitPacking(sol, B) && EndsSmallest(sol, j, front, x) && (front != [] || j == 0)
    ensures FirstFitPacking(sol[j := front], B) && Load(front) + x <= B
    ensures sol == sol[j := front][j := front + [x]]
  {
    RoomWithoutLast(sol, B, x, j, front);
    FitsWithoutLast(sol, B, x, j, front);
    FrontDecreases(front, x);
  }

  lemma {:induction false} FrontDecreases(front: seq<real>, x: real)
    requires Decreasing(front + [x])
    ensures Decreasing(front)
  {
    forall i, j | 0 <= i < j < |front| ensures front[i] >= front[j] {
      assert (front + [x])[i] == front[i] && (front + [x])[j] == front[j];
    }
  }

  /** The first bin with room is one bin. */
  lemma {:induction false} PlacedOnce(before: seq<seq<real>>, P: seq<seq<real>>, i: nat, Q: seq<seq<real>>, j: nat,
                                      x: real, B: real)
    requires PlacedFirst(before, P, i, x, B) && PlacedFirst(before, Q, j, x, B)
    ensures P == Q
  {
    assert i == j;
  }

  lemma SameItemsFit(a: seq<real>, b: seq<real>, B: real)
    requires multiset(a) == multiset(b) && ItemsFit(a, B)
    ensures ItemsFit(b, B)
  {
    forall k | 0 <= k < |b| ensures 0.0 < b[k] <= B {
      assert b[k] in multiset(b);
      assert b[k] in multiset(a);
      var i :| 0 <= i < |a| && a[i] == b[k];
    }
  }

  // ---------- the items placed one after the other ----------

  ghost predicate PlacedNext(before: seq<seq<real>>, sol: seq<seq<real>>, x: real, B: real) {
    exists j: nat :: PlacedFirst(before, sol, j, x, B)
  }

  ghost predicate Placed(sol: seq<seq<real>>, items: seq<real>, B: real)
    decreases |items|
  {
    if items == [] then sol == [[]]
    else
      var front, x := items[..|items| - 1], items[|items| - 1];
      exists before :: Placed(before, front, B) && PlacedNext(before, sol, x, B)
  }

  lemma {:induction false} PlacedIsPacked(sol: seq<seq<real>>, items: seq<real>, B: real)
    requires Placed(sol, items, B)
    ensures |sol| >= 1 && multiset(Flatten(sol)) == multiset(items)
    decreases |items|
  {
    if items != [] {
      var front, x := items[..|items| - 1], items[|items| - 1];
      var before :| Placed(before, front, B) && PlacedNext(before, sol, x, B);
      PlacedIsPacked(before, front, B);
      PackedNext(before, sol, x, B);
      SplitLast(items, front, x);
    }
  }

  lemma {:induction false} SplitLast(items: seq<real>, front: seq<real>, x: real)
    requires items != [] && front == items[..|items| - 1] && x == items[|items| - 1]
    ensures multiset(items) == multiset(front) + multiset{x}
  {
    assert items == front + [x];
  }

  lemma {:induction false} PackedNext(before: seq<seq<real>>, sol: seq<seq<real>>, x: real, B: real)
    requires PlacedNext(before, sol, x, B)
    ensures |sol| >= 1 && multiset(Flatten(sol)) == multiset(Flatten(before)) + multiset{x}
  {
    var j: nat :| PlacedFirst(before, sol, j, x, B);
    OneItemLess(sol, before, j, x);
  }

  lemma {:induction false} PackedAbove(sol: seq<seq<real>>, items: seq<real>, x: real)
    requires multiset(Flatten(sol)) == multiset(items) && forall k :: 0 <= k < |items| ==> items[k] >= x
    ensures AboveAll(sol, x)
  {
    forall j, a | 0 <= j < |sol| && 0 <= a < |sol[j]| ensures sol[j][a] >= x {
      BinItemIsItem(sol, j, a);
      assert sol[j][a] in multiset(items);
    }
  }

  lemma {:induction false} FirstFitNext(before: seq<seq<real>>, sol: seq<seq<real>>, x: real, B: real)
    requires FirstFitPacking(before, B) && AboveAll(before, x) && PlacedNext(before, sol, x, B)
    ensures FirstFitPacking(sol, B)
  {
    var j: nat :| PlacedFirst(before, sol, j, x, B);
    if j < |before| { PlaceKeepsFirstFit(before, B, j, x); } else { OpenKeepsFirstFit(before, B, x); }
  }

  /** Placed in decreasing order, the items form a first-fit packing. */
  lemma {:induction false} PlacedIsFirstFit(sol: seq<seq<real>>, items: seq<real>, B: real)
    requires Placed(sol, items, B) && Decreasing(items)
    ensures FirstFitPacking(sol, B)
    decreases |items|
  {
    if items != [] {
      var front, x := items[..|items| - 1], items[|items| - 1];
      var before :| Placed(before, front, B) && PlacedNext(before, sol, x, B);
      PlacedIsFirstFit(before, front, B);
      PlacedIsPacked(before, front, B);
      PackedAbove(before, front, x);
      FirstFitNext(before, sol, x, B);
    }
  }

  lemma {:induction false} ShapeNext(before: seq<seq<real>>, sol: seq<seq<real>>, x: real, B: real)
    requires HasShape(before, B) && AboveAll(before, x) && 0.0 < x <= B && PlacedNext(before, sol, x, B)
    ensures HasShape(sol, B)
  {
    var j: nat :| PlacedFirst(before, sol, j, x, B);
    if j < |before| {
      PlaceKeepsShape(before, B, j, x);
      NoEmptyAfterPlacing(before, j, x);
    } else {
      assert Load([]) == 0.0;
      OpenKeepsShape(before, B, x);
    }
  }

  ghost predicate HasShape(sol: seq<seq<real>>, B: real) {
    PartialShape(sol, B) && (sol == [[]] || NoEmptyBin(sol))
  }

  /** And if each of them fits a bin, what the guarantee needs. */
  lemma {:induction false} PlacedHasShape(sol: seq<seq<real>>, items: seq<real>, B: real)
    requires Placed(sol, items, B) && Decreasing(items) && ItemsFit(items, B) && 0.0 <= B
    ensures HasShape(sol, B)
    decreases |items|
  {
    if items == [] {
      assert Load([]) == 0.0;
    } else {
      var front, x := items[..|items| - 1], items[|items| - 1];
      var before :| Placed(before, front, B) && PlacedNext(before, sol, x, B);
      PlacedHasShape(before, front, B);
      PlacedIsPacked(before, front, B);
      PackedAbove(before, front, x);
      ShapeNext(before, sol, x, B);
    }
  }

  /** `remain` holds the free space of every bin. */
  ghost predicate IsRemain(remain: seq<real>, sol: seq<seq<real>>, B: real) {
    |remain| == |sol| && forall j :: 0 <= j < |sol| ==> remain[j] == B - Load(sol[j])
  }

  lemma RemainAfterPlacing(remain: seq<real>, sol: seq<seq<real>>, B: real, j: nat, x: real)
    requires IsRemain(remain, sol, B) && j < |sol|
    ensures IsRemain(remain[j := remain[j] - x], sol[j := sol[j] + [x]], B)
  {
  }

  lemma RemainAfterOpening(remain: seq<real>, sol: seq<seq<real>>, B: real, x: real)
    requires IsRemain(remain, sol, B)
    ensures IsRemain(remain + [B - x], sol + [[x]], B)
  {
    LoadOfOne([x]);
  }
}

/** Weighing lists of items, and bins as the list of all their items. */
module Weighing {
  import opened Sums

  function Weigh(s: seq<real>, f: real -> real): real {
    if s == [] then 0.0 else Weigh(s[..|s| - 1], f) + f(s[|s| - 1])
  }

  function Size(): real -> real { x => x }

  function Load(bin: seq<real>): real { Weigh(bin, Size()) }

  function Flatten(bins: seq<seq<real>>): seq<real> {
    if bins == [] then [] else Flatten(bins[..|bins| - 1]) + bins[|bins| - 1]
  }

  lemma {:induction false} WeighConcat(a: seq<real>, b: seq<real>, f: real -> real)
    ensures Weigh(a + b, f) == Weigh(a, f) + Weigh(b, f)
    decreases |b|
  {
    if b == [] {
      assert a + b == a;
    } else {
      assert (a + b)[..|a + b| - 1] == a + b[..|b| - 1];
      WeighConcat(a, b[..|b| - 1], f);
    }
  }

  lemma {:induction false} WeighSplit(a: seq<real>, x: real, b: seq<real>, f: real -> real)
    ensures Weigh(a + [x] + b, f) == Weigh(a + b, f) + f(x)
  {
    WeighConcat(a + [x], b, f);
    WeighConcat(a, b, f);
    assert (a + [x])[..|a|] == a;
  }

  /** Lists with the same items weigh the same. */
  lemma {:induction false} WeighSameItems(a: seq<real>, b: seq<real>, f: real -> real)
    requires multiset(a) == multiset(b)
    ensures Weigh(a, f) == Weigh(b, f)
    decreases |a|
  {
    if a == [] {
      assert |multiset(b)| == 0;
    } else {
      var x, a' := a[|a| - 1], a[..|a| - 1];
      var front, back := SplitAtLast(a, b);
      WeighSameItems(a', front + back, f);
      WeighSplit(front, x, back, f);
    }
  }

  /** The last item of one list, found in the other. */
  lemma {:induction false} SplitAtLast(a: seq<real>, b: seq<real>) returns (front: seq<real>, back: seq<real>)
    requires a != [] && multiset(a) == multiset(b)
    ensures b == front + [a[|a| - 1]] + back && multiset(a[..|a| - 1]) == multiset(front + back)
  {
    var x := a[|a| - 1];
    assert a == a[..|a| - 1] + [x];
    assert x in multiset(b);
    var i :| 0 <= i < |b| && b[i] == x;
    front, back := b[..i], b[i + 1..];
    assert b == front + [x] + back;
    assert multiset(a[..|a| - 1]) == multiset(a) - multiset{x};
    assert multiset(front + back) == multiset(b) - multiset{x};
  }

  function BinWeights(bins: seq<seq<real>>, f: real -> real): int -> real {
    j => if 0 <= j < |bins| then Weigh(bins[j], f) else 0.0
  }

  lemma {:induction false} WeighFlatten(bins: seq<seq<real>>, f: real -> real)
    ensures Weigh(Flatten(bins), f) == Sum(BinWeights(bins, f), 0, |bins|)
  {
    if bins != [] {
      var front := bins[..|bins| - 1];
      WeighFlatten(front, f);
      WeighConcat(Flatten(front), bins[|bins| - 1], f);
      SumCongruent(BinWeights(bins, f), BinWeights(front, f), 0, |front|);
    }
  }

  ghost predicate AllPositive(s: seq<real>) {
    forall k :: 0 <= k < |s| ==> 0.0 < s[k]
  }

  lemma {:induction false} NonnegativeLoad(bin: seq<real>)
    requires AllPositive(bin)
    ensures 0.0 <= Load(bin)
  {
    if bin != [] { NonnegativeLoad(bin[..|bin| - 1]); }
  }

  lemma LoadOfOne(bin: seq<real>)
    requires |bin| == 1
    ensures Load(bin) == bin[0]
  {
    assert Weigh(bin[..0], Size()) == 0.0;
  }

  lemma {:induction false} LoadGrows(s: seq<real>, r: nat)
    requires r <= |s| && AllPositive(s)
    ensures Load(s[..r]) <= Load(s)
    decreases |s|
  {
    if r == |s| {
      assert s[..r] == s;
    } else {
      LoadGrows(s[..|s| - 1], r);
      assert s[..|s| - 1][..r] == s[..r];
    }
  }

  lemma SameItemsPositive(a: seq<real>, b: seq<real>)
    requires multiset(a) == multiset(b) && AllPositive(a)
    ensures AllPositive(b)
  {
    forall k | 0 <= k < |b| ensures 0.0 < b[k] {
      assert b[k] in multiset(b);
      assert b[k] in multiset(a);
      var i :| 0 <= i < |a| && a[i] == b[k];
    }
  }

  lemma {:induction false} FlattenPositive(bins: seq<seq<real>>, j: int)
    requires AllPositive(Flatten(bins)) && 0 <= j < |bins|
    ensures AllPositive(bins[j])
  {
    var front := bins[..|bins| - 1];
    var n := |Flatten(front)|;
    if j == |bins| - 1 {
      forall k | 0 <= k < |bins[j]| ensures 0.0 < bins[j][k] { assert Flatten(bins)[n + k] == bins[j][k]; }
    } else {
      forall k | 0 <= k < n ensures 0.0 < Flatten(front)[k] { assert Flatten(bins)[k] == Flatten(front)[k]; }
      FlattenPositive(front, j);
    }
  }

  lemma {:induction false} FlattenConcat(a: seq<seq<real>>, b: seq<seq<real>>)
    ensures Flatten(a + b) == Flatten(a) + Flatten(b)
    decreases |b|
  {
    if b == [] {
      assert a + b == a;
    } else {
      var front, last := b[..|b| - 1], b[|b| - 1];
      FlattenConcat(a, front);
      assert (a + b)[..|a + b| - 1] == a + front && (a + b)[|a + b| - 1] == last;
      assert Flatten(a) + (Flatten(front) + last) == (Flatten(a) + Flatten(front)) + last;
    }
  }

  lemma {:induction false} FlattenUpdate(sol: seq<seq<real>>, j: nat, x: real)
    requires j < |sol|
    ensures multiset(Flatten(sol[j := sol[j] + [x]])) == multiset(Flatten(sol)) + multiset{x}
  {
    var sol' := sol[j := sol[j] + [x]];
    var n := |sol| - 1;
    if j == n {
      assert sol'[..n] == sol[..n];
    } else {
      FlattenUpdate(sol[..n], j, x);
      assert sol'[..n] == sol[..n][j := sol[..n][j] + [x]];
    }
  }

  lemma FlattenOpen(sol: seq<seq<real>>, x: real)
    ensures multiset(Flatten(sol + [[x]])) == multiset(Flatten(sol)) + multiset{x}
  {
    assert (sol + [[x]])[..|sol|] == sol;
  }
}
