/** What the up-time, down-time and start-up rows mean for the on/off curve of one unit. */
module MucpColumn {
  import opened Sums
  import opened Tails
  import opened Mucp

  ghost predicate Off(x: int -> real, lo: int, hi: int) {
    forall t :: lo <= t < hi ==> x(t) == 0.0
  }

  ghost predicate On(x: int -> real, lo: int, hi: int) {
    forall t :: lo <= t < hi ==> x(t) == 1.0
  }

  /** Without a start-up in `(a, b]` the unit is not up at `b` unless it was up at `a`. */
  lemma {:induction false} NoStartNoRise(unit: ProductionUnit, maxTime: int, x: int -> real, u: int -> real, a: int,
                                         b: int)
    requires OnOffRows(unit, maxTime, x, u) && 1 <= a <= b <= maxTime
    requires Off(u, a + 1, b + 1)
    ensures x(b) <= x(a)
    decreases b - a
  {
    if a < b {
      NoStartNoRise(unit, maxTime, x, u, a, b - 1);
      assert StartupRow(x, u, b);
    }
  }

  /** A window sum of at most one that already holds a start-up holds no other. */
  lemma OtherStartsAreZero(u: int -> real, lo: int, hi: int, s: int)
    requires forall t :: lo <= t < hi ==> Binary(u(t))
    requires Sum(u, lo, hi) <= 1.0 && lo <= s < hi && u(s) == 1.0
    ensures Off(u, lo, s) && Off(u, s + 1, hi)
  {
    forall t | lo <= t < hi && t != s ensures u(t) == 0.0 {
      if t < s { TwoTermsAtMostSum(u, lo, hi, t, s); } else { TwoTermsAtMostSum(u, lo, hi, s, t); }
    }
  }

  /** A unit that starts up stays up for its minimum up-time, as far as the horizon reaches. */
  lemma StartStaysUp(unit: ProductionUnit, maxTime: int, x: int -> real, u: int -> real, s: int, r: int)
    requires WindowsFit(unit, maxTime) && OnOffRows(unit, maxTime, x, u)
    requires 1 <= s <= r <= maxTime && r < s + unit.minUptime && u(s) == 1.0
    ensures x(r) == 1.0
  {
    var t := if r < unit.minUptime then unit.minUptime else r;
    assert UptimeRow(unit, x, u, t);
    TermAtMostSum(u, t - unit.minUptime + 1, t + 1, s);
    if r < t {
      OtherStartsAreZero(u, 1, t + 1, s);
      NoStartNoRise(unit, maxTime, x, u, r, t);
    }
  }

  /** When the down-time is shorter than the horizon, a start-up variable is set only by a unit that was down. */
  lemma StartFromDown(unit: ProductionUnit, maxTime: int, x: int -> real, u: int -> real, s: int)
    requires WindowsFit(unit, maxTime) && unit.minDowntime < maxTime && OnOffRows(unit, maxTime, x, u)
    requires 2 <= s <= maxTime && u(s) == 1.0
    ensures forall r :: 1 <= r && s - unit.minDowntime <= r < s ==> x(r) == 0.0
  {
    var l := unit.minDowntime;
    if l == 0 { return; }
    var t := if s + l - 1 < maxTime then s + l - 1 else maxTime;
    StartFromDownInWindow(unit, maxTime, x, u, s, t);
    forall r | 1 <= r && s - l <= r < s ensures x(r) == 0.0 {
      if r < t - l {
        StartFromDownInWindow(unit, maxTime, x, u, s, r + l);
      }
    }
  }

  /** The down-time row at `t`, read from a start-up inside its window. */
  lemma StartFromDownInWindow(unit: ProductionUnit, maxTime: int, x: int -> real, u: int -> real, s: int, t: int)
    requires WindowsFit(unit, maxTime) && OnOffRows(unit, maxTime, x, u)
    requires unit.minDowntime < t <= maxTime && t - unit.minDowntime < s <= t && u(s) == 1.0
    ensures forall r :: t - unit.minDowntime <= r < s ==> x(r) == 0.0
  {
    var l := unit.minDowntime;
    assert DowntimeRow(unit, x, u, t);
    TermAtMostSum(u, t - l + 1, t + 1, s);
    OtherStartsAreZero(u, t - l + 1, t + 1, s);
    forall r | t - l <= r < s ensures x(r) == 0.0 {
      NoStartNoRise(unit, maxTime, x, u, t - l, r);
    }
  }

  // ---------- which on/off curves have start-up variables at all ----------

  /** A maximal block of up periods. */
  ghost predicate UpRun(x: int -> real, maxTime: int, a: int, b: int) {
    1 <= a <= b <= maxTime && On(x, a, b + 1) && (a == 1 || x(a - 1) == 0.0) && (b == maxTime || x(b + 1) == 0.0)
  }

  /** A maximal block of down periods. */
  ghost predicate DownRun(x: int -> real, maxTime: int, a: int, b: int) {
    1 <= a <= b <= maxTime && Off(x, a, b + 1) && (a == 1 || x(a - 1) == 1.0) && (b == maxTime || x(b + 1) == 1.0)
  }

  ghost predicate UpRunsLastLongEnough(unit: ProductionUnit, maxTime: int, x: int -> real) {
    forall a, b :: UpRun(x, maxTime, a, b) && 1 < a ==> b == maxTime || b - a + 1 >= unit.minUptime
  }

  ghost predicate DownRunsLastLongEnough(unit: ProductionUnit, maxTime: int, x: int -> real) {
    forall a, b :: DownRun(x, maxTime, a, b) && 1 < a && b < maxTime ==> b - a + 1 >= unit.minDowntime
  }

  ghost predicate StartsAt(x: int -> real, maxTime: int, s: int) {
    2 <= s <= maxTime && x(s) == 1.0 && x(s - 1) == 0.0
  }

  /** When the minimum down-time is the whole horizon, its one row counts start-ups and does not read `x`. */
  ghost predicate AtMostOneStart(x: int -> real, maxTime: int) {
    forall s, s' :: StartsAt(x, maxTime, s) && StartsAt(x, maxTime, s') ==> s == s'
  }

  /** What the minimum down-time rows ask of the on/off curve alone. */
  ghost predicate DowntimeKept(unit: ProductionUnit, maxTime: int, x: int -> real) {
    if unit.minDowntime < maxTime then DownRunsLastLongEnough(unit, maxTime, x) else AtMostOneStart(x, maxTime)
  }

  function StartUps(x: int -> real): int -> real {
    t => if 2 <= t && x(t) == 1.0 && x(t - 1) == 0.0 then 1.0 else 0.0
  }

  lemma {:induction false} UpRunFrom(x: int -> real, maxTime: int, a: int, lo: int) returns (b: int)
    requires forall t :: 1 <= t <= maxTime ==> Binary(x(t))
    requires 1 <= a <= lo <= maxTime && On(x, a, lo + 1) && (a == 1 || x(a - 1) == 0.0)
    ensures lo <= b && UpRun(x, maxTime, a, b)
    decreases maxTime - lo
  {
    if lo == maxTime || x(lo + 1) == 0.0 { b := lo; } else { b := UpRunFrom(x, maxTime, a, lo + 1); }
  }

  lemma {:induction false} DownRunUpTo(x: int -> real, maxTime: int, hi: int, b: int) returns (a: int)
    requires forall t :: 1 <= t <= maxTime ==> Binary(x(t))
    requires 1 <= hi <= b <= maxTime && Off(x, hi, b + 1) && (b == maxTime || x(b + 1) == 1.0)
    ensures a <= hi && DownRun(x, maxTime, a, b)
    decreases hi
  {
    if hi == 1 || x(hi - 1) == 1.0 { a := hi; } else { a := DownRunUpTo(x, maxTime, hi - 1, b); }
  }

  /** The up-time, down-time and start-up rows can be met exactly by the curves whose runs last long enough. */
  lemma CurveExtends(unit: ProductionUnit, maxTime: int, x: int -> real)
    requires WindowsFit(unit, maxTime)
    requires forall t :: 1 <= t <= maxTime ==> Binary(x(t))
    ensures (exists u :: OnOffRows(unit, maxTime, x, u))
       <==> UpRunsLastLongEnough(unit, maxTime, x) && DowntimeKept(unit, maxTime, x)
  {
    forall u | OnOffRows(unit, maxTime, x, u)
      ensures UpRunsLastLongEnough(unit, maxTime, x) && DowntimeKept(unit, maxTime, x)
    {
      RowsBoundRuns(unit, maxTime, x, u);
    }
    if UpRunsLastLongEnough(unit, maxTime, x) && DowntimeKept(unit, maxTime, x) {
      RunsMeetRows(unit, maxTime, x);
    }
  }

  lemma {:induction false} RowsBoundRuns(unit: ProductionUnit, maxTime: int, x: int -> real, u: int -> real)
    requires WindowsFit(unit, maxTime) && OnOffRows(unit, maxTime, x, u)
    ensures UpRunsLastLongEnough(unit, maxTime, x) && DowntimeKept(unit, maxTime, x)
  {
    forall a, b | UpRun(x, maxTime, a, b) && 1 < a ensures b == maxTime || b - a + 1 >= unit.minUptime {
      UpRunIsLong(unit, maxTime, x, u, a, b);
    }
    if unit.minDowntime < maxTime {
      forall a, b | DownRun(x, maxTime, a, b) && 1 < a && b < maxTime ensures b - a + 1 >= unit.minDowntime {
        DownRunIsLong(unit, maxTime, x, u, a, b);
      }
    } else {
      OnlyOneStart(unit, maxTime, x, u);
    }
  }

  lemma {:induction false} StartIsSignalled(unit: ProductionUnit, maxTime: int, x: int -> real, u: int -> real, s: int)
    requires OnOffRows(unit, maxTime, x, u) && StartsAt(x, maxTime, s)
    ensures u(s) == 1.0
  {
    assert StartupRow(x, u, s);
  }

  lemma {:induction false} UpRunIsLong(unit: ProductionUnit, maxTime: int, x: int -> real, u: int -> real, a: int,
                                       b: int)
    requires WindowsFit(unit, maxTime) && OnOffRows(unit, maxTime, x, u) && UpRun(x, maxTime, a, b) && 1 < a
    ensures b == maxTime || b - a + 1 >= unit.minUptime
  {
    StartIsSignalled(unit, maxTime, x, u, a);
    if b < maxTime && b + 1 < a + unit.minUptime { StartStaysUp(unit, maxTime, x, u, a, b + 1); }
  }

  lemma {:induction false} DownRunIsLong(unit: ProductionUnit, maxTime: int, x: int -> real, u: int -> real, a: int,
                                         b: int)
    requires WindowsFit(unit, maxTime) && unit.minDowntime < maxTime && OnOffRows(unit, maxTime, x, u)
    requires DownRun(x, maxTime, a, b) && 1 < a && b < maxTime
    ensures b - a + 1 >= unit.minDowntime
  {
    StartIsSignalled(unit, maxTime, x, u, b + 1);
    StartFromDown(unit, maxTime, x, u, b + 1);
  }

  lemma {:induction false} OnlyOneStart(unit: ProductionUnit, maxTime: int, x: int -> real, u: int -> real)
    requires WindowsFit(unit, maxTime) && unit.minDowntime == maxTime && OnOffRows(unit, maxTime, x, u)
    ensures AtMostOneStart(x, maxTime)
  {
    assert DowntimeRow(unit, x, u, maxTime);
    forall s, s' | StartsAt(x, maxTime, s) && StartsAt(x, maxTime, s') ensures s == s' {
      StartIsSignalled(unit, maxTime, x, u, s);
      StartIsSignalled(unit, maxTime, x, u, s');
      OtherStartsAreZero(u, 1, maxTime + 1, s);
    }
  }

  /** What long enough runs mean around one start-up. */
  lemma AroundStart(unit: ProductionUnit, maxTime: int, x: int -> real, s: int)
    requires WindowsFit(unit, maxTime) && StartsAt(x, maxTime, s)
    requires forall t :: 1 <= t <= maxTime ==> Binary(x(t))
    requires UpRunsLastLongEnough(unit, maxTime, x)
    ensures forall r :: s <= r < s + unit.minUptime && r <= maxTime ==> x(r) == 1.0
    ensures DownRunsLastLongEnough(unit, maxTime, x) ==>
              forall r :: 1 <= r && s - unit.minDowntime <= r < s ==> x(r) == 0.0
  {
    var b := UpRunFrom(x, maxTime, s, s);
    var a := DownRunUpTo(x, maxTime, s - 1, s - 1);
  }

  lemma StartsAreFarApart(unit: ProductionUnit, maxTime: int, x: int -> real, s: int, s': int)
    requires WindowsFit(unit, maxTime) && StartsAt(x, maxTime, s) && StartsAt(x, maxTime, s') && s < s'
    requires forall t :: 1 <= t <= maxTime ==> Binary(x(t))
    requires UpRunsLastLongEnough(unit, maxTime, x) && DowntimeKept(unit, maxTime, x)
    ensures s + unit.minUptime < s' && s + unit.minDowntime < s'
  {
    AroundStart(unit, maxTime, x, s);
    AroundStart(unit, maxTime, x, s');
    assert x(s' - 1) == 0.0 && x(s) == 1.0;
  }

  /** A window no longer than either minimum holds at most one start-up. */
  lemma WindowOfStarts(unit: ProductionUnit, maxTime: int, x: int -> real, lo: int, hi: int)
    requires WindowsFit(unit, maxTime) && hi <= maxTime + 1
    requires hi - lo <= unit.minUptime || hi - lo <= unit.minDowntime
    requires forall t :: 1 <= t <= maxTime ==> Binary(x(t))
    requires UpRunsLastLongEnough(unit, maxTime, x) && DowntimeKept(unit, maxTime, x)
    ensures Sum(StartUps(x), lo, hi) <= 0.0
         || (Sum(StartUps(x), lo, hi) == 1.0 && exists s :: lo <= s < hi && StartsAt(x, maxTime, s))
  {
    var u := StartUps(x);
    if Sum(u, lo, hi) > 0.0 {
      var s := PositiveTerm(u, lo, hi);
      assert StartsAt(x, maxTime, s);
      forall s' | lo <= s' < hi && s' != s ensures u(s') == 0.0 {
        if StartsAt(x, maxTime, s') {
          if s < s' { StartsAreFarApart(unit, maxTime, x, s, s'); } else { StartsAreFarApart(unit, maxTime, x, s', s); }
        }
      }
      SumSingle(u, lo, hi, s);
    }
  }

  lemma RunsMeetWindowRows(unit: ProductionUnit, maxTime: int, x: int -> real, t: int)
    requires WindowsFit(unit, maxTime) && 1 <= t <= maxTime
    requires forall t :: 1 <= t <= maxTime ==> Binary(x(t))
    requires UpRunsLastLongEnough(unit, maxTime, x) && DowntimeKept(unit, maxTime, x)
    ensures unit.minUptime <= t ==> UptimeRow(unit, x, StartUps(x), t)
    ensures unit.minDowntime <= t ==> DowntimeRow(unit, x, StartUps(x), t)
  {
    var u := StartUps(x);
    var lo, lo' := t - unit.minUptime + 1, t - unit.minDowntime + 1;
    WindowOfStarts(unit, maxTime, x, lo, t + 1);
    if 1 <= lo && Sum(u, lo, t + 1) == 1.0 {
      var s :| lo <= s < t + 1 && StartsAt(x, maxTime, s);
      AroundStart(unit, maxTime, x, s);
    }
    WindowOfStarts(unit, maxTime, x, lo', t + 1);
    if 1 <= lo' && Sum(u, lo', t + 1) == 1.0 {
      var s :| lo' <= s < t + 1 && StartsAt(x, maxTime, s);
      AroundStart(unit, maxTime, x, s);
    }
  }

  lemma RunsMeetRows(unit: ProductionUnit, maxTime: int, x: int -> real)
    requires WindowsFit(unit, maxTime)
    requires forall t :: 1 <= t <= maxTime ==> Binary(x(t))
    requires UpRunsLastLongEnough(unit, maxTime, x) && DowntimeKept(unit, maxTime, x)
    ensures OnOffRows(unit, maxTime, x, StartUps(x))
  {
    forall t | 1 <= t <= maxTime
      ensures unit.minUptime <= t ==> UptimeRow(unit, x, StartUps(x), t)
      ensures unit.minDowntime <= t ==> DowntimeRow(unit, x, StartUps(x), t)
    {
      RunsMeetWindowRows(unit, maxTime, x, t);
    }
  }

  // ---------- trading tails between two curves ----------

  /** Both units have been down long enough to start up at `t`. */
  ghost predicate BothStartReady(unit: ProductionUnit, x1: int -> real, x2: int -> real, t: int) {
    t >= unit.minDowntime + 1 && Off(x1, t - unit.minDowntime, t) && Off(x2, t - unit.minDowntime, t)
  }

  /** Both units have been up long enough to shut down at `t`. */
  ghost predicate BothShutReady(unit: ProductionUnit, x1: int -> real, x2: int -> real, t: int) {
    t >= unit.minUptime + 1 && On(x1, t - unit.minUptime, t) && On(x2, t - unit.minUptime, t)
  }

  /** No start-up of a unit in a window that reaches back from a period where the unit is down. */
  lemma NoStartBeforeDown(unit: ProductionUnit, maxTime: int, x: int -> real, u: int -> real, t: int, lo: int)
    requires WindowsFit(unit, maxTime) && OnOffRows(unit, maxTime, x, u)
    requires 1 <= t <= maxTime && x(t) == 0.0 && 1 <= lo && t - unit.minUptime < lo
    ensures Off(u, lo, t + 1)
  {
    forall s | lo <= s < t + 1 ensures u(s) == 0.0 {
      if u(s) == 1.0 { StartStaysUp(unit, maxTime, x, u, s, t); }
    }
  }

  /** If the first unit starts nothing in the part of the window before `t`, the row is one of the second unit. */
  lemma SplicedUptimeRow(unit: ProductionUnit, x1: int -> real, u1: int -> real,
                         x2: int -> real, u2: int -> real, t: int, k: int)
    requires UptimeRow(unit, x1, u1, k) && UptimeRow(unit, x2, u2, k) && 1 <= unit.minUptime
    requires t <= k ==> Off(u1, k - unit.minUptime + 1, t)
    requires forall s :: k - unit.minUptime < s <= k ==> Binary(u2(s))
    ensures UptimeRow(unit, Splice(x1, x2, t), Splice(u1, u2, t), k)
  {
    var lo := k - unit.minUptime + 1;
    SumOfSplice(u1, u2, t, lo, k + 1);
    if lo < t <= k {
      SumZero(u1, lo, t);
      SumSplit(u2, lo, t, k + 1);
      SumNonneg(u2, lo, t);
    }
  }

  lemma SplicedDowntimeRow(unit: ProductionUnit, x1: int -> real, u1: int -> real,
                           x2: int -> real, u2: int -> real, t: int, k: int)
    requires 1 <= unit.minDowntime < k || (unit.minDowntime == k && 1 <= k)
    requires DowntimeRow(unit, x1, u1, k) && DowntimeRow(unit, x2, u2, k)
    requires forall s :: k - unit.minDowntime < s <= k ==> Binary(u1(s)) && Binary(u2(s))
    requires k - unit.minDowntime == t - 1 && 1 < t ==> x1(t - 1) == x2(t - 1)
    requires k - unit.minDowntime < t - 1 && t <= k ==>
               || (Off(u1, k - unit.minDowntime + 1, t) && x1(k - unit.minDowntime) == 0.0
                   && (k == unit.minDowntime || Binary(x2(k - unit.minDowntime))))
               || Off(u2, t, k + 1)
    ensures DowntimeRow(unit, Splice(x1, x2, t), Splice(u1, u2, t), k)
  {
    var lo := k - unit.minDowntime + 1;
    SumOfSplice(u1, u2, t, lo, k + 1);
    if lo < t <= k {
      SumSplit(u1, lo, t, k + 1);
      SumNonneg(u1, t, k + 1);
      SumSplit(u2, lo, t, k + 1);
      SumNonneg(u2, lo, t);
      if Off(u2, t, k + 1) { SumZero(u2, t, k + 1); } else { SumZero(u1, lo, t); }
    }
  }

  lemma SpliceStartReady(unit: ProductionUnit, maxTime: int, x1: int -> real, u1: int -> real,
                         x2: int -> real, u2: int -> real, t: int)
    requires WindowsFit(unit, maxTime) && 1 <= unit.minDowntime && t <= maxTime && BothStartReady(unit, x1, x2, t)
    requires OnOffRows(unit, maxTime, x1, u1) && OnOffRows(unit, maxTime, x2, u2)
    ensures OnOffRows(unit, maxTime, Splice(x1, x2, t), Splice(u1, u2, t))
  {
    var L, l := unit.minUptime, unit.minDowntime;
    var x, u := Splice(x1, x2, t), Splice(u1, u2, t);
    forall k | L <= k <= maxTime ensures UptimeRow(unit, x, u, k) {
      if t <= k { NoStartBeforeDown(unit, maxTime, x1, u1, t - 1, k - L + 1); }
      SplicedUptimeRow(unit, x1, u1, x2, u2, t, k);
    }
    forall k | l <= k <= maxTime ensures DowntimeRow(unit, x, u, k) {
      forall s | t - l <= s < t ensures u1(s) == 0.0 {
        if u1(s) == 1.0 { StartStaysUp(unit, maxTime, x1, u1, s, s); }
      }
      assert x1(t - 1) == x2(t - 1);
      SplicedDowntimeRow(unit, x1, u1, x2, u2, t, k);
    }
    forall k | 2 <= k <= maxTime ensures StartupRow(x, u, k) {
      assert StartupRow(x1, u1, k) && StartupRow(x2, u2, k);
    }
  }

  lemma SpliceShutReady(unit: ProductionUnit, maxTime: int, x1: int -> real, u1: int -> real,
                        x2: int -> real, u2: int -> real, t: int)
    requires WindowsFit(unit, maxTime) && 1 <= unit.minDowntime < maxTime
    requires t <= maxTime && BothShutReady(unit, x1, x2, t)
    requires OnOffRows(unit, maxTime, x1, u1) && OnOffRows(unit, maxTime, x2, u2)
    ensures OnOffRows(unit, maxTime, Splice(x1, x2, t), Splice(u1, u2, t))
  {
    var L, l := unit.minUptime, unit.minDowntime;
    var x, u := Splice(x1, x2, t), Splice(u1, u2, t);
    forall k | L <= k <= maxTime ensures UptimeRow(unit, x, u, k) {
      forall s | t - L < s < t ensures u1(s) == 0.0 {
        assert x1(s - 1) == 1.0;
        if u1(s) == 1.0 { StartFromDown(unit, maxTime, x1, u1, s); }
      }
      SplicedUptimeRow(unit, x1, u1, x2, u2, t, k);
    }
    forall k | l <= k <= maxTime ensures DowntimeRow(unit, x, u, k) {
      assert x1(t - 1) == 1.0 && x2(t - 1) == 1.0;
      // a start of the second unit within l periods of t - 1 would need it down at t - 1
      forall s | t <= s <= k && s < t + l ensures k - l < t - 1 ==> u2(s) == 0.0 {
        if u2(s) == 1.0 { StartFromDown(unit, maxTime, x2, u2, s); }
      }
      SplicedDowntimeRow(unit, x1, u1, x2, u2, t, k);
    }
    forall k | 2 <= k <= maxTime ensures StartupRow(x, u, k) {
      assert StartupRow(x1, u1, k) && StartupRow(x2, u2, k);
    }
  }
}
