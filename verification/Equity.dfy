/** The account's equity over time: which day each deposit moved it, and the deepest fall of
    what was earned, deposits aside. */
module Equity {
  import opened Trading

  /** A day of the series: its date, the equity, and the net deposits so far where stated. */
  datatype Point = Point(d: string, v: real, dep: Option<real>)

  // ----- flows and the days they land on

  /** The change in deposits on day `i`, where both days state them. */
  function Change(series: seq<Point>, i: nat): Option<real>
    requires 1 <= i < |series|
  {
    if series[i].dep.Some? && series[i - 1].dep.Some? then Some(series[i].dep.value - series[i - 1].dep.value) else None
  }

  /** What is counted of it: not a change within the tolerance. */
  function Counted(series: seq<Point>, i: nat, eps: real): real
    requires 1 <= i < |series|
  {
    match Change(series, i)
    case Some(cf) => if Abs(cf) < eps then 0.0 else cf
    case None => 0.0
  }

  /** The equity shows the money only the day after: tomorrow's change is nearer to it than
      today's, and today's is under half of it. */
  predicate Late(series: seq<Point>, i: nat, cf: real)
    requires 1 <= i < |series|
  {
    && i + 1 < |series|
    && Abs(series[i].v - series[i - 1].v - cf) > Abs(series[i + 1].v - series[i].v - cf)
    && Abs(series[i].v - series[i - 1].v) < Abs(cf) * 0.5
  }

  predicate Moves(series: seq<Point>, i: nat, eps: real)
    requires 1 <= i < |series|
  {
    Change(series, i).Some? && Abs(Change(series, i).value) >= eps && Late(series, i, Change(series, i).value)
  }

  /** What lands on day `k`: its own change unless that moved on, and yesterday's if that did. */
  function FlowOn(series: seq<Point>, k: nat, eps: real): real
    requires k < |series|
  {
    (if k >= 1 && !Moves(series, k, eps) then Counted(series, k, eps) else 0.0)
    + (if k >= 2 && Moves(series, k - 1, eps) then Counted(series, k - 1, eps) else 0.0)
  }

  method PairedFlows(series: seq<Point>, eps: real) returns (flows: array<real>)
    ensures fresh(flows) && flows.Length == |series|
    ensures forall k :: 0 <= k < |series| ==> flows[k] == FlowOn(series, k, eps)
  {
    hide Late;
    var n := |series|;
    flows := new real[n](_ => 0.0);
    if n < 2 {
      return;
    }
    for i := 1 to n
      invariant forall k :: 0 <= k < i ==> flows[k] == FlowOn(series, k, eps)
      invariant i < n ==> flows[i] == if i >= 2 && Moves(series, i - 1, eps) then Counted(series, i - 1, eps) else 0.0
      invariant forall k :: i < k < n ==> flows[k] == 0.0
    {
      var change := Change(series, i);
      if change.Some? && Abs(change.value) >= eps {
        if i + 1 < n && Late(series, i, change.value) {
          flows[i + 1] := flows[i + 1] + change.value;
        } else {
          NotLate(series, i, change.value);
          flows[i] := flows[i] + change.value;
        }
      }
    }
  }

  lemma NotLate(series: seq<Point>, i: nat, cf: real)
    requires 1 <= i < |series| && !(i + 1 < |series| && Late(series, i, cf))
    ensures !Late(series, i, cf)
  {
  }

  function SumFlows(series: seq<Point>, m: nat, eps: real): real
    requires m <= |series|
  {
    if m == 0 then 0.0 else SumFlows(series, m - 1, eps) + FlowOn(series, m - 1, eps)
  }

  function SumCounted(series: seq<Point>, m: nat, eps: real): real
    requires m <= |series|
  {
    if m <= 1 then 0.0 else SumCounted(series, m - 1, eps) + Counted(series, m - 1, eps)
  }

  /** Through any day, what landed is what was counted, but for a change still to land tomorrow. */
  lemma {:induction false} FlowsLand(series: seq<Point>, m: nat, eps: real)
    requires m <= |series|
    ensures SumFlows(series, m, eps)
            == SumCounted(series, m, eps) - if m >= 2 && Moves(series, m - 1, eps) then Counted(series, m - 1, eps)
                                            else 0.0
  {
    hide Moves, Counted;
    if m > 0 {
      FlowsLand(series, m - 1, eps);
    }
  }

  /** Whatever the deposits, every counted change lands, on its own day or the next. */
  lemma EveryFlowLands(series: seq<Point>, eps: real)
    ensures SumFlows(series, |series|, eps) == SumCounted(series, |series|, eps)
  {
    hide SumFlows, SumCounted, Counted;
    FlowsLand(series, |series|, eps);
  }

  ghost predicate Stated(series: seq<Point>) {
    forall i :: 0 <= i < |series| ==> series[i].dep.Some?
  }

  lemma {:induction false} CountedTelescopes(series: seq<Point>, m: nat)
    requires 1 <= m <= |series| && Stated(series)
    ensures SumCounted(series, m, 0.0) == series[m - 1].dep.value - series[0].dep.value
  {
    if m > 1 {
      CountedTelescopes(series, m - 1);
    }
  }

  /** With every deposit stated the paired flows come to the last deposit less the first. */
  lemma FlowsSum(series: seq<Point>)
    requires series != [] && Stated(series)
    ensures SumFlows(series, |series|, 0.0) == series[|series| - 1].dep.value - series[0].dep.value
  {
    EveryFlowLands(series, 0.0);
    CountedTelescopes(series, |series|);
  }

  // ----- the deepest fall

  datatype Drawdown = Drawdown(pct: real, amount: real, at: string, peakAt: string)

  const NO_DRAWDOWN := Drawdown(0.0, 0.0, "", "")

  function MaxV(series: seq<Point>): (m: real)
    requires series != []
    ensures forall i :: 0 <= i < |series| ==> series[i].v <= m
    ensures exists i :: 0 <= i < |series| && series[i].v == m
  {
    var n := |series| - 1;
    if n == 0 then series[0].v
    else
      var m := MaxV(series[..n]);
      assert forall i :: 0 <= i < n ==> series[i] == series[..n][i];
      Max(m, series[n].v)
  }

  function Floor(series: seq<Point>): real
    requires series != []
  {
    MaxV(series) * 0.01
  }

  /** What a day multiplies the index by: its return net of the money moved. */
  function Factor(series: seq<Point>, floor: real, eps: real, i: nat): real
    requires i < |series|
  {
    if i > 0 && series[i - 1].v > floor && series[i - 1].v > 0.0
    then 1.0 + (series[i].v - series[i - 1].v - FlowOn(series, i, eps)) / series[i - 1].v
    else 1.0
  }

  /** The chain of daily returns through day `i`. */
  function Index(series: seq<Point>, floor: real, eps: real, i: nat): real
    requires i < |series|
  {
    if i == 0 then 1.0 else Index(series, floor, eps, i - 1) * Factor(series, floor, eps, i)
  }

  /** The fall from day `i` to day `j`. */
  ghost function Fall(series: seq<Point>, floor: real, eps: real, i: nat, j: nat): real
    requires i < |series| && j < |series| && Index(series, floor, eps, i) != 0.0
  {
    Index(series, floor, eps, j) / Index(series, floor, eps, i) - 1.0
  }

  /** Falling from a higher place is falling further. */
  lemma FurtherFromHigher(x: real, low: real, high: real)
    requires 0.0 < low <= high && x >= 0.0
    ensures x / high <= x / low
  {
    assert x / high * high == x && x / low * low == x;
    if x / high > x / low {
      Crossed(x / high, x / low, high, low);
    }
  }

  lemma Crossed(a: real, b: real, high: real, low: real)
    requires a > b >= 0.0 && high >= low > 0.0
    ensures a * high > b * low
  {
    assert a * high >= a * low;
    assert a * low > b * low;
  }

  /** Days the loop looks at: those whose equity clears the floor. */
  predicate Eligible(series: seq<Point>, floor: real, i: nat) {
    i < |series| && series[i].v >= floor
  }

  /** Days the loop looks at, on the earlier of which anything is left. */
  ghost predicate Pair(series: seq<Point>, floor: real, eps: real, i: nat, j: nat) {
    && i <= j < |series| && Eligible(series, floor, i) && Eligible(series, floor, j)
    && Index(series, floor, eps, i) > 0.0
  }

  /** `dd` is no higher than any fall between such days. */
  ghost predicate Deepest(series: seq<Point>, floor: real, eps: real, dd: real) {
    forall i, j :: 0 <= i && 0 <= j && Pair(series, floor, eps, i, j) ==> dd <= Fall(series, floor, eps, i, j)
  }

  // ----- falls from the highest day so far

  /** `p` is the last of the highest eligible days through `k`. */
  ghost predicate Highest(series: seq<Point>, floor: real, eps: real, p: nat, k: nat) {
    && p <= k < |series| && Eligible(series, floor, p)
    && (forall q :: 0 <= q <= k && Eligible(series, floor, q) ==>
          Index(series, floor, eps, q) <= Index(series, floor, eps, p))
    && (forall q :: p < q <= k && Eligible(series, floor, q) ==>
          Index(series, floor, eps, q) < Index(series, floor, eps, p))
  }

  /** Day `k` is one the loop looks at, and the highest through it is `p`, where anything is left. */
  ghost predicate FromPeak(series: seq<Point>, floor: real, eps: real, p: nat, k: nat) {
    && p < |series| && k < |series| && Eligible(series, floor, k)
    && Highest(series, floor, eps, p, k) && Index(series, floor, eps, p) > 0.0
  }

  /** `dd` is no higher than any fall from the highest day so far to a day before `n`. */
  ghost predicate LeastFromPeak(series: seq<Point>, floor: real, eps: real, n: nat, dd: real) {
    forall p, k :: 0 <= p && 0 <= k < n && FromPeak(series, floor, eps, p, k) ==> dd <= Fall(series, floor, eps, p, k)
  }

  /** `best` tells the fall from the highest day `p` to day `k`: how deep, what it came to, and the
      days; and the falls to the days before are all less deep. */
  ghost predicate FallIs(series: seq<Point>, floor: real, eps: real, p: nat, k: nat, best: Drawdown) {
    && FromPeak(series, floor, eps, p, k)
    && (var fall := Fall(series, floor, eps, p, k);
        best == Drawdown(fall, fall * series[p].v, series[k].d, series[p].d))
    && (forall q, l :: 0 <= q && 0 <= l < k && FromPeak(series, floor, eps, q, l) ==>
          best.pct < Fall(series, floor, eps, q, l))
  }

  /** `best` is such a fall to a day before `n`, or none. */
  ghost predicate Reached(series: seq<Point>, floor: real, eps: real, n: nat, best: Drawdown) {
    best == NO_DRAWDOWN || exists p, k :: 0 <= p && 0 <= k < n && FallIs(series, floor, eps, p, k, best)
  }

  /** Every fall to a day whose index is negative is matched by one from the highest day so far: in
      one pass, the least ratio to the highest so far is no higher than any negative index over the
      lowest positive one before it. */
  ghost predicate NegativesMatched(series: seq<Point>, floor: real, eps: real) {
    forall i, j :: 0 <= i && 0 <= j && Pair(series, floor, eps, i, j) && Index(series, floor, eps, j) < 0.0 ==>
      Matched(series, floor, eps, Fall(series, floor, eps, i, j))
  }

  ghost predicate Matched(series: seq<Point>, floor: real, eps: real, fall: real) {
    exists p, k :: 0 <= p && 0 <= k && FromPeak(series, floor, eps, p, k) && Fall(series, floor, eps, p, k) <= fall
  }

  lemma {:induction false} HighestExists(series: seq<Point>, floor: real, eps: real, i: nat, k: nat) returns (p: nat)
    requires i <= k < |series| && Eligible(series, floor, i)
    ensures Highest(series, floor, eps, p, k) && Index(series, floor, eps, p) >= Index(series, floor, eps, i)
  {
    hide Index;
    if i == k && forall q :: 0 <= q < k ==> !Eligible(series, floor, q) {
      p := k;
    } else {
      var i' :| 0 <= i' < k && Eligible(series, floor, i') && (i < k ==> i' == i);
      p := HighestExists(series, floor, eps, i', k - 1);
      if Eligible(series, floor, k) && Index(series, floor, eps, k) >= Index(series, floor, eps, p) {
        p := k;
      }
    }
  }

  /** A fall to a day whose index is not negative is no deeper than the one from the highest so far. */
  lemma FallFromHighest(series: seq<Point>, floor: real, eps: real, i: nat, j: nat, dd: real)
    requires Pair(series, floor, eps, i, j) && Index(series, floor, eps, j) >= 0.0
    requires LeastFromPeak(series, floor, eps, |series|, dd)
    ensures dd <= Fall(series, floor, eps, i, j)
  {
    hide Index, Highest;
    var p := HighestExists(series, floor, eps, i, j);
    HighestBounds(series, floor, eps, p, j);
    assert FromPeak(series, floor, eps, p, j);
    FurtherFromHigher(Index(series, floor, eps, j), Index(series, floor, eps, i), Index(series, floor, eps, p));
  }

  lemma HighestBounds(series: seq<Point>, floor: real, eps: real, p: nat, k: nat)
    requires Highest(series, floor, eps, p, k)
    ensures p <= k < |series| && Eligible(series, floor, p)
  {
  }

  /** Before day `n` the running highest is day `p`, or no eligible day's index reaches 0. */
  ghost predicate Peak(series: seq<Point>, floor: real, eps: real, n: nat, p: int, high: real)
    requires n <= |series|
  {
    if p < 0 then
      high == 0.0 && forall k :: 0 <= k < n && Eligible(series, floor, k) ==> Index(series, floor, eps, k) < 0.0
    else
      && p < n && Eligible(series, floor, p) && high == Index(series, floor, eps, p) && high >= 0.0
      && (forall k :: 0 <= k < n && Eligible(series, floor, k) ==> Index(series, floor, eps, k) <= high)
      && (forall k :: p < k < n && Eligible(series, floor, k) ==> Index(series, floor, eps, k) < high)
  }

  lemma PeakSkips(series: seq<Point>, floor: real, eps: real, n: nat, p: int, high: real)
    requires n < |series| && Peak(series, floor, eps, n, p, high) && !Eligible(series, floor, n)
    ensures Peak(series, floor, eps, n + 1, p, high)
  {
    hide Index;
  }

  lemma PeakTakes(series: seq<Point>, floor: real, eps: real, n: nat, p: int, high: real)
    requires n < |series| && Peak(series, floor, eps, n, p, high) && Eligible(series, floor, n)
    ensures var x := Index(series, floor, eps, n);
            if x >= high then Peak(series, floor, eps, n + 1, n, x) else Peak(series, floor, eps, n + 1, p, high)
  {
    hide Index;
  }

  /** The running highest is the highest there is through `n`, where that is above 0. */
  lemma PeakIsHighest(series: seq<Point>, floor: real, eps: real, n: nat, p: int, high: real, q: nat)
    requires n < |series| && Peak(series, floor, eps, n + 1, p, high) && Eligible(series, floor, n)
    ensures high > 0.0 ==> p >= 0 && FromPeak(series, floor, eps, p, n) && Index(series, floor, eps, p) == high
    ensures FromPeak(series, floor, eps, q, n) ==> p == q && high > 0.0
  {
    hide Index;
  }

  lemma LeastSkips(series: seq<Point>, floor: real, eps: real, n: nat, dd: real)
    requires !Eligible(series, floor, n) && LeastFromPeak(series, floor, eps, n, dd)
    ensures LeastFromPeak(series, floor, eps, n + 1, dd)
  {
    hide Index, Fall, Highest;
  }

  lemma LeastTakes(series: seq<Point>, floor: real, eps: real, n: nat, p: int, high: real, dd: real, dd': real)
    requires n < |series| && Peak(series, floor, eps, n + 1, p, high) && Eligible(series, floor, n)
    requires LeastFromPeak(series, floor, eps, n, dd) && dd' <= dd
    requires p >= 0 && FromPeak(series, floor, eps, p, n) ==> dd' <= Fall(series, floor, eps, p, n)
    ensures LeastFromPeak(series, floor, eps, n + 1, dd')
  {
    hide Index, Fall, Highest, Peak;
    forall q, k | 0 <= q && 0 <= k < n + 1 && FromPeak(series, floor, eps, q, k)
      ensures dd' <= Fall(series, floor, eps, q, k)
    {
      if k == n {
        PeakIsHighest(series, floor, eps, n, p, high, q);
      }
    }
  }

  lemma ReachedStays(series: seq<Point>, floor: real, eps: real, n: nat, best: Drawdown)
    requires Reached(series, floor, eps, n, best)
    ensures Reached(series, floor, eps, n + 1, best)
  {
    hide FallIs;
  }

  lemma ReachedHere(series: seq<Point>, floor: real, eps: real, n: nat, p: nat, dd: real, drop: real)
    requires FromPeak(series, floor, eps, p, n) && drop == Fall(series, floor, eps, p, n)
    requires LeastFromPeak(series, floor, eps, n, dd) && drop < dd
    ensures Reached(series, floor, eps, n + 1, Drawdown(drop, drop * series[p].v, series[n].d, series[p].d))
  {
    hide Index, Fall, Highest;
    assert FallIs(series, floor, eps, p, n, Drawdown(drop, drop * series[p].v, series[n].d, series[p].d));
  }

  lemma SameProduct(a: real, a': real, b: real, b': real)
    requires a == a' && b == b'
    ensures a * b == a' * b'
  {
  }

  // ----- the one pass

  /** The running variables: the index, the highest so far and its day, and the deepest fall. */
  datatype Pass = Pass(idx: real, peakIdx: real, peakAt: string, peakEquity: real, best: Drawdown)

  const START := Pass(1.0, 0.0, "", 0.0, NO_DRAWDOWN)

  /** The index after a day whose flow is `flow`. */
  function NextIdx(idx: real, series: seq<Point>, floor: real, i: nat, flow: real): real
    requires i < |series|
  {
    if i > 0 && series[i - 1].v > floor && series[i - 1].v > 0.0
    then idx * (1.0 + (series[i].v - series[i - 1].v - flow) / series[i - 1].v) else idx
  }

  /** A fall from the peak, as a drawdown. */
  function Dropped(idx: real, st: Pass, d: string): Drawdown
    requires st.peakIdx > 0.0
  {
    var drop := idx / st.peakIdx - 1.0;
    Drawdown(drop, drop * st.peakEquity, d, st.peakAt)
  }

  /** One day of the pass, the index then being `idx`. */
  function Day(st: Pass, p: Point, floor: real, idx: real): Pass {
    if p.v < floor then st.(idx := idx)
    else
      var st1 := if idx >= st.peakIdx then Pass(idx, idx, p.d, p.v, st.best) else st.(idx := idx);
      if st1.peakIdx > 0.0 && Dropped(idx, st1, p.d).pct < st.best.pct
      then st1.(best := Dropped(idx, st1, p.d)) else st1
  }

  function Sweep(series: seq<Point>, floor: real, eps: real, n: nat): Pass
    requires n <= |series|
  {
    if n == 0 then START
    else
      var st := Sweep(series, floor, eps, n - 1);
      Day(st, series[n - 1], floor, NextIdx(st.idx, series, floor, n - 1, FlowOn(series, n - 1, eps)))
  }

  method FindDrawdown(series: seq<Point>, eps: real) returns (best: Drawdown)
    ensures best == if series == [] then NO_DRAWDOWN else Sweep(series, Floor(series), eps, |series|).best
  {
    hide FlowOn, MaxV, Floor, NextIdx, Dropped;
    if series == [] {
      return NO_DRAWDOWN;
    }
    var floor := Floor(series);
    var flows := PairedFlows(series, eps);
    var st := START;
    for i := 0 to |series|
      invariant flows.Length == |series| && forall k :: 0 <= k < |series| ==> flows[k] == FlowOn(series, k, eps)
      invariant st == Sweep(series, floor, eps, i)
    {
      var p := series[i];
      st := st.(idx := NextIdx(st.idx, series, floor, i, flows[i]));
      if p.v >= floor {
        if st.idx >= st.peakIdx {
          st := st.(peakIdx := st.idx, peakAt := p.d, peakEquity := p.v);
        }
        if st.peakIdx > 0.0 {
          var drop := Dropped(st.idx, st, p.d);
          if drop.pct < st.best.pct {
            st := st.(best := drop);
          }
        }
      }
    }
    best := st.best;
  }

  /** What the pass knows after `n` days: the index, the last highest eligible day, and the least
      fall from the highest so far. */
  ghost predicate Knows(st: Pass, series: seq<Point>, floor: real, eps: real, n: nat, p: int)
    requires n <= |series|
  {
    && st.idx == (if n == 0 then 1.0 else Index(series, floor, eps, n - 1))
    && Peak(series, floor, eps, n, p, st.peakIdx)
    && (0 <= p < n ==> st.peakAt == series[p].d && st.peakEquity == series[p].v)
    && st.best.pct <= 0.0 && LeastFromPeak(series, floor, eps, n, st.best.pct)
    && Reached(series, floor, eps, n, st.best)
  }

  lemma DayKnows(st: Pass, series: seq<Point>, floor: real, eps: real, n: nat, p: int) returns (p': int)
    requires n < |series| && Knows(st, series, floor, eps, n, p)
    ensures Knows(Day(st, series[n], floor, Index(series, floor, eps, n)), series, floor, eps, n + 1, p')
  {
    hide Index, Fall, LeastFromPeak, Reached, Peak, Dropped, FromPeak;
    var x := Index(series, floor, eps, n);
    p' := p;
    PeakBounds(series, floor, eps, n, p, st.peakIdx);
    ReachedStays(series, floor, eps, n, st.best);
    if series[n].v < floor {
      PeakSkips(series, floor, eps, n, p, st.peakIdx);
      LeastSkips(series, floor, eps, n, st.best.pct);
    } else {
      PeakTakes(series, floor, eps, n, p, st.peakIdx);
      if x >= st.peakIdx {
        p' := n;
      }
      var st1 := if x >= st.peakIdx then Pass(x, x, series[n].d, series[n].v, st.best) else st.(idx := x);
      PeakBounds(series, floor, eps, n + 1, p', st1.peakIdx);
      TakesKnows(st1, series, floor, eps, n, p');
    }
  }

  /** The end of an eligible day, the highest taken: its fall is the deepest now or changes nothing. */
  lemma TakesKnows(st: Pass, series: seq<Point>, floor: real, eps: real, n: nat, p: int)
    requires n < |series| && Eligible(series, floor, n) && Peak(series, floor, eps, n + 1, p, st.peakIdx)
    requires st.idx == Index(series, floor, eps, n)
    requires 0 <= p <= n ==> st.peakAt == series[p].d && st.peakEquity == series[p].v
    requires LeastFromPeak(series, floor, eps, n, st.best.pct) && Reached(series, floor, eps, n + 1, st.best)
    ensures var d := if st.peakIdx > 0.0 && Dropped(st.idx, st, series[n].d).pct < st.best.pct
                     then Dropped(st.idx, st, series[n].d) else st.best;
            LeastFromPeak(series, floor, eps, n + 1, d.pct) && Reached(series, floor, eps, n + 1, d)
  {
    hide Index, Fall, LeastFromPeak, Reached, Peak, Dropped, FromPeak;
    PeakBounds(series, floor, eps, n + 1, p, st.peakIdx);
    PeakHere(series, floor, eps, n, p, st.peakIdx);
    if st.peakIdx > 0.0 {
      DroppedIs(st, series, floor, eps, n, p, st.best.pct);
      var d := Dropped(st.idx, st, series[n].d);
      LeastTakes(series, floor, eps, n, p, st.peakIdx, st.best.pct, if d.pct < st.best.pct then d.pct else st.best.pct);
    } else {
      LeastTakes(series, floor, eps, n, p, st.peakIdx, st.best.pct, st.best.pct);
    }
  }

  lemma PeakHere(series: seq<Point>, floor: real, eps: real, n: nat, p: int, high: real)
    requires n < |series| && Peak(series, floor, eps, n + 1, p, high) && Eligible(series, floor, n)
    ensures high > 0.0 ==> p >= 0 && FromPeak(series, floor, eps, p, n) && Index(series, floor, eps, p) == high
    ensures high <= 0.0 && p >= 0 ==> !FromPeak(series, floor, eps, p, n)
  {
    hide Index, Peak, FromPeak;
    PeakIsHighest(series, floor, eps, n, p, high, if p < 0 then 0 else p);
  }

  lemma DroppedIs(st: Pass, series: seq<Point>, floor: real, eps: real, n: nat, p: nat, dd: real)
    requires FromPeak(series, floor, eps, p, n) && Index(series, floor, eps, p) == st.peakIdx > 0.0
    requires p <= n < |series| && st.peakAt == series[p].d && st.peakEquity == series[p].v
    requires st.idx == Index(series, floor, eps, n) && LeastFromPeak(series, floor, eps, n, dd)
    ensures var d := Dropped(st.idx, st, series[n].d);
            d.pct == Fall(series, floor, eps, p, n) && (d.pct < dd ==> Reached(series, floor, eps, n + 1, d))
  {
    hide Index, Fall, Reached, FromPeak, LeastFromPeak;
    DropIsFall(series, floor, eps, n, p);
    var f := Fall(series, floor, eps, p, n);
    if f < dd {
      ReachedHere(series, floor, eps, n, p, dd, f);
    }
    var d := Dropped(st.idx, st, series[n].d);
    SameProduct(d.pct, f, st.peakEquity, series[p].v);
    AmountIs(st.idx, st, series[n].d);
    assert d == Drawdown(f, f * series[p].v, series[n].d, series[p].d);
  }

  /** The fall from the peak, as the loop computes it. */
  lemma DropIsFall(series: seq<Point>, floor: real, eps: real, n: nat, p: nat)
    requires n < |series| && p <= n && Index(series, floor, eps, p) > 0.0
    ensures Index(series, floor, eps, n) / Index(series, floor, eps, p) - 1.0 == Fall(series, floor, eps, p, n)
  {
    hide Index;
  }

  lemma AmountIs(idx: real, st: Pass, d: string)
    requires st.peakIdx > 0.0
    ensures Dropped(idx, st, d).amount == Dropped(idx, st, d).pct * st.peakEquity
  {
  }

  lemma NextIdxIs(series: seq<Point>, floor: real, eps: real, n: nat)
    requires n < |series|
    ensures var before := if n == 0 then 1.0 else Index(series, floor, eps, n - 1);
            NextIdx(before, series, floor, n, FlowOn(series, n, eps)) == Index(series, floor, eps, n)
  {
    hide FlowOn;
    IndexNext(series, floor, eps, n);
    IndexStarts(series, floor, eps);
  }

  lemma PeakBounds(series: seq<Point>, floor: real, eps: real, n: nat, p: int, high: real)
    requires n <= |series| && Peak(series, floor, eps, n, p, high)
    ensures p < n && (p < 0 ==> high == 0.0)
  {
  }

  lemma IndexStarts(series: seq<Point>, floor: real, eps: real)
    requires series != []
    ensures Index(series, floor, eps, 0) == 1.0 && Factor(series, floor, eps, 0) == 1.0
  {
  }

  lemma {:induction false} SweepKnows(series: seq<Point>, floor: real, eps: real, n: nat) returns (p: int)
    requires n <= |series|
    ensures Knows(Sweep(series, floor, eps, n), series, floor, eps, n, p)
  {
    hide Day, Knows, FlowOn, NextIdx, Index;
    if n == 0 {
      p := -1;
      StartKnows(series, floor, eps);
    } else {
      var q := SweepKnows(series, floor, eps, n - 1);
      KnowsIdx(Sweep(series, floor, eps, n - 1), series, floor, eps, n - 1, q);
      NextIdxIs(series, floor, eps, n - 1);
      p := DayKnows(Sweep(series, floor, eps, n - 1), series, floor, eps, n - 1, q);
    }
  }

  lemma KnowsIdx(st: Pass, series: seq<Point>, floor: real, eps: real, n: nat, p: int)
    requires n <= |series| && Knows(st, series, floor, eps, n, p)
    ensures st.idx == if n == 0 then 1.0 else Index(series, floor, eps, n - 1)
  {
    hide Index, Peak, LeastFromPeak, Reached;
  }

  lemma StartKnows(series: seq<Point>, floor: real, eps: real)
    ensures Knows(START, series, floor, eps, 0, -1)
  {
  }

  /** On every series the pass reports the least fall from the highest day so far: no other is
      deeper, and what is reported is the first that deep, from its peak's day to its own, or none
      where no day falls below the highest before. */
  lemma DrawdownIsLeast(series: seq<Point>, eps: real)
    requires series != []
    ensures var best := Sweep(series, Floor(series), eps, |series|).best;
            && best.pct <= 0.0 && LeastFromPeak(series, Floor(series), eps, |series|, best.pct)
            && Reached(series, Floor(series), eps, |series|, best)
  {
    hide Sweep, LeastFromPeak, Reached, Peak, Floor;
    var _ := SweepKnows(series, Floor(series), eps, |series|);
  }

  /** It is the deepest fall between any two days the loop looks at if and only if every fall to a
      day whose index is negative is matched by one from the highest day so far. */
  lemma DeepestIff(series: seq<Point>, eps: real)
    requires series != []
    ensures Deepest(series, Floor(series), eps, Sweep(series, Floor(series), eps, |series|).best.pct)
            <==> NegativesMatched(series, Floor(series), eps)
  {
    hide Sweep, LeastFromPeak, Reached, NegativesMatched, Deepest, Floor;
    DrawdownIsLeast(series, eps);
    var best := Sweep(series, Floor(series), eps, |series|).best;
    DeepestMatches(series, Floor(series), eps, best);
    MatchesDeepest(series, Floor(series), eps, best.pct);
  }

  lemma DeepestMatches(series: seq<Point>, floor: real, eps: real, best: Drawdown)
    requires Reached(series, floor, eps, |series|, best)
    ensures Deepest(series, floor, eps, best.pct) ==> NegativesMatched(series, floor, eps)
  {
    hide Index, Fall, FallIs;
    forall i, j | 0 <= i && 0 <= j && Pair(series, floor, eps, i, j) && Index(series, floor, eps, j) < 0.0
      && best.pct <= Fall(series, floor, eps, i, j)
      ensures Matched(series, floor, eps, Fall(series, floor, eps, i, j))
    {
      BelowNothing(series, floor, eps, i, j);
      var p, k :| 0 <= p && 0 <= k < |series| && FallIs(series, floor, eps, p, k, best);
      IsMatched(series, floor, eps, p, k, best, Fall(series, floor, eps, i, j));
    }
  }

  lemma IsMatched(series: seq<Point>, floor: real, eps: real, p: nat, k: nat, best: Drawdown, fall: real)
    requires FallIs(series, floor, eps, p, k, best) && best.pct <= fall
    ensures Matched(series, floor, eps, fall)
  {
    hide Index, Fall;
  }

  /** A fall to a negative index is by more than all there was. */
  lemma BelowNothing(series: seq<Point>, floor: real, eps: real, i: nat, j: nat)
    requires i < |series| && j < |series|
    requires Index(series, floor, eps, i) > 0.0 && Index(series, floor, eps, j) < 0.0
    ensures Fall(series, floor, eps, i, j) < 0.0
  {
    hide Index;
    var r := Index(series, floor, eps, j) / Index(series, floor, eps, i);
    assert r * Index(series, floor, eps, i) == Index(series, floor, eps, j);
  }

  lemma MatchesDeepest(series: seq<Point>, floor: real, eps: real, dd: real)
    requires LeastFromPeak(series, floor, eps, |series|, dd)
    ensures NegativesMatched(series, floor, eps) ==> Deepest(series, floor, eps, dd)
  {
    hide Index, Fall, LeastFromPeak, Matched;
    forall i, j | 0 <= i && 0 <= j && Pair(series, floor, eps, i, j)
      && (Index(series, floor, eps, j) < 0.0 ==> Matched(series, floor, eps, Fall(series, floor, eps, i, j)))
      ensures dd <= Fall(series, floor, eps, i, j)
    {
      if Index(series, floor, eps, j) < 0.0 {
        MatchedBounds(series, floor, eps, dd, Fall(series, floor, eps, i, j));
      } else {
        FallFromHighest(series, floor, eps, i, j, dd);
      }
    }
  }

  lemma MatchedBounds(series: seq<Point>, floor: real, eps: real, dd: real, fall: real)
    requires LeastFromPeak(series, floor, eps, |series|, dd) && Matched(series, floor, eps, fall)
    ensures dd <= fall
  {
    hide Index, Fall, Highest;
  }

  /** On no day is as much lost as there was, or more. */
  ghost predicate PositiveFactors(series: seq<Point>, floor: real, eps: real) {
    forall k :: 0 <= k < |series| ==> Factor(series, floor, eps, k) > 0.0
  }

  /** On no day the loop looks at has more been lost than there was. */
  ghost predicate Standing(series: seq<Point>, floor: real, eps: real) {
    forall j :: 0 <= j < |series| && Eligible(series, floor, j) ==> Index(series, floor, eps, j) >= 0.0
  }

  /** Where the index is not negative on any day the loop looks at, no fall is deeper: daily factors
      that are positive make it so. */
  lemma DrawdownIsDeepest(series: seq<Point>, eps: real)
    requires series != []
    requires PositiveFactors(series, Floor(series), eps) || Standing(series, Floor(series), eps)
    ensures Deepest(series, Floor(series), eps, Sweep(series, Floor(series), eps, |series|).best.pct)
  {
    hide Sweep, Floor, PositiveFactors, Index, Deepest, Matched;
    DeepestIff(series, eps);
    forall j | 0 <= j < |series| && PositiveFactors(series, Floor(series), eps)
      ensures Index(series, Floor(series), eps, j) > 0.0
    {
      PositiveStands(series, Floor(series), eps, j);
    }
  }

  /** Where every day's factor is positive the index is. */
  lemma {:induction false} PositiveStands(series: seq<Point>, floor: real, eps: real, i: nat)
    requires i < |series| && PositiveFactors(series, floor, eps)
    ensures Index(series, floor, eps, i) > 0.0
  {
    hide Factor;
    if i > 0 {
      PositiveStands(series, floor, eps, i - 1);
      assert Index(series, floor, eps, i - 1) > 0.0 && Factor(series, floor, eps, i) > 0.0;
    }
  }

  lemma IndexNext(series: seq<Point>, floor: real, eps: real, i: nat)
    requires i < |series|
    ensures Index(series, floor, eps, i) == (if i == 0 then 1.0
                                             else Index(series, floor, eps, i - 1) * Factor(series, floor, eps, i))
  {
    hide Factor;
  }

  // ----- where the money shows

  /** What was paid in on day `i`, where both days state it. */
  function PaidIn(series: seq<Point>, i: nat): real
    requires 1 <= i < |series|
  {
    match (series[i - 1].dep, series[i].dep)
    case (Some(before), Some(after)) => after - before
    case _ => 0.0
  }

  /** The money the equity shows on day `i`: what was paid in that day unless it shows late, and what
      was paid in the day before if that did. */
  function ShownOn(series: seq<Point>, late: set<nat>, i: nat): real
    requires 1 <= i < |series|
  {
    (if i in late then 0.0 else PaidIn(series, i)) + (if i >= 2 && i - 1 in late then PaidIn(series, i - 1) else 0.0)
  }

  /** The equity moves by the market and by what is paid in, shown in full on its own day or the next.
      No payment is nearer than the tolerance to nothing, or than twice what the market moves about
      it, and none is made the day after one that shows late. */
  ghost predicate Shows(series: seq<Point>, market: seq<real>, late: set<nat>, eps: real) {
    && |market| == |series|
    && (forall i :: 1 <= i < |series| ==>
          series[i].v - series[i - 1].v == market[i] + ShownOn(series, late, i))
    && (forall i :: 1 <= i < |series| && PaidIn(series, i) != 0.0 ==>
          && Abs(PaidIn(series, i)) >= eps && 2.0 * Abs(market[i]) < Abs(PaidIn(series, i))
          && (i in late ==> i + 1 < |series| && PaidIn(series, i + 1) == 0.0
                            && 2.0 * Abs(market[i + 1]) <= Abs(PaidIn(series, i))))
  }

  lemma MovesWhereLate(series: seq<Point>, market: seq<real>, late: set<nat>, eps: real, i: nat)
    requires 1 <= i < |series| && Shows(series, market, late, eps)
    ensures PaidIn(series, i) != 0.0 ==> (Moves(series, i, eps) <==> i in late)
    ensures PaidIn(series, i) == 0.0 ==> Counted(series, i, eps) == 0.0
    ensures Counted(series, i, eps) == PaidIn(series, i)
  {
    assert series[i].v - series[i - 1].v == market[i] + ShownOn(series, late, i);
    if i >= 2 {
      assert PaidIn(series, i - 1) != 0.0 && i - 1 in late ==> PaidIn(series, i) == 0.0;
    }
    if i + 1 < |series| {
      assert series[i + 1].v - series[i].v == market[i + 1] + ShownOn(series, late, i + 1);
    }
  }

  /** Each payment lands on the day the equity shows it. */
  lemma LandsWhereShown(series: seq<Point>, market: seq<real>, late: set<nat>, eps: real, i: nat)
    requires 1 <= i < |series| && Shows(series, market, late, eps)
    ensures FlowOn(series, i, eps) == ShownOn(series, late, i)
  {
    hide Shows, Moves, Counted, PaidIn;
    MovesWhereLate(series, market, late, eps, i);
    if i >= 2 {
      MovesWhereLate(series, market, late, eps, i - 1);
    }
  }

  /** The chain of the market's own returns, over the days the index is chained. */
  function MarketIndex(series: seq<Point>, market: seq<real>, floor: real, i: nat): real
    requires i < |series| == |market|
  {
    if i == 0 then 1.0
    else
      MarketIndex(series, market, floor, i - 1)
      * if series[i - 1].v > floor && series[i - 1].v > 0.0 then 1.0 + market[i] / series[i - 1].v else 1.0
  }

  /** So the index is what the market made of each day's equity, whenever the money came. */
  lemma {:induction false} IndexIsTheMarkets(series: seq<Point>, market: seq<real>, late: set<nat>, floor: real,
      eps: real, i: nat)
    requires i < |series| && Shows(series, market, late, eps)
    ensures Index(series, floor, eps, i) == MarketIndex(series, market, floor, i)
  {
    hide FlowOn, ShownOn, Factor;
    IndexNext(series, floor, eps, i);
    if i > 0 {
      IndexIsTheMarkets(series, market, late, floor, eps, i - 1);
      FactorIsTheMarkets(series, market, late, floor, eps, i);
    }
  }

  lemma FactorIsTheMarkets(series: seq<Point>, market: seq<real>, late: set<nat>, floor: real, eps: real, i: nat)
    requires 1 <= i < |series| && Shows(series, market, late, eps)
    ensures Factor(series, floor, eps, i)
            == if series[i - 1].v > floor && series[i - 1].v > 0.0 then 1.0 + market[i] / series[i - 1].v else 1.0
  {
    hide FlowOn, ShownOn;
    LandsWhereShown(series, market, late, eps, i);
    assert series[i].v - series[i - 1].v - FlowOn(series, i, eps) == market[i];
  }

  /** Where the market stands still there is no drawdown, whatever is paid in and drawn out. */
  lemma {:induction false} StillMarket(series: seq<Point>, market: seq<real>, late: set<nat>, floor: real, eps: real,
      n: nat)
    requires n <= |series| && Shows(series, market, late, eps) && forall i :: 0 <= i < |market| ==> market[i] == 0.0
    ensures n > 0 ==> Index(series, floor, eps, n - 1) == 1.0
    ensures var st := Sweep(series, floor, eps, n);
            st.idx == 1.0 && st.best == NO_DRAWDOWN && (st.peakIdx == 0.0 || st.peakIdx == 1.0)
  {
    hide FlowOn, Shows, NextIdx, Index;
    if n > 0 {
      StillMarket(series, market, late, floor, eps, n - 1);
      NextIdxIs(series, floor, eps, n - 1);
      StillIndex(series, market, late, floor, eps, n - 1);
    }
  }

  lemma {:induction false} StillIndex(series: seq<Point>, market: seq<real>, late: set<nat>, floor: real, eps: real,
      i: nat)
    requires i < |series| && Shows(series, market, late, eps) && forall j :: 0 <= j < |market| ==> market[j] == 0.0
    ensures Index(series, floor, eps, i) == 1.0
  {
    hide Index, FlowOn;
    IndexIsTheMarkets(series, market, late, floor, eps, i);
    StillChain(series, market, floor, i);
  }

  lemma {:induction false} StillChain(series: seq<Point>, market: seq<real>, floor: real, i: nat)
    requires i < |series| == |market| && forall j :: 0 <= j < |market| ==> market[j] == 0.0
    ensures MarketIndex(series, market, floor, i) == 1.0
  {
    if i > 0 {
      StillChain(series, market, floor, i - 1);
    }
  }

  // ----- the condition is needed

  /** A gain, and a deposit lost the day it came: the chained index turns negative. */
  function Lost(): seq<Point> {
    [Point("d0", 100.0, Some(0.0)), Point("d1", 200.0, Some(0.0)), Point("d2", 50.0, Some(100.0))]
  }

  lemma LostFloor()
    ensures Floor(Lost()) == 2.0
  {
    var m := MaxV(Lost());
    assert Lost()[1].v <= m;
    var i :| 0 <= i < 3 && Lost()[i].v == m;
  }

  lemma LostFlows()
    ensures FlowOn(Lost(), 0, 0.0) == 0.0 && FlowOn(Lost(), 1, 0.0) == 0.0
    ensures FlowOn(Lost(), 2, 0.0) == 100.0
  {
    var s := Lost();
    assert !Moves(s, 2, 0.0);
    assert Counted(s, 1, 0.0) == 0.0 && Counted(s, 2, 0.0) == 100.0;
    assert !Late(s, 1, 0.0);
    assert !Moves(s, 1, 0.0);
  }

  lemma LostIndex()
    ensures Index(Lost(), 2.0, 0.0, 0) == 1.0
    ensures Index(Lost(), 2.0, 0.0, 1) == 2.0
    ensures Index(Lost(), 2.0, 0.0, 2) == -0.5
  {
    hide FlowOn;
    LostFlows();
    assert Factor(Lost(), 2.0, 0.0, 1) == 2.0;
    assert Factor(Lost(), 2.0, 0.0, 2) == -0.25;
  }

  /** Where the index turns negative the pass can miss the deepest fall: from the highest day it
      falls by -1.25, which is reported, and from the first by -1.5. */
  lemma NegativeIndexMisses()
    ensures var s := Lost();
            && Sweep(s, Floor(s), 0.0, 3).best == Drawdown(-1.25, -250.0, "d2", "d1")
            && Index(s, Floor(s), 0.0, 0) != 0.0 && Fall(s, Floor(s), 0.0, 0, 2) == -1.5
            && !Deepest(s, Floor(s), 0.0, Sweep(s, Floor(s), 0.0, 3).best.pct)
  {
    hide FlowOn, MaxV, Floor, Index;
    var s := Lost();
    LostFloor();
    LostFlows();
    LostIndex();
    var s1 := Sweep(s, 2.0, 0.0, 1);
    assert s1 == Pass(1.0, 1.0, "d0", 100.0, NO_DRAWDOWN);
    var s2 := Sweep(s, 2.0, 0.0, 2);
    assert s2 == Pass(2.0, 2.0, "d1", 200.0, NO_DRAWDOWN);
    var s3 := Sweep(s, 2.0, 0.0, 3);
    assert s3.best == Drawdown(-1.25, -250.0, "d2", "d1");
    assert Pair(s, 2.0, 0.0, 0, 2);
  }
}
