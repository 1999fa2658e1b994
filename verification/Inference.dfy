/** The pass before the matcher: it infers what the broker leaves out of option rows (a
    quantity of zero, which side closes) from a ledger of its own, which keeps only how much
    each book holds in each direction. */
module Inference {
  import opened Trading
  import opened Lots

  /** A fill as it arrives, with what its raw type says of expiry and assignment. */
  datatype Raw = Raw(fill: Fill, assign: bool, expiry: bool, shortExpiry: bool, short: bool, exercise: bool)

  /** What a book, or a roll's pool, holds in each direction. */
  datatype Rem = Rem(long: real, short: real) {
    function Of(d: Direction): real {
      if d.Long? then long else short
    }

    function With(d: Direction, q: real): Rem {
      if d.Long? then Rem(q, short) else Rem(long, q)
    }
  }

  const NO_REM := Rem(0.0, 0.0)

  datatype Pass = Pass(rem: map<BookKey, Rem>, pools: map<RollKey, Rem>, out: seq<Fill>) {
    function RemOf(k: BookKey): Rem {
      if k in rem then rem[k] else NO_REM
    }

    function PoolOf(r: RollKey): Rem {
      if r in pools then pools[r] else NO_REM
    }
  }

  function Opposite(d: Direction): Direction {
    if d.Long? then Short else Long
  }

  // ----- a clean quantity: one at which the price is in cents, or in hundredths of cents

  /** How far a number is from a whole one. */
  function Off(x: real): (d: real)
    ensures 0.0 <= d <= 0.5
  {
    Min(x - x.Floor as real, (x.Floor + 1) as real - x)
  }

  predicate Clean(cash: real, q: int) {
    q > 0 &&
    var px := Abs(cash) / (q as real * 100.0);
    Off(px * 100.0) < 0.000001 || Off(px * 10000.0) < 0.0001
  }

  /** The least clean quantity from `q` through `cap`, or 0. */
  function FirstClean(cash: real, q: int, cap: int): (r: int)
    ensures r == 0 || (q <= r <= cap && Clean(cash, r))
    ensures forall x :: q <= x <= cap && (r == 0 || x < r) ==> !Clean(cash, x)
    decreases cap - q
  {
    if q > cap then 0
    else if Clean(cash, q) && q > 0 then q
    else FirstClean(cash, q + 1, cap)
  }

  function RoundHalfEven(x: real): int {
    var fl := x.Floor;
    var d := x - fl as real;
    if d < 0.5 then fl else if d > 0.5 then fl + 1 else if fl % 2 == 0 then fl else fl + 1
  }

  /** A quantity for a row nothing open explains. */
  function Standalone(cash: real): (q: real)
    ensures q >= 0.0
  {
    if Abs(cash) == 0.0 then 0.0
    else
      var m := RoundHalfEven(Abs(cash));
      var cap := if m < 1 then 1 else if m > 10000 then 10000 else m;
      var q := FirstClean(cash, 1, cap);
      if q > 0 then q as real else 1.0
  }

  /** A clean part of what is open. */
  function PickFrom(cash: real, open: real): real {
    var floor := (open + 0.000000001).Floor;
    var picked := FirstClean(cash, 1, if floor < 1 then 1 else floor);
    Min(if picked > 0 then picked as real else Standalone(cash), open)
  }

  function UnitPrice(cash: real, q: real): real {
    if q > 0.0 then Abs(cash) / (q * 100.0) else 0.0
  }

  // ----- one row

  /** A later row of the same book that also states no quantity. */
  predicate Zero(f: Fill) {
    f.symbol.IsOption() && f.qty == 0.0 && Abs(f.cash) > 0.000000001
  }

  function Upcoming(raws: seq<Raw>, i: nat, key: BookKey): nat
    decreases |raws| - i
  {
    if i >= |raws| then 0
    else (if Zero(raws[i].fill) && raws[i].fill.Key() == key then 1 else 0) + Upcoming(raws, i + 1, key)
  }

  /** Which way an expiry, an assignment or a closing row goes. */
  function Resolve(r: Raw, rem: Rem, eps: real): Fill {
    var f := r.fill;
    if r.expiry || r.assign || r.exercise then
      if r.assign || r.shortExpiry then f.(side := Buy, intent := if r.assign then ToClose else Plain)
      else if r.expiry && !r.short then f.(side := Sell, intent := Plain)
      else if f.side.Buy? && rem.long > eps && rem.short <= eps then f.(side := Sell, intent := Plain)
      else if f.side.Sell? && rem.short > eps && rem.long <= eps then f.(side := Buy, intent := Plain)
      else f
    else if !f.multileg && !f.CloseOnly() then f
    else if f.side.Buy? then f.(intent := if rem.short > eps then ToClose else ToOpen)
    else f.(intent := if rem.long > eps then ToClose else ToOpen)
  }

  /** The quantity of an option row that states none. */
  function Quantified(f: Fill, rem: Rem, upcoming: nat): Fill {
    var open := rem.Of(f.Closing());
    if Abs(f.cash) > 0.000000001 then
      var q :=
        if open > 0.0 && upcoming == 0 then open
        else if open > 0.0 then PickFrom(f.cash, open)
        else Standalone(f.cash);
      f.(qty := if q > 0.0 then q else f.qty, price := UnitPrice(f.cash, q))
    else if open > 0.0 && f.CloseOnly() then f.(qty := open, price := 0.0)
    else f
  }

  /** The row as the matcher will read it, a roll aside. */
  function Read(r: Raw, rem: Rem, upcoming: nat, eps: real): Fill {
    var f1 := if r.fill.symbol.IsOption() then Resolve(r, rem, eps) else r.fill;
    var f2 := if f1.symbol.IsOption() && f1.qty == 0.0 then Quantified(f1, rem, upcoming) else f1;
    if f2.symbol.IsOption() && r.assign then f2.(price := 0.0) else f2
  }

  /** What a row does to the ledger. */
  function Posted(p: Pass, f: Fill, eps: real): Pass {
    var rem := p.RemOf(f.Key());
    if f.qty <= 0.0 then p.(rem := p.rem[f.Key() := rem], out := p.out + [f])
    else
      var c := f.Closing();
      var closed := Min(f.qty, rem.Of(c));
      var rem1 := rem.With(c, rem.Of(c) - closed);
      var left1 := f.qty - closed;
      var pool := p.PoolOf(f.Roll());
      var pooled := if left1 > eps && f.symbol.IsOption() then Min(left1, pool.Of(c)) else 0.0;
      var pools := if left1 > eps && f.symbol.IsOption() then p.pools[f.Roll() := pool.With(c, pool.Of(c) - pooled)]
                   else p.pools;
      var left := left1 - pooled;
      var rem2 := match f.Opening() case Some(d) => (if left > eps then rem1.With(d, rem1.Of(d) + left)
                                                     else rem1) case None => rem1;
      Pass(p.rem[f.Key() := rem2], pools, p.out + [f])
  }

  /** A roll closes what the contract holds, or what an earlier roll carried, and carries as
      much to the next contract. */
  function RollDirection(rem: Rem, pool: Rem, eps: real): Direction {
    if rem.short > eps then Short
    else if rem.long > eps then Long
    else if pool.short >= pool.long then Short else Long
  }

  function RollQty(f: Fill, held: real, open: real, upcoming: nat, eps: real): real {
    if f.qty != 0.0 then f.qty
    else if held > eps && upcoming == 0 then held
    else if open > eps then PickFrom(f.cash, open)
    else Standalone(f.cash)
  }

  function Rolled(p: Pass, f: Fill, upcoming: nat, eps: real): Pass {
    var rem, pool := p.RemOf(f.Key()), p.PoolOf(f.Roll());
    var d := RollDirection(rem, pool, eps);
    var q := RollQty(f, rem.Of(d), rem.Of(d) + pool.Of(d), upcoming, eps);
    var price := if f.qty == 0.0 then UnitPrice(f.cash, q) else f.price;
    var closed := Min(q, rem.Of(d));
    var left := pool.Of(d) - Min(q - closed, pool.Of(d));
    var carried := if closed > eps || q > eps then left + q else left;
    var g := f.(side := if d.Short? then Buy else Sell, intent := ToClose, qty := q, price := price, roll := Some(d));
    Pass(p.rem[f.Key() := rem.With(d, rem.Of(d) - closed)], p.pools[f.Roll() := pool.With(d, carried)], p.out + [g])
  }

  function PassStep(p: Pass, raws: seq<Raw>, i: nat, eps: real): Pass
    requires i < |raws|
  {
    var f := raws[i].fill;
    var upcoming := Upcoming(raws, i + 1, f.Key());
    if f.symbol.IsOption() && f.multileg then Rolled(p, f, upcoming, eps)
    else Posted(p, Read(raws[i], p.RemOf(f.Key()), upcoming, eps), eps)
  }

  /** The pass over the first `i` rows. */
  function Infer(raws: seq<Raw>, i: nat, eps: real): (p: Pass)
    requires i <= |raws|
    ensures |p.out| == i
  {
    if i == 0 then Pass(map[], map[], [])
    else PassStep(Infer(raws, i - 1, eps), raws, i - 1, eps)
  }

  /** The pass over the rows in place: each fill is rewritten as its turn comes. */
  method InferZeroQtyOptionFills(rows: array<Raw>, eps: real) returns (rem: map<BookKey, Rem>, pools: map<RollKey, Rem>)
    modifies rows
    ensures var p := Infer(old(rows[..]), rows.Length, eps);
            && rem == p.rem && pools == p.pools
            && forall i :: 0 <= i < rows.Length ==> rows[i] == old(rows[i]).(fill := p.out[i])
  {
    hide PassStep;
    rem, pools := map[], map[];
    var raws := rows[..];
    for i := 0 to rows.Length
      invariant Infer(raws, i, eps).rem == rem && Infer(raws, i, eps).pools == pools
      invariant forall j :: 0 <= j < i ==> rows[j] == raws[j].(fill := Infer(raws, i, eps).out[j])
      invariant forall j :: i <= j < rows.Length ==> rows[j] == raws[j]
    {
      ghost var p := Infer(raws, i, eps);
      StepAppends(p, raws, i, eps);
      StepReads(p, Pass(rem, pools, []), raws, i, eps);
      var q := PassStep(Pass(rem, pools, []), raws, i, eps);
      rem, pools := q.rem, q.pools;
      rows[i] := raws[i].(fill := q.out[0]);
    }
  }

  lemma StepAppends(p: Pass, raws: seq<Raw>, i: nat, eps: real)
    requires i < |raws|
    ensures var q := PassStep(p, raws, i, eps);
            |q.out| == |p.out| + 1 && q.out[..|p.out|] == p.out
  {
    hide Read, RollQty, RollDirection, Upcoming;
  }

  /** A row reads the ledger, not the rows already rewritten. */
  ghost predicate SameLedger(q: Pass, q': Pass, before: seq<Fill>) {
    q'.rem == q.rem && q'.pools == q.pools && |q'.out| == 1 && q.out == before + q'.out
  }

  lemma PostedReads(p: Pass, p': Pass, f: Fill, eps: real)
    requires p'.rem == p.rem && p'.pools == p.pools && p'.out == []
    ensures SameLedger(Posted(p, f, eps), Posted(p', f, eps), p.out)
  {
  }

  lemma RolledReads(p: Pass, p': Pass, f: Fill, upcoming: nat, eps: real)
    requires p'.rem == p.rem && p'.pools == p.pools && p'.out == []
    ensures SameLedger(Rolled(p, f, upcoming, eps), Rolled(p', f, upcoming, eps), p.out)
  {
    hide RollQty, RollDirection;
  }

  lemma StepReads(p: Pass, p': Pass, raws: seq<Raw>, i: nat, eps: real)
    requires i < |raws| && p'.rem == p.rem && p'.pools == p.pools && p'.out == []
    ensures SameLedger(PassStep(p, raws, i, eps), PassStep(p', raws, i, eps), p.out)
  {
    hide Read, Upcoming, Posted, Rolled;
    var f := raws[i].fill;
    var upcoming := Upcoming(raws, i + 1, f.Key());
    PostedReads(p, p', Read(raws[i], p.RemOf(f.Key()), upcoming, eps), eps);
    RolledReads(p, p', f, upcoming, eps);
  }
}
