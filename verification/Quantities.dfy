/** What the pass before the matcher makes of an option row: the quantity of one that states none, the
    side of an expiry, and what of it is open afterwards. Said of each row as it is written and of the
    ledger before and after it. */
module Quantities {
  import opened Trading
  import opened Inference

  // ----- what a quantity may be

  predicate Within(x: real, k: int, tol: real) {
    Abs(x - k as real) < tol
  }

  ghost predicate NearWhole(x: real, tol: real) {
    exists k: int :: Within(x, k, tol)
  }

  /** The price of a contract's unit, at `q` contracts for `cash`, is a whole number of cents, or of
      hundredths of cents. */
  ghost predicate Priced(cash: real, q: int) {
    q > 0
    && var px := Abs(cash) / (q as real * 100.0);
       NearWhole(px * 100.0, 0.000001) || NearWhole(px * 10000.0, 0.0001)
  }

  /** `m` is the least such quantity, and no more than `cap`. */
  ghost predicate Least(cash: real, m: int, cap: int) {
    1 <= m <= cap && Priced(cash, m) && forall q: int :: 1 <= q < m ==> !Priced(cash, q)
  }

  ghost predicate NoneTo(cash: real, cap: int) {
    forall q: int :: 1 <= q <= cap ==> !Priced(cash, q)
  }

  /** The whole number nearest to `x`, the even one of two. */
  predicate Nearest(x: real, w: int) {
    Abs(x - w as real) <= 0.5 && (Abs(x - w as real) == 0.5 ==> w % 2 == 0)
  }

  /** The quantity of a row nothing open explains: the least up to the cash in whole dollars, and to
      10000, or 1 where there is none. */
  ghost predicate Alone(cash: real, q: real) {
    if cash == 0.0 then q == 0.0
    else
      exists w: int :: Nearest(Abs(cash), w)
        && var cap := if w < 1 then 1 else if w > 10000 then 10000 else w;
           (exists m: int :: Least(cash, m, cap) && q == m as real) || (NoneTo(cash, cap) && q == 1.0)
  }

  /** The quantity of a row that closes part of what is open: the least that fits, or what it would be
      alone, and never more than is open. */
  ghost predicate PartOf(cash: real, open: real, q: real) {
    var whole := (open + 0.000000001).Floor;
    var cap := if whole < 1 then 1 else whole;
    || (exists m: int :: Least(cash, m, cap) && q == Min(m as real, open))
    || (NoneTo(cash, cap) && exists a: real :: Alone(cash, a) && q == Min(a, open))
  }

  lemma CleanIsPriced(cash: real, q: int)
    ensures Clean(cash, q) <==> Priced(cash, q)
  {
    hide Off, NearWhole;
    if q > 0 {
      var px := Abs(cash) / (q as real * 100.0);
      OffIsNear(px * 100.0, 0.000001);
      OffIsNear(px * 10000.0, 0.0001);
    }
  }

  /** How far a number is from a whole one is how near some whole one is. */
  lemma OffIsNear(x: real, tol: real)
    ensures Off(x) < tol <==> NearWhole(x, tol)
  {
    if Off(x) < tol {
      assert Within(x, x.Floor, tol) || Within(x, x.Floor + 1, tol);
    }
    forall k: int | Within(x, k, tol) ensures Off(x) < tol {
      OffIsLeast(x, k);
    }
  }

  lemma OffIsLeast(x: real, k: int)
    ensures Off(x) <= Abs(x - k as real)
  {
    assert k <= x.Floor || k >= x.Floor + 1;
    assert k as real <= x.Floor as real || k as real >= (x.Floor + 1) as real;
  }

  lemma FirstIsLeast(cash: real, cap: int)
    ensures var q := FirstClean(cash, 1, cap);
            if q > 0 then Least(cash, q, cap) else NoneTo(cash, cap)
  {
    hide Clean, Priced;
    forall q: int | 1 <= q <= cap ensures Clean(cash, q) <==> Priced(cash, q) {
      CleanIsPriced(cash, q);
    }
    var q := FirstClean(cash, 1, cap);
    if q > 0 {
      forall x: int | 1 <= x < q ensures !Priced(cash, x) {
        assert !Clean(cash, x);
      }
    } else {
      forall x: int | 1 <= x <= cap ensures !Priced(cash, x) {
        assert !Clean(cash, x);
      }
    }
  }

  lemma RoundIsNearest(x: real)
    ensures Nearest(x, RoundHalfEven(x))
  {
  }

  lemma StandaloneIsAlone(cash: real)
    ensures Alone(cash, Standalone(cash))
    ensures cash != 0.0 ==> Standalone(cash) > 0.0
  {
    hide Priced, FirstClean, RoundHalfEven, Least, NoneTo, Nearest;
    if cash != 0.0 {
      var w := RoundHalfEven(Abs(cash));
      RoundIsNearest(Abs(cash));
      var cap := if w < 1 then 1 else if w > 10000 then 10000 else w;
      FirstIsLeast(cash, cap);
      var q := FirstClean(cash, 1, cap);
      if q > 0 {
        assert Least(cash, q, cap) && Standalone(cash) == q as real;
      }
      assert Nearest(Abs(cash), w);
    }
  }

  lemma PickIsPart(cash: real, open: real)
    ensures PartOf(cash, open, PickFrom(cash, open)) && PickFrom(cash, open) <= open
  {
    hide Priced, FirstClean, Standalone, Least, NoneTo, Alone;
    var whole := (open + 0.000000001).Floor;
    var cap := if whole < 1 then 1 else whole;
    FirstIsLeast(cash, cap);
    StandaloneIsAlone(cash);
    var q := FirstClean(cash, 1, cap);
    if q > 0 {
      assert Least(cash, q, cap) && PickFrom(cash, open) == Min(q as real, open);
    } else {
      assert Alone(cash, Standalone(cash)) && PickFrom(cash, open) == Min(Standalone(cash), open);
    }
  }

  /** A row of `q` contracts at a whole number of cents is never read as more. */
  lemma NeverMore(cash: real, q: int, cents: int, cap: int, m: int)
    requires q > 0 && Abs(cash) == q as real * cents as real && Least(cash, m, cap)
    ensures Priced(cash, q) && m <= q
  {
    hide Priced;
    WholeCentsPriced(cash, q, cents);
  }

  lemma WholeCentsPriced(cash: real, q: int, cents: int)
    requires q > 0 && Abs(cash) == q as real * cents as real
    ensures Priced(cash, q)
  {
    hide NearWhole, Within;
    WholeCents(Abs(cash), q as real, cents as real);
    NearItself(cents);
  }

  lemma NearItself(k: int)
    ensures NearWhole(k as real, 0.000001)
  {
    assert Within(k as real, k, 0.000001);
  }

  lemma WholeCents(cash: real, q: real, cents: real)
    requires q > 0.0 && cash == q * cents
    ensures cash / (q * 100.0) * 100.0 == cents
  {
    var px := cash / (q * 100.0);
    assert px * (q * 100.0) == cash;
    assert q * (px * 100.0) == px * (q * 100.0);
    Cancels(q, px * 100.0, cents);
  }

  lemma Cancels(q: real, a: real, b: real)
    requires q > 0.0 && q * a == q * b
    ensures a == b
  {
    assert q * a / q == a && q * b / q == b;
  }

  // ----- a row as it is written

  /** A later row of the book states no quantity either. */
  ghost predicate LaterUnstated(raws: seq<Raw>, i: nat, key: BookKey) {
    exists j :: i < j < |raws| && Unstated(raws[j].fill) && raws[j].fill.Key() == key
  }

  /** An option's row that states cash and no quantity. */
  predicate Unstated(f: Fill) {
    f.symbol.contract.Some? && f.qty == 0.0 && Abs(f.cash) > 0.000000001
  }

  lemma {:induction false} UpcomingIs(raws: seq<Raw>, i: nat, key: BookKey)
    ensures Upcoming(raws, i, key) > 0
            <==> exists j :: i <= j < |raws| && Unstated(raws[j].fill) && raws[j].fill.Key() == key
    decreases |raws| - i
  {
    if i < |raws| {
      UpcomingIs(raws, i + 1, key);
    }
  }

  lemma LaterIs(raws: seq<Raw>, i: nat, key: BookKey)
    ensures Upcoming(raws, i + 1, key) > 0 <==> LaterUnstated(raws, i, key)
  {
    UpcomingIs(raws, i + 1, key);
  }

  /** The direction a row of the side closes. */
  function ClosedBy(side: Side): Direction {
    if side.Buy? then Short else Long
  }

  lemma Appended(raws: seq<Raw>, i: nat, eps: real)
    requires i < |raws| && !(raws[i].fill.symbol.IsOption() && raws[i].fill.multileg)
    ensures var p, q := Infer(raws, i, eps), Infer(raws, i + 1, eps);
            var f := raws[i].fill;
            var g := Read(raws[i], p.RemOf(f.Key()), Upcoming(raws, i + 1, f.Key()), eps);
            q == Posted(p, g, eps) && q.out[i] == g
  {
    hide Read, Upcoming;
  }

  lemma ReadKeeps(r: Raw, rem: Rem, upcoming: nat, eps: real)
    ensures var g := Read(r, rem, upcoming, eps);
            g.Key() == r.fill.Key() && (r.fill.symbol.IsOption() ==> g.side == Resolve(r, rem, eps).side)
  {
    hide PickFrom, Standalone, UnitPrice, Resolve;
    ResolveKeeps(r, rem, eps);
  }

  /** How the quantity of a row that states cash and no quantity is read. */
  lemma QuantityOf(r: Raw, rem: Rem, upcoming: nat, eps: real)
    requires Unstated(r.fill)
    ensures var g := Read(r, rem, upcoming, eps);
            var open := rem.Of(ClosedBy(g.side));
            && g.qty > 0.0
            && (open > 0.0 && upcoming == 0 ==> g.qty == open)
            && (open > 0.0 && upcoming > 0 ==> PartOf(r.fill.cash, open, g.qty) && g.qty <= open)
            && (open <= 0.0 ==> Alone(r.fill.cash, g.qty))
            && (r.assign ==> g.price == 0.0) && (!r.assign ==> g.price * (g.qty * 100.0) == Abs(r.fill.cash))
  {
    hide PickFrom, Standalone, PartOf, Alone;
    var cash := r.fill.cash;
    var f1 := Resolve(r, rem, eps);
    var open := rem.Of(f1.Closing());
    StandaloneIsAlone(cash);
    PickIsPart(cash, open);
    PickIsSome(cash, open);
    ResolveKeeps(r, rem, eps);
    var q := Quantified(f1, rem, upcoming).qty;
    assert q > 0.0;
    UnitPriceIs(cash, q);
  }

  lemma ResolveKeeps(r: Raw, rem: Rem, eps: real)
    ensures var f := Resolve(r, rem, eps);
            f == r.fill.(side := f.side, intent := f.intent)
  {
  }

  lemma PickIsSome(cash: real, open: real)
    ensures cash != 0.0 && open > 0.0 ==> PickFrom(cash, open) > 0.0
  {
    StandaloneIsAlone(cash);
  }

  lemma UnitPriceIs(cash: real, q: real)
    ensures q > 0.0 ==> UnitPrice(cash, q) * (q * 100.0) == Abs(cash)
    ensures q <= 0.0 ==> UnitPrice(cash, q) == 0.0
  {
  }

  /** An option row that states cash and no quantity: where the book holds what it closes and no later
      row of it states none, it is all that is open and leaves nothing; where one does, the least
      quantity that fits, and what is left stays open; where nothing is open, what it is alone. */
  lemma UnstatedIsRead(raws: seq<Raw>, i: nat, eps: real)
    requires i < |raws| && eps >= 0.0 && Unstated(raws[i].fill) && !raws[i].fill.multileg
    ensures var p, q := Infer(raws, i, eps), Infer(raws, i + 1, eps);
            var f, g := raws[i].fill, q.out[i];
            var d := ClosedBy(g.side);
            var open := p.RemOf(f.Key()).Of(d);
            && g.Key() == f.Key() && g.qty > 0.0
            && (open > 0.0 && !LaterUnstated(raws, i, f.Key()) ==> g.qty == open && q.RemOf(f.Key()).Of(d) == 0.0)
            && (open > 0.0 && LaterUnstated(raws, i, f.Key()) ==>
                  PartOf(f.cash, open, g.qty) && g.qty <= open && q.RemOf(f.Key()).Of(d) == open - g.qty)
            && (open <= 0.0 ==> Alone(f.cash, g.qty))
            && (raws[i].assign ==> g.price == 0.0)
            && (!raws[i].assign ==> g.price * (g.qty * 100.0) == Abs(f.cash))
  {
    hide Infer, Read, Upcoming, PartOf, Alone, LaterUnstated, Posted;
    var p, f := Infer(raws, i, eps), raws[i].fill;
    Appended(raws, i, eps);
    var rem, upcoming := p.RemOf(f.Key()), Upcoming(raws, i + 1, f.Key());
    ReadKeeps(raws[i], rem, upcoming, eps);
    QuantityOf(raws[i], rem, upcoming, eps);
    LaterIs(raws, i, f.Key());
    PostedLeaves(p, Read(raws[i], rem, upcoming, eps), eps);
  }

  /** What a row no larger than what is open leaves of it. */
  lemma PostedLeaves(p: Pass, f: Fill, eps: real)
    requires f.qty > 0.0 && eps >= 0.0
    ensures var d := ClosedBy(f.side);
            var open := p.RemOf(f.Key()).Of(d);
            f.qty <= open ==> Posted(p, f, eps).RemOf(f.Key()).Of(d) == open - f.qty
  {
  }

  /** What an ordinary row does to the ledger: it takes from its own book; past that, beyond the tolerance
      and of a contract, from its chain; and what is then left beyond the tolerance is open, where the
      row may open. */
  lemma OrdinaryIsPosted(raws: seq<Raw>, i: nat, eps: real)
    requires i < |raws| && !(raws[i].fill.symbol.IsOption() && raws[i].fill.multileg) && eps >= 0.0
    requires Infer(raws, i + 1, eps).out[i].qty > 0.0
    ensures var p, q := Infer(raws, i, eps), Infer(raws, i + 1, eps);
            var g := q.out[i];
            var d := ClosedBy(g.side);
            var open, chain := p.RemOf(g.Key()).Of(d), p.PoolOf(g.Roll()).Of(d);
            var own := Min(g.qty, open);
            var legs := if g.qty - own > eps && g.symbol.contract.Some? then Min(g.qty - own, chain) else 0.0;
            && q.RemOf(g.Key()).Of(d) == open - own && q.PoolOf(g.Roll()).Of(d) == chain - legs
            && q.RemOf(g.Key()).Of(Opposite(d)) == p.RemOf(g.Key()).Of(Opposite(d))
               + (if g.Opening().Some? && g.qty - own - legs > eps then g.qty - own - legs else 0.0)
  {
    hide Infer, Read, Upcoming;
    Appended(raws, i, eps);
    PostedAs(Infer(raws, i, eps), Infer(raws, i + 1, eps).out[i], eps);
  }

  lemma PostedAs(p: Pass, g: Fill, eps: real)
    requires g.qty > 0.0 && eps >= 0.0
    ensures var q := Posted(p, g, eps);
            var d := ClosedBy(g.side);
            var open, chain := p.RemOf(g.Key()).Of(d), p.PoolOf(g.Roll()).Of(d);
            var own := Min(g.qty, open);
            var legs := if g.qty - own > eps && g.symbol.contract.Some? then Min(g.qty - own, chain) else 0.0;
            && q.RemOf(g.Key()).Of(d) == open - own && q.PoolOf(g.Roll()).Of(d) == chain - legs
            && q.RemOf(g.Key()).Of(Opposite(d)) == p.RemOf(g.Key()).Of(Opposite(d))
               + (if g.Opening().Some? && g.qty - own - legs > eps then g.qty - own - legs else 0.0)
  {
    hide Min;
  }

  /** A row that states its quantity keeps it; one that states neither quantity nor cash is all that is
      open where it says that it closes, and nothing otherwise. */
  lemma StatedIsKept(raws: seq<Raw>, i: nat, eps: real)
    requires i < |raws| && !(raws[i].fill.symbol.contract.Some? && raws[i].fill.multileg) && !Unstated(raws[i].fill)
    ensures var p, q := Infer(raws, i, eps), Infer(raws, i + 1, eps);
            var f, g := raws[i].fill, q.out[i];
            var open := p.RemOf(f.Key()).Of(ClosedBy(g.side));
            && g.Key() == f.Key()
            && g.qty == if f.qty == 0.0 && f.symbol.contract.Some? && g.CloseOnly() && open > 0.0 then open else f.qty
  {
    hide Infer, Upcoming, Posted, PickFrom, Standalone;
    Appended(raws, i, eps);
    ResolveKeeps(raws[i], Infer(raws, i, eps).RemOf(raws[i].fill.Key()), eps);
  }

  // ----- which side a row is

  /** The way an option row goes. An assignment and a short's expiry buy; another expiry sells; an
      exercise closes what the book holds, where it holds it one way only; a row that says it closes
      says so where the book holds what it would close, and says that it opens where not. */
  lemma SideIsRead(raws: seq<Raw>, i: nat, eps: real)
    requires i < |raws| && raws[i].fill.symbol.contract.Some? && !raws[i].fill.multileg
    ensures var p, q := Infer(raws, i, eps), Infer(raws, i + 1, eps);
            var r, f, g := raws[i], raws[i].fill, q.out[i];
            var rem := p.RemOf(f.Key());
            && (r.assign || (r.expiry && r.shortExpiry) || (r.exercise && r.shortExpiry) ==> g.side == Buy)
            && (r.expiry && !r.assign && !r.shortExpiry && !r.short ==> g.side == Sell)
            && (r.exercise && !r.expiry && !r.assign && !r.shortExpiry ==>
                  g.side == if rem.long > eps && rem.short <= eps then Sell
                            else if rem.short > eps && rem.long <= eps then Buy else f.side)
            && (!r.expiry && !r.assign && !r.exercise ==>
                  && g.side == f.side
                  && (f.CloseOnly() ==> g.intent == if rem.Of(ClosedBy(f.side)) > eps then ToClose else ToOpen)
                  && (!f.CloseOnly() ==> g.intent == f.intent))
  {
    hide Infer, Upcoming, Posted, Read;
    Appended(raws, i, eps);
    var p, f := Infer(raws, i, eps), raws[i].fill;
    ReadResolves(raws[i], p.RemOf(f.Key()), Upcoming(raws, i + 1, f.Key()), eps);
  }

  lemma ReadResolves(r: Raw, rem: Rem, upcoming: nat, eps: real)
    requires r.fill.symbol.IsOption()
    ensures var g, f := Read(r, rem, upcoming, eps), Resolve(r, rem, eps);
            g.side == f.side && g.intent == f.intent
  {
    hide PickFrom, Standalone, UnitPrice, Resolve;
    ResolveKeeps(r, rem, eps);
  }

  // ----- a roll

  /** The direction a multileg row rolls: what its contract holds, short first, else the larger of what
      its chain carries. */
  ghost predicate RollsTo(rem: Rem, pool: Rem, eps: real, d: Direction) {
    if rem.short > eps then d == Short
    else if rem.long > eps then d == Long
    else pool.Of(d) >= pool.Of(Opposite(d)) && (pool.long == pool.short ==> d == Short)
  }

  /** The quantity of a multileg row whose contract holds `held` of what it rolls, and its chain `carried`. */
  ghost predicate RollOf(f: Fill, held: real, carried: real, later: bool, eps: real, q: real) {
    if f.qty != 0.0 then q == f.qty
    else if held > eps && !later then q == held
    else if held + carried > eps then PartOf(f.cash, held + carried, q)
    else Alone(f.cash, q)
  }

  /** A multileg row: it is written as closing the direction it rolls; one that states no quantity is all
      its contract holds where no later row of it states none, else a part of what contract and chain
      hold, else what it is alone. It takes from the contract and then the chain, and what it takes or
      opens is carried on. */
  lemma RollIsRead(raws: seq<Raw>, i: nat, eps: real)
    requires i < |raws| && raws[i].fill.symbol.contract.Some? && raws[i].fill.multileg
    ensures var p, q := Infer(raws, i, eps), Infer(raws, i + 1, eps);
            var f, g := raws[i].fill, q.out[i];
            var rem, pool := p.RemOf(f.Key()), p.PoolOf(f.Roll());
            && g.roll.Some? && g.Key() == f.Key() && g.CloseOnly()
            && var d := g.roll.value;
               && RollsTo(rem, pool, eps, d) && ClosedBy(g.side) == d
               && RollOf(f, rem.Of(d), pool.Of(d), LaterUnstated(raws, i, f.Key()), eps, g.qty)
               && (f.qty != 0.0 ==> g.price == f.price)
               && (f.qty == 0.0 && g.qty > 0.0 ==> g.price * (g.qty * 100.0) == Abs(f.cash))
               && (f.qty == 0.0 && g.qty <= 0.0 ==> g.price == 0.0)
               && var taken := Min(g.qty, rem.Of(d));
                  && q.RemOf(f.Key()).Of(d) == rem.Of(d) - taken
                  && q.PoolOf(f.Roll()).Of(d)
                     == pool.Of(d) - Min(g.qty - taken, pool.Of(d))
                        + if taken > eps || g.qty > eps then g.qty else 0.0
  {
    hide Infer, Upcoming, PartOf, Alone, LaterUnstated, Rolled, RollsTo, RollQty, RollOf, RollDirection, UnitPrice, Min;
    var p, f := Infer(raws, i, eps), raws[i].fill;
    var upcoming := Upcoming(raws, i + 1, f.Key());
    RollAppended(raws, i, eps);
    RolledAs(p, f, upcoming, eps);
    LaterIs(raws, i, f.Key());
    var rem, pool := p.RemOf(f.Key()), p.PoolOf(f.Roll());
    DirectionIs(rem, pool, eps);
    RollQtyIs(f, rem.Of(RollDirection(rem, pool, eps)), pool.Of(RollDirection(rem, pool, eps)), upcoming, eps);
    UnitPriceIs(f.cash, Infer(raws, i + 1, eps).out[i].qty);
  }

  lemma DirectionIs(rem: Rem, pool: Rem, eps: real)
    ensures RollsTo(rem, pool, eps, RollDirection(rem, pool, eps))
  {
  }

  lemma RollQtyIs(f: Fill, held: real, carried: real, upcoming: nat, eps: real)
    ensures var q := RollQty(f, held, held + carried, upcoming, eps);
            RollOf(f, held, carried, upcoming > 0, eps, q)
  {
    hide PickFrom, Standalone, PartOf, Alone;
    StandaloneIsAlone(f.cash);
    PickIsPart(f.cash, held + carried);
  }

  /** What a roll writes and posts, its direction and quantity once chosen. */
  lemma RolledAs(p: Pass, f: Fill, upcoming: nat, eps: real)
    ensures var rem, pool, q := p.RemOf(f.Key()), p.PoolOf(f.Roll()), Rolled(p, f, upcoming, eps);
            var d := RollDirection(rem, pool, eps);
            var g := q.out[|p.out|];
            var taken := Min(g.qty, rem.Of(d));
            && g == f.(side := g.side, intent := ToClose, qty := g.qty, price := g.price, roll := Some(d))
            && ClosedBy(g.side) == d
            && g.qty == RollQty(f, rem.Of(d), rem.Of(d) + pool.Of(d), upcoming, eps)
            && g.price == (if f.qty == 0.0 then UnitPrice(f.cash, g.qty) else f.price)
            && q.RemOf(f.Key()).Of(d) == rem.Of(d) - taken
            && q.PoolOf(f.Roll()).Of(d)
               == pool.Of(d) - Min(g.qty - taken, pool.Of(d)) + if taken > eps || g.qty > eps then g.qty else 0.0
  {
    hide RollQty, RollDirection, UnitPrice, Min;
  }

  lemma RollAppended(raws: seq<Raw>, i: nat, eps: real)
    requires i < |raws| && raws[i].fill.symbol.IsOption() && raws[i].fill.multileg
    ensures var p, q := Infer(raws, i, eps), Infer(raws, i + 1, eps);
            q == Rolled(p, raws[i].fill, Upcoming(raws, i + 1, raws[i].fill.Key()), eps)
  {
    hide Rolled, Upcoming;
  }
}
