/** What each fill is spent on: every unit of it, and every cent of its commission. */
module Spending {
  import opened Trading
  import opened Ledger
  import opened Lots
  import opened LotsProofs
  import opened Matching

  /** From `s` to `s'` fill `n` is spent by `p` (units and commission) and no other fill is. */
  ghost predicate Spends(s: State, s': State, n: nat, p: (real, real)) {
    && Spent(s'.log, n) == (Spent(s.log, n).0 + p.0, Spent(s.log, n).1 + p.1)
    && forall i: nat :: i != n ==> Spent(s'.log, i) == Spent(s.log, i)
  }

  /** `amount` of a fill with the commission it bears. */
  function Bill(f: Fill, amount: real): (real, real) {
    (amount, FeeShare(f.commission, amount, f.qty))
  }

  lemma BillAdds(f: Fill, a: real, b: real, total: real)
    requires a + b == total
    ensures (Bill(f, a).0 + Bill(f, b).0, Bill(f, a).1 + Bill(f, b).1) == Bill(f, total)
  {
    FeeAdds(f.commission, a, b, total, f.qty);
  }

  lemma BillNothing(f: Fill)
    ensures Bill(f, 0.0) == (0.0, 0.0)
  {
  }

  lemma BillAll(f: Fill)
    requires f.qty > 0.0
    ensures Bill(f, f.qty) == (f.qty, f.commission)
  {
    FeeWhole(f.commission, f.qty);
  }

  lemma SpendsThen(s: State, s': State, s'': State, n: nat, f: Fill, a: real, b: real, total: real)
    requires Spends(s, s', n, Bill(f, a)) && Spends(s', s'', n, Bill(f, b)) && a + b == total
    ensures Spends(s, s'', n, Bill(f, total))
  {
    hide Spent, Bill;
    BillAdds(f, a, b, total);
  }

  lemma SpendsNothing(s: State, s': State, n: nat, f: Fill)
    requires s'.log == s.log
    ensures Spends(s, s', n, Bill(f, 0.0))
  {
    hide Spent;
    BillNothing(f);
  }

  lemma SpentOne(e: Entry, i: nat)
    ensures Spent([e], i) == Spent1(e, i)
  {
    assert [e][1..] == [];
  }

  lemma LogSpends(s: State, s': State, e: Entry, n: nat, p: (real, real))
    requires s'.log == s.log + [e]
    requires Spent1(e, n) == p && forall i: nat :: i != n ==> Spent1(e, i) == (0.0, 0.0)
    ensures Spends(s, s', n, p)
  {
    hide Spent1, Spent;
    forall i: nat ensures Spent(s'.log, i) == (Spent(s.log, i).0 + Spent1(e, i).0, Spent(s.log, i).1 + Spent1(e, i).1) {
      SpentAppends(s.log, [e], i);
      SpentOne(e, i);
    }
  }

  lemma CloseOnSpends(s: State, at: Shelf, dir: Direction, n: nat, f: Fill, left: real, mode: Mode, eps: real)
    ensures var g := CloseOn(s, at, dir, n, f, left, mode, eps);
            Spends(s, g.s, n, Part(ExitOf(n, f), left - g.left, mode))
  {
    hide Take, Spent, FeeShare;
    var x := ExitOf(n, f);
    PartZero(x, mode);
    if Takes(On(s, at), dir, left, mode, eps) {
      var t := Take(On(s, at), dir, x, n, left, mode, eps);
      TakeSpends(On(s, at), dir, x, n, left, mode, eps);
      var s' := Put(s, at, t.lots, t.entries);
      assert s'.log == s.log + t.entries;
      SpentAppends(s.log, t.entries, n);
      forall i: nat | i != n ensures Spent(s'.log, i) == Spent(s.log, i) {
        SpentAppends(s.log, t.entries, i);
        TakeSpendsOnly(On(s, at), dir, x, n, left, mode, eps, i);
      }
    }
  }

  lemma CloseOnBills(s: State, at: Shelf, dir: Direction, n: nat, f: Fill, left: real, mode: Mode, eps: real)
    requires !mode.Outward?
    ensures var g := CloseOn(s, at, dir, n, f, left, mode, eps);
            Spends(s, g.s, n, Bill(f, left - g.left))
  {
    hide CloseOn, Spends, FeeShare;
    CloseOnSpends(s, at, dir, n, f, left, mode, eps);
  }

  lemma {:induction false} CloseOlderBills(s: State, ks: seq<BookKey>, dir: Direction, n: nat, f: Fill, left: real,
      eps: real)
    ensures var g := CloseOlder(s, ks, dir, n, f, left, eps);
            Spends(s, g.s, n, Bill(f, left - g.left))
    decreases ks
  {
    hide CloseOn, Spends, Bill;
    if ks == [] {
      SpendsNothing(s, s, n, f);
    } else {
      CloseOnBills(s, Book(ks[0]), dir, n, f, left, Older, eps);
      var g := CloseOn(s, Book(ks[0]), dir, n, f, left, Older, eps);
      CloseOlderBills(g.s, ks[1..], dir, n, f, g.left, eps);
      var g' := CloseOlder(g.s, ks[1..], dir, n, f, g.left, eps);
      SpendsThen(s, g.s, g'.s, n, f, left - g.left, g.left - g'.left, left - g'.left);
    }
  }

  lemma CloseRolledBills(s: State, dir: Direction, n: nat, f: Fill, left: real, eps: real)
    ensures var g := CloseRolled(s, dir, n, f, left, eps);
            Spends(s, g.s, n, Bill(f, left - g.left))
  {
    hide CloseOn, CloseOlder, Spends, Bill;
    var s0 := TouchPool(s, f.Roll());
    SpendsNothing(s, s0, n, f);
    CloseOnBills(s0, Carried(f.Roll(), dir), dir, n, f, left, Pooled, eps);
    var g := CloseOn(s0, Carried(f.Roll(), dir), dir, n, f, left, Pooled, eps);
    SpendsThen(s, s0, g.s, n, f, 0.0, left - g.left, left - g.left);
    if g.left > eps && f.Roll() in g.s.rolledKeys {
      CloseOlderBills(g.s, Olders(g.s.books, g.s.order, f), dir, n, f, g.left, eps);
      var g' := CloseOlder(g.s, Olders(g.s.books, g.s.order, f), dir, n, f, g.left, eps);
      SpendsThen(s, g.s, g'.s, n, f, left - g.left, g.left - g'.left, left - g'.left);
    }
  }

  lemma {:induction false} CloseReplacedBills(s: State, ks: seq<BookKey>, n: nat, f: Fill, left: real,
      was: Replacements, eps: real)
    ensures var g := CloseReplaced(s, ks, n, f, left, was, eps);
            Spends(s, g.s, n, Bill(f, left - g.left))
    decreases ks
  {
    hide CloseOn, Spends, Bill;
    SpendsNothing(s, s, n, f);
    if ks != [] && left > eps {
      var k := ks[0];
      CloseOnBills(s, Book(k), f.Closing(), n, f, left, Renamed, eps);
      var g :=
        if On(s, Book(k)) == [] || k == f.Key() || k.account != f.account || k.currency != f.currency
           || !was.Replaced(k, f.day)
        then Going(s, left)
        else CloseOn(s, Book(k), f.Closing(), n, f, left, Renamed, eps);
      CloseReplacedBills(g.s, ks[1..], n, f, g.left, was, eps);
      var g' := CloseReplaced(g.s, ks[1..], n, f, g.left, was, eps);
      SpendsThen(s, g.s, g'.s, n, f, left - g.left, g.left - g'.left, left - g'.left);
    }
  }

  lemma CloseOrdinaryBills(s: State, n: nat, f: Fill, was: Replacements, eps: real)
    ensures var g := CloseOrdinary(s, n, f, was, eps);
            Spends(s, g.s, n, Bill(f, f.qty - g.left))
  {
    hide CloseOn, CloseRolled, CloseReplaced, Spends, Bill;
    CloseOnBills(s, Book(f.Key()), f.Closing(), n, f, f.qty, Own, eps);
    var g1 := CloseOn(s, Book(f.Key()), f.Closing(), n, f, f.qty, Own, eps);
    var g2 := if g1.left > eps && f.symbol.IsOption() then CloseRolled(g1.s, f.Closing(), n, f, g1.left, eps) else g1;
    if g1.left > eps && f.symbol.IsOption() {
      CloseRolledBills(g1.s, f.Closing(), n, f, g1.left, eps);
      SpendsThen(s, g1.s, g2.s, n, f, f.qty - g1.left, g1.left - g2.left, f.qty - g2.left);
    }
    if g2.left > eps && f.side.Sell? {
      CloseReplacedBills(g2.s, g2.s.order, n, f, g2.left, was, eps);
      var g3 := CloseReplaced(g2.s, g2.s.order, n, f, g2.left, was, eps);
      SpendsThen(s, g2.s, g3.s, n, f, f.qty - g2.left, g2.left - g3.left, f.qty - g3.left);
    }
  }

  lemma CloseRollBills(s: State, n: nat, f: Fill, d: Direction, eps: real)
    ensures var g := CloseRoll(s, n, f, d, eps);
            Spends(s, g.s, n, Bill(f, f.qty - g.left))
  {
    hide CloseOn, CloseRolled, Spends, FeeShare;
    var x := f.(price := RollExit(f, d));
    CloseOnBills(s, Book(f.Key()), f.Closing(), n, x, f.qty, Own, eps);
    var g := CloseOn(s, Book(f.Key()), f.Closing(), n, x, f.qty, Own, eps);
    CloseRolledBills(g.s, d, n, x, g.left, eps);
    var g' := CloseRolled(g.s, d, n, x, g.left, eps);
    SpendsThen(s, g.s, g'.s, n, x, f.qty - g.left, g.left - g'.left, f.qty - g'.left);
  }

  /** Splits restate lots; they spend no fill. */
  lemma {:induction false} RestateSpends(lots: seq<Lot>, factor: Ratio, i: nat)
    ensures Spent(RestateEntries(lots, factor), i) == (0.0, 0.0)
  {
    if lots != [] {
      var es := RestateEntries(lots, factor);
      assert es[0] == Restated(lots[0].id, factor) && es[1..] == RestateEntries(lots[1..], factor);
      RestateSpends(lots[1..], factor, i);
    }
  }

  lemma {:induction false} SplitBookSpends(s: State, k: BookKey, todo: seq<Split>, day: int, i: nat)
    ensures Spent(SplitBook(s, k, todo, day).log, i) == Spent(s.log, i)
    decreases todo
  {
    if todo != [] {
      var lots := On(s, Book(k));
      if todo[0].day <= day && k in s.books {
        var es := RestateEntries(lots, todo[0].factor);
        RestateSpends(lots, todo[0].factor, i);
        SpentAppends(s.log, es, i);
        SplitBookSpends(Put(s, Book(k), Restate(lots, todo[0].factor), es), k, todo[1..], day, i);
      } else {
        SplitBookSpends(s, k, todo[1..], day, i);
      }
    }
  }

  lemma ApplySplitsSpends(s: State, k: BookKey, day: int, i: nat)
    ensures Spent(ApplySplits(s, k, day).log, i) == Spent(s.log, i)
  {
    hide SplitBook, Spent;
    var sk := SplitKeyOf(k);
    if sk in s.pending {
      SplitBookSpends(s, k, SortSplits(s.pending[sk]), day, i);
    }
  }

  lemma SettleBills(g: Going, n: nat, f: Fill, eps: real)
    ensures Spends(g.s, Settle(g, n, f, eps), n, Bill(f, g.left))
  {
    hide FeeShare, IsDust, Spends;
    var fee := FeeShare(f.commission, g.left, f.qty);
    var e :=
      if g.left <= eps then Rest(n, g.left, fee)
      else match f.Opening()
        case Some(d) => Opened(NewLot(n, f, g.left, d))
        case None =>
          if f.side.Sell? && IsDust(g.left, f) then Dust(n, g.left, fee)
          else Unmatched(Orphan(n, f.side, g.left, f.price), fee);
    LogSpends(g.s, Settle(g, n, f, eps), e, n, Bill(f, g.left));
  }

  /** Carrying legs forward spends nothing more of the fill: they were closed first. */
  lemma CarryRollSpends(g: Going, n: nat, f: Fill, d: Direction, eps: real)
    ensures Spends(g.s, CarryRoll(g, n, f, d, eps), n, (0.0, 0.0))
  {
    hide Spends, RollEntry;
    var moved := f.qty - g.left;
    var s := CarryRoll(g, n, f, d, eps);
    if moved > eps {
      LogSpends(g.s, s, Opened(CarriedLot(n, f, d, moved)), n, (0.0, 0.0));
    } else {
      SpendsNothing(g.s, s, n, f);
      BillNothing(f);
    }
  }

  lemma SettleRollBills(g: Going, n: nat, f: Fill, d: Direction, eps: real)
    ensures Spends(g.s, SettleRoll(g, n, f, d, eps), n, Bill(f, g.left))
  {
    hide FeeShare, Spends, PerUnit, CarryRoll;
    var fee := FeeShare(f.commission, g.left, f.qty);
    var s2 := CarryRoll(g, n, f, d, eps);
    CarryRollSpends(g, n, f, d, eps);
    if g.left > eps {
      var s3 := OpenLot(s2, Book(f.Key()), RollOpens(n, f, g.left));
      LogSpends(s2, s3, Opened(RollOpens(n, f, g.left)), n, (g.left, 0.0));
      LogSpends(s3, Note(s3, Forgone(n, fee)), Forgone(n, fee), n, (0.0, fee));
      ThreeSpend(g.s, s2, s3, Note(s3, Forgone(n, fee)), n, (0.0, 0.0), (g.left, 0.0), (0.0, fee));
    } else {
      LogSpends(s2, Note(s2, Rest(n, g.left, fee)), Rest(n, g.left, fee), n, (g.left, fee));
      ThreeSpend(g.s, s2, s2, Note(s2, Rest(n, g.left, fee)), n, (0.0, 0.0), (0.0, 0.0), (g.left, fee));
    }
  }

  lemma ThreeSpend(s: State, s1: State, s2: State, s3: State, n: nat, p: (real, real), q: (real, real), r: (real, real))
    requires Spends(s, s1, n, p) && (Spends(s1, s2, n, q) || (s1 == s2 && q == (0.0, 0.0))) && Spends(s2, s3, n, r)
    ensures Spends(s, s3, n, (p.0 + q.0 + r.0, p.1 + q.1 + r.1))
  {
    hide Spent;
  }

  /** What a step spends of its fill: all of it. A transfer-out's commission is not a lot's. */
  function Due(f: Fill): (real, real) {
    (f.qty, if f.transferOut && !IsRoll(f) then 0.0 else f.commission)
  }

  lemma SendOutSpends(s: State, n: nat, f: Fill, eps: real)
    ensures Spends(s, SendOut(s, n, f, eps), n, (f.qty, 0.0))
  {
    hide CloseOn, FeeShare, Spends;
    CloseOnSpends(s, Book(f.Key()), Long, n, f, f.qty, Outward, eps);
    var g := CloseOn(s, Book(f.Key()), Long, n, f, f.qty, Outward, eps);
    LogSpends(g.s, SendOut(s, n, f, eps), Excess(n, g.left, 0.0), n, (g.left, 0.0));
    ThreeSpend(s, g.s, g.s, SendOut(s, n, f, eps), n, (f.qty - g.left, 0.0), (0.0, 0.0), (g.left, 0.0));
  }

  lemma StepSpends(s: State, n: nat, f: Fill, was: Replacements, eps: real)
    requires f.qty > 0.0
    ensures Spends(s, Step(s, n, f, was, eps), n, Due(f))
  {
    hide ApplySplits, CloseOrdinary, CloseRoll, SendOut, Settle, SettleRoll, Spent, Bill;
    var s0 := TouchBook(s, f.Key());
    var s1 := ApplySplits(s0, f.Key(), f.day);
    forall i: nat ensures Spent(s1.log, i) == Spent(s.log, i) {
      ApplySplitsSpends(s0, f.Key(), f.day, i);
    }
    BillAll(f);
    if IsRoll(f) {
      var g := CloseRoll(s1, n, f, f.roll.value, eps);
      CloseRollBills(s1, n, f, f.roll.value, eps);
      SettleRollBills(g, n, f, f.roll.value, eps);
      SpendsThen(s1, g.s, SettleRoll(g, n, f, f.roll.value, eps), n, f, f.qty - g.left, g.left, f.qty);
    } else if f.transferOut {
      SendOutSpends(s1, n, f, eps);
    } else {
      var g := CloseOrdinary(s1, n, f, was, eps);
      CloseOrdinaryBills(s1, n, f, was, eps);
      SettleBills(g, n, f, eps);
      SpendsThen(s1, g.s, Settle(g, n, f, eps), n, f, f.qty - g.left, g.left, f.qty);
    }
  }
}
