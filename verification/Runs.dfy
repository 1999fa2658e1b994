/** Whole runs of the matcher: what holds after any number of fills, and once the run is
    finished. */
module Runs {
  import opened Trading
  import opened Ledger
  import opened Lots
  import opened LotsProofs
  import opened Matching
  import opened Conservation
  import opened Spending

  function Start(pending: map<SplitKey, seq<Split>>): State {
    State(map[], [], map[], [], {}, pending, [])
  }

  /** The state after the first `k` fills. */
  function Run(fills: seq<Fill>, k: nat, pending: map<SplitKey, seq<Split>>, was: Replacements, eps: real): State
    requires k <= |fills|
  {
    if k == 0 then Start(pending)
    else Step(Run(fills, k - 1, pending, was, eps), k - 1, fills[k - 1], was, eps)
  }

  /** The matcher runs over the fills that state a quantity. */
  ghost predicate Usable(fills: seq<Fill>) {
    forall i :: 0 <= i < |fills| ==> fills[i].qty > 0.0
  }

  lemma StartKeeps(fills: seq<Fill>, pending: map<SplitKey, seq<Split>>, eps: real)
    ensures Inv(Start(pending), fills, 0, eps) && Ordered(Start(pending))
  {
  }

  // ----- the books and pools are listed in the order they were met

  ghost predicate Ordered(s: State) {
    && (forall k :: k in s.books <==> k in s.order)
    && (forall r :: r in s.pools <==> r in s.poolOrder)
    && (forall i, j :: 0 <= i < j < |s.order| ==> s.order[i] != s.order[j])
    && (forall i, j :: 0 <= i < j < |s.poolOrder| ==> s.poolOrder[i] != s.poolOrder[j])
  }

  /** The same books and pools are listed. */
  ghost predicate SameLists(s: State, s': State) {
    && s'.order == s.order && s'.poolOrder == s.poolOrder
    && s'.books.Keys == s.books.Keys && s'.pools.Keys == s.pools.Keys
    && s'.rolledKeys == s.rolledKeys
  }

  lemma SameListsOrder(s: State, s': State)
    requires Ordered(s) && s'.order == s.order && s'.poolOrder == s.poolOrder
    requires s'.books.Keys == s.books.Keys && s'.pools.Keys == s.pools.Keys
    ensures Ordered(s')
  {
    assert forall k :: k in s'.books <==> k in s.books.Keys;
    assert forall r :: r in s'.pools <==> r in s.pools.Keys;
  }

  lemma PutLists(s: State, at: Shelf, lots: seq<Lot>, es: seq<Entry>)
    requires match at case Book(k) => k in s.books case Carried(r, _) => r in s.pools
    ensures SameLists(s, Put(s, at, lots, es))
  {
  }

  lemma CloseOnLists(s: State, at: Shelf, dir: Direction, n: nat, f: Fill, left: real, mode: Mode, eps: real)
    ensures SameLists(s, CloseOn(s, at, dir, n, f, left, mode, eps).s)
  {
    hide Take;
    if Takes(On(s, at), dir, left, mode, eps) {
      var t := Take(On(s, at), dir, ExitOf(n, f), n, left, mode, eps);
      PutLists(s, at, t.lots, t.entries);
    }
  }

  lemma {:induction false} CloseOlderLists(s: State, ks: seq<BookKey>, dir: Direction, n: nat, f: Fill, left: real,
      eps: real)
    ensures SameLists(s, CloseOlder(s, ks, dir, n, f, left, eps).s)
    decreases ks
  {
    hide CloseOn;
    if ks != [] {
      CloseOnLists(s, Book(ks[0]), dir, n, f, left, Older, eps);
      var g := CloseOn(s, Book(ks[0]), dir, n, f, left, Older, eps);
      CloseOlderLists(g.s, ks[1..], dir, n, f, g.left, eps);
    }
  }

  lemma CloseRolledLists(s: State, dir: Direction, n: nat, f: Fill, left: real, eps: real)
    ensures SameLists(TouchPool(s, f.Roll()), CloseRolled(s, dir, n, f, left, eps).s)
  {
    hide CloseOn, CloseOlder;
    var s0 := TouchPool(s, f.Roll());
    CloseOnLists(s0, Carried(f.Roll(), dir), dir, n, f, left, Pooled, eps);
    var g := CloseOn(s0, Carried(f.Roll(), dir), dir, n, f, left, Pooled, eps);
    CloseOlderLists(g.s, Olders(g.s.books, g.s.order, f), dir, n, f, g.left, eps);
  }

  lemma {:induction false} CloseReplacedLists(s: State, ks: seq<BookKey>, n: nat, f: Fill, left: real,
      was: Replacements, eps: real)
    ensures SameLists(s, CloseReplaced(s, ks, n, f, left, was, eps).s)
    decreases ks
  {
    hide CloseOn;
    if ks != [] && left > eps {
      var k := ks[0];
      CloseOnLists(s, Book(k), f.Closing(), n, f, left, Renamed, eps);
      var g :=
        if On(s, Book(k)) == [] || k == f.Key() || k.account != f.account || k.currency != f.currency
           || !was.Replaced(k, f.day)
        then Going(s, left)
        else CloseOn(s, Book(k), f.Closing(), n, f, left, Renamed, eps);
      CloseReplacedLists(g.s, ks[1..], n, f, g.left, was, eps);
    }
  }

  lemma TouchOrders(s: State, k: BookKey, r: RollKey)
    requires Ordered(s)
    ensures Ordered(TouchBook(s, k)) && k in TouchBook(s, k).books
    ensures Ordered(TouchPool(s, r)) && r in TouchPool(s, r).pools
    ensures TouchPool(s, r).books == s.books
  {
    TouchBookOrders(s, k);
    TouchPoolOrders(s, r);
    hide Ordered;
  }

  lemma TouchBookOrders(s: State, k: BookKey)
    requires Ordered(s)
    ensures Ordered(TouchBook(s, k)) && k in TouchBook(s, k).books
  {
  }

  lemma TouchPoolOrders(s: State, r: RollKey)
    requires Ordered(s)
    ensures Ordered(TouchPool(s, r)) && r in TouchPool(s, r).pools && TouchPool(s, r).books == s.books
  {
  }

  /** Closing lists at most the roll's pool anew. */
  ghost predicate Grows(s: State, s': State) {
    Ordered(s') && s'.books.Keys == s.books.Keys && s.pools.Keys <= s'.pools.Keys
  }

  lemma RolledGrows(s: State, n: nat, f: Fill, left: real, eps: real)
    requires Ordered(s)
    ensures Grows(s, CloseRolled(s, f.Closing(), n, f, left, eps).s)
  {
    hide CloseRolled, Ordered;
    TouchOrders(s, f.Key(), f.Roll());
    CloseRolledLists(s, f.Closing(), n, f, left, eps);
    SameListsOrder(TouchPool(s, f.Roll()), CloseRolled(s, f.Closing(), n, f, left, eps).s);
  }

  lemma CloseOrdinaryOrders(s: State, n: nat, f: Fill, was: Replacements, eps: real)
    requires Ordered(s)
    ensures Grows(s, CloseOrdinary(s, n, f, was, eps).s)
  {
    hide CloseOn, CloseRolled, CloseReplaced, Ordered;
    CloseOnLists(s, Book(f.Key()), f.Closing(), n, f, f.qty, Own, eps);
    var g1 := CloseOn(s, Book(f.Key()), f.Closing(), n, f, f.qty, Own, eps);
    SameListsOrder(s, g1.s);
    var g2 := if g1.left > eps && f.symbol.IsOption() then CloseRolled(g1.s, f.Closing(), n, f, g1.left, eps) else g1;
    if g1.left > eps && f.symbol.IsOption() {
      RolledGrows(g1.s, n, f, g1.left, eps);
    }
    CloseReplacedLists(g2.s, g2.s.order, n, f, g2.left, was, eps);
    SameListsOrder(g2.s, CloseReplaced(g2.s, g2.s.order, n, f, g2.left, was, eps).s);
  }

  lemma CloseRollOrders(s: State, n: nat, f: Fill, d: Direction, eps: real)
    requires Ordered(s)
    ensures var g := CloseRoll(s, n, f, d, eps);
            Grows(s, g.s) && f.Roll() in g.s.pools
  {
    hide CloseOn, CloseRolled, Ordered;
    var x := f.(price := RollExit(f, d));
    CloseOnLists(s, Book(f.Key()), f.Closing(), n, x, f.qty, Own, eps);
    var g := CloseOn(s, Book(f.Key()), f.Closing(), n, x, f.qty, Own, eps);
    SameListsOrder(s, g.s);
    TouchOrders(g.s, f.Key(), f.Roll());
    CloseRolledLists(g.s, d, n, x, g.left, eps);
    var g' := CloseRolled(g.s, d, n, x, g.left, eps);
    SameListsOrder(TouchPool(g.s, f.Roll()), g'.s);
    assert f.Roll() in g'.s.pools.Keys;
  }

  lemma {:induction false} SplitBookLists(s: State, k: BookKey, todo: seq<Split>, day: int)
    ensures SameLists(s, SplitBook(s, k, todo, day))
    decreases todo
  {
    hide Restate, RestateEntries;
    if todo != [] {
      var lots := On(s, Book(k));
      if todo[0].day <= day && k in s.books {
        var s' := Put(s, Book(k), Restate(lots, todo[0].factor), RestateEntries(lots, todo[0].factor));
        PutLists(s, Book(k), Restate(lots, todo[0].factor), RestateEntries(lots, todo[0].factor));
        SplitBookLists(s', k, todo[1..], day);
      } else {
        SplitBookLists(s, k, todo[1..], day);
      }
    }
  }

  lemma ApplySplitsLists(s: State, k: BookKey, day: int)
    ensures SameLists(s, ApplySplits(s, k, day))
  {
    hide SplitBook;
    var sk := SplitKeyOf(k);
    if sk in s.pending {
      SplitBookLists(s, k, SortSplits(s.pending[sk]), day);
    }
  }

  lemma OpenLists(s: State, at: Shelf, lot: Lot)
    requires Ordered(s)
    requires match at case Book(k) => k in s.books case Carried(r, _) => r in s.pools
    ensures Ordered(OpenLot(s, at, lot)) && SameLists(s, OpenLot(s, at, lot))
  {
    hide Ordered;
    PutLists(s, at, On(s, at) + [lot], [Opened(lot)]);
    SameListsOrder(s, OpenLot(s, at, lot));
  }

  lemma CarryRollOrders(g: Going, n: nat, f: Fill, d: Direction, eps: real)
    requires Ordered(g.s) && f.Roll() in g.s.pools
    ensures Grows(g.s, CarryRoll(g, n, f, d, eps))
  {
    hide RollEntry, Ordered, OpenLot;
    var moved := f.qty - g.left;
    var s := g.s.(rolledKeys := g.s.rolledKeys + {f.Roll()});
    SameListsOrder(g.s, s);
    if moved > eps {
      OpenLists(s, Carried(f.Roll(), d), CarriedLot(n, f, d, moved));
    }
  }

  lemma SettleRollOrders(g: Going, n: nat, f: Fill, d: Direction, eps: real)
    requires Ordered(g.s) && f.Roll() in g.s.pools && f.Key() in g.s.books
    ensures Ordered(SettleRoll(g, n, f, d, eps))
  {
    hide FeeShare, PerUnit, Ordered, CarryRoll, OpenLot;
    CarryRollOrders(g, n, f, d, eps);
    var s := CarryRoll(g, n, f, d, eps);
    assert f.Key() in s.books.Keys;
    OpenLists(s, Book(f.Key()), RollOpens(n, f, g.left));
    SameListsOrder(if g.left > eps then OpenLot(s, Book(f.Key()), RollOpens(n, f, g.left))
                   else s, SettleRoll(g, n, f, d, eps));
  }

  lemma SettleOrders(g: Going, n: nat, f: Fill, eps: real)
    requires Ordered(g.s) && f.Key() in g.s.books
    ensures Ordered(Settle(g, n, f, eps))
  {
    hide FeeShare, IsDust, Ordered, OpenLot;
    if g.left > eps && f.Opening().Some? {
      OpenLists(g.s, Book(f.Key()), NewLot(n, f, g.left, f.Opening().value));
    } else {
      SameListsOrder(g.s, Settle(g, n, f, eps));
    }
  }

  lemma SendOutOrders(s: State, n: nat, f: Fill, eps: real)
    requires Ordered(s)
    ensures Ordered(SendOut(s, n, f, eps))
  {
    hide CloseOn, Ordered;
    CloseOnLists(s, Book(f.Key()), Long, n, f, f.qty, Outward, eps);
    SameListsOrder(s, SendOut(s, n, f, eps));
  }

  lemma StepOrders(s: State, n: nat, f: Fill, was: Replacements, eps: real)
    requires Ordered(s)
    ensures Ordered(Step(s, n, f, was, eps))
  {
    hide ApplySplits, CloseOrdinary, CloseRoll, SendOut, Settle, SettleRoll, Ordered;
    var s0 := TouchBook(s, f.Key());
    TouchOrders(s, f.Key(), f.Roll());
    ApplySplitsLists(s0, f.Key(), f.day);
    var s1 := ApplySplits(s0, f.Key(), f.day);
    SameListsOrder(s0, s1);
    assert f.Key() in s1.books.Keys;
    if IsRoll(f) {
      CloseRollOrders(s1, n, f, f.roll.value, eps);
      var g := CloseRoll(s1, n, f, f.roll.value, eps);
      assert f.Key() in g.s.books.Keys;
      SettleRollOrders(g, n, f, f.roll.value, eps);
    } else if f.transferOut {
      SendOutOrders(s1, n, f, eps);
    } else {
      CloseOrdinaryOrders(s1, n, f, was, eps);
      var g := CloseOrdinary(s1, n, f, was, eps);
      assert f.Key() in g.s.books.Keys;
      SettleOrders(g, n, f, eps);
    }
  }

  /** After any number of fills the books and pools hold, lot by lot, what the history says. */
  lemma {:induction false} RunKeeps(fills: seq<Fill>, k: nat, pending: map<SplitKey, seq<Split>>, was: Replacements,
      eps: real)
    requires k <= |fills| && eps >= 0.0 && Usable(fills)
    ensures var s := Run(fills, k, pending, was, eps);
            Inv(s, fills, 2 * k, eps) && Ordered(s)
  {
    hide Step, Inv, Ordered;
    if k == 0 {
      StartKeeps(fills, pending, eps);
    } else {
      RunKeeps(fills, k - 1, pending, was, eps);
      StepKeeps(Run(fills, k - 1, pending, was, eps), fills, k - 1, was, eps);
      StepOrders(Run(fills, k - 1, pending, was, eps), k - 1, fills[k - 1], was, eps);
    }
  }

  /** Every fill of the run so far is spent to its last unit and cent; the others not at all. */
  lemma {:induction false} RunSpends(fills: seq<Fill>, k: nat, pending: map<SplitKey, seq<Split>>, was: Replacements,
      eps: real, i: nat)
    requires k <= |fills| && Usable(fills)
    ensures Spent(Run(fills, k, pending, was, eps).log, i) == if i < k then Due(fills[i]) else (0.0, 0.0)
  {
    hide Step, Inv, Ordered, Due;
    if k > 0 {
      RunSpends(fills, k - 1, pending, was, eps, i);
      StepSpends(Run(fills, k - 1, pending, was, eps), k - 1, fills[k - 1], was, eps);
    }
  }
}
