/** What each fill leaves once it has closed what it could: the leg it carries forward, the lot it
    opens, a row nothing matches, dust, or a residue within the tolerance. */
module Leavings {
  import opened Trading
  import opened Ledger
  import opened Lots
  import opened LotsProofs
  import opened Matching
  import opened Conservation
  import opened Runs

  /** The fill an entry is left by. */
  function LeftBy(e: Entry): Option<nat> {
    match e
    case Opened(l) => Some(l.id.fill)
    case Unmatched(o, _) => Some(o.fill)
    case Dust(i, _, _) => Some(i)
    case Rest(i, _, _) => Some(i)
    case Excess(i, _, _) => Some(i)
    case Forgone(i, _) => Some(i)
    case _ => None
  }

  /** What the history says fill `i` left, in order. */
  function MarksOf(es: seq<Entry>, i: nat): seq<Entry> {
    if es == [] then [] else (if LeftBy(es[0]) == Some(i) then [es[0]] else []) + MarksOf(es[1..], i)
  }

  /** Units fill `i` sent out of the account. */
  function SentBy(es: seq<Entry>, i: nat): real {
    if es == [] then 0.0 else (if es[0].Sent? && es[0].fill == i then es[0].qty else 0.0) + SentBy(es[1..], i)
  }

  predicate SendsOut(f: Fill) {
    f.transferOut && !IsRoll(f)
  }

  /** What fill `i` leaves of `left` units it did not close: of a roll, first the leg carried
      forward, of exactly the units it closed. */
  function Leaves(i: nat, f: Fill, left: real, eps: real): seq<Entry> {
    var fee := FeeShare(f.commission, left, f.qty);
    if IsRoll(f) then
      (if f.qty - left > eps then [Opened(CarriedLot(i, f, f.roll.value, f.qty - left))] else [])
      + (if left > eps then [Opened(RollOpens(i, f, left)), Forgone(i, fee)] else [Rest(i, left, fee)])
    else if f.transferOut then [Excess(i, left, 0.0)]
    else if left <= eps then [Rest(i, left, fee)]
    else
      match f.Opening()
      case Some(d) => [Opened(NewLot(i, f, left, d))]
      case None =>
        if f.side.Sell? && IsDust(left, f) then [Dust(i, left, fee)]
        else [Unmatched(Orphan(i, f.side, left, f.price), fee)]
  }

  lemma {:induction false} MarksAppend(a: seq<Entry>, b: seq<Entry>, i: nat)
    ensures MarksOf(a + b, i) == MarksOf(a, i) + MarksOf(b, i)
  {
    hide LeftBy;
    if a == [] {
      assert a + b == b;
    } else {
      assert (a + b)[0] == a[0] && (a + b)[1..] == a[1..] + b;
      MarksAppend(a[1..], b, i);
      var head := if LeftBy(a[0]) == Some(i) then [a[0]] else [];
      assert head + (MarksOf(a[1..], i) + MarksOf(b, i)) == (head + MarksOf(a[1..], i)) + MarksOf(b, i);
    }
  }

  lemma {:induction false} SentAppends(a: seq<Entry>, b: seq<Entry>, i: nat)
    ensures SentBy(a + b, i) == SentBy(a, i) + SentBy(b, i)
  {
    if a == [] {
      assert a + b == b;
    } else {
      assert (a + b)[0] == a[0] && (a + b)[1..] == a[1..] + b;
      SentAppends(a[1..], b, i);
    }
  }

  lemma {:induction false} NoneSent(es: seq<Entry>, i: nat)
    requires forall e :: e in es && e.Sent? ==> e.fill != i
    ensures SentBy(es, i) == 0.0
  {
    if es != [] {
      assert es[0] in es;
      NoneSent(es[1..], i);
    }
  }

  lemma {:induction false} NoMarks(es: seq<Entry>, i: nat)
    requires forall e :: e in es ==> LeftBy(e) != Some(i)
    ensures MarksOf(es, i) == []
  {
    if es != [] {
      assert es[0] in es;
      NoMarks(es[1..], i);
    }
  }

  lemma {:induction false} AllMarks(es: seq<Entry>, i: nat)
    requires forall e :: e in es ==> LeftBy(e) == Some(i)
    ensures MarksOf(es, i) == es
  {
    if es != [] {
      assert es[0] in es;
      AllMarks(es[1..], i);
    }
  }

  // ----- closing and splitting leave nothing

  ghost predicate SameMarks(s: State, s': State) {
    forall i: nat :: MarksOf(s'.log, i) == MarksOf(s.log, i) && SentBy(s'.log, i) == SentBy(s.log, i)
  }

  lemma {:induction false} TakeLeavesNone(lots: seq<Lot>, dir: Direction, x: Exit, n: nat, left: real, mode: Mode,
      eps: real)
    ensures forall e :: e in Take(lots, dir, x, n, left, mode, eps).entries ==>
              LeftBy(e).None? && (e.Sent? ==> mode.Outward? && e.fill == n)
    decreases |lots|
  {
    hide MakeSlice, FeeShare;
    if Takes(lots, dir, left, mode, eps) {
      var matched := Min(lots[0].qty, left);
      if lots[0].qty - matched <= eps {
        TakeLeavesNone(lots[1..], dir, x, n, left - matched, mode, eps);
      }
    }
  }

  lemma PutMarks(s: State, at: Shelf, lots: seq<Lot>, es: seq<Entry>)
    requires forall e :: e in es ==> LeftBy(e).None? && !e.Sent?
    ensures SameMarks(s, Put(s, at, lots, es))
  {
    forall i: nat ensures MarksOf(s.log + es, i) == MarksOf(s.log, i) && SentBy(s.log + es, i) == SentBy(s.log, i) {
      MarksAppend(s.log, es, i);
      SentAppends(s.log, es, i);
      NoMarks(es, i);
      NoneSent(es, i);
    }
  }

  lemma CloseOnMarks(s: State, at: Shelf, dir: Direction, n: nat, f: Fill, left: real, mode: Mode, eps: real)
    requires !mode.Outward?
    ensures SameMarks(s, CloseOn(s, at, dir, n, f, left, mode, eps).s)
  {
    hide Take, MarksOf, SentBy;
    if Takes(On(s, at), dir, left, mode, eps) {
      var t := Take(On(s, at), dir, ExitOf(n, f), n, left, mode, eps);
      TakeLeavesNone(On(s, at), dir, ExitOf(n, f), n, left, mode, eps);
      PutMarks(s, at, t.lots, t.entries);
    }
  }

  lemma {:induction false} CloseOlderMarks(s: State, ks: seq<BookKey>, dir: Direction, n: nat, f: Fill, left: real,
      eps: real)
    ensures SameMarks(s, CloseOlder(s, ks, dir, n, f, left, eps).s)
    decreases ks
  {
    hide CloseOn, MarksOf, SentBy;
    if ks != [] {
      CloseOnMarks(s, Book(ks[0]), dir, n, f, left, Older, eps);
      var g := CloseOn(s, Book(ks[0]), dir, n, f, left, Older, eps);
      CloseOlderMarks(g.s, ks[1..], dir, n, f, g.left, eps);
    }
  }

  lemma CloseRolledMarks(s: State, dir: Direction, n: nat, f: Fill, left: real, eps: real)
    ensures SameMarks(s, CloseRolled(s, dir, n, f, left, eps).s)
  {
    hide CloseOn, CloseOlder, MarksOf, SentBy;
    var s0 := TouchPool(s, f.Roll());
    CloseOnMarks(s0, Carried(f.Roll(), dir), dir, n, f, left, Pooled, eps);
    var g := CloseOn(s0, Carried(f.Roll(), dir), dir, n, f, left, Pooled, eps);
    CloseOlderMarks(g.s, Olders(g.s.books, g.s.order, f), dir, n, f, g.left, eps);
  }

  lemma {:induction false} CloseReplacedMarks(s: State, ks: seq<BookKey>, n: nat, f: Fill, left: real,
      was: Replacements, eps: real)
    ensures SameMarks(s, CloseReplaced(s, ks, n, f, left, was, eps).s)
    decreases ks
  {
    hide CloseOn, MarksOf, SentBy;
    if ks != [] && left > eps {
      var k := ks[0];
      CloseOnMarks(s, Book(k), f.Closing(), n, f, left, Renamed, eps);
      var g :=
        if On(s, Book(k)) == [] || k == f.Key() || k.account != f.account || k.currency != f.currency
           || !was.Replaced(k, f.day)
        then Going(s, left)
        else CloseOn(s, Book(k), f.Closing(), n, f, left, Renamed, eps);
      CloseReplacedMarks(g.s, ks[1..], n, f, g.left, was, eps);
    }
  }

  lemma CloseOrdinaryMarks(s: State, n: nat, f: Fill, was: Replacements, eps: real)
    ensures SameMarks(s, CloseOrdinary(s, n, f, was, eps).s)
  {
    hide CloseOn, CloseRolled, CloseReplaced, MarksOf, SentBy;
    CloseOnMarks(s, Book(f.Key()), f.Closing(), n, f, f.qty, Own, eps);
    var g1 := CloseOn(s, Book(f.Key()), f.Closing(), n, f, f.qty, Own, eps);
    CloseRolledMarks(g1.s, f.Closing(), n, f, g1.left, eps);
    var g2 := if g1.left > eps && f.symbol.IsOption() then CloseRolled(g1.s, f.Closing(), n, f, g1.left, eps) else g1;
    CloseReplacedMarks(g2.s, g2.s.order, n, f, g2.left, was, eps);
  }

  lemma CloseRollMarks(s: State, n: nat, f: Fill, d: Direction, eps: real)
    ensures SameMarks(s, CloseRoll(s, n, f, d, eps).s)
  {
    hide CloseOn, CloseRolled, MarksOf, SentBy;
    var x := f.(price := RollExit(f, d));
    CloseOnMarks(s, Book(f.Key()), f.Closing(), n, x, f.qty, Own, eps);
    var g := CloseOn(s, Book(f.Key()), f.Closing(), n, x, f.qty, Own, eps);
    CloseRolledMarks(g.s, d, n, x, g.left, eps);
  }

  lemma {:induction false} RestateMarks(lots: seq<Lot>, factor: Ratio)
    ensures forall e :: e in RestateEntries(lots, factor) ==> LeftBy(e).None? && !e.Sent?
  {
    if lots != [] {
      RestateMarks(lots[1..], factor);
    }
  }

  lemma {:induction false} SplitBookMarks(s: State, k: BookKey, todo: seq<Split>, day: int)
    ensures SameMarks(s, SplitBook(s, k, todo, day))
    decreases todo
  {
    hide MarksOf, SentBy, Restate, RestateEntries;
    if todo != [] {
      var lots := On(s, Book(k));
      if todo[0].day <= day && k in s.books {
        var es := RestateEntries(lots, todo[0].factor);
        RestateMarks(lots, todo[0].factor);
        PutMarks(s, Book(k), Restate(lots, todo[0].factor), es);
        SplitBookMarks(Put(s, Book(k), Restate(lots, todo[0].factor), es), k, todo[1..], day);
      } else {
        SplitBookMarks(s, k, todo[1..], day);
      }
    }
  }

  lemma ApplySplitsMarks(s: State, k: BookKey, day: int)
    ensures SameMarks(s, ApplySplits(s, k, day))
  {
    hide SplitBook, MarksOf, SentBy;
    var sk := SplitKeyOf(k);
    if sk in s.pending {
      SplitBookMarks(s, k, SortSplits(s.pending[sk]), day);
    }
  }

  // ----- one fill, and a run of them

  /** From `s` to `s'` fill `n` leaves `es`, and no other fill anything; only it may have sent
      anything out, and only if it is a row that does. */
  ghost predicate Left(s: State, s': State, n: nat, es: seq<Entry>, sends: bool) {
    && MarksOf(s'.log, n) == MarksOf(s.log, n) + es
    && (forall i: nat :: i != n ==> MarksOf(s'.log, i) == MarksOf(s.log, i))
    && (forall i: nat :: i != n || !sends ==> SentBy(s'.log, i) == SentBy(s.log, i))
  }

  lemma LogLeft(s: State, s': State, n: nat, es: seq<Entry>)
    requires s'.log == s.log + es && forall e :: e in es ==> LeftBy(e) == Some(n) && !e.Sent?
    ensures Left(s, s', n, es, false)
  {
    hide MarksOf, SentBy;
    forall i: nat
      ensures MarksOf(s'.log, i) == MarksOf(s.log, i) + (if i == n then es else [])
      ensures SentBy(s'.log, i) == SentBy(s.log, i)
    {
      MarksAppend(s.log, es, i);
      SentAppends(s.log, es, i);
      NoneSent(es, i);
      if i == n { AllMarks(es, i); } else { NoMarks(es, i); }
    }
  }

  lemma SettleLeft(g: Going, n: nat, f: Fill, eps: real)
    requires !IsRoll(f) && !f.transferOut
    ensures Left(g.s, Settle(g, n, f, eps), n, Leaves(n, f, g.left, eps), false)
  {
    hide FeeShare, IsDust, MarksOf, SentBy, Left;
    LogLeft(g.s, Settle(g, n, f, eps), n, Leaves(n, f, g.left, eps));
  }

  lemma SettleRollLeft(g: Going, n: nat, f: Fill, eps: real)
    requires IsRoll(f)
    ensures Left(g.s, SettleRoll(g, n, f, f.roll.value, eps), n, Leaves(n, f, g.left, eps), false)
  {
    hide FeeShare, PerUnit, RollEntry, MarksOf, SentBy, Left;
    LogLeft(g.s, SettleRoll(g, n, f, f.roll.value, eps), n, Leaves(n, f, g.left, eps));
  }

  lemma StepLeaves(s: State, fills: seq<Fill>, n: nat, was: Replacements, eps: real) returns (left: real)
    requires n < |fills| && Inv(s, fills, 2 * n, eps) && eps >= 0.0 && fills[n].qty >= 0.0
    ensures 0.0 <= left <= fills[n].qty
    ensures Left(s, Step(s, n, fills[n], was, eps), n, Leaves(n, fills[n], left, eps), SendsOut(fills[n]))
  {
    hide Inv, ApplySplits, CloseOrdinary, CloseRoll, CloseOn, Settle, SettleRoll, Leaves, MarksOf, SentBy;
    var f := fills[n];
    var s0 := TouchBook(s, f.Key());
    SameLogKeeps(s, s0, fills, 2 * n, eps);
    ApplySplitsKeeps(s0, fills, 2 * n, f.Key(), f.day, eps);
    ApplySplitsMarks(s0, f.Key(), f.day);
    var s1 := ApplySplits(s0, f.Key(), f.day);
    if IsRoll(f) {
      var g := CloseRoll(s1, n, f, f.roll.value, eps);
      CloseRollKeeps(s1, fills, 2 * n, n, f, f.roll.value, eps);
      CloseRollMarks(s1, n, f, f.roll.value, eps);
      SettleRollLeft(g, n, f, eps);
      left := g.left;
    } else if f.transferOut {
      left := SendOutLeft(s1, fills, n, eps);
    } else {
      var g := CloseOrdinary(s1, n, f, was, eps);
      CloseOrdinaryKeeps(s1, fills, 2 * n, n, f, was, eps);
      CloseOrdinaryMarks(s1, n, f, was, eps);
      SettleLeft(g, n, f, eps);
      left := g.left;
    }
  }

  lemma SendingMarks(s: State, n: nat, f: Fill, eps: real)
    ensures Left(s, CloseOn(s, Book(f.Key()), Long, n, f, f.qty, Outward, eps).s, n, [], true)
  {
    hide Take, MarksOf, SentBy;
    var at, x := Book(f.Key()), ExitOf(n, f);
    if Takes(On(s, at), Long, f.qty, Outward, eps) {
      var t := Take(On(s, at), Long, x, n, f.qty, Outward, eps);
      TakeLeavesNone(On(s, at), Long, x, n, f.qty, Outward, eps);
      forall i: nat ensures MarksOf(s.log + t.entries, i) == MarksOf(s.log, i) {
        MarksAppend(s.log, t.entries, i);
        NoMarks(t.entries, i);
      }
      forall i: nat | i != n ensures SentBy(s.log + t.entries, i) == SentBy(s.log, i) {
        SentAppends(s.log, t.entries, i);
        NoneSent(t.entries, i);
      }
    }
  }

  lemma SendOutLeft(s: State, fills: seq<Fill>, n: nat, eps: real) returns (left: real)
    requires n < |fills| && Inv(s, fills, 2 * n, eps) && eps >= 0.0 && fills[n].qty >= 0.0
    requires !IsRoll(fills[n]) && fills[n].transferOut
    ensures 0.0 <= left <= fills[n].qty
    ensures Left(s, SendOut(s, n, fills[n], eps), n, Leaves(n, fills[n], left, eps), SendsOut(fills[n]))
  {
    hide Inv, CloseOn, MarksOf;
    var f := fills[n];
    var g := CloseOn(s, Book(f.Key()), Long, n, f, f.qty, Outward, eps);
    CloseOnKeeps(s, fills, 2 * n, Book(f.Key()), Long, n, f, f.qty, Outward, eps);
    SendingMarks(s, n, f, eps);
    LogLeft(g.s, SendOut(s, n, f, eps), n, Leaves(n, f, g.left, eps));
    left := g.left;
  }

  // ----- and it leaves nothing it could have closed

  lemma CloseOnStops(s: State, at: Shelf, dir: Direction, n: nat, f: Fill, left: real, mode: Mode, eps: real)
    requires Positive(On(s, at)) && eps >= 0.0 && left >= 0.0
    ensures var g := CloseOn(s, at, dir, n, f, left, mode, eps);
            !Takes(On(g.s, at), dir, g.left, mode, eps)
            && forall other :: other != at ==> On(g.s, other) == On(s, other)
  {
    hide Take;
    if Takes(On(s, at), dir, left, mode, eps) {
      TakeLeaves(On(s, at), dir, ExitOf(n, f), n, left, mode, eps);
    }
  }

  lemma CloseOnElsewhere(s: State, at: Shelf, dir: Direction, n: nat, f: Fill, left: real, mode: Mode, eps: real,
      other: Shelf)
    requires other != at
    ensures On(CloseOn(s, at, dir, n, f, left, mode, eps).s, other) == On(s, other)
  {
  }

  lemma {:induction false} OldersAreOthers(books: map<BookKey, seq<Lot>>, order: seq<BookKey>, f: Fill)
    ensures f.Key() !in Olders(books, order, f)
  {
    if order != [] {
      OldersAreOthers(books, order[..|order| - 1], f);
      InsertsOne(order[|order| - 1], Olders(books, order[..|order| - 1], f), f.Key());
    }
  }

  lemma {:induction false} InsertsOne(k: BookKey, ks: seq<BookKey>, x: BookKey)
    ensures x in Insert(k, ks) <==> x == k || x in ks
  {
    if ks != [] && Before(ks[0], k) {
      InsertsOne(k, ks[1..], x);
    }
  }

  lemma {:induction false} CloseOlderElsewhere(s: State, ks: seq<BookKey>, dir: Direction, n: nat, f: Fill,
      left: real, eps: real, other: Shelf)
    requires other.Carried? || other.key !in ks
    ensures On(CloseOlder(s, ks, dir, n, f, left, eps).s, other) == On(s, other)
    decreases ks
  {
    hide CloseOn;
    if ks != [] {
      CloseOnElsewhere(s, Book(ks[0]), dir, n, f, left, Older, eps, other);
      var g := CloseOn(s, Book(ks[0]), dir, n, f, left, Older, eps);
      CloseOlderElsewhere(g.s, ks[1..], dir, n, f, g.left, eps, other);
    }
  }

  lemma {:induction false} CloseReplacedElsewhere(s: State, ks: seq<BookKey>, n: nat, f: Fill, left: real,
      was: Replacements, eps: real, other: Shelf)
    requires other.Carried? || other.key == f.Key()
    ensures On(CloseReplaced(s, ks, n, f, left, was, eps).s, other) == On(s, other)
    decreases ks
  {
    hide CloseOn;
    if ks != [] && left > eps {
      var k := ks[0];
      if k != f.Key() {
        CloseOnElsewhere(s, Book(k), f.Closing(), n, f, left, Renamed, eps, other);
      }
      var g :=
        if On(s, Book(k)) == [] || k == f.Key() || k.account != f.account || k.currency != f.currency
           || !was.Replaced(k, f.day)
        then Going(s, left)
        else CloseOn(s, Book(k), f.Closing(), n, f, left, Renamed, eps);
      CloseReplacedElsewhere(g.s, ks[1..], n, f, g.left, was, eps, other);
    }
  }

  lemma CloseRolledStops(s: State, fills: seq<Fill>, bound: nat, dir: Direction, n: nat, f: Fill, left: real, eps: real)
    requires Inv(s, fills, bound, eps) && eps >= 0.0 && left >= 0.0
    ensures var g := CloseRolled(s, dir, n, f, left, eps);
            && On(g.s, Book(f.Key())) == On(s, Book(f.Key()))
            && (g.left > eps ==> On(g.s, Carried(f.Roll(), dir)) == [])
  {
    hide CloseOn, CloseOlder, Olders, Told, Lossless;
    var s0, at := TouchPool(s, f.Roll()), Carried(f.Roll(), dir);
    assert On(s0, at) == On(s, at) && On(s0, Book(f.Key())) == On(s, Book(f.Key()));
    CloseOnStops(s0, at, dir, n, f, left, Pooled, eps);
    var g := CloseOn(s0, at, dir, n, f, left, Pooled, eps);
    CloseOnElsewhere(s0, at, dir, n, f, left, Pooled, eps, Book(f.Key()));
    var ks := Olders(g.s.books, g.s.order, f);
    OldersAreOthers(g.s.books, g.s.order, f);
    CloseOlderElsewhere(g.s, ks, dir, n, f, g.left, eps, at);
    CloseOlderElsewhere(g.s, ks, dir, n, f, g.left, eps, Book(f.Key()));
  }

  /** An ordinary fill has something left beyond the tolerance only where its own book offers it
      nothing more to close, and, of a contract, no roll carried a leg for it. */
  lemma ClosesAllItCan(s: State, fills: seq<Fill>, bound: nat, n: nat, f: Fill, was: Replacements, eps: real)
    requires Inv(s, fills, bound, eps) && eps >= 0.0 && f.qty >= 0.0
    ensures var g := CloseOrdinary(s, n, f, was, eps);
            g.left > eps ==>
              && !Takes(On(g.s, Book(f.Key())), f.Closing(), g.left, Own, eps)
              && (f.symbol.IsOption() ==> On(g.s, Carried(f.Roll(), f.Closing())) == [])
  {
    hide CloseOn, CloseRolled, CloseReplaced, Told, Lossless;
    var own, leg, dir := Book(f.Key()), Carried(f.Roll(), f.Closing()), f.Closing();
    CloseOnKeeps(s, fills, bound, own, dir, n, f, f.qty, Own, eps);
    CloseOnStops(s, own, dir, n, f, f.qty, Own, eps);
    var g1 := CloseOn(s, own, dir, n, f, f.qty, Own, eps);
    CloseRolledKeeps(g1.s, fills, bound, dir, n, f, g1.left, eps);
    CloseRolledStops(g1.s, fills, bound, dir, n, f, g1.left, eps);
    var g2 := if g1.left > eps && f.symbol.IsOption() then CloseRolled(g1.s, dir, n, f, g1.left, eps) else g1;
    CloseReplacedKeeps(g2.s, fills, bound, g2.s.order, n, f, g2.left, was, eps);
    CloseReplacedElsewhere(g2.s, g2.s.order, n, f, g2.left, was, eps, own);
    CloseReplacedElsewhere(g2.s, g2.s.order, n, f, g2.left, was, eps, leg);
  }

  // ----- over a run

  /** After any number of fills, each taken has left exactly what such a fill leaves of some part of
      it, no more and no less; those to come, nothing. */
  lemma {:induction false} RunLeaves(fills: seq<Fill>, k: nat, pending: map<SplitKey, seq<Split>>, was: Replacements,
      eps: real, i: nat)
    returns (left: real)
    requires k <= |fills| && eps >= 0.0 && Usable(fills)
    ensures i < k ==>
              0.0 <= left <= fills[i].qty
              && MarksOf(Run(fills, k, pending, was, eps).log, i) == Leaves(i, fills[i], left, eps)
    ensures i >= k ==> MarksOf(Run(fills, k, pending, was, eps).log, i) == []
    ensures i >= k || !SendsOut(fills[i]) ==> SentBy(Run(fills, k, pending, was, eps).log, i) == 0.0
  {
    hide Step, Inv, Ordered, Leaves, MarksOf, SentBy;
    left := 0.0;
    if k == 0 {
      NoMarks([], i);
      NoneSent([], i);
    } else {
      left := RunLeaves(fills, k - 1, pending, was, eps, i);
      RunKeeps(fills, k - 1, pending, was, eps);
      var last := StepLeaves(Run(fills, k - 1, pending, was, eps), fills, k - 1, was, eps);
      if i == k - 1 {
        left := last;
      }
    }
  }
}
