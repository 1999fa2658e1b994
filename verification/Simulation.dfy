/** The two passes agree. The inference pass keeps only totals; the matcher keeps lots. After
    every row the totals of each book and of each roll's pool are what the matcher's lots come to,
    and no book holds lots of both directions, exactly as long as every roll is covered by what its
    contract and its chain hold, and no buy-back reaches a chain's older contracts. */
module Simulation {
  import opened Trading
  import opened Ledger
  import opened Lots
  import opened LotsProofs
  import opened Matching
  import opened Runs
  import opened Fees
  import opened Inference
  import Leavings

  /** All lots of a book in one direction. */
  ghost predicate OneWay(lots: seq<Lot>, d: Direction) {
    forall i :: 0 <= i < |lots| ==> lots[i].direction == d
  }

  ghost predicate Uniform(lots: seq<Lot>) {
    OneWay(lots, Long) || OneWay(lots, Short)
  }

  /** What the inference pass counts on a shelf in a direction. */
  function Tally(p: Pass, at: Shelf, d: Direction): real {
    match at
    case Book(k) => p.RemOf(k).Of(d)
    case Carried(r, leg) => if d == leg then p.PoolOf(r).Of(d) else 0.0
  }

  /** The totals are what the shelf holds, all of it in one direction: of carried legs, their own. */
  ghost predicate ShelfAgrees(p: Pass, lots: seq<Lot>, at: Shelf) {
    && Positive(lots) && (forall d :: Tally(p, at, d) == OpenQty(lots, d))
    && (match at case Book(_) => Uniform(lots) case Carried(_, leg) => OneWay(lots, leg))
  }

  /** On every shelf. */
  ghost predicate Agree(p: Pass, s: State) {
    s.pending == map[] && forall at :: ShelfAgrees(p, On(s, at), at)
  }

  ghost predicate SameTally(p: Pass, q: Pass) {
    forall at, d :: Tally(p, at, d) == Tally(q, at, d)
  }

  lemma AgreesSame(p: Pass, q: Pass, s: State)
    requires Agree(p, s) && SameTally(p, q)
    ensures Agree(q, s)
  {
    hide OpenQty, Positive;
    forall at ensures ShelfAgrees(q, On(s, at), at) {
      assert ShelfAgrees(p, On(s, at), at);
    }
  }

  // ----- one queue

  lemma {:induction false} OneWayQty(lots: seq<Lot>, d: Direction)
    requires OneWay(lots, d) && Positive(lots)
    ensures OpenQty(lots, Opposite(d)) == 0.0 && OpenQty(lots, d) >= 0.0 && (OpenQty(lots, d) == 0.0 ==> lots == [])
  {
    if lots != [] {
      OneWayQty(lots[1..], d);
    }
  }

  /** A book of the closing direction gives what it has, up to what is asked. */
  lemma {:induction false} TakeTotals(lots: seq<Lot>, d: Direction, x: Exit, n: nat, left: real, mode: Mode)
    requires OneWay(lots, d) && Positive(lots) && left >= 0.0
    ensures var t := Take(lots, d, x, n, left, mode, 0.0);
            var m := Min(left, OpenQty(lots, d));
            && OpenQty(t.lots, d) == OpenQty(lots, d) - m && t.left == left - m
            && OneWay(t.lots, d) && Positive(t.lots)
    decreases |lots|
  {
    hide MatchEntries;
    OneWayQty(lots, d);
    if Takes(lots, d, left, mode, 0.0) {
      var m := Min(lots[0].qty, left);
      OneWayQty(lots[1..], d);
      if lots[0].qty - m <= 0.0 {
        TakeTotals(lots[1..], d, x, n, left - m, mode);
      } else {
        RemainsOneWay(lots, d, x, m, mode);
      }
    }
  }

  lemma RemainsOneWay(lots: seq<Lot>, d: Direction, x: Exit, m: real, mode: Mode)
    requires lots != [] && OneWay(lots, d) && Positive(lots) && 0.0 <= m < lots[0].qty
    ensures var after := [Remainder(lots[0], m, mode, x.symbol)] + lots[1..];
            && OpenQty(after, d) == OpenQty(lots, d) - m && OneWay(after, d) && Positive(after)
  {
    hide FeeShare;
    var after := [Remainder(lots[0], m, mode, x.symbol)] + lots[1..];
    assert after[1..] == lots[1..];
    forall i | 0 <= i < |after| ensures after[i].direction == d && after[i].qty > 0.0 {
      if i > 0 {
        assert after[i] == lots[i];
      }
    }
  }

  lemma {:induction false} OpenQtyAppends(lots: seq<Lot>, lot: Lot, d: Direction)
    ensures OpenQty(lots + [lot], d) == OpenQty(lots, d) + if lot.direction == d then lot.qty else 0.0
  {
    if lots == [] {
      assert lots + [lot] == [lot];
    } else {
      assert (lots + [lot])[0] == lots[0] && (lots + [lot])[1..] == lots[1..] + [lot];
      OpenQtyAppends(lots[1..], lot, d);
    }
  }

  lemma TakeNone(lots: seq<Lot>, d: Direction, x: Exit, n: nat, left: real, mode: Mode)
    requires OneWay(lots, Opposite(d)) && !mode.Pooled?
    ensures Take(lots, d, x, n, left, mode, 0.0) == Taken(lots, [], left)
  {
  }

  lemma {:induction false} OpenQtyPositive(lots: seq<Lot>, d: Direction)
    requires Positive(lots)
    ensures OpenQty(lots, d) >= 0.0
  {
    if lots != [] {
      OpenQtyPositive(lots[1..], d);
    }
  }

  /** A fill opens, if at all, the direction opposite to the one it closes. */
  lemma OpensOpposite(f: Fill)
    requires f.Opening().Some?
    ensures f.Opening().value == Opposite(f.Closing())
  {
  }


  // ----- one shelf closes, or opens

  /** The totals with `m` fewer, or more, on a shelf. */
  function Less(p: Pass, at: Shelf, d: Direction, m: real): Pass {
    match at
    case Book(k) => p.(rem := p.rem[k := p.RemOf(k).With(d, p.RemOf(k).Of(d) - m)])
    case Carried(r, _) => p.(pools := p.pools[r := p.PoolOf(r).With(d, p.PoolOf(r).Of(d) - m)])
  }

  lemma LessTally(p: Pass, at: Shelf, d: Direction, m: real)
    requires at.Carried? ==> at.direction == d
    ensures forall other, e ::
              Tally(Less(p, at, d, m), other, e) == Tally(p, other, e) - if other == at && e == d then m else 0.0
  {
  }

  lemma PutAgrees(p: Pass, q: Pass, s: State, at: Shelf, lots: seq<Lot>, es: seq<Entry>)
    requires Agree(p, s) && ShelfAgrees(q, lots, at)
    requires forall other, e :: other != at ==> Tally(q, other, e) == Tally(p, other, e)
    ensures Agree(q, Put(s, at, lots, es))
  {
    hide OpenQty, Positive;
    forall other ensures ShelfAgrees(q, On(Put(s, at, lots, es), other), other) {
      assert ShelfAgrees(p, On(s, other), other);
    }
  }

  /** Closing takes off a shelf what it has in the direction, up to what is asked. */
  lemma CloseOnTallies(p: Pass, s: State, at: Shelf, dir: Direction, n: nat, f: Fill, left: real, mode: Mode)
    requires Agree(p, s) && left >= 0.0
    requires if at.Book? then !mode.Pooled? else mode.Pooled? && dir == at.direction
    ensures var g, m := CloseOn(s, at, dir, n, f, left, mode, 0.0), Min(left, Tally(p, at, dir));
            m >= 0.0 && g.left == left - m && Agree(Less(p, at, dir, m), g.s)
  {
    hide Take, OpenQty, Positive, Tally, Less;
    var lots, x := On(s, at), ExitOf(n, f);
    assert ShelfAgrees(p, lots, at);
    var m := Min(left, OpenQty(lots, dir));
    OpenQtyPositive(lots, dir);
    LessTally(p, at, dir, m);
    TakeOneWay(lots, at, dir, x, n, left, mode);
    if Takes(lots, dir, left, mode, 0.0) {
      var t := Take(lots, dir, x, n, left, mode, 0.0);
      assert ShelfAgrees(Less(p, at, dir, m), t.lots, at);
      PutAgrees(p, Less(p, at, dir, m), s, at, t.lots, t.entries);
    } else {
      AgreesSame(p, Less(p, at, dir, m), s);
    }
  }

  /** Closing a queue of one direction takes what it has in that direction, and leaves the other as it is. */
  lemma TakeOneWay(lots: seq<Lot>, at: Shelf, dir: Direction, x: Exit, n: nat, left: real, mode: Mode)
    requires Positive(lots) && left >= 0.0
    requires if at.Book? then !mode.Pooled? && Uniform(lots)
             else mode.Pooled? && OneWay(lots, at.direction) && dir == at.direction
    ensures var t, m := Take(lots, dir, x, n, left, mode, 0.0), Min(left, OpenQty(lots, dir));
            && t.left == left - m && OpenQty(t.lots, dir) == OpenQty(lots, dir) - m
            && OpenQty(t.lots, Opposite(dir)) == OpenQty(lots, Opposite(dir)) && Positive(t.lots)
            && (if at.Book? then Uniform(t.lots) else OneWay(t.lots, at.direction))
            && (!Takes(lots, dir, left, mode, 0.0) ==> m == 0.0)
  {
    hide Take, OpenQty;
    if OneWay(lots, dir) {
      TakeTotals(lots, dir, x, n, left, mode);
      OneWayQty(lots, dir);
      OneWayQty(Take(lots, dir, x, n, left, mode, 0.0).lots, dir);
      if !Takes(lots, dir, left, mode, 0.0) {
        NoTake(lots, dir, x, n, left, mode);
      }
    } else {
      assert OneWay(lots, Opposite(dir));
      OneWayQty(lots, Opposite(dir));
      TakeNone(lots, dir, x, n, left, mode);
    }
  }

  lemma NoTake(lots: seq<Lot>, dir: Direction, x: Exit, n: nat, left: real, mode: Mode)
    requires !Takes(lots, dir, left, mode, 0.0)
    ensures Take(lots, dir, x, n, left, mode, 0.0) == Taken(lots, [], left)
  {
  }

  /** A lot opened on a shelf of its direction adds to it. */
  lemma OpenTallies(p: Pass, s: State, at: Shelf, lot: Lot)
    requires Agree(p, s) && lot.qty > 0.0 && OneWay(On(s, at), lot.direction)
    requires (at.Carried? ==> lot.direction == at.direction)
    ensures Agree(Less(p, at, lot.direction, -lot.qty), OpenLot(s, at, lot))
  {
    hide OpenQty, Tally, Less;
    var lots, q := On(s, at), Less(p, at, lot.direction, -lot.qty);
    assert ShelfAgrees(p, lots, at);
    LessTally(p, at, lot.direction, -lot.qty);
    OpenQtyAppends(lots, lot, Long);
    OpenQtyAppends(lots, lot, Short);
    assert OneWay(lots + [lot], lot.direction);
    assert ShelfAgrees(q, lots + [lot], at);
    PutAgrees(p, q, s, at, lots + [lot], [Opened(lot)]);
  }

  /** Nothing left of a direction: what a book holds is of the other. */
  lemma Exhausted(p: Pass, s: State, k: BookKey, d: Direction)
    requires Agree(p, s) && Tally(p, Book(k), d) <= 0.0
    ensures OneWay(On(s, Book(k)), Opposite(d))
  {
    hide OpenQty;
    var lots := On(s, Book(k));
    assert ShelfAgrees(p, lots, Book(k));
    if OneWay(lots, d) {
      OneWayQty(lots, d);
    }
  }

  lemma SameOnAgrees(p: Pass, s: State, s': State)
    requires Agree(p, s) && s'.pending == s.pending && forall at :: On(s', at) == On(s, at)
    ensures Agree(p, s')
  {
    hide OpenQty, Positive, Tally;
    forall at ensures ShelfAgrees(p, On(s', at), at) {
      assert ShelfAgrees(p, On(s, at), at);
    }
  }

  // ----- a chain's older contracts

  /** An older contract of the fill's chain that holds what it closes. */
  predicate Offers(books: map<BookKey, seq<Lot>>, k: BookKey, f: Fill, dir: Direction) {
    OlderContract(books, k, f) && books[k][0].direction == dir
  }

  /** Past its own book and its chain's legs, the chain having been rolled, the fill comes to older
      contracts that hold what it closes. */
  predicate Reaches(s: State, f: Fill, dir: Direction) {
    f.Roll() in s.rolledKeys && exists k :: k in s.order && Offers(s.books, k, f, dir)
  }

  lemma {:induction false} OldersAre(books: map<BookKey, seq<Lot>>, order: seq<BookKey>, f: Fill, k: BookKey)
    ensures k in Olders(books, order, f) <==> k in order && OlderContract(books, k, f)
  {
    hide Insert, OlderContract;
    if order != [] {
      OldersAre(books, order[..|order| - 1], f, k);
      Leavings.InsertsOne(order[|order| - 1], Olders(books, order[..|order| - 1], f), k);
    }
  }

  lemma {:induction false} NoneOffered(s: State, ks: seq<BookKey>, dir: Direction, n: nat, f: Fill, left: real)
    requires forall k :: k in ks ==> !Takes(On(s, Book(k)), dir, left, Older, 0.0)
    ensures CloseOlder(s, ks, dir, n, f, left, 0.0) == Going(s, left)
    decreases ks
  {
    if ks != [] {
      NoneOffered(s, ks[1..], dir, n, f, left);
    }
  }

  /** What an older contract held only shrinks. */
  lemma {:induction false} OldersShrink(p: Pass, s: State, ks: seq<BookKey>, dir: Direction, n: nat, f: Fill,
      left: real) returns (q: Pass)
    requires Agree(p, s) && left >= 0.0
    ensures var g := CloseOlder(s, ks, dir, n, f, left, 0.0);
            && Agree(q, g.s) && g.left >= 0.0
            && (forall at, d ::
                  && Tally(q, at, d) <= Tally(p, at, d)
                  && (at.Carried? || at.key !in ks ==> Tally(q, at, d) == Tally(p, at, d)))
            && (left > 0.0 && (exists k :: k in ks && Tally(p, Book(k), dir) > 0.0) ==>
                  exists k :: k in ks && Tally(q, Book(k), dir) < Tally(p, Book(k), dir))
    decreases ks
  {
    hide CloseOn, Tally, Agree, Less;
    q := p;
    if ks != [] {
      var at := Book(ks[0]);
      var g, m := CloseOn(s, at, dir, n, f, left, Older, 0.0), Min(left, Tally(p, at, dir));
      CloseOnTallies(p, s, at, dir, n, f, left, Older);
      LessTally(p, at, dir, m);
      var p1 := Less(p, at, dir, m);
      q := OldersShrink(p1, g.s, ks[1..], dir, n, f, g.left);
      if left > 0.0 && exists k :: k in ks && Tally(p, Book(k), dir) > 0.0 {
        if Tally(p, at, dir) > 0.0 {
          assert Tally(q, Book(ks[0]), dir) < Tally(p, Book(ks[0]), dir);
        } else {
          var k :| k in ks && Tally(p, Book(k), dir) > 0.0;
          assert k in ks[1..] && Tally(p1, Book(k), dir) > 0.0;
          var k' :| k' in ks[1..] && Tally(q, Book(k'), dir) < Tally(p1, Book(k'), dir);
          assert k' in ks;
        }
      }
    }
  }

  /** An older contract offers what the fill closes exactly where the totals count some. */
  lemma OffersIff(p: Pass, s: State, k: BookKey, f: Fill, dir: Direction)
    requires Agree(p, s) && OlderContract(s.books, k, f)
    ensures Offers(s.books, k, f, dir) <==> Tally(p, Book(k), dir) > 0.0
  {
    hide OpenQty, Tally;
    var lots := s.books[k];
    assert On(s, Book(k)) == lots && lots != [];
    assert ShelfAgrees(p, lots, Book(k));
    var d := lots[0].direction;
    assert OneWay(lots, d);
    OneWayQty(lots, d);
  }

  // ----- the fill's own book and legs

  /** The totals once its own book and its chain's legs have given what they can. */
  function GivenOwn(p: Pass, f: Fill): Pass {
    Less(p, Book(f.Key()), f.Closing(), Min(f.qty, p.RemOf(f.Key()).Of(f.Closing())))
  }

  function LeftOwn(p: Pass, f: Fill): real {
    f.qty - Min(f.qty, p.RemOf(f.Key()).Of(f.Closing()))
  }

  function GivenLegs(p: Pass, f: Fill): Pass {
    Less(GivenOwn(p, f), Carried(f.Roll(), f.Closing()), f.Closing(),
        Min(LeftOwn(p, f), p.PoolOf(f.Roll()).Of(f.Closing())))
  }

  function LeftLegs(p: Pass, f: Fill): real {
    LeftOwn(p, f) - Min(LeftOwn(p, f), p.PoolOf(f.Roll()).Of(f.Closing()))
  }

  /** Its own book and legs have all the fill asks. */
  predicate Covered(p: Pass, f: Fill) {
    f.qty <= p.RemOf(f.Key()).Of(f.Closing()) + p.PoolOf(f.Roll()).Of(f.Closing())
  }

  lemma TallyPositive(p: Pass, s: State, at: Shelf, d: Direction)
    requires Agree(p, s)
    ensures Tally(p, at, d) >= 0.0
  {
    hide OpenQty;
    assert ShelfAgrees(p, On(s, at), at);
    OpenQtyPositive(On(s, at), d);
  }

  lemma CoveredLeavesNone(p: Pass, s: State, f: Fill)
    requires Agree(p, s) && f.qty > 0.0
    ensures LeftOwn(p, f) >= 0.0 && LeftLegs(p, f) >= 0.0 && (Covered(p, f) <==> LeftLegs(p, f) == 0.0)
    ensures LeftOwn(p, f) > 0.0 ==> p.RemOf(f.Key()).Of(f.Closing()) < f.qty
  {
    TallyPositive(p, s, Book(f.Key()), f.Closing());
    TallyPositive(p, s, Carried(f.Roll(), f.Closing()), f.Closing());
    assert Tally(p, Carried(f.Roll(), f.Closing()), f.Closing()) == p.PoolOf(f.Roll()).Of(f.Closing());
    hide Agree;
  }

  /** The state once its own book has given, and then its chain's legs. `x` is the fill at the price
      it closes at. */
  lemma OwnGives(p: Pass, s: State, f: Fill, x: Fill, n: nat)
    requires Agree(p, s) && f.qty > 0.0
    ensures var g := CloseOn(s, Book(f.Key()), f.Closing(), n, x, f.qty, Own, 0.0);
            g.left == LeftOwn(p, f) && Agree(GivenOwn(p, f), g.s)
            && g.s.rolledKeys == s.rolledKeys && g.s.order == s.order
            && (f.Key() in s.books ==> g.s.books.Keys == s.books.Keys)
            && (forall k :: k != f.Key() && k in s.books ==> k in g.s.books && g.s.books[k] == s.books[k])
  {
    hide Agree, Less, Take;
    CloseOnTallies(p, s, Book(f.Key()), f.Closing(), n, x, f.qty, Own);
  }

  lemma LegsGive(p: Pass, s: State, f: Fill, x: Fill, n: nat)
    requires Agree(GivenOwn(p, f), s) && LeftOwn(p, f) >= 0.0 && x.Roll() == f.Roll()
    ensures var g := CloseOn(TouchPool(s, x.Roll()), Carried(x.Roll(), f.Closing()), f.Closing(), n, x,
        LeftOwn(p, f), Pooled, 0.0);
            g.left == LeftLegs(p, f) && Agree(GivenLegs(p, f), g.s)
            && g.s.rolledKeys == s.rolledKeys && g.s.order == s.order && g.s.books == s.books
  {
    hide Agree, Take;
    var s0, at := TouchPool(s, x.Roll()), Carried(x.Roll(), f.Closing());
    SameOnAgrees(GivenOwn(p, f), s, s0);
    assert Tally(GivenOwn(p, f), at, f.Closing()) == p.PoolOf(f.Roll()).Of(f.Closing());
    CloseOnTallies(GivenOwn(p, f), s0, at, f.Closing(), n, x, LeftOwn(p, f), Pooled);
  }

  /** Past them, older contracts give too, exactly where the fill reaches some. */
  lemma OldersGive(p: Pass, s: State, s2: State, f: Fill, x: Fill, n: nat) returns (q: Pass)
    requires Agree(GivenLegs(p, f), s2) && LeftLegs(p, f) > 0.0 && f.Key() in s.books
    requires x == f.(price := x.price)
    requires s2.rolledKeys == s.rolledKeys && s2.order == s.order
    requires (forall k :: k != f.Key() ==> (k in s2.books <==> k in s.books))
    requires forall k :: k != f.Key() && k in s.books ==> s2.books[k] == s.books[k]
    ensures var g := if x.Roll() in s2.rolledKeys
                     then CloseOlder(s2, Olders(s2.books, s2.order, x), f.Closing(), n, x, LeftLegs(p, f), 0.0)
                     else Going(s2, LeftLegs(p, f));
            && Agree(q, g.s) && g.left >= 0.0
            && (forall at: Shelf, d :: at.Carried? || at.key == f.Key() ==>
                  Tally(q, at, d) == Tally(GivenLegs(p, f), at, d))
            && if Reaches(s, f, f.Closing())
               then exists k :: k != f.Key()
                                && Tally(q, Book(k), f.Closing()) < Tally(GivenLegs(p, f), Book(k), f.Closing())
               else g == Going(s2, LeftLegs(p, f)) && q == GivenLegs(p, f)
  {
    hide Agree, GivenLegs, LeftLegs, Tally, CloseOlder, Olders;
    q := GivenLegs(p, f);
    var left, dir := LeftLegs(p, f), f.Closing();
    if x.Roll() in s2.rolledKeys {
      var ks := Olders(s2.books, s2.order, x);
      forall k ensures k in ks <==> k in s2.order && OlderContract(s2.books, k, x) {
        OldersAre(s2.books, s2.order, x, k);
      }
      forall k | k in ks
        ensures k != f.Key() && OlderContract(s.books, k, f)
        ensures Offers(s.books, k, f, dir) <==> Tally(q, Book(k), dir) > 0.0
      {
        OffersIff(q, s2, k, x, dir);
      }
      assert Reaches(s, f, dir) <==> exists k :: k in ks && Tally(q, Book(k), dir) > 0.0 by {
        ReachedIs(q, s, s2, f, x, ks);
      }
      if Reaches(s, f, dir) {
        q := OldersShrink(q, s2, ks, dir, n, x, left);
      } else {
        forall k | k in ks ensures !Takes(On(s2, Book(k)), dir, left, Older, 0.0) {
          assert OlderContract(s2.books, k, x);
          assert !Offers(s2.books, k, x, dir);
        }
        NoneOffered(s2, ks, dir, n, x, left);
      }
    }
  }

  lemma ReachedIs(q: Pass, s: State, s2: State, f: Fill, x: Fill, ks: seq<BookKey>)
    requires x == f.(price := x.price) && f.Roll() in s.rolledKeys
    requires s2.order == s.order && (forall k :: k != f.Key() ==> (k in s2.books <==> k in s.books))
    requires forall k :: k != f.Key() && k in s.books ==> s2.books[k] == s.books[k]
    requires forall k :: k in ks <==> k in s2.order && OlderContract(s2.books, k, x)
    requires forall k :: k in ks ==> (Offers(s.books, k, f, f.Closing()) <==> Tally(q, Book(k), f.Closing()) > 0.0)
    ensures Reaches(s, f, f.Closing()) <==> exists k :: k in ks && Tally(q, Book(k), f.Closing()) > 0.0
  {
    hide Tally;
    if Reaches(s, f, f.Closing()) {
      var k :| k in s.order && Offers(s.books, k, f, f.Closing());
      assert OlderContract(s2.books, k, x);
      assert k in ks;
    }
    if exists k :: k in ks && Tally(q, Book(k), f.Closing()) > 0.0 {
      var k :| k in ks && Tally(q, Book(k), f.Closing()) > 0.0;
      assert k in s.order && Offers(s.books, k, f, f.Closing());
    }
  }

  // ----- a row that rolls

  /** What the inference pass makes of a roll that states a quantity. */
  function RolledTo(p: Pass, f: Fill): Pass
    requires f.roll.Some?
  {
    Less(GivenLegs(p, f), Carried(f.Roll(), f.Closing()), f.Closing(), -f.qty)
  }

  /** The roll keeps the passes together if and only if its own book and its chain's legs have all it
      asks: else either older contracts give, or a lot opens, of which the totals know nothing. */
  lemma RollAgreesIff(p: Pass, s: State, f: Fill, n: nat)
    requires Agree(p, s) && f.qty > 0.0 && IsRoll(f) && f.roll.value == f.Closing() && f.Key() in s.books
    ensures Agree(RolledTo(p, f), SettleRoll(CloseRoll(s, n, f, f.Closing(), 0.0), n, f, f.Closing(), 0.0))
            <==> Covered(p, f)
  {
    hide Agree, GivenOwn, GivenLegs, LeftOwn, LeftLegs, Covered, Less, Tally, CloseOn, CloseOlder, Olders,
         RollEntry, RollExit, PerUnit, FeeShare;
    var d, x := f.Closing(), f.(price := RollExit(f, f.Closing()));
    CoveredLeavesNone(p, s, f);
    OwnGives(p, s, f, x, n);
    var g1 := CloseOn(s, Book(f.Key()), d, n, x, f.qty, Own, 0.0);
    LegsGive(p, g1.s, f, x, n);
    var g2 := CloseOn(TouchPool(g1.s, x.Roll()), Carried(x.Roll(), d), d, n, x, g1.left, Pooled, 0.0);
    if Covered(p, f) {
      assert CloseRoll(s, n, f, d, 0.0) == g2;
      RollCarries(GivenLegs(p, f), g2.s, f, n);
    } else {
      var q := OldersGive(p, s, g2.s, f, x, n);
      var g := CloseRoll(s, n, f, d, 0.0);
      assert g == if x.Roll() in g2.s.rolledKeys
                  then CloseOlder(g2.s, Olders(g2.s.books, g2.s.order, x), d, n, x, g2.left, 0.0) else g2;
      RollParts(p, q, s, g, f, n);
    }
  }

  /** What a covered roll closed is carried. */
  lemma RollCarries(q: Pass, s: State, f: Fill, n: nat)
    requires Agree(q, s) && f.qty > 0.0 && IsRoll(f) && f.roll.value == f.Closing()
    ensures Agree(Less(q, Carried(f.Roll(), f.Closing()), f.Closing(), -f.qty),
        SettleRoll(Going(s, 0.0), n, f, f.Closing(), 0.0))
  {
    hide Less, FeeShare, RollEntry, Positive, OpenQty, Tally;
    var d := f.Closing();
    var s1 := s.(rolledKeys := s.rolledKeys + {f.Roll()});
    SameOnAgrees(q, s, s1);
    assert ShelfAgrees(q, On(s1, Carried(f.Roll(), d)), Carried(f.Roll(), d));
    OpenTallies(q, s1, Carried(f.Roll(), d), CarriedLot(n, f, d, f.qty));
    SameOnAgrees(Less(q, Carried(f.Roll(), d), d, -f.qty), CarryRoll(Going(s, 0.0), n, f, d, 0.0),
        SettleRoll(Going(s, 0.0), n, f, d, 0.0));
  }

  lemma RollParts(p: Pass, q: Pass, s: State, g: Going, f: Fill, n: nat)
    requires IsRoll(f) && f.roll.value == f.Closing() && f.qty > 0.0 && Agree(q, g.s) && g.left >= 0.0
    requires LeftLegs(p, f) > 0.0
    requires forall at: Shelf, d :: at.Carried? || at.key == f.Key() ==>
               Tally(q, at, d) == Tally(GivenLegs(p, f), at, d)
    requires if Reaches(s, f, f.Closing())
             then exists k :: k != f.Key()
                              && Tally(q, Book(k), f.Closing()) < Tally(GivenLegs(p, f), Book(k), f.Closing())
             else g.left == LeftLegs(p, f)
    ensures !Agree(RolledTo(p, f), SettleRoll(g, n, f, f.Closing(), 0.0))
  {
    hide Agree, GivenLegs, LeftLegs, FeeShare, RollEntry, PerUnit, Reaches, Less, OpenQty;
    var d, s' := f.Closing(), SettleRoll(g, n, f, f.Closing(), 0.0);
    LessTally(GivenLegs(p, f), Carried(f.Roll(), d), d, -f.qty);
    if Reaches(s, f, d) {
      var k :| k != f.Key() && Tally(q, Book(k), d) < Tally(GivenLegs(p, f), Book(k), d);
      assert On(s', Book(k)) == On(g.s, Book(k));
      ShelfDiffers(RolledTo(p, f), q, s', g.s, Book(k), d);
    } else {
      var lot := RollOpens(n, f, g.left);
      assert On(s', Book(f.Key())) == On(g.s, Book(f.Key())) + [lot];
      OpenQtyAppends(On(g.s, Book(f.Key())), lot, lot.direction);
      LotDiffers(RolledTo(p, f), q, s', g.s, Book(f.Key()), lot);
    }
  }

  lemma ShelfDiffers(p: Pass, q: Pass, s: State, s0: State, at: Shelf, d: Direction)
    requires Agree(q, s0) && On(s, at) == On(s0, at) && Tally(p, at, d) != Tally(q, at, d)
    ensures !Agree(p, s)
  {
    hide OpenQty, Positive, Tally;
    AgreesAt(q, s0, at);
    AgreesAt(p, s, at);
  }

  lemma AgreesAt(p: Pass, s: State, at: Shelf)
    ensures Agree(p, s) ==> ShelfAgrees(p, On(s, at), at)
  {
  }

  lemma LotDiffers(p: Pass, q: Pass, s: State, s0: State, at: Shelf, lot: Lot)
    requires Agree(q, s0) && On(s, at) == On(s0, at) + [lot] && lot.qty > 0.0
    requires Tally(p, at, lot.direction) == Tally(q, at, lot.direction)
    ensures !Agree(p, s)
  {
    hide OpenQty, Positive, Tally;
    AgreesAt(q, s0, at);
    AgreesAt(p, s, at);
    OpenQtyAppends(On(s0, at), lot, lot.direction);
  }

  // ----- an ordinary row

  /** A transfer out is a sale of no contract that opens nothing (it is normalised so). */
  predicate SentIsSale(f: Fill) {
    f.transferOut ==> !f.symbol.IsOption() && f.side.Sell? && f.Opening() == None
  }

  /** What the inference pass makes of an ordinary row that states a quantity. */
  function PostedTo(p: Pass, f: Fill): Pass {
    var given := if f.symbol.IsOption() then GivenLegs(p, f) else GivenOwn(p, f);
    var left := if f.symbol.IsOption() then LeftLegs(p, f) else LeftOwn(p, f);
    match f.Opening()
    case Some(d) => if left > 0.0 then Less(given, Book(f.Key()), d, -left) else given
    case None => given
  }

  lemma PostedIs(p: Pass, s: State, f: Fill)
    requires Agree(p, s) && f.qty > 0.0
    ensures SameTally(PostedTo(p, f), Posted(p, f, 0.0))
  {
    CoveredLeavesNone(p, s, f);
    TallyPositive(p, s, Carried(f.Roll(), f.Closing()), f.Closing());
    assert Tally(p, Carried(f.Roll(), f.Closing()), f.Closing()) == p.PoolOf(f.Roll()).Of(f.Closing());
    hide Agree;
    PostedLegs(p, f);
    PostedBooks(p, f);
  }

  lemma PostedLegs(p: Pass, f: Fill)
    requires f.qty > 0.0 && LeftOwn(p, f) >= 0.0 && p.PoolOf(f.Roll()).Of(f.Closing()) >= 0.0
    ensures forall r, leg, d ::
              Tally(PostedTo(p, f), Carried(r, leg), d) == Tally(Posted(p, f, 0.0), Carried(r, leg), d)
  {
    assert Posted(p, f, 0.0).PoolOf(f.Roll()).Of(f.Closing())
           == p.PoolOf(f.Roll()).Of(f.Closing())
              - if f.symbol.IsOption() then Min(LeftOwn(p, f), p.PoolOf(f.Roll()).Of(f.Closing())) else 0.0;
  }

  lemma PostedBooks(p: Pass, f: Fill)
    requires f.qty > 0.0 && LeftOwn(p, f) >= 0.0 && p.PoolOf(f.Roll()).Of(f.Closing()) >= 0.0
    ensures forall k, d :: Tally(PostedTo(p, f), Book(k), d) == Tally(Posted(p, f, 0.0), Book(k), d)
  {
  }

  /** Settling what is left opens a lot where the totals do. */
  lemma SettleTallies(q: Pass, s: State, left: real, f: Fill, n: nat)
    requires Agree(q, s) && left >= 0.0 && (left > 0.0 ==> OneWay(On(s, Book(f.Key())), Opposite(f.Closing())))
    ensures var to := match f.Opening()
                      case Some(d) => if left > 0.0 then Less(q, Book(f.Key()), d, -left) else q
                      case None => q;
            Agree(to, Settle(Going(s, left), n, f, 0.0))
  {
    hide Less, FeeShare, IsDust, OneWay, Agree;
    if left > 0.0 && f.Opening().Some? {
      OpensOpposite(f);
      OpenTallies(q, s, Book(f.Key()), NewLot(n, f, left, f.Opening().value));
    } else {
      SameOnAgrees(q, s, Settle(Going(s, left), n, f, 0.0));
    }
  }

  lemma {:induction false} ReplacesNone(s: State, ks: seq<BookKey>, n: nat, f: Fill, left: real, was: Replacements)
    requires was.removed == map[]
    ensures CloseReplaced(s, ks, n, f, left, was, 0.0) == Going(s, left)
    decreases ks
  {
    if ks != [] && left > 0.0 {
      ReplacesNone(s, ks[1..], n, f, left, was);
    }
  }

  /** What is left of a direction once a fill has taken more than there was: nothing. */
  lemma OwnExhausted(p: Pass, s: State, q: Pass, f: Fill)
    requires Agree(q, s) && LeftOwn(p, f) > 0.0
    requires Tally(q, Book(f.Key()), f.Closing()) == Tally(GivenOwn(p, f), Book(f.Key()), f.Closing())
    ensures OneWay(On(s, Book(f.Key())), Opposite(f.Closing()))
  {
    LessTally(p, Book(f.Key()), f.Closing(), Min(f.qty, p.RemOf(f.Key()).Of(f.Closing())));
    Exhausted(q, s, f.Key(), f.Closing());
  }

  lemma GivenLegsTally(p: Pass, f: Fill)
    ensures forall k, d :: Tally(GivenLegs(p, f), Book(k), d) == Tally(GivenOwn(p, f), Book(k), d)
  {
  }

  /** A row of no contract always keeps the passes together. */
  lemma PlainAgrees(p: Pass, s: State, f: Fill, n: nat, was: Replacements)
    requires Agree(p, s) && f.qty > 0.0 && !f.symbol.IsOption() && !f.transferOut && was.removed == map[]
    ensures Agree(PostedTo(p, f), Settle(CloseOrdinary(s, n, f, was, 0.0), n, f, 0.0))
  {
    hide Agree, GivenOwn, GivenLegs, LeftOwn, Less, Tally, CloseOn, CloseReplaced, Settle;
    CoveredLeavesNone(p, s, f);
    OwnGives(p, s, f, f, n);
    var g := CloseOn(s, Book(f.Key()), f.Closing(), n, f, f.qty, Own, 0.0);
    ReplacesNone(g.s, g.s.order, n, f, g.left, was);
    if g.left > 0.0 {
      OwnExhausted(p, g.s, GivenOwn(p, f), f);
    }
    SettleTallies(GivenOwn(p, f), g.s, g.left, f, n);
  }

  lemma SendAgrees(p: Pass, s: State, f: Fill, n: nat)
    requires Agree(p, s) && f.qty > 0.0 && f.transferOut && SentIsSale(f)
    ensures Agree(PostedTo(p, f), SendOut(s, n, f, 0.0))
  {
    hide Agree, Less, CloseOn;
    CloseOnTallies(p, s, Book(f.Key()), Long, n, f, f.qty, Outward);
    var g := CloseOn(s, Book(f.Key()), Long, n, f, f.qty, Outward, 0.0);
    SameOnAgrees(GivenOwn(p, f), g.s, SendOut(s, n, f, 0.0));
  }

  /** A contract's row keeps the passes together if and only if its own book and its chain's legs have
      all it asks, or past them it reaches no older contract. */
  lemma ContractAgreesIff(p: Pass, s: State, f: Fill, n: nat, was: Replacements)
    requires Agree(p, s) && f.qty > 0.0 && f.symbol.IsOption() && !f.transferOut && f.Key() in s.books
    requires was.removed == map[]
    ensures Agree(PostedTo(p, f), Settle(CloseOrdinary(s, n, f, was, 0.0), n, f, 0.0))
            <==> Covered(p, f) || !Reaches(s, f, f.Closing())
  {
    hide Agree, GivenOwn, GivenLegs, LeftOwn, LeftLegs, Covered, Less, Tally, CloseOn, CloseOlder, Olders,
         CloseReplaced, Settle, Reaches, PostedTo;
    var d := f.Closing();
    CoveredLeavesNone(p, s, f);
    OwnGives(p, s, f, f, n);
    var g1 := CloseOn(s, Book(f.Key()), d, n, f, f.qty, Own, 0.0);
    LegsGive(p, g1.s, f, f, n);
    LegsLeave(p, f);
    if g1.left <= 0.0 {
      AlreadyCovered(p, s, f);
      assert CloseOrdinary(s, n, f, was, 0.0) == g1;
      ContractSettles(p, g1.s, f, n, GivenOwn(p, f), 0.0);
    } else {
      var g2 := CloseOn(TouchPool(g1.s, f.Roll()), Carried(f.Roll(), d), d, n, f, g1.left, Pooled, 0.0);
      if Covered(p, f) {
        assert CloseOrdinary(s, n, f, was, 0.0) == g2;
        ContractSettles(p, g2.s, f, n, GivenLegs(p, f), 0.0);
      } else {
        var q := OldersGive(p, s, g2.s, f, f, n);
        var g := if f.Roll() in g2.s.rolledKeys
                 then CloseOlder(g2.s, Olders(g2.s.books, g2.s.order, f), d, n, f, g2.left, 0.0) else g2;
        ReplacesNone(g.s, g.s.order, n, f, g.left, was);
        assert CloseOrdinary(s, n, f, was, 0.0) == g;
        if Reaches(s, f, d) {
          ContractParts(p, q, g, f, n);
        } else {
          ContractSettles(p, g.s, f, n, GivenLegs(p, f), g.left);
        }
      }
    }
  }

  lemma LegsLeave(p: Pass, f: Fill)
    ensures LeftOwn(p, f) <= 0.0 && LeftOwn(p, f) >= 0.0 && p.PoolOf(f.Roll()).Of(f.Closing()) >= 0.0 ==>
              LeftLegs(p, f) == 0.0 && SameTally(GivenOwn(p, f), GivenLegs(p, f))
  {
  }

  lemma AlreadyCovered(p: Pass, s: State, f: Fill)
    requires Agree(p, s) && LeftOwn(p, f) <= 0.0 && f.qty > 0.0
    ensures LeftOwn(p, f) == 0.0 && LeftLegs(p, f) == 0.0 && Covered(p, f) && SameTally(GivenOwn(p, f), GivenLegs(p, f))
  {
    CoveredLeavesNone(p, s, f);
    TallyPositive(p, s, Carried(f.Roll(), f.Closing()), f.Closing());
    assert Tally(p, Carried(f.Roll(), f.Closing()), f.Closing()) == p.PoolOf(f.Roll()).Of(f.Closing());
    LegsLeave(p, f);
    hide Agree;
  }

  lemma ContractSettles(p: Pass, s: State, f: Fill, n: nat, q: Pass, left: real)
    requires Agree(q, s) && f.symbol.IsOption() && SameTally(q, GivenLegs(p, f)) && left == LeftLegs(p, f) >= 0.0
    requires left > 0.0 ==> LeftOwn(p, f) > 0.0
    ensures Agree(PostedTo(p, f), Settle(Going(s, left), n, f, 0.0))
  {
    hide Agree, GivenOwn, GivenLegs, LeftOwn, LeftLegs, Less, Settle, OneWay;
    AgreesSame(q, GivenLegs(p, f), s);
    if left > 0.0 {
      GivenLegsTally(p, f);
      OwnExhausted(p, s, GivenLegs(p, f), f);
    }
    SettleTallies(GivenLegs(p, f), s, left, f, n);
  }

  lemma ContractParts(p: Pass, q: Pass, g: Going, f: Fill, n: nat)
    requires Agree(q, g.s) && f.symbol.IsOption() && g.left >= 0.0
    requires exists k :: k != f.Key() && Tally(q, Book(k), f.Closing()) < Tally(GivenLegs(p, f), Book(k), f.Closing())
    ensures !Agree(PostedTo(p, f), Settle(g, n, f, 0.0))
  {
    hide Agree, GivenLegs, LeftLegs, FeeShare, IsDust, OpenQty;
    var k :| k != f.Key() && Tally(q, Book(k), f.Closing()) < Tally(GivenLegs(p, f), Book(k), f.Closing());
    assert Tally(PostedTo(p, f), Book(k), f.Closing()) == Tally(GivenLegs(p, f), Book(k), f.Closing());
    assert On(Settle(g, n, f, 0.0), Book(k)) == On(g.s, Book(k));
    ShelfDiffers(PostedTo(p, f), q, Settle(g, n, f, 0.0), g.s, Book(k), f.Closing());
  }

  // ----- one row

  /** When a row, as the matcher reads it, keeps the passes together. */
  predicate RowAgrees(p: Pass, s: State, f: Fill) {
    if IsRoll(f) then Covered(p, f)
    else f.symbol.IsOption() && !f.transferOut ==> Covered(p, f) || !Reaches(s, f, f.Closing())
  }

  /** What the inference pass makes of a row that states a quantity, rolls included. */
  function PassTo(p: Pass, f: Fill): Pass {
    if IsRoll(f) then RolledTo(p, f) else PostedTo(p, f)
  }

  lemma StepAgreesIff(p: Pass, s: State, f: Fill, n: nat, was: Replacements)
    requires Agree(p, s) && f.qty > 0.0 && SentIsSale(f) && (IsRoll(f) ==> f.roll.value == f.Closing())
    requires was.removed == map[]
    ensures Agree(PassTo(p, f), Step(s, n, f, was, 0.0)) <==> RowAgrees(p, s, f)
  {
    hide Agree, CloseRoll, CloseOrdinary, SettleRoll, Settle, SendOut, RolledTo, PostedTo, Covered, Reaches;
    var s1 := TouchBook(s, f.Key());
    SameOnAgrees(p, s, s1);
    assert ApplySplits(s1, f.Key(), f.day) == s1 by { NoSplitsDue(p, s, f); }
    ReachesSame(s, f);
    if IsRoll(f) {
      RollAgreesIff(p, s1, f, n);
    } else if f.transferOut {
      SendAgrees(p, s1, f, n);
    } else if f.symbol.IsOption() {
      ContractAgreesIff(p, s1, f, n, was);
    } else {
      PlainAgrees(p, s1, f, n, was);
    }
  }

  lemma NoSplitsDue(p: Pass, s: State, f: Fill)
    requires Agree(p, s)
    ensures ApplySplits(TouchBook(s, f.Key()), f.Key(), f.day) == TouchBook(s, f.Key())
  {
  }

  lemma ReachesSame(s: State, f: Fill)
    ensures Reaches(TouchBook(s, f.Key()), f, f.Closing()) <==> Reaches(s, f, f.Closing())
  {
    var s1 := TouchBook(s, f.Key());
    forall k ensures Offers(s1.books, k, f, f.Closing()) <==> Offers(s.books, k, f, f.Closing()) {
    }
    forall k | k != f.Key() ensures k in s1.order <==> k in s.order {
    }
  }

  // ----- the whole run

  /** The fills that state a quantity: what the matcher runs over. */
  function Stated(fs: seq<Fill>): seq<Fill> {
    if fs == [] then []
    else Stated(fs[..|fs| - 1]) + if fs[|fs| - 1].qty > 0.0 then [fs[|fs| - 1]] else []
  }

  /** Rows come as they are normalised: quantities unsigned, and coins sent out as sales, of no
      contract, that open nothing. */
  ghost predicate Normal(raws: seq<Raw>) {
    forall i :: 0 <= i < |raws| ==> NormalRow(raws[i].fill)
  }

  predicate NormalRow(f: Fill) {
    f.qty >= 0.0 && (f.transferOut ==> !f.symbol.IsOption() && f.side.Sell? && !f.IntentionalOpen())
  }

  /** The row as the matcher will read it. */
  function RowRead(p: Pass, raws: seq<Raw>, i: nat): Fill
    requires i < |raws|
  {
    var out := PassStep(p, raws, i, 0.0).out;
    if out == [] then raws[i].fill else out[|out| - 1]
  }

  lemma RowIsRead(p: Pass, raws: seq<Raw>, i: nat)
    requires i < |raws| && NormalRow(raws[i].fill)
    ensures var f := RowRead(p, raws, i);
            && PassStep(p, raws, i, 0.0).out == p.out + [f]
            && SentIsSale(f) && (IsRoll(f) ==> f.roll.value == f.Closing()) && f.Key() == raws[i].fill.Key()
            && (IsRoll(f) <==> raws[i].fill.symbol.IsOption() && raws[i].fill.multileg)
  {
    hide PickFrom, Standalone, UnitPrice, RollQty, RollDirection, Upcoming;
    var f := raws[i].fill;
    var upcoming := Upcoming(raws, i + 1, f.Key());
    if f.symbol.IsOption() && f.multileg {
      assert PassStep(p, raws, i, 0.0) == Rolled(p, f, upcoming, 0.0);
    } else {
      ReadIsOrdinary(raws[i], p.RemOf(f.Key()), upcoming, 0.0);
    }
  }

  lemma ReadIsOrdinary(r: Raw, rem: Rem, upcoming: nat, eps: real)
    requires NormalRow(r.fill) && !(r.fill.symbol.IsOption() && r.fill.multileg)
    ensures var f := Read(r, rem, upcoming, eps);
            !IsRoll(f) && SentIsSale(f) && f.Key() == r.fill.Key()
  {
    hide PickFrom, Standalone, UnitPrice;
  }

  /** What the row makes of the totals, where it states a quantity and where it does not. */
  lemma RowPasses(p: Pass, s: State, raws: seq<Raw>, i: nat)
    requires i < |raws| && NormalRow(raws[i].fill) && Agree(p, s)
    ensures var f, q := RowRead(p, raws, i), PassStep(p, raws, i, 0.0);
            SameTally(q, if f.qty > 0.0 then PassTo(p, f) else p)
  {
    hide PickFrom, Standalone, UnitPrice, Agree, Upcoming, RollQty, RollDirection, PostedTo, RolledTo, Tally;
    RowIsRead(p, raws, i);
    var raw := raws[i].fill;
    var upcoming := Upcoming(raws, i + 1, raw.Key());
    if raw.symbol.IsOption() && raw.multileg {
      RolledIs(p, s, raw, upcoming);
    } else {
      var f := Read(raws[i], p.RemOf(raw.Key()), upcoming, 0.0);
      ReadIsOrdinary(raws[i], p.RemOf(raw.Key()), upcoming, 0.0);
      if f.qty > 0.0 {
        PostedIs(p, s, f);
      } else {
        UnstatedPosts(p, f);
      }
    }
  }

  lemma UnstatedPosts(p: Pass, f: Fill)
    requires f.qty <= 0.0
    ensures SameTally(Posted(p, f, 0.0), p)
  {
  }

  lemma RolledIs(p: Pass, s: State, raw: Fill, upcoming: nat)
    requires Agree(p, s) && raw.symbol.IsOption() && raw.multileg && raw.qty >= 0.0
    ensures var q := Rolled(p, raw, upcoming, 0.0);
            var f := q.out[|q.out| - 1];
            IsRoll(f) && SameTally(q, if f.qty > 0.0 then RolledTo(p, f) else p)
  {
    hide PickFrom, Standalone, UnitPrice, RollDirection;
    var q := Rolled(p, raw, upcoming, 0.0);
    var f := q.out[|q.out| - 1];
    var d := RollDirection(p.RemOf(raw.Key()), p.PoolOf(raw.Roll()), 0.0);
    RollQtyPositive(raw, p.RemOf(raw.Key()).Of(d), p.RemOf(raw.Key()).Of(d) + p.PoolOf(raw.Roll()).Of(d), upcoming);
    TallyPositive(p, s, Book(f.Key()), f.Closing());
    TallyPositive(p, s, Carried(f.Roll(), f.Closing()), f.Closing());
    assert Tally(p, Carried(f.Roll(), f.Closing()), f.Closing()) == p.PoolOf(f.Roll()).Of(f.Closing());
    hide Agree, RollQty;
  }

  lemma RollQtyPositive(f: Fill, held: real, open: real, upcoming: nat)
    requires f.qty >= 0.0
    ensures RollQty(f, held, open, upcoming, 0.0) >= 0.0
  {
  }

  lemma AgreesSameIff(p: Pass, q: Pass, s: State)
    requires SameTally(p, q)
    ensures Agree(p, s) <==> Agree(q, s)
  {
    hide Agree, Tally;
    if Agree(p, s) { AgreesSame(p, q, s); }
    if Agree(q, s) { AgreesSame(q, p, s); }
  }

  /** The matcher over what the inference pass has read of the first `i` rows. */
  function After(raws: seq<Raw>, i: nat, was: Replacements): State
    requires i <= |raws|
  {
    var fills := Stated(Infer(raws, i, 0.0).out);
    Run(fills, |fills|, map[], was, 0.0)
  }

  /** Row `i`, as the passes stand when it comes, keeps them together: it states no quantity; or it is
      of no contract; or its contract's book and its chain's legs hold all it asks of its direction; or,
      not a roll, it reaches no older contract of its chain. */
  predicate RowKeeps(raws: seq<Raw>, i: nat, was: Replacements)
    requires i < |raws|
  {
    var p := Infer(raws, i, 0.0);
    var f := RowRead(p, raws, i);
    f.qty > 0.0 ==> RowAgrees(p, After(raws, i, was), f)
  }

  lemma {:induction false} RunOfPrefix(a: seq<Fill>, b: seq<Fill>, k: nat, was: Replacements)
    requires k <= |a| && k <= |b| && a[..k] == b[..k]
    ensures Run(a, k, map[], was, 0.0) == Run(b, k, map[], was, 0.0)
  {
    hide Step;
    if k > 0 {
      assert a[..k - 1] == a[..k][..k - 1] && a[k - 1] == a[..k][k - 1] && b[k - 1] == b[..k][k - 1];
      RunOfPrefix(a, b, k - 1, was);
    }
  }

  lemma AfterNext(raws: seq<Raw>, i: nat, was: Replacements)
    requires i < |raws| && NormalRow(raws[i].fill)
    ensures var f, fills := RowRead(Infer(raws, i, 0.0), raws, i), Stated(Infer(raws, i, 0.0).out);
            After(raws, i + 1, was) == if f.qty > 0.0 then Step(After(raws, i, was), |fills|, f, was, 0.0)
                                       else After(raws, i, was)
  {
    hide Step, PassStep, RowRead;
    var p := Infer(raws, i, 0.0);
    var f, fills := RowRead(p, raws, i), Stated(p.out);
    RowIsRead(p, raws, i);
    var out := p.out + [f];
    assert Infer(raws, i + 1, 0.0).out == out && out[..|p.out|] == p.out;
    if f.qty > 0.0 {
      RunOfPrefix(fills + [f], fills, |fills|, was);
    } else {
      assert fills + [] == fills;
    }
  }

  lemma RowAgreesIff(raws: seq<Raw>, i: nat, was: Replacements)
    requires i < |raws| && NormalRow(raws[i].fill) && was.removed == map[]
    requires Agree(Infer(raws, i, 0.0), After(raws, i, was))
    ensures Agree(Infer(raws, i + 1, 0.0), After(raws, i + 1, was)) <==> RowKeeps(raws, i, was)
  {
    hide Agree, Step, PassStep, After, Stated, RowRead, PassTo, RowAgrees, Tally;
    var p, s := Infer(raws, i, 0.0), After(raws, i, was);
    var f := RowRead(p, raws, i);
    RowIsRead(p, raws, i);
    RowPasses(p, s, raws, i);
    AfterNext(raws, i, was);
    AgreesSameIff(PassStep(p, raws, i, 0.0), if f.qty > 0.0 then PassTo(p, f) else p, After(raws, i + 1, was));
    if f.qty > 0.0 {
      StepAgreesIff(p, s, f, |Stated(p.out)|, was);
    }
  }

  /** Over every journal, rolls included: the two passes agree after each of the first `n` rows if and
      only if each of those rows keeps them together. */
  lemma {:induction false} PassesAgreeIff(raws: seq<Raw>, n: nat, was: Replacements)
    requires n <= |raws| && Normal(raws) && was.removed == map[]
    ensures (forall i :: 0 <= i <= n ==> Agree(Infer(raws, i, 0.0), After(raws, i, was)))
            <==> forall i :: 0 <= i < n ==> RowKeeps(raws, i, was)
  {
    hide Agree, After, Infer, RowKeeps;
    if n == 0 {
      StartAgrees(raws, was);
    } else {
      PassesAgreeIff(raws, n - 1, was);
      assert NormalRow(raws[n - 1].fill);
      if Agree(Infer(raws, n - 1, 0.0), After(raws, n - 1, was)) {
        RowAgreesIff(raws, n - 1, was);
      }
    }
  }

  lemma StartAgrees(raws: seq<Raw>, was: Replacements)
    ensures Agree(Infer(raws, 0, 0.0), After(raws, 0, was))
  {
  }

  // ----- runs with no multileg row

  ghost predicate Simple(raws: seq<Raw>) {
    Normal(raws) && forall i :: 0 <= i < |raws| ==> !(raws[i].fill.symbol.IsOption() && raws[i].fill.multileg)
  }

  lemma {:induction false} NoneRolls(raws: seq<Raw>, i: nat)
    requires i <= |raws| && Simple(raws)
    ensures NoRolls(Stated(Infer(raws, i, 0.0).out))
  {
    hide PassStep, RowRead;
    if i > 0 {
      NoneRolls(raws, i - 1);
      var p := Infer(raws, i - 1, 0.0);
      RowIsRead(p, raws, i - 1);
      assert (p.out + [RowRead(p, raws, i - 1)])[..|p.out|] == p.out;
    }
  }

  /** With no multileg row, splits or replaced tickers, the totals after every row are what the
      matcher's lots come to, and every book holds lots of one direction only. */
  lemma {:induction false} PassesAgree(raws: seq<Raw>, i: nat, was: Replacements)
    requires i <= |raws| && Simple(raws) && was.removed == map[]
    ensures Agree(Infer(raws, i, 0.0), After(raws, i, was))
  {
    hide Agree, Infer, Run, RowRead, Covered;
    if i == 0 {
      StartAgrees(raws, was);
    } else {
      PassesAgree(raws, i - 1, was);
      var fills := Stated(Infer(raws, i - 1, 0.0).out);
      NoneRolls(raws, i - 1);
      RunPlain(fills, |fills|, map[], was, 0.0);
      RowIsRead(Infer(raws, i - 1, 0.0), raws, i - 1);
      RowAgreesIff(raws, i - 1, was);
    }
  }

  /** For the whole journal: the matcher's open quantity in each book and direction is the
      inference pass's, and no book holds both directions. */
  lemma PassesAgreeAtTheEnd(raws: seq<Raw>, was: Replacements, k: BookKey, d: Direction)
    requires Simple(raws) && was.removed == map[]
    ensures var p := Infer(raws, |raws|, 0.0);
            var fills := Stated(p.out);
            var s := Run(fills, |fills|, map[], was, 0.0);
            p.RemOf(k).Of(d) == OpenQty(On(s, Book(k)), d) && Uniform(On(s, Book(k)))
  {
    hide Infer, Run, Stated, OpenQty;
    PassesAgree(raws, |raws|, was);
    var p, s := Infer(raws, |raws|, 0.0), After(raws, |raws|, was);
    assert ShelfAgrees(p, On(s, Book(k)), Book(k)) && Tally(p, Book(k), d) == p.RemOf(k).Of(d);
  }

  // ----- with rolls they part

  const CHAIN := Symbol("XYZ 17JAN25 10.00 CALL", Some(Contract("XYZ", "CALL", "2025-01-17")))

  /** A multileg row of one contract, for `cash`. */
  function Leg(cash: real): Raw {
    Raw(Fill("TFSA", CHAIN, "USD", 0, Buy, 1.0, 0.0, 0.0, cash, false, true, false, Plain, Plain, None),
        false, false, false, false, false)
  }

  const LEG_KEY := BookKey("TFSA", CHAIN, "USD")
  const LEG_ROLL := RollKey("TFSA", "XYZ", "CALL")

  /** The fill the inference pass makes of it: with nothing held it is taken to close a short. */
  function LegRead(cash: real): Fill {
    Leg(cash).fill.(intent := ToClose, roll := Some(Short))
  }

  /** Nothing of the legs' chain is carried, and no other book is listed. */
  ghost predicate Alone(s: State) {
    && s.pending == map[] && (forall d :: On(s, Carried(LEG_ROLL, d)) == [])
    && (forall k :: k in s.order ==> k == LEG_KEY)
  }

  lemma RollClosesNothing(s: State, n: nat, cash: real)
    requires Alone(s) && LEG_KEY in s.books && OneWay(On(s, Book(LEG_KEY)), Long)
    ensures CloseRoll(s, n, LegRead(cash), Short, 0.0) == Going(TouchPool(s, LEG_ROLL), 1.0)
    ensures Alone(TouchPool(s, LEG_ROLL))
  {
    hide PerUnit, FeeShare;
    var f := LegRead(cash);
    assert f.Key() == LEG_KEY && f.Roll() == LEG_ROLL;
    var x := f.(price := RollExit(f, Short));
    assert CloseOn(s, Book(LEG_KEY), Short, n, x, 1.0, Own, 0.0) == Going(s, 1.0);
    var s2 := TouchPool(s, LEG_ROLL);
    assert On(s2, Carried(LEG_ROLL, Short)) == [] && On(s2, Carried(LEG_ROLL, Long)) == [] by {
      assert On(s, Carried(LEG_ROLL, Short)) == [] && On(s, Carried(LEG_ROLL, Long)) == [];
    }
    NoOlder(s2.books, s2.order, x);
  }

  /** With nothing of a chain to close, a roll opens a lot: long for a debit, short for a credit. */
  lemma RollOpensLot(s: State, n: nat, cash: real, was: Replacements)
    requires Alone(s) && OneWay(On(s, Book(LEG_KEY)), Long)
    ensures var f := LegRead(cash);
            var s' := Step(s, n, f, was, 0.0);
            Alone(s') && On(s', Book(LEG_KEY)) == On(s, Book(LEG_KEY)) + [RollOpens(n, f, 1.0)]
  {
    hide RollOpens, FeeShare, CloseRoll;
    var f := LegRead(cash);
    assert f.Key() == LEG_KEY && f.Roll() == LEG_ROLL;
    var s1 := TouchBook(s, LEG_KEY);
    assert Alone(s1) by {
      assert On(s, Carried(LEG_ROLL, Short)) == [] && On(s, Carried(LEG_ROLL, Long)) == [];
    }
    assert ApplySplits(s1, LEG_KEY, f.day) == s1;
    RollClosesNothing(s1, n, cash);
    var s2 := TouchPool(s1, LEG_ROLL);
    assert Step(s, n, f, was, 0.0) == SettleRoll(Going(s2, 1.0), n, f, Short, 0.0);
    assert On(s2, Carried(LEG_ROLL, Short)) == [] && On(s2, Carried(LEG_ROLL, Long)) == [];
  }

  lemma {:induction false} NoOlder(books: map<BookKey, seq<Lot>>, order: seq<BookKey>, f: Fill)
    requires forall k :: k in order ==> k == f.Key()
    ensures Olders(books, order, f) == []
  {
    if order != [] {
      assert order[|order| - 1] in order;
      var init := order[..|order| - 1];
      forall k | k in init ensures k == f.Key() {
        assert k in order;
      }
      NoOlder(books, init, f);
    }
  }

  /** Two rolls of one contract, a debit then a credit, with nothing held. */
  function TwoLegs(): seq<Raw> {
    [Leg(-100.0), Leg(100.0)]
  }

  lemma LegsRead()
    ensures Infer(TwoLegs(), 2, 0.0).out == [LegRead(-100.0), LegRead(100.0)]
    ensures Infer(TwoLegs(), 2, 0.0).RemOf(LEG_KEY) == NO_REM
  {
    var p1 := Infer(TwoLegs(), 1, 0.0);
    assert p1.out == [LegRead(-100.0)] && p1.RemOf(LEG_KEY) == NO_REM;
    assert p1.PoolOf(LEG_ROLL) == Rem(0.0, 1.0);
  }

  /** Without the condition the two passes part, and a book comes to hold both directions. */
  lemma RollsPartThePasses(was: Replacements)
    ensures var p := Infer(TwoLegs(), 2, 0.0);
            var lots := On(Run(p.out, 2, map[], was, 0.0), Book(LEG_KEY));
            && !Uniform(lots)
            && p.RemOf(LEG_KEY).Of(Long) != OpenQty(lots, Long)
  {
    hide Step, RollOpens, PerUnit;
    LegsRead();
    var out := [LegRead(-100.0), LegRead(100.0)];
    var s1 := Run(out, 1, map[], was, 0.0);
    RollOpensLot(Start(map[]), 0, -100.0, was);
    assert Run(out, 0, map[], was, 0.0) == Start(map[]) && s1 == Step(Start(map[]), 0, out[0], was, 0.0);
    RollLotIs(0, -100.0);
    RollOpensLot(s1, 1, 100.0, was);
    RollLotIs(1, 100.0);
    var a, b := RollOpens(0, out[0], 1.0), RollOpens(1, out[1], 1.0);
    assert On(Run(out, 2, map[], was, 0.0), Book(LEG_KEY)) == [] + [a] + [b];
    BothWays(a, b);
  }

  lemma BothWays(a: Lot, b: Lot)
    requires a.direction == Long && b.direction == Short
    ensures !Uniform([a, b]) && OpenQty([a, b], Long) == a.qty
    ensures [] + [a] + [b] == [a, b]
  {
    var lots := [a, b];
    assert lots[0].direction == Long && lots[1].direction == Short;
    assert lots[1..] == [b] && [b][1..] == [];
    assert OpenQty([b], Long) == 0.0;
  }

  lemma RollLotIs(n: nat, cash: real)
    ensures RollOpens(n, LegRead(cash), 1.0).direction == (if cash < 0.0 then Long else Short)
    ensures RollOpens(n, LegRead(cash), 1.0).qty == 1.0
  {
  }
}
