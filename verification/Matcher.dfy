/** The matcher itself: books, pools and pending splits changed in place, fill by fill. Each
    method is proved to do exactly what the functions of module Matching say. */
module FifoMatcher {
  import opened Trading
  import opened Ledger
  import opened Lots
  import opened Matching
  import opened Conservation
  import opened Runs
  import opened Settlement

  class Matcher {
    var books: map<BookKey, seq<Lot>>
    var order: seq<BookKey>
    var pools: map<RollKey, Pool>
    var poolOrder: seq<RollKey>
    var rolledKeys: set<RollKey>
    var pending: map<SplitKey, seq<Split>>
    var closed: seq<Slice>
    var unmatched: seq<Orphan>
    ghost var log: seq<Entry>
    const was: Replacements
    const eps: real

    /** What is returned is what the history says was closed and left unmatched. */
    ghost predicate Valid()
      reads this
    {
      eps >= 0.0 && closed == Slices(log) && unmatched == Orphans(log)
    }

    ghost function View(): State
      reads this
    {
      State(books, order, pools, poolOrder, rolledKeys, pending, log)
    }

    constructor (pending: map<SplitKey, seq<Split>>, was: Replacements, eps: real)
      requires eps >= 0.0
      ensures Valid() && View() == Start(pending)
      ensures this.was == was && this.eps == eps
    {
      books, order, pools, poolOrder, rolledKeys := map[], [], map[], [], {};
      this.pending, this.was, this.eps := pending, was, eps;
      closed, unmatched, log := [], [], [];
    }

    function LotsOn(at: Shelf): (lots: seq<Lot>)
      reads this
      ensures lots == On(View(), at)
    {
      match at
      case Book(k) => if k in books then books[k] else []
      case Carried(r, d) => if r in pools then pools[r].Legs(d) else []
    }

    /** The shelf's lots become `lots`; what `es` closes is appended to the closed slices. */
    method Shelve(at: Shelf, lots: seq<Lot>, slices: seq<Slice>, ghost es: seq<Entry>)
      requires Valid() && Slices(es) == slices && Orphans(es) == []
      modifies this
      ensures Valid() && View() == Put(old(View()), at, lots, es)
    {
      match at {
        case Book(k) => books := books[k := lots];
        case Carried(r, d) =>
          var pool := if r in pools then pools[r] else EMPTY_POOL;
          pools := pools[r := pool.With(d, lots)];
      }
      closed := closed + slices;
      SlicesAppend(log, es);
      OrphansAppend(log, es);
      log := log + es;
    }

    /** Close from the front of a shelf until the fill is used, the shelf is empty or its
        first lot is of the other direction. */
    method CloseAgainst(at: Shelf, dir: Direction, n: nat, f: Fill, asked: real, mode: Mode) returns (left: real)
      requires Valid()
      modifies this
      ensures Valid()
      ensures Going(View(), left) == CloseOn(old(View()), at, dir, n, f, asked, mode, eps)
    {
      hide Take, MatchEntries, MakeSlice, FeeShare, Slices, Orphans;
      left := asked;
      while left > eps && LotsOn(at) != [] && (mode.Pooled? || LotsOn(at)[0].direction == dir)
        invariant Valid()
        invariant CloseOn(View(), at, dir, n, f, left, mode, eps) == CloseOn(old(View()), at, dir, n, f, asked, mode,
            eps)
        decreases |LotsOn(at)|, left > eps
      {
        var lots := LotsOn(at);
        var lot := lots[0];
        var matched := Min(lot.qty, left);
        var slices := if mode.Outward? then [] else [MakeSlice(lot, ExitOf(n, f), matched, mode)];
        var rest := Remainder(lot, matched, mode, f.symbol);
        ghost var es := MatchEntries(lot, ExitOf(n, f), n, matched, mode, eps);
        Unroll(View(), at, dir, n, f, left, mode, eps);
        MatchSlices(lot, ExitOf(n, f), n, matched, mode, eps);
        if rest.qty <= eps {
          Shelve(at, lots[1..], slices, es);
        } else {
          Shelve(at, [rest] + lots[1..], slices, es);
        }
        left := left - matched;
      }
    }

    /** Close the legs carried forward on the fill's chain, then the chain's older contracts. */
    method CloseCarried(dir: Direction, n: nat, f: Fill, asked: real) returns (left: real)
      requires Valid()
      modifies this
      ensures Valid()
      ensures Going(View(), left) == CloseRolled(old(View()), dir, n, f, asked, eps)
    {
      hide CloseOn, Slices, Orphans, Olders, CloseOlder, OlderContract;
      if f.Roll() !in pools {
        pools, poolOrder := pools[f.Roll() := EMPTY_POOL], poolOrder + [f.Roll()];
      }
      assert View() == TouchPool(old(View()), f.Roll());
      left := CloseAgainst(Carried(f.Roll(), dir), dir, n, f, asked, Pooled);
      if left > eps && f.Roll() in rolledKeys {
        var others := OlderBooks(f);
        left := CloseChain(others, dir, n, f, left);
      }
    }

    /** The chain's other contracts still held, nearest expiry first. */
    method OlderBooks(f: Fill) returns (others: seq<BookKey>)
      ensures others == Olders(books, order, f)
    {
      hide OlderContract, Insert;
      others := [];
      for i := 0 to |order|
        invariant others == Olders(books, order[..i], f)
      {
        assert order[..i + 1][..i] == order[..i];
        if OlderContract(books, order[i], f) {
          others := Insert(order[i], others);
        }
      }
      assert order[..|order|] == order;
    }

    method CloseChain(others: seq<BookKey>, dir: Direction, n: nat, f: Fill, asked: real) returns (left: real)
      requires Valid()
      modifies this
      ensures Valid()
      ensures Going(View(), left) == CloseOlder(old(View()), others, dir, n, f, asked, eps)
    {
      hide CloseOn, Slices, Orphans;
      left := asked;
      for i := 0 to |others|
        invariant Valid()
        invariant CloseOlder(View(), others[i..], dir, n, f, left, eps) == CloseOlder(old(View()), others, dir, n, f,
            asked, eps)
      {
        assert others[i..][1..] == others[i + 1..];
        left := CloseAgainst(Book(others[i]), dir, n, f, left, Older);
      }
    }

    /** A sale beyond its own book closes the books of tickers it replaced. */
    method CloseOldTickers(n: nat, f: Fill, asked: real) returns (left: real)
      requires Valid()
      modifies this
      ensures Valid()
      ensures Going(View(), left) == CloseReplaced(old(View()), old(order), n, f, asked, was, eps)
    {
      hide CloseOn, Slices, Orphans;
      left := asked;
      var ks := order;
      var i := 0;
      while i < |ks| && left > eps
        invariant 0 <= i <= |ks|
        invariant Valid()
        invariant CloseReplaced(View(), ks[i..], n, f, left, was, eps) == CloseReplaced(old(View()), ks, n, f, asked,
            was, eps)
        decreases |ks| - i
      {
        var k := ks[i];
        assert ks[i..][1..] == ks[i + 1..];
        if !(LotsOn(Book(k)) == [] || k == f.Key() || k.account != f.account || k.currency != f.currency
             || !was.Replaced(k, f.day)) {
          left := CloseAgainst(Book(k), f.Closing(), n, f, left, Renamed);
        }
        i := i + 1;
      }
    }

    /** A lot opens at the back of its shelf. */
    method Open(at: Shelf, lot: Lot)
      requires Valid()
      modifies this
      ensures Valid() && View() == OpenLot(old(View()), at, lot)
    {
      hide Put;
      assert Slices([Opened(lot)]) == [] && Orphans([Opened(lot)]) == [] by {
        assert [Opened(lot)][1..] == [];
      }
      Shelve(at, LotsOn(at) + [lot], [], [Opened(lot)]);
    }

    /** An entry about no lot: only an unmatched row is returned to the caller. */
    method Record(rows: seq<Orphan>, ghost e: Entry)
      requires Valid() && !e.Closed? && rows == Orphans([e])
      modifies this
      ensures Valid() && View() == Note(old(View()), e)
    {
      assert Slices([e]) == [] by {
        assert [e][1..] == [];
      }
      SlicesAppend(log, [e]);
      OrphansAppend(log, [e]);
      unmatched := unmatched + rows;
      log := log + [e];
    }

    /** The splits due by `day` restate the lots of the first book of the symbol touched. */
    method TakeSplits(k: BookKey, day: int)
      requires Valid()
      modifies this
      ensures Valid() && View() == ApplySplits(old(View()), k, day)
    {
      hide Slices, Orphans, SortSplits, Put;
      var sk := SplitKeyOf(k);
      if sk !in pending {
        return;
      }
      var todo := SortSplits(pending[sk]);
      var keep := [];
      for i := 0 to |todo|
        invariant Valid() && pending == old(pending)
        invariant SplitBook(View(), k, todo[i..], day) == SplitBook(old(View()), k, todo, day)
        invariant keep + Later(todo[i..], day) == Later(todo, day)
      {
        assert todo[i..][1..] == todo[i + 1..];
        if todo[i].day <= day {
          if k in books {
            RestateBook(k, todo[i].factor);
          }
        } else {
          assert keep + ([todo[i]] + Later(todo[i + 1..], day)) == (keep + [todo[i]]) + Later(todo[i + 1..], day);
          keep := keep + [todo[i]];
        }
      }
      SplitsPending(old(View()), k, todo, day);
      assert keep + [] == keep;
      pending := if keep == [] then pending - {sk} else pending[sk := keep];
    }

    method RestateBook(k: BookKey, factor: Ratio)
      requires Valid() && k in books
      modifies this
      ensures Valid() && pending == old(pending)
      ensures View() == Put(old(View()), Book(k), Restate(old(books[k]), factor), RestateEntries(old(books[k]), factor))
    {
      hide Slices, Orphans, Restate, RestateEntries;
      ghost var was := books[k];
      var lots := RestateLots(books[k], factor);
      RestateCloses(was, factor);
      Shelve(Book(k), lots, [], RestateEntries(was, factor));
    }

    /** One fill. */
    method Process(n: nat, f: Fill)
      requires Valid()
      modifies this
      ensures Valid() && View() == Step(old(View()), n, f, was, eps)
    {
      hide Slices, Orphans, CloseOn, CloseRolled, CloseReplaced, ApplySplits, SettleRoll, Settle, Note;
      var key := f.Key();
      if key !in books {
        books, order := books[key := []], order + [key];
      }
      assert View() == TouchBook(old(View()), key);
      TakeSplits(key, f.day);
      if IsRoll(f) {
        var d := f.roll.value;
        var x := f.(price := RollExit(f, d));
        var left := CloseAgainst(Book(key), f.Closing(), n, x, f.qty, Own);
        left := CloseCarried(d, n, x, left);
        Carry(n, f, d, left);
      } else if f.transferOut {
        var left := CloseAgainst(Book(key), Long, n, f, f.qty, Outward);
        assert Orphans([Excess(n, left, 0.0)]) == [] by {
          OrphansOfOne(Excess(n, left, 0.0));
        }
        Record([], Excess(n, left, 0.0));
      } else {
        var left := CloseAgainst(Book(key), f.Closing(), n, f, f.qty, Own);
        if left > eps && f.symbol.IsOption() {
          left := CloseCarried(f.Closing(), n, f, left);
        }
        if left > eps && f.side.Sell? {
          left := CloseOldTickers(n, f, left);
        }
        Finishing(n, f, left);
      }
    }

    /** What the fill did not close. */
    method Finishing(n: nat, f: Fill, left: real)
      requires Valid()
      modifies this
      ensures Valid() && View() == Settle(Going(old(View()), left), n, f, eps)
    {
      hide Slices, Orphans, IsDust, FeeShare, OpenLot, NewLot;
      ghost var fee := FeeShare(f.commission, left, f.qty);
      OrphansOfOne(Rest(n, left, fee));
      OrphansOfOne(Dust(n, left, fee));
      OrphansOfOne(Unmatched(Orphan(n, f.side, left, f.price), fee));
      if left <= eps || (f.side.Sell? && f.Opening() == None && IsDust(left, f)) {
        Record([], if left <= eps then Rest(n, left, fee) else Dust(n, left, fee));
      } else if f.Opening().Some? {
        Open(Book(f.Key()), NewLot(n, f, left, f.Opening().value));
      } else {
        Record([Orphan(n, f.side, left, f.price)], Unmatched(Orphan(n, f.side, left, f.price), fee));
      }
    }

    /** What a roll closed is carried to the next contract; what it did not opens a lot. */
    method Carry(n: nat, f: Fill, d: Direction, left: real)
      requires Valid()
      modifies this
      ensures Valid() && View() == SettleRoll(Going(old(View()), left), n, f, d, eps)
    {
      hide Slices, Orphans, FeeShare, OpenLot, CarriedLot, RollOpens;
      var moved := f.qty - left;
      rolledKeys := rolledKeys + {f.Roll()};
      if moved > eps {
        Open(Carried(f.Roll(), d), CarriedLot(n, f, d, moved));
      }
      ghost var fee := FeeShare(f.commission, left, f.qty);
      OrphansOfOne(Rest(n, left, fee));
      OrphansOfOne(Forgone(n, fee));
      if left > eps {
        Open(Book(f.Key()), RollOpens(n, f, left));
        Record([], Forgone(n, fee));
      } else {
        Record([], Rest(n, left, fee));
      }
    }

    /** Legs still carried when the fills are over are closed as rolled out. */
    method RollOutShelf(r: RollKey, d: Direction)
      requires Valid()
      modifies this
      ensures Valid() && View() == RollOutOn(old(View()), Carried(r, d), eps)
    {
      hide Slices, Orphans, Put, RollOut;
      var lots := LotsOn(Carried(r, d));
      var slices := RollOutLots(lots, eps);
      RollOutOrphans(lots, eps);
      if lots != [] {
        Shelve(Carried(r, d), [], slices, RollOut(lots, eps));
      }
    }

    method RollOutPools()
      requires Valid()
      modifies this
      ensures Valid() && View() == RollOutAll(old(View()), old(poolOrder), eps)
    {
      hide Slices, Orphans, RollOutOn;
      var rs := poolOrder;
      for i := 0 to |rs|
        invariant Valid()
        invariant RollOutAll(View(), rs[i..], eps) == RollOutAll(old(View()), rs, eps)
      {
        assert rs[i..][1..] == rs[i + 1..];
        RollOutShelf(rs[i], Long);
        RollOutShelf(rs[i], Short);
      }
    }

    method SplitBooks()
      requires Valid()
      modifies this
      ensures Valid() && View() == SplitAll(old(View()), old(order))
    {
      hide Slices, Orphans, ApplySplits;
      var ks := order;
      for i := 0 to |ks|
        invariant Valid()
        invariant SplitAll(View(), ks[i..]) == SplitAll(old(View()), ks)
      {
        assert ks[i..][1..] == ks[i + 1..];
        TakeSplits(ks[i], FAR_DAY);
      }
    }

    method Positions() returns (open: seq<Lot>)
      ensures open == OpenLots(View(), order)
    {
      hide ShownLots;
      open := [];
      for i := 0 to |order|
        invariant open + OpenLots(View(), order[i..]) == OpenLots(View(), order)
      {
        assert order[i..][1..] == order[i + 1..];
        open := open + ShownLots(LotsOn(Book(order[i])));
      }
    }
  }

  /** Each lot of a book restated in place. */
  method RestateLots(was: seq<Lot>, factor: Ratio) returns (lots: seq<Lot>)
    ensures lots == Restate(was, factor)
  {
    hide RestateLot, Restate;
    lots := was;
    RestateNone(factor);
    for i := 0 to |lots|
      invariant |lots| == |was| && lots[i..] == was[i..]
      invariant lots[..i] == Restate(was[..i], factor)
    {
      RestateSnoc(was[..i], was[i], factor);
      assert was[..i] + [was[i]] == was[..i + 1];
      lots := lots[i := RestateLot(lots[i], factor)];
      assert lots[..i + 1] == lots[..i] + [lots[i]];
    }
    assert was[..|was|] == was && lots[..|lots|] == lots;
  }

  /** The slices that close a pool's leftover legs. */
  method RollOutLots(lots: seq<Lot>, eps: real) returns (slices: seq<Slice>)
    ensures slices == Slices(RollOut(lots, eps))
  {
    hide MakeSlice, RollOut, Slices;
    slices := [];
    for i := 0 to |lots|
      invariant slices + Slices(RollOut(lots[i..], eps)) == Slices(RollOut(lots, eps))
    {
      var l := lots[i];
      assert lots[i..][1..] == lots[i + 1..];
      RollOutSlices(lots[i..], eps);
      if l.qty > eps {
        var x := MakeSlice(l, Exit(None, l.qty, 0.0, 0.0, l.day, l.symbol), l.qty, Own);
        assert slices + ([x] + Slices(RollOut(lots[i + 1..], eps))) == (slices + [x]) + Slices(RollOut(lots[i + 1..],
            eps));
        slices := slices + [x];
      }
    }
    RollOutSlices([], eps);
  }

  lemma RestateNone(factor: Ratio)
    ensures Restate([], factor) == []
  {
  }

  /** First in, first out over all the fills: the slices closed, the lots open, the rows
      nothing matches. */
  method MatchFifo(fills: seq<Fill>, pending: map<SplitKey, seq<Split>>, was: Replacements, eps: real)
    returns (closed: seq<Slice>, open: seq<Lot>, unmatched: seq<Orphan>)
    requires eps >= 0.0 && Usable(fills)
    ensures var s := Final(fills, pending, was, eps);
            closed == Slices(s.log) && open == OpenLots(s, s.order) && unmatched == Orphans(s.log)
  {
    hide Slices, Orphans, Step, SplitAll, RollOutAll, OpenLots, Inv;
    var m := new Matcher(pending, was, eps);
    for n := 0 to |fills|
      invariant m.Valid() && m.was == was && m.eps == eps
      invariant m.View() == Run(fills, n, pending, was, eps)
    {
      m.Process(n, fills[n]);
    }
    RunKeeps(fills, |fills|, pending, was, eps);
    SplitAllKeeps(m.View(), fills, 2 * |fills|, m.order, eps);
    m.SplitBooks();
    m.RollOutPools();
    closed, unmatched := m.closed, m.unmatched;
    open := m.Positions();
  }

  lemma MatchSlices(lot: Lot, x: Exit, n: nat, matched: real, mode: Mode, eps: real)
    ensures var es := MatchEntries(lot, x, n, matched, mode, eps);
            Slices(es) == (if mode.Outward? then [] else [MakeSlice(lot, x, matched, mode)]) && Orphans(es) == []
  {
    hide MakeSlice, FeeShare;
    var es := MatchEntries(lot, x, n, matched, mode, eps);
    if |es| == 1 {
      assert es[1..] == [];
    } else {
      assert es[1..] == [es[1]];
      assert [es[1]][1..] == [];
      assert Slices([es[1]]) == [] && Orphans([es[1]]) == [];
    }
  }

  /** One turn of the loop, and the rest of it. */
  lemma Unroll(s: State, at: Shelf, dir: Direction, n: nat, f: Fill, left: real, mode: Mode, eps: real)
    requires eps >= 0.0 && Takes(On(s, at), dir, left, mode, eps)
    ensures var lots := On(s, at);
            var matched := Min(lots[0].qty, left);
            var es := MatchEntries(lots[0], ExitOf(n, f), n, matched, mode, eps);
            var rest := if lots[0].qty - matched <= eps then lots[1..]
                        else [Remainder(lots[0], matched, mode, f.symbol)] + lots[1..];
            CloseOn(Put(s, at, rest, es), at, dir, n, f, left - matched, mode, eps) == CloseOn(s, at, dir, n, f,
                left, mode, eps)
  {
    hide MatchEntries, Remainder;
    var lots := On(s, at);
    var x := ExitOf(n, f);
    var matched := Min(lots[0].qty, left);
    var es := MatchEntries(lots[0], x, n, matched, mode, eps);
    if lots[0].qty - matched <= eps {
      var t := Take(lots[1..], dir, x, n, left - matched, mode, eps);
      PutTwice(s, at, lots[1..], es, t.lots, t.entries);
      PutNothing(s, at, lots[1..], es);
    }
  }

  lemma PutTwice(s: State, at: Shelf, a: seq<Lot>, es: seq<Entry>, b: seq<Lot>, es': seq<Entry>)
    ensures Put(Put(s, at, a, es), at, b, es') == Put(s, at, b, es + es')
    ensures On(Put(s, at, a, es), at) == a
  {
    assert (s.log + es) + es' == s.log + (es + es');
  }

  lemma PutNothing(s: State, at: Shelf, a: seq<Lot>, es: seq<Entry>)
    ensures Put(s, at, a, es + []) == Put(s, at, a, es)
  {
    assert es + [] == es;
  }

  lemma OrphansOfOne(e: Entry)
    ensures Orphans([e]) == if e.Unmatched? then [e.orphan] else []
  {
    assert [e][1..] == [];
  }

  lemma {:induction false} SplitsPending(s: State, k: BookKey, todo: seq<Split>, day: int)
    ensures SplitBook(s, k, todo, day).pending == s.pending
    decreases todo
  {
    if todo != [] {
      var lots := On(s, Book(k));
      SplitsPending(if todo[0].day <= day && k in s.books
                    then Put(s, Book(k), Restate(lots, todo[0].factor), RestateEntries(lots, todo[0].factor))
                    else s, k, todo[1..], day);
    }
  }

  lemma {:induction false} RestateSnoc(lots: seq<Lot>, lot: Lot, factor: Ratio)
    ensures Restate(lots + [lot], factor) == Restate(lots, factor) + [RestateLot(lot, factor)]
  {
    hide RestateLot;
    if lots == [] {
      assert lots + [lot] == [lot];
      assert [lot][1..] == [];
      assert Restate([], factor) == [];
    } else {
      assert (lots + [lot])[0] == lots[0] && (lots + [lot])[1..] == lots[1..] + [lot];
      RestateSnoc(lots[1..], lot, factor);
    }
  }

  lemma {:induction false} RestateCloses(lots: seq<Lot>, factor: Ratio)
    ensures Slices(RestateEntries(lots, factor)) == [] && Orphans(RestateEntries(lots, factor)) == []
  {
    if lots != [] {
      assert RestateEntries(lots, factor)[1..] == RestateEntries(lots[1..], factor);
      RestateCloses(lots[1..], factor);
    }
  }

  lemma RollOutSlices(lots: seq<Lot>, eps: real)
    ensures Slices(RollOut(lots, eps))
            == if lots == [] then []
               else (if lots[0].qty <= eps then []
                     else [MakeSlice(lots[0], Exit(None, lots[0].qty, 0.0, 0.0, lots[0].day, lots[0].symbol),
                               lots[0].qty, Own)])
                    + Slices(RollOut(lots[1..], eps))
  {
    hide MakeSlice;
    if lots != [] {
      assert RollOut(lots, eps)[1..] == RollOut(lots[1..], eps);
    }
  }

  lemma {:induction false} RollOutOrphans(lots: seq<Lot>, eps: real)
    ensures Orphans(RollOut(lots, eps)) == []
  {
    hide MakeSlice;
    if lots != [] {
      assert RollOut(lots, eps)[1..] == RollOut(lots[1..], eps);
      RollOutOrphans(lots[1..], eps);
    }
  }
}
