/** The cash of a run: all that its fills moved is in the profits taken, in the lots still open,
    or in an entry of the history that says where it went. */
module CashFlow {
  import opened Trading
  import opened Ledger
  import opened Lots
  import opened Matching
  import opened Runs
  import Settlement

  /** The cash of `qty` at `price`, `m` to the unit: out for what is bought, in for what is sold,
      less the commission. */
  function Moved(d: Direction, qty: real, price: real, m: real, fee: real): real {
    (if d.Long? then -(qty * price * m) else qty * price * m) - fee
  }

  function Opposite(d: Direction): Direction {
    if d.Long? then Short else Long
  }

  /** The cash a lot still open has moved. */
  function Paid(l: Lot): real {
    Moved(l.direction, l.qty, l.price, l.symbol.Multiplier(), l.commission)
  }

  function QueuePaid(lots: seq<Lot>): real {
    if lots == [] then 0.0 else Paid(lots[0]) + QueuePaid(lots[1..])
  }

  function BooksPaid(books: map<BookKey, seq<Lot>>, order: seq<BookKey>): real {
    if order == [] then 0.0
    else (if order[0] in books then QueuePaid(books[order[0]]) else 0.0) + BooksPaid(books, order[1..])
  }

  function PoolPaid(p: Pool): real {
    QueuePaid(p.long) + QueuePaid(p.short)
  }

  function PoolsPaid(pools: map<RollKey, Pool>, order: seq<RollKey>): real {
    if order == [] then 0.0
    else (if order[0] in pools then PoolPaid(pools[order[0]]) else 0.0) + PoolsPaid(pools, order[1..])
  }

  // ----- what a fill moved, and where the history says it went

  /** The way a fill moves cash. */
  function Way(f: Fill): Direction {
    if f.side.Buy? then Long else Short
  }

  function RollWay(f: Fill): Direction {
    if f.cash < 0.0 then Long else Short
  }

  /** The cash of a part of a fill. */
  function Part(f: Fill, qty: real, fee: real): real {
    if IsRoll(f) then Moved(RollWay(f), qty, PerUnit(f), 100.0, fee)
    else Moved(Way(f), qty, f.price, f.symbol.Multiplier(), fee)
  }

  /** The cash of a fill: a roll's is stated, coins sent out move none. */
  function Cash(f: Fill): real {
    if IsRoll(f) then f.cash - f.commission
    else if f.transferOut then 0.0
    else Part(f, f.qty, f.commission)
  }

  function CashOf(fills: seq<Fill>, n: nat): real
    requires n <= |fills|
  {
    if n == 0 then 0.0 else CashOf(fills, n - 1) + Cash(fills[n - 1])
  }

  function DirectionOf(f: Fill, rolled: bool): Direction {
    if !IsRoll(f) then Way(f) else if rolled && f.roll.Some? then f.roll.value else RollWay(f)
  }

  /** The cash of a part of a lot. */
  function PartOfLot(fills: seq<Fill>, id: LotId, qty: real, price: real, fee: real): real {
    if id.fill < |fills|
    then Moved(DirectionOf(fills[id.fill], id.rolled), qty, price, fills[id.fill].symbol.Multiplier(), fee)
    else 0.0
  }

  function PartOfFill(fills: seq<Fill>, n: nat, qty: real, fee: real): real {
    if n < |fills| then Part(fills[n], qty, fee) else 0.0
  }

  /** The cash an entry accounts for that is neither profit nor open: what left at cost, residues, what
      nothing matched, less commission forgone, and with what was charged and still stays. */
  function Other(fills: seq<Fill>, e: Entry): real {
    match e
    case Sent(id, _, q, p, fee) => PartOfLot(fills, id, q, p, fee)
    case Dropped(id, q, p, fee) => PartOfLot(fills, id, q, p, fee)
    case Recharged(_, fee) => fee
    case Unmatched(o, fee) => PartOfFill(fills, o.fill, o.qty, fee)
    case Dust(n, q, fee) => PartOfFill(fills, n, q, fee)
    case Rest(n, q, fee) => PartOfFill(fills, n, q, fee)
    case Forgone(_, fee) => -fee
    case _ => 0.0
  }

  function Others(fills: seq<Fill>, log: seq<Entry>): real {
    if log == [] then 0.0 else Other(fills, log[0]) + Others(fills, log[1..])
  }

  function Profit(ss: seq<Slice>): real {
    if ss == [] then 0.0 else ss[0].pnl + Profit(ss[1..])
  }

  /** What the history accounts for. */
  function Told(fills: seq<Fill>, log: seq<Entry>): real {
    Profit(Slices(log)) + Others(fills, log)
  }

  lemma {:induction false} ProfitAppends(a: seq<Slice>, b: seq<Slice>)
    ensures Profit(a + b) == Profit(a) + Profit(b)
  {
    if a == [] {
      assert a + b == b;
    } else {
      assert (a + b)[0] == a[0] && (a + b)[1..] == a[1..] + b;
      ProfitAppends(a[1..], b);
    }
  }

  lemma {:induction false} OthersAppend(fills: seq<Fill>, a: seq<Entry>, b: seq<Entry>)
    ensures Others(fills, a + b) == Others(fills, a) + Others(fills, b)
  {
    hide Other;
    if a == [] {
      assert a + b == b;
    } else {
      assert (a + b)[0] == a[0] && (a + b)[1..] == a[1..] + b;
      OthersAppend(fills, a[1..], b);
    }
  }

  lemma ToldAppends(fills: seq<Fill>, a: seq<Entry>, b: seq<Entry>)
    ensures Told(fills, a + b) == Told(fills, a) + Told(fills, b)
  {
    hide Profit, Others, Slices;
    SlicesAppend(a, b);
    ProfitAppends(Slices(a), Slices(b));
    OthersAppend(fills, a, b);
  }

  lemma {:induction false} ToldOne(fills: seq<Fill>, e: Entry)
    ensures Told(fills, [e]) == if e.Closed? then e.slice.pnl else Other(fills, e)
  {
    hide Other;
    assert [e][1..] == [] && Slices([]) == [] && Others(fills, []) == 0.0 && Profit([]) == 0.0;
    assert Slices([e]) == if e.Closed? then [e.slice] else [];
    if e.Closed? {
      assert [e.slice][1..] == [];
      assert Other(fills, e) == 0.0 by { ClosedIsNoOther(fills, e); }
    }
  }

  lemma ClosedIsNoOther(fills: seq<Fill>, e: Entry)
    requires e.Closed?
    ensures Other(fills, e) == 0.0
  {
  }

  lemma ToldTwo(fills: seq<Fill>, e: Entry, e': Entry)
    ensures Told(fills, [e, e']) == Told(fills, [e]) + Told(fills, [e'])
  {
    hide Told;
    assert [e, e'] == [e] + [e'];
    ToldAppends(fills, [e], [e']);
  }

  // ----- cash adds up

  lemma MovedAdds(d: Direction, q: real, q': real, price: real, m: real, fee: real, fee': real)
    ensures Moved(d, q, price, m, fee) + Moved(d, q', price, m, fee') == Moved(d, q + q', price, m, fee + fee')
  {
    assert (q + q') * price == q * price + q' * price;
    assert (q * price + q' * price) * m == q * price * m + q' * price * m;
  }

  lemma Spreads(entry: real, exit: real, qty: real, m: real)
    ensures (exit - entry) * qty * m == qty * exit * m - qty * entry * m
  {
    assert (exit - entry) * qty == qty * exit - qty * entry;
    assert (qty * exit - qty * entry) * m == qty * exit * m - qty * entry * m;
  }

  /** A slice's profit is the cash of its part of the lot and of its part of the fill. */
  lemma ProfitIsCash(lot: Lot, x: Exit, matched: real, mode: Mode)
    requires x.symbol.Multiplier() == lot.symbol.Multiplier()
    ensures MakeSlice(lot, x, matched, mode).pnl
            == Moved(lot.direction, matched, lot.price, lot.symbol.Multiplier(),
                   FeeShare(lot.commission, matched, lot.qty))
               + Moved(Opposite(lot.direction), matched, x.price, x.symbol.Multiplier(),
                   FeeShare(x.commission, matched, x.qty))
  {
    hide FeeShare;
    Spreads(lot.price, x.price, matched, lot.symbol.Multiplier());
    Spreads(x.price, lot.price, matched, lot.symbol.Multiplier());
  }

  // ----- one match

  /** What a unit of a shelf's lots stands for. */
  function UnitsOn(at: Shelf): real {
    match at
    case Book(k) => k.symbol.Multiplier()
    case Carried(_, _) => 100.0
  }

  function AccountOn(at: Shelf): string {
    match at
    case Book(k) => k.account
    case Carried(r, _) => r.account
  }

  /** A lot says what the fill that opened it did, and lies with its like. */
  ghost predicate Filed(fills: seq<Fill>, l: Lot, at: Shelf) {
    && l.id.fill < |fills| && l.qty > 0.0
    && l.day == fills[l.id.fill].day && AccountOn(at) == fills[l.id.fill].account
    && (at.Book? ==> l.symbol == at.key.symbol)
    && l.direction == DirectionOf(fills[l.id.fill], l.id.rolled)
    && l.symbol.Multiplier() == UnitsOn(at) == fills[l.id.fill].symbol.Multiplier()
    && (at.Carried? ==> l.direction == at.direction)
  }

  ghost predicate AllFiled(fills: seq<Fill>, lots: seq<Lot>, at: Shelf) {
    forall i :: 0 <= i < |lots| ==> Filed(fills, lots[i], at)
  }

  /** The cash of what `qty` of a leaving fill closed. */
  function Leaves(dir: Direction, x: Exit, qty: real): real {
    Moved(Opposite(dir), qty, x.price, x.symbol.Multiplier(), FeeShare(x.commission, qty, x.qty))
  }

  lemma LeavesAdds(dir: Direction, x: Exit, a: real, b: real, c: real)
    requires a + b == c
    ensures Leaves(dir, x, a) + Leaves(dir, x, b) == Leaves(dir, x, c)
  {
    hide Moved;
    FeeAdds(x.commission, a, b, c, x.qty);
    MovedAdds(Opposite(dir), a, b, x.price, x.symbol.Multiplier(), FeeShare(x.commission, a, x.qty),
        FeeShare(x.commission, b, x.qty));
  }

  lemma LeavesNothing(dir: Direction, x: Exit)
    ensures Leaves(dir, x, 0.0) == 0.0
  {
    assert 0.0 * x.price * x.symbol.Multiplier() == 0.0;
    if x.qty > 0.0 {
      assert 0.0 / x.qty == 0.0;
    }
  }

  /** The cash of a lot of which part goes. */
  lemma PaidSplits(l: Lot, matched: real)
    ensures Paid(l) == Moved(l.direction, matched, l.price, l.symbol.Multiplier(),
                           FeeShare(l.commission, matched, l.qty))
                       + Moved(l.direction, l.qty - matched, l.price, l.symbol.Multiplier(),
                           l.commission - FeeShare(l.commission, matched, l.qty))
  {
    hide Moved, FeeShare;
    var fee := FeeShare(l.commission, matched, l.qty);
    MovedAdds(l.direction, matched, l.qty - matched, l.price, l.symbol.Multiplier(), fee, l.commission - fee);
  }

  lemma RemainderPaid(l: Lot, matched: real, mode: Mode, symbol: Symbol)
    requires l.qty > 0.0 && symbol.Multiplier() == l.symbol.Multiplier()
    ensures var fee := FeeShare(l.commission, matched, l.qty);
            Paid(Remainder(l, matched, mode, symbol)) + (if mode.Scales() then 0.0 else fee)
            == Moved(l.direction, l.qty - matched, l.price, l.symbol.Multiplier(), l.commission - fee)
  {
    hide FeeShare;
    FeeSplits(l.commission, matched, l.qty);
  }

  lemma FirstTold(fills: seq<Fill>, lot: Lot, x: Exit, n: nat, matched: real, mode: Mode, at: Shelf)
    requires Filed(fills, lot, at) && x.symbol.Multiplier() == UnitsOn(at)
    ensures Told(fills, [MatchEntry(lot, x, n, matched, mode)])
            == Moved(lot.direction, matched, lot.price, lot.symbol.Multiplier(),
                   FeeShare(lot.commission, matched, lot.qty))
               + if mode.Outward? then 0.0 else Leaves(lot.direction, x, matched)
  {
    hide Told, Moved, MakeSlice, FeeShare;
    ToldOne(fills, MatchEntry(lot, x, n, matched, mode));
    if !mode.Outward? {
      ProfitIsCash(lot, x, matched, mode);
    }
  }

  /** One match: what the lot had paid is in what is left of it and what the history says. */
  lemma MatchKeeps(fills: seq<Fill>, lot: Lot, x: Exit, n: nat, matched: real, mode: Mode, eps: real, at: Shelf)
    requires Filed(fills, lot, at) && x.symbol.Multiplier() == UnitsOn(at)
    ensures Told(fills, MatchEntries(lot, x, n, matched, mode, eps))
            + (if lot.qty - matched <= eps then 0.0 else Paid(Remainder(lot, matched, mode, x.symbol)))
            == Paid(lot) + if mode.Outward? then 0.0 else Leaves(lot.direction, x, matched)
  {
    hide Told, Moved, MatchEntry, FeeShare, Paid, Remainder, Leaves;
    var fee := FeeShare(lot.commission, matched, lot.qty);
    var first := MatchEntry(lot, x, n, matched, mode);
    var dropped, again := Dropped(lot.id, lot.qty - matched, lot.price, lot.commission - fee), Recharged(lot.id, fee);
    PaidSplits(lot, matched);
    FirstTold(fills, lot, x, n, matched, mode, at);
    RemainderPaid(lot, matched, mode, x.symbol);
    ToldTwo(fills, first, dropped);
    ToldTwo(fills, first, again);
    ToldOne(fills, dropped);
    ToldOne(fills, again);
  }

  lemma RemainderFiled(fills: seq<Fill>, l: Lot, matched: real, mode: Mode, symbol: Symbol, at: Shelf)
    requires Filed(fills, l, at) && matched < l.qty && symbol.Multiplier() == UnitsOn(at)
    requires mode.Pooled? ==> at.Carried?
    ensures Filed(fills, Remainder(l, matched, mode, symbol), at)
  {
    hide FeeShare;
  }

  /** A fill against a queue. */
  lemma {:induction false} TakeKeeps(fills: seq<Fill>, lots: seq<Lot>, dir: Direction, x: Exit, n: nat, left: real,
      mode: Mode, eps: real, at: Shelf)
    requires AllFiled(fills, lots, at) && x.symbol.Multiplier() == UnitsOn(at) && eps >= 0.0 && left >= 0.0
    requires mode.Pooled? ==> at.Carried? && at.direction == dir
    ensures var t := Take(lots, dir, x, n, left, mode, eps);
            && AllFiled(fills, t.lots, at) && 0.0 <= t.left <= left
            && QueuePaid(t.lots) + Told(fills, t.entries)
               == QueuePaid(lots) + if mode.Outward? then 0.0 else Leaves(dir, x, left - t.left)
    decreases |lots|
  {
    hide MatchEntries, Filed, Told, Paid, Remainder, Leaves;
    LeavesNothing(dir, x);
    if !Takes(lots, dir, left, mode, eps) {
      NothingTold(fills);
    } else {
      assert Filed(fills, lots[0], at);
      FiledIs(fills, lots[0], at);
      var m := Min(lots[0].qty, left);
      var es := MatchEntries(lots[0], x, n, m, mode, eps);
      MatchKeeps(fills, lots[0], x, n, m, mode, eps, at);
      if lots[0].qty - m <= eps {
        forall i | 0 <= i < |lots[1..]| ensures Filed(fills, lots[1..][i], at) {
          assert Filed(fills, lots[i + 1], at);
        }
        TakeKeeps(fills, lots[1..], dir, x, n, left - m, mode, eps, at);
        var rest := Take(lots[1..], dir, x, n, left - m, mode, eps);
        ToldAppends(fills, es, rest.entries);
        LeavesAdds(dir, x, m, left - m - rest.left, left - rest.left);
      } else {
        RemainderFiled(fills, lots[0], m, mode, x.symbol, at);
        var r := Remainder(lots[0], m, mode, x.symbol);
        assert ([r] + lots[1..])[1..] == lots[1..];
      }
    }
  }

  lemma NothingTold(fills: seq<Fill>)
    ensures Told(fills, []) == 0.0
  {
  }

  lemma FiledIs(fills: seq<Fill>, l: Lot, at: Shelf)
    requires Filed(fills, l, at)
    ensures l.qty > 0.0 && (at.Carried? ==> l.direction == at.direction)
  {
  }

  /** A slice says what it made: the difference of its prices over its units, less its commissions. And
      it says of which fills: the day and direction its lot was opened with, and the contract, day and
      price of the fill of the same account that closed it, where one did. */
  predicate Fair(fills: seq<Fill>, s: Slice) {
    && s.qty >= 0.0
    && s.pnl == (if s.direction.Long? then s.exitPrice - s.entryPrice else s.entryPrice - s.exitPrice) * s.qty
                * s.symbol.Multiplier() - (s.entryFee + s.exitFee)
    && s.lot.fill < |fills| && s.entryDay == fills[s.lot.fill].day
    && s.direction == DirectionOf(fills[s.lot.fill], s.lot.rolled)
    && match s.exit
       case Some(n) =>
         && n < |fills| && s.exitDay == fills[n].day && s.symbol == fills[n].symbol
         && fills[n].account == fills[s.lot.fill].account && (!IsRoll(fills[n]) ==> s.exitPrice == fills[n].price)
       case None => s.exitDay == s.entryDay && s.exitPrice == 0.0
  }

  ghost predicate FairLog(fills: seq<Fill>, log: seq<Entry>) {
    forall i :: 0 <= i < |log| && log[i].Closed? ==> Fair(fills, log[i].slice)
  }

  /** What closes is fill `n`, at its price or at what a roll makes of it. */
  predicate IsFill(fills: seq<Fill>, n: nat, f: Fill) {
    n < |fills| && f == fills[n].(price := f.price) && (!IsRoll(fills[n]) ==> f.price == fills[n].price)
  }

  lemma SliceIsFair(fills: seq<Fill>, lot: Lot, n: nat, f: Fill, matched: real, mode: Mode, at: Shelf)
    requires matched >= 0.0 && Filed(fills, lot, at) && IsFill(fills, n, f) && AccountOn(at) == f.account
    requires mode.Own? ==> at == Book(f.Key())
    ensures Fair(fills, MakeSlice(lot, ExitOf(n, f), matched, mode))
  {
    hide FeeShare, DirectionOf;
  }

  lemma {:induction false} TakeIsFair(fills: seq<Fill>, lots: seq<Lot>, dir: Direction, n: nat, f: Fill, left: real,
      mode: Mode, eps: real, at: Shelf)
    requires AllFiled(fills, lots, at) && eps >= 0.0 && IsFill(fills, n, f) && AccountOn(at) == f.account
    requires mode.Own? ==> at == Book(f.Key())
    ensures FairLog(fills, Take(lots, dir, ExitOf(n, f), n, left, mode, eps).entries)
    decreases |lots|
  {
    hide Filed, MakeSlice, FeeShare, Fair, IsFill;
    if Takes(lots, dir, left, mode, eps) {
      assert Filed(fills, lots[0], at);
      FiledIs(fills, lots[0], at);
      var m := Min(lots[0].qty, left);
      SliceIsFair(fills, lots[0], n, f, m, mode, at);
      if lots[0].qty - m <= eps {
        forall i | 0 <= i < |lots[1..]| ensures Filed(fills, lots[1..][i], at) {
          assert Filed(fills, lots[i + 1], at);
        }
        TakeIsFair(fills, lots[1..], dir, n, f, left - m, mode, eps, at);
      }
    }
  }

  // ----- the state

  /** All the cash a state accounts for. */
  function Worth(fills: seq<Fill>, s: State): real {
    BooksPaid(s.books, s.order) + PoolsPaid(s.pools, s.poolOrder) + Told(fills, s.log)
  }

  ghost predicate Well(fills: seq<Fill>, s: State) {
    Ordered(s) && FairLog(fills, s.log) && forall at :: AllFiled(fills, On(s, at), at)
  }

  lemma {:induction false} BooksSame(books: map<BookKey, seq<Lot>>, books': map<BookKey, seq<Lot>>, order: seq<BookKey>)
    requires forall i :: 0 <= i < |order| ==>
      (order[i] in books <==> order[i] in books') && (order[i] in books ==> books[order[i]] == books'[order[i]])
    ensures BooksPaid(books, order) == BooksPaid(books', order)
  {
    hide QueuePaid;
    if order != [] {
      BooksSame(books, books', order[1..]);
    }
  }

  lemma {:induction false} BookPut(books: map<BookKey, seq<Lot>>, order: seq<BookKey>, k: BookKey, lots: seq<Lot>)
    requires k in order && k in books && forall i, j :: 0 <= i < j < |order| ==> order[i] != order[j]
    ensures BooksPaid(books[k := lots], order) == BooksPaid(books, order) - QueuePaid(books[k]) + QueuePaid(lots)
  {
    hide QueuePaid;
    if order[0] == k {
      assert forall i :: 0 <= i < |order[1..]| ==> order[1..][i] == order[i + 1] != k;
      BooksSame(books, books[k := lots], order[1..]);
    } else {
      BookPut(books, order[1..], k, lots);
    }
  }

  lemma {:induction false} PoolsSame(pools: map<RollKey, Pool>, pools': map<RollKey, Pool>, order: seq<RollKey>)
    requires forall i :: 0 <= i < |order| ==>
      (order[i] in pools <==> order[i] in pools') && (order[i] in pools ==> pools[order[i]] == pools'[order[i]])
    ensures PoolsPaid(pools, order) == PoolsPaid(pools', order)
  {
    hide PoolPaid;
    if order != [] {
      PoolsSame(pools, pools', order[1..]);
    }
  }

  lemma {:induction false} PoolPut(pools: map<RollKey, Pool>, order: seq<RollKey>, r: RollKey, p: Pool)
    requires r in order && r in pools && forall i, j :: 0 <= i < j < |order| ==> order[i] != order[j]
    ensures PoolsPaid(pools[r := p], order) == PoolsPaid(pools, order) - PoolPaid(pools[r]) + PoolPaid(p)
  {
    hide PoolPaid;
    if order[0] == r {
      assert forall i :: 0 <= i < |order[1..]| ==> order[1..][i] == order[i + 1] != r;
      PoolsSame(pools, pools[r := p], order[1..]);
    } else {
      PoolPut(pools, order[1..], r, p);
    }
  }

  ghost predicate Listed(s: State, at: Shelf) {
    match at
    case Book(k) => k in s.books
    case Carried(r, _) => r in s.pools
  }

  lemma PutMoney(fills: seq<Fill>, s: State, at: Shelf, lots: seq<Lot>, es: seq<Entry>)
    requires Ordered(s) && Listed(s, at)
    ensures Worth(fills, Put(s, at, lots, es))
            == Worth(fills, s) - QueuePaid(On(s, at)) + QueuePaid(lots) + Told(fills, es)
  {
    hide QueuePaid, Told, BooksPaid, PoolsPaid;
    ToldAppends(fills, s.log, es);
    match at
    case Book(k) =>
      BookPut(s.books, s.order, k, lots);
    case Carried(r, d) =>
      PoolPut(s.pools, s.poolOrder, r, PoolOf(s, r).With(d, lots));
  }

  lemma PutWell(fills: seq<Fill>, s: State, at: Shelf, lots: seq<Lot>, es: seq<Entry>)
    requires Well(fills, s) && Listed(s, at) && AllFiled(fills, lots, at) && FairLog(fills, es)
    ensures Well(fills, Put(s, at, lots, es)) && SameLists(s, Put(s, at, lots, es))
  {
    hide AllFiled, Ordered, Fair;
    PutLists(s, at, lots, es);
    SameListsOrder(s, Put(s, at, lots, es));
    forall other ensures AllFiled(fills, On(Put(s, at, lots, es), other), other) {
      assert AllFiled(fills, On(s, other), other);
      assert On(Put(s, at, lots, es), other) == if other == at then lots else On(s, other);
    }
  }

  lemma NoteKeeps(fills: seq<Fill>, s: State, e: Entry)
    requires Well(fills, s) && !e.Closed?
    ensures Well(fills, Note(s, e)) && Worth(fills, Note(s, e)) == Worth(fills, s) + Told(fills, [e])
  {
    hide AllFiled, Ordered, Told, BooksPaid, PoolsPaid, Fair;
    ToldAppends(fills, s.log, [e]);
    SameListsOrder(s, Note(s, e));
    forall at ensures AllFiled(fills, On(Note(s, e), at), at) {
      assert AllFiled(fills, On(s, at), at);
      assert On(Note(s, e), at) == On(s, at);
    }
  }

  /** What a fill has closed so far, and its commission. */
  function Gone(dir: Direction, f: Fill, qty: real): real {
    Leaves(dir, ExitOf(0, f), qty)
  }

  lemma GoneAdds(dir: Direction, f: Fill, a: real, b: real, c: real)
    requires a + b == c
    ensures Gone(dir, f, a) + Gone(dir, f, b) == Gone(dir, f, c)
  {
    hide Leaves;
    LeavesAdds(dir, ExitOf(0, f), a, b, c);
  }

  lemma GoneNothing(dir: Direction, f: Fill)
    ensures Gone(dir, f, 0.0) == 0.0
  {
    hide Leaves;
    LeavesNothing(dir, ExitOf(0, f));
  }

  lemma GoneIs(dir: Direction, f: Fill, n: nat, qty: real)
    ensures Gone(dir, f, qty) == Leaves(dir, ExitOf(n, f), qty)
  {
    hide Moved, FeeShare;
  }

  /** Closing against one shelf. */
  lemma CloseOnKeeps(fills: seq<Fill>, s: State, at: Shelf, dir: Direction, n: nat, f: Fill, left: real, mode: Mode,
      eps: real)
    requires Well(fills, s) && eps >= 0.0 && left >= 0.0 && IsFill(fills, n, f) && AccountOn(at) == f.account
    requires On(s, at) != [] ==> f.symbol.Multiplier() == UnitsOn(at)
    requires mode.Own? ==> at == Book(f.Key())
    requires mode.Pooled? ==> at.Carried? && at.direction == dir
    ensures var g := CloseOn(s, at, dir, n, f, left, mode, eps);
            && Well(fills, g.s) && SameLists(s, g.s) && 0.0 <= g.left <= left
            && Worth(fills, g.s) == Worth(fills, s) + if mode.Outward? then 0.0 else Gone(dir, f, left - g.left)
  {
    hide Take, AllFiled, Ordered, FairLog, IsFill, Worth, Told, QueuePaid, Gone, Leaves;
    GoneNothing(dir, f);
    if Takes(On(s, at), dir, left, mode, eps) {
      assert AllFiled(fills, On(s, at), at);
      var x := ExitOf(n, f);
      var t := Take(On(s, at), dir, x, n, left, mode, eps);
      TakeKeeps(fills, On(s, at), dir, x, n, left, mode, eps, at);
      TakeIsFair(fills, On(s, at), dir, n, f, left, mode, eps, at);
      PutWell(fills, s, at, t.lots, t.entries);
      PutMoney(fills, s, at, t.lots, t.entries);
      GoneIs(dir, f, n, left - t.left);
    }
  }

  lemma TouchKeeps(fills: seq<Fill>, s: State, k: BookKey)
    requires Well(fills, s)
    ensures Well(fills, TouchBook(s, k)) && k in TouchBook(s, k).books
    ensures Worth(fills, TouchBook(s, k)) == Worth(fills, s)
  {
    hide Told, QueuePaid, PoolsPaid, Ordered, AllFiled;
    TouchBookOrders(s, k);
    forall at ensures AllFiled(fills, On(TouchBook(s, k), at), at) {
      assert AllFiled(fills, On(s, at), at);
      assert On(TouchBook(s, k), at) == On(s, at);
    }
    if k !in s.books {
      BookAppended(s.books, s.order, k);
    }
  }

  lemma {:induction false} BookAppended(books: map<BookKey, seq<Lot>>, order: seq<BookKey>, k: BookKey)
    requires k !in books
    ensures BooksPaid(books[k := []], order + [k]) == BooksPaid(books, order)
  {
    if order == [] {
      assert [k][1..] == [];
      assert BooksPaid(books[k := []], []) == 0.0 && QueuePaid([]) == 0.0;
      assert order + [k] == [k];
    } else {
      assert (order + [k])[1..] == order[1..] + [k];
      BookAppended(books, order[1..], k);
      assert QueuePaid([]) == 0.0;
    }
  }

  lemma TouchPoolKeeps(fills: seq<Fill>, s: State, r: RollKey)
    requires Well(fills, s)
    ensures Well(fills, TouchPool(s, r)) && r in TouchPool(s, r).pools && TouchPool(s, r).books == s.books
    ensures Worth(fills, TouchPool(s, r)) == Worth(fills, s)
  {
    hide Told, QueuePaid, BooksPaid, Ordered, AllFiled;
    TouchPoolOrders(s, r);
    forall at ensures AllFiled(fills, On(TouchPool(s, r), at), at) {
      assert AllFiled(fills, On(s, at), at);
      assert On(TouchPool(s, r), at) == On(s, at);
    }
    if r !in s.pools {
      PoolAppended(s.pools, s.poolOrder, r);
    }
  }

  lemma {:induction false} PoolAppended(pools: map<RollKey, Pool>, order: seq<RollKey>, r: RollKey)
    requires r !in pools
    ensures PoolsPaid(pools[r := EMPTY_POOL], order + [r]) == PoolsPaid(pools, order)
  {
    assert PoolPaid(EMPTY_POOL) == 0.0;
    if order == [] {
      assert [r][1..] == [];
      assert PoolsPaid(pools[r := EMPTY_POOL], []) == 0.0;
      assert order + [r] == [r];
    } else {
      assert (order + [r])[1..] == order[1..] + [r];
      PoolAppended(pools, order[1..], r);
    }
  }

  // ----- the loops over several shelves

  lemma {:induction false} OldersAreContracts(books: map<BookKey, seq<Lot>>, order: seq<BookKey>, f: Fill)
    ensures forall k :: k in Olders(books, order, f) ==>
              k.symbol.IsOption() && f.symbol.IsOption() && k.account == f.account
  {
    hide Before;
    if order != [] {
      OldersAreContracts(books, order[..|order| - 1], f);
      InsertAdds(order[|order| - 1], Olders(books, order[..|order| - 1], f));
    }
  }

  lemma {:induction false} InsertAdds(k: BookKey, ks: seq<BookKey>)
    ensures forall x :: x in Insert(k, ks) ==> x == k || x in ks
  {
    hide Before;
    if !(ks == [] || !Before(ks[0], k)) {
      InsertAdds(k, ks[1..]);
    }
  }

  lemma {:induction false} CloseOlderKeeps(fills: seq<Fill>, s: State, ks: seq<BookKey>, dir: Direction, n: nat,
      f: Fill, left: real, eps: real)
    requires Well(fills, s) && eps >= 0.0 && left >= 0.0 && IsFill(fills, n, f)
    requires forall k :: k in ks ==> k.symbol.IsOption() && f.symbol.IsOption() && k.account == f.account
    ensures var g := CloseOlder(s, ks, dir, n, f, left, eps);
            && Well(fills, g.s) && SameLists(s, g.s) && 0.0 <= g.left <= left
            && Worth(fills, g.s) == Worth(fills, s) + Gone(dir, f, left - g.left)
    decreases ks
  {
    hide Well, CloseOn, IsFill, Worth, Gone;
    GoneNothing(dir, f);
    if ks != [] {
      assert ks[0] in ks;
      CloseOnKeeps(fills, s, Book(ks[0]), dir, n, f, left, Older, eps);
      var g := CloseOn(s, Book(ks[0]), dir, n, f, left, Older, eps);
      CloseOlderKeeps(fills, g.s, ks[1..], dir, n, f, g.left, eps);
      var g' := CloseOlder(g.s, ks[1..], dir, n, f, g.left, eps);
      GoneAdds(dir, f, left - g.left, g.left - g'.left, left - g'.left);
    }
  }

  lemma CloseRolledKeeps(fills: seq<Fill>, s: State, dir: Direction, n: nat, f: Fill, left: real, eps: real)
    requires Well(fills, s) && eps >= 0.0 && left >= 0.0 && f.symbol.IsOption() && IsFill(fills, n, f)
    ensures var g := CloseRolled(s, dir, n, f, left, eps);
            && Well(fills, g.s) && g.s.books.Keys == s.books.Keys && g.s.order == s.order && 0.0 <= g.left <= left
            && f.Roll() in g.s.pools && Worth(fills, g.s) == Worth(fills, s) + Gone(dir, f, left - g.left)
  {
    hide Well, CloseOn, CloseOlder, Olders, IsFill, Worth, Gone;
    var s0 := TouchPool(s, f.Roll());
    TouchPoolKeeps(fills, s, f.Roll());
    CloseOnKeeps(fills, s0, Carried(f.Roll(), dir), dir, n, f, left, Pooled, eps);
    var g := CloseOn(s0, Carried(f.Roll(), dir), dir, n, f, left, Pooled, eps);
    assert f.Roll() in g.s.pools.Keys;
    if g.left > eps && f.Roll() in g.s.rolledKeys {
      var ks := Olders(g.s.books, g.s.order, f);
      OldersAreContracts(g.s.books, g.s.order, f);
      CloseOlderKeeps(fills, g.s, ks, dir, n, f, g.left, eps);
      var g' := CloseOlder(g.s, ks, dir, n, f, g.left, eps);
      GoneAdds(dir, f, left - g.left, g.left - g'.left, left - g'.left);
      assert f.Roll() in g'.s.pools.Keys;
    }
  }

  /** A replaced ticker is a contract where the one it became is. */
  ghost predicate SameUnits(f: Fill, was: Replacements) {
    forall k :: k in was.removed && was.Replaced(k, f.day) ==> k.symbol.IsOption() == f.symbol.IsOption()
  }

  lemma {:induction false} CloseReplacedKeeps(fills: seq<Fill>, s: State, ks: seq<BookKey>, n: nat, f: Fill, left: real,
      was: Replacements, eps: real)
    requires Well(fills, s) && eps >= 0.0 && left >= 0.0 && SameUnits(f, was) && IsFill(fills, n, f)
    ensures var g := CloseReplaced(s, ks, n, f, left, was, eps);
            && Well(fills, g.s) && SameLists(s, g.s) && 0.0 <= g.left <= left
            && Worth(fills, g.s) == Worth(fills, s) + Gone(f.Closing(), f, left - g.left)
    decreases ks
  {
    hide Well, CloseOn, IsFill, Worth, Gone;
    GoneNothing(f.Closing(), f);
    if ks != [] && left > eps {
      var k := ks[0];
      var skip := On(s, Book(k)) == [] || k == f.Key() || k.account != f.account || k.currency != f.currency
                  || !was.Replaced(k, f.day);
      var g := if skip then Going(s, left) else CloseOn(s, Book(k), f.Closing(), n, f, left, Renamed, eps);
      if !skip {
        CloseOnKeeps(fills, s, Book(k), f.Closing(), n, f, left, Renamed, eps);
      }
      CloseReplacedKeeps(fills, g.s, ks[1..], n, f, g.left, was, eps);
      var g' := CloseReplaced(g.s, ks[1..], n, f, g.left, was, eps);
      GoneAdds(f.Closing(), f, left - g.left, g.left - g'.left, left - g'.left);
    }
  }

  lemma CloseOrdinaryKeeps(fills: seq<Fill>, s: State, n: nat, f: Fill, was: Replacements, eps: real)
    requires Well(fills, s) && eps >= 0.0 && f.qty > 0.0 && SameUnits(f, was) && f.Key() in s.books
    requires IsFill(fills, n, f)
    ensures var g := CloseOrdinary(s, n, f, was, eps);
            && Well(fills, g.s) && f.Key() in g.s.books && 0.0 <= g.left <= f.qty
            && Worth(fills, g.s) == Worth(fills, s) + Gone(f.Closing(), f, f.qty - g.left)
  {
    hide Well, CloseOn, CloseRolled, CloseReplaced, IsFill, Worth, Gone, SameUnits;
    var d := f.Closing();
    CloseOnKeeps(fills, s, Book(f.Key()), d, n, f, f.qty, Own, eps);
    var g1 := CloseOn(s, Book(f.Key()), d, n, f, f.qty, Own, eps);
    var rolls := g1.left > eps && f.symbol.IsOption();
    var g2 := if rolls then CloseRolled(g1.s, d, n, f, g1.left, eps) else g1;
    if rolls {
      CloseRolledKeeps(fills, g1.s, d, n, f, g1.left, eps);
      GoneAdds(d, f, f.qty - g1.left, g1.left - g2.left, f.qty - g2.left);
    }
    assert f.Key() in g2.s.books.Keys;
    if g2.left > eps && f.side.Sell? {
      CloseReplacedKeeps(fills, g2.s, g2.s.order, n, f, g2.left, was, eps);
      var g3 := CloseReplaced(g2.s, g2.s.order, n, f, g2.left, was, eps);
      GoneAdds(d, f, f.qty - g2.left, g2.left - g3.left, f.qty - g3.left);
      assert f.Key() in g3.s.books.Keys;
    }
  }

  // ----- what is left of a fill

  lemma OpenKeeps(fills: seq<Fill>, s: State, at: Shelf, lot: Lot)
    requires Well(fills, s) && Listed(s, at) && Filed(fills, lot, at)
    ensures var s' := OpenLot(s, at, lot);
            Well(fills, s') && SameLists(s, s') && Worth(fills, s') == Worth(fills, s) + Paid(lot)
  {
    hide Filed, Ordered, Told, Worth, QueuePaid, Paid;
    var lots := On(s, at);
    assert AllFiled(fills, lots, at);
    PutWell(fills, s, at, lots + [lot], [Opened(lot)]);
    PutMoney(fills, s, at, lots + [lot], [Opened(lot)]);
    ToldOne(fills, Opened(lot));
    QueueAppended(lots, lot);
  }

  lemma {:induction false} QueueAppended(lots: seq<Lot>, lot: Lot)
    ensures QueuePaid(lots + [lot]) == QueuePaid(lots) + Paid(lot)
  {
    hide Paid;
    if lots == [] {
      assert [lot][1..] == [];
      assert lots + [lot] == [lot];
    } else {
      assert (lots + [lot])[1..] == lots[1..] + [lot];
      QueueAppended(lots[1..], lot);
    }
  }

  /** The cash of what is left is the rest of the fill's. */
  lemma LeftIsPart(f: Fill, left: real)
    requires !IsRoll(f)
    ensures Part(f, left, FeeShare(f.commission, left, f.qty)) == Gone(f.Closing(), f, left)
  {
    hide Moved, FeeShare;
  }

  lemma SettleKeeps(fills: seq<Fill>, g: Going, n: nat, eps: real)
    requires n < |fills| && !IsRoll(fills[n]) && Well(fills, g.s) && fills[n].Key() in g.s.books && g.left >= 0.0
    requires eps >= 0.0
    ensures var s := Settle(g, n, fills[n], eps);
            Well(fills, s) && Worth(fills, s) == Worth(fills, g.s) + Gone(fills[n].Closing(), fills[n], g.left)
  {
    hide Well, FeeShare, IsDust, Worth, Gone, Told, Part, Moved;
    var f := fills[n];
    var fee := FeeShare(f.commission, g.left, f.qty);
    LeftIsPart(f, g.left);
    if g.left > eps && f.Opening().Some? {
      var lot := NewLot(n, f, g.left, f.Opening().value);
      OpenKeeps(fills, g.s, Book(f.Key()), lot);
      LotIsPart(f, n, g.left);
    } else {
      NoteKeeps(fills, g.s, Rest(n, g.left, fee));
      NoteKeeps(fills, g.s, Dust(n, g.left, fee));
      NoteKeeps(fills, g.s, Unmatched(Orphan(n, f.side, g.left, f.price), fee));
      ToldOne(fills, Rest(n, g.left, fee));
      ToldOne(fills, Dust(n, g.left, fee));
      ToldOne(fills, Unmatched(Orphan(n, f.side, g.left, f.price), fee));
    }
  }

  lemma LotIsPart(f: Fill, n: nat, left: real)
    requires !IsRoll(f) && f.Opening().Some?
    ensures var lot := NewLot(n, f, left, f.Opening().value);
            lot.direction == Way(f) && Paid(lot) == Part(f, left, FeeShare(f.commission, left, f.qty))
  {
    hide Moved, FeeShare;
  }

  lemma WholeIsCash(f: Fill)
    requires !IsRoll(f) && !f.transferOut && f.qty > 0.0
    ensures Gone(f.Closing(), f, f.qty) == Cash(f)
  {
    hide Moved, FeeShare;
    FeeWhole(f.commission, f.qty);
  }

  lemma SendOutKeeps(fills: seq<Fill>, s: State, n: nat, f: Fill, eps: real)
    requires Well(fills, s) && eps >= 0.0 && f.qty > 0.0 && IsFill(fills, n, f)
    ensures Well(fills, SendOut(s, n, f, eps)) && Worth(fills, SendOut(s, n, f, eps)) == Worth(fills, s)
  {
    hide Well, CloseOn, Worth, Told, Gone;
    CloseOnKeeps(fills, s, Book(f.Key()), Long, n, f, f.qty, Outward, eps);
    var g := CloseOn(s, Book(f.Key()), Long, n, f, f.qty, Outward, eps);
    NoteKeeps(fills, g.s, Excess(n, g.left, 0.0));
    ToldOne(fills, Excess(n, g.left, 0.0));
  }

  // ----- rolls

  /** A roll's cash, spread over its quantity. */
  lemma PerUnitSpreads(f: Fill)
    requires IsRoll(f) && f.qty > 0.0
    ensures Moved(RollWay(f), f.qty, PerUnit(f), 100.0, f.commission) == f.cash - f.commission
  {
    var q := f.qty * 100.0;
    assert Abs(f.cash) / q * q == Abs(f.cash);
    assert f.qty * PerUnit(f) * 100.0 == PerUnit(f) * q;
  }

  /** What a roll closes and carries on: its cash is at the one end or the other. */
  lemma ClosedAndCarried(f: Fill, d: Direction, n: nat, moved: real)
    requires IsRoll(f) && d == f.roll.value == f.Closing()
    ensures Gone(d, f.(price := RollExit(f, d)), moved) + Paid(CarriedLot(n, f, d, moved))
            == Moved(RollWay(f), moved, PerUnit(f), 100.0, FeeShare(f.commission, moved, f.qty))
  {
    hide FeeShare, PerUnit;
    assert moved * 0.0 * 100.0 == 0.0;
  }

  lemma CloseRollKeeps(fills: seq<Fill>, s: State, n: nat, f: Fill, d: Direction, eps: real)
    requires Well(fills, s) && eps >= 0.0 && f.qty > 0.0 && IsRoll(f) && d == f.roll.value == f.Closing()
    requires f.Key() in s.books && n < |fills| && f == fills[n]
    ensures var g := CloseRoll(s, n, f, d, eps);
            && Well(fills, g.s) && f.Key() in g.s.books && f.Roll() in g.s.pools && 0.0 <= g.left <= f.qty
            && Worth(fills, g.s) == Worth(fills, s) + Gone(d, f.(price := RollExit(f, d)), f.qty - g.left)
  {
    hide Well, CloseOn, CloseRolled, Worth, Gone, RollExit;
    var x := f.(price := RollExit(f, d));
    CloseOnKeeps(fills, s, Book(f.Key()), d, n, x, f.qty, Own, eps);
    var g := CloseOn(s, Book(f.Key()), d, n, x, f.qty, Own, eps);
    CloseRolledKeeps(fills, g.s, d, n, x, g.left, eps);
    var g' := CloseRolled(g.s, d, n, x, g.left, eps);
    GoneAdds(d, x, f.qty - g.left, g.left - g'.left, f.qty - g'.left);
    assert f.Key() in g'.s.books.Keys;
  }

  lemma CarryKeeps(fills: seq<Fill>, g: Going, n: nat, d: Direction, eps: real)
    requires n < |fills| && IsRoll(fills[n]) && d == fills[n].roll.value && Well(fills, g.s)
    requires fills[n].Roll() in g.s.pools && eps >= 0.0
    ensures var s := CarryRoll(g, n, fills[n], d, eps);
            var moved := fills[n].qty - g.left;
            && Well(fills, s) && s.books.Keys == g.s.books.Keys
            && Worth(fills, s) + (if moved <= eps then Paid(CarriedLot(n, fills[n], d, moved)) else 0.0)
               == Worth(fills, g.s) + Paid(CarriedLot(n, fills[n], d, moved))
  {
    hide AllFiled, Ordered, Worth, RollEntry, Paid;
    var f := fills[n];
    var s := g.s.(rolledKeys := g.s.rolledKeys + {f.Roll()});
    SameListsOrder(g.s, s);
    forall at ensures AllFiled(fills, On(s, at), at) {
      assert AllFiled(fills, On(g.s, at), at);
      assert On(s, at) == On(g.s, at);
    }
    WorthIs(fills, g.s, s);
    var moved := f.qty - g.left;
    var lot := CarriedLot(n, f, d, moved);
    if moved > eps {
      OpenKeeps(fills, s, Carried(f.Roll(), d), lot);
    }
  }

  lemma WorthIs(fills: seq<Fill>, s: State, s': State)
    requires s' == s.(rolledKeys := s'.rolledKeys, pending := s'.pending)
    ensures Worth(fills, s') == Worth(fills, s)
  {
  }

  /** What a roll did not close. */
  lemma LeftOfRoll(fills: seq<Fill>, s: State, n: nat, left: real, eps: real)
    requires n < |fills| && IsRoll(fills[n]) && Well(fills, s) && fills[n].Key() in s.books && left >= 0.0 && eps >= 0.0
    ensures var f := fills[n];
            var fee := FeeShare(f.commission, left, f.qty);
            var s' := if left > eps
                      then Note(OpenLot(s, Book(f.Key()), RollOpens(n, f, left)), Forgone(n, fee))
                      else Note(s, Rest(n, left, fee));
            Well(fills, s') && Worth(fills, s') == Worth(fills, s) + Moved(RollWay(f), left, PerUnit(f), 100.0, fee)
  {
    hide Well, FeeShare, Worth, Told, Moved, PerUnit;
    var f := fills[n];
    var fee := FeeShare(f.commission, left, f.qty);
    if left > eps {
      var lot := RollOpens(n, f, left);
      OpenKeeps(fills, s, Book(f.Key()), lot);
      RollOpensPaid(f, n, left, fee);
      NoteKeeps(fills, OpenLot(s, Book(f.Key()), lot), Forgone(n, fee));
      ToldOne(fills, Forgone(n, fee));
    } else {
      NoteKeeps(fills, s, Rest(n, left, fee));
      ToldOne(fills, Rest(n, left, fee));
    }
  }

  lemma RollOpensPaid(f: Fill, n: nat, left: real, fee: real)
    requires IsRoll(f)
    ensures Paid(RollOpens(n, f, left)) - fee == Moved(RollWay(f), left, PerUnit(f), 100.0, fee)
  {
    hide PerUnit;
  }

  /** What a roll would have carried forward, had it been more than the tolerance. */
  function Lapsed(s: State, n: nat, f: Fill, eps: real): real {
    if !IsRoll(f) then 0.0
    else
      var s1 := ApplySplits(TouchBook(s, f.Key()), f.Key(), f.day);
      var moved := f.qty - CloseRoll(s1, n, f, f.roll.value, eps).left;
      if moved <= eps then Paid(CarriedLot(n, f, f.roll.value, moved)) else 0.0
  }

  /** All that lapsed so in the first `n` fills. */
  function LapsedBy(fills: seq<Fill>, n: nat, pending: map<SplitKey, seq<Split>>, was: Replacements, eps: real): real
    requires n <= |fills|
  {
    if n == 0 then 0.0
    else
      LapsedBy(fills, n - 1, pending, was, eps)
      + Lapsed(Run(fills, n - 1, pending, was, eps), n - 1, fills[n - 1], eps)
  }

  lemma RollKeeps(fills: seq<Fill>, s: State, n: nat, eps: real)
    requires n < |fills| && IsRoll(fills[n]) && fills[n].roll.value == fills[n].Closing() && fills[n].qty > 0.0
    requires Well(fills, s) && fills[n].Key() in s.books && eps >= 0.0
    ensures var f := fills[n];
            var g := CloseRoll(s, n, f, f.roll.value, eps);
            var s' := SettleRoll(g, n, f, f.roll.value, eps);
            var moved := f.qty - g.left;
            && Well(fills, s')
            && Worth(fills, s') + (if moved <= eps then Paid(CarriedLot(n, f, f.roll.value, moved)) else 0.0)
               == Worth(fills, s) + Cash(f)
  {
    hide Well, CloseRoll, CarryRoll, Worth, Gone, FeeShare, Moved, PerUnit, Paid, OpenLot;
    var f := fills[n];
    var d := f.roll.value;
    CloseRollKeeps(fills, s, n, f, d, eps);
    var g := CloseRoll(s, n, f, d, eps);
    CarryKeeps(fills, g, n, d, eps);
    var c := CarryRoll(g, n, f, d, eps);
    assert f.Key() in c.books.Keys;
    LeftOfRoll(fills, c, n, g.left, eps);
    var moved := f.qty - g.left;
    ClosedAndCarried(f, d, n, moved);
    MovedAdds(RollWay(f), moved, g.left, PerUnit(f), 100.0, FeeShare(f.commission, moved, f.qty),
        FeeShare(f.commission, g.left, f.qty));
    FeeAdds(f.commission, moved, g.left, f.qty, f.qty);
    FeeWhole(f.commission, f.qty);
    PerUnitSpreads(f);
  }

  // ----- splits

  lemma RestatePaid(l: Lot, factor: Ratio)
    ensures Paid(RestateLot(l, factor)) == Paid(l)
  {
    assert (l.qty * factor) * (l.price / factor) == l.qty * (factor * (l.price / factor));
    assert factor * (l.price / factor) == l.price;
  }

  lemma RestateFiled(fills: seq<Fill>, l: Lot, factor: Ratio, at: Shelf)
    requires Filed(fills, l, at)
    ensures Filed(fills, RestateLot(l, factor), at)
  {
    assert l.qty * factor > 0.0;
  }

  lemma {:induction false} RestateKeeps(fills: seq<Fill>, lots: seq<Lot>, factor: Ratio, at: Shelf)
    requires AllFiled(fills, lots, at)
    ensures AllFiled(fills, Restate(lots, factor), at) && QueuePaid(Restate(lots, factor)) == QueuePaid(lots)
    ensures Told(fills, RestateEntries(lots, factor)) == 0.0 && FairLog(fills, RestateEntries(lots, factor))
  {
    hide Filed, Told, Paid, RestateLot;
    if lots == [] {
      NothingTold(fills);
    } else {
      assert Filed(fills, lots[0], at);
      forall i | 0 <= i < |lots[1..]| ensures Filed(fills, lots[1..][i], at) {
        assert Filed(fills, lots[i + 1], at);
      }
      RestateKeeps(fills, lots[1..], factor, at);
      RestatePaid(lots[0], factor);
      RestateFiled(fills, lots[0], factor, at);
      var e := Restated(lots[0].id, factor);
      ToldAppends(fills, [e], RestateEntries(lots[1..], factor));
      ToldOne(fills, e);
      var rest := Restate(lots[1..], factor);
      assert ([RestateLot(lots[0], factor)] + rest)[1..] == rest;
    }
  }

  lemma {:induction false} SplitBookKeeps(fills: seq<Fill>, s: State, k: BookKey, todo: seq<Split>, day: int)
    requires Well(fills, s)
    ensures Well(fills, SplitBook(s, k, todo, day)) && Worth(fills, SplitBook(s, k, todo, day)) == Worth(fills, s)
    decreases todo
  {
    hide AllFiled, Ordered, Worth, Restate, RestateEntries, Told;
    if todo != [] {
      var lots := On(s, Book(k));
      if todo[0].day <= day && k in s.books {
        assert AllFiled(fills, lots, Book(k));
        RestateKeeps(fills, lots, todo[0].factor, Book(k));
        PutWell(fills, s, Book(k), Restate(lots, todo[0].factor), RestateEntries(lots, todo[0].factor));
        PutMoney(fills, s, Book(k), Restate(lots, todo[0].factor), RestateEntries(lots, todo[0].factor));
        SplitBookKeeps(fills, Put(s, Book(k), Restate(lots, todo[0].factor), RestateEntries(lots, todo[0].factor)), k,
            todo[1..], day);
      } else {
        SplitBookKeeps(fills, s, k, todo[1..], day);
      }
    }
  }

  lemma SplitsKeep(fills: seq<Fill>, s: State, k: BookKey, day: int)
    requires Well(fills, s)
    ensures Well(fills, ApplySplits(s, k, day)) && Worth(fills, ApplySplits(s, k, day)) == Worth(fills, s)
    ensures ApplySplits(s, k, day).books.Keys == s.books.Keys
  {
    hide SplitBook, AllFiled, Ordered, Worth;
    ApplySplitsLists(s, k, day);
    var sk := SplitKeyOf(k);
    if sk in s.pending {
      var done := SplitBook(s, k, SortSplits(s.pending[sk]), day);
      SplitBookKeeps(fills, s, k, SortSplits(s.pending[sk]), day);
      var s' := ApplySplits(s, k, day);
      WorthIs(fills, done, s');
      SameListsOrder(done, s');
      forall at ensures AllFiled(fills, On(s', at), at) {
        assert AllFiled(fills, On(done, at), at);
        assert On(s', at) == On(done, at);
      }
    }
  }

  // ----- the run

  /** What the matcher is given: fills of some quantity, rolls of the direction they close, tickers
      replaced by their like. */
  ghost predicate Given(fills: seq<Fill>, was: Replacements, eps: real) {
    && Usable(fills) && eps >= 0.0
    && (forall i :: 0 <= i < |fills| && IsRoll(fills[i]) ==> fills[i].roll.value == fills[i].Closing())
    && (forall i :: 0 <= i < |fills| ==> SameUnits(fills[i], was))
  }

  lemma StepKeepsCash(fills: seq<Fill>, s: State, n: nat, was: Replacements, eps: real)
    requires n < |fills| && Given(fills, was, eps) && Well(fills, s)
    ensures var s' := Step(s, n, fills[n], was, eps);
            Well(fills, s') && Worth(fills, s') + Lapsed(s, n, fills[n], eps) == Worth(fills, s) + Cash(fills[n])
  {
    hide Well, Worth, Paid, ApplySplits, CloseRoll, SettleRoll, CloseOrdinary, Settle, SendOut,
      Cash, Gone, SameUnits, Part;
    var f := fills[n];
    var s0 := TouchBook(s, f.Key());
    TouchKeeps(fills, s, f.Key());
    SplitsKeep(fills, s0, f.Key(), f.day);
    var s1 := ApplySplits(s0, f.Key(), f.day);
    assert f.Key() in s1.books.Keys;
    if IsRoll(f) {
      RollKeeps(fills, s1, n, eps);
    } else if f.transferOut {
      SendOutKeeps(fills, s1, n, f, eps);
      SentMovesNone(f);
    } else {
      CloseOrdinaryKeeps(fills, s1, n, f, was, eps);
      var g := CloseOrdinary(s1, n, f, was, eps);
      SettleKeeps(fills, g, n, eps);
      GoneAdds(f.Closing(), f, f.qty - g.left, g.left, f.qty);
      WholeIsCash(f);
    }
  }

  lemma SentMovesNone(f: Fill)
    requires !IsRoll(f) && f.transferOut
    ensures Cash(f) == 0.0
  {
  }

  lemma StartIsWell(fills: seq<Fill>, pending: map<SplitKey, seq<Split>>)
    ensures Well(fills, Start(pending)) && Worth(fills, Start(pending)) == 0.0
  {
  }

  lemma {:induction false} RunKeepsCash(fills: seq<Fill>, n: nat, pending: map<SplitKey, seq<Split>>, was: Replacements,
      eps: real)
    requires n <= |fills| && Given(fills, was, eps)
    ensures var s := Run(fills, n, pending, was, eps);
            Well(fills, s) && Worth(fills, s) + LapsedBy(fills, n, pending, was, eps) == CashOf(fills, n)
  {
    hide Step, Well, Worth, Given, Cash, Lapsed;
    if n == 0 {
      StartIsWell(fills, pending);
    } else {
      RunKeepsCash(fills, n - 1, pending, was, eps);
      StepKeepsCash(fills, Run(fills, n - 1, pending, was, eps), n - 1, was, eps);
    }
  }

  // ----- the end of the run

  lemma {:induction false} SplitAllKeepsCash(fills: seq<Fill>, s: State, ks: seq<BookKey>)
    requires Well(fills, s)
    ensures Well(fills, SplitAll(s, ks)) && Worth(fills, SplitAll(s, ks)) == Worth(fills, s)
    decreases ks
  {
    hide Well, Worth, ApplySplits;
    if ks != [] {
      SplitsKeep(fills, s, ks[0], FAR_DAY);
      SplitAllKeepsCash(fills, ApplySplits(s, ks[0], FAR_DAY), ks[1..]);
    }
  }

  /** A leg whose closing was never posted earns what it was sold for. */
  lemma RolledOutEarns(l: Lot)
    requires l.qty > 0.0
    ensures MakeSlice(l, Exit(None, l.qty, 0.0, 0.0, l.day, l.symbol), l.qty, Own).pnl == Paid(l)
  {
    hide FeeShare;
    var x := Exit(None, l.qty, 0.0, 0.0, l.day, l.symbol);
    ProfitIsCash(l, x, l.qty, Own);
    FeeWhole(l.commission, l.qty);
    FeeWhole(0.0, l.qty);
    assert l.qty * 0.0 * l.symbol.Multiplier() == 0.0;
  }

  lemma {:induction false} RollOutTells(fills: seq<Fill>, lots: seq<Lot>, eps: real, at: Shelf)
    requires AllFiled(fills, lots, at)
    ensures Told(fills, RollOut(lots, eps)) == QueuePaid(lots) && FairLog(fills, RollOut(lots, eps))
    decreases |lots|
  {
    hide Filed, Told, Paid, MakeSlice, Fair;
    if lots == [] {
      NothingTold(fills);
    } else {
      var l := lots[0];
      assert Filed(fills, l, at);
      forall i | 0 <= i < |lots[1..]| ensures Filed(fills, lots[1..][i], at) {
        assert Filed(fills, lots[i + 1], at);
      }
      RollOutTells(fills, lots[1..], eps, at);
      FiledIs(fills, l, at);
      RolledOutEarns(l);
      RolledOutFair(fills, l, at);
      DroppedIsPaid(fills, l, at);
      var e := if l.qty <= eps then Dropped(l.id, l.qty, l.price, l.commission)
               else Closed(MakeSlice(l, Exit(None, l.qty, 0.0, 0.0, l.day, l.symbol), l.qty, Own));
      ToldOne(fills, e);
      ToldAppends(fills, [e], RollOut(lots[1..], eps));
    }
  }

  lemma RolledOutFair(fills: seq<Fill>, l: Lot, at: Shelf)
    requires Filed(fills, l, at)
    ensures Fair(fills, MakeSlice(l, Exit(None, l.qty, 0.0, 0.0, l.day, l.symbol), l.qty, Own))
  {
    hide FeeShare, DirectionOf;
  }

  lemma DroppedIsPaid(fills: seq<Fill>, l: Lot, at: Shelf)
    requires Filed(fills, l, at)
    ensures Other(fills, Dropped(l.id, l.qty, l.price, l.commission)) == Paid(l)
  {
    hide Moved;
  }

  lemma RollOutOnKeeps(fills: seq<Fill>, s: State, at: Shelf, eps: real)
    requires Well(fills, s)
    ensures Well(fills, RollOutOn(s, at, eps)) && Worth(fills, RollOutOn(s, at, eps)) == Worth(fills, s)
    ensures On(RollOutOn(s, at, eps), at) == []
    ensures forall other :: other != at ==> On(RollOutOn(s, at, eps), other) == On(s, other)
    ensures SameLists(s, RollOutOn(s, at, eps))
  {
    hide AllFiled, Ordered, Worth, Told, RollOut;
    if On(s, at) != [] {
      assert AllFiled(fills, On(s, at), at);
      RollOutTells(fills, On(s, at), eps, at);
      assert AllFiled(fills, [], at) by { NoneFiled(fills, at); }
      PutWell(fills, s, at, [], RollOut(On(s, at), eps));
      PutMoney(fills, s, at, [], RollOut(On(s, at), eps));
      assert QueuePaid([]) == 0.0;
    }
  }

  lemma NoneFiled(fills: seq<Fill>, at: Shelf)
    ensures AllFiled(fills, [], at)
  {
  }

  lemma {:induction false} RollOutAllKeeps(fills: seq<Fill>, s: State, rs: seq<RollKey>, eps: real)
    requires Well(fills, s)
    ensures var s' := RollOutAll(s, rs, eps);
            && Well(fills, s') && Worth(fills, s') == Worth(fills, s) && SameLists(s, s')
            && (forall r, d :: On(s, Carried(r, d)) == [] || r in rs ==> On(s', Carried(r, d)) == [])
    decreases rs
  {
    hide Well, Worth, RollOutOn;
    if rs != [] {
      var s1 := RollOutOn(s, Carried(rs[0], Long), eps);
      var s2 := RollOutOn(s1, Carried(rs[0], Short), eps);
      RollOutOnKeeps(fills, s, Carried(rs[0], Long), eps);
      RollOutOnKeeps(fills, s1, Carried(rs[0], Short), eps);
      RollOutAllKeeps(fills, s2, rs[1..], eps);
      forall r, d | On(s, Carried(r, d)) == [] || r in rs
        ensures On(RollOutAll(s2, rs[1..], eps), Carried(r, d)) == []
      {
        if r == rs[0] || On(s, Carried(r, d)) == [] {
          assert On(s1, Carried(r, d)) == [] || d.Short?;
          assert On(s2, Carried(r, d)) == [];
        }
      }
    }
  }

  lemma {:induction false} EmptyPoolsPaid(pools: map<RollKey, Pool>, order: seq<RollKey>)
    requires forall r :: r in pools ==> pools[r] == EMPTY_POOL
    ensures PoolsPaid(pools, order) == 0.0
  {
    assert PoolPaid(EMPTY_POOL) == 0.0;
    if order != [] {
      EmptyPoolsPaid(pools, order[1..]);
    }
  }

  /** For every run, whatever it rolls, splits, replaces, sends out or leaves unmatched: the cash its
      fills moved is the profit of its slices, what the lots still in its books have moved, what the
      other entries of its history say, and what rolls moved within the tolerance; and each slice's
      profit is the difference of its prices less its commissions. */
  lemma CashIsKept(fills: seq<Fill>, pending: map<SplitKey, seq<Split>>, was: Replacements, eps: real)
    requires Given(fills, was, eps)
    ensures var s := Settlement.Final(fills, pending, was, eps);
            && CashOf(fills, |fills|)
               == Profit(Slices(s.log)) + BooksPaid(s.books, s.order) + Others(fills, s.log)
                  + LapsedBy(fills, |fills|, pending, was, eps)
            && FairLog(fills, s.log)
  {
    hide Run, SplitAll, RollOutAll, AllFiled, LapsedBy, Profit, BooksPaid, PoolsPaid, Others, Slices, Given;
    RunKeepsCash(fills, |fills|, pending, was, eps);
    var s0 := Run(fills, |fills|, pending, was, eps);
    SplitAllKeepsCash(fills, s0, s0.order);
    var s1 := SplitAll(s0, s0.order);
    RollOutAllKeeps(fills, s1, s0.poolOrder, eps);
    SplitAllLists(s0, s0.order);
    var s := RollOutAll(s1, s0.poolOrder, eps);
    forall r | r in s.pools ensures s.pools[r] == EMPTY_POOL {
      assert r in s.poolOrder && s.poolOrder == s0.poolOrder;
      assert On(s, Carried(r, Long)) == [] && On(s, Carried(r, Short)) == [];
    }
    EmptyPoolsPaid(s.pools, s.poolOrder);
  }

  /** Nothing lapses without a tolerance, or where nothing rolls. */
  lemma {:induction false} NothingLapses(fills: seq<Fill>, n: nat, pending: map<SplitKey, seq<Split>>,
      was: Replacements, eps: real)
    requires n <= |fills| && Given(fills, was, eps)
    requires eps == 0.0 || forall i :: 0 <= i < |fills| ==> !IsRoll(fills[i])
    ensures LapsedBy(fills, n, pending, was, eps) == 0.0
  {
    hide Run, Given, Lapsed;
    if n > 0 {
      NothingLapses(fills, n - 1, pending, was, eps);
      RunKeepsCash(fills, n - 1, pending, was, eps);
      OneLapsesNot(fills, Run(fills, n - 1, pending, was, eps), n - 1, was, eps);
    }
  }

  lemma OneLapsesNot(fills: seq<Fill>, s: State, n: nat, was: Replacements, eps: real)
    requires n < |fills| && Given(fills, was, eps) && Well(fills, s) && (eps == 0.0 || !IsRoll(fills[n]))
    ensures Lapsed(s, n, fills[n], eps) == 0.0
  {
    hide Well, Worth, ApplySplits, CloseRoll, Paid, Gone;
    var f := fills[n];
    if IsRoll(f) {
      TouchKeeps(fills, s, f.Key());
      SplitsKeep(fills, TouchBook(s, f.Key()), f.Key(), f.day);
      var s1 := ApplySplits(TouchBook(s, f.Key()), f.Key(), f.day);
      assert f.Key() in s1.books.Keys;
      CloseRollKeeps(fills, s1, n, f, f.roll.value, eps);
      NothingCarried(n, f, f.roll.value);
    }
  }

  lemma NothingCarried(n: nat, f: Fill, d: Direction)
    ensures Paid(CarriedLot(n, f, d, 0.0)) == 0.0
  {
    hide RollEntry;
    assert 0.0 * RollEntry(f, d) * f.symbol.Multiplier() == 0.0;
  }

  lemma {:induction false} SplitAllLists(s: State, ks: seq<BookKey>)
    ensures SameLists(s, SplitAll(s, ks))
    decreases ks
  {
    hide ApplySplits;
    if ks != [] {
      ApplySplitsLists(s, ks[0], FAR_DAY);
      SplitAllLists(ApplySplits(s, ks[0], FAR_DAY), ks[1..]);
    }
  }
}
