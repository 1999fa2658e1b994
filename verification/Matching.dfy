/** The matcher as a function of its state: one step per fill, in the order the fills are
    sorted, and the closing pass at the end. Class Matcher (Matcher.dfy) runs it in place. */
module Matching {
  import opened Trading
  import opened Ledger
  import opened Lots

  /** The legs rolls carried forward on one chain. */
  datatype Pool = Pool(long: seq<Lot>, short: seq<Lot>) {
    function Legs(d: Direction): seq<Lot> {
      if d.Long? then long else short
    }

    function With(d: Direction, lots: seq<Lot>): Pool {
      if d.Long? then Pool(lots, short) else Pool(long, lots)
    }
  }

  const EMPTY_POOL := Pool([], [])

  /** The ratios split markers state: one for n, or n for one. */
  type Ratio = r: real | r > 0.0 witness 1.0

  datatype Split = Split(day: int, factor: Ratio)

  /** When a symbol left a book, and the days it traded. */
  datatype Replacements = Replacements(removed: map<BookKey, int>, trades: map<BookKey, seq<int>>) {
    predicate Replaced(key: BookKey, on: int) {
      && key in removed && removed[key] <= on
      && (key in trades ==> forall d :: d in trades[key] ==> d <= removed[key])
    }
  }

  datatype State = State(
    books: map<BookKey, seq<Lot>>, order: seq<BookKey>,
    pools: map<RollKey, Pool>, poolOrder: seq<RollKey>, rolledKeys: set<RollKey>,
    pending: map<SplitKey, seq<Split>>,
    log: seq<Entry>)

  /** Where a lot lies. */
  datatype Shelf = Book(key: BookKey) | Carried(roll: RollKey, direction: Direction)

  function On(s: State, at: Shelf): seq<Lot> {
    match at
    case Book(k) => if k in s.books then s.books[k] else []
    case Carried(r, d) => if r in s.pools then s.pools[r].Legs(d) else []
  }

  function PoolOf(s: State, r: RollKey): Pool {
    if r in s.pools then s.pools[r] else EMPTY_POOL
  }

  /** The shelf's lots become `lots`, and the history goes on with `es`. */
  function Put(s: State, at: Shelf, lots: seq<Lot>, es: seq<Entry>): State {
    match at
    case Book(k) => s.(books := s.books[k := lots], log := s.log + es)
    case Carried(r, d) => s.(pools := s.pools[r := PoolOf(s, r).With(d, lots)], log := s.log + es)
  }

  function Note(s: State, e: Entry): State {
    s.(log := s.log + [e])
  }

  function TouchBook(s: State, k: BookKey): State {
    if k in s.books then s else s.(books := s.books[k := []], order := s.order + [k])
  }

  function TouchPool(s: State, r: RollKey): State {
    if r in s.pools then s else s.(pools := s.pools[r := EMPTY_POOL], poolOrder := s.poolOrder + [r])
  }

  /** A state, and how much of the fill is left. */
  datatype Going = Going(s: State, left: real)

  function CloseOn(s: State, at: Shelf, dir: Direction, n: nat, f: Fill, left: real, mode: Mode, eps: real): Going {
    if !Takes(On(s, at), dir, left, mode, eps) then Going(s, left)
    else
      var t := Take(On(s, at), dir, ExitOf(n, f), n, left, mode, eps);
      Going(Put(s, at, t.lots, t.entries), t.left)
  }

  // ----- a roll's older contracts, nearest expiry first

  predicate OlderContract(books: map<BookKey, seq<Lot>>, k: BookKey, f: Fill) {
    && k != f.Key() && k in books && books[k] != []
    && k.account == f.account && k.currency == f.currency
    && k.symbol.IsOption() && f.symbol.IsOption()
    && k.symbol.contract.value.underlying == f.symbol.contract.value.underlying
    && k.symbol.contract.value.right == f.symbol.contract.value.right
  }

  /** The order of two books of one chain: by expiry, then as their keys' text orders. */
  predicate Before(a: BookKey, b: BookKey) {
    var ea := if a.symbol.IsOption() then a.symbol.contract.value.expiry else "";
    var eb := if b.symbol.IsOption() then b.symbol.contract.value.expiry else "";
    if ea != eb then TextLess(ea, eb)
    else TextLess(a.symbol.text + "::" + a.currency, b.symbol.text + "::" + b.currency)
  }

  function Insert(k: BookKey, ks: seq<BookKey>): seq<BookKey> {
    if ks == [] || !Before(ks[0], k) then [k] + ks
    else [ks[0]] + Insert(k, ks[1..])
  }

  function Olders(books: map<BookKey, seq<Lot>>, order: seq<BookKey>, f: Fill): seq<BookKey> {
    if order == [] then []
    else
      var k := order[|order| - 1];
      var rest := Olders(books, order[..|order| - 1], f);
      if OlderContract(books, k, f) then Insert(k, rest) else rest
  }

  function CloseOlder(s: State, ks: seq<BookKey>, dir: Direction, n: nat, f: Fill, left: real, eps: real): Going
    decreases ks
  {
    if ks == [] then Going(s, left)
    else
      var g := CloseOn(s, Book(ks[0]), dir, n, f, left, Older, eps);
      CloseOlder(g.s, ks[1..], dir, n, f, g.left, eps)
  }

  /** Carried-forward legs first; then, on a chain that has been rolled, its older contracts. */
  function CloseRolled(s: State, dir: Direction, n: nat, f: Fill, left: real, eps: real): Going {
    var g := CloseOn(TouchPool(s, f.Roll()), Carried(f.Roll(), dir), dir, n, f, left, Pooled, eps);
    if g.left > eps && f.Roll() in g.s.rolledKeys then
      CloseOlder(g.s, Olders(g.s.books, g.s.order, f), dir, n, f, g.left, eps)
    else g
  }

  /** A sale beyond its own book closes the books of tickers this one replaced. */
  function CloseReplaced(s: State, ks: seq<BookKey>, n: nat, f: Fill, left: real, was: Replacements, eps: real): Going
    decreases ks
  {
    if ks == [] || left <= eps then Going(s, left)
    else
      var k := ks[0];
      var g :=
        if On(s, Book(k)) == [] || k == f.Key() || k.account != f.account || k.currency != f.currency
           || !was.Replaced(k, f.day)
        then Going(s, left)
        else CloseOn(s, Book(k), f.Closing(), n, f, left, Renamed, eps);
      CloseReplaced(g.s, ks[1..], n, f, g.left, was, eps)
  }

  // ----- splits

  function RestateLot(lot: Lot, factor: Ratio): Lot {
    lot.(qty := lot.qty * factor, price := lot.price / factor)
  }

  function Restate(lots: seq<Lot>, factor: Ratio): seq<Lot> {
    if lots == [] then []
    else [RestateLot(lots[0], factor)] + Restate(lots[1..], factor)
  }

  function RestateEntries(lots: seq<Lot>, factor: Ratio): seq<Entry> {
    if lots == [] then [] else [Restated(lots[0].id, factor)] + RestateEntries(lots[1..], factor)
  }

  function InsertSplit(x: Split, todo: seq<Split>): seq<Split> {
    if todo == [] || x.day <= todo[0].day then [x] + todo
    else [todo[0]] + InsertSplit(x, todo[1..])
  }

  function SortSplits(todo: seq<Split>): seq<Split> {
    if todo == [] then [] else InsertSplit(todo[0], SortSplits(todo[1..]))
  }

  /** The splits of `todo` not after `day`, applied in turn to the book. */
  function SplitBook(s: State, k: BookKey, todo: seq<Split>, day: int): State
    decreases todo
  {
    if todo == [] then s
    else
      var lots := On(s, Book(k));
      var s' :=
        if todo[0].day <= day && k in s.books
        then Put(s, Book(k), Restate(lots, todo[0].factor), RestateEntries(lots, todo[0].factor))
        else s;
      SplitBook(s', k, todo[1..], day)
  }

  function Later(todo: seq<Split>, day: int): seq<Split> {
    if todo == [] then []
    else (if todo[0].day <= day then [] else [todo[0]]) + Later(todo[1..], day)
  }

  function SplitKeyOf(k: BookKey): SplitKey {
    SplitKey(k.account, k.symbol)
  }

  /** The splits due by `day`, taken by the first book of the symbol that is touched. */
  function ApplySplits(s: State, k: BookKey, day: int): State {
    var sk := SplitKeyOf(k);
    if sk !in s.pending then s
    else
      var todo := SortSplits(s.pending[sk]);
      var done := SplitBook(s, k, todo, day);
      var keep := Later(todo, day);
      if keep == [] then done.(pending := done.pending - {sk})
      else done.(pending := done.pending[sk := keep])
  }

  // ----- one fill

  /** What units of a fill are worth at its price. */
  function Worth(f: Fill, units: real): real {
    units * Abs(f.price) * f.symbol.Multiplier()
  }

  /** A residue of a sale that is rounding, not a short. */
  predicate IsDust(left: real, f: Fill) {
    || left <= 0.000001 * Max(1.0, f.qty)
    || (f.crypto && left <= 0.01 * f.qty)
    || (Abs(f.price) > 0.0 && Worth(f, left) < 0.01)
  }

  function NewLot(n: nat, f: Fill, qty: real, direction: Direction): Lot {
    Lot(LotId(n, false), qty, f.price, FeeShare(f.commission, qty, f.qty), direction, f.symbol, f.day, f.crypto)
  }

  function OpenLot(s: State, at: Shelf, lot: Lot): State {
    Put(s, at, On(s, at) + [lot], [Opened(lot)])
  }

  /** What an ordinary fill did not close: a residue, a new lot, dust, or a row nothing matches. */
  function Settle(g: Going, n: nat, f: Fill, eps: real): State {
    var fee := FeeShare(f.commission, g.left, f.qty);
    if g.left <= eps then Note(g.s, Rest(n, g.left, fee))
    else match f.Opening()
      case Some(d) => OpenLot(g.s, Book(f.Key()), NewLot(n, f, g.left, d))
      case None =>
        if f.side.Sell? && IsDust(g.left, f) then Note(g.s, Dust(n, g.left, fee))
        else Note(g.s, Unmatched(Orphan(n, f.side, g.left, f.price), fee))
  }

  function CloseOrdinary(s: State, n: nat, f: Fill, was: Replacements, eps: real): Going {
    var g1 := CloseOn(s, Book(f.Key()), f.Closing(), n, f, f.qty, Own, eps);
    var g2 := if g1.left > eps && f.symbol.IsOption() then CloseRolled(g1.s, f.Closing(), n, f, g1.left, eps) else g1;
    if g2.left > eps && f.side.Sell? then CloseReplaced(g2.s, g2.s.order, n, f, g2.left, was, eps) else g2
  }

  /** Coins sent out leave at cost, off the long lots. */
  function SendOut(s: State, n: nat, f: Fill, eps: real): State {
    var g := CloseOn(s, Book(f.Key()), Long, n, f, f.qty, Outward, eps);
    Note(g.s, Excess(n, g.left, 0.0))
  }

  // A roll: the row closes what the contract holds, then what earlier rolls carried
  // forward, and carries what it closed to the next, unposted contract. A debit belongs to
  // the closed leg's exit, a credit to the new leg's entry.

  function PerUnit(f: Fill): real {
    if f.qty > 0.0 then Abs(f.cash) / (f.qty * 100.0) else 0.0
  }

  function RollExit(f: Fill, d: Direction): real {
    if d.Short? == (f.cash < 0.0) then PerUnit(f) else 0.0
  }

  function RollEntry(f: Fill, d: Direction): real {
    if d.Short? != (f.cash < 0.0) then PerUnit(f) else 0.0
  }

  function CloseRoll(s: State, n: nat, f: Fill, d: Direction, eps: real): Going {
    var x := f.(price := RollExit(f, d));
    var g := CloseOn(s, Book(f.Key()), f.Closing(), n, x, f.qty, Own, eps);
    CloseRolled(g.s, d, n, x, g.left, eps)
  }

  /** The leg a roll carries forward. */
  function CarriedLot(n: nat, f: Fill, d: Direction, moved: real): Lot {
    Lot(LotId(n, true), moved, RollEntry(f, d), 0.0, d, f.symbol, f.day, false)
  }

  /** The lot a multileg row opens with what it had nothing to roll against. */
  function RollOpens(n: nat, f: Fill, left: real): Lot {
    Lot(LotId(n, false), left, PerUnit(f), 0.0, if f.cash < 0.0 then Long else Short, f.symbol, f.day, false)
  }

  /** What a roll closed is carried forward. */
  function CarryRoll(g: Going, n: nat, f: Fill, d: Direction, eps: real): State {
    var s := g.s.(rolledKeys := g.s.rolledKeys + {f.Roll()});
    var moved := f.qty - g.left;
    if moved > eps then OpenLot(s, Carried(f.Roll(), d), CarriedLot(n, f, d, moved)) else s
  }

  /** What it did not close opens a lot of its own. */
  function SettleRoll(g: Going, n: nat, f: Fill, d: Direction, eps: real): State {
    var s := CarryRoll(g, n, f, d, eps);
    var fee := FeeShare(f.commission, g.left, f.qty);
    if g.left > eps then
      Note(OpenLot(s, Book(f.Key()), RollOpens(n, f, g.left)), Forgone(n, fee))
    else Note(s, Rest(n, g.left, fee))
  }

  predicate IsRoll(f: Fill) {
    f.symbol.IsOption() && f.multileg && f.roll.Some?
  }

  function Step(s: State, n: nat, f: Fill, was: Replacements, eps: real): State {
    var s1 := ApplySplits(TouchBook(s, f.Key()), f.Key(), f.day);
    if IsRoll(f) then SettleRoll(CloseRoll(s1, n, f, f.roll.value, eps), n, f, f.roll.value, eps)
    else if f.transferOut then SendOut(s1, n, f, eps)
    else Settle(CloseOrdinary(s1, n, f, was, eps), n, f, eps)
  }

  // ----- the end of the run

  /** 9999-12-31 as a day number (Calendar.LastDay). */
  const FAR_DAY := 2932896

  function SplitAll(s: State, ks: seq<BookKey>): State
    decreases ks
  {
    if ks == [] then s else SplitAll(ApplySplits(s, ks[0], FAR_DAY), ks[1..])
  }

  /** The legs still carried: their closing was never posted, and the credit (or nothing)
      is what they earned. */
  function RollOut(lots: seq<Lot>, eps: real): seq<Entry> {
    if lots == [] then []
    else
      var l := lots[0];
      var e :=
        if l.qty <= eps then Dropped(l.id, l.qty, l.price, l.commission)
        else Closed(MakeSlice(l, Exit(None, l.qty, 0.0, 0.0, l.day, l.symbol), l.qty, Own));
      [e] + RollOut(lots[1..], eps)
  }

  function RollOutOn(s: State, at: Shelf, eps: real): State {
    if On(s, at) == [] then s else Put(s, at, [], RollOut(On(s, at), eps))
  }

  function RollOutAll(s: State, rs: seq<RollKey>, eps: real): State
    decreases rs
  {
    if rs == [] then s
    else RollOutAll(RollOutOn(RollOutOn(s, Carried(rs[0], Long), eps), Carried(rs[0], Short), eps), rs[1..], eps)
  }

  function Finish(s: State, eps: real): State {
    RollOutAll(SplitAll(s, s.order), s.poolOrder, eps)
  }

  function Value(l: Lot): real {
    l.qty * l.price
  }

  /** A residue is not a position. */
  predicate Shown(l: Lot) {
    l.qty > 0.000001 && !(l.crypto && Value(l) < 1.0)
  }

  function ShownLots(lots: seq<Lot>): seq<Lot> {
    if lots == [] then [] else (if Shown(lots[0]) then [lots[0]] else []) + ShownLots(lots[1..])
  }

  function OpenLots(s: State, ks: seq<BookKey>): seq<Lot>
    decreases ks
  {
    if ks == [] then [] else ShownLots(On(s, Book(ks[0]))) + OpenLots(s, ks[1..])
  }
}
