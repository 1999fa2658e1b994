/** A run of three fills on which a lot's commission is charged and kept: a short contract,
    a roll on the same chain, and a buy-back of a third contract that reaches the first. */
module FeesWitness {
  import opened Trading
  import opened Ledger
  import opened Lots
  import opened Matching
  import opened Conservation
  import opened Runs
  import opened Settlement
  import Overcharges

  function Named(text: string, expiry: string): Symbol {
    Symbol(text, Some(Contract("XYZ", "CALL", expiry)))
  }

  const JAN := Named("XYZ JAN", "2025-01-17")
  const FEB := Named("XYZ FEB", "2025-02-21")
  const MAR := Named("XYZ MAR", "2025-03-21")

  function KeyOf(s: Symbol): BookKey {
    BookKey("TFSA", s, "USD")
  }

  const CHAIN := RollKey("TFSA", "XYZ", "CALL")

  function Row(s: Symbol, side: Side, qty: real, commission: real, multileg: bool): Fill {
    Fill("TFSA", s, "USD", 0, side, qty, 10.0, commission, -100.0, false, multileg, false, Plain, Plain,
         if multileg then Some(Short) else None)
  }

  /** Sell two January contracts short; roll February; buy back one March. */
  function Fills(): seq<Fill> {
    [Row(JAN, Sell, 2.0, 4.0, false), Row(FEB, Buy, 1.0, 0.0, true), Row(MAR, Buy, 1.0, 0.0, false)]
  }

  const NO_REPLACEMENTS := Replacements(map[], map[])

  const SHORT_LOT := Lot(LotId(0, false), 2.0, 10.0, 4.0, Short, JAN, 0, false)

  const AFTER_SALE := State(map[KeyOf(JAN) := [SHORT_LOT]], [KeyOf(JAN)], map[CHAIN := EMPTY_POOL], [CHAIN], {},
      map[], [Opened(SHORT_LOT)])

  lemma SaleOpens()
    ensures Run(Fills(), 1, map[], NO_REPLACEMENTS, 0.0) == AFTER_SALE
  {
    var f := Fills()[0];
    var s0 := TouchBook(Start(map[]), f.Key());
    assert f.Key() == KeyOf(JAN) && f.Roll() == CHAIN;
    assert Run(Fills(), 0, map[], NO_REPLACEMENTS, 0.0) == Start(map[]);
    assert ApplySplits(s0, f.Key(), 0) == s0;
    assert CloseOn(s0, Book(f.Key()), Long, 0, f, 2.0, Own, 0.0) == Going(s0, 2.0);
    var s1 := TouchPool(s0, CHAIN);
    assert CloseRolled(s0, Long, 0, f, 2.0, 0.0) == Going(s1, 2.0);
    assert s1.order == [f.Key()];
    assert CloseReplaced(s1, s1.order, 0, f, 2.0, NO_REPLACEMENTS, 0.0) == Going(s1, 2.0);
    FeeWhole(4.0, 2.0);
    assert Run(Fills(), 1, map[], NO_REPLACEMENTS, 0.0) == OpenLot(s1, Book(f.Key()), SHORT_LOT);
    assert s1.log + [Opened(SHORT_LOT)] == [Opened(SHORT_LOT)];
    assert On(s1, Book(f.Key())) + [SHORT_LOT] == [SHORT_LOT];
    assert s1.books[f.Key() := [SHORT_LOT]] == map[KeyOf(JAN) := [SHORT_LOT]];
  }

  /** After the roll the chain counts as rolled; the January short is untouched. */
  ghost predicate AfterRoll(s: State) {
    && s.rolledKeys == {CHAIN} && s.pending == map[]
    && s.order == [KeyOf(JAN), KeyOf(FEB)] && s.books.Keys == {KeyOf(JAN), KeyOf(FEB)}
    && s.books[KeyOf(JAN)] == [SHORT_LOT] && s.pools == map[CHAIN := EMPTY_POOL]
    && (forall i :: 0 <= i < |s.books[KeyOf(FEB)]| ==> s.books[KeyOf(FEB)][i].direction == Long)
    && |s.log| == 3 && s.log[0] == Opened(SHORT_LOT) && (s.log[1].Opened? && s.log[1].lot.id != SHORT_LOT.id)
    && s.log[2].Forgone?
  }

  lemma RollMarks()
    ensures AfterRoll(Run(Fills(), 2, map[], NO_REPLACEMENTS, 0.0))
  {
    hide PerUnit, FeeShare;
    var f := Fills()[1];
    SaleOpens();
    var s0 := TouchBook(AFTER_SALE, f.Key());
    assert f.Key() == KeyOf(FEB) && f.Roll() == CHAIN;
    assert ApplySplits(s0, f.Key(), 0) == s0;
    RollFindsNothing(s0);
    assert CarryRoll(Going(s0, 1.0), 1, f, Short, 0.0) == s0.(rolledKeys := {CHAIN});
    assert Run(Fills(), 2, map[], NO_REPLACEMENTS, 0.0) == SettleRoll(Going(s0, 1.0), 1, f, Short, 0.0);
  }

  lemma RollFindsNothing(s: State)
    requires KeyOf(FEB) in s.books && s.books[KeyOf(FEB)] == [] && s.pools == map[CHAIN := EMPTY_POOL]
    requires s.rolledKeys == {}
    ensures CloseRoll(s, 1, Fills()[1], Short, 0.0) == Going(s, 1.0)
  {
    hide PerUnit, FeeShare;
    var f := Fills()[1];
    assert f.Key() == KeyOf(FEB) && f.Roll() == CHAIN;
    var x := f.(price := RollExit(f, Short));
    assert CloseOn(s, Book(f.Key()), Short, 1, x, 1.0, Own, 0.0) == Going(s, 1.0);
    assert CloseRolled(s, Short, 1, x, 1.0, 0.0) == Going(s, 1.0);
  }

  /** The chain's older contracts: January first, or alone, or after a book a buy cannot close. */
  lemma OldersAre(s: State, f: Fill)
    requires f == Fills()[2]
    requires KeyOf(JAN) in s.books && KeyOf(FEB) in s.books && s.books[KeyOf(JAN)] == [SHORT_LOT]
    ensures var j, b := KeyOf(JAN), KeyOf(FEB);
            Olders(s.books, [j, b, KeyOf(MAR)], f) in {[j], [j, b], [b, j]}
  {
    hide TextLess;
    var j, b, m := KeyOf(JAN), KeyOf(FEB), KeyOf(MAR);
    assert m == f.Key();
    assert [j, b, m][..2] == [j, b] && [j, b][..1] == [j] && [j][..0] == [];
    assert Olders(s.books, [], f) == [];
    assert Olders(s.books, [j], f) == [j] by {
      assert OlderContract(s.books, j, f);
      assert Insert(j, []) == [j];
    }
    assert Insert(b, [j]) in {[b, j], [j, b]} by {
      assert [j][1..] == [];
      assert Insert(b, []) == [b];
      assert [j] + [b] == [j, b] && [b] + [j] == [b, j];
    }
    assert Olders(s.books, [j, b], f) in {[j], [j, b], [b, j]};
  }

  /** What the buy-back takes off the January short. */
  lemma BuyBackTakes()
    ensures var t := Take([SHORT_LOT], Short, ExitOf(2, Fills()[2]), 2, 1.0, Older, 0.0);
            && t.left == 0.0 && |t.entries| == 2 && t.entries[0].Closed? && t.entries[1] == Recharged(SHORT_LOT.id, 2.0)
  {
    assert FeeShare(4.0, 1.0, 2.0) == 2.0;
  }

  lemma ChainCloses(s: State, ks: seq<BookKey>)
    requires ks in {[KeyOf(JAN)], [KeyOf(JAN), KeyOf(FEB)], [KeyOf(FEB), KeyOf(JAN)]}
    requires KeyOf(JAN) in s.books && KeyOf(FEB) in s.books && s.books[KeyOf(JAN)] == [SHORT_LOT]
    requires forall i :: 0 <= i < |s.books[KeyOf(FEB)]| ==> s.books[KeyOf(FEB)][i].direction == Long
    ensures var t := Take([SHORT_LOT], Short, ExitOf(2, Fills()[2]), 2, 1.0, Older, 0.0);
            CloseOlder(s, ks, Short, 2, Fills()[2], 1.0, 0.0) == Going(Put(s, Book(KeyOf(JAN)), t.lots, t.entries), 0.0)
  {
    hide Take;
    var f := Fills()[2];
    var j, b := KeyOf(JAN), KeyOf(FEB);
    var t := Take([SHORT_LOT], Short, ExitOf(2, f), 2, 1.0, Older, 0.0);
    BuyBackTakes();
    assert j != b;
    var s' := Put(s, Book(j), t.lots, t.entries);
    assert CloseOn(s, Book(j), Short, 2, f, 1.0, Older, 0.0) == Going(s', 0.0);
    assert CloseOn(s, Book(b), Short, 2, f, 1.0, Older, 0.0) == Going(s, 1.0);
    assert CloseOn(s', Book(b), Short, 2, f, 0.0, Older, 0.0) == Going(s', 0.0);
    assert [j][1..] == [] && [j, b][1..] == [b] && [b][1..] == [] && [b, j][1..] == [j];
    assert CloseOlder(s', [], Short, 2, f, 0.0, 0.0) == Going(s', 0.0);
    assert CloseOlder(s', [b], Short, 2, f, 0.0, 0.0) == Going(s', 0.0);
    assert CloseOlder(s, [j], Short, 2, f, 1.0, 0.0) == Going(s', 0.0);
  }

  lemma OverchargeOf(es: seq<Entry>, id: LotId)
    requires |es| == 2 || |es| == 3
    requires !es[0].Recharged? && (es[1].Recharged? ==> es[1].id == id) && (|es| == 3 ==> !es[2].Recharged?)
    ensures Overcharge(es, id) == if es[1].Recharged? then es[1].fee else 0.0
  {
    assert es[1..][0] == es[1] && es[1..][1..] == es[2..];
    if |es| == 3 {
      assert es[2..] == [es[2]];
      assert [es[2]][1..] == [];
      assert Overcharge([es[2]], id) == 0.0;
    } else {
      assert es[2..] == [];
      assert Overcharge([], id) == 0.0;
      assert Overcharge(es[1..], id) == if es[1].Recharged? then es[1].fee else 0.0;
    }
  }

  /** The buy-back finds nothing of its own and reaches the January short through the chain. */
  lemma BuyBackCloses(s: State)
    requires KeyOf(MAR) in s.books && s.books[KeyOf(MAR)] == [] && KeyOf(JAN) in s.books && KeyOf(FEB) in s.books
    requires s.books[KeyOf(JAN)] == [SHORT_LOT] && s.order == [KeyOf(JAN), KeyOf(FEB), KeyOf(MAR)]
    requires s.pools == map[CHAIN := EMPTY_POOL] && s.rolledKeys == {CHAIN}
    requires forall i :: 0 <= i < |s.books[KeyOf(FEB)]| ==> s.books[KeyOf(FEB)][i].direction == Long
    ensures var t := Take([SHORT_LOT], Short, ExitOf(2, Fills()[2]), 2, 1.0, Older, 0.0);
            CloseOrdinary(s, 2, Fills()[2], NO_REPLACEMENTS,
                0.0) == Going(Put(s, Book(KeyOf(JAN)), t.lots, t.entries), 0.0)
  {
    hide Take, CloseOlder, Olders;
    var f := Fills()[2];
    assert f.Key() == KeyOf(MAR) && f.Roll() == CHAIN;
    assert CloseOn(s, Book(f.Key()), Short, 2, f, 1.0, Own, 0.0) == Going(s, 1.0);
    OldersAre(s, f);
    ChainCloses(s, Olders(s.books, s.order, f));
  }

  lemma BuyBackIs(s0: State)
    requires s0 == Run(Fills(), 2, map[], NO_REPLACEMENTS, 0.0)
    ensures var t := Take([SHORT_LOT], Short, ExitOf(2, Fills()[2]), 2, 1.0, Older, 0.0);
            var s := Run(Fills(), 3, map[], NO_REPLACEMENTS, 0.0);
            && s.log == s0.log + t.entries + [Rest(2, 0.0, FeeShare(0.0, 0.0, 1.0))]
            && s.pending == map[] && s.pools == map[CHAIN := EMPTY_POOL]
  {
    hide Take, FeeShare, CloseOrdinary;
    var f := Fills()[2];
    RollMarks();
    var s1 := TouchBook(s0, f.Key());
    assert f.Key() == KeyOf(MAR);
    assert ApplySplits(s1, f.Key(), 0) == s1;
    BuyBackCloses(s1);
  }

  lemma BuyBackOvercharges()
    ensures var s := Run(Fills(), 3, map[], NO_REPLACEMENTS, 0.0);
            Overcharge(s.log, SHORT_LOT.id) == 2.0 && s.pending == map[] && s.pools == map[CHAIN := EMPTY_POOL]
  {
    hide Take, Run, Overcharge, FeeShare;
    var s0 := Run(Fills(), 2, map[], NO_REPLACEMENTS, 0.0);
    var t := Take([SHORT_LOT], Short, ExitOf(2, Fills()[2]), 2, 1.0, Older, 0.0);
    var last := Rest(2, 0.0, FeeShare(0.0, 0.0, 1.0));
    RollMarks();
    BuyBackIs(s0);
    BuyBackTakes();
    Overcharges.OverAppends(s0.log, t.entries, SHORT_LOT.id);
    Overcharges.OverAppends(s0.log + t.entries, [last], SHORT_LOT.id);
    OverchargeOf(s0.log, SHORT_LOT.id);
    OverchargeOf(t.entries, SHORT_LOT.id);
    OverchargeNone(last, SHORT_LOT.id);
  }

  lemma OverchargeNone(e: Entry, id: LotId)
    requires !e.Recharged?
    ensures Overcharge([e], id) == 0.0
  {
    assert [e][1..] == [];
  }

  lemma {:induction false} NothingToSplit(s: State, ks: seq<BookKey>)
    requires s.pending == map[]
    ensures SplitAll(s, ks) == s
    decreases ks
  {
    if ks != [] {
      NothingToSplit(s, ks[1..]);
    }
  }

  lemma {:induction false} NothingCarried(s: State, rs: seq<RollKey>)
    requires s.pools == map[CHAIN := EMPTY_POOL]
    ensures RollOutAll(s, rs, 0.0) == s
    decreases rs
  {
    if rs != [] {
      NothingCarried(s, rs[1..]);
    }
  }

  /** With a roll among the fills a commission can be charged and kept: this lot was opened with
      4, its slice bears 2 of it, and it still carries 4. */
  lemma RollsChargeTwice()
    ensures var s := Final(Fills(), map[], NO_REPLACEMENTS, 0.0);
            var id := SHORT_LOT.id;
            && Overcharge(s.log, id) == 2.0
            && Total(s.log, id, In).fee
               != SliceTotal(Slices(s.log), id).fee + Total(s.log, id, Out).fee + Total(s.log, id, Lost).fee
                  + Held(On(s, Home(Fills(), id)), id).fee
  {
    hide Run, Overcharge, SliceTotal, Total, Held, SplitAll, RollOutAll;
    var s := Run(Fills(), 3, map[], NO_REPLACEMENTS, 0.0);
    BuyBackOvercharges();
    NothingToSplit(s, s.order);
    NothingCarried(s, s.poolOrder);
    FeesButOvercharge(Fills(), map[], NO_REPLACEMENTS, 0.0, SHORT_LOT.id);
  }
}
