/** What a person is shown of a run: its slices as rows, the lots worth showing, and the rolls folded.
    All the cash the fills moved is in it, but for what the history and the folds say is not. */
module Report {
  import opened Trading
  import opened Ledger
  import opened Lots
  import opened Matching
  import opened CashFlow
  import Calendar
  import RollFold
  import Settlement

  // ----- slices as rows

  function Underlying(symbol: Symbol): string {
    match symbol.contract
    case Some(c) => c.underlying
    case None => symbol.text
  }

  function AccountOfLot(fills: seq<Fill>, id: LotId): string {
    if id.fill < |fills| then fills[id.fill].account else ""
  }

  function CurrencyOfLot(fills: seq<Fill>, id: LotId): string {
    if id.fill < |fills| then fills[id.fill].currency else ""
  }

  /** The side a slice left by; one whose closing was never posted, the side that closes it. */
  function SideOf(fills: seq<Fill>, s: Slice): Side {
    if s.exit.Some? && s.exit.value < |fills| then fills[s.exit.value].side
    else if s.direction.Short? then Buy else Sell
  }

  function RowOf(fills: seq<Fill>, s: Slice): RollFold.Row {
    var r := RollFold.Row(RollFold.TradeId("", "", "", "", "", 0, 0, 0, Buy), AccountOfLot(fills, s.lot), s.symbol,
                          Underlying(s.symbol), CurrencyOfLot(fills, s.lot), s.direction, SideOf(fills, s), s.qty,
                          s.entryPrice, s.exitPrice, Calendar.IsoDate(s.entryDay), Calendar.IsoDate(s.exitDay),
                          s.entryFee + s.exitFee, s.pnl);
    r.(id := RollFold.StableId(r))
  }

  function RowsOf(fills: seq<Fill>, ss: seq<Slice>): seq<RollFold.Row> {
    if ss == [] then [] else [RowOf(fills, ss[0])] + RowsOf(fills, ss[1..])
  }

  /** A fair slice is a sound row. */
  lemma RowIsSound(fills: seq<Fill>, s: Slice)
    requires Fair(fills, s)
    ensures RollFold.Sound(RowOf(fills, s))
  {
    hide Calendar.IsoDate, RollFold.StableId;
  }

  lemma {:induction false} RowsAreSound(fills: seq<Fill>, ss: seq<Slice>)
    requires forall s :: s in ss ==> Fair(fills, s)
    ensures forall r :: r in RowsOf(fills, ss) ==> RollFold.Sound(r)
  {
    hide Fair, RowOf, RollFold.Sound;
    if ss != [] {
      assert ss[0] in ss;
      RowIsSound(fills, ss[0]);
      RowsAreSound(fills, ss[1..]);
    }
  }

  lemma {:induction false} FairSlices(fills: seq<Fill>, log: seq<Entry>)
    requires FairLog(fills, log)
    ensures forall s :: s in Slices(log) ==> Fair(fills, s)
  {
    hide Fair;
    if log != [] {
      assert forall i :: 0 <= i < |log[1..]| ==> log[1..][i] == log[i + 1];
      FairSlices(fills, log[1..]);
    }
  }

  /** So each slice of every run says what it made, and of which fills, as `CashFlow.Fair` has it. */
  lemma EverySliceIsFair(fills: seq<Fill>, pending: map<SplitKey, seq<Split>>, was: Replacements, eps: real, s: Slice)
    requires Given(fills, was, eps) && s in Slices(Settlement.Final(fills, pending, was, eps).log)
    ensures Fair(fills, s)
  {
    hide Fair, Given, Settlement.Final, Profit, BooksPaid, Others, LapsedBy, CashOf;
    CashIsKept(fills, pending, was, eps);
    FairSlices(fills, Settlement.Final(fills, pending, was, eps).log);
  }

  // ----- the same rows in any order

  lemma {:induction false} SumJoins(a: seq<RollFold.Row>, b: seq<RollFold.Row>)
    ensures RollFold.SumPnl(a + b) == RollFold.SumPnl(a) + RollFold.SumPnl(b)
  {
    if b == [] {
      assert a + b == a;
    } else {
      var n := |b| - 1;
      assert (a + b)[..|a| + n] == a + b[..n];
      SumJoins(a, b[..n]);
    }
  }

  lemma SumOne(r: RollFold.Row)
    ensures RollFold.SumPnl([r]) == r.pnl
  {
    assert [r][..0] == [];
  }

  lemma {:induction false} SumOfRows(fills: seq<Fill>, ss: seq<Slice>)
    ensures RollFold.SumPnl(RowsOf(fills, ss)) == Profit(ss)
  {
    hide RollFold.StableId, Calendar.IsoDate;
    if ss != [] {
      SumOfRows(fills, ss[1..]);
      SumOne(RowOf(fills, ss[0]));
      SumJoins([RowOf(fills, ss[0])], RowsOf(fills, ss[1..]));
    }
  }

  /** One row aside, wherever it is. */
  lemma OneAside(b: seq<RollFold.Row>, i: nat)
    requires i < |b|
    ensures var rest := b[..i] + b[i + 1..];
            && multiset(b) == multiset(rest) + multiset{b[i]}
            && RollFold.SumPnl(b) == RollFold.SumPnl(rest) + b[i].pnl
  {
    hide RollFold.SumPnl;
    assert b == b[..i] + ([b[i]] + b[i + 1..]);
    SumOne(b[i]);
    SumJoins([b[i]], b[i + 1..]);
    SumJoins(b[..i], [b[i]] + b[i + 1..]);
    SumJoins(b[..i], b[i + 1..]);
  }

  lemma LeaveOne(x: multiset<RollFold.Row>, y: multiset<RollFold.Row>, r: RollFold.Row)
    ensures x + multiset{r} == y + multiset{r} ==> x == y
  {
    assert x + multiset{r} - multiset{r} == x && y + multiset{r} - multiset{r} == y;
  }

  lemma {:induction false} SumInAnyOrder(a: seq<RollFold.Row>, b: seq<RollFold.Row>)
    requires multiset(a) == multiset(b)
    ensures RollFold.SumPnl(a) == RollFold.SumPnl(b)
    decreases |a|
  {
    hide RollFold.SumPnl;
    if a == [] {
      assert |multiset(b)| == 0;
    } else {
      assert a[0] in multiset(b);
      var i :| 0 <= i < |b| && b[i] == a[0];
      OneAside(a, 0);
      OneAside(b, i);
      var a', b' := a[..0] + a[1..], b[..i] + b[i + 1..];
      LeaveOne(multiset(a'), multiset(b'), a[0]);
      SumInAnyOrder(a', b');
    }
  }

  // ----- the lots that are shown, and those that are not

  function HiddenLots(lots: seq<Lot>): seq<Lot> {
    if lots == [] then [] else (if Shown(lots[0]) then [] else [lots[0]]) + HiddenLots(lots[1..])
  }

  function HiddenIn(s: State, ks: seq<BookKey>): seq<Lot>
    decreases ks
  {
    if ks == [] then [] else HiddenLots(On(s, Book(ks[0]))) + HiddenIn(s, ks[1..])
  }

  lemma {:induction false} QueueJoins(a: seq<Lot>, b: seq<Lot>)
    ensures QueuePaid(a + b) == QueuePaid(a) + QueuePaid(b)
  {
    hide Paid;
    if a == [] {
      assert a + b == b;
    } else {
      assert (a + b)[0] == a[0] && (a + b)[1..] == a[1..] + b;
      QueueJoins(a[1..], b);
    }
  }

  lemma {:induction false} ShownOrHidden(lots: seq<Lot>)
    ensures QueuePaid(ShownLots(lots)) + QueuePaid(HiddenLots(lots)) == QueuePaid(lots)
  {
    hide Paid, Shown;
    if lots != [] {
      ShownOrHidden(lots[1..]);
      assert [lots[0]][1..] == [] && QueuePaid([]) == 0.0;
      QueueJoins([lots[0]], ShownLots(lots[1..]));
      QueueJoins([lots[0]], HiddenLots(lots[1..]));
      assert [] + ShownLots(lots[1..]) == ShownLots(lots[1..]) && [] + HiddenLots(lots[1..]) == HiddenLots(lots[1..]);
    }
  }

  lemma {:induction false} BooksAreShownOrHidden(s: State, ks: seq<BookKey>)
    ensures BooksPaid(s.books, ks) == QueuePaid(OpenLots(s, ks)) + QueuePaid(HiddenIn(s, ks))
  {
    hide QueuePaid, ShownLots, HiddenLots;
    if ks == [] {
      assert QueuePaid([]) == 0.0 by { NothingPaid(); }
    } else {
      BooksAreShownOrHidden(s, ks[1..]);
      var lots := On(s, Book(ks[0]));
      ShownOrHidden(lots);
      NothingPaid();
      QueueJoins(ShownLots(lots), OpenLots(s, ks[1..]));
      QueueJoins(HiddenLots(lots), HiddenIn(s, ks[1..]));
    }
  }

  lemma NothingPaid()
    ensures QueuePaid([]) == 0.0
  {
  }

  // ----- open lots as they are shown

  function OpenOf(fills: seq<Fill>, l: Lot): RollFold.OpenLot {
    RollFold.OpenLot(AccountOfLot(fills, l.id), l.symbol, Underlying(l.symbol), CurrencyOfLot(fills, l.id), l.direction,
        l.qty, l.price, Calendar.IsoDate(l.day))
  }

  function OpensOf(fills: seq<Fill>, lots: seq<Lot>): (opens: seq<RollFold.OpenLot>)
    ensures |opens| == |lots|
  {
    if lots == [] then [] else OpensOf(fills, lots[..|lots| - 1]) + [OpenOf(fills, lots[|lots| - 1])]
  }

  /** The cash tied up in a lot shown, its commission aside. */
  function Tied(l: RollFold.OpenLot): real {
    Moved(l.direction, l.qty, l.price, l.symbol.Multiplier(), 0.0)
  }

  function TiedUp(lots: seq<RollFold.OpenLot>): real {
    if lots == [] then 0.0 else TiedUp(lots[..|lots| - 1]) + Tied(lots[|lots| - 1])
  }

  function Commissions(lots: seq<Lot>): real {
    if lots == [] then 0.0 else Commissions(lots[..|lots| - 1]) + lots[|lots| - 1].commission
  }

  lemma OpenIsPaid(fills: seq<Fill>, l: Lot)
    ensures Paid(l) == Tied(OpenOf(fills, l)) - l.commission
  {
    hide Calendar.IsoDate;
  }

  lemma {:induction false} OpensArePaid(fills: seq<Fill>, lots: seq<Lot>)
    ensures QueuePaid(lots) == TiedUp(OpensOf(fills, lots)) - Commissions(lots)
  {
    hide Paid, Tied, OpenOf;
    if lots != [] {
      var n := |lots| - 1;
      OpenIsPaid(fills, lots[n]);
      OpensArePaid(fills, lots[..n]);
      QueueJoins(lots[..n], [lots[n]]);
      assert lots == lots[..n] + [lots[n]] && [lots[n]][1..] == [] && QueuePaid([]) == 0.0;
      var opens := OpensOf(fills, lots[..n]);
      assert (opens + [OpenOf(fills, lots[n])])[..n] == opens;
    }
  }

  lemma {:induction false} OpensAreHeld(fills: seq<Fill>, lots: seq<Lot>)
    requires forall l :: l in lots ==> l.qty > 0.0
    ensures RollFold.ShortHeld(OpensOf(fills, lots))
  {
    hide Calendar.IsoDate;
    if lots != [] {
      var n := |lots| - 1;
      OpensAreHeld(fills, lots[..n]);
      assert lots[n] in lots;
    }
  }

  lemma {:induction false} ShownAreHeld(lots: seq<Lot>)
    ensures forall l :: l in ShownLots(lots) ==> l.qty > 0.0
  {
    if lots != [] {
      ShownAreHeld(lots[1..]);
    }
  }

  lemma {:induction false} OpenAreHeld(s: State, ks: seq<BookKey>)
    ensures forall l :: l in OpenLots(s, ks) ==> l.qty > 0.0
  {
    hide ShownLots;
    if ks != [] {
      ShownAreHeld(On(s, Book(ks[0])));
      OpenAreHeld(s, ks[1..]);
    }
  }

  // ----- the folds

  /** The same lot, but for the price of a short option. */
  predicate Repriced(l: RollFold.OpenLot, l': RollFold.OpenLot) {
    l' == l.(price := l'.price) && (l' == l || (l.direction.Short? && l.symbol.IsOption()))
  }

  ghost predicate AllRepriced(lots: seq<RollFold.OpenLot>, lots': seq<RollFold.OpenLot>) {
    |lots| == |lots'| && forall i :: 0 <= i < |lots| ==> Repriced(lots[i], lots'[i])
  }

  lemma FoldReprices(f: RollFold.Fold, order: seq<nat>, ci: nat)
    requires ci < |f.rows|
    ensures AllRepriced(f.lots, RollFold.FoldOne(f, order, ci).lots)
  {
    hide RollFold.BestRow, RollFold.Adjusted;
    var lot := RollFold.BestLot(f.lots, f.rows[ci], |f.lots|);
    LotIsCandidate(f.lots, f.rows[ci]);
  }

  lemma LotIsCandidate(lots: seq<RollFold.OpenLot>, cover: RollFold.Row)
    ensures var best := RollFold.BestLot(lots, cover, |lots|);
            best.Some? ==> RollFold.OpenCandidate(lots, cover, best.value)
  {
  }

  lemma {:induction false} FoldsReprice(rows: seq<RollFold.Row>, lots: seq<RollFold.OpenLot>, order: seq<nat>, k: nat)
    requires k <= |order| && RollFold.InRange(order, |rows|)
    ensures AllRepriced(lots, RollFold.FoldSome(rows, lots, order, k).lots)
  {
    hide RollFold.FoldOne;
    if k > 0 {
      FoldsReprice(rows, lots, order, k - 1);
      FoldReprices(RollFold.FoldSome(rows, lots, order, k - 1), order, order[k - 1]);
    }
  }

  lemma OneRepriced(l: RollFold.OpenLot, l': RollFold.OpenLot)
    requires Repriced(l, l')
    ensures Tied(l') - RollFold.PremiumOf(l') == Tied(l) - RollFold.PremiumOf(l)
  {
  }

  /** The premium of short options is all a fold changes of the cash tied up. */
  lemma {:induction false} RepricedByPremium(lots: seq<RollFold.OpenLot>, lots': seq<RollFold.OpenLot>)
    requires AllRepriced(lots, lots')
    ensures TiedUp(lots') - RollFold.Premium(lots') == TiedUp(lots) - RollFold.Premium(lots)
  {
    hide Tied, RollFold.PremiumOf, Repriced;
    if lots != [] {
      var n := |lots| - 1;
      RepricedByPremium(lots[..n], lots'[..n]);
      OneRepriced(lots[n], lots'[n]);
    }
  }

  // ----- what is shown

  /** What is shown is the cash that moved. For every run, its rows sorted in any way and its covers
      folded in any order: the profit of the rows kept and the cash tied up in the lots shown make up
      the cash of the fills, with the commissions those lots carry, the lots too small to show, the
      other entries of the history, what rolls moved within the tolerance, and the rows dropped for
      sharing another's id. */
  lemma ShownIsCash(fills: seq<Fill>, pending: map<SplitKey, seq<Split>>, was: Replacements, eps: real,
      rows: seq<RollFold.Row>, order: seq<nat>)
    requires Given(fills, was, eps) && RollFold.InRange(order, |rows|)
    requires multiset(rows) == multiset(RowsOf(fills, Slices(Settlement.Final(fills, pending, was, eps).log)))
    ensures var s := Settlement.Final(fills, pending, was, eps);
            var open := OpenLots(s, s.order);
            var f := RollFold.FoldSome(rows, OpensOf(fills, open), order, |order|);
            RollFold.SumPnl(RollFold.NotDropped(f.rows, f.drop)) + TiedUp(f.lots)
            == CashOf(fills, |fills|) + Commissions(open) - QueuePaid(HiddenIn(s, s.order)) - Others(fills, s.log)
               - LapsedBy(fills, |fills|, pending, was, eps) - RollFold.Stray(f.rows, f.drop, f.folded)
  {
    hide Settlement.Final, Given, RowsOf, RollFold.FoldSome, RollFold.NotDropped, RollFold.Stray, RollFold.SumPnl;
    hide RollFold.Premium, OpensOf, OpenLots, HiddenIn, TiedUp, Commissions, QueuePaid, BooksPaid, Others, LapsedBy;
    hide RollFold.Sound, Profit, Fair, Slices, CashOf;
    var s := Settlement.Final(fills, pending, was, eps);
    var open := OpenLots(s, s.order);
    var made := RowsOf(fills, Slices(s.log));
    var lots := OpensOf(fills, open);
    CashIsKept(fills, pending, was, eps);
    FairSlices(fills, s.log);
    RowsAreSound(fills, Slices(s.log));
    SumOfRows(fills, Slices(s.log));
    SumInAnyOrder(rows, made);
    forall i | 0 <= i < |rows| ensures RollFold.Sound(rows[i]) {
      assert rows[i] in multiset(rows);
    }
    BooksAreShownOrHidden(s, s.order);
    OpensArePaid(fills, open);
    OpenAreHeld(s, s.order);
    OpensAreHeld(fills, open);
    RollFold.FoldConservesButStray(rows, lots, order);
    FoldsReprice(rows, lots, order, |order|);
    RepricedByPremium(lots, RollFold.FoldSome(rows, lots, order, |order|).lots);
  }
}
