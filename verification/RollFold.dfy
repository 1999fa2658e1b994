/** Folding option rolls: a cover's profit or loss moves into the contract rolled to, closed
    or still open, and the cover's row is dropped. Rows are dropped by their id, and a row's
    id is made of what it says, so what is conserved depends on ids not colliding. */
module RollFold {
  import opened Trading

  /** The trade id: what the row says, prices and quantity to eight places. */
  datatype TradeId = TradeId(account: string, symbol: string, currency: string, entryDay: string, exitDay: string,
                             qty: int, entry: int, exit: int, side: Side)

  datatype Row = Row(id: TradeId, account: string, symbol: Symbol, underlying: string, currency: string,
                     direction: Direction, side: Side, qty: real, entryPrice: real, exitPrice: real,
                     entryDay: string, exitDay: string, commission: real, pnl: real)

  datatype OpenLot = OpenLot(account: string, symbol: Symbol, underlying: string, currency: string,
                             direction: Direction, qty: real, price: real, day: string)

  /** A number to eight places, as its whole count of the eighth. */
  function Fmt8(v: real): int {
    var scaled := (Abs(v) * 100000000.0 + 0.5).Floor;
    if v < 0.0 then -scaled else scaled
  }

  /** It is the nearest such count. */
  lemma EighthPlace(v: real)
    ensures -0.5 <= Fmt8(v) as real - v * 100000000.0 <= 0.5
  {
  }

  function StableId(r: Row): TradeId {
    TradeId(r.account, r.symbol.text, r.currency, r.entryDay, r.exitDay, Fmt8(r.qty), Fmt8(r.entryPrice),
        Fmt8(r.exitPrice), r.side)
  }

  /** What the row made before commission. */
  function RawPnl(r: Row): real {
    (if r.direction.Short? then r.entryPrice - r.exitPrice
     else r.exitPrice - r.entryPrice) * Abs(r.qty) * r.symbol.Multiplier()
  }

  /** The book a roll stays in. */
  datatype RollBook = RollBook(account: string, currency: string, underlying: string)

  function BookOf(r: Row): RollBook {
    RollBook(r.account, r.currency, r.underlying)
  }

  predicate ShortOption(r: Row) {
    r.direction.Short? && r.symbol.IsOption()
  }

  datatype Fold = Fold(rows: seq<Row>, lots: seq<OpenLot>, drop: set<TradeId>, folded: set<nat>)

  // ----- where a cover goes

  /** Row `i` can take the cover in: another short option of its book, entered the day the
      cover was closed, of another contract, and not itself dropped. */
  predicate Candidate(rows: seq<Row>, drop: set<TradeId>, ci: nat, i: nat)
    requires ci < |rows|
  {
    && i < |rows| && ShortOption(rows[i]) && BookOf(rows[i]) == BookOf(rows[ci]) && rows[i].entryDay == rows[ci].exitDay
    && rows[i].id != rows[ci].id && rows[i].id !in drop && rows[i].symbol != rows[ci].symbol
  }

  predicate OpenCandidate(lots: seq<OpenLot>, cover: Row, i: nat) {
    && i < |lots| && lots[i].direction.Short? && lots[i].symbol.IsOption() && lots[i].symbol != cover.symbol
    && RollBook(lots[i].account, lots[i].currency, lots[i].underlying) == BookOf(cover) && lots[i].day == cover.exitDay
  }

  /** Nearer the cover's quantity, then first by symbol. */
  predicate Nearer(q: real, s: string, q': real, s': string, cq: real) {
    var d, d' := Abs(Abs(q) - cq), Abs(Abs(q') - cq);
    d < d' || (d == d' && TextLess(s, s'))
  }

  /** The best of the candidates among `order`. */
  function BestRow(rows: seq<Row>, drop: set<TradeId>, ci: nat, order: seq<nat>): (best: Option<nat>)
    requires ci < |rows|
    ensures best.Some? ==> Candidate(rows, drop, ci, best.value)
  {
    if order == [] then None
    else
      var i := order[|order| - 1];
      var best := BestRow(rows, drop, ci, order[..|order| - 1]);
      if Candidate(rows, drop, ci, i)
         && (best.None? || Nearer(rows[i].qty, rows[i].symbol.text, rows[best.value].qty,
             rows[best.value].symbol.text, Abs(rows[ci].qty)))
      then Some(i) else best
  }

  function BestLot(lots: seq<OpenLot>, cover: Row, n: nat): (best: Option<nat>)
    requires n <= |lots|
    ensures best.Some? ==> OpenCandidate(lots, cover, best.value)
  {
    if n == 0 then None
    else
      var best := BestLot(lots, cover, n - 1);
      if OpenCandidate(lots, cover, n - 1)
         && (best.None? || Nearer(lots[n - 1].qty, lots[n - 1].symbol.text, lots[best.value].qty,
             lots[best.value].symbol.text, Abs(cover.qty)))
      then Some(n - 1) else best
  }

  function Adjusted(r: Row, pnl: real): Row
    requires Abs(r.qty) > 0.0
  {
    var r1 := r.(entryPrice := r.entryPrice + pnl / (Abs(r.qty) * r.symbol.Multiplier()));
    var r2 := r1.(pnl := RawPnl(r1) - r1.commission);
    r2.(id := StableId(r2))
  }

  function AdjustedLot(l: OpenLot, pnl: real): OpenLot
    requires Abs(l.qty) > 0.0
  {
    l.(price := l.price + pnl / (Abs(l.qty) * l.symbol.Multiplier()))
  }

  predicate Covers(f: Fold, ci: nat)
    requires ci < |f.rows|
  {
    var c := f.rows[ci];
    c.id !in f.drop && c.exitDay != "" && c.underlying != "" && c.underlying != "—"
  }

  /** One cover's turn. */
  function FoldOne(f: Fold, order: seq<nat>, ci: nat): Fold
    requires ci < |f.rows|
  {
    var cover := f.rows[ci];
    if !Covers(f, ci) then f
    else match BestRow(f.rows, f.drop, ci, order)
      case Some(i) =>
        if Abs(f.rows[i].qty) > 0.0
        then Fold(f.rows[i := Adjusted(f.rows[i], cover.pnl)], f.lots, f.drop + {cover.id}, f.folded + {ci})
        else f
      case None =>
        match BestLot(f.lots, cover, |f.lots|)
        case Some(i) =>
          if Abs(f.lots[i].qty) > 0.0
          then Fold(f.rows, f.lots[i := AdjustedLot(f.lots[i], cover.pnl)], f.drop + {cover.id}, f.folded + {ci})
          else f
        case None => f
  }

  /** The first `k` covers of `order`, each read as it is when its turn comes. */
  function FoldSome(rows: seq<Row>, lots: seq<OpenLot>, order: seq<nat>, k: nat): (f: Fold)
    requires k <= |order| && InRange(order, |rows|)
    ensures |f.rows| == |rows| && |f.lots| == |lots|
  {
    if k == 0 then Fold(rows, lots, {}, {})
    else FoldOne(FoldSome(rows, lots, order, k - 1), order, order[k - 1])
  }

  predicate InRange(order: seq<nat>, n: nat) {
    forall j :: 0 <= j < |order| ==> order[j] < n
  }

  function NotDropped(rows: seq<Row>, drop: set<TradeId>): seq<Row> {
    if rows == [] then []
    else NotDropped(rows[..|rows| - 1], drop) + if rows[|rows| - 1].id in drop then [] else [rows[|rows| - 1]]
  }

  // ----- money

  function SumPnl(rows: seq<Row>): real {
    if rows == [] then 0.0 else SumPnl(rows[..|rows| - 1]) + rows[|rows| - 1].pnl
  }

  /** What the rows outside `gone` made. */
  function SumOutside(rows: seq<Row>, gone: set<nat>): real {
    if rows == [] then 0.0
    else SumOutside(rows[..|rows| - 1], gone) + if |rows| - 1 in gone then 0.0 else rows[|rows| - 1].pnl
  }

  function PremiumOf(l: OpenLot): real {
    if l.direction.Short? && l.symbol.IsOption() then l.qty * l.price * l.symbol.Multiplier() else 0.0
  }

  /** What the open short options were sold for. */
  function Premium(lots: seq<OpenLot>): real {
    if lots == [] then 0.0 else Premium(lots[..|lots| - 1]) + PremiumOf(lots[|lots| - 1])
  }

  lemma {:induction false} SumUpdated(rows: seq<Row>, gone: set<nat>, i: nat, r: Row)
    requires i < |rows| && i !in gone
    ensures SumOutside(rows[i := r], gone) == SumOutside(rows, gone) - rows[i].pnl + r.pnl
  {
    var n := |rows| - 1;
    if i == n {
      assert rows[i := r][..n] == rows[..n];
    } else {
      assert rows[i := r][..n] == rows[..n][i := r];
      SumUpdated(rows[..n], gone, i, r);
    }
  }

  lemma {:induction false} SumWithout(rows: seq<Row>, gone: set<nat>, i: nat)
    requires i !in gone
    ensures SumOutside(rows, gone + {i}) == SumOutside(rows, gone) - if i < |rows| then rows[i].pnl else 0.0
  {
    if rows != [] {
      var n := |rows| - 1;
      SumWithout(rows[..n], gone, i);
      if i < n {
        assert rows[..n][i] == rows[i];
      }
    }
  }

  lemma {:induction false} PremiumUpdated(lots: seq<OpenLot>, i: nat, l: OpenLot)
    requires i < |lots|
    ensures Premium(lots[i := l]) == Premium(lots) - PremiumOf(lots[i]) + PremiumOf(l)
  {
    hide PremiumOf;
    var n := |lots| - 1;
    if i == n {
      assert lots[i := l][..n] == lots[..n];
    } else {
      assert lots[i := l][..n] == lots[..n][i := l];
      PremiumUpdated(lots[..n], i, l);
    }
  }

  lemma Spread(pnl: real, size: real)
    requires size > 0.0
    ensures pnl / size * size == pnl
  {
  }

  lemma Distribute(a: real, b: real, q: real, m: real)
    ensures (a + b) * q * m == a * q * m + b * (q * m)
  {
    assert (a + b) * q == a * q + b * q;
    assert (a * q + b * q) * m == a * q * m + b * q * m;
    assert b * q * m == b * (q * m);
  }

  lemma Positive(q: real, m: real)
    requires q > 0.0 && m > 0.0
    ensures q * m > 0.0
  {
  }

  predicate Sound(r: Row) {
    r.pnl == RawPnl(r) - r.commission
  }

  /** The row folded into makes the cover's profit or loss more than it did. */
  lemma AdjustedMakes(r: Row, pnl: real)
    requires Abs(r.qty) > 0.0 && r.direction.Short? && Sound(r)
    ensures Adjusted(r, pnl).pnl == r.pnl + pnl && Sound(Adjusted(r, pnl))
  {
    hide Fmt8;
    var q, m := Abs(r.qty), r.symbol.Multiplier();
    Positive(q, m);
    Spread(pnl, q * m);
    Distribute(r.entryPrice - r.exitPrice, pnl / (q * m), q, m);
    assert r.entryPrice + pnl / (q * m) - r.exitPrice == r.entryPrice - r.exitPrice + pnl / (q * m);
  }

  /** The lot folded into was sold for the cover's profit or loss more than it was. */
  lemma AdjustedSold(l: OpenLot, pnl: real)
    requires l.qty > 0.0 && l.direction.Short? && l.symbol.IsOption()
    ensures PremiumOf(AdjustedLot(l, pnl)) == PremiumOf(l) + pnl
  {
    var m := l.symbol.Multiplier();
    Positive(l.qty, m);
    Spread(pnl, l.qty * m);
    Distribute(l.price, pnl / (l.qty * m), l.qty, m);
    assert l.qty * l.price == l.price * l.qty;
    assert l.qty * (l.price + pnl / (l.qty * m)) == (l.price + pnl / (l.qty * m)) * l.qty;
  }

  // ----- what every fold keeps

  /** The same contract, quantity and days: only what a fold changes differs. */
  ghost predicate SameFace(r: Row, r': Row) {
    r' == r.(entryPrice := r'.entryPrice, pnl := r'.pnl, id := r'.id)
  }

  /** The id, its entry price aside. */
  function Face(t: TradeId): TradeId {
    t.(entry := 0)
  }

  ghost predicate ShortHeld(lots: seq<OpenLot>) {
    forall i :: 0 <= i < |lots| ==> lots[i].qty > 0.0
  }

  ghost predicate FoldInv(f: Fold, rows: seq<Row>, lots: seq<OpenLot>) {
    && |f.rows| == |rows| && |f.lots| == |lots|
    && (forall i :: 0 <= i < |rows| ==> Sound(f.rows[i]) && SameFace(rows[i], f.rows[i]))
    && ShortHeld(f.lots)
    && (forall c :: c in f.folded ==> c < |rows| && f.rows[c].id in f.drop)
    && (forall t :: t in f.drop ==> exists c :: c in f.folded && c < |rows| && f.rows[c].id == t)
    && SumOutside(f.rows, f.folded) + Premium(f.lots) == SumPnl(rows) + Premium(lots)
  }

  lemma {:induction false} SumAll(rows: seq<Row>)
    ensures SumOutside(rows, {}) == SumPnl(rows)
  {
    if rows != [] {
      SumAll(rows[..|rows| - 1]);
    }
  }

  lemma StartFolds(rows: seq<Row>, lots: seq<OpenLot>)
    requires ShortHeld(lots) && forall i :: 0 <= i < |rows| ==> Sound(rows[i])
    ensures FoldInv(Fold(rows, lots, {}, {}), rows, lots)
  {
    SumAll(rows);
  }

  /** A fold into a closed row: what it made moves, and its row counts no more. */
  lemma FoldIntoRow(f: Fold, rows: seq<Row>, lots: seq<OpenLot>, ci: nat, i: nat)
    requires FoldInv(f, rows, lots) && ci < |rows| && Candidate(f.rows, f.drop, ci, i)
    requires f.rows[ci].id !in f.drop && Abs(f.rows[i].qty) > 0.0
    ensures var c := f.rows[ci];
            FoldInv(Fold(f.rows[i := Adjusted(f.rows[i], c.pnl)], f.lots, f.drop + {c.id}, f.folded + {ci}), rows, lots)
  {
    hide Adjusted, Premium, SumOutside, SumPnl, RawPnl;
    var c := f.rows[ci];
    var r := Adjusted(f.rows[i], c.pnl);
    var rows' := f.rows[i := r];
    AdjustedMakes(f.rows[i], c.pnl);
    AdjustedFace(f.rows[i], c.pnl);
    assert i !in f.folded && ci !in f.folded;
    SumUpdated(f.rows, f.folded, i, r);
    SumWithout(rows', f.folded, ci);
    DropsHold(f, rows, lots, ci, rows');
  }

  lemma AdjustedFace(r: Row, pnl: real)
    requires Abs(r.qty) > 0.0
    ensures SameFace(r, Adjusted(r, pnl)) && Adjusted(r, pnl).id == StableId(Adjusted(r, pnl))
  {
    hide RawPnl, Fmt8;
  }

  lemma DropsHold(f: Fold, rows: seq<Row>, lots: seq<OpenLot>, ci: nat, rows': seq<Row>)
    requires FoldInv(f, rows, lots) && ci < |rows| && |rows'| == |rows|
    requires rows'[ci].id == f.rows[ci].id && forall c :: c in f.folded ==> rows'[c].id == f.rows[c].id
    ensures forall c :: c in f.folded + {ci} ==> c < |rows| && rows'[c].id in f.drop + {f.rows[ci].id}
    ensures forall t :: t in f.drop + {f.rows[ci].id} ==>
              exists c :: c in f.folded + {ci} && c < |rows| && rows'[c].id == t
  {
    hide Premium, SumOutside, SumPnl, Sound;
    forall t | t in f.drop + {f.rows[ci].id}
      ensures exists c :: c in f.folded + {ci} && c < |rows| && rows'[c].id == t
    {
      if t in f.drop {
        var c :| c in f.folded && c < |rows| && f.rows[c].id == t;
        assert rows'[c].id == t;
      } else {
        assert rows'[ci].id == t;
      }
    }
  }

  lemma FoldIntoLot(f: Fold, rows: seq<Row>, lots: seq<OpenLot>, ci: nat, i: nat)
    requires FoldInv(f, rows, lots) && ci < |rows| && OpenCandidate(f.lots, f.rows[ci], i)
    requires f.rows[ci].id !in f.drop
    ensures var c := f.rows[ci];
            FoldInv(Fold(f.rows, f.lots[i := AdjustedLot(f.lots[i], c.pnl)], f.drop + {c.id}, f.folded + {ci}), rows,
                lots)
  {
    hide PremiumOf, Premium, SumOutside, SumPnl, Sound;
    var c := f.rows[ci];
    var l := AdjustedLot(f.lots[i], c.pnl);
    AdjustedSold(f.lots[i], c.pnl);
    PremiumUpdated(f.lots, i, l);
    SumWithout(f.rows, f.folded, ci);
    DropsHold(f, rows, lots, ci, f.rows);
  }

  lemma FoldOneKeeps(f: Fold, rows: seq<Row>, lots: seq<OpenLot>, order: seq<nat>, ci: nat)
    requires FoldInv(f, rows, lots) && ci < |rows|
    ensures FoldInv(FoldOne(f, order, ci), rows, lots)
  {
    hide FoldInv, BestRow, BestLot, Adjusted, AdjustedLot;
    SameLength(f, rows, lots);
    if Covers(f, ci) {
      var best := BestRow(f.rows, f.drop, ci, order);
      if best.Some? {
        if Abs(f.rows[best.value].qty) > 0.0 {
          FoldIntoRow(f, rows, lots, ci, best.value);
        }
      } else {
        var lot := BestLot(f.lots, f.rows[ci], |f.lots|);
        if lot.Some? {
          FoldIntoLot(f, rows, lots, ci, lot.value);
        }
      }
    }
  }

  lemma SameLength(f: Fold, rows: seq<Row>, lots: seq<OpenLot>)
    requires FoldInv(f, rows, lots)
    ensures |f.rows| == |rows| && |f.lots| == |lots|
  {
  }

  lemma {:induction false} FoldsKeep(rows: seq<Row>, lots: seq<OpenLot>, order: seq<nat>, k: nat)
    requires k <= |order| && InRange(order, |rows|)
    requires ShortHeld(lots) && forall i :: 0 <= i < |rows| ==> Sound(rows[i])
    ensures FoldInv(FoldSome(rows, lots, order, k), rows, lots)
    ensures k < |order| ==> FoldsFresh(FoldSome(rows, lots, order, k), order, order[k])
  {
    hide FoldInv, FoldOne, Sound, FoldsFresh;
    if k == 0 {
      StartFolds(rows, lots);
    } else {
      FoldsKeep(rows, lots, order, k - 1);
      FoldOneKeeps(FoldSome(rows, lots, order, k - 1), rows, lots, order, order[k - 1]);
    }
    if k < |order| {
      FoldIsFresh(FoldSome(rows, lots, order, k), rows, lots, order, order[k]);
    }
  }

  /** A cover that folds was not folded before, and goes into a row that was neither folded nor
      marked to go, even where the cover was a target before. */
  predicate FoldsFresh(f: Fold, order: seq<nat>, ci: nat)
    requires ci < |f.rows|
  {
    Folds(f, order, ci) ==>
      && ci !in f.folded
      && match Target(f, order, ci)
         case Some(i) => i < |f.rows| && i != ci && i !in f.folded && f.rows[i].id !in f.drop
         case None => true
  }

  lemma FoldIsFresh(f: Fold, rows: seq<Row>, lots: seq<OpenLot>, order: seq<nat>, ci: nat)
    requires FoldInv(f, rows, lots) && ci < |rows|
    ensures |f.rows| == |rows| && FoldsFresh(f, order, ci)
  {
    hide BestRow, BestLot, Sound, SumOutside, Premium, SumPnl, Target;
    TargetIs(f, order, ci);
  }

  // ----- what is returned

  /** Rows that share a dropped id without having been folded. */
  function Stray(rows: seq<Row>, drop: set<TradeId>, folded: set<nat>): real {
    if rows == [] then 0.0
    else
      var n := |rows| - 1;
      Stray(rows[..n], drop, folded) + if rows[n].id in drop && n !in folded then rows[n].pnl else 0.0
  }

  lemma {:induction false} NotDroppedSums(rows: seq<Row>, drop: set<TradeId>, folded: set<nat>)
    requires forall c :: c in folded && c < |rows| ==> rows[c].id in drop
    ensures SumPnl(NotDropped(rows, drop)) == SumOutside(rows, folded) - Stray(rows, drop, folded)
  {
    if rows != [] {
      var n := |rows| - 1;
      forall c | c in folded && c < |rows[..n]| ensures rows[..n][c].id in drop {
        assert rows[..n][c] == rows[c];
      }
      NotDroppedSums(rows[..n], drop, folded);
      var kept := NotDropped(rows[..n], drop);
      assert (kept + [rows[n]])[..|kept|] == kept;
      assert kept + [] == kept;
    }
  }

  /** Money is conserved by the folds, but for the rows dropped only because they share a
      dropped id. */
  lemma FoldConservesButStray(rows: seq<Row>, lots: seq<OpenLot>, order: seq<nat>)
    requires InRange(order, |rows|) && ShortHeld(lots) && forall i :: 0 <= i < |rows| ==> Sound(rows[i])
    ensures var f := FoldSome(rows, lots, order, |order|);
            SumPnl(NotDropped(f.rows, f.drop)) + Premium(f.lots) + Stray(f.rows, f.drop,
                f.folded) == SumPnl(rows) + Premium(lots)
  {
    hide FoldSome, NotDropped, SumPnl, Premium, SumOutside, Stray, Sound;
    var f := FoldSome(rows, lots, order, |order|);
    FoldsKeep(rows, lots, order, |order|);
    NotDroppedSums(f.rows, f.drop, f.folded);
  }

  // ----- which rows are dropped for another's id

  /** The closed row a cover folds into, if it folds into one. */
  function Target(f: Fold, order: seq<nat>, ci: nat): Option<nat>
    requires ci < |f.rows|
  {
    if !Covers(f, ci) then None
    else
      match BestRow(f.rows, f.drop, ci, order)
      case Some(i) => if Abs(f.rows[i].qty) > 0.0 then Some(i) else None
      case None => None
  }

  predicate Folds(f: Fold, order: seq<nat>, ci: nat)
    requires ci < |f.rows|
  {
    Covers(f, ci)
    && match BestRow(f.rows, f.drop, ci, order)
       case Some(i) => Abs(f.rows[i].qty) > 0.0
       case None =>
         var lot := BestLot(f.lots, f.rows[ci], |f.lots|);
         lot.Some? && Abs(f.lots[lot.value].qty) > 0.0
  }

  /** A row's id once the cover is folded. */
  function IdAfter(f: Fold, order: seq<nat>, ci: nat, j: nat): TradeId
    requires ci < |f.rows| && j < |f.rows|
  {
    if Target(f, order, ci) == Some(j) && Abs(f.rows[j].qty) > 0.0
    then Adjusted(f.rows[j], f.rows[ci].pnl).id else f.rows[j].id
  }

  /** The rows one fold marks to go for another's id: those that share the cover's, and the row
      folded into where it is renamed to an id that is dropped. */
  function MisnamedBy(f: Fold, order: seq<nat>, ci: nat): set<nat>
    requires ci < |f.rows|
  {
    if !Folds(f, order, ci) then {}
    else set j | 0 <= j < |f.rows| && j != ci && f.rows[j].id !in f.drop && IdAfter(f, order, ci,
        j) in f.drop + {f.rows[ci].id}
  }

  function Misnamed(rows: seq<Row>, lots: seq<OpenLot>, order: seq<nat>, k: nat): set<nat>
    requires k <= |order| && InRange(order, |rows|)
  {
    if k == 0 then {}
    else Misnamed(rows, lots, order, k - 1) + MisnamedBy(FoldSome(rows, lots, order, k - 1), order, order[k - 1])
  }

  /** One turn: the cover's id is dropped if it folds, and the other ids are as said. */
  lemma FoldOneIs(f: Fold, order: seq<nat>, ci: nat)
    requires ci < |f.rows|
    ensures var g := FoldOne(f, order, ci);
            if Folds(f, order, ci) then
              && g.drop == f.drop + {f.rows[ci].id} && g.folded == f.folded + {ci} && |g.rows| == |f.rows|
              && forall j :: 0 <= j < |f.rows| ==> g.rows[j].id == IdAfter(f, order, ci, j)
            else g == f
  {
    hide Adjusted, AdjustedLot, BestRow, BestLot;
  }

  /** The cover is not its own target, nor is any row dropped before. */
  lemma TargetIs(f: Fold, order: seq<nat>, ci: nat)
    requires ci < |f.rows|
    ensures Target(f, order, ci).Some? ==>
              var i := Target(f, order, ci).value;
              Candidate(f.rows, f.drop, ci, i) && Abs(f.rows[i].qty) > 0.0 && i != ci
  {
    hide BestRow;
    if Covers(f, ci) && BestRow(f.rows, f.drop, ci, order).Some? {
      assert Candidate(f.rows, f.drop, ci, BestRow(f.rows, f.drop, ci, order).value) by {
        BestIsCandidate(f, order, ci);
      }
    }
  }

  lemma BestIsCandidate(f: Fold, order: seq<nat>, ci: nat)
    requires ci < |f.rows|
    ensures BestRow(f.rows, f.drop, ci, order).Some? ==>
              Candidate(f.rows, f.drop, ci, BestRow(f.rows, f.drop, ci, order).value)
  {
  }

  /** The rows whose id is dropped though they were not folded. */
  ghost predicate StraysAre(f: Fold, strays: set<nat>) {
    && (forall i :: 0 <= i < |f.rows| ==> (i in strays <==> f.rows[i].id in f.drop && i !in f.folded))
    && (forall i :: i in strays ==> i < |f.rows|)
    && (forall c :: c in f.folded ==> c < |f.rows| && f.rows[c].id in f.drop)
  }

  lemma FoldOneStrays(f: Fold, order: seq<nat>, ci: nat, strays: set<nat>)
    requires ci < |f.rows| && StraysAre(f, strays)
    ensures StraysAre(FoldOne(f, order, ci), strays + MisnamedBy(f, order, ci))
  {
    hide FoldOne, Target, Folds, Adjusted, Candidate;
    var g, more := FoldOne(f, order, ci), strays + MisnamedBy(f, order, ci);
    FoldOneIs(f, order, ci);
    if Folds(f, order, ci) {
      assert f.rows[ci].id !in f.drop by { FoldsCovers(f, order, ci); }
      forall i | 0 <= i < |f.rows| && f.rows[i].id in f.drop ensures g.rows[i].id == f.rows[i].id {
        DroppedStays(f, order, ci, i);
      }
      assert g.rows[ci].id == f.rows[ci].id by { CoverStays(f, order, ci); }
    }
  }

  lemma FoldsCovers(f: Fold, order: seq<nat>, ci: nat)
    requires ci < |f.rows| && Folds(f, order, ci)
    ensures f.rows[ci].id !in f.drop
  {
  }

  lemma DroppedStays(f: Fold, order: seq<nat>, ci: nat, i: nat)
    requires ci < |f.rows| && i < |f.rows| && f.rows[i].id in f.drop
    ensures IdAfter(f, order, ci, i) == f.rows[i].id
  {
    hide Target, Adjusted;
    TargetIs(f, order, ci);
  }

  lemma CoverStays(f: Fold, order: seq<nat>, ci: nat)
    requires ci < |f.rows|
    ensures IdAfter(f, order, ci, ci) == f.rows[ci].id
  {
    hide Target, Adjusted;
    TargetIs(f, order, ci);
  }

  lemma {:induction false} StraysAreMisnamed(rows: seq<Row>, lots: seq<OpenLot>, order: seq<nat>, k: nat)
    requires k <= |order| && InRange(order, |rows|)
    ensures StraysAre(FoldSome(rows, lots, order, k), Misnamed(rows, lots, order, k))
  {
    hide FoldOne, MisnamedBy, StraysAre;
    if k == 0 {
      NoneMisnamed(rows, lots);
    } else {
      StraysAreMisnamed(rows, lots, order, k - 1);
      FoldOneStrays(FoldSome(rows, lots, order, k - 1), order, order[k - 1], Misnamed(rows, lots, order, k - 1));
    }
  }

  lemma NoneMisnamed(rows: seq<Row>, lots: seq<OpenLot>)
    ensures StraysAre(Fold(rows, lots, {}, {}), {})
  {
  }

  /** What the rows of `some` made. */
  function SumIn(rows: seq<Row>, some: set<nat>): real {
    if rows == [] then 0.0
    else SumIn(rows[..|rows| - 1], some) + if |rows| - 1 in some then rows[|rows| - 1].pnl else 0.0
  }

  lemma {:induction false} StrayIsIn(rows: seq<Row>, drop: set<TradeId>, folded: set<nat>, some: set<nat>)
    requires forall i :: 0 <= i < |rows| ==> (i in some <==> rows[i].id in drop && i !in folded)
    ensures Stray(rows, drop, folded) == SumIn(rows, some)
  {
    if rows != [] {
      var n := |rows| - 1;
      forall i | 0 <= i < |rows[..n]| ensures i in some <==> rows[..n][i].id in drop && i !in folded {
        assert rows[..n][i] == rows[i];
      }
      StrayIsIn(rows[..n], drop, folded, some);
    }
  }

  /** Exactly the covers folded are dropped, each for itself, if and only if no fold marks a row for
      another's id: no row shares the cover's, and none is renamed to an id that is dropped. */
  lemma DropsExactlyIff(rows: seq<Row>, lots: seq<OpenLot>, order: seq<nat>)
    requires InRange(order, |rows|)
    ensures var f := FoldSome(rows, lots, order, |order|);
            (forall i :: 0 <= i < |f.rows| ==> (f.rows[i].id in f.drop <==> i in f.folded))
            <==> forall k :: 0 <= k < |order| ==> MisnamedBy(FoldSome(rows, lots, order, k), order, order[k]) == {}
  {
    hide FoldSome, MisnamedBy;
    StraysAreMisnamed(rows, lots, order, |order|);
    MisnamedNone(rows, lots, order, |order|);
  }

  lemma {:induction false} MisnamedNone(rows: seq<Row>, lots: seq<OpenLot>, order: seq<nat>, n: nat)
    requires n <= |order| && InRange(order, |rows|)
    ensures Misnamed(rows, lots, order, n) == {}
            <==> forall k :: 0 <= k < n ==> MisnamedBy(FoldSome(rows, lots, order, k), order, order[k]) == {}
  {
    hide FoldSome, MisnamedBy;
    if n > 0 {
      MisnamedNone(rows, lots, order, n - 1);
    }
  }

  /** Folding conserves money if and only if the rows its folds mark for another's id made nothing
      between them. */
  lemma FoldConservesIff(rows: seq<Row>, lots: seq<OpenLot>, order: seq<nat>)
    requires InRange(order, |rows|) && ShortHeld(lots) && forall i :: 0 <= i < |rows| ==> Sound(rows[i])
    ensures var f := FoldSome(rows, lots, order, |order|);
            SumPnl(NotDropped(f.rows, f.drop)) + Premium(f.lots) == SumPnl(rows) + Premium(lots)
            <==> SumIn(f.rows, Misnamed(rows, lots, order, |order|)) == 0.0
  {
    hide FoldSome, NotDropped, SumPnl, Premium, Stray, Sound, Misnamed, SumIn;
    var f := FoldSome(rows, lots, order, |order|);
    FoldConservesButStray(rows, lots, order);
    StraysAreMisnamed(rows, lots, order, |order|);
    StrayIsIn(f.rows, f.drop, f.folded, Misnamed(rows, lots, order, |order|));
  }

  // ----- ids that stay distinct

  ghost predicate Distinct(rows: seq<Row>) {
    forall i, j :: 0 <= i < j < |rows| ==> rows[i].id != rows[j].id
  }

  /** The fold renames the row it folds into to the id another row has. */
  ghost predicate Collides(f: Fold, order: seq<nat>, ci: nat)
    requires ci < |f.rows|
  {
    && Folds(f, order, ci)
    && exists i, j :: 0 <= i < |f.rows| && 0 <= j < |f.rows| && i != j && Target(f, order, ci) == Some(i)
                      && IdAfter(f, order, ci, i) == f.rows[j].id
  }

  ghost predicate NeverCollides(rows: seq<Row>, lots: seq<OpenLot>, order: seq<nat>)
    requires InRange(order, |rows|)
  {
    forall k :: 0 <= k < |order| ==> !Collides(FoldSome(rows, lots, order, k), order, order[k])
  }

  /** One fold keeps ids distinct if and only if it does not collide. */
  lemma StaysDistinctIff(f: Fold, order: seq<nat>, ci: nat)
    requires ci < |f.rows| && Distinct(f.rows)
    ensures Distinct(FoldOne(f, order, ci).rows) <==> !Collides(f, order, ci)
  {
    hide FoldOne, Target, Folds, Adjusted;
    var g := FoldOne(f, order, ci);
    FoldOneIs(f, order, ci);
    if Folds(f, order, ci) {
      if Collides(f, order, ci) {
        var i, j :| 0 <= i < |f.rows| && 0 <= j < |f.rows| && i != j && Target(f, order, ci) == Some(i) && IdAfter(f,
            order, ci, i) == f.rows[j].id;
        assert g.rows[i].id == g.rows[j].id;
        assert i < j || j < i;
      } else {
        forall i, j | 0 <= i < j < |g.rows| ensures g.rows[i].id != g.rows[j].id {
          assert f.rows[i].id != f.rows[j].id;
        }
      }
    }
  }

  lemma {:induction false} IdsStayDistinct(rows: seq<Row>, lots: seq<OpenLot>, order: seq<nat>, k: nat)
    requires k <= |order| && InRange(order, |rows|) && Distinct(rows) && NeverCollides(rows, lots, order)
    ensures Distinct(FoldSome(rows, lots, order, k).rows)
  {
    hide FoldOne, Collides;
    if k > 0 {
      IdsStayDistinct(rows, lots, order, k - 1);
      StaysDistinctIff(FoldSome(rows, lots, order, k - 1), order, order[k - 1]);
    }
  }

  /** With ids distinct at the start and no fold that collides, folding conserves money in whatever
      order the covers come, exactly the folded rows are dropped, and ids are distinct after. */
  lemma FoldConserves(rows: seq<Row>, lots: seq<OpenLot>, order: seq<nat>)
    requires InRange(order, |rows|) && ShortHeld(lots) && forall i :: 0 <= i < |rows| ==> Sound(rows[i])
    requires Distinct(rows) && NeverCollides(rows, lots, order)
    ensures var f := FoldSome(rows, lots, order, |order|);
            && SumPnl(NotDropped(f.rows, f.drop)) + Premium(f.lots) == SumPnl(rows) + Premium(lots)
            && (forall i :: 0 <= i < |f.rows| ==> (f.rows[i].id in f.drop <==> i in f.folded))
            && Distinct(f.rows)
  {
    hide FoldSome, NotDropped, SumPnl, Premium, SumOutside, Stray, Sound, NeverCollides;
    var f := FoldSome(rows, lots, order, |order|);
    FoldConservesButStray(rows, lots, order);
    FoldsKeep(rows, lots, order, |order|);
    IdsStayDistinct(rows, lots, order, |order|);
    forall i | 0 <= i < |f.rows| && f.rows[i].id in f.drop ensures i in f.folded {
      var c :| c in f.folded && c < |rows| && f.rows[c].id == f.rows[i].id;
      assert i == c || i < c || c < i;
    }
    NoneStray(f.rows, f.drop, f.folded);
  }

  lemma {:induction false} NoneStray(rows: seq<Row>, drop: set<TradeId>, folded: set<nat>)
    requires forall i :: 0 <= i < |rows| && rows[i].id in drop ==> i in folded
    ensures Stray(rows, drop, folded) == 0.0
  {
    if rows != [] {
      var n := |rows| - 1;
      forall i | 0 <= i < |rows[..n]| && rows[..n][i].id in drop ensures i in folded {
        assert rows[..n][i] == rows[i];
      }
      NoneStray(rows[..n], drop, folded);
    }
  }

  // ----- rows told apart by more than their entry price never collide

  /** Each row is named by what it says. */
  ghost predicate Named(rows: seq<Row>) {
    forall i :: 0 <= i < |rows| ==> rows[i].id == StableId(rows[i])
  }

  /** No two rows say the same but for the entry price, and each is named by what it says. */
  ghost predicate TellApart(rows: seq<Row>) {
    && Named(rows)
    && (forall i, j :: 0 <= i < j < |rows| ==> Face(rows[i].id) != Face(rows[j].id))
  }

  lemma AdjustedId(r: Row, pnl: real)
    requires Abs(r.qty) > 0.0 && r.id == StableId(r)
    ensures Face(Adjusted(r, pnl).id) == Face(r.id) && Adjusted(r, pnl).id == StableId(Adjusted(r, pnl))
  {
    hide Fmt8, RawPnl;
  }

  lemma FoldOneTellsApart(f: Fold, order: seq<nat>, ci: nat)
    requires ci < |f.rows| && TellApart(f.rows)
    ensures TellApart(FoldOne(f, order, ci).rows) && !Collides(f, order, ci)
  {
    hide BestRow, BestLot, AdjustedLot, StableId, Adjusted, Face;
    var g := FoldOne(f, order, ci);
    if Covers(f, ci) {
      var best := BestRow(f.rows, f.drop, ci, order);
      if best.Some? && Abs(f.rows[best.value].qty) > 0.0 {
        AdjustedId(f.rows[best.value], f.rows[ci].pnl);
      }
    }
    forall i, j | 0 <= i < j < |g.rows| ensures Face(g.rows[i].id) != Face(g.rows[j].id) {
      assert Face(f.rows[i].id) != Face(f.rows[j].id);
    }
    forall i, j | 0 <= i < |f.rows| && 0 <= j < |f.rows| && i != j ensures IdAfter(f, order, ci, i) != f.rows[j].id {
      assert i < j || j < i;
    }
  }

  lemma {:induction false} FoldsTellApart(rows: seq<Row>, lots: seq<OpenLot>, order: seq<nat>, k: nat)
    requires k <= |order| && InRange(order, |rows|) && TellApart(rows)
    ensures TellApart(FoldSome(rows, lots, order, k).rows)
  {
    hide FoldOne, TellApart, Collides;
    if k > 0 {
      FoldsTellApart(rows, lots, order, k - 1);
      FoldOneTellsApart(FoldSome(rows, lots, order, k - 1), order, order[k - 1]);
    }
  }

  lemma TellApartNeverCollides(rows: seq<Row>, lots: seq<OpenLot>, order: seq<nat>)
    requires InRange(order, |rows|) && TellApart(rows)
    ensures Distinct(rows) && NeverCollides(rows, lots, order)
  {
    hide FoldSome, Collides, StableId;
    forall k | 0 <= k < |order| ensures !Collides(FoldSome(rows, lots, order, k), order, order[k]) {
      FoldsTellApart(rows, lots, order, k);
      FoldOneTellsApart(FoldSome(rows, lots, order, k), order, order[k]);
    }
  }

  // ----- the condition is needed

  const CALL := Symbol("XYZ 17JAN25 10.00 CALL", Some(Contract("XYZ", "CALL", "2025-01-17")))
  const NEXT := Symbol("XYZ 21FEB25 10.00 CALL", Some(Contract("XYZ", "CALL", "2025-02-21")))

  /** A short call sold at 1.00 and covered at 1.05. */
  function Cover(): Row {
    var r := Row(TradeId("", "", "", "", "", 0, 0, 0, Buy), "TFSA", CALL, "XYZ", "USD", Short, Buy,
                 1.0, 1.0, 1.05, "2025-01-02", "2025-01-10", 0.0, -5.0);
    r.(id := StableId(r))
  }

  const SOLD := OpenLot("TFSA", NEXT, "XYZ", "USD", Short, 2.0, 1.0, "2025-01-10")

  /** Two covers that say the same share an id: folding the first drops both, and the second's
      loss is lost. */
  lemma SameIdsLoseMoney()
    ensures var rows := [Cover(), Cover()];
            var f := FoldSome(rows, [SOLD], [0, 1], 2);
            && (forall i :: 0 <= i < 2 ==> Sound(rows[i]))
            && SumPnl(NotDropped(f.rows, f.drop)) + Premium(f.lots) != SumPnl(rows) + Premium([SOLD])
  {
    hide StableId, AdjustedLot;
    var c := Cover();
    var rows := [c, c];
    assert RawPnl(c) == -5.0;
    var f0 := FoldSome(rows, [SOLD], [0, 1], 0);
    NoRowTakes(rows, {}, 0);
    assert OpenCandidate([SOLD], c, 0);
    assert BestLot([SOLD], c, 0) == None;
    assert BestLot([SOLD], c, 1) == Some(0);
    var f1 := FoldSome(rows, [SOLD], [0, 1], 1);
    assert f1 == FoldOne(f0, [0, 1], 0);
    assert f1.rows == rows && f1.drop == {c.id} && f1.folded == {0};
    var f2 := FoldSome(rows, [SOLD], [0, 1], 2);
    assert f2 == FoldOne(f1, [0, 1], 1) == f1;
    TwoStray(c, {c.id});
    FoldConservesButStray(rows, [SOLD], [0, 1]);
  }

  lemma NoRowTakes(rows: seq<Row>, drop: set<TradeId>, ci: nat)
    requires ci == 0 && rows == [Cover(), Cover()]
    ensures BestRow(rows, drop, ci, [0, 1]) == None
  {
    assert [0, 1][..1] == [0] && [0][..0] == [];
    assert BestRow(rows, drop, ci, []) == None;
    assert BestRow(rows, drop, ci, [0]) == None;
  }

  lemma TwoStray(c: Row, drop: set<TradeId>)
    requires c.id in drop && c.pnl == -5.0
    ensures Stray([c, c], drop, {0}) == -5.0
  {
    assert [c, c][..1] == [c] && [c][..0] == [];
    assert Stray([], drop, {0}) == 0.0;
    assert Stray([c], drop, {0}) == 0.0;
  }

  const LATER := Symbol("XYZ 21MAR25 10.00 CALL", Some(Contract("XYZ", "CALL", "2025-03-21")))

  function Sold(symbol: Symbol, entry: real, exit: real, entryDay: string, exitDay: string, pnl: real): Row {
    var r := Row(TradeId("", "", "", "", "", 0, 0, 0, Buy), "TFSA", symbol, "XYZ", "USD", Short, Buy,
                 1.0, entry, exit, entryDay, exitDay, 0.0, pnl);
    r.(id := StableId(r))
  }

  /** A cover that made 10; and one contract sold at 1.00 and at 1.10 the day it was covered, both
      bought back by one fill. */
  function Pair(): seq<Row> {
    [Sold(CALL, 1.0, 0.9, "2025-01-02", "2025-01-10", 10.0),
     Sold(NEXT, 1.0, 0.5, "2025-01-10", "2025-01-20", 50.0),
     Sold(NEXT, 1.1, 0.5, "2025-01-10", "2025-01-20", 60.0)]
  }

  const LAST := OpenLot("TFSA", LATER, "XYZ", "USD", Short, 1.0, 1.0, "2025-01-20")

  lemma PairIsDistinct()
    ensures Distinct(Pair()) && Named(Pair()) && forall i :: 0 <= i < 3 ==> Sound(Pair()[i])
  {
    hide Fmt8;
    assert Fmt8(1.0) == 100000000 && Fmt8(1.1) == 110000000 by { TwoPrices(); }
  }

  lemma TwoPrices()
    ensures Fmt8(1.0) == 100000000 && Fmt8(1.1) == 110000000
  {
  }

  /** Folded into the first, the cover makes it the same row as the second. */
  lemma FirstBecomesSecond()
    ensures Adjusted(Pair()[1], 10.0) == Pair()[2]
  {
    hide Fmt8;
    assert 1.0 + 10.0 / (Abs(1.0) * NEXT.Multiplier()) == 1.1;
  }

  lemma PairTargets(rows: seq<Row>, drop: set<TradeId>)
    requires rows == Pair() && drop == {}
    ensures BestRow(rows, drop, 0, [0, 1, 2]) == Some(1)
  {
    hide Fmt8, StableId;
    PairIsDistinct();
    assert [0, 1, 2][..2] == [0, 1] && [0, 1][..1] == [0] && [0][..0] == [];
    assert BestRow(rows, drop, 0, []) == None;
    assert BestRow(rows, drop, 0, [0]) == None;
    assert BestRow(rows, drop, 0, [0, 1]) == Some(1);
    assert !Nearer(1.0, NEXT.text, 1.0, NEXT.text, 1.0) by { NotNearer(NEXT.text); }
  }

  lemma NotNearer(s: string)
    ensures !Nearer(1.0, s, 1.0, s, 1.0)
  {
    LessIsOrder(s, s, s);
  }

  lemma NoLaterRow(rows: seq<Row>, drop: set<TradeId>)
    requires rows == [Pair()[0], Pair()[2], Pair()[2]]
    ensures BestRow(rows, drop, 1, [0, 1, 2]) == None
  {
    hide StableId;
    assert [0, 1, 2][..2] == [0, 1] && [0, 1][..1] == [0] && [0][..0] == [];
    assert BestRow(rows, drop, 1, []) == None;
    assert BestRow(rows, drop, 1, [0]) == None;
    assert BestRow(rows, drop, 1, [0, 1]) == None;
  }

  /** Ids distinct at the start collide after a fold: the two rows are then one to the drop, and what
      the second made is lost with the first. */
  lemma RenamedLosesMoney()
    ensures var f := FoldSome(Pair(), [LAST], [0, 1, 2], 3);
            && Distinct(Pair()) && (forall i :: 0 <= i < 3 ==> Sound(Pair()[i]))
            && SumPnl(NotDropped(f.rows, f.drop)) + Premium(f.lots) == SumPnl(Pair()) + Premium([LAST]) - 60.0
  {
    hide StableId, Adjusted, AdjustedLot, Distinct, BestRow, BestLot, Fmt8, NotDropped, SumPnl, Premium, Stray;
    var rows, order := Pair(), [0, 1, 2];
    PairIsDistinct();
    PairTargets(rows, {});
    FirstBecomesSecond();
    var f1 := FoldSome(rows, [LAST], order, 1);
    assert f1 == FoldOne(FoldSome(rows, [LAST], order, 0), order, 0);
    assert f1.rows == [rows[0], rows[2], rows[2]] && f1.drop == {rows[0].id} && f1.folded == {0};
    NoLaterRow(f1.rows, f1.drop);
    LastTakes(f1.rows[1]);
    PairIds();
    var f2 := FoldSome(rows, [LAST], order, 2);
    assert f2 == FoldOne(f1, order, 1);
    assert f2.rows == f1.rows && f2.drop == {rows[0].id} + {rows[2].id} && f2.folded == {0} + {1};
    var f3 := FoldSome(rows, [LAST], order, 3);
    assert f3 == FoldOne(f2, order, 2) == f2;
    ThirdStrays(f3.rows, f3.drop);
    assert {0} + {1} == {0, 1};
    FoldConservesButStray(rows, [LAST], order);
  }

  lemma PairIds()
    ensures Pair()[2].id != Pair()[0].id
  {
    hide Fmt8;
  }

  lemma LastTakes(cover: Row)
    requires cover == Pair()[2]
    ensures BestLot([LAST], cover, 1) == Some(0)
  {
    hide StableId;
    assert OpenCandidate([LAST], cover, 0);
    assert BestLot([LAST], cover, 0) == None;
  }

  lemma ThirdStrays(rows: seq<Row>, drop: set<TradeId>)
    requires rows == [Pair()[0], Pair()[2], Pair()[2]] && drop == {Pair()[0].id} + {Pair()[2].id}
    ensures Stray(rows, drop, {0, 1}) == 60.0
  {
    hide StableId;
    assert rows[..2] == [rows[0], rows[1]] && rows[..2][..1] == [rows[0]] && [rows[0]][..0] == [];
    assert Stray([], drop, {0, 1}) == 0.0;
    assert Stray([rows[0]], drop, {0, 1}) == 0.0;
    assert Stray(rows[..2], drop, {0, 1}) == 0.0;
  }

  // ----- which candidate a cover folds into

  /** A closed row that can take a cover in: another short option of its account, currency and
      underlying, of another contract, sold the day the cover was bought back. */
  predicate CanTake(cover: Row, r: Row) {
    && r.direction == Short && r.symbol.contract.Some? && r.account == cover.account && r.currency == cover.currency
    && r.underlying == cover.underlying && r.entryDay == cover.exitDay && r.id != cover.id && r.symbol != cover.symbol
  }

  predicate CanTakeOpen(cover: Row, l: OpenLot) {
    && l.direction == Short && l.symbol.contract.Some? && l.account == cover.account && l.currency == cover.currency
    && l.underlying == cover.underlying && l.day == cover.exitDay && l.symbol != cover.symbol
  }

  /** The candidates of a fold among `order`: rows that can take the cover in and are not to go. */
  predicate CandidateAt(f: Fold, order: seq<nat>, ci: nat, k: nat)
    requires ci < |f.rows|
  {
    k < |order| && order[k] < |f.rows| && CanTake(f.rows[ci], f.rows[order[k]]) && f.rows[order[k]].id !in f.drop
  }

  /** How far a quantity is from the cover's. */
  function Distance(cover: Row, qty: real): real {
    Abs(Abs(qty) - Abs(cover.qty))
  }

  /** No farther from the cover's quantity, and at the same distance no later a symbol. */
  predicate AtLeastAsNear(cover: Row, qty: real, symbol: string, qty': real, symbol': string) {
    || Distance(cover, qty) < Distance(cover, qty')
    || (Distance(cover, qty) == Distance(cover, qty') && !TextLess(symbol', symbol))
  }

  /** The candidate at `p` of `order` is at least as near as every other, and nearer than those before. */
  ghost predicate NearestRowAt(f: Fold, order: seq<nat>, ci: nat, p: nat)
    requires ci < |f.rows|
  {
    && CandidateAt(f, order, ci, p)
    && forall k: nat :: CandidateAt(f, order, ci, k) ==>
         var r, other := f.rows[order[p]], f.rows[order[k]];
         && AtLeastAsNear(f.rows[ci], r.qty, r.symbol.text, other.qty, other.symbol.text)
         && (k < p ==> !AtLeastAsNear(f.rows[ci], other.qty, other.symbol.text, r.qty, r.symbol.text))
  }

  ghost predicate NearestLotAt(lots: seq<OpenLot>, cover: Row, p: nat) {
    && p < |lots| && CanTakeOpen(cover, lots[p])
    && forall k :: 0 <= k < |lots| && CanTakeOpen(cover, lots[k]) ==>
         && AtLeastAsNear(cover, lots[p].qty, lots[p].symbol.text, lots[k].qty, lots[k].symbol.text)
         && (k < p ==> !AtLeastAsNear(cover, lots[k].qty, lots[k].symbol.text, lots[p].qty, lots[p].symbol.text))
  }

  lemma NearerIs(cover: Row, q: real, s: string, q': real, s': string)
    ensures Nearer(q, s, q', s', Abs(cover.qty)) <==> !AtLeastAsNear(cover, q', s', q, s)
  {
  }

  lemma NearIsOrder(cover: Row, q: real, s: string, q': real, s': string, q'': real, s'': string)
    ensures AtLeastAsNear(cover, q, s, q', s') || AtLeastAsNear(cover, q', s', q, s)
    ensures AtLeastAsNear(cover, q, s, q', s') && AtLeastAsNear(cover, q', s', q'', s'') ==>
              AtLeastAsNear(cover, q, s, q'', s'')
  {
    hide Distance;
    LessIsOrder(s, s', s'');
    LessIsOrder(s'', s, s');
    LessIsOrder(s', s'', s);
  }

  /** The best row is the nearest candidate, first of its like, if there is one. */
  lemma {:induction false} BestRowIsNearest(f: Fold, order: seq<nat>, ci: nat) returns (p: nat)
    requires ci < |f.rows|
    ensures var best := BestRow(f.rows, f.drop, ci, order);
            && (best.None? <==> forall k: nat :: !CandidateAt(f, order, ci, k))
            && (best.Some? ==> NearestRowAt(f, order, ci, p) && best.value == order[p])
  {
    hide Nearer, AtLeastAsNear, Candidate, CanTake;
    p := 0;
    if order != [] {
      var n := |order| - 1;
      var head := order[..n];
      p := BestRowIsNearest(f, head, ci);
      forall k: nat | k < n ensures CandidateAt(f, order, ci, k) <==> CandidateAt(f, head, ci, k) {
      }
      CandidateIs(f, order, ci, n);
      var was := BestRow(f.rows, f.drop, ci, head);
      if Candidate(f.rows, f.drop, ci, order[n]) && was.None? {
        p := n;
        NearIsOrder(f.rows[ci], f.rows[order[n]].qty, f.rows[order[n]].symbol.text, f.rows[order[n]].qty,
            f.rows[order[n]].symbol.text, 0.0, "");
        assert NearestRowAt(f, order, ci, p);
      } else if Candidate(f.rows, f.drop, ci, order[n]) {
        p := BetterRow(f, order, ci, n, p);
      } else if was.Some? {
        assert NearestRowAt(f, order, ci, p);
      }
    }
  }

  lemma CandidateIs(f: Fold, order: seq<nat>, ci: nat, k: nat)
    requires ci < |f.rows| && k < |order|
    ensures CandidateAt(f, order, ci, k) <==> Candidate(f.rows, f.drop, ci, order[k])
  {
  }

  /** One more candidate: it is taken where it is strictly nearer. */
  lemma BetterRow(f: Fold, order: seq<nat>, ci: nat, n: nat, p: nat) returns (p': nat)
    requires ci < |f.rows| && n + 1 == |order| && CandidateAt(f, order, ci, n) && p < n
    requires forall k: nat :: k < n ==> (CandidateAt(f, order, ci, k) <==> CandidateAt(f, order[..n], ci, k))
    requires NearestRowAt(f, order[..n], ci, p)
    ensures NearestRowAt(f, order, ci, p')
    ensures var r, was := f.rows[order[n]], f.rows[order[p]];
            p' == if Nearer(r.qty, r.symbol.text, was.qty, was.symbol.text, Abs(f.rows[ci].qty)) then n else p
  {
    hide Nearer, AtLeastAsNear, CandidateAt;
    var cover := f.rows[ci];
    assert CandidateAt(f, order, ci, p);
    CandidateBounds(f, order, ci);
    var r, was := f.rows[order[n]], f.rows[order[p]];
    NearerIs(cover, r.qty, r.symbol.text, was.qty, was.symbol.text);
    p' := if Nearer(r.qty, r.symbol.text, was.qty, was.symbol.text, Abs(cover.qty)) then n else p;
    var best := f.rows[order[p']];
    forall k: nat | CandidateAt(f, order, ci, k)
      ensures AtLeastAsNear(cover, best.qty, best.symbol.text, f.rows[order[k]].qty, f.rows[order[k]].symbol.text)
      ensures k < p' ==>
                !AtLeastAsNear(cover, f.rows[order[k]].qty, f.rows[order[k]].symbol.text, best.qty, best.symbol.text)
    {
      var other := f.rows[order[k]];
      NearIsOrder(cover, r.qty, r.symbol.text, r.qty, r.symbol.text, r.qty, r.symbol.text);
      NearIsOrder(cover, r.qty, r.symbol.text, was.qty, was.symbol.text, other.qty, other.symbol.text);
      NearIsOrder(cover, was.qty, was.symbol.text, other.qty, other.symbol.text, r.qty, r.symbol.text);
      if k < n {
        assert CandidateAt(f, order[..n], ci, k);
        assert order[..n][k] == order[k];
      }
    }
  }

  lemma CandidateBounds(f: Fold, order: seq<nat>, ci: nat)
    requires ci < |f.rows|
    ensures forall k: nat :: CandidateAt(f, order, ci, k) ==> k < |order| && order[k] < |f.rows|
  {
  }

  lemma {:induction false} BestLotIsNearest(lots: seq<OpenLot>, cover: Row, n: nat) returns (p: nat)
    requires n <= |lots|
    ensures var best := BestLot(lots, cover, n);
            && (best.None? <==> forall k :: 0 <= k < n ==> !CanTakeOpen(cover, lots[k]))
            && (best.Some? ==> NearestLotAt(lots[..n], cover, p) && best.value == p)
  {
    hide Nearer, AtLeastAsNear, OpenCandidate, CanTakeOpen;
    p := 0;
    if n > 0 {
      p := BestLotIsNearest(lots, cover, n - 1);
      OpenCandidateIs(lots, cover, n - 1);
      var l, was := lots[n - 1], BestLot(lots, cover, n - 1);
      if OpenCandidate(lots, cover, n - 1) {
        var best := if was.Some? then lots[p] else l;
        NearerIs(cover, l.qty, l.symbol.text, best.qty, best.symbol.text);
        if was.None? || Nearer(l.qty, l.symbol.text, best.qty, best.symbol.text, Abs(cover.qty)) {
          p := n - 1;
        }
        forall k | 0 <= k < n && CanTakeOpen(cover, lots[k])
          ensures AtLeastAsNear(cover, lots[p].qty, lots[p].symbol.text, lots[k].qty, lots[k].symbol.text)
          ensures k < p ==>
                    !AtLeastAsNear(cover, lots[k].qty, lots[k].symbol.text, lots[p].qty, lots[p].symbol.text)
        {
          NearIsOrder(cover, l.qty, l.symbol.text, l.qty, l.symbol.text, l.qty, l.symbol.text);
          NearIsOrder(cover, l.qty, l.symbol.text, best.qty, best.symbol.text, lots[k].qty, lots[k].symbol.text);
          NearIsOrder(cover, best.qty, best.symbol.text, lots[k].qty, lots[k].symbol.text, l.qty, l.symbol.text);
          if k < n - 1 {
            assert lots[..n - 1][k] == lots[k];
          }
        }
      }
    }
  }

  lemma OpenCandidateIs(lots: seq<OpenLot>, cover: Row, k: nat)
    requires k < |lots|
    ensures OpenCandidate(lots, cover, k) <==> CanTakeOpen(cover, lots[k])
  {
  }

  /** A cover still to be read that says when and of what it was. */
  predicate Readable(f: Fold, ci: nat)
    requires ci < |f.rows|
  {
    var c := f.rows[ci];
    c.id !in f.drop && c.exitDay != "" && c.underlying != "" && c.underlying != "—"
  }

  /** A cover goes into the nearest of the closed rows that can take it in; into the nearest open lot
      only where no row can; and what takes it in is rewritten, if it is of any quantity, and nothing
      else. A cover that does not say enough, or that nothing can take in, is left. */
  lemma FoldsIntoNearest(f: Fold, order: seq<nat>, ci: nat) returns (p: nat)
    requires ci < |f.rows|
    ensures var g, cover := FoldOne(f, order, ci), f.rows[ci];
            var some := exists k: nat :: CandidateAt(f, order, ci, k);
            var open := exists k :: 0 <= k < |f.lots| && CanTakeOpen(cover, f.lots[k]);
            if Readable(f, ci) && some then
              && NearestRowAt(f, order, ci, p)
              && g == if f.rows[order[p]].qty == 0.0 then f
                      else Fold(f.rows[order[p] := Adjusted(f.rows[order[p]], cover.pnl)], f.lots,
                                f.drop + {cover.id}, f.folded + {ci})
            else if Readable(f, ci) && open then
              && NearestLotAt(f.lots, cover, p)
              && g == if f.lots[p].qty == 0.0 then f
                      else Fold(f.rows, f.lots[p := AdjustedLot(f.lots[p], cover.pnl)],
                                f.drop + {cover.id}, f.folded + {ci})
            else g == f
  {
    hide CandidateAt, CanTakeOpen, AtLeastAsNear, Adjusted, AdjustedLot, BestRow, BestLot, NearestRowAt, NearestLotAt;
    p := BestRowIsNearest(f, order, ci);
    NearestBounds(f, order, ci, p);
    if BestRow(f.rows, f.drop, ci, order).None? {
      p := BestLotIsNearest(f.lots, f.rows[ci], |f.lots|);
      assert f.lots[..|f.lots|] == f.lots;
      NearestLotBounds(f.lots, f.rows[ci], p);
    }
  }

  lemma NearestBounds(f: Fold, order: seq<nat>, ci: nat, p: nat)
    requires ci < |f.rows|
    ensures NearestRowAt(f, order, ci, p) ==>
              CandidateAt(f, order, ci, p) && p < |order| && order[p] < |f.rows|
  {
  }

  lemma NearestLotBounds(lots: seq<OpenLot>, cover: Row, p: nat)
    ensures NearestLotAt(lots, cover, p) ==> p < |lots| && CanTakeOpen(cover, lots[p])
  {
  }

  // ----- in place

  /** The folds, rewriting closed rows and open lots where they stand. */
  method FoldOptionRolls(rows: array<Row>, lots: array<OpenLot>, order: seq<nat>) returns (kept: seq<Row>)
    requires InRange(order, rows.Length)
    modifies rows, lots
    ensures var f := FoldSome(old(rows[..]), old(lots[..]), order, |order|);
            rows[..] == f.rows && lots[..] == f.lots && kept == NotDropped(f.rows, f.drop)
  {
    hide BestRow, BestLot, Adjusted, AdjustedLot;
    ghost var rows0, lots0 := rows[..], lots[..];
    var drop: set<TradeId> := {};
    ghost var folded: set<nat> := {};
    for k := 0 to |order|
      invariant Fold(rows[..], lots[..], drop, folded) == FoldSome(rows0, lots0, order, k)
    {
      var ci := order[k];
      ghost var f := Fold(rows[..], lots[..], drop, folded);
      var cover := rows[ci];
      if cover.id !in drop && cover.exitDay != "" && cover.underlying != "" && cover.underlying != "—" {
        var row := NearestRow(rows, drop, ci, order);
        if row.Some? {
          if Abs(rows[row.value].qty) > 0.0 {
            rows[row.value] := Adjusted(rows[row.value], cover.pnl);
            drop, folded := drop + {cover.id}, folded + {ci};
          }
        } else {
          var lot := NearestLot(lots, cover);
          if lot.Some? && Abs(lots[lot.value].qty) > 0.0 {
            lots[lot.value] := AdjustedLot(lots[lot.value], cover.pnl);
            drop, folded := drop + {cover.id}, folded + {ci};
          }
        }
      }
      assert Fold(rows[..], lots[..], drop, folded) == FoldOne(f, order, ci);
    }
    kept := Kept(rows, drop);
  }

  method NearestRow(rows: array<Row>, drop: set<TradeId>, ci: nat, order: seq<nat>) returns (best: Option<nat>)
    requires ci < rows.Length
    ensures best == BestRow(rows[..], drop, ci, order)
  {
    hide Nearer;
    best := None;
    var all := rows[..];
    for k := 0 to |order|
      invariant best == BestRow(all, drop, ci, order[..k])
    {
      assert order[..k + 1][..k] == order[..k];
      var i := order[k];
      if Candidate(all, drop, ci, i)
         && (best.None? || Nearer(rows[i].qty, rows[i].symbol.text, rows[best.value].qty,
             rows[best.value].symbol.text, Abs(rows[ci].qty))) {
        best := Some(i);
      }
    }
    assert order[..|order|] == order;
  }

  method NearestLot(lots: array<OpenLot>, cover: Row) returns (best: Option<nat>)
    ensures best == BestLot(lots[..], cover, lots.Length)
  {
    hide Nearer;
    best := None;
    var all := lots[..];
    for i := 0 to lots.Length
      invariant best == BestLot(all, cover, i)
    {
      if OpenCandidate(all, cover, i)
         && (best.None? || Nearer(lots[i].qty, lots[i].symbol.text, lots[best.value].qty,
             lots[best.value].symbol.text, Abs(cover.qty))) {
        best := Some(i);
      }
    }
  }

  method Kept(rows: array<Row>, drop: set<TradeId>) returns (kept: seq<Row>)
    ensures kept == NotDropped(rows[..], drop)
  {
    kept := [];
    for i := 0 to rows.Length
      invariant kept == NotDropped(rows[..i], drop)
    {
      assert rows[..i + 1][..i] == rows[..i];
      if rows[i].id !in drop {
        kept := kept + [rows[i]];
      }
    }
    assert rows[..rows.Length] == rows[..];
  }
}
