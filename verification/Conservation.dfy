/** What every run of the matcher keeps. */
module Conservation {
  import opened Trading
  import opened Ledger
  import opened Lots
  import opened LotsProofs
  import opened Matching

  /** The shelf a lot stays on from its opening to its end. */
  function Home(fills: seq<Fill>, id: LotId): Shelf
    requires id.fill < |fills|
  {
    var f := fills[id.fill];
    if id.rolled && f.roll.Some? then Carried(f.Roll(), f.roll.value) else Book(f.Key())
  }

  /** Each lot lies at home, is among those opened so far, and no queue names a lot twice. */
  ghost predicate Shelved(s: State, fills: seq<Fill>, bound: nat) {
    && (forall at, i :: 0 <= i < |On(s, at)| ==> AtHome(On(s, at)[i].id, at, fills, bound))
    && (forall at :: Distinct(On(s, at)) && Positive(On(s, at)))
  }

  ghost predicate AtHome(id: LotId, at: Shelf, fills: seq<Fill>, bound: nat) {
    id.fill < |fills| && id.Rank() < bound && Home(fills, id) == at
  }

  /** The replay of the history is what the books and pools hold, lot by lot. */
  ghost predicate Told(s: State, fills: seq<Fill>) {
    forall id: LotId :: id.fill < |fills| ==> Replay(s.log, id) == Held(On(s, Home(fills, id)), id)
  }

  /** A residue is forgotten at most once per lot, of a lot that is opened and no longer held. */
  ghost predicate Lossless(s: State, fills: seq<Fill>, bound: nat, eps: real) {
    && Small(s.log, eps)
    && forall id: LotId :: id.fill < |fills| ==>
         Drops(s.log, id) + Count(On(s, Home(fills, id)), id) <= (if id.Rank() < bound then 1 else 0)
  }

  ghost predicate Inv(s: State, fills: seq<Fill>, bound: nat, eps: real) {
    Shelved(s, fills, bound) && Told(s, fills) && Lossless(s, fills, bound, eps)
  }

  lemma OnPut(s: State, at: Shelf, lots: seq<Lot>, es: seq<Entry>, other: Shelf)
    ensures On(Put(s, at, lots, es), other) == if other == at then lots else On(s, other)
  {
  }

  lemma NotElsewhere(s: State, fills: seq<Fill>, bound: nat, at: Shelf, id: LotId)
    requires Shelved(s, fills, bound) && id.fill < |fills| && Home(fills, id) != at
    ensures !Has(On(s, at), id)
  {
    forall i | 0 <= i < |On(s, at)| ensures On(s, at)[i].id != id {
      assert AtHome(On(s, at)[i].id, at, fills, bound);
    }
  }

  /** A faithful change of one shelf keeps the invariant. */
  lemma PutKeeps(s: State, fills: seq<Fill>, bound: nat, at: Shelf, lots: seq<Lot>, es: seq<Entry>, eps: real)
    requires Inv(s, fills, bound, eps) && Faithful(On(s, at), es, lots, eps)
    ensures Inv(Put(s, at, lots, es), fills, bound, eps)
  {
    hide Follow, Held, Drops, Count;
    var s' := Put(s, at, lots, es);
    assert s'.log == s.log + es;
    forall id: LotId | id.fill < |fills|
      ensures Replay(s'.log, id) == Held(On(s', Home(fills, id)), id)
      ensures Drops(s'.log, id) + Count(On(s', Home(fills, id)), id) <= (if id.Rank() < bound then 1 else 0)
    {
      OnPut(s, at, lots, es, Home(fills, id));
      FollowAppends(NOTHING, s.log, es, id);
      DropsAppend(s.log, es, id);
      if Home(fills, id) != at {
        NotElsewhere(s, fills, bound, at, id);
        FollowUntouched(Replay(s.log, id), es, id);
        DropsUntouched(es, id);
      }
    }
    PutShelved(s, fills, bound, at, lots, es);
  }

  lemma PutShelved(s: State, fills: seq<Fill>, bound: nat, at: Shelf, lots: seq<Lot>, es: seq<Entry>)
    requires Shelved(s, fills, bound) && Distinct(lots) && Positive(lots)
    requires forall j :: 0 <= j < |lots| ==> AtHome(lots[j].id, at, fills, bound) || Has(On(s, at), lots[j].id)
    ensures Shelved(Put(s, at, lots, es), fills, bound)
  {
    var s' := Put(s, at, lots, es);
    forall o, i | 0 <= i < |On(s', o)| ensures AtHome(On(s', o)[i].id, o, fills, bound) {
      OnPut(s, at, lots, es, o);
      if o == at && Has(On(s, at), lots[i].id) {
        var j :| 0 <= j < |On(s, at)| && On(s, at)[j].id == lots[i].id;
        assert AtHome(On(s, at)[j].id, at, fills, bound);
      }
    }
    forall o ensures Distinct(On(s', o)) && Positive(On(s', o)) {
      OnPut(s, at, lots, es, o);
    }
  }

  lemma InvWeakens(s: State, fills: seq<Fill>, bound: nat, bound': nat, eps: real)
    requires Inv(s, fills, bound, eps) && bound <= bound'
    ensures Inv(s, fills, bound', eps)
  {
    hide Follow, Held, Drops, Count;
    forall at, i | 0 <= i < |On(s, at)| ensures AtHome(On(s, at)[i].id, at, fills, bound') {
      assert AtHome(On(s, at)[i].id, at, fills, bound);
    }
  }

  /** A lot opened in its turn is new to every shelf, and the replay then holds all of it. */
  lemma OpenKeeps(s: State, fills: seq<Fill>, bound: nat, at: Shelf, lot: Lot, eps: real)
    requires Inv(s, fills, bound, eps)
    requires lot.qty > 0.0 && lot.id.fill < |fills| && Home(fills, lot.id) == at && lot.id.Rank() >= bound
    ensures Inv(OpenLot(s, at, lot), fills, lot.id.Rank() + 1, eps)
  {
    hide Follow, Held, AccountOf, Drops, Count;
    var lots := On(s, at);
    var s' := OpenLot(s, at, lot);
    forall i | 0 <= i < |lots| ensures lots[i].id != lot.id {
      assert AtHome(lots[i].id, at, fills, bound);
    }
    InvWeakens(s, fills, bound, lot.id.Rank() + 1, eps);
    PutShelved(s, fills, lot.id.Rank() + 1, at, lots + [lot], [Opened(lot)]);
    forall id: LotId | id.fill < |fills|
      ensures Replay(s'.log, id) == Held(On(s', Home(fills, id)), id)
      ensures Drops(s'.log, id) + Count(On(s', Home(fills, id)), id) <= (if id.Rank() < lot.id.Rank() + 1 then 1 else 0)
    {
      OnPut(s, at, lots + [lot], [Opened(lot)], Home(fills, id));
      OpenFollows(s, at, lot, id);
      OpenCounts(lots, lot, id);
      DropsAppend(s.log, [Opened(lot)], id);
    }
  }

  lemma OpenFollows(s: State, at: Shelf, lot: Lot, id: LotId)
    requires !Has(On(s, at), lot.id)
    ensures Replay(s.log + [Opened(lot)], id) == Follow1(Replay(s.log, id), Opened(lot), id)
    ensures Held(On(s, at) + [lot], id) == if id == lot.id then Follow1(NOTHING, Opened(lot), id)
                                           else Held(On(s, at), id)
    ensures Held(On(s, at), lot.id) == NOTHING
  {
    hide Follow, Held, AccountOf;
    FollowAppends(NOTHING, s.log, [Opened(lot)], id);
    FollowOne(Replay(s.log, id), Opened(lot), id);
    HeldAppended(On(s, at), lot, id);
    HeldMissing(On(s, at), lot.id);
    OpenedFromNothing(lot);
  }

  lemma OpenCounts(lots: seq<Lot>, lot: Lot, id: LotId)
    ensures Count(lots + [lot], id) == if id == lot.id then 1 else Count(lots, id)
    ensures Drops([Opened(lot)], id) == 0
  {
    assert [Opened(lot)][1..] == [];
    if id == lot.id {
      assert (lots + [lot])[|lots|].id == id;
    } else if Has(lots, id) {
      var i :| 0 <= i < |lots| && lots[i].id == id;
      assert (lots + [lot])[i].id == id;
    }
  }

  lemma OpenedFromNothing(lot: Lot)
    ensures Follow1(NOTHING, Opened(lot), lot.id) == AccountOf(lot)
  {
  }

  /** An entry about no lot changes no lot. */
  lemma NoteKeeps(s: State, fills: seq<Fill>, bound: nat, e: Entry, eps: real)
    requires Inv(s, fills, bound, eps) && LotOf(e) == None
    ensures Inv(Note(s, e), fills, bound, eps)
  {
    hide Follow, Held, Drops, Count;
    var s' := Note(s, e);
    SameShelvesKeep(s, s', fills, bound);
    forall id: LotId | id.fill < |fills|
      ensures Replay(s'.log, id) == Held(On(s', Home(fills, id)), id)
      ensures Drops(s'.log, id) + Count(On(s', Home(fills, id)), id) <= (if id.Rank() < bound then 1 else 0)
    {
      FollowAppends(NOTHING, s.log, [e], id);
      FollowUntouched(Replay(s.log, id), [e], id);
      DropsAppend(s.log, [e], id);
      DropsUntouched([e], id);
      assert On(s', Home(fills, id)) == On(s, Home(fills, id));
    }
  }

  lemma SameShelvesKeep(s: State, s': State, fills: seq<Fill>, bound: nat)
    requires Shelved(s, fills, bound)
    requires forall at :: On(s', at) == On(s, at)
    ensures Shelved(s', fills, bound)
  {
    forall at, i | 0 <= i < |On(s', at)| ensures AtHome(On(s', at)[i].id, at, fills, bound) {
      assert AtHome(On(s, at)[i].id, at, fills, bound);
    }
  }

  lemma SameLogKeeps(s: State, s': State, fills: seq<Fill>, bound: nat, eps: real)
    requires Inv(s, fills, bound, eps)
    requires s'.log == s.log && forall at :: On(s', at) == On(s, at)
    ensures Inv(s', fills, bound, eps)
  {
    hide Follow, Held, Drops, Count;
    SameShelvesKeep(s, s', fills, bound);
  }

  // ----- the closing operations

  lemma CloseOnKeeps(s: State, fills: seq<Fill>, bound: nat, at: Shelf, dir: Direction, n: nat, f: Fill, left: real,
      mode: Mode, eps: real)
    requires Inv(s, fills, bound, eps) && eps >= 0.0 && left >= 0.0
    ensures var g := CloseOn(s, at, dir, n, f, left, mode, eps);
            Inv(g.s, fills, bound, eps) && 0.0 <= g.left <= left
  {
    hide Take, Follow, Held;
    var x := ExitOf(n, f);
    if Takes(On(s, at), dir, left, mode, eps) {
      var t := Take(On(s, at), dir, x, n, left, mode, eps);
      TakeFaithful(On(s, at), dir, x, n, left, mode, eps);
      TakeLeaves(On(s, at), dir, x, n, left, mode, eps);
      PutKeeps(s, fills, bound, at, t.lots, t.entries, eps);
    }
  }

  lemma {:induction false} CloseOlderKeeps(s: State, fills: seq<Fill>, bound: nat, ks: seq<BookKey>, dir: Direction,
      n: nat, f: Fill, left: real, eps: real)
    requires Inv(s, fills, bound, eps) && eps >= 0.0 && left >= 0.0
    ensures var g := CloseOlder(s, ks, dir, n, f, left, eps);
            Inv(g.s, fills, bound, eps) && 0.0 <= g.left <= left
    decreases ks
  {
    hide Inv, CloseOn;
    if ks != [] {
      CloseOnKeeps(s, fills, bound, Book(ks[0]), dir, n, f, left, Older, eps);
      var g := CloseOn(s, Book(ks[0]), dir, n, f, left, Older, eps);
      CloseOlderKeeps(g.s, fills, bound, ks[1..], dir, n, f, g.left, eps);
    }
  }

  lemma CloseRolledKeeps(s: State, fills: seq<Fill>, bound: nat, dir: Direction, n: nat, f: Fill, left: real, eps: real)
    requires Inv(s, fills, bound, eps) && eps >= 0.0 && left >= 0.0
    ensures var g := CloseRolled(s, dir, n, f, left, eps);
            Inv(g.s, fills, bound, eps) && 0.0 <= g.left <= left
  {
    hide CloseOn, CloseOlder;
    var s0 := TouchPool(s, f.Roll());
    SameLogKeeps(s, s0, fills, bound, eps);
    CloseOnKeeps(s0, fills, bound, Carried(f.Roll(), dir), dir, n, f, left, Pooled, eps);
    var g := CloseOn(s0, Carried(f.Roll(), dir), dir, n, f, left, Pooled, eps);
    CloseOlderKeeps(g.s, fills, bound, Olders(g.s.books, g.s.order, f), dir, n, f, g.left, eps);
  }

  lemma {:induction false} CloseReplacedKeeps(s: State, fills: seq<Fill>, bound: nat, ks: seq<BookKey>, n: nat,
      f: Fill, left: real, was: Replacements, eps: real)
    requires Inv(s, fills, bound, eps) && eps >= 0.0 && left >= 0.0
    ensures var g := CloseReplaced(s, ks, n, f, left, was, eps);
            Inv(g.s, fills, bound, eps) && 0.0 <= g.left <= left
    decreases ks
  {
    hide Inv, CloseOn;
    if ks != [] && left > eps {
      var k := ks[0];
      CloseOnKeeps(s, fills, bound, Book(k), f.Closing(), n, f, left, Renamed, eps);
      var g :=
        if On(s, Book(k)) == [] || k == f.Key() || k.account != f.account || k.currency != f.currency
           || !was.Replaced(k, f.day)
        then Going(s, left)
        else CloseOn(s, Book(k), f.Closing(), n, f, left, Renamed, eps);
      CloseReplacedKeeps(g.s, fills, bound, ks[1..], n, f, g.left, was, eps);
    }
  }

  lemma CloseOrdinaryKeeps(s: State, fills: seq<Fill>, bound: nat, n: nat, f: Fill, was: Replacements, eps: real)
    requires Inv(s, fills, bound, eps) && eps >= 0.0 && f.qty >= 0.0
    ensures var g := CloseOrdinary(s, n, f, was, eps);
            Inv(g.s, fills, bound, eps) && 0.0 <= g.left <= f.qty
  {
    hide Inv, CloseOn, CloseRolled, CloseReplaced;
    CloseOnKeeps(s, fills, bound, Book(f.Key()), f.Closing(), n, f, f.qty, Own, eps);
    var g1 := CloseOn(s, Book(f.Key()), f.Closing(), n, f, f.qty, Own, eps);
    CloseRolledKeeps(g1.s, fills, bound, f.Closing(), n, f, g1.left, eps);
    var g2 := if g1.left > eps && f.symbol.IsOption() then CloseRolled(g1.s, f.Closing(), n, f, g1.left, eps) else g1;
    CloseReplacedKeeps(g2.s, fills, bound, g2.s.order, n, f, g2.left, was, eps);
  }

  lemma CloseRollKeeps(s: State, fills: seq<Fill>, bound: nat, n: nat, f: Fill, d: Direction, eps: real)
    requires Inv(s, fills, bound, eps) && eps >= 0.0 && f.qty >= 0.0
    ensures var g := CloseRoll(s, n, f, d, eps);
            Inv(g.s, fills, bound, eps) && 0.0 <= g.left <= f.qty
  {
    hide Inv, CloseOn, CloseRolled;
    var x := f.(price := RollExit(f, d));
    CloseOnKeeps(s, fills, bound, Book(f.Key()), f.Closing(), n, x, f.qty, Own, eps);
    var g := CloseOn(s, Book(f.Key()), f.Closing(), n, x, f.qty, Own, eps);
    CloseRolledKeeps(g.s, fills, bound, d, n, x, g.left, eps);
  }

  // ----- splits

  lemma {:induction false} RestateSame(lots: seq<Lot>, factor: Ratio)
    ensures var r := Restate(lots, factor);
            |r| == |lots| && forall i :: 0 <= i < |lots| ==>
              r[i].id == lots[i].id && (lots[i].qty > 0.0 ==> r[i].qty > 0.0)
  {
    if lots != [] {
      RestateSame(lots[1..], factor);
    }
  }

  lemma {:induction false} RestateNames(lots: seq<Lot>, factor: Ratio, e: Entry)
    requires e in RestateEntries(lots, factor)
    ensures LotOf(e).Some? && Has(lots, LotOf(e).value)
  {
    if e != Restated(lots[0].id, factor) {
      RestateNames(lots[1..], factor, e);
      var i :| 0 <= i < |lots[1..]| && lots[1..][i].id == LotOf(e).value;
      assert lots[i + 1].id == LotOf(e).value;
    } else {
      assert lots[0].id == LotOf(e).value;
    }
  }

  /** A split changes how many units a lot is, and at what price, not what it cost. */
  lemma SplitKeepsCost(lot: Lot, factor: Ratio)
    ensures AccountOf(RestateLot(lot, factor)) == Follow1(AccountOf(lot), Restated(lot.id, factor), lot.id)
  {
    assert (lot.qty * factor) * (lot.price / factor) == lot.qty * (factor * (lot.price / factor));
    assert factor * (lot.price / factor) == lot.price;
  }

  lemma {:induction false} RestateFollows(lots: seq<Lot>, factor: Ratio, id: LotId)
    requires Distinct(lots)
    ensures Follow(Held(lots, id), RestateEntries(lots, factor), id) == Held(Restate(lots, factor), id)
  {
    hide AccountOf, RestateLot;
    if lots != [] {
      var es := RestateEntries(lots, factor);
      var head := RestateLot(lots[0], factor);
      assert es[0] == Restated(lots[0].id, factor) && es[1..] == RestateEntries(lots[1..], factor);
      assert Restate(lots, factor)[1..] == Restate(lots[1..], factor);
      if lots[0].id == id {
        RestateSame(lots, factor);
        SplitKeepsCost(lots[0], factor);
        FirstIsGone(lots);
        forall e | e in es[1..] ensures LotOf(e) != Some(id) {
          RestateNames(lots[1..], factor, e);
        }
        FollowUntouched(AccountOf(head), es[1..], id);
      } else {
        RestateSame(lots, factor);
        RestateFollows(lots[1..], factor, id);
      }
    }
  }

  lemma {:induction false} RestateDrops(lots: seq<Lot>, factor: Ratio, id: LotId)
    ensures Drops(RestateEntries(lots, factor), id) == 0
    ensures forall e :: e in RestateEntries(lots, factor) ==> e.Restated?
  {
    if lots != [] {
      var es := RestateEntries(lots, factor);
      assert es[0] == Restated(lots[0].id, factor) && es[1..] == RestateEntries(lots[1..], factor);
      RestateDrops(lots[1..], factor, id);
    }
  }

  lemma RestateCounts(lots: seq<Lot>, factor: Ratio, id: LotId)
    ensures Count(Restate(lots, factor), id) <= Count(lots, id)
  {
    RestateSame(lots, factor);
    var r := Restate(lots, factor);
    if Has(r, id) {
      var i :| 0 <= i < |r| && r[i].id == id;
      assert lots[i].id == id;
    }
  }

  lemma RestateFaithful(lots: seq<Lot>, factor: Ratio, eps: real)
    requires Distinct(lots) && Positive(lots)
    ensures Faithful(lots, RestateEntries(lots, factor), Restate(lots, factor), eps)
  {
    hide Follow, Held, Drops, Count;
    var es, r := RestateEntries(lots, factor), Restate(lots, factor);
    forall id
      ensures Follow(Held(lots, id), es, id) == Held(r, id)
      ensures Drops(es, id) + Count(r, id) <= Count(lots, id)
    {
      RestateFollows(lots, factor, id);
      RestateDrops(lots, factor, id);
      RestateCounts(lots, factor, id);
    }
    RestateDrops(lots, factor, LotId(0, false));
    forall e, id | e in es && LotOf(e) == Some(id) ensures Has(lots, id) {
      RestateNames(lots, factor, e);
    }
    RestateSame(lots, factor);
    forall j | 0 <= j < |r| ensures Has(lots, r[j].id) {
      assert lots[j].id == r[j].id;
    }
  }

  lemma {:induction false} SplitBookKeeps(s: State, fills: seq<Fill>, bound: nat, k: BookKey, todo: seq<Split>,
      day: int, eps: real)
    requires Inv(s, fills, bound, eps)
    ensures var s' := SplitBook(s, k, todo, day);
            Inv(s', fills, bound, eps)
    decreases todo
  {
    hide Restate, Follow, Held;
    if todo != [] {
      var lots := On(s, Book(k));
      if todo[0].day <= day && k in s.books {
        RestateFaithful(lots, todo[0].factor, eps);
        PutKeeps(s, fills, bound, Book(k), Restate(lots, todo[0].factor), RestateEntries(lots, todo[0].factor), eps);
        SplitBookKeeps(Put(s, Book(k), Restate(lots, todo[0].factor), RestateEntries(lots, todo[0].factor)), fills,
            bound, k, todo[1..], day, eps);
      } else {
        SplitBookKeeps(s, fills, bound, k, todo[1..], day, eps);
      }
    }
  }

  lemma ApplySplitsKeeps(s: State, fills: seq<Fill>, bound: nat, k: BookKey, day: int, eps: real)
    requires Inv(s, fills, bound, eps)
    ensures var s' := ApplySplits(s, k, day);
            Inv(s', fills, bound, eps)
  {
    hide SplitBook;
    var sk := SplitKeyOf(k);
    if sk in s.pending {
      var todo := SortSplits(s.pending[sk]);
      SplitBookKeeps(s, fills, bound, k, todo, day, eps);
      SameLogKeeps(SplitBook(s, k, todo, day), ApplySplits(s, k, day), fills, bound, eps);
    }
  }

  // ----- one fill

  lemma SettleKeeps(g: Going, fills: seq<Fill>, n: nat, eps: real)
    requires n < |fills| && Inv(g.s, fills, 2 * n, eps) && eps >= 0.0
    ensures Inv(Settle(g, n, fills[n], eps), fills, 2 * n + 2, eps)
  {
    hide FeeShare, IsDust;
    var f := fills[n];
    var fee := FeeShare(f.commission, g.left, f.qty);
    if g.left <= eps {
      NoteKeeps(g.s, fills, 2 * n, Rest(n, g.left, fee), eps);
      InvWeakens(Note(g.s, Rest(n, g.left, fee)), fills, 2 * n, 2 * n + 2, eps);
    } else if f.Opening().Some? {
      OpenKeeps(g.s, fills, 2 * n, Book(f.Key()), NewLot(n, f, g.left, f.Opening().value), eps);
    } else {
      var e := if f.side.Sell? && IsDust(g.left, f) then Dust(n, g.left, fee)
               else Unmatched(Orphan(n, f.side, g.left, f.price), fee);
      NoteKeeps(g.s, fills, 2 * n, e, eps);
      InvWeakens(Note(g.s, e), fills, 2 * n, 2 * n + 2, eps);
    }
  }

  lemma CarryRollKeeps(g: Going, fills: seq<Fill>, n: nat, d: Direction, eps: real)
    requires n < |fills| && fills[n].roll == Some(d) && Inv(g.s, fills, 2 * n, eps) && eps >= 0.0
    ensures Inv(CarryRoll(g, n, fills[n], d, eps), fills, 2 * n + 1, eps)
  {
    hide Inv, RollEntry;
    var f := fills[n];
    var moved := f.qty - g.left;
    var s := g.s.(rolledKeys := g.s.rolledKeys + {f.Roll()});
    SameLogKeeps(g.s, s, fills, 2 * n, eps);
    if moved > eps {
      OpenKeeps(s, fills, 2 * n, Carried(f.Roll(), d), CarriedLot(n, f, d, moved), eps);
    } else {
      InvWeakens(s, fills, 2 * n, 2 * n + 1, eps);
    }
  }

  lemma SettleRollKeeps(g: Going, fills: seq<Fill>, n: nat, d: Direction, eps: real)
    requires n < |fills| && fills[n].roll == Some(d) && Inv(g.s, fills, 2 * n, eps) && eps >= 0.0
    ensures Inv(SettleRoll(g, n, fills[n], d, eps), fills, 2 * n + 2, eps)
  {
    hide FeeShare, Inv, PerUnit, CarryRoll;
    var f := fills[n];
    var s := CarryRoll(g, n, f, d, eps);
    var fee := FeeShare(f.commission, g.left, f.qty);
    CarryRollKeeps(g, fills, n, d, eps);
    if g.left > eps {
      OpenKeeps(s, fills, 2 * n + 1, Book(f.Key()), RollOpens(n, f, g.left), eps);
      NoteKeeps(OpenLot(s, Book(f.Key()), RollOpens(n, f, g.left)), fills, 2 * n + 2, Forgone(n, fee), eps);
    } else {
      InvWeakens(s, fills, 2 * n + 1, 2 * n + 2, eps);
      NoteKeeps(s, fills, 2 * n + 2, Rest(n, g.left, fee), eps);
    }
  }

  lemma SendOutKeeps(s: State, fills: seq<Fill>, n: nat, f: Fill, eps: real)
    requires Inv(s, fills, 2 * n, eps) && eps >= 0.0 && f.qty >= 0.0
    ensures Inv(SendOut(s, n, f, eps), fills, 2 * n + 2, eps)
  {
    hide Inv, CloseOn;
    CloseOnKeeps(s, fills, 2 * n, Book(f.Key()), Long, n, f, f.qty, Outward, eps);
    var g := CloseOn(s, Book(f.Key()), Long, n, f, f.qty, Outward, eps);
    NoteKeeps(g.s, fills, 2 * n, Excess(n, g.left, 0.0), eps);
    InvWeakens(Note(g.s, Excess(n, g.left, 0.0)), fills, 2 * n, 2 * n + 2, eps);
  }

  lemma StepKeeps(s: State, fills: seq<Fill>, n: nat, was: Replacements, eps: real)
    requires n < |fills| && Inv(s, fills, 2 * n, eps) && eps >= 0.0 && fills[n].qty >= 0.0
    ensures var s' := Step(s, n, fills[n], was, eps);
            Inv(s', fills, 2 * n + 2, eps)
  {
    hide Inv, ApplySplits, CloseOrdinary, CloseRoll, SendOut, Settle, SettleRoll;
    var f := fills[n];
    var s0 := TouchBook(s, f.Key());
    SameLogKeeps(s, s0, fills, 2 * n, eps);
    ApplySplitsKeeps(s0, fills, 2 * n, f.Key(), f.day, eps);
    var s1 := ApplySplits(s0, f.Key(), f.day);
    if IsRoll(f) {
      CloseRollKeeps(s1, fills, 2 * n, n, f, f.roll.value, eps);
      SettleRollKeeps(CloseRoll(s1, n, f, f.roll.value, eps), fills, n, f.roll.value, eps);
    } else if f.transferOut {
      SendOutKeeps(s1, fills, n, f, eps);
    } else {
      CloseOrdinaryKeeps(s1, fills, 2 * n, n, f, was, eps);
      SettleKeeps(CloseOrdinary(s1, n, f, was, eps), fills, n, eps);
    }
  }
}
