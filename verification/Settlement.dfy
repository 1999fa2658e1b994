/** The finished run: what it says in total of each lot and of each fill. */
module Settlement {
  import opened Trading
  import opened Ledger
  import opened Lots
  import opened LotsProofs
  import opened Matching
  import opened Conservation
  import opened Spending
  import opened Runs
  import opened Leavings

  // ----- finishing keeps what running keeps

  lemma {:induction false} SplitAllKeeps(s: State, fills: seq<Fill>, bound: nat, ks: seq<BookKey>, eps: real)
    requires Inv(s, fills, bound, eps)
    ensures Inv(SplitAll(s, ks), fills, bound, eps)
    ensures SameLists(s, SplitAll(s, ks))
    decreases ks
  {
    hide Inv, ApplySplits;
    if ks != [] {
      ApplySplitsKeeps(s, fills, bound, ks[0], FAR_DAY, eps);
      ApplySplitsLists(s, ks[0], FAR_DAY);
      SplitAllKeeps(ApplySplits(s, ks[0], FAR_DAY), fills, bound, ks[1..], eps);
    }
  }

  lemma {:induction false} RollOutNames(lots: seq<Lot>, eps: real, e: Entry)
    requires e in RollOut(lots, eps)
    ensures LotOf(e).Some? && Has(lots, LotOf(e).value)
  {
    hide FeeShare;
    var es := RollOut(lots, eps);
    if e == es[0] {
      assert lots[0].id == LotOf(e).value;
    } else {
      assert es[1..] == RollOut(lots[1..], eps);
      RollOutNames(lots[1..], eps, e);
      HasRest(lots, LotOf(e).value);
    }
  }

  lemma RollOutOne(l: Lot, eps: real)
    requires l.qty > 0.0
    ensures Follow1(AccountOf(l), RollOut([l], eps)[0], l.id) == NOTHING
  {
    FeeWhole(l.commission, l.qty);
  }

  lemma {:induction false} RollOutFollows(lots: seq<Lot>, eps: real, id: LotId)
    requires Distinct(lots) && Positive(lots)
    ensures Follow(Held(lots, id), RollOut(lots, eps), id) == NOTHING
  {
    hide AccountOf, MakeSlice;
    if lots != [] {
      var es := RollOut(lots, eps);
      assert es[0] == RollOut([lots[0]], eps)[0] && es[1..] == RollOut(lots[1..], eps);
      if lots[0].id == id {
        RollOutOne(lots[0], eps);
        FirstIsGone(lots);
        forall e | e in es[1..] ensures LotOf(e) != Some(id) {
          RollOutNames(lots[1..], eps, e);
        }
        FollowUntouched(NOTHING, es[1..], id);
      } else {
        RollOutElse(lots[0], eps, Held(lots, id), id);
        RollOutFollows(lots[1..], eps, id);
      }
    }
  }

  lemma RollOutElse(l: Lot, eps: real, acc: Account, id: LotId)
    requires l.id != id
    ensures Follow1(acc, RollOut([l], eps)[0], id) == acc
  {
  }

  lemma {:induction false} RollOutDrops(lots: seq<Lot>, eps: real, id: LotId)
    requires Distinct(lots) && Positive(lots)
    ensures Drops(RollOut(lots, eps), id) <= Count(lots, id) && Small(RollOut(lots, eps), eps)
  {
    hide MakeSlice, Has;
    if lots != [] {
      var es := RollOut(lots, eps);
      assert es[1..] == RollOut(lots[1..], eps);
      RollOutDrops(lots[1..], eps, id);
      HasRest(lots, id);
      FirstIsGone(lots);
    }
  }

  /** Every leg still carried is closed, and nothing of it is left over. */
  lemma RollOutFaithful(lots: seq<Lot>, eps: real)
    requires Distinct(lots) && Positive(lots)
    ensures Faithful(lots, RollOut(lots, eps), [], eps)
  {
    hide Follow, Held, Drops, Has, RollOut;
    var es := RollOut(lots, eps);
    forall id
      ensures Follow(Held(lots, id), es, id) == Held([], id)
      ensures Drops(es, id) + Count([], id) <= Count(lots, id)
    {
      RollOutFollows(lots, eps, id);
      RollOutDrops(lots, eps, id);
      NothingHeld(id);
    }
    RollOutDrops(lots, eps, LotId(0, false));
    forall e, id | e in es && LotOf(e) == Some(id) ensures Has(lots, id) {
      RollOutNames(lots, eps, e);
    }
  }

  lemma NothingHeld(id: LotId)
    ensures Held([], id) == NOTHING && Count([], id) == 0
  {
  }

  lemma RollOutOnKeeps(s: State, fills: seq<Fill>, bound: nat, r: RollKey, d: Direction, eps: real)
    requires Inv(s, fills, bound, eps)
    ensures var s' := RollOutOn(s, Carried(r, d), eps);
            Inv(s', fills, bound, eps) && SameLists(s, s')
    ensures var s' := RollOutOn(s, Carried(r, d), eps);
            On(s', Carried(r, d)) == [] && forall at :: at != Carried(r, d) ==> On(s', at) == On(s, at)
  {
    hide RollOut, Follow, Held, Drops;
    var at := Carried(r, d);
    if On(s, at) != [] {
      RollOutFaithful(On(s, at), eps);
      PutKeeps(s, fills, bound, at, [], RollOut(On(s, at), eps), eps);
      PutLists(s, at, [], RollOut(On(s, at), eps));
    }
  }

  lemma {:induction false} RollOutAllKeeps(s: State, fills: seq<Fill>, bound: nat, rs: seq<RollKey>, eps: real)
    requires Inv(s, fills, bound, eps)
    ensures var s' := RollOutAll(s, rs, eps);
            Inv(s', fills, bound, eps) && SameLists(s, s') && s'.books == s.books
    ensures var s' := RollOutAll(s, rs, eps);
            forall r, d :: r in rs || On(s, Carried(r, d)) == [] ==> On(s', Carried(r, d)) == []
    decreases rs
  {
    hide Inv, RollOutOn;
    if rs != [] {
      RollOutOnKeeps(s, fills, bound, rs[0], Long, eps);
      var s1 := RollOutOn(s, Carried(rs[0], Long), eps);
      RollOutOnKeeps(s1, fills, bound, rs[0], Short, eps);
      var s2 := RollOutOn(s1, Carried(rs[0], Short), eps);
      RollOutAllKeeps(s2, fills, bound, rs[1..], eps);
      RollOutBooks(s, rs[0], Long, eps);
      RollOutBooks(s1, rs[0], Short, eps);
      forall r, d | r in rs || On(s, Carried(r, d)) == []
        ensures On(RollOutAll(s, rs, eps), Carried(r, d)) == []
      {
        if r == rs[0] || On(s, Carried(r, d)) == [] {
          assert On(s2, Carried(r, d)) == [];
        } else {
          assert r in rs[1..];
        }
      }
    }
  }

  lemma RollOutBooks(s: State, r: RollKey, d: Direction, eps: real)
    ensures RollOutOn(s, Carried(r, d), eps).books == s.books
  {
    hide RollOut;
  }

  lemma {:induction false} RollOutSpends(lots: seq<Lot>, eps: real, i: nat)
    ensures Spent(RollOut(lots, eps), i) == (0.0, 0.0)
  {
    hide FeeShare;
    if lots != [] {
      assert RollOut(lots, eps)[1..] == RollOut(lots[1..], eps);
      RollOutSpends(lots[1..], eps, i);
    }
  }

  lemma {:induction false} RollOutAllSpends(s: State, rs: seq<RollKey>, eps: real, i: nat)
    ensures Spent(RollOutAll(s, rs, eps).log, i) == Spent(s.log, i)
    decreases rs
  {
    hide Spent, RollOut;
    if rs != [] {
      var s1 := RollOutOn(s, Carried(rs[0], Long), eps);
      var s2 := RollOutOn(s1, Carried(rs[0], Short), eps);
      RollOutSpends(On(s, Carried(rs[0], Long)), eps, i);
      SpentAppends(s.log, RollOut(On(s, Carried(rs[0], Long)), eps), i);
      RollOutSpends(On(s1, Carried(rs[0], Short)), eps, i);
      SpentAppends(s1.log, RollOut(On(s1, Carried(rs[0], Short)), eps), i);
      assert Spent(s2.log, i) == Spent(s.log, i);
      RollOutAllSpends(s2, rs[1..], eps, i);
    }
  }

  lemma {:induction false} SplitAllSpends(s: State, ks: seq<BookKey>, i: nat)
    ensures Spent(SplitAll(s, ks).log, i) == Spent(s.log, i)
    decreases ks
  {
    hide Spent, ApplySplits;
    if ks != [] {
      ApplySplitsSpends(s, ks[0], FAR_DAY, i);
      SplitAllSpends(ApplySplits(s, ks[0], FAR_DAY), ks[1..], i);
    }
  }

  // ----- the main results

  /** What the matcher returns from. */
  function Final(fills: seq<Fill>, pending: map<SplitKey, seq<Split>>, was: Replacements, eps: real): State {
    Finish(Run(fills, |fills|, pending, was, eps), eps)
  }

  /** Every lot of every run, rolls, splits, replaced tickers and transfers included: units,
      cost and commission are exactly what replaying the history says, a residue was forgotten
      at most once and within the tolerance, and no leg is left in a roll's pool. */
  lemma EveryLotIsAccounted(fills: seq<Fill>, pending: map<SplitKey, seq<Split>>, was: Replacements, eps: real,
      id: LotId)
    requires Usable(fills) && eps >= 0.0 && id.fill < |fills|
    ensures var s := Final(fills, pending, was, eps);
            && Replay(s.log, id) == Held(On(s, Home(fills, id)), id)
            && (Home(fills, id).Carried? ==> Replay(s.log, id) == NOTHING)
            && Drops(s.log, id) <= 1 && Small(s.log, eps)
  {
    hide Run, SplitAll, RollOutAll, Replay, Held, Drops, Shelved;
    FinalKeeps(fills, pending, was, eps);
    var s := Final(fills, pending, was, eps);
    if Home(fills, id).Carried? {
      NothingHeld(id);
      assert On(s, Home(fills, id)) == [];
    }
  }

  lemma FinalKeeps(fills: seq<Fill>, pending: map<SplitKey, seq<Split>>, was: Replacements, eps: real)
    requires Usable(fills) && eps >= 0.0
    ensures var s := Final(fills, pending, was, eps);
            && Inv(s, fills, 2 * |fills|, eps) && Ordered(s)
            && forall r, d :: On(s, Carried(r, d)) == []
  {
    hide Run, SplitAll, RollOutAll, Inv;
    var s0 := Run(fills, |fills|, pending, was, eps);
    RunKeeps(fills, |fills|, pending, was, eps);
    SplitAllKeeps(s0, fills, 2 * |fills|, s0.order, eps);
    var s1 := SplitAll(s0, s0.order);
    SameListsOrder(s0, s1);
    RollOutAllKeeps(s1, fills, 2 * |fills|, s1.poolOrder, eps);
    SameListsOrder(s1, RollOutAll(s1, s1.poolOrder, eps));
  }

  // ----- where each fill went

  lemma {:induction false} SplitAllMarks(s: State, ks: seq<BookKey>)
    ensures SameMarks(s, SplitAll(s, ks))
    decreases ks
  {
    hide MarksOf, SentBy, ApplySplits;
    if ks != [] {
      ApplySplitsMarks(s, ks[0], FAR_DAY);
      SplitAllMarks(ApplySplits(s, ks[0], FAR_DAY), ks[1..]);
    }
  }

  lemma {:induction false} RollOutLeavesNone(lots: seq<Lot>, eps: real)
    ensures forall e :: e in RollOut(lots, eps) ==> LeftBy(e).None? && !e.Sent?
  {
    hide MakeSlice;
    if lots != [] {
      RollOutLeavesNone(lots[1..], eps);
    }
  }

  lemma RollOutOnMarks(s: State, at: Shelf, eps: real)
    ensures SameMarks(s, RollOutOn(s, at, eps))
  {
    hide MarksOf, SentBy, RollOut;
    RollOutLeavesNone(On(s, at), eps);
    PutMarks(s, at, [], RollOut(On(s, at), eps));
  }

  lemma {:induction false} RollOutAllMarks(s: State, rs: seq<RollKey>, eps: real)
    ensures SameMarks(s, RollOutAll(s, rs, eps))
    decreases rs
  {
    hide MarksOf, SentBy, RollOutOn;
    if rs != [] {
      var s1 := RollOutOn(s, Carried(rs[0], Long), eps);
      RollOutOnMarks(s, Carried(rs[0], Long), eps);
      RollOutOnMarks(s1, Carried(rs[0], Short), eps);
      RollOutAllMarks(RollOutOn(s1, Carried(rs[0], Short), eps), rs[1..], eps);
    }
  }

  /** Units of the slices fill `i` closed, and the commission they bear. */
  function ClosedBy(es: seq<Entry>, i: nat): (real, real) {
    if es == [] then (0.0, 0.0)
    else
      var rest := ClosedBy(es[1..], i);
      if es[0].Closed? && es[0].slice.exit == Some(i)
      then (rest.0 + es[0].slice.qty, rest.1 + es[0].slice.exitFee) else rest
  }

  /** What is spent of a fill went to slices, out of the account, or to what the fill left. */
  lemma {:induction false} SpentParts(es: seq<Entry>, i: nat)
    ensures Spent(es, i).0 == ClosedBy(es, i).0 + SentBy(es, i) + Spent(MarksOf(es, i), i).0
    ensures Spent(es, i).1 == ClosedBy(es, i).1 + Spent(MarksOf(es, i), i).1
  {
    if es != [] {
      SpentParts(es[1..], i);
      if LeftBy(es[0]) == Some(i) {
        assert MarksOf(es, i)[0] == es[0] && MarksOf(es, i)[1..] == MarksOf(es[1..], i);
      } else {
        assert MarksOf(es, i) == MarksOf(es[1..], i);
      }
    }
  }

  lemma SpentTwo(a: Entry, b: Entry, i: nat)
    ensures Spent([a, b], i) == (Spent1(a, i).0 + Spent1(b, i).0, Spent1(a, i).1 + Spent1(b, i).1)
  {
    assert [a, b][1..] == [b];
    SpentOne(b, i);
  }

  lemma LeavesSpent(i: nat, f: Fill, left: real, eps: real)
    ensures Spent(Leaves(i, f, left, eps), i) == (left, if SendsOut(f) then 0.0
                                                        else FeeShare(f.commission, left, f.qty))
  {
    hide FeeShare, IsDust, PerUnit, RollEntry, Spent;
    var fee := FeeShare(f.commission, left, f.qty);
    if IsRoll(f) {
      var leg := if f.qty - left > eps then [Opened(CarriedLot(i, f, f.roll.value, f.qty - left))] else [];
      var own := if left > eps then [Opened(RollOpens(i, f, left)), Forgone(i, fee)] else [Rest(i, left, fee)];
      SpentAppends(leg, own, i);
      SpentOne(Opened(CarriedLot(i, f, f.roll.value, f.qty - left)), i);
      SpentTwo(Opened(RollOpens(i, f, left)), Forgone(i, fee), i);
      SpentOne(Rest(i, left, fee), i);
      assert Spent([], i) == (0.0, 0.0) by { SpentNone(i); }
    } else {
      SpentOne(Leaves(i, f, left, eps)[0], i);
    }
  }

  lemma SpentNone(i: nat)
    ensures Spent([], i) == (0.0, 0.0)
  {
  }

  /** Every fill of every run is spent to its last unit, and its commission to its last cent. It
      closed slices (or, a transfer out, sent coins out); and of the rest, between none and all of
      it, it left exactly what such a fill leaves: a residue only within the tolerance, an excess
      only of a transfer out, dust only of a sale the guard calls dust, and of a roll a leg carried
      forward of exactly the units it closed. */
  lemma EveryFillIsSpent(fills: seq<Fill>, pending: map<SplitKey, seq<Split>>, was: Replacements, eps: real, i: nat)
    requires Usable(fills) && i < |fills|
    ensures Spent(Final(fills, pending, was, eps).log, i) == Due(fills[i])
    ensures eps >= 0.0 ==>
              var log, f := Final(fills, pending, was, eps).log, fills[i];
              var left := f.qty - ClosedBy(log, i).0 - SentBy(log, i);
              && 0.0 <= left <= f.qty && MarksOf(log, i) == Leaves(i, f, left, eps)
              && (!SendsOut(f) ==>
                    SentBy(log, i) == 0.0 && ClosedBy(log, i).1 + FeeShare(f.commission, left, f.qty) == f.commission)
  {
    hide Run, SplitAll, RollOutAll, Spent, MarksOf, SentBy, Leaves, ClosedBy, FeeShare;
    var s0 := Run(fills, |fills|, pending, was, eps);
    var s1 := SplitAll(s0, s0.order);
    RunSpends(fills, |fills|, pending, was, eps, i);
    SplitAllSpends(s0, s0.order, i);
    RollOutAllSpends(s1, s0.poolOrder, eps, i);
    if eps >= 0.0 {
      var left := RunLeaves(fills, |fills|, pending, was, eps, i);
      SplitAllMarks(s0, s0.order);
      RollOutAllMarks(s1, s0.poolOrder, eps);
      SpentParts(Final(fills, pending, was, eps).log, i);
      LeavesSpent(i, fills[i], left, eps);
    }
  }

  /** Units the history says a fill closed, sent out, opened, left unmatched or let go as dust: all
      it can be asked to account for, its own residue and a transfer's excess left out. */
  function Placed(es: seq<Entry>, i: nat): real {
    if es == [] then 0.0 else Placed1(es[0], i) + Placed(es[1..], i)
  }

  function Placed1(e: Entry, i: nat): real {
    match e
    case Rest(_, _, _) => 0.0
    case Excess(_, _, _) => 0.0
    case _ => Spent1(e, i).0
  }

  /** Units the legs carried forward by roll `i` opened with. */
  function CarriedBy(es: seq<Entry>, i: nat): real {
    if es == [] then 0.0
    else (if es[0].Opened? && es[0].lot.id == LotId(i, true) then es[0].lot.qty else 0.0) + CarriedBy(es[1..], i)
  }

  lemma {:induction false} PlacedParts(es: seq<Entry>, i: nat)
    ensures Placed(es, i) == ClosedBy(es, i).0 + SentBy(es, i) + Placed(MarksOf(es, i), i)
    ensures CarriedBy(es, i) == CarriedBy(MarksOf(es, i), i)
  {
    if es != [] {
      PlacedParts(es[1..], i);
      if LeftBy(es[0]) == Some(i) {
        assert MarksOf(es, i)[0] == es[0] && MarksOf(es, i)[1..] == MarksOf(es[1..], i);
      } else {
        assert MarksOf(es, i) == MarksOf(es[1..], i);
      }
    }
  }

  lemma {:induction false} PlacedAppends(a: seq<Entry>, b: seq<Entry>, i: nat)
    ensures Placed(a + b, i) == Placed(a, i) + Placed(b, i) && CarriedBy(a + b, i) == CarriedBy(a, i) + CarriedBy(b, i)
  {
    if a == [] {
      assert a + b == b;
    } else {
      assert (a + b)[0] == a[0] && (a + b)[1..] == a[1..] + b;
      PlacedAppends(a[1..], b, i);
    }
  }

  lemma PlacedOne(e: Entry, i: nat)
    ensures Placed([e], i) == Placed1(e, i)
    ensures CarriedBy([e], i) == if e.Opened? && e.lot.id == LotId(i, true) then e.lot.qty else 0.0
  {
    assert [e][1..] == [];
  }

  lemma LeavesPlaced(i: nat, f: Fill, left: real, eps: real)
    ensures var es := Leaves(i, f, left, eps);
            && Placed(es, i) == (if SendsOut(f) || left <= eps then 0.0 else left)
            && CarriedBy(es, i) == (if IsRoll(f) && f.qty - left > eps then f.qty - left else 0.0)
  {
    hide FeeShare, IsDust, PerUnit, RollEntry, Placed, CarriedBy;
    var fee := FeeShare(f.commission, left, f.qty);
    if IsRoll(f) {
      var leg, lot := Opened(CarriedLot(i, f, f.roll.value, f.qty - left)), Opened(RollOpens(i, f, left));
      var own := if left > eps then [lot, Forgone(i, fee)] else [Rest(i, left, fee)];
      PlacedAppends(if f.qty - left > eps then [leg] else [], own, i);
      PlacedAppends([lot], [Forgone(i, fee)], i);
      assert [lot] + [Forgone(i, fee)] == [lot, Forgone(i, fee)];
      PlacedOne(leg, i);
      PlacedOne(lot, i);
      PlacedOne(Forgone(i, fee), i);
      PlacedOne(Rest(i, left, fee), i);
      PlacedNone(i);
    } else {
      PlacedOne(Leaves(i, f, left, eps)[0], i);
    }
  }

  lemma PlacedNone(i: nat)
    ensures Placed([], i) == 0.0 && CarriedBy([], i) == 0.0
  {
  }

  /** So every fill but a transfer out is placed to within the tolerance, and exactly where there is
      none: what it closed, opened, left unmatched and let go as dust is its quantity. A transfer
      out is never placed beyond it. And a roll carries forward what it closed, no more, no less. */
  lemma EveryFillIsPlaced(fills: seq<Fill>, pending: map<SplitKey, seq<Split>>, was: Replacements, eps: real, i: nat)
    requires Usable(fills) && i < |fills| && eps >= 0.0
    ensures var log, f := Final(fills, pending, was, eps).log, fills[i];
            && Placed(log, i) <= f.qty
            && (!SendsOut(f) ==> f.qty - eps <= Placed(log, i))
            && CarriedBy(log, i) == (if IsRoll(f) && ClosedBy(log, i).0 > eps then ClosedBy(log, i).0 else 0.0)
  {
    hide Final, Spent, MarksOf, SentBy, Leaves, ClosedBy, FeeShare, Placed, CarriedBy;
    var log, f := Final(fills, pending, was, eps).log, fills[i];
    EveryFillIsSpent(fills, pending, was, eps, i);
    PlacedParts(log, i);
    LeavesPlaced(i, f, f.qty - ClosedBy(log, i).0 - SentBy(log, i), eps);
  }

  /** The ways a lot's account changes, in total. */
  datatype Way = In | Sold | Out | Lost

  function Total(es: seq<Entry>, id: LotId, way: Way): Account {
    if es == [] then NOTHING
    else
      var rest := Total(es[1..], id, way);
      match es[0]
      case Opened(l) =>
        if way.In? && l.id == id
        then Account(rest.qty + l.qty, rest.cost + l.qty * l.price, rest.fee + l.commission) else rest
      case Closed(c) =>
        if way.Sold? && c.lot == id
        then Account(rest.qty + c.qty, rest.cost + c.qty * c.entryPrice, rest.fee + c.entryFee) else rest
      case Sent(i, _, q, p, f) =>
        if way.Out? && i == id then Account(rest.qty + q, rest.cost + q * p, rest.fee + f) else rest
      case Dropped(i, q, p, f) =>
        if way.Lost? && i == id then Account(rest.qty + q, rest.cost + q * p, rest.fee + f) else rest
      case _ => rest
  }

  /** Entry fees charged to slices and yet left on the lot. */
  function Overcharge(es: seq<Entry>, id: LotId): real {
    if es == [] then 0.0
    else (if es[0].Recharged? && es[0].id == id then es[0].fee else 0.0) + Overcharge(es[1..], id)
  }

  predicate Unsplit(es: seq<Entry>, id: LotId) {
    forall e :: e in es && e.Restated? ==> e.id != id
  }

  lemma {:induction false} FollowTotals(acc: Account, es: seq<Entry>, id: LotId)
    ensures var after := Follow(acc, es, id);
            var i, c, o, l := Total(es, id, In), Total(es, id, Sold), Total(es, id, Out), Total(es, id, Lost);
            && after.cost == acc.cost + i.cost - c.cost - o.cost - l.cost
            && after.fee == acc.fee + i.fee + Overcharge(es, id) - c.fee - o.fee - l.fee
    decreases es
  {
    if es != [] {
      FollowTotals(Follow1(acc, es[0], id), es[1..], id);
    }
  }

  lemma {:induction false} FollowUnits(acc: Account, es: seq<Entry>, id: LotId)
    requires Unsplit(es, id)
    ensures Follow(acc, es, id).qty
            == acc.qty + Total(es, id, In).qty - Total(es, id, Sold).qty - Total(es, id, Out).qty - Total(es, id,
                Lost).qty
    decreases es
  {
    if es != [] {
      assert es[0] in es;
      FollowUnits(Follow1(acc, es[0], id), es[1..], id);
    }
  }

  /** The entry side of the closed slices of a lot. */
  function SliceTotal(ss: seq<Slice>, id: LotId): Account {
    if ss == [] then NOTHING
    else
      var rest, c := SliceTotal(ss[1..], id), ss[0];
      if c.lot == id then Account(rest.qty + c.qty, rest.cost + c.qty * c.entryPrice, rest.fee + c.entryFee) else rest
  }

  lemma {:induction false} SoldIsSlices(es: seq<Entry>, id: LotId)
    ensures SliceTotal(Slices(es), id) == Total(es, id, Sold)
  {
    if es != [] {
      SoldIsSlices(es[1..], id);
      if es[0].Closed? {
        assert Slices(es)[0] == es[0].slice && Slices(es)[1..] == Slices(es[1..]);
      } else {
        assert Slices(es) == Slices(es[1..]);
      }
    }
  }

  /** Cost is conserved on every run: what a lot cost when opened is the entry cost of its
      slices, plus what was sent out at cost, plus what residue was forgotten, plus what is open. */
  lemma CostIsConserved(fills: seq<Fill>, pending: map<SplitKey, seq<Split>>, was: Replacements, eps: real, id: LotId)
    requires Usable(fills) && eps >= 0.0 && id.fill < |fills|
    ensures var s := Final(fills, pending, was, eps);
            Total(s.log, id, In).cost
            == SliceTotal(Slices(s.log), id).cost + Total(s.log, id, Out).cost + Total(s.log, id, Lost).cost
               + Held(On(s, Home(fills, id)), id).cost
  {
    hide Final, Follow, Held, Total, Drops;
    var s := Final(fills, pending, was, eps);
    EveryLotIsAccounted(fills, pending, was, eps, id);
    FollowTotals(NOTHING, s.log, id);
    SoldIsSlices(s.log, id);
  }

  /** Units, where no split restated the lot. */
  lemma UnitsAreConserved(fills: seq<Fill>, pending: map<SplitKey, seq<Split>>, was: Replacements, eps: real, id: LotId)
    requires Usable(fills) && eps >= 0.0 && id.fill < |fills|
    requires Unsplit(Final(fills, pending, was, eps).log, id)
    ensures var s := Final(fills, pending, was, eps);
            Total(s.log, id, In).qty
            == SliceTotal(Slices(s.log), id).qty + Total(s.log, id, Out).qty + Total(s.log, id, Lost).qty
               + Held(On(s, Home(fills, id)), id).qty
  {
    hide Final, Follow, Held, Total, Drops;
    var s := Final(fills, pending, was, eps);
    EveryLotIsAccounted(fills, pending, was, eps, id);
    FollowUnits(NOTHING, s.log, id);
    SoldIsSlices(s.log, id);
  }

  /** A lot's commission, and what was charged of it and yet left on it, are its slices' entry
      shares, what left with it and what it still carries. */
  lemma FeesButOvercharge(fills: seq<Fill>, pending: map<SplitKey, seq<Split>>, was: Replacements, eps: real, id: LotId)
    requires Usable(fills) && eps >= 0.0 && id.fill < |fills|
    ensures var s := Final(fills, pending, was, eps);
            Total(s.log, id, In).fee + Overcharge(s.log, id)
            == SliceTotal(Slices(s.log), id).fee + Total(s.log, id, Out).fee + Total(s.log, id, Lost).fee
               + Held(On(s, Home(fills, id)), id).fee
  {
    hide Final, Follow, Held, Total, Drops, Overcharge;
    var s := Final(fills, pending, was, eps);
    EveryLotIsAccounted(fills, pending, was, eps, id);
    FollowTotals(NOTHING, s.log, id);
    SoldIsSlices(s.log, id);
  }

  // ----- the positions shown

  lemma {:induction false} ShownLotsAre(lots: seq<Lot>, l: Lot)
    ensures l in ShownLots(lots) <==> l in lots && Shown(l)
  {
    if lots != [] {
      ShownLotsAre(lots[1..], l);
    }
  }

  lemma {:induction false} OpenLotsIn(s: State, ks: seq<BookKey>, l: Lot)
    ensures l in OpenLots(s, ks) <==> Shown(l) && exists k :: k in ks && l in On(s, Book(k))
    decreases ks
  {
    if ks != [] {
      OpenLotsIn(s, ks[1..], l);
      ShownLotsAre(On(s, Book(ks[0])), l);
    }
  }

  /** The open positions are the lots still in a book, residues aside. */
  lemma OpenLotsAreHeld(fills: seq<Fill>, pending: map<SplitKey, seq<Split>>, was: Replacements, eps: real, l: Lot)
    requires Usable(fills) && eps >= 0.0
    ensures var s := Final(fills, pending, was, eps);
            l in OpenLots(s, s.order) <==> Shown(l) && exists k :: l in On(s, Book(k))
  {
    hide Final, Inv, OpenLots, Shown;
    var s := Final(fills, pending, was, eps);
    FinalKeeps(fills, pending, was, eps);
    OpenLotsIn(s, s.order, l);
  }
}
