/** Closing against a queue of lots, first in first out: the loop the matcher runs over a
    book, over the legs a roll carried forward, over a chain's older contracts, over a
    replaced ticker's book, and for coins sent out. */
module Lots {
  import opened Trading
  import opened Ledger

  /** Which of the five loops. */
  datatype Mode = Own | Renamed | Pooled | Older | Outward {
    /** Whether a partial close scales the commission left on the lot. */
    predicate Scales() {
      Own? || Renamed? || Outward?
    }
  }

  /** What closes: a fill by its place in the run, or nothing posted at all. */
  datatype Exit = Exit(no: Option<nat>, qty: real, price: real, commission: real, day: int, symbol: Symbol)

  function ExitOf(n: nat, f: Fill): Exit {
    Exit(Some(n), f.qty, f.price, f.commission, f.day, f.symbol)
  }

  /** The share of `fee` that `part` of `whole` bears. */
  function FeeShare(fee: real, part: real, whole: real): real {
    if whole > 0.0 then fee * (part / whole) else 0.0
  }

  function MakeSlice(lot: Lot, x: Exit, matched: real, mode: Mode): Slice {
    var sym := if mode.Own? then lot.symbol else x.symbol;
    var entryFee := FeeShare(lot.commission, matched, lot.qty);
    var exitFee := FeeShare(x.commission, matched, x.qty);
    var gain := if lot.direction.Long? then x.price - lot.price else lot.price - x.price;
    var raw := gain * matched * sym.Multiplier();
    Slice(lot.id, x.no, sym, lot.direction, matched, lot.price, x.price, lot.day, x.day, entryFee, exitFee,
        raw - (entryFee + exitFee))
  }

  /** The lot after `matched` of it is gone. */
  function Remainder(lot: Lot, matched: real, mode: Mode, symbol: Symbol): Lot {
    var fee := if mode.Scales() then FeeShare(lot.commission, lot.qty - matched, lot.qty) else lot.commission;
    lot.(qty := lot.qty - matched, commission := fee, symbol := if mode.Pooled? then symbol else lot.symbol)
  }

  /** The match itself in the history. */
  function MatchEntry(lot: Lot, x: Exit, n: nat, matched: real, mode: Mode): Entry {
    if mode.Outward? then Sent(lot.id, n, matched, lot.price, FeeShare(lot.commission, matched, lot.qty))
    else Closed(MakeSlice(lot, x, matched, mode))
  }

  /** The history of one match: the slice (or what was sent out), and the residue forgotten
      or the fee that stays on the lot although charged. */
  function MatchEntries(lot: Lot, x: Exit, n: nat, matched: real, mode: Mode, eps: real): seq<Entry> {
    var fee := FeeShare(lot.commission, matched, lot.qty);
    var first := MatchEntry(lot, x, n, matched, mode);
    if lot.qty - matched <= eps then
      [first, Dropped(lot.id, lot.qty - matched, lot.price, lot.commission - fee)]
    else if mode.Scales() then [first]
    else [first, Recharged(lot.id, fee)]
  }

  datatype Taken = Taken(lots: seq<Lot>, entries: seq<Entry>, left: real)

  /** Whether the loop goes on to the first lot. */
  predicate Takes(lots: seq<Lot>, dir: Direction, left: real, mode: Mode, eps: real) {
    left > eps && lots != [] && (mode.Pooled? || lots[0].direction == dir)
  }

  /** What fill `n`, leaving as `x`, takes off `lots` from the front. */
  function Take(lots: seq<Lot>, dir: Direction, x: Exit, n: nat, left: real, mode: Mode, eps: real): Taken
    decreases |lots|
  {
    if !Takes(lots, dir, left, mode, eps) then Taken(lots, [], left)
    else
      var matched := Min(lots[0].qty, left);
      var es := MatchEntries(lots[0], x, n, matched, mode, eps);
      if lots[0].qty - matched <= eps then
        var rest := Take(lots[1..], dir, x, n, left - matched, mode, eps);
        Taken(rest.lots, es + rest.entries, rest.left)
      else
        Taken([Remainder(lots[0], matched, mode, x.symbol)] + lots[1..], es, left - matched)
  }

  // ----- what a queue of lots holds

  function AccountOf(lot: Lot): Account {
    Account(lot.qty, lot.qty * lot.price, lot.commission)
  }

  function Held(lots: seq<Lot>, id: LotId): Account {
    if lots == [] then NOTHING
    else if lots[0].id == id then AccountOf(lots[0])
    else Held(lots[1..], id)
  }

  predicate Has(lots: seq<Lot>, id: LotId) {
    exists i :: 0 <= i < |lots| && lots[i].id == id
  }

  /** No two lots of a queue are the same lot. */
  ghost predicate Distinct(lots: seq<Lot>) {
    forall i, j :: 0 <= i < j < |lots| ==> lots[i].id != lots[j].id
  }

  ghost predicate Positive(lots: seq<Lot>) {
    forall i :: 0 <= i < |lots| ==> lots[i].qty > 0.0
  }

  /** Units a queue holds in one direction. */
  function OpenQty(lots: seq<Lot>, dir: Direction): real {
    if lots == [] then 0.0
    else (if lots[0].direction == dir then lots[0].qty else 0.0) + OpenQty(lots[1..], dir)
  }

  lemma {:induction false} HeldMissing(lots: seq<Lot>, id: LotId)
    requires !Has(lots, id)
    ensures Held(lots, id) == NOTHING
  {
    if lots != [] {
      assert lots[0].id != id;
      forall i | 0 <= i < |lots[1..]| ensures lots[1..][i].id != id {
        assert lots[1..][i] == lots[i + 1];
      }
      HeldMissing(lots[1..], id);
    }
  }

  lemma {:induction false} HeldFound(lots: seq<Lot>, i: nat)
    requires i < |lots| && Distinct(lots)
    ensures Held(lots, lots[i].id) == AccountOf(lots[i])
  {
    if i > 0 {
      assert lots[0].id != lots[i].id;
      HeldFound(lots[1..], i - 1);
    }
  }

  lemma {:induction false} HeldAppended(lots: seq<Lot>, lot: Lot, id: LotId)
    requires !Has(lots, lot.id)
    ensures Held(lots + [lot], id) == if id == lot.id then AccountOf(lot) else Held(lots, id)
  {
    if lots == [] {
      assert lots + [lot] == [lot];
    } else {
      assert (lots + [lot])[0] == lots[0] && (lots + [lot])[1..] == lots[1..] + [lot];
      forall i | 0 <= i < |lots[1..]| ensures lots[1..][i].id != lot.id {
        assert lots[1..][i] == lots[i + 1];
      }
      assert lots[0].id != lot.id;
      HeldAppended(lots[1..], lot, id);
    }
  }

  // ----- one queue changes faithfully

  /** The history `es` tells exactly how `before` became `after`: every lot's account
      follows, no other lot is named, no lot appears that was not there, what is left is
      still a queue of distinct lots holding something, and a residue is forgotten only of a
      lot that goes, once, and within the tolerance. */
  ghost predicate Faithful(before: seq<Lot>, es: seq<Entry>, after: seq<Lot>, eps: real) {
    && (forall id :: Follow(Held(before, id), es, id) == Held(after, id))
    && (forall id :: Drops(es, id) + Count(after, id) <= Count(before, id))
    && Within(before, es, after)
    && Distinct(after) && Positive(after) && Small(es, eps)
  }

  ghost predicate Within(before: seq<Lot>, es: seq<Entry>, after: seq<Lot>) {
    && (forall e, id :: e in es && LotOf(e) == Some(id) ==> Has(before, id))
    && (forall j :: 0 <= j < |after| ==> Has(before, after[j].id))
  }

  function Count(lots: seq<Lot>, id: LotId): nat {
    if Has(lots, id) then 1 else 0
  }

  lemma FeeSplits(c: real, m: real, q: real)
    requires q > 0.0
    ensures FeeShare(c, m, q) + FeeShare(c, q - m, q) == c
  {
    assert m / q + (q - m) / q == 1.0;
    assert c * (m / q) + c * ((q - m) / q) == c * (m / q + (q - m) / q);
  }

  lemma FeeAdds(c: real, a: real, b: real, total: real, q: real)
    requires a + b == total
    ensures FeeShare(c, a, q) + FeeShare(c, b, q) == FeeShare(c, total, q)
  {
    if q > 0.0 {
      assert c * (a / q) + c * (b / q) == c * (a / q + b / q);
      assert a / q + b / q == total / q;
    }
  }

  lemma CostSplits(q: real, m: real, p: real)
    ensures q * p - m * p == (q - m) * p
  {
  }

  lemma TimesOne(c: real, one: real)
    requires one == 1.0
    ensures c * one == c
  {
  }

  lemma FeeWhole(c: real, q: real)
    requires q > 0.0
    ensures FeeShare(c, q, q) == c
  {
    TimesOne(c, q / q);
  }

  /** What a match takes off the lot's account. */
  lemma MatchTakes(lot: Lot, x: Exit, n: nat, matched: real, mode: Mode)
    ensures Follow1(AccountOf(lot), MatchEntry(lot, x, n, matched, mode), lot.id)
            == Account(lot.qty - matched, (lot.qty - matched) * lot.price,
                lot.commission - FeeShare(lot.commission, matched, lot.qty))
  {
    CostSplits(lot.qty, matched, lot.price);
  }

  lemma FollowOne(acc: Account, e: Entry, id: LotId)
    ensures Follow(acc, [e], id) == Follow1(acc, e, id)
  {
    assert [e][1..] == [];
  }

  lemma FollowTwo(acc: Account, e: Entry, e': Entry, id: LotId)
    ensures Follow(acc, [e, e'], id) == Follow1(Follow1(acc, e, id), e', id)
  {
    assert [e, e'][1..] == [e'];
    FollowOne(Follow1(acc, e, id), e', id);
  }

  lemma DropEmpties(left: real, price: real, fee: real, id: LotId)
    ensures Follow1(Account(left, left * price, fee), Dropped(id, left, price, fee), id) == NOTHING
  {
  }

  lemma RemainderAccount(lot: Lot, matched: real, mode: Mode, symbol: Symbol)
    requires lot.qty > 0.0
    ensures AccountOf(Remainder(lot, matched, mode, symbol))
            == Account(lot.qty - matched, (lot.qty - matched) * lot.price,
                       if mode.Scales() then lot.commission - FeeShare(lot.commission, matched, lot.qty)
                       else lot.commission)
  {
    FeeSplits(lot.commission, matched, lot.qty);
  }

  lemma Recharges(left: real, cost: real, c: real, fee: real, id: LotId)
    ensures Follow1(Account(left, cost, c - fee), Recharged(id, fee), id) == Account(left, cost, c)
  {
  }

  /** One match: what the history says of the lot is what remains of it. */
  lemma MatchFollows(lot: Lot, x: Exit, n: nat, matched: real, mode: Mode, eps: real)
    requires lot.qty > 0.0
    ensures Follow(AccountOf(lot), MatchEntries(lot, x, n, matched, mode, eps), lot.id)
            == if lot.qty - matched <= eps then NOTHING else AccountOf(Remainder(lot, matched, mode, x.symbol))
  {
    hide FeeShare, MatchEntry, AccountOf, Remainder;
    var first := MatchEntry(lot, x, n, matched, mode);
    var fee := FeeShare(lot.commission, matched, lot.qty);
    var left := lot.qty - matched;
    var cost := left * lot.price;
    MatchTakes(lot, x, n, matched, mode);
    RemainderAccount(lot, matched, mode, x.symbol);
    DropEmpties(left, lot.price, lot.commission - fee, lot.id);
    Recharges(left, cost, lot.commission, fee, lot.id);
    FollowOne(AccountOf(lot), first, lot.id);
    FollowTwo(AccountOf(lot), first, Dropped(lot.id, left, lot.price, lot.commission - fee), lot.id);
    FollowTwo(AccountOf(lot), first, Recharged(lot.id, fee), lot.id);
  }
}
