/** When, over a whole run with rolls, a lot's commission is charged once: exactly when no buy-back
    stops partway through it as an older contract of a rolled chain. */
module Overcharges {
  import opened Trading
  import opened Ledger
  import opened Lots
  import opened LotsProofs
  import opened Matching
  import opened Conservation
  import opened Runs
  import opened Settlement
  import opened Fees

  /** A pass over a queue stops partway through the lot, and it carries a commission. */
  predicate PartOf(lots: seq<Lot>, dir: Direction, left: real, mode: Mode, eps: real, id: LotId) {
    var p := InPart(lots, dir, left, mode, eps);
    p.Some? && p.value.id == id && p.value.commission != 0.0
  }

  predicate PartOlder(s: State, ks: seq<BookKey>, dir: Direction, n: nat, f: Fill, left: real, eps: real, id: LotId)
    decreases ks
  {
    ks != []
    && (PartOf(On(s, Book(ks[0])), dir, left, Older, eps, id)
        || var g := CloseOn(s, Book(ks[0]), dir, n, f, left, Older, eps);
           PartOlder(g.s, ks[1..], dir, n, f, g.left, eps, id))
  }

  predicate PartRolled(s: State, dir: Direction, n: nat, f: Fill, left: real, eps: real, id: LotId) {
    var g := CloseOn(TouchPool(s, f.Roll()), Carried(f.Roll(), dir), dir, n, f, left, Pooled, eps);
    g.left > eps && f.Roll() in g.s.rolledKeys && PartOlder(g.s, Olders(g.s.books, g.s.order, f), dir, n, f, g.left,
        eps, id)
  }

  /** Fill `n`, beyond its own book and the carried legs, buys back older contracts of its chain and
      stops partway through the lot. */
  predicate StopsPartway(s: State, n: nat, f: Fill, eps: real, id: LotId) {
    var s1 := ApplySplits(TouchBook(s, f.Key()), f.Key(), f.day);
    if IsRoll(f) then
      var x := f.(price := RollExit(f, f.roll.value));
      var g := CloseOn(s1, Book(f.Key()), f.Closing(), n, x, f.qty, Own, eps);
      PartRolled(g.s, f.roll.value, n, x, g.left, eps, id)
    else if f.transferOut then false
    else
      var g := CloseOn(s1, Book(f.Key()), f.Closing(), n, f, f.qty, Own, eps);
      g.left > eps && f.symbol.IsOption() && PartRolled(g.s, f.Closing(), n, f, g.left, eps, id)
  }

  // ----- every lot carries a commission of its fill's sign, and a carried leg none

  predicate SameSign(c: real, c0: real) {
    (c0 >= 0.0 ==> c >= 0.0) && (c0 <= 0.0 ==> c <= 0.0)
  }

  predicate LotSigned(l: Lot, at: Shelf, fills: seq<Fill>) {
    l.id.fill < |fills| && SameSign(l.commission, fills[l.id.fill].commission) && (at.Carried? ==> l.commission == 0.0)
  }

  ghost predicate AllSigned(lots: seq<Lot>, at: Shelf, fills: seq<Fill>) {
    forall i :: 0 <= i < |lots| ==> LotSigned(lots[i], at, fills)
  }

  ghost predicate Signed(s: State, fills: seq<Fill>) {
    forall at :: AllSigned(On(s, at), at, fills)
  }

  lemma ShareSign(c: real, part: real, whole: real)
    requires part >= 0.0
    ensures SameSign(FeeShare(c, part, whole), c)
  {
    if whole > 0.0 {
      var r := part / whole;
      assert r >= 0.0;
      ProductSign(c, r);
    }
  }

  lemma ProductSign(c: real, r: real)
    requires r >= 0.0
    ensures SameSign(c * r, c)
  {
  }

  lemma {:induction false} TakeSigned(lots: seq<Lot>, at: Shelf, fills: seq<Fill>, dir: Direction, x: Exit, n: nat,
      left: real, mode: Mode, eps: real)
    requires AllSigned(lots, at, fills) && Positive(lots) && eps >= 0.0 && left >= 0.0
    ensures AllSigned(Take(lots, dir, x, n, left, mode, eps).lots, at, fills)
    decreases |lots|
  {
    hide MatchEntries, FeeShare;
    if Takes(lots, dir, left, mode, eps) {
      var matched := Min(lots[0].qty, left);
      if lots[0].qty - matched <= eps {
        TakeSigned(lots[1..], at, fills, dir, x, n, left - matched, mode, eps);
      } else {
        ShareSign(lots[0].commission, lots[0].qty - matched, lots[0].qty);
        if at.Carried? {
          assert FeeShare(0.0, lots[0].qty - matched,
              lots[0].qty) == 0.0 by { NoShare(lots[0].qty - matched, lots[0].qty); }
        }
      }
    }
  }

  lemma NoShare(part: real, whole: real)
    ensures FeeShare(0.0, part, whole) == 0.0
  {
  }

  // ----- what a pass charges beyond the commission

  lemma {:induction false} OverAppends(a: seq<Entry>, b: seq<Entry>, id: LotId)
    ensures Overcharge(a + b, id) == Overcharge(a, id) + Overcharge(b, id)
  {
    if a == [] {
      assert a + b == b;
    } else {
      assert (a + b)[0] == a[0] && (a + b)[1..] == a[1..] + b;
      OverAppends(a[1..], b, id);
    }
  }

  lemma {:induction false} NoneOver(es: seq<Entry>, id: LotId)
    requires forall e :: e in es ==> !e.Recharged?
    ensures Overcharge(es, id) == 0.0
  {
    if es != [] {
      assert es[0] in es;
      NoneOver(es[1..], id);
    }
  }

  lemma MatchOver(lot: Lot, x: Exit, n: nat, matched: real, mode: Mode, eps: real, id: LotId)
    ensures Overcharge(MatchEntries(lot, x, n, matched, mode, eps), id)
            == if lot.qty - matched <= eps || mode.Scales() || lot.id != id then 0.0
               else FeeShare(lot.commission, matched, lot.qty)
  {
    hide FeeShare;
    var es := MatchEntries(lot, x, n, matched, mode, eps);
    if |es| == 1 {
      assert es[1..] == [];
    } else {
      assert es[1..] == [es[1]];
      assert [es[1]][1..] == [];
      assert Overcharge([es[1]], id) == if es[1].Recharged? && es[1].id == id then es[1].fee else 0.0;
    }
  }

  /** What a pass charges of the lot beyond its commission is of that commission's sign, and nothing
      if and only if it does not stop partway through it, carrying one. */
  lemma {:induction false} TakeOver(lots: seq<Lot>, at: Shelf, fills: seq<Fill>, dir: Direction, x: Exit, n: nat,
      left: real, mode: Mode, eps: real, id: LotId)
    requires AllSigned(lots, at, fills) && Positive(lots) && eps >= 0.0 && left >= 0.0 && id.fill < |fills|
    requires !mode.Scales()
    ensures var over := Overcharge(Take(lots, dir, x, n, left, mode, eps).entries, id);
            && SameSign(over, fills[id.fill].commission)
            && (over == 0.0 <==> !PartOf(lots, dir, left, mode, eps, id))
    decreases |lots|
  {
    hide MatchEntries, FeeShare, Overcharge;
    if !Takes(lots, dir, left, mode, eps) {
      NoneOver([], id);
    } else {
      var matched := Min(lots[0].qty, left);
      var es := MatchEntries(lots[0], x, n, matched, mode, eps);
      MatchOver(lots[0], x, n, matched, mode, eps, id);
      if lots[0].qty - matched <= eps {
        TakeOver(lots[1..], at, fills, dir, x, n, left - matched, mode, eps, id);
        OverAppends(es, Take(lots[1..], dir, x, n, left - matched, mode, eps).entries, id);
      } else {
        ShareIsZeroIff(lots[0].commission, matched, lots[0].qty);
        ShareSign(lots[0].commission, matched, lots[0].qty);
      }
    }
  }

  // ----- the closing operations

  /** From `s` to `s'` lots stay signed, and of lot `id` something is charged beyond its commission
      if and only if `hit`, and of that commission's sign. */
  ghost predicate Charges(s: State, s': State, fills: seq<Fill>, id: LotId, hit: bool)
    requires id.fill < |fills|
  {
    var over := Overcharge(s'.log, id) - Overcharge(s.log, id);
    Signed(s', fills) && SameSign(over, fills[id.fill].commission) && (over == 0.0 <==> !hit)
  }

  lemma ChargesThen(s: State, s': State, s'': State, fills: seq<Fill>, id: LotId, a: bool, b: bool)
    requires id.fill < |fills| && Charges(s, s', fills, id, a) && Charges(s', s'', fills, id, b)
    ensures Charges(s, s'', fills, id, a || b)
  {
    hide Overcharge;
  }

  lemma SameCharges(s: State, s': State, fills: seq<Fill>, id: LotId)
    requires id.fill < |fills| && Signed(s, fills) && s'.log == s.log && forall at :: On(s', at) == On(s, at)
    ensures Charges(s, s', fills, id, false)
  {
    hide Overcharge;
    forall at ensures AllSigned(On(s', at), at, fills) {
      assert AllSigned(On(s, at), at, fills);
    }
  }

  lemma PutCharges(s: State, at: Shelf, lots: seq<Lot>, es: seq<Entry>, fills: seq<Fill>, id: LotId, hit: bool)
    requires id.fill < |fills| && Signed(s, fills) && AllSigned(lots, at, fills)
    requires SameSign(Overcharge(es, id), fills[id.fill].commission) && (Overcharge(es, id) == 0.0 <==> !hit)
    ensures Charges(s, Put(s, at, lots, es), fills, id, hit)
  {
    hide Overcharge, LotSigned;
    OverAppends(s.log, es, id);
    forall other ensures AllSigned(On(Put(s, at, lots, es), other), other, fills) {
      OnPut(s, at, lots, es, other);
      assert AllSigned(On(s, other), other, fills);
    }
  }

  lemma CloseOnCharges(s: State, fills: seq<Fill>, bound: nat, at: Shelf, dir: Direction, n: nat, f: Fill,
      left: real, mode: Mode, eps: real, id: LotId)
    requires Inv(s, fills, bound, eps) && Signed(s, fills) && eps >= 0.0 && left >= 0.0 && id.fill < |fills|
    requires mode.Pooled? ==> at.Carried?
    ensures Charges(s, CloseOn(s, at, dir, n, f, left, mode, eps).s, fills, id,
        mode.Older? && PartOf(On(s, at), dir, left, mode, eps, id))
  {
    hide Take, Overcharge, Told, Lossless, LotSigned, PartOf;
    var lots, x := On(s, at), ExitOf(n, f);
    assert AllSigned(lots, at, fills) && Positive(lots);
    if Takes(lots, dir, left, mode, eps) {
      var t := Take(lots, dir, x, n, left, mode, eps);
      TakeSigned(lots, at, fills, dir, x, n, left, mode, eps);
      if mode.Scales() {
        TakeScaled(lots, dir, x, n, left, mode, eps);
        NoneOver(t.entries, id);
      } else {
        TakeOver(lots, at, fills, dir, x, n, left, mode, eps, id);
        PooledFree(lots, at, fills, dir, left, mode, eps, id);
      }
      PutCharges(s, at, t.lots, t.entries, fills, id, mode.Older? && PartOf(lots, dir, left, mode, eps, id));
    } else {
      SameCharges(s, s, fills, id);
      NoPart(lots, dir, left, mode, eps, id);
    }
  }

  lemma NoPart(lots: seq<Lot>, dir: Direction, left: real, mode: Mode, eps: real, id: LotId)
    requires !Takes(lots, dir, left, mode, eps)
    ensures !PartOf(lots, dir, left, mode, eps, id)
  {
  }

  lemma {:induction false} PooledFree(lots: seq<Lot>, at: Shelf, fills: seq<Fill>, dir: Direction, left: real,
      mode: Mode, eps: real, id: LotId)
    requires AllSigned(lots, at, fills)
    ensures at.Carried? ==> !PartOf(lots, dir, left, mode, eps, id)
    decreases |lots|
  {
    if Takes(lots, dir, left, mode, eps) {
      assert LotSigned(lots[0], at, fills);
      PooledFree(lots[1..], at, fills, dir, left - Min(lots[0].qty, left), mode, eps, id);
    }
  }

  lemma {:induction false} CloseOlderCharges(s: State, fills: seq<Fill>, bound: nat, ks: seq<BookKey>,
      dir: Direction, n: nat, f: Fill, left: real, eps: real, id: LotId)
    requires Inv(s, fills, bound, eps) && Signed(s, fills) && eps >= 0.0 && left >= 0.0 && id.fill < |fills|
    ensures Charges(s, CloseOlder(s, ks, dir, n, f, left, eps).s, fills, id, PartOlder(s, ks, dir, n, f, left, eps, id))
    decreases ks
  {
    hide Inv, CloseOn, Overcharge, PartOf, Charges;
    if ks == [] {
      SameCharges(s, s, fills, id);
    } else {
      CloseOnKeeps(s, fills, bound, Book(ks[0]), dir, n, f, left, Older, eps);
      CloseOnCharges(s, fills, bound, Book(ks[0]), dir, n, f, left, Older, eps, id);
      var g := CloseOn(s, Book(ks[0]), dir, n, f, left, Older, eps);
      ChargesSigned(s, g.s, fills, id, PartOf(On(s, Book(ks[0])), dir, left, Older, eps, id));
      CloseOlderCharges(g.s, fills, bound, ks[1..], dir, n, f, g.left, eps, id);
      ChargesThen(s, g.s, CloseOlder(g.s, ks[1..], dir, n, f, g.left, eps).s, fills, id,
                  PartOf(On(s, Book(ks[0])), dir, left, Older, eps, id), PartOlder(g.s, ks[1..], dir, n, f, g.left,
                      eps, id));
    }
  }

  lemma ChargesSigned(s: State, s': State, fills: seq<Fill>, id: LotId, hit: bool)
    requires id.fill < |fills| && Charges(s, s', fills, id, hit)
    ensures Signed(s', fills)
  {
  }

  lemma CloseRolledCharges(s: State, fills: seq<Fill>, bound: nat, dir: Direction, n: nat, f: Fill, left: real,
      eps: real, id: LotId)
    requires Inv(s, fills, bound, eps) && Signed(s, fills) && eps >= 0.0 && left >= 0.0 && id.fill < |fills|
    ensures Charges(s, CloseRolled(s, dir, n, f, left, eps).s, fills, id, PartRolled(s, dir, n, f, left, eps, id))
  {
    hide Inv, CloseOn, CloseOlder, Olders, PartOlder, PartOf, Charges;
    var s0, at := TouchPool(s, f.Roll()), Carried(f.Roll(), dir);
    SameLogKeeps(s, s0, fills, bound, eps);
    SameCharges(s, s0, fills, id);
    ChargesSigned(s, s0, fills, id, false);
    CloseOnKeeps(s0, fills, bound, at, dir, n, f, left, Pooled, eps);
    CloseOnCharges(s0, fills, bound, at, dir, n, f, left, Pooled, eps, id);
    var g := CloseOn(s0, at, dir, n, f, left, Pooled, eps);
    ChargesThen(s, s0, g.s, fills, id, false, false);
    ChargesSigned(s, g.s, fills, id, false);
    if g.left > eps && f.Roll() in g.s.rolledKeys {
      var ks := Olders(g.s.books, g.s.order, f);
      CloseOlderCharges(g.s, fills, bound, ks, dir, n, f, g.left, eps, id);
      ChargesThen(s, g.s, CloseOlder(g.s, ks, dir, n, f, g.left, eps).s, fills, id, false,
          PartOlder(g.s, ks, dir, n, f, g.left, eps, id));
    }
  }

  lemma {:induction false} CloseReplacedCharges(s: State, fills: seq<Fill>, bound: nat, ks: seq<BookKey>, n: nat,
      f: Fill, left: real, was: Replacements, eps: real, id: LotId)
    requires Inv(s, fills, bound, eps) && Signed(s, fills) && eps >= 0.0 && left >= 0.0 && id.fill < |fills|
    ensures Charges(s, CloseReplaced(s, ks, n, f, left, was, eps).s, fills, id, false)
    decreases ks
  {
    hide Inv, CloseOn, PartOf, Charges;
    SameCharges(s, s, fills, id);
    if ks != [] && left > eps {
      var k := ks[0];
      CloseOnKeeps(s, fills, bound, Book(k), f.Closing(), n, f, left, Renamed, eps);
      CloseOnCharges(s, fills, bound, Book(k), f.Closing(), n, f, left, Renamed, eps, id);
      var g :=
        if On(s, Book(k)) == [] || k == f.Key() || k.account != f.account || k.currency != f.currency
           || !was.Replaced(k, f.day)
        then Going(s, left)
        else CloseOn(s, Book(k), f.Closing(), n, f, left, Renamed, eps);
      ChargesSigned(s, g.s, fills, id, false);
      CloseReplacedCharges(g.s, fills, bound, ks[1..], n, f, g.left, was, eps, id);
      ChargesThen(s, g.s, CloseReplaced(g.s, ks[1..], n, f, g.left, was, eps).s, fills, id, false, false);
    }
  }

  /** What an ordinary fill's closing charges beyond commissions is what buying back older contracts does. */
  predicate PartOrdinary(s: State, n: nat, f: Fill, eps: real, id: LotId) {
    var g := CloseOn(s, Book(f.Key()), f.Closing(), n, f, f.qty, Own, eps);
    g.left > eps && f.symbol.IsOption() && PartRolled(g.s, f.Closing(), n, f, g.left, eps, id)
  }

  lemma CloseOrdinaryCharges(s: State, fills: seq<Fill>, bound: nat, n: nat, f: Fill, was: Replacements, eps: real,
      id: LotId)
    requires Inv(s, fills, bound, eps) && Signed(s, fills) && eps >= 0.0 && f.qty >= 0.0 && id.fill < |fills|
    ensures Charges(s, CloseOrdinary(s, n, f, was, eps).s, fills, id, PartOrdinary(s, n, f, eps, id))
  {
    hide Inv, CloseOn, CloseRolled, CloseReplaced, PartRolled, PartOf, Charges;
    var own, dir := Book(f.Key()), f.Closing();
    CloseOnKeeps(s, fills, bound, own, dir, n, f, f.qty, Own, eps);
    CloseOnCharges(s, fills, bound, own, dir, n, f, f.qty, Own, eps, id);
    var g1 := CloseOn(s, own, dir, n, f, f.qty, Own, eps);
    ChargesSigned(s, g1.s, fills, id, false);
    var hit := g1.left > eps && f.symbol.IsOption() && PartRolled(g1.s, dir, n, f, g1.left, eps, id);
    var g2 := if g1.left > eps && f.symbol.IsOption() then CloseRolled(g1.s, dir, n, f, g1.left, eps) else g1;
    CloseRolledKeeps(g1.s, fills, bound, dir, n, f, g1.left, eps);
    CloseRolledCharges(g1.s, fills, bound, dir, n, f, g1.left, eps, id);
    if g1.left > eps && f.symbol.IsOption() {
      ChargesThen(s, g1.s, g2.s, fills, id, false, hit);
    }
    ChargesSigned(s, g2.s, fills, id, hit);
    CloseReplacedCharges(g2.s, fills, bound, g2.s.order, n, f, g2.left, was, eps, id);
    ChargesThen(s, g2.s, CloseReplaced(g2.s, g2.s.order, n, f, g2.left, was, eps).s, fills, id, hit, false);
  }

  predicate PartRoll(s: State, n: nat, f: Fill, d: Direction, eps: real, id: LotId) {
    var x := f.(price := RollExit(f, d));
    var g := CloseOn(s, Book(f.Key()), f.Closing(), n, x, f.qty, Own, eps);
    PartRolled(g.s, d, n, x, g.left, eps, id)
  }

  lemma CloseRollCharges(s: State, fills: seq<Fill>, bound: nat, n: nat, f: Fill, d: Direction, eps: real, id: LotId)
    requires Inv(s, fills, bound, eps) && Signed(s, fills) && eps >= 0.0 && f.qty >= 0.0 && id.fill < |fills|
    ensures Charges(s, CloseRoll(s, n, f, d, eps).s, fills, id, PartRoll(s, n, f, d, eps, id))
  {
    hide Inv, CloseOn, CloseRolled, PartRolled, PartOf, Charges;
    var x, own := f.(price := RollExit(f, d)), Book(f.Key());
    CloseOnKeeps(s, fills, bound, own, f.Closing(), n, x, f.qty, Own, eps);
    CloseOnCharges(s, fills, bound, own, f.Closing(), n, x, f.qty, Own, eps, id);
    var g := CloseOn(s, own, f.Closing(), n, x, f.qty, Own, eps);
    ChargesSigned(s, g.s, fills, id, false);
    CloseRolledCharges(g.s, fills, bound, d, n, x, g.left, eps, id);
    ChargesThen(s, g.s, CloseRolled(g.s, d, n, x, g.left, eps).s, fills, id, false,
        PartRolled(g.s, d, n, x, g.left, eps, id));
  }

  // ----- splits, openings, and one fill

  lemma {:induction false} RestateSigned(lots: seq<Lot>, factor: Ratio, at: Shelf, fills: seq<Fill>)
    requires AllSigned(lots, at, fills)
    ensures AllSigned(Restate(lots, factor), at, fills) && forall e :: e in RestateEntries(lots, factor) ==>
              !e.Recharged?
  {
    if lots != [] {
      assert LotSigned(lots[0], at, fills);
      RestateSigned(lots[1..], factor, at, fills);
    }
  }

  lemma {:induction false} SplitBookCharges(s: State, fills: seq<Fill>, k: BookKey, todo: seq<Split>, day: int,
      id: LotId)
    requires Signed(s, fills) && id.fill < |fills|
    ensures Charges(s, SplitBook(s, k, todo, day), fills, id, false)
    decreases todo
  {
    hide Restate, RestateEntries, Charges, LotSigned;
    if todo == [] {
      SameCharges(s, s, fills, id);
    } else {
      var lots := On(s, Book(k));
      if todo[0].day <= day && k in s.books {
        var next, es := Restate(lots, todo[0].factor), RestateEntries(lots, todo[0].factor);
        assert AllSigned(lots, Book(k), fills);
        RestateSigned(lots, todo[0].factor, Book(k), fills);
        NoneOver(es, id);
        PutCharges(s, Book(k), next, es, fills, id, false);
        var s1 := Put(s, Book(k), next, es);
        ChargesSigned(s, s1, fills, id, false);
        SplitBookCharges(s1, fills, k, todo[1..], day, id);
        ChargesThen(s, s1, SplitBook(s1, k, todo[1..], day), fills, id, false, false);
      } else {
        SplitBookCharges(s, fills, k, todo[1..], day, id);
      }
    }
  }

  lemma ApplySplitsCharges(s: State, fills: seq<Fill>, k: BookKey, day: int, id: LotId)
    requires Signed(s, fills) && id.fill < |fills|
    ensures Charges(s, ApplySplits(s, k, day), fills, id, false)
  {
    hide SplitBook, Charges, Signed;
    var sk := SplitKeyOf(k);
    SameCharges(s, s, fills, id);
    if sk in s.pending {
      var done := SplitBook(s, k, SortSplits(s.pending[sk]), day);
      SplitBookCharges(s, fills, k, SortSplits(s.pending[sk]), day, id);
      ChargesSigned(s, done, fills, id, false);
      SameCharges(done, ApplySplits(s, k, day), fills, id);
      ChargesThen(s, done, ApplySplits(s, k, day), fills, id, false, false);
    }
  }

  lemma OpenCharges(s: State, fills: seq<Fill>, at: Shelf, lot: Lot, id: LotId)
    requires Signed(s, fills) && id.fill < |fills| && LotSigned(lot, at, fills)
    ensures Charges(s, OpenLot(s, at, lot), fills, id, false)
  {
    hide Charges, LotSigned;
    assert AllSigned(On(s, at), at, fills);
    NoneOver([Opened(lot)], id);
    PutCharges(s, at, On(s, at) + [lot], [Opened(lot)], fills, id, false);
  }

  lemma NoteCharges(s: State, fills: seq<Fill>, e: Entry, id: LotId)
    requires Signed(s, fills) && id.fill < |fills| && !e.Recharged?
    ensures Charges(s, Note(s, e), fills, id, false)
  {
    hide LotSigned;
    OverAppends(s.log, [e], id);
    NoneOver([e], id);
    forall at ensures AllSigned(On(Note(s, e), at), at, fills) {
      assert AllSigned(On(s, at), at, fills);
    }
  }

  lemma SettleCharges(g: Going, fills: seq<Fill>, n: nat, eps: real, id: LotId)
    requires n < |fills| && Signed(g.s, fills) && id.fill < |fills| && g.left >= 0.0
    ensures Charges(g.s, Settle(g, n, fills[n], eps), fills, id, false)
  {
    hide FeeShare, IsDust, Charges, Signed;
    var f := fills[n];
    var fee := FeeShare(f.commission, g.left, f.qty);
    if g.left > eps && f.Opening().Some? {
      ShareSign(f.commission, g.left, f.qty);
      OpenCharges(g.s, fills, Book(f.Key()), NewLot(n, f, g.left, f.Opening().value), id);
    } else {
      NoteCharges(g.s, fills, Rest(n, g.left, fee), id);
      NoteCharges(g.s, fills, Dust(n, g.left, fee), id);
      NoteCharges(g.s, fills, Unmatched(Orphan(n, f.side, g.left, f.price), fee), id);
    }
  }

  lemma SettleRollCharges(g: Going, fills: seq<Fill>, n: nat, d: Direction, eps: real, id: LotId)
    requires n < |fills| && Signed(g.s, fills) && id.fill < |fills|
    ensures Charges(g.s, SettleRoll(g, n, fills[n], d, eps), fills, id, false)
  {
    hide FeeShare, PerUnit, RollEntry, Charges, Signed;
    var f := fills[n];
    var fee := FeeShare(f.commission, g.left, f.qty);
    var s1 := g.s.(rolledKeys := g.s.rolledKeys + {f.Roll()});
    SameCharges(g.s, s1, fills, id);
    ChargesSigned(g.s, s1, fills, id, false);
    var s2 := CarryRoll(g, n, f, d, eps);
    if f.qty - g.left > eps {
      OpenCharges(s1, fills, Carried(f.Roll(), d), CarriedLot(n, f, d, f.qty - g.left), id);
      ChargesThen(g.s, s1, s2, fills, id, false, false);
    }
    ChargesSigned(g.s, s2, fills, id, false);
    if g.left > eps {
      var s3 := OpenLot(s2, Book(f.Key()), RollOpens(n, f, g.left));
      OpenCharges(s2, fills, Book(f.Key()), RollOpens(n, f, g.left), id);
      ChargesSigned(s2, s3, fills, id, false);
      NoteCharges(s3, fills, Forgone(n, fee), id);
      ChargesThen(g.s, s2, s3, fills, id, false, false);
      ChargesThen(g.s, s3, Note(s3, Forgone(n, fee)), fills, id, false, false);
    } else {
      NoteCharges(s2, fills, Rest(n, g.left, fee), id);
      ChargesThen(g.s, s2, Note(s2, Rest(n, g.left, fee)), fills, id, false, false);
    }
  }

  lemma SendOutCharges(s: State, fills: seq<Fill>, n: nat, f: Fill, eps: real, id: LotId)
    requires Inv(s, fills, 2 * n, eps) && Signed(s, fills) && eps >= 0.0 && f.qty >= 0.0 && id.fill < |fills|
    ensures Charges(s, SendOut(s, n, f, eps), fills, id, false)
  {
    hide Inv, CloseOn, Charges;
    var g := CloseOn(s, Book(f.Key()), Long, n, f, f.qty, Outward, eps);
    CloseOnCharges(s, fills, 2 * n, Book(f.Key()), Long, n, f, f.qty, Outward, eps, id);
    ChargesSigned(s, g.s, fills, id, false);
    NoteCharges(g.s, fills, Excess(n, g.left, 0.0), id);
    ChargesThen(s, g.s, SendOut(s, n, f, eps), fills, id, false, false);
  }

  lemma StepCharges(s: State, fills: seq<Fill>, n: nat, was: Replacements, eps: real, id: LotId)
    requires n < |fills| && Inv(s, fills, 2 * n, eps) && Signed(s, fills) && eps >= 0.0 && fills[n].qty >= 0.0
    requires id.fill < |fills|
    ensures Charges(s, Step(s, n, fills[n], was, eps), fills, id, StopsPartway(s, n, fills[n], eps, id))
  {
    hide Inv, ApplySplits, CloseOrdinary, CloseRoll, CloseOn, SendOut, Settle, SettleRoll, PartRolled, Charges, Signed;
    var f := fills[n];
    var s0 := TouchBook(s, f.Key());
    var s1 := ApplySplits(s0, f.Key(), f.day);
    SameLogKeeps(s, s0, fills, 2 * n, eps);
    ApplySplitsKeeps(s0, fills, 2 * n, f.Key(), f.day, eps);
    SameCharges(s, s0, fills, id);
    ChargesSigned(s, s0, fills, id, false);
    ApplySplitsCharges(s0, fills, f.Key(), f.day, id);
    ChargesThen(s, s0, s1, fills, id, false, false);
    ChargesSigned(s, s1, fills, id, false);
    if IsRoll(f) {
      var d := f.roll.value;
      var g := CloseRoll(s1, n, f, d, eps);
      CloseRollCharges(s1, fills, 2 * n, n, f, d, eps, id);
      ChargesSigned(s1, g.s, fills, id, PartRoll(s1, n, f, d, eps, id));
      SettleRollCharges(g, fills, n, d, eps, id);
      ChargesThen(s, s1, g.s, fills, id, false, PartRoll(s1, n, f, d, eps, id));
      ChargesThen(s, g.s, SettleRoll(g, n, f, d, eps), fills, id, PartRoll(s1, n, f, d, eps, id), false);
    } else if f.transferOut {
      SendOutCharges(s1, fills, n, f, eps, id);
      ChargesThen(s, s1, SendOut(s1, n, f, eps), fills, id, false, false);
    } else {
      var g := CloseOrdinary(s1, n, f, was, eps);
      CloseOrdinaryKeeps(s1, fills, 2 * n, n, f, was, eps);
      CloseOrdinaryCharges(s1, fills, 2 * n, n, f, was, eps, id);
      ChargesSigned(s1, g.s, fills, id, PartOrdinary(s1, n, f, eps, id));
      SettleCharges(g, fills, n, eps, id);
      ChargesThen(s, s1, g.s, fills, id, false, PartOrdinary(s1, n, f, eps, id));
      ChargesThen(s, g.s, Settle(g, n, f, eps), fills, id, PartOrdinary(s1, n, f, eps, id), false);
    }
  }

  // ----- whole runs

  /** Some fill of the first `k` stops partway through the lot. */
  ghost predicate StopsWithin(fills: seq<Fill>, k: nat, pending: map<SplitKey, seq<Split>>, was: Replacements,
      eps: real, id: LotId)
    requires k <= |fills|
  {
    exists n: nat :: n < k && StopsPartway(Run(fills, n, pending, was, eps), n, fills[n], eps, id)
  }

  lemma {:induction false} RunCharges(fills: seq<Fill>, k: nat, pending: map<SplitKey, seq<Split>>,
      was: Replacements, eps: real, id: LotId)
    requires k <= |fills| && Usable(fills) && eps >= 0.0 && id.fill < |fills|
    ensures Charges(Start(pending), Run(fills, k, pending, was, eps), fills, id,
        StopsWithin(fills, k, pending, was, eps, id))
  {
    hide Step, Inv, Ordered, StopsPartway, Charges;
    if k == 0 {
      StartCharges(fills, pending, id);
    } else {
      var s := Run(fills, k - 1, pending, was, eps);
      RunCharges(fills, k - 1, pending, was, eps, id);
      RunKeeps(fills, k - 1, pending, was, eps);
      ChargesSigned(Start(pending), s, fills, id, StopsWithin(fills, k - 1, pending, was, eps, id));
      StepCharges(s, fills, k - 1, was, eps, id);
      ChargesThen(Start(pending), s, Run(fills, k, pending, was, eps), fills, id,
                  StopsWithin(fills, k - 1, pending, was, eps, id), StopsPartway(s, k - 1, fills[k - 1], eps, id));
    }
  }

  lemma StartCharges(fills: seq<Fill>, pending: map<SplitKey, seq<Split>>, id: LotId)
    requires id.fill < |fills|
    ensures Charges(Start(pending), Start(pending), fills, id, false)
  {
  }

  lemma {:induction false} SplitAllOver(s: State, ks: seq<BookKey>, fills: seq<Fill>, id: LotId)
    requires Signed(s, fills) && id.fill < |fills|
    ensures Overcharge(SplitAll(s, ks).log, id) == Overcharge(s.log, id)
    decreases ks
  {
    hide ApplySplits, Overcharge, Signed;
    if ks != [] {
      ApplySplitsCharges(s, fills, ks[0], FAR_DAY, id);
      SplitAllOver(ApplySplits(s, ks[0], FAR_DAY), ks[1..], fills, id);
    }
  }

  lemma {:induction false} RollOutOver(lots: seq<Lot>, eps: real)
    ensures forall e :: e in RollOut(lots, eps) ==> !e.Recharged?
  {
    hide MakeSlice;
    if lots != [] {
      RollOutOver(lots[1..], eps);
    }
  }

  lemma {:induction false} RollOutAllOver(s: State, rs: seq<RollKey>, eps: real, id: LotId)
    ensures Overcharge(RollOutAll(s, rs, eps).log, id) == Overcharge(s.log, id)
    decreases rs
  {
    hide RollOut, Overcharge;
    if rs != [] {
      var s1 := RollOutOn(s, Carried(rs[0], Long), eps);
      var s2 := RollOutOn(s1, Carried(rs[0], Short), eps);
      RollOutOnOver(s, Carried(rs[0], Long), eps, id);
      RollOutOnOver(s1, Carried(rs[0], Short), eps, id);
      RollOutAllOver(s2, rs[1..], eps, id);
    }
  }

  lemma RollOutOnOver(s: State, at: Shelf, eps: real, id: LotId)
    ensures Overcharge(RollOutOn(s, at, eps).log, id) == Overcharge(s.log, id)
  {
    hide RollOut, Overcharge;
    var es := RollOut(On(s, at), eps);
    RollOutOver(On(s, at), eps);
    NoneOver(es, id);
    OverAppends(s.log, es, id);
  }

  /** Over every run, rolls included: a lot's commission is its slices' entry shares, what left with
      it and what it still carries, if and only if no fill of the run buys back older contracts of
      its chain and stops partway through this lot while it carries a commission. */
  lemma FeesConservedIff(fills: seq<Fill>, pending: map<SplitKey, seq<Split>>, was: Replacements, eps: real, id: LotId)
    requires Usable(fills) && eps >= 0.0 && id.fill < |fills|
    ensures var s := Final(fills, pending, was, eps);
            (Total(s.log, id, In).fee
             == SliceTotal(Slices(s.log), id).fee + Total(s.log, id, Out).fee + Total(s.log, id, Lost).fee
                + Held(On(s, Home(fills, id)), id).fee)
            <==> forall n: nat :: n < |fills| ==> !StopsPartway(Run(fills, n, pending, was, eps), n, fills[n], eps, id)
  {
    hide Run, SplitAll, RollOutAll, Overcharge, Total, Held, SliceTotal, StopsPartway, Signed;
    var s0 := Run(fills, |fills|, pending, was, eps);
    FeesButOvercharge(fills, pending, was, eps, id);
    RunCharges(fills, |fills|, pending, was, eps, id);
    SplitAllOver(s0, s0.order, fills, id);
    RollOutAllOver(SplitAll(s0, s0.order), s0.poolOrder, eps, id);
    NothingOver(pending, id);
  }

  lemma NothingOver(pending: map<SplitKey, seq<Split>>, id: LotId)
    ensures Overcharge(Start(pending).log, id) == 0.0
  {
  }
}
