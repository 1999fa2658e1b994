/** When a lot's commission is charged exactly once: always on runs without rolls, and with
    them except where an older contract is closed in part. */
module Fees {
  import opened Trading
  import opened Ledger
  import opened Lots
  import opened LotsProofs
  import opened Matching
  import opened Conservation
  import opened Runs
  import opened Settlement

  ghost predicate NoRolls(fills: seq<Fill>) {
    forall i :: 0 <= i < |fills| ==> !IsRoll(fills[i])
  }

  /** Nothing was ever carried forward, charged twice or forgone. */
  ghost predicate Unrolled(s: State) {
    && s.rolledKeys == {}
    && (forall r, d :: On(s, Carried(r, d)) == [])
    && PlainLog(s.log)
  }

  ghost predicate PlainLog(es: seq<Entry>) {
    forall e :: e in es ==> !e.Recharged? && !e.Forgone?
  }

  lemma {:induction false} TakeScaled(lots: seq<Lot>, dir: Direction, x: Exit, n: nat, left: real, mode: Mode,
      eps: real)
    requires mode.Scales()
    ensures PlainLog(Take(lots, dir, x, n, left, mode, eps).entries)
    decreases |lots|
  {
    hide FeeShare;
    if Takes(lots, dir, left, mode, eps) {
      var matched := Min(lots[0].qty, left);
      if lots[0].qty - matched <= eps {
        TakeScaled(lots[1..], dir, x, n, left - matched, mode, eps);
      }
    }
  }

  lemma PutPlain(s: State, k: BookKey, lots: seq<Lot>, es: seq<Entry>)
    requires Unrolled(s) && PlainLog(es)
    ensures Unrolled(Put(s, Book(k), lots, es))
  {
    forall r, d ensures On(Put(s, Book(k), lots, es), Carried(r, d)) == [] {
      assert On(s, Carried(r, d)) == [];
    }
  }

  lemma CloseOnPlain(s: State, k: BookKey, dir: Direction, n: nat, f: Fill, left: real, mode: Mode, eps: real)
    requires Unrolled(s) && mode.Scales()
    ensures Unrolled(CloseOn(s, Book(k), dir, n, f, left, mode, eps).s)
  {
    hide Take, Unrolled;
    if Takes(On(s, Book(k)), dir, left, mode, eps) {
      var t := Take(On(s, Book(k)), dir, ExitOf(n, f), n, left, mode, eps);
      TakeScaled(On(s, Book(k)), dir, ExitOf(n, f), n, left, mode, eps);
      PutPlain(s, k, t.lots, t.entries);
    }
  }

  /** With nothing carried forward, a chain's older contracts are never touched. */
  lemma CloseRolledPlain(s: State, dir: Direction, n: nat, f: Fill, left: real, eps: real)
    requires Unrolled(s)
    ensures CloseRolled(s, dir, n, f, left, eps) == Going(TouchPool(s, f.Roll()), left)
    ensures Unrolled(TouchPool(s, f.Roll()))
  {
    var s0 := TouchPool(s, f.Roll());
    forall r, d ensures On(s0, Carried(r, d)) == [] {
      assert On(s, Carried(r, d)) == [];
    }
    assert On(s0, Carried(f.Roll(), dir)) == [];
  }

  lemma {:induction false} CloseReplacedPlain(s: State, ks: seq<BookKey>, n: nat, f: Fill, left: real,
      was: Replacements, eps: real)
    requires Unrolled(s)
    ensures Unrolled(CloseReplaced(s, ks, n, f, left, was, eps).s)
    decreases ks
  {
    hide CloseOn, Unrolled;
    if ks != [] && left > eps {
      var k := ks[0];
      CloseOnPlain(s, k, f.Closing(), n, f, left, Renamed, eps);
      var g :=
        if On(s, Book(k)) == [] || k == f.Key() || k.account != f.account || k.currency != f.currency
           || !was.Replaced(k, f.day)
        then Going(s, left)
        else CloseOn(s, Book(k), f.Closing(), n, f, left, Renamed, eps);
      CloseReplacedPlain(g.s, ks[1..], n, f, g.left, was, eps);
    }
  }

  lemma CloseOrdinaryPlain(s: State, n: nat, f: Fill, was: Replacements, eps: real)
    requires Unrolled(s)
    ensures Unrolled(CloseOrdinary(s, n, f, was, eps).s)
  {
    hide CloseOn, CloseRolled, CloseReplaced, Unrolled;
    CloseOnPlain(s, f.Key(), f.Closing(), n, f, f.qty, Own, eps);
    var g1 := CloseOn(s, Book(f.Key()), f.Closing(), n, f, f.qty, Own, eps);
    CloseRolledPlain(g1.s, f.Closing(), n, f, g1.left, eps);
    var g2 := if g1.left > eps && f.symbol.IsOption() then CloseRolled(g1.s, f.Closing(), n, f, g1.left, eps) else g1;
    CloseReplacedPlain(g2.s, g2.s.order, n, f, g2.left, was, eps);
  }

  lemma {:induction false} SplitBookPlain(s: State, k: BookKey, todo: seq<Split>, day: int)
    requires Unrolled(s)
    ensures Unrolled(SplitBook(s, k, todo, day))
    decreases todo
  {
    hide Unrolled, Restate;
    if todo != [] {
      var lots := On(s, Book(k));
      if todo[0].day <= day && k in s.books {
        RestateDrops(lots, todo[0].factor, LotId(0, false));
        PutPlain(s, k, Restate(lots, todo[0].factor), RestateEntries(lots, todo[0].factor));
        SplitBookPlain(Put(s, Book(k), Restate(lots, todo[0].factor), RestateEntries(lots, todo[0].factor)), k,
            todo[1..], day);
      } else {
        SplitBookPlain(s, k, todo[1..], day);
      }
    }
  }

  lemma SamePlain(s: State, s': State)
    requires Unrolled(s) && s'.rolledKeys == s.rolledKeys && s'.log == s.log && s'.pools == s.pools
    ensures Unrolled(s')
  {
    forall r, d ensures On(s', Carried(r, d)) == [] {
      assert On(s, Carried(r, d)) == [];
    }
  }

  lemma ApplySplitsPlain(s: State, k: BookKey, day: int)
    requires Unrolled(s)
    ensures Unrolled(ApplySplits(s, k, day))
  {
    hide SplitBook, Unrolled;
    var sk := SplitKeyOf(k);
    if sk in s.pending {
      SplitBookPlain(s, k, SortSplits(s.pending[sk]), day);
      SamePlain(SplitBook(s, k, SortSplits(s.pending[sk]), day), ApplySplits(s, k, day));
    }
  }

  lemma NotePlain(s: State, e: Entry)
    requires Unrolled(s) && PlainLog([e])
    ensures Unrolled(Note(s, e))
  {
    assert e in [e];
    forall r, d ensures On(Note(s, e), Carried(r, d)) == [] {
      assert On(s, Carried(r, d)) == [];
    }
  }

  lemma SettlePlain(g: Going, n: nat, f: Fill, eps: real)
    requires Unrolled(g.s)
    ensures Unrolled(Settle(g, n, f, eps))
  {
    hide Unrolled, FeeShare, IsDust;
    var fee := FeeShare(f.commission, g.left, f.qty);
    if g.left > eps && f.Opening().Some? {
      var lot := NewLot(n, f, g.left, f.Opening().value);
      PutPlain(g.s, f.Key(), On(g.s, Book(f.Key())) + [lot], [Opened(lot)]);
    } else {
      NotePlain(g.s, Rest(n, g.left, fee));
      NotePlain(g.s, Dust(n, g.left, fee));
      NotePlain(g.s, Unmatched(Orphan(n, f.side, g.left, f.price), fee));
    }
  }

  lemma StepPlain(s: State, n: nat, f: Fill, was: Replacements, eps: real)
    requires Unrolled(s) && !IsRoll(f)
    ensures Unrolled(Step(s, n, f, was, eps))
  {
    hide Unrolled, ApplySplits, CloseOrdinary, Settle, CloseOn;
    var s0 := TouchBook(s, f.Key());
    SamePlain(s, s0);
    ApplySplitsPlain(s0, f.Key(), f.day);
    var s1 := ApplySplits(s0, f.Key(), f.day);
    if f.transferOut {
      CloseOnPlain(s1, f.Key(), Long, n, f, f.qty, Outward, eps);
      var g := CloseOn(s1, Book(f.Key()), Long, n, f, f.qty, Outward, eps);
      NotePlain(g.s, Excess(n, g.left, 0.0));
    } else {
      CloseOrdinaryPlain(s1, n, f, was, eps);
      SettlePlain(CloseOrdinary(s1, n, f, was, eps), n, f, eps);
    }
  }

  lemma {:induction false} RunPlain(fills: seq<Fill>, k: nat, pending: map<SplitKey, seq<Split>>, was: Replacements,
      eps: real)
    requires k <= |fills| && NoRolls(fills)
    ensures Unrolled(Run(fills, k, pending, was, eps))
  {
    hide Step, IsRoll;
    if k > 0 {
      RunPlain(fills, k - 1, pending, was, eps);
      StepPlain(Run(fills, k - 1, pending, was, eps), k - 1, fills[k - 1], was, eps);
    }
  }

  lemma {:induction false} SplitAllPlain(s: State, ks: seq<BookKey>)
    requires Unrolled(s)
    ensures Unrolled(SplitAll(s, ks))
    decreases ks
  {
    hide Unrolled, ApplySplits;
    if ks != [] {
      ApplySplitsPlain(s, ks[0], FAR_DAY);
      SplitAllPlain(ApplySplits(s, ks[0], FAR_DAY), ks[1..]);
    }
  }

  lemma {:induction false} RollOutNothing(s: State, rs: seq<RollKey>, eps: real)
    requires Unrolled(s)
    ensures RollOutAll(s, rs, eps) == s
    decreases rs
  {
    if rs != [] {
      assert On(s, Carried(rs[0], Long)) == [] && On(s, Carried(rs[0], Short)) == [];
      RollOutNothing(s, rs[1..], eps);
    }
  }

  lemma {:induction false} PlainOvercharge(es: seq<Entry>, id: LotId)
    requires PlainLog(es)
    ensures Overcharge(es, id) == 0.0
  {
    if es != [] {
      assert es[0] in es;
      PlainOvercharge(es[1..], id);
    }
  }

  /** Without rolls, every lot's commission is its slices' entry shares plus what left with it
      and what it still carries, and no fill's commission is forgone. */
  lemma FeesWithoutRolls(fills: seq<Fill>, pending: map<SplitKey, seq<Split>>, was: Replacements, eps: real, id: LotId)
    requires Usable(fills) && eps >= 0.0 && id.fill < |fills| && NoRolls(fills)
    ensures var s := Final(fills, pending, was, eps);
            && Total(s.log, id, In).fee
               == SliceTotal(Slices(s.log), id).fee + Total(s.log, id, Out).fee + Total(s.log, id, Lost).fee
                  + Held(On(s, Home(fills, id)), id).fee
            && PlainLog(s.log)
  {
    hide Run, SplitAll, RollOutAll, Overcharge, Total, Held;
    var s0 := Run(fills, |fills|, pending, was, eps);
    RunPlain(fills, |fills|, pending, was, eps);
    SplitAllPlain(s0, s0.order);
    RollOutNothing(SplitAll(s0, s0.order), s0.poolOrder, eps);
    PlainOvercharge(Final(fills, pending, was, eps).log, id);
    FeesButOvercharge(fills, pending, was, eps, id);
  }

  // ----- where a share is charged twice

  /** What is charged to slices beyond what leaves the lots, over a whole take. */
  function Surplus(es: seq<Entry>): real {
    if es == [] then 0.0
    else (if es[0].Recharged? then es[0].fee else 0.0) + Surplus(es[1..])
  }

  /** The lot a take closes in part, if it does. */
  function InPart(lots: seq<Lot>, dir: Direction, left: real, mode: Mode, eps: real): Option<Lot>
    decreases |lots|
  {
    if !Takes(lots, dir, left, mode, eps) then None
    else if lots[0].qty - Min(lots[0].qty, left) <= eps
    then InPart(lots[1..], dir, left - Min(lots[0].qty, left), mode, eps)
    else Some(lots[0])
  }

  lemma ShareIsZeroIff(c: real, m: real, q: real)
    requires m > 0.0 && q > 0.0
    ensures FeeShare(c, m, q) == 0.0 <==> c == 0.0
  {
    var r := m / q;
    assert r > 0.0;
    if c != 0.0 {
      assert c * r != 0.0;
    }
  }

  lemma {:induction false} SurplusAppends(a: seq<Entry>, b: seq<Entry>)
    ensures Surplus(a + b) == Surplus(a) + Surplus(b)
  {
    if a == [] {
      assert a + b == b;
    } else {
      assert (a + b)[0] == a[0] && (a + b)[1..] == a[1..] + b;
      SurplusAppends(a[1..], b);
    }
  }

  lemma MatchSurplus(lot: Lot, x: Exit, n: nat, matched: real, mode: Mode, eps: real)
    ensures Surplus(MatchEntries(lot, x, n, matched, mode, eps))
            == if lot.qty - matched <= eps || mode.Scales() then 0.0 else FeeShare(lot.commission, matched, lot.qty)
  {
    hide FeeShare;
    var es := MatchEntries(lot, x, n, matched, mode, eps);
    if |es| == 1 {
      assert es[1..] == [];
    } else {
      assert es[1..] == [es[1]];
      assert [es[1]][1..] == [];
      assert Surplus([es[1]]) == if es[1].Recharged? then es[1].fee else 0.0;
    }
  }

  /** What the lots of a queue carry in commission. */
  function Commissions(lots: seq<Lot>): real {
    if lots == [] then 0.0 else lots[0].commission + Commissions(lots[1..])
  }

  /** What is charged of it: by slices, with what is sent out, and with a residue forgotten. */
  function Charged(es: seq<Entry>): real {
    if es == [] then 0.0
    else (match es[0] case Closed(c) => c.entryFee case Sent(_, _, _, _, fee) => fee
          case Dropped(_, _, _, fee) => fee case _ => 0.0)
         + Charged(es[1..])
  }

  lemma {:induction false} ChargedAppends(a: seq<Entry>, b: seq<Entry>)
    ensures Charged(a + b) == Charged(a) + Charged(b)
  {
    if a == [] {
      assert a + b == b;
    } else {
      assert (a + b)[0] == a[0] && (a + b)[1..] == a[1..] + b;
      ChargedAppends(a[1..], b);
    }
  }

  lemma MatchCharged(lot: Lot, x: Exit, n: nat, matched: real, mode: Mode, eps: real)
    ensures Charged(MatchEntries(lot, x, n, matched, mode, eps))
            == if lot.qty - matched <= eps then lot.commission else FeeShare(lot.commission, matched, lot.qty)
  {
    hide FeeShare;
    var es := MatchEntries(lot, x, n, matched, mode, eps);
    if |es| == 1 {
      assert es[1..] == [];
    } else {
      assert es[1..] == [es[1]];
      assert [es[1]][1..] == [];
      assert Charged([es[1]]) == match es[1] case Dropped(_, _, _, fee) => fee case _ => 0.0;
    }
  }

  lemma CommissionsOf(lot: Lot, lots: seq<Lot>)
    ensures Commissions([lot] + lots) == lot.commission + Commissions(lots)
  {
    assert ([lot] + lots)[1..] == lots;
  }

  /** What a take charges and what it leaves on the lots are what they carried and the surplus. */
  lemma {:induction false} TakeCharges(lots: seq<Lot>, dir: Direction, x: Exit, n: nat, left: real, mode: Mode,
      eps: real)
    requires Positive(lots)
    ensures var t := Take(lots, dir, x, n, left, mode, eps);
            Charged(t.entries) + Commissions(t.lots) == Commissions(lots) + Surplus(t.entries)
    decreases |lots|
  {
    hide MatchEntries, FeeShare, Surplus, Charged;
    if !Takes(lots, dir, left, mode, eps) {
      SurplusNothing();
    } else {
      var matched := Min(lots[0].qty, left);
      var es := MatchEntries(lots[0], x, n, matched, mode, eps);
      MatchSurplus(lots[0], x, n, matched, mode, eps);
      MatchCharged(lots[0], x, n, matched, mode, eps);
      if lots[0].qty - matched <= eps {
        var rest := Take(lots[1..], dir, x, n, left - matched, mode, eps);
        TakeCharges(lots[1..], dir, x, n, left - matched, mode, eps);
        SurplusAppends(es, rest.entries);
        ChargedAppends(es, rest.entries);
      } else {
        CommissionsOf(Remainder(lots[0], matched, mode, x.symbol), lots[1..]);
        FeeSplits(lots[0].commission, matched, lots[0].qty);
      }
    }
  }

  lemma {:induction false} SurplusIff(lots: seq<Lot>, dir: Direction, x: Exit, n: nat, left: real, mode: Mode,
      eps: real)
    requires Positive(lots) && eps >= 0.0
    ensures Surplus(Take(lots, dir, x, n, left, mode, eps).entries) == 0.0
            <==> mode.Scales() || InPart(lots, dir, left, mode, eps).None?
                 || InPart(lots, dir, left, mode, eps).value.commission == 0.0
    decreases |lots|
  {
    hide MatchEntries, FeeShare, Surplus;
    if !Takes(lots, dir, left, mode, eps) {
      SurplusNothing();
    } else {
      var matched := Min(lots[0].qty, left);
      var es := MatchEntries(lots[0], x, n, matched, mode, eps);
      MatchSurplus(lots[0], x, n, matched, mode, eps);
      if lots[0].qty - matched <= eps {
        SurplusIff(lots[1..], dir, x, n, left - matched, mode, eps);
        SurplusAppends(es, Take(lots[1..], dir, x, n, left - matched, mode, eps).entries);
      } else {
        ShareIsZeroIff(lots[0].commission, matched, lots[0].qty);
      }
    }
  }

  /** What the slices are charged, with what went and what stays, is what the lots carried if and
      only if the take scales the commission of the lot it closes in part, or that lot carries none,
      or it closes none in part. */
  lemma ChargedOnceIff(lots: seq<Lot>, dir: Direction, x: Exit, n: nat, left: real, mode: Mode, eps: real)
    requires Positive(lots) && eps >= 0.0
    ensures var t := Take(lots, dir, x, n, left, mode, eps);
            Charged(t.entries) + Commissions(t.lots) == Commissions(lots)
            <==> mode.Scales() || InPart(lots, dir, left, mode, eps).None?
                 || InPart(lots, dir, left, mode, eps).value.commission == 0.0
  {
    hide Take, Surplus, Charged, Commissions, InPart;
    TakeCharges(lots, dir, x, n, left, mode, eps);
    SurplusIff(lots, dir, x, n, left, mode, eps);
  }

  lemma SurplusNothing()
    ensures Surplus([]) == 0.0 && Charged([]) == 0.0
  {
  }
}
