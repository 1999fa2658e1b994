/** What the closing loop keeps: nothing of a lot and nothing of a fill is made or lost. */
module LotsProofs {
  import opened Trading
  import opened Ledger
  import opened Lots

  /** `after` is what stays of `before` once its front is used: the same lots in the same
      order, only the first of them changed. */
  ghost predicate Tail(before: seq<Lot>, after: seq<Lot>) {
    && |after| <= |before|
    && (forall j :: 0 <= j < |after| ==> SameLot(before[|before| - |after| + j], after[j]))
    && (forall j :: 0 < j < |after| ==> after[j] == before[|before| - |after| + j])
  }

  ghost predicate SameLot(a: Lot, b: Lot) {
    a.id == b.id && a.direction == b.direction && a.price == b.price && a.day == b.day
  }

  lemma TailOfTail(lots: seq<Lot>, after: seq<Lot>)
    requires lots != [] && Tail(lots[1..], after)
    ensures Tail(lots, after)
  {
    var gap := |lots| - |after|;
    assert |lots[1..]| - |after| == gap - 1;
    forall j | 0 <= j < |after|
      ensures SameLot(lots[gap + j], after[j]) && (j > 0 ==> after[j] == lots[gap + j])
    {
      assert lots[1..][gap - 1 + j] == lots[gap + j];
    }
  }

  lemma {:induction false} TakeLeavesTail(lots: seq<Lot>, dir: Direction, x: Exit, n: nat, left: real, mode: Mode,
      eps: real)
    ensures Tail(lots, Take(lots, dir, x, n, left, mode, eps).lots)
    decreases |lots|
  {
    if Takes(lots, dir, left, mode, eps) {
      var matched := Min(lots[0].qty, left);
      if lots[0].qty - matched <= eps {
        TakeLeavesTail(lots[1..], dir, x, n, left - matched, mode, eps);
        TailOfTail(lots, Take(lots[1..], dir, x, n, left - matched, mode, eps).lots);
      }
    }
  }

  lemma MatchNames(lot: Lot, x: Exit, n: nat, matched: real, mode: Mode, eps: real)
    ensures forall e :: e in MatchEntries(lot, x, n, matched, mode, eps) ==> LotOf(e) == Some(lot.id)
  {
    hide FeeShare;
  }

  lemma {:induction false} TakeNames(lots: seq<Lot>, dir: Direction, x: Exit, n: nat, left: real, mode: Mode,
      eps: real, e: Entry)
    requires e in Take(lots, dir, x, n, left, mode, eps).entries
    ensures LotOf(e).Some? && Has(lots, LotOf(e).value)
    decreases |lots|
  {
    hide MatchEntries;
    var matched := Min(lots[0].qty, left);
    var es := MatchEntries(lots[0], x, n, matched, mode, eps);
    MatchNames(lots[0], x, n, matched, mode, eps);
    if e in es {
      assert lots[0].id == LotOf(e).value;
    } else {
      TakeNames(lots[1..], dir, x, n, left - matched, mode, eps, e);
      var i :| 0 <= i < |lots[1..]| && lots[1..][i].id == LotOf(e).value;
      assert lots[i + 1].id == LotOf(e).value;
    }
  }

  lemma {:induction false} TakePositive(lots: seq<Lot>, dir: Direction, x: Exit, n: nat, left: real, mode: Mode,
      eps: real)
    requires Positive(lots) && eps >= 0.0
    ensures Positive(Take(lots, dir, x, n, left, mode, eps).lots)
    decreases |lots|
  {
    if Takes(lots, dir, left, mode, eps) {
      var matched := Min(lots[0].qty, left);
      if lots[0].qty - matched <= eps {
        TakePositive(lots[1..], dir, x, n, left - matched, mode, eps);
      }
    }
  }

  lemma DistinctTail(before: seq<Lot>, after: seq<Lot>)
    requires Tail(before, after) && Distinct(before)
    ensures Distinct(after)
    ensures forall j :: 0 <= j < |after| ==> Has(before, after[j].id)
  {
    forall j | 0 <= j < |after| ensures Has(before, after[j].id) {
      assert before[|before| - |after| + j].id == after[j].id;
    }
  }

  /** The history of a take leaves every lot's account at what the queue then holds. */
  lemma {:induction false} TakeFollows(lots: seq<Lot>, dir: Direction, x: Exit, n: nat, left: real, mode: Mode,
      eps: real, id: LotId)
    requires Distinct(lots) && Positive(lots) && eps >= 0.0
    ensures var t := Take(lots, dir, x, n, left, mode, eps);
            Follow(Held(lots, id), t.entries, id) == Held(t.lots, id)
    decreases |lots|
  {
    hide MatchEntries, FeeShare, AccountOf;
    if Takes(lots, dir, left, mode, eps) {
      var lot := lots[0];
      var matched := Min(lot.qty, left);
      var es := MatchEntries(lot, x, n, matched, mode, eps);
      if lot.id == id {
        MatchFollows(lot, x, n, matched, mode, eps);
      } else {
        MatchNames(lot, x, n, matched, mode, eps);
        FollowUntouched(Held(lots, id), es, id);
      }
      if lot.qty - matched <= eps {
        var rest := Take(lots[1..], dir, x, n, left - matched, mode, eps);
        FollowAppends(Held(lots, id), es, rest.entries, id);
        TakeFollows(lots[1..], dir, x, n, left - matched, mode, eps, id);
        if lot.id == id {
          FirstIsGone(lots);
          HeldMissing(lots[1..], id);
        }
      }
    }
  }

  lemma FirstIsGone(lots: seq<Lot>)
    requires lots != [] && Distinct(lots)
    ensures !Has(lots[1..], lots[0].id)
  {
  }

  lemma HasRest(lots: seq<Lot>, id: LotId)
    requires lots != []
    ensures Has(lots, id) <==> lots[0].id == id || Has(lots[1..], id)
  {
    if Has(lots[1..], id) {
      var i :| 0 <= i < |lots[1..]| && lots[1..][i].id == id;
      assert lots[i + 1].id == id;
    }
    if Has(lots, id) && lots[0].id != id {
      var i :| 0 <= i < |lots| && lots[i].id == id;
      assert lots[1..][i - 1].id == id;
    }
  }

  lemma MatchDrops(lot: Lot, x: Exit, n: nat, matched: real, mode: Mode, eps: real, id: LotId)
    requires matched <= lot.qty
    ensures var es := MatchEntries(lot, x, n, matched, mode, eps);
            Drops(es, id) == (if lot.id == id && lot.qty - matched <= eps then 1 else 0) && Small(es, eps)
  {
    hide FeeShare;
    var es := MatchEntries(lot, x, n, matched, mode, eps);
    if |es| == 1 {
      assert es[1..] == [];
    } else {
      assert es[1..] == [es[1]];
      assert [es[1]][1..] == [];
      assert Drops([es[1]], id) == if es[1].Dropped? && es[1].id == id then 1 else 0;
    }
  }

  /** A residue is forgotten at most once, of a lot that goes. */
  lemma {:induction false} TakeDrops(lots: seq<Lot>, dir: Direction, x: Exit, n: nat, left: real, mode: Mode,
      eps: real, id: LotId)
    requires Distinct(lots)
    ensures var t := Take(lots, dir, x, n, left, mode, eps);
            Drops(t.entries, id) + Count(t.lots, id) <= Count(lots, id) && Small(t.entries, eps)
    decreases |lots|
  {
    hide MatchEntries, Drops, Remainder, Has;
    if !Takes(lots, dir, left, mode, eps) {
      DropsUntouched([], id);
    } else {
      var matched := Min(lots[0].qty, left);
      var es := MatchEntries(lots[0], x, n, matched, mode, eps);
      MatchDrops(lots[0], x, n, matched, mode, eps, id);
      HasRest(lots, id);
      if lots[0].qty - matched <= eps {
        var rest := Take(lots[1..], dir, x, n, left - matched, mode, eps);
        DropsAppend(es, rest.entries, id);
        TakeDrops(lots[1..], dir, x, n, left - matched, mode, eps, id);
        FirstIsGone(lots);
      } else {
        var t := Take(lots, dir, x, n, left, mode, eps);
        TakeLeavesTail(lots, dir, x, n, left, mode, eps);
        HasRest(t.lots, id);
        assert t.lots[1..] == lots[1..];
      }
    }
  }

  /** A take is a faithful change of its queue. */
  lemma TakeFaithful(lots: seq<Lot>, dir: Direction, x: Exit, n: nat, left: real, mode: Mode, eps: real)
    requires Distinct(lots) && Positive(lots) && eps >= 0.0
    ensures var t := Take(lots, dir, x, n, left, mode, eps);
            Faithful(lots, t.entries, t.lots, eps)
  {
    hide Take, Follow, Held, Has, Drops;
    var t := Take(lots, dir, x, n, left, mode, eps);
    forall id ensures Follow(Held(lots, id), t.entries, id) == Held(t.lots, id) {
      TakeFollows(lots, dir, x, n, left, mode, eps, id);
    }
    forall id ensures Drops(t.entries, id) + Count(t.lots, id) <= Count(lots, id) && Small(t.entries, eps) {
      TakeDrops(lots, dir, x, n, left, mode, eps, id);
    }
    assert Small(t.entries, eps) by {
      TakeDrops(lots, dir, x, n, left, mode, eps, LotId(0, false));
    }
    forall e, id | e in t.entries && LotOf(e) == Some(id) ensures Has(lots, id) {
      TakeNames(lots, dir, x, n, left, mode, eps, e);
    }
    TakeLeavesTail(lots, dir, x, n, left, mode, eps);
    DistinctTail(lots, t.lots);
    TakePositive(lots, dir, x, n, left, mode, eps);
  }

  /** What of fill `n` an amount accounts for, with the share of the commission it bears. */
  function Part(x: Exit, amount: real, mode: Mode): (real, real) {
    (amount, if mode.Outward? then 0.0 else FeeShare(x.commission, amount, x.qty))
  }

  lemma PartAdds(x: Exit, a: real, b: real, total: real, mode: Mode)
    requires a + b == total
    ensures var p, r := Part(x, a, mode), Part(x, b, mode);
            (p.0 + r.0, p.1 + r.1) == Part(x, total, mode)
  {
    FeeAdds(x.commission, a, b, total, x.qty);
  }

  lemma PartZero(x: Exit, mode: Mode)
    ensures Part(x, 0.0, mode) == (0.0, 0.0)
  {
  }

  lemma SpentNothing(i: nat)
    ensures Spent([], i) == (0.0, 0.0)
  {
  }

  /** What a take spends of its fill is what it was asked for less what is left, and the
      commission it charges is that share of the fill's. */
  lemma {:induction false} TakeSpends(lots: seq<Lot>, dir: Direction, x: Exit, n: nat, left: real, mode: Mode,
      eps: real)
    requires x.no == Some(n)
    ensures var t := Take(lots, dir, x, n, left, mode, eps);
            Spent(t.entries, n) == Part(x, left - t.left, mode)
    decreases |lots|
  {
    hide FeeShare, Part, MatchEntries, Spent;
    if !Takes(lots, dir, left, mode, eps) {
      PartZero(x, mode);
      SpentNothing(n);
    } else {
      var matched := Min(lots[0].qty, left);
      var es := MatchEntries(lots[0], x, n, matched, mode, eps);
      MatchSpends(lots[0], x, n, matched, mode, eps);
      if lots[0].qty - matched <= eps {
        var rest := Take(lots[1..], dir, x, n, left - matched, mode, eps);
        SpentAppends(es, rest.entries, n);
        TakeSpends(lots[1..], dir, x, n, left - matched, mode, eps);
        PartAdds(x, matched, left - matched - rest.left, left - rest.left, mode);
      }
    }
  }

  /** A take spends nothing of any other fill. */
  lemma {:induction false} TakeSpendsOnly(lots: seq<Lot>, dir: Direction, x: Exit, n: nat, left: real, mode: Mode,
      eps: real, i: nat)
    requires x.no == Some(n) && i != n
    ensures Spent(Take(lots, dir, x, n, left, mode, eps).entries, i) == (0.0, 0.0)
    decreases |lots|
  {
    if Takes(lots, dir, left, mode, eps) {
      var matched := Min(lots[0].qty, left);
      var es := MatchEntries(lots[0], x, n, matched, mode, eps);
      MatchSpendsOnly(lots[0], x, n, matched, mode, eps, i);
      if lots[0].qty - matched <= eps {
        var rest := Take(lots[1..], dir, x, n, left - matched, mode, eps);
        SpentAppends(es, rest.entries, i);
        TakeSpendsOnly(lots[1..], dir, x, n, left - matched, mode, eps, i);
      }
    }
  }

  lemma SpentFirst(es: seq<Entry>, i: nat)
    requires 1 <= |es| <= 2
    requires |es| == 2 ==> Spent1(es[1], i) == (0.0, 0.0)
    ensures Spent(es, i) == Spent1(es[0], i)
  {
    if |es| == 2 {
      assert es[1..] == [es[1]];
      assert [es[1]][1..] == [];
    } else {
      assert es[1..] == [];
    }
    assert Spent([], i) == (0.0, 0.0);
  }

  lemma MatchSpends(lot: Lot, x: Exit, n: nat, matched: real, mode: Mode, eps: real)
    requires x.no == Some(n)
    ensures Spent(MatchEntries(lot, x, n, matched, mode, eps), n) == Part(x, matched, mode)
  {
    SpentFirst(MatchEntries(lot, x, n, matched, mode, eps), n);
  }

  lemma MatchSpendsOnly(lot: Lot, x: Exit, n: nat, matched: real, mode: Mode, eps: real, i: nat)
    requires x.no == Some(n) && i != n
    ensures Spent(MatchEntries(lot, x, n, matched, mode, eps), i) == (0.0, 0.0)
  {
    SpentFirst(MatchEntries(lot, x, n, matched, mode, eps), i);
  }

  /** What is left never grows, and what is left over means the loop ran out of lots it may close. */
  lemma {:induction false} TakeLeaves(lots: seq<Lot>, dir: Direction, x: Exit, n: nat, left: real, mode: Mode,
      eps: real)
    requires Positive(lots) && eps >= 0.0 && left >= 0.0
    ensures var t := Take(lots, dir, x, n, left, mode, eps);
            && 0.0 <= t.left <= left
            && !Takes(t.lots, dir, t.left, mode, eps)
    decreases |lots|
  {
    if Takes(lots, dir, left, mode, eps) {
      var matched := Min(lots[0].qty, left);
      if lots[0].qty - matched <= eps {
        TakeLeaves(lots[1..], dir, x, n, left - matched, mode, eps);
      }
    }
  }
}
