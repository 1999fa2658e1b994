/** First in, first out is the overlap of intervals. Lay the units each book took on end to end,
    and the units that left it end to end beside them: the fill that opened a lot is matched with
    one that closes for exactly as many units as their intervals share, whichever way the book
    stands and however often it turns. */
module Overlap {
  import opened Trading
  import opened Ledger
  import opened Lots
  import opened LotsProofs
  import opened Matching
  import opened Runs
  import Fees

  /** What two intervals share. */
  function Shared(a: real, b: real, c: real, d: real): real {
    Max(0.0, Min(b, d) - Max(a, c))
  }

  /** Units of lot `id` the slices say fill `j` closed. */
  function Matched(ss: seq<Slice>, id: LotId, j: nat): real {
    if ss == [] then 0.0
    else (if ss[0].lot == id && ss[0].exit == Some(j) then ss[0].qty else 0.0) + Matched(ss[1..], id, j)
  }

  // ----- the units that entered and left, with no queue

  /** The units a book has taken on, those that left it, and the way it stands. */
  datatype Tally = Tally(entered: real, exited: real, direction: Direction)

  /** The direction a fill takes from: coins sent out leave the long lots. */
  function Closes(f: Fill): Direction {
    if f.transferOut then Long else f.Closing()
  }

  /** What of a fill leaves the book: no more than it holds, and only of the other direction. */
  function Leaving(t: Tally, f: Fill): real {
    if t.direction == Closes(f) then Min(f.qty, t.entered - t.exited) else 0.0
  }

  /** What of it enters: all that did not leave, where it may open at all. */
  function Entering(t: Tally, f: Fill): real {
    if f.transferOut || f.Opening().None? then 0.0 else f.qty - Leaving(t, f)
  }

  function Next(t: Tally, f: Fill): Tally {
    Tally(t.entered + Entering(t, f), t.exited + Leaving(t, f),
        if Entering(t, f) > 0.0 then f.Opening().value else t.direction)
  }

  /** The book's tally after the first `i` fills. */
  function Count(fills: seq<Fill>, key: BookKey, i: nat): Tally
    requires i <= |fills|
  {
    if i == 0 then Tally(0.0, 0.0, Long)
    else
      var t := Count(fills, key, i - 1);
      if fills[i - 1].Key() == key then Next(t, fills[i - 1]) else t
  }

  function Entered(fills: seq<Fill>, key: BookKey, i: nat): real
    requires i <= |fills|
  {
    Count(fills, key, i).entered
  }

  function Exited(fills: seq<Fill>, key: BookKey, i: nat): real
    requires i <= |fills|
  {
    Count(fills, key, i).exited
  }

  /** What fill `k` brought into the book and fill `j` took out of it have in common. */
  function Common(fills: seq<Fill>, key: BookKey, k: nat, j: nat): real
    requires k < |fills| && j < |fills|
  {
    Shared(Entered(fills, key, k), Entered(fills, key, k + 1), Exited(fills, key, j), Exited(fills, key, j + 1))
  }

  lemma OpensOther(f: Fill)
    ensures f.Opening().Some? ==> f.Opening().value != f.Closing()
  {
  }

  lemma NextRises(t: Tally, f: Fill)
    requires f.qty > 0.0 && t.entered >= t.exited
    ensures var n := Next(t, f); t.entered <= n.entered && t.exited <= n.exited <= t.entered
  {
  }

  lemma {:induction false} CountRises(fills: seq<Fill>, key: BookKey, i: nat, j: nat)
    requires i <= j <= |fills| && Usable(fills)
    ensures 0.0 <= Entered(fills, key, i) <= Entered(fills, key, j)
    ensures 0.0 <= Exited(fills, key, i) <= Exited(fills, key, j) <= Entered(fills, key, j)
    ensures i < j ==> Exited(fills, key, j) <= Entered(fills, key, j - 1)
    decreases j, i
  {
    hide Next;
    if j > 0 {
      CountRises(fills, key, if i < j then i else i - 1, j - 1);
      NextRises(Count(fills, key, j - 1), fills[j - 1]);
    }
  }

  lemma CountNext(fills: seq<Fill>, key: BookKey, i: nat)
    requires i < |fills|
    ensures Count(fills, key, i + 1)
            == if fills[i].Key() == key then Next(Count(fills, key, i), fills[i]) else Count(fills, key, i)
  {
  }

  // ----- the queue, as intervals

  ghost predicate Enters(fills: seq<Fill>, key: BookKey, k: nat) {
    k < |fills| && Entered(fills, key, k) < Entered(fills, key, k + 1)
  }

  /** The lots are what entered and has not left through `from`, in order, each holding its part
      beyond `from`. */
  ghost predicate Laid(lots: seq<Lot>, fills: seq<Fill>, key: BookKey, i: nat, from: real, dir: Direction)
    requires i <= |fills|
  {
    && (forall t :: 0 <= t < |lots| ==> LaidLot(lots[t], fills, key, i, from, dir))
    && (forall t, u :: 0 <= t < u < |lots| ==> lots[t].id.fill < lots[u].id.fill)
    && (forall k :: 0 <= k < i && Enters(fills, key, k) && Entered(fills, key, k + 1) > from ==>
          Has(lots, LotId(k, false)))
  }

  ghost predicate LaidLot(lot: Lot, fills: seq<Fill>, key: BookKey, i: nat, from: real, dir: Direction)
    requires i <= |fills|
  {
    var k := lot.id.fill;
    && !lot.id.rolled && k < i && Enters(fills, key, k) && lot.direction == dir
    && Entered(fills, key, k + 1) > from
    && lot.qty == Entered(fills, key, k + 1) - Max(Entered(fills, key, k), from)
  }

  /** Some fill reaches past `from` as soon as the entered units do. */
  lemma {:induction false} ReachedBy(fills: seq<Fill>, key: BookKey, j: nat, from: real) returns (k: nat)
    requires j <= |fills| && from >= 0.0 && Entered(fills, key, j) > from
    ensures k < j && Enters(fills, key, k) && Entered(fills, key, k + 1) > from
  {
    hide Next;
    if Entered(fills, key, j - 1) > from {
      k := ReachedBy(fills, key, j - 1, from);
    } else {
      k := j - 1;
    }
  }

  /** The first lot of the queue starts exactly at `from`. */
  lemma FirstStarts(lots: seq<Lot>, fills: seq<Fill>, key: BookKey, i: nat, from: real, dir: Direction)
    requires i <= |fills| && from >= 0.0 && Laid(lots, fills, key, i, from, dir) && lots != []
    ensures Entered(fills, key, lots[0].id.fill) <= from < Entered(fills, key, lots[0].id.fill + 1)
    ensures lots[0].qty == Entered(fills, key, lots[0].id.fill + 1) - from > 0.0
    ensures lots[0].direction == dir && !lots[0].id.rolled && lots[0].id.fill < i
  {
    hide Entered;
    var k0 := lots[0].id.fill;
    assert LaidLot(lots[0], fills, key, i, from, dir);
    if Entered(fills, key, k0) > from {
      var k := ReachedBy(fills, key, k0, from);
      assert Has(lots, LotId(k, false));
      forall t | 0 <= t < |lots| ensures lots[t].id.fill > k {
        if t > 0 {
          assert lots[0].id.fill < lots[t].id.fill;
        }
      }
    }
  }

  /** With the first lot gone, the rest of the queue lies beyond it. */
  lemma RestIsLaid(lots: seq<Lot>, fills: seq<Fill>, key: BookKey, i: nat, from: real, dir: Direction)
    requires i <= |fills| && from >= 0.0 && Usable(fills) && Laid(lots, fills, key, i, from, dir) && lots != []
    ensures lots[0].id.fill < i && Laid(lots[1..], fills, key, i, Entered(fills, key, lots[0].id.fill + 1), dir)
  {
    hide Entered, Exited, Has;
    var k0 := lots[0].id.fill;
    assert LaidLot(lots[0], fills, key, i, from, dir);
    var to := Entered(fills, key, k0 + 1);
    forall t | 0 <= t < |lots[1..]| ensures LaidLot(lots[1..][t], fills, key, i, to, dir) {
      var lot := lots[t + 1];
      assert LaidLot(lot, fills, key, i, from, dir) && k0 < lot.id.fill;
      CountRises(fills, key, k0 + 1, lot.id.fill);
    }
    forall k | 0 <= k < i && Enters(fills, key, k) && Entered(fills, key, k + 1) > to
      ensures Has(lots[1..], LotId(k, false))
    {
      if k <= k0 {
        CountRises(fills, key, k + 1, k0 + 1);
      }
      assert Has(lots, LotId(k, false));
      HasRest(lots, LotId(k, false));
    }
  }

  /** Part of the first lot gone: the queue then starts there. */
  lemma PartIsLaid(lots: seq<Lot>, fills: seq<Fill>, key: BookKey, i: nat, from: real, dir: Direction, lot: Lot,
      to: real)
    requires i <= |fills| && from >= 0.0 && Usable(fills) && Laid(lots, fills, key, i, from, dir) && lots != []
    requires lots[0].id.fill < i && from <= to < Entered(fills, key, lots[0].id.fill + 1)
    requires lot.id == lots[0].id && lot.direction == lots[0].direction && lot.qty == lots[0].qty - (to - from)
    ensures Laid([lot] + lots[1..], fills, key, i, to, dir)
  {
    hide Entered, Exited, Has, LaidLot;
    var after := [lot] + lots[1..];
    FirstStarts(lots, fills, key, i, from, dir);
    forall t | 0 <= t < |after| ensures LaidLot(after[t], fills, key, i, to, dir) {
      assert LaidLot(lots[t], fills, key, i, from, dir);
      if t == 0 {
        PartOfFirst(lots[0], lot, fills, key, i, from, dir, to);
      } else {
        assert after[t] == lots[t];
        LaterIsLaid(lots[t], fills, key, i, from, dir, to, lots[0].id.fill);
      }
    }
    forall k | 0 <= k < i && Enters(fills, key, k) && Entered(fills, key, k + 1) > to
      ensures Has(after, LotId(k, false))
    {
      assert Has(lots, LotId(k, false));
      HasRest(lots, LotId(k, false));
      HasRest(after, LotId(k, false));
      assert after[1..] == lots[1..];
    }
  }

  lemma PartOfFirst(first: Lot, lot: Lot, fills: seq<Fill>, key: BookKey, i: nat, from: real, dir: Direction, to: real)
    requires i <= |fills| && LaidLot(first, fills, key, i, from, dir)
    requires Entered(fills, key, first.id.fill) <= from <= to < Entered(fills, key, first.id.fill + 1)
    requires lot.id == first.id && lot.direction == first.direction && lot.qty == first.qty - (to - from)
    ensures LaidLot(lot, fills, key, i, to, dir)
  {
    hide Entered;
  }

  lemma LaterIsLaid(lot: Lot, fills: seq<Fill>, key: BookKey, i: nat, from: real, dir: Direction, to: real, k0: nat)
    requires i <= |fills| && Usable(fills) && LaidLot(lot, fills, key, i, from, dir) && k0 < lot.id.fill
    requires from <= to < Entered(fills, key, k0 + 1)
    ensures LaidLot(lot, fills, key, i, to, dir)
  {
    hide Entered, Exited;
    CountRises(fills, key, k0 + 1, lot.id.fill);
    CountRises(fills, key, lot.id.fill, lot.id.fill + 1);
  }

  /** The queue is empty exactly where it starts at its end. */
  lemma EmptyAtEnd(lots: seq<Lot>, fills: seq<Fill>, key: BookKey, i: nat, from: real, dir: Direction)
    requires i <= |fills| && from >= 0.0 && Usable(fills) && Laid(lots, fills, key, i, from, dir)
    ensures lots == [] <==> Entered(fills, key, i) <= from
  {
    hide Entered, Exited, Enters;
    if lots != [] {
      FirstStarts(lots, fills, key, i, from, dir);
      CountRises(fills, key, lots[0].id.fill + 1, i);
    } else if Entered(fills, key, i) > from {
      var _ := ReachedBy(fills, key, i, from);
      assert false;
    }
  }

  // ----- one fill takes from the queue

  lemma {:induction false} MatchedAppends(a: seq<Slice>, b: seq<Slice>, id: LotId, j: nat)
    ensures Matched(a + b, id, j) == Matched(a, id, j) + Matched(b, id, j)
  {
    if a == [] {
      assert a + b == b;
    } else {
      assert (a + b)[0] == a[0] && (a + b)[1..] == a[1..] + b;
      MatchedAppends(a[1..], b, id, j);
    }
  }

  lemma MatchMatched(lot: Lot, x: Exit, n: nat, m: real, mode: Mode, id: LotId, j: nat)
    requires x.no == Some(n) && (mode.Own? || mode.Outward?)
    ensures Matched(Slices(MatchEntries(lot, x, n, m, mode, 0.0)), id, j)
            == if mode.Own? && lot.id == id && j == n then m else 0.0
  {
    hide FeeShare;
    var es := MatchEntries(lot, x, n, m, mode, 0.0);
    var s := MakeSlice(lot, x, m, mode);
    assert Slices(es) == if mode.Own? then [s] else [] by {
      if |es| == 1 {
        assert es[1..] == [];
      } else {
        assert es[1..] == [es[1]];
        assert [es[1]][1..] == [];
        assert Slices([es[1]]) == [];
      }
    }
    assert [s][1..] == [];
  }

  /** A fill that takes `left` off a queue starting at `from` takes the interval through `to`, and
      each entry's share of it. */
  lemma {:induction false} TakeShares(lots: seq<Lot>, fills: seq<Fill>, key: BookKey, i: nat, from: real, to: real,
      left: real, x: Exit, n: nat, mode: Mode, dir: Direction, k: nat, j: nat)
    requires i <= |fills| && Usable(fills) && 0.0 <= from <= Entered(fills, key, i)
    requires left >= 0.0 && to == Min(from + left, Entered(fills, key, i))
    requires Laid(lots, fills, key, i, from, dir) && x.no == Some(n) && (mode.Own? || mode.Outward?) && k < |fills|
    ensures var t := Take(lots, dir, x, n, left, mode, 0.0);
            && Laid(t.lots, fills, key, i, to, dir) && t.left == left - (to - from)
            && Matched(Slices(t.entries), LotId(k, false), j)
               == if j == n && mode.Own?
                  then Shared(Entered(fills, key, k), Entered(fills, key, k + 1), from, to) else 0.0
    decreases |lots|
  {
    hide MatchEntries, Laid, LaidLot, Matched, Slices, Remainder, Entered, Exited;
    var id := LotId(k, false);
    CountRises(fills, key, k, k + 1);
    EmptyAtEnd(lots, fills, key, i, from, dir);
    if from == to {
      NothingMatched(id, j);
      assert !Takes(lots, dir, left, mode, 0.0);
    } else {
      FirstStarts(lots, fills, key, i, from, dir);
      var k0 := lots[0].id.fill;
      CountRises(fills, key, k0 + 1, i);
      var m := Min(lots[0].qty, left);
      var es := MatchEntries(lots[0], x, n, m, mode, 0.0);
      MatchMatched(lots[0], x, n, m, mode, id, j);
      if lots[0].qty <= left {
        var mid := Entered(fills, key, k0 + 1);
        RestIsLaid(lots, fills, key, i, from, dir);
        TakeShares(lots[1..], fills, key, i, mid, to, left - m, x, n, mode, dir, k, j);
        var rest := Take(lots[1..], dir, x, n, left - m, mode, 0.0);
        SlicesAppend(es, rest.entries);
        MatchedAppends(Slices(es), Slices(rest.entries), id, j);
        SharedSplits(fills, key, k, k0, from, to);
      } else {
        var r := Remainder(lots[0], m, mode, x.symbol);
        RemainderIs(lots[0], m, mode, x.symbol);
        PartIsLaid(lots, fills, key, i, from, dir, r, to);
        SharedFirst(fills, key, k, k0, from, to);
      }
    }
  }

  lemma NothingMatched(id: LotId, j: nat)
    ensures Matched(Slices([]), id, j) == 0.0
  {
  }

  lemma RemainderIs(lot: Lot, m: real, mode: Mode, symbol: Symbol)
    ensures var r := Remainder(lot, m, mode, symbol);
            r.id == lot.id && r.direction == lot.direction && r.qty == lot.qty - m
  {
  }

  /** What entry `k` shares with an interval splits where the first lot `k0` ends. */
  lemma SharedSplits(fills: seq<Fill>, key: BookKey, k: nat, k0: nat, from: real, to: real)
    requires k < |fills| && k0 < |fills| && Usable(fills)
    requires Entered(fills, key, k0) <= from < Entered(fills, key, k0 + 1) <= to
    ensures Shared(Entered(fills, key, k), Entered(fills, key, k + 1), from, to)
            == (if k == k0 then Entered(fills, key, k0 + 1) - from else 0.0)
               + Shared(Entered(fills, key, k), Entered(fills, key, k + 1), Entered(fills, key, k0 + 1), to)
  {
    hide Entered, Exited;
    CountRises(fills, key, k, k + 1);
    if k < k0 {
      CountRises(fills, key, k + 1, k0);
    } else if k > k0 {
      CountRises(fills, key, k0 + 1, k);
    }
  }

  lemma SharedFirst(fills: seq<Fill>, key: BookKey, k: nat, k0: nat, from: real, to: real)
    requires k < |fills| && k0 < |fills| && Usable(fills)
    requires Entered(fills, key, k0) <= from < to < Entered(fills, key, k0 + 1)
    ensures Shared(Entered(fills, key, k), Entered(fills, key, k + 1), from, to) == if k == k0 then to - from else 0.0
  {
    hide Entered, Exited;
    CountRises(fills, key, k, k + 1);
    if k < k0 {
      CountRises(fills, key, k + 1, k0);
    } else if k > k0 {
      CountRises(fills, key, k0 + 1, k);
    }
  }

  // ----- the run

  /** No fill finds another book of its account and currency replaced by its day. */
  ghost predicate Apart(fills: seq<Fill>, was: Replacements) {
    forall i, j :: 0 <= i < |fills| && 0 <= j < |fills| && fills[i].Key() != fills[j].Key() ==>
      !was.Replaced(fills[j].Key(), fills[i].day)
  }

  /** Runs with no roll and no replaced ticker, over any books, symbols and directions. */
  ghost predicate Plainly(fills: seq<Fill>, was: Replacements) {
    Usable(fills) && Fees.NoRolls(fills) && Apart(fills, was)
  }

  /** What fill `j` took of what fill `k` brought, where fill `j` is among the first `i`. */
  function CommonBy(fills: seq<Fill>, k: nat, j: nat, i: nat): real
    requires k < |fills| && i <= |fills|
  {
    if j < i && !fills[j].transferOut then Common(fills, fills[j].Key(), k, j) else 0.0
  }

  ghost predicate LaidBook(s: State, fills: seq<Fill>, key: BookKey, i: nat)
    requires i <= |fills|
  {
    Laid(On(s, Book(key)), fills, key, i, Exited(fills, key, i), Count(fills, key, i).direction)
  }

  /** Every pair matched so far shares exactly that. */
  ghost predicate SlicesAre(s: State, fills: seq<Fill>, i: nat)
    requires i <= |fills|
  {
    forall k: nat, j: nat :: k < |fills| ==> Matched(Slices(s.log), LotId(k, false), j) == CommonBy(fills, k, j, i)
  }

  /** Every book lies as the intervals say, and every pair matched so far shares what they say. */
  ghost predicate LaidRun(s: State, fills: seq<Fill>, i: nat)
    requires i <= |fills|
  {
    && s.pending == map[]
    && (forall k :: k in s.order ==> exists j :: 0 <= j < |fills| && fills[j].Key() == k)
    && (forall key :: LaidBook(s, fills, key, i))
    && SlicesAre(s, fills, i)
  }

  /** A fill of another book leaves the intervals where they are. */
  lemma LaidStays(lots: seq<Lot>, fills: seq<Fill>, key: BookKey, i: nat, from: real, dir: Direction)
    requires i < |fills| && Laid(lots, fills, key, i, from, dir) && !Enters(fills, key, i)
    ensures Laid(lots, fills, key, i + 1, from, dir)
  {
    hide Entered, Enters;
    forall t | 0 <= t < |lots| ensures LaidLot(lots[t], fills, key, i + 1, from, dir) {
      assert LaidLot(lots[t], fills, key, i, from, dir);
    }
  }

  lemma AppendHas(lots: seq<Lot>, lot: Lot, id: LotId)
    requires lot.id == id || Has(lots, id)
    ensures Has(lots + [lot], id)
  {
    if lot.id == id {
      assert (lots + [lot])[|lots|].id == id;
    } else {
      var t :| 0 <= t < |lots| && lots[t].id == id;
      assert (lots + [lot])[t].id == id;
    }
  }

  /** What enters opens a lot at the end of the queue. */
  lemma OpenIsLaid(lots: seq<Lot>, fills: seq<Fill>, key: BookKey, i: nat, from: real, dir: Direction, lot: Lot)
    requires i < |fills| && Laid(lots, fills, key, i, from, dir) && from <= Entered(fills, key, i)
    requires lot.id == LotId(i, false) && lot.direction == dir && lot.qty > 0.0
    requires lot.qty == Entered(fills, key, i + 1) - Entered(fills, key, i)
    ensures Laid(lots + [lot], fills, key, i + 1, from, dir)
  {
    hide Entered, Has;
    forall t | 0 <= t < |lots| ensures LaidLot(lots[t], fills, key, i + 1, from, dir) {
      assert LaidLot(lots[t], fills, key, i, from, dir);
    }
    forall k | 0 <= k < i + 1 && Enters(fills, key, k) && Entered(fills, key, k + 1) > from
      ensures Has(lots + [lot], LotId(k, false))
    {
      AppendHas(lots, lot, LotId(k, false));
    }
  }

  /** The fill's own book after its close, the units of the fill that left, and what was matched. */
  lemma {:induction false} CloseShares(s: State, fills: seq<Fill>, i: nat, mode: Mode, k: nat, j: nat)
    requires i < |fills| && Usable(fills) && LaidBook(s, fills, fills[i].Key(), i) && k < |fills|
    requires mode == if fills[i].transferOut then Outward else Own
    ensures var f := fills[i];
            var key := f.Key();
            var t := Count(fills, key, i);
            var g := CloseOn(s, Book(key), Closes(f), i, f, f.qty, mode, 0.0);
            && g.left == f.qty - Leaving(t, f)
            && Laid(On(g.s, Book(key)), fills, key, i, Exited(fills, key, i + 1), t.direction)
            && Matched(Slices(g.s.log), LotId(k, false), j) - Matched(Slices(s.log), LotId(k, false), j)
               == if j == i && mode.Own? then Common(fills, key, k, i) else 0.0
  {
    hide Laid, Take, Matched, Slices, Count;
    var f := fills[i];
    var key := f.Key();
    var t := Count(fills, key, i);
    var lots := On(s, Book(key));
    CountNext(fills, key, i);
    CountRises(fills, key, i, i);
    CountRises(fills, key, k, k + 1);
    EmptyAtEnd(lots, fills, key, i, t.exited, t.direction);
    if lots != [] {
      FirstStarts(lots, fills, key, i, t.exited, t.direction);
    }
    if Takes(lots, Closes(f), f.qty, mode, 0.0) {
      var x := ExitOf(i, f);
      TakeShares(lots, fills, key, i, t.exited, Exited(fills, key, i + 1), f.qty, x, i, mode, t.direction, k, j);
      var taken := Take(lots, t.direction, x, i, f.qty, mode, 0.0);
      SlicesAppend(s.log, taken.entries);
      MatchedAppends(Slices(s.log), Slices(taken.entries), LotId(k, false), j);
    }
  }

  /** Closing a book changes that book and the history alone. */
  lemma CloseFrames(s: State, key: BookKey, dir: Direction, n: nat, f: Fill, mode: Mode)
    requires key in s.books
    ensures var g := CloseOn(s, Book(key), dir, n, f, f.qty, mode, 0.0).s;
            && g == s.(books := g.books, log := g.log) && g.books == s.books[key := On(g, Book(key))]
  {
    hide Take;
  }

  /** No replaced ticker: a sale stops at its own book. */
  lemma {:induction false} CloseReplacedStops(s: State, ks: seq<BookKey>, fills: seq<Fill>, n: nat, left: real,
      was: Replacements)
    requires n < |fills| && Apart(fills, was)
    requires forall k :: k in ks ==> exists j :: 0 <= j < |fills| && fills[j].Key() == k
    ensures CloseReplaced(s, ks, n, fills[n], left, was, 0.0) == Going(s, left)
    decreases |ks|
  {
    hide CloseOn;
    if ks != [] && left > 0.0 {
      assert ks[0] in ks;
      var j :| 0 <= j < |fills| && fills[j].Key() == ks[0];
      forall k | k in ks[1..] ensures exists j :: 0 <= j < |fills| && fills[j].Key() == k {
        assert k in ks;
      }
      CloseReplacedStops(s, ks[1..], fills, n, left, was);
    }
  }

  /** An ordinary fill closes its own book and no more. */
  lemma ClosesOwnBook(s: State, fills: seq<Fill>, i: nat, was: Replacements)
    requires i < |fills| && Apart(fills, was) && Fees.Unrolled(s) && fills[i].Key() in s.books
    requires forall k :: k in s.order ==> exists j :: 0 <= j < |fills| && fills[j].Key() == k
    ensures var f := fills[i];
            var g := CloseOn(s, Book(f.Key()), f.Closing(), i, f, f.qty, Own, 0.0);
            CloseOrdinary(s, i, f, was, 0.0)
            == Going(if g.left > 0.0 && f.symbol.IsOption() then TouchPool(g.s, f.Roll()) else g.s, g.left)
  {
    hide CloseOn, CloseRolled, CloseReplaced, Fees.Unrolled;
    var f := fills[i];
    var g := CloseOn(s, Book(f.Key()), f.Closing(), i, f, f.qty, Own, 0.0);
    Fees.CloseOnPlain(s, f.Key(), f.Closing(), i, f, f.qty, Own, 0.0);
    Fees.CloseRolledPlain(g.s, f.Closing(), i, f, g.left, 0.0);
    CloseFrames(s, f.Key(), f.Closing(), i, f, Own);
    CloseReplacedStops(g.s, g.s.order, fills, i, g.left, was);
    var p := TouchPool(g.s, f.Roll());
    CloseReplacedStops(p, p.order, fills, i, g.left, was);
  }

  lemma SliceOfEntry(log: seq<Entry>, e: Entry)
    requires !e.Closed?
    ensures Slices(log + [e]) == Slices(log)
  {
    SlicesAppend(log, [e]);
    assert [e][1..] == [];
  }

  /** What is left of a fill settles: it opens a lot for what enters, or is noted. */
  lemma SettleIsLaid(s: State, fills: seq<Fill>, i: nat, left: real)
    requires i < |fills| && Usable(fills) && !fills[i].transferOut && fills[i].Key() in s.books
    requires var t := Count(fills, fills[i].Key(), i);
             && left == fills[i].qty - Leaving(t, fills[i])
             && Laid(On(s, Book(fills[i].Key())), fills, fills[i].Key(), i, Exited(fills, fills[i].Key(), i + 1),
                 t.direction)
    ensures var s' := Settle(Going(s, left), i, fills[i], 0.0);
            && LaidBook(s', fills, fills[i].Key(), i + 1) && Slices(s'.log) == Slices(s.log)
            && s' == s.(books := s'.books, log := s'.log)
            && s'.books == s.books[fills[i].Key() := On(s', Book(fills[i].Key()))]
  {
    hide Laid, FeeShare, IsDust, Count, Slices;
    var f := fills[i];
    var key := f.Key();
    var t := Count(fills, key, i);
    var lots := On(s, Book(key));
    CountNext(fills, key, i);
    CountRises(fills, key, i, i + 1);
    OpensOther(f);
    if left > 0.0 && f.Opening().Some? {
      var lot := NewLot(i, f, left, f.Opening().value);
      SliceOfEntry(s.log, Opened(lot));
      EmptyAtEnd(lots, fills, key, i, Exited(fills, key, i + 1), t.direction);
      if lots == [] {
        EmptyIsLaid(fills, key, i, Exited(fills, key, i + 1), t.direction, lot.direction);
      }
      OpenIsLaid(lots, fills, key, i, Exited(fills, key, i + 1), lot.direction, lot);
    } else {
      LaidStays(lots, fills, key, i, Exited(fills, key, i + 1), t.direction);
      SliceOfEntry(s.log, Rest(i, left, FeeShare(f.commission, left, f.qty)));
      SliceOfEntry(s.log, Dust(i, left, FeeShare(f.commission, left, f.qty)));
      SliceOfEntry(s.log, Unmatched(Orphan(i, f.side, left, f.price), FeeShare(f.commission, left, f.qty)));
    }
  }

  /** An empty queue stands either way. */
  lemma EmptyIsLaid(fills: seq<Fill>, key: BookKey, i: nat, from: real, dir: Direction, dir': Direction)
    requires i <= |fills| && Laid([], fills, key, i, from, dir)
    ensures Laid([], fills, key, i, from, dir')
  {
    hide Entered, Enters;
  }

  /** The fill's own book and the history after it; the other books as they were. */
  ghost predicate Stepped(s: State, s': State, fills: seq<Fill>, i: nat)
    requires i < |fills|
  {
    && s'.pending == s.pending && s'.order == s.order
    && LaidBook(s', fills, fills[i].Key(), i + 1)
    && (forall key :: key != fills[i].Key() ==> On(s', Book(key)) == On(s, Book(key)))
    && (forall k: nat, j: nat :: k < |fills| ==>
          Matched(Slices(s'.log), LotId(k, false), j) - Matched(Slices(s.log), LotId(k, false), j)
          == if j == i && !fills[i].transferOut then Common(fills, fills[i].Key(), k, i) else 0.0)
  }

  lemma OutSteps(s: State, fills: seq<Fill>, i: nat)
    requires i < |fills| && Usable(fills) && fills[i].transferOut && LaidBook(s, fills, fills[i].Key(), i)
    requires fills[i].Key() in s.books
    ensures Stepped(s, SendOut(s, i, fills[i], 0.0), fills, i)
  {
    hide Laid, Matched, Slices, CloseOn, Count, Common;
    var f := fills[i];
    var key := f.Key();
    var g := CloseOn(s, Book(key), Closes(f), i, f, f.qty, Outward, 0.0);
    CloseFrames(s, key, Closes(f), i, f, Outward);
    SliceOfEntry(g.s.log, Excess(i, g.left, 0.0));
    CountNext(fills, key, i);
    CloseShares(s, fills, i, Outward, i, i);
    LaidStays(On(g.s, Book(key)), fills, key, i, Exited(fills, key, i + 1), Count(fills, key, i).direction);
    forall k: nat, j: nat | k < |fills|
      ensures Matched(Slices(g.s.log), LotId(k, false), j) == Matched(Slices(s.log), LotId(k, false), j)
    {
      CloseShares(s, fills, i, Outward, k, j);
    }
  }

  lemma OrdinarySteps(s: State, fills: seq<Fill>, i: nat, was: Replacements)
    requires i < |fills| && Usable(fills) && !fills[i].transferOut && LaidBook(s, fills, fills[i].Key(), i)
    requires fills[i].Key() in s.books && Apart(fills, was) && Fees.Unrolled(s)
    requires forall k :: k in s.order ==> exists j :: 0 <= j < |fills| && fills[j].Key() == k
    ensures Stepped(s, Settle(CloseOrdinary(s, i, fills[i], was, 0.0), i, fills[i], 0.0), fills, i)
  {
    hide Laid, Matched, Slices, CloseOn, Count, Common, Settle, CloseOrdinary, Fees.Unrolled, Apart;
    var f := fills[i];
    var key := f.Key();
    var g := CloseOn(s, Book(key), f.Closing(), i, f, f.qty, Own, 0.0);
    ClosesOwnBook(s, fills, i, was);
    CloseFrames(s, key, f.Closing(), i, f, Own);
    CloseShares(s, fills, i, Own, i, i);
    var p := if g.left > 0.0 && f.symbol.IsOption() then TouchPool(g.s, f.Roll()) else g.s;
    SettleIsLaid(p, fills, i, g.left);
    forall k: nat, j: nat | k < |fills|
      ensures Matched(Slices(g.s.log), LotId(k, false), j) - Matched(Slices(s.log), LotId(k, false), j)
              == if j == i then Common(fills, key, k, i) else 0.0
    {
      CloseShares(s, fills, i, Own, k, j);
    }
  }

  lemma SteppedIsLaid(s: State, s': State, fills: seq<Fill>, i: nat)
    requires i < |fills| && LaidRun(s, fills, i) && Stepped(s, s', fills, i)
    ensures LaidRun(s', fills, i + 1)
  {
    hide Laid, Matched, Slices, Common, Count;
    var next := i + 1;
    forall key ensures LaidBook(s', fills, key, next) {
      if key != fills[i].Key() {
        CountNext(fills, key, i);
        assert LaidBook(s, fills, key, i);
        LaidStays(On(s, Book(key)), fills, key, i, Exited(fills, key, i), Count(fills, key, i).direction);
      }
    }
    forall k: nat, j: nat | k < |fills|
      ensures Matched(Slices(s'.log), LotId(k, false), j) == CommonBy(fills, k, j, i + 1)
    {
      assert Matched(Slices(s.log), LotId(k, false), j) == CommonBy(fills, k, j, i);
    }
  }

  lemma Touched(s: State, fills: seq<Fill>, i: nat)
    requires i < |fills| && LaidRun(s, fills, i)
    ensures LaidRun(TouchBook(s, fills[i].Key()), fills, i)
  {
    hide Laid, Matched, Slices, CommonBy, Count;
    var s1 := TouchBook(s, fills[i].Key());
    forall key ensures LaidBook(s1, fills, key, i) {
      assert LaidBook(s, fills, key, i) && On(s1, Book(key)) == On(s, Book(key));
    }
  }

  lemma StepIsLaid(s: State, fills: seq<Fill>, i: nat, was: Replacements)
    requires i < |fills| && Plainly(fills, was) && LaidRun(s, fills, i) && Fees.Unrolled(s)
    ensures LaidRun(Step(s, i, fills[i], was, 0.0), fills, i + 1) && Fees.Unrolled(Step(s, i, fills[i], was, 0.0))
  {
    hide LaidBook, SlicesAre, Settle, CloseOrdinary, SendOut, Stepped, Fees.Unrolled, Apart;
    var s1 := TouchBook(s, fills[i].Key());
    Touched(s, fills, i);
    Fees.SamePlain(s, s1);
    Fees.StepPlain(s, i, fills[i], was, 0.0);
    if fills[i].transferOut {
      OutSteps(s1, fills, i);
    } else {
      OrdinarySteps(s1, fills, i, was);
    }
    SteppedIsLaid(s1, Step(s, i, fills[i], was, 0.0), fills, i);
  }

  lemma StartIsLaid(fills: seq<Fill>)
    ensures LaidRun(Start(map[]), fills, 0) && Fees.Unrolled(Start(map[]))
  {
  }

  lemma {:induction false} RunIsLaid(fills: seq<Fill>, i: nat, was: Replacements)
    requires i <= |fills| && Plainly(fills, was)
    ensures LaidRun(Run(fills, i, map[], was, 0.0), fills, i) && Fees.Unrolled(Run(fills, i, map[], was, 0.0))
  {
    hide Step, LaidRun, Fees.Unrolled, Plainly;
    if i == 0 {
      StartIsLaid(fills);
    } else {
      RunIsLaid(fills, i - 1, was);
      StepIsLaid(Run(fills, i - 1, map[], was, 0.0), fills, i - 1, was);
    }
  }

  /** For every such run over any number of books, and every two of its fills: what the second closed
      of the lot the first opened is exactly what their intervals share, in the second's own book;
      and coins sent out are in no slice. */
  lemma FifoIsOverlap(fills: seq<Fill>, was: Replacements, k: nat, j: nat)
    requires Plainly(fills, was) && k < |fills| && j < |fills|
    ensures Matched(Slices(Run(fills, |fills|, map[], was, 0.0).log), LotId(k, false), j)
            == if fills[j].transferOut then 0.0 else Common(fills, fills[j].Key(), k, j)
  {
    hide Run, Matched, Slices, Common, Plainly, LaidBook;
    RunIsLaid(fills, |fills|, was);
  }

  /** Every book then holds what entered and has not left, all of it one way. */
  lemma BookHoldsTheRest(fills: seq<Fill>, was: Replacements, key: BookKey)
    requires Plainly(fills, was)
    ensures var lots := On(Run(fills, |fills|, map[], was, 0.0), Book(key));
            var t := Count(fills, key, |fills|);
            && (forall l :: l in lots ==> l.direction == t.direction)
            && OpenQty(lots, t.direction) == t.entered - t.exited
  {
    hide Run, Laid, Count, SlicesAre, Apart;
    RunIsLaid(fills, |fills|, was);
    var s := Run(fills, |fills|, map[], was, 0.0);
    assert LaidBook(s, fills, key, |fills|);
    CountRises(fills, key, |fills|, |fills|);
    QueueHolds(On(s, Book(key)), fills, key, |fills|, Exited(fills, key, |fills|),
        Count(fills, key, |fills|).direction);
  }

  lemma {:induction false} QueueHolds(lots: seq<Lot>, fills: seq<Fill>, key: BookKey, i: nat, from: real,
      dir: Direction)
    requires i <= |fills| && Usable(fills) && 0.0 <= from <= Entered(fills, key, i)
    requires Laid(lots, fills, key, i, from, dir)
    ensures OpenQty(lots, dir) == Entered(fills, key, i) - from && forall l :: l in lots ==> l.direction == dir
    decreases |lots|
  {
    hide Laid, Entered, Exited;
    EmptyAtEnd(lots, fills, key, i, from, dir);
    if lots != [] {
      FirstStarts(lots, fills, key, i, from, dir);
      RestIsLaid(lots, fills, key, i, from, dir);
      CountRises(fills, key, lots[0].id.fill + 1, i);
      QueueHolds(lots[1..], fills, key, i, Entered(fills, key, lots[0].id.fill + 1), dir);
    }
  }

  // ----- books that stand one way

  /** Units of the book traded on one side by the first `i` fills. */
  function Traded(fills: seq<Fill>, key: BookKey, i: nat, side: Side): real
    requires i <= |fills|
  {
    if i == 0 then 0.0
    else
      Traded(fills, key, i - 1, side)
      + if fills[i - 1].Key() == key && fills[i - 1].side == side then fills[i - 1].qty else 0.0
  }

  function OpeningSide(d: Direction): Side {
    if d.Long? then Buy else Sell
  }

  function ClosingSide(d: Direction): Side {
    if d.Long? then Sell else Buy
  }

  /** The book is only ever opened one way, and never closed beyond what it holds. */
  ghost predicate OneWay(fills: seq<Fill>, key: BookKey, d: Direction) {
    && (forall i :: 0 <= i < |fills| && fills[i].Key() == key && fills[i].side == OpeningSide(d) ==>
          fills[i].Opening() == Some(d))
    && (forall i :: 0 <= i < |fills| && fills[i].Key() == key ==> !fills[i].transferOut)
    && (forall i: nat :: i <= |fills| ==>
          Traded(fills, key, i, ClosingSide(d)) <= Traded(fills, key, i, OpeningSide(d)))
  }

  /** Such a book's intervals are those of what was bought and of what was sold: bought first and
      sold after, or sold short first and bought back. */
  lemma {:induction false} OneWayCounts(fills: seq<Fill>, key: BookKey, d: Direction, i: nat)
    requires i <= |fills| && Usable(fills) && OneWay(fills, key, d)
    ensures Entered(fills, key, i) == Traded(fills, key, i, OpeningSide(d))
    ensures Exited(fills, key, i) == Traded(fills, key, i, ClosingSide(d))
    ensures Entered(fills, key, i) > Exited(fills, key, i) ==> Count(fills, key, i).direction == d
  {
    if i > 0 {
      OneWayCounts(fills, key, d, i - 1);
      var f := fills[i - 1];
      assert Traded(fills, key, i, ClosingSide(d)) <= Traded(fills, key, i, OpeningSide(d));
      assert f.side == OpeningSide(d) || f.side == ClosingSide(d);
    }
  }
}
