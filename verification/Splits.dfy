/** What the first book touched makes of its symbol's splits: each due by the day restates its lots,
    whatever the order they were found in, and the others wait. */
module Splits {
  import opened Trading
  import opened Lots
  import opened Matching

  /** What the splits due by the day come to, one after another. */
  function Due(todo: seq<Split>, day: int): Ratio {
    if todo == [] then 1.0
    else
      var rest := Due(todo[1..], day);
      if todo[0].day <= day then Times(todo[0].factor, rest) else rest
  }

  function Times(a: Ratio, b: Ratio): Ratio {
    assert a * b > 0.0;
    a * b
  }

  /** How many splits like `x` are not due. */
  function Waiting(todo: seq<Split>, day: int, x: Split): nat {
    if todo == [] then 0 else (if todo[0].day > day && todo[0] == x then 1 else 0) + Waiting(todo[1..], day, x)
  }

  /** A lot restated: its units by the factor, its price by the factor down. */
  predicate RestatedBy(l: Lot, l': Lot, factor: Ratio) {
    l' == l.(qty := l'.qty, price := l'.price) && l'.qty == l.qty * factor && l'.price * factor == l.price
  }

  ghost predicate AllRestated(lots: seq<Lot>, lots': seq<Lot>, factor: Ratio) {
    |lots'| == |lots| && forall i :: 0 <= i < |lots| ==> RestatedBy(lots[i], lots'[i], factor)
  }

  lemma TimesIs(a: Ratio, b: Ratio, c: Ratio)
    ensures Times(a, b) == Times(b, a) && Times(a, Times(b, c)) == Times(b, Times(a, c))
  {
    assert a * (b * c) == b * (a * c);
  }

  lemma {:induction false} InsertDue(x: Split, todo: seq<Split>, day: int, y: Split)
    ensures var all := InsertSplit(x, todo);
            && Due(all, day) == Due([x] + todo, day) && Waiting(all, day, y) == Waiting([x] + todo, day, y)
  {
    assert ([x] + todo)[1..] == todo;
    if todo != [] && x.day > todo[0].day {
      InsertDue(x, todo[1..], day, y);
      assert ([x] + todo[1..])[1..] == todo[1..];
      var rest := InsertSplit(x, todo[1..]);
      assert ([todo[0]] + rest)[1..] == rest;
      TimesIs(todo[0].factor, x.factor, Due(todo[1..], day));
    }
  }

  lemma {:induction false} SortDue(todo: seq<Split>, day: int, y: Split)
    ensures Due(SortSplits(todo), day) == Due(todo, day) && Waiting(SortSplits(todo), day, y) == Waiting(todo, day, y)
  {
    if todo != [] {
      SortDue(todo[1..], day, y);
      var rest := SortSplits(todo[1..]);
      InsertDue(todo[0], rest, day, y);
      assert ([todo[0]] + rest)[1..] == rest;
    }
  }

  lemma {:induction false} RestateAll(lots: seq<Lot>, factor: Ratio)
    ensures AllRestated(lots, Restate(lots, factor), factor)
  {
    hide RestatedBy, RestateLot;
    if lots != [] {
      RestateAll(lots[1..], factor);
      OneRestated(lots[0], factor);
      forall i | 0 <= i < |lots| ensures RestatedBy(lots[i], Restate(lots, factor)[i], factor) {
        if i > 0 {
          assert RestatedBy(lots[1..][i - 1], Restate(lots[1..], factor)[i - 1], factor);
        }
      }
    }
  }

  lemma OneRestated(l: Lot, factor: Ratio)
    ensures RestatedBy(l, RestateLot(l, factor), factor)
  {
  }

  lemma RestatedTwice(l: Lot, m: Lot, r: Lot, a: Ratio, b: Ratio)
    requires RestatedBy(l, m, a) && RestatedBy(m, r, b)
    ensures RestatedBy(l, r, Times(a, b))
  {
    assert l.qty * a * b == l.qty * (a * b);
    assert r.price * (a * b) == r.price * b * a;
  }

  lemma AllTwice(l: seq<Lot>, m: seq<Lot>, r: seq<Lot>, a: Ratio, b: Ratio)
    requires AllRestated(l, m, a) && AllRestated(m, r, b)
    ensures AllRestated(l, r, Times(a, b))
  {
    hide RestatedBy, Times;
    forall i | 0 <= i < |l| ensures RestatedBy(l[i], r[i], Times(a, b)) {
      RestatedTwice(l[i], m[i], r[i], a, b);
    }
  }

  lemma AllOnce(lots: seq<Lot>)
    ensures AllRestated(lots, lots, 1.0)
  {
  }

  lemma {:induction false} BookRestated(s: State, k: BookKey, todo: seq<Split>, day: int)
    requires k in s.books
    ensures var s' := SplitBook(s, k, todo, day);
            && AllRestated(On(s, Book(k)), On(s', Book(k)), Due(todo, day)) && k in s'.books
            && (forall at :: at != Book(k) ==> On(s', at) == On(s, at)) && s'.pending == s.pending
    decreases |todo|
  {
    hide AllRestated, Restate, RestateEntries, Times;
    if todo == [] {
      AllOnce(On(s, Book(k)));
    } else if todo[0].day <= day {
      var lots := On(s, Book(k));
      RestateAll(lots, todo[0].factor);
      var s1 := Put(s, Book(k), Restate(lots, todo[0].factor), RestateEntries(lots, todo[0].factor));
      BookRestated(s1, k, todo[1..], day);
      AllTwice(lots, On(s1, Book(k)), On(SplitBook(s1, k, todo[1..], day), Book(k)), todo[0].factor,
          Due(todo[1..], day));
    } else {
      BookRestated(s, k, todo[1..], day);
    }
  }

  lemma {:induction false} LaterWaits(todo: seq<Split>, day: int, y: Split)
    ensures Waiting(Later(todo, day), day, y) == Waiting(todo, day, y)
    ensures Later(todo, day) == [] <==> forall i :: 0 <= i < |todo| ==> todo[i].day <= day
    ensures forall x :: x in Later(todo, day) ==> x.day > day
  {
    if todo != [] {
      LaterWaits(todo[1..], day, y);
      var rest := Later(todo[1..], day);
      assert [] + rest == rest && ([todo[0]] + rest)[1..] == rest;
    }
  }

  /** The splits pending of an account and symbol. */
  function PendingOf(s: State, k: BookKey): seq<Split> {
    if SplitKey(k.account, k.symbol) in s.pending then s.pending[SplitKey(k.account, k.symbol)] else []
  }

  /** A book touched restates its lots by all the splits then due of its account and symbol, and those
      only; the others wait, none of them due; and no other book or pool, and no other symbol's
      splits, are touched. */
  lemma SplitsAreTaken(s: State, k: BookKey, day: int, y: Split)
    requires k in s.books
    ensures var s' := ApplySplits(s, k, day);
            && AllRestated(On(s, Book(k)), On(s', Book(k)), Due(PendingOf(s, k), day))
            && (forall at :: at != Book(k) ==> On(s', at) == On(s, at))
            && (forall x :: x in PendingOf(s', k) ==> x.day > day)
            && Waiting(PendingOf(s', k), day, y) == Waiting(PendingOf(s, k), day, y)
            && (forall sk :: sk != SplitKey(k.account, k.symbol) ==>
                  (sk in s'.pending <==> sk in s.pending) && (sk in s.pending ==> s'.pending[sk] == s.pending[sk]))
  {
    hide SplitBook, SortSplits, AllRestated, Due, Later, Waiting;
    var todo := PendingOf(s, k);
    SortDue(todo, day, y);
    var sorted := SortSplits(todo);
    LaterWaits(sorted, day, y);
    BookRestated(s, k, sorted, day);
    NothingDue(day, y);
    AllOnce(On(s, Book(k)));
  }

  lemma NothingDue(day: int, y: Split)
    ensures Due([], day) == 1.0 && Waiting([], day, y) == 0
  {
  }
}
