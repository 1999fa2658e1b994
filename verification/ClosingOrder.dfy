/** What a fill closes first, past its own book: of a rolled chain, the legs carried forward, then the
    older contract of the nearest expiry, and so on; of replaced tickers, the book met first. */
module ClosingOrder {
  import opened Trading
  import opened Ledger
  import opened Lots
  import opened LotsProofs
  import opened Matching
  import Leavings
  import Splits

  /** The day a book's contract expires, as text. */
  function Expiry(k: BookKey): string {
    match k.symbol.contract
    case Some(c) => c.expiry
    case None => ""
  }

  /** A book's key as it is written. */
  function KeyText(k: BookKey): string {
    k.account + "::" + k.symbol.text + "::" + k.currency
  }

  /** It expires first, or on the same day and its key is the earlier text. */
  predicate Sooner(a: BookKey, b: BookKey) {
    TextLess(Expiry(a), Expiry(b)) || (Expiry(a) == Expiry(b) && TextLess(KeyText(a), KeyText(b)))
  }

  /** Another contract of the fill's account, currency, underlying and right. */
  predicate OfChain(k: BookKey, f: Fill) {
    && k != f.Key() && k.account == f.account && k.currency == f.currency
    && match (k.symbol.contract, f.symbol.contract)
       case (Some(c), Some(d)) => c.underlying == d.underlying && c.right == d.right
       case _ => false
  }

  /** Nothing of the direction is at the head. */
  predicate Stopped(lots: seq<Lot>, dir: Direction) {
    lots == [] || lots[0].direction != dir
  }

  ghost predicate AllPositive(s: State) {
    forall at :: Positive(On(s, at))
  }

  // ----- the order of the chain

  lemma BeforeIsSooner(a: BookKey, b: BookKey, f: Fill)
    requires OfChain(a, f) && OfChain(b, f)
    ensures Before(a, b) <==> Sooner(a, b)
  {
    var p := f.account + "::";
    LessAfter(p, a.symbol.text + "::" + a.currency, b.symbol.text + "::" + b.currency);
    assert KeyText(a) == p + (a.symbol.text + "::" + a.currency);
    assert KeyText(b) == p + (b.symbol.text + "::" + b.currency);
    LessIsOrder(Expiry(a), Expiry(b), Expiry(a));
  }

  lemma SoonerIsOrder(a: BookKey, b: BookKey, c: BookKey)
    ensures Sooner(a, b) ==> !Sooner(b, a)
    ensures !Sooner(b, a) && !Sooner(c, b) ==> !Sooner(c, a)
  {
    hide KeyText, Expiry;
    LessIsOrder(Expiry(a), Expiry(b), Expiry(c));
    LessIsOrder(Expiry(c), Expiry(a), Expiry(b));
    LessIsOrder(Expiry(b), Expiry(c), Expiry(a));
    LessIsOrder(Expiry(b), Expiry(a), Expiry(c));
    LessIsOrder(KeyText(a), KeyText(b), KeyText(c));
    LessIsOrder(KeyText(c), KeyText(a), KeyText(b));
    LessIsOrder(KeyText(b), KeyText(c), KeyText(a));
    LessIsOrder(KeyText(b), KeyText(a), KeyText(c));
  }

  ghost predicate InChain(ks: seq<BookKey>, f: Fill) {
    forall i :: 0 <= i < |ks| ==> OfChain(ks[i], f)
  }

  ghost predicate Soonest(ks: seq<BookKey>) {
    forall i, j :: 0 <= i < j < |ks| ==> !Sooner(ks[j], ks[i])
  }

  lemma {:induction false} InsertSorts(k: BookKey, ks: seq<BookKey>, f: Fill)
    requires OfChain(k, f) && InChain(ks, f) && Soonest(ks)
    ensures InChain(Insert(k, ks), f) && Soonest(Insert(k, ks))
    ensures forall x :: x in Insert(k, ks) <==> x == k || x in ks
  {
    hide OfChain, Sooner, Before;
    if ks != [] && !Before(ks[0], k) {
      BeforeIsSooner(ks[0], k, f);
      forall j | 0 <= j < |ks| ensures !Sooner(ks[j], k) {
        SoonerIsOrder(k, ks[0], ks[j]);
      }
    } else if ks != [] {
      BeforeIsSooner(ks[0], k, f);
      SoonerIsOrder(ks[0], k, k);
      InsertSorts(k, ks[1..], f);
      var rest := Insert(k, ks[1..]);
      forall j | 0 <= j < |rest| ensures !Sooner(rest[j], ks[0]) {
        assert rest[j] in rest;
        if rest[j] != k {
          var i :| 0 <= i < |ks[1..]| && ks[1..][i] == rest[j];
          assert ks[i + 1] == rest[j];
        }
      }
    }
  }

  lemma {:induction false} OldersSort(books: map<BookKey, seq<Lot>>, order: seq<BookKey>, f: Fill)
    ensures var ks := Olders(books, order, f);
            && InChain(ks, f) && Soonest(ks)
            && (forall k :: k in ks <==> k in order && OfChain(k, f) && k in books && books[k] != [])
  {
    hide OfChain, Sooner, Before, Insert, OlderContract;
    if order != [] {
      var k := order[|order| - 1];
      OldersSort(books, order[..|order| - 1], f);
      OlderIsOfChain(books, k, f);
      if OlderContract(books, k, f) {
        InsertSorts(k, Olders(books, order[..|order| - 1], f), f);
      }
    }
  }

  lemma OlderIsOfChain(books: map<BookKey, seq<Lot>>, k: BookKey, f: Fill)
    ensures OlderContract(books, k, f) <==> OfChain(k, f) && k in books && books[k] != []
  {
  }

  // ----- closing in that order

  lemma {:induction false} TakePositive(lots: seq<Lot>, dir: Direction, x: Exit, n: nat, left: real, mode: Mode,
      eps: real)
    requires Positive(lots) && eps >= 0.0
    ensures Positive(Take(lots, dir, x, n, left, mode, eps).lots)
    decreases |lots|
  {
    hide MatchEntries, FeeShare;
    if Takes(lots, dir, left, mode, eps) && lots[0].qty - Min(lots[0].qty, left) <= eps {
      TakePositive(lots[1..], dir, x, n, left - Min(lots[0].qty, left), mode, eps);
    }
  }

  lemma CloseOnPositive(s: State, at: Shelf, dir: Direction, n: nat, f: Fill, left: real, mode: Mode, eps: real)
    requires AllPositive(s) && eps >= 0.0 && left >= 0.0
    ensures var g := CloseOn(s, at, dir, n, f, left, mode, eps);
            && AllPositive(g.s) && g.left >= 0.0 && !Takes(On(g.s, at), dir, g.left, mode, eps)
            && forall other :: other != at ==> On(g.s, other) == On(s, other)
  {
    hide Take, Positive;
    assert Positive(On(s, at));
    Leavings.CloseOnStops(s, at, dir, n, f, left, mode, eps);
    var g := CloseOn(s, at, dir, n, f, left, mode, eps);
    if Takes(On(s, at), dir, left, mode, eps) {
      TakePositive(On(s, at), dir, ExitOf(n, f), n, left, mode, eps);
      LeftIsLeft(On(s, at), dir, ExitOf(n, f), n, left, mode, eps);
    }
    forall other ensures Positive(On(g.s, other)) {
      assert Positive(On(s, other));
    }
  }

  lemma LeftIsLeft(lots: seq<Lot>, dir: Direction, x: Exit, n: nat, left: real, mode: Mode, eps: real)
    requires Positive(lots) && eps >= 0.0 && left >= 0.0
    ensures Take(lots, dir, x, n, left, mode, eps).left >= 0.0
  {
    hide Take;
    TakeLeaves(lots, dir, x, n, left, mode, eps);
  }

  /** A fill with nothing left closes nothing more. */
  lemma {:induction false} NothingLeft(s: State, ks: seq<BookKey>, dir: Direction, n: nat, f: Fill, left: real,
      eps: real)
    requires left <= eps
    ensures CloseOlder(s, ks, dir, n, f, left, eps) == Going(s, left)
    decreases |ks|
  {
    if ks != [] {
      NothingLeft(s, ks[1..], dir, n, f, left, eps);
    }
  }

  /** A book with nothing of the direction at its head is left as it is. */
  lemma {:induction false} StaysStopped(s: State, ks: seq<BookKey>, dir: Direction, n: nat, f: Fill, left: real,
      eps: real, k: BookKey)
    requires Stopped(On(s, Book(k)), dir)
    ensures On(CloseOlder(s, ks, dir, n, f, left, eps).s, Book(k)) == On(s, Book(k))
    decreases |ks|
  {
    hide Take;
    if ks != [] {
      var g := CloseOn(s, Book(ks[0]), dir, n, f, left, Older, eps);
      StaysStopped(g.s, ks[1..], dir, n, f, g.left, eps, k);
    }
  }

  /** Of books closed in turn, one is come to only when all before it have no more to give. */
  lemma {:induction false} InTurn(s: State, ks: seq<BookKey>, i: nat, dir: Direction, n: nat, f: Fill, left: real,
      eps: real, far: BookKey)
    requires AllPositive(s) && eps >= 0.0 && left >= 0.0 && i < |ks| && far !in ks[..i + 1]
    ensures var g := CloseOlder(s, ks, dir, n, f, left, eps);
            On(g.s, Book(far)) != On(s, Book(far)) ==> Stopped(On(g.s, Book(ks[i])), dir)
    decreases |ks|
  {
    hide CloseOn, AllPositive, Stopped;
    assert ks[0] in ks[..i + 1];
    CloseOnPositive(s, Book(ks[0]), dir, n, f, left, Older, eps);
    var g := CloseOn(s, Book(ks[0]), dir, n, f, left, Older, eps);
    if i > 0 {
      assert ks[1..][..i] == ks[..i + 1][1..];
      InTurn(g.s, ks[1..], i - 1, dir, n, f, g.left, eps, far);
    } else if g.left <= eps {
      NothingLeft(g.s, ks[1..], dir, n, f, g.left, eps);
    } else {
      assert Stopped(On(g.s, Book(ks[0])), dir) by { HeadStops(On(g.s, Book(ks[0])), dir, g.left, eps); }
      StaysStopped(g.s, ks[1..], dir, n, f, g.left, eps, ks[0]);
    }
  }

  lemma HeadStops(lots: seq<Lot>, dir: Direction, left: real, eps: real)
    requires !Takes(lots, dir, left, Older, eps) && left > eps
    ensures Stopped(lots, dir)
  {
  }

  // ----- the whole close

  /** Whatever the state: where a fill of a rolled chain changes the book of an older contract, every
      older contract that expires sooner, or on the same day under an earlier key, has nothing of
      that direction at its head any more. */
  lemma NearestFirst(s: State, dir: Direction, n: nat, f: Fill, left: real, eps: real, near: BookKey, far: BookKey)
    requires AllPositive(s) && eps >= 0.0 && left >= 0.0
    requires near in s.order && OfChain(near, f) && Sooner(near, far)
    ensures var g := CloseRolled(s, dir, n, f, left, eps);
            On(g.s, Book(far)) != On(s, Book(far)) ==> Stopped(On(g.s, Book(near)), dir)
  {
    hide AllPositive, CloseOn, CloseOlder, Olders, OfChain, Sooner, Stopped;
    var s0 := TouchPool(s, f.Roll());
    Touched(s, f.Roll());
    var at := Carried(f.Roll(), dir);
    CloseOnPositive(s0, at, dir, n, f, left, Pooled, eps);
    var g := CloseOn(s0, at, dir, n, f, left, Pooled, eps);
    SameOrder(s0, at, dir, n, f, left, eps);
    if g.left > eps && f.Roll() in g.s.rolledKeys {
      var ks := Olders(g.s.books, g.s.order, f);
      OldersSort(g.s.books, g.s.order, f);
      if near in ks {
        var i :| 0 <= i < |ks| && ks[i] == near;
        forall j | 0 <= j <= i ensures ks[j] != far {
          SoonerIsOrder(near, far, far);
        }
        InTurn(g.s, ks, i, dir, n, f, g.left, eps, far);
      } else {
        EmptyStops(g.s, near, dir);
        StaysStopped(g.s, ks, dir, n, f, g.left, eps, near);
      }
    }
  }

  lemma EmptyStops(s: State, k: BookKey, dir: Direction)
    requires !(k in s.books && s.books[k] != [])
    ensures Stopped(On(s, Book(k)), dir)
  {
  }

  lemma Touched(s: State, r: RollKey)
    requires AllPositive(s)
    ensures var s0 := TouchPool(s, r);
            AllPositive(s0) && forall at :: On(s0, at) == On(s, at)
  {
    hide Positive;
    var s0 := TouchPool(s, r);
    forall at ensures On(s0, at) == On(s, at) && Positive(On(s0, at)) {
      assert Positive(On(s, at));
    }
  }

  lemma SameOrder(s: State, at: Shelf, dir: Direction, n: nat, f: Fill, left: real, eps: real)
    ensures var g := CloseOn(s, at, dir, n, f, left, Pooled, eps);
            g.s.order == s.order && g.s.rolledKeys == s.rolledKeys
  {
    hide Take;
  }

  /** And it changes none but books of its chain, once the chain has been rolled and no leg is carried
      forward that it closes. */
  lemma CarriedFirst(s: State, dir: Direction, n: nat, f: Fill, left: real, eps: real, k: BookKey)
    requires AllPositive(s) && eps >= 0.0 && left >= 0.0
    ensures var g := CloseRolled(s, dir, n, f, left, eps);
            On(g.s, Book(k)) != On(s, Book(k)) ==>
              && OfChain(k, f) && k in s.order && f.Roll() in s.rolledKeys
              && On(g.s, Carried(f.Roll(), dir)) == []
  {
    hide AllPositive, CloseOn, CloseOlder, Olders, OfChain;
    var s0 := TouchPool(s, f.Roll());
    Touched(s, f.Roll());
    var at := Carried(f.Roll(), dir);
    CloseOnPositive(s0, at, dir, n, f, left, Pooled, eps);
    var g := CloseOn(s0, at, dir, n, f, left, Pooled, eps);
    SameOrder(s0, at, dir, n, f, left, eps);
    if g.left > eps && f.Roll() in g.s.rolledKeys {
      var ks := Olders(g.s.books, g.s.order, f);
      OldersSort(g.s.books, g.s.order, f);
      Leavings.CloseOlderElsewhere(g.s, ks, dir, n, f, g.left, eps, at);
      if k !in ks {
        Leavings.CloseOlderElsewhere(g.s, ks, dir, n, f, g.left, eps, Book(k));
      }
    }
  }

  // ----- replaced tickers

  /** A book of the fill's account and currency, of another symbol that was removed on or before the
      fill's day and has not traded after its removal. */
  predicate IsReplaced(k: BookKey, f: Fill, was: Replacements) {
    && k != f.Key() && k.account == f.account && k.currency == f.currency
    && k in was.removed && was.removed[k] <= f.day
    && (k in was.trades ==> forall i :: 0 <= i < |was.trades[k]| ==> was.trades[k][i] <= was.removed[k])
  }

  lemma ReplacedIs(k: BookKey, f: Fill, was: Replacements)
    ensures k != f.Key() && k.account == f.account && k.currency == f.currency && was.Replaced(k, f.day)
            <==> IsReplaced(k, f, was)
  {
    if k in was.trades {
      var days := was.trades[k];
      assert forall i :: 0 <= i < |days| ==> days[i] in days;
      assert forall d :: d in days ==> exists i :: 0 <= i < |days| && days[i] == d;
    }
  }

  /** What one book in turn gives a sale. */
  function GivenBy(s: State, k: BookKey, n: nat, f: Fill, left: real, was: Replacements, eps: real): Going {
    if On(s, Book(k)) == [] || !IsReplaced(k, f, was) then Going(s, left)
    else CloseOn(s, Book(k), f.Closing(), n, f, left, Renamed, eps)
  }

  lemma OneReplaced(s: State, ks: seq<BookKey>, n: nat, f: Fill, left: real, was: Replacements, eps: real)
    requires ks != [] && left > eps
    ensures var g := GivenBy(s, ks[0], n, f, left, was, eps);
            CloseReplaced(s, ks, n, f, left, was, eps) == CloseReplaced(g.s, ks[1..], n, f, g.left, was, eps)
  {
    hide CloseOn, IsReplaced;
    ReplacedIs(ks[0], f, was);
  }

  /** Only replaced tickers' books are closed so. */
  lemma {:induction false} OnlyReplaced(s: State, ks: seq<BookKey>, n: nat, f: Fill, left: real, was: Replacements,
      eps: real, k: BookKey)
    ensures On(CloseReplaced(s, ks, n, f, left, was, eps).s, Book(k)) != On(s, Book(k)) ==>
              IsReplaced(k, f, was) && k in ks
    decreases |ks|
  {
    hide CloseReplaced, CloseOn, IsReplaced;
    if ks == [] || left <= eps {
      NoneReplaced(s, ks, n, f, left, was, eps);
    } else {
      var g := GivenBy(s, ks[0], n, f, left, was, eps);
      OneReplaced(s, ks, n, f, left, was, eps);
      OnlyReplaced(g.s, ks[1..], n, f, g.left, was, eps, k);
      if k != ks[0] {
        Leavings.CloseOnElsewhere(s, Book(ks[0]), f.Closing(), n, f, left, Renamed, eps, Book(k));
      }
    }
  }

  lemma NoneReplaced(s: State, ks: seq<BookKey>, n: nat, f: Fill, left: real, was: Replacements, eps: real)
    requires ks == [] || left <= eps
    ensures CloseReplaced(s, ks, n, f, left, was, eps) == Going(s, left)
  {
  }

  lemma {:induction false} StaysGiven(s: State, ks: seq<BookKey>, n: nat, f: Fill, left: real, was: Replacements,
      eps: real, k: BookKey)
    requires Stopped(On(s, Book(k)), f.Closing())
    ensures On(CloseReplaced(s, ks, n, f, left, was, eps).s, Book(k)) == On(s, Book(k))
    decreases |ks|
  {
    hide CloseReplaced, Take, IsReplaced;
    if ks == [] || left <= eps {
      NoneReplaced(s, ks, n, f, left, was, eps);
    } else {
      var g := GivenBy(s, ks[0], n, f, left, was, eps);
      OneReplaced(s, ks, n, f, left, was, eps);
      StaysGiven(g.s, ks[1..], n, f, g.left, was, eps, k);
    }
  }

  /** A later book is closed only when every replaced one before it has nothing more to give. */
  lemma {:induction false} ReplacedInTurn(s: State, ks: seq<BookKey>, i: nat, n: nat, f: Fill, left: real,
      was: Replacements, eps: real, far: BookKey)
    requires AllPositive(s) && eps >= 0.0 && left >= 0.0 && i < |ks| && far !in ks[..i + 1] && IsReplaced(ks[i], f, was)
    ensures var g := CloseReplaced(s, ks, n, f, left, was, eps);
            On(g.s, Book(far)) != On(s, Book(far)) ==> Stopped(On(g.s, Book(ks[i])), f.Closing())
    decreases |ks|
  {
    hide CloseReplaced, CloseOn, AllPositive, Stopped, IsReplaced;
    if left <= eps {
      NoneReplaced(s, ks, n, f, left, was, eps);
    } else {
      assert ks[0] in ks[..i + 1];
      var g := GivenBy(s, ks[0], n, f, left, was, eps);
      OneReplaced(s, ks, n, f, left, was, eps);
      CloseOnPositive(s, Book(ks[0]), f.Closing(), n, f, left, Renamed, eps);
      if i > 0 {
        assert ks[1..][..i] == ks[..i + 1][1..];
        ReplacedInTurn(g.s, ks[1..], i - 1, n, f, g.left, was, eps, far);
      } else if g.left <= eps {
        NoneReplaced(g.s, ks[1..], n, f, g.left, was, eps);
      } else {
        assert Stopped(On(g.s, Book(ks[0])), f.Closing()) by {
          GivenStops(On(g.s, Book(ks[0])), f.Closing(), g.left, eps);
        }
        StaysGiven(g.s, ks[1..], n, f, g.left, was, eps, ks[0]);
      }
    }
  }

  lemma GivenStops(lots: seq<Lot>, dir: Direction, left: real, eps: real)
    requires lots == [] || (!Takes(lots, dir, left, Renamed, eps) && left > eps)
    ensures Stopped(lots, dir)
  {
  }

  // ----- whose lots a fill touches

  /** A fill closes the legs of its own chain alone: those carried for its account, underlying and right. */
  lemma LegsOfTheChain(s: State, dir: Direction, n: nat, f: Fill, left: real, eps: real, r: RollKey, d: Direction)
    ensures var g := CloseRolled(s, dir, n, f, left, eps);
            On(g.s, Carried(r, d)) != On(s, Carried(r, d)) ==>
              d == dir && r.account == f.account
              && match f.symbol.contract
                 case Some(c) => r.underlying == c.underlying && r.right == c.right
                 case None => true
  {
    hide CloseOn, CloseOlder, Olders;
    var s0, at := TouchPool(s, f.Roll()), Carried(f.Roll(), dir);
    assert On(s0, Carried(r, d)) == On(s, Carried(r, d));
    var g := CloseOn(s0, at, dir, n, f, left, Pooled, eps);
    var ks := Olders(g.s.books, g.s.order, f);
    Leavings.CloseOlderElsewhere(g.s, ks, dir, n, f, g.left, eps, Carried(r, d));
    if at != Carried(r, d) {
      Leavings.CloseOnElsewhere(s0, at, dir, n, f, left, Pooled, eps, Carried(r, d));
    }
  }

  lemma ClosesOwnAccount(s: State, n: nat, f: Fill, was: Replacements, eps: real, k: BookKey)
    requires AllPositive(s) && eps >= 0.0 && f.qty >= 0.0
    ensures var g := CloseOrdinary(s, n, f, was, eps);
            On(g.s, Book(k)) != On(s, Book(k)) ==> k.account == f.account && k.currency == f.currency
  {
    hide AllPositive, CloseOn, CloseRolled, CloseReplaced;
    var own := Book(f.Key());
    CloseOnPositive(s, own, f.Closing(), n, f, f.qty, Own, eps);
    var g1 := CloseOn(s, own, f.Closing(), n, f, f.qty, Own, eps);
    if k != f.Key() {
      Leavings.CloseOnElsewhere(s, own, f.Closing(), n, f, f.qty, Own, eps, Book(k));
    }
    CarriedFirst(g1.s, f.Closing(), n, f, g1.left, eps, k);
    var g2 := if g1.left > eps && f.symbol.IsOption() then CloseRolled(g1.s, f.Closing(), n, f, g1.left, eps) else g1;
    OnlyReplaced(g2.s, g2.s.order, n, f, g2.left, was, eps, k);
  }

  /** No fill, of whatever kind, touches the books of another account or currency. */
  lemma StepsOwnAccount(s: State, n: nat, f: Fill, was: Replacements, eps: real, k: BookKey)
    requires AllPositive(s) && eps >= 0.0 && f.qty >= 0.0
    ensures On(Step(s, n, f, was, eps), Book(k)) != On(s, Book(k)) ==>
              k.account == f.account && k.currency == f.currency
  {
    hide AllPositive, CloseOn, CloseRolled, CloseOrdinary, ApplySplits, FeeShare, IsDust;
    var s0 := TouchBook(s, f.Key());
    assert On(s0, Book(k)) == On(s, Book(k));
    TouchedBook(s, f.Key());
    Splits.SplitsAreTaken(s0, f.Key(), f.day, Split(0, 1.0));
    var s1 := ApplySplits(s0, f.Key(), f.day);
    SplitPositive(s0, f.Key(), f.day);
    if k != f.Key() {
      if IsRoll(f) {
        RollsOwnAccount(s1, n, f, eps, k);
      } else if f.transferOut {
        Leavings.CloseOnElsewhere(s1, Book(f.Key()), Long, n, f, f.qty, Outward, eps, Book(k));
      } else {
        ClosesOwnAccount(s1, n, f, was, eps, k);
      }
    }
  }

  lemma TouchedBook(s: State, k: BookKey)
    requires AllPositive(s)
    ensures AllPositive(TouchBook(s, k)) && k in TouchBook(s, k).books
  {
    hide Positive;
    forall at ensures Positive(On(TouchBook(s, k), at)) {
      assert Positive(On(s, at));
      assert On(TouchBook(s, k), at) == On(s, at);
    }
  }

  lemma SplitPositive(s: State, k: BookKey, day: int)
    requires AllPositive(s) && k in s.books
    ensures AllPositive(ApplySplits(s, k, day))
  {
    hide ApplySplits, Positive;
    Splits.SplitsAreTaken(s, k, day, Split(0, 1.0));
    var s' := ApplySplits(s, k, day);
    forall at ensures Positive(On(s', at)) {
      assert Positive(On(s, at));
      if at == Book(k) {
        RestatedPositive(On(s, at), On(s', at), Splits.Due(Splits.PendingOf(s, k), day));
      }
    }
  }

  lemma RestatedPositive(lots: seq<Lot>, lots': seq<Lot>, factor: Ratio)
    requires Positive(lots) && Splits.AllRestated(lots, lots', factor)
    ensures Positive(lots')
  {
    forall i | 0 <= i < |lots'| ensures lots'[i].qty > 0.0 {
      assert Splits.RestatedBy(lots[i], lots'[i], factor);
      assert lots[i].qty * factor > 0.0;
    }
  }

  lemma RollsOwnAccount(s: State, n: nat, f: Fill, eps: real, k: BookKey)
    requires AllPositive(s) && eps >= 0.0 && f.qty >= 0.0 && k != f.Key() && IsRoll(f)
    ensures var g := CloseRoll(s, n, f, f.roll.value, eps);
            On(SettleRoll(g, n, f, f.roll.value, eps), Book(k)) != On(s, Book(k)) ==>
              k.account == f.account && k.currency == f.currency
  {
    hide AllPositive, CloseOn, CloseRolled, FeeShare, RollExit, RollEntry, PerUnit;
    var d := f.roll.value;
    var x := f.(price := RollExit(f, d));
    var own := Book(f.Key());
    CloseOnPositive(s, own, f.Closing(), n, x, f.qty, Own, eps);
    Leavings.CloseOnElsewhere(s, own, f.Closing(), n, x, f.qty, Own, eps, Book(k));
    var g := CloseOn(s, own, f.Closing(), n, x, f.qty, Own, eps);
    CarriedFirst(g.s, d, n, x, g.left, eps, k);
  }

  // ----- what becomes of what a fill did not close

  predicate Says(f: Fill, i: Intent) {
    f.intent == i || f.typeIntent == i
  }

  /** What units of a fill come to at its price, a contract being of a hundred. */
  function Comes(f: Fill, units: real): real {
    if f.symbol.contract.Some? then units * Abs(f.price) * 100.0 else units * Abs(f.price)
  }

  /** What is left of a sale is rounding: next to nothing of it, or, of coins, of the fill, or worth less
      than a cent. */
  predicate Rounding(f: Fill, left: real) {
    || left <= 0.000001 || left <= 0.000001 * f.qty || (f.crypto && left <= 0.01 * f.qty)
    || (f.price != 0.0 && Comes(f, left) < 0.01)
  }

  /** What is left of an ordinary fill beyond the tolerance opens a lot at its price, the way the fill
      goes, with its share of the commission: of a purchase or of a contract unless it says that it
      closes, of a sale of shares only where it says that it opens. Else it is let go, of a sale and
      where it is rounding; or is told as matched by nothing. */
  lemma SettledAs(g: Going, n: nat, f: Fill, eps: real)
    requires g.left > eps && !IsRoll(f)
    ensures var closes := Says(f, ToClose) || Says(f, Event);
            var opens := if f.side == Sell && f.symbol.contract.None? then Says(f, ToOpen) else !closes;
            var at, s := Book(f.Key()), Settle(g, n, f, eps);
            var fee := FeeShare(f.commission, g.left, f.qty);
            if opens then
              && On(s, at) == On(g.s, at) + [Lot(LotId(n, false), g.left, f.price, fee,
                                                 if f.side == Buy then Long else Short, f.symbol, f.day, f.crypto)]
              && |s.log| == |g.s.log| + 1 && s.log[|g.s.log|].Opened?
            else
              && On(s, at) == On(g.s, at)
              && s.log == g.s.log + [if f.side == Sell && Rounding(f, g.left) then Dust(n, g.left, fee)
                                     else Unmatched(Orphan(n, f.side, g.left, f.price), fee)]
  {
    hide FeeShare, Says, IsDust, Rounding;
    OpensWhere(f);
    DustIsRounding(g.left, f);
  }

  lemma OpensWhere(f: Fill)
    ensures var closes := Says(f, ToClose) || Says(f, Event);
            var opens := if f.side == Sell && f.symbol.contract.None? then Says(f, ToOpen) else !closes;
            f.Opening() == if opens then Some(if f.side == Buy then Long else Short) else None
  {
  }

  lemma DustIsRounding(left: real, f: Fill)
    ensures IsDust(left, f) <==> Rounding(f, left)
  {
    hide Worth, Comes;
    WorthComes(left, f);
  }

  lemma WorthComes(left: real, f: Fill)
    ensures Worth(f, left) == Comes(f, left)
  {
  }

  /** A lot is shown as a position unless it is next to nothing, or coins worth under a dollar. */
  lemma ShownWhere(l: Lot)
    ensures Shown(l) <==> l.qty > 0.000001 && (l.crypto ==> Value(l) >= 1.0)
  {
    hide Value;
  }
}
