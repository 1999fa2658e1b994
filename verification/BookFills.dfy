/** The fills the book makes of its own orders' readings, until the broker's row for the order
    takes their place. Over any log they telescope: together they are what last filled at a
    stated average, at that average, unless a price was withdrawn and stated again. */
module BookFills {
  import opened Trading
  import opened Orders

  datatype Request = Request(id: string, broker: string, side: Side)

  /** One booked fill: what it adds, what the order had filled after it, a unit's price, and the
      cash it moved where the size is known. */
  datatype Booking = Booking(
    order: string, brokerOrder: Option<string>, broker: string,
    quantity: real, filled: real, price: real, cash: Option<real>)

  datatype Amount = Amount(qty: real, total: real)

  const UNIT: real := 1000000000000.0

  /** To twelve places, a tie to the even digit. */
  function Rounded(x: real): (r: real)
    ensures -0.5 <= (r - x) * UNIT <= 0.5
    ensures exists n: int :: r == n as real / UNIT && (Abs(n as real - x * UNIT) == 0.5 ==> n % 2 == 0)
  {
    var y := x * UNIT;
    var part := y - y.Floor as real;
    var n := if part > 0.5 || (part == 0.5 && y.Floor % 2 != 0) then y.Floor + 1 else y.Floor;
    assert Abs(n as real - x * UNIT) == 0.5 ==> n % 2 == 0;
    n as real / UNIT
  }

  /** A buy pays, a sell is paid. */
  function Signed(side: Side, v: real): real {
    if side.Buy? then -v else v
  }

  function Times(a: real, b: real): real {
    a * b
  }

  /** What of an order is booked by the reading it stands at: all of it where that stated an
      average, nothing where it did not. */
  function Priced(f: Fold): Amount {
    match f.average
    case Some(a) => Amount(f.filled, Times(f.filled, a))
    case None => Amount(0.0, 0.0)
  }

  /** The fill that brings what is booked from `before` to `after`. */
  function FillOf(o: Request, before: Fold, after: Fold, size: Option<real>): Option<Booking> {
    var booked := Priced(before);
    var more := after.filled - booked.qty;
    if more <= 0.0 || after.average.None? then None
    else
      var perShare := Times(after.filled, after.average.value) - booked.total;
      var cash := match size case Some(s) => Some(Signed(o.side, Times(perShare, s))) case None => None;
      Some(Booking(o.id, after.brokerId, o.broker, more, after.filled, Rounded(perShare / more), cash))
  }

  /** A fill booked tells the order, what more of it has filled, and a unit's price: what the order then
      came to, less what it came to before, over the quantity. */
  lemma FillIsPriced(o: Request, before: Fold, after: Fold, size: Option<real>)
    ensures var x := FillOf(o, before, after, size);
            var q0 := if before.average.Some? then before.filled else 0.0;
            && (x.Some? <==> after.average.Some? && after.filled > q0)
            && (x.Some? ==>
                  && x.value.order == o.id && x.value.broker == o.broker && x.value.brokerOrder == after.brokerId
                  && x.value.quantity == after.filled - q0 && x.value.filled == after.filled
                  && x.value.price == Rounded(UnitOf(before, after, x.value.quantity))
                  && UnitOf(before, after, x.value.quantity) * x.value.quantity
                     + (if before.average.Some? then before.filled * before.average.value else 0.0)
                     == after.filled * after.average.value)
  {
    hide Rounded, Signed;
    var q0 := if before.average.Some? then before.filled else 0.0;
    if after.average.Some? && after.filled > q0 {
      var cost := Times(after.filled, after.average.value) - Priced(before).total;
      assert cost / (after.filled - q0) * (after.filled - q0) == cost;
    }
  }

  function UnitOf(before: Fold, after: Fold, quantity: real): real
    requires after.average.Some? && quantity > 0.0
  {
    (Times(after.filled, after.average.value) - Priced(before).total) / quantity
  }

  // ----- over a log of one order

  /** An event told of an order, and the size of what it trades as the book then knows it. */
  datatype Told = Told(event: Event, size: Option<real>)

  function FoldAfter(f: Fold, ts: seq<Told>): Fold {
    if ts == [] then f else Next(FoldAfter(f, ts[..|ts| - 1]), ts[|ts| - 1].event)
  }

  function FillsOn(o: Request, before: Fold, t: Told): seq<Booking> {
    var after := Next(before, t.event);
    if after.filled <= before.filled then []
    else match FillOf(o, before, after, t.size) case Some(x) => [x] case None => []
  }

  /** What a log books while the broker has no row of its own for the order. */
  function Fills(o: Request, f: Fold, ts: seq<Told>): seq<Booking> {
    if ts == [] then [] else Fills(o, f, ts[..|ts| - 1]) + FillsOn(o, FoldAfter(f, ts[..|ts| - 1]), ts[|ts| - 1])
  }

  predicate RisesPriced(before: Fold, after: Fold) {
    after.filled > before.filled && after.average.Some?
  }

  /** What had filled when an average was last stated, and what that came to. */
  function Last(f: Fold, ts: seq<Told>): Amount {
    if ts == [] then Priced(f)
    else
      var before := FoldAfter(f, ts[..|ts| - 1]);
      var after := Next(before, ts[|ts| - 1].event);
      if RisesPriced(before, after) then Priced(after) else Last(f, ts[..|ts| - 1])
  }

  /** A reading states an average where the one before stated none and something was booked
      already: that is then booked again. */
  predicate ReturnsOn(before: Fold, after: Fold, last: Amount) {
    RisesPriced(before, after) && before.average.None? && last.qty > 0.0
  }

  /** A price was stated, withdrawn and stated again. */
  predicate Returns(f: Fold, ts: seq<Told>) {
    ts != []
    && (Returns(f, ts[..|ts| - 1])
        || var before := FoldAfter(f, ts[..|ts| - 1]);
           ReturnsOn(before, Next(before, ts[|ts| - 1].event), Last(f, ts[..|ts| - 1])))
  }

  /** What is booked a second time because of it. */
  function Twice(f: Fold, ts: seq<Told>): Amount {
    if ts == [] then Amount(0.0, 0.0)
    else
      var before, last, twice := FoldAfter(f, ts[..|ts| - 1]), Last(f, ts[..|ts| - 1]), Twice(f, ts[..|ts| - 1]);
      if RisesPriced(before, Next(before, ts[|ts| - 1].event)) && before.average.None?
      then Amount(twice.qty + last.qty, twice.total + last.total)
      else twice
  }

  function Quantity(fills: seq<Booking>): real {
    if fills == [] then 0.0 else Quantity(fills[..|fills| - 1]) + fills[|fills| - 1].quantity
  }

  function CashOf(x: Booking): real {
    match x.cash case Some(c) => c case None => 0.0
  }

  function Cash(fills: seq<Booking>): real {
    if fills == [] then 0.0 else Cash(fills[..|fills| - 1]) + CashOf(fills[|fills| - 1])
  }

  predicate SizeIs(ts: seq<Told>, s: real) {
    forall t :: t in ts ==> t.size == Some(s)
  }

  lemma Snoc(fills: seq<Booking>, x: Booking)
    ensures Quantity(fills + [x]) == Quantity(fills) + x.quantity
    ensures Cash(fills + [x]) == Cash(fills) + CashOf(x)
  {
    assert (fills + [x])[..|fills|] == fills;
  }

  /** Where the order stands at a stated average, that is the last one stated. */
  lemma {:induction false} StandsAtLast(f: Fold, ts: seq<Told>)
    ensures FoldAfter(f, ts).average.Some? ==> Last(f, ts) == Priced(FoldAfter(f, ts))
  {
    if ts != [] {
      StandsAtLast(f, ts[..|ts| - 1]);
      NextFollows(FoldAfter(f, ts[..|ts| - 1]), ts[|ts| - 1].event);
    }
  }

  lemma {:induction false} StaysSound(f: Fold, ts: seq<Told>)
    requires Sound(f)
    ensures Sound(FoldAfter(f, ts)) && 0.0 <= Last(f, ts).qty <= FoldAfter(f, ts).filled
    ensures Last(f, ts).qty == 0.0 ==> Last(f, ts).total == 0.0
    ensures 0.0 <= Twice(f, ts).qty && (Twice(f, ts).qty > 0.0 <==> Returns(f, ts))
    ensures Twice(f, ts).qty == 0.0 ==> Twice(f, ts).total == 0.0
  {
    if ts != [] {
      StaysSound(f, ts[..|ts| - 1]);
      NextFollows(FoldAfter(f, ts[..|ts| - 1]), ts[|ts| - 1].event);
    }
  }

  lemma Spread(side: Side, a: real, b: real, s: real)
    ensures Signed(side, Times(a + b, s)) == Signed(side, Times(a, s)) + Signed(side, Times(b, s))
  {
  }

  /** What is booked, quantity and cash: what was last priced, less what was before the log, and
      what was booked twice over. */
  ghost predicate Balances(o: Request, f: Fold, ts: seq<Told>, s: real) {
    && Quantity(Fills(o, f, ts)) == Last(f, ts).qty - Priced(f).qty + Twice(f, ts).qty
    && (SizeIs(ts, s) ==>
          Cash(Fills(o, f, ts)) == Signed(o.side, Times(Last(f, ts).total - Priced(f).total + Twice(f, ts).total, s)))
  }

  /** Over any log, whatever it tells. */
  lemma {:induction false} Telescopes(o: Request, f: Fold, ts: seq<Told>, s: real)
    requires f.filled >= 0.0
    ensures Balances(o, f, ts, s)
  {
    hide Balances, Sound;
    if ts == [] {
      NothingBalances(o, f, s);
    } else {
      var rest, t := ts[..|ts| - 1], ts[|ts| - 1];
      Telescopes(o, f, rest, s);
      TelescopesOn(o, f, rest, t, s);
      assert rest + [t] == ts;
    }
  }

  lemma NothingBalances(o: Request, f: Fold, s: real)
    ensures Balances(o, f, [], s)
  {
    hide Times, Signed;
    NoCash(o.side, s);
  }

  /** What one reading adds. */
  lemma FillIs(o: Request, before: Fold, t: Told)
    requires before.filled >= 0.0
    ensures var after := Next(before, t.event);
            if RisesPriced(before, after) then
              && |FillsOn(o, before, t)| == 1
              && FillsOn(o, before, t)[0].quantity == after.filled - Priced(before).qty
              && (t.size.Some? ==> FillsOn(o, before, t)[0].cash
                                   == Some(Signed(o.side,
                                       Times(Priced(after).total - Priced(before).total, t.size.value))))
            else FillsOn(o, before, t) == []
  {
    hide Next, Times, Signed;
  }

  lemma OneMore(o: Request, f: Fold, rest: seq<Told>, t: Told)
    ensures var before, ts := FoldAfter(f, rest), rest + [t];
            var after := Next(before, t.event);
            && FoldAfter(f, ts) == after
            && Fills(o, f, ts) == Fills(o, f, rest) + FillsOn(o, before, t)
            && Last(f, ts) == (if RisesPriced(before, after) then Priced(after) else Last(f, rest))
            && Twice(f, ts) == (if RisesPriced(before, after) && before.average.None? then
                                  Amount(Twice(f, rest).qty + Last(f, rest).qty,
                                      Twice(f, rest).total + Last(f, rest).total)
                                else Twice(f, rest))
  {
    hide Next, Priced, FillsOn;
    assert (rest + [t])[..|rest|] == rest;
  }

  /** What has filled never falls below none. */
  lemma {:induction false} FilledStays(f: Fold, ts: seq<Told>)
    requires f.filled >= 0.0
    ensures FoldAfter(f, ts).filled >= 0.0
  {
    if ts != [] {
      FilledStays(f, ts[..|ts| - 1]);
      NextFollows(FoldAfter(f, ts[..|ts| - 1]), ts[|ts| - 1].event);
    }
  }

  lemma TelescopesOn(o: Request, f: Fold, rest: seq<Told>, t: Told, s: real)
    requires f.filled >= 0.0 && Balances(o, f, rest, s)
    ensures Balances(o, f, rest + [t], s)
  {
    hide Times, Signed, Next, Fills, FillsOn, Last, Twice, FoldAfter, Quantity, Cash, Sound;
    var before := FoldAfter(f, rest);
    var after := Next(before, t.event);
    OneMore(o, f, rest, t);
    StandsAtLast(f, rest);
    FilledStays(f, rest);
    FillIs(o, before, t);
    assert t in rest + [t];
    if RisesPriced(before, after) {
      var fills := FillsOn(o, before, t);
      assert fills == [fills[0]];
      Snoc(Fills(o, f, rest), fills[0]);
      if SizeIs(rest + [t], s) {
        assert SizeIs(rest, s);
        var was, adds := Last(f, rest).total - Priced(f).total + Twice(f,
            rest).total, Priced(after).total - Priced(before).total;
        Spread(o.side, was, adds, s);
        assert was + adds == Last(f, rest + [t]).total - Priced(f).total + Twice(f, rest + [t]).total;
      }
    } else {
      assert Fills(o, f, rest + [t]) == Fills(o, f, rest);
    }
  }

  lemma NoCash(side: Side, s: real)
    ensures Signed(side, Times(0.0, s)) == 0.0
  {
  }

  /** Of an order written here: what is booked is exactly what last filled at a stated average if
      and only if no price was stated, withdrawn and stated again; and then the cash is exactly
      that quantity at that average, times the size. */
  lemma BookedOnceIff(o: Request, dry: bool, ts: seq<Told>, s: real)
    ensures var f := Start(dry);
            && (Quantity(Fills(o, f, ts)) == Last(f, ts).qty <==> !Returns(f, ts))
            && (!Returns(f, ts) && SizeIs(ts, s) ==>
                  Cash(Fills(o, f, ts)) == Signed(o.side, Times(Last(f, ts).total, s)))
  {
    hide Times, Signed, Next, Fills, FillsOn, Last, Twice, Returns, FoldAfter, Quantity, Cash;
    Telescopes(o, Start(dry), ts, s);
    StaysSound(Start(dry), ts);
  }

  /** Every reading that says something filled says at what average. */
  ghost predicate Stated(ts: seq<Told>) {
    forall t :: t in ts && t.event.Read? && t.event.reading.filled > 0.0 ==> t.event.reading.average.Some?
  }

  lemma {:induction false} StatedNeverReturns(dry: bool, ts: seq<Told>)
    requires Stated(ts)
    ensures var f := Start(dry); !Returns(f, ts) && (FoldAfter(f, ts).filled > 0.0 ==> FoldAfter(f, ts).average.Some?)
  {
    if ts != [] {
      var f, rest, t := Start(dry), ts[..|ts| - 1], ts[|ts| - 1];
      assert t in ts;
      StatedNeverReturns(dry, rest);
      StaysSound(f, rest);
      StaysSound(f, ts);
      NextFollows(FoldAfter(f, rest), t.event);
    }
  }

  /** And then the order's fills are what it filled, at its average. */
  lemma FillsAreTheOrder(o: Request, dry: bool, ts: seq<Told>, s: real)
    requires Stated(ts)
    ensures var f := FoldAfter(Start(dry), ts);
            && Quantity(Fills(o, Start(dry), ts)) == f.filled
            && (SizeIs(ts, s) && f.average.Some? ==>
                  Cash(Fills(o, Start(dry), ts)) == Signed(o.side, Times(Times(f.filled, f.average.value), s)))
  {
    hide Times, Signed;
    StatedNeverReturns(dry, ts);
    BookedOnceIff(o, dry, ts, s);
    StandsAtLast(Start(dry), ts);
    StaysSound(Start(dry), ts);
  }

  /** A purchase pays its cost and a sale is paid it: the fills' cash is the order's filled quantity at
      its average, times the size, out for the one and in for the other. */
  lemma BuysPay(o: Request, dry: bool, ts: seq<Told>, s: real)
    requires Stated(ts) && SizeIs(ts, s) && FoldAfter(Start(dry), ts).average.Some?
    ensures var f := FoldAfter(Start(dry), ts);
            && (o.side == Buy ==> Cash(Fills(o, Start(dry), ts)) + f.filled * f.average.value * s == 0.0)
            && (o.side == Sell ==> Cash(Fills(o, Start(dry), ts)) == f.filled * f.average.value * s)
  {
    hide Stated, SizeIs, FoldAfter, Fills, Cash;
    FillsAreTheOrder(o, dry, ts, s);
  }

  /** Once the broker's answer is known, every fill names its order: it gives way to the row. */
  lemma {:induction false} AnsweredNames(o: Request, f: Fold, ts: seq<Told>)
    requires f.brokerId.Some? && !f.state.Sending? && !f.state.Unconfirmed?
    ensures var g := FoldAfter(f, ts); g.brokerId == f.brokerId && !g.state.Sending? && !g.state.Unconfirmed?
    ensures forall i :: 0 <= i < |Fills(o, f, ts)| ==>
              Fills(o, f, ts)[i].brokerOrder == f.brokerId && Fills(o, f, ts)[i].broker == o.broker
  {
    if ts != [] {
      AnsweredNames(o, f, ts[..|ts| - 1]);
      NextFollows(FoldAfter(f, ts[..|ts| - 1]), ts[|ts| - 1].event);
    }
  }

  /** One read before the broker's answer is known names none, and stays when the row comes. */
  lemma ReadFirstNamesNone(o: Request)
    ensures var ts := [ReadingOf(3.0, Some(100.0)), Told(Accepted("b"), Some(1.0))];
            && FoldAfter(Start(false), ts).brokerId == Some("b")
            && |Fills(o, Start(false), ts)| == 1 && Fills(o, Start(false), ts)[0].brokerOrder == None
  {
    hide Rounded;
    var a, b := ReadingOf(3.0, Some(100.0)), Told(Accepted("b"), Some(1.0));
    OneMore(o, Start(false), [], a);
    OneMore(o, Start(false), [a], b);
    assert [] + [a] == [a] && [a] + [b] == [a, b];
  }

  function ReadingOf(filled: real, average: Option<real>): Told {
    Told(Read(Reading(IsOpen, filled, average)), Some(1.0))
  }

  /** Three filled at 100; seven, at no stated average; ten at 101: thirteen are booked. */
  lemma PriceReturns(o: Request)
    ensures var ts := [ReadingOf(3.0, Some(100.0)), ReadingOf(7.0, None), ReadingOf(10.0, Some(101.0))];
            && FoldAfter(Start(false), ts).filled == 10.0
            && Quantity(Fills(o, Start(false), ts)) == 13.0
  {
    hide Fills, FillsOn, Cash;
    var f := Start(false);
    var a, b, c := ReadingOf(3.0, Some(100.0)), ReadingOf(7.0, None), ReadingOf(10.0, Some(101.0));
    Telescopes(o, f, [a, b, c], 1.0);
    OneMore(o, f, [], a);
    OneMore(o, f, [a], b);
    OneMore(o, f, [a] + [b], c);
    assert [a] + [b] + [c] == [a, b, c];
    assert [] + [a] == [a];
  }

  // ----- the book they are kept in

  datatype RecordState = Live | Superseded | Removed

  datatype Record = Record(fill: Booking, state: RecordState)

  datatype Order = Order(request: Request, fold: Fold)

  datatype Answer = NoOrder | NotAllowed | Applied

  /** What is live of one order. */
  function LiveOf(records: seq<Record>, order: string): seq<Booking> {
    if records == [] then []
    else
      var r := records[|records| - 1];
      LiveOf(records[..|records| - 1], order) + if r.state.Live? && r.fill.order == order then [r.fill] else []
  }

  function AsRecords(fills: seq<Booking>): (rs: seq<Record>)
    ensures |rs| == |fills| && forall i :: 0 <= i < |fills| ==> rs[i] == Record(fills[i], Live)
  {
    seq(|fills|, i requires 0 <= i < |fills| => Record(fills[i], Live))
  }

  /** Everything told of the order so far is booked. */
  ghost predicate Tells(orders: map<string, Order>, records: seq<Record>, id: string, f: Fold, ts: seq<Told>) {
    id in orders && orders[id].fold == FoldAfter(f, ts) && LiveOf(records, id) == Fills(orders[id].request, f, ts)
  }

  predicate Named(r: Record, k: (string, string)) {
    r.state.Live? && r.fill.brokerOrder == Some(k.1) && r.fill.broker == k.0
  }

  /** The first `n` records, by what they name. */
  ghost predicate Grouped(records: seq<Record>, n: nat, byOrder: map<(string, string), seq<nat>>) {
    && n <= |records|
    && (forall k :: k in byOrder ==> byOrder[k] != [] && forall i :: i in byOrder[k] ==> i < n && Named(records[i], k))
    && (forall k, i :: 0 <= i < n && Named(records[i], k) ==> k in byOrder && i in byOrder[k])
  }

  lemma GroupedOne(records: seq<Record>, n: nat, byOrder: map<(string, string), seq<nat>>, k: (string, string),
      ids: seq<nat>)
    requires Grouped(records, n, byOrder) && n < |records| && Named(records[n], k)
    requires ids == if k in byOrder then byOrder[k] else []
    ensures Grouped(records, n + 1, byOrder[k := ids + [n]])
  {
    var more, next := ids + [n], byOrder[k := ids + [n]];
    forall q | q in next ensures next[q] != [] && forall i :: i in next[q] ==> i < n + 1 && Named(records[i], q) {
      if q == k {
        assert forall i :: i in more ==> i in ids || i == n;
      }
    }
    forall q, i | 0 <= i < n + 1 && Named(records[i], q) ensures q in next && i in next[q] {
      if i == n {
        assert q == k && more[|ids|] == n;
      } else if q == k {
        assert i in ids && i in more;
      }
    }
  }

  lemma GroupedAll(records: seq<Record>, byOrder: map<(string, string), seq<nat>>)
    requires Grouped(records, |records|, byOrder)
    ensures forall k :: k in byOrder <==> exists i :: 0 <= i < |records| && Named(records[i], k)
    ensures forall k, i :: k in byOrder ==> (i in byOrder[k] <==> 0 <= i < |records| && Named(records[i], k))
  {
    forall k | k in byOrder ensures exists i :: 0 <= i < |records| && Named(records[i], k) {
      assert byOrder[k][0] in byOrder[k];
    }
  }

  /** The orders whose live fills stand beside the broker's live row. */
  ghost function Due(records: seq<Record>, rows: map<(string, string), RecordState>): set<(string, string)> {
    set k | k in rows && rows[k].Live? && exists i :: 0 <= i < |records| && Named(records[i], k)
  }

  /** Of those done, the ones whose broker's row is live. */
  ghost function Taken(done: set<(string, string)>, rows: map<(string, string), RecordState>): set<(string, string)> {
    set k | k in done && k in rows && rows[k].Live?
  }

  ghost predicate DoneSoFar(was: seq<Record>, now: seq<Record>, done: set<(string, string)>,
      rows: map<(string, string), RecordState>) {
    && |now| == |was|
    && forall i :: 0 <= i < |was| ==>
         now[i] == if exists k :: k in Taken(done, rows) && Named(was[i], k) then was[i].(state := Superseded)
                   else was[i]
  }

  lemma NoneDone(was: seq<Record>, rows: map<(string, string), RecordState>)
    ensures DoneSoFar(was, was, {}, rows) && Taken({}, rows) == {}
  {
  }

  /** The fills of an order still to do are as they were. */
  lemma NotYet(was: seq<Record>, now: seq<Record>, done: set<(string, string)>, rows: map<(string, string),
      RecordState>, k: (string, string))
    requires DoneSoFar(was, now, done, rows) && k !in done
    ensures |now| == |was| && forall i :: 0 <= i < |was| ==>
              (Named(now[i], k) <==> Named(was[i], k)) && (Named(was[i], k) ==> now[i] == was[i])
  {
  }

  lemma OneDone(was: seq<Record>, now: seq<Record>, next: seq<Record>, done: set<(string, string)>,
      rows: map<(string, string), RecordState>, k: (string, string))
    requires DoneSoFar(was, now, done, rows) && k !in done && |next| == |now|
    requires forall i :: 0 <= i < |was| ==>
               next[i] == if k in rows && rows[k].Live? && Named(was[i], k) then now[i].(state := Superseded)
                          else now[i]
    ensures DoneSoFar(was, next, done + {k}, rows)
    ensures |Taken(done + {k}, rows)| == |Taken(done, rows)| + (if k in rows && rows[k].Live? then 1 else 0)
  {
    var taken := k in rows && rows[k].Live?;
    assert Taken(done + {k}, rows) == Taken(done, rows) + (if taken then {k} else {});
    forall i | 0 <= i < |was| ensures (exists q :: q in Taken(done + {k}, rows) && Named(was[i], q))
        <==> (exists q :: q in Taken(done, rows) && Named(was[i], q)) || (taken && Named(was[i], k))
    {
      assert k in Taken(done + {k}, rows) <==> taken;
    }
  }

  class Book {
    var orders: map<string, Order>
    var records: seq<Record>
    /** The broker's own rows, by the broker and its id for the order. */
    var rows: map<(string, string), RecordState>

    constructor ()
      ensures Valid() && orders == map[] && records == [] && rows == map[]
    {
      orders, records, rows := map[], [], map[];
    }

    /** Each fill is of an order of the book and brings it no further than it has come, and no
        two fills of an order bring it to the same quantity: their keys are distinct. */
    ghost predicate Valid()
      reads this
    {
      && (forall id :: id in orders ==> orders[id].request.id == id && Sound(orders[id].fold))
      && (forall i :: 0 <= i < |records| ==>
            records[i].fill.order in orders && records[i].fill.filled <= orders[records[i].fill.order].fold.filled)
      && (forall i, j :: 0 <= i < j < |records| && records[i].fill.order == records[j].fill.order ==>
            records[i].fill.filled != records[j].fill.filled)
    }

    /** No live fill stands beside the broker's live row for its order. */
    ghost predicate CountedOnce()
      reads this
    {
      forall i :: 0 <= i < |records| && records[i].state.Live? ==> !GivesWay(records[i].fill)
    }

    predicate GivesWay(x: Booking)
      reads this
    {
      x.brokerOrder.Some? && (x.broker, x.brokerOrder.value) in rows && rows[(x.broker, x.brokerOrder.value)].Live?
    }

    /** The broker's own row for the order is in the book: it is the fill. */
    predicate HasRow(o: Request, f: Fold)
      reads this
    {
      f.brokerId.Some? && (o.broker, f.brokerId.value) in rows
    }

    /** An order of some quantity, under an id of its own, is kept with nothing filled. */
    method WriteOrder(o: Request, quantity: real, dry: bool) returns (ok: bool)
      requires Valid()
      modifies this
      ensures Valid() && records == old(records) && rows == old(rows)
      ensures ok <==> quantity > 0.0 && o.id !in old(orders)
      ensures orders == if ok then old(orders)[o.id := Order(o, Start(dry))] else old(orders)
      ensures ok ==> Tells(orders, records, o.id, Start(dry), [])
    {
      ok := quantity > 0.0 && o.id !in orders;
      if ok {
        NoneOf(records, o.id);
        orders := orders[o.id := Order(o, Start(dry))];
      }
    }

    /** The record a key is kept under. */
    method Find(order: string, filled: real) returns (at: nat)
      ensures at <= |records|
      ensures (at < |records| ==> records[at].fill.order == order && records[at].fill.filled == filled)
      ensures forall i :: 0 <= i < at ==> !(records[i].fill.order == order && records[i].fill.filled == filled)
    {
      at := 0;
      while at < |records| && !(records[at].fill.order == order && records[at].fill.filled == filled)
        invariant at <= |records|
        invariant forall i :: 0 <= i < at ==> !(records[i].fill.order == order && records[i].fill.filled == filled)
      {
        at := at + 1;
      }
    }

    /** Keep a fill under its key: again live if it had been removed, revised in place if the key
        is held, a new record if it is not. */
    method Store(x: Booking)
      modifies this`records
      ensures (forall i :: 0 <= i < |old(records)| ==>
                 !(old(records)[i].fill.order == x.order && old(records)[i].fill.filled == x.filled))
              ==> records == old(records) + [Record(x, Live)]
      ensures |old(records)| <= |records| <= |old(records)| + 1
    {
      var at := Find(x.order, x.filled);
      if at == |records| {
        records := records + [Record(x, Live)];
      } else {
        records := records[at := Record(x, if records[at].state.Removed? then Live else records[at].state)];
      }
    }

    method BookFill(o: Request, before: Fold, after: Fold, size: Option<real>)
      requires after.filled > before.filled
      requires forall i :: 0 <= i < |records| && records[i].fill.order == o.id ==>
                 records[i].fill.filled <= before.filled
      modifies this`records
      ensures records == old(records) + (if old(HasRow(o, after)) || FillOf(o, before, after, size).None? then []
                                         else [Record(FillOf(o, before, after, size).value, Live)])
    {
      hide Times, Signed, Rounded;
      var x := FillOf(o, before, after, size);
      if HasRow(o, after) || x.None? {
        return;
      }
      Store(x.value);
    }

    /** Tell the book of an event of an order. What it newly fills is appended to the records;
        a reading that says nothing more books nothing. */
    method OrderEvent(id: string, e: Event, size: Option<real>) returns (a: Answer)
      requires Valid()
      modifies this
      ensures Valid() && rows == old(rows)
      ensures a == if id !in old(orders) then NoOrder
                   else if Apply(old(orders)[id].fold, e).None? then NotAllowed else Applied
      ensures a.Applied? ==>
                var o, before := old(orders)[id].request, old(orders)[id].fold;
                && orders == old(orders)[id := Order(o, Next(before, e))]
                && records == old(records) + AsRecords(if old(HasRow(o, Next(before, e))) then []
                                                       else FillsOn(o, before, Told(e, size)))
      ensures !a.Applied? ==> orders == old(orders) && records == old(records)
      ensures id in old(orders) ==>
                var o, after := old(orders)[id].request, Next(old(orders)[id].fold, e);
                after.brokerId.Some? && (o.broker, after.brokerId.value) in rows ==> records == old(records)
      ensures old(CountedOnce()) ==> CountedOnce()
      ensures id in old(orders) && !old(HasRow(orders[id].request, Next(orders[id].fold, e))) ==>
                forall f, ts :: Tells(old(orders), old(records), id, f, ts) ==>
                      Tells(orders, records, id, f, ts + [Told(e, size)])
      ensures forall other, f, ts :: other != id && Tells(old(orders), old(records), other, f, ts) ==>
                Tells(orders, records, other, f, ts)
    {
      hide Apply, LiveOf, Fills, FillsOn, FoldAfter, Valid, CountedOnce, HasRow;
      if id !in orders {
        return NoOrder;
      }
      var o, before := orders[id].request, orders[id].fold;
      OrderIs(id);
      RowIsHad(o, Next(before, e));
      var applied := Apply(before, e);
      NothingOn(o, before, e, size);
      StillTells(orders, records, o, before, e, size);
      if applied.None? {
        assert orders == orders[id := Order(o, before)];
        assert records == records + AsRecords([]);
        return NotAllowed;
      }
      Advance(id, before, applied.value, e, size);
      return Applied;
    }

    /** The order moves on, and what that newly fills is booked. */
    method Advance(id: string, before: Fold, after: Fold, ghost e: Event, size: Option<real>)
      requires Valid() && id in orders && orders[id].fold == before && Apply(before, e) == Some(after)
      modifies this
      ensures Valid() && rows == old(rows) && (old(CountedOnce()) ==> CountedOnce())
      ensures orders == old(orders)[id := old(orders)[id].(fold := after)]
      ensures records == old(records) + AsRecords(if old(HasRow(orders[id].request, after)) then []
                                                  else FillsOn(old(orders)[id].request, before, Told(e, size)))
    {
      hide Apply, Times, Signed, Rounded;
      NextFollows(before, e);
      if after.filled > before.filled {
        BookFill(orders[id].request, before, after, size);
      }
      orders := orders[id := orders[id].(fold := after)];
    }

    lemma RowIsHad(o: Request, after: Fold)
      ensures after.brokerId.Some? && (o.broker, after.brokerId.value) in rows ==> HasRow(o, after)
    {
    }

    lemma OrderIs(id: string)
      requires Valid() && id in orders
      ensures orders[id].request.id == id
    {
    }

    /** Live fills by the broker and the order it names. */
    method ByOrder() returns (byOrder: map<(string, string), seq<nat>>)
      ensures forall k :: k in byOrder <==> exists i :: 0 <= i < |records| && Named(records[i], k)
      ensures forall k, i :: k in byOrder ==> (i in byOrder[k] <==> 0 <= i < |records| && Named(records[i], k))
    {
      byOrder := map[];
      for n := 0 to |records|
        invariant Grouped(records, n, byOrder)
      {
        var x := records[n].fill;
        if records[n].state.Live? && x.brokerOrder.Some? {
          var k := (x.broker, x.brokerOrder.value);
          var ids := if k in byOrder then byOrder[k] else [];
          GroupedOne(records, n, byOrder, k, ids);
          byOrder := byOrder[k := ids + [n]];
        }
      }
      GroupedAll(records, byOrder);
    }

    method Supersede(at: seq<nat>)
      requires forall n :: n in at ==> n < |records|
      modifies this`records
      ensures |records| == |old(records)|
      ensures forall i :: 0 <= i < |records| ==>
                records[i] == if i in at then old(records)[i].(state := Superseded) else old(records)[i]
    {
      for n := 0 to |at|
        invariant |records| == |old(records)|
        invariant forall i :: 0 <= i < |records| ==>
                    records[i] == if i in at[..n] then old(records)[i].(state := Superseded) else old(records)[i]
      {
        assert at[n] in at && at[..n + 1] == at[..n] + [at[n]];
        records := records[at[n] := records[at[n]].(state := Superseded)];
      }
      assert at[..|at|] == at;
    }

    /** The fills of one order, where the broker's row for it is live. */
    method GiveWay(k: (string, string), at: seq<nat>) returns (gave: bool)
      requires forall n :: n in at <==> 0 <= n < |records| && Named(records[n], k)
      modifies this`records
      ensures |records| == |old(records)| && gave == (k in rows && rows[k].Live?)
      ensures forall i :: 0 <= i < |records| ==>
                records[i] == if gave && Named(old(records)[i], k) then old(records)[i].(state := Superseded)
                              else old(records)[i]
    {
      gave := k in rows && rows[k].Live?;
      if gave {
        Supersede(at);
      }
    }

    /** Each live row of the broker takes the place of every live fill that names it: those and no
        others, one order at a time, and asked again it finds nothing to do. */
    method FillsGiveWay() returns (n: nat)
      requires Valid()
      modifies this`records
      ensures Valid() && CountedOnce() && |records| == |old(records)|
      ensures forall i :: 0 <= i < |records| ==>
                records[i] == if old(records)[i].state.Live? && GivesWay(old(records)[i].fill)
                              then old(records)[i].(state := Superseded) else old(records)[i]
      ensures n == |Due(old(records), rows)|
      ensures old(CountedOnce()) ==> n == 0 && records == old(records)
    {
      hide DoneSoFar, Due;
      ghost var was := records;
      var byOrder := ByOrder();
      n := GiveWayByOrder(byOrder);
      AllDone(was, records, byOrder.Keys);
    }

    /** One order at a time. */
    method GiveWayByOrder(byOrder: map<(string, string), seq<nat>>) returns (n: nat)
      requires forall k, i :: k in byOrder ==> (i in byOrder[k] <==> 0 <= i < |records| && Named(records[i], k))
      modifies this`records
      ensures DoneSoFar(old(records), records, byOrder.Keys, rows) && n == |Taken(byOrder.Keys, rows)|
    {
      hide DoneSoFar, Taken, Named;
      ghost var was := records;
      var todo, done: set<(string, string)> := byOrder.Keys, {};
      n := 0;
      NoneDone(was, rows);
      while todo != {}
        invariant todo !! done && todo + done == byOrder.Keys
        invariant DoneSoFar(was, records, done, rows) && n == |Taken(done, rows)|
        decreases todo
      {
        var k :| k in todo;
        ghost var now := records;
        NotYet(was, records, done, rows, k);
        var gave := GiveWay(k, byOrder[k]);
        n := if gave then n + 1 else n;
        OneDone(was, now, records, done, rows, k);
        todo, done := todo - {k}, done + {k};
      }
      assert done == byOrder.Keys;
    }

    lemma AllDone(was: seq<Record>, now: seq<Record>, done: set<(string, string)>)
      requires DoneSoFar(was, now, done, rows)
      requires forall k :: k in done <==> exists i :: 0 <= i < |was| && Named(was[i], k)
      ensures Taken(done, rows) == Due(was, rows) && |now| == |was|
      ensures forall i :: 0 <= i < |now| ==>
                now[i] == if was[i].state.Live? && GivesWay(was[i].fill) then was[i].(state := Superseded) else was[i]
      ensures forall i :: 0 <= i < |now| && now[i].state.Live? ==> !GivesWay(now[i].fill)
      ensures (forall i :: 0 <= i < |was| && was[i].state.Live? ==> !GivesWay(was[i].fill)) ==>
                Due(was, rows) == {} && now == was
    {
      forall i | 0 <= i < |was|
        ensures now[i] == if was[i].state.Live? && GivesWay(was[i].fill) then was[i].(state := Superseded) else was[i]
      {
        if was[i].state.Live? && GivesWay(was[i].fill) {
          var k := (was[i].fill.broker, was[i].fill.brokerOrder.value);
          assert Named(was[i], k);
        }
      }
    }
  }

  /** What is told stays told: of this order with what the event adds, of every other as it is. */
  lemma StillTells(orders: map<string, Order>, records: seq<Record>, o: Request, before: Fold, e: Event,
      size: Option<real>)
    requires o.id in orders && orders[o.id] == Order(o, before)
    ensures var orders', fills := orders[o.id := Order(o, Next(before, e))], FillsOn(o, before, Told(e, size));
            && (forall f, ts :: Tells(orders, records, o.id, f, ts) ==>
                  Tells(orders', records + AsRecords(fills), o.id, f, ts + [Told(e, size)]))
            && (forall other, f, ts :: other != o.id && Tells(orders, records, other, f, ts) ==>
                  Tells(orders', records + AsRecords(fills), other, f, ts) && Tells(orders', records + AsRecords([]),
                      other, f, ts))
  {
    hide Next, FillsOn, Fills, LiveOf;
    var orders', fills, t := orders[o.id := Order(o, Next(before, e))], FillsOn(o, before, Told(e, size)), Told(e,
        size);
    assert records + AsRecords([]) == records;
    forall f, ts | Tells(orders, records, o.id, f, ts)
      ensures Tells(orders', records + AsRecords(fills), o.id, f, ts + [t])
    {
      LiveOneMore(records, o, before, t, o.id);
      OneMore(o, f, ts, t);
    }
    forall other, f, ts | other != o.id && Tells(orders, records, other, f, ts)
      ensures Tells(orders', records + AsRecords(fills), other, f, ts)
    {
      LiveOneMore(records, o, before, t, other);
    }
  }

  lemma NothingOn(o: Request, f: Fold, e: Event, size: Option<real>)
    ensures Apply(f, e).None? ==> FillsOn(o, f, Told(e, size)) == []
  {
  }

  lemma LiveOneMore(records: seq<Record>, o: Request, before: Fold, t: Told, order: string)
    ensures var fills := FillsOn(o, before, t);
            LiveOf(records + AsRecords(fills), order) == LiveOf(records, order) + if order == o.id then fills else []
  {
    hide Next, Times, Signed, Rounded;
    var fills := FillsOn(o, before, t);
    if fills == [] {
      assert records + AsRecords(fills) == records;
    } else {
      assert fills == [fills[0]] && (records + AsRecords(fills))[..|records|] == records;
    }
  }

  lemma {:induction false} NoneOf(records: seq<Record>, order: string)
    requires forall i :: 0 <= i < |records| ==> records[i].fill.order != order
    ensures LiveOf(records, order) == []
  {
    if records != [] {
      NoneOf(records[..|records| - 1], order);
    }
  }
}
