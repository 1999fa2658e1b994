/** The history a run of the matcher leaves, and what replaying it says each lot still
    holds and each fill was spent on. The replay knows nothing of books or pools: it is the
    independent account the matcher's state is proved equal to. */
module Ledger {
  import opened Trading

  datatype Entry =
    | Opened(lot: Lot)
    | Closed(slice: Slice)
    | Sent(id: LotId, fill: nat, qty: real, price: real, fee: real)      // left the account at cost
    | Dropped(id: LotId, qty: real, price: real, fee: real)              // a residue the matcher forgets
    | Restated(id: LotId, factor: real)                                  // a split
    | Recharged(id: LotId, fee: real)                                    // an entry fee charged and still on the lot
    | Unmatched(orphan: Orphan, fee: real)
    | Dust(fill: nat, qty: real, fee: real)
    | Rest(fill: nat, qty: real, fee: real)                              // a fill's own residue
    | Forgone(fill: nat, fee: real)                                      // a roll's opening lot is not given it
    | Excess(fill: nat, qty: real, fee: real)                            // a transfer-out beyond what was held

  /** What a lot holds: units, what they cost, and the commission still to be charged. */
  datatype Account = Account(qty: real, cost: real, fee: real)

  const NOTHING := Account(0.0, 0.0, 0.0)

  /** The account of a lot after one more entry. */
  function Follow1(acc: Account, e: Entry, id: LotId): Account {
    match e
    case Opened(l) =>
      if l.id == id then Account(acc.qty + l.qty, acc.cost + l.qty * l.price, acc.fee + l.commission) else acc
    case Closed(s) =>
      if s.lot == id then Account(acc.qty - s.qty, acc.cost - s.qty * s.entryPrice, acc.fee - s.entryFee) else acc
    case Sent(i, _, q, p, f) =>
      if i == id then Account(acc.qty - q, acc.cost - q * p, acc.fee - f) else acc
    case Dropped(i, q, p, f) =>
      if i == id then Account(acc.qty - q, acc.cost - q * p, acc.fee - f) else acc
    case Restated(i, k) =>
      if i == id then Account(acc.qty * k, acc.cost, acc.fee) else acc
    case Recharged(i, f) =>
      if i == id then Account(acc.qty, acc.cost, acc.fee + f) else acc
    case _ => acc
  }

  function Follow(acc: Account, es: seq<Entry>, id: LotId): Account
    decreases es
  {
    if es == [] then acc else Follow(Follow1(acc, es[0], id), es[1..], id)
  }

  /** The replay: what the history says lot `id` holds. */
  function Replay(log: seq<Entry>, id: LotId): Account {
    Follow(NOTHING, log, id)
  }

  /** Units and commission a fill was spent on by one entry. */
  function Spent1(e: Entry, i: nat): (real, real) {
    match e
    case Opened(l) => if l.id == LotId(i, false) then (l.qty, l.commission) else (0.0, 0.0)
    case Closed(s) => if s.exit == Some(i) then (s.qty, s.exitFee) else (0.0, 0.0)
    case Sent(_, f, q, _, _) => if f == i then (q, 0.0) else (0.0, 0.0)
    case Unmatched(o, fee) => if o.fill == i then (o.qty, fee) else (0.0, 0.0)
    case Dust(f, q, fee) => if f == i then (q, fee) else (0.0, 0.0)
    case Rest(f, q, fee) => if f == i then (q, fee) else (0.0, 0.0)
    case Excess(f, q, fee) => if f == i then (q, fee) else (0.0, 0.0)
    case Forgone(f, fee) => if f == i then (0.0, fee) else (0.0, 0.0)
    case _ => (0.0, 0.0)
  }

  /** Units and commission of fill `i` the history accounts for. */
  function Spent(es: seq<Entry>, i: nat): (real, real) {
    if es == [] then (0.0, 0.0)
    else var a, b := Spent1(es[0], i), Spent(es[1..], i); (a.0 + b.0, a.1 + b.1)
  }

  /** The lot an entry is about. */
  function LotOf(e: Entry): Option<LotId> {
    match e
    case Opened(l) => Some(l.id)
    case Closed(s) => Some(s.lot)
    case Sent(i, _, _, _, _) => Some(i)
    case Dropped(i, _, _, _) => Some(i)
    case Restated(i, _) => Some(i)
    case Recharged(i, _) => Some(i)
    case _ => None
  }

  /** How often the history forgets a residue of lot `id`. */
  function Drops(es: seq<Entry>, id: LotId): nat {
    if es == [] then 0
    else (if es[0].Dropped? && es[0].id == id then 1 else 0) + Drops(es[1..], id)
  }

  /** Every residue forgotten is within the tolerance. */
  ghost predicate Small(es: seq<Entry>, eps: real) {
    forall e :: e in es && e.Dropped? ==> 0.0 <= e.qty <= eps
  }

  function Slices(es: seq<Entry>): seq<Slice> {
    if es == [] then []
    else (if es[0].Closed? then [es[0].slice] else []) + Slices(es[1..])
  }

  function Orphans(es: seq<Entry>): seq<Orphan> {
    if es == [] then []
    else (if es[0].Unmatched? then [es[0].orphan] else []) + Orphans(es[1..])
  }

  lemma {:induction false} FollowAppends(acc: Account, a: seq<Entry>, b: seq<Entry>, id: LotId)
    ensures Follow(acc, a + b, id) == Follow(Follow(acc, a, id), b, id)
    decreases a
  {
    if a == [] {
      assert a + b == b;
    } else {
      assert (a + b)[0] == a[0] && (a + b)[1..] == a[1..] + b;
      FollowAppends(Follow1(acc, a[0], id), a[1..], b, id);
    }
  }

  lemma {:induction false} FollowUntouched(acc: Account, es: seq<Entry>, id: LotId)
    requires forall e :: e in es ==> LotOf(e) != Some(id)
    ensures Follow(acc, es, id) == acc
    decreases es
  {
    if es != [] {
      assert LotOf(es[0]) != Some(id);
      FollowUntouched(acc, es[1..], id);
    }
  }

  lemma {:induction false} SpentAppends(a: seq<Entry>, b: seq<Entry>, i: nat)
    ensures Spent(a + b, i) == (Spent(a, i).0 + Spent(b, i).0, Spent(a, i).1 + Spent(b, i).1)
  {
    if a == [] {
      assert a + b == b;
    } else {
      assert (a + b)[0] == a[0] && (a + b)[1..] == a[1..] + b;
      SpentAppends(a[1..], b, i);
    }
  }

  lemma {:induction false} DropsAppend(a: seq<Entry>, b: seq<Entry>, id: LotId)
    ensures Drops(a + b, id) == Drops(a, id) + Drops(b, id)
  {
    if a == [] {
      assert a + b == b;
    } else {
      assert (a + b)[0] == a[0] && (a + b)[1..] == a[1..] + b;
      DropsAppend(a[1..], b, id);
    }
  }

  lemma {:induction false} DropsUntouched(es: seq<Entry>, id: LotId)
    requires forall e :: e in es ==> LotOf(e) != Some(id)
    ensures Drops(es, id) == 0
  {
    if es != [] {
      assert LotOf(es[0]) != Some(id);
      DropsUntouched(es[1..], id);
    }
  }

  lemma {:induction false} SlicesAppend(a: seq<Entry>, b: seq<Entry>)
    ensures Slices(a + b) == Slices(a) + Slices(b)
  {
    if a == [] {
      assert a + b == b;
    } else {
      assert (a + b)[0] == a[0] && (a + b)[1..] == a[1..] + b;
      SlicesAppend(a[1..], b);
      var head := if a[0].Closed? then [a[0].slice] else [];
      assert head + (Slices(a[1..]) + Slices(b)) == (head + Slices(a[1..])) + Slices(b);
    }
  }

  lemma {:induction false} OrphansAppend(a: seq<Entry>, b: seq<Entry>)
    ensures Orphans(a + b) == Orphans(a) + Orphans(b)
  {
    if a == [] {
      assert a + b == b;
    } else {
      assert (a + b)[0] == a[0] && (a + b)[1..] == a[1..] + b;
      OrphansAppend(a[1..], b);
      var head := if a[0].Unmatched? then [a[0].orphan] else [];
      assert head + (Orphans(a[1..]) + Orphans(b)) == (head + Orphans(a[1..])) + Orphans(b);
    }
  }
}
