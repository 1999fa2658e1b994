/** What the journal's accounting is about: fills, lots, closed slices, and the
    text order its sorts and comparisons use. */
module Trading {
  datatype Option<+T> = None | Some(value: T)

  datatype Direction = Long | Short

  datatype Side = Buy | Sell

  /** The parts of an option's name the matcher reads. */
  datatype Contract = Contract(underlying: string, right: string, expiry: string)

  datatype Symbol = Symbol(text: string, contract: Option<Contract>) {
    predicate IsOption() {
      contract.Some?
    }

    /** A contract stands for a hundred units. */
    function Multiplier(): (m: real)
      ensures m == 1.0 || m == 100.0
    {
      if IsOption() then 100.0 else 1.0
    }
  }

  /** What the activity's sub-type says of opening and closing. */
  datatype Intent = ToOpen | ToClose | Event | Plain

  /** A book: the lots of one symbol in one account and one currency. */
  datatype BookKey = BookKey(account: string, symbol: Symbol, currency: string)

  /** What a roll's carried-forward legs are filed under. */
  datatype RollKey = RollKey(account: string, underlying: string, right: string)

  /** What an inferred split is filed under: no currency. */
  datatype SplitKey = SplitKey(account: string, symbol: Symbol)

  /** One fill as the matcher reads it. `day` is a day number (module Calendar shows that
      day numbers order as the text of dates does). */
  datatype Fill = Fill(
    account: string, symbol: Symbol, currency: string, day: int,
    side: Side, qty: real, price: real, commission: real, cash: real, crypto: bool,
    multileg: bool, transferOut: bool,
    intent: Intent, typeIntent: Intent,
    roll: Option<Direction>)
  {
    function Key(): BookKey {
      BookKey(account, symbol, currency)
    }

    function Roll(): RollKey {
      match symbol.contract
      case Some(c) => RollKey(account, c.underlying, c.right)
      case None => RollKey(account, symbol.text, "CALL")
    }

    predicate CloseOnly() {
      typeIntent.ToClose? || typeIntent.Event? || intent.ToClose? || intent.Event?
    }

    predicate IntentionalOpen() {
      typeIntent.ToOpen? || intent.ToOpen?
    }

    /** The direction this fill opens with what it did not close, if it may open at all. */
    function Opening(): Option<Direction> {
      if side.Buy? then
        if CloseOnly() then None else Some(Long)
      else if symbol.IsOption() then
        if CloseOnly() then None else Some(Short)
      else if IntentionalOpen() then Some(Short)
      else None
    }

    /** The direction this fill closes. */
    function Closing(): Direction {
      if side.Buy? then Short else Long
    }
  }

  /** A lot is named by the fill that opened it (by its place in the run), and by whether
      it is the leg a roll carried forward. */
  datatype LotId = LotId(fill: nat, rolled: bool) {
    /** Lots are opened in this order. */
    function Rank(): nat {
      2 * fill + if rolled then 0 else 1
    }
  }

  datatype Lot = Lot(id: LotId, qty: real, price: real, commission: real, direction: Direction, symbol: Symbol,
      day: int, crypto: bool)

  /** A closed slice: part of a lot matched with part of a fill. A roll's leg whose closing
      was never posted has no exit fill. */
  datatype Slice = Slice(
    lot: LotId, exit: Option<nat>, symbol: Symbol, direction: Direction,
    qty: real, entryPrice: real, exitPrice: real, entryDay: int, exitDay: int,
    entryFee: real, exitFee: real, pnl: real)

  datatype Orphan = Orphan(fill: nat, side: Side, qty: real, price: real)

  function Min(a: real, b: real): (m: real)
    ensures m <= a && m <= b && (m == a || m == b)
  {
    if a <= b then a else b
  }

  function Max(a: real, b: real): (m: real)
    ensures a <= m && b <= m && (m == a || m == b)
  {
    if a <= b then b else a
  }

  function Abs(x: real): (a: real)
    ensures a >= 0.0 && (a == x || a == -x)
  {
    if x < 0.0 then -x else x
  }

  /** Text order, character by character. */
  predicate TextLess(a: string, b: string) {
    if b == [] then false
    else if a == [] then true
    else if a[0] != b[0] then a[0] < b[0]
    else TextLess(a[1..], b[1..])
  }

  predicate IsDigit(c: char) {
    '0' <= c <= '9'
  }

  lemma {:induction false} LessIsOrder(a: string, b: string, c: string)
    ensures !TextLess(a, a)
    ensures TextLess(a, b) || TextLess(b, a) || a == b
    ensures TextLess(a, b) && TextLess(b, c) ==> TextLess(a, c)
    ensures !(TextLess(a, b) && TextLess(b, a))
  {
    if a != [] && b != [] {
      assert a == [a[0]] + a[1..] && b == [b[0]] + b[1..];
      LessIsOrder(a[1..], b[1..], if c == [] then [] else c[1..]);
    } else if a != [] {
      LessIsOrder(a[1..], [], []);
    }
  }

  /** What texts begin with alike does not order them. */
  lemma {:induction false} LessAfter(p: string, a: string, b: string)
    ensures TextLess(p + a, p + b) <==> TextLess(a, b)
  {
    if p == [] {
      assert p + a == a && p + b == b;
    } else {
      assert (p + a)[0] == p[0] == (p + b)[0];
      assert (p + a)[1..] == p[1..] + a && (p + b)[1..] == p[1..] + b;
      LessAfter(p[1..], a, b);
    }
  }
}
