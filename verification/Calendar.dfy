/** Dates and day numbers: the arithmetic the matcher's splits and replacements, and the
    page's date ranges, rest on. */
module Calendar {
  import opened Trading

  predicate Leap(y: int) {
    y % 4 == 0 && (y % 100 != 0 || y % 400 == 0)
  }

  function DaysInMonth(y: int, m: int): int {
    if m == 2 then if Leap(y) then 29 else 28
    else if m == 4 || m == 6 || m == 9 || m == 11 then 30
    else 31
  }

  datatype Date = Date(y: int, m: int, d: int)

  predicate Valid(t: Date) {
    0 <= t.y <= 9999 && 1 <= t.m <= 12 && 1 <= t.d <= DaysInMonth(t.y, t.m)
  }

  /** Division as the machine divides: toward zero. */
  function Div(a: int, b: int): int
    requires b > 0
  {
    if a >= 0 then a / b else -((-a) / b)
  }

  // ----- the arithmetic

  function DayOfEra(yoe: int, doy: int): int {
    yoe * 365 + yoe / 4 - yoe / 100 + doy
  }

  function MonthStart(mp: int): int {
    (153 * mp + 2) / 5
  }

  /** Days since 1970-01-01. Years begin in March, so that a leap day ends one. */
  function Days(t: Date): int {
    var y := if t.m <= 2 then t.y - 1 else t.y;
    var era := Div(if y >= 0 then y else y - 399, 400);
    var yoe := y - era * 400;
    var mp := (t.m + 9) % 12;
    era * 146097 + DayOfEra(yoe, MonthStart(mp) + t.d - 1) - 719468
  }

  function YearOfEra(doe: int): int {
    (doe - doe / 1460 + doe / 36524 - doe / 146096) / 365
  }

  function Civil(z0: int): Date {
    var z := z0 + 719468;
    var era := Div(if z >= 0 then z else z - 146096, 146097);
    var doe := z - era * 146097;
    var yoe := YearOfEra(doe);
    var doy := doe - (365 * yoe + yoe / 4 - yoe / 100);
    var mp := (5 * doy + 2) / 153;
    var m := if mp < 10 then mp + 3 else mp - 9;
    var y := yoe + era * 400;
    Date(if m <= 2 then y + 1 else y, m, doy - MonthStart(mp) + 1)
  }

  lemma AtLeast(b: int, x: int)
    requires b > 0 && x >= 1
    ensures b * x >= b
  {
  }

  lemma Distribute(b: int, q: int, k: int)
    ensures b * (q - k) == b * q - b * k
  {
  }

  lemma DivIs(a: int, b: int, k: int, r: int)
    requires b > 0 && a == b * k + r && 0 <= r < b
    ensures a / b == k && a % b == r
  {
    var q := a / b;
    Distribute(b, q, k);
    Distribute(b, k, q);
    if q > k {
      AtLeast(b, q - k);
    } else if q < k {
      AtLeast(b, k - q);
    }
  }

  /** A day of an era tells its year: the leap days before it are counted out. */
  lemma YearIsRead(yoe: int, doy: int)
    requires 0 <= yoe < 400 && 0 <= doy <= 365 && (doy == 365 ==> Leap(yoe + 1))
    ensures YearOfEra(DayOfEra(yoe, doy)) == yoe
  {
    var c, r := yoe / 100, yoe % 100;
    var q, s := r / 4, r % 4;
    assert yoe == 100 * c + 4 * q + s && 0 <= c <= 3 && 0 <= q <= 24 && 0 <= s <= 3;
    DivIs(yoe, 4, 25 * c + q, s);
    LastDay(c, q, s, yoe, doy);
    Read(c, q, s, doy);
  }

  /** Day 366 of a year falls on its fourth, and not at the end of a century but the fourth. */
  lemma LastDay(c: int, q: int, s: int, yoe: int, doy: int)
    requires 0 <= c <= 3 && 0 <= q <= 24 && 0 <= s <= 3 && yoe == 100 * c + 4 * q + s
    requires doy == 365 ==> Leap(yoe + 1)
    ensures doy == 365 ==> s == 3 && (q == 24 ==> c == 3)
  {
    if doy == 365 {
      assert (yoe + 1) % 4 == (s + 1) % 4;
      if q == 24 && s == 3 {
        assert yoe + 1 == 100 * (c + 1);
      }
    }
  }

  lemma Read(c: int, q: int, s: int, doy: int)
    requires 0 <= c <= 3 && 0 <= q <= 24 && 0 <= s <= 3 && 0 <= doy <= 365
    requires doy == 365 ==> s == 3 && (q == 24 ==> c == 3)
    ensures YearOfEra(36524 * c + 1461 * q + 365 * s + doy) == 100 * c + 4 * q + s
  {
    var doe := 36524 * c + 1461 * q + 365 * s + doy;
    var tail := 24 * c + q + 365 * s + doy;
    var e := if tail >= 1460 then 1 else 0;
    DivIs(doe, 1460, 25 * c + q + e, tail - 1460 * e);
    var last := if c == 3 && q == 24 && s == 3 && doy == 365 then 1 else 0;
    DivIs(doe, 36524, c + last, doe - 36524 * (c + last));
    DivIs(doe, 146096, last, doe - 146096 * last);
    DivIs(36500 * c + 1460 * q + 365 * s + doy - e, 365, 100 * c + 4 * q + s, doy - e);
  }

  /** A day of a year tells its month. */
  lemma MonthIsRead(mp: int, d: int)
    requires 0 <= mp <= 11 && 1 <= d <= 31 && (mp in {1, 3, 6, 8} ==> d <= 30) && (mp == 11 ==> d <= 29)
    ensures (5 * (MonthStart(mp) + d - 1) + 2) / 153 == mp
    ensures 0 <= MonthStart(mp) + d - 1 <= 365 && (MonthStart(mp) + d - 1 == 365 ==> mp == 11 && d == 29)
  {
  }

  lemma EraIsRead(era: int, doe: int)
    requires 0 <= doe < 146097 && -1 <= era
    ensures var z := era * 146097 + doe;
            Div(if z >= 0 then z else z - 146096, 146097) == era
  {
    var z := era * 146097 + doe;
    if era >= 0 {
      DivIs(z, 146097, era, doe);
    } else {
      DivIs(146097 - doe + 146096, 146097, 1, 146096 - doe);
    }
  }

  lemma DoeInRange(yoe: int, doy: int)
    requires 0 <= yoe < 400 && 0 <= doy <= 365 && (doy == 365 ==> Leap(yoe + 1))
    ensures 0 <= DayOfEra(yoe, doy) < 146097
  {
  }

  /** The parts of a date's day number. */
  lemma Parts(t: Date) returns (era: int, yoe: int, mp: int, doy: int)
    requires Valid(t)
    ensures -1 <= era && 0 <= yoe < 400 && 0 <= mp <= 11
    ensures (if t.m <= 2 then t.y - 1 else t.y) == era * 400 + yoe && mp == (t.m + 9) % 12
    ensures doy == MonthStart(mp) + t.d - 1 && (5 * doy + 2) / 153 == mp
    ensures 0 <= doy <= 365 && (doy == 365 ==> Leap(yoe + 1))
    ensures Days(t) == era * 146097 + DayOfEra(yoe, doy) - 719468
  {
    var y := if t.m <= 2 then t.y - 1 else t.y;
    era := Div(if y >= 0 then y else y - 399, 400);
    yoe := y - era * 400;
    mp := (t.m + 9) % 12;
    doy := MonthStart(mp) + t.d - 1;
    MonthIsRead(mp, t.d);
    if doy == 365 {
      assert t.m == 2 && t.d == 29 && Leap(t.y);
      LeapInEra(t.y, era, yoe);
    }
  }

  lemma LeapInEra(y: int, era: int, yoe: int)
    requires y == era * 400 + yoe + 1 && Leap(y)
    ensures Leap(yoe + 1)
  {
    var n := yoe + 1;
    DivIs(y, 4, 100 * era + n / 4, n % 4);
    DivIs(y, 100, 4 * era + n / 100, n % 100);
    DivIs(y, 400, era + n / 400, n % 400);
  }

  /** What `Civil` makes of a day number whose parts are known. */
  lemma CivilOfParts(era: int, yoe: int, mp: int, doy: int)
    requires -1 <= era && 0 <= yoe < 400 && 0 <= mp <= 11 && 0 <= doy <= 365 && (doy == 365 ==> Leap(yoe + 1))
    requires (5 * doy + 2) / 153 == mp
    ensures var m := if mp < 10 then mp + 3 else mp - 9;
            Civil(era * 146097 + DayOfEra(yoe, doy) - 719468)
            == Date(yoe + era * 400 + if m <= 2 then 1 else 0, m, doy - MonthStart(mp) + 1)
  {
    hide YearOfEra, MonthStart, Div, DayOfEra, Leap;
    var doe := DayOfEra(yoe, doy);
    DoeInRange(yoe, doy);
    EraIsRead(era, doe);
    YearIsRead(yoe, doy);
    DayLeft(yoe, doy);
    assert era * 146097 + doe - 719468 + 719468 == era * 146097 + doe;
  }

  lemma DayLeft(yoe: int, doy: int)
    ensures DayOfEra(yoe, doy) - (365 * yoe + yoe / 4 - yoe / 100) == doy
  {
  }

  /** Every date is read back from its day number. */
  lemma CivilOfDays(t: Date)
    requires Valid(t)
    ensures Civil(Days(t)) == t
  {
    hide Civil, Days, DayOfEra, MonthStart, Leap;
    var era, yoe, mp, doy := Parts(t);
    CivilOfParts(era, yoe, mp, doy);
  }

  // ----- one day after another

  function Next(t: Date): Date {
    if t.d < DaysInMonth(t.y, t.m) then t.(d := t.d + 1)
    else if t.m < 12 then Date(t.y, t.m + 1, 1)
    else Date(t.y + 1, 1, 1)
  }

  const FIRST := Date(0, 1, 1)
  const LAST := Date(9999, 12, 31)

  /** A date's place in the order of dates. */
  function Rank(t: Date): int {
    372 * t.y + 31 * t.m + t.d
  }

  predicate Earlier(a: Date, b: Date) {
    a.y < b.y || (a.y == b.y && (a.m < b.m || (a.m == b.m && a.d < b.d)))
  }

  lemma EarlierIsRank(a: Date, b: Date)
    requires Valid(a) && Valid(b)
    ensures Earlier(a, b) <==> Rank(a) < Rank(b)
  {
    hide Leap;
  }

  /** The day number of the first of March of year `p`: 365 a year, and the leap days. */
  function MarchFirst(p: int): int {
    365 * p + p / 4 - p / 100 + p / 400 - 719468
  }

  lemma EraTerms(p: int, era: int, yoe: int)
    requires p == 400 * era + yoe && 0 <= yoe < 400
    ensures era * 146097 + DayOfEra(yoe, 0) - 719468 == MarchFirst(p)
  {
    DivIs(p, 4, 100 * era + yoe / 4, yoe % 4);
    DivIs(p, 100, 4 * era + yoe / 100, yoe % 100);
    DivIs(p, 400, era, yoe);
  }

  lemma DaysFromMarch(t: Date)
    requires Valid(t)
    ensures var p := if t.m <= 2 then t.y - 1 else t.y;
            Days(t) == MarchFirst(p) + MonthStart((t.m + 9) % 12) + t.d - 1
  {
    hide Leap, MonthStart, MarchFirst, Days;
    var era, yoe, mp, doy := Parts(t);
    EraTerms(if t.m <= 2 then t.y - 1 else t.y, era, yoe);
  }

  lemma OneMore(p: int, b: int)
    requires b > 0
    ensures (p + 1) / b == p / b + if (p + 1) % b == 0 then 1 else 0
  {
    var q, r := p / b, p % b;
    if r == b - 1 {
      Distribute(b, q, -1);
      DivIs(p + 1, b, q + 1, 0);
    } else {
      DivIs(p + 1, b, q, r + 1);
    }
  }

  lemma Divides(n: int, a: int, k: int)
    requires a > 0 && k > 0 && n % (a * k) == 0
    ensures n % a == 0
  {
    var q := n / (a * k);
    assert n == (a * k) * q == a * (k * q);
    DivIs(n, a, k * q, 0);
  }

  /** March to March is a year of 365 days, or 366 where its February is a leap one. */
  lemma YearLength(p: int)
    ensures MarchFirst(p + 1) == MarchFirst(p) + 365 + if Leap(p + 1) then 1 else 0
  {
    OneMore(p, 4);
    OneMore(p, 100);
    OneMore(p, 400);
    if (p + 1) % 100 == 0 {
      Divides(p + 1, 4, 25);
    }
    if (p + 1) % 400 == 0 {
      Divides(p + 1, 100, 4);
    }
  }

  lemma NextIsValid(t: Date)
    requires Valid(t) && t != LAST
    ensures Valid(Next(t)) && Rank(t) < Rank(Next(t))
  {
    hide Leap;
  }

  lemma MonthFollows(mp: int)
    requires 0 <= mp < 11
    ensures MonthStart(mp + 1) - MonthStart(mp) == if mp in {1, 3, 6, 8} then 30 else 31
  {
  }

  /** The day after has the number after. */
  lemma DaysFollow(t: Date)
    requires Valid(t) && t != LAST
    ensures Days(Next(t)) == Days(t) + 1
  {
    hide Leap, MonthStart, MarchFirst, Days;
    NextIsValid(t);
    DaysFromMarch(t);
    DaysFromMarch(Next(t));
    var mp := (t.m + 9) % 12;
    if t.d == DaysInMonth(t.y, t.m) {
      if t.m == 2 {
        YearLength(t.y - 1);
        assert MonthStart(11) == 337 && MonthStart(0) == 0 by {
          Starts();
        }
      } else {
        MonthFollows(mp);
      }
    }
  }

  lemma Starts()
    ensures MonthStart(11) == 337 && MonthStart(0) == 0
  {
  }

  /** Between a date and a later one there is the day after, or it is the day after. */
  lemma NextIsNext(a: Date, b: Date)
    requires Valid(a) && Valid(b) && Rank(a) < Rank(b)
    ensures a != LAST && (Next(a) == b || Rank(Next(a)) < Rank(b))
  {
    hide Leap;
    EarlierIsRank(a, b);
    NextIsOrEarlier(a, b);
  }

  lemma NextIsOrEarlier(a: Date, b: Date)
    requires Valid(a) && Valid(b) && Earlier(a, b)
    ensures a != LAST && (Next(a) == b || Earlier(Next(a), b))
    ensures Earlier(Next(a), b) ==> Rank(Next(a)) < Rank(b)
  {
    hide Leap;
    if a != LAST {
      NextIsValid(a);
      EarlierIsRank(Next(a), b);
    }
  }

  /** Later dates have larger day numbers, exactly. */
  lemma {:induction false} DaysRise(a: Date, b: Date)
    requires Valid(a) && Valid(b) && Rank(a) < Rank(b)
    ensures Days(a) < Days(b)
    decreases Rank(b) - Rank(a)
  {
    hide Leap, Days;
    NextIsNext(a, b);
    NextIsValid(a);
    DaysFollow(a);
    if Next(a) != b {
      DaysRise(Next(a), b);
    }
  }

  lemma DaysOrder(a: Date, b: Date)
    requires Valid(a) && Valid(b)
    ensures Days(a) < Days(b) <==> Earlier(a, b)
  {
    hide Leap, Days;
    EarlierIsRank(a, b);
    if Rank(a) < Rank(b) {
      DaysRise(a, b);
    } else if Rank(b) < Rank(a) {
      DaysRise(b, a);
    } else {
      SameRank(a, b);
    }
  }

  lemma SameRank(a: Date, b: Date)
    requires Valid(a) && Valid(b) && Rank(a) == Rank(b)
    ensures a == b
  {
    hide Leap;
    EarlierIsRank(a, b);
    EarlierIsRank(b, a);
  }

  lemma Ends()
    ensures Days(FIRST) == -719528 && Days(LAST) == 2932896
  {
    FirstDay();
    LastOfAll();
    hide Days;
  }

  lemma FirstDay()
    ensures Days(FIRST) == -719528
  {
    assert Div(-400, 400) == -1;
    assert MonthStart(10) == 306;
  }

  lemma LastOfAll()
    ensures Days(LAST) == 2932896
  {
    assert Div(9999, 400) == 24;
    assert MonthStart(9) == 275;
  }

  /** Every number from the first date's to the last's is a date's. */
  lemma {:induction false} DateAt(z: int) returns (t: Date)
    requires Days(FIRST) <= z <= Days(LAST)
    ensures Valid(t) && Days(t) == z
    decreases z + 719528
  {
    hide Leap, Days;
    Ends();
    if z == Days(FIRST) {
      t := FIRST;
    } else {
      var s := DateAt(z - 1);
      NextIsValid(s);
      DaysFollow(s);
      t := Next(s);
    }
  }

  // ----- as text

  function Digit(n: int): char
    requires 0 <= n <= 9
  {
    ['0', '1', '2', '3', '4', '5', '6', '7', '8', '9'][n]
  }

  function Value(c: char): (n: int)
    requires IsDigit(c)
    ensures 0 <= n <= 9
  {
    c as int - '0' as int
  }

  lemma DigitValue(n: int)
    requires 0 <= n <= 9
    ensures IsDigit(Digit(n)) && Value(Digit(n)) == n
  {
  }

  lemma ValueDigit(c: char)
    requires IsDigit(c)
    ensures Digit(Value(c)) == c
  {
  }

  /** A number in decimal, with zeros before it up to `width`, the sign counted. */
  function Pad(n: int, width: nat): string
    decreases n < 0, if n < 0 then -n else n, width
  {
    if n < 0 then "-" + Pad(-n, if width > 0 then width - 1 else 0)
    else if n < 10 && width <= 1 then [Digit(n)]
    else Pad(n / 10, if width > 0 then width - 1 else 0) + [Digit(n % 10)]
  }

  /** The text of a date. */
  function Text(t: Date): string {
    Pad(t.y, 4) + "-" + Pad(t.m, 2) + "-" + Pad(t.d, 2)
  }

  function Prefix10(s: string): string {
    if |s| <= 10 then s else s[..10]
  }

  /** The shape of a date: ten characters, digits and two hyphens. */
  predicate Shaped(u: string) {
    && |u| == 10 && u[4] == '-' && u[7] == '-'
    && forall i :: 0 <= i < 10 && i != 4 && i != 7 ==> IsDigit(u[i])
  }

  function Read4(u: string): (y: int)
    requires |u| == 4 && forall i :: 0 <= i < 4 ==> IsDigit(u[i])
    ensures 0 <= y <= 9999
  {
    Value(u[0]) * 1000 + Value(u[1]) * 100 + Value(u[2]) * 10 + Value(u[3])
  }

  function Read2(u: string): (n: int)
    requires |u| == 2 && forall i :: 0 <= i < 2 ==> IsDigit(u[i])
    ensures 0 <= n <= 99
  {
    Value(u[0]) * 10 + Value(u[1])
  }

  function Parsed(u: string): Date
    requires Shaped(u)
  {
    Date(Read4(u[0..4]), Read2(u[5..7]), Read2(u[8..10]))
  }

  /** The day number of a text that begins with a date, and of no other. */
  function DayNumber(iso: string): Option<int> {
    var u := Prefix10(iso);
    if !Shaped(u) then None
    else
      var t := Parsed(u);
      if !(1 <= t.m <= 12) || !(1 <= t.d <= 31) || t.d > DaysInMonth(t.y, t.m) then None
      else Some(Days(t))
  }

  function IsoDate(z: int): string {
    Text(Civil(z))
  }

  function ShiftDate(iso: string, days: int): string {
    match DayNumber(iso)
    case None => Prefix10(iso)
    case Some(d) => IsoDate(d + days)
  }

  lemma Pad2(n: int)
    requires 0 <= n <= 99
    ensures Pad(n, 2) == [Digit(n / 10), Digit(n % 10)]
  {
    assert Pad(n / 10, 1) == [Digit(n / 10)];
  }

  lemma Pad4(n: int)
    requires 0 <= n <= 9999
    ensures Pad(n, 4) == [Digit(n / 1000), Digit(n / 100 % 10), Digit(n / 10 % 10), Digit(n % 10)]
  {
    hide Digit;
    assert n / 10 / 10 == n / 100 && n / 100 / 10 == n / 1000;
    Pad2(n / 100);
    assert Pad(n / 10, 3) == Pad(n / 100, 2) + [Digit(n / 10 % 10)];
    assert Pad(n, 4) == Pad(n / 10, 3) + [Digit(n % 10)];
  }

  lemma Read2Pad(u: string)
    requires |u| == 2 && forall i :: 0 <= i < 2 ==> IsDigit(u[i])
    ensures Pad(Read2(u), 2) == u
  {
    Pad2(Read2(u));
    ValueDigit(u[0]);
    ValueDigit(u[1]);
    DivIs(Read2(u), 10, Value(u[0]), Value(u[1]));
  }

  lemma Read4Pad(u: string)
    requires |u| == 4 && forall i :: 0 <= i < 4 ==> IsDigit(u[i])
    ensures Pad(Read4(u), 4) == u
  {
    hide Digit, Value;
    var a, b, c, d := Value(u[0]), Value(u[1]), Value(u[2]), Value(u[3]);
    var n := Read4(u);
    Pad4(n);
    ValueDigit(u[0]);
    ValueDigit(u[1]);
    ValueDigit(u[2]);
    ValueDigit(u[3]);
    DivIs(n, 10, a * 100 + b * 10 + c, d);
    DivIs(n, 100, a * 10 + b, c * 10 + d);
    DivIs(n, 1000, a, b * 100 + c * 10 + d);
    DivIs(n / 10, 10, a * 10 + b, c);
    DivIs(n / 100, 10, a, b);
  }

  /** Writing what was read gives the text back. */
  lemma TextOfParsed(u: string)
    requires Shaped(u)
    ensures Text(Parsed(u)) == u
  {
    hide Read4, Read2, Pad;
    Read4Pad(u[0..4]);
    Read2Pad(u[5..7]);
    Read2Pad(u[8..10]);
    assert u == u[0..4] + [u[4]] + u[5..7] + [u[7]] + u[8..10];
  }

  lemma Read2Of(n: int)
    requires 0 <= n <= 99
    ensures var u := Pad(n, 2);
            |u| == 2 && IsDigit(u[0]) && IsDigit(u[1]) && Read2(u) == n
  {
    hide Digit, Value;
    Pad2(n);
    DigitValue(n / 10);
    DigitValue(n % 10);
  }

  lemma Read4Of(n: int)
    requires 0 <= n <= 9999
    ensures var u := Pad(n, 4);
            |u| == 4 && IsDigit(u[0]) && IsDigit(u[1]) && IsDigit(u[2]) && IsDigit(u[3]) && Read4(u) == n
  {
    hide Digit, Value, Pad;
    Pad4(n);
    DigitValue(n / 1000);
    DigitValue(n / 100 % 10);
    DigitValue(n / 10 % 10);
    DigitValue(n % 10);
    FourDigits(n);
  }

  lemma FourDigits(n: int)
    requires 0 <= n <= 9999
    ensures n / 1000 * 1000 + n / 100 % 10 * 100 + n / 10 % 10 * 10 + n % 10 == n
  {
    hide *;
    assert n / 100 == n / 1000 * 10 + n / 100 % 10;
    assert n / 10 == n / 100 * 10 + n / 10 % 10;
  }

  lemma ParsedOfText(t: Date)
    requires Valid(t)
    ensures Shaped(Text(t)) && Parsed(Text(t)) == t
  {
    hide Read4, Read2, Pad, Leap;
    Read4Of(t.y);
    Read2Of(t.m);
    Read2Of(t.d);
    var u := Text(t);
    assert u[0..4] == Pad(t.y, 4) && u[5..7] == Pad(t.m, 2) && u[8..10] == Pad(t.d, 2);
  }

  lemma ParsedIsValid(iso: string)
    requires DayNumber(iso).Some?
    ensures var u := Prefix10(iso);
            Shaped(u) && Valid(Parsed(u)) && DayNumber(iso).value == Days(Parsed(u))
  {
    hide Days, Leap, Read4, Read2;
  }

  // ----- the laws of dates as text

  /** Whatever text has a day number, that number's date is the text's first ten characters. */
  lemma IsoOfDayNumber(iso: string)
    requires DayNumber(iso).Some?
    ensures IsoDate(DayNumber(iso).value) == Prefix10(iso)
  {
    hide Text, Days, Civil, Leap;
    var u := Prefix10(iso);
    TextOfParsed(u);
    CivilOfDays(Parsed(u));
  }

  /** And every number from year 0 through 9999 is the day number of its date. */
  lemma DayNumberOfIso(z: int)
    requires Days(FIRST) <= z <= Days(LAST)
    ensures DayNumber(IsoDate(z)) == Some(z) && |IsoDate(z)| == 10
  {
    hide Text, Days, Civil, Leap, Parsed;
    var t := DateAt(z);
    CivilOfDays(t);
    ParsedOfText(t);
  }

  /** Shifts add up, as long as the first lands between the years 0 and 9999. */
  lemma ShiftsCompose(iso: string, a: int, b: int)
    requires DayNumber(iso).Some? && Days(FIRST) <= DayNumber(iso).value + a <= Days(LAST)
    ensures ShiftDate(ShiftDate(iso, a), b) == ShiftDate(iso, a + b)
    ensures ShiftDate(iso, 0) == Prefix10(iso)
  {
    hide IsoDate, Days;
    DayNumberOfIso(DayNumber(iso).value + a);
    IsoOfDayNumber(iso);
  }

  // ----- the order of the texts is the order of the days

  lemma {:induction false} TextLessAt(a: string, b: string, k: nat)
    requires k < |a| && k < |b| && a[..k] == b[..k] && a[k] != b[k]
    ensures TextLess(a, b) <==> a[k] < b[k]
  {
    if k > 0 {
      assert a[0] == a[..k][0] && b[0] == b[..k][0];
      assert a[1..][..k - 1] == a[..k][1..] && b[1..][..k - 1] == b[..k][1..];
      TextLessAt(a[1..], b[1..], k - 1);
    }
  }

  /** Where two shaped texts first differ. */
  lemma {:induction false} FirstDifference(a: string, b: string, n: nat) returns (k: nat)
    requires n <= |a| && n <= |b| && a[..n] != b[..n]
    ensures k < n && a[..k] == b[..k] && a[k] != b[k]
  {
    if a[..n - 1] != b[..n - 1] {
      k := FirstDifference(a, b, n - 1);
    } else {
      k := n - 1;
      assert a[..n] == a[..n - 1] + [a[n - 1]] && b[..n] == b[..n - 1] + [b[n - 1]];
    }
  }

  /** Digits before the first difference weigh the same, and after it less than it does. */
  lemma DifferenceDecides(a: string, b: string, k: nat)
    requires Shaped(a) && Shaped(b) && k < 10 && a[..k] == b[..k] && a[k] < b[k]
    ensures Earlier(Parsed(a), Parsed(b))
  {
    forall i | 0 <= i < k ensures a[i] == b[i] {
      assert a[i] == a[..k][i] && b[i] == b[..k][i];
    }
    if k <= 3 {
      Weigh4(a[0..4], b[0..4], k);
    } else {
      assert a[0..4] == b[0..4];
      if k <= 6 {
        Weigh2(a[5..7], b[5..7], k - 5);
      } else {
        assert a[5..7] == b[5..7];
        Weigh2(a[8..10], b[8..10], k - 8);
      }
    }
  }

  lemma Weigh4(u: string, v: string, k: nat)
    requires |u| == 4 == |v| && (forall i :: 0 <= i < 4 ==> IsDigit(u[i]) && IsDigit(v[i]))
    requires k < 4 && (forall i :: 0 <= i < k ==> u[i] == v[i]) && u[k] < v[k]
    ensures Read4(u) < Read4(v)
  {
  }

  lemma Weigh2(u: string, v: string, k: int)
    requires |u| == 2 == |v| && (forall i :: 0 <= i < 2 ==> IsDigit(u[i]) && IsDigit(v[i]))
    requires 0 <= k < 2 && (forall i :: 0 <= i < k ==> u[i] == v[i]) && u[k] < v[k]
    ensures Read2(u) < Read2(v)
  {
  }

  /** Two dates compare as text exactly as their day numbers do. */
  lemma TextOrderIsDayOrder(a: string, b: string)
    requires DayNumber(a).Some? && DayNumber(b).Some?
    ensures TextLess(Prefix10(a), Prefix10(b)) <==> DayNumber(a).value < DayNumber(b).value
  {
    hide Days, Leap, Shaped, Parsed;
    var u, v := Prefix10(a), Prefix10(b);
    var s, t := Parsed(u), Parsed(v);
    ParsedIsValid(a);
    ParsedIsValid(b);
    DaysOrder(s, t);
    DaysOrder(t, s);
    if u == v {
      LessIsOrder(u, u, u);
    } else {
      ShapedLength(u);
      ShapedLength(v);
      assert u[..10] == u && v[..10] == v;
      var k := FirstDifference(u, v, 10);
      TextLessAt(u, v, k);
      if u[k] < v[k] {
        DifferenceDecides(u, v, k);
      } else {
        DifferenceDecides(v, u, k);
      }
    }
  }

  lemma ShapedLength(u: string)
    requires Shaped(u)
    ensures |u| == 10
  {
  }
}
