/** Exact decimals as text (web/src/lib/dec.ts): compared digit by digit, of any length. */
module Decimals {
  import opened Trading

  predicate Digits(s: string) {
    forall i :: 0 <= i < |s| ==> IsDigit(s[i])
  }

  function DigitOf(c: char): (n: int)
    requires IsDigit(c)
    ensures 0 <= n <= 9
  {
    c as int - '0' as int
  }

  // ----- the text

  predicate Negative(d: string) {
    d != "" && d[0] == '-'
  }

  function Body(d: string): string {
    if Negative(d) then d[1..] else d
  }

  /** Where the point is, or the length where there is none. */
  function Point(s: string): (n: nat)
    ensures n <= |s|
    ensures n < |s| ==> s[n] == '.'
    ensures forall i :: 0 <= i < n ==> s[i] != '.'
  {
    if s == "" || s[0] == '.' then 0 else 1 + Point(s[1..])
  }

  function IntText(d: string): string {
    Body(d)[..Point(Body(d))]
  }

  function FracText(d: string): string {
    var b := Body(d);
    if Point(b) < |b| then b[Point(b) + 1..] else ""
  }

  /** What the page takes as a decimal: an optional sign, digits, and after a point more digits. */
  predicate Decimal(d: string) {
    && IntText(d) != "" && Digits(IntText(d)) && Digits(FracText(d))
    && (Point(Body(d)) < |Body(d)| ==> FracText(d) != "")
  }

  // ----- the value it states

  function Nat(s: string): (n: int)
    requires Digits(s)
    ensures n >= 0
  {
    if s == "" then 0 else 10 * Nat(s[..|s| - 1]) + DigitOf(s[|s| - 1])
  }

  function Frac(s: string): (r: real)
    requires Digits(s)
    ensures 0.0 <= r < 1.0
  {
    if s == "" then 0.0 else (DigitOf(s[0]) as real + Frac(s[1..])) / 10.0
  }

  function Value(d: string): real
    requires Decimal(d)
  {
    var m := Nat(IntText(d)) as real + Frac(FracText(d));
    if Negative(d) then -m else m
  }

  // ----- the parts compared

  datatype Parts = Parts(neg: bool, whole: string, frac: string)

  /** Zeros before the last digit of the whole part say nothing. */
  function StripLead(s: string): string {
    if |s| > 1 && s[0] == '0' then StripLead(s[1..]) else s
  }

  function StripTrail(s: string): string {
    if s != "" && s[|s| - 1] == '0' then StripTrail(s[..|s| - 1]) else s
  }

  function PartsOf(d: string): Parts {
    var i, f := StripLead(IntText(d)), StripTrail(FracText(d));
    Parts(Negative(d) && !(i == "0" && f == ""), i, f)
  }

  function Sign(d: string): int {
    var p := PartsOf(d);
    if p.whole == "0" && p.frac == "" then 0 else if p.neg then -1 else 1
  }

  function PadEnd(s: string, n: nat): string
    decreases n - |s|
  {
    if |s| >= n then s else PadEnd(s + "0", n)
  }

  function CmpAbs(a: Parts, b: Parts): int {
    if |a.whole| != |b.whole| then if |a.whole| < |b.whole| then -1 else 1
    else if a.whole != b.whole then if TextLess(a.whole, b.whole) then -1 else 1
    else
      var n := if |a.frac| < |b.frac| then |b.frac| else |a.frac|;
      var fa, fb := PadEnd(a.frac, n), PadEnd(b.frac, n);
      if fa == fb then 0 else if TextLess(fa, fb) then -1 else 1
  }

  /** The order of two decimals. */
  function Cmp(a: string, b: string): int {
    var sa, sb := Sign(a), Sign(b);
    if sa != sb then if sa < sb then -1 else 1
    else
      var m := CmpAbs(PartsOf(a), PartsOf(b));
      if sa < 0 then -m else m
  }

  function Neg(d: string): string {
    if Sign(d) == 0 then d else if Negative(d) then d[1..] else "-" + d
  }

  function AbsText(d: string): string {
    Body(d)
  }

  predicate AbsBelow(d: string, limit: string) {
    CmpAbs(PartsOf(d), PartsOf(limit)) < 0
  }

  // ----- stripping zeros changes no value

  lemma {:induction false} NatFront(s: string)
    requires s != "" && Digits(s)
    ensures Digits(s[1..]) && Nat(s) == DigitOf(s[0]) * Pow10(|s| - 1) + Nat(s[1..])
  {
    if |s| == 1 {
      assert s[..0] == "" && s[1..] == "";
    } else {
      var init := s[..|s| - 1];
      NatFront(init);
      assert init[1..] == s[1..][..|s| - 2];
      assert s[1..][|s| - 2] == s[|s| - 1];
      assert Pow10(|s| - 1) == 10 * Pow10(|s| - 2);
      TenTimes(DigitOf(s[0]), Pow10(|s| - 2), Nat(init[1..]));
    }
  }

  lemma TenTimes(x: int, p: int, r: int)
    ensures 10 * (x * p + r) == x * (10 * p) + 10 * r
  {
  }

  function Pow10(n: nat): (p: int)
    ensures p >= 1
  {
    if n == 0 then 1 else 10 * Pow10(n - 1)
  }

  lemma {:induction false} NatBelow(s: string)
    requires Digits(s)
    ensures Nat(s) < Pow10(|s|)
  {
    if s != "" {
      NatBelow(s[..|s| - 1]);
    }
  }

  lemma {:induction false} StripLeadKeeps(s: string)
    requires s != "" && Digits(s)
    ensures var t := StripLead(s);
            t != "" && Digits(t) && Nat(t) == Nat(s) && (|t| > 1 ==> t[0] != '0')
  {
    if |s| > 1 && s[0] == '0' {
      NatFront(s);
      StripLeadKeeps(s[1..]);
    }
  }

  lemma {:induction false} FracZero(s: string)
    requires Digits(s)
    ensures Digits(s + "0") && Frac(s + "0") == Frac(s)
  {
    if s == "" {
      assert "0"[1..] == "";
      assert s + "0" == "0";
    } else {
      FracZero(s[1..]);
      assert (s + "0")[1..] == s[1..] + "0";
    }
  }

  lemma {:induction false} StripTrailKeeps(s: string)
    requires Digits(s)
    ensures var t := StripTrail(s);
            Digits(t) && Frac(t) == Frac(s) && (t != "" ==> t[|t| - 1] != '0')
  {
    if s != "" && s[|s| - 1] == '0' {
      var init := s[..|s| - 1];
      FracZero(init);
      assert s == init + "0";
      StripTrailKeeps(init);
    }
  }

  lemma {:induction false} PadEndKeeps(s: string, n: nat)
    requires Digits(s) && |s| <= n
    ensures var t := PadEnd(s, n);
            Digits(t) && Frac(t) == Frac(s) && |t| == n
    decreases n - |s|
  {
    if |s| < n {
      FracZero(s);
      PadEndKeeps(s + "0", n);
    }
  }

  // ----- comparing digits compares values

  /** Whole parts of one length order as their text does. */
  lemma {:induction false} NatOrder(a: string, b: string)
    requires |a| == |b| && Digits(a) && Digits(b)
    ensures TextLess(a, b) <==> Nat(a) < Nat(b)
    ensures a == b <==> Nat(a) == Nat(b)
  {
    if a != "" {
      NatFront(a);
      NatFront(b);
      NatBelow(a[1..]);
      NatBelow(b[1..]);
      NatOrder(a[1..], b[1..]);
      var x, y, p := DigitOf(a[0]), DigitOf(b[0]), Pow10(|a| - 1);
      if x < y {
        Leads(x, y, p);
      } else if y < x {
        Leads(y, x, p);
      } else {
        assert a[0] == b[0];
        assert a == [a[0]] + a[1..] && b == [b[0]] + b[1..];
      }
    }
  }

  lemma Leads(x: int, y: int, p: int)
    requires x < y && p >= 1
    ensures x * p + p <= y * p
  {
    Spread(x, y, p);
    AtLeast(y - x, p);
  }

  lemma Spread(x: int, y: int, p: int)
    ensures (y - x) * p == y * p - x * p
  {
  }

  lemma AtLeast(k: int, p: int)
    requires k >= 1 && p >= 1
    ensures k * p >= p
  {
  }

  /** A longer whole part, without zeros before it, is larger. */
  lemma LongerIsMore(a: string, b: string)
    requires Digits(a) && Digits(b) && |a| < |b| && a != "" && b[0] != '0'
    ensures Nat(a) < Nat(b)
  {
    NatBelow(a);
    NatFront(b);
    PowRises(|a|, |b| - 1);
    Leads(0, DigitOf(b[0]), Pow10(|b| - 1));
  }

  lemma {:induction false} PowRises(m: nat, n: nat)
    requires m <= n
    ensures Pow10(m) <= Pow10(n)
  {
    if m < n {
      PowRises(m, n - 1);
    }
  }

  lemma FracHead(i: int, x: real, j: int, y: real)
    requires 0.0 <= x < 1.0 && 0.0 <= y < 1.0
    ensures (i as real + x) / 10.0 < (j as real + y) / 10.0 <==> i < j || (i == j && x < y)
    ensures (i as real + x) / 10.0 == (j as real + y) / 10.0 <==> i == j && x == y
  {
  }

  /** Fractions written to one length order as their text does. */
  lemma {:induction false} FracOrder(a: string, b: string)
    requires |a| == |b| && Digits(a) && Digits(b)
    ensures TextLess(a, b) <==> Frac(a) < Frac(b)
    ensures a == b <==> Frac(a) == Frac(b)
  {
    if a != "" {
      FracOrder(a[1..], b[1..]);
      FracHead(DigitOf(a[0]), Frac(a[1..]), DigitOf(b[0]), Frac(b[1..]));
      assert a == [a[0]] + a[1..] && b == [b[0]] + b[1..];
    }
  }

  /** The magnitude parts state. */
  function Mag(p: Parts): (m: real)
    requires Digits(p.whole) && Digits(p.frac)
    ensures m >= 0.0
  {
    Nat(p.whole) as real + Frac(p.frac)
  }

  /** As stripped: no zero leads a longer whole part, and none ends the fraction. */
  predicate Stripped(p: Parts) {
    && p.whole != "" && Digits(p.whole) && Digits(p.frac)
    && (|p.whole| > 1 ==> p.whole[0] != '0') && (p.frac != "" ==> p.frac[|p.frac| - 1] != '0')
  }

  lemma CmpAbsIsOrder(a: Parts, b: Parts)
    requires Stripped(a) && Stripped(b)
    ensures CmpAbs(a, b) == if Mag(a) < Mag(b) then -1 else if Mag(b) < Mag(a) then 1 else 0
  {
    hide Nat, Frac, TextLess;
    if |a.whole| < |b.whole| {
      LongerIsMore(a.whole, b.whole);
    } else if |b.whole| < |a.whole| {
      LongerIsMore(b.whole, a.whole);
    } else {
      NatOrder(a.whole, b.whole);
      var n := if |a.frac| < |b.frac| then |b.frac| else |a.frac|;
      PadEndKeeps(a.frac, n);
      PadEndKeeps(b.frac, n);
      FracOrder(PadEnd(a.frac, n), PadEnd(b.frac, n));
    }
  }

  lemma PartsState(d: string)
    requires Decimal(d)
    ensures var p := PartsOf(d);
            && Stripped(p) && Mag(p) == (if Negative(d) then -Value(d) else Value(d))
            && (Mag(p) == 0.0 <==> p.whole == "0" && p.frac == "")
  {
    hide Nat, Frac;
    StripLeadKeeps(IntText(d));
    StripTrailKeeps(FracText(d));
    ZeroIs(PartsOf(d));
  }

  lemma ZeroIs(p: Parts)
    requires Stripped(p)
    ensures Mag(p) == 0.0 <==> p.whole == "0" && p.frac == ""
  {
    if p.whole == "0" && p.frac == "" {
      assert "0"[..0] == "";
    } else if p.frac != "" {
      LastDigitCounts(p.frac);
    } else if |p.whole| > 1 {
      LongerIsMore("0", p.whole);
    } else {
      assert p.whole[..0] == "";
      assert p.whole == [p.whole[0]];
    }
  }

  lemma {:induction false} LastDigitCounts(s: string)
    requires s != "" && Digits(s) && s[|s| - 1] != '0'
    ensures Frac(s) > 0.0
  {
    if |s| > 1 {
      LastDigitCounts(s[1..]);
    }
  }

  // ----- the main results

  /** The sign is the value's: a negative zero has none. */
  lemma SignIsSign(d: string)
    requires Decimal(d)
    ensures Sign(d) == if Value(d) < 0.0 then -1 else if Value(d) > 0.0 then 1 else 0
  {
    hide Nat, Frac, Value;
    PartsState(d);
  }

  /** Comparing the texts compares the exact values, for decimals of any length. */
  lemma CmpIsOrder(a: string, b: string)
    requires Decimal(a) && Decimal(b)
    ensures Cmp(a, b) == if Value(a) < Value(b) then -1 else if Value(b) < Value(a) then 1 else 0
  {
    hide Value, Sign, CmpAbs, Mag, PartsOf;
    SignIsSign(a);
    SignIsSign(b);
    PartsState(a);
    PartsState(b);
    CmpAbsIsOrder(PartsOf(a), PartsOf(b));
    if Sign(a) == Sign(b) {
      SameSign(a, b);
    }
  }

  lemma SameSign(a: string, b: string)
    requires Decimal(a) && Decimal(b) && Sign(a) == Sign(b)
    ensures Sign(a) != 0 ==> Negative(a) == Negative(b) == (Sign(a) < 0)
    ensures Sign(a) == 0 ==> Value(a) == 0.0 == Value(b)
  {
    hide Value;
    SignIsSign(a);
    SignIsSign(b);
  }

  /** So it is a total preorder: two texts tie exactly when they state one value. */
  lemma CmpIsPreorder(a: string, b: string, c: string)
    requires Decimal(a) && Decimal(b) && Decimal(c)
    ensures Cmp(a, b) == -Cmp(b, a) && (Cmp(a, b) == 0 <==> Value(a) == Value(b))
    ensures Cmp(a, b) <= 0 && Cmp(b, c) <= 0 ==> Cmp(a, c) <= 0
  {
    hide Cmp, Value;
    CmpIsOrder(a, b);
    CmpIsOrder(b, a);
    CmpIsOrder(b, c);
    CmpIsOrder(a, c);
  }

  lemma BodyOfNeg(d: string)
    requires Decimal(d)
    ensures !Negative(Body(d)) && Body(Body(d)) == Body(d)
    ensures !Negative(d) ==> Negative("-" + d) && Body("-" + d) == d
  {
    assert ("-" + d)[1..] == d;
    var b := Body(d);
    assert IntText(d)[0] == b[0];
  }

  /** Turning the sign negates the value, and turning it twice gives the text back. */
  lemma NegNegates(d: string)
    requires Decimal(d)
    ensures Decimal(Neg(d)) && Value(Neg(d)) == -Value(d) && Neg(Neg(d)) == d
  {
    hide Nat, Frac, Sign;
    BodyOfNeg(d);
    SignIsSign(d);
    assert Body(Neg(d)) == Body(d);
    SignIsSign(Neg(d));
    if Sign(d) != 0 && Negative(d) {
      assert "-" + d[1..] == d;
    }
  }

  /** Below in magnitude, whatever the signs. */
  lemma AbsBelowIsBelow(d: string, limit: string)
    requires Decimal(d) && Decimal(limit)
    ensures AbsBelow(d, limit) <==> Abs(Value(d)) < Abs(Value(limit))
    ensures Decimal(AbsText(d)) && Value(AbsText(d)) == Abs(Value(d))
  {
    hide Nat, Frac, CmpAbs, Mag, PartsOf;
    PartsState(d);
    PartsState(limit);
    CmpAbsIsOrder(PartsOf(d), PartsOf(limit));
    BodyOfNeg(d);
  }

  /** It decides whether `|d|` is under the limit if and only if the limit is not negative, or
      is one the magnitude reaches: the limit's own sign is not read. */
  lemma AbsBelowDecidesIff(d: string, limit: string)
    requires Decimal(d) && Decimal(limit)
    ensures (AbsBelow(d, limit) <==> Abs(Value(d)) < Value(limit))
            <==> Value(limit) >= 0.0 || Abs(Value(d)) >= -Value(limit)
  {
    hide Value, AbsBelow;
    AbsBelowIsBelow(d, limit);
  }
}
