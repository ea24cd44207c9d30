/**
 * Exact fixed-point money (central/money.py): half-up rounding, and the zero-padded text a
 * `FixedPoint` column stores on SQLite.
 */
module Money {
  import opened Options
  import opened TextOrder

  /** A finite decimal: `coef` over ten to the `places`, with its own sign, so minus zero exists. */
  datatype Decimal = Decimal(negative: bool, coef: nat, places: nat)

  datatype Bound = Text(text: string) | Negative | TooLarge

  datatype FixedPoint = FixedPoint(precision: nat, scale: nat) {
    /** Both columns, of 12 digits with 2 or 6 decimals, have room for a digit and a sign before the point. */
    predicate Valid() {
      0 < scale && scale + 1 < precision
    }
  }

  // ------------------------------------------------------------------------------------------
  // Powers of ten and rounding
  // ------------------------------------------------------------------------------------------

  function Pow10(n: nat): (p: nat)
    ensures p >= 1
  {
    if n == 0 then 1 else 10 * Pow10(n - 1)
  }

  /** ROUND_HALF_UP of a non-negative ratio. */
  function HalfUp(num: nat, den: nat): nat
    requires den > 0
  {
    (2 * num + den) / (2 * den)
  }

  /** The nearest whole number, a tie going up. */
  predicate IsHalfUp(num: nat, den: nat, q: int) {
    2 * (q * den) - den <= 2 * num < 2 * (q * den) + den
  }

  lemma HalfUpMeaning(num: nat, den: nat)
    requires den > 0
    ensures IsHalfUp(num, den, HalfUp(num, den))
  {
    var n, d := 2 * num + den, 2 * den;
    assert n == d * (n / d) + n % d;
    assert d * (n / d) == 2 * ((n / d) * den);
  }

  lemma {:induction false} StepUp(p: int, q: int, d: nat)
    requires p < q
    ensures p * d + d <= q * d
    decreases q - p
  {
    assert q * d == (q - 1) * d + d;
    if p < q - 1 {
      StepUp(p, q - 1, d);
    }
  }

  lemma HalfUpUnique(num: nat, den: nat, q: int)
    requires den > 0 && IsHalfUp(num, den, q)
    ensures q == HalfUp(num, den)
  {
    HalfUpMeaning(num, den);
    var p: int := HalfUp(num, den);
    if p < q {
      StepUp(p, q, den);
    } else if q < p {
      StepUp(q, p, den);
    }
  }

  /** The coefficient of `value.quantize(10 ** -scale)`. */
  function Quantized(v: Decimal, scale: nat): nat {
    HalfUp(v.coef * Pow10(scale), Pow10(v.places))
  }

  lemma QuantizedExact(coef: nat, scale: nat, negative: bool)
    ensures Quantized(Decimal(negative, coef, scale), scale) == coef
  {
    HalfUpUnique(coef * Pow10(scale), Pow10(scale), coef);
  }

  /** `round_money`, of a cost in millionths: whole cents, half-up away from zero. */
  function RoundMoney(micros: int): int {
    if micros >= 0 then HalfUp(micros, 10000) else 0 - HalfUp(-micros, 10000) as int
  }

  /** Rounding a line moves it by at most half a cent. */
  lemma RoundMoneyWithinHalfCent(micros: int)
    ensures -5000 <= 10000 * RoundMoney(micros) - micros <= 5000
  {
    HalfUpMeaning(if micros >= 0 then micros else -micros, 10000);
  }

  /** Whole cents are the nearest, a tie going away from zero on either side of it. */
  lemma RoundMoneyIsHalfUp(micros: int)
    ensures micros >= 0 ==> IsHalfUp(micros, 10000, RoundMoney(micros))
    ensures RoundMoney(-micros) == -RoundMoney(micros)
  {
    if micros >= 0 {
      HalfUpMeaning(micros, 10000);
    }
  }

  // ------------------------------------------------------------------------------------------
  // Digits
  // ------------------------------------------------------------------------------------------

  function DigitChar(d: nat): char
    requires d < 10
  {
    '0' + d as char
  }

  /** The last `width` decimal digits of `n`, zero-padded. */
  function Digits(n: nat, width: nat): (s: string)
    ensures |s| == width
  {
    if width == 0 then "" else Digits(n / 10, width - 1) + [DigitChar(n % 10)]
  }

  /** How many digits `as_tuple().digits` has: one for zero. */
  function DigitCount(n: nat): (k: nat)
    ensures k >= 1
  {
    if n < 10 then 1 else 1 + DigitCount(n / 10)
  }

  lemma {:induction false} DigitCountMeaning(n: nat, k: nat)
    requires k >= 1
    ensures DigitCount(n) <= k <==> n < Pow10(k)
  {
    if k == 1 {
      assert Pow10(1) == 10 * Pow10(0);
    } else if n >= 10 {
      DigitCountMeaning(n / 10, k - 1);
    } else {
      assert Pow10(k) == 10 * Pow10(k - 1);
    }
  }

  predicate IsDigits(s: string) {
    forall i :: 0 <= i < |s| ==> '0' <= s[i] <= '9'
  }

  lemma {:induction false} DigitsAreDigits(n: nat, width: nat)
    ensures IsDigits(Digits(n, width))
  {
    if width > 0 {
      DigitsAreDigits(n / 10, width - 1);
    }
  }

  function Value(s: string): nat
    requires IsDigits(s)
  {
    if s == "" then 0 else Value(s[..|s| - 1]) * 10 + (s[|s| - 1] - '0') as nat
  }

  lemma {:induction false} ValueOfDigits(n: nat, width: nat)
    requires n < Pow10(width)
    ensures IsDigits(Digits(n, width)) && Value(Digits(n, width)) == n
  {
    DigitsAreDigits(n, width);
    if width > 0 {
      var most := Digits(n / 10, width - 1);
      ValueOfDigits(n / 10, width - 1);
      ValueAppend(most, n % 10);
      assert 10 * (n / 10) + n % 10 == n;
    }
  }

  lemma ValueAppend(s: string, d: nat)
    requires IsDigits(s) && d < 10
    ensures IsDigits(s + [DigitChar(d)]) && Value(s + [DigitChar(d)]) == Value(s) * 10 + d
  {
    assert (s + [DigitChar(d)])[..|s|] == s;
  }

  // ------------------------------------------------------------------------------------------
  // Text order
  // ------------------------------------------------------------------------------------------

  lemma {:induction false} DigitsOrder(m: nat, n: nat, width: nat)
    requires m < Pow10(width) && n < Pow10(width)
    ensures TextLess(Digits(m, width), Digits(n, width)) <==> m < n
    ensures Digits(m, width) == Digits(n, width) <==> m == n
  {
    if width > 0 {
      DigitsOrder(m / 10, n / 10, width - 1);
      var x, y := [DigitChar(m % 10)], [DigitChar(n % 10)];
      TextLessConcat(Digits(m / 10, width - 1), Digits(n / 10, width - 1), x, y);
      assert x[1..] == "" && y[1..] == "";
      assert x[0] < y[0] <==> m % 10 < n % 10;
      var a, b := Digits(m, width), Digits(n, width);
      assert a[..width - 1] == Digits(m / 10, width - 1) && b[..width - 1] == Digits(n / 10, width - 1);
      assert a[width - 1] == x[0] && b[width - 1] == y[0];
    }
  }

  // ------------------------------------------------------------------------------------------
  // process_bind_param and process_result_value
  // ------------------------------------------------------------------------------------------

  /**
   * `"{:0{w}.{s}f}"` with w one more than the precision: the coefficient's digits, zero-padded, with
   * the point before the last `scale` of them.  A minus sign takes the place of one padding zero.
   */
  function Format(t: FixedPoint, negative: bool, q: nat): string
    requires t.Valid()
  {
    var digits := Digits(q, if negative then t.precision - 1 else t.precision);
    var whole := |digits| - t.scale;
    (if negative then "-" else "") + digits[..whole] + "." + digits[whole..]
  }

  function Bind(t: FixedPoint, v: Decimal): Bound
    requires t.Valid()
  {
    if v.negative && v.coef > 0 then Negative
    else
      var q := Quantized(v, t.scale);
      if DigitCount(q) - t.scale > t.precision - t.scale then TooLarge else Text(Format(t, v.negative, q))
  }

  /** Where the decimal point stands, or the length of the text. */
  function Point(text: string): (i: nat)
    ensures i <= |text|
    ensures i < |text| ==> text[i] == '.'
    ensures forall j :: 0 <= j < i ==> text[j] != '.'
  {
    if text == "" || text[0] == '.' then 0 else 1 + Point(text[1..])
  }

  /** `Decimal(text)` for a plain literal. */
  function Literal(text: string): Option<Decimal> {
    var negative := text != "" && text[0] == '-';
    var body := if negative then text[1..] else text;
    var i := Point(body);
    var whole, fraction := body[..i], if i < |body| then body[i + 1..] else "";
    if IsDigits(whole + fraction) then Some(Decimal(negative, Value(whole + fraction), |fraction|)) else None
  }

  /** `Decimal(str(value)).quantize(...)`. */
  function ReadBack(t: FixedPoint, text: string): Option<Decimal>
  {
    match Literal(text)
    case None => None
    case Some(v) => Some(Decimal(v.negative, Quantized(v, t.scale), t.scale))
  }

  /** Stored or refused: refused exactly when negative, or when rounding reaches the precision limit. */
  lemma BindAcceptsIff(t: FixedPoint, v: Decimal)
    requires t.Valid()
    ensures Bind(t, v).Negative? <==> v.negative && v.coef > 0
    ensures Bind(t, v).Text? <==> !(v.negative && v.coef > 0) && Quantized(v, t.scale) < Pow10(t.precision)
  {
    DigitCountMeaning(Quantized(v, t.scale), t.precision);
  }

  /** Every stored text has one width and one place for the point. */
  lemma TextWidth(t: FixedPoint, v: Decimal)
    requires t.Valid() && Bind(t, v).Text?
    ensures |Bind(t, v).text| == t.precision + 1
    ensures Bind(t, v).text[t.precision - t.scale] == '.'
  {
  }

  /** Two digit strings of one length compare as they do with a point put at one place in both. */
  lemma PointKeepsOrder(a: string, b: string, i: nat)
    requires |a| == |b| && i <= |a|
    ensures TextLess(a[..i] + "." + a[i..], b[..i] + "." + b[i..]) <==> TextLess(a, b)
    ensures a[..i] + "." + a[i..] == b[..i] + "." + b[i..] <==> a == b
  {
    TextLessConcat(a[..i] + ".", b[..i] + ".", a[i..], b[i..]);
    TextLessConcat(a[..i], b[..i], ".", ".");
    TextLessConcat(a[..i], b[..i], a[i..], b[i..]);
    var x, y := a[..i] + "." + a[i..], b[..i] + "." + b[i..];
    assert a == a[..i] + a[i..] && b == b[..i] + b[i..];
    assert x[..i] == a[..i] && x[i + 1..] == a[i..] && y[..i] == b[..i] && y[i + 1..] == b[i..];
    assert "."[1..] == "";
    assert a[..i] + "." == b[..i] + "." <==> a[..i] == b[..i] by {
      assert (a[..i] + ".")[..i] == a[..i] && (b[..i] + ".")[..i] == b[..i];
    }
  }

  lemma FormatOrder(t: FixedPoint, p: nat, q: nat)
    requires t.Valid() && p < Pow10(t.precision) && q < Pow10(t.precision)
    ensures TextLess(Format(t, false, p), Format(t, false, q)) <==> p < q
    ensures Format(t, false, p) == Format(t, false, q) <==> p == q
  {
    hide Pow10;
    var a, b, i := Digits(p, t.precision), Digits(q, t.precision), t.precision - t.scale;
    hide Digits;
    DigitsOrder(p, q, t.precision);
    PointKeepsOrder(a, b, i);
    assert Format(t, false, p) == a[..i] + "." + a[i..];
    assert Format(t, false, q) == b[..i] + "." + b[i..];
  }

  /** Without a sign, text order is numeric order of the rounded values. */
  lemma TextOrderIsNumeric(t: FixedPoint, v: Decimal, w: Decimal)
    requires t.Valid() && !v.negative && !w.negative && Bind(t, v).Text? && Bind(t, w).Text?
    ensures TextLess(Bind(t, v).text, Bind(t, w).text) <==> Quantized(v, t.scale) < Quantized(w, t.scale)
    ensures Bind(t, v).text == Bind(t, w).text <==> Quantized(v, t.scale) == Quantized(w, t.scale)
  {
    hide Quantized, Format, Pow10, TextLess;
    BindAcceptsIff(t, v);
    BindAcceptsIff(t, w);
    FormatOrder(t, Quantized(v, t.scale), Quantized(w, t.scale));
  }

  lemma {:induction false} PointAfterDigits(a: string, x: string)
    requires IsDigits(a)
    ensures Point(a + "." + x) == |a|
  {
    var text := a + "." + x;
    if a == "" {
      assert text[0] == '.';
    } else {
      PointAfterDigits(a[1..], x);
      assert text[0] == a[0] && text[1..] == a[1..] + "." + x;
    }
  }

  lemma LiteralOfBody(a: string, x: string, negative: bool)
    requires a != "" && IsDigits(a) && IsDigits(x)
    ensures Literal((if negative then "-" else "") + (a + "." + x)) == Some(Decimal(negative, Value(a + x), |x|))
  {
    hide Point, Value;
    var body := a + "." + x;
    var text := (if negative then "-" else "") + body;
    PointAfterDigits(a, x);
    assert body[..|a|] == a && body[|a| + 1..] == x;
    if negative {
      assert text[1..] == body;
    } else {
      assert text == body && text[0] == a[0];
    }
  }

  /** A point put inside a digit string spells the same coefficient. */
  lemma LiteralOfDigits(digits: string, i: nat, negative: bool)
    requires IsDigits(digits) && 0 < i <= |digits|
    ensures Literal((if negative then "-" else "") + (digits[..i] + "." + digits[i..]))
         == Some(Decimal(negative, Value(digits), |digits| - i))
  {
    hide Literal, Value;
    assert digits[..i] + digits[i..] == digits;
    LiteralOfBody(digits[..i], digits[i..], negative);
  }

  /** The literal that a formatted coefficient spells. */
  lemma LiteralOfFormat(t: FixedPoint, negative: bool, q: nat)
    requires t.Valid()
    requires q < Pow10(if negative then t.precision - 1 else t.precision)
    ensures Literal(Format(t, negative, q)) == Some(Decimal(negative, q, t.scale))
  {
    hide Literal, Pow10, Digits, Value, IsDigits;
    var digits := Digits(q, if negative then t.precision - 1 else t.precision);
    ValueOfDigits(q, |digits|);
    LiteralOfDigits(digits, |digits| - t.scale, negative);
    var i := |digits| - t.scale;
    assert Format(t, negative, q) == (if negative then "-" else "") + (digits[..i] + "." + digits[i..]);
  }

  /** Reading the stored text back gives the value rounded half-up to the scale. */
  lemma ReadBackRounds(t: FixedPoint, v: Decimal)
    requires t.Valid() && Bind(t, v).Text?
    ensures ReadBack(t, Bind(t, v).text) == Some(Decimal(v.negative, Quantized(v, t.scale), t.scale))
  {
    var q := Quantized(v, t.scale);
    BindAcceptsIff(t, v);
    if v.negative {
      HalfUpUnique(0, Pow10(v.places), 0);
    }
    QuantizedExact(q, t.scale, v.negative);
    hide Quantized, Format, Literal;
    LiteralOfFormat(t, v.negative, q);
  }

  /** Rounding to the scale: the nearest multiple of the quantum, a tie going up. */
  lemma QuantizedIsHalfUp(v: Decimal, scale: nat)
    ensures IsHalfUp(v.coef * Pow10(scale), Pow10(v.places), Quantized(v, scale))
  {
    HalfUpMeaning(v.coef * Pow10(scale), Pow10(v.places));
  }

  /** Binding what was read back stores the same text again. */
  lemma BindIsIdempotent(t: FixedPoint, v: Decimal)
    requires t.Valid() && Bind(t, v).Text?
    ensures Bind(t, Decimal(v.negative, Quantized(v, t.scale), t.scale)) == Bind(t, v)
  {
    BindAcceptsIff(t, v);
    if v.negative {
      HalfUpUnique(0, Pow10(v.places), 0);
    }
    QuantizedExact(Quantized(v, t.scale), t.scale, v.negative);
    hide Format, Pow10, DigitCount;
  }

  predicate OrdersAgree(t: FixedPoint, v: Decimal, w: Decimal)
    requires t.Valid() && Bind(t, v).Text? && Bind(t, w).Text?
  {
    var a, b, p, q := Bind(t, v).text, Bind(t, w).text, Quantized(v, t.scale), Quantized(w, t.scale);
    (TextLess(a, b) <==> p < q) && (a == b <==> p == q)
  }

  lemma SignDecides(t: FixedPoint, p: nat, q: nat)
    requires t.Valid()
    ensures TextLess(Format(t, true, p), Format(t, false, q)) && !TextLess(Format(t, false, q), Format(t, true, p))
    ensures Format(t, true, p) != Format(t, false, q)
  {
    DigitsAreDigits(q, t.precision);
    var minus, plus := Format(t, true, p), Format(t, false, q);
    assert minus[0] == '-' && plus[0] == Digits(q, t.precision)[0];
  }

  /** A stored negative can only be a minus zero. */
  lemma StoredNegativeIsZero(t: FixedPoint, v: Decimal)
    requires t.Valid() && Bind(t, v).Text? && v.negative
    ensures Quantized(v, t.scale) == 0
  {
    BindAcceptsIff(t, v);
    HalfUpUnique(0, Pow10(v.places), 0);
  }

  /** Any two stored values: text order is numeric order, unless one is minus zero and the other zero. */
  lemma OrdersAgreeIff(t: FixedPoint, v: Decimal, w: Decimal)
    requires t.Valid() && Bind(t, v).Text? && Bind(t, w).Text?
    ensures OrdersAgree(t, v, w) <==>
      (v.negative <==> w.negative) || Quantized(v, t.scale) != 0 || Quantized(w, t.scale) != 0
  {
    var p, q := Quantized(v, t.scale), Quantized(w, t.scale);
    if v.negative {
      StoredNegativeIsZero(t, v);
    }
    if w.negative {
      StoredNegativeIsZero(t, w);
    }
    hide Quantized, Format, Pow10, TextLess;
    if !v.negative && !w.negative {
      TextOrderIsNumeric(t, v, w);
    } else if v.negative && w.negative {
      TextIrreflexive(Bind(t, v).text);
    } else if v.negative {
      SignDecides(t, p, q);
    } else {
      SignDecides(t, q, p);
    }
  }

  lemma DigitsStep(n: nat, width: nat)
    ensures Digits(n, width + 1) == Digits(n / 10, width) + [DigitChar(n % 10)]
  {
  }

  lemma {:induction false} ZeroDigits(width: nat)
    ensures forall i :: 0 <= i < width ==> Digits(0, width)[i] == '0'
  {
    if width > 0 {
      ZeroDigits(width - 1);
    }
  }

  lemma KnownDigits()
    ensures Digits(101, 6) == "000101" && Digits(0, 5) == "00000"
  {
    hide Digits;
    ZeroDigits(5);
    ZeroDigits(3);
    DigitsStep(1, 3);
    DigitsStep(10, 4);
    DigitsStep(101, 5);
  }

  lemma KnownRounding()
    ensures Quantized(Decimal(false, 1005, 3), 2) == 101 && Quantized(Decimal(true, 0, 0), 2) == 0
  {
    assert Pow10(1) == 10 && Pow10(2) == 100 && Pow10(3) == 1000;
  }

  lemma KnownFormats()
    ensures Format(FixedPoint(6, 2), false, 101) == "0001.01" && Format(FixedPoint(6, 2), true, 0) == "-000.00"
  {
    KnownDigits();
    hide Digits;
    assert "000101"[..4] == "0001" && "000101"[4..] == "01";
    assert "00000"[..3] == "000" && "00000"[3..] == "00";
  }

  /** 1.005 and minus zero in a column of six digits, two of them decimals. */
  lemma KnownTexts()
    ensures Bind(FixedPoint(6, 2), Decimal(false, 1005, 3)) == Text("0001.01")
    ensures Bind(FixedPoint(6, 2), Decimal(true, 0, 0)) == Text("-000.00")
  {
    KnownRounding();
    KnownFormats();
    assert DigitCount(101) == 3 && DigitCount(0) == 1;
    hide Digits, DigitCount, Quantized, Format;
  }
}
