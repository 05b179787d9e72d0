/**
 Decimal fields: the literal a client sends, the digit checks it must pass to be stored
 unrounded in a numeric(precision, scale) column, and the exact text it reads back as.
 */
module Decimals {
  import opened Text

  // ---------- Powers of ten ----------

  function Pow10(n: nat): (p: nat)
    ensures p >= 1
  {
    if n == 0 then 1 else 10 * Pow10(n - 1)
  }

  lemma {:induction false} Pow10Add(m: nat, n: nat)
    ensures Pow10(m + n) == Pow10(m) * Pow10(n)
  {
    if m > 0 { Pow10Add(m - 1, n); }
  }

  lemma Pow10Monotone(m: nat, n: nat)
    requires m <= n
    ensures Pow10(m) <= Pow10(n)
    decreases n - m
  {
    if m < n { Pow10Monotone(m + 1, n); }
  }

  // ---------- Products, kept away from the recursive definitions ----------

  lemma MulAtLeast(a: int, p: int)
    requires a >= 1 && p >= 0
    ensures a * p >= p
  {
    assert a * p == (a - 1) * p + p;
    MulNonNegative(a - 1, p);
  }

  lemma MulNonNegative(a: int, p: int)
    requires a >= 0 && p >= 0
    ensures a * p >= 0
  {
  }

  lemma MulCancel(a: int, b: int, p: int)
    requires p >= 1 && a * p == b * p
    ensures a == b
  {
  }

  lemma SmallMultiple(d: int, e: int, r: int)
    requires d * e == r && 0 <= r < d
    ensures e == 0
  {
    if e >= 1 { MulAtLeast(e, d); }
    if e <= -1 {
      MulAtLeast(-e, d);
      assert (-e) * d == -r;
    }
  }

  lemma MultipleHasNoRemainder(n: int, q: int, d: int)
    requires d >= 1 && n == q * d
    ensures n % d == 0
  {
    var r, k := n % d, n / d;
    assert n == d * k + r;
    assert d * (q - k) == r;
    SmallMultiple(d, q - k, r);
  }

  lemma FourFactors(a: int, b: int, c: int, d: int)
    ensures a * b * (c * d) == (a * d) * (b * c)
    ensures a * (b * (c * d)) == (a * d) * (b * c)
    ensures a * b * c * d == a * (d * b) * c
  {
  }

  lemma ThreeFactors(a: int, b: int, c: int)
    ensures a * (b * c) == a * b * c == a * c * b
  {
  }

  // ---------- Digit strings ----------

  lemma {:induction false} ValueOfConcat(a: string, b: string)
    requires AllDigits(a) && AllDigits(b)
    ensures AllDigits(a + b)
    ensures ValueOf(a + b) == ValueOf(a) * Pow10(|b|) + ValueOf(b)
  {
    if b == "" {
      assert a + b == a;
    } else {
      var b' := b[..|b| - 1];
      ValueOfConcat(a, b');
      assert (a + b)[..|a + b| - 1] == a + b';
      assert Pow10(|b|) == 10 * Pow10(|b'|);
      assert ValueOf(a) * Pow10(|b|) == 10 * (ValueOf(a) * Pow10(|b'|));
    }
  }

  lemma ValueOfBound(s: string)
    requires AllDigits(s)
    ensures ValueOf(s) < Pow10(|s|)
  {
    if s != "" { ValueOfBound(s[..|s| - 1]); }
  }

  lemma ValueOfZeros(n: nat)
    ensures AllDigits(Repeat('0', n)) && ValueOf(Repeat('0', n)) == 0
  {
    if n > 0 {
      ValueOfZeros(n - 1);
      assert Repeat('0', n)[..n - 1] == Repeat('0', n - 1);
    }
  }

  lemma TrailingZeros(s: string, n: nat)
    requires AllDigits(s)
    ensures AllDigits(s + Repeat('0', n)) && ValueOf(s + Repeat('0', n)) == ValueOf(s) * Pow10(n)
  {
    ValueOfZeros(n);
    ValueOfConcat(s, Repeat('0', n));
  }

  lemma LeadingZeros(n: nat, s: string)
    requires AllDigits(s)
    ensures AllDigits(Repeat('0', n) + s) && ValueOf(Repeat('0', n) + s) == ValueOf(s)
  {
    ValueOfZeros(n);
    ValueOfConcat(Repeat('0', n), s);
  }

  lemma {:induction false} TrimLeftKeepsValue(s: string)
    requires AllDigits(s)
    ensures var t := TrimLeft(s, '0');
            AllDigits(t) && ValueOf(t) == ValueOf(s) && |t| <= |s| && (t != "" ==> t[0] != '0')
  {
    if s != "" && s[0] == '0' {
      TrimLeftKeepsValue(s[1..]);
      assert s == "0" + s[1..];
      ValueOfConcat("0", s[1..]);
      assert ValueOf("0") == 0;
    }
  }

  lemma LeadingDigitBound(s: string)
    requires AllDigits(s) && s != "" && s[0] != '0'
    ensures Pow10(|s| - 1) <= ValueOf(s)
  {
    var head, tail := s[..1], s[1..];
    assert s == head + tail;
    ValueOfConcat(head, tail);
    assert ValueOf(head) == 10 * ValueOf(head[..0]) + DigitValue(s[0]) && head[..0] == "";
    MulAtLeast(ValueOf(head), Pow10(|tail|));
  }

  /** Counting the digits that remain once leading zeros are gone bounds the number. */
  lemma WholeDigitsBound(s: string, n: nat)
    requires AllDigits(s)
    ensures |TrimLeft(s, '0')| <= n <==> ValueOf(s) < Pow10(n)
  {
    TrimLeftKeepsValue(s);
    var t := TrimLeft(s, '0');
    ValueOfBound(t);
    if |t| <= n {
      Pow10Monotone(|t|, n);
    } else {
      LeadingDigitBound(t);
      Pow10Monotone(n, |t| - 1);
    }
  }

  lemma {:induction false} TrimRightShape(s: string)
    requires AllDigits(s)
    ensures var t := TrimRight(s, '0');
            |t| <= |s| && s == t + Repeat('0', |s| - |t|) && (t != "" ==> t[|t| - 1] != '0')
  {
    if s != "" && s[|s| - 1] == '0' {
      TrimRightShape(s[..|s| - 1]);
      assert s == s[..|s| - 1] + "0";
      var t := TrimRight(s, '0');
      assert Repeat('0', |s| - |t|) == Repeat('0', |s| - 1 - |t|) + "0";
    }
  }

  /** At most `s` fraction digits remain once trailing zeros are gone exactly when s places hold the number. */
  lemma FractionDigitsBound(whole: string, frac: string, s: nat)
    requires AllDigits(whole) && AllDigits(frac)
    ensures AllDigits(whole + frac)
    ensures |TrimRight(frac, '0')| <= s <==> (ValueOf(whole + frac) * Pow10(s)) % Pow10(|frac|) == 0
  {
    TrimRightShape(frac);
    var t := TrimRight(frac, '0');
    var k, m := |frac|, |t|;
    assert forall i :: 0 <= i < m ==> t[i] == frac[i];
    assert AllDigits(whole + t);
    assert whole + frac == (whole + t) + Repeat('0', k - m);
    var a := ValueOf(whole + t);
    TrailingZeros(whole + t, k - m);
    if m <= s {
      EnoughPlaces(a, k, m, s);
    } else {
      assert a % 10 != 0 by { LastDigit(whole + t); }
      TooFewPlaces(a, k, m, s);
    }
  }

  lemma LastDigit(s: string)
    requires AllDigits(s) && s != ""
    ensures ValueOf(s) % 10 == DigitValue(s[|s| - 1])
  {
  }

  lemma EnoughPlaces(a: nat, k: nat, m: nat, s: nat)
    requires m <= k && m <= s
    ensures (a * Pow10(k - m) * Pow10(s)) % Pow10(k) == 0
  {
    Pow10Add(m, s - m);
    Pow10Add(k - m, m);
    FourFactors(a, Pow10(k - m), Pow10(m), Pow10(s - m));
    MultipleHasNoRemainder(a * Pow10(k - m) * Pow10(s), a * Pow10(s - m), Pow10(k));
  }

  lemma CancelFactors(a: int, q: int, b: int, c: int, d: int)
    requires b >= 1 && c >= 1 && a * b * c == q * (b * (c * d))
    ensures a == q * d
  {
    FourFactors(q, b, c, d);
    ThreeFactors(a, b, c);
    MulAtLeast(b, c);
    MulCancel(a, q * d, b * c);
  }

  lemma TooFewPlaces(a: nat, k: nat, m: nat, s: nat)
    requires m <= k && s < m && a % 10 != 0
    ensures (a * Pow10(k - m) * Pow10(s)) % Pow10(k) != 0
  {
    var b, c, e := Pow10(k - m), Pow10(s), Pow10(m - s - 1);
    Pow10Add(k - m, m);
    Pow10Add(s, m - s);
    NotAMultiple(a, b, c, 10 * e, e);
  }

  lemma NotAMultiple(a: int, b: int, c: int, d: int, e: int)
    requires b >= 1 && c >= 1 && e >= 1 && d == 10 * e && a % 10 != 0 && b * (c * d) > 0
    ensures (a * b * c) % (b * (c * d)) != 0
  {
    var n, p := a * b * c, b * (c * d);
    if n % p == 0 {
      var q := n / p;
      DividesExactly(n, p);
      CancelFactors(a, q, b, c, d);
      ThreeFactors(q, 10, e);
      MultipleHasNoRemainder(a, q * e, 10);
    }
  }

  lemma DividesExactly(n: int, p: int)
    requires p > 0 && n % p == 0
    ensures n == (n / p) * p
  {
  }

  // ---------- Literals and the values they denote ----------

  /** num / den, with a positive denominator. */
  datatype Rational = Rational(num: int, den: nat)

  predicate SameValue(a: Rational, b: Rational) {
    a.num * b.den == b.num * a.den
  }

  function Sign(negative: bool, n: nat): int {
    var m: int := n;
    if negative then -m else m
  }

  datatype Literal = Literal(negative: bool, whole: string, frac: string)

  function LiteralValue(l: Literal): Rational
    requires AllDigits(l.whole + l.frac)
  {
    Rational(Sign(l.negative, ValueOf(l.whole + l.frac)), Pow10(|l.frac|))
  }

  predicate DecimalChar(c: char) {
    c == '-' || c == '+' || c == '.' || IsDigit(c)
  }

  /** What `big.Rat.SetString` scans from signs, dots and digits: an optional sign, then
      digits with at most one dot among them and at least one digit in all. */
  function ScanLiteral(t: string): (r: Option<Literal>)
    ensures r.Some? ==> AllDigits(r.value.whole) && AllDigits(r.value.frac) && AllDigits(r.value.whole + r.value.frac)
  {
    var signed := t != "" && (t[0] == '-' || t[0] == '+');
    var body := if signed then t[1..] else t;
    var (whole, frac) := Cut(body, '.');
    if AllDigits(whole) && AllDigits(frac) && |whole| + |frac| > 0
    then Some(Literal(signed && t[0] == '-', whole, frac))
    else None
  }

  function ParseDecimalText(text: string): Option<Rational> {
    match ScanLiteral(TrimSpace(text))
    case None => None
    case Some(l) => Some(LiteralValue(l))
  }

  lemma CutParts(s: string, c: char)
    ensures var (a, b) := Cut(s, c); s == a || s == a + [c] + b
  {
  }

  lemma BodyAlphabet(body: string)
    requires var (whole, frac) := Cut(body, '.'); AllDigits(whole) && AllDigits(frac)
    ensures forall i :: 0 <= i < |body| ==> DecimalChar(body[i])
  {
    CutParts(body, '.');
    var (whole, frac) := Cut(body, '.');
    forall i | 0 <= i < |body| ensures DecimalChar(body[i]) {
      assert i < |whole| ==> body[i] == whole[i];
      assert i > |whole| ==> body[i] == frac[i - |whole| - 1];
    }
  }

  lemma LiteralAlphabet(t: string)
    requires ScanLiteral(t).Some?
    ensures t != "" && forall i :: 0 <= i < |t| ==> DecimalChar(t[i])
  {
    var signed := t[0] == '-' || t[0] == '+';
    var body := if signed then t[1..] else t;
    BodyAlphabet(body);
    assert forall i :: 0 <= i < |t| ==> t[i] == if signed then (if i == 0 then t[0] else body[i - 1]) else body[i];
  }

  /** The scan for foreign characters, which keeps exponents, NaN and fractions away from big.Rat. */
  method ParseDecimal(text: string) returns (r: Option<Rational>)
    ensures r == ParseDecimalText(text)
  {
    var trimmed := TrimSpace(text);
    if trimmed == "" { return None; }
    for i := 0 to |trimmed|
      invariant forall j :: 0 <= j < i ==> DecimalChar(trimmed[j])
    {
      if !DecimalChar(trimmed[i]) {
        if ScanLiteral(trimmed).Some? { LiteralAlphabet(trimmed); }
        return None;
      }
    }
    match ScanLiteral(trimmed) {
      case None => return None;
      case Some(l) => return Some(LiteralValue(l));
    }
  }

  /** The digit counts the field check compares with precision and scale. */
  function DecimalDigits(text: string): (int, int) {
    var trimmed := TrimPrefix(TrimPrefix(TrimSpace(text), '-'), '+');
    var (whole, frac) := Cut(trimmed, '.');
    (|TrimLeft(whole, '0')|, |TrimRight(frac, '0')|)
  }

  /** |v| < 10^(precision - scale), and v * 10^scale is an integer. */
  predicate FitsUnrounded(v: Rational, precision: nat, scale: nat)
    requires scale <= precision && v.den >= 1
  {
    && v.num < Pow10(precision - scale) * v.den
    && -v.num < Pow10(precision - scale) * v.den
    && (v.num * Pow10(scale)) % v.den == 0
  }

  lemma NegationKeepsDivisibility(n: int, d: int)
    requires d >= 1
    ensures n % d == 0 <==> (-n) % d == 0
  {
    if n % d == 0 { MultipleHasNoRemainder(-n, -(n / d), d); }
    if (-n) % d == 0 { MultipleHasNoRemainder(n, -((-n) / d), d); }
  }

  lemma BoundScales(w: int, f: int, b: int, p: int)
    requires 0 <= f < p
    ensures w < b <==> w * p + f < b * p
  {
    if w < b {
      MulNonNegative(b - w - 1, p);
      assert (b - w - 1) * p == b * p - w * p - p;
    } else {
      MulNonNegative(w - b, p);
      assert (w - b) * p == w * p - b * p;
    }
  }

  lemma WholePartBound(whole: string, frac: string, n: nat)
    requires AllDigits(whole) && AllDigits(frac)
    ensures AllDigits(whole + frac)
    ensures ValueOf(whole) < Pow10(n) <==> ValueOf(whole + frac) < Pow10(n) * Pow10(|frac|)
  {
    ValueOfConcat(whole, frac);
    ValueOfBound(frac);
    BoundScales(ValueOf(whole), ValueOf(frac), Pow10(n), Pow10(|frac|));
  }

  lemma LiteralFits(l: Literal, precision: nat, scale: nat)
    requires AllDigits(l.whole) && AllDigits(l.frac) && AllDigits(l.whole + l.frac) && scale <= precision
    ensures |TrimLeft(l.whole, '0')| <= precision - scale && |TrimRight(l.frac, '0')| <= scale <==>
            FitsUnrounded(LiteralValue(l), precision, scale)
  {
    WholeDigitsBound(l.whole, precision - scale);
    WholePartBound(l.whole, l.frac, precision - scale);
    FractionDigitsBound(l.whole, l.frac, scale);
    FitsBySize(l.negative, ValueOf(l.whole + l.frac), Pow10(|l.frac|), precision, scale);
  }

  /** The digit checks accept a literal exactly when its value fits the column without rounding. */
  lemma DigitChecksExact(text: string, precision: nat, scale: nat)
    requires ParseDecimalText(text).Some? && scale <= precision
    ensures var (intDigits, fracDigits) := DecimalDigits(text);
            (intDigits <= precision - scale && fracDigits <= scale)
            <==> FitsUnrounded(ParseDecimalText(text).value, precision, scale)
  {
    var t := TrimSpace(text);
    ScannedParts(t);
    LiteralFits(ScanLiteral(t).value, precision, scale);
  }

  /** Fitting depends on the size of a number and not on its sign. */
  lemma FitsBySize(negative: bool, n: nat, den: nat, precision: nat, scale: nat)
    requires scale <= precision && den >= 1
    ensures FitsUnrounded(Rational(Sign(negative, n), den), precision, scale) <==>
            n < Pow10(precision - scale) * den && (n * Pow10(scale)) % den == 0
  {
    NegationKeepsDivisibility(n * Pow10(scale), den);
    MulAtLeast(Pow10(precision - scale), den);
    assert Sign(negative, n) * Pow10(scale) == Sign(negative, n * Pow10(scale));
  }

  /** Stripping one optional '-' and then one optional '+' leaves the digits of a scanned literal. */
  lemma ScannedParts(t: string)
    requires ScanLiteral(t).Some?
    ensures Cut(TrimPrefix(TrimPrefix(t, '-'), '+'), '.') == (ScanLiteral(t).value.whole, ScanLiteral(t).value.frac)
  {
    LiteralAlphabet(t);
    var signed := t[0] == '-' || t[0] == '+';
    var body := if signed then t[1..] else t;
    var (whole, frac) := Cut(body, '.');
    CutParts(body, '.');
    assert body != "" && body[0] != '+' by {
      if whole != "" { assert body[0] == whole[0]; } else { assert body[0] == '.'; }
    }
  }

  // ---------- Accepting input ----------

  datatype DecimalField =
    DecimalField(required: bool, precision: nat, scale: nat, min: Option<string>, max: Option<string>)

  datatype DecimalError = NotADecimal | Required | TooManyPlaces | TooManyDigits | BelowMin | AboveMax

  predicate ValidDecimalField(f: DecimalField) {
    1 <= f.precision <= 38 && f.scale <= f.precision
  }

  /** No smaller than a readable lower bound and no larger than a readable upper one, compared as fractions. */
  predicate WithinBounds(v: Rational, f: DecimalField) {
    && (f.min.Some? && ParseDecimalText(f.min.value).Some? ==>
          var low := ParseDecimalText(f.min.value).value; low.num * v.den <= v.num * low.den)
    && (f.max.Some? && ParseDecimalText(f.max.value).Some? ==>
          var high := ParseDecimalText(f.max.value).value; v.num * high.den <= high.num * v.den)
  }

  predicate Less(a: Rational, b: Rational) {
    a.num * b.den < b.num * a.den
  }

  /** A bound that is absent or unreadable does not constrain the value. */
  predicate AtLeast(v: Rational, bound: Option<string>) {
    bound.Some? && ParseDecimalText(bound.value).Some? ==> !Less(v, ParseDecimalText(bound.value).value)
  }

  predicate AtMost(v: Rational, bound: Option<string>) {
    bound.Some? && ParseDecimalText(bound.value).Some? ==> !Less(ParseDecimalText(bound.value).value, v)
  }

  /** The text a decimal field stores, taken after the JSON string or number has been decoded. */
  function NormalizeDecimalInput(f: DecimalField, raw: string): Result<Option<string>, DecimalError> {
    var text := TrimSpace(raw);
    if text == "" then
      if f.required then Err(Required) else Ok(None)
    else
      match ParseDecimalText(text)
      case None => Err(NotADecimal)
      case Some(value) =>
        var (intDigits, fracDigits) := DecimalDigits(text);
        if fracDigits > f.scale then Err(TooManyPlaces)
        else if intDigits > f.precision - f.scale then Err(TooManyDigits)
        else if !AtLeast(value, f.min) then Err(BelowMin)
        else if !AtMost(value, f.max) then Err(AboveMax)
        else Ok(Some(text))
  }

  lemma {:induction false} TrimLeftSpaceShape(s: string)
    ensures var t := TrimLeftSpace(s); t == "" || !IsSpace(t[0])
  {
    if s != "" && IsSpace(s[0]) { TrimLeftSpaceShape(s[1..]); }
  }

  lemma {:induction false} TrimRightSpaceShape(s: string)
    ensures var t := TrimRightSpace(s); t <= s && (t == "" || !IsSpace(t[|t| - 1]))
  {
    if s != "" && IsSpace(s[|s| - 1]) { TrimRightSpaceShape(s[..|s| - 1]); }
  }

  lemma TrimSpaceIdempotent(s: string)
    ensures TrimSpace(TrimSpace(s)) == TrimSpace(s)
  {
    TrimLeftSpaceShape(s);
    TrimRightSpaceShape(TrimLeftSpace(s));
  }

  /** The checks of a non-blank input, in terms of its digits. */
  lemma StoredByDigits(f: DecimalField, raw: string)
    ensures NormalizeDecimalInput(f, raw) == Ok(Some(TrimSpace(raw))) <==>
            TrimSpace(raw) != "" && PassesChecks(f, TrimSpace(raw), ParseDecimalText(TrimSpace(raw)))
  {
  }

  predicate PassesChecks(f: DecimalField, text: string, v: Option<Rational>) {
    var (intDigits, fracDigits) := DecimalDigits(text);
    && v.Some? && fracDigits <= f.scale && intDigits <= f.precision - f.scale
    && AtLeast(v.value, f.min) && AtMost(v.value, f.max)
  }

  lemma ChecksExact(f: DecimalField, text: string)
    requires ValidDecimalField(f)
    ensures PassesChecks(f, text, ParseDecimalText(text)) <==>
            var v := ParseDecimalText(text);
            v.Some? && FitsUnrounded(v.value, f.precision, f.scale) && AtLeast(v.value, f.min) && AtMost(v.value, f.max)
  {
    if ParseDecimalText(text).Some? { DigitChecksExact(text, f.precision, f.scale); }
  }

  /** A non-blank input is stored exactly when it is a literal that fits the column and its bounds. */
  lemma AcceptsExactlyTheStorable(f: DecimalField, raw: string)
    requires ValidDecimalField(f)
    ensures NormalizeDecimalInput(f, raw) == Ok(None) <==> TrimSpace(raw) == "" && !f.required
    ensures NormalizeDecimalInput(f, raw) == Ok(Some(TrimSpace(raw))) <==>
            var v := ParseDecimalText(raw);
            v.Some? && FitsUnrounded(v.value, f.precision, f.scale) && WithinBounds(v.value, f)
    ensures NormalizeDecimalInput(f, raw).Ok? ==> NormalizeDecimalInput(f, raw).value in {None, Some(TrimSpace(raw))}
  {
    var text := TrimSpace(raw);
    TrimSpaceIdempotent(raw);
    StoredByDigits(f, raw);
    ChecksExact(f, text);
    if ParseDecimalText(text).Some? { LiteralAlphabet(text); }
  }

  // ---------- Rendering ----------

  /** A driver numeric: coefficient * 10^exp when it is a valid finite number. */
  datatype Numeric = Numeric(valid: bool, nan: bool, finite: bool, coefficient: Option<int>, exp: int)

  predicate IsNumber(n: Numeric) {
    n.valid && !n.nan && n.finite && n.coefficient.Some?
  }

  function IntString(n: int): string {
    if n < 0 then "-" + Digits(-n) else Digits(n)
  }

  function PadLeft(digits: string, frac: nat): (r: string)
    ensures |r| > frac
  {
    if |digits| <= frac then Repeat('0', frac - |digits| + 1) + digits else digits
  }

  /** Digits with a dot before the last `frac` of them. */
  function Layout(digits: string, frac: nat): string {
    var padded := PadLeft(digits, frac);
    var split := |padded| - frac;
    padded[..split] + "." + padded[split..]
  }

  /** Digits times 10^exp, without a sign. */
  function Shifted(digits: string, exp: int): string {
    if exp >= 0 then digits + Repeat('0', exp) else Layout(digits, -exp)
  }

  function FormatExactNumeric(n: Numeric): Option<string> {
    if !IsNumber(n) then None
    else
      var text := IntString(n.coefficient.value);
      var negative := text[0] == '-';
      var digits := TrimPrefix(text, '-');
      var out := Shifted(digits, n.exp);
      Some(if negative && (exists i :: 0 <= i < |out| && out[i] != '0' && out[i] != '.') then "-" + out else out)
  }

  function PadDecimalScale(value: Option<string>, scale: int): Option<string> {
    if value.None? || scale <= 0 || value.value == "" then value
    else
      var text := value.value;
      var dot := IndexOf(text, '.');
      if dot < 0 then Some(text + "." + Repeat('0', scale))
      else
        var missing := scale - (|text| - dot - 1);
        if missing > 0 then Some(text + Repeat('0', missing)) else value
  }

  /** What a client reads from a numeric(_, scale) column. */
  function Render(n: Numeric, scale: int): Option<string> {
    PadDecimalScale(FormatExactNumeric(n), scale)
  }

  /** The value v of `n`, as v * 10^scale. */
  function Scaled(n: Numeric, scale: nat): int
    requires IsNumber(n) && -n.exp <= scale
  {
    n.coefficient.value * Pow10(scale + n.exp)
  }

  predicate Denotes(n: Numeric, v: Rational)
    requires IsNumber(n)
  {
    if n.exp >= 0 then v.num == n.coefficient.value * Pow10(n.exp) * v.den
    else v.num * Pow10(-n.exp) == n.coefficient.value * v.den
  }

  /** The one spelling of m / 10^scale with exactly `scale` fraction digits. */
  function Abs(m: int): nat {
    if m < 0 then -m else m
  }

  function SignText(negative: bool): string {
    if negative then "-" else ""
  }

  function Canonical(m: int, scale: nat): string {
    SignText(m < 0) + Layout(Digits(Abs(m)), scale)
  }

  lemma DigitsStep(n: nat, q: nat, d: nat)
    requires n == 10 * q + d && d < 10 && q > 0
    ensures Digits(n) == Digits(q) + [(d + ('0' as int)) as char]
  {
    assert n / 10 == q && n % 10 == d;
  }

  /** A string of digits without a leading zero is the spelling of its value. */
  lemma {:induction false} DigitsUnique(s: string)
    requires AllDigits(s) && s != "" && s[0] != '0'
    ensures Digits(ValueOf(s)) == s
  {
    var front, last := s[..|s| - 1], s[|s| - 1];
    assert s == front + [last];
    if front == "" {
      assert ValueOf(s) == DigitValue(last);
    } else {
      DigitsUnique(front);
      LeadingDigitBound(front);
      DigitsStep(ValueOf(s), ValueOf(front), DigitValue(last));
    }
  }

  lemma DigitsShift(c: nat, k: nat)
    requires c > 0
    ensures Digits(c * Pow10(k)) == Digits(c) + Repeat('0', k)
  {
    var d := Digits(c);
    var s := d + Repeat('0', k);
    DigitsDenote(c);
    TrailingZeros(d, k);
    assert s[0] == d[0];
    DigitsUnique(s);
  }

  lemma DotPosition(a: string, b: string)
    requires '.' !in a
    ensures IndexOf(a + "." + b, '.') == |a|
  {
    var s := a + "." + b;
    assert s[|a|] == '.';
    assert forall j :: 0 <= j < |a| ==> s[j] == a[j];
  }

  lemma DigitsHaveNoDot(s: string)
    requires AllDigits(s)
    ensures '.' !in s && '-' !in s && '+' !in s
  {
  }

  lemma LayoutShift(d: string, frac: nat, k: nat)
    requires d != ""
    ensures Layout(d, frac) + Repeat('0', k) == Layout(d + Repeat('0', k), frac + k)
  {
    assert PadLeft(d, frac) + Repeat('0', k) == PadLeft(d + Repeat('0', k), frac + k);
  }

  lemma LayoutDot(d: string, frac: nat)
    requires AllDigits(d)
    ensures IndexOf(Layout(d, frac), '.') == |Layout(d, frac)| - frac - 1
  {
    var padded := PadLeft(d, frac);
    assert AllDigits(padded);
    DigitsHaveNoDot(padded[..|padded| - frac]);
    DotPosition(padded[..|padded| - frac], padded[|padded| - frac..]);
  }

  /** Padding the rendering of digits that carry `frac` fraction places up to `scale` of them. */
  lemma PadLayout(d: string, frac: nat, scale: nat)
    requires AllDigits(d) && d != "" && frac <= scale && scale > 0
    ensures PadDecimalScale(Some(Layout(d, frac)), scale) == Some(Layout(d + Repeat('0', scale - frac), scale))
  {
    LayoutDot(d, frac);
    LayoutShift(d, frac, scale - frac);
    assert Layout(d, frac) + "" == Layout(d, frac);
  }

  lemma LayoutOfWhole(whole: string, scale: nat)
    requires whole != ""
    ensures Layout(whole + Repeat('0', scale), scale) == whole + "." + Repeat('0', scale)
  {
  }

  lemma LayoutOfZero(k: nat, scale: nat)
    requires k <= scale
    ensures Layout("0" + Repeat('0', k), scale) == Layout("0", scale)
  {
    assert PadLeft("0" + Repeat('0', k), scale) == PadLeft("0", scale);
  }

  lemma PadWhole(whole: string, scale: nat)
    requires AllDigits(whole) && whole != "" && scale > 0
    ensures PadDecimalScale(Some(whole), scale) == Some(Layout(whole + Repeat('0', scale), scale))
  {
    DigitsHaveNoDot(whole);
    LayoutOfWhole(whole, scale);
  }

  /** Rendering without its sign, for the digits `d` of a coefficient. */
  lemma PadDigits(d: string, exp: int, scale: nat)
    requires AllDigits(d) && d != "" && scale > 0 && -exp <= scale
    ensures PadDecimalScale(Some(Shifted(d, exp)), scale) == Some(Layout(d + Repeat('0', scale + exp), scale))
  {
    if exp >= 0 {
      assert d + Repeat('0', scale + exp) == d + Repeat('0', exp) + Repeat('0', scale);
      PadWhole(d + Repeat('0', exp), scale);
    } else {
      PadLayout(d, -exp, scale);
    }
  }

  lemma UnsignedZero(exp: int, scale: nat)
    requires scale > 0 && -exp <= scale && exp <= 0
    ensures PadDecimalScale(Some(Shifted(Digits(0), exp)), scale) == Some(Layout(Digits(0), scale))
  {
    var zero := Digits(0);
    assert zero == "0";
    PadDigits(zero, exp, scale);
    LayoutOfZero(scale + exp, scale);
  }

  lemma UnsignedNonZero(c: nat, exp: int, scale: nat)
    requires scale > 0 && -exp <= scale && c > 0
    ensures PadDecimalScale(Some(Shifted(Digits(c), exp)), scale) == Some(Layout(Digits(c * Pow10(scale + exp)), scale))
  {
    DigitsDenote(c);
    PadDigits(Digits(c), exp, scale);
    DigitsShift(c, scale + exp);
  }

  lemma UnsignedRendering(c: nat, exp: int, scale: nat)
    requires scale > 0 && -exp <= scale && (c != 0 || exp <= 0)
    ensures PadDecimalScale(Some(Shifted(Digits(c), exp)), scale) == Some(Layout(Digits(c * Pow10(scale + exp)), scale))
  {
    if c > 0 {
      UnsignedNonZero(c, exp, scale);
    } else {
      UnsignedZero(exp, scale);
    }
  }

  lemma IndexAfterSign(negative: bool, text: string)
    ensures IndexOf(SignText(negative) + text, '.') ==
            if IndexOf(text, '.') < 0 then -1 else IndexOf(text, '.') + |SignText(negative)|
  {
    if negative {
      assert ("-" + text)[1..] == text;
    } else {
      assert "" + text == text;
    }
  }

  lemma PadIgnoresSign(negative: bool, out: string, scale: nat)
    requires out != "" && scale > 0
    ensures PadDecimalScale(Some(SignText(negative) + out), scale) ==
            Some(SignText(negative) + PadDecimalScale(Some(out), scale).value)
  {
    var sign := SignText(negative);
    var signed := sign + out;
    var dot := IndexOf(out, '.');
    IndexAfterSign(negative, out);
    if dot < 0 {
      assert signed + "." + Repeat('0', scale) == sign + (out + "." + Repeat('0', scale));
    } else if scale - (|out| - dot - 1) > 0 {
      var zeros := Repeat('0', scale - (|out| - dot - 1));
      assert signed + zeros == sign + (out + zeros);
    }
  }

  lemma SomeNonZeroDigit(s: string)
    requires AllDigits(s) && ValueOf(s) > 0
    ensures exists i :: 0 <= i < |s| && s[i] != '0'
  {
    if s[|s| - 1] == '0' {
      SomeNonZeroDigit(s[..|s| - 1]);
      var i :| 0 <= i < |s| - 1 && s[..|s| - 1][i] != '0';
      assert s[i] != '0';
    }
  }

  lemma ShiftedShowsDigit(d: string, exp: int, i: nat)
    requires i < |d| && d[i] != '0' && d[i] != '.'
    ensures var out := Shifted(d, exp); exists k :: 0 <= k < |out| && out[k] != '0' && out[k] != '.'
  {
    var out := Shifted(d, exp);
    if exp >= 0 {
      assert out[i] == d[i];
    } else {
      var padded := PadLeft(d, -exp);
      var j := |padded| - |d| + i;
      assert padded[j] == d[i];
      var split := |padded| + exp;
      assert out[if j < split then j else j + 1] == d[i];
    }
  }

  lemma ShiftedIsNotZero(d: string, exp: int)
    requires AllDigits(d) && d != "" && ValueOf(d) > 0
    ensures var out := Shifted(d, exp); exists k :: 0 <= k < |out| && out[k] != '0' && out[k] != '.'
  {
    DigitsHaveNoDot(d);
    SomeNonZeroDigit(d);
    var i :| 0 <= i < |d| && d[i] != '0';
    ShiftedShowsDigit(d, exp, i);
  }

  lemma FormatNegative(n: Numeric)
    requires IsNumber(n) && n.coefficient.value < 0
    ensures FormatExactNumeric(n) == Some("-" + Shifted(Digits(-n.coefficient.value), n.exp))
  {
    var d := Digits(-n.coefficient.value);
    DigitsDenote(-n.coefficient.value);
    ShiftedIsNotZero(d, n.exp);
    assert ("-" + d)[1..] == d;
  }

  lemma FormatBySign(n: Numeric)
    requires IsNumber(n)
    ensures var c := n.coefficient.value;
            FormatExactNumeric(n) == Some(SignText(c < 0) + Shifted(Digits(Abs(c)), n.exp))
  {
    var c := n.coefficient.value;
    if c < 0 {
      FormatNegative(n);
    } else {
      var d := Digits(c);
      DigitsDenote(c);
      assert IsDigit(d[0]);
      assert "" + Shifted(d, n.exp) == Shifted(d, n.exp);
    }
  }

  /** Every driver form of a value with at most `scale` fraction digits renders to the canonical spelling,
      save for a zero that carries a positive exponent. */
  lemma RendersCanonically(n: Numeric, scale: nat)
    requires IsNumber(n) && scale > 0 && -n.exp <= scale
    ensures Render(n, scale) == Some(Canonical(Scaled(n, scale), scale)) <==> !(n.coefficient.value == 0 && n.exp > 0)
  {
    FormatBySign(n);
    if n.coefficient.value == 0 && n.exp > 0 {
      ZeroWithExponent(n.exp, scale);
      assert Scaled(n, scale) == 0;
    } else {
      OthersRender(n, scale);
    }
  }

  lemma RenderedText(n: Numeric, scale: nat)
    requires IsNumber(n)
    ensures var c := n.coefficient.value;
            Render(n, scale) == PadDecimalScale(Some(SignText(c < 0) + Shifted(Digits(Abs(c)), n.exp)), scale)
  {
    FormatBySign(n);
  }

  lemma RenderedSigned(n: Numeric, scale: nat)
    requires IsNumber(n) && scale > 0 && -n.exp <= scale && !(n.coefficient.value == 0 && n.exp > 0)
    ensures var c := n.coefficient.value;
            Render(n, scale) == Some(SignText(c < 0) + Layout(Digits(Abs(c) * Pow10(scale + n.exp)), scale))
  {
    RenderedText(n, scale);
    SignedRendering(n.coefficient.value < 0, Abs(n.coefficient.value), n.exp, scale);
  }

  lemma OthersRender(n: Numeric, scale: nat)
    requires IsNumber(n) && scale > 0 && -n.exp <= scale && !(n.coefficient.value == 0 && n.exp > 0)
    ensures Render(n, scale) == Some(Canonical(Scaled(n, scale), scale))
  {
    RenderedSigned(n, scale);
    CanonicalOf(n, scale);
  }

  lemma CanonicalOf(n: Numeric, scale: nat)
    requires IsNumber(n) && -n.exp <= scale
    ensures var c := n.coefficient.value;
            Canonical(Scaled(n, scale), scale) ==
            SignText(c < 0) + Layout(Digits(Abs(c) * Pow10(scale + n.exp)), scale)
  {
    SizeOfScaled(n.coefficient.value, Pow10(scale + n.exp));
  }

  lemma SignedRendering(negative: bool, c: nat, exp: int, scale: nat)
    requires scale > 0 && -exp <= scale && (c != 0 || exp <= 0)
    ensures PadDecimalScale(Some(SignText(negative) + Shifted(Digits(c), exp)), scale) ==
            Some(SignText(negative) + Layout(Digits(c * Pow10(scale + exp)), scale))
  {
    var digits := Shifted(Digits(c), exp);
    assert |digits| > 0;
    PadIgnoresSign(negative, digits, scale);
    UnsignedRendering(c, exp, scale);
  }

  lemma SizeOfScaled(c: int, p: int)
    requires p >= 1
    ensures Abs(c * p) == Abs(c) * p && (c * p < 0 <==> c < 0)
  {
    if c < 0 {
      MulAtLeast(-c, p);
      assert (-c) * p == -(c * p);
    } else {
      MulNonNegative(c, p);
    }
  }

  lemma ZeroWithExponent(exp: nat, scale: nat)
    requires exp > 0 && scale > 0
    ensures PadDecimalScale(Some(SignText(false) + Shifted(Digits(0), exp)), scale) != Some(Canonical(0, scale))
  {
    var whole := "0" + Repeat('0', exp);
    assert SignText(false) + Shifted(Digits(0), exp) == whole;
    PadWhole(whole, scale);
    LayoutOfWhole(whole, scale);
    assert |Layout("0", scale)| == scale + 2;
  }

  // ---------- Reading a rendering back ----------

  lemma NothingToTrim(s: string)
    requires s != "" && !IsSpace(s[0]) && !IsSpace(s[|s| - 1])
    ensures TrimSpace(s) == s
  {
  }

  /** A sign followed by digits scans as a whole number, and by digits, a dot and digits as a fraction. */
  lemma ScanWhole(sign: string, whole: string)
    requires sign == "" || sign == "-" || sign == "+"
    requires AllDigits(whole) && whole != ""
    ensures ScanLiteral(sign + whole) == Some(Literal(sign == "-", whole, "")) &&
            TrimSpace(sign + whole) == sign + whole
  {
    var t := sign + whole;
    assert t[|t| - 1] == whole[|whole| - 1];
    assert IsDigit(whole[0]);
    NothingToTrim(t);
    CutNoDot(whole);
    ScanSigned(sign, whole);
  }

  lemma CutNoDot(whole: string)
    requires AllDigits(whole)
    ensures Cut(whole, '.') == (whole, "")
  {
    DigitsHaveNoDot(whole);
  }

  lemma CutAtDot(whole: string, frac: string)
    requires AllDigits(whole)
    ensures Cut(whole + "." + frac, '.') == (whole, frac)
  {
    DigitsHaveNoDot(whole);
    DotPosition(whole, frac);
    var body := whole + "." + frac;
    assert body[..|whole|] == whole && body[|whole| + 1..] == frac;
  }

  lemma ScanFraction(sign: string, whole: string, frac: string)
    requires sign == "" || sign == "-" || sign == "+"
    requires AllDigits(whole) && AllDigits(frac) && frac != ""
    ensures ScanLiteral(sign + (whole + "." + frac)) == Some(Literal(sign == "-", whole, frac))
    ensures TrimSpace(sign + (whole + "." + frac)) == sign + (whole + "." + frac)
  {
    var body := whole + "." + frac;
    var t := sign + body;
    CutAtDot(whole, frac);
    assert t[|t| - 1] == frac[|frac| - 1];
    assert body[0] == (if whole == "" then '.' else whole[0]);
    assert t[0] == (if sign == "" then body[0] else sign[0]);
    NothingToTrim(t);
    ScanSigned(sign, body);
  }

  lemma ScanSigned(sign: string, body: string)
    requires sign == "" || sign == "-" || sign == "+"
    requires body != "" && body[0] != '-' && body[0] != '+'
    ensures ScanLiteral(sign + body) ==
            var (whole, frac) := Cut(body, '.');
            if AllDigits(whole) && AllDigits(frac) && |whole| + |frac| > 0
            then Some(Literal(sign == "-", whole, frac)) else None
  {
    var t := sign + body;
    if sign == "" {
      assert t == body;
    } else {
      assert t[1..] == body;
    }
  }

  lemma LayoutParses(negative: bool, d: string, frac: nat)
    requires frac > 0 && AllDigits(d)
    ensures ParseDecimalText(SignText(negative) + Layout(d, frac)) ==
            Some(Rational(Sign(negative, ValueOf(d)), Pow10(frac)))
  {
    var padded := PadLeft(d, frac);
    var split := |padded| - frac;
    var whole, part := padded[..split], padded[split..];
    PaddedValue(d, frac);
    assert whole + part == padded && |part| == frac;
    ScanFraction(SignText(negative), whole, part);
    ParsesAs(SignText(negative) + Layout(d, frac), Literal(negative, whole, part));
  }

  lemma PaddedValue(d: string, frac: nat)
    requires AllDigits(d)
    ensures AllDigits(PadLeft(d, frac)) && ValueOf(PadLeft(d, frac)) == ValueOf(d)
  {
    if |d| <= frac { LeadingZeros(frac - |d| + 1, d); }
  }

  lemma ParsesAs(text: string, l: Literal)
    requires TrimSpace(text) == text && ScanLiteral(text) == Some(l)
    ensures ParseDecimalText(text) == Some(LiteralValue(l))
  {
  }

  lemma WholeParses(negative: bool, whole: string)
    requires AllDigits(whole) && whole != ""
    ensures ParseDecimalText(SignText(negative) + whole) == Some(Rational(Sign(negative, ValueOf(whole)), 1))
  {
    ScanWhole(SignText(negative), whole);
    assert whole + "" == whole;
  }

  /** formatExactNumeric denotes coefficient * 10^exp, read back through the input grammar. */
  lemma FormatIsExact(n: Numeric)
    requires IsNumber(n)
    ensures FormatExactNumeric(n).Some?
    ensures var v := ParseDecimalText(FormatExactNumeric(n).value); v.Some? && v.value.den >= 1 && Denotes(n, v.value)
  {
    FormatBySign(n);
    var c := n.coefficient.value;
    var d := Digits(Abs(c));
    DigitsDenote(Abs(c));
    if n.exp >= 0 {
      TrailingZeros(d, n.exp);
      WholeParses(c < 0, d + Repeat('0', n.exp));
      SizeOfScaled(c, Pow10(n.exp));
    } else {
      LayoutParses(c < 0, d, -n.exp);
    }
  }

  lemma CanonicalParses(m: int, scale: nat)
    requires scale > 0
    ensures ParseDecimalText(Canonical(m, scale)) == Some(Rational(m, Pow10(scale)))
    ensures IndexOf(Canonical(m, scale), '.') == |Canonical(m, scale)| - scale - 1
  {
    DigitsDenote(Abs(m));
    LayoutParses(m < 0, Digits(Abs(m)), scale);
    LayoutDot(Digits(Abs(m)), scale);
    IndexAfterSign(m < 0, Layout(Digits(Abs(m)), scale));
  }

  /** Every scanned literal is a sign, digits and perhaps a dot with digits. */
  lemma LiteralShape(text: string) returns (sign: string)
    requires ScanLiteral(text).Some?
    ensures sign == "" || sign == "-" || sign == "+"
    ensures var l := ScanLiteral(text).value;
            && l.negative == (sign == "-")
            && text == sign + (if '.' in text then l.whole + "." + l.frac else l.whole)
            && ('.' !in text ==> l.frac == "")
  {
    LiteralAlphabet(text);
    var signed := text[0] == '-' || text[0] == '+';
    sign := if signed then text[..1] else "";
    var body := if signed then text[1..] else text;
    assert text == sign + body;
    CutParts(body, '.');
    DigitsHaveNoDot(ScanLiteral(text).value.whole);
    assert '.' in body ==> '.' in text;
  }

  /** Padding a trimmed literal changes its text and never its value. */
  lemma PaddingKeepsValue(text: string, scale: int)
    requires ScanLiteral(text).Some? && TrimSpace(text) == text
    ensures var padded := PadDecimalScale(Some(text), scale);
            padded.Some? && ParseDecimalText(padded.value).Some? &&
            SameValue(ParseDecimalText(padded.value).value, ParseDecimalText(text).value)
  {
    var l := ScanLiteral(text).value;
    var padded := PadDecimalScale(Some(text), scale).value;
    if padded != text {
      var sign := LiteralShape(text);
      var extra := PaddedShape(text, sign, l, scale);
      LongerFraction(sign, l, extra);
    }
  }

  lemma PaddedShape(text: string, sign: string, l: Literal, scale: int) returns (extra: nat)
    requires text == sign + (if '.' in text then l.whole + "." + l.frac else l.whole)
    requires '.' !in text ==> l.frac == ""
    requires PadDecimalScale(Some(text), scale).value != text
    ensures extra > 0
    ensures PadDecimalScale(Some(text), scale) == Some(sign + (l.whole + "." + (l.frac + Repeat('0', extra))))
  {
    var dot := IndexOf(text, '.');
    extra := if dot < 0 then scale else scale - (|text| - dot - 1);
    var padded := PadDecimalScale(Some(text), scale).value;
    assert padded == sign + (l.whole + "." + (l.frac + Repeat('0', extra)));
  }

  lemma LongerFraction(sign: string, l: Literal, extra: nat)
    requires sign == "" || sign == "-" || sign == "+"
    requires AllDigits(l.whole) && AllDigits(l.frac) && AllDigits(l.whole + l.frac)
    requires l.negative == (sign == "-") && extra > 0
    ensures var v := ParseDecimalText(sign + (l.whole + "." + (l.frac + Repeat('0', extra))));
            v.Some? && SameValue(v.value, LiteralValue(l))
  {
    var frac := l.frac + Repeat('0', extra);
    assert AllDigits(frac);
    ScanFraction(sign, l.whole, frac);
    LongerLiteral(l, extra);
  }

  lemma LongerLiteral(l: Literal, extra: nat)
    requires AllDigits(l.whole) && AllDigits(l.frac)
    ensures var longer := Literal(l.negative, l.whole, l.frac + Repeat('0', extra));
            && AllDigits(l.whole + l.frac) && AllDigits(longer.whole + longer.frac)
            && SameValue(LiteralValue(longer), LiteralValue(l))
  {
    FractionValue(l.whole, l.frac, extra);
    ScaledUp(l.negative, ValueOf(l.whole + l.frac), |l.frac|, extra);
  }

  lemma FractionValue(whole: string, frac: string, extra: nat)
    requires AllDigits(whole) && AllDigits(frac)
    ensures var longer := frac + Repeat('0', extra);
            && AllDigits(whole + frac) && AllDigits(whole + longer)
            && ValueOf(whole + longer) == ValueOf(whole + frac) * Pow10(extra)
  {
    TrailingZeros(whole + frac, extra);
    assert whole + (frac + Repeat('0', extra)) == (whole + frac) + Repeat('0', extra);
  }

  lemma ScaledUp(negative: bool, n: nat, k: nat, extra: nat)
    ensures SameValue(Rational(Sign(negative, n * Pow10(extra)), Pow10(k + extra)),
                      Rational(Sign(negative, n), Pow10(k)))
  {
    Pow10Add(k, extra);
    var p := Pow10(extra);
    assert Sign(negative, n * p) == Sign(negative, n) * p;
    FourFactors(Sign(negative, n), p, Pow10(k), 1);
    ThreeFactors(Sign(negative, n), Pow10(k), p);
  }

  /** Two driver forms render alike exactly when they carry the same value. */
  lemma SameRenderingIffSameValue(a: Numeric, b: Numeric, scale: nat)
    requires IsNumber(a) && IsNumber(b) && scale > 0
    requires -a.exp <= scale && -b.exp <= scale
    requires !(a.coefficient.value == 0 && a.exp > 0) && !(b.coefficient.value == 0 && b.exp > 0)
    ensures Render(a, scale) == Render(b, scale) <==> Scaled(a, scale) == Scaled(b, scale)
  {
    RendersCanonically(a, scale);
    RendersCanonically(b, scale);
    CanonicalParses(Scaled(a, scale), scale);
    CanonicalParses(Scaled(b, scale), scale);
  }

  lemma ScaledDenotes(n: Numeric, v: Rational, scale: nat)
    requires IsNumber(n) && -n.exp <= scale && v.den >= 1 && Denotes(n, v)
    ensures v.num * Pow10(scale) == Scaled(n, scale) * v.den
  {
    var c := n.coefficient.value;
    if n.exp >= 0 {
      Pow10Add(scale, n.exp);
      FourFactors(c, Pow10(n.exp), v.den, Pow10(scale));
      ThreeFactors(c * Pow10(n.exp), v.den, Pow10(scale));
    } else {
      var p, q := Pow10(-n.exp), Pow10(scale + n.exp);
      Pow10Add(-n.exp, scale + n.exp);
      ThreeFactors(v.num, p, q);
      ThreeFactors(c, v.den, q);
    }
  }

  /** Accept, store, render: the client reads back the number it sent, with exactly `scale` fraction digits. */
  lemma AcceptStoreRender(f: DecimalField, raw: string, stored: Numeric)
    requires ValidDecimalField(f) && f.scale > 0
    requires NormalizeDecimalInput(f, raw).Ok? && NormalizeDecimalInput(f, raw).value.Some?
    requires IsNumber(stored) && -stored.exp <= f.scale && !(stored.coefficient.value == 0 && stored.exp > 0)
    requires Denotes(stored, ParseDecimalText(NormalizeDecimalInput(f, raw).value.value).value)
    ensures ParseDecimalText(raw).Some?
    ensures var sent := ParseDecimalText(raw).value;
            var out := Render(stored, f.scale);
            && out.Some? && ParseDecimalText(out.value).Some?
            && SameValue(ParseDecimalText(out.value).value, sent)
            && IndexOf(out.value, '.') == |out.value| - f.scale - 1
  {
    AcceptsExactlyTheStorable(f, raw);
    TrimSpaceIdempotent(raw);
    var sent := ParseDecimalText(raw).value;
    RendersCanonically(stored, f.scale);
    var m := Scaled(stored, f.scale);
    CanonicalParses(m, f.scale);
    ScaledDenotes(stored, sent, f.scale);
  }
}
