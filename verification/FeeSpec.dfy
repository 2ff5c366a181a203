/**
 The maximum fee: the product of two number texts, written exactly in plain decimal notation.
 */
module FeeSpec {
  import opened Base
  import opened TransferSpec
  import opened Decimal

  /** Most significant digits read from one value. */
  const MAX_DIGITS := 300
  /** A written exponent lies between minus this and this. */
  const MAX_EXP := 400

  /** The numeral `digits`, with the point `scale` places from its end. */
  datatype Dec = Dec(digits: seq<nat>, scale: int)

  /** A number text within the caps. */
  function Parse(s: Bytes): (r: Option<Dec>)
    ensures r.Some? ==> 0 < |r.value.digits| <= MAX_DIGITS && AllDigits(r.value.digits)
  {
    match Read(s)
    case None => None
    case Some(n) =>
      if |n.digits| <= MAX_DIGITS && -MAX_EXP <= n.exponent <= MAX_EXP then Some(Dec(n.digits, n.fraction - n.exponent))
      else None
  }

  /** The digits of `n`, without leading zeros; none for 0. */
  function ToDigits(n: nat): (ds: seq<nat>)
    ensures AllDigits(ds) && (ds != [] ==> ds[0] > 0) && (ds == [] <==> n == 0)
  {
    if n == 0 then [] else ToDigits(n / 10) + [n % 10]
  }

  /** `ds` without its trailing zeros. */
  function Trim(ds: seq<nat>): (t: seq<nat>)
    ensures t <= ds && (t != [] ==> t[|t| - 1] != 0)
  {
    if ds == [] || ds[|ds| - 1] != 0 then ds else Trim(ds[..|ds| - 1])
  }

  /** The digits before the point of `p` × 10^(-scale). */
  function Whole(p: seq<nat>, scale: int): seq<nat> {
    if p == [] then [0]
    else if scale <= 0 then p + Zeros(-scale)
    else if |p| > scale then p[..|p| - scale]
    else [0]
  }

  /** The digits after the point. */
  function Part(p: seq<nat>, scale: int): seq<nat> {
    if p == [] || scale <= 0 then []
    else if |p| > scale then Trim(p[|p| - scale..])
    else Trim(Zeros(scale - |p|) + p)
  }

  function Plain(whole: seq<nat>, part: seq<nat>): Bytes
    requires AllDigits(whole) && AllDigits(part)
  {
    Text(whole) + (if part == [] then [] else "." + Text(part))
  }

  /** The plain text of `p` × 10^(-scale). */
  function Shown(p: seq<nat>, scale: int): Bytes
    requires AllDigits(p)
  {
    Plain(Whole(p, scale), Part(p, scale))
  }

  /** The text of the product of two parsed values. */
  function Product(a: Dec, b: Dec): Bytes { Shown(ToDigits(Num(a.digits) * Num(b.digits)), a.scale + b.scale) }

  /** `max_fee` into `room` bytes. */
  function MaxFee(limit: Bytes, price: Bytes, room: nat): Option<Bytes> {
    match (Parse(limit), Parse(price))
    case (Some(a), Some(b)) => if |Product(a, b)| <= room then Some(Product(a, b)) else None
    case _ => None
  }

  // ---- Canonical texts -------------------------------------------------------------------------

  /** No leading zero before another digit, no trailing zero after the point. */
  predicate CanonicalParts(whole: seq<nat>, part: seq<nat>) {
    && AllDigits(whole) && AllDigits(part) && whole != []
    && (whole == [0] || whole[0] != 0)
    && (part == [] || part[|part| - 1] != 0)
  }

  /** Plain notation: digits and, if need be, a fraction; no exponent, no zero that could be left out. */
  ghost predicate Canonical(t: Bytes) {
    exists whole, part :: CanonicalParts(whole, part) && t == Plain(whole, part)
  }

  // ---- A plain text read back ------------------------------------------------------------------

  lemma {:induction false} RunOf(s: Bytes, t: Bytes)
    requires Digits(s) && (t == [] || !IsDigit(t[0]))
    ensures DigitRun(s + t) == |s|
  {
    if s == [] {
      assert s + t == t;
    } else {
      assert (s + t)[1..] == s[1..] + t;
      RunOf(s[1..], t);
    }
  }

  lemma {:induction false} TextDigits(ds: seq<nat>)
    requires AllDigits(ds)
    ensures DigitsOf(Text(ds)) == ds
  {
  }

  lemma {:induction false} ReadPlain(whole: seq<nat>, part: seq<nat>)
    requires AllDigits(whole) && AllDigits(part) && whole != []
    ensures Read(Plain(whole, part)) == Some(Number(whole + part, |part|, 0))
  {
    hide Text, DigitsOf, DigitRun;
    var w, f := Text(whole), Text(part);
    var rest := if part == [] then [] else "." + f;
    RunOf(w, rest);
    assert (w + rest)[|w|..] == rest && (w + rest)[..|w|] == w;
    if part != [] {
      RunOf(f, []);
      assert f + [] == f && rest[1..] == f && f[|f|..] == [] && f[..|f|] == f;
    }
    assert Fraction(rest) == Some((f, []));
    DigitsAppend(w, f);
    TextDigits(whole);
    TextDigits(part);
  }

  lemma {:induction false} DigitsAppend(a: Bytes, b: Bytes)
    requires Digits(a) && Digits(b)
    ensures Digits(a + b) && DigitsOf(a + b) == DigitsOf(a) + DigitsOf(b)
  {
  }

  // ---- What is shown is the value --------------------------------------------------------------

  /** `ds` × 10^(-scale), as a real. */
  function Scaled(ds: seq<nat>, scale: int): real { Num(ds) as real * Ten(-scale) }

  lemma {:induction false} NumShift(ds: seq<nat>, k: nat)
    ensures Num(ds + Zeros(k)) == Num(ds) * Pow(k)
  {
    NumAppend(ds, Zeros(k));
    NumZeros(k);
  }

  lemma {:induction false} Shift(ds: seq<nat>, k: nat, scale: int)
    ensures Scaled(ds + Zeros(k), scale + k) == Scaled(ds, scale)
  {
    hide Ten, Num, Pow;
    NumShift(ds, k);
    TenAdd(-(scale + k), k);
    TenPow(k);
    ShiftReal(Num(ds), Pow(k), Num(ds + Zeros(k)), Ten(-(scale + k)), Ten(k), Ten(-scale));
  }

  lemma {:induction false} ShiftReal(n: nat, p: nat, m: nat, t: real, q: real, u: real)
    requires m == n * p && q == p as real && u == t * q
    ensures m as real * t == n as real * u
  {
    assert m as real == n as real * q;
  }

  /** At one scale, equal values have equal digits. */
  lemma {:induction false} ScaledInjective(a: seq<nat>, b: seq<nat>, scale: int)
    requires Scaled(a, scale) == Scaled(b, scale)
    ensures Num(a) == Num(b)
  {
    hide Ten, Num;
    TenPositive(-scale);
    SameNumber(Num(a), Num(b), Ten(-scale));
  }

  lemma {:induction false} TenPositive(k: int)
    ensures Ten(k) > 0.0
  {
  }

  lemma {:induction false} SameNumber(m: nat, n: nat, t: real)
    requires t > 0.0 && m as real * t == n as real * t
    ensures m == n
  {
  }

  lemma {:induction false} TrimZeros(ds: seq<nat>)
    ensures ds == Trim(ds) + Zeros(|ds| - |Trim(ds)|)
  {
    if ds != [] && ds[|ds| - 1] == 0 { TrimZeros(ds[..|ds| - 1]); }
  }

  lemma {:induction false} TrimDigits(ds: seq<nat>)
    requires AllDigits(ds)
    ensures AllDigits(Trim(ds))
  {
  }

  /** Trimming the fraction does not change the value. */
  lemma {:induction false} TrimmedValue(whole: seq<nat>, part: seq<nat>)
    ensures Scaled(whole + Trim(part), |Trim(part)|) == Scaled(whole + part, |part|)
  {
    hide Scaled, Trim;
    TrimZeros(part);
    var k := |part| - |Trim(part)|;
    Shift(whole + Trim(part), k, |Trim(part)|);
    assert whole + part == whole + Trim(part) + Zeros(k);
  }

  lemma {:induction false} LeadingZeros(n: nat, ds: seq<nat>)
    ensures Num([0] + (Zeros(n) + ds)) == Num(ds) && Num([0] + ds) == Num(ds)
  {
    NumAppend([0], Zeros(n) + ds);
    NumAppend(Zeros(n), ds);
    NumAppend([0], ds);
    NumOne(0);
    NumZeros(n);
  }

  /** The two parts are canonical, and together they are the value. */
  lemma {:induction false} ShownParts(p: seq<nat>, scale: int)
    requires AllDigits(p) && (p != [] ==> p[0] > 0)
    ensures CanonicalParts(Whole(p, scale), Part(p, scale))
    ensures Scaled(Whole(p, scale) + Part(p, scale), |Part(p, scale)|) == Scaled(p, scale)
  {
    hide Scaled, Trim;
    if p == [] {
      assert [0] + [] == [0];
      NothingScaled(scale);
    } else if scale <= 0 {
      assert p + Zeros(-scale) + [] == p + Zeros(-scale);
      Shift(p, -scale, scale);
    } else if |p| > scale {
      var part := p[|p| - scale..];
      TrimDigits(part);
      TrimmedValue(p[..|p| - scale], part);
      assert p[..|p| - scale] + part == p;
    } else {
      var part := Zeros(scale - |p|) + p;
      TrimDigits(part);
      TrimmedValue([0], part);
      SameNum([0] + part, p, scale) by { LeadingZeros(scale - |p|, p); }
    }
  }

  lemma {:induction false} NothingScaled(scale: int)
    ensures Scaled([0], 0) == Scaled([], scale)
  {
    NumOne(0);
  }

  lemma {:induction false} SameNum(a: seq<nat>, b: seq<nat>, scale: int)
    requires Num(a) == Num(b)
    ensures Scaled(a, scale) == Scaled(b, scale)
  {
  }

  lemma {:induction false} ToDigitsNum(n: nat)
    ensures Num(ToDigits(n)) == n
  {
    if n > 0 {
      ToDigitsNum(n / 10);
      NumPush(ToDigits(n / 10), n % 10);
    }
  }

  /** What is shown is canonical and denotes the digits it was made of. */
  lemma {:induction false} ShownDenotes(p: seq<nat>, scale: int)
    requires AllDigits(p) && (p != [] ==> p[0] > 0)
    ensures Canonical(Shown(p, scale)) && Denotes(Shown(p, scale), Scaled(p, scale))
  {
    hide Trim, Whole, Part, Plain, Read;
    ShownParts(p, scale);
    ReadPlain(Whole(p, scale), Part(p, scale));
  }

  lemma {:induction false} ProductValue(a: Dec, b: Dec)
    ensures Scaled(ToDigits(Num(a.digits) * Num(b.digits)), a.scale + b.scale) ==
            Scaled(a.digits, a.scale) * Scaled(b.digits, b.scale)
  {
    hide Ten, Num, ToDigits;
    var m, n := Num(a.digits), Num(b.digits);
    ToDigitsNum(m * n);
    TenAdd(-a.scale, -b.scale);
    ProductReal(m, n, m * n, Ten(-a.scale), Ten(-b.scale), Ten(-(a.scale + b.scale)));
  }

  lemma {:induction false} ProductReal(m: nat, n: nat, mn: nat, s: real, t: real, st: real)
    requires mn == m * n && st == s * t
    ensures mn as real * st == (m as real * s) * (n as real * t)
  {
    assert mn as real == m as real * n as real;
    Cross(m as real, n as real, s, t);
  }

  lemma {:induction false} Cross(x: real, y: real, s: real, t: real)
    ensures x * y * (s * t) == (x * s) * (y * t)
  {
  }

  lemma {:induction false} ParsedValue(s: Bytes)
    requires Parse(s).Some?
    ensures Read(s).Some? && Value(Read(s).value) == Scaled(Parse(s).value.digits, Parse(s).value.scale)
  {
    hide Read, Ten;
  }

  // ---- A value has one canonical text ----------------------------------------------------------

  /** Canonical fractions of different lengths are different values. */
  lemma {:induction false} SameLength(a: seq<nat>, m: nat, b: seq<nat>, n: nat)
    requires a != [] && b != [] && AllDigits(b)
    requires m < n && b[|b| - 1] != 0
    ensures Scaled(a, m) != Scaled(b, n)
  {
    hide Scaled, Num;
    if Scaled(a, m) == Scaled(b, n) {
      var k: nat := n - m;
      Shift(a, k, m);
      ScaledInjective(a + Zeros(k), b, n);
      NumShift(a, k);
      TenTimes(Num(a), k);
      LastDigit(b, Num(a) * Pow(k - 1));
    }
  }

  lemma {:induction false} TenTimes(x: nat, k: nat)
    requires k > 0
    ensures x * Pow(k) == 10 * (x * Pow(k - 1))
  {
  }

  lemma {:induction false} LastDigit(b: seq<nat>, x: nat)
    requires b != [] && b[|b| - 1] < 10 && b[|b| - 1] != 0
    ensures Num(b) != 10 * x
  {
  }

  lemma {:induction false} SameWhole(whole: seq<nat>, part: seq<nat>, whole2: seq<nat>, part2: seq<nat>)
    requires CanonicalParts(whole, part) && CanonicalParts(whole2, part2) && |part| == |part2|
    requires Num(whole + part) == Num(whole2 + part2)
    ensures |whole| <= |whole2|
  {
    if |whole| > |whole2| {
      NumLead(whole + part);
      NumBound(whole2 + part2);
      PowMonotone(|whole2| + |part2|, |whole| + |part| - 1);
    }
  }

  lemma {:induction false} OneText(whole: seq<nat>, part: seq<nat>, whole2: seq<nat>, part2: seq<nat>)
    requires CanonicalParts(whole, part) && CanonicalParts(whole2, part2)
    requires Scaled(whole + part, |part|) == Scaled(whole2 + part2, |part2|)
    ensures whole == whole2 && part == part2
  {
    hide Scaled, Num;
    if |part| < |part2| {
      SameLength(whole + part, |part|, whole2 + part2, |part2|);
    } else if |part2| < |part| {
      SameLength(whole2 + part2, |part2|, whole + part, |part|);
    } else {
      ScaledInjective(whole + part, whole2 + part2, |part|);
      SameWhole(whole, part, whole2, part2);
      SameWhole(whole2, part2, whole, part);
      NumInjective(whole + part, whole2 + part2);
      assert whole == (whole + part)[..|whole|] && part == (whole + part)[|whole|..];
      assert whole2 == (whole2 + part2)[..|whole|] && part2 == (whole2 + part2)[|whole|..];
    }
  }

  /** Canonical texts of the same value are the same text. */
  lemma {:induction false} CanonicalUnique(s: Bytes, t: Bytes, v: real)
    requires Canonical(s) && Canonical(t) && Denotes(s, v) && Denotes(t, v)
    ensures s == t
  {
    hide Read, Plain, Ten, Num;
    var whole, part :| CanonicalParts(whole, part) && s == Plain(whole, part);
    var whole2, part2 :| CanonicalParts(whole2, part2) && t == Plain(whole2, part2);
    ReadPlain(whole, part);
    ReadPlain(whole2, part2);
    OneText(whole, part, whole2, part2);
  }

  // ---- The fee ---------------------------------------------------------------------------------

  /** What the two texts multiply to. */
  function FeeValue(limit: Bytes, price: Bytes): real
    requires Read(limit).Some? && Read(price).Some?
  {
    Value(Read(limit).value) * Value(Read(price).value)
  }

  /** The product's text is canonical and denotes exactly the product. */
  lemma {:induction false} ProductText(limit: Bytes, price: Bytes)
    requires Parse(limit).Some? && Parse(price).Some?
    ensures Read(limit).Some? && Read(price).Some?
    ensures var t := Product(Parse(limit).value, Parse(price).value); Canonical(t) && Denotes(t, FeeValue(limit, price))
  {
    hide Read, Parse, Canonical, Shown, Scaled, Value, Denotes, Num, ToDigits;
    ParsedValue(limit);
    ParsedValue(price);
    var a, b := Parse(limit).value, Parse(price).value;
    ProductValue(a, b);
    ShownDenotes(ToDigits(Num(a.digits) * Num(b.digits)), a.scale + b.scale);
    assert Scaled(ToDigits(Num(a.digits) * Num(b.digits)), a.scale + b.scale) == FeeValue(limit, price);
  }

  /**
   A fee is shown exactly when both texts are numbers within the caps and the canonical text of their
   product fits; what is shown is that text.
   */
  lemma {:induction false} MaxFeeExact(limit: Bytes, price: Bytes, room: nat, t: Bytes)
    ensures MaxFee(limit, price, room) == Some(t) <==>
            && Parse(limit).Some? && Parse(price).Some? && |t| <= room
            && Canonical(t) && Denotes(t, FeeValue(limit, price))
  {
    hide Read, Canonical, Shown, Denotes, Product, FeeValue;
    if Parse(limit).Some? && Parse(price).Some? {
      ProductText(limit, price);
      if Canonical(t) && Denotes(t, FeeValue(limit, price)) {
        CanonicalUnique(t, Product(Parse(limit).value, Parse(price).value), FeeValue(limit, price));
      }
    }
  }

  /** Equal products are shown alike. */
  lemma {:induction false} EqualProducts(limit: Bytes, price: Bytes, limit2: Bytes, price2: Bytes, room: nat)
    requires Parse(limit).Some? && Parse(price).Some? && Parse(limit2).Some? && Parse(price2).Some?
    requires FeeValue(limit, price) == FeeValue(limit2, price2)
    ensures MaxFee(limit, price, room) == MaxFee(limit2, price2, room)
  {
    hide Read, Canonical, Denotes, Product, FeeValue;
    ProductText(limit, price);
    ProductText(limit2, price2);
    CanonicalUnique(Product(Parse(limit).value, Parse(price).value), Product(Parse(limit2).value, Parse(price2).value),
                    FeeValue(limit, price));
  }

  // ---- The grammar -----------------------------------------------------------------------------

  lemma {:induction false} RunPrefix(s: Bytes, e: nat)
    requires e <= |s|
    ensures DigitRun(s[..e]) == if DigitRun(s) <= e then DigitRun(s) else e
  {
    if e > 0 && IsDigit(s[0]) {
      assert s[..e][1..] == s[1..][..e - 1];
      RunPrefix(s[1..], e - 1);
    }
  }

  lemma {:induction false} AllRun(v: Bytes)
    ensures AfterDigits(v) == Some([]) <==> v != [] && Digits(v)
  {
    if v != [] && Digits(v) {
      assert v + [] == v;
      RunOf(v, []);
    }
  }

  /** After the mantissa: nothing, or a mark and a signed run of digits. */
  predicate IsExponent(s: Bytes, e: nat)
    requires e <= |s|
  {
    e == |s| ||
    var exp := s[e + 1..];
    AfterDigits(if exp != [] && (exp[0] == '+' || exp[0] == '-') then exp[1..] else exp) == Some([])
  }

  lemma {:induction false} ReadsExponent(s: Bytes, p: nat)
    requires p <= ExponentAt(s)
    ensures Exponent(s[p..]).Some? <==> p == ExponentAt(s) && IsExponent(s, p)
  {
    hide AfterDigits, DigitsOf, Num;
    var e := ExponentAt(s);
    FirstMark(s);
    if p < |s| {
      var signed := s[p..][1..];
      assert signed == s[p + 1..];
      AllRun(if signed != [] && (signed[0] == '+' || signed[0] == '-') then signed[1..] else signed);
      if e < |s| { MarkAt(s); }
    }
  }

  /** The texts read are exactly the numbers a structured transfer may use as a gas price. */
  lemma {:induction false} ReadsNumbers(s: Bytes)
    ensures Read(s).Some? <==> IsJsonNumber(s)
  {
    hide Exponent, DigitRun, ExponentAt, DigitsOf;
    var n, e := DigitRun(s), ExponentAt(s);
    RunBeforeMark(s);
    ReadsMantissa(s);
    NumberForm(s);
    var frac := Fraction(s[n..]);
    if n > 0 && frac.Some? {
      var p := |s| - |frac.value.1|;
      assert frac.value.1 == s[p..];
      if p <= e { ReadsExponent(s, p); }
    }
  }

  lemma {:induction false} NumberForm(s: Bytes)
    ensures IsJsonNumber(s) <==> IsDecimal(s[..ExponentAt(s)]) && IsExponent(s, ExponentAt(s))
  {
    assert s[..|s|] == s;
  }

  lemma {:induction false} RunBeforeMark(s: Bytes)
    ensures DigitRun(s) <= ExponentAt(s)
  {
    if ExponentAt(s) < |s| {
      MarkAt(s);
      assert DigitRun(s) > ExponentAt(s) ==> IsDigit(s[..DigitRun(s)][ExponentAt(s)]);
    }
  }

  /** The mantissa is a decimal exactly if the digits and the fraction end at the mark. */
  lemma {:induction false} ReadsMantissa(s: Bytes)
    ensures var n, e := DigitRun(s), ExponentAt(s);
            && (forall rest | n > 0 && Fraction(s[n..]).Some? && rest == Fraction(s[n..]).value.1 :: |s| - |rest| <= e)
            && (IsDecimal(s[..e]) <==> n > 0 && Fraction(s[n..]).Some? && |Fraction(s[n..]).value.1| == |s| - e)
  {
    hide ExponentAt, DigitRun;
    var n, e := DigitRun(s), ExponentAt(s);
    RunBeforeMark(s);
    RunPrefix(s, e);
    assert s[..e][n..] == s[n..e];
    if n < |s| && s[n] == '.' {
      FractionRun(s, n);
    }
  }

  lemma {:induction false} FractionRun(s: Bytes, n: nat)
    requires n < |s| && s[n] == '.' && n <= ExponentAt(s)
    requires forall i | 0 <= i < n :: IsDigit(s[i])
    ensures n < ExponentAt(s) && DigitRun(s[n..][1..]) <= ExponentAt(s) - n - 1
    ensures AfterDigits(s[n..ExponentAt(s)][1..]) == Some([]) <==> DigitRun(s[n..][1..]) == ExponentAt(s) - n - 1 > 0
  {
    hide ExponentAt, DigitRun;
    var e := ExponentAt(s);
    var tail := s[n + 1..];
    assert tail == s[n..][1..];
    if e < |s| { MarkAt(s); }
    MarkAfter(s, n + 1);
    RunBeforeMark(tail);
    var k: nat := e - n - 1;
    assert tail[..k] == s[n..e][1..];
    RunPrefix(tail, k);
    AllRun(tail[..k]);
  }

  lemma {:induction false} MarkAfter(s: Bytes, n: nat)
    requires 0 < n <= |s| && forall i | 0 <= i < n :: s[i] != 'e' && s[i] != 'E'
    ensures ExponentAt(s) == n + ExponentAt(s[n..])
    decreases n
  {
    if n > 1 {
      MarkAfter(s[1..], n - 1);
      assert s[1..][n - 1..] == s[n..];
    }
  }

  lemma {:induction false} FirstMark(s: Bytes)
    ensures forall i | 0 <= i < ExponentAt(s) :: s[i] != 'e' && s[i] != 'E'
  {
    if s != [] && s[0] != 'e' && s[0] != 'E' {
      FirstMark(s[1..]);
      forall i | 0 <= i < ExponentAt(s) ensures s[i] != 'e' && s[i] != 'E' {
        if i > 0 { assert s[i] == s[1..][i - 1]; }
      }
    }
  }

  lemma {:induction false} MarkAt(s: Bytes)
    requires ExponentAt(s) < |s|
    ensures s[ExponentAt(s)] == 'e' || s[ExponentAt(s)] == 'E'
  {
    if s[0] != 'e' && s[0] != 'E' { MarkAt(s[1..]); }
  }
}
