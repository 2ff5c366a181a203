/**
 Decimal numerals and what they denote: strings of digits as naturals, texts with a fraction and an
 exponent as reals.
 */
module Decimal {
  import opened Base
  import opened TransferSpec

  // ---- Digit strings ---------------------------------------------------------------------------

  function Pow(n: nat): (p: nat)
    ensures p >= 1
  {
    if n == 0 then 1 else 10 * Pow(n - 1)
  }

  /** The number written by the digits, most significant first; a place may hold more than 9. */
  function Num(ds: seq<nat>): nat {
    if ds == [] then 0 else 10 * Num(ds[..|ds| - 1]) + ds[|ds| - 1]
  }

  predicate AllDigits(ds: seq<nat>) { forall i | 0 <= i < |ds| :: ds[i] < 10 }

  function Zeros(n: nat): (ds: seq<nat>)
    ensures |ds| == n && AllDigits(ds) && forall i | 0 <= i < n :: ds[i] == 0
  {
    seq(n, i => 0)
  }

  lemma {:induction false} PowAdd(a: nat, b: nat)
    ensures Pow(a + b) == Pow(a) * Pow(b)
  {
    if b > 0 {
      PowAdd(a, b - 1);
      assert Pow(a + b) == 10 * (Pow(a) * Pow(b - 1));
    }
  }

  lemma {:induction false} NumOne(d: nat)
    ensures Num([d]) == d
  {
    assert [d][..0] == [];
  }

  lemma {:induction false} NumPush(ds: seq<nat>, d: nat)
    ensures Num(ds + [d]) == 10 * Num(ds) + d
  {
    assert (ds + [d])[..|ds|] == ds;
  }

  lemma {:induction false} NumAppend(a: seq<nat>, b: seq<nat>)
    ensures Num(a + b) == Num(a) * Pow(|b|) + Num(b)
    decreases |b|
  {
    if b == [] {
      assert a + b == a;
    } else {
      var c, d := b[..|b| - 1], b[|b| - 1];
      assert b == c + [d] && a + b == (a + c) + [d];
      NumAppend(a, c);
      NumPush(a + c, d);
      NumPush(c, d);
      Scale10(Num(a), Pow(|c|), Num(c), d);
    }
  }

  lemma {:induction false} Scale10(x: nat, p: nat, y: nat, d: nat)
    ensures 10 * (x * p + y) + d == x * (10 * p) + (10 * y + d)
  {
  }

  /** Adding `v` in place `k`. */
  lemma {:induction false} NumAdd(ds: seq<nat>, k: nat, v: nat)
    requires k < |ds|
    ensures Num(ds[k := ds[k] + v]) == Num(ds) + v * Pow(|ds| - 1 - k)
  {
    var a, b := ds[..k], ds[k + 1..];
    assert ds == a + [ds[k]] + b && ds[k := ds[k] + v] == a + [ds[k] + v] + b;
    NumAppend(a + [ds[k]], b);
    NumAppend(a + [ds[k] + v], b);
    NumPush(a, ds[k]);
    NumPush(a, ds[k] + v);
    assert (10 * Num(a) + ds[k] + v) * Pow(|b|) == (10 * Num(a) + ds[k]) * Pow(|b|) + v * Pow(|b|);
  }

  lemma {:induction false} NumBound(ds: seq<nat>)
    requires AllDigits(ds)
    ensures Num(ds) < Pow(|ds|)
    decreases |ds|
  {
    if ds != [] { NumBound(ds[..|ds| - 1]); }
  }

  lemma {:induction false} NumZeros(n: nat)
    ensures Num(Zeros(n)) == 0
  {
    if n > 0 {
      assert Zeros(n)[..n - 1] == Zeros(n - 1);
      NumZeros(n - 1);
    }
  }

  /** Digits with a leading one that is not zero. */
  lemma {:induction false} NumLead(ds: seq<nat>)
    requires ds != [] && ds[0] > 0
    ensures Num(ds) >= Pow(|ds| - 1)
    decreases |ds|
  {
    if |ds| == 1 { assert ds == [ds[0]]; NumOne(ds[0]); } else { NumLead(ds[..|ds| - 1]); }
  }

  lemma {:induction false} NumInjective(a: seq<nat>, b: seq<nat>)
    requires AllDigits(a) && AllDigits(b) && |a| == |b| && Num(a) == Num(b)
    ensures a == b
    decreases |a|
  {
    if a != [] {
      NumInjective(a[..|a| - 1], b[..|b| - 1]);
      assert a == a[..|a| - 1] + [a[|a| - 1]] && b == b[..|b| - 1] + [b[|b| - 1]];
    }
  }

  lemma {:induction false} PowMonotone(a: nat, b: nat)
    requires a <= b
    ensures Pow(a) <= Pow(b)
    decreases b - a
  {
    if a < b { PowMonotone(a, b - 1); }
  }

  // ---- Powers of ten, both ways ----------------------------------------------------------------

  function Ten(k: int): (r: real)
    ensures r > 0.0
    decreases if k >= 0 then k else -k
  {
    if k == 0 then 1.0 else if k > 0 then 10.0 * Ten(k - 1) else Ten(k + 1) / 10.0
  }

  lemma {:induction false} TenStep(k: int)
    ensures Ten(k + 1) == 10.0 * Ten(k)
  {
  }

  lemma {:induction false} TenAdd(a: int, b: int)
    ensures Ten(a + b) == Ten(a) * Ten(b)
    decreases if b >= 0 then b else -b
  {
    TenZero();
    hide Ten;
    if b > 0 {
      TenAdd(a, b - 1);
      TenStep(a + b - 1);
      TenStep(b - 1);
      Assoc(Ten(a), Ten(b - 1));
    } else if b < 0 {
      TenAdd(a, b + 1);
      TenStep(a + b);
      TenStep(b);
      Assoc(Ten(a), Ten(b));
    }
  }

  lemma {:induction false} TenZero()
    ensures Ten(0) == 1.0
  {
  }

  lemma {:induction false} Assoc(x: real, y: real)
    ensures 10.0 * (x * y) == x * (10.0 * y)
  {
  }

  lemma {:induction false} TenPow(n: nat)
    ensures Ten(n) == Pow(n) as real
  {
    if n > 0 { TenPow(n - 1); }
  }

  // ---- Number texts ----------------------------------------------------------------------------

  function DigitOf(c: char): nat
    requires IsDigit(c)
  {
    c as int - '0' as int
  }

  function DigitsOf(s: Bytes): (ds: seq<nat>)
    requires Digits(s)
    ensures |ds| == |s| && AllDigits(ds) && forall i | 0 <= i < |s| :: ds[i] == DigitOf(s[i])
  {
    seq(|s|, i requires 0 <= i < |s| => DigitOf(s[i]))
  }

  function DigitChar(d: nat): char
    requires d < 10
  {
    ('0' as int + d) as char
  }

  function Text(ds: seq<nat>): (s: Bytes)
    requires AllDigits(ds)
    ensures |s| == |ds| && Digits(s) && forall i | 0 <= i < |s| :: s[i] == DigitChar(ds[i])
  {
    seq(|ds|, i requires 0 <= i < |ds| => DigitChar(ds[i]))
  }

  /** A number text: its digits, how many of them are in the fraction, and its exponent. */
  datatype Number = Number(digits: seq<nat>, fraction: nat, exponent: int)

  /** The digits after a `.` that starts `rest`, and what follows them. */
  function Fraction(rest: Bytes): (r: Option<(Bytes, Bytes)>)
    ensures r.Some? ==> Digits(r.value.0)
  {
    if rest == [] || rest[0] != '.' then Some(([], rest))
    else
      var n := DigitRun(rest[1..]);
      if n == 0 then None else Some((rest[1..][..n], rest[1..][n..]))
  }

  function Exponent(rest: Bytes): Option<int> {
    if rest == [] then Some(0)
    else if rest[0] != 'e' && rest[0] != 'E' then None
    else
      var signed := rest[1..];
      var digits := if signed != [] && (signed[0] == '+' || signed[0] == '-') then signed[1..] else signed;
      if digits == [] || !Digits(digits) then None
      else
        var e: int := Num(DigitsOf(digits));
        Some(if signed[0] == '-' then -e else e)
  }

  /** `digits ('.' digits)? ([eE] [+-]? digits)?` */
  function Read(s: Bytes): (r: Option<Number>)
    ensures r.Some? ==> r.value.digits != [] && AllDigits(r.value.digits) && r.value.fraction < |r.value.digits|
  {
    var n := DigitRun(s);
    if n == 0 then None
    else
      match Fraction(s[n..])
      case None => None
      case Some((frac, rest)) =>
        match Exponent(rest)
        case None => None
        case Some(e) => Some(Number(DigitsOf(s[..n] + frac), |frac|, e))
  }

  /** What a number stands for. */
  function Value(n: Number): real { Num(n.digits) as real * Ten(n.exponent - n.fraction) }

  /** `s` is a number text for `v`. */
  predicate Denotes(s: Bytes, v: real) { Read(s).Some? && Value(Read(s).value) == v }
}
