/** The maximum fee as the program computes it: digit arrays, carries and an output cursor. */
module Fee {
  import opened Base
  import opened TransferSpec
  import opened Decimal
  import opened FeeSpec

  // ---- Parsing ---------------------------------------------------------------------------------

  /** Pushes the digits `s` has from byte `i` on; where they end, unless there are too many. */
  method TakeDigits(s: Bytes, i: nat, digits: array<nat>, len: nat) returns (r: Option<nat>)
    requires i <= |s| && len <= digits.Length == MAX_DIGITS
    modifies digits
    ensures var n := DigitRun(s[i..]);
            if len + n <= MAX_DIGITS then
              && r == Some(i + n) && Digits(s[i..i + n])
              && digits[..len + n] == old(digits[..len]) + DigitsOf(s[i..i + n])
            else r == None
  {
    hide DigitRun, DigitsOf;
    var k := i;
    ghost var n := DigitRun(s[i..]);
    ghost var was := digits[..len];
    NoDigits();
    assert s[i..i] == [] && was + [] == was;
    while k < |s| && IsDigit(s[k])
      invariant i <= k <= |s| && len + (k - i) <= MAX_DIGITS
      invariant Digits(s[i..k]) && n == (k - i) + DigitRun(s[k..])
      invariant digits[..len + (k - i)] == was + DigitsOf(s[i..k])
    {
      RunStep(s, i, k);
      if len + (k - i) == MAX_DIGITS {
        return None;
      }
      digits[len + (k - i)] := DigitOf(s[k]);
      assert digits[..len + (k - i) + 1] == digits[..len + (k - i)] + [DigitOf(s[k])];
      k := k + 1;
    }
    RunStops(s, k);
    r := Some(k);
  }

  lemma {:induction false} RunStep(s: Bytes, i: nat, k: nat)
    requires i <= k < |s| && Digits(s[i..k]) && IsDigit(s[k])
    ensures Digits(s[i..k + 1]) && DigitsOf(s[i..k + 1]) == DigitsOf(s[i..k]) + [DigitOf(s[k])]
    ensures DigitRun(s[k..]) == 1 + DigitRun(s[k + 1..])
  {
    assert s[k..][1..] == s[k + 1..];
    assert s[i..k + 1] == s[i..k] + [s[k]];
    DigitsAppend(s[i..k], [s[k]]);
  }

  lemma {:induction false} RunStops(s: Bytes, k: nat)
    requires k <= |s| && (k < |s| ==> !IsDigit(s[k]))
    ensures DigitRun(s[k..]) == 0
  {
  }

  /** The value of a text that is digits, as long as it stays within the cap. */
  function Capped(digits: Bytes): Option<nat> {
    if digits != [] && Digits(digits) && Num(DigitsOf(digits)) <= MAX_EXP then Some(Num(DigitsOf(digits))) else None
  }

  method TakeNumber(digits: Bytes) returns (r: Option<nat>)
    ensures r == Capped(digits)
  {
    hide Num, DigitsOf;
    var k, e := 0, 0;
    NoDigits();
    assert digits[..0] == [];
    while k < |digits| && IsDigit(digits[k])
      invariant 0 <= k <= |digits| && Digits(digits[..k]) && e == Num(DigitsOf(digits[..k])) <= MAX_EXP
    {
      NextDigit(digits, k);
      e := e * 10 + DigitOf(digits[k]);
      k := k + 1;
      if e > MAX_EXP {
        LargeExponent(digits, k);
        return None;
      }
    }
    if k == 0 || k != |digits| {
      return None;
    }
    assert digits[..k] == digits;
    r := Some(e);
  }

  lemma {:induction false} NoDigits()
    ensures Num(DigitsOf([])) == 0 && DigitsOf([]) == []
  {
  }

  lemma {:induction false} NextDigit(s: Bytes, k: nat)
    requires k < |s| && Digits(s[..k]) && IsDigit(s[k])
    ensures Digits(s[..k + 1]) && Num(DigitsOf(s[..k + 1])) == 10 * Num(DigitsOf(s[..k])) + DigitOf(s[k])
  {
    assert s[..k + 1] == s[..k] + [s[k]];
    DigitsAppend(s[..k], [s[k]]);
    assert DigitsOf([s[k]]) == [DigitOf(s[k])];
    NumPush(DigitsOf(s[..k]), DigitOf(s[k]));
  }

  /** The exponent at the end of `s`, from byte `i` on. */
  method TakeExponent(s: Bytes, i: nat) returns (r: Option<int>)
    requires i <= |s|
    ensures r == match Exponent(s[i..]) case None => None
                 case Some(e) => if -MAX_EXP <= e <= MAX_EXP then Some(e) else None
  {
    hide Num, DigitsOf;
    if i == |s| {
      return Some(0);
    }
    if s[i] != 'e' && s[i] != 'E' {
      return None;
    }
    var k := i + 1;
    var neg := false;
    assert s[i..][1..] == s[k..];
    if k < |s| && (s[k] == '-' || s[k] == '+') {
      neg := s[k] == '-';
      k := k + 1;
      assert s[i..][1..][1..] == s[k..];
    }
    var e := TakeNumber(s[k..]);
    if e.None? {
      return None;
    }
    var n: int := e.value;
    r := Some(if neg then -n else n);
  }

  /** A run of digits is at least as large as its start. */
  lemma {:induction false} LargeExponent(digits: Bytes, n: nat)
    requires n <= |digits| && Digits(digits[..n])
    ensures Digits(digits) ==> Num(DigitsOf(digits)) >= Num(DigitsOf(digits[..n]))
  {
    if Digits(digits) {
      var a, b := digits[..n], digits[n..];
      assert digits == a + b;
      DigitsAppend(a, b);
      NumAppend(DigitsOf(a), DigitsOf(b));
      Grows(Num(DigitsOf(a)), Pow(|b|));
    }
  }

  lemma {:induction false} Grows(x: nat, p: nat)
    requires p >= 1
    ensures x * p >= x
  {
  }

  method ParseNumber(s: Bytes) returns (r: Option<Dec>)
    ensures r == Parse(s)
  {
    hide Exponent, DigitRun, DigitsOf, Parse, Fraction;
    var digits := new nat[MAX_DIGITS];
    assert s[0..] == s && digits[..0] == [];
    ghost var n := DigitRun(s);
    ParseInteger(s);
    var run := TakeDigits(s, 0, digits, 0);
    if run.None? {
      return None;
    }
    var i := run.value;
    if i == 0 {
      return None;
    }
    assert s[0..i] == s[..i];
    assert digits[..i] == DigitsOf(s[..n]);
    var len, fraction := i, 0;
    if i < |s| && s[i] == '.' {
      ParseFraction(s);
      var more := TakeDigits(s, i + 1, digits, len);
      if more.None? {
        return None;
      }
      if more.value == i + 1 {
        return None;
      }
      fraction := more.value - (i + 1);
      len, i := len + fraction, more.value;
    } else {
      ParseWhole(s);
      assert DigitsOf(s[..n]) + [] == DigitsOf(s[..n]);
    }
    var e := TakeExponent(s, i);
    if e.None? {
      return None;
    }
    r := Some(Dec(digits[..len], fraction - e.value));
  }

  /** The parse, from the digits `whole` and `frac` and the exponent text `rest` on. */
  ghost predicate ParsesAs(s: Bytes, whole: Bytes, frac: Bytes, rest: Bytes) {
    Digits(whole) && Digits(frac) &&
    Parse(s) == match Exponent(rest)
                case None => None
                case Some(e) =>
                  if |whole| + |frac| <= MAX_DIGITS && -MAX_EXP <= e <= MAX_EXP then
                    Some(Dec(DigitsOf(whole) + DigitsOf(frac), |frac| - e))
                  else None
  }

  lemma {:induction false} ParseInteger(s: Bytes)
    ensures DigitRun(s) == 0 || DigitRun(s) > MAX_DIGITS ==> Parse(s) == None
  {
  }

  lemma {:induction false} ParseParts(s: Bytes, frac: Bytes, rest: Bytes)
    requires DigitRun(s) > 0 && Fraction(s[DigitRun(s)..]) == Some((frac, rest))
    ensures ParsesAs(s, s[..DigitRun(s)], frac, rest)
  {
    hide Exponent, Fraction, DigitRun;
    DigitsAppend(s[..DigitRun(s)], frac);
  }

  lemma {:induction false} ParseWhole(s: Bytes)
    requires DigitRun(s) > 0 && (DigitRun(s) < |s| ==> s[DigitRun(s)] != '.')
    ensures ParsesAs(s, s[..DigitRun(s)], [], s[DigitRun(s)..]) && DigitsOf([]) == []
  {
    hide Exponent, DigitRun;
    ParseParts(s, [], s[DigitRun(s)..]);
  }

  lemma {:induction false} ParseFraction(s: Bytes)
    requires 0 < DigitRun(s) < |s| && s[DigitRun(s)] == '.'
    ensures var n := DigitRun(s);
            var m := DigitRun(s[n + 1..]);
            if m == 0 then Parse(s) == None else ParsesAs(s, s[..n], s[n + 1..n + 1 + m], s[n + 1 + m..])
  {
    hide Exponent, DigitRun;
    var n := DigitRun(s);
    var m := DigitRun(s[n + 1..]);
    assert s[n..][1..] == s[n + 1..];
    Slices(s, n + 1, m);
    if m > 0 { ParseParts(s, s[n + 1..n + 1 + m], s[n + 1 + m..]); }
  }

  lemma {:induction false} Slices(s: Bytes, i: nat, m: nat)
    requires i + m <= |s|
    ensures s[i..][..m] == s[i..i + m] && s[i..][m..] == s[i + m..]
  {
  }

  // ---- The product -----------------------------------------------------------------------------

  /** What the first `i` digits of `ds` contribute to its number. */
  function Head(ds: seq<nat>, i: nat): nat
    requires i <= |ds|
  {
    Num(ds[..i]) * Pow(|ds| - i)
  }

  lemma {:induction false} HeadStep(ds: seq<nat>, i: nat)
    requires i < |ds|
    ensures Head(ds, i + 1) == Head(ds, i) + ds[i] * Pow(|ds| - 1 - i)
  {
    assert ds[..i + 1] == ds[..i] + [ds[i]];
    NumPush(ds[..i], ds[i]);
    var p := Pow(|ds| - 1 - i);
    assert (10 * Num(ds[..i]) + ds[i]) * p == Num(ds[..i]) * (10 * p) + ds[i] * p;
  }

  lemma {:induction false} HeadEnds(ds: seq<nat>)
    ensures Head(ds, 0) == 0 && Head(ds, |ds|) == Num(ds)
  {
    assert ds[..0] == [] && ds[..|ds|] == ds;
  }

  /** One product of digits, in its place. */
  lemma {:induction false} RowStep(acc: seq<nat>, a: seq<nat>, b: seq<nat>, i: nat, j: nat, done: nat)
    requires i < |a| && j < |b| && |acc| == |a| + |b|
    requires Num(acc) == done + a[i] * Pow(|a| - 1 - i) * Head(b, j)
    ensures Num(acc[i + j + 1 := acc[i + j + 1] + a[i] * b[j]]) == done + a[i] * Pow(|a| - 1 - i) * Head(b, j + 1)
  {
    hide Num, Head;
    var p, q := Pow(|a| - 1 - i), Pow(|b| - 1 - j);
    NumAdd(acc, i + j + 1, a[i] * b[j]);
    PowAdd(|a| - 1 - i, |b| - 1 - j);
    assert |acc| - 1 - (i + j + 1) == (|a| - 1 - i) + (|b| - 1 - j);
    HeadStep(b, j);
    Spread(a[i], p, Head(b, j), b[j], q);
  }

  lemma {:induction false} Spread(x: nat, p: nat, h: nat, y: nat, q: nat)
    ensures x * p * (h + y * q) == x * p * h + x * y * (p * q)
  {
    calc {
      x * p * (h + y * q);
      x * p * h + x * p * (y * q);
      { assert x * p * (y * q) == x * y * (p * q); }
      x * p * h + x * y * (p * q);
    }
  }

  lemma {:induction false} RowEnds(a: seq<nat>, b: seq<nat>, i: nat)
    requires i < |a|
    ensures Head(a, i) * Num(b) + a[i] * Pow(|a| - 1 - i) * Head(b, |b|) == Head(a, i + 1) * Num(b)
    ensures a[i] * Pow(|a| - 1 - i) * Head(b, 0) == 0
  {
    hide Num, Head, Pow;
    HeadStep(a, i);
    HeadEnds(b);
    Factor(Head(a, i), a[i] * Pow(|a| - 1 - i), Num(b));
  }

  lemma {:induction false} Factor(x: nat, y: nat, z: nat)
    ensures x * z + y * z == (x + y) * z
  {
  }

  /** The places of a product before the carries, each at most `rows` products of two digits. */
  ghost predicate Small(acc: array<nat>, rows: nat)
    reads acc
  {
    forall k | 0 <= k < acc.Length :: acc[k] <= 81 * rows
  }

  lemma {:induction false} DigitProduct(x: nat, y: nat)
    requires x < 10 && y < 10
    ensures x * y <= 81
  {
  }

  /** Adds digit `i` of `a` times `b` into the places. */
  method AddRow(acc: array<nat>, a: seq<nat>, b: seq<nat>, i: nat, n: nat)
    requires AllDigits(a) && AllDigits(b) && i < |a| && |a| + |b| == n <= acc.Length
    requires Num(acc[..n]) == Head(a, i) * Num(b) && Small(acc, i)
    modifies acc
    ensures Num(acc[..n]) == Head(a, i + 1) * Num(b) && Small(acc, i + 1)
  {
    hide Num, Head;
    ghost var done := Head(a, i) * Num(b);
    RowEnds(a, b, i);
    for j := 0 to |b|
      invariant Num(acc[..n]) == done + a[i] * Pow(|a| - 1 - i) * Head(b, j)
      invariant forall k | 0 <= k < acc.Length :: acc[k] <= (if i < k <= i + j then 81 * (i + 1) else 81 * i)
    {
      ghost var was := acc[..n];
      RowStep(was, a, b, i, j, done);
      DigitProduct(a[i], b[j]);
      acc[i + j + 1] := acc[i + j + 1] + a[i] * b[j];
      assert acc[..n] == was[i + j + 1 := was[i + j + 1] + a[i] * b[j]];
    }
  }

  /** Schoolbook multiplication: the digits of the product, most significant first. */
  method Multiply(a: seq<nat>, b: seq<nat>) returns (acc: array<nat>)
    requires AllDigits(a) && AllDigits(b) && 0 < |a| <= MAX_DIGITS && 0 < |b| <= MAX_DIGITS
    ensures fresh(acc) && acc.Length == 2 * MAX_DIGITS
    ensures AllDigits(acc[..|a| + |b|]) && Num(acc[..|a| + |b|]) == Num(a) * Num(b)
  {
    hide Num, Head;
    acc := new nat[2 * MAX_DIGITS](_ => 0);
    var n := |a| + |b|;
    HeadEnds(a);
    NumZeros(n);
    assert acc[..n] == Zeros(n);
    for i := 0 to |a|
      invariant Num(acc[..n]) == Head(a, i) * Num(b) && Small(acc, i)
    {
      AddRow(acc, a, b, i, n);
    }
    // The accumulators are 32-bit: no place comes near their range.
    assert Small(acc, |a|);
    Carry(acc, n, Num(a) * Num(b));
    TopDigit(acc[..n], a, b);
  }

  /** Moves what each place has over 9 to the place before it. */
  method Carry(acc: array<nat>, n: nat, ghost value: nat)
    requires 2 <= n <= acc.Length && Num(acc[..n]) == value && Small(acc, MAX_DIGITS)
    modifies acc
    ensures Num(acc[..n]) == value && AllDigits(acc[1..n])
  {
    hide Num;
    for k := n downto 1
      invariant Num(acc[..n]) == value && 1 <= k
      invariant forall m | k <= m < n :: acc[m] < 10
      invariant forall m | 0 <= m < k :: acc[m] <= 81 * MAX_DIGITS + (if m + 1 == k then 2700 else 0)
    {
      ghost var was := acc[..n];
      var c := acc[k] / 10;
      CarryStep(was, k, c);
      assert c <= 2700;
      acc[k] := acc[k] % 10;
      acc[k - 1] := acc[k - 1] + c;
      assert acc[..n] == was[k := was[k] % 10][k - 1 := was[k - 1] + c];
    }
  }

  lemma {:induction false} CarryStep(ds: seq<nat>, k: nat, c: nat)
    requires 0 < k < |ds| && c == ds[k] / 10
    ensures Num(ds[k := ds[k] % 10][k - 1 := ds[k - 1] + c]) == Num(ds)
  {
    hide Num;
    var low := ds[k := ds[k] % 10];
    NumAdd(low, k, 10 * c);
    assert low[k := low[k] + 10 * c] == ds;
    NumAdd(low, k - 1, c);
    var p := Pow(|ds| - 1 - k);
    assert Pow(|ds| - k) == 10 * p;
    assert 10 * c * p == c * (10 * p);
  }

  /** The product of two numbers has no more digits than the two together. */
  lemma {:induction false} TopDigit(ds: seq<nat>, a: seq<nat>, b: seq<nat>)
    requires AllDigits(a) && AllDigits(b) && |ds| == |a| + |b| >= 1
    requires Num(ds) == Num(a) * Num(b) && AllDigits(ds[1..])
    ensures AllDigits(ds)
  {
    hide Num;
    NumBound(a);
    NumBound(b);
    PowAdd(|a|, |b|);
    Times(Num(a), Pow(|a|), Num(b), Pow(|b|));
    AtLeastTop(ds);
    if ds[0] >= 10 {
      Times(10, ds[0], Pow(|ds| - 1), Pow(|ds| - 1));
      assert false;
    }
    forall i | 0 <= i < |ds| ensures ds[i] < 10 { if i > 0 { assert ds[i] == ds[1..][i - 1]; } }
  }

  lemma {:induction false} Times(x: nat, p: nat, y: nat, q: nat)
    requires x <= p && y <= q
    ensures x * y <= p * q
    ensures x < p && y < q ==> x * y < p * q
  {
  }

  lemma {:induction false} AtLeastTop(ds: seq<nat>)
    requires ds != []
    ensures Num(ds) >= ds[0] * Pow(|ds| - 1)
  {
    assert ds == [ds[0]] + ds[1..];
    NumAppend([ds[0]], ds[1..]);
    NumOne(ds[0]);
  }

  // ---- Printing --------------------------------------------------------------------------------

  /** Digits without leading zeros are those of their number. */
  lemma {:induction false} OneNumeral(p: seq<nat>)
    requires AllDigits(p) && (p != [] ==> p[0] > 0)
    ensures p == ToDigits(Num(p))
    decreases |p|
  {
    if p != [] {
      var front := p[..|p| - 1];
      NumLead(p);
      OneNumeral(front);
      assert p == front + [p[|p| - 1]];
    }
  }

  lemma {:induction false} SkipZeros(ds: seq<nat>, lead: nat)
    requires lead <= |ds| && forall i | 0 <= i < lead :: ds[i] == 0
    ensures Num(ds[lead..]) == Num(ds)
  {
    assert ds == Zeros(lead) + ds[lead..];
    NumAppend(Zeros(lead), ds[lead..]);
    NumZeros(lead);
  }

  /** The number of zeros `ds` starts with. */
  method LeadingCount(ds: seq<nat>) returns (lead: nat)
    ensures lead <= |ds| && (forall i | 0 <= i < lead :: ds[i] == 0) && (lead < |ds| ==> ds[lead] != 0)
  {
    lead := 0;
    while lead < |ds| && ds[lead] == 0
      invariant 0 <= lead <= |ds| && forall i | 0 <= i < lead :: ds[i] == 0
    {
      lead := lead + 1;
    }
  }

  /** Where the zeros at the end of `ds` start. */
  method FractionEnd(ds: seq<nat>) returns (end: nat)
    ensures end <= |ds| && ds[..end] == Trim(ds)
  {
    end := |ds|;
    assert ds[..end] == ds;
    while end > 0 && ds[end - 1] == 0
      invariant end <= |ds| && Trim(ds[..end]) == Trim(ds)
    {
      assert ds[..end][..end - 1] == ds[..end - 1];
      end := end - 1;
    }
  }

  /** Writes one byte at the cursor, if there is room. */
  method Put(out: array<char>, w: nat, b: char) returns (r: Option<nat>)
    requires w <= out.Length
    modifies out
    ensures if w < out.Length then r == Some(w + 1) && out[..w + 1] == old(out[..w]) + [b] else r == None
  {
    if w >= out.Length {
      return None;
    }
    out[w] := b;
    assert out[..w + 1] == out[..w] + [b] && out[..w] == old(out[..w]);
    r := Some(w + 1);
  }

  method PutDigits(out: array<char>, w: nat, ds: seq<nat>) returns (r: Option<nat>)
    requires w <= out.Length && AllDigits(ds)
    modifies out
    ensures if w + |ds| <= out.Length then r == Some(w + |ds|) &&
            out[..w + |ds|] == old(out[..w]) + Text(ds) else r == None
  {
    hide Text;
    ghost var was := out[..w];
    assert ds[..0] == [] && was + Text([]) == was;
    for i := 0 to |ds|
      invariant w + i <= out.Length && out[..w + i] == was + Text(ds[..i])
    {
      NextChar(ds, i);
      var at := Put(out, w + i, DigitChar(ds[i]));
      if at.None? {
        return None;
      }
      assert was + Text(ds[..i]) + [DigitChar(ds[i])] == was + Text(ds[..i + 1]);
    }
    assert ds[..|ds|] == ds;
    r := Some(w + |ds|);
  }

  lemma {:induction false} NextChar(ds: seq<nat>, i: nat)
    requires i < |ds| && AllDigits(ds)
    ensures Text(ds[..i + 1]) == Text(ds[..i]) + [DigitChar(ds[i])]
  {
  }

  method PutZeros(out: array<char>, w: nat, n: nat) returns (r: Option<nat>)
    requires w <= out.Length
    modifies out
    ensures if w + n <= out.Length then r == Some(w + n) &&
            out[..w + n] == old(out[..w]) + Text(Zeros(n)) else r == None
  {
    hide Text;
    ghost var was := out[..w];
    assert Zeros(0) == [] && was + Text([]) == was;
    for i := 0 to n
      invariant w + i <= out.Length && out[..w + i] == was + Text(Zeros(i))
    {
      assert Zeros(i + 1)[..i] == Zeros(i) && Zeros(i + 1)[..i + 1] == Zeros(i + 1);
      NextChar(Zeros(i + 1), i);
      var at := Put(out, w + i, '0');
      if at.None? {
        return None;
      }
      assert was + Text(Zeros(i)) + ['0'] == was + Text(Zeros(i + 1));
    }
    r := Some(w + n);
  }

  // ---- The text as the cursor writes it --------------------------------------------------------

  lemma {:induction false} TextAppend(a: seq<nat>, b: seq<nat>)
    requires AllDigits(a) && AllDigits(b)
    ensures Text(a + b) == Text(a) + Text(b)
  {
  }

  lemma {:induction false} TrimStep(ds: seq<nat>)
    ensures Trim(ds) == if ds == [] || ds[|ds| - 1] != 0 then ds else Trim(ds[..|ds| - 1])
  {
  }

  lemma {:induction false} TrimDrop(ds: seq<nat>, i: nat)
    requires i <= |ds|
    ensures Trim(ds[i..]) == if |Trim(ds)| > i then Trim(ds)[i..] else []
    decreases |ds|
  {
    hide Trim;
    var tail := ds[i..];
    TrimStep(ds);
    TrimStep(tail);
    if i < |ds| {
      assert tail[|tail| - 1] == ds[|ds| - 1];
      if ds[|ds| - 1] == 0 {
        assert tail[..|tail| - 1] == ds[..|ds| - 1][i..];
        TrimDrop(ds[..|ds| - 1], i);
      }
    }
  }

  lemma {:induction false} TrimAfterZeros(n: nat, p: seq<nat>)
    requires p != [] && p[0] > 0
    ensures Trim(Zeros(n) + p) == Zeros(n) + Trim(p) && Trim(p) != []
    decreases |p|
  {
    if p[|p| - 1] == 0 {
      assert (Zeros(n) + p)[..n + |p| - 1] == Zeros(n) + p[..|p| - 1];
      TrimAfterZeros(n, p[..|p| - 1]);
    }
  }

  /** The text as whole part, point and digits. */
  lemma {:induction false} ShownAbove(p: seq<nat>, scale: int, end: nat)
    requires AllDigits(p) && 0 < scale < |p| && end <= |p| && p[..end] == Trim(p)
    ensures end > |p| - scale ==>
              Shown(p, scale) == Text(p[..|p| - scale]) + ("." + (Text(Zeros(0)) + Text(p[|p| - scale..end])))
    ensures end <= |p| - scale ==> Shown(p, scale) == Text(p[..|p| - scale]) + []
  {
    hide Trim, Text;
    TrimDrop(p, |p| - scale);
    if end > |p| - scale {
      assert p[..end][|p| - scale..] == p[|p| - scale..end];
      assert Zeros(0) + p[|p| - scale..end] == p[|p| - scale..end];
      TextAppend(Zeros(0), p[|p| - scale..end]);
    } else {
      assert Text(p[..|p| - scale]) + [] == Text(p[..|p| - scale]);
    }
  }

  /** The text as zero, point, zeros and digits. */
  lemma {:induction false} ShownBelow(p: seq<nat>, scale: int, end: nat)
    requires AllDigits(p) && p != [] && p[0] > 0 && scale >= |p| && end <= |p| && p[..end] == Trim(p)
    ensures Shown(p, scale) == Text([0]) + ("." + (Text(Zeros(scale - |p|)) + Text(p[..end]))) && end > 0
  {
    hide Trim;
    TrimAfterZeros(scale - |p|, p);
    TextAppend(Zeros(scale - |p|), p[..end]);
  }

  /** The outcome of writing text `t` at the start of `out`. */
  ghost predicate Wrote(r: Option<nat>, out: Bytes, t: Bytes) {
    if |t| <= |out| then r == Some(|t|) && out[..|t|] == t else r == None
  }

  /** The text of `p` × 10^(-scale): `whole`, then, when `dotted`, a point, `zeros` zeros and `ds`. */
  ghost predicate ShownAs(p: seq<nat>, scale: int, whole: seq<nat>, dotted: bool, zeros: nat, ds: seq<nat>) {
    AllDigits(p) && AllDigits(whole) && AllDigits(ds) &&
    Shown(p, scale) == Text(whole) + (if dotted then "." + (Text(Zeros(zeros)) + Text(ds)) else [])
  }

  lemma {:induction false} ShownParts(p: seq<nat>, scale: int, end: nat)
    requires AllDigits(p) && p != [] && p[0] > 0 && scale > 0 && end <= |p| && p[..end] == Trim(p)
    ensures |p| > scale ==>
              var part := if end > |p| - scale then p[|p| - scale..end] else [];
              ShownAs(p, scale, p[..|p| - scale], end > |p| - scale, 0, part)
    ensures |p| <= scale ==> ShownAs(p, scale, [0], true, scale - |p|, p[0..end]) && end > 0
  {
    hide Trim, Text, Shown;
    if |p| > scale {
      ShownAbove(p, scale, end);
    } else {
      ShownBelow(p, scale, end);
      assert p[0..end] == p[..end];
    }
  }

  method ShowFraction(p: seq<nat>, scale: int, out: array<char>) returns (r: Option<nat>)
    requires AllDigits(p) && p != [] && p[0] > 0 && scale > 0
    modifies out
    ensures Wrote(r, out[..], Shown(p, scale))
  {
    hide Text, Trim, Shown;
    var intLen := |p| - scale;
    var end := FractionEnd(p);
    ShownParts(p, scale, end);
    if intLen > 0 {
      r := WriteParts(out, p[..intLen], end > intLen, 0, if end > intLen then p[intLen..end] else [], p, scale);
    } else {
      r := WriteParts(out, [0], end > 0, -intLen, p[0..end], p, scale);
    }
  }

  /** The whole part, then the fraction if there is one. */
  method WriteParts(out: array<char>, whole: seq<nat>, dotted: bool, zeros: nat, ds: seq<nat>, ghost p: seq<nat>,
      ghost scale: int)
    returns (r: Option<nat>)
    requires ShownAs(p, scale, whole, dotted, zeros, ds)
    modifies out
    ensures Wrote(r, out[..], Shown(p, scale))
  {
    hide Text, Trim, Shown;
    r := PutDigits(out, 0, whole);
    if r.None? {
      return;
    }
    assert out[..|whole|] == Text(whole);
    if dotted {
      r := PutFraction(out, r.value, zeros, ds);
    }
  }

  /** The point, `zeros` zeros and the digits `ds`. */
  method PutFraction(out: array<char>, w: nat, zeros: nat, ds: seq<nat>) returns (r: Option<nat>)
    requires w <= out.Length && AllDigits(ds)
    modifies out
    ensures var t := "." + (Text(Zeros(zeros)) + Text(ds));
            if w + |t| <= out.Length then r == Some(w + |t|) && out[..w + |t|] == old(out[..w]) + t else r == None
  {
    hide Text;
    r := Put(out, w, '.');
    if r.None? {
      return;
    }
    r := PutZeros(out, r.value, zeros);
    if r.None? {
      return;
    }
    r := PutDigits(out, r.value, ds);
  }

  /** Writes the fee into `out`; its length, or None if a value is refused or the fee does not fit. */
  method MaxFeeInto(limit: Bytes, price: Bytes, out: array<char>) returns (r: Option<nat>)
    modifies out
    ensures match MaxFee(limit, price, out.Length)
            case Some(t) => r == Some(|t|) && |t| <= out.Length && out[..|t|] == t
            case None => r == None
  {
    hide Text, Trim, Num, FeeSpec.Parse, Shown, ToDigits;
    var a := ParseNumber(limit);
    if a.None? {
      return None;
    }
    var b := ParseNumber(price);
    if b.None? {
      return None;
    }
    var acc := Multiply(a.value.digits, b.value.digits);
    var n := |a.value.digits| + |b.value.digits|;
    var scale := a.value.scale + b.value.scale;
    var lead := LeadingCount(acc[..n]);
    var p := acc[lead..n];
    assert p == acc[..n][lead..];
    SkipZeros(acc[..n], lead);
    OneNumeral(p);
    r := ShowInto(p, scale, out);
  }

  method ShowInto(p: seq<nat>, scale: int, out: array<char>) returns (r: Option<nat>)
    requires AllDigits(p) && (p != [] ==> p[0] > 0)
    modifies out
    ensures Wrote(r, out[..], Shown(p, scale))
  {
    hide Text, Trim, Shown;
    if p == [] {
      ZeroText(scale);
      r := Put(out, 0, '0');
      return;
    }
    if scale <= 0 {
      WholeText(p, scale);
      var w := PutDigits(out, 0, p);
      if w.None? {
        return None;
      }
      r := PutZeros(out, w.value, -scale);
      return;
    }
    r := ShowFraction(p, scale, out);
  }

  lemma {:induction false} WholeText(p: seq<nat>, scale: int)
    requires AllDigits(p) && p != [] && scale <= 0
    ensures Shown(p, scale) == Text(p) + Text(Zeros(-scale))
  {
    TextAppend(p, Zeros(-scale));
    assert Text(p + Zeros(-scale)) + [] == Text(p + Zeros(-scale));
  }

  lemma {:induction false} ZeroText(scale: int)
    ensures Shown([], scale) == "0"
  {
  }
}
