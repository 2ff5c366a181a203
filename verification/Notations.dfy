/** Notations of the standards, apart from the code that reads or writes them: decimal numbers, hexadecimal, base64. */
module Notations {
  import opened Base
  import opened TransferSpec
  import opened ItemSpec
  import opened ParserSpec

  // ---- Decimal numbers -------------------------------------------------------------------------

  /** One digit or more. */
  predicate Numeral(s: Bytes) { s != [] && Digits(s) }

  /** Digits, a point and digits. */
  predicate WithFraction(v: Bytes, whole: Bytes, frac: Bytes) {
    Numeral(whole) && Numeral(frac) && v == whole + ("." + frac)
  }

  /** No zero before another digit. */
  predicate NoLeadingZero(whole: Bytes) { whole == "0" || (whole != [] && whole[0] != '0') }

  lemma {:induction false} PointAt(whole: Bytes, frac: Bytes)
    requires Digits(whole)
    ensures var v := whole + ("." + frac);
            IndexOf(v, '.') == |whole| && v[..|whole|] == whole && v[|whole| + 1..] == frac
  {
    var v := whole + ("." + frac);
    assert v[|whole|] == '.' && forall k | 0 <= k < |whole| :: v[k] == whole[k];
  }

  lemma {:induction false} NoPoint(v: Bytes)
    requires Digits(v)
    ensures IndexOf(v, '.') == |v| && v[..|v|] == v
  {
  }

  /**
   An amount is a number without leading zeros and, behind a point, one to twelve decimals; it has no sign and no
   exponent.
   */
  lemma {:induction false} AmountGrammar(v: Bytes)
    ensures IsAmount(v) <==>
              || (Numeral(v) && NoLeadingZero(v))
              || exists whole, frac :: WithFraction(v, whole, frac) && NoLeadingZero(whole) && |frac| <= 12
  {
    hide IndexOf;
    if IsAmount(v) {
      var dot := IndexOf(v, '.');
      assert v == v[..dot] + v[dot..];
      if dot < |v| { assert v == v[..dot] + ("." + v[dot + 1..]) && WithFraction(v, v[..dot], v[dot + 1..]); }
    }
    if Numeral(v) { NoPoint(v); }
    if whole, frac :| WithFraction(v, whole, frac) && NoLeadingZero(whole) && |frac| <= 12 { PointAt(whole, frac); }
  }

  lemma {:induction false} RunBefore(whole: Bytes, rest: Bytes)
    requires Digits(whole) && (rest == [] || !IsDigit(rest[0]))
    ensures DigitRun(whole + rest) == |whole|
  {
    if whole == [] {
      assert whole + rest == rest;
    } else {
      assert (whole + rest)[1..] == whole[1..] + rest;
      RunBefore(whole[1..], rest);
    }
  }

  lemma {:induction false} AllDigitsRun(v: Bytes)
    ensures AfterDigits(v) == Some([]) <==> Numeral(v)
  {
    if Numeral(v) {
      RunBefore(v, []);
      assert v + [] == v;
    }
    assert v[..|v|] == v;
  }

  /** Digits and, if need be, a point and digits. */
  ghost predicate PlainNumber(v: Bytes) { Numeral(v) || exists whole, frac :: WithFraction(v, whole, frac) }

  /** The plain numbers are those that the allowlist calls decimal. */
  lemma {:induction false} DecimalGrammar(v: Bytes)
    ensures IsDecimal(v) <==> PlainNumber(v)
  {
    hide DigitRun;
    var n := DigitRun(v);
    AllDigitsRun(v);
    if IsDecimal(v) && v[n..] != [] {
      AllDigitsRun(v[n..][1..]);
      assert v == v[..n] + ("." + v[n..][1..]) && WithFraction(v, v[..n], v[n..][1..]);
    }
    if whole, frac :| WithFraction(v, whole, frac) {
      RunBefore(whole, "." + frac);
      AllDigitsRun(frac);
      assert v[|whole|..] == "." + frac && ("." + frac)[1..] == frac;
    }
  }

  const MARKS: set<Bytes> := {"e", "E", "e+", "E+", "e-", "E-"}

  /** A plain number, a mark with an optional sign, and digits. */
  ghost predicate WithExponent(v: Bytes, m: Bytes, mark: Bytes, e: Bytes) {
    PlainNumber(m) && mark in MARKS && Numeral(e) && v == m + (mark + e)
  }

  lemma {:induction false} NoMark(m: Bytes)
    requires PlainNumber(m)
    ensures 'e' !in m && 'E' !in m
  {
    if whole, frac :| WithFraction(m, whole, frac) {
      forall c | c in m ensures c != 'e' && c != 'E' {
        var i :| 0 <= i < |m| && m[i] == c;
        assert c == if i < |whole| then whole[i] else ("." + frac)[i - |whole|];
      }
    }
  }

  lemma {:induction false} MarkAfter(m: Bytes, rest: Bytes)
    requires 'e' !in m && 'E' !in m && (rest == [] || rest[0] == 'e' || rest[0] == 'E')
    ensures ExponentAt(m + rest) == |m|
  {
    if m == [] {
      assert m + rest == rest;
    } else {
      assert (m + rest)[1..] == m[1..] + rest;
      MarkAfter(m[1..], rest);
    }
  }

  lemma {:induction false} MarkAt(v: Bytes)
    ensures ExponentAt(v) < |v| ==> v[ExponentAt(v)] == 'e' || v[ExponentAt(v)] == 'E'
  {
    if v != [] && v[0] != 'e' && v[0] != 'E' { MarkAt(v[1..]); }
  }

  /** What follows the mark, without its sign. */
  function Unsigned(exp: Bytes): Bytes { if exp != [] && (exp[0] == '+' || exp[0] == '-') then exp[1..] else exp }

  lemma {:induction false} MarkedForm(v: Bytes)
    requires ExponentAt(v) < |v|
    ensures var e := ExponentAt(v);
            IsJsonNumber(v) <==> PlainNumber(v[..e]) && Numeral(Unsigned(v[e + 1..]))
  {
    hide IsDecimal, AfterDigits, PlainNumber;
    DecimalGrammar(v[..ExponentAt(v)]);
    AllDigitsRun(Unsigned(v[ExponentAt(v) + 1..]));
  }

  lemma {:induction false} UnmarkedForm(v: Bytes)
    requires ExponentAt(v) == |v|
    ensures IsJsonNumber(v) <==> PlainNumber(v)
  {
    hide IsDecimal, PlainNumber;
    DecimalGrammar(v);
  }

  lemma {:induction false} MarkSplit(mark: Bytes, e: Bytes)
    requires mark in MARKS && Numeral(e)
    ensures (mark + e)[0] in {'e', 'E'} && Unsigned((mark + e)[1..]) == e
  {
    assert |mark| == 1 || (|mark| == 2 && mark[1] in {'+', '-'});
    assert (mark + e)[1..] == mark[1..] + e && (mark + e)[0] == mark[0];
    if |mark| == 2 { assert mark[1..] + e == [mark[1]] + e && ([mark[1]] + e)[1..] == e; } else { assert [] + e == e; }
  }

  /** A gas price is a plain number or one with an exponent. */
  lemma {:induction false} NumberGrammar(v: Bytes)
    ensures IsJsonNumber(v) <==> PlainNumber(v) || exists m, mark, e :: WithExponent(v, m, mark, e)
  {
    hide IsJsonNumber, PlainNumber, Numeral, ExponentAt;
    var at := ExponentAt(v);
    if at < |v| {
      MarkedForm(v);
      MarkAt(v);
      if IsJsonNumber(v) {
        var exp := v[at + 1..];
        var mark := if Unsigned(exp) == exp then [v[at]] else [v[at], exp[0]];
        assert v == v[..at] + (mark + Unsigned(exp));
        assert WithExponent(v, v[..at], mark, Unsigned(exp));
      }
    } else {
      UnmarkedForm(v);
    }
    if PlainNumber(v) {
      NoMark(v);
      MarkAfter(v, []);
      assert v + [] == v;
    }
    if m, mark, e :| WithExponent(v, m, mark, e) {
      NoMark(m);
      MarkSplit(mark, e);
      MarkAfter(m, mark + e);
      assert v[..|m|] == m && v[|m|..] == mark + e && v[|m| + 1..] == (mark + e)[1..];
    }
  }

  // ---- Hexadecimal -----------------------------------------------------------------------------

  predicate IsHex(c: char) { IsDigit(c) || 'a' <= c <= 'f' || 'A' <= c <= 'F' }

  function HexValue(c: char): nat
    requires IsHex(c)
  {
    if IsDigit(c) then c as int - '0' as int
    else if 'a' <= c <= 'f' then c as int - 'a' as int + 10
    else c as int - 'A' as int + 10
  }

  /** Two hexadecimal digits a byte, in any letter case. */
  predicate HexSpells(s: Bytes, key: Bytes) {
    |s| == 2 * |key| &&
    forall k | 0 <= k < |key| ::
      IsHex(s[2 * k]) && IsHex(s[2 * k + 1]) && 16 * HexValue(s[2 * k]) + HexValue(s[2 * k + 1]) == key[k] as int % 256
  }

  lemma {:induction false} DigitSpells(c: char, n: nat)
    requires n < 16
    ensures Lower(c) == Lower(HexDigit(n)) <==> IsHex(c) && HexValue(c) == n
  {
    var d := HexDigit(n);
    assert if n < 10 then d as int == '0' as int + n else d as int == 'a' as int + n - 10;
  }

  lemma {:induction false} HexAt(key: Bytes, k: nat)
    requires k < |key|
    ensures HexLower(key)[2 * k] == HexDigit(key[k] as int / 16 % 16)
    ensures HexLower(key)[2 * k + 1] == HexDigit(key[k] as int % 16)
    decreases |key|
  {
    if k > 0 {
      HexAt(key[1..], k - 1);
      assert HexLower(key)[2 * k] == HexLower(key[1..])[2 * (k - 1)];
      assert HexLower(key)[2 * k + 1] == HexLower(key[1..])[2 * (k - 1) + 1];
    }
  }

  lemma {:induction false} TwoDigits(c: char, d: char, n: nat)
    ensures Lower(c) == Lower(HexDigit(n / 16 % 16)) && Lower(d) == Lower(HexDigit(n % 16)) <==>
            IsHex(c) && IsHex(d) && 16 * HexValue(c) + HexValue(d) == n % 256
  {
    hide Lower, HexDigit, HexValue;
    DigitSpells(c, n / 16 % 16);
    DigitSpells(d, n % 16);
    HexRange(c);
    HexRange(d);
    assert 16 * (n / 16 % 16) + n % 16 == n % 256;
  }

  lemma {:induction false} HexRange(c: char)
    ensures IsHex(c) ==> HexValue(c) < 16
  {
  }

  /** A text is the key in hexadecimal up to letter case exactly if it spells the key's bytes. */
  lemma {:induction false} SameHex(s: Bytes, key: Bytes)
    ensures EqualIgnoringCase(s, HexLower(key)) <==> HexSpells(s, key)
  {
    hide Lower, HexLower, HexDigit, HexValue, IsHex;
    var hex := HexLower(key);
    forall k | 0 <= k < |key| && |s| == 2 * |key|
      ensures Lower(s[2 * k]) == Lower(hex[2 * k]) && Lower(s[2 * k + 1]) == Lower(hex[2 * k + 1]) <==>
              IsHex(s[2 * k]) && IsHex(s[2 * k + 1]) &&
              16 * HexValue(s[2 * k]) + HexValue(s[2 * k + 1]) == key[k] as int % 256
    {
      HexAt(key, k);
      TwoDigits(s[2 * k], s[2 * k + 1], key[k] as int);
    }
    if HexSpells(s, key) {
      forall i | 0 <= i < |s| ensures Lower(s[i]) == Lower(hex[i]) {
        assert i == 2 * (i / 2) || i == 2 * (i / 2) + 1;
      }
    }
  }

  /** The device's own key is written in lower case. */
  lemma {:induction false} WritesHex(key: Bytes)
    ensures HexSpells(HexLower(key), key) && forall c | c in HexLower(key) :: IsDigit(c) || 'a' <= c <= 'f'
  {
    hide HexSpells, HexDigit, HexLower, Lower;
    SameHex(HexLower(key), key);
    var hex := HexLower(key);
    forall c | c in hex ensures IsDigit(c) || 'a' <= c <= 'f' {
      var i :| 0 <= i < |hex| && hex[i] == c;
      HexAt(key, i / 2);
      LowerDigit(key[i / 2] as int / 16 % 16);
      LowerDigit(key[i / 2] as int % 16);
      assert i == 2 * (i / 2) || i == 2 * (i / 2) + 1;
    }
  }

  lemma {:induction false} LowerDigit(n: nat)
    requires n < 16
    ensures IsDigit(HexDigit(n)) || 'a' <= HexDigit(n) <= 'f'
  {
    var d := HexDigit(n);
    assert if n < 10 then d as int == '0' as int + n else d as int == 'a' as int + n - 10;
  }

  // ---- Base64 ----------------------------------------------------------------------------------

  predicate IsBase64(c: char) {
    IsDigit(c) || 'a' <= c <= 'z' || 'A' <= c <= 'Z' || c == '-' || c == '_'
  }

  /** The place of a character in the URL-safe alphabet (section 5 of RFC 4648). */
  function Value64(c: char): nat
    requires IsBase64(c)
  {
    if 'A' <= c <= 'Z' then c as int - 'A' as int
    else if 'a' <= c <= 'z' then c as int - 'a' as int + 26
    else if IsDigit(c) then c as int - '0' as int + 52
    else if c == '-' then 62
    else 63
  }

  /** Byte `k` from the characters that carry its bits. */
  function Byte64(s: Bytes, k: nat): nat
    requires |s| == 43 && k < 32 && forall c | c in s :: IsBase64(c)
  {
    var i := 4 * (k / 3) + k % 3;
    match k % 3
    case 0 => 4 * Value64(s[i]) + Value64(s[i + 1]) / 16
    case 1 => 16 * (Value64(s[i]) % 16) + Value64(s[i + 1]) / 4
    case _ => 64 * (Value64(s[i]) % 4) + Value64(s[i + 1])
  }

  /** The 43 characters that 32 bytes take without padding; the two bits left over are zero. */
  predicate Base64Spells(s: Bytes, d: Bytes) {
    |s| == 43 && |d| == 32 && (forall c | c in s :: IsBase64(c)) && Value64(s[42]) % 4 == 0 &&
    forall k | 0 <= k < 32 :: Byte64(s, k) == d[k] as int % 256
  }

  lemma {:induction false} CharValue(n: nat)
    requires n < 64
    ensures IsBase64(Base64Char(n)) && Value64(Base64Char(n)) == n
  {
  }

  lemma {:induction false} ByteRange(d: Bytes, k: nat)
    ensures ByteAt(d, k) < 256
  {
  }

  /** The bits of two bytes from the first bit, from the fifth, from the third and from the seventh on. */
  lemma {:induction false} FirstBits(a: nat, b: nat)
    requires a < 256 && b < 256
    ensures (a * 256 + b) / 1024 % 64 == a / 4
  {
    var x, y := a / 4, a % 4;
    assert a * 256 + b == 1024 * x + (256 * y + b) && 256 * y + b < 1024;
    assert (a * 256 + b) / 1024 == x;
  }

  lemma {:induction false} LastTwoBits(a: nat, b: nat)
    requires a < 256 && b < 256
    ensures (a * 256 + b) / 16 % 64 == 16 * (a % 4) + b / 16
  {
    var x, y, u, v := a / 4, a % 4, b / 16, b % 16;
    assert a * 256 + b == 16 * (64 * x + (16 * y + u)) + v;
    assert (a * 256 + b) / 16 == 64 * x + (16 * y + u) && 16 * y + u < 64;
  }

  lemma {:induction false} LastFourBits(a: nat, b: nat)
    requires a < 256 && b < 256
    ensures (a * 256 + b) / 64 % 64 == 4 * (a % 16) + b / 64
  {
    var x, y, u, v := a / 16, a % 16, b / 64, b % 64;
    assert a * 256 + b == 64 * (64 * x + (4 * y + u)) + v;
    assert (a * 256 + b) / 64 == 64 * x + (4 * y + u) && 4 * y + u < 64;
  }

  lemma {:induction false} LastSixBits(a: nat, b: nat)
    requires a < 256 && b < 256
    ensures (a * 256 + b) / 256 % 64 == a % 64
  {
    assert (a * 256 + b) / 256 == a;
  }

  /** The `i`-th group of six bits, by the place of its first byte. */
  lemma {:induction false} SextetAt(d: Bytes, g: nat, r: nat)
    requires r < 4
    ensures var k := 3 * g + (if r < 2 then 0 else r - 1);
            var two := ByteAt(d, k) * 256 + ByteAt(d, k + 1);
            Sextet(d, 4 * g + r) == match r
                                    case 0 => two / 1024 % 64
                                    case 1 => two / 16 % 64
                                    case 2 => two / 64 % 64
                                    case _ => two / 256 % 64
  {
    hide ByteAt;
    var n := 6 * (4 * g + r);
    if r == 0 {
      assert n == 8 * (3 * g);
    } else if r == 1 {
      assert n == 8 * (3 * g) + 6;
    } else if r == 2 {
      assert n == 8 * (3 * g + 1) + 4;
    } else {
      assert n == 8 * (3 * g + 2) + 2;
    }
  }

  /** The bits of three bytes, six by six. */
  lemma {:induction false} Sextets(d: Bytes, g: nat)
    ensures var a, b, c := ByteAt(d, 3 * g), ByteAt(d, 3 * g + 1), ByteAt(d, 3 * g + 2);
            && Sextet(d, 4 * g) == a / 4 && Sextet(d, 4 * g + 1) == 16 * (a % 4) + b / 16
            && Sextet(d, 4 * g + 2) == 4 * (b % 16) + c / 64 && Sextet(d, 4 * g + 3) == c % 64
  {
    hide ByteAt, Sextet;
    var a, b, c, e := ByteAt(d, 3 * g), ByteAt(d, 3 * g + 1), ByteAt(d, 3 * g + 2), ByteAt(d, 3 * g + 3);
    ByteRange(d, 3 * g);
    ByteRange(d, 3 * g + 1);
    ByteRange(d, 3 * g + 2);
    ByteRange(d, 3 * g + 3);
    SextetAt(d, g, 0);
    SextetAt(d, g, 1);
    SextetAt(d, g, 2);
    SextetAt(d, g, 3);
    FirstBits(a, b);
    LastTwoBits(a, b);
    LastFourBits(b, c);
    LastSixBits(c, e);
  }

  lemma {:induction false} CharAt(d: Bytes, i: nat)
    requires i < 43
    ensures IsBase64(HashShown(d)[i]) && Value64(HashShown(d)[i]) == Sextet(d, i)
  {
    hide Sextet;
    CharValue(Sextet(d, i));
  }

  /** The three bytes of four groups. */
  lemma {:induction false} GroupBytes(a: nat, b: nat, c: nat, v: nat, w: nat, x: nat, y: nat)
    requires a < 256 && b < 256 && c < 256
    requires v == a / 4 && w == 16 * (a % 4) + b / 16 && x == 4 * (b % 16) + c / 64 && y == c % 64
    ensures 4 * v + w / 16 == a && 16 * (w % 16) + x / 4 == b && 64 * (x % 4) + y == c
  {
    assert w / 16 == a % 4 && w % 16 == b / 16;
    assert x / 4 == b % 16 && x % 4 == c / 64;
  }

  lemma {:induction false} ByteBack(d: Bytes, k: nat)
    requires k < 32 && forall c | c in HashShown(d) :: IsBase64(c)
    ensures Byte64(HashShown(d), k) == ByteAt(d, k)
  {
    hide Sextet, ByteAt, HashShown, Value64;
    var g, r := k / 3, k % 3;
    assert k == 3 * g + r;
    Sextets(d, g);
    ByteRange(d, 3 * g);
    ByteRange(d, 3 * g + 1);
    ByteRange(d, 3 * g + 2);
    GroupBytes(ByteAt(d, 3 * g), ByteAt(d, 3 * g + 1), ByteAt(d, 3 * g + 2), Sextet(d, 4 * g), Sextet(d, 4 * g + 1),
      Sextet(d, 4 * g + 2), Sextet(d, 4 * g + 3));
    CharAt(d, 4 * g + r);
    CharAt(d, 4 * g + r + 1);
  }

  /** The hash is shown in base64. */
  lemma {:induction false} ShowsHash(d: Bytes)
    requires |d| == 32
    ensures Base64Spells(HashShown(d), d)
  {
    hide Sextet, HashShown, Value64, Byte64;
    var s := HashShown(d);
    forall c | c in s ensures IsBase64(c) {
      var i :| 0 <= i < 43 && s[i] == c;
      CharAt(d, i);
    }
    forall k | 0 <= k < 32 ensures Byte64(s, k) == d[k] as int % 256 { ByteBack(d, k); }
    CharAt(d, 42);
    Sextets(d, 10);
  }
}
