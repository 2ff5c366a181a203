/**
 The text of a value on the screen: printable ASCII. Two values look the same exactly if they decode to the same
 bytes, and a value decodes to itself unless it spells the escape of a byte.
 */
module Display {
  import opened Base
  import opened Syntax

  predicate Printable(b: char) { ' ' <= b < '\U{7F}' }

  function UpperHex(n: int): char
    requires 0 <= n < 16
  {
    "0123456789ABCDEF"[n]
  }

  /** A byte on the screen: itself, or `\x` and two upper-case hex digits. */
  function ByteText(b: char): Bytes {
    if Printable(b) then [b] else ['\\', 'x', UpperHex(b as int / 16 % 16), UpperHex(b as int % 16)]
  }

  function Escaped(s: Bytes): Bytes { if s == [] then [] else ByteText(s[0]) + Escaped(s[1..]) }

  /** The pieces in a row. */
  function Flat(pieces: seq<Bytes>): Bytes {
    if pieces == [] then [] else Flat(pieces[..|pieces| - 1]) + pieces[|pieces| - 1]
  }

  lemma {:induction false} FlatAdd(pieces: seq<Bytes>, piece: Bytes)
    ensures Flat(pieces + [piece]) == Flat(pieces) + piece
  {
    assert (pieces + [piece])[..|pieces|] == pieces;
  }

  lemma {:induction false} EscapedCat(a: Bytes, b: Bytes)
    ensures Escaped(a + b) == Escaped(a) + Escaped(b)
    decreases |a|
  {
    if a == [] {
      assert a + b == b;
    } else {
      assert (a + b)[1..] == a[1..] + b;
      EscapedCat(a[1..], b);
      assert ByteText(a[0]) + Escaped(a[1..]) + Escaped(b) == ByteText(a[0]) + (Escaped(a[1..]) + Escaped(b));
    }
  }

  lemma {:induction false} EscapedPlain(s: Bytes)
    requires forall c | c in s :: Printable(c)
    ensures Escaped(s) == s
    decreases |s|
  {
    if s != [] {
      EscapedPlain(s[1..]);
      assert s == [s[0]] + s[1..];
    }
  }

  /** The pieces handed to the screen: each stretch of printable bytes, and each escape. */
  method Escape(bytes: Bytes) returns (pieces: seq<Bytes>)
    ensures Flat(pieces) == Escaped(bytes)
  {
    hide Flat, Escaped;
    pieces := [];
    var start := 0;
    Nothing();
    for i := 0 to |bytes|
      invariant start <= i && Flat(pieces) == Escaped(bytes[..start])
      invariant forall k | start <= k < i :: Printable(bytes[k])
    {
      if !(' ' <= bytes[i] < '\U{7F}') {
        FlatAdd(pieces, bytes[start..i]);
        FlatAdd(pieces + [bytes[start..i]], ByteText(bytes[i]));
        Stretch(bytes, start, i);
        OneByte(bytes, i);
        pieces := pieces + [bytes[start..i]];
        pieces := pieces + [['\\', 'x', UpperHex(bytes[i] as int / 16 % 16), UpperHex(bytes[i] as int % 16)]];
        start := i + 1;
      }
    }
    FlatAdd(pieces, bytes[start..]);
    Stretch(bytes, start, |bytes|);
    assert bytes[..|bytes|] == bytes;
    pieces := pieces + [bytes[start..]];
  }

  lemma {:induction false} Nothing()
    ensures Flat([]) == Escaped("") == ""
  {
  }

  lemma {:induction false} Stretch(bytes: Bytes, start: nat, i: nat)
    requires start <= i <= |bytes| && forall k | start <= k < i :: Printable(bytes[k])
    ensures Escaped(bytes[..start]) + bytes[start..i] == Escaped(bytes[..i])
  {
    EscapedPlain(bytes[start..i]);
    EscapedCat(bytes[..start], bytes[start..i]);
    assert bytes[..start] + bytes[start..i] == bytes[..i];
  }

  lemma {:induction false} OneByte(bytes: Bytes, i: nat)
    requires i < |bytes|
    ensures Escaped(bytes[..i]) + ByteText(bytes[i]) == Escaped(bytes[..i + 1])
  {
    EscapedCat(bytes[..i], [bytes[i]]);
    assert bytes[..i] + [bytes[i]] == bytes[..i + 1];
    assert Escaped([bytes[i]]) == ByteText(bytes[i]) + Escaped([]);
  }

  /** Nothing but printable ASCII is shown; nothing printable is changed. */
  lemma {:induction false} OnlyPrintable(s: Bytes)
    ensures forall c | c in Escaped(s) :: Printable(c)
    decreases |s|
  {
    if s != [] { OnlyPrintable(s[1..]); }
  }

  // ---- Reading it back -------------------------------------------------------------------------

  function HexValue(c: char): nat {
    if IsDigit(c) then c as int - '0' as int else if 'A' <= c <= 'F' then c as int - 'A' as int + 10 else 0
  }

  /** Reads the units of a screen text from left to right: `\x` and two digits, `\` and a byte, or a byte. */
  function Unescaped(t: Bytes): Bytes {
    if |t| >= 4 && t[0] == '\\' && t[1] == 'x' then [(16 * HexValue(t[2]) + HexValue(t[3])) as char] + Unescaped(t[4..])
    else if |t| >= 2 && t[0] == '\\' then t[..2] + Unescaped(t[2..])
    else if t == [] then []
    else [t[0]] + Unescaped(t[1..])
  }

  lemma {:induction false} HexDigitBack(n: int)
    requires 0 <= n < 16
    ensures HexValue(UpperHex(n)) == n
  {
  }

  lemma {:induction false} HexBack(b: char)
    requires b as int < 256
    ensures (16 * HexValue(UpperHex(b as int / 16 % 16)) + HexValue(UpperHex(b as int % 16))) as char == b
  {
    hide HexValue, UpperHex;
    HexDigitBack(b as int / 16 % 16);
    HexDigitBack(b as int % 16);
  }

  /** Reading back takes the units of a string body one by one. */
  lemma {:induction false} ReadUnit(s: Bytes, rest: Bytes)
    requires s != [] && (|s| == 1 || |s| == 2) && s[0] as int < 256
    requires |s| == 1 ==> s[0] != '\\'
    requires |s| == 2 ==> s[0] == '\\' && Printable(s[1]) && s[1] != 'x'
    ensures Unescaped(Escaped(s) + rest) == s + Unescaped(rest)
  {
    if |s| == 2 {
      hide HexValue, ByteText;
      EscapedPlain(s);
      assert (s + rest)[..2] == s && (s + rest)[2..] == rest;
    } else {
      hide HexValue, UpperHex;
      var text := ByteText(s[0]);
      assert Escaped(s) == text + Escaped([]) == text;
      if Printable(s[0]) {
        assert (text + rest)[1..] == rest;
      } else {
        HexBack(s[0]);
        assert (text + rest)[4..] == rest;
      }
    }
  }

  lemma {:induction false} ReadPlain(s: Bytes, rest: Bytes)
    requires forall c | c in s :: Printable(c) && c != '\\'
    ensures Unescaped(s + rest) == s + Unescaped(rest)
    decreases |s|
  {
    if s == [] {
      assert s + rest == rest;
    } else {
      assert (s + rest)[1..] == s[1..] + rest;
      ReadPlain(s[1..], rest);
      assert s[0] in s && (s + rest)[0] == s[0];
      assert Unescaped(s + rest) == [s[0]] + Unescaped((s + rest)[1..]);
      assert [s[0]] + (s[1..] + Unescaped(rest)) == s + Unescaped(rest);
    }
  }

  /** The body of a string is read back from the screen. */
  lemma {:induction false} ReadsBack(s: Bytes)
    requires ValidBody(s) && forall c | c in s :: c as int < 256
    ensures Unescaped(Escaped(s)) == s
    decreases |s|
  {
    hide Unescaped, Escaped;
    if s == [] {
      NothingBack();
    } else {
      var n := UnitLen(s);
      var unit, rest := s[..n], s[n..];
      assert s == unit + rest && s[0] in s && forall c | c in rest :: c in s;
      ReadsBack(rest);
      EscapedCat(unit, rest);
      if n == 6 {
        ReadUnicode(unit, Escaped(rest));
      } else {
        assert n == 2 ==> IsSimpleEscape(unit[1]);
        ReadUnit(unit, Escaped(rest));
      }
    }
  }

  lemma {:induction false} NothingBack()
    ensures Unescaped(Escaped("")) == ""
  {
  }

  lemma {:induction false} ReadUnicode(s: Bytes, rest: Bytes)
    requires |s| == 6 && s[0] == '\\' && s[1] == 'u' && forall i | 2 <= i < 6 :: IsHex(s[i])
    ensures Unescaped(Escaped(s) + rest) == s + Unescaped(rest)
  {
    hide Unescaped, Escaped;
    var head, digits := s[..2], s[2..];
    assert s == head + digits;
    EscapedPlain(digits);
    EscapedCat(head, digits);
    ReadPlain(digits, rest);
    ReadUnit(head, digits + rest);
    assert Escaped(s) + rest == Escaped(head) + (digits + rest);
    assert head + (digits + Unescaped(rest)) == s + Unescaped(rest);
  }

  /** Different string bodies are different on the screen. */
  lemma {:induction false} Injective(a: Bytes, b: Bytes)
    requires ValidBody(a) && ValidBody(b) && (forall c | c in a :: c as int < 256) &&
             (forall c | c in b :: c as int < 256)
    requires Escaped(a) == Escaped(b)
    ensures a == b
  {
    hide Escaped, Unescaped;
    ReadsBack(a);
    ReadsBack(b);
  }

  /** A raw `\x` is part of a string body only after a backslash, which it then belongs to. */
  lemma {:induction false} RawEscape(s: Bytes, i: nat)
    requires ValidBody(s) && i + 1 < |s| && s[i] == '\\' && s[i + 1] == 'x'
    ensures i > 0 && s[i - 1] == '\\'
    decreases |s|
  {
    var n := UnitLen(s);
    if i >= n {
      assert s[n..][i - n] == '\\' && s[n..][i - n + 1] == 'x';
      RawEscape(s[n..], i - n);
    }
  }

  // ---- Which texts look the same ---------------------------------------------------------------

  predicate IsUpperHex(c: char) { IsDigit(c) || 'A' <= c <= 'F' }

  /** The text starts with `\x`; and if `full`, with the whole escape of a byte. */
  predicate Starts(t: Bytes, full: bool) {
    |t| >= 2 && t[0] == '\\' && t[1] == 'x' &&
    (full ==> |t| >= 4 && IsUpperHex(t[2]) && IsUpperHex(t[3]) && !Printable(HexByte(t)))
  }

  function HexByte(t: Bytes): char
    requires |t| >= 4
  {
    (16 * HexValue(t[2]) + HexValue(t[3])) as char
  }

  /** The text has a `\x` in it, or the whole escape of a byte. */
  predicate Spells(t: Bytes, full: bool) { t != [] && (Starts(t, full) || Spells(t[1..], full)) }

  /** Every escape of a byte, read as the byte. */
  function Decoded(t: Bytes): Bytes {
    if t == [] then []
    else if Starts(t, true) then [HexByte(t)] + Decoded(t[4..])
    else [t[0]] + Decoded(t[1..])
  }

  /** A character of a screen text that is no backslash stands for itself. */
  lemma {:induction false} FirstShown(s: Bytes)
    requires Escaped(s) != [] && Escaped(s)[0] != '\\'
    ensures s != [] && s[0] == Escaped(s)[0] && Escaped(s)[1..] == Escaped(s[1..])
  {
    hide UpperHex;
  }

  lemma {:induction false} StartIsOwn(s: Bytes)
    requires s != [] && Printable(s[0]) && Starts(Escaped(s), true)
    ensures Starts(s, true)
  {
    hide Escaped, UpperHex, HexValue;
    assert Escaped(s) == [s[0]] + Escaped(s[1..]) by { OneShown(s); }
    var t := Escaped(s)[1..];
    assert t == Escaped(s[1..]);
    FirstShown(s[1..]);
    assert t[1..][0] == Escaped(s)[2];
    FirstShown(s[1..][1..]);
    assert t[1..][1..][0] == Escaped(s)[3];
    FirstShown(s[1..][1..][1..]);
  }

  lemma {:induction false} OneShown(s: Bytes)
    requires s != []
    ensures Escaped(s) == ByteText(s[0]) + Escaped(s[1..])
  {
  }

  lemma {:induction false} HexRange(c: char)
    requires IsUpperHex(c)
    ensures HexValue(c) < 16 && UpperHex(HexValue(c)) == c && Printable(c)
  {
  }

  lemma {:induction false} HexRangeBack(n: int)
    requires 0 <= n < 16
    ensures IsUpperHex(UpperHex(n))
  {
  }

  /** The escape of a byte, where it is spelled. */
  lemma {:induction false} SpelledText(t: Bytes)
    requires Starts(t, true)
    ensures ByteText(HexByte(t)) == t[..4] && Escaped(t) == t[..4] + Escaped(t[4..])
  {
    hide HexValue, UpperHex, Escaped;
    HexRange(t[2]);
    HexRange(t[3]);
    var b := HexByte(t);
    assert b as int == 16 * HexValue(t[2]) + HexValue(t[3]) && b as int / 16 % 16 == HexValue(t[2]) &&
           b as int % 16 == HexValue(t[3]);
    assert t == t[..4] + t[4..];
    EscapedCat(t[..4], t[4..]);
    assert forall c | c in t[..4] :: Printable(c);
    EscapedPlain(t[..4]);
  }

  lemma {:induction false} ShownEscape(b: char, rest: Bytes)
    requires b as int < 256 && !Printable(b)
    ensures var t := ByteText(b) + rest; Starts(t, true) && HexByte(t) == b && t[4..] == rest
  {
    hide HexValue, UpperHex;
    HexRangeBack(b as int / 16 % 16);
    HexRangeBack(b as int % 16);
    HexBack(b);
  }

  /** The screen text decodes to what the text itself decodes to. */
  lemma {:induction false} DecodesShown(s: Bytes)
    requires AllBytes(s)
    ensures Decoded(Escaped(s)) == Decoded(s)
    decreases |s|
  {
    hide HexValue, UpperHex, Starts, HexByte, ByteText;
    if s == [] {
    } else if Starts(s, true) {
      SpelledText(s);
      SpelledLong(s);
      DecodesShown(s[4..]);
      SameStart(s, Escaped(s));
      assert Escaped(s)[4..] == Escaped(s[4..]);
    } else {
      DecodesShown(s[1..]);
      OneShown(s);
      if Printable(s[0]) {
        PrintableText(s[0]);
        if Starts(Escaped(s), true) { StartIsOwn(s); }
        assert Escaped(s)[1..] == Escaped(s[1..]);
      } else {
        ShownEscape(s[0], Escaped(s[1..]));
        SpelledLong(Escaped(s));
      }
    }
  }

  lemma {:induction false} PrintableText(b: char)
    requires Printable(b)
    ensures ByteText(b) == [b]
  {
  }

  lemma {:induction false} SpelledLong(s: Bytes)
    requires Starts(s, true)
    ensures |s| >= 4
  {
  }

  lemma {:induction false} SameStart(s: Bytes, t: Bytes)
    requires Starts(s, true) && |t| >= 4 && t[..4] == s[..4]
    ensures Starts(t, true) && HexByte(t) == HexByte(s)
  {
    assert t[0] == t[..4][0] && t[1] == t[..4][1] && t[2] == t[..4][2] && t[3] == t[..4][3];
    assert s[0] == s[..4][0] && s[1] == s[..4][1] && s[2] == s[..4][2] && s[3] == s[..4][3];
  }

  /** Decoding does not change what is on the screen. */
  lemma {:induction false} ShowsDecoded(t: Bytes)
    ensures Escaped(Decoded(t)) == Escaped(t)
    decreases |t|
  {
    hide HexValue, UpperHex, Starts, HexByte, ByteText;
    if t == [] {
    } else if Starts(t, true) {
      SpelledLong(t);
      SpelledText(t);
      ShowsDecoded(t[4..]);
      OneShown(Decoded(t));
      assert Decoded(t)[1..] == Decoded(t[4..]);
    } else {
      ShowsDecoded(t[1..]);
      OneShown(Decoded(t));
      OneShown(t);
      assert Decoded(t)[1..] == Decoded(t[1..]);
    }
  }

  /** Two texts look the same exactly if they decode to the same bytes. */
  lemma {:induction false} LookAlike(a: Bytes, b: Bytes)
    requires AllBytes(a) && AllBytes(b)
    ensures Escaped(a) == Escaped(b) <==> Decoded(a) == Decoded(b)
  {
    hide Escaped, Decoded;
    DecodesShown(a);
    DecodesShown(b);
    ShowsDecoded(a);
    ShowsDecoded(b);
  }

  lemma {:induction false} DecodedShorter(t: Bytes)
    ensures |Decoded(t)| <= |t| && (Spells(t, true) ==> |Decoded(t)| < |t|)
    decreases |t|
  {
    hide Starts, HexByte;
    if t != [] {
      if Starts(t, true) {
        SpelledLong(t);
        DecodedShorter(t[4..]);
      } else {
        DecodedShorter(t[1..]);
      }
    }
  }

  /** A text decodes to itself exactly if it does not spell the escape of a byte. */
  lemma {:induction false} DecodesToItself(t: Bytes)
    ensures Decoded(t) == t <==> !Spells(t, true)
    decreases |t|
  {
    hide Starts, HexByte;
    DecodedShorter(t);
    if t != [] && !Spells(t, true) { DecodesToItself(t[1..]); }
  }

  /** So texts that spell no escape are different on the screen if they differ. */
  lemma {:induction false} LooksDifferent(a: Bytes, b: Bytes)
    requires AllBytes(a) && AllBytes(b) && !Spells(a, true) && !Spells(b, true) && a != b
    ensures Escaped(a) != Escaped(b)
  {
    hide Escaped, Decoded, Spells;
    LookAlike(a, b);
    DecodesToItself(a);
    DecodesToItself(b);
  }

  /** And a text that spells one has a different text that looks the same. */
  lemma {:induction false} HasDouble(a: Bytes)
    requires Spells(a, true)
    ensures Decoded(a) != a && Escaped(Decoded(a)) == Escaped(a)
  {
    hide Escaped, Decoded, Spells;
    DecodesToItself(a);
    ShowsDecoded(a);
  }

  lemma {:induction false} SpelledAt(t: Bytes, i: nat, full: bool)
    requires i <= |t| && Starts(t[i..], full)
    ensures Spells(t, full)
  {
    hide Starts;
    if i == 0 {
      assert t[0..] == t;
      NotNothing(t, full);
    } else {
      assert t[1..][i - 1..] == t[i..];
      SpelledAt(t[1..], i - 1, full);
    }
  }

  lemma {:induction false} NotNothing(t: Bytes, full: bool)
    requires Starts(t, full)
    ensures t != []
  {
  }

  // ---- Where an escape can be spelled ----------------------------------------------------------

  lemma {:induction false} NoneSpelled(s: Bytes, full: bool)
    requires '\\' !in s
    ensures !Spells(s, full)
    decreases |s|
  {
    if s != [] { NoneSpelled(s[1..], full); }
  }

  /** What does not go on an escape that another text starts. */
  predicate Breaks(s: Bytes) { s == [] || !(s[0] == 'x' || IsUpperHex(s[0])) }

  lemma {:induction false} SpellsAfterPlain(a: Bytes, b: Bytes, full: bool)
    requires '\\' !in a
    ensures Spells(a + b, full) <==> Spells(b, full)
    decreases |a|
  {
    if a == [] {
      assert a + b == b;
    } else {
      assert (a + b)[1..] == a[1..] + b && (a + b)[0] == a[0] && a[0] in a;
      SpellsAfterPlain(a[1..], b, full);
    }
  }

  lemma {:induction false} SpellsCat(a: Bytes, b: Bytes, full: bool)
    requires Breaks(b)
    ensures Spells(a + b, full) <==> Spells(a, full) || Spells(b, full)
    decreases |a|
  {
    if a == [] {
      assert a + b == b;
    } else {
      assert (a + b)[1..] == a[1..] + b;
      SpellsCat(a[1..], b, full);
      StartsCat(a, b, full);
    }
  }

  lemma {:induction false} StartsCat(a: Bytes, b: Bytes, full: bool)
    requires Breaks(b) && a != []
    ensures Starts(a + b, full) <==> Starts(a, full)
  {
    hide HexValue;
    var s := a + b;
    assert forall k | 0 <= k < |a| :: s[k] == a[k];
    assert b != [] ==> s[|a|] == b[0];
  }

  /** An escaped backslash of a string body with an `x` behind it, or all of an escape. */
  predicate BodySpells(s: Bytes, full: bool) {
    UnitLen(s) > 0 &&
    ((UnitLen(s) == 2 && s[1] == '\\' && Starts(s[1..], full)) || BodySpells(s[UnitLen(s)..], full))
  }

  /** That is the only way a string body can spell one. */
  lemma {:induction false} SpellsInBody(s: Bytes, full: bool)
    requires ValidBody(s)
    ensures Spells(s, full) <==> BodySpells(s, full)
    decreases |s|
  {
    hide HexByte;
    if s != [] {
      var n := UnitLen(s);
      SpellsInBody(s[n..], full);
      if n == 1 {
      } else if n == 2 {
        assert s[1..][1..] == s[2..] && !Starts(s, full);
        assert Spells(s, full) <==> Spells(s[1..], full);
      } else {
        UnicodeUnit(s, full);
      }
    }
  }

  lemma {:induction false} UnicodeUnit(s: Bytes, full: bool)
    requires |s| >= 6 && s[0] == '\\' && s[1] == 'u' && forall i | 2 <= i < 6 :: IsHex(s[i])
    ensures Spells(s, full) <==> Spells(s[6..], full)
  {
    hide HexByte;
    assert s[1..] == s[1..6] + s[6..];
    assert forall c | c in s[1..6] :: c != '\\';
    SpellsAfterPlain(s[1..6], s[6..], full);
  }
}
