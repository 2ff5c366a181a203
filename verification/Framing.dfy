/**
 The framing of a structured transfer: a type byte, then twelve fields, each a length byte and that many bytes.
 */
module Framing {
  import opened Base
  import opened Errors
  import opened TransferSpec

  lemma {:induction false} AllBytesCat(a: Bytes, b: Bytes)
    ensures AllBytes(a + b) <==> AllBytes(a) && AllBytes(b)
  {
    if AllBytes(a + b) {
      assert forall i | 0 <= i < |b| :: b[i] == (a + b)[|a| + i];
      assert forall i | 0 <= i < |a| :: a[i] == (a + b)[i];
    }
  }

  /** `s` is exactly `n` length-prefixed items. */
  predicate Items(s: Bytes, n: nat)
    decreases n
  {
    if n == 0 then s == []
    else s != [] && 1 + s[0] as int <= |s| && Items(s[1 + s[0] as int..], n - 1)
  }

  /** A request body: a type byte and twelve items. */
  predicate Body(s: Bytes) { s != [] && Items(s[1..], FIELDS) }

  /** The bytes of the fields, each with its length before it. */
  function Encode(fields: seq<Bytes>): Bytes
    requires forall f | f in fields :: |f| < 256
  {
    if fields == [] then [] else [|fields[0]| as char] + fields[0] + Encode(fields[1..])
  }

  lemma {:induction false} ItemsAppend(s: Bytes, n: nat, item: Bytes)
    requires Items(s, n) && item != [] && |item| == 1 + item[0] as int
    ensures Items(s + item, n + 1)
    decreases n
  {
    if n == 0 {
      assert s + item == item && item[|item|..] == [];
      assert Items([], 0);
    } else {
      var k := 1 + s[0] as int;
      assert (s + item)[k..] == s[k..] + item;
      ItemsAppend(s[k..], n - 1, item);
    }
  }

  lemma {:induction false} ItemsLength(s: Bytes, n: nat)
    requires Items(s, n)
    ensures n <= |s| && (AllBytes(s) ==> |s| <= 256 * n)
    decreases n
  {
    if n > 0 {
      var rest := s[1 + s[0] as int..];
      ItemsLength(rest, n - 1);
      if AllBytes(s) {
        forall i | 0 <= i < |rest| ensures rest[i] as int < 256 { assert rest[i] == s[1 + s[0] as int + i]; }
      }
    }
  }

  /** The reader gets to the end exactly on `n` items. */
  lemma {:induction false} ReadsItems(input: Bytes, off: nat, n: nat)
    requires off <= |input|
    ensures Items(input[off..], n) <==> ReadFields(input, off, n).Ok? && ReadFields(input, off, n).value.1 == |input|
    decreases n
  {
    if n > 0 && off < |input| {
      var next := off + 1 + input[off] as int;
      if next <= |input| {
        assert input[off..][1 + input[off] as int..] == input[next..];
        ReadsItems(input, next, n - 1);
      }
    }
  }

  /** Reading undoes encoding. */
  lemma {:induction false} ReadsEncoded(input: Bytes, off: nat, fields: seq<Bytes>)
    requires off <= |input| && forall f | f in fields :: |f| < 256
    requires input[off..] == Encode(fields)
    ensures ReadFields(input, off, |fields|) == Ok((fields, |input|))
    decreases |fields|
  {
    if fields != [] {
      var f := fields[0];
      var next := off + 1 + |f|;
      assert input[off] == Encode(fields)[0];
      assert input[next..] == input[off..][1 + |f|..] == Encode(fields[1..]);
      assert input[off + 1..next] == input[off..][1..1 + |f|] == f;
      ReadsEncoded(input, next, fields[1..]);
      assert fields == [f] + fields[1..];
    }
  }

  /** What is read to the end is the encoding of the fields read. */
  lemma {:induction false} EncodesRead(input: Bytes, off: nat, n: nat)
    requires AllBytes(input) && off <= |input| && ReadFields(input, off, n).Ok? &&
             ReadFields(input, off, n).value.1 == |input|
    ensures var fields := ReadFields(input, off, n).value.0;
            (forall f | f in fields :: |f| < 256) && input[off..] == Encode(fields)
    decreases n
  {
    if n > 0 {
      var (f, next) := ReadField(input, off).value;
      EncodesRead(input, next, n - 1);
      var rest := ReadFields(input, next, n - 1).value.0;
      assert ([f] + rest)[1..] == rest;
      assert input[off..] == [input[off]] + f + input[next..];
    }
  }

  /** A body is the type byte and the encoding of the fields its reader finds, and nothing else is. */
  lemma {:induction false} RequestEncodes(input: Bytes, txType: nat, f: Fields)
    requires AllBytes(input)
    ensures ReadRequest(input) == Ok((txType, f)) <==>
            && txType <= 2 && FieldsInRange(f) && FieldsAllowed(f, txType)
            && (forall v | v in f :: |v| < 256) && input == [txType as char] + Encode(f)
  {
    hide FieldsAllowed;
    if ReadRequest(input) == Ok((txType, f)) {
      EncodesRead(input, 1, FIELDS);
      assert input == [input[0]] + input[1..];
    } else if txType <= 2 && FieldsInRange(f) && FieldsAllowed(f, txType) && (forall v | v in f :: |v| < 256) &&
              input == [txType as char] + Encode(f) {
      ReadsEncoded(input, 1, f);
    }
  }

  /** The longest body `build` accepts. */
  lemma {:induction false} BodyLength(input: Bytes)
    requires AllBytes(input) && ReadRequest(input).Ok?
    ensures Body(input) && |input| <= 3073
  {
    hide Items, FieldsAllowed, FieldsInRange;
    ReadsItems(input, 1, FIELDS);
    assert AllBytes(input[1..]);
    ItemsLength(input[1..], FIELDS);
  }

  /** On a framed body, `build` has no framing error: it refuses only a type, a length or a content. */
  lemma {:induction false} FramedBody(input: Bytes)
    requires Body(input)
    ensures ReadRequest(input).Err? ==>
              ReadRequest(input).error in {UnexpectedValue, ValueOutOfRange, UnexpectedCharacters}
  {
    hide Items, FieldsAllowed, FieldsInRange;
    ReadsItems(input, 1, FIELDS);
  }
}
