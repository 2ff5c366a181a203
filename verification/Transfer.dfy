/**
 `build`: reads the length-prefixed fields of a structured transfer, checks them and writes the template
 into a fixed buffer.
 */
module Transfer {
  import opened Base
  import opened Errors
  import opened TransferSpec
  import T = Template

  class Reader {
    const buf: Bytes
    var off: nat

    constructor (buf: Bytes)
      ensures this.buf == buf && off == 0
    {
      this.buf := buf;
      off := 0;
    }

    method Byte() returns (r: Result<nat, ParserError>)
      modifies this
      ensures old(off) < |buf| ==> r == Ok(buf[old(off)] as int) && off == old(off) + 1
      ensures old(off) >= |buf| ==> r == Err(UnexpectedBufferEnd) && off == old(off)
    {
      if off >= |buf| {
        return Err(UnexpectedBufferEnd);
      }
      r := Ok(buf[off] as int);
      off := off + 1;
    }

    method Take(len: nat) returns (r: Result<Bytes, ParserError>)
      modifies this
      ensures old(off) + len <= |buf| ==> r == Ok(buf[old(off)..old(off) + len]) && off == old(off) + len
      ensures old(off) + len > |buf| ==> r == Err(UnexpectedBufferEnd) && off == old(off)
    {
      if off + len > |buf| {
        return Err(UnexpectedBufferEnd);
      }
      r := Ok(buf[off..off + len]);
      off := off + len;
    }
  }

  /** The pieces of `plan` from the `n`-th on start with `ps`. */
  ghost predicate PartAt(plan: seq<Bytes>, n: nat, ps: seq<Bytes>) {
    n + |ps| <= |plan| && forall k | n <= k < n + |ps| :: plan[k] == ps[k - n]
  }

  /** The template buffer: it holds the first `done` of the pieces it is planned to hold. */
  class Out {
    const buf: array<char>
    var pos: nat
    ghost const plan: seq<Bytes>
    ghost var done: nat

    ghost predicate Valid()
      reads this, buf
    {
      buf.Length == TEMPLATE_BUF && pos <= buf.Length && done <= |plan| && buf[..pos] == Join(plan[..done], [])
    }

    /** The next pieces of the plan are `ps`. */
    ghost predicate Due(ps: seq<Bytes>)
      reads `done
    {
      PartAt(plan, done, ps)
    }

    /** `n` pieces were appended, or the plan does not fit. */
    ghost predicate Wrote(r: Outcome<ParserError>, before: nat, n: nat)
      reads this, buf
    {
      match r
      case Pass => Valid() && done == before + n
      case Fail(e) => e == UnexpectedBufferEnd && |Join(plan, [])| > TEMPLATE_BUF
    }

    constructor (buf: array<char>, ghost plan: seq<Bytes>)
      requires buf.Length == TEMPLATE_BUF
      ensures Valid() && this.buf == buf && this.plan == plan && done == 0
    {
      this.buf := buf;
      this.plan := plan;
      pos := 0;
      done := 0;
    }

    /** Appends all of `data`; a short append fails the whole transfer. */
    method App(data: Bytes) returns (r: Outcome<ParserError>)
      requires Valid() && done < |plan| && plan[done] == data
      modifies this, buf
      ensures Wrote(r, old(done), 1)
    {
      JoinNext(plan, done);
      if TEMPLATE_BUF - pos < |data| {
        return Fail(UnexpectedBufferEnd);
      }
      forall i | 0 <= i < |data| { buf[pos + i] := data[i]; }
      assert buf[..pos + |data|] == old(buf[..pos]) + data;
      pos := pos + |data|;
      done := done + 1;
      r := Pass;
    }

    /** The called module: `ns.module` when both are given, else `coin`. */
    method Module(f: Fields) returns (r: Outcome<ParserError>)
      requires Valid() && Due(NsMod(f))
      modifies this, buf
      ensures Wrote(r, old(done), |NsMod(f)|)
    {
      hide Join, Valid;
      if UsesNamespace(f) {
        :- App(f[NAMESPACE]);
        :- App(".");
        :- App(f[MODULE]);
      } else {
        :- App("coin");
      }
      r := Pass;
    }

    method Head(f: Fields) returns (r: Outcome<ParserError>)
      requires Valid() && Due(HeadPieces(f))
      modifies this, buf
      ensures Wrote(r, old(done), |HeadPieces(f)|)
    {
      hide Join, Valid;
      :- App("{\"networkId\":\"");
      :- App(f[NETWORK]);
      :- App("\",\"payload\":{\"exec\":{\"data\":");
      r := Pass;
    }

    method Data(f: Fields, txType: nat) returns (r: Outcome<ParserError>)
      requires Valid() && Due(DataPieces(f, txType))
      modifies this, buf
      ensures Wrote(r, old(done), |DataPieces(f, txType)|)
    {
      hide Join, Valid;
      if txType == TRANSFER {
        :- App("{}");
      } else {
        :- App("{\"ks\":{\"pred\":\"keys-all\",\"keys\":[\"");
        :- App(f[RECIPIENT]);
        :- App("\"]}}");
      }
      r := Pass;
    }

    method Call(f: Fields, txType: nat) returns (r: Outcome<ParserError>)
      requires Valid() && Due(CallPieces(f, txType))
      modifies this, buf
      ensures Wrote(r, old(done), |CallPieces(f, txType)|)
    {
      hide Join, Valid;
      :- App(",\"code\":\"(");
      :- Module(f);
      if txType == TRANSFER {
        :- App(".transfer");
      } else if txType == TRANSFER_CREATE {
        :- App(".transfer-create");
      } else {
        :- App(".transfer-crosschain");
      }
      r := Pass;
    }

    method Arguments(f: Fields, txType: nat, addr: Bytes) returns (r: Outcome<ParserError>)
      requires Valid() && Due(ArgumentPieces(f, txType, addr))
      modifies this, buf
      ensures Wrote(r, old(done), |ArgumentPieces(f, txType, addr)|)
    {
      hide Join, Valid;
      :- App(" \\\"k:");
      :- App(addr);
      :- App("\\\" \\\"k:");
      :- App(f[RECIPIENT]);
      :- App("\\\"");
      if txType != TRANSFER {
        :- App(" (read-keyset \\\"ks\\\")");
      }
      if txType == TRANSFER_CROSSCHAIN {
        :- App(" \\\"");
        :- App(f[RECIPIENT_CHAIN]);
        :- App("\\\"");
      }
      :- App(" ");
      :- App(f[AMOUNT]);
      r := Pass;
    }

    method Signer(f: Fields, txType: nat, addr: Bytes) returns (r: Outcome<ParserError>)
      requires Valid() && Due(SignerPieces(f, txType, addr))
      modifies this, buf
      ensures Wrote(r, old(done), |SignerPieces(f, txType, addr)|)
    {
      hide Join, Valid;
      :- App(")\"}},\"signers\":[{\"pubKey\":\"");
      :- App(addr);
      :- App("\",\"clist\":[{\"args\":[\"k:");
      :- App(addr);
      :- App("\",\"k:");
      :- App(f[RECIPIENT]);
      :- App("\",");
      :- App(f[AMOUNT]);
      if txType == TRANSFER_CROSSCHAIN {
        :- App(",\"");
        :- App(f[RECIPIENT_CHAIN]);
        :- App("\"");
      }
      r := Pass;
    }

    method Name(f: Fields, txType: nat) returns (r: Outcome<ParserError>)
      requires Valid() && Due(NamePieces(f, txType))
      modifies this, buf
      ensures Wrote(r, old(done), |NamePieces(f, txType)|)
    {
      hide Join, Valid;
      :- App("],\"name\":\"");
      :- Module(f);
      :- App(".TRANSFER");
      if txType == TRANSFER_CROSSCHAIN {
        :- App("_XCHAIN");
      }
      r := Pass;
    }

    method Meta(f: Fields, addr: Bytes) returns (r: Outcome<ParserError>)
      requires Valid() && Due(MetaPieces(f, addr))
      modifies this, buf
      ensures Wrote(r, old(done), |MetaPieces(f, addr)|)
    {
      hide Join, Valid;
      :- App(GasCapability());
      :- App(f[CREATION_TIME]);
      :- App(",\"ttl\":");
      :- App(f[TTL]);
      :- App(",\"gasLimit\":");
      :- App(f[GAS_LIMIT]);
      :- App(",\"chainId\":\"");
      :- App(f[CHAIN_ID]);
      :- App("\",\"gasPrice\":");
      :- App(f[GAS_PRICE]);
      :- App(",\"sender\":\"k:");
      :- App(addr);
      r := Pass;
    }

    method Tail(f: Fields) returns (r: Outcome<ParserError>)
      requires Valid() && Due(TailPieces(f))
      modifies this, buf
      ensures Wrote(r, old(done), |TailPieces(f)|)
    {
      hide Join, Valid;
      :- App("\"},\"nonce\":\"");
      :- App(f[NONCE]);
      :- App("\"}");
      r := Pass;
    }
  }

  /** Writes the template of `f`; the number of bytes written. */
  method FormatInto(f: Fields, txType: nat, addr: Bytes, out: array<char>) returns (r: Result<nat, ParserError>)
    requires out.Length == TEMPLATE_BUF
    modifies out
    ensures Written(r, out[..], TransferSpec.Format(f, txType, addr))
  {
    var o := new Out(out, Pieces(f, txType, addr));
    var failure := WritePieces(o, f, txType, addr);
    if failure.Fail? {
      return Err(failure.error);
    }
    assert o.plan[..o.done] == o.plan;
    return Ok(o.pos);
  }

  /** The result and the buffer of a build, against what it should give. */
  ghost predicate Written(r: Result<nat, ParserError>, out: Bytes, text: Result<Bytes, ParserError>) {
    match text
    case Ok(t) => r == Ok(|t|) && |t| <= |out| && out[..|t|] == t
    case Err(e) => r == Err(e)
  }

  method WritePieces(o: Out, f: Fields, txType: nat, addr: Bytes) returns (r: Outcome<ParserError>)
    requires o.Valid() && o.done == 0 && o.plan == Pieces(f, txType, addr)
    modifies o, o.buf
    ensures o.Wrote(r, 0, |o.plan|)
  {
    hide Join, Out.Valid, HeadPieces, DataPieces, CallPieces, ArgumentPieces, SignerPieces, NamePieces, MetaPieces,
      TailPieces, Pieces, PartAt;
    PiecesAre(f, txType, addr);
    SectionsAt(o.plan, HeadPieces(f), DataPieces(f, txType), CallPieces(f, txType), ArgumentPieces(f, txType, addr),
      SignerPieces(f, txType, addr), NamePieces(f, txType), MetaPieces(f, addr), TailPieces(f));
    :- o.Head(f);
    :- o.Data(f, txType);
    :- o.Call(f, txType);
    :- o.Arguments(f, txType, addr);
    :- o.Signer(f, txType, addr);
    :- o.Name(f, txType);
    :- o.Meta(f, addr);
    :- o.Tail(f);
    r := Pass;
  }

  lemma {:induction false} PiecesAre(f: Fields, txType: nat, addr: Bytes)
    ensures Pieces(f, txType, addr) ==
            HeadPieces(f) + DataPieces(f, txType) + CallPieces(f, txType) + ArgumentPieces(f, txType, addr) +
            SignerPieces(f, txType, addr) + NamePieces(f, txType) + MetaPieces(f, addr) + TailPieces(f)
  {
  }

  lemma {:induction false} Middle(a: seq<Bytes>, b: seq<Bytes>, c: seq<Bytes>)
    ensures PartAt(a + b + c, |a|, b)
  {
  }

  /** Where each section of a plan starts. */
  lemma {:induction false} SectionsAt(plan: seq<Bytes>, a: seq<Bytes>, b: seq<Bytes>, c: seq<Bytes>, d: seq<Bytes>,
                                      e: seq<Bytes>, f: seq<Bytes>, g: seq<Bytes>, h: seq<Bytes>)
    requires plan == a + b + c + d + e + f + g + h
    ensures PartAt(plan, 0, a) && PartAt(plan, |a|, b) && PartAt(plan, |a| + |b|, c) && PartAt(plan, |a| + |b| + |c|, d)
    ensures PartAt(plan, |a| + |b| + |c| + |d|, e) && PartAt(plan, |a| + |b| + |c| + |d| + |e|, f)
    ensures PartAt(plan, |a| + |b| + |c| + |d| + |e| + |f|, g) &&
            PartAt(plan, |a| + |b| + |c| + |d| + |e| + |f| + |g|, h)
    ensures |plan| == |a| + |b| + |c| + |d| + |e| + |f| + |g| + |h|
  {
    hide PartAt;
    Middle([], a, b + c + d + e + f + g + h);
    assert plan == [] + a + (b + c + d + e + f + g + h);
    Middle(a, b, c + d + e + f + g + h);
    assert plan == a + b + (c + d + e + f + g + h);
    Middle(a + b, c, d + e + f + g + h);
    assert plan == a + b + c + (d + e + f + g + h);
    Middle(a + b + c, d, e + f + g + h);
    assert plan == a + b + c + d + (e + f + g + h);
    Middle(a + b + c + d, e, f + g + h);
    assert plan == a + b + c + d + e + (f + g + h);
    Middle(a + b + c + d + e, f, g + h);
    assert plan == a + b + c + d + e + f + (g + h);
    Middle(a + b + c + d + e + f, g, h);
    Middle(a + b + c + d + e + f + g, h, []);
    assert plan == plan + [];
  }

  /** The lower-case hex of `src`, into the first `2 * |src|` places of `out`. */
  method HexInto(src: Bytes, out: array<char>)
    requires out.Length == 2 * |src|
    modifies out
    ensures out[..] == HexLower(src)
  {
    for i := 0 to |src|
      invariant out[..2 * i] == HexLower(src[..i])
    {
      var b := src[i] as int;
      ghost var before := out[..2 * i];
      out[2 * i] := HexDigit(b / 16 % 16);
      out[2 * i + 1] := HexDigit(b % 16);
      HexAppend(src[..i], src[i]);
      assert src[..i + 1] == src[..i] + [src[i]];
      assert out[..2 * i] == before;
      assert out[..2 * (i + 1)] == before + [out[2 * i], out[2 * i + 1]];
    }
    assert src[..|src|] == src;
  }

  lemma {:induction false} HexAppend(src: Bytes, c: char)
    ensures HexLower(src + [c]) == HexLower(src) + [HexDigit(c as int / 16 % 16), HexDigit(c as int % 16)]
  {
    if src == [] {
      assert [c][1..] == [];
    } else {
      assert (src + [c])[1..] == src[1..] + [c];
      HexAppend(src[1..], c);
    }
  }

  /** The twelve fields, in place of those of `f`. */
  method ReadInto(r: Reader, f: array<Bytes>) returns (result: Outcome<ParserError>)
    requires f.Length == FIELDS && f[..] == seq(FIELDS, i => [])
    modifies r, f
    ensures match ReadFields(r.buf, old(r.off), FIELDS)
            case Ok((fields, end)) => result == Pass && f[..] == fields && r.off == end
            case Err(e) => result == Fail(e)
  {
    hide ReadFields;
    ghost var start := r.off;
    var i := 0;
    ContinuesStart(ReadFields(r.buf, start, FIELDS));
    assert f[..0] == [];
    while i < f.Length
      invariant 0 <= i <= FIELDS
      invariant Continues(ReadFields(r.buf, start, FIELDS), f[..i], ReadFields(r.buf, r.off, FIELDS - i))
      invariant forall k | i <= k < FIELDS :: f[k] == []
    {
      ghost var done, off := f[..i], r.off;
      FailsFirst(r.buf, off, FIELDS - i);
      var len := r.Byte();
      if len.Err? {
        return Fail(len.error);
      }
      if len.value > 0 {
        var field := r.Take(len.value);
        if field.Err? {
          return Fail(field.error);
        }
        f[i] := field.value;
      }
      assert r.buf[off + 1..r.off] == f[i];
      ContinuesStep(ReadFields(r.buf, start, FIELDS), done, r.buf, off, FIELDS - i);
      i := i + 1;
      assert f[..i] == done + [f[i - 1]];
    }
    FieldsRead(ReadFields(r.buf, start, FIELDS), f[..i], r.buf, r.off);
    assert f[..i] == f[..];
    result := Pass;
  }

  lemma {:induction false} ContinuesStart(all: Result<(seq<Bytes>, nat), ParserError>)
    ensures Continues(all, [], all)
  {
    if all.Ok? { assert [] + all.value.0 == all.value.0; }
  }

  lemma {:induction false} FailsFirst(input: Bytes, off: nat, n: nat)
    requires n > 0
    ensures ReadField(input, off).Err? ==> ReadFields(input, off, n) == Err(UnexpectedBufferEnd)
  {
  }

  lemma {:induction false} FieldsRead(all: Result<(seq<Bytes>, nat), ParserError>, done: seq<Bytes>, input: Bytes,
      off: nat)
    requires Continues(all, done, ReadFields(input, off, 0))
    ensures all == Ok((done, off))
  {
    assert done + [] == done;
  }

  /** Having read `done`, the whole reading is `done` and then the rest. */
  ghost predicate Continues(all: Result<(seq<Bytes>, nat), ParserError>, done: seq<Bytes>,
      rest: Result<(seq<Bytes>, nat), ParserError>) {
    match rest
    case Ok((fields, end)) => all == Ok((done + fields, end))
    case Err(e) => all == Err(e)
  }

  lemma {:induction false} ContinuesStep(all: Result<(seq<Bytes>, nat), ParserError>, done: seq<Bytes>, input: Bytes,
      off: nat, n: nat)
    requires n > 0 && Continues(all, done, ReadFields(input, off, n)) && ReadField(input, off).Ok?
    ensures var (field, next) := ReadField(input, off).value;
            Continues(all, done + [field], ReadFields(input, next, n - 1))
  {
    var (field, next) := ReadField(input, off).value;
    if ReadFields(input, next, n - 1).Ok? {
      var rest := ReadFields(input, next, n - 1).value.0;
      assert done + ([field] + rest) == done + [field] + rest;
    }
  }

  /** Reads and checks a request. */
  method ParseRequest(input: Bytes) returns (r: Result<(nat, Fields), ParserError>)
    ensures r == ReadRequest(input)
  {
    hide ReadFields, FieldsInRange, FieldsAllowed;
    var rd := new Reader(input);
    var first := rd.Byte();
    if first.Err? {
      return Err(first.error);
    }
    var txType := first.value;
    if txType != TRANSFER && txType != TRANSFER_CREATE && txType != TRANSFER_CROSSCHAIN {
      return Err(UnexpectedValue);
    }
    var f := new Bytes[FIELDS](_ => []);
    assert f[..] == seq(FIELDS, i => []);
    var fields := ReadInto(rd, f);
    if fields.Fail? {
      return Err(fields.error);
    }
    if rd.off != |input| {
      return Err(UnexpectedUnparsedBytes);
    }
    var checked := Check(f[..], txType);
    r := if checked.Fail? then Err(checked.error) else Ok((txType, f[..]));
  }

  /** Parses a request and writes its template into `out`; the template's length. */
  method BuildInto(input: Bytes, address: Option<Bytes>, out: array<char>) returns (r: Result<nat, ParserError>)
    requires out.Length == TEMPLATE_BUF
    modifies out
    ensures Written(r, out[..], TransferSpec.Build(input, address))
  {
    hide ReadRequest, Format;
    var request := ParseRequest(input);
    if request.Err? {
      return Err(request.error);
    }
    if address.None? {
      return Err(UnexpectedError);
    }
    var (txType, f) := request.value;
    var addr := new char[2 * |address.value|];
    HexInto(address.value, addr);
    r := FormatInto(f, txType, addr[..], out);
  }

  /** The lengths, then the contents, of the fields. */
  method Check(f: Fields, txType: nat) returns (r: Outcome<ParserError>)
    ensures r == if !FieldsInRange(f) then Fail(ValueOutOfRange)
                 else if !FieldsAllowed(f, txType) then Fail(UnexpectedCharacters) else Pass
  {
    hide FieldAllowed;
    if |f[RECIPIENT]| != 64 {
      return Fail(ValueOutOfRange);
    }
    for i := 1 to |f|
      invariant forall k | 1 <= k < i :: |f[k]| <= MaxLen(k)
    {
      if |f[i]| > MaxLen(i) {
        return Fail(ValueOutOfRange);
      }
    }
    for i := 0 to |f|
      invariant forall k | 0 <= k < i :: FieldAllowed(k, f[k], txType)
    {
      if !FieldAllowed(i, f[i], txType) {
        return Fail(UnexpectedCharacters);
      }
    }
    r := Pass;
  }

  lemma {:induction false} JoinNext(ps: seq<Bytes>, n: nat)
    requires n < |ps|
    ensures Join(ps[..n + 1], []) == Join(ps[..n], []) + ps[n]
    ensures |Join(ps[..n + 1], [])| <= |Join(ps, [])|
  {
    assert ps[..n + 1] == ps[..n] + [ps[n]];
    T.JoinAppend(ps[..n], [ps[n]], []);
    T.Join1(ps[n], []);
    T.JoinCat(ps[..n], Join([ps[n]], []));
    assert ps == ps[..n + 1] + ps[n + 1..];
    T.JoinAppend(ps[..n + 1], ps[n + 1..], []);
    T.JoinCat(ps[..n + 1], Join(ps[n + 1..], []));
  }
}
