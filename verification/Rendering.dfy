/** The renderers: they write a value into the screen buffer, after checking that all of it fits. */
module Rendering {
  import opened Base
  import opened JsmnSpec
  import opened Json
  import opened ItemSpec
  import opened ItemLookups
  import opened RenderSpec
  import Fee
  import FeeSpec

  /** Every token spans bytes of the document. */
  predicate SaneSpans(j: Json) { forall i | 0 <= i < |j.tokens| :: j.tokens[i].start <= j.tokens[i].end <= |j.buf| }

  lemma {:induction false} SpanLength(j: Json, i: nat)
    requires SaneSpans(j)
    ensures j.Len(i) == |j.Span(i)|
  {
  }

  /** A writer over the screen buffer; what does not fit is dropped. */
  class Writer {
    const out: array<char>
    var n: nat

    ghost predicate Valid()
      reads this
    {
      out.Length == VALUE_BUF && n <= VALUE_BUF
    }

    ghost function Text(): Bytes
      requires Valid()
      reads this, out
    {
      out[..n]
    }

    constructor (out: array<char>)
      requires out.Length == VALUE_BUF
      ensures Valid() && this.out == out && Text() == []
    {
      this.out := out;
      n := 0;
    }

    lemma {:induction false} TextIs()
      requires Valid()
      ensures Text() == out[..n] && |Text()| == n
    {
    }

    method Put(b: Bytes)
      requires Valid()
      modifies this, out
      ensures Valid() && |Text()| <= |old(Text())| + |b|
      ensures |old(Text())| + |b| <= VALUE_BUF ==> Text() == old(Text()) + b
    {
      var end := if n + |b| <= VALUE_BUF then n + |b| else VALUE_BUF;
      forall i | n <= i < end { out[i] := b[i - n]; }
      if n + |b| <= VALUE_BUF { assert out[..end] == old(out[..n]) + b; }
      n := end;
    }

    method PutNumber(v: nat)
      requires Valid()
      modifies this, out
      ensures Valid() && |Text()| <= |old(Text())| + |Decimal(v)|
      ensures |old(Text())| + |Decimal(v)| <= VALUE_BUF ==> Text() == old(Text()) + Decimal(v)
    {
      var digits, rest := [], v;
      assert Decimal(v) + [] == Decimal(v);
      while rest >= 10
        invariant Decimal(v) == Decimal(rest) + digits
      {
        var last := [('0' as int + rest % 10) as char];
        assert Decimal(rest / 10) + last + digits == Decimal(rest / 10) + (last + digits);
        digits := last + digits;
        rest := rest / 10;
      }
      Put([('0' as int + rest) as char] + digits);
    }
  }

  /** The outcome of a renderer that starts on an empty buffer. */
  ghost predicate Wrote(r: Result<nat, ItemsError>, out: Bytes, text: Result<Bytes, ItemsError>) {
    match text
    case Err(e) => r == Err(e)
    case Ok(t) => r == Ok(|t|) && |t| <= |out| && out[..|t|] == t
  }

  /** A value between two fixed texts, if it fits in `room` bytes more than it has. */
  method WriteBetween(out: array<char>, before: Bytes, value: Bytes, after: Bytes) returns (r: Result<nat, ItemsError>)
    requires out.Length == VALUE_BUF
    modifies out
    ensures var text := before + value + after;
            Wrote(r, out[..], if |text| < VALUE_BUF then Ok(text) else Err(DataTooLarge))
  {
    if |before| + |value| + |after| + 1 > VALUE_BUF {
      return Err(DataTooLarge);
    }
    var w := new Writer(out);
    w.Put(before);
    w.Put(value);
    w.Put(after);
    assert [] + before + value + after == before + value + after;
    r := Ok(w.n);
  }

  method WriteText(out: array<char>, text: Bytes) returns (r: Result<nat, ItemsError>)
    requires out.Length == VALUE_BUF && |text| < VALUE_BUF
    modifies out
    ensures Wrote(r, out[..], Ok(text))
  {
    var w := new Writer(out);
    w.Put(text);
    assert [] + text == text;
    r := Ok(w.n);
  }

  /** A token's span between two fixed texts; an empty span is refused. */
  method WriteSpan(j: Json, token: nat, before: Bytes, out: array<char>) returns (r: Result<nat, ItemsError>)
    requires SaneSpans(j) && out.Length == VALUE_BUF
    modifies out
    ensures Wrote(r, out[..], if j.Span(token) == [] then Err(LengthZero)
                              else if |before + j.Span(token)| < VALUE_BUF then Ok(before + j.Span(token))
                              else Err(DataTooLarge))
  {
    SpanLength(j, token);
    if j.Len(token) == 0 {
      return Err(LengthZero);
    }
    assert before + j.Span(token) + [] == before + j.Span(token);
    r := WriteBetween(out, before, j.Span(token), []);
  }

  method WriteRotate(j: Json, item: Item, c: Context, out: array<char>) returns (r: Result<nat, ItemsError>)
    requires SaneSpans(j) && out.Length == VALUE_BUF && item.render == RotateText
    modifies out
    ensures Wrote(r, out[..], Rendered(j, item, c))
  {
    hide JsonData.GetResult, JsonData.Elements, JsonData.Span;
    var args := j.ObjectGetValue(item.token, "args");
    if args.Err? {
      return Err(Failed);
    }
    GetInRange(j, item.token, "args");
    var first := j.ArrayGetNthElement(args.value, 0);
    if first.Err? {
      return Err(Failed);
    }
    r := WriteBetween(out, "\"", j.Span(first.value), "\"");
  }

  method WriteGas(j: Json, item: Item, c: Context, out: array<char>) returns (r: Result<nat, ItemsError>)
    requires SaneSpans(j) && out.Length == VALUE_BUF && item.render == GasText
    modifies out
    ensures Wrote(r, out[..], Rendered(j, item, c))
  {
    hide JsonData.GetResult, JsonData.Span;
    var gl := j.ObjectGetValue(item.token, "gasLimit");
    if gl.Err? {
      return Err(Failed);
    }
    var gp := j.ObjectGetValue(item.token, "gasPrice");
    if gp.Err? {
      return Err(Failed);
    }
    r := WriteBetween(out, "at most " + j.Span(gl.value), " at price ", j.Span(gp.value));
  }

  method WriteMaxFee(j: Json, item: Item, c: Context, out: array<char>) returns (r: Result<nat, ItemsError>)
    requires SaneSpans(j) && out.Length == VALUE_BUF && item.render == MaxFeeText
    modifies out
    ensures Wrote(r, out[..], Rendered(j, item, c))
  {
    hide JsonData.GetResult, JsonData.Span, FeeSpec.Parse, FeeSpec.Product;
    var gl := j.ObjectGetValue(item.token, "gasLimit");
    if gl.Err? {
      return Err(Failed);
    }
    var gp := j.ObjectGetValue(item.token, "gasPrice");
    if gp.Err? {
      return Err(Failed);
    }
    // `KDA ` and one byte that stays unused.
    var room := new char[VALUE_BUF - 5];
    var n := Fee.MaxFeeInto(j.Span(gl.value), j.Span(gp.value), room);
    if n.None? {
      return Err(DataTooLarge);
    }
    var w := new Writer(out);
    w.Put("KDA ");
    w.Put(room[..n.value]);
    assert [] + "KDA " + room[..n.value] == "KDA " + room[..n.value];
    r := Ok(w.n);
  }

  /** A capability's name without its namespace, or the namespace. */
  method WriteName(j: Json, item: Item, c: Context, out: array<char>) returns (r: Result<nat, ItemsError>)
    requires SaneSpans(j) && out.Length == VALUE_BUF && (item.render == CapName || item.render == CapNamespace)
    modifies out
    ensures Wrote(r, out[..], Rendered(j, item, c))
  {
    hide JsonData.GetResult, JsonData.Span, SplitNamespace;
    var name := j.ObjectGetValue(item.token, "name");
    if name.Err? {
      return Err(Failed);
    }
    var (ns, rest) := SplitNamespace(j.Span(name.value));
    var text := rest;
    if item.render == CapNamespace {
      if ns.None? {
        return Err(Failed);
      }
      text := ns.value;
    }
    if text == [] {
      return Err(LengthZero);
    }
    if |text| >= VALUE_BUF {
      return Err(DataTooLarge);
    }
    r := WriteText(out, text);
  }

  /** One argument in full: `arg N: text`. */
  function OneArg(j: Json, args: seq<nat>, n: nat): Bytes
    requires n < |args|
  {
    "arg " + Decimal(n + 1) + ": " + ArgText(j, args[n])
  }

  lemma {:induction false} ArgsTextStep(j: Json, args: seq<nat>, n: nat)
    requires n < |args|
    ensures ArgsText(j, args, n) == OneArg(j, args, n) +
            (if n + 1 == |args| then [] else ", " + ArgsText(j, args, n + 1))
    ensures |args| < 10 ==> |OneArg(j, args, n)| == |j.Span(args[n])| + (if j.Tok(args[n]).kind == String then 9 else 7)
    ensures |ArgsText(j, args, n)| >= |OneArg(j, args, n)| >= 7
  {
    hide JsonData.Span, JsonData.Tok;
  }

  method PutText(w: Writer, text: Bytes, quoted: bool)
    requires w.Valid() && |w.Text()| + |text| + (if quoted then 2 else 0) <= VALUE_BUF
    modifies w, w.out
    ensures w.Valid() && w.Text() == old(w.Text()) + (if quoted then "\"" + text + "\"" else text)
  {
    ghost var was := w.Text();
    if quoted {
      w.Put("\"");
    }
    w.Put(text);
    if quoted {
      w.Put("\"");
      assert was + "\"" + text + "\"" == was + ("\"" + text + "\"");
    }
  }

  method PutLabel(w: Writer, n: nat)
    requires w.Valid() && |w.Text()| + |"arg " + Decimal(n) + ": "| <= VALUE_BUF
    modifies w, w.out
    ensures w.Valid() && w.Text() == old(w.Text()) + ("arg " + Decimal(n) + ": ")
  {
    hide Decimal;
    ghost var was := w.Text();
    w.Put("arg ");
    w.PutNumber(n);
    w.Put(": ");
    assert was + "arg " + Decimal(n) + ": " == was + ("arg " + Decimal(n) + ": ");
  }

  /** The `n`-th argument and `sep`, if they and `spare` bytes more fit. */
  method PutArg(w: Writer, j: Json, args: nat, n: nat, sep: Bytes, spare: nat) returns (ok: bool)
    requires w.Valid() && SaneSpans(j) && args < |j.tokens| && n < |j.Elements(args)| <= 5
    modifies w, w.out
    ensures ok == (|old(w.Text())| + |OneArg(j, j.Elements(args), n)| + |sep| + spare <= VALUE_BUF)
    ensures w.Valid() && (ok ==> w.Text() == old(w.Text()) + (OneArg(j, j.Elements(args), n) + sep))
  {
    hide JsonData.Elements, JsonData.Span, JsonData.Tok, JsonData.Len, Decimal, SaneSpans, ArgsText;
    ghost var was, list := w.Text(), j.Elements(args);
    ArgsTextStep(j, list, n);
    var a := j.ArrayGetNthElement(args, n);
    SpanLength(j, a.value);
    var isStr := j.Tok(a.value).kind == String;
    if w.n + j.Len(a.value) + (if isStr then 9 else 7) + |sep| + spare > VALUE_BUF {
      return false;
    }
    PutLabel(w, n + 1);
    PutText(w, j.Span(a.value), isStr);
    assert w.Text() == was + ("arg " + Decimal(n + 1) + ": ") + ArgText(j, a.value);
    assert was + ("arg " + Decimal(n + 1) + ": ") + ArgText(j, a.value) == was + OneArg(j, list, n);
    w.Put(sep);
    assert was + OneArg(j, list, n) + sep == was + (OneArg(j, list, n) + sep);
    ok := true;
  }

  /** The arguments of a capability the review cannot verify; at most five are ever shown. */
  method RenderUnknown(j: Json, item: Item, c: Context, out: array<char>) returns (r: Result<nat, ItemsError>)
    requires SaneSpans(j) && out.Length == VALUE_BUF && item.render == UnknownText
    requires item.canDisplay && j.GetResult(item.token, "args").Ok? ==>
             |j.Elements(j.GetResult(item.token, "args").value)| <= 5
    modifies out
    ensures Wrote(r, out[..], Rendered(j, item, c))
  {
    hide JsonData.GetResult, JsonData.Elements, ArgsText;
    if !item.canDisplay {
      r := WriteText(out, "args cannot be displayed on Ledger");
      return;
    }
    var args := j.ObjectGetValue(item.token, "args");
    if args.Err? {
      return Err(Failed);
    }
    GetInRange(j, item.token, "args");
    var count := j.ArrayGetElementCount(args.value);
    if count.value == 0 {
      r := WriteText(out, "no args");
      return;
    }
    r := RenderArgs(j, args.value, count.value, out);
  }

  /** `all` is what is written, and then `rest`. */
  ghost predicate Split(all: Bytes, done: Bytes, rest: Bytes) { all == done + rest }

  lemma {:induction false} SplitStart(all: Bytes)
    ensures Split(all, [], all)
  {
    assert [] + all == all;
  }

  lemma {:induction false} SplitArg(j: Json, args: seq<nat>, n: nat, all: Bytes, done: Bytes)
    requires n + 1 < |args| && Split(all, done, ArgsText(j, args, n))
    ensures Split(all, done + (OneArg(j, args, n) + ", "), ArgsText(j, args, n + 1))
    ensures |all| >= |done| + |OneArg(j, args, n)| + 2 + 7
  {
    hide OneArg, ArgsText;
    ArgsTextStep(j, args, n);
    ArgsTextStep(j, args, n + 1);
    var one, rest := OneArg(j, args, n), ArgsText(j, args, n + 1);
    assert done + (one + (", " + rest)) == done + (one + ", ") + rest;
    assert one + (", " + rest) == one + ", " + rest;
  }

  lemma {:induction false} SplitLast(j: Json, args: seq<nat>, n: nat, all: Bytes, done: Bytes)
    requires n + 1 == |args| && Split(all, done, ArgsText(j, args, n))
    ensures all == done + (OneArg(j, args, n) + [])
  {
    hide OneArg, ArgsText;
    ArgsTextStep(j, args, n);
    assert OneArg(j, args, n) + [] == OneArg(j, args, n);
  }

  method RenderArgs(j: Json, args: nat, count: nat, out: array<char>) returns (r: Result<nat, ItemsError>)
    requires SaneSpans(j) && out.Length == VALUE_BUF && args < |j.tokens| && 0 < count == |j.Elements(args)| <= 5
    modifies out
    ensures var text := ArgsText(j, j.Elements(args), 0);
            Wrote(r, out[..], if |text| < VALUE_BUF then Ok(text) else Err(DataTooLarge))
  {
    hide JsonData.Elements, ArgsText, OneArg, SaneSpans, Split, Writer.Text;
    ghost var list := j.Elements(args);
    ghost var all := ArgsText(j, list, 0);
    var w := new Writer(out);
    SplitStart(all);
    for i := 0 to count - 1
      invariant w.Valid() && fresh(w) && w.out == out
      invariant Split(all, w.Text(), ArgsText(j, list, i))
    {
      SplitArg(j, list, i, all, w.Text());
      var ok := PutArg(w, j, args, i, ", ", 0);
      if !ok {
        return Err(DataTooLarge);
      }
    }
    SplitLast(j, list, count - 1, all, w.Text());
    var ok := PutArg(w, j, args, count - 1, [], 1);
    w.TextIs();
    r := if ok then Ok(w.n) else Err(DataTooLarge);
  }

  /** Writes the value of an item. */
  method Render(j: Json, item: Item, c: Context, out: array<char>) returns (r: Result<nat, ItemsError>)
    requires SaneSpans(j) && out.Length == VALUE_BUF && |c.hash| < VALUE_BUF
    requires c.address.Some? ==> |c.address.value| < VALUE_BUF
    requires |Decimal(c.nsigners)| < VALUE_BUF
    requires item.render == UnknownText && item.canDisplay && j.GetResult(item.token, "args").Ok? ==>
               |j.Elements(j.GetResult(item.token, "args").value)| <= 5
    modifies out
    ensures Wrote(r, out[..], Rendered(j, item, c))
  {
    hide JsonData.GetResult, JsonData.Elements, JsonData.Span, SaneSpans, UnknownValue, NameValue, GasTokens, Decimal;
    match item.render
    case NoRender => r := Err(Failed);
    case Std =>
      assert [] + j.Span(item.token) == j.Span(item.token);
      r := WriteSpan(j, item.token, [], out);
    case AmountText => r := WriteSpan(j, item.token, "KDA ", out);
    case RotateText => r := WriteRotate(j, item, c, out);
    case GasText => r := WriteGas(j, item, c, out);
    case MaxFeeText => r := WriteMaxFee(j, item, c, out);
    case CapName => r := WriteName(j, item, c, out);
    case CapNamespace => r := WriteName(j, item, c, out);
    case UnknownText => r := RenderUnknown(j, item, c, out);
    case SignForAddrText =>
      if c.address.None? {
        r := Err(Failed);
      } else {
        r := WriteText(out, c.address.value);
      }
    case SignersText =>
      var w := new Writer(out);
      w.PutNumber(c.nsigners);
      assert [] + Decimal(c.nsigners) == Decimal(c.nsigners);
      r := Ok(w.n);
    case HashText => r := WriteText(out, c.hash);
    case WarningText => r := WriteText(out, WARNING_TEXT);
    case HashWarningText => r := WriteText(out, HASH_WARNING_TEXT);
    case CautionText => r := WriteText(out, CAUTION_TEXT);
    case TxTooLarge => r := WriteText(out, TX_TOO_LARGE_TEXT);
    case SigningText => r := WriteText(out, "Transaction");
    case RequiringText => r := WriteText(out, "Capabilities");
    case TransferText => r := WriteText(out, "Normal Transfer");
    case CrossTransferText => r := WriteText(out, "Cross-chain Transfer");
    case RotateWarning => r := WriteText(out, ROTATE_WARNING_TEXT);
    case NotPrincipal => r := WriteText(out, NOT_PRINCIPAL_TEXT);
    case CapNotVerified => r := WriteText(out, CAP_NOT_VERIFIED_TEXT);
    case ExecText => r := WriteText(out, "exec (code)");
    case ContText => r := WriteText(out, "cont (continuation)");
  }
}
