/**
 The template as a syntax tree: what the printed pieces say is one JSON object
 that the tokenizer accepts, whatever the fields hold.
 */
module Template {
  import opened Base
  import opened Syntax
  import opened TransferSpec

  function Cons<T>(x: T, xs: seq<T>): seq<T> { [x] + xs }

  function M(key: Bytes, v: Value): Member { Member([], key, [], [], v, []) }

  function E(v: Value): Elem { Elem([], v, []) }

  // ---- The tree --------------------------------------------------------------------------------

  /** `k:` and a key: the account the key controls. */
  function Account(key: Bytes): Bytes { Cat("k:", key) }

  function ModuleName(f: Fields): Bytes {
    if UsesNamespace(f) then Cat(f[NAMESPACE], Cat(".", f[MODULE])) else "coin"
  }

  function CapabilityName(f: Fields, txType: nat): Bytes {
    Cat(ModuleName(f), if txType == TRANSFER_CROSSCHAIN then ".TRANSFER_XCHAIN" else ".TRANSFER")
  }

  function CodePieces(f: Fields, txType: nat, addr: Bytes): seq<Bytes> {
    Cons("(", NsMod(f)) + Cons(CallName(txType), ArgumentPieces(f, txType, addr)) + [")"]
  }

  /** The Pact code, as it stands inside its JSON string. */
  function Code(f: Fields, txType: nat, addr: Bytes): Bytes { Join(CodePieces(f, txType, addr), []) }

  function DataTree(f: Fields, txType: nat): Value {
    if txType == TRANSFER then Obj([], [])
    else Obj([], [M("ks", Obj([], Cons(M("pred", Str("keys-all")), [M("keys", Arr([], [E(Str(f[RECIPIENT]))]))])))])
  }

  function ExecTree(f: Fields, txType: nat, addr: Bytes): Value {
    Obj([], Cons(M("data", DataTree(f, txType)), [M("code", Str(Code(f, txType, addr)))]))
  }

  function ArgsTree(f: Fields, txType: nat, addr: Bytes): Value {
    Arr([], Cons(E(Str(Account(addr))), Cons(E(Str(Account(f[RECIPIENT]))), Cons(E(Prim(f[AMOUNT])),
      if txType == TRANSFER_CROSSCHAIN then [E(Str(f[RECIPIENT_CHAIN]))] else []))))
  }

  function CapTree(args: Value, name: Bytes): Value {
    Obj([], Cons(M("args", args), [M("name", Str(name))]))
  }

  function ClistTree(f: Fields, txType: nat, addr: Bytes): Value {
    Arr([], Cons(E(CapTree(ArgsTree(f, txType, addr), CapabilityName(f, txType))),
      [E(CapTree(Arr([], []), "coin.GAS"))]))
  }

  function SignerTree(f: Fields, txType: nat, addr: Bytes): Value {
    Obj([], Cons(M("pubKey", Str(addr)), [M("clist", ClistTree(f, txType, addr))]))
  }

  function MetaTree(f: Fields, addr: Bytes): Value {
    Obj([], Cons(M("creationTime", Prim(f[CREATION_TIME])),
      Cons(M("ttl", Prim(f[TTL])), Cons(M("gasLimit", Prim(f[GAS_LIMIT])),
      Cons(M("chainId", Str(f[CHAIN_ID])), Cons(M("gasPrice", Prim(f[GAS_PRICE])),
        [M("sender", Str(Account(addr)))]))))))
  }

  function Tree(f: Fields, txType: nat, addr: Bytes): Value {
    Obj([], Cons(M("networkId", Str(f[NETWORK])), Cons(M("payload", Obj([], [M("exec", ExecTree(f, txType, addr))])),
      Cons(M("signers", Arr([], [E(SignerTree(f, txType, addr))])), Cons(M("meta", MetaTree(f, addr)),
      [M("nonce", Str(f[NONCE]))])))))
  }

  // ---- Printing without blanks -----------------------------------------------------------------

  function Key(key: Bytes, rest: Bytes): Bytes { Quoted(key, Cat(":", rest)) }

  lemma {:induction false} CatNil(s: Bytes)
    ensures Cat([], s) == s && Cat(s, []) == s
  {
  }

  lemma {:induction false} CatCat(a: Bytes, b: Bytes, c: Bytes)
    ensures Cat(Cat(a, b), c) == Cat(a, Cat(b, c))
  {
  }

  lemma {:induction false} PrintCons(key: Bytes, v: Value, ms: seq<Member>, rest: Bytes)
    requires ms != []
    ensures PrintMembers(Cons(M(key, v), ms), rest) == Key(key, Print(v, Cat(",", PrintMembers(ms, rest))))
  {
    hide Print, Cat, Quoted;
    var all := Cons(M(key, v), ms);
    assert all[1..] == ms;
    CatNil(PrintMoreMembers(all, rest));
    CompactKey(key, v, Print(v, PrintMoreMembers(all, rest)));
  }

  lemma {:induction false} PrintLast(key: Bytes, v: Value, rest: Bytes)
    ensures PrintMembers([M(key, v)], rest) == Key(key, Print(v, Cat("}", rest)))
  {
    hide Print, Cat, Quoted;
    CatNil(PrintMoreMembers([M(key, v)], rest));
    CompactKey(key, v, Print(v, Cat("}", rest)));
  }

  lemma {:induction false} CompactKey(key: Bytes, v: Value, rest: Bytes)
    ensures PrintKey(M(key, v), rest) == Key(key, rest)
  {
    hide Cat, Quoted;
    CatNil(rest);
    CatNil(Cat(":", rest));
    CatNil(Quoted(key, Cat(":", rest)));
  }

  lemma {:induction false} PrintElemCons(v: Value, es: seq<Elem>, rest: Bytes)
    requires es != []
    ensures PrintElems(Cons(E(v), es), rest) == Print(v, Cat(",", PrintElems(es, rest)))
  {
    hide Print, Cat, Quoted;
    var all := Cons(E(v), es);
    assert all[1..] == es;
    CatNil(PrintMoreElems(all, rest));
    CatNil(Print(v, PrintMoreElems(all, rest)));
  }

  lemma {:induction false} PrintElemLast(v: Value, rest: Bytes)
    ensures PrintElems([E(v)], rest) == Print(v, Cat("]", rest))
  {
    hide Print, Cat, Quoted;
    CatNil(PrintMoreElems([E(v)], rest));
    CatNil(Print(v, Cat("]", rest)));
  }

  lemma {:induction false} JoinAppend(a: seq<Bytes>, b: seq<Bytes>, rest: Bytes)
    ensures Join(a + b, rest) == Join(a, Join(b, rest))
  {
    if a == [] {
      assert a + b == b;
    } else {
      assert (a + b)[1..] == a[1..] + b;
      JoinAppend(a[1..], b, rest);
    }
  }

  lemma {:induction false} JoinCat(ps: seq<Bytes>, rest: Bytes)
    ensures Cat(Join(ps, []), rest) == Join(ps, rest)
  {
    hide Cat;
    if ps == [] {
      CatNil(rest);
    } else {
      JoinCat(ps[1..], rest);
      CatCat(ps[0], Join(ps[1..], []), rest);
    }
  }

  lemma {:induction false} Join1(a: Bytes, x: Bytes)
    ensures Join([a], x) == Cat(a, x)
  {
    hide Cat;
    assert [a][1..] == [];
  }

  lemma {:induction false} Join2(a: Bytes, b: Bytes, x: Bytes)
    ensures Join([a, b], x) == Cat(a, Cat(b, x))
  {
    hide Cat;
    Join1(b, x);
    assert [a, b][1..] == [b];
  }

  lemma {:induction false} Join3(a: Bytes, b: Bytes, c: Bytes, x: Bytes)
    ensures Join([a, b, c], x) == Cat(a, Cat(b, Cat(c, x)))
  {
    hide Cat;
    Join2(b, c, x);
    assert [a, b, c][1..] == [b, c];
  }

  lemma {:induction false} Join5(a: Bytes, b: Bytes, c: Bytes, d: Bytes, e: Bytes, x: Bytes)
    ensures Join([a, b, c, d, e], x) == Cat(a, Cat(b, Cat(c, Cat(d, Cat(e, x)))))
  {
    hide Cat;
    Join3(c, d, e, x);
    Join2(a, b, Join([c, d, e], x));
    JoinAppend([a, b], [c, d, e], x);
    assert [a, b, c, d, e] == [a, b] + [c, d, e];
  }

  // ---- The literal pieces, cut at the JSON tokens ----------------------------------------------

  lemma {:induction false} Cut(a: Bytes, b: Bytes, text: Bytes, x: Bytes)
    requires text == a + b
    ensures Cat(text, x) == Cat(a, Cat(b, x))
  {
  }

  lemma {:induction false} Cut2(a: char, b: char, x: Bytes)
    ensures Cat([a, b], x) == Cat([a], Cat([b], x))
  {
  }

  lemma {:induction false} Cut3(a: char, b: char, c: char, x: Bytes)
    ensures Cat([a, b, c], x) == Cat([a], Cat([b], Cat([c], x)))
  {
  }

  lemma {:induction false} KeyText(a: Bytes, key: Bytes, b: Bytes, text: Bytes, x: Bytes)
    requires text == a + "\"" + key + "\":" + b
    ensures Cat(text, x) == Cat(a, Key(key, Cat(b, x)))
  {
  }

  lemma {:induction false} KeysText(a: Bytes, key: Bytes, b: Bytes, key2: Bytes, c: Bytes, text: Bytes, x: Bytes)
    requires text == a + "\"" + key + "\":" + b + "\"" + key2 + "\":" + c
    ensures Cat(text, x) == Cat(a, Key(key, Cat(b, Key(key2, Cat(c, x)))))
  {
    KeyText(b, key2, c, b + "\"" + key2 + "\":" + c, x);
    KeyText(a, key, b + "\"" + key2 + "\":" + c, text, x);
  }

  lemma {:induction false} PayloadText(x: Bytes)
    ensures Cat("\",\"payload\":{\"exec\":{\"data\":", x) ==
            Cat("\"", Cat(",", Key("payload", Cat("{", Key("exec", Cat("{", Key("data", x)))))))
  {
    hide Key, Cat;
    KeysText("\",", "payload", "{", "exec", "{\"data\":", "\",\"payload\":{\"exec\":{\"data\":", x);
    KeyText("{", "data", "", "{\"data\":", x);
    CatNil(x);
    Cut2('"', ',', Key("payload", Cat("{", Key("exec", Cat("{", Key("data", x))))));
  }

  lemma {:induction false} HeadText(f: Fields, x: Bytes)
    ensures Join(HeadPieces(f), x) ==
            Cat("{", Key("networkId", Quoted(f[NETWORK],
              Cat(",", Key("payload", Cat("{", Key("exec", Cat("{", Key("data", x)))))))))
  {
    hide Key, Cat;
    var tail := Cat("\",\"payload\":{\"exec\":{\"data\":", x);
    Join3("{\"networkId\":\"", f[NETWORK], "\",\"payload\":{\"exec\":{\"data\":", x);
    KeyText("{", "networkId", "\"", "{\"networkId\":\"", Cat(f[NETWORK], tail));
    PayloadText(x);
  }

  lemma {:induction false} KeysetText(x: Bytes)
    ensures Cat("{\"ks\":{\"pred\":\"keys-all\",\"keys\":[\"", x) ==
            Cat("{", Key("ks", Cat("{", Key("pred", Quoted("keys-all",
              Cat(",", Key("keys", Cat("[", Cat("\"", x)))))))))
  {
    hide Key, Cat;
    Cut("{\"ks\":{\"pred\":", "\"keys-all\",\"keys\":[\"", "{\"ks\":{\"pred\":\"keys-all\",\"keys\":[\"", x);
    var y := Cat("\"keys-all\",\"keys\":[\"", x);
    KeysText("{", "ks", "{", "pred", "", "{\"ks\":{\"pred\":", y);
    CatNil(y);
    KeyText("\"keys-all\",", "keys", "[\"", "\"keys-all\",\"keys\":[\"", x);
    Cut2('[', '"', x);
    PredText(Key("keys", Cat("[", Cat("\"", x))));
  }

  lemma {:induction false} PredText(x: Bytes)
    ensures Cat("\"keys-all\",", x) == Quoted("keys-all", Cat(",", x))
  {
  }

  /** The `data` member is the printed data tree. */
  lemma {:induction false} DataText(f: Fields, txType: nat, x: Bytes)
    ensures Join(DataPieces(f, txType), x) == Print(DataTree(f, txType), x)
  {
    hide Key, Cat;
    if txType == TRANSFER {
      Join1("{}", x);
      Cut2('{', '}', x);
      CatNil(Cat("}", x));
    } else {
      var tail := Cat("\"]}}", x);
      Join3("{\"ks\":{\"pred\":\"keys-all\",\"keys\":[\"", f[RECIPIENT], "\"]}}", x);
      KeysetText(Cat(f[RECIPIENT], tail));
      Cut2('"', ']', Cat("}}", x));
      Cut("\"]", "}}", "\"]}}", x);
      Cut2('}', '}', x);
      KeysetTree(f, x);
    }
  }

  lemma {:induction false} KeysetTree(f: Fields, x: Bytes)
    ensures Print(DataTree(f, TRANSFER_CREATE), x) ==
            Cat("{", Key("ks", Cat("{", Key("pred", Quoted("keys-all",
              Cat(",", Key("keys", Cat("[", Quoted(f[RECIPIENT],
              Cat("]", Cat("}", Cat("}", x))))))))))))
  {
    hide Key, Cat, PrintMembers, PrintElems;
    var keys := Arr([], [E(Str(f[RECIPIENT]))]);
    var ks := Obj([], Cons(M("pred", Str("keys-all")), [M("keys", keys)]));
    var y := Cat("}", x);
    PrintLast("ks", ks, x);
    PrintCons("pred", Str("keys-all"), [M("keys", keys)], y);
    PrintLast("keys", keys, y);
    PrintElemLast(Str(f[RECIPIENT]), Cat("}", y));
  }

  /** The code member, up to what follows its closing quote. */
  lemma {:induction false} CodeText(f: Fields, txType: nat, addr: Bytes, x: Bytes)
    ensures Join(CallPieces(f, txType) + ArgumentPieces(f, txType, addr), Cat(")", Cat("\"", x))) ==
            Cat(",", Key("code", Quoted(Code(f, txType, addr), x)))
  {
    hide Key, Cat, ArgumentPieces, NsMod, CallName;
    var args := ArgumentPieces(f, txType, addr);
    var body := NsMod(f) + [CallName(txType)] + args;
    var close := Cat(")", Cat("\"", x));
    assert CallPieces(f, txType) + args == [",\"code\":\"("] + body;
    JoinAppend([",\"code\":\"("], body, close);
    Join1(",\"code\":\"(", Join(body, close));
    KeyText(",", "code", "\"(", ",\"code\":\"(", Join(body, close));
    Cut2('"', '(', Join(body, close));
    assert CodePieces(f, txType, addr) == ["("] + body + [")"];
    JoinAppend(["("] + body, [")"], Cat("\"", x));
    JoinAppend(["("], body, Join([")"], Cat("\"", x)));
    Join1("(", Join(body, close));
    Join1(")", Cat("\"", x));
    JoinCat(CodePieces(f, txType, addr), Cat("\"", x));
  }

  lemma {:induction false} SignersText(x: Bytes)
    ensures Cat(")\"}},\"signers\":[{\"pubKey\":\"", x) ==
            Cat(")", Cat("\"", Cat("}", Cat("}", Cat(",",
              Key("signers", Cat("[", Cat("{", Key("pubKey", Cat("\"", x))))))))))
  {
    hide Key, Cat;
    KeysText(")\"}},", "signers", "[{", "pubKey", "\"", ")\"}},\"signers\":[{\"pubKey\":\"", x);
    Cut2('[', '{', Key("pubKey", Cat("\"", x)));
    var y := Key("signers", Cat("[", Cat("{", Key("pubKey", Cat("\"", x)))));
    Cut(")\"", "}},", ")\"}},", y);
    Cut2(')', '"', Cat("}},", y));
    Cut3('}', '}', ',', y);
  }

  lemma {:induction false} ClistText(x: Bytes)
    ensures Cat("\",\"clist\":[{\"args\":[\"k:", x) ==
            Cat("\"", Cat(",", Key("clist", Cat("[", Cat("{", Key("args", Cat("[", Cat("\"", Cat("k:", x)))))))))
  {
    hide Key, Cat;
    KeysText("\",", "clist", "[{", "args", "[\"k:", "\",\"clist\":[{\"args\":[\"k:", x);
    Cut("[\"", "k:", "[\"k:", x);
    Cut2('[', '"', Cat("k:", x));
    Cut2('[', '{', Key("args", Cat("[", Cat("\"", Cat("k:", x)))));
    Cut2('"', ',', Key("clist", Cat("[", Cat("{", Key("args", Cat("[", Cat("\"", Cat("k:", x))))))));
  }

  lemma {:induction false} AccountText(key: Bytes, x: Bytes)
    ensures Cat("\"", Cat("k:", Cat(key, Cat("\"", x)))) == Quoted(Account(key), x)
  {
    hide Cat;
    CatCat("k:", key, Cat("\"", x));
  }

  lemma {:induction false} SecondAccountText(x: Bytes)
    ensures Cat("\",\"k:", x) == Cat("\"", Cat(",", Cat("\"", Cat("k:", x))))
  {
  }

  lemma {:induction false} NameText(x: Bytes)
    ensures Cat("],\"name\":\"", x) == Cat("]", Cat(",", Key("name", Cat("\"", x))))
  {
    hide Key, Cat;
    KeyText("],", "name", "\"", "],\"name\":\"", x);
    Cut2(']', ',', Key("name", Cat("\"", x)));
  }

  /** The capability name, from its pieces. */
  lemma {:induction false} CapabilityText(f: Fields, txType: nat, x: Bytes)
    ensures Join(NsMod(f) + [".TRANSFER"] + (if txType == TRANSFER_CROSSCHAIN then ["_XCHAIN"] else []), x) ==
            Cat(CapabilityName(f, txType), x)
  {
    hide Key, Cat;
    var last := if txType == TRANSFER_CROSSCHAIN then ["_XCHAIN"] else [];
    var suffix := if txType == TRANSFER_CROSSCHAIN then ".TRANSFER_XCHAIN" else ".TRANSFER";
    JoinAppend(NsMod(f) + [".TRANSFER"], last, x);
    JoinAppend(NsMod(f), [".TRANSFER"], Join(last, x));
    Join1(".TRANSFER", Join(last, x));
    if txType == TRANSFER_CROSSCHAIN {
      Join1("_XCHAIN", x);
      Cut(".TRANSFER", "_XCHAIN", ".TRANSFER_XCHAIN", x);
    }
    if UsesNamespace(f) {
      Join3(f[NAMESPACE], ".", f[MODULE], Cat(suffix, x));
      CatCat(f[NAMESPACE], Cat(".", f[MODULE]), Cat(suffix, x));
      CatCat(".", f[MODULE], Cat(suffix, x));
    } else {
      Join1("coin", Cat(suffix, x));
    }
    CatCat(ModuleName(f), suffix, x);
  }

  lemma {:induction false} ArgsTreeText(f: Fields, txType: nat, addr: Bytes, x: Bytes)
    ensures Print(ArgsTree(f, txType, addr), x) ==
            Cat("[", Quoted(Account(addr), Cat(",", Quoted(Account(f[RECIPIENT]), Cat(",", Cat(f[AMOUNT],
              if txType == TRANSFER_CROSSCHAIN then Cat(",", Quoted(f[RECIPIENT_CHAIN], Cat("]", x)))
              else Cat("]", x)))))))
  {
    hide Cat, PrintElems, Account;
    var more := if txType == TRANSFER_CROSSCHAIN then [E(Str(f[RECIPIENT_CHAIN]))] else [];
    var es := Cons(E(Prim(f[AMOUNT])), more);
    PrintElemCons(Str(Account(addr)), Cons(E(Str(Account(f[RECIPIENT]))), es), x);
    PrintElemCons(Str(Account(f[RECIPIENT])), es, x);
    if txType == TRANSFER_CROSSCHAIN {
      PrintElemCons(Prim(f[AMOUNT]), more, x);
      PrintElemLast(Str(f[RECIPIENT_CHAIN]), x);
    } else {
      assert es == [E(Prim(f[AMOUNT]))];
      PrintElemLast(Prim(f[AMOUNT]), x);
    }
  }

  lemma {:induction false} CapTreeText(args: Value, name: Bytes, x: Bytes)
    ensures Print(CapTree(args, name), x) ==
            Cat("{", Key("args", Print(args, Cat(",", Key("name", Quoted(name, Cat("}", x)))))))
  {
    hide Cat, PrintMembers, Key;
    PrintCons("args", args, [M("name", Str(name))], x);
    PrintLast("name", Str(name), x);
  }

  lemma {:induction false} GasCapText(x: Bytes)
    ensures Print(CapTree(Arr([], []), "coin.GAS"), x) ==
            Cat("{", Key("args", Cat("[", Cat("]", Cat(",", Key("name", Quoted("coin.GAS", Cat("}", x))))))))
  {
    hide Cat, Key, Quoted;
    CapTreeText(Arr([], []), "coin.GAS", x);
    CatNil(Cat("]", Cat(",", Key("name", Quoted("coin.GAS", Cat("}", x))))));
  }

  lemma {:induction false} SignerTreeText(f: Fields, txType: nat, addr: Bytes, x: Bytes)
    ensures Print(SignerTree(f, txType, addr), x) ==
            Cat("{", Key("pubKey", Quoted(addr, Cat(",", Key("clist", Cat("[",
              Print(CapTree(ArgsTree(f, txType, addr), CapabilityName(f, txType)),
                Cat(",", Print(CapTree(Arr([], []), "coin.GAS"), Cat("]", Cat("}", x)))))))))))
  {
    hide Cat, PrintMembers, PrintElems, Key, CapTree, ArgsTree, CapabilityName;
    PrintCons("pubKey", Str(addr), [M("clist", ClistTree(f, txType, addr))], x);
    PrintLast("clist", ClistTree(f, txType, addr), x);
    PrintElemCons(CapTree(ArgsTree(f, txType, addr), CapabilityName(f, txType)),
      [E(CapTree(Arr([], []), "coin.GAS"))], Cat("}", x));
    PrintElemLast(CapTree(Arr([], []), "coin.GAS"), Cat("}", x));
  }

  /** From the end of the code to the end of the transfer capability. */
  lemma {:induction false} TransferCapText(f: Fields, txType: nat, addr: Bytes, x: Bytes)
    ensures Join(SignerPieces(f, txType, addr) + NamePieces(f, txType), Cat("\"", Cat("}", x))) ==
            Cat(")", Cat("\"", Cat("}", Cat("}", Cat(",",
              Key("signers", Cat("[", Cat("{", Key("pubKey", Quoted(addr, Cat(",",
              Key("clist", Cat("[", Print(CapTree(ArgsTree(f, txType, addr), CapabilityName(f, txType)), x))))))))))))))
  {
    hide Cat, Key, CapTree, ArgsTree, CapabilityName, NsMod, Account, Print;
    var name := NsMod(f) + [".TRANSFER"] + (if txType == TRANSFER_CROSSCHAIN then ["_XCHAIN"] else []);
    var cross := if txType == TRANSFER_CROSSCHAIN then [",\"", f[RECIPIENT_CHAIN], "\""] else [];
    var close := Cat("\"", Cat("}", x));
    var key := Cat(",", Key("name", Quoted(CapabilityName(f, txType), Cat("}", x))));
    var first := [")\"}},\"signers\":[{\"pubKey\":\"", addr, "\",\"clist\":[{\"args\":[\"k:", addr, "\",\"k:"];
    var second := [f[RECIPIENT], "\",", f[AMOUNT]];
    var args := Cat(f[AMOUNT], Join(cross, Cat("]", key)));
    assert SignerPieces(f, txType, addr) + NamePieces(f, txType) == first + second + cross + ["],\"name\":\""] + name;
    JoinAppend(first + second + cross + ["],\"name\":\""], name, close);
    JoinAppend(first + second + cross, ["],\"name\":\""], Join(name, close));
    JoinAppend(first + second, cross, Join(["],\"name\":\""], Join(name, close)));
    JoinAppend(first, second, Join(cross, Join(["],\"name\":\""], Join(name, close))));
    CapabilityText(f, txType, close);
    Join1("],\"name\":\"", Join(name, close));
    NameText(Join(name, close));
    Join3(f[RECIPIENT], "\",", f[AMOUNT], Join(cross, Cat("]", key)));
    Cut2('"', ',', args);
    CapTreeText(ArgsTree(f, txType, addr), CapabilityName(f, txType), x);
    ArgsTreeText(f, txType, addr, key);
    CrossText(f, txType, Cat("]", key));
    AccountText(f[RECIPIENT], Cat(",", args));
    AccountText(addr, Cat(",", Quoted(Account(f[RECIPIENT]), Cat(",", args))));
    var tail := Cat(f[RECIPIENT], Cat("\"", Cat(",", args)));
    Join5(")\"}},\"signers\":[{\"pubKey\":\"", addr, "\",\"clist\":[{\"args\":[\"k:", addr, "\",\"k:", tail);
    SecondAccountText(tail);
    ClistText(Cat(addr, Cat("\",\"k:", tail)));
    SignersText(Cat(addr, Cat("\",\"clist\":[{\"args\":[\"k:", Cat(addr, Cat("\",\"k:", tail)))));
  }

  lemma {:induction false} CrossText(f: Fields, txType: nat, x: Bytes)
    ensures Join(if txType == TRANSFER_CROSSCHAIN then [",\"", f[RECIPIENT_CHAIN], "\""] else [], x) ==
            if txType == TRANSFER_CROSSCHAIN then Cat(",", Quoted(f[RECIPIENT_CHAIN], x)) else x
  {
    hide Cat;
    if txType == TRANSFER_CROSSCHAIN {
      Join3(",\"", f[RECIPIENT_CHAIN], "\"", x);
      Cut2(',', '"', Cat(f[RECIPIENT_CHAIN], Cat("\"", x)));
    }
  }

  /** The gas capability and the start of `meta`. */
  lemma {:induction false} GasText(x: Bytes)
    ensures Cat(GasCapability(), x) ==
            Cat("\"", Cat("}", Cat(",", Print(CapTree(Arr([], []), "coin.GAS"), Cat("]", Cat("}", Cat("]", Cat(",",
              Key("meta", Cat("{", Key("creationTime", x)))))))))))
  {
    hide Cat, Key, CapTree, Print, GasCapability;
    var y := Cat("\"coin.GAS\"}]}],\"meta\":{\"creationTime\":", x);
    var z := Cat("]", Cat("}", Cat("]", Cat(",", Key("meta", Cat("{", Key("creationTime", x)))))));
    CutGas(x);
    KeysText("\"},{", "args", "[],", "name", "", "\"},{\"args\":[],\"name\":", y);
    CatNil(y);
    Cut3('[', ']', ',', Key("name", y));
    var w := Key("args", Cat("[", Cat("]", Cat(",", Key("name", y)))));
    Cut("\"}", ",{", "\"},{", w);
    Cut2('"', '}', Cat(",{", w));
    Cut2(',', '{', w);
    GasMetaText(x);
    GasCapText(z);
  }

  lemma {:induction false} CutGas(x: Bytes)
    ensures Cat(GasCapability(), x) ==
            Cat("\"},{\"args\":[],\"name\":", Cat("\"coin.GAS\"}]}],\"meta\":{\"creationTime\":", x))
  {
    Cut("\"},{\"args\":[],\"name\":", "\"coin.GAS\"}]}],\"meta\":{\"creationTime\":", GasCapability(), x);
  }

  lemma {:induction false} GasMetaText(x: Bytes)
    ensures Cat("\"coin.GAS\"}]}],\"meta\":{\"creationTime\":", x) ==
            Quoted("coin.GAS", Cat("}", Cat("]", Cat("}",
              Cat("]", Cat(",", Key("meta", Cat("{", Key("creationTime", x)))))))))
  {
    hide Cat, Key;
    KeysText("\"coin.GAS\"}]}],", "meta", "{", "creationTime", "", "\"coin.GAS\"}]}],\"meta\":{\"creationTime\":", x);
    CatNil(x);
    GasNameText(Key("meta", Cat("{", Key("creationTime", x))));
  }

  lemma {:induction false} GasNameText(x: Bytes)
    ensures Cat("\"coin.GAS\"}]}],", x) == Quoted("coin.GAS", Cat("}", Cat("]", Cat("}", Cat("]", Cat(",", x))))))
  {
  }

  lemma {:induction false} MetaTreeText(f: Fields, addr: Bytes, x: Bytes)
    ensures Print(MetaTree(f, addr), x) ==
            Cat("{", Key("creationTime", Cat(f[CREATION_TIME],
              Cat(",", Key("ttl", Cat(f[TTL], Cat(",", Key("gasLimit", Cat(f[GAS_LIMIT],
              Cat(",", Key("chainId", Quoted(f[CHAIN_ID], Cat(",", Key("gasPrice", Cat(f[GAS_PRICE],
              Cat(",", Key("sender", Quoted(Account(addr), Cat("}", x)))))))))))))))))))
  {
    hide Cat, Key, Quoted, PrintMembers, Account;
    var sender := [M("sender", Str(Account(addr)))];
    var price := Cons(M("gasPrice", Prim(f[GAS_PRICE])), sender);
    var chain := Cons(M("chainId", Str(f[CHAIN_ID])), price);
    var limit := Cons(M("gasLimit", Prim(f[GAS_LIMIT])), chain);
    var ttl := Cons(M("ttl", Prim(f[TTL])), limit);
    PrintCons("creationTime", Prim(f[CREATION_TIME]), ttl, x);
    PrintCons("ttl", Prim(f[TTL]), limit, x);
    PrintCons("gasLimit", Prim(f[GAS_LIMIT]), chain, x);
    PrintCons("chainId", Str(f[CHAIN_ID]), price, x);
    PrintCons("gasPrice", Prim(f[GAS_PRICE]), sender, x);
    PrintLast("sender", Str(Account(addr)), x);
  }

  function MetaRows(f: Fields, addr: Bytes): seq<Bytes> {
    [",\"chainId\":\"", f[CHAIN_ID]] + ["\",\"gasPrice\":", f[GAS_PRICE]] + [",\"sender\":\"k:", addr]
  }

  lemma {:induction false} MetaRowsText(f: Fields, addr: Bytes, x: Bytes)
    ensures Join(MetaRows(f, addr), Cat("\"", Cat("}", x))) ==
            Cat(",", Key("chainId", Quoted(f[CHAIN_ID], Cat(",", Key("gasPrice", Cat(f[GAS_PRICE],
              Cat(",", Key("sender", Quoted(Account(addr), Cat("}", x))))))))))
  {
    hide Cat, Key, Account;
    AccountText(addr, Cat("}", x));
    var d, e, g := [",\"chainId\":\"", f[CHAIN_ID]], ["\",\"gasPrice\":", f[GAS_PRICE]], [",\"sender\":\"k:", addr];
    var close := Cat("\"", Cat("}", x));
    assert MetaRows(f, addr) == d + (e + g);
    JoinAppend(d, e + g, close);
    JoinAppend(e, g, close);
    Join2(",\"sender\":\"k:", addr, close);
    SenderText(Cat(addr, close));
    var afterPrice := Cat(",", Key("sender", Quoted(Account(addr), Cat("}", x))));
    Join2("\",\"gasPrice\":", f[GAS_PRICE], afterPrice);
    PriceText(Cat(f[GAS_PRICE], afterPrice));
    var afterChain := Cat(",", Key("gasPrice", Cat(f[GAS_PRICE], afterPrice)));
    Join2(",\"chainId\":\"", f[CHAIN_ID], Cat("\"", afterChain));
    KeyText(",", "chainId", "\"", ",\"chainId\":\"", Cat(f[CHAIN_ID], Cat("\"", afterChain)));
  }

  /** The two limits of `meta`, and the rows behind them. */
  lemma {:induction false} LimitsText(f: Fields, rows: seq<Bytes>, close: Bytes)
    ensures Join([",\"ttl\":", f[TTL]] + ([",\"gasLimit\":", f[GAS_LIMIT]] + rows), close) ==
            Cat(",", Key("ttl", Cat(f[TTL], Cat(",", Key("gasLimit", Cat(f[GAS_LIMIT], Join(rows, close)))))))
  {
    hide Cat, Key, Join;
    var b, c := [",\"ttl\":", f[TTL]], [",\"gasLimit\":", f[GAS_LIMIT]];
    JoinAppend(b, c + rows, close);
    JoinAppend(c, rows, close);
    var afterLimit := Join(rows, close);
    Join2(",\"gasLimit\":", f[GAS_LIMIT], afterLimit);
    KeyOnly("gasLimit", ",\"gasLimit\":", Cat(f[GAS_LIMIT], afterLimit));
    var afterTtl := Cat(",", Key("gasLimit", Cat(f[GAS_LIMIT], afterLimit)));
    Join2(",\"ttl\":", f[TTL], afterTtl);
    KeyOnly("ttl", ",\"ttl\":", Cat(f[TTL], afterTtl));
  }

  /** From the end of the transfer capability to the end of `meta`. */
  lemma {:induction false} MetaText(f: Fields, addr: Bytes, x: Bytes)
    ensures Join(MetaPieces(f, addr), Cat("\"", Cat("}", x))) ==
            Cat("\"", Cat("}", Cat(",", Print(CapTree(Arr([], []), "coin.GAS"), Cat("]", Cat("}", Cat("]", Cat(",",
              Key("meta", Print(MetaTree(f, addr), x))))))))))
  {
    hide Cat, Key, CapTree, Print, Account, MetaRows, GasCapability, Join, MetaPieces;
    var gas, rows, close := GasCapability(), MetaRows(f, addr), Cat("\"", Cat("}", x));
    var a, limits := [gas, f[CREATION_TIME]], [",\"ttl\":", f[TTL]] + ([",\"gasLimit\":", f[GAS_LIMIT]] + rows);
    MetaRowsSplit(f, addr);
    JoinAppend(a, limits, close);
    LimitsText(f, rows, close);
    MetaRowsText(f, addr, x);
    var afterTime := Join(limits, close);
    Join2(gas, f[CREATION_TIME], afterTime);
    GasText(Cat(f[CREATION_TIME], afterTime));
    MetaTreeText(f, addr, x);
  }

  lemma {:induction false} MetaRowsSplit(f: Fields, addr: Bytes)
    ensures MetaPieces(f, addr) ==
            [GasCapability(), f[CREATION_TIME]] +
            ([",\"ttl\":", f[TTL]] + ([",\"gasLimit\":", f[GAS_LIMIT]] + MetaRows(f, addr)))
  {
  }

  lemma {:induction false} KeyOnly(key: Bytes, text: Bytes, x: Bytes)
    requires text == ",\"" + key + "\":"
    ensures Cat(text, x) == Cat(",", Key(key, x))
  {
  }

  lemma {:induction false} SenderText(x: Bytes)
    ensures Cat(",\"sender\":\"k:", x) == Cat(",", Key("sender", Cat("\"", Cat("k:", x))))
  {
    hide Cat, Key;
    KeyText(",", "sender", "\"k:", ",\"sender\":\"k:", x);
    Cut("\"", "k:", "\"k:", x);
  }

  lemma {:induction false} PriceText(x: Bytes)
    ensures Cat("\",\"gasPrice\":", x) == Cat("\"", Cat(",", Key("gasPrice", x)))
  {
    hide Cat, Key;
    KeyText("\",", "gasPrice", "", "\",\"gasPrice\":", x);
    CatNil(x);
    Cut2('"', ',', Key("gasPrice", x));
  }

  lemma {:induction false} TailText(f: Fields)
    ensures Join(TailPieces(f), []) == Cat("\"", Cat("}", Cat(",", Key("nonce", Quoted(f[NONCE], Cat("}", []))))))
  {
    hide Cat, Key;
    var end := Cat("\"", Cat("}", []));
    Join3("\"},\"nonce\":\"", f[NONCE], "\"}", []);
    Cut2('"', '}', []);
    KeyText("\"},", "nonce", "\"", "\"},\"nonce\":\"", Cat(f[NONCE], end));
    Cut3('"', '}', ',', Key("nonce", Cat("\"", Cat(f[NONCE], end))));
  }

  lemma {:induction false} TreeText(f: Fields, txType: nat, addr: Bytes, x: Bytes)
    ensures Print(Tree(f, txType, addr), x) ==
            Cat("{", Key("networkId", Quoted(f[NETWORK],
              Cat(",", Key("payload", Cat("{", Key("exec", Print(ExecTree(f, txType, addr),
              Cat("}", Cat(",", Key("signers", Cat("[", Print(SignerTree(f, txType, addr), Cat("]", Cat(",",
              Key("meta", Print(MetaTree(f, addr), Cat(",",
                Key("nonce", Quoted(f[NONCE], Cat("}", x)))))))))))))))))))))
  {
    hide Cat, Key, Quoted, PrintMembers, PrintElems, ExecTree, SignerTree, MetaTree;
    var payload := Obj([], [M("exec", ExecTree(f, txType, addr))]);
    var signers := Arr([], [E(SignerTree(f, txType, addr))]);
    var nonce := [M("nonce", Str(f[NONCE]))];
    var meta := Cons(M("meta", MetaTree(f, addr)), nonce);
    var sigs := Cons(M("signers", signers), meta);
    PrintCons("networkId", Str(f[NETWORK]), Cons(M("payload", payload), sigs), x);
    PrintCons("payload", payload, sigs, x);
    PrintLast("exec", ExecTree(f, txType, addr), Cat(",", PrintMembers(sigs, x)));
    PrintCons("signers", signers, meta, x);
    PrintElemLast(SignerTree(f, txType, addr), Cat(",", PrintMembers(meta, x)));
    PrintCons("meta", MetaTree(f, addr), nonce, x);
    PrintLast("nonce", Str(f[NONCE]), x);
  }

  lemma {:induction false} ExecTreeText(f: Fields, txType: nat, addr: Bytes, x: Bytes)
    ensures Print(ExecTree(f, txType, addr), x) ==
            Cat("{", Key("data", Print(DataTree(f, txType),
              Cat(",", Key("code", Quoted(Code(f, txType, addr), Cat("}", x)))))))
  {
    hide Cat, Key, Quoted, PrintMembers, DataTree, Code;
    PrintCons("data", DataTree(f, txType), [M("code", Str(Code(f, txType, addr)))], x);
    PrintLast("code", Str(Code(f, txType, addr)), x);
  }

  /** The template is the printed tree. */
  lemma {:induction false} PrintsTemplate(f: Fields, txType: nat, addr: Bytes)
    ensures Join(Pieces(f, txType, addr), []) == Print(Tree(f, txType, addr), [])
  {
    hide Cat, Key, Tree, ExecTree, SignerTree, MetaTree, CapTree, ArgsTree, CapabilityName, Code, DataTree, Print,
      HeadPieces, DataPieces, CallPieces, ArgumentPieces, SignerPieces, NamePieces, MetaPieces, TailPieces;
    var head, data, call := HeadPieces(f), DataPieces(f, txType), CallPieces(f, txType) +
      ArgumentPieces(f, txType, addr);
    var cap, meta, tail := SignerPieces(f, txType, addr) + NamePieces(f, txType), MetaPieces(f, addr), TailPieces(f);
    assert Pieces(f, txType, addr) == head + (data + (call + (cap + (meta + tail))));
    JoinAppend(head, data + (call + (cap + (meta + tail))), []);
    JoinAppend(data, call + (cap + (meta + tail)), []);
    JoinAppend(call, cap + (meta + tail), []);
    JoinAppend(cap, meta + tail, []);
    JoinAppend(meta, tail, []);
    TailText(f);
    var nonce := Cat(",", Key("nonce", Quoted(f[NONCE], Cat("}", []))));
    MetaText(f, addr, nonce);
    var rest := Cat("]", Cat(",", Key("meta", Print(MetaTree(f, addr), nonce))));
    var gas := Cat(",", Print(CapTree(Arr([], []), "coin.GAS"), Cat("]", Cat("}", rest))));
    TransferCapText(f, txType, addr, gas);
    SignerTreeText(f, txType, addr, rest);
    var signers := Cat("}", Cat(",", Key("signers", Cat("[", Print(SignerTree(f, txType, addr), rest)))));
    CodeText(f, txType, addr, Cat("}", signers));
    DataText(f, txType, Cat(",", Key("code", Quoted(Code(f, txType, addr), Cat("}", signers)))));
    ExecTreeText(f, txType, addr, signers);
    HeadText(f, Join(data, Cat(",", Key("code", Quoted(Code(f, txType, addr), Cat("}", signers))))));
    TreeText(f, txType, addr, []);
  }
}
