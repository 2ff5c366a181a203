/**
 The template read back: every request that is accepted gives a text that
 `read_json` accepts, in which the lookups find exactly the fields.
 */
module TemplateReading {
  import opened Base
  import opened Syntax
  import opened TransferSpec
  import opened Template
  import opened Recognition
  import opened Documents
  import opened Integrity
  import Errors
  import L = Lookups
  import J = Json
  import S = JsmnSpec

  // ---- What the allowlist gives ----------------------------------------------------------------

  /** Text that stands in a JSON string as it is. */
  predicate Plain(s: Bytes) { forall c | c in s :: IsPlainText(c) }

  /** Text that stands as a JSON primitive. */
  predicate Numeric(s: Bytes) {
    s != [] && forall c | c in s :: IsDigit(c) || c == '.' || c == 'e' || c == 'E' || c == '+' || c == '-'
  }

  lemma {:induction false} NumericPrim(s: Bytes)
    requires Numeric(s)
    ensures ValidPrim(s)
  {
    assert forall i | 0 <= i < |s| :: s[i] in s;
  }

  lemma {:induction false} DigitsAll(v: Bytes)
    requires AfterDigits(v) == Some([])
    ensures v != [] && Digits(v)
  {
    assert v[..DigitRun(v)] == v;
  }

  lemma {:induction false} DigitsNumeric(v: Bytes)
    requires Digits(v)
    ensures v != [] ==> Numeric(v)
    ensures Plain(v)
  {
  }

  lemma {:induction false} NumericCat(a: Bytes, b: Bytes)
    requires Numeric(a) && (b == [] || Numeric(b))
    ensures Numeric(a + b)
  {
  }

  lemma {:induction false} DecimalNumeric(v: Bytes)
    requires IsDecimal(v)
    ensures Numeric(v)
  {
    var n := DigitRun(v);
    DigitsNumeric(v[..n]);
    assert v == v[..n] + v[n..];
    if v[n..] != [] {
      var frac := v[n + 1..];
      DigitsAll(frac);
      DigitsNumeric(frac);
      assert v[n..] == "." + frac;
      NumericCat(".", frac);
      NumericCat(v[..n], v[n..]);
    }
  }

  lemma {:induction false} JsonNumberNumeric(v: Bytes)
    requires IsJsonNumber(v)
    ensures Numeric(v)
  {
    hide AfterDigits, IsDecimal, Numeric;
    var e := ExponentAt(v);
    if e == |v| {
      DecimalNumeric(v);
    } else {
      ExponentByte(v);
      var exp := v[e + 1..];
      var digits := if exp != [] && (exp[0] == '+' || exp[0] == '-') then exp[1..] else exp;
      DecimalNumeric(v[..e]);
      DigitsAll(digits);
      DigitsNumeric(digits);
      SignNumeric(exp);
      MarkNumeric(v[e]);
      NumericCat([v[e]], exp);
      NumericCat(v[..e], [v[e]] + exp);
      assert v == v[..e] + ([v[e]] + exp);
    }
  }

  lemma {:induction false} MarkNumeric(c: char)
    requires c == 'e' || c == 'E' || c == '+' || c == '-'
    ensures Numeric([c])
  {
  }

  lemma {:induction false} SignNumeric(exp: Bytes)
    requires Numeric(if exp != [] && (exp[0] == '+' || exp[0] == '-') then exp[1..] else exp)
    ensures Numeric(exp)
  {
    if exp != [] && (exp[0] == '+' || exp[0] == '-') {
      assert exp == [exp[0]] + exp[1..];
      NumericCat([exp[0]], exp[1..]);
    }
  }

  lemma {:induction false} ExponentByte(v: Bytes)
    requires ExponentAt(v) < |v|
    ensures v[ExponentAt(v)] == 'e' || v[ExponentAt(v)] == 'E'
  {
    if v[0] != 'e' && v[0] != 'E' { ExponentByte(v[1..]); }
  }

  /** The shape the allowlist leaves each field, for the template. */
  predicate Harmless(f: Fields) {
    Plain(f[RECIPIENT]) && Plain(f[RECIPIENT_CHAIN]) && Plain(f[NETWORK]) && Numeric(f[AMOUNT]) &&
    Plain(f[NAMESPACE]) && Plain(f[MODULE]) && Numeric(f[GAS_PRICE]) && Numeric(f[GAS_LIMIT]) &&
    Numeric(f[CREATION_TIME]) && Plain(f[CHAIN_ID]) && Plain(f[NONCE]) && Numeric(f[TTL])
  }

  lemma {:induction false} PactPlain(c: char)
    requires IsPactIdent(c)
    ensures IsPlainText(c)
  {
  }

  lemma {:induction false} AllowedHarmless(f: Fields, txType: nat)
    requires FieldsAllowed(f, txType)
    ensures Harmless(f)
  {
    hide IsDecimal, IsJsonNumber, AfterDigits, Numeric, IsPactIdent;
    assert FieldAllowed(RECIPIENT, f[RECIPIENT], txType) && FieldAllowed(NETWORK, f[NETWORK], txType);
    assert FieldAllowed(AMOUNT, f[AMOUNT], txType) && FieldAllowed(NONCE, f[NONCE], txType);
    DecimalNumeric(f[AMOUNT]);
    JsonNumberNumeric(f[GAS_PRICE]);
    DecimalNumeric(f[GAS_LIMIT]);
    DecimalNumeric(f[CREATION_TIME]);
    DecimalNumeric(f[TTL]);
    DigitsAll(f[CHAIN_ID]);
    DigitsNumeric(f[CHAIN_ID]);
    ChainPlain(f[RECIPIENT_CHAIN], txType);
    assert FieldAllowed(NAMESPACE, f[NAMESPACE], txType) && FieldAllowed(MODULE, f[MODULE], txType);
    forall c | c in f[NAMESPACE] ensures IsPlainText(c) { PactPlain(c); }
    forall c | c in f[MODULE] ensures IsPlainText(c) { PactPlain(c); }
  }

  lemma {:induction false} ChainPlain(v: Bytes, txType: nat)
    requires FieldAllowed(RECIPIENT_CHAIN, v, txType)
    ensures Plain(v)
  {
    hide AfterDigits;
    if txType == TRANSFER_CROSSCHAIN {
      DigitsAll(v);
      DigitsNumeric(v);
    }
  }

  lemma {:induction false} HexPlain(src: Bytes)
    ensures Plain(HexLower(src)) && forall c | c in HexLower(src) :: IsLowerHex(c)
  {
    hide HexDigit, IsPlainText, IsLowerHex;
    if src != [] {
      HexPlain(src[1..]);
      HexDigitPlain(src[0] as int / 16 % 16);
      HexDigitPlain(src[0] as int % 16);
    }
  }

  lemma {:induction false} HexDigitPlain(n: int)
    requires 0 <= n < 16
    ensures IsLowerHex(HexDigit(n)) && IsPlainText(HexDigit(n))
  {
  }

  // ---- String bodies ---------------------------------------------------------------------------

  lemma {:induction false} BodyCat(a: Bytes, b: Bytes)
    requires ValidBody(a) && ValidBody(b)
    ensures ValidBody(Cat(a, b))
    decreases |a|
  {
    if a == [] {
      assert a + b == b;
    } else {
      var n := UnitLen(a);
      UnitLenCat(a, b);
      BodyCat(a[n..], b);
      assert (a + b)[n..] == a[n..] + b;
    }
  }

  lemma {:induction false} UnitLenCat(a: Bytes, b: Bytes)
    requires a != [] && UnitLen(a) > 0
    ensures UnitLen(a + b) == UnitLen(a)
  {
    if a[0] == '\\' && |a| >= 6 && a[1] == 'u' {
      assert forall i | 2 <= i < 6 :: (a + b)[i] == a[i];
    }
  }

  lemma {:induction false} PlainBody(s: Bytes)
    requires Plain(s)
    ensures ValidBody(s)
  {
    if s != [] {
      assert IsPlainText(s[0]);
      PlainBody(s[1..]);
    }
  }

  lemma {:induction false} EscapedQuote()
    ensures ValidBody("\\\"")
  {
    var s := "\\\"";
    assert UnitLen(s) == 2 && s[2..] == [];
  }

  predicate Bodies(ps: seq<Bytes>) { forall i | 0 <= i < |ps| :: ValidBody(ps[i]) }

  lemma {:induction false} JoinBody(ps: seq<Bytes>)
    requires Bodies(ps)
    ensures ValidBody(Join(ps, []))
  {
    hide Cat;
    if ps != [] {
      JoinBody(ps[1..]);
      BodyCat(ps[0], Join(ps[1..], []));
    }
  }

  lemma {:induction false} AroundQuote(a: Bytes, b: Bytes)
    requires Plain(a) && Plain(b)
    ensures ValidBody(Cat(a, Cat("\\\"", b)))
  {
    hide ValidBody, Plain;
    EscapedQuote();
    PlainBody(a);
    PlainBody(b);
    BodyCat("\\\"", b);
    BodyCat(a, Cat("\\\"", b));
  }

  lemma {:induction false} QuoteLiterals()
    ensures ValidBody(" \\\"k:") && ValidBody(" \\\"") && ValidBody("\\\"") && ValidBody("\\\" \\\"k:")
  {
    hide ValidBody;
    CallNames();
    AroundQuote(" ", "k:");
    AroundQuote(" ", "");
    EscapedQuote();
    assert Cat(" ", Cat("\\\"", "k:")) == " \\\"k:";
    BodyCat("\\\"", " \\\"k:");
    assert Cat(" ", Cat("\\\"", "")) == " \\\"";
    assert Cat("\\\"", " \\\"k:") == "\\\" \\\"k:";
  }

  lemma {:induction false} KeysetLiteral()
    ensures ValidBody(" (read-keyset \\\"ks\\\")")
  {
    hide ValidBody;
    ReadKeysetPlain();
    var a, b := Cat(" (read-keyset ", Cat("\\\"", "ks")), Cat("", Cat("\\\"", ")"));
    AroundQuote(" (read-keyset ", "ks");
    AroundQuote("", ")");
    BodyCat(a, b);
    assert Cat(a, b) == " (read-keyset \\\"ks\\\")";
  }

  lemma {:induction false} ReadKeysetPlain()
    ensures Plain(" (read-keyset ") && Plain("ks") && Plain(")") && Plain("")
  {
  }

  lemma {:induction false} CallNames()
    ensures Plain("(") && Plain(".transfer") && Plain(".transfer-create") && Plain(".transfer-crosschain") &&
            Plain(")") && Plain(" ")
    ensures Plain(".") && Plain("coin") && Plain("k:") && Plain(".TRANSFER") && Plain(".TRANSFER_XCHAIN") &&
            Plain("coin.GAS")
    ensures Plain("keys-all") && Plain("")
  {
  }

  lemma {:induction false} NumericPlain(s: Bytes)
    requires Numeric(s)
    ensures Plain(s)
  {
  }

  lemma {:induction false} CodeBody(f: Fields, txType: nat, addr: Bytes)
    requires Harmless(f) && Plain(addr)
    ensures ValidBody(Code(f, txType, addr))
  {
    hide Plain, ValidBody, Numeric;
    QuoteLiterals();
    KeysetLiteral();
    CallNames();
    NumericPlain(f[AMOUNT]);
    PlainBody(f[AMOUNT]);
    PlainBody(f[RECIPIENT]);
    PlainBody(f[RECIPIENT_CHAIN]);
    PlainBody(f[NAMESPACE]);
    PlainBody(f[MODULE]);
    PlainBody(addr);
    PlainBody("(");
    PlainBody(")");
    PlainBody(" ");
    PlainBody(".");
    PlainBody("coin");
    PlainBody(CallName(txType));
    assert Bodies(NsMod(f));
    assert Bodies(ArgumentPieces(f, txType, addr));
    assert Bodies(CodePieces(f, txType, addr));
    JoinBody(CodePieces(f, txType, addr));
  }

  lemma {:induction false} NamesBody(f: Fields, txType: nat, addr: Bytes)
    requires Harmless(f) && Plain(addr)
    ensures ValidBody(Account(addr)) && ValidBody(Account(f[RECIPIENT])) && ValidBody(CapabilityName(f, txType))
  {
    hide Plain, ValidBody, Numeric;
    CallNames();
    PlainBody("k:");
    PlainBody(addr);
    PlainBody(f[RECIPIENT]);
    PlainBody(f[NAMESPACE]);
    PlainBody(f[MODULE]);
    PlainBody(".");
    PlainBody("coin");
    var suffix := if txType == TRANSFER_CROSSCHAIN then ".TRANSFER_XCHAIN" else ".TRANSFER";
    PlainBody(suffix);
    BodyCat("k:", addr);
    BodyCat("k:", f[RECIPIENT]);
    BodyCat(".", f[MODULE]);
    BodyCat(f[NAMESPACE], Cat(".", f[MODULE]));
    BodyCat(ModuleName(f), suffix);
  }

  // ---- The tree is a valid document with sound keys --------------------------------------------

  predicate GoodMembers(ms: seq<Member>) { ValidMembers(ms) && SoundKeysMembers(ms) }

  predicate GoodElems(es: seq<Elem>) { ValidElems(es) && SoundKeysElems(es) }

  lemma {:induction false} GoodCons(key: Bytes, v: Value, ms: seq<Member>)
    requires Plain(key) && Good(v) && GoodMembers(ms)
    ensures GoodMembers(Cons(M(key, v), ms))
  {
    hide Valid, SoundKeys;
    PlainBody(key);
    assert Cons(M(key, v), ms)[1..] == ms;
  }

  lemma {:induction false} GoodElemCons(v: Value, es: seq<Elem>)
    requires Good(v) && GoodElems(es)
    ensures GoodElems(Cons(E(v), es))
  {
    hide Valid, SoundKeys;
    assert Cons(E(v), es)[1..] == es;
  }

  lemma {:induction false} GoodOne(key: Bytes, v: Value)
    requires Plain(key) && Good(v)
    ensures GoodMembers([M(key, v)])
  {
    hide Valid, SoundKeys;
    GoodCons(key, v, []);
    assert Cons(M(key, v), []) == [M(key, v)];
  }

  lemma {:induction false} GoodElemOne(v: Value)
    requires Good(v)
    ensures GoodElems([E(v)])
  {
    hide Valid, SoundKeys;
    GoodElemCons(v, []);
    assert Cons(E(v), []) == [E(v)];
  }

  lemma {:induction false} GoodObj(ms: seq<Member>)
    requires GoodMembers(ms) && Distinct(Names(ms))
    ensures Good(Obj([], ms))
  {
    hide ValidMembers, SoundKeysMembers;
    var keys := KeyNames(ms);
    NamesAreKeys(ms);
    forall a | 0 <= a < |keys| ensures !J.HasBackslash(keys[a]) {
      assert Plain(keys[a]);
    }
    forall a, b | 0 <= b < a < |keys| ensures keys[b] != keys[a] {}
  }

  lemma {:induction false} GoodArr(es: seq<Elem>)
    requires GoodElems(es)
    ensures Good(Arr([], es))
  {
    hide ValidElems, SoundKeysElems;
  }

  /** The key names, each different from those after it and without escapes. */
  function Names(ms: seq<Member>): seq<Bytes> { if ms == [] then [] else [ms[0].key] + Names(ms[1..]) }

  predicate Distinct(keys: seq<Bytes>) {
    keys == [] || (Plain(keys[0]) && keys[0] !in keys[1..] && Distinct(keys[1..]))
  }

  lemma {:induction false} NamesAreKeys(ms: seq<Member>)
    ensures Names(ms) == KeyNames(ms)
    ensures Distinct(Names(ms)) ==>
              (forall i | 0 <= i < |ms| :: Plain(KeyNames(ms)[i])) &&
              (forall i, k | 0 <= i < k < |ms| :: KeyNames(ms)[i] != KeyNames(ms)[k])
  {
    hide Plain;
    if ms != [] {
      NamesAreKeys(ms[1..]);
      assert forall i | 0 < i < |ms| :: KeyNames(ms)[i] == KeyNames(ms[1..])[i - 1];
      assert Names(ms)[1..] == Names(ms[1..]);
    }
  }

  lemma {:induction false} NamesCons(key: Bytes, v: Value, ms: seq<Member>)
    requires Plain(key) && key !in Names(ms) && Distinct(Names(ms))
    ensures Names(Cons(M(key, v), ms)) == [key] + Names(ms) && Distinct(Names(Cons(M(key, v), ms)))
  {
    hide Plain;
    assert Cons(M(key, v), ms)[1..] == ms;
    assert ([key] + Names(ms))[1..] == Names(ms);
  }

  lemma {:induction false} NamesOne(key: Bytes, v: Value)
    requires Plain(key)
    ensures Names([M(key, v)]) == [key] && Distinct(Names([M(key, v)]))
  {
    hide Plain;
    NamesCons(key, v, []);
    assert Cons(M(key, v), []) == [M(key, v)];
  }

  /** An object of two members. */
  lemma {:induction false} GoodPair(key: Bytes, v: Value, key2: Bytes, w: Value)
    requires Plain(key) && Plain(key2) && key != key2 && Good(v) && Good(w)
    ensures Good(Obj([], Cons(M(key, v), [M(key2, w)])))
  {
    hide Plain, Good, Distinct;
    GoodOne(key2, w);
    GoodCons(key, v, [M(key2, w)]);
    NamesOne(key2, w);
    NamesCons(key, v, [M(key2, w)]);
    GoodObj(Cons(M(key, v), [M(key2, w)]));
  }

  lemma {:induction false} GoodSingle(key: Bytes, v: Value)
    requires Plain(key) && Good(v)
    ensures Good(Obj([], [M(key, v)]))
  {
    hide Plain, Good, Distinct;
    GoodOne(key, v);
    NamesOne(key, v);
    GoodObj([M(key, v)]);
  }

  lemma {:induction false} GoodStr(s: Bytes)
    requires ValidBody(s)
    ensures Good(Str(s))
  {
  }

  lemma {:induction false} GoodPlain(s: Bytes)
    requires Plain(s)
    ensures Good(Str(s))
  {
    PlainBody(s);
  }

  lemma {:induction false} GoodPrim(s: Bytes)
    requires Numeric(s)
    ensures Good(Prim(s))
  {
    NumericPrim(s);
  }

  lemma {:induction false} KeyWords()
    ensures Plain("networkId") && Plain("payload") && Plain("signers") && Plain("meta") && Plain("nonce")
    ensures Plain("exec") && Plain("data") && Plain("code") && Plain("ks") && Plain("pred") && Plain("keys")
    ensures Plain("pubKey") && Plain("clist") && Plain("args") && Plain("name")
  {
  }

  lemma {:induction false} MetaKeyWords()
    ensures Plain("creationTime") && Plain("ttl") && Plain("gasLimit") && Plain("chainId") && Plain("gasPrice") &&
            Plain("sender")
  {
  }

  lemma {:induction false} GoodData(f: Fields, txType: nat)
    requires Harmless(f)
    ensures Good(DataTree(f, txType))
  {
    hide Plain, Good, Numeric;
    KeyWords();
    CallNames();
    if txType == TRANSFER {
      GoodEmpty();
    } else {
      GoodPlain(f[RECIPIENT]);
      GoodPlain("keys-all");
      GoodElemOne(Str(f[RECIPIENT]));
      GoodArr([E(Str(f[RECIPIENT]))]);
      var keys := Arr([], [E(Str(f[RECIPIENT]))]);
      GoodPair("pred", Str("keys-all"), "keys", keys);
      GoodSingle("ks", Obj([], Cons(M("pred", Str("keys-all")), [M("keys", keys)])));
    }
  }

  lemma {:induction false} GoodEmpty()
    ensures Good(Obj([], [])) && Good(Arr([], []))
  {
  }

  lemma {:induction false} GoodArgs(f: Fields, txType: nat, addr: Bytes)
    requires Harmless(f) && Plain(addr)
    ensures Good(ArgsTree(f, txType, addr))
  {
    hide Plain, Good, Numeric, ValidBody, Account, GoodElems;
    NamesBody(f, txType, addr);
    GoodStr(Account(addr));
    GoodStr(Account(f[RECIPIENT]));
    GoodPrim(f[AMOUNT]);
    GoodPlain(f[RECIPIENT_CHAIN]);
    var more := if txType == TRANSFER_CROSSCHAIN then [E(Str(f[RECIPIENT_CHAIN]))] else [];
    if txType == TRANSFER_CROSSCHAIN { GoodElemOne(Str(f[RECIPIENT_CHAIN])); } else { NoElems(); }
    GoodElemCons(Prim(f[AMOUNT]), more);
    GoodElemCons(Str(Account(f[RECIPIENT])), Cons(E(Prim(f[AMOUNT])), more));
    GoodElemCons(Str(Account(addr)), Cons(E(Str(Account(f[RECIPIENT]))), Cons(E(Prim(f[AMOUNT])), more)));
    GoodArr(Cons(E(Str(Account(addr))), Cons(E(Str(Account(f[RECIPIENT]))), Cons(E(Prim(f[AMOUNT])), more))));
  }

  lemma {:induction false} NoElems()
    ensures GoodElems([])
  {
  }

  lemma {:induction false} GoodSigner(f: Fields, txType: nat, addr: Bytes)
    requires Harmless(f) && Plain(addr)
    ensures Good(SignerTree(f, txType, addr))
  {
    hide Plain, Good, Numeric, ValidBody, ArgsTree, GoodElems, CapabilityName;
    KeyWords();
    CallNames();
    NamesBody(f, txType, addr);
    GoodArgs(f, txType, addr);
    GoodStr(CapabilityName(f, txType));
    GoodPair("args", ArgsTree(f, txType, addr), "name", Str(CapabilityName(f, txType)));
    GoodEmpty();
    GoodPlain("coin.GAS");
    GoodPair("args", Arr([], []), "name", Str("coin.GAS"));
    var gas := CapTree(Arr([], []), "coin.GAS");
    var cap := CapTree(ArgsTree(f, txType, addr), CapabilityName(f, txType));
    GoodElemOne(gas);
    GoodElemCons(cap, [E(gas)]);
    GoodArr(Cons(E(cap), [E(gas)]));
    GoodPlain(addr);
    GoodPair("pubKey", Str(addr), "clist", ClistTree(f, txType, addr));
  }

  lemma {:induction false} GoodMeta(f: Fields, addr: Bytes)
    requires Harmless(f) && Plain(addr)
    ensures Good(MetaTree(f, addr))
  {
    hide Plain, Good, Numeric, ValidBody, Account, GoodMembers, Distinct, Names;
    MetaKeyWords();
    NamesBody(f, TRANSFER, addr);
    GoodStr(Account(addr));
    GoodPrim(f[CREATION_TIME]);
    GoodPrim(f[TTL]);
    GoodPrim(f[GAS_LIMIT]);
    GoodPlain(f[CHAIN_ID]);
    GoodPrim(f[GAS_PRICE]);
    var sender := [M("sender", Str(Account(addr)))];
    GoodOne("sender", Str(Account(addr)));
    NamesOne("sender", Str(Account(addr)));
    var price := Cons(M("gasPrice", Prim(f[GAS_PRICE])), sender);
    GoodCons("gasPrice", Prim(f[GAS_PRICE]), sender);
    NamesCons("gasPrice", Prim(f[GAS_PRICE]), sender);
    var chain := Cons(M("chainId", Str(f[CHAIN_ID])), price);
    GoodCons("chainId", Str(f[CHAIN_ID]), price);
    NamesCons("chainId", Str(f[CHAIN_ID]), price);
    var limit := Cons(M("gasLimit", Prim(f[GAS_LIMIT])), chain);
    GoodCons("gasLimit", Prim(f[GAS_LIMIT]), chain);
    NamesCons("gasLimit", Prim(f[GAS_LIMIT]), chain);
    var ttl := Cons(M("ttl", Prim(f[TTL])), limit);
    GoodCons("ttl", Prim(f[TTL]), limit);
    NamesCons("ttl", Prim(f[TTL]), limit);
    GoodCons("creationTime", Prim(f[CREATION_TIME]), ttl);
    NamesCons("creationTime", Prim(f[CREATION_TIME]), ttl);
    GoodObj(Cons(M("creationTime", Prim(f[CREATION_TIME])), ttl));
  }

  /** Fields that keep to the allowlist give a valid tree with sound keys. */
  lemma {:induction false} GoodTree(f: Fields, txType: nat, addr: Bytes)
    requires Harmless(f) && Plain(addr)
    ensures Good(Tree(f, txType, addr))
  {
    hide Plain, Good, Numeric, ValidBody, GoodMembers, Distinct, Names, DataTree, SignerTree, MetaTree, Code,
      GoodElems;
    KeyWords();
    GoodData(f, txType);
    CodeBody(f, txType, addr);
    GoodStr(Code(f, txType, addr));
    GoodPair("data", DataTree(f, txType), "code", Str(Code(f, txType, addr)));
    GoodSingle("exec", ExecTree(f, txType, addr));
    GoodSigner(f, txType, addr);
    GoodElemOne(SignerTree(f, txType, addr));
    var payload := Obj([], [M("exec", ExecTree(f, txType, addr))]);
    var signers := Arr([], [E(SignerTree(f, txType, addr))]);
    GoodArr([E(SignerTree(f, txType, addr))]);
    GoodMeta(f, addr);
    GoodPlain(f[NONCE]);
    GoodPlain(f[NETWORK]);
    var nonce := [M("nonce", Str(f[NONCE]))];
    GoodOne("nonce", Str(f[NONCE]));
    NamesOne("nonce", Str(f[NONCE]));
    var meta := Cons(M("meta", MetaTree(f, addr)), nonce);
    GoodCons("meta", MetaTree(f, addr), nonce);
    NamesCons("meta", MetaTree(f, addr), nonce);
    var sigs := Cons(M("signers", signers), meta);
    GoodCons("signers", signers, meta);
    NamesCons("signers", signers, meta);
    var pay := Cons(M("payload", payload), sigs);
    GoodCons("payload", payload, sigs);
    NamesCons("payload", payload, sigs);
    GoodCons("networkId", Str(f[NETWORK]), pay);
    NamesCons("networkId", Str(f[NETWORK]), pay);
    GoodObj(Cons(M("networkId", Str(f[NETWORK])), pay));
  }
}
