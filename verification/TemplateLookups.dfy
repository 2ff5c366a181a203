/**
 What the template says: its size, and what each lookup finds in it.
 */
module TemplateLookups {
  import opened Base
  import opened Syntax
  import opened TransferSpec
  import opened Template
  import Pact
  import opened TemplateReading
  import opened Recognition
  import opened Documents
  import opened Integrity
  import opened Errors
  import opened Lookups
  import J = Json
  import S = JsmnSpec

  // ---- Size and length -------------------------------------------------------------------------

  lemma {:induction false} MeasureCons(key: Bytes, v: Value, ms: seq<Syntax.Member>)
    requires ms != []
    ensures MembersSize(Cons(M(key, v), ms)) == 1 + Size(v) + MembersSize(ms)
    ensures LenMembers(Cons(M(key, v), ms)) == |key| + 4 + Len(v) + LenMembers(ms)
  {
    hide Size, Len;
    assert Cons(M(key, v), ms)[1..] == ms;
  }

  lemma {:induction false} MeasureOne(key: Bytes, v: Value)
    ensures MembersSize([M(key, v)]) == 1 + Size(v)
    ensures LenMembers([M(key, v)]) == |key| + 4 + Len(v)
  {
    hide Size, Len;
    assert [M(key, v)][1..] == [];
  }

  lemma {:induction false} MeasureElemCons(v: Value, es: seq<Elem>)
    requires es != []
    ensures ElemsSize(Cons(E(v), es)) == Size(v) + ElemsSize(es)
    ensures LenElems(Cons(E(v), es)) == Len(v) + 1 + LenElems(es)
  {
    hide Size, Len;
    assert Cons(E(v), es)[1..] == es;
  }

  lemma {:induction false} MeasureElemOne(v: Value)
    ensures ElemsSize([E(v)]) == Size(v)
    ensures LenElems([E(v)]) == Len(v) + 1
  {
    hide Size, Len;
    assert [E(v)][1..] == [];
  }

  lemma {:induction false} CodeLength(f: Fields, txType: nat, addr: Bytes)
    requires FieldsInRange(f) && |addr| == 64
    ensures |Code(f, txType, addr)| <= 321
  {
    hide Cat;
    var args, name, open := ArgumentPieces(f, txType, addr), NsMod(f), Cons("(", NsMod(f));
    JoinAppend(open + Cons(CallName(txType), args), [")"], []);
    JoinAppend(open, Cons(CallName(txType), args), Join([")"], []));
    Join1(")", []);
    assert Cons(CallName(txType), args)[1..] == args && open[1..] == name;
    CatLength(")", []);
    ArgumentLength(f, txType, addr, Join([")"], []));
    CatLength(CallName(txType), Join(args, Join([")"], [])));
    NsModLength(f, Join(Cons(CallName(txType), args), Join([")"], [])));
    CatLength("(", Join(name, Join(Cons(CallName(txType), args), Join([")"], []))));
  }

  lemma {:induction false} CatLength(a: Bytes, b: Bytes)
    ensures |Cat(a, b)| == |a| + |b|
  {
  }

  lemma {:induction false} NsModLength(f: Fields, x: Bytes)
    requires FieldsInRange(f)
    ensures |Join(NsMod(f), x)| <= 96 + |x|
  {
    if UsesNamespace(f) { Join3(f[NAMESPACE], ".", f[MODULE], x); } else { Join1("coin", x); }
  }

  lemma {:induction false} ArgumentLength(f: Fields, txType: nat, addr: Bytes, x: Bytes)
    requires FieldsInRange(f) && |addr| == 64
    ensures |Join(ArgumentPieces(f, txType, addr), x)| <= 203 + |x|
  {
    var keyset := if txType != TRANSFER then [" (read-keyset \\\"ks\\\")"] else [];
    var chain := if txType == TRANSFER_CROSSCHAIN then [" \\\"", f[RECIPIENT_CHAIN], "\\\""] else [];
    var amount := [" ", f[AMOUNT]];
    var who := [" \\\"k:", addr, "\\\" \\\"k:", f[RECIPIENT], "\\\""];
    JoinAppend(who + keyset + chain, amount, x);
    JoinAppend(who + keyset, chain, Join(amount, x));
    JoinAppend(who, keyset, Join(chain, Join(amount, x)));
    Join2(" ", f[AMOUNT], x);
    if txType == TRANSFER_CROSSCHAIN { Join3(" \\\"", f[RECIPIENT_CHAIN], "\\\"", Join(amount, x)); }
    if txType != TRANSFER { Join1(" (read-keyset \\\"ks\\\")", Join(chain, Join(amount, x))); }
    Join5(" \\\"k:", addr, "\\\" \\\"k:", f[RECIPIENT], "\\\"", Join(keyset, Join(chain, Join(amount, x))));
  }

  lemma {:induction false} DataMeasure(f: Fields, txType: nat)
    requires FieldsInRange(f)
    ensures Size(DataTree(f, txType)) <= 8 && Len(DataTree(f, txType)) <= 102
  {
    hide LenMembers, LenElems, MembersSize, ElemsSize;
    if txType != TRANSFER {
      var keys := Arr([], [E(Str(f[RECIPIENT]))]);
      MeasureElemOne(Str(f[RECIPIENT]));
      MeasureOne("keys", keys);
      MeasureCons("pred", Str("keys-all"), [M("keys", keys)]);
      MeasureOne("ks", Obj([], Cons(M("pred", Str("keys-all")), [M("keys", keys)])));
    } else {
      NoMembers();
    }
  }

  lemma {:induction false} NoMembers()
    ensures MembersSize([]) == 0 && ElemsSize([]) == 0
  {
  }

  lemma {:induction false} ArgsMeasure(f: Fields, txType: nat, addr: Bytes)
    requires FieldsInRange(f) && |addr| == 64
    ensures Size(ArgsTree(f, txType, addr)) <= 5 && Len(ArgsTree(f, txType, addr)) <= 177
  {
    hide LenElems, ElemsSize;
    var more := if txType == TRANSFER_CROSSCHAIN then [E(Str(f[RECIPIENT_CHAIN]))] else [];
    var es := Cons(E(Prim(f[AMOUNT])), more);
    if txType == TRANSFER_CROSSCHAIN {
      MeasureElemOne(Str(f[RECIPIENT_CHAIN]));
      MeasureElemCons(Prim(f[AMOUNT]), more);
    } else {
      assert es == [E(Prim(f[AMOUNT]))];
      MeasureElemOne(Prim(f[AMOUNT]));
    }
    MeasureElemCons(Str(Account(f[RECIPIENT])), es);
    MeasureElemCons(Str(Account(addr)), Cons(E(Str(Account(f[RECIPIENT]))), es));
  }

  lemma {:induction false} SignerMeasure(f: Fields, txType: nat, addr: Bytes)
    requires FieldsInRange(f) && |addr| == 64
    ensures Size(SignerTree(f, txType, addr)) <= 19 && Len(SignerTree(f, txType, addr)) <= 426
  {
    hide LenMembers, LenElems, MembersSize, ElemsSize, ArgsTree;
    ArgsMeasure(f, txType, addr);
    var gas := CapTree(Arr([], []), "coin.GAS");
    NoMembers();
    MeasureOne("name", Str("coin.GAS"));
    MeasureCons("args", Arr([], []), [M("name", Str("coin.GAS"))]);
    var name := CapabilityName(f, txType);
    var cap := CapTree(ArgsTree(f, txType, addr), name);
    MeasureOne("name", Str(name));
    MeasureCons("args", ArgsTree(f, txType, addr), [M("name", Str(name))]);
    MeasureElemOne(gas);
    MeasureElemCons(cap, [E(gas)]);
    MeasureOne("clist", ClistTree(f, txType, addr));
    MeasureCons("pubKey", Str(addr), [M("clist", ClistTree(f, txType, addr))]);
  }

  lemma {:induction false} MetaMeasure(f: Fields, addr: Bytes)
    requires FieldsInRange(f) && |addr| == 64
    ensures Size(MetaTree(f, addr)) == 13 && Len(MetaTree(f, addr)) <= 203
  {
    hide LenMembers, MembersSize;
    var sender := [M("sender", Str(Account(addr)))];
    var price := Cons(M("gasPrice", Prim(f[GAS_PRICE])), sender);
    var chain := Cons(M("chainId", Str(f[CHAIN_ID])), price);
    var limit := Cons(M("gasLimit", Prim(f[GAS_LIMIT])), chain);
    var ttl := Cons(M("ttl", Prim(f[TTL])), limit);
    MeasureOne("sender", Str(Account(addr)));
    MeasureCons("gasPrice", Prim(f[GAS_PRICE]), sender);
    MeasureCons("chainId", Str(f[CHAIN_ID]), price);
    MeasureCons("gasLimit", Prim(f[GAS_LIMIT]), chain);
    MeasureCons("ttl", Prim(f[TTL]), limit);
    MeasureCons("creationTime", Prim(f[CREATION_TIME]), ttl);
  }

  /** At most 55 tokens and 1191 bytes. */
  lemma {:induction false} TreeMeasure(f: Fields, txType: nat, addr: Bytes)
    requires FieldsInRange(f) && |addr| == 64
    ensures Size(Tree(f, txType, addr)) <= 55 && Len(Tree(f, txType, addr)) <= 1191
  {
    hide LenMembers, MembersSize, LenElems, ElemsSize, DataTree, SignerTree, MetaTree, Code;
    DataMeasure(f, txType);
    CodeLength(f, txType, addr);
    SignerMeasure(f, txType, addr);
    MetaMeasure(f, addr);
    var exec := ExecTree(f, txType, addr);
    MeasureOne("code", Str(Code(f, txType, addr)));
    MeasureCons("data", DataTree(f, txType), [M("code", Str(Code(f, txType, addr)))]);
    var payload := Obj([], [M("exec", exec)]);
    MeasureOne("exec", exec);
    var signers := Arr([], [E(SignerTree(f, txType, addr))]);
    MeasureElemOne(SignerTree(f, txType, addr));
    var nonce := [M("nonce", Str(f[NONCE]))];
    var meta := Cons(M("meta", MetaTree(f, addr)), nonce);
    var sigs := Cons(M("signers", signers), meta);
    var pay := Cons(M("payload", payload), sigs);
    MeasureOne("nonce", Str(f[NONCE]));
    MeasureCons("meta", MetaTree(f, addr), nonce);
    MeasureCons("signers", signers, meta);
    MeasureCons("payload", payload, sigs);
    MeasureCons("networkId", Str(f[NETWORK]), pay);
  }

  // ---- Lookups in the tree ---------------------------------------------------------------------

  lemma {:induction false} NamedCons(key: Bytes, v: Value, ms: seq<Syntax.Member>, name: Bytes)
    ensures Named(Cons(M(key, v), ms), name) == if key == name then Some(v) else Named(ms, name)
  {
    assert Cons(M(key, v), ms)[1..] == ms;
  }

  lemma {:induction false} NamedOne(key: Bytes, v: Value, name: Bytes)
    ensures Named([M(key, v)], name) == if key == name then Some(v) else None
  {
    assert [M(key, v)][1..] == [];
  }

  lemma {:induction false} NamedPair(key: Bytes, v: Value, key2: Bytes, w: Value)
    requires key != key2
    ensures var o := Obj([], Cons(M(key, v), [M(key2, w)]));
            Child(o, Key(key)) == Some(v) && Child(o, Key(key2)) == Some(w)
  {
    NamedCons(key, v, [M(key2, w)], key);
    NamedCons(key, v, [M(key2, w)], key2);
    NamedOne(key2, w, key2);
  }

  lemma {:induction false} MetaChildren(f: Fields, addr: Bytes)
    ensures var m := MetaTree(f, addr);
            && Child(m, Key("creationTime")) == Some(Prim(f[CREATION_TIME])) &&
              Child(m, Key("ttl")) == Some(Prim(f[TTL]))
            && Child(m, Key("gasLimit")) == Some(Prim(f[GAS_LIMIT])) &&
              Child(m, Key("chainId")) == Some(Str(f[CHAIN_ID]))
            && Child(m, Key("gasPrice")) == Some(Prim(f[GAS_PRICE])) &&
              Child(m, Key("sender")) == Some(Str(Account(addr)))
  {
    hide Named, Account;
    var sender := [M("sender", Str(Account(addr)))];
    var price := Cons(M("gasPrice", Prim(f[GAS_PRICE])), sender);
    var chain := Cons(M("chainId", Str(f[CHAIN_ID])), price);
    var limit := Cons(M("gasLimit", Prim(f[GAS_LIMIT])), chain);
    var ttl := Cons(M("ttl", Prim(f[TTL])), limit);
    forall name: Bytes
      ensures Named(Cons(M("creationTime", Prim(f[CREATION_TIME])), ttl), name) ==
              if "creationTime" == name then Some(Prim(f[CREATION_TIME]))
              else if "ttl" == name then Some(Prim(f[TTL]))
              else if "gasLimit" == name then Some(Prim(f[GAS_LIMIT]))
              else if "chainId" == name then Some(Str(f[CHAIN_ID]))
              else if "gasPrice" == name then Some(Prim(f[GAS_PRICE]))
              else if "sender" == name then Some(Str(Account(addr)))
              else None
    {
      NamedOne("sender", Str(Account(addr)), name);
      NamedCons("gasPrice", Prim(f[GAS_PRICE]), sender, name);
      NamedCons("chainId", Str(f[CHAIN_ID]), price, name);
      NamedCons("gasLimit", Prim(f[GAS_LIMIT]), chain, name);
      NamedCons("ttl", Prim(f[TTL]), limit, name);
      NamedCons("creationTime", Prim(f[CREATION_TIME]), ttl, name);
    }
  }

  lemma {:induction false} RootChildren(f: Fields, txType: nat, addr: Bytes)
    ensures var t := Tree(f, txType, addr);
            && Child(t, Key("networkId")) == Some(Str(f[NETWORK]))
            && Child(t, Key("payload")) == Some(Obj([], [M("exec", ExecTree(f, txType, addr))]))
            && Child(t, Key("signers")) == Some(Arr([], [E(SignerTree(f, txType, addr))]))
            && Child(t, Key("meta")) == Some(MetaTree(f, addr)) && Child(t, Key("nonce")) == Some(Str(f[NONCE]))
            && Child(t, Key("verifiers")) == None
  {
    hide Named, ExecTree, SignerTree, MetaTree;
    var payload := Obj([], [M("exec", ExecTree(f, txType, addr))]);
    var signers := Arr([], [E(SignerTree(f, txType, addr))]);
    var nonce := [M("nonce", Str(f[NONCE]))];
    var meta := Cons(M("meta", MetaTree(f, addr)), nonce);
    var sigs := Cons(M("signers", signers), meta);
    var pay := Cons(M("payload", payload), sigs);
    forall name: Bytes
      ensures Named(Cons(M("networkId", Str(f[NETWORK])), pay), name) ==
              if "networkId" == name then Some(Str(f[NETWORK]))
              else if "payload" == name then Some(payload)
              else if "signers" == name then Some(signers)
              else if "meta" == name then Some(MetaTree(f, addr))
              else if "nonce" == name then Some(Str(f[NONCE]))
              else None
    {
      NamedOne("nonce", Str(f[NONCE]), name);
      NamedCons("meta", MetaTree(f, addr), nonce, name);
      NamedCons("signers", signers, meta, name);
      NamedCons("payload", payload, sigs, name);
      NamedCons("networkId", Str(f[NETWORK]), pay, name);
    }
  }

  /** The value found in the tree at `path`. */
  predicate Leads(v: Value, path: seq<Down>, w: Value) { Follow(v, path) == Some(w) }

  lemma {:induction false} Leads1(v: Value, a: Down, w: Value)
    requires Child(v, a) == Some(w)
    ensures Leads(v, [a], w)
  {
    hide Child;
    assert [a][1..] == [] && Follow(w, []) == Some(w);
  }

  lemma {:induction false} LeadsCat(v: Value, p: seq<Down>, w: Value, q: seq<Down>, x: Value)
    requires Leads(v, p, w) && Leads(w, q, x)
    ensures Leads(v, p + q, x)
    decreases |p|
  {
    hide Child;
    if p == [] {
      assert p + q == q;
    } else {
      assert (p + q)[1..] == p[1..] + q;
      LeadsCat(Child(v, p[0]).value, p[1..], w, q, x);
    }
  }

  const ENTRY := [Key("signers"), Nth(0)]
  const CAPABILITY := [Key("signers"), Nth(0), Key("clist"), Nth(0)]
  const ARGS := [Key("signers"), Nth(0), Key("clist"), Nth(0), Key("args")]
  const CODE := [Key("payload"), Key("exec"), Key("code")]
  const KEYSET := [Key("payload"), Key("exec"), Key("data"), Key("ks")]

  lemma {:induction false} SignerChildren(f: Fields, txType: nat, addr: Bytes)
    ensures var s := SignerTree(f, txType, addr);
            && Child(s, Key("pubKey")) == Some(Str(addr)) && Child(s, Key("clist")) == Some(ClistTree(f, txType, addr))
    ensures var c := ClistTree(f, txType, addr);
            && Child(c, Nth(0)) == Some(CapTree(ArgsTree(f, txType, addr), CapabilityName(f, txType)))
            && Child(c, Nth(1)) == Some(CapTree(Arr([], []), "coin.GAS"))
  {
    hide CapTree, ArgsTree, CapabilityName;
    NamedPair("pubKey", Str(addr), "clist", ClistTree(f, txType, addr));
  }

  lemma {:induction false} CapChildren(args: Value, name: Bytes)
    ensures var c := CapTree(args, name);
            Child(c, Key("args")) == Some(args) && Child(c, Key("name")) == Some(Str(name))
  {
    NamedPair("args", args, "name", Str(name));
  }

  lemma {:induction false} ArgsChildren(f: Fields, txType: nat, addr: Bytes)
    ensures var a := ArgsTree(f, txType, addr);
            && Child(a, Nth(0)) == Some(Str(Account(addr))) && Child(a, Nth(1)) == Some(Str(Account(f[RECIPIENT])))
            && Child(a, Nth(2)) == Some(Prim(f[AMOUNT]))
            && Child(a, Nth(3)) == (if txType == TRANSFER_CROSSCHAIN then Some(Str(f[RECIPIENT_CHAIN])) else None)
            && |a.elems| == (if txType == TRANSFER_CROSSCHAIN then 4 else 3)
  {
  }

  lemma {:induction false} SignerPaths(f: Fields, txType: nat, addr: Bytes)
    ensures var t := Tree(f, txType, addr);
            && Leads(t, ENTRY + [Key("pubKey")], Str(addr))
            && Leads(t, CAPABILITY + [Key("name")], Str(CapabilityName(f, txType)))
            && Leads(t, ARGS, ArgsTree(f, txType, addr))
            && Leads(t, ENTRY + [Key("clist"), Nth(1), Key("name")], Str("coin.GAS"))
  {
    hide Leads, Child, Tree, SignerTree, ClistTree, CapTree, ArgsTree, CapabilityName;
    var t, entry, clist := Tree(f, txType, addr), SignerTree(f, txType, addr), ClistTree(f, txType, addr);
    var signers := Arr([], [E(entry)]);
    RootChildren(f, txType, addr);
    Leads1(t, Key("signers"), signers);
    OnlyElem(entry);
    Leads1(signers, Nth(0), entry);
    LeadsCat(t, [Key("signers")], signers, [Nth(0)], entry);
    assert [Key("signers")] + [Nth(0)] == ENTRY;
    SignerChildren(f, txType, addr);
    Leads1(entry, Key("pubKey"), Str(addr));
    LeadsCat(t, ENTRY, entry, [Key("pubKey")], Str(addr));
    Leads1(entry, Key("clist"), clist);
    var cap, gas := CapTree(ArgsTree(f, txType, addr), CapabilityName(f, txType)), CapTree(Arr([], []), "coin.GAS");
    Leads1(clist, Nth(0), cap);
    Leads1(clist, Nth(1), gas);
    LeadsCat(entry, [Key("clist")], clist, [Nth(0)], cap);
    LeadsCat(t, ENTRY, entry, [Key("clist")] + [Nth(0)], cap);
    assert ENTRY + ([Key("clist")] + [Nth(0)]) == CAPABILITY;
    CapChildren(ArgsTree(f, txType, addr), CapabilityName(f, txType));
    Leads1(cap, Key("name"), Str(CapabilityName(f, txType)));
    LeadsCat(t, CAPABILITY, cap, [Key("name")], Str(CapabilityName(f, txType)));
    Leads1(cap, Key("args"), ArgsTree(f, txType, addr));
    LeadsCat(t, CAPABILITY, cap, [Key("args")], ArgsTree(f, txType, addr));
    assert CAPABILITY + [Key("args")] == ARGS;
    CapChildren(Arr([], []), "coin.GAS");
    Leads1(gas, Key("name"), Str("coin.GAS"));
    LeadsCat(entry, [Key("clist")], clist, [Nth(1)], gas);
    LeadsCat(entry, [Key("clist")] + [Nth(1)], gas, [Key("name")], Str("coin.GAS"));
    LeadsCat(t, ENTRY, entry, [Key("clist")] + [Nth(1)] + [Key("name")], Str("coin.GAS"));
    assert [Key("clist")] + [Nth(1)] + [Key("name")] == [Key("clist"), Nth(1), Key("name")];
  }

  lemma {:induction false} OnlyElem(v: Value)
    ensures Child(Arr([], [E(v)]), Nth(0)) == Some(v)
  {
  }

  lemma {:induction false} MetaPath(f: Fields, txType: nat, addr: Bytes, key: Bytes, v: Value)
    requires Child(MetaTree(f, addr), Key(key)) == Some(v)
    ensures Leads(Tree(f, txType, addr), [Key("meta"), Key(key)], v)
  {
    hide Leads, Child, Tree, MetaTree;
    RootChildren(f, txType, addr);
    Leads1(Tree(f, txType, addr), Key("meta"), MetaTree(f, addr));
    Leads1(MetaTree(f, addr), Key(key), v);
    LeadsCat(Tree(f, txType, addr), [Key("meta")], MetaTree(f, addr), [Key(key)], v);
    assert [Key("meta")] + [Key(key)] == [Key("meta"), Key(key)];
  }

  lemma {:induction false} ArgPath(f: Fields, txType: nat, addr: Bytes, n: nat, v: Value)
    requires Child(ArgsTree(f, txType, addr), Nth(n)) == Some(v)
    ensures Leads(Tree(f, txType, addr), ARGS + [Nth(n)], v)
  {
    hide Leads, Child, Tree, ArgsTree;
    SignerPaths(f, txType, addr);
    Leads1(ArgsTree(f, txType, addr), Nth(n), v);
    LeadsCat(Tree(f, txType, addr), ARGS, ArgsTree(f, txType, addr), [Nth(n)], v);
  }

  lemma {:induction false} CodePath(f: Fields, txType: nat, addr: Bytes)
    ensures Leads(Tree(f, txType, addr), CODE, Str(Code(f, txType, addr)))
    ensures Leads(Tree(f, txType, addr), [Key("payload"), Key("exec"), Key("data")], DataTree(f, txType))
  {
    hide Leads, Tree, ExecTree, Code, DataTree;
    var t, exec, payload := Tree(f, txType, addr), ExecTree(f, txType, addr),
      Obj([], [M("exec", ExecTree(f, txType, addr))]);
    RootChildren(f, txType, addr);
    Leads1(t, Key("payload"), payload);
    NamedOne("exec", exec, "exec");
    Leads1(payload, Key("exec"), exec);
    ExecChildren(f, txType, addr);
    Leads1(exec, Key("code"), Str(Code(f, txType, addr)));
    LeadsCat(t, [Key("payload")], payload, [Key("exec")], exec);
    LeadsCat(t, [Key("payload")] + [Key("exec")], exec, [Key("code")], Str(Code(f, txType, addr)));
    assert [Key("payload")] + [Key("exec")] + [Key("code")] == CODE;
    Leads1(exec, Key("data"), DataTree(f, txType));
    LeadsCat(t, [Key("payload")] + [Key("exec")], exec, [Key("data")], DataTree(f, txType));
    assert [Key("payload")] + [Key("exec")] + [Key("data")] == [Key("payload"), Key("exec"), Key("data")];
  }

  /** The keyset that a recipient's account is created with. */
  lemma {:induction false} KeysetPaths(f: Fields, txType: nat, addr: Bytes)
    requires txType != TRANSFER
    ensures Leads(Tree(f, txType, addr), KEYSET + [Key("pred")], Str("keys-all"))
    ensures Leads(Tree(f, txType, addr), KEYSET + [Key("keys"), Nth(0)], Str(f[RECIPIENT]))
  {
    hide Leads, Tree, Child, Named;
    var t, data, keys := Tree(f, txType, addr), DataTree(f, txType), Arr([], [E(Str(f[RECIPIENT]))]);
    var ks := Obj([], Cons(M("pred", Str("keys-all")), [M("keys", keys)]));
    CodePath(f, txType, addr);
    OnlyMember("ks", ks);
    Leads1(data, Key("ks"), ks);
    LeadsCat(t, [Key("payload"), Key("exec"), Key("data")], data, [Key("ks")], ks);
    assert [Key("payload"), Key("exec"), Key("data")] + [Key("ks")] == KEYSET;
    NamedPair("pred", Str("keys-all"), "keys", keys);
    Leads1(ks, Key("pred"), Str("keys-all"));
    LeadsCat(t, KEYSET, ks, [Key("pred")], Str("keys-all"));
    OnlyElem(Str(f[RECIPIENT]));
    Leads1(ks, Key("keys"), keys);
    Leads1(keys, Nth(0), Str(f[RECIPIENT]));
    LeadsCat(ks, [Key("keys")], keys, [Nth(0)], Str(f[RECIPIENT]));
    assert [Key("keys")] + [Nth(0)] == [Key("keys"), Nth(0)];
    LeadsCat(t, KEYSET, ks, [Key("keys"), Nth(0)], Str(f[RECIPIENT]));
  }

  lemma {:induction false} OnlyMember(key: Bytes, v: Value)
    ensures Child(Obj([], [M(key, v)]), Key(key)) == Some(v)
  {
    NamedOne(key, v, key);
  }

  lemma {:induction false} ExecChildren(f: Fields, txType: nat, addr: Bytes)
    ensures Child(ExecTree(f, txType, addr), Key("code")) == Some(Str(Code(f, txType, addr)))
    ensures Child(ExecTree(f, txType, addr), Key("data")) == Some(DataTree(f, txType))
  {
    hide Code, DataTree;
    NamedPair("data", DataTree(f, txType), "code", Str(Code(f, txType, addr)));
  }

  // ---- The round trip --------------------------------------------------------------------------

  /** The lookups along `path` end at a token of that kind and text. */
  predicate Finds(j: J.Json, path: seq<Down>, kind: S.Kind, text: Bytes) {
    match Lookup(j, 0, path)
    case Ok(at) => j.Tok(at).kind == kind && j.Span(at) == text
    case Err(_) => false
  }

  lemma {:induction false} FindsLeaf(j: J.Json, r: Ref, path: seq<Down>, v: Value)
    requires Located(j, r) && r.at == 0 && Leads(r.v, path, v)
    ensures Finds(j, path, KindOf(v), Text(v))
  {
    hide Located, Lookup, Follow, Print;
    var q := LookupFollows(j, r, path);
    NodeText(j, q);
  }

  /** Every lookup in the template finds the field it should, as a string or as a bare number. */
  predicate TellsFields(j: J.Json, f: Fields, txType: nat, addr: Bytes)
    requires txType <= 2
  {
    && Finds(j, [Key("networkId")], S.String, f[NETWORK])
    && Finds(j, CODE, S.String, Pact.Code(txType, Pact.CallOf(f, addr)))
    && (txType != TRANSFER ==>
          Finds(j, KEYSET + [Key("pred")], S.String, "keys-all") &&
          Finds(j, KEYSET + [Key("keys"), Nth(0)], S.String, f[RECIPIENT]))
    && Finds(j, ENTRY + [Key("pubKey")], S.String, addr)
    && Finds(j, CAPABILITY + [Key("name")], S.String, CapabilityName(f, txType))
    && Finds(j, ARGS + [Nth(0)], S.String, "k:" + addr)
    && Finds(j, ARGS + [Nth(1)], S.String, "k:" + f[RECIPIENT])
    && Finds(j, ARGS + [Nth(2)], S.Primitive, f[AMOUNT])
    && (txType == TRANSFER_CROSSCHAIN ==> Finds(j, ARGS + [Nth(3)], S.String, f[RECIPIENT_CHAIN]))
    && Finds(j, ENTRY + [Key("clist"), Nth(1), Key("name")], S.String, "coin.GAS")
    && Finds(j, [Key("meta"), Key("creationTime")], S.Primitive, f[CREATION_TIME])
    && Finds(j, [Key("meta"), Key("ttl")], S.Primitive, f[TTL])
    && Finds(j, [Key("meta"), Key("gasLimit")], S.Primitive, f[GAS_LIMIT])
    && Finds(j, [Key("meta"), Key("chainId")], S.String, f[CHAIN_ID])
    && Finds(j, [Key("meta"), Key("gasPrice")], S.Primitive, f[GAS_PRICE])
    && Finds(j, [Key("meta"), Key("sender")], S.String, "k:" + addr)
    && Finds(j, [Key("nonce")], S.String, f[NONCE])
  }

  lemma {:induction false} TreeTellsFields(j: J.Json, r: Ref, f: Fields, txType: nat, addr: Bytes)
    requires txType <= 2 && Located(j, r) && r.at == 0 && r.v == Tree(f, txType, addr)
    ensures TellsFields(j, f, txType, addr)
  {
    hide Located, Finds, Leads, Tree, Child, MetaTree, ArgsTree, CapabilityName, Code, Pact.Code, Pact.CallOf;
    RootChildren(f, txType, addr);
    Leads1(r.v, Key("networkId"), Str(f[NETWORK]));
    FindsLeaf(j, r, [Key("networkId")], Str(f[NETWORK]));
    Leads1(r.v, Key("nonce"), Str(f[NONCE]));
    FindsLeaf(j, r, [Key("nonce")], Str(f[NONCE]));
    CodePath(f, txType, addr);
    FindsLeaf(j, r, CODE, Str(Code(f, txType, addr)));
    Pact.PrintsCode(f, txType, addr);
    if txType != TRANSFER {
      KeysetPaths(f, txType, addr);
      FindsLeaf(j, r, KEYSET + [Key("pred")], Str("keys-all"));
      FindsLeaf(j, r, KEYSET + [Key("keys"), Nth(0)], Str(f[RECIPIENT]));
    }
    SignerPaths(f, txType, addr);
    FindsLeaf(j, r, ENTRY + [Key("pubKey")], Str(addr));
    FindsLeaf(j, r, CAPABILITY + [Key("name")], Str(CapabilityName(f, txType)));
    FindsLeaf(j, r, ENTRY + [Key("clist"), Nth(1), Key("name")], Str("coin.GAS"));
    ArgsChildren(f, txType, addr);
    ArgPath(f, txType, addr, 0, Str(Account(addr)));
    FindsLeaf(j, r, ARGS + [Nth(0)], Str(Account(addr)));
    ArgPath(f, txType, addr, 1, Str(Account(f[RECIPIENT])));
    FindsLeaf(j, r, ARGS + [Nth(1)], Str(Account(f[RECIPIENT])));
    ArgPath(f, txType, addr, 2, Prim(f[AMOUNT]));
    FindsLeaf(j, r, ARGS + [Nth(2)], Prim(f[AMOUNT]));
    if txType == TRANSFER_CROSSCHAIN {
      ArgPath(f, txType, addr, 3, Str(f[RECIPIENT_CHAIN]));
      FindsLeaf(j, r, ARGS + [Nth(3)], Str(f[RECIPIENT_CHAIN]));
    }
    MetaChildren(f, addr);
    MetaFinds(j, r, f, txType, addr, "creationTime", Prim(f[CREATION_TIME]));
    MetaFinds(j, r, f, txType, addr, "ttl", Prim(f[TTL]));
    MetaFinds(j, r, f, txType, addr, "gasLimit", Prim(f[GAS_LIMIT]));
    MetaFinds(j, r, f, txType, addr, "chainId", Str(f[CHAIN_ID]));
    MetaFinds(j, r, f, txType, addr, "gasPrice", Prim(f[GAS_PRICE]));
    MetaFinds(j, r, f, txType, addr, "sender", Str(Account(addr)));
  }

  lemma {:induction false} MetaFinds(j: J.Json, r: Ref, f: Fields, txType: nat, addr: Bytes, key: Bytes, v: Value)
    requires Located(j, r) && r.at == 0 && r.v == Tree(f, txType, addr)
    requires Child(MetaTree(f, addr), Key(key)) == Some(v)
    ensures Finds(j, [Key("meta"), Key(key)], KindOf(v), Text(v))
  {
    hide Located, Finds, Leads, Tree, Child, MetaTree;
    MetaPath(f, txType, addr, key, v);
    FindsLeaf(j, r, [Key("meta"), Key(key)], v);
  }

  /** The document of a request's template. */
  function TemplateDoc(f: Fields, txType: nat, addr: Bytes): Doc { Doc([], Tree(f, txType, addr), []) }

  /** `build`'s only errors are those of the request: the template always fits its buffer. */
  lemma {:induction false} BuildFits(input: Bytes, pk: Bytes)
    requires |pk| == 32
    ensures match ReadRequest(input)
            case Err(e) => Build(input, Some(pk)) == Err(e)
            case Ok((txType, f)) =>
              && Build(input, Some(pk)) == Ok(PrintDoc(TemplateDoc(f, txType, HexLower(pk))))
              && |PrintDoc(TemplateDoc(f, txType, HexLower(pk)))| <= 1191
  {
    hide Tree, Pieces, Len, Size;
    if ReadRequest(input).Ok? {
      var (txType, f) := ReadRequest(input).value;
      var addr := HexLower(pk);
      TreeMeasure(f, txType, addr);
      PrintsTemplate(f, txType, addr);
      PrintLength(Tree(f, txType, addr), []);
      CatNil(Print(Tree(f, txType, addr), []));
    }
  }

  /**
   The round trip: whatever fields a request is accepted with, `read_json` accepts the template
   and the lookups return exactly those fields.
   */
  lemma {:induction false} TemplateReads(input: Bytes, pk: Bytes)
    requires |pk| == 32 && ReadRequest(input).Ok?
    ensures var (txType, f) := ReadRequest(input).value;
            var text := Build(input, Some(pk));
            && text.Ok? && |text.value| <= 1191
            && ReadJson(text.value).Ok? && |ReadJson(text.value).value.tokens| <= 55
            && TellsFields(ReadJson(text.value).value, f, txType, HexLower(pk))
  {
    hide Build, ReadRequest, Tree, TellsFields, ReadJson, FieldsAllowed, Harmless, Plain, Located;
    var (txType, f) := ReadRequest(input).value;
    var j := TemplateRead(input, pk, txType, f);
  }

  /** The text found along `path`. */
  function TextAt(j: J.Json, path: seq<Down>): Bytes {
    match Lookup(j, 0, path)
    case Ok(at) => j.Span(at)
    case Err(_) => []
  }

  /**
   The code of a template calls the module of its capability, with the sender, the recipient, the amount and the
   target chain that the capability's arguments are.
   */
  lemma {:induction false} CodeIsGranted(input: Bytes, pk: Bytes)
    requires |pk| == 32 && ReadRequest(input).Ok? && Build(input, Some(pk)).Ok?
    requires ReadJson(Build(input, Some(pk)).value).Ok?
    ensures var (txType, f) := ReadRequest(input).value;
            var j := ReadJson(Build(input, Some(pk)).value).value;
            var name := Pact.CallOf(f, HexLower(pk)).name;
            && TextAt(j, CODE) == Pact.Code(txType, Pact.Call(name, TextAt(j, ARGS + [Nth(0)]),
              TextAt(j, ARGS + [Nth(1)]), TextAt(j, ARGS + [Nth(3)]), TextAt(j, ARGS + [Nth(2)])))
            && TextAt(j, CAPABILITY + [Key("name")]) ==
               name + if txType == TRANSFER_CROSSCHAIN then ".TRANSFER_XCHAIN" else ".TRANSFER"
  {
    hide Build, ReadRequest, ReadJson, Lookup, HexLower;
    TemplateReads(input, pk);
    var (txType, f) := ReadRequest(input).value;
    NamedAlike(f, txType, HexLower(pk));
  }

  lemma {:induction false} NamedAlike(f: Fields, txType: nat, addr: Bytes)
    ensures CapabilityName(f, txType) ==
            Pact.CallOf(f, addr).name + if txType == TRANSFER_CROSSCHAIN then ".TRANSFER_XCHAIN" else ".TRANSFER"
  {
  }

  /** The tokens of an accepted template are those of its tree. */
  lemma {:induction false} TemplateRead(input: Bytes, pk: Bytes, txType: nat, f: Fields) returns (j: J.Json)
    requires |pk| == 32 && ReadRequest(input) == Ok((txType, f))
    ensures Build(input, Some(pk)).Ok? && |Build(input, Some(pk)).value| <= 1191
    ensures ReadJson(Build(input, Some(pk)).value) == Ok(j) && |j.tokens| <= 55
    ensures Located(j, Root(TemplateDoc(f, txType, HexLower(pk)))) && TellsFields(j, f, txType, HexLower(pk))
  {
    hide Tree, TellsFields, ReadJson, Harmless, Plain, Located, Print, Valid, SoundKeys, FieldsInRange, FieldsAllowed,
      PrintDoc, Build;
    BuildFits(input, pk);
    HexPlain(pk);
    j := TreeRead(txType, f, HexLower(pk));
  }

  lemma {:induction false} TreeRead(txType: nat, f: Fields, addr: Bytes) returns (j: J.Json)
    requires txType <= 2 && FieldsInRange(f) && FieldsAllowed(f, txType) && |addr| == 64 && Plain(addr)
    ensures ReadJson(PrintDoc(TemplateDoc(f, txType, addr))) == Ok(j) && |j.tokens| <= 55
    ensures Located(j, Root(TemplateDoc(f, txType, addr))) && TellsFields(j, f, txType, addr)
  {
    hide Tree, TellsFields, ReadJson, Harmless, Plain, Located, Print, Valid, SoundKeys, FieldsInRange, FieldsAllowed;
    var d := TemplateDoc(f, txType, addr);
    AllowedHarmless(f, txType);
    GoodTree(f, txType, addr);
    TreeMeasure(f, txType, addr);
    PrintLength(Tree(f, txType, addr), []);
    BlankNothing();
    TreeIsObject(f, txType, addr);
    ReadPrinted(d);
    RootLocated(d);
    j := J.JsonData(PrintDoc(d), DocTokens(d));
    TreeTellsFields(j, Root(d), f, txType, addr);
  }

  lemma {:induction false} TreeIsObject(f: Fields, txType: nat, addr: Bytes)
    ensures Tree(f, txType, addr).Obj?
  {
  }

  lemma {:induction false} BlankNothing()
    ensures Blank([])
  {
  }
}
