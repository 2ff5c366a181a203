/** The device's signer entry in the syntax tree, and how many capabilities an accepted entry can have. */
module Signers {
  import opened Base
  import opened Errors
  import opened Syntax
  import opened JsmnSpec
  import opened Json
  import opened Lookups
  import opened Nodes
  import opened ItemSpec
  import opened Review
  import opened ReviewProof
  import opened Recognition
  import Documents
  import Integrity

  // ---- The device's entry ----------------------------------------------------------------------

  predicate FieldIs(entry: Value, field: Bytes, hex: Bytes) {
    match Get(entry, field)
    case None => false
    case Some(v) => EqualIgnoringCase(Text(v), hex)
  }

  /** The entry names the device key, as `pubKey` or `addr`, in any letter case. */
  predicate Names(entry: Value, hex: Bytes) {
    entry.Obj? && (FieldIs(entry, "pubKey", hex) || FieldIs(entry, "addr", hex))
  }

  predicate FieldPlain(entry: Value, field: Bytes) {
    match Get(entry, field)
    case None => true
    case Some(v) => !HasBackslash(Text(v))
  }

  /** The key fields of an entry have no escapes. */
  predicate KeysPlain(entry: Value) { entry.Obj? ==> FieldPlain(entry, "pubKey") && FieldPlain(entry, "addr") }

  /** Element `k` of `signers` is the only one that names the device key, and its `pubKey` is exactly that key. */
  predicate TheDevice(elems: seq<Elem>, hex: Bytes, k: nat) {
    && k < |elems|
    && (forall i | 0 <= i < |elems| :: KeysPlain(elems[i].value))
    && (forall i | 0 <= i < |elems| :: Names(elems[i].value, hex) <==> i == k)
    && Get(elems[k].value, "pubKey") == Some(Str(hex))
  }

  lemma {:induction false} FieldNamesIs(j: Json, at: nat, entry: Value, field: Bytes, hex: Bytes)
    requires Node(j, at, entry) && entry.Obj?
    ensures FieldNames(j, at, field, hex) ==
            if FieldPlain(entry, field) then Ok(FieldIs(entry, field, hex)) else Err(UnexpectedCharacters)
  {
    hide Node, JsonData.GetResult, Child, EqualIgnoringCase, HasBackslash;
    NodeGet(j, at, entry, field);
    if Get(entry, field).Some? { NodeTells(j, j.GetResult(at, field).value, Get(entry, field).value); }
  }

  lemma {:induction false} NamesIs(j: Json, at: nat, entry: Value, hex: Bytes)
    requires Node(j, at, entry)
    ensures NamesDevice(j, at, hex) == if KeysPlain(entry) then Ok(Names(entry, hex)) else Err(UnexpectedCharacters)
  {
    hide Node, FieldPlain, FieldIs, FieldNames;
    NodeTells(j, at, entry);
    if entry.Obj? {
      FieldNamesIs(j, at, entry, "pubKey", hex);
      FieldNamesIs(j, at, entry, "addr", hex);
    }
  }

  lemma {:induction false} EntriesPlain(j: Json, ats: seq<nat>, entries: seq<Value>, hex: Bytes)
    requires |ats| == |entries| && forall i | 0 <= i < |ats| :: Node(j, ats[i], entries[i])
    ensures DeviceEntries(j, ats, hex).Ok? <==> forall i | 0 <= i < |entries| :: KeysPlain(entries[i])
    decreases |ats|
  {
    hide Node, KeysPlain, Names, NamesDevice;
    if ats != [] {
      NamesIs(j, ats[0], entries[0], hex);
      EntriesPlain(j, ats[1..], entries[1..], hex);
      if DeviceEntries(j, ats[1..], hex).Err? {
        var i :| 0 <= i < |entries[1..]| && !KeysPlain(entries[1..][i]);
        assert !KeysPlain(entries[i + 1]);
      }
    }
  }

  lemma {:induction false} NoneFound(j: Json, ats: seq<nat>, entries: seq<Value>, hex: Bytes)
    requires |ats| == |entries| && (forall i | 0 <= i < |ats| :: Node(j, ats[i], entries[i])) &&
             DeviceEntries(j, ats, hex).Ok?
    ensures DeviceEntries(j, ats, hex).value == [] <==> forall i | 0 <= i < |entries| :: !Names(entries[i], hex)
    decreases |ats|
  {
    hide Node, KeysPlain, Names, NamesDevice;
    if ats != [] {
      NamesIs(j, ats[0], entries[0], hex);
      NoneFound(j, ats[1..], entries[1..], hex);
      if i :| 0 <= i < |entries[1..]| && Names(entries[1..][i], hex) { assert Names(entries[i + 1], hex); }
    }
  }

  /** If entry `k` alone names the key, it alone is found. */
  lemma {:induction false} OneFound(j: Json, ats: seq<nat>, entries: seq<Value>, hex: Bytes, k: nat)
    requires |ats| == |entries| && (forall i | 0 <= i < |ats| :: Node(j, ats[i], entries[i])) &&
             DeviceEntries(j, ats, hex).Ok?
    requires k < |ats| && forall i | 0 <= i < |ats| :: Names(entries[i], hex) <==> i == k
    ensures DeviceEntries(j, ats, hex).value == [ats[k]]
    decreases |ats|
  {
    hide Node, KeysPlain, Names, NamesDevice;
    NamesIs(j, ats[0], entries[0], hex);
    if k == 0 {
      NoneFound(j, ats[1..], entries[1..], hex);
    } else {
      assert !Names(entries[0], hex);
      OneFound(j, ats[1..], entries[1..], hex, k - 1);
    }
  }

  /** If one entry is found, it is the only one that names the key. */
  lemma {:induction false} FoundOne(j: Json, ats: seq<nat>, entries: seq<Value>, hex: Bytes) returns (k: nat)
    requires |ats| == |entries| && (forall i | 0 <= i < |ats| :: Node(j, ats[i], entries[i])) &&
             DeviceEntries(j, ats, hex).Ok?
    requires |DeviceEntries(j, ats, hex).value| == 1
    ensures k < |ats| && DeviceEntries(j, ats, hex).value == [ats[k]]
    ensures forall i | 0 <= i < |ats| :: Names(entries[i], hex) <==> i == k
    decreases |ats|
  {
    hide Node, KeysPlain, Names, NamesDevice;
    NamesIs(j, ats[0], entries[0], hex);
    if Names(entries[0], hex) {
      k := 0;
      NoneFound(j, ats[1..], entries[1..], hex);
      forall i | 0 < i < |ats| ensures !Names(entries[i], hex) { assert entries[i] == entries[1..][i - 1]; }
    } else {
      var m := FoundOne(j, ats[1..], entries[1..], hex);
      k := m + 1;
      forall i | 0 < i < |ats| ensures Names(entries[i], hex) <==> i == k { assert entries[i] == entries[1..][i - 1]; }
    }
  }

  lemma {:induction false} HasKeyIs(j: Json, at: nat, entry: Value, hex: Bytes)
    requires Node(j, at, entry) && entry.Obj?
    ensures HasKey(j, at, hex) <==> Get(entry, "pubKey") == Some(Str(hex))
  {
    hide Node, JsonData.GetResult, Child, Print;
    NodeGet(j, at, entry, "pubKey");
    if Get(entry, "pubKey").Some? { NodeTells(j, j.GetResult(at, "pubKey").value, Get(entry, "pubKey").value); }
  }

  /** No capability of the entry has an escape in its name. */
  predicate NamesPlain(entry: Value) { forall c | c in ClistOf(entry) :: !HasBackslash(NameOf(c)) }

  lemma {:induction false} EscapedIs(j: Json, at: nat, cap: Value)
    requires Node(j, at, cap) && cap.Obj?
    ensures EscapedName(j, at) <==> HasBackslash(NameOf(cap))
  {
    hide Node, JsonData.GetResult, NameOf;
    NameIs(j, at, cap);
  }

  /** The check of the capability names, where there is a list of them. */
  lemma {:induction false} PlainNames(j: Json, at: nat, entry: Value)
    requires Node(j, at, entry) && entry.Obj? && !EscapedNames(j, at)
    ensures Get(entry, "clist").None? || Get(entry, "clist").value.Arr? ==> NamesPlain(entry)
  {
    hide Node, JsonData.GetResult, JsonData.Elements, Child, NameOf, EscapedName;
    NodeGet(j, at, entry, "clist");
    if Get(entry, "clist").Some? && Get(entry, "clist").value.Arr? {
      var clist, v := j.GetResult(at, "clist").value, Get(entry, "clist").value;
      NodeTells(j, clist, v);
      NodeElems(j, clist, v);
      forall c | c in Kids(v) ensures !HasBackslash(NameOf(c)) {
        var i :| 0 <= i < |Kids(v)| && Kids(v)[i] == c;
        assert j.Elements(clist)[i] in j.Elements(clist);
        NoEscape(j, j.Elements(clist)[i], c);
      }
    }
  }

  lemma {:induction false} NoEscape(j: Json, at: nat, cap: Value)
    requires Node(j, at, cap) && !EscapedName(j, at)
    ensures !HasBackslash(NameOf(cap))
  {
    hide Node, EscapedName, HasBackslash;
    if cap.Obj? { EscapedIs(j, at, cap); } else { Nameless(cap); }
  }

  lemma {:induction false} Nameless(cap: Value)
    requires !cap.Obj?
    ensures !HasBackslash(NameOf(cap))
  {
  }

  /** The entry found, in the tree. */
  lemma {:induction false} DeviceFound(j: Json, root: Value, hex: Bytes) returns (k: nat)
    requires Node(j, 0, root) && root.Obj? && FindDeviceSigner(j, hex).Ok?
    ensures Get(root, "signers").Some? && Get(root, "signers").value.Arr?
    ensures var elems, (at, n) := Get(root, "signers").value.elems, FindDeviceSigner(j, hex).value;
            && n == |elems| && TheDevice(elems, hex, k) && Node(j, at, elems[k].value)
            && (Get(elems[k].value, "clist").None? || Get(elems[k].value, "clist").value.Arr? ==>
                  NamesPlain(elems[k].value))
  {
    hide NamesPlain, Node, JsonData.GetResult, JsonData.Elements, Child, Names, KeysPlain, DeviceEntries, EscapedNames,
      HasKey;
    NodeGet(j, 0, root, "signers");
    var signers, v := j.GetResult(0, "signers").value, Get(root, "signers").value;
    NodeTells(j, signers, v);
    NodeElems(j, signers, v);
    var entries := ValuesOf(v.elems);
    EntriesPlain(j, j.Elements(signers), entries, hex);
    k := FoundOne(j, j.Elements(signers), entries, hex);
    assert Names(entries[k], hex);
    NamedIsObject(entries[k], hex);
    HasKeyIs(j, j.Elements(signers)[k], entries[k], hex);
    PlainNames(j, j.Elements(signers)[k], entries[k]);
  }

  lemma {:induction false} NamedIsObject(entry: Value, hex: Bytes)
    requires Names(entry, hex)
    ensures entry.Obj?
  {
  }

  /** And every entry of that kind is found, if its capabilities are objects whose names have no escape. */
  lemma {:induction false} DeviceIsFound(j: Json, root: Value, hex: Bytes, k: nat)
    requires Node(j, 0, root) && root.Obj? && Get(root, "signers").Some? && Get(root, "signers").value.Arr?
    requires TheDevice(Get(root, "signers").value.elems, hex, k)
    requires var entry := Get(root, "signers").value.elems[k].value;
             NamesPlain(entry) && (Get(entry, "clist").Some? && Get(entry, "clist").value.Arr? ==>
               forall c | c in Kids(Get(entry, "clist").value) :: c.Obj?)
    ensures FindDeviceSigner(j, hex).Ok? && FindDeviceSigner(j, hex).value.1 == |Get(root, "signers").value.elems|
    ensures Node(j, FindDeviceSigner(j, hex).value.0, Get(root, "signers").value.elems[k].value)
  {
    hide Node, JsonData.GetResult, JsonData.Elements, Child, Names, KeysPlain, DeviceEntries, EscapedNames, HasKey,
      NamesPlain, Kids;
    NodeGet(j, 0, root, "signers");
    var signers, v := j.GetResult(0, "signers").value, Get(root, "signers").value;
    NodeTells(j, signers, v);
    NodeElems(j, signers, v);
    var entries := ValuesOf(v.elems);
    EntriesPlain(j, j.Elements(signers), entries, hex);
    OneFound(j, j.Elements(signers), entries, hex, k);
    assert Names(entries[k], hex);
    NamedIsObject(entries[k], hex);
    HasKeyIs(j, j.Elements(signers)[k], entries[k], hex);
    NamesUnescaped(j, j.Elements(signers)[k], entries[k]);
  }

  lemma {:induction false} NamesUnescaped(j: Json, at: nat, entry: Value)
    requires Node(j, at, entry) && entry.Obj? && NamesPlain(entry)
    requires Get(entry, "clist").Some? && Get(entry, "clist").value.Arr? ==>
             forall c | c in Kids(Get(entry, "clist").value) :: c.Obj?
    ensures !EscapedNames(j, at)
  {
    hide Node, JsonData.GetResult, JsonData.Elements, Child, NameOf, EscapedName;
    NodeGet(j, at, entry, "clist");
    if Get(entry, "clist").Some? {
      var clist, v := j.GetResult(at, "clist").value, Get(entry, "clist").value;
      NodeTells(j, clist, v);
      if v.Arr? {
        NotNullText(v);
        NodeElems(j, clist, v);
        forall c | c in j.Elements(clist) ensures !EscapedName(j, c) {
          var i :| 0 <= i < |j.Elements(clist)| && j.Elements(clist)[i] == c;
          assert Kids(v)[i] in Kids(v);
          EscapedIs(j, c, Kids(v)[i]);
        }
      }
    }
  }

  // ---- How many capabilities fit in the token cap ----------------------------------------------

  lemma {:induction false} NamedSize(ms: seq<Syntax.Member>, key: Bytes)
    ensures match Named(ms, key) case None => true case Some(v) => MembersSize(ms) >= 1 + Size(v)
    decreases |ms|
  {
    hide Size;
    if ms != [] { NamedSize(ms[1..], key); }
  }

  lemma {:induction false} TwoNamedSize(ms: seq<Syntax.Member>, a: Bytes, b: Bytes)
    requires a != b && Named(ms, a).Some? && Named(ms, b).Some?
    ensures MembersSize(ms) >= 2 + Size(Named(ms, a).value) + Size(Named(ms, b).value)
    decreases |ms|
  {
    hide Size;
    NamedSize(ms[1..], a);
    NamedSize(ms[1..], b);
    if ms[0].key != a && ms[0].key != b { TwoNamedSize(ms[1..], a, b); }
  }

  lemma {:induction false} ElemSize(es: seq<Elem>, k: nat)
    requires k < |es|
    ensures ElemsSize(es) >= Size(es[k].value)
    decreases |es|
  {
    hide Size;
    if k > 0 { ElemSize(es[1..], k - 1); }
  }

  lemma {:induction false} ManyElems(es: seq<Elem>, n: nat)
    requires forall i | 0 <= i < |es| :: Size(es[i].value) >= n
    ensures ElemsSize(es) >= n * |es|
    decreases |es|
  {
    hide Size;
    if es != [] {
      ManyElems(es[1..], n);
      assert n * |es| == n + n * |es[1..]|;
    }
  }

  /** An accepted capability has a name or arguments: at least three tokens. */
  lemma {:induction false} CapSize(j: Json, at: nat, cap: Value)
    requires Node(j, at, cap) && CapItems(j, at).failure == None
    ensures cap.Obj? && Size(cap) >= 3
  {
    hide Node, JsonData.GetResult, JsonData.Elements, KindOfCap, NameOf, TransferItems, UnverifiedItems, Child;
    CapKindIs(j, at, cap);
    NodeTells(j, at, cap);
    CapArgs(j, at, cap);
    if Get(cap, "args").Some? { SizeOfMember(cap, "args"); }
    if KindOfCap(j, at) == GasCap {
      NamedCap(cap);
      SizeOfMember(cap, "name");
    }
  }

  lemma {:induction false} NamedCap(cap: Value)
    requires NameOf(cap) != []
    ensures Get(cap, "name").Some?
  {
  }

  lemma {:induction false} SizeOfMember(v: Value, key: Bytes)
    requires Get(v, key).Some?
    ensures Size(v) >= 2 + Size(Get(v, key).value) >= 3
  {
    NamedSize(v.members, key);
  }

  /** Of the 768 tokens at least ten are not the capabilities': there are at most 252 of them. */
  lemma {:induction false} CapabilityBound(j: Json, root: Value, entry: Value, at: nat, k: nat)
    requires Node(j, 0, root) && root.Obj? && Get(root, "signers").Some? && Get(root, "signers").value.Arr?
    requires k < |Get(root, "signers").value.elems| && entry == Get(root, "signers").value.elems[k].value && entry.Obj?
    requires Node(j, at, entry) && Get(entry, "pubKey").Some?
    requires NetworkItems(j).failure == None && TransfersItems(j, at).failure == None
    ensures |ClistOf(entry)| <= 252
  {
    hide Node, JsonData.GetResult, JsonData.Elements, Child, ClistOf, Kids, CapsItems, ValidClist, Size;
    ClistIs(j, at, entry);
    if ClistOf(entry) != [] {
      var clist, v := ValidClist(j, at).value, Get(entry, "clist").value;
      ClistArray(j, clist, v);
      ClistSize(j, clist, v);
      NodeGet(j, 0, root, "networkId");
      RootSize(root, k);
      EntrySize(entry);
      NodeSize(j, 0, root);
    }
  }

  lemma {:induction false} ClistSize(j: Json, clist: nat, v: Value)
    requires Node(j, clist, v) && v.Arr? && CapsItems(j, j.Elements(clist)).failure == None
    ensures Size(v) >= 1 + 3 * |v.elems| && |Kids(v)| == |v.elems|
  {
    hide Node, JsonData.Elements, CapsItems, CapItems;
    NodeElems(j, clist, v);
    CapsAreObjects(j, j.Elements(clist));
    forall i | 0 <= i < |v.elems| ensures Size(v.elems[i].value) >= 3 {
      CapSize(j, j.Elements(clist)[i], v.elems[i].value);
    }
    ManyElems(v.elems, 3);
  }

  lemma {:induction false} RootSize(root: Value, k: nat)
    requires Get(root, "networkId").Some? && Get(root, "signers").Some? && Get(root, "signers").value.Arr?
    requires k < |Get(root, "signers").value.elems|
    ensures Size(root) >= 5 + Size(Get(root, "signers").value.elems[k].value)
  {
    TwoNamedSize(root.members, "networkId", "signers");
    ElemSize(Get(root, "signers").value.elems, k);
  }

  lemma {:induction false} EntrySize(entry: Value)
    requires Get(entry, "pubKey").Some? && Get(entry, "clist").Some?
    ensures Size(entry) >= 4 + Size(Get(entry, "clist").value)
  {
    TwoNamedSize(entry.members, "pubKey", "clist");
  }

  lemma {:induction false} NodeSize(j: Json, at: nat, v: Value)
    requires Node(j, at, v)
    ensures at + Size(v) <= |j.tokens| <= MAX_TOKENS
  {
    hide Located, Size;
    var pos: nat :| Located(j, Ref(v, at, pos));
    NodeTokens(j, Ref(v, at, pos));
  }

  /**
   An accepted review is of the one signer entry that names the device key; its items are the lines of
   the tree; and it is clear-signed exactly if `meta` is recognised and the entry's scope is clear.
   */
  lemma {:induction false} AcceptedReview(j: Json, root: Value, hex: Bytes, at: nat, n: nat) returns (k: nat)
    requires Node(j, 0, root) && root.Obj? && FindDeviceSigner(j, hex) == Ok((at, n)) &&
             TxItems(j, at, n).failure == None
    ensures Get(root, "signers").Some? && Get(root, "signers").value.Arr? && n == |Get(root, "signers").value.elems|
    ensures TheDevice(Get(root, "signers").value.elems, hex, k)
    ensures var entry := Get(root, "signers").value.elems[k].value;
            && Node(j, at, entry) && entry.Obj? && |ClistOf(entry)| <= 252 && NamesPlain(entry)
            && Mirrors(j, TxItems(j, at, n).items, ReviewLines(root, entry, n))
  {
    hide Node, Mirrors, TxItems, Child, ClistOf, FindDeviceSigner, Names, KeysPlain, ReviewLines, NamesPlain;
    k := DeviceFound(j, root, hex);
    var elems := Get(root, "signers").value.elems;
    assert Names(elems[k].value, hex);
    NamedIsObject(elems[k].value, hex);
    SectionsAccepted(j, at, n);
    CapabilityBound(j, root, elems[k].value, at, k);
    AcceptedNames(j, at, elems[k].value);
    ReviewMirrors(j, root, at, elems[k].value, n);
  }

  lemma {:induction false} AcceptedNames(j: Json, at: nat, entry: Value)
    requires Node(j, at, entry) && entry.Obj? && TransfersItems(j, at).failure == None
    requires Get(entry, "clist").None? || Get(entry, "clist").value.Arr? ==> NamesPlain(entry)
    ensures NamesPlain(entry)
  {
    hide Node, JsonData.Elements, Child, ClistOf, ValidClist, CapsItems, NameOf;
    ClistIs(j, at, entry);
    if ClistOf(entry) != [] { ClistArray(j, ValidClist(j, at).value, Get(entry, "clist").value); }
  }

  lemma {:induction false} SectionsAccepted(j: Json, at: nat, n: nat)
    requires TxItems(j, at, n).failure == None
    ensures NetworkItems(j).failure == None && TransfersItems(j, at).failure == None
  {
    hide NetworkItems, TransfersItems, ScopeItems, MetaItems, JsonData.GetResult;
  }
}
