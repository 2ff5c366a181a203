/** The lookups and checks behind the review items, as the program runs them. */
module ItemLookups {
  import opened Base
  import opened Errors
  import opened JsmnSpec
  import opened Json
  import opened ItemSpec

  // ---- meta ------------------------------------------------------------------------------------

  /** Bit `p` of a set of keywords. */
  function Bit(p: nat): bv8
    requires p < 6
  {
    if p == 0 then 1 else if p == 1 then 2 else if p == 2 then 4 else if p == 3 then 8 else if p == 4 then 16 else 32
  }

  predicate HasBit(present: bv8, p: nat)
    requires p < 6
  {
    present & Bit(p) != 0
  }

  /** The bits of `present` are the keywords among `names`, none of which is there twice. */
  ghost predicate Marks(present: bv8, names: seq<Bytes>) {
    && present < 64
    && (forall p | 0 <= p < 6 :: HasBit(present, p) <==> META_KEYWORDS[p] in names)
    && (forall n | n in names :: n in META_KEYWORDS)
    && (forall a, b | 0 <= a < b < |names| :: names[a] != names[b])
  }

  lemma {:induction false} SetOne(present: bv8, p: nat, q: nat)
    requires p < 6 && q < 6 && present < 64
    ensures present | Bit(p) < 64
    ensures HasBit(present | Bit(p), q) <==> q == p || HasBit(present, q)
  {
  }

  lemma {:induction false} SetBit(present: bv8, p: nat)
    requires p < 6 && present < 64
    ensures present | Bit(p) < 64
    ensures forall q | 0 <= q < 6 :: HasBit(present | Bit(p), q) <==> q == p || HasBit(present, q)
  {
    hide HasBit, Bit;
    SetOne(present, p, p);
    forall q | 0 <= q < 6 ensures HasBit(present | Bit(p), q) <==> q == p || HasBit(present, q) {
      SetOne(present, p, q);
    }
  }

  lemma {:induction false} LowBits(present: bv8)
    requires present < 64
    ensures present & (present + 1) == 0 <==>
            && (present & 2 != 0 ==> present & 1 != 0) && (present & 4 != 0 ==> present & 2 != 0)
            && (present & 8 != 0 ==> present & 4 != 0) && (present & 16 != 0 ==> present & 8 != 0)
            && (present & 32 != 0 ==> present & 16 != 0)
  {
  }

  /** `present & (present + 1) == 0` exactly when no bit is set above a bit that is not. */
  lemma {:induction false} PrefixBits(present: bv8)
    requires present < 64
    ensures present & (present + 1) == 0 <==> forall p | 0 <= p < 5 && HasBit(present, p + 1) :: HasBit(present, p)
  {
    LowBits(present);
    EachBit(present);
    hide HasBit;
    assert (forall p | 0 <= p < 5 && HasBit(present, p + 1) :: HasBit(present, p)) <==>
      && (HasBit(present, 0 + 1) ==> HasBit(present, 0)) && (HasBit(present, 1 + 1) ==> HasBit(present, 1))
      && (HasBit(present, 2 + 1) ==> HasBit(present, 2)) && (HasBit(present, 3 + 1) ==> HasBit(present, 3))
      && (HasBit(present, 4 + 1) ==> HasBit(present, 4));
  }

  lemma {:induction false} EachBit(present: bv8)
    ensures HasBit(present, 0) <==> present & 1 != 0
    ensures HasBit(present, 1) <==> present & 2 != 0
    ensures HasBit(present, 2) <==> present & 4 != 0
    ensures HasBit(present, 3) <==> present & 8 != 0
    ensures HasBit(present, 4) <==> present & 16 != 0
    ensures HasBit(present, 5) <==> present & 32 != 0
  {
  }

  function Members(names: seq<Bytes>): set<Bytes> { set n | n in names }

  lemma {:induction false} DistinctCount(names: seq<Bytes>)
    requires forall a, b | 0 <= a < b < |names| :: names[a] != names[b]
    ensures |Members(names)| == |names|
    decreases |names|
  {
    if names != [] {
      var front, last := names[..|names| - 1], names[|names| - 1];
      DistinctCount(front);
      assert names == front + [last] && Members(names) == Members(front) + {last};
    }
  }

  lemma {:induction false} SameSet(a: set<Bytes>, b: set<Bytes>)
    requires a <= b && |a| == |b|
    ensures a == b
  {
    assert b == a + (b - a) && |b - a| == 0;
  }

  lemma {:induction false} KeywordsDistinct()
    ensures |META_KEYWORDS| == 6
    ensures forall a, b | 0 <= a < b < 6 :: META_KEYWORDS[a] != META_KEYWORDS[b]
    ensures forall k | k in META_KEYWORDS :: |k| < 40
  {
  }

  /** The keywords whose bit is set are the first so many exactly if the names are. */
  lemma {:induction false} MarksMeta(present: bv8, names: seq<Bytes>)
    requires Marks(present, names) && |names| <= 6
    ensures present & (present + 1) == 0 <==> MetaNames(names)
  {
    KeywordsDistinct();
    PrefixBits(present);
    hide HasBit;
    var n := |names|;
    var first := META_KEYWORDS[..n];
    DistinctCount(names);
    DistinctCount(first);
    if forall k | k in names :: k in first {
      SameSet(Members(names), Members(first));
      forall p | 0 <= p < 5 && HasBit(present, p + 1) ensures HasBit(present, p) {
        assert META_KEYWORDS[p + 1] in Members(first);
        var q :| 0 <= q < n && first[q] == META_KEYWORDS[p + 1];
        assert META_KEYWORDS[p] == first[p] && first[p] in Members(names);
      }
    } else if forall p | 0 <= p < 5 && HasBit(present, p + 1) :: HasBit(present, p) {
      MarkedPrefix(present, names);
    }
  }

  /** With no gap among the bits, the names are the first keywords. */
  lemma {:induction false} MarkedPrefix(present: bv8, names: seq<Bytes>)
    requires Marks(present, names) && |names| <= 6
    requires forall p | 0 <= p < 5 && HasBit(present, p + 1) :: HasBit(present, p)
    ensures forall k | k in names :: k in META_KEYWORDS[..|names|]
  {
    hide HasBit;
    KeywordsDistinct();
    var m := 0;
    while m < 6 && HasBit(present, m)
      invariant 0 <= m <= 6 && forall p | 0 <= p < m :: HasBit(present, p)
    {
      m := m + 1;
    }
    NoneAbove(present, m);
    MarkedNames(present, names, m);
    var first := META_KEYWORDS[..m];
    DistinctCount(names);
    DistinctCount(first);
    assert Members(names) == Members(first);
  }

  lemma {:induction false} MarkedNames(present: bv8, names: seq<Bytes>, m: nat)
    requires Marks(present, names) && m <= 6
    requires (forall p | 0 <= p < m :: HasBit(present, p)) && forall p | m <= p < 6 :: !HasBit(present, p)
    ensures |META_KEYWORDS| == 6 && forall k :: k in names <==> k in META_KEYWORDS[..m]
  {
    hide HasBit;
    KeywordsDistinct();
    var first := META_KEYWORDS[..m];
    forall k | k in names ensures k in first {
      var p :| 0 <= p < 6 && META_KEYWORDS[p] == k;
      assert HasBit(present, p) && first[p] == k;
    }
    forall k | k in first ensures k in names {
      var p :| 0 <= p < m && first[p] == k;
      assert HasBit(present, p) && META_KEYWORDS[p] == k;
    }
  }

  lemma {:induction false} NoneAbove(present: bv8, m: nat)
    requires m <= 6 && (m < 6 ==> !HasBit(present, m))
    requires forall p | 0 <= p < 5 && HasBit(present, p + 1) :: HasBit(present, p)
    ensures forall p | m <= p < 6 :: !HasBit(present, p)
  {
    hide HasBit;
    var q := m;
    while q < 6
      invariant m <= q <= 6 && (q < 6 ==> !HasBit(present, q)) && forall p | m <= p < q :: !HasBit(present, p)
    {
      q := q + 1;
    }
  }

  /** The place of `name` among the keywords. */
  method Keyword(name: Bytes) returns (r: Option<nat>)
    ensures match r case Some(p) => p < 6 && META_KEYWORDS[p] == name case None => name !in META_KEYWORDS
  {
    for p := 0 to 6
      invariant forall q | 0 <= q < p :: META_KEYWORDS[q] != name
    {
      if META_KEYWORDS[p] == name {
        return Some(p);
      }
    }
    return None;
  }

  lemma {:induction false} MarkNext(present: bv8, names: seq<Bytes>, p: nat)
    requires Marks(present, names) && p < 6 && !HasBit(present, p)
    ensures Marks(present | Bit(p), names + [META_KEYWORDS[p]])
  {
    SetBit(present, p);
    KeywordsDistinct();
    hide HasBit;
    assert META_KEYWORDS[p] !in names;
  }

  /** The keys of `meta`, in any order. */
  method ValidateMetaField(j: Json) returns (r: Result<(), ParserError>)
    ensures r == ValidateMeta(j)
  {
    hide HasBit, Marks, JsonData.Keys, JsonData.GetResult, MetaNames;
    var found := j.ObjectGetValue(0, "meta");
    if found.Err? {
      return Err(found.error);
    }
    var meta := found.value;
    if j.IsNull(meta) {
      return Err(NoData);
    }
    if j.Tok(meta).kind != Object {
      return Err(InvalidMetaField);
    }
    r := CheckMetaKeys(j, meta);
  }

  method CheckMetaKeys(j: Json, meta: nat) returns (r: Result<(), ParserError>)
    requires j.Tok(meta).kind == Object
    ensures r == if MetaNames(Spans(j, j.Keys(meta))) then Ok(()) else Err(InvalidMetaField)
  {
    hide HasBit, Marks, JsonData.Keys, MetaNames;
    ghost var keys := j.Keys(meta);
    ghost var names := Spans(j, keys);
    MetaFacts(names);
    var count := j.ObjectGetElementCount(meta);
    if count.Err? || count.value > 6 {
      return Err(InvalidMetaField);
    }
    var present: bv8 := 0;
    NoMarks();
    assert names[..0] == [];
    for i := 0 to count.value
      invariant Marks(present, names[..i])
    {
      var k := j.ObjectGetNthKey(meta, i);
      var t := j.Tok(k.value);
      assert names[i] == j.Span(k.value);
      if t.end - t.start >= 40 {
        LongName(j, k.value);
        NotKeyword(names, i);
        return Err(InvalidMetaField);
      }
      var p := Keyword(j.Span(k.value));
      if p.None? {
        NotKeyword(names, i);
        return Err(InvalidMetaField);
      }
      if present & Bit(p.value) != 0 {
        Repeated(present, names, i, p.value);
        return Err(InvalidMetaField);
      }
      NotMarked(present, p.value);
      MarkNext(present, names[..i], p.value);
      present := present | Bit(p.value);
      assert names[..i + 1] == names[..i] + [names[i]];
    }
    assert names[..count.value] == names;
    MarksMeta(present, names) by { assert Marks(present, names); }
    if present & (present + 1) != 0 {
      return Err(InvalidMetaField);
    }
    r := Ok(());
  }

  lemma {:induction false} MetaFacts(names: seq<Bytes>)
    ensures MetaNames(names) ==> |names| <= 6
  {
  }

  lemma {:induction false} NoMarks()
    ensures Marks(0, [])
  {
  }

  lemma {:induction false} NotMarked(present: bv8, p: nat)
    requires p < 6 && present & Bit(p) == 0
    ensures !HasBit(present, p)
  {
  }

  lemma {:induction false} LongName(j: Json, k: nat)
    requires j.Tok(k).end - j.Tok(k).start >= 40
    ensures j.Span(k) !in META_KEYWORDS
  {
    KeywordsDistinct();
    assert "" !in META_KEYWORDS;
  }

  lemma {:induction false} NotKeyword(names: seq<Bytes>, i: nat)
    requires i < |names| && names[i] !in META_KEYWORDS
    ensures !MetaNames(names)
  {
    assert names[i] in names;
  }

  lemma {:induction false} Repeated(present: bv8, names: seq<Bytes>, i: nat, p: nat)
    requires i < |names| && p < 6 && META_KEYWORDS[p] == names[i] && Marks(present, names[..i]) && present & Bit(p) != 0
    ensures !MetaNames(names)
  {
    assert HasBit(present, p);
    var a :| 0 <= a < i && names[..i][a] == names[i];
  }

  // ---- Capabilities and signers ----------------------------------------------------------------

  method CapKindOf(j: Json, cap: nat) returns (r: CapKind)
    ensures r == KindOfCap(j, cap)
  {
    hide JsonData.GetResult, JsonData.Span;
    if j.Tok(cap).kind == Object {
      var idx := j.ObjectGetValue(cap, "name");
      if idx.Ok? {
        var name := j.Span(idx.value);
        if j.Len(idx.value) == 0 {
          return Unnamed;
        }
        if name == "coin.TRANSFER" {
          return TransferCap;
        }
        if name == "coin.TRANSFER_XCHAIN" {
          return XchainCap;
        }
        if name == "coin.ROTATE" {
          return RotateCap;
        }
        if name == "coin.GAS" {
          return GasCap;
        }
      }
    }
    return Unnamed;
  }

  /** The clist of a signer entry and its number of elements. */
  method GetValidClist(j: Json, signer: nat) returns (r: Option<(nat, nat)>)
    ensures r == match ValidClist(j, signer) case None => None case Some(clist) => Some((clist, |j.Elements(clist)|))
    ensures r.Some? ==> r.value.0 < |j.tokens| && r.value.1 > 0
  {
    hide JsonData.GetResult, JsonData.Elements;
    var clist := j.ObjectGetValue(signer, "clist");
    if clist.Ok? && !j.IsNull(clist.value) {
      var num := j.ArrayGetElementCount(clist.value);
      if num.Err? {
        return None;
      }
      if num.value > 0 {
        return Some((clist.value, num.value));
      }
    }
    return None;
  }

  /** An argument of some capability of the entry is the key, or its account. */
  method FindPubkeyInClist(j: Json, signer: nat, keyTok: nat) returns (found: bool)
    ensures found == KeyInClist(j, signer, keyTok)
  {
    hide JsonData.GetResult, JsonData.Elements, JsonData.Span, KeyInCaps;
    var clist := GetValidClist(j, signer);
    if clist.None? {
      return false;
    }
    ghost var caps := j.Elements(clist.value.0);
    ghost var key := j.Span(keyTok);
    assert caps[0..] == caps;
    for i := 0 to clist.value.1
      invariant KeyInCaps(j, caps, key) == KeyInCaps(j, caps[i..], key)
    {
      KeyInCapsStep(j, caps[i..], key);
      assert caps[i..][1..] == caps[i + 1..];
      var cap := j.ArrayGetNthElement(clist.value.0, i);
      var args := j.ObjectGetValue(cap.value, "args");
      if args.Err? {
        return false;
      }
      GetInRange(j, cap.value, "args");
      var here := FindPubkeyInArgs(j, args.value, keyTok);
      if here {
        return true;
      }
    }
    NoCaps(j, key);
    assert caps[clist.value.1..] == [];
    return false;
  }

  lemma {:induction false} KeyInCapsStep(j: Json, caps: seq<nat>, key: Bytes)
    requires caps != []
    ensures KeyInCaps(j, caps, key) <==>
            match j.GetResult(caps[0], "args")
            case Err(_) => false
            case Ok(args) =>
              (exists a | a in j.Elements(args) :: AfterPrefix(j.Span(a)) == key) || KeyInCaps(j, caps[1..], key)
  {
  }

  lemma {:induction false} NoCaps(j: Json, key: Bytes)
    ensures !KeyInCaps(j, [], key)
  {
  }

  method FindPubkeyInArgs(j: Json, args: nat, keyTok: nat) returns (found: bool)
    requires args < |j.tokens|
    ensures found == exists a | a in j.Elements(args) :: AfterPrefix(j.Span(a)) == j.Span(keyTok)
  {
    hide JsonData.Elements, JsonData.Span;
    ghost var list := j.Elements(args);
    var nargs := j.ArrayGetElementCount(args);
    for k := 0 to nargs.value
      invariant forall i | 0 <= i < k :: AfterPrefix(j.Span(list[i])) != j.Span(keyTok)
    {
      var a := j.ArrayGetNthElement(args, k);
      var value := j.Span(a.value);
      if |value| >= 2 && value[..2] == "k:" {
        value := value[2..];
      }
      assert value == AfterPrefix(j.Span(list[k]));
      if value == j.Span(keyTok) {
        assert list[k] in list;
        return true;
      }
    }
    return false;
  }

  /** Whether an object entry names the device key as `pubKey` or `addr`. */
  method EntryNamesDevice(j: Json, entry: nat, hex: Bytes) returns (r: Result<bool, ParserError>)
    ensures r == NamesDevice(j, entry, hex)
  {
    hide JsonData.GetResult, JsonData.Span, EqualIgnoringCase, HasBackslash;
    if j.Tok(entry).kind != Object {
      return Ok(false);
    }
    var named := false;
    var fields := ["pubKey", "addr"];
    for i := 0 to 2
      invariant i == 1 ==> FieldNames(j, entry, "pubKey", hex) == Ok(named)
      invariant i == 2 ==> NamesDevice(j, entry, hex) == Ok(named)
      invariant i == 0 ==> !named
    {
      var v := j.ObjectGetValue(entry, fields[i]);
      if v.Ok? {
        var text := j.Span(v.value);
        if HasBackslash(text) {
          return Err(UnexpectedCharacters);
        }
        named := named || EqualIgnoringCase(text, hex);
      }
    }
    r := Ok(named);
  }

  /** The device's own signer entry, and the number of entries. */
  method FindSigner(j: Json, hex: Bytes) returns (r: Result<(nat, nat), ParserError>)
    ensures r == FindDeviceSigner(j, hex)
  {
    hide JsonData.GetResult, JsonData.Elements, JsonData.Span, NamesDevice, DeviceEntries, EscapedNames, HasKey;
    var signers := j.ObjectGetValue(0, "signers");
    if signers.Err? {
      return Err(SignerNotFound);
    }
    if j.Tok(signers.value).kind != Array {
      return Err(SignerNotFound);
    }
    GetInRange(j, 0, "signers");
    var count := j.ArrayGetElementCount(signers.value);
    var scanned := ScanEntries(j, signers.value, hex, count.value);
    if scanned.Err? {
      return Err(scanned.error);
    }
    var (matches, entry) := scanned.value;
    if matches == 0 {
      return Err(SignerNotFound);
    }
    if matches != 1 {
      return Err(SignerRepeated);
    }
    var key := CheckKey(j, entry, hex);
    if !key {
      return Err(SignerNotFound);
    }
    var escaped := CheckNames(j, entry);
    r := if escaped then Err(UnexpectedCharacters) else Ok((entry, count.value));
  }

  lemma {:induction false} GetInRange(j: Json, obj: nat, key: Bytes)
    ensures j.GetResult(obj, key).Ok? ==> j.GetResult(obj, key).value < |j.tokens|
  {
    KeysInRange(j, j.Tok(obj).end, obj + 1, j.Tok(obj).start);
  }

  lemma {:induction false} KeysInRange(j: Json, end: nat, ti: nat, prevEnd: nat)
    ensures forall k | k in j.KeysFrom(end, ti, prevEnd) :: k + 1 < |j.tokens|
    decreases |j.tokens| - ti
  {
    if ti + 1 < |j.tokens| && j.tokens[ti].start <= end {
      if j.tokens[ti].start <= prevEnd {
        KeysInRange(j, end, ti + 1, prevEnd);
      } else {
        KeysInRange(j, end, ti + 1, j.tokens[ti + 1].end);
      }
    }
  }

  /** How many entries name the device, and the last of them. */
  method ScanEntries(j: Json, signers: nat, hex: Bytes, count: nat) returns (r: Result<(nat, nat), ParserError>)
    requires signers < |j.tokens| && count == |j.Elements(signers)|
    ensures match DeviceEntries(j, j.Elements(signers), hex)
            case Err(e) => r == Err(e)
            case Ok(found) => r.Ok? && r.value.0 == |found| && (found != [] ==> r.value.1 == found[|found| - 1])
  {
    hide JsonData.Elements, NamesDevice;
    ghost var entries := j.Elements(signers);
    var matches, last := 0, 0;
    ghost var found := [];
    assert entries[0..] == entries;
    ScanStart(DeviceEntries(j, entries, hex));
    for i := 0 to count
      invariant matches == |found| && (found != [] ==> last == found[|found| - 1])
      invariant Scanned(DeviceEntries(j, entries, hex), found, DeviceEntries(j, entries[i..], hex))
    {
      assert entries[i..][1..] == entries[i + 1..];
      ScanStep(j, DeviceEntries(j, entries, hex), found, entries[i..], hex);
      var entry := j.ArrayGetNthElement(signers, i);
      var named := EntryNamesDevice(j, entry.value, hex);
      if named.Err? {
        return Err(named.error);
      }
      if named.value {
        matches, last := matches + 1, entry.value;
        found := found + [entry.value];
      } else {
        assert found + [] == found;
      }
    }
    assert entries[count..] == [] && found + [] == found;
    r := Ok((matches, last));
  }

  /** Having found `found`, the whole scan finds it and then the rest. */
  ghost predicate Scanned(all: Result<seq<nat>, ParserError>, found: seq<nat>, rest: Result<seq<nat>, ParserError>) {
    match rest
    case Err(e) => all == Err(e)
    case Ok(more) => all == Ok(found + more)
  }

  lemma {:induction false} ScanStart(all: Result<seq<nat>, ParserError>)
    ensures Scanned(all, [], all)
  {
    if all.Ok? { assert [] + all.value == all.value; }
  }

  lemma {:induction false} ScanStep(j: Json, all: Result<seq<nat>, ParserError>, found: seq<nat>, entries: seq<nat>,
      hex: Bytes)
    requires entries != [] && Scanned(all, found, DeviceEntries(j, entries, hex))
    ensures match NamesDevice(j, entries[0], hex)
            case Err(e) => all == Err(e)
            case Ok(named) => Scanned(all, found + (if named then [entries[0]] else []),
              DeviceEntries(j, entries[1..], hex))
  {
    hide NamesDevice;
    var named := NamesDevice(j, entries[0], hex);
    var rest := DeviceEntries(j, entries[1..], hex);
    if named.Ok? && rest.Ok? {
      var one := if named.value then [entries[0]] else [];
      assert found + (one + rest.value) == found + one + rest.value;
    }
  }

  method CheckKey(j: Json, entry: nat, hex: Bytes) returns (ok: bool)
    ensures ok == HasKey(j, entry, hex)
  {
    hide JsonData.GetResult, JsonData.Span;
    var pk := j.ObjectGetValue(entry, "pubKey");
    if pk.Err? {
      return false;
    }
    ok := j.Tok(pk.value).kind == String && j.Span(pk.value) == hex;
  }

  method CheckNames(j: Json, entry: nat) returns (escaped: bool)
    ensures escaped == EscapedNames(j, entry)
  {
    hide JsonData.GetResult, JsonData.Elements, JsonData.Span, HasBackslash;
    var clist := j.ObjectGetValue(entry, "clist");
    if clist.Err? || j.Tok(clist.value).kind != Array {
      return false;
    }
    GetInRange(j, entry, "clist");
    ghost var caps := j.Elements(clist.value);
    var n := j.ArrayGetElementCount(clist.value);
    for i := 0 to n.value
      invariant forall k | 0 <= k < i :: !EscapedName(j, caps[k])
    {
      var cap := j.ArrayGetNthElement(clist.value, i);
      var name := j.ObjectGetValue(cap.value, "name");
      if name.Ok? && HasBackslash(j.Span(name.value)) {
        assert EscapedName(j, caps[i]) && caps[i] in caps;
        return true;
      }
    }
    return false;
  }

  /** The token of the number of a transfer's third argument. */
  method CheckAmountOf(j: Json, args: nat) returns (r: Result<nat, ItemsError>)
    requires args < |j.tokens|
    ensures r == CheckAmount(j, j.Elements(args))
  {
    hide JsonData.Elements, JsonData.Keys, JsonData.Span, IsAmount;
    var amount := j.ArrayGetNthElement(args, 2);
    if amount.Err? {
      return Err(Failed);
    }
    var text := amount.value;
    if j.Tok(amount.value).kind == Object {
      var n := j.ObjectGetElementCount(amount.value);
      if n.Err? {
        return Err(Failed);
      }
      if n.value != 1 {
        return Err(BadCharacters);
      }
      var key := j.ObjectGetNthKey(amount.value, 0);
      var value := j.ObjectGetNthValue(amount.value, 0);
      if j.Tok(key.value).kind != String || j.Span(key.value) != "decimal" || j.Tok(value.value).kind != String {
        return Err(BadCharacters);
      }
      text := value.value;
    } else if j.Tok(amount.value).kind != Primitive {
      return Err(BadCharacters);
    }
    if !IsAmount(j.Span(text)) {
      return Err(BadCharacters);
    }
    r := Ok(text);
  }
}
