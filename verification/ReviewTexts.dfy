/**
 What the review of an accepted JSON text says, item by item, in terms of the text's tree; in expert mode as well.
 */
module ReviewTexts {
  import opened Base
  import opened Errors
  import opened Syntax
  import opened JsmnSpec
  import opened Json
  import opened Lookups
  import opened Nodes
  import opened ItemSpec
  import opened Review
  import opened ReviewProof
  import opened Signers
  import opened RenderSpec
  import opened Showable
  import opened ItemTexts
  import opened JsonAcceptance
  import opened ParserSpec
  import RenderProof
  import Integrity
  import Notations
  import T = TransferSpec

  /** The items are those of the lines: each has its title, can be shown and says what its line says. */
  ghost predicate Speaks(j: Json, items: seq<Item>, lines: seq<Line>, c: Context) {
    |items| == |lines| && forall i | 0 <= i < |items| ::
      && items[i].title == lines[i].title && Rendered(j, items[i], c).Ok?
      && LineSays(lines[i], c, Rendered(j, items[i], c).value)
  }

  lemma {:induction false} TitleOf(j: Json, item: Item, line: Line)
    requires StandsFor(j, item, line)
    ensures item.title == line.title
  {
    hide Node;
  }

  lemma {:induction false} MirrorsSpeak(j: Json, items: seq<Item>, lines: seq<Line>, c: Context)
    requires Mirrors(j, items, lines) && AllShaped(lines)
    requires forall i | 0 <= i < |items| :: Rendered(j, items[i], c).Ok?
    ensures Speaks(j, items, lines, c)
  {
    hide StandsFor, Shaped, LineSays, Rendered;
    forall i | 0 <= i < |items|
      ensures items[i].title == lines[i].title && LineSays(lines[i], c, Rendered(j, items[i], c).value)
    {
      TitleOf(j, items[i], lines[i]);
      ItemSays(j, items[i], lines[i], c);
    }
  }

  // ---- What expert mode adds -------------------------------------------------------------------

  /** The payload and its `cont` are no arrays, on which a lookup by key is not one in a tree. */
  predicate NoArrays(root: Value) {
    match Get(root, "payload")
    case None => true
    case Some(payload) =>
      !payload.Arr? &&
      (payload.Obj? && Get(payload, "exec").None? && Get(payload, "cont").Some? ==> !Get(payload, "cont").value.Arr?)
  }

  function LineOf(v: Value, key: Bytes, title: Title): seq<Line> {
    match Get(v, key)
    case None => []
    case Some(w) => Shown(title, Std, w)
  }

  /** The kind of the payload, and which step of which pact a continuation is. */
  function PayloadLines(root: Value): seq<Line> {
    match Get(root, "payload")
    case None => []
    case Some(payload) =>
      if Get(payload, "exec").Some? then Plain(Payload, ExecText)
      else
        match Get(payload, "cont")
        case None => []
        case Some(cont) =>
          Plain(Payload, ContText) + (LineOf(cont, "pactId", PactId) + LineOf(cont, "step", Title.Step))
  }

  /** The validity window of a recognised `meta`. */
  function TimeLines(root: Value): seq<Line> {
    if !MetaRecognised(root) then []
    else
      var meta := Get(root, "meta").value;
      LineOf(meta, "creationTime", Created) + LineOf(meta, "ttl", Title.Ttl)
  }

  function AddedLines(root: Value): seq<Line> {
    PayloadLines(root) + TimeLines(root) + (Plain(TransactionHash, HashText) + Plain(SignForAddress, SignForAddrText))
  }

  lemma {:induction false} MissingMember(j: Json, at: nat, v: Value, key: Bytes)
    requires Node(j, at, v) && !v.Obj? && !v.Arr?
    ensures Get(v, key) == None && j.GetResult(at, key).Err?
  {
    hide Node;
    NodeLeaf(j, at, v);
    NodeTells(j, at, v);
  }

  /** A member as it is found, in an object or not. */
  lemma {:induction false} MemberIs(j: Json, at: nat, v: Value, key: Bytes)
    requires Node(j, at, v) && !v.Arr?
    ensures match Get(v, key)
            case None => j.GetResult(at, key).Err?
            case Some(w) => j.GetResult(at, key).Ok? && Node(j, j.GetResult(at, key).value, w)
  {
    hide Node, JsonData.GetResult, Child;
    if v.Obj? { NodeGet(j, at, v, key); } else { MissingMember(j, at, v, key); }
  }

  /** The item of a member that must be of some form. */
  function MemberItem(j: Json, at: nat, key: Bytes, title: Title, fits: bool): Build {
    match j.GetResult(at, key)
    case Err(_) => NOTHING
    case Ok(v) => if fits then Show(title, Std, v) else Refuse(BadCharacters)
  }

  lemma {:induction false} MemberMatches(j: Json, at: nat, v: Value, key: Bytes, title: Title, fits: bool)
    requires Node(j, at, v) && !v.Arr?
    ensures Matches(j, MemberItem(j, at, key, title, fits), LineOf(v, key, title))
  {
    hide Node, JsonData.GetResult, Child, Mirrors;
    MemberIs(j, at, v, key);
    MirrorsNone(j);
    if Get(v, key).Some? { MirrorsShow(j, title, Std, j.GetResult(at, key).value, Get(v, key).value); }
  }

  lemma {:induction false} ContMatches(j: Json, at: nat, cont: Value)
    requires Node(j, at, cont) && !cont.Arr?
    ensures Matches(j, ContItems(j, at),
                    Plain(Payload, ContText) + (LineOf(cont, "pactId", PactId) + LineOf(cont, "step", Title.Step)))
  {
    hide Node, JsonData.GetResult, Child, Mirrors, ShownUnescaped, PlainInteger, Then;
    var plainId := j.GetResult(at, "pactId").Ok? && ShownUnescaped(j, j.GetResult(at, "pactId").value);
    var plainStep := j.GetResult(at, "step").Ok? && PlainInteger(j, j.GetResult(at, "step").value);
    MemberMatches(j, at, cont, "pactId", PactId, plainId);
    MemberMatches(j, at, cont, "step", Title.Step, plainStep);
    MirrorsSay(j, Payload, ContText);
    var id, step := MemberItem(j, at, "pactId", PactId, plainId), MemberItem(j, at, "step", Title.Step, plainStep);
    MatchesThen(j, id, step, LineOf(cont, "pactId", PactId), LineOf(cont, "step", Title.Step));
    MatchesThen(j, Say(Payload, ContText), Then(id, step), Plain(Payload, ContText),
      LineOf(cont, "pactId", PactId) + LineOf(cont, "step", Title.Step));
  }

  lemma {:induction false} PayloadMatches(j: Json, root: Value)
    requires Node(j, 0, root) && root.Obj? && NoArrays(root)
    ensures Matches(j, PayloadItems(j), PayloadLines(root))
  {
    hide Node, JsonData.GetResult, Child, Mirrors, ContItems, LineOf;
    MirrorsNone(j);
    MirrorsSay(j, Payload, ExecText);
    NodeGet(j, 0, root, "payload");
    if Get(root, "payload").Some? {
      var at, payload := j.GetResult(0, "payload").value, Get(root, "payload").value;
      MemberIs(j, at, payload, "exec");
      MemberIs(j, at, payload, "cont");
      if Get(payload, "exec").None? && Get(payload, "cont").Some? {
        HasMember(payload, "cont");
        ContMatches(j, j.GetResult(at, "cont").value, Get(payload, "cont").value);
      }
    }
  }

  lemma {:induction false} HasMember(v: Value, key: Bytes)
    requires Get(v, key).Some?
    ensures v.Obj?
  {
  }

  lemma {:induction false} TimesMatch(j: Json, root: Value)
    requires Node(j, 0, root) && root.Obj?
    ensures Matches(j, if ValidateMeta(j).Err? then NOTHING else TimeItems(j), TimeLines(root))
  {
    hide Node, JsonData.GetResult, Child, Mirrors, ValidateMeta, MetaNames;
    RecognisedIs(j, root);
    MirrorsNone(j);
    if MetaRecognised(root) {
      var at, meta := j.GetResult(0, "meta").value, Get(root, "meta").value;
      MemberMatches(j, at, meta, "creationTime", Created, true);
      MemberMatches(j, at, meta, "ttl", Title.Ttl, true);
      MatchesThen(j, MemberItem(j, at, "creationTime", Created, true),
        MemberItem(j, at, "ttl", Title.Ttl, true),
        LineOf(meta, "creationTime", Created), LineOf(meta, "ttl", Title.Ttl));
    }
  }

  /** The items that expert mode adds are those of the added lines. */
  lemma {:induction false} AddedMatch(j: Json, root: Value)
    requires Node(j, 0, root) && root.Obj? && NoArrays(root)
    ensures Matches(j, Then(ExpertMeta(j), ExpertItems()), AddedLines(root))
  {
    hide Node, Child, Mirrors, PayloadItems, TimeItems, ValidateMeta, PayloadLines, TimeLines, NoArrays, Then;
    PayloadMatches(j, root);
    TimesMatch(j, root);
    MirrorsSay(j, TransactionHash, HashText);
    MirrorsSay(j, SignForAddress, SignForAddrText);
    var last := Plain(TransactionHash, HashText) + Plain(SignForAddress, SignForAddrText);
    MatchesThen(j, Say(TransactionHash, HashText), Say(SignForAddress, SignForAddrText),
      Plain(TransactionHash, HashText), Plain(SignForAddress, SignForAddrText));
    var times := if ValidateMeta(j).Err? then NOTHING else TimeItems(j);
    MatchesThen(j, PayloadItems(j), times, PayloadLines(root), TimeLines(root));
    MatchesThen(j, ExpertMeta(j), ExpertItems(), PayloadLines(root) + TimeLines(root), last);
  }

  lemma {:induction false} AddedShaped(root: Value)
    ensures AllShaped(AddedLines(root))
  {
    hide Child, MetaNames;
  }

  // ---- The review of a text --------------------------------------------------------------------

  lemma {:induction false} AllRendered(j: Json, r: ParserSpec.Review, n: nat)
    requires Shows(j, r) && n <= |r.items|
    ensures forall i | 0 <= i < n :: Rendered(j, r.items[..n][i], r.context).Ok?
    ensures forall i | 0 <= i < |r.items| - n :: Rendered(j, r.items[n..][i], r.context).Ok?
  {
    hide Rendered;
  }

  /** What the accepted review of a document says; `n` of its items are those of the entry's lines. */
  lemma {:induction false} DocumentSays(j: Json, root: Value, key: Key32, digest: Option<Key32>, expert: bool, at: nat,
      entry: Value, n: nat)
    requires Node(j, 0, root) && root.Obj? && Node(j, at, entry) && entry.Obj? && Get(entry, "pubKey").Some?
    requires j.GetResult(0, "verifiers").Err? && FindDeviceSigner(j, T.HexLower(key)) == Ok((at, n))
    requires Validated(j, TxReview(j, Some(key), digest, expert)).Ok? && ScopeFits(entry)
    requires TxItems(j, at, n).failure == None ==> Mirrors(j, TxItems(j, at, n).items, ReviewLines(root, entry, n))
    ensures digest.Some?
    ensures var r, lines := TxReview(j, Some(key), digest, expert).value, ReviewLines(root, entry, n);
            && r.context == Context(HashShown(digest.value), Some(T.HexLower(key)), n)
            && |lines| <= |r.items| && Speaks(j, r.items[..|lines|], lines, r.context)
            && (!expert ==> r.items[|lines|..] == [])
            && (expert && NoArrays(root) ==> Speaks(j, r.items[|lines|..], AddedLines(root), r.context))
  {
    hide Node, Mirrors, JsonData.GetResult, Child, FindDeviceSigner, TxItems, ReviewLines, ScopeFits, TxReview, Shows,
      T.HexLower, HashShown, ExpertMeta, ExpertItems, Then, Rendered, NoArrays, AddedLines, Speaks, AllShaped;
    ReviewIs(j, key, digest, expert, at, n);
    var r, lines := TxReview(j, Some(key), digest, expert).value, ReviewLines(root, entry, n);
    var own, more := TxItems(j, at, n).items, Then(ExpertMeta(j), ExpertItems()).items;
    SameLength(j, own, lines);
    LinesShaped(root, entry, n);
    AllRendered(j, r, |lines|);
    assert r.items[..|lines|] == own && r.items[|lines|..] == if expert then more else [];
    MirrorsSpeak(j, own, lines, r.context);
    if expert && NoArrays(root) {
      AddedMatch(j, root);
      AddedShaped(root);
      MirrorsSpeak(j, more, AddedLines(root), r.context);
    }
  }

  /** The hash, the key and the number of signers are those of the text. */
  ghost predicate Contextual(c: Context, digest: Bytes, hex: Bytes, n: nat) {
    Notations.Base64Spells(c.hash, digest) && c.address == Some(hex) && c.nsigners == n
  }

  /**
   Every item of the review says what the line of the tree says that it stands for, for the entry `k` that names the
   device key; and the same holds of what expert mode adds.
   */
  ghost predicate SaysTree(j: Json, r: ParserSpec.Review, root: Value, k: nat, hex: Bytes, digest: Bytes, expert: bool)
  {
    && Get(root, "signers").Some? && Get(root, "signers").value.Arr?
    && var elems := Get(root, "signers").value.elems;
    && TheDevice(elems, hex, k) && Contextual(r.context, digest, hex, |elems|)
    && var lines := ReviewLines(root, elems[k].value, |elems|);
    && |lines| <= |r.items| && Speaks(j, r.items[..|lines|], lines, r.context)
    && (!expert ==> r.items[|lines|..] == [])
    && (expert && NoArrays(root) ==> Speaks(j, r.items[|lines|..], AddedLines(root), r.context))
  }

  /** An accepted review says what the tree of its text says; the hash is that of the text, in base64. */
  lemma {:induction false} TextSays(c: Crypto, path: Path, text: Bytes, expert: bool) returns (d: Doc, k: nat)
    requires |text| < UNSET && ReviewText(c, path, text, expert).Ok?
    ensures Integrity.Readable(d) && PrintDoc(d) == text && c.publicKey(path).Some? && c.blake2b(text).Some?
    ensures SaysTree(DocumentOf(text), ReviewText(c, path, text, expert).value, d.root, k,
                     T.HexLower(c.publicKey(path).value), c.blake2b(text).value, expert)
  {
    hide Integrity.ReadJson, Node, TxReview, Shows, T.HexLower, FindDeviceSigner, TxItems, Mirrors, ReviewLines, Child,
      JsonData.GetResult, HashShown, Names, KeysPlain, NamesPlain, ClistOf, ScopeFits, MetaFits, NullOrPlain, AllShow,
      ExpertFits, Speaks, AddedLines, NoArrays, Valid, Integrity.SoundKeys, PrintDoc, Notations.Base64Spells;
    ReadsFirst(c, path, text, expert);
    d := RenderProof.ReadDocument(text);
    var j, key, digest := DocumentOf(text), c.publicKey(path), c.blake2b(text);
    ReviewFound(j, key, digest, expert);
    var hex := T.HexLower(key.value);
    var (at, n) := FindDeviceSigner(j, hex).value;
    k := AcceptedReview(j, d.root, hex, at, n);
    var entry := Get(d.root, "signers").value.elems[k].value;
    EntryReviewed(j, d.root, key.value, digest, expert, at, entry, n);
    DocumentSays(j, d.root, key.value, digest, expert, at, entry, n);
    Notations.ShowsHash(digest.value);
  }

  /** A member is the device key, as hexadecimal digits in any letter case. */
  predicate FieldSpells(entry: Value, field: Bytes, key: Bytes) {
    Get(entry, field).Some? && Notations.HexSpells(Text(Get(entry, field).value), key)
  }

  /** An entry names the device exactly if its `pubKey` or its `addr` spells the key. */
  lemma {:induction false} NamesSpelled(entry: Value, key: Bytes)
    ensures Names(entry, T.HexLower(key)) <==>
              entry.Obj? && (FieldSpells(entry, "pubKey", key) || FieldSpells(entry, "addr", key))
  {
    hide Child, T.HexLower, EqualIgnoringCase, Notations.HexSpells, Text;
    if Get(entry, "pubKey").Some? { Notations.SameHex(Text(Get(entry, "pubKey").value), key); }
    if Get(entry, "addr").Some? { Notations.SameHex(Text(Get(entry, "addr").value), key); }
  }
}
