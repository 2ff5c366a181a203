/**
 What an approved signature is, on any run: whose path it is made with, and of which bytes, in terms of what the
 chunks of its own command carried.
 */
module Signatures {
  import opened Base
  import opened Buffering
  import opened Framing
  import opened Reassembly
  import opened ParserSpec
  import opened AppSpec
  import opened Paths
  import opened Runs
  import EndToEnd
  import JsonAcceptance
  import RequestAcceptance
  import RenderProof
  import JsmnSpec
  import Integrity
  import TL = TemplateLookups
  import T = TransferSpec
  import Syntax

  // ---- The path of a stream --------------------------------------------------------------------

  /** The first chunk of a modern command starts with its path, that of 0x10 with a number and as many components. */
  predicate PathTold(h: History) {
    h.chunks != [] ==>
      var a := h.chunks[0];
      && AllBytes(a.data)
      && (IsModernSign(a.ins) && a.p1 == P1_INIT ==>
            h.path == if |a.data| >= 20 then PathAt(a.data, 0, 5) else ZERO_PATH)
      && (a.ins == INS_LEGACY_TRANSFER ==>
            h.path == if HasPath(a.data) then PathAt(a.data, 1, a.data[0] as int) else ZERO_PATH)
  }

  /** A number of components, and as many of them. */
  predicate HasPath(data: Bytes) { data != [] && 2 <= data[0] as int <= 5 && 1 + 4 * data[0] as int <= |data| }

  lemma {:induction false} MoreTold(h: History, a: Apdu, data: Bytes)
    requires PathTold(h) && h.chunks != []
    ensures PathTold(More(h, a, data))
  {
    hide PathAt;
    assert (h.chunks + [a])[0] == h.chunks[0];
  }

  lemma {:induction false} ModernTold(h: History, a: Apdu)
    requires PathTold(h) && AllBytes(a.data) && IsModernSign(a.ins)
    ensures PathTold(TrackModern(h, a))
  {
    hide PathAt;
    if a.p1 == P1_ADD || a.p1 == P1_LAST {
      if h.chunks == [] { assert [] + [a] == [a]; } else { MoreTold(h, a, a.data); }
    }
  }

  /** The path behind the header of an APDU is that at the start of its data. */
  lemma {:induction false} RawPath(a: Apdu, n: nat)
    requires n <= 5 && 1 + 4 * n <= |a.data|
    ensures 6 + 4 * n <= |Raw(a)| && PathAt(Raw(a), 6, n) == PathAt(a.data, 1, n)
  {
    hide Le32;
    var len := if |a.data| <= 300 then |a.data| else 300;
    assert Raw(a)[5..] == a.data[..len];
    forall k | 0 <= k < n ensures Le32(Raw(a), 6 + 4 * k) == Le32(a.data, 1 + 4 * k) {
      assert Raw(a)[6 + 4 * k..10 + 4 * k] == a.data[1 + 4 * k..5 + 4 * k];
      SameWord(Raw(a), 6 + 4 * k, a.data, 1 + 4 * k);
    }
  }

  lemma {:induction false} SameWord(a: Bytes, i: nat, b: Bytes, k: nat)
    requires i + 4 <= |a| && k + 4 <= |b| && a[i..i + 4] == b[k..k + 4]
    ensures Le32(a, i) == Le32(b, k)
  {
    var v, w := a[i..i + 4], b[k..k + 4];
    assert v[0] == a[i] && v[1] == a[i + 1] && v[2] == a[i + 2] && v[3] == a[i + 3];
    assert w[0] == b[k] && w[1] == b[k + 1] && w[2] == b[k + 2] && w[3] == b[k + 3];
  }

  lemma {:induction false} TransferTold(h: History, first: bool, a: Apdu)
    requires PathTold(h) && AllBytes(a.data) && a.ins == INS_LEGACY_TRANSFER && (!first ==> h.chunks != [])
    ensures PathTold(TrackTransfer(h, first, a))
  {
    hide PathAt, Raw, ReadFrom, AfterPath;
    if first {
      RawSize(a);
      if HasPath(a.data) { RawPath(a, a.data[0] as int); }
    } else {
      MoreTold(h, a, ReadFrom(Raw(a), 5));
    }
  }

  lemma {:induction false} RawSize(a: Apdu)
    ensures |Raw(a)| == 5 + if |a.data| <= 300 then |a.data| else 300
    ensures a.data != [] ==> Raw(a)[5] == a.data[0]
  {
  }

  lemma {:induction false} LegacyTold(h: History, first: bool, a: Apdu)
    requires PathTold(h) && AllBytes(a.data) && IsLegacySign(a.ins) && (!first ==> h.chunks != [])
    ensures PathTold(TrackLegacySign(h, first, a))
  {
    hide PathAt, Le32;
    if !first { MoreTold(h, a, a.data); }
  }

  lemma {:induction false} OpenHasChunks(s: State, h: History)
    requires Agrees(s, h) && s.stream != NoStream
    ensures h.chunks != []
  {
  }

  lemma {:induction false} EventTold(h: History, s: State, e: Event)
    requires PathTold(h) && Agrees(s, h) && Proper(e)
    ensures PathTold(Track(h, s, e))
  {
    hide PathTold, TrackModern, TrackLegacySign, TrackTransfer, Agrees;
    if s.stream != NoStream { OpenHasChunks(s, h); }
    if Served(e) {
      if IsModernSign(e.apdu.ins) {
        ModernTold(h, e.apdu);
      } else if IsLegacySign(e.apdu.ins) {
        LegacyTold(h, s.stream == NoStream, e.apdu);
      } else if e.apdu.ins == INS_LEGACY_TRANSFER {
        TransferTold(h, s.stream == NoStream, e.apdu);
      }
    }
  }

  lemma {:induction false} RunTold(c: Crypto, es: seq<Event>)
    requires ProperRun(es)
    ensures PathTold(HistoryAfter(c, es))
    decreases |es|
  {
    hide StateAfter, Track, Agrees, PathTold, Kept, LastOutput, Proper;
    if es == [] {
      NothingTold();
    } else {
      var front := es[..|es| - 1];
      RunTold(c, front);
      RunAgrees(c, front);
      EventTold(HistoryAfter(c, front), StateAfter(c, front), es[|es| - 1]);
    }
  }

  lemma {:induction false} NothingTold()
    ensures PathTold(NO_HISTORY)
  {
  }

  // ---- The path that signs ---------------------------------------------------------------------

  /**
   The chunks carry the path `p`: a modern command in the first 20 bytes, 0x10 behind the number of components at the
   start, and 0x03 and 0x04 behind that number at the end of the message.
   */
  predicate CarriesPath(h: History, p: seq<nat>) {
    && h.chunks != [] && 2 <= |p| <= 5 && Words(p)
    && var ins, first := h.chunks[0].ins, h.chunks[0].data;
    if IsModernSign(ins) then |p| == 5 && PathBytes(p) <= first
    else if ins == INS_LEGACY_TRANSFER then [|p| as char] + PathBytes(p) <= first
    else h.announced <= |h.received| && h.received == h.received[..h.announced] + ([|p| as char] + PathBytes(p))
  }

  /** A path at the start of some bytes. */
  lemma {:induction false} StartsPath(b: Bytes, i: nat, n: nat, p: seq<nat>)
    requires i + 4 * n <= |b| && n <= 5 && AllBytes(b) && Words(p) && |p| == n && b[i..i + 4 * n] == PathBytes(p)
    ensures PathAt(b, i, n) == Padded(p)
  {
    hide PathAt, PathBytes;
    ReadsPath(b, i, p);
  }

  lemma {:induction false} ModernSigns(h: History, p: seq<nat>)
    requires PathTold(h) && CarriesPath(h, p) && IsModernSign(h.chunks[0].ins) && h.chunks[0].p1 == P1_INIT
    ensures h.path == Padded(p)
  {
    hide PathAt, PathBytes;
    var data := h.chunks[0].data;
    assert data[0..20] == PathBytes(p);
    StartsPath(data, 0, 5, p);
  }

  lemma {:induction false} TransferSigns(h: History, p: seq<nat>)
    requires PathTold(h) && CarriesPath(h, p) && h.chunks[0].ins == INS_LEGACY_TRANSFER
    ensures h.path == Padded(p)
  {
    hide PathAt, PathBytes;
    var data, head := h.chunks[0].data, [|p| as char] + PathBytes(p);
    assert data[..|head|] == head && data[0] == head[0] && data[1..|head|] == head[1..] && head[1..] == PathBytes(p);
    StartsPath(data, 1, |p|, p);
  }

  lemma {:induction false} LegacySigns(h: History, p: seq<nat>)
    requires CarriesPath(h, p) && IsLegacySign(h.chunks[0].ins) && AllBytes(h.received)
    ensures h.announced < |h.received| && h.received[h.announced] as int == |p| &&
            |h.received| == h.announced + 1 + 4 * |p| && PathAt(h.received, h.announced + 1, |p|) == Padded(p)
  {
    hide PathAt, PathBytes;
    var n, tail := h.announced, [|p| as char] + PathBytes(p);
    assert h.received[n..] == tail && h.received[n] == tail[0] && h.received[n + 1..n + 1 + 4 * |p|] == tail[1..] &&
           tail[1..] == PathBytes(p);
    StartsPath(h.received, n + 1, |p|, p);
  }

  /** Whatever path the chunks carry signs. */
  lemma {:induction false} PathSigns(c: Crypto, es: seq<Event>, p: seq<nat>)
    requires ProperRun(es) && StateAfter(c, es).pending.PendingSign? && CarriesPath(HistoryAfter(c, es), p)
    ensures StateAfter(c, es).signPath == Padded(p)
  {
    hide StateAfter, HistoryAfter, PathAt, PathBytes, Parses, Proper, Body, Data, Kept, LastOutput, CarriesPath,
      PathTold, AllBytes;
    var s, h := StateAfter(c, es), HistoryAfter(c, es);
    PendingReviewed(c, es);
    RunTold(c, es);
    EndToEnd.ReceivedBytes(c, es);
    if IsModernSign(h.chunks[0].ins) {
      ModernSigns(h, p);
    } else if h.chunks[0].ins == INS_LEGACY_TRANSFER {
      TransferSigns(h, p);
    } else {
      LegacySigns(h, p);
    }
  }

  lemma {:induction false} ZeroUnfit()
    ensures !PrefixOk(ZERO_PATH)
  {
  }

  /** And they carry one. */
  lemma {:induction false} PathCarried(c: Crypto, es: seq<Event>) returns (p: seq<nat>)
    requires ProperRun(es) && StateAfter(c, es).pending.PendingSign?
    ensures CarriesPath(HistoryAfter(c, es), p) && StateAfter(c, es).signPath == Padded(p)
  {
    hide StateAfter, HistoryAfter, PathAt, PathBytes, Parses, Proper, Body, Data, Kept, LastOutput, AllBytes;
    var s, h := StateAfter(c, es), HistoryAfter(c, es);
    PendingReviewed(c, es);
    RunTold(c, es);
    EndToEnd.ReceivedBytes(c, es);
    ZeroUnfit();
    var data := h.chunks[0].data;
    if IsModernSign(h.chunks[0].ins) {
      p := EncodesPath(data, 0, 5);
      assert data[..20] == data[0..20];
    } else if h.chunks[0].ins == INS_LEGACY_TRANSFER {
      p := EncodesPath(data, 1, data[0] as int);
      Starts(data, data[0] as int);
    } else {
      var n := h.announced;
      p := EncodesPath(h.received, n + 1, h.received[n] as int);
      Ends(h.received, n);
    }
  }

  lemma {:induction false} Starts(data: Bytes, n: nat)
    requires 1 + 4 * n <= |data| && data[0] as int == n
    ensures [n as char] + data[1..1 + 4 * n] <= data
  {
  }

  lemma {:induction false} Ends(data: Bytes, n: nat)
    requires n < |data|
    ensures data == data[..n] + ([data[n]] + data[n + 1..])
  {
  }

  // ---- What is signed --------------------------------------------------------------------------

  /** The text that is signed, of anything but a hash: the message carried, or the template of the request carried. */
  function TextOf(c: Crypto, h: History, path: Path): Bytes
    requires h.chunks != []
  {
    var ins := h.chunks[0].ins;
    if ins == INS_SIGN then h.received
    else if ins == INS_LEGACY_SIGN_JSON then h.received[..Min(h.announced, |h.received|)]
    else
      match (T.ReadRequest(h.received), c.publicKey(path))
      case (Ok((txType, f)), Some(pk)) => Syntax.PrintDoc(TL.TemplateDoc(f, txType, T.HexLower(pk)))
      case _ => []
  }

  /** The 32 bytes that are signed: those of the hash carried, or the hash of the text. */
  function HashOf(c: Crypto, h: History, path: Path): Option<Bytes>
    requires h.chunks != []
  {
    if OfHash(h.chunks[0].ins) then (if |h.received| >= 32 then Some(h.received[..32]) else None)
    else c.blake2b(TextOf(c, h, path))
  }

  /** The signature with that path; for 0x10, the key that signed follows it. */
  ghost predicate Replies(c: Crypto, h: History, path: Path, reply: Reply) {
    && h.chunks != []
    && var hash, transfer := HashOf(c, h, path), h.chunks[0].ins == INS_LEGACY_TRANSFER;
    && hash.Some? && |hash.value| == 32 && (transfer ==> c.publicKey(path).Some?)
    && reply == match c.sign(path, hash.value)
                case None => Reply([], SIGN_VERIFY_ERROR)
                case Some(signature) => Reply(signature + (if transfer then c.publicKey(path).value else []), OK)
  }

  lemma {:induction false} JsonHash(c: Crypto, path: Path, text: Bytes, expert: bool)
    requires |text| < JsmnSpec.UNSET && ReviewText(c, path, text, expert).Ok?
    ensures text != [] && c.blake2b(text).Some?
  {
    hide Integrity.ReadJson, TxReview, Shows, JsonAcceptance.TreeFits, T.HexLower, Integrity.Readable, Syntax.Valid,
      Syntax.Len;
    JsonAcceptance.TextAccepted(c, path, text, expert);
    JsonAcceptance.ReadsFirst(c, path, text, expert);
    var d := RenderProof.ReadDocument(text);
    Syntax.PrintLength(d.root, d.trail);
    ObjectLength(d.root);
  }

  lemma {:induction false} ObjectLength(v: Syntax.Value)
    requires v.Obj?
    ensures Syntax.Len(v) >= 1
  {
  }

  /** What is reviewed is not empty and can be hashed. */
  lemma {:induction false} ReviewedHash(c: Crypto, expert: bool, t: State, h: History)
    requires Reviewed(c, expert, t, h) && |t.tx| <= FLASH_CAP
    ensures h.chunks != [] && t.pending.PendingSign? && SignedText(t, h) != []
    ensures SignedHash(c, t, h) == HashOf(c, h, t.signPath) && HashOf(c, h, t.signPath).Some?
    ensures |HashOf(c, h, t.signPath).value| == 32
    ensures h.chunks[0].ins == INS_LEGACY_TRANSFER ==> c.publicKey(t.signPath).Some?
  {
    hide ParseTx, PathAt, T.ReadRequest, T.HexLower, Syntax.PrintDoc, Body, Told, PrefixOk, ReviewText;
    PendingChunks(c, expert, t, h);
    EndToEnd.ParsedFrom(c, expert, t, h);
    if OfHash(h.chunks[0].ins) {
      HashReviewed(c, expert, t, h);
      MessageKept(c, expert, t, h);
    } else if TypeOf(t.pending.kind) == TxTransfer {
      TransferHash(c, t.signPath, h.received, expert);
    } else {
      JsonParsed(c, t.signPath, Message(h, t.pending.kind), expert);
      JsonHash(c, t.signPath, Message(h, t.pending.kind), expert);
    }
  }

  lemma {:induction false} JsonParsed(c: Crypto, path: Path, msg: Bytes, expert: bool)
    requires ParseTx(c, path, TxJson, msg, [], expert).1.Ok?
    ensures ReviewText(c, path, msg, expert).Ok?
  {
    hide ReviewText;
  }

  lemma {:induction false} TransferHash(c: Crypto, path: Path, msg: Bytes, expert: bool)
    requires ParseTx(c, path, TxTransfer, msg, [], expert).1.Ok?
    ensures T.ReadRequest(msg).Ok? && c.publicKey(path).Some?
    ensures var (txType, f) := T.ReadRequest(msg).value;
            var text := ParseTx(c, path, TxTransfer, msg, [], expert).1.value.text;
            && text == Syntax.PrintDoc(TL.TemplateDoc(f, txType, T.HexLower(c.publicKey(path).value)))
            && text != [] && c.blake2b(text).Some?
  {
    hide T.ReadRequest, T.HexLower, Syntax.PrintDoc, T.Build, ReviewText, RequestAcceptance.NumbersFit,
      RequestAcceptance.TextsFit;
    RequestAcceptance.TransferAccepted(c, path, msg, [], expert);
    TL.BuildFits(msg, c.publicKey(path).value);
    var text := ParseTx(c, path, TxTransfer, msg, [], expert).1.value.text;
    assert ReviewText(c, path, text, expert).Ok?;
    JsonHash(c, path, text, expert);
  }

  /**
   The answer to an approved review, on any run: the signature, with the path that the command's chunks carried, of
   the 32 bytes of the hash that they carried, or of the blake2b-256 of the message or of the request's template.
   */
  lemma {:induction false} ApprovedReply(c: Crypto, es: seq<Event>) returns (p: seq<nat>)
    requires ProperRun(es) && es != [] && es[|es| - 1] == SignAnswer(true)
    requires StateAfter(c, es[..|es| - 1]).pending.PendingSign?
    ensures var h := HistoryAfter(c, es[..|es| - 1]);
            && CarriesPath(h, p) && LastOutput(c, es).Answer? && Replies(c, h, Padded(p), LastOutput(c, es).reply)
  {
    hide StateAfter, HistoryAfter, CarriesPath, Reviewed, Proper, HashOf, Digest, SignedText, SignedHash, Told;
    var front := es[..|es| - 1];
    var s, h := StateAfter(c, front), HistoryAfter(c, front);
    PendingReviewed(c, front);
    EndToEnd.RunFits(c, front);
    p := PathCarried(c, front);
    var expert := front[|front| - 1].env.expert;
    ReviewedHash(c, expert, s, h);
    MessageKept(c, expert, s, h);
    DigestIs(c, expert, s, h);
  }

  /** Without approval, or without a review that is pending, nothing is signed. */
  lemma {:induction false} NothingSigned(c: Crypto, es: seq<Event>)
    requires es != [] && es[|es| - 1].SignAnswer?
    requires !es[|es| - 1].approved || !StateAfter(c, es[..|es| - 1]).pending.PendingSign?
    ensures LastOutput(c, es) == Answer(Reply([], COMMAND_NOT_ALLOWED))
  {
    hide StateAfter, SignReply;
  }
}
