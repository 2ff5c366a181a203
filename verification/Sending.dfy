/**
 The signing commands from the host's side: a path and a message that are sent chunk by chunk bring up a review exactly
 if the path has the right prefix, the message fits the buffer, and it can be reviewed.
 */
module Sending {
  import opened Base
  import opened Buffering
  import opened ParserSpec
  import opened AppSpec
  import opened Paths
  import opened Runs
  import opened Completion
  import opened Framing
  import opened Delivery
  import opened Reviewable
  import Signatures
  import T = TransferSpec

  // ---- The modern commands ---------------------------------------------------------------------

  /** The pieces in a row. */
  function Joined(pieces: seq<Bytes>): Bytes { if pieces == [] then [] else pieces[0] + Joined(pieces[1..]) }

  /** The host sends the pieces, the last of them as the last chunk, as long as the device answers 0x9000. */
  function DeliversRest(c: Crypto, env: Env, s: State, ins: u8, p2: u8, pieces: seq<Bytes>): Option<(State, bool)>
    requires pieces != []
    decreases |pieces|
  {
    hide Next;
    if |pieces| == 1 then
      match Next(c, s, Chunk(env, ins, P1_LAST, p2, pieces[0]))
      case (t, Act(ReviewTx(blind))) => Some((t, blind))
      case _ => None
    else
      var (t, answer) := Next(c, s, Chunk(env, ins, P1_ADD, p2, pieces[0]));
      if answer == Act(Send(Reply([], OK))) then DeliversRest(c, env, t, ins, p2, pieces[1..]) else None
  }

  /** And before them the path, as the first chunk. */
  function DeliversModern(c: Crypto, env: Env, s: State, ins: u8, p2: u8, first: Bytes, pieces: seq<Bytes>)
    : Option<(State, bool)>
    requires pieces != []
  {
    hide Next;
    var (t, answer) := Next(c, s, Chunk(env, ins, P1_INIT, p2, first));
    if answer == Act(Send(Reply([], OK))) then DeliversRest(c, env, t, ins, p2, pieces) else None
  }

  function TypeOfModern(ins: nat): TxType
    requires IsModernSign(ins)
  {
    if ins == INS_SIGN then TxJson else if ins == INS_SIGN_HASH then TxHash else TxTransfer
  }

  lemma {:induction false} ModernNext(c: Crypto, env: Env, s: State, ins: u8, p1: u8, p2: u8, data: Bytes)
    requires env.pinValidated && IsModernSign(ins)
    ensures var (t, r) := SignChunk(c, env, s.(pending := NoPending), ins, TypeOfModern(ins), p1, data);
            Next(c, s, Chunk(env, ins, p1, p2, data)) ==
            (t, Act(match r case Ok(action) => action case Err(sw) => Send(Reply([], sw))))
  {
    hide SignChunk;
    var a := Apdu(CLA, ins, p1, p2, data);
    assert Dispatch(c, env, s.(pending := NoPending), a) ==
           SignChunk(c, env, s.(pending := NoPending), ins, TypeOfModern(ins), p1, data);
  }

  /** A middle chunk adds its data, if there is room. */
  lemma {:induction false} MiddleChunk(c: Crypto, env: Env, s: State, ins: u8, p2: u8, data: Bytes)
    requires env.pinValidated && IsModernSign(ins) && s.stream == Modern(ins)
    ensures var (t, answer) := Next(c, s, Chunk(env, ins, P1_ADD, p2, data));
            && (answer == Act(Send(Reply([], OK))) <==> |s.tx| + |data| <= FLASH_CAP)
            && (|s.tx| + |data| <= FLASH_CAP ==>
                  t.stream == Modern(ins) && t.tx == s.tx + data && t.signPath == s.signPath)
  {
    hide Next, TxParse;
    ModernNext(c, env, s, ins, P1_ADD, p2, data);
  }

  /** The last chunk brings up the review of the whole buffer. */
  lemma {:induction false} LastChunk(c: Crypto, env: Env, s: State, ins: u8, p2: u8, data: Bytes)
    requires env.pinValidated && IsModernSign(ins) && s.stream == Modern(ins)
    ensures var (t, answer) := Next(c, s, Chunk(env, ins, P1_LAST, p2, data));
            (answer.Act? && answer.action.ReviewTx?) <==>
            |s.tx| + |data| <= FLASH_CAP && CanReview(c, env, s.signPath, TypeOfModern(ins), s.tx + data)
  {
    hide Next, ParseStep, CanReview;
    ModernNext(c, env, s, ins, P1_LAST, p2, data);
    if |s.tx| + |data| <= FLASH_CAP {
      var u := s.(pending := NoPending, tx := s.tx + data, stream := NoStream);
      ParsesIfReviewable(c, env, u, TypeOfModern(ins), |u.tx|);
      assert u.tx[..|u.tx|] == u.tx;
    }
  }

  lemma {:induction false} RestReviewed(c: Crypto, env: Env, s: State, ins: u8, p2: u8, pieces: seq<Bytes>)
    requires env.pinValidated && IsModernSign(ins) && s.stream == Modern(ins) && pieces != []
    ensures DeliversRest(c, env, s, ins, p2, pieces).Some? <==>
              |s.tx + Joined(pieces)| <= FLASH_CAP &&
              CanReview(c, env, s.signPath, TypeOfModern(ins), s.tx + Joined(pieces))
    decreases |pieces|
  {
    hide Next, CanReview;
    if |pieces| == 1 {
      LastChunk(c, env, s, ins, p2, pieces[0]);
      assert Joined(pieces) == pieces[0] + Joined([]) == pieces[0];
    } else {
      MiddleChunk(c, env, s, ins, p2, pieces[0]);
      var t := Next(c, s, Chunk(env, ins, P1_ADD, p2, pieces[0])).0;
      assert s.tx + Joined(pieces) == s.tx + pieces[0] + Joined(pieces[1..]);
      if |s.tx| + |pieces[0]| <= FLASH_CAP { RestReviewed(c, env, t, ins, p2, pieces[1..]); }
    }
  }

  /** The first chunk starts a stream, whatever was open before. */
  lemma {:induction false} PathChunk(c: Crypto, env: Env, s: State, ins: u8, p2: u8, first: Bytes, p: seq<nat>)
    requires env.pinValidated && IsModernSign(ins) && AllBytes(first)
    requires Words(p) && |p| == 5 && PathBytes(p) <= first
    ensures var (t, answer) := Next(c, s, Chunk(env, ins, P1_INIT, p2, first));
            && (answer == Act(Send(Reply([], OK))) <==> PrefixOk(Padded(p)))
            && (PrefixOk(Padded(p)) ==> t.stream == Modern(ins) && t.tx == [] && t.signPath == Padded(p))
  {
    hide Next, PathAt, PathBytes, Padded, PrefixOk;
    ModernNext(c, env, s, ins, P1_INIT, p2, first);
    assert first[0..20] == PathBytes(p);
    ReadsPath(first, 0, p);
  }

  /**
   0x22, 0x23 and 0x24, in any state of the device: a path and then a message in pieces bring up a review exactly if the
   path has the right prefix, the message fits the buffer and it can be reviewed with that path.
   */
  lemma {:induction false} ModernReviewed(c: Crypto, env: Env, s: State, ins: u8, p2: u8, first: Bytes, p: seq<nat>,
      pieces: seq<Bytes>)
    requires env.pinValidated && IsModernSign(ins) && AllBytes(first) && pieces != []
    requires Words(p) && |p| == 5 && PathBytes(p) <= first
    ensures DeliversModern(c, env, s, ins, p2, first, pieces).Some? <==>
              && PrefixOk(Padded(p)) && |Joined(pieces)| <= FLASH_CAP
              && CanReview(c, env, Padded(p), TypeOfModern(ins), Joined(pieces))
  {
    hide Next, CanReview, DeliversRest, PathBytes, Padded, PrefixOk;
    PathChunk(c, env, s, ins, p2, first, p);
    var t := Next(c, s, Chunk(env, ins, P1_INIT, p2, first)).0;
    if PrefixOk(Padded(p)) {
      RestReviewed(c, env, t, ins, p2, pieces);
      assert [] + Joined(pieces) == Joined(pieces);
    }
  }

  // ---- 0x03 and 0x04 ---------------------------------------------------------------------------

  /** The message and, behind it, the number of components and the path. */
  function WithPath(m: Bytes, p: seq<nat>): Bytes
    requires |p| < 256
  {
    m + ([|p| as char] + PathBytes(p))
  }

  /** What the host sends: for 0x03, the length of the message in front. */
  function LegacyMessage(ins: nat, m: Bytes, p: seq<nat>): Bytes
    requires |p| < 256
  {
    (if ins == INS_LEGACY_SIGN_JSON then LittleEndian(|m|, 4) else []) + WithPath(m, p)
  }

  function TypeOfLegacy(ins: nat): TxType { if ins == INS_LEGACY_SIGN_JSON then TxJson else TxHash }

  lemma {:induction false} LegacyNext(c: Crypto, env: Env, s: State, ins: u8, p1: u8, p2: u8, data: Bytes)
    requires env.pinValidated && IsLegacySign(ins)
    ensures var (t, r) := LegacySign(c, env, s.(pending := NoPending), ins, ins == INS_LEGACY_SIGN_JSON, data);
            Next(c, s, Chunk(env, ins, p1, p2, data)) ==
            (t, Act(match r case Ok(action) => action case Err(sw) => Send(Reply([], sw))))
  {
    hide LegacySign;
    var a := Apdu(CLA, ins, p1, p2, data);
    assert Dispatch(c, env, s.(pending := NoPending), a) ==
           LegacySign(c, env, s.(pending := NoPending), ins, ins == INS_LEGACY_SIGN_JSON, data);
  }

  /** The whole message is in the buffer. */
  lemma {:induction false} CompleteReviewed(c: Crypto, env: Env, s: State, json: bool, m: Bytes, p: seq<nat>)
    requires 2 <= |p| <= 5 && Words(p) && AllBytes(m) && s.payloadLength == |m| && s.tx == WithPath(m, p)
    requires |s.tx| <= FLASH_CAP
    ensures var r := LegacyComplete(c, env, s, json).1;
            && ((r.Ok? && r.value.ReviewTx?) <==>
                  PrefixOk(Padded(p)) && CanReview(c, env, Padded(p), if json then TxJson else TxHash, m))
            && r != Done()
  {
    hide PathAt, PathBytes, Padded, PrefixOk, CanReview, ParseStep;
    var n := |m|;
    var tail := [|p| as char] + PathBytes(p);
    assert s.tx[n..] == tail && s.tx[n] == tail[0] && tail[1..] == PathBytes(p);
    assert s.tx[n + 1..n + 1 + 4 * |p|] == PathBytes(p) && s.tx[..n] == m;
    TailBytes(m, p);
    ReadsPath(s.tx, n + 1, p);
    var (t, r) := LegacyHdPath(s, s.tx, s.payloadLength, true);
    if r.Ok? {
      var u := t.(signPath := t.hdPath);
      ParsesIfReviewable(c, env, u, if json then TxJson else TxHash, n);
      NotDone(c, env, u, json, n);
    }
  }

  lemma {:induction false} TailBytes(m: Bytes, p: seq<nat>)
    requires AllBytes(m) && |p| < 256
    ensures AllBytes(WithPath(m, p))
  {
    hide PathBytes;
  }

  lemma {:induction false} NotDone(c: Crypto, env: Env, s: State, json: bool, n: nat)
    requires n <= |s.tx|
    ensures LegacyReview(c, env, s, json, n).1 != Done()
  {
    hide ParseStep;
  }

  /** A message that is not yet whole is not taken for one. */
  lemma {:induction false} NotYet(s: State, m: Bytes, p: seq<nat>, rest: Bytes)
    requires 2 <= |p| <= 5 && s.payloadLength == |m| && s.tx + rest == WithPath(m, p)
    ensures EndOfChunk(s) <==> rest == []
  {
    hide PathBytes;
    if |m| < |s.tx| {
      var all := WithPath(m, p);
      assert s.tx[|m|] == all[|m|] && all[|m|..] == [|p| as char] + PathBytes(p);
      assert all[|m|] == ([|p| as char] + PathBytes(p))[0];
    }
  }

  /** A piece of `size` bytes that adds `data` to what is held, of which `rest` is still to come. */
  lemma {:induction false} PieceAdded(c: Crypto, env: Env, s: State, json: bool, size: nat, data: Bytes, m: Bytes,
      p: seq<nat>, rest: Bytes)
    requires 2 <= |p| <= 5 && Words(p) && AllBytes(m) && s.payloadLength == |m|
    requires s.tx + data + rest == WithPath(m, p) && (rest != [] ==> size == LEGACY_CHUNK_SIZE) && |s.tx| <= FLASH_CAP
    requires size <= LEGACY_CHUNK_SIZE
    ensures var (u, added) := LegacyAppend(s, data);
            var whole := LEGACY_HEADER_LENGTH + size < LEGACY_FULL_CHUNK_SIZE || EndOfChunk(u);
            && (added.Ok? <==> |s.tx| + |data| <= FLASH_CAP)
            && (added.Ok? ==> u == s.(tx := s.tx + data) && (whole <==> rest == []))
  {
    hide PathBytes, EndOfChunk;
    if |s.tx| + |data| <= FLASH_CAP { NotYet(s.(tx := s.tx + data), m, p, rest); }
  }

  /** The answer to a piece of an open stream, or to the first. */
  lemma {:induction false} PieceSent(c: Crypto, env: Env, s: State, ins: u8, p1: u8, p2: u8, piece: Bytes, begun: State,
      data: Bytes, m: Bytes, p: seq<nat>, rest: Bytes)
    requires env.pinValidated && IsLegacySign(ins) && |piece| <= LEGACY_CHUNK_SIZE
    requires 2 <= |p| <= 5 && Words(p) && AllBytes(m) && begun.payloadLength == |m| && begun.stream == Legacy(ins)
    requires begun.tx + data + rest == WithPath(m, p) && (rest != [] ==> |piece| == LEGACY_CHUNK_SIZE)
    requires |begun.tx| <= FLASH_CAP && begun.pending == NoPending
    requires LegacySign(c, env, s.(pending := NoPending), ins, ins == INS_LEGACY_SIGN_JSON, piece) ==
             AfterPiece(c, env, begun, ins == INS_LEGACY_SIGN_JSON, |piece|, data)
    ensures var (t, answer), fits := Next(c, s, Chunk(env, ins, p1, p2, piece)), |begun.tx| + |data| <= FLASH_CAP;
            && (rest != [] ==>
                  && (answer == Act(Send(Reply([], OK))) <==> fits)
                  && (fits ==> t == begun.(tx := begun.tx + data)))
            && (rest == [] ==>
                  ((answer.Act? && answer.action.ReviewTx?) <==>
                     fits && PrefixOk(Padded(p)) && CanReview(c, env, Padded(p), TypeOfLegacy(ins), m)))
  {
    hide Next, LegacySign, LegacyComplete, PathBytes, Padded, PrefixOk, CanReview, EndOfChunk;
    var json := ins == INS_LEGACY_SIGN_JSON;
    LegacyNext(c, env, s, ins, p1, p2, piece);
    PieceAdded(c, env, begun, json, |piece|, data, m, p, rest);
    if |begun.tx| + |data| <= FLASH_CAP && rest == [] {
      var u := begun.(tx := begun.tx + data, stream := NoStream);
      assert u.tx == u.tx + rest;
      CompleteReviewed(c, env, u, json, m, p);
    }
  }

  /** A piece once it is known where it starts. */
  function AfterPiece(c: Crypto, env: Env, begun: State, json: bool, size: nat, data: Bytes): (State, Handled) {
    hide LegacyComplete;
    match LegacyAppend(begun, data)
    case (u, Err(e)) => (u, Err(e))
    case (u, Ok(_)) =>
      if !(LEGACY_HEADER_LENGTH + size < LEGACY_FULL_CHUNK_SIZE || EndOfChunk(u)) then (u, Done())
      else LegacyComplete(c, env, u.(stream := NoStream), json)
  }

  lemma {:induction false} LaterPieces(c: Crypto, env: Env, s: State, ins: u8, p1: u8, p2: u8, m: Bytes, p: seq<nat>,
      more: Bytes)
    requires env.pinValidated && IsLegacySign(ins) && s.stream == Legacy(ins) && s.pending == NoPending
    requires 2 <= |p| <= 5 && Words(p) && AllBytes(m) && s.payloadLength == |m| && more != []
    requires s.tx + more == WithPath(m, p) && |s.tx| <= FLASH_CAP
    ensures Delivers(c, env, s, ins, p1, p2, more).Some? <==>
              && PrefixOk(Padded(p)) && |WithPath(m, p)| <= FLASH_CAP
              && CanReview(c, env, Padded(p), TypeOfLegacy(ins), m)
    decreases |more|
  {
    hide Next, LegacySign, AfterPiece, CanReview, Padded, PrefixOk, WithPath;
    var size := if |more| <= LEGACY_CHUNK_SIZE then |more| else LEGACY_CHUNK_SIZE;
    var piece, rest := more[..size], more[size..];
    assert s.tx + piece + rest == s.tx + more;
    assert s.(pending := NoPending) == s;
    LaterIs(c, env, s, ins, piece);
    PieceSent(c, env, s, ins, p1, p2, piece, s, piece, m, p, rest);
    if |more| <= LEGACY_CHUNK_SIZE {
      assert piece == more && rest == [];
    } else if |s.tx| + |piece| <= FLASH_CAP {
      LaterPieces(c, env, s.(tx := s.tx + piece), ins, p1, p2, m, p, rest);
    }
  }

  lemma {:induction false} LaterIs(c: Crypto, env: Env, s: State, ins: nat, piece: Bytes)
    requires s.stream == Legacy(ins)
    ensures LegacySign(c, env, s, ins, ins == INS_LEGACY_SIGN_JSON, piece) ==
            AfterPiece(c, env, s, ins == INS_LEGACY_SIGN_JSON, |piece|, piece)
  {
    hide LegacyComplete;
  }

  lemma {:induction false} FirstIs(c: Crypto, env: Env, s: State, ins: nat, piece: Bytes)
    requires s.stream == NoStream && (ins == INS_LEGACY_SIGN_JSON ==> |piece| >= 4)
    ensures var json := ins == INS_LEGACY_SIGN_JSON;
            var announced := if json then Le32(piece, 0) else HASH_LEN;
            var begun := s.(payloadLength := announced, tx := [], stream := Legacy(ins));
            LegacySign(c, env, s, ins, json, piece) ==
            AfterPiece(c, env, begun, json, |piece|, if json then piece[4..] else piece)
  {
    hide LegacyComplete, Le32;
  }

  /**
   0x03 and 0x04, while no stream is open: a message framed with its length, or a hash of 32 bytes, and then a path, in
   pieces of 230 bytes, bring up a review exactly if the path has the right prefix, both fit the buffer and the message
   can be reviewed with that path.
   */
  lemma {:induction false} LegacyReviewed(c: Crypto, env: Env, s: State, ins: u8, p1: u8, p2: u8, m: Bytes,
      p: seq<nat>)
    requires env.pinValidated && IsLegacySign(ins) && s.stream == NoStream
    requires 2 <= |p| <= 5 && Words(p) && AllBytes(m) && |m| < 0x1_0000_0000
    requires ins == INS_LEGACY_SIGN_HASH ==> |m| == HASH_LEN
    ensures Delivers(c, env, s, ins, p1, p2, LegacyMessage(ins, m, p)).Some? <==>
              && PrefixOk(Padded(p)) && |WithPath(m, p)| <= FLASH_CAP
              && CanReview(c, env, Padded(p), TypeOfLegacy(ins), m)
  {
    hide Next, LegacySign, AfterPiece, CanReview, Padded, PrefixOk, WithPath, Le32, LittleEndian;
    var json, msg := ins == INS_LEGACY_SIGN_JSON, LegacyMessage(ins, m, p);
    LongEnough(m, p);
    var size, skip := if |msg| <= LEGACY_CHUNK_SIZE then |msg| else LEGACY_CHUNK_SIZE, if json then 4 else 0;
    var piece, rest := msg[..size], msg[size..];
    var data := piece[skip..];
    assert msg[skip..] == WithPath(m, p) && data + rest == msg[skip..] && [] + data + rest == data + rest;
    if json {
      assert piece[0..4] == msg[..4] == LittleEndian(|m|, 4);
      PieceBytes(m, p);
      ReadsWord(msg, 0, |m|);
      Signatures.SameWord(piece, 0, msg, 0);
    }
    var idle := s.(pending := NoPending);
    var begun := idle.(payloadLength := |m|, tx := [], stream := Legacy(ins));
    FirstIs(c, env, idle, ins, piece);
    PieceSent(c, env, s, ins, p1, p2, piece, begun, data, m, p, rest);
    if |msg| <= LEGACY_CHUNK_SIZE {
      assert piece == msg && rest == [];
    } else if |data| <= FLASH_CAP {
      LaterPieces(c, env, begun.(tx := begun.tx + data), ins, p1, p2, m, p, rest);
    }
  }

  lemma {:induction false} LongEnough(m: Bytes, p: seq<nat>)
    requires 2 <= |p| < 256
    ensures |WithPath(m, p)| == |m| + 1 + 4 * |p|
  {
  }

  lemma {:induction false} PieceBytes(m: Bytes, p: seq<nat>)
    requires AllBytes(m) && |p| < 256
    ensures AllBytes(LegacyMessage(INS_LEGACY_SIGN_JSON, m, p))
  {
    hide PathBytes, LittleEndian;
    TailBytes(m, p);
  }

  // ---- 0x10 ------------------------------------------------------------------------------------

  /** What the host sends: the number of components, the path, and the request. */
  function TransferMessage(p: seq<nat>, request: Bytes): Bytes
    requires |p| < 256
  {
    [|p| as char] + PathBytes(p) + request
  }

  lemma {:induction false} MessageParts(p: seq<nat>, request: Bytes)
    requires 2 <= |p| <= 5 && Words(p) && AllBytes(request)
    ensures var msg := TransferMessage(p, request);
            && AllBytes(msg) && |msg| > 4 * |p| && msg[0] as int == |p| && PathLen(msg) == 1 + 4 * |p|
            && PathAt(msg, 1, |p|) == Padded(p) && msg[PathLen(msg)..] == request
  {
    hide PathBytes, PathAt, Padded;
    var msg := TransferMessage(p, request);
    assert msg == [|p| as char] + (PathBytes(p) + request);
    assert msg[1..1 + 4 * |p|] == PathBytes(p);
    ReadsPath(msg, 1, p);
  }

  /**
   0x10, while no stream is open: a path and a request in pieces of 230 bytes bring up a review exactly if they fit the
   pieces and the request can be reviewed with that path.
   */
  lemma {:induction false} TransferReviewed(c: Crypto, env: Env, s: State, p1: u8, p2: u8, p: seq<nat>, request: Bytes)
    requires env.pinValidated && s.stream == NoStream && |s.tx| <= FLASH_CAP
    requires 2 <= |p| <= 5 && Words(p) && AllBytes(request)
    ensures Delivers(c, env, s, INS_LEGACY_TRANSFER, p1, p2, TransferMessage(p, request)).Some? <==>
              Fits(TransferMessage(p, request)) && CanReview(c, env, Padded(p), TxTransfer, request)
  {
    hide Delivers, PathAt, Padded, TransferMessage, Delivery.Reviewable, ItemsFit, Body, PrefixOk;
    var msg := TransferMessage(p, request);
    MessageParts(p, request);
    MessageReviewed(c, env, s, p1, p2, msg);
  }
}
