/**
 The legacy commands from the host's side: a message is sent piece by piece; by INS 0x10 it ends in a review exactly if
 it fits the pieces and its request can be reviewed.
 */
module Delivery {
  import opened Base
  import opened Buffering
  import opened ParserSpec
  import opened AppSpec
  import opened Framing
  import opened Completion
  import opened Runs
  import opened RequestAcceptance
  import Template
  import TL = TemplateLookups
  import T = TransferSpec
  import Syntax

  function Chunk(env: Env, ins: u8, p1: u8, p2: u8, data: Bytes): Event { Command(env, Apdu(CLA, ins, p1, p2, data)) }

  /**
   The host sends the message in pieces of 230 bytes and goes on as long as the device answers 0x9000: the state in
   which the last piece brings up a review, and whether that is a blind one.
   */
  function Delivers(c: Crypto, env: Env, s: State, ins: u8, p1: u8, p2: u8, msg: Bytes): Option<(State, bool)>
    decreases |msg|
  {
    hide Next;
    if |msg| <= LEGACY_CHUNK_SIZE then
      match Next(c, s, Chunk(env, ins, p1, p2, msg))
      case (t, Act(ReviewTx(blind))) => Some((t, blind))
      case _ => None
    else
      var (t, answer) := Next(c, s, Chunk(env, ins, p1, p2, msg[..LEGACY_CHUNK_SIZE]));
      if answer == Act(Send(Reply([], OK))) then Delivers(c, env, t, ins, p1, p2, msg[LEGACY_CHUNK_SIZE..]) else None
  }

  // ---- One piece -------------------------------------------------------------------------------

  /** The transfer leaves what is pending alone, and no refusal looks like success. */
  predicate Honest(s: State, r: (State, Result<bool, nat>)) { r.0.pending == s.pending && r.1 != Err(OK) }

  lemma {:induction false} ItemsHonest(s: State, buf: Bytes, pos: nat)
    ensures Honest(s, TransferItems(s, buf, pos))
    decreases |buf| - pos
  {
    hide Appended;
    if pos < |buf| {
      var next := pos + buf[pos] as int + 1;
      if next <= |buf| && next <= LEGACY_FULL_CHUNK_SIZE {
        var t := LegacyAppend(s, buf[pos..next]).0;
        ItemsHonest(t.(items := U8(t.items + 1)), buf, next);
      }
    }
  }

  lemma {:induction false} FirstHonest(s: State, buf: Bytes)
    ensures InitializeTransfer(s, buf).0.pending == s.pending && InitializeTransfer(s, buf).1 != Err(OK)
  {
    hide PathAt, PrefixOk, Appended;
  }

  lemma {:induction false} LaterHonest(s: State, buf: Bytes)
    ensures ContinueTransfer(s, buf).0.pending == s.pending && ContinueTransfer(s, buf).1 != Err(OK)
  {
    hide Appended;
  }

  lemma {:induction false} ChunkHonest(s: State, buf: Bytes)
    ensures Honest(s, TransferChunk(s, buf))
  {
    hide InitializeTransfer, ContinueTransfer, TransferItems;
    var t := LegacyFirst(s, INS_LEGACY_TRANSFER).0;
    FirstHonest(t, buf);
    LaterHonest(t, buf);
    var (u, pos) := if LegacyFirst(s, INS_LEGACY_TRANSFER) == (t, Ok(true)) then InitializeTransfer(t, buf)
                    else ContinueTransfer(t, buf);
    if pos.Ok? { ItemsHonest(u, buf, pos.value); }
  }

  /** What the device answers to a piece. */
  lemma {:induction false} PieceAnswer(c: Crypto, env: Env, s: State, p1: u8, p2: u8, data: Bytes)
    requires env.pinValidated
    ensures var (t, answer) := Next(c, s, Chunk(env, INS_LEGACY_TRANSFER, p1, p2, data));
            var r := TransferChunk(s.(pending := NoPending), Piece(p1, p2, data));
            && (Awaits(r) <==> answer == Act(Send(Reply([], OK)))) && (Awaits(r) ==> t == r.0 && t.pending == NoPending)
            && (Completes(r) && ParseStep(c, env, r.0, TxTransfer, |r.0.tx|).1.Ok? <==>
                  answer.Act? && answer.action.ReviewTx?)
            && (answer.Act? && answer.action.ReviewTx? ==>
                  answer.action.blind == ParseStep(c, env, r.0, TxTransfer, |r.0.tx|).1.value)
  {
    hide TransferChunk, ParseStep, Raw;
    var a := Apdu(CLA, INS_LEGACY_TRANSFER, p1, p2, data);
    ChunkHonest(s.(pending := NoPending), Raw(a));
    assert Dispatch(c, env, s.(pending := NoPending), a) == LegacyTransfer(c, env, s.(pending := NoPending), a);
  }

  // ---- All pieces ------------------------------------------------------------------------------

  lemma {:induction false} DeliversIs(c: Crypto, env: Env, s: State, p1: u8, p2: u8, msg: Bytes)
    requires env.pinValidated
    ensures var u, sent := Sent(s.(pending := NoPending), p1, p2, msg), Sends(s.(pending := NoPending), p1, p2, msg);
            var r, out := ParseStep(c, env, u, TxTransfer, |u.tx|).1,
                          Delivers(c, env, s, INS_LEGACY_TRANSFER, p1, p2, msg);
            (out.Some? <==> sent && r.Ok?) && (out.Some? ==> out.value.1 == r.value)
    decreases |msg|
  {
    hide Next, TransferChunk, ParseStep, Piece, Chunk;
    if |msg| <= LEGACY_CHUNK_SIZE {
      PieceAnswer(c, env, s, p1, p2, msg);
    } else {
      PieceAnswer(c, env, s, p1, p2, msg[..LEGACY_CHUNK_SIZE]);
      var t := Next(c, s, Chunk(env, INS_LEGACY_TRANSFER, p1, p2, msg[..LEGACY_CHUNK_SIZE])).0;
      DeliversIs(c, env, t, p1, p2, msg[LEGACY_CHUNK_SIZE..]);
    }
  }

  /** The request can be reviewed: its fields fit, the device can serve it, and a token needs blind signing. */
  predicate Reviewable(c: Crypto, env: Env, path: Path, request: Bytes) {
    && T.ReadRequest(request).Ok? && c.publicKey(path).Some?
    && var (txType, f) := T.ReadRequest(request).value;
    && NumbersFit(f) && TextsFit(f) && (env.blindSigning || !T.UsesNamespace(f))
    && c.blake2b(Syntax.PrintDoc(TL.TemplateDoc(f, txType, T.HexLower(c.publicKey(path).value)))).Some?
  }

  predicate NamesToken(request: Bytes) {
    T.ReadRequest(request).Ok? && T.UsesNamespace(T.ReadRequest(request).value.1)
  }

  /** The request in a message, and the path in front of it. */
  function Request(msg: Bytes): Bytes { if PathLen(msg) <= |msg| then msg[PathLen(msg)..] else [] }

  function RequestPath(msg: Bytes): Path { if IsRequest(msg) then PathAt(msg, 1, msg[0] as int) else ZERO_PATH }

  lemma {:induction false} ParseIs(c: Crypto, env: Env, u: State)
    ensures var r := ParseStep(c, env, u, TxTransfer, |u.tx|).1;
            && (r.Ok? <==> Reviewable(c, env, u.signPath, u.tx))
            && (r.Ok? ==> r.value == NamesToken(u.tx))
  {
    hide TxParse, ParseTx, T.ReadRequest, NumbersFit, TextsFit, T.UsesNamespace, T.HexLower, Syntax.PrintDoc;
    assert u.tx[..|u.tx|] == u.tx;
    TransferParsed(c, u.signPath, u.tx, u.template, env.expert, env.blindSigning);
    TransferAccepted(c, u.signPath, u.tx, u.template, env.expert);
  }

  /**
   A message that is sent by 0x10 while no stream is open ends in a review exactly if it is a path and a request that
   fit the pieces, and the request can be reviewed with that path; the review is blind exactly if it names a token.
   */
  lemma {:induction false} MessageReviewed(c: Crypto, env: Env, s: State, p1: u8, p2: u8, msg: Bytes)
    requires AllBytes(msg) && s.stream == NoStream && |s.tx| <= FLASH_CAP && env.pinValidated
    ensures Delivers(c, env, s, INS_LEGACY_TRANSFER, p1, p2, msg).Some? <==>
              Fits(msg) && Reviewable(c, env, RequestPath(msg), Request(msg))
    ensures Delivers(c, env, s, INS_LEGACY_TRANSFER, p1, p2, msg).Some? ==>
              (Delivers(c, env, s, INS_LEGACY_TRANSFER, p1, p2, msg).value.1 <==> NamesToken(Request(msg)))
  {
    hide Delivers, Sends, Sent, ParseStep, Reviewable, PathAt, ItemsFit, NamesToken, AllBytes;
    var t := s.(pending := NoPending);
    DeliversIs(c, env, s, p1, p2, msg);
    MessageSends(t, p1, p2, msg);
    ParseIs(c, env, Sent(t, p1, p2, msg));
  }
}
