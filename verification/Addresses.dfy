/** The commands that return an address: the key of the path they carry, at once or after approval. */
module Addresses {
  import opened Base
  import opened Errors
  import opened Buffering
  import opened ParserSpec
  import opened AppSpec
  import opened Paths
  import opened Runs
  import opened Delivery
  import Signatures

  predicate IsAddress(ins: nat) { ins in {INS_GET_ADDR, INS_LEGACY_VERIFY_ADDRESS, INS_LEGACY_GET_PUBKEY} }

  /** The command carries the path `p`: in its first 20 bytes, or as all of its data behind the number of components. */
  predicate AsksFor(a: Apdu, p: seq<nat>) {
    Words(p) &&
    if a.ins == INS_GET_ADDR then |p| == 5 && PathBytes(p) <= a.data
    else 2 <= |p| <= 5 && a.data == [|p| as char] + PathBytes(p)
  }

  /** The key is reviewed first: always by 0x01, and by 0x21 if its P1 asks for it. */
  predicate Reviews(a: Apdu) {
    a.ins == INS_LEGACY_VERIFY_ADDRESS || (a.ins == INS_GET_ADDR && a.p1 != 0)
  }

  /** The reply with a key; a blank is in front of it in the legacy commands. */
  function KeyReply(ins: nat, pk: Bytes): Reply { Reply((if ins == INS_GET_ADDR then [] else [' ']) + pk, OK) }

  predicate Served(env: Env, a: Apdu) { a.cla == CLA && IsAddress(a.ins) && env.pinValidated }

  // ---- One command -----------------------------------------------------------------------------

  lemma {:induction false} ModernPath(s: State, data: Bytes, p: seq<nat>)
    requires AllBytes(data) && Words(p) && |p| == 5 && PathBytes(p) <= data
    ensures ExtractHdPath(s, data).0.hdPath == Padded(p) && ExtractHdPath(s, data).0.pending == s.pending
    ensures ExtractHdPath(s, data).1 == if PrefixOk(Padded(p)) then Ok(()) else Err(DATA_INVALID)
  {
    hide PathAt, PathBytes, Padded;
    assert data[0..20] == PathBytes(p);
    ReadsPath(data, 0, p);
  }

  lemma {:induction false} LegacyPath(s: State, a: Apdu, p: seq<nat>)
    requires AllBytes(a.data) && Words(p) && 2 <= |p| <= 5 && a.data == [|p| as char] + PathBytes(p)
    ensures var (t, r) := LegacyHdPath(s, Raw(a), LEGACY_HEADER_LENGTH, true);
            && t.hdPath == Padded(p) && t.pending == s.pending
            && r == if PrefixOk(Padded(p)) then Ok(()) else Err(DATA_INVALID)
  {
    hide PathAt, PathBytes, Padded, Raw;
    Signatures.RawSize(a);
    Signatures.RawPath(a, |p|);
    assert a.data[1..1 + 4 * |p|] == PathBytes(p);
    ReadsPath(a.data, 1, p);
  }

  /** What an address command answers, and what it leaves pending. */
  lemma {:induction false} AddressAnswer(c: Crypto, env: Env, s: State, a: Apdu, p: seq<nat>)
    requires Served(env, a) && AllBytes(a.data) && AsksFor(a, p)
    ensures var path, (t, action) := Padded(p), Handle(c, env, s, a);
            if !PrefixOk(path) then action == Send(Reply([], DATA_INVALID)) && t.pending == NoPending
            else
              match c.publicKey(path)
              case None => action == Send(Reply([], EXECUTION_ERROR)) && t.pending == NoPending
              case Some(pk) =>
                if Reviews(a) then action == ReviewAddress && t.pending == PendingAddress(pk, a.ins != INS_GET_ADDR)
                else action == Send(KeyReply(a.ins, pk)) && t.pending == NoPending
  {
    hide PathBytes, Padded, Raw, ExtractHdPath, LegacyHdPath, PrefixOk;
    var was := s.(pending := NoPending);
    if a.ins == INS_GET_ADDR { ModernPath(was, a.data, p); } else { LegacyPath(was, a, p); }
  }

  /** The command succeeds: with a key, or by asking for approval. */
  predicate Succeeds(action: Action) { action == ReviewAddress || (action.Send? && action.reply.sw == OK) }

  /** A command that succeeds carries a path. */
  lemma {:induction false} AskedPath(c: Crypto, env: Env, s: State, a: Apdu) returns (p: seq<nat>)
    requires a.cla == CLA && IsAddress(a.ins) && AllBytes(a.data) && Succeeds(Handle(c, env, s, a).1)
    ensures env.pinValidated && AsksFor(a, p)
  {
    hide PathBytes, PathAt, Raw, PrefixOk;
    Signatures.RawSize(a);
    if a.ins == INS_GET_ADDR {
      p := EncodesPath(a.data, 0, 5);
      assert a.data[..20] == a.data[0..20];
    } else {
      LegacySize(s.(pending := NoPending), a);
      p := EncodesPath(a.data, 1, a.data[0] as int);
      assert a.data == [a.data[0]] + a.data[1..];
    }
  }

  lemma {:induction false} LegacySize(s: State, a: Apdu)
    requires LegacyHdPath(s, Raw(a), LEGACY_HEADER_LENGTH, true).1.Ok?
    ensures a.data != [] && 2 <= a.data[0] as int <= 5 && |a.data| == 1 + 4 * (a.data[0] as int)
  {
    hide Raw, PathAt, PrefixOk;
    Signatures.RawSize(a);
  }

  // ---- Every run -------------------------------------------------------------------------------

  lemma {:induction false} SignLeavesNone(c: Crypto, env: Env, s: State, a: Apdu, txType: TxType)
    requires s.pending == NoPending
    ensures !SignChunk(c, env, s, a.ins, txType, a.p1, a.data).0.pending.PendingAddress?
  {
    hide TxParse, PathAt, PrefixOk;
  }

  lemma {:induction false} ReviewLeavesNone(c: Crypto, env: Env, s: State, json: bool, msgLen: nat)
    requires s.pending == NoPending && msgLen <= |s.tx|
    ensures !LegacyReview(c, env, s, json, msgLen).0.pending.PendingAddress?
  {
    hide TxParse;
  }

  lemma {:induction false} LegacyLeavesNone(c: Crypto, env: Env, s: State, ins: nat, json: bool, data: Bytes)
    requires s.pending == NoPending
    ensures !LegacySign(c, env, s, ins, json, data).0.pending.PendingAddress?
  {
    hide LegacyReview, PathAt, PrefixOk, Le32;
    var n := if json && s.stream == NoStream && |data| >= 4 then Le32(data, 0) else HASH_LEN;
    forall u: State | u.pending == NoPending ensures !LegacyComplete(c, env, u, json).0.pending.PendingAddress? {
      var (t, r) := LegacyHdPath(u, u.tx, u.payloadLength, true);
      if |u.tx| >= u.payloadLength && r.Ok? {
        ReviewLeavesNone(c, env, t.(signPath := t.hdPath), json, |t.tx| - t.hdpathLength);
      }
    }
  }

  lemma {:induction false} TransferLeavesNone(c: Crypto, env: Env, s: State, a: Apdu)
    requires s.pending == NoPending
    ensures !LegacyTransfer(c, env, s, a).0.pending.PendingAddress?
  {
    hide TxParse, TransferChunk, Raw;
    ChunkHonest(s, Raw(a));
  }

  lemma {:induction false} KeyPends(c: Crypto, s: State, show: bool, a: Apdu)
    requires s.pending == NoPending
    ensures GetAddr(c, s, a.p1, a.data).0.pending != NoPending ==> GetAddr(c, s, a.p1, a.data).1 == Ok(ReviewAddress)
    ensures LegacyGetAddr(c, s, show, a).0.pending != NoPending ==> LegacyGetAddr(c, s, show, a).1 == Ok(ReviewAddress)
  {
    hide PathAt, PrefixOk, Raw;
  }

  /** Only an address command leaves an address pending. */
  lemma {:induction false} PendsAddress(c: Crypto, env: Env, s: State, a: Apdu)
    requires Handle(c, env, s, a).0.pending.PendingAddress?
    ensures a.cla == CLA && IsAddress(a.ins) && Handle(c, env, s, a).1 == ReviewAddress
  {
    hide SignChunk, LegacySign, LegacyTransfer, GetAddr, LegacyGetAddr, VersionReply;
    var was := s.(pending := NoPending);
    KeyPends(c, was, true, a);
    KeyPends(c, was, false, a);
    if a.cla == CLA && NeedsPin(a.ins) && !IsAddress(a.ins) {
      SignLeavesNone(c, env, was, a, TxJson);
      SignLeavesNone(c, env, was, a, TxHash);
      SignLeavesNone(c, env, was, a, TxTransfer);
      LegacyLeavesNone(c, env, was, a.ins, true, a.data);
      LegacyLeavesNone(c, env, was, a.ins, false, a.data);
      TransferLeavesNone(c, env, was, a);
    }
  }

  /**
   The answer to an address review, on any run: if it is approved, and the command before it asked for the review, the
   key of the path that this command carried; a refusal otherwise.
   */
  lemma {:induction false} AddressAnswered(c: Crypto, es: seq<Event>, approved: bool) returns (p: seq<nat>)
    requires ProperRun(es)
    ensures var reply := LastOutput(c, es + [Event.AddressAnswer(approved)]);
            if StateAfter(c, es).pending.PendingAddress? && approved then
              && es != [] && es[|es| - 1].Command? && Served(es[|es| - 1].env, es[|es| - 1].apdu)
              && LastOutput(c, es) == Act(ReviewAddress)
              && var a := es[|es| - 1].apdu;
              && AsksFor(a, p) && PrefixOk(Padded(p)) && c.publicKey(Padded(p)).Some?
              && reply == Answer(KeyReply(a.ins, c.publicKey(Padded(p)).value))
            else reply == Answer(Reply([], COMMAND_NOT_ALLOWED))
  {
    hide StateAfter, Handle, PathBytes, Padded, PrefixOk, Words;
    StateNext(c, es, Event.AddressAnswer(approved));
    p := [];
    if StateAfter(c, es).pending.PendingAddress? && approved {
      StartsIdle(c);
      var front, e := es[..|es| - 1], es[|es| - 1];
      assert es == front + [e];
      StateNext(c, front, e);
      OnlyCommandsPend(c, StateAfter(c, front), e);
      PendsAddress(c, e.env, StateAfter(c, front), e.apdu);
      p := AskedPath(c, e.env, StateAfter(c, front), e.apdu);
      AddressAnswer(c, e.env, StateAfter(c, front), e.apdu, p);
    }
  }

  lemma {:induction false} StartsIdle(c: Crypto)
    ensures StateAfter(c, []).pending == NoPending
  {
  }

  lemma {:induction false} OnlyCommandsPend(c: Crypto, s: State, e: Event)
    ensures Next(c, s, e).0.pending != NoPending ==> e.Command?
  {
    hide Handle, SignReply;
  }
}
