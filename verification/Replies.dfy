/** What is answered without a path: the version, and the refusals that come before any handler. */
module Replies {
  import opened Base
  import opened ParserSpec
  import opened AppSpec

  /** The number that bytes write, the most significant first. */
  function BigNumber(b: Bytes): nat {
    if b == [] then 0 else 256 * BigNumber(b[..|b| - 1]) + b[|b| - 1] as int
  }

  function Pow256(k: nat): nat { if k == 0 then 1 else 256 * Pow256(k - 1) }

  lemma {:induction false} BigEndianReads(n: nat, k: nat)
    requires n < Pow256(k)
    ensures |BigEndian(n, k)| == k && BigNumber(BigEndian(n, k)) == n
    decreases k
  {
    if k > 0 {
      BigEndianReads(n / 256, k - 1);
      var head, b := BigEndian(n / 256, k - 1), BigEndian(n, k);
      assert b[..k - 1] == head && b[k - 1] as int == n % 256;
    }
  }

  lemma {:induction false} Powers()
    ensures Pow256(2) == 0x1_0000 && Pow256(4) == 0x1_0000_0000
  {
    assert Pow256(1) == 256 * Pow256(0);
    assert Pow256(2) == 256 * Pow256(1);
    assert Pow256(3) == 256 * Pow256(2);
  }

  lemma {:induction false} Parts(a: Bytes, b: Bytes, c: Bytes, lock: Bytes, id: Bytes)
    requires |a| == |b| == |c| == 2 && |lock| == 1 && |id| == 4
    ensures var d := "\0" + a + b + c + lock + id;
            |d| == 12 && d[0] == '\0' && d[1..3] == a && d[3..5] == b && d[5..7] == c && d[7] == lock[0] && d[8..] == id
  {
  }

  /** The version is answered in any state, with or without the PIN: twelve bytes, its numbers big-endian. */
  lemma {:induction false} VersionAnswer(c: Crypto, env: Env, s: State, a: Apdu)
    requires a.cla == CLA && a.ins == INS_GET_VERSION
    ensures var (t, action) := Handle(c, env, s, a);
            && t == s.(pending := NoPending) && action.Send? && action.reply.sw == OK && |action.reply.data| == 12
            && var d := action.reply.data;
            && d[0] as int == 0 && (BigNumber(d[1..3]), BigNumber(d[3..5]), BigNumber(d[5..7])) == env.version
            && d[7] as int == (if env.uxLocked then 1 else 0) && BigNumber(d[8..]) == env.targetId
  {
    hide Dispatch, BigEndian, BigNumber;
    var (major, minor, patch) := env.version;
    Powers();
    BigEndianReads(major, 2);
    BigEndianReads(minor, 2);
    BigEndianReads(patch, 2);
    BigEndianReads(env.targetId, 4);
    Parts(BigEndian(major, 2), BigEndian(minor, 2), BigEndian(patch, 2),
      [if env.uxLocked then 1 as char else 0 as char], BigEndian(env.targetId, 4));
  }

  /** The legacy version has one byte a number, which loses what is above 255. */
  lemma {:induction false} LegacyVersionAnswer(c: Crypto, env: Env, s: State, a: Apdu)
    requires a.cla == CLA && a.ins == INS_LEGACY_GET_VERSION && env.pinValidated
    ensures var (t, action) := Handle(c, env, s, a);
            && t == s.(pending := NoPending) && action.Send? && action.reply.sw == OK && |action.reply.data| == 3
            && forall i, n | (i, n) in {(0, env.version.0), (1, env.version.1), (2, env.version.2)} ::
                 action.reply.data[i] as int == n % 256
  {
    hide SignChunk, LegacySign, LegacyTransfer, GetAddr, LegacyGetAddr;
  }

  /** Another class, another instruction or a missing PIN is refused before any handler, and drops what is pending. */
  lemma {:induction false} Refusals(c: Crypto, env: Env, s: State, a: Apdu)
    requires !(a.cla == 0xE0 && a.ins == 0x01 && a.p1 == 0 && a.p2 == 0)
    requires a.cla != CLA || (a.ins != INS_GET_VERSION && (!NeedsPin(a.ins) || !env.pinValidated))
    ensures Handle(c, env, s, a) ==
            (s.(pending := NoPending),
             Send(Reply([], if a.cla != CLA then CLA_NOT_SUPPORTED
                            else if !NeedsPin(a.ins) then INS_NOT_SUPPORTED else COMMAND_NOT_ALLOWED)))
  {
    hide Dispatch, VersionReply;
  }
}
