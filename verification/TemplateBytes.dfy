/** The template of a structured transfer is made of bytes. */
module TemplateBytes {
  import opened Base
  import opened TransferSpec
  import opened Texts
  import TR = TemplateReading

  predicate PiecesAreBytes(ps: seq<Bytes>) { forall i | 0 <= i < |ps| :: AllBytes(ps[i]) }

  lemma {:induction false} JoinBytes(ps: seq<Bytes>)
    requires PiecesAreBytes(ps)
    ensures AllBytes(Join(ps, []))
    decreases |ps|
  {
    if ps != [] { JoinBytes(ps[1..]); }
  }

  lemma {:induction false} PiecesCat(a: seq<Bytes>, b: seq<Bytes>)
    requires PiecesAreBytes(a) && PiecesAreBytes(b)
    ensures PiecesAreBytes(a + b)
  {
    hide AllBytes;
  }

  /** The fields of a request are printable. */
  lemma {:induction false} FieldBytes(f: Fields, txType: nat)
    requires FieldsAllowed(f, txType)
    ensures forall i | 0 <= i < FIELDS :: AllBytes(f[i])
  {
    hide TR.Plain, TR.Numeric, AllBytes;
    TR.AllowedHarmless(f, txType);
    forall i | 0 <= i < FIELDS ensures AllBytes(f[i]) {
      if TR.Plain(f[i]) { PlainBytes(f[i]); } else { NumericBytes(f[i]); }
    }
  }

  lemma {:induction false} PlainBytes(s: Bytes)
    requires TR.Plain(s)
    ensures AllBytes(s)
  {
    assert forall i | 0 <= i < |s| :: s[i] in s;
  }

  lemma {:induction false} NumericBytes(s: Bytes)
    requires TR.Numeric(s)
    ensures AllBytes(s)
  {
    assert forall i | 0 <= i < |s| :: s[i] in s;
  }

  lemma {:induction false} HeadTexts()
    ensures AllBytes("{\"networkId\":\"") && AllBytes("\",\"payload\":{\"exec\":{\"data\":")
  {
  }

  lemma {:induction false} DataTexts()
    ensures AllBytes("{}") && AllBytes("{\"ks\":{\"pred\":\"keys-all\",\"keys\":[\"") && AllBytes("\"]}}")
  {
  }

  lemma {:induction false} CallTexts()
    ensures AllBytes(",\"code\":\"(") && AllBytes(".") && AllBytes("coin") && AllBytes(".transfer")
    ensures AllBytes(".transfer-create") && AllBytes(".transfer-crosschain")
  {
  }

  lemma {:induction false} HeadBytes(f: Fields, txType: nat)
    requires forall i | 0 <= i < FIELDS :: AllBytes(f[i])
    ensures PiecesAreBytes(HeadPieces(f)) && PiecesAreBytes(DataPieces(f, txType)) &&
            PiecesAreBytes(CallPieces(f, txType))
  {
    hide AllBytes;
    HeadTexts();
    DataTexts();
    CallTexts();
    PiecesCat([",\"code\":\"("], NsMod(f));
    PiecesCat([",\"code\":\"("] + NsMod(f), [CallName(txType)]);
  }

  lemma {:induction false} ArgumentTexts()
    ensures AllBytes(" \\\"k:") && AllBytes("\\\" \\\"k:") && AllBytes("\\\"") && AllBytes(" \\\"") && AllBytes(" ")
    ensures AllBytes(" (read-keyset \\\"ks\\\")")
  {
  }

  lemma {:induction false} SignerTexts()
    ensures AllBytes(")\"}},\"signers\":[{\"pubKey\":\"") && AllBytes("\",\"clist\":[{\"args\":[\"k:")
    ensures AllBytes("\",\"k:") && AllBytes("\",") && AllBytes(",\"") && AllBytes("\"")
  {
  }

  lemma {:induction false} ArgumentBytes(f: Fields, txType: nat, addr: Bytes)
    requires (forall i | 0 <= i < FIELDS :: AllBytes(f[i])) && AllBytes(addr)
    ensures PiecesAreBytes(ArgumentPieces(f, txType, addr))
  {
    hide AllBytes;
    ArgumentTexts();
    var a := [" \\\"k:", addr, "\\\" \\\"k:", f[RECIPIENT], "\\\""];
    var b := if txType != TRANSFER then [" (read-keyset \\\"ks\\\")"] else [];
    var c := if txType == TRANSFER_CROSSCHAIN then [" \\\"", f[RECIPIENT_CHAIN], "\\\""] else [];
    PiecesCat(a, b);
    PiecesCat(a + b, c);
    PiecesCat(a + b + c, [" ", f[AMOUNT]]);
  }

  lemma {:induction false} SignerBytes(f: Fields, txType: nat, addr: Bytes)
    requires (forall i | 0 <= i < FIELDS :: AllBytes(f[i])) && AllBytes(addr)
    ensures PiecesAreBytes(SignerPieces(f, txType, addr))
  {
    hide AllBytes;
    SignerTexts();
    PiecesCat([")\"}},\"signers\":[{\"pubKey\":\"", addr, "\",\"clist\":[{\"args\":[\"k:", addr, "\",\"k:",
               f[RECIPIENT], "\",", f[AMOUNT]],
              if txType == TRANSFER_CROSSCHAIN then [",\"", f[RECIPIENT_CHAIN], "\""] else []);
  }

  lemma {:induction false} NameTexts()
    ensures AllBytes("],\"name\":\"") && AllBytes(".TRANSFER") && AllBytes("_XCHAIN") && AllBytes(",\"ttl\":")
    ensures AllBytes(",\"gasLimit\":") && AllBytes(",\"chainId\":\"")
  {
  }

  lemma {:induction false} MetaTexts()
    ensures AllBytes("\",\"gasPrice\":") && AllBytes(",\"sender\":\"k:")
    ensures AllBytes("\"},\"nonce\":\"") && AllBytes("\"}")
    ensures AllBytes("\"},{\"args\":[],\"name\":")
  {
  }

  lemma {:induction false} GasTexts()
    ensures AllBytes("\"coin.GAS\"}]}],\"meta\":{\"creationTime\":")
  {
  }

  lemma {:induction false} GasCapabilityBytes()
    ensures AllBytes(GasCapability())
  {
    hide AllBytes;
    MetaTexts();
    GasTexts();
    MeetsCat("\"},{\"args\":[],\"name\":", "\"coin.GAS\"}]}],\"meta\":{\"creationTime\":", OnlyBytes);
  }

  lemma {:induction false} MetaBytes(f: Fields, txType: nat, addr: Bytes)
    requires (forall i | 0 <= i < FIELDS :: AllBytes(f[i])) && AllBytes(addr)
    ensures PiecesAreBytes(NamePieces(f, txType)) && PiecesAreBytes(MetaPieces(f, addr)) &&
            PiecesAreBytes(TailPieces(f))
  {
    hide AllBytes, GasCapability;
    GasCapabilityBytes();
    CallTexts();
    NameTexts();
    MetaTexts();
    PiecesCat(["],\"name\":\""], NsMod(f));
    PiecesCat(["],\"name\":\""] + NsMod(f), [".TRANSFER"]);
    PiecesCat(["],\"name\":\""] + NsMod(f) + [".TRANSFER"],
              if txType == TRANSFER_CROSSCHAIN then ["_XCHAIN"] else []);
  }

  /** The template is bytes. */
  lemma {:induction false} BuiltBytes(msg: Bytes, key: Option<Bytes>)
    requires Build(msg, key).Ok?
    ensures AllBytes(Build(msg, key).value)
  {
    hide ReadRequest, FieldsAllowed, FieldsInRange, Join, HexLower, AllBytes, Bare, HeadPieces,
      DataPieces, CallPieces, ArgumentPieces, SignerPieces, NamePieces, MetaPieces, TailPieces,
      PiecesAreBytes;
    var (txType, f) := ReadRequest(msg).value;
    var addr := HexLower(key.value);
    HexBare(key.value);
    BareMeets(addr, OnlyBytes);
    FieldBytes(f, txType);
    HeadBytes(f, txType);
    ArgumentBytes(f, txType, addr);
    SignerBytes(f, txType, addr);
    MetaBytes(f, txType, addr);
    var a, b := HeadPieces(f) + DataPieces(f, txType) + CallPieces(f, txType),
                ArgumentPieces(f, txType, addr) + SignerPieces(f, txType, addr);
    PiecesCat(HeadPieces(f), DataPieces(f, txType));
    PiecesCat(HeadPieces(f) + DataPieces(f, txType), CallPieces(f, txType));
    PiecesCat(a, ArgumentPieces(f, txType, addr));
    PiecesCat(a + ArgumentPieces(f, txType, addr), SignerPieces(f, txType, addr));
    var c := a + ArgumentPieces(f, txType, addr) + SignerPieces(f, txType, addr);
    PiecesCat(c, NamePieces(f, txType));
    PiecesCat(c + NamePieces(f, txType), MetaPieces(f, addr));
    PiecesCat(c + NamePieces(f, txType) + MetaPieces(f, addr), TailPieces(f));
    JoinBytes(Pieces(f, txType, addr));
  }
}
