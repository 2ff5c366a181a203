/**
 INS 0x10: the items of a structured transfer arrive split across APDUs at byte 235. Nothing that arrives
 before that byte is lost, repeated or moved.
 */
module Reassembly {
  import opened Base
  import opened Buffering
  import opened Framing
  import opened ParserSpec
  import opened AppSpec

  // ---- What is kept between the APDUs ----------------------------------------------------------

  /** An item that is cut short: its length byte is there, and it does not wrap the 8-bit length. */
  predicate Partial(local: Bytes, itemLen: nat) { local != [] && itemLen == U8(local[0] as int + 1) }

  /** The buffer is a type byte and whole items; what is kept aside is the start of the next one. */
  ghost predicate Framed(s: State) {
    && s.tx != [] && Items(s.tx[1..], s.items)
    && |s.tx| <= FLASH_CAP && |s.local| < LEGACY_LOCAL_BUFFER_SIZE
    && (if s.checkItemLen then s.local == [] else Partial(s.local, s.itemLen))
  }

  /** More than twelve items take more APDUs than the buffer has room for: the 8-bit counter cannot wrap. */
  predicate Counted(s: State) {
    && |s.tx| + |s.local| >= 209
    && (s.items > LEGACY_TRANSFER_NUM_ITEMS ==> 230 * (s.items - LEGACY_TRANSFER_NUM_ITEMS) + 209 <= |s.tx| + |s.local|)
  }

  /** What 0x10 leaves alone. */
  predicate SameOutside(s: State, t: State) {
    t.signPath == s.signPath && t.hdPath == s.hdPath && t.pending == s.pending && t.payloadLength == s.payloadLength &&
    t.template == s.template && t.parsed == s.parsed
  }

  lemma {:induction false} AppendItem(tx: Bytes, n: nat, item: Bytes)
    requires tx != [] && Items(tx[1..], n) && item != [] && |item| == 1 + item[0] as int
    ensures Items((tx + item)[1..], n + 1)
  {
    assert (tx + item)[1..] == tx[1..] + item;
    ItemsAppend(tx[1..], n, item);
  }

  lemma {:induction false} Slice(buf: Bytes, a: nat, b: nat, c: nat)
    requires a <= b <= c <= |buf|
    ensures buf[a..b] + buf[b..c] == buf[a..c]
  {
  }

  /** The bytes of an APDU that are read, from byte `lo` on: those before byte 235. */
  function ReadFrom(buf: Bytes, lo: nat): Bytes {
    if lo <= |buf| <= LEGACY_FULL_CHUNK_SIZE then buf[lo..]
    else if lo <= LEGACY_FULL_CHUNK_SIZE <= |buf| then buf[lo..LEGACY_FULL_CHUNK_SIZE]
    else []
  }

  /** The state after the items of one APDU, which add its bytes from `lo` on to `base`. */
  ghost predicate After(s: State, base: Bytes, lo: nat, buf: Bytes, r: (State, Result<bool, nat>)) {
    var (t, result) := r;
    SameOutside(s, t) && |t.tx| <= FLASH_CAP &&
    match result
    case Err(_) => true
    case Ok(false) =>
      && t.stream == s.stream && |buf| >= LEGACY_FULL_CHUNK_SIZE && t.tx + t.local == base + ReadFrom(buf, lo)
      && Framed(t) && (t.items <= LEGACY_TRANSFER_NUM_ITEMS || t.items == s.items)
    case Ok(true) =>
      && t.stream == NoStream && |buf| < LEGACY_FULL_CHUNK_SIZE && t.tx == base + ReadFrom(buf, lo)
      && t.tx != [] && Items(t.tx[1..], LEGACY_TRANSFER_NUM_ITEMS)
  }

  /** Between two items of an APDU: the bytes from `lo` to `pos` have been added to `base`. */
  ghost predicate Between(s: State, base: Bytes, lo: nat, buf: Bytes, pos: nat) {
    && AllBytes(buf) && lo <= pos <= LEGACY_FULL_CHUNK_SIZE && s.tx != [] && Items(s.tx[1..], s.items)
    && |s.tx| <= FLASH_CAP && s.local == [] && (pos <= |buf| ==> s.tx == base + buf[lo..pos])
  }

  /** The state after item `buf[pos..next]` has been added. */
  function WithItem(s: State, item: Bytes): State { s.(tx := s.tx + item, items := U8(s.items + 1)) }

  lemma {:induction false} ItemAdded(s: State, base: Bytes, lo: nat, buf: Bytes, pos: nat, next: nat)
    requires Between(s, base, lo, buf, pos) && s.items < 255
    requires pos < next <= |buf| && next == pos + buf[pos] as int + 1 <= LEGACY_FULL_CHUNK_SIZE &&
             |s.tx| + (next - pos) <= FLASH_CAP
    ensures WithItem(s, buf[pos..next]).items == s.items + 1 &&
            Between(WithItem(s, buf[pos..next]), base, lo, buf, next)
  {
    hide Items, AllBytes;
    AppendItem(s.tx, s.items, buf[pos..next]);
    Slice(buf, lo, pos, next);
    assert base + buf[lo..pos] + buf[pos..next] == base + (buf[lo..pos] + buf[pos..next]);
  }

  /** Items are added one by one until the APDU ends, or one does not fit in it. */
  lemma {:induction false} ItemsUnfold(s: State, buf: Bytes, pos: nat)
    requires pos < |buf| && pos != LEGACY_FULL_CHUNK_SIZE && pos + buf[pos] as int + 1 <= LEGACY_FULL_CHUNK_SIZE
    requires pos + buf[pos] as int + 1 <= |buf| && |s.tx| + buf[pos] as int + 1 <= FLASH_CAP
    ensures var next := pos + buf[pos] as int + 1;
            var u := WithItem(s, buf[pos..next]);
            TransferItems(s, buf, pos) ==
            if u.items > LEGACY_TRANSFER_NUM_ITEMS then (u, Err(DATA_INVALID))
            else if next >= |buf| && next != LEGACY_FULL_CHUNK_SIZE then
              if u.items != LEGACY_TRANSFER_NUM_ITEMS then (u, Err(DATA_INVALID))
              else (u.(stream := NoStream), Ok(true))
            else TransferItems(u, buf, next)
  {
  }

  /** An APDU that ends here, or an item that is refused or kept aside. */
  lemma {:induction false} ItemsEnd(s: State, base: Bytes, lo: nat, buf: Bytes, pos: nat)
    requires Between(s, base, lo, buf, pos)
    requires pos < |buf| && pos != LEGACY_FULL_CHUNK_SIZE ==>
               var next := pos + buf[pos] as int + 1;
               next > LEGACY_FULL_CHUNK_SIZE || next > |buf| || |s.tx| + (next - pos) > FLASH_CAP
    ensures After(s, base, lo, buf, TransferItems(s, buf, pos))
  {
    hide Items, AllBytes;
    if pos < |buf| == LEGACY_FULL_CHUNK_SIZE {
      Slice(buf, lo, pos, LEGACY_FULL_CHUNK_SIZE);
      assert buf[lo..LEGACY_FULL_CHUNK_SIZE] == ReadFrom(buf, lo);
      assert base + buf[lo..pos] + buf[pos..LEGACY_FULL_CHUNK_SIZE] ==
             base + (buf[lo..pos] + buf[pos..LEGACY_FULL_CHUNK_SIZE]);
    } else if pos == LEGACY_FULL_CHUNK_SIZE <= |buf| {
      assert s.tx + [] == s.tx && buf[lo..pos] == ReadFrom(buf, lo);
    }
  }

  lemma {:induction false} ItemsKeep(s: State, base: Bytes, lo: nat, buf: Bytes, pos: nat)
    requires Between(s, base, lo, buf, pos) && s.items < 255
    ensures After(s, base, lo, buf, TransferItems(s, buf, pos))
    decreases |buf| - pos
  {
    hide Items, AllBytes, TransferItems;
    if pos < |buf| && pos != LEGACY_FULL_CHUNK_SIZE && pos + buf[pos] as int + 1 <= LEGACY_FULL_CHUNK_SIZE &&
       pos + buf[pos] as int + 1 <= |buf| && |s.tx| + buf[pos] as int + 1 <= FLASH_CAP {
      var next := pos + buf[pos] as int + 1;
      var u := WithItem(s, buf[pos..next]);
      ItemAdded(s, base, lo, buf, pos, next);
      ItemsUnfold(s, buf, pos);
      if u.items <= LEGACY_TRANSFER_NUM_ITEMS && !(next >= |buf| && next != LEGACY_FULL_CHUNK_SIZE) {
        ItemsKeep(u, base, lo, buf, next);
      } else {
        assert next == |buf| ==> buf[lo..next] == ReadFrom(buf, lo);
      }
    } else {
      ItemsEnd(s, base, lo, buf, pos);
    }
  }

  // ---- One APDU --------------------------------------------------------------------------------

  /** The stream is open, between two APDUs, having received `received` after the path. */
  ghost predicate Holding(s: State, received: Bytes) {
    s.stream == Legacy(INS_LEGACY_TRANSFER) && s.tx + s.local == received && Framed(s) && Counted(s)
  }

  /** The twelve items are complete: the buffer alone is all that was received. */
  ghost predicate Complete(s: State, received: Bytes) {
    s.stream == NoStream && s.tx == received && Body(s.tx) && |s.tx| <= FLASH_CAP
  }

  /** The data of a first APDU after its path. */
  function AfterPath(buf: Bytes): Bytes { if |buf| <= 5 then [] else ReadFrom(buf, 6 + 4 * (buf[5] as int)) }

  lemma {:induction false} FirstChunk(s: State, buf: Bytes)
    requires AllBytes(buf) && 5 <= |buf| && s.stream == NoStream && |s.tx| <= FLASH_CAP
    ensures match TransferChunk(s, buf)
            case (t, Err(_)) => |t.tx| <= FLASH_CAP && t.pending == s.pending && t.payloadLength == s.payloadLength
            case (t, Ok(false)) =>
              Holding(t, AfterPath(buf)) && t.signPath == PathAt(buf, 6, buf[5] as int) && PrefixOk(t.signPath) &&
                t.pending == s.pending
            case (t, Ok(true)) =>
              Complete(t, AfterPath(buf)) && t.signPath == PathAt(buf, 6, buf[5] as int) && PrefixOk(t.signPath) &&
                t.pending == s.pending
  {
    hide AllBytes, TransferItems;
    var (u, at) := InitializeTransfer(s, buf);
    if at.Ok? {
      var start := 6 + 4 * (buf[5] as int);
      assert u.tx == [] + buf[start..start + 1] && u.tx[1..] == [];
      assert Items(u.tx[1..], 0);
      hide Items;
      ItemsKeep(u, [], start, buf, start + 1);
    }
  }

  lemma {:induction false} NextChunk(s: State, received: Bytes, buf: Bytes)
    requires AllBytes(buf) && AllBytes(s.local) && 5 <= |buf| && Holding(s, received)
    ensures match TransferChunk(s, buf)
            case (t, Err(_)) => |t.tx| <= FLASH_CAP && t.pending == s.pending && t.payloadLength == s.payloadLength
            case (t, Ok(false)) => Holding(t, received + ReadFrom(buf, 5)) && SameOutside(s, t)
            case (t, Ok(true)) => Complete(t, received + ReadFrom(buf, 5)) && SameOutside(s, t)
  {
    hide AllBytes, TransferItems, Items;
    var (u, at) := ContinueTransfer(s, buf);
    if at.Ok? {
      Continued(s, received, buf);
      if at.value <= LEGACY_FULL_CHUNK_SIZE {
        ItemsKeep(u, received, 5, buf, at.value);
      } else {
        PastEnd(u, buf, at.value);
      }
    }
  }

  /** The rest of the item that was cut short. */
  lemma {:induction false} Continued(s: State, received: Bytes, buf: Bytes)
    requires AllBytes(buf) && AllBytes(s.local) && 5 <= |buf| && Holding(s, received) && ContinueTransfer(s, buf).1.Ok?
    ensures var (u, at) := ContinueTransfer(s, buf);
            && u.items == s.items + 1 && SameOutside(s, u) && u.stream == s.stream && |u.tx| <= FLASH_CAP
            && (at.value <= LEGACY_FULL_CHUNK_SIZE ==> Between(u, received, 5, buf, at.value))
  {
    hide TransferItems, Items;
    var (u, at) := ContinueTransfer(s, buf);
    var rest := buf[5..at.value];
    AppendItem(s.tx, s.items, s.local + rest);
    assert s.tx + s.local + rest == s.tx + (s.local + rest);
  }

  /** An item that goes on past byte 235 of a longer APDU is refused. */
  lemma {:induction false} PastEnd(s: State, buf: Bytes, pos: nat)
    requires pos > LEGACY_FULL_CHUNK_SIZE
    ensures TransferItems(s, buf, pos).0 == s && TransferItems(s, buf, pos).1.Err?
  {
  }
}
