/**
 INS 0x10: exactly when a structured transfer is complete, for one APDU and for a whole message that is sent in
 pieces of 230 bytes.
 */
module Completion {
  import opened Base
  import opened Buffering
  import opened Framing
  import opened ParserSpec
  import opened AppSpec
  import opened Reassembly

  /** The twelve items are in. */
  predicate Completes(r: (State, Result<bool, nat>)) { r.1.Ok? && r.1.value }

  /** The chunk is accepted, and more must come. */
  predicate Awaits(r: (State, Result<bool, nat>)) { r.1.Ok? && !r.1.value }

  // ---- One APDU --------------------------------------------------------------------------------

  /** The items of an APDU complete the twelve exactly if they are the ones left, and the APDU is not full. */
  lemma {:induction false} ItemsComplete(s: State, buf: Bytes, pos: nat)
    requires s.items < 255
    ensures Completes(TransferItems(s, buf, pos)) <==>
            && pos <= |buf| < LEGACY_FULL_CHUNK_SIZE && s.items < LEGACY_TRANSFER_NUM_ITEMS
            && |s.tx| + |buf| - pos <= FLASH_CAP && Items(buf[pos..], LEGACY_TRANSFER_NUM_ITEMS - s.items)
    decreases |buf| - pos
  {
    hide TransferItems;
    if pos < |buf| && pos != LEGACY_FULL_CHUNK_SIZE && pos + buf[pos] as int + 1 <= LEGACY_FULL_CHUNK_SIZE &&
       pos + buf[pos] as int + 1 <= |buf| && |s.tx| + buf[pos] as int + 1 <= FLASH_CAP {
      var next := pos + buf[pos] as int + 1;
      ItemsUnfold(s, buf, pos);
      assert buf[pos..][1 + buf[pos] as int..] == buf[next..];
      if s.items < LEGACY_TRANSFER_NUM_ITEMS && (next < |buf| || next == LEGACY_FULL_CHUNK_SIZE) {
        ItemsComplete(WithItem(s, buf[pos..next]), buf, next);
      }
    } else {
      ItemsStop(s, buf, pos);
    }
  }

  lemma {:induction false} ItemsStop(s: State, buf: Bytes, pos: nat)
    requires pos < |buf| && pos != LEGACY_FULL_CHUNK_SIZE ==>
               var next := pos + buf[pos] as int + 1;
               next > LEGACY_FULL_CHUNK_SIZE || next > |buf| || |s.tx| + (next - pos) > FLASH_CAP
    ensures !Completes(TransferItems(s, buf, pos))
  {
  }

  /** Where a later APDU goes on, behind the item that was cut short; the length byte is there if it is due. */
  function GoesOn(s: State, buf: Bytes): nat
    requires |buf| > 5 && (!s.checkItemLen ==> s.itemLen > |s.local|)
  {
    if s.checkItemLen then 6 + buf[5] as int else 5 + s.itemLen - |s.local|
  }

  /** A later APDU can go on: it has data, and the item that was cut short has a length that is kept. */
  predicate CanGoOn(s: State, buf: Bytes) { |buf| > 5 && (s.checkItemLen || s.itemLen > |s.local|) }

  lemma {:induction false} CountHeld(s: State, received: Bytes)
    requires Holding(s, received)
    ensures s.items < 100 && |s.tx| <= FLASH_CAP && |s.local| < LEGACY_LOCAL_BUFFER_SIZE
  {
    hide Items;
  }

  /** A later APDU completes the transfer exactly if it ends the item that was cut short and has the items left. */
  lemma {:induction false} LaterComplete(s: State, received: Bytes, buf: Bytes)
    requires Holding(s, received) && 5 <= |buf|
    ensures Completes(TransferChunk(s, buf)) <==>
            && CanGoOn(s, buf) && GoesOn(s, buf) <= |buf| < LEGACY_FULL_CHUNK_SIZE
            && s.items < LEGACY_TRANSFER_NUM_ITEMS - 1 && |received| + |buf| - 5 <= FLASH_CAP
            && Items(buf[GoesOn(s, buf)..], LEGACY_TRANSFER_NUM_ITEMS - 1 - s.items)
  {
    hide Items, TransferItems;
    CountHeld(s, received);
    var (u, at) := ContinueTransfer(s, buf);
    if at.Ok? { ItemsComplete(u, buf, at.value); }
  }

  /** A first APDU has a path with the app's prefix. */
  predicate PathGiven(buf: Bytes) {
    && |buf| > 5 && 2 <= buf[5] as int <= 5 && 6 + 4 * (buf[5] as int) <= |buf|
    && PrefixOk(PathAt(buf, 6, buf[5] as int))
  }

  /** A first APDU completes the transfer exactly if it has a path, a type byte and the twelve items. */
  lemma {:induction false} FirstComplete(s: State, buf: Bytes)
    requires s.stream == NoStream
    ensures Completes(TransferChunk(s, buf)) <==>
            && PathGiven(buf) && 6 + 4 * (buf[5] as int) < |buf| < LEGACY_FULL_CHUNK_SIZE
            && Items(buf[7 + 4 * (buf[5] as int)..], LEGACY_TRANSFER_NUM_ITEMS)
  {
    hide Items, TransferItems, PathAt;
    var (u, at) := InitializeTransfer(s, buf);
    if at.Ok? { ItemsComplete(u, buf, at.value); }
  }

  /** An APDU that is not full never waits for more: it completes the transfer or is refused. */
  lemma {:induction false} ShortChunkEnds(s: State, buf: Bytes)
    requires |buf| < LEGACY_FULL_CHUNK_SIZE
    ensures !Awaits(TransferChunk(s, buf))
  {
    hide TransferItems, LegacyHdPath;
    forall t: State, pos: nat ensures !Awaits(TransferItems(t, buf, pos)) { ShortItemsEnd(t, buf, pos); }
  }

  lemma {:induction false} ShortItemsEnd(s: State, buf: Bytes, pos: nat)
    requires |buf| < LEGACY_FULL_CHUNK_SIZE
    ensures !Awaits(TransferItems(s, buf, pos))
    decreases |buf| - pos
  {
    hide TransferItems;
    if pos < |buf| && pos + buf[pos] as int + 1 <= |buf| && |s.tx| + buf[pos] as int + 1 <= FLASH_CAP {
      var next := pos + buf[pos] as int + 1;
      ItemsUnfold(s, buf, pos);
      ShortItemsEnd(WithItem(s, buf[pos..next]), buf, next);
    } else {
      ItemsRefused(s, buf, pos);
    }
  }

  lemma {:induction false} ItemsRefused(s: State, buf: Bytes, pos: nat)
    requires |buf| < LEGACY_FULL_CHUNK_SIZE
    requires pos < |buf| ==> pos + buf[pos] as int + 1 > |buf| || |s.tx| + buf[pos] as int + 1 > FLASH_CAP
    ensures TransferItems(s, buf, pos).1.Err?
  {
  }

  // ---- A message in pieces ---------------------------------------------------------------------

  function Piece(p1: u8, p2: u8, data: Bytes): Bytes { Raw(Apdu(CLA, INS_LEGACY_TRANSFER, p1, p2, data)) }

  /** The message, sent in pieces of 230 bytes, is taken piece by piece, and the last one completes the transfer. */
  predicate Sends(s: State, p1: u8, p2: u8, msg: Bytes)
    decreases |msg|
  {
    if |msg| <= LEGACY_CHUNK_SIZE then Completes(TransferChunk(s, Piece(p1, p2, msg)))
    else
      var r := TransferChunk(s, Piece(p1, p2, msg[..LEGACY_CHUNK_SIZE]));
      Awaits(r) && Sends(r.0, p1, p2, msg[LEGACY_CHUNK_SIZE..])
  }

  /** The first multiple of 230 at or after byte `at` of a message: where a piece ends. */
  function PieceEnd(at: nat): nat { (at + LEGACY_CHUNK_SIZE - 1) / LEGACY_CHUNK_SIZE * LEGACY_CHUNK_SIZE }

  /**
   An item from byte `start` to `next` of a message of `total` bytes lies in one piece. Or it is cut by the end of a
   piece, or follows it; then at most 32 bytes of it are before, it is not 255 bytes long, it ends with the next
   piece at the latest, and it is not the last.
   */
  predicate ItemFits(start: nat, next: nat, total: nat) {
    var end := PieceEnd(start);
    next <= end ||
    ((start == end || (end - start < LEGACY_LOCAL_BUFFER_SIZE && next - start < 256)) &&
     next <= end + LEGACY_CHUNK_SIZE && next < total)
  }

  /** They are `n` items, and each of them fits, the first starting at byte `start` of the message. */
  predicate ItemsFit(items: Bytes, n: nat, start: nat)
    decreases n
  {
    if n == 0 then items == []
    else
      items != [] &&
      var len := 1 + items[0] as int;
      len <= |items| && ItemFits(start, start + len, start + |items|) && ItemsFit(items[len..], n - 1, start + len)
  }

  /** Where the request starts in a message: behind the path. */
  function PathLen(msg: Bytes): nat { if msg == [] then 0 else 1 + 4 * (msg[0] as int) }

  /** The message is a path with the app's prefix and a request. */
  predicate IsRequest(msg: Bytes) {
    && msg != [] && 2 <= msg[0] as int <= 5 && PathLen(msg) <= |msg| && PrefixOk(PathAt(msg, 1, msg[0] as int))
    && Body(msg[PathLen(msg)..])
  }

  /** It does not end with a full piece, and every item fits. */
  predicate Fits(msg: Bytes) {
    && IsRequest(msg) && |msg| % LEGACY_CHUNK_SIZE != 0
    && ItemsFit(msg[PathLen(msg)..][1..], LEGACY_TRANSFER_NUM_ITEMS, PathLen(msg) + 1)
  }

  // ---- Between two pieces ----------------------------------------------------------------------

  /** `more` is still to come: with what is kept aside it is the items left, the first of them cut short at most. */
  predicate Paused(s: State, more: Bytes) {
    && s.stream == Legacy(INS_LEGACY_TRANSFER) && s.items <= LEGACY_TRANSFER_NUM_ITEMS
    && |s.local| < LEGACY_LOCAL_BUFFER_SIZE && Items(s.local + more, LEGACY_TRANSFER_NUM_ITEMS - s.items)
    && (if s.checkItemLen then s.local == [] else Partial(s.local, s.itemLen) && |s.local| <= s.local[0] as int < 256)
    && |s.tx| + |s.local| + |more| <= FLASH_CAP
  }

  /** The items still to come fit, the next of them starting `end - |s.local|` bytes into the message. */
  predicate RestFits(s: State, more: Bytes, end: nat) {
    Paused(s, more) && |s.local| <= end &&
    ItemsFit(s.local + more, LEGACY_TRANSFER_NUM_ITEMS - s.items, end - |s.local|)
  }

  /** Inside one piece, between two items: byte `pos` of the APDU is byte `at` of the message. */
  predicate Inside(s: State, buf: Bytes, pos: nat, more: Bytes, at: nat) {
    && AllBytes(buf) && 5 < pos <= |buf| <= LEGACY_FULL_CHUNK_SIZE && (more != [] ==> |buf| == LEGACY_FULL_CHUNK_SIZE)
    && pos - 5 <= at && (at - (pos - 5)) % LEGACY_CHUNK_SIZE == 0
    && s.stream == Legacy(INS_LEGACY_TRANSFER) && s.items <= LEGACY_TRANSFER_NUM_ITEMS && s.local == []
    && Items(buf[pos..] + more, LEGACY_TRANSFER_NUM_ITEMS - s.items)
    && |s.tx| + |buf| - pos + |more| <= FLASH_CAP
  }

  lemma {:induction false} EndOfPiece(at: nat, pos: nat)
    requires 5 < pos <= LEGACY_FULL_CHUNK_SIZE && pos - 5 <= at && (at - (pos - 5)) % LEGACY_CHUNK_SIZE == 0
    ensures PieceEnd(at) == at + (LEGACY_FULL_CHUNK_SIZE - pos)
  {
    var k := (at - (pos - 5)) / 230;
    assert at == 230 * k + (pos - 5);
    assert (at + 229) / 230 == k + 1;
  }

  /** A piece that is not the last is taken exactly as far as its items fit. */
  lemma {:induction false} PieceFits(s: State, buf: Bytes, pos: nat, more: Bytes, at: nat)
    requires Inside(s, buf, pos, more, at) && more != []
    ensures var (t, r) := TransferItems(s, buf, pos);
            && (Awaits((t, r)) ==> Paused(t, more))
            && (ItemsFit(buf[pos..] + more, LEGACY_TRANSFER_NUM_ITEMS - s.items, at) <==>
                  Awaits((t, r)) && RestFits(t, more, at + (LEGACY_FULL_CHUNK_SIZE - pos)))
    decreases |buf| - pos
  {
    hide TransferItems, PieceEnd, ItemsFit, Items, AllBytes, ItemFits;
    var text, n := buf[pos..] + more, LEGACY_TRANSFER_NUM_ITEMS - s.items;
    if pos == LEGACY_FULL_CHUNK_SIZE {
      FullPiece(s, buf, pos);
      assert text == more && [] + more == more;
    } else {
      var next := pos + buf[pos] as int + 1;
      if next <= LEGACY_FULL_CHUNK_SIZE {
        PieceStep(s, buf, pos, more, at);
        PieceFits(WithItem(s, buf[pos..next]), buf, next, more, at + (next - pos));
      } else {
        PieceCut(s, buf, pos, more, at);
      }
    }
  }

  lemma {:induction false} FullPiece(s: State, buf: Bytes, pos: nat)
    requires pos == LEGACY_FULL_CHUNK_SIZE <= |buf|
    ensures TransferItems(s, buf, pos) == (s.(checkItemLen := true), Ok(false))
  {
  }

  /** An item that ends in its piece. */
  lemma {:induction false} PieceStep(s: State, buf: Bytes, pos: nat, more: Bytes, at: nat)
    requires Inside(s, buf, pos, more, at) && more != [] && pos < LEGACY_FULL_CHUNK_SIZE
    requires pos + buf[pos] as int + 1 <= LEGACY_FULL_CHUNK_SIZE
    ensures var next := pos + buf[pos] as int + 1;
            var u := WithItem(s, buf[pos..next]);
            && Inside(u, buf, next, more, at + (next - pos))
            && TransferItems(s, buf, pos) == TransferItems(u, buf, next)
            && (ItemsFit(buf[pos..] + more, LEGACY_TRANSFER_NUM_ITEMS - s.items, at) <==>
                  ItemsFit(buf[next..] + more, LEGACY_TRANSFER_NUM_ITEMS - u.items, at + (next - pos)))
  {
    hide TransferItems, PieceEnd, ItemsFit, Items;
    var next, n := pos + buf[pos] as int + 1, LEGACY_TRANSFER_NUM_ITEMS - s.items;
    var text := buf[pos..] + more;
    assert text[0] == buf[pos] && text[1 + text[0] as int..] == buf[next..] + more;
    NotEmpty(text, n);
    ItemsUnfold(s, buf, pos);
    EndOfPiece(at, pos);
    FirstFits(text, n, at);
  }

  lemma {:induction false} FirstFits(items: Bytes, n: nat, start: nat)
    requires Items(items, n) && n > 0
    ensures var len := 1 + items[0] as int;
            && len <= |items|
            && (ItemsFit(items, n, start) <==>
                  ItemFits(start, start + len, start + |items|) && ItemsFit(items[len..], n - 1, start + len))
  {
    hide ItemFits;
  }

  /** An item that is cut by the end of its piece. */
  lemma {:induction false} PieceCut(s: State, buf: Bytes, pos: nat, more: Bytes, at: nat)
    requires Inside(s, buf, pos, more, at) && more != [] && pos < LEGACY_FULL_CHUNK_SIZE
    requires pos + buf[pos] as int + 1 > LEGACY_FULL_CHUNK_SIZE
    ensures var (t, r) := TransferItems(s, buf, pos);
            && (Awaits((t, r)) ==> Paused(t, more))
            && (ItemsFit(buf[pos..] + more, LEGACY_TRANSFER_NUM_ITEMS - s.items, at) <==>
                  Awaits((t, r)) && RestFits(t, more, at + (LEGACY_FULL_CHUNK_SIZE - pos)))
  {
    hide PieceEnd, ItemsFit, Items;
    assert buf[pos] as int < 256;
    var text := buf[pos..] + more;
    EndOfPiece(at, pos);
    NotEmpty(text, LEGACY_TRANSFER_NUM_ITEMS - s.items);
    FirstFits(text, LEGACY_TRANSFER_NUM_ITEMS - s.items, at);
    assert text[0] == buf[pos] && buf[pos..LEGACY_FULL_CHUNK_SIZE] == buf[pos..];
  }

  lemma {:induction false} NotEmpty(items: Bytes, n: nat)
    requires Items(items, n) && items != []
    ensures n > 0 && 1 + items[0] as int <= |items| && Items(items[1 + items[0] as int..], n - 1)
  {
  }

  lemma {:induction false} NoneLeft(n: nat)
    ensures Items([], n) ==> n == 0
  {
  }

  lemma {:induction false} SameEnd(a: nat, b: nat)
    requires a <= b <= PieceEnd(a)
    ensures PieceEnd(b) == PieceEnd(a)
  {
    var k := (a + 229) / 230;
    assert a > 230 * k - 230;
    assert (b + 229) / 230 == k;
  }

  /** Items that end with the piece they start in fit. */
  lemma {:induction false} LastItemsFit(items: Bytes, n: nat, start: nat)
    requires Items(items, n) && start + |items| <= PieceEnd(start)
    ensures ItemsFit(items, n, start)
    decreases n
  {
    hide PieceEnd;
    if n > 0 {
      var len := 1 + items[0] as int;
      SameEnd(start, start + len);
      LastItemsFit(items[len..], n - 1, start + len);
    }
  }

  /** The last piece: it completes the transfer if it is not full and has an item of its own. */
  lemma {:induction false} LastPiece(s: State, buf: Bytes, pos: nat, at: nat)
    requires Inside(s, buf, pos, [], at)
    ensures var total := at + |buf| - pos;
            Completes(TransferItems(s, buf, pos)) <==>
              && pos < |buf| && total % LEGACY_CHUNK_SIZE != 0
              && ItemsFit(buf[pos..] + [], LEGACY_TRANSFER_NUM_ITEMS - s.items, at)
  {
    hide TransferItems, ItemsFit, Items, PieceEnd;
    var n := LEGACY_TRANSFER_NUM_ITEMS - s.items;
    assert buf[pos..] + [] == buf[pos..];
    ItemsComplete(s, buf, pos);
    EndOfPiece(at, pos);
    if pos < |buf| { NotEmpty(buf[pos..], n); } else { NoneLeft(n); }
    if |buf| < LEGACY_FULL_CHUNK_SIZE { LastItemsFit(buf[pos..], n, at); }
    Remainder(at - (pos - 5), |buf| - 5);
  }

  lemma {:induction false} Remainder(start: nat, len: nat)
    requires start % 230 == 0 && 0 < len <= 230
    ensures (start + len) % 230 == 0 <==> len == 230
  {
    var m := start / 230;
    assert start == 230 * m;
    if len == 230 { assert start + len == 230 * (m + 1); } else { assert (start + len) / 230 == m; }
  }

  // ---- The pieces of a message -----------------------------------------------------------------

  function First(rest: Bytes): Bytes { if |rest| <= LEGACY_CHUNK_SIZE then rest else rest[..LEGACY_CHUNK_SIZE] }

  function After(rest: Bytes): Bytes { if |rest| <= LEGACY_CHUNK_SIZE then [] else rest[LEGACY_CHUNK_SIZE..] }

  lemma {:induction false} PieceBytes(p1: u8, p2: u8, rest: Bytes)
    ensures |Piece(p1, p2, First(rest))| == 5 + |First(rest)| && Piece(p1, p2, First(rest))[5..] == First(rest)
    ensures rest == First(rest) + After(rest) && (After(rest) != [] ==> |First(rest)| == LEGACY_CHUNK_SIZE)
    ensures rest != [] ==> Piece(p1, p2, First(rest))[5] == rest[0]
    ensures AllBytes(rest) ==> AllBytes(Piece(p1, p2, First(rest))) && AllBytes(After(rest))
  {
  }

  lemma {:induction false} EndAtMultiple(end: nat, k: nat)
    requires end % LEGACY_CHUNK_SIZE == 0 && k < LEGACY_CHUNK_SIZE && k <= end
    ensures PieceEnd(end - k) == end
  {
    var m := end / 230;
    assert end == 230 * m;
    assert (end - k + 229) / 230 == m;
  }

  /** The length of the next item: of the one that was cut short, or the one to come. */
  function NextLen(s: State, rest: Bytes): nat
    requires Paused(s, rest) && rest != []
  {
    1 + (s.local + rest)[0] as int
  }

  lemma {:induction false} NextItem(s: State, rest: Bytes)
    requires Paused(s, rest) && rest != []
    ensures var len, n := NextLen(s, rest), LEGACY_TRANSFER_NUM_ITEMS - s.items;
            && n > 0 && |s.local| < len <= |s.local| + |rest| && Items((s.local + rest)[len..], n - 1)
  {
    hide Items;
    NotEmpty(s.local + rest, LEGACY_TRANSFER_NUM_ITEMS - s.items);
  }

  /** The APDU of a later piece goes on behind that item, if it can. */
  lemma {:induction false} PieceGoesOn(s: State, buf: Bytes, rest: Bytes)
    requires Paused(s, rest) && rest != [] && |buf| > 5 && buf[5] == rest[0] && |buf| - 5 <= |rest|
    ensures var (u, r) := ContinueTransfer(s, buf);
            var next := 5 + NextLen(s, rest) - |s.local|;
            && (r.Ok? <==> (s.local == [] || NextLen(s, rest) < 256) && next <= |buf|)
            && (r.Ok? ==> r.value == next && u.stream == s.stream && u.items == s.items + 1 && u.local == [] &&
                          |u.tx| == |s.tx| + NextLen(s, rest))
  {
    NextItem(s, rest);
    hide Items;
    if s.checkItemLen {
      assert s.local + rest == rest && NextLen(s, rest) == 1 + buf[5] as int;
    } else {
      assert (s.local + rest)[0] == s.local[0];
      assert NextLen(s, rest) == 1 + s.local[0] as int;
      if NextLen(s, rest) < 256 { assert s.itemLen == NextLen(s, rest); }
    }
  }

  /** What is left behind that item. */
  lemma {:induction false} LeftBehind(s: State, rest: Bytes, buf: Bytes, next: nat)
    requires Paused(s, rest) && rest != [] && |buf| >= 5 && buf[5..] == First(rest)
    requires next == 5 + NextLen(s, rest) - |s.local| && 5 <= next <= |buf|
    ensures buf[next..] + After(rest) == (s.local + rest)[NextLen(s, rest)..]
  {
    hide Paused;
    assert buf[next..] == First(rest)[next - 5..];
    assert rest == First(rest) + After(rest);
    assert (s.local + rest)[NextLen(s, rest)..] == rest[next - 5..];
  }

  /** A later piece goes on exactly if the item that was cut short fits. */
  lemma {:induction false} GoesOnFits(s: State, p1: u8, p2: u8, rest: Bytes, end: nat)
    requires Paused(s, rest) && AllBytes(rest) && rest != [] && |s.local| <= end && end % LEGACY_CHUNK_SIZE == 0
    ensures var buf := Piece(p1, p2, First(rest));
            var (u, r) := ContinueTransfer(s, buf);
            && (r.Ok? ==> r.value > 5 && Inside(u, buf, r.value, After(rest), end + r.value - 5))
            && (RestFits(s, rest, end) <==>
                  && r.Ok? && r.value - 5 < |rest|
                  && ItemsFit(buf[r.value..] + After(rest), LEGACY_TRANSFER_NUM_ITEMS - u.items, end + r.value - 5))
  {
    hide TransferItems, ContinueTransfer, ItemsFit, Items, PieceEnd, Piece, AllBytes;
    var buf, text, len := Piece(p1, p2, First(rest)), s.local + rest, NextLen(s, rest);
    PieceBytes(p1, p2, rest);
    NextItem(s, rest);
    PieceGoesOn(s, buf, rest);
    FirstFits(text, LEGACY_TRANSFER_NUM_ITEMS - s.items, end - |s.local|);
    EndAtMultiple(end, |s.local|);
    var next: nat := 5 + len - |s.local|;
    if next <= |buf| { LeftBehind(s, rest, buf, next); }
  }

  /** A transfer that is under way is completed exactly if the rest of its message fits. */
  lemma {:induction false} RestSends(s: State, p1: u8, p2: u8, rest: Bytes, end: nat)
    requires Paused(s, rest) && AllBytes(rest) && rest != [] && |s.local| <= end && end % LEGACY_CHUNK_SIZE == 0
    ensures Sends(s, p1, p2, rest) <==> (end + |rest|) % LEGACY_CHUNK_SIZE != 0 && RestFits(s, rest, end)
    decreases |rest|
  {
    hide TransferItems, TransferChunk, ContinueTransfer, ItemsFit, Items, PieceEnd, Piece, RestFits, Inside, Paused,
      AllBytes;
    var buf, more := Piece(p1, p2, First(rest)), After(rest);
    PieceBytes(p1, p2, rest);
    GoesOnFits(s, p1, p2, rest, end);
    LaterChunkIs(s, buf, rest);
    var (u, r) := ContinueTransfer(s, buf);
    if r.Ok? { PieceSends(u, p1, p2, rest, r.value, end); }
  }

  lemma {:induction false} LaterChunkIs(s: State, buf: Bytes, more: Bytes)
    requires Paused(s, more)
    ensures TransferChunk(s, buf) ==
            match ContinueTransfer(s, buf)
            case (u, Err(e)) => (u, Err(e))
            case (u, Ok(pos)) => TransferItems(u, buf, pos)
  {
    hide Items, TransferItems, ContinueTransfer;
  }

  /** From inside a piece on: what is left of it, then the pieces after it. */
  lemma {:induction false} PieceSends(u: State, p1: u8, p2: u8, rest: Bytes, pos: nat, end: nat)
    requires AllBytes(rest) && rest != [] && end % LEGACY_CHUNK_SIZE == 0 && pos >= 5
    requires Inside(u, Piece(p1, p2, First(rest)), pos, After(rest), end + pos - 5)
    ensures var buf := Piece(p1, p2, First(rest));
            var r := TransferItems(u, buf, pos);
            (if |rest| <= LEGACY_CHUNK_SIZE then Completes(r) else Awaits(r) && Sends(r.0, p1, p2, After(rest))) <==>
              && (end + |rest|) % LEGACY_CHUNK_SIZE != 0 && pos - 5 < |rest|
              && ItemsFit(buf[pos..] + After(rest), LEGACY_TRANSFER_NUM_ITEMS - u.items, end + pos - 5)
    decreases |rest|, 0
  {
    hide TransferItems, ItemsFit, Items, PieceEnd, Piece, RestFits, Paused, AllBytes;
    var buf, more := Piece(p1, p2, First(rest)), After(rest);
    PieceBytes(p1, p2, rest);
    if more == [] {
      LastPiece(u, buf, pos, end + pos - 5);
    } else {
      PieceFits(u, buf, pos, more, end + pos - 5);
      var r := TransferItems(u, buf, pos);
      if Awaits(r) {
        FewAside(r.0, more);
        RestSends(r.0, p1, p2, more, end + LEGACY_CHUNK_SIZE);
      }
    }
  }

  lemma {:induction false} FewAside(s: State, more: Bytes)
    requires Paused(s, more)
    ensures |s.local| < LEGACY_LOCAL_BUFFER_SIZE
  {
    hide Items;
  }

  // ---- A whole message -------------------------------------------------------------------------

  /** A message that is a request is completed exactly if it fits. */
  lemma {:induction false} RequestSends(s: State, p1: u8, p2: u8, msg: Bytes)
    requires AllBytes(msg) && s.stream == NoStream && IsRequest(msg)
    ensures Sends(s, p1, p2, msg) <==> Fits(msg)
  {
    hide TransferItems, TransferChunk, ItemsFit, Items, PieceEnd, Piece, Inside, AllBytes, PathAt, InitializeTransfer;
    PieceBytes(p1, p2, msg);
    var buf := Piece(p1, p2, First(msg));
    var pos := PathLen(msg) + 6;
    Opens(s, p1, p2, msg);
    var u := InitializeTransfer(s, buf).0;
    PieceSends(u, p1, p2, msg, pos, 0);
    FirstChunkIs(s, buf);
    RequestLeft(msg, buf, pos);
    RequestSize(msg);
  }

  lemma {:induction false} FirstChunkIs(s: State, buf: Bytes)
    requires s.stream == NoStream
    ensures TransferChunk(s, buf) ==
            match InitializeTransfer(s, buf)
            case (u, Err(e)) => (u, Err(e))
            case (u, Ok(pos)) => TransferItems(u, buf, pos)
  {
    hide TransferItems, InitializeTransfer;
  }

  lemma {:induction false} RequestSize(msg: Bytes)
    requires AllBytes(msg) && IsRequest(msg)
    ensures PathLen(msg) <= 21 && PathLen(msg) + 13 <= |msg| <= PathLen(msg) + 3073
  {
    hide PathAt, Items;
    var items := msg[PathLen(msg)..][1..];
    assert AllBytes(items);
    ItemsLength(items, LEGACY_TRANSFER_NUM_ITEMS);
  }

  /** What the first piece holds behind the type byte, and what follows it. */
  lemma {:induction false} RequestLeft(msg: Bytes, buf: Bytes, pos: nat)
    requires AllBytes(msg) && IsRequest(msg) && |buf| >= 5 && buf[5..] == First(msg) && pos == PathLen(msg) + 6
    ensures pos <= |buf| && buf[pos..] + After(msg) == msg[PathLen(msg)..][1..]
  {
    hide PathAt, Items, AllBytes;
    RequestSize(msg);
    assert buf[pos..] == First(msg)[pos - 5..] && msg == First(msg) + After(msg);
    assert msg[PathLen(msg)..][1..] == msg[PathLen(msg) + 1..];
  }

  /** The first piece opens the stream behind the type byte. */
  lemma {:induction false} Opens(s: State, p1: u8, p2: u8, msg: Bytes)
    requires AllBytes(msg) && s.stream == NoStream && IsRequest(msg)
    ensures var buf := Piece(p1, p2, First(msg));
            var (u, r) := InitializeTransfer(s, buf);
            && r == Ok(PathLen(msg) + 6) && u.items == 0
            && Inside(u, buf, PathLen(msg) + 6, After(msg), PathLen(msg) + 1)
  {
    hide PathAt, Items, Piece, AllBytes;
    PieceBytes(p1, p2, msg);
    RequestSize(msg);
    var buf := Piece(p1, p2, First(msg));
    RequestLeft(msg, buf, PathLen(msg) + 6);
    SamePath(msg, buf);
  }

  lemma {:induction false} SamePath(msg: Bytes, buf: Bytes)
    requires |buf| > 5 && buf[5..] <= msg && 2 <= buf[5] as int <= 5 && 6 + 4 * (buf[5] as int) <= |buf|
    ensures PathAt(buf, 6, buf[5] as int) == PathAt(msg, 1, msg[0] as int)
  {
    assert forall i | 0 <= i < |buf| - 5 :: buf[5 + i] == msg[i] by {
      forall i | 0 <= i < |buf| - 5 ensures buf[5 + i] == msg[i] { assert buf[5..][i] == msg[i]; }
    }
  }

  /** The state when the whole message has been sent. */
  function Sent(s: State, p1: u8, p2: u8, msg: Bytes): State
    decreases |msg|
  {
    if |msg| <= LEGACY_CHUNK_SIZE then TransferChunk(s, Piece(p1, p2, msg)).0
    else Sent(TransferChunk(s, Piece(p1, p2, msg[..LEGACY_CHUNK_SIZE])).0, p1, p2, msg[LEGACY_CHUNK_SIZE..])
  }

  lemma {:induction false} HeldAside(s: State, received: Bytes)
    requires Holding(s, received) && AllBytes(received)
    ensures AllBytes(s.local)
  {
    hide Items;
    AllBytesCat(s.tx, s.local);
  }

  /** A transfer that is completed has received a request, and holds it. */
  lemma {:induction false} SendsHeld(s: State, p1: u8, p2: u8, received: Bytes, rest: Bytes)
    requires Holding(s, received) && AllBytes(received) && AllBytes(rest) && Sends(s, p1, p2, rest)
    ensures Body(received + rest) && Sent(s, p1, p2, rest).tx == received + rest
    ensures Sent(s, p1, p2, rest).signPath == s.signPath
    decreases |rest|
  {
    hide TransferChunk, Holding, Body, AllBytes, Piece;
    var buf, more := Piece(p1, p2, First(rest)), After(rest);
    PieceBytes(p1, p2, rest);
    HeldAside(s, received);
    assert ReadFrom(buf, 5) == First(rest);
    NextChunk(s, received, buf);
    if more != [] {
      var t := TransferChunk(s, buf).0;
      AllBytesCat(received, rest);
      assert received + rest == received + First(rest) + more;
      AllBytesCat(received + First(rest), more);
      SendsHeld(t, p1, p2, received + First(rest), more);
    }
  }

  /** Only a request is completed. */
  lemma {:induction false} SendsRequest(s: State, p1: u8, p2: u8, msg: Bytes)
    requires AllBytes(msg) && s.stream == NoStream && |s.tx| <= FLASH_CAP && Sends(s, p1, p2, msg)
    ensures IsRequest(msg) && Sent(s, p1, p2, msg).tx == msg[PathLen(msg)..]
    ensures Sent(s, p1, p2, msg).signPath == PathAt(msg, 1, msg[0] as int)
  {
    hide TransferChunk, Holding, Body, AllBytes, Piece, PathAt;
    var buf, more := Piece(p1, p2, First(msg)), After(msg);
    PieceBytes(p1, p2, msg);
    FirstChunk(s, buf);
    AcceptedPath(s, buf);
    assert buf[5..][0] == buf[5];
    SamePath(msg, buf);
    var received := First(msg)[PathLen(msg)..];
    assert AfterPath(buf) == received by { assert buf[6 + 4 * (buf[5] as int)..] == First(msg)[PathLen(msg)..]; }
    assert msg[PathLen(msg)..] == received + more;
    if more != [] {
      assert First(msg)[..PathLen(msg)] + (received + more) == msg;
      AllBytesCat(First(msg)[..PathLen(msg)], received + more);
      AllBytesCat(received, more);
      SendsHeld(TransferChunk(s, buf).0, p1, p2, received, more);
    }
  }

  lemma {:induction false} AcceptedPath(s: State, buf: Bytes)
    requires s.stream == NoStream && TransferChunk(s, buf).1.Ok?
    ensures PathGiven(buf)
  {
    hide TransferItems, PathAt;
  }

  /**
   A message that is sent in pieces of 230 bytes is completed exactly if it is a path and a request that fit: the
   buffer is then the request, and the path the message's.
   */
  lemma {:induction false} MessageSends(s: State, p1: u8, p2: u8, msg: Bytes)
    requires AllBytes(msg) && s.stream == NoStream && |s.tx| <= FLASH_CAP
    ensures Sends(s, p1, p2, msg) <==> Fits(msg)
    ensures Fits(msg) ==>
              && Sent(s, p1, p2, msg).tx == msg[PathLen(msg)..]
              && Sent(s, p1, p2, msg).signPath == PathAt(msg, 1, msg[0] as int)
  {
    hide Sends, IsRequest, PathAt;
    if Sends(s, p1, p2, msg) { SendsRequest(s, p1, p2, msg); }
    if IsRequest(msg) { RequestSends(s, p1, p2, msg); }
  }

  // ---- Requests that are refused ---------------------------------------------------------------

  /** An APDU that is not full is refused if the item that was cut short ends it, be it the twelfth. */
  lemma {:induction false} LastItemAlone(s: State, received: Bytes, buf: Bytes)
    requires Holding(s, received) && 5 < |buf| < LEGACY_FULL_CHUNK_SIZE && CanGoOn(s, buf) && GoesOn(s, buf) == |buf|
    ensures TransferChunk(s, buf).1.Err?
  {
    hide TransferChunk, Holding;
    LaterComplete(s, received, buf);
    ShortChunkEnds(s, buf);
    if s.items < LEGACY_TRANSFER_NUM_ITEMS - 1 { NoneLeft(LEGACY_TRANSFER_NUM_ITEMS - 1 - s.items); }
  }

  /** A last item that starts with a piece does not fit. */
  lemma {:induction false} LastDoesNotFit(front: Bytes, n: nat, last: Bytes, start: nat)
    requires Items(front, n) && last != [] && |last| == 1 + last[0] as int && (start + |front|) % LEGACY_CHUNK_SIZE == 0
    ensures !ItemsFit(front + last, n + 1, start)
    decreases n
  {
    if n == 0 {
      assert front + last == last;
      EndAtMultiple(start, 0);
    } else {
      var len := 1 + front[0] as int;
      assert (front + last)[len..] == front[len..] + last;
      LastDoesNotFit(front[len..], n - 1, last, start + len);
    }
  }

  /** The path 44'/626'. */
  const SHORT_PATH: Bytes := [2 as char, 0x2C as char, 0 as char, 0 as char, 0x80 as char,
                              0x72 as char, 2 as char, 0 as char, 0x80 as char]

  function Empty(n: nat): Bytes { seq(n, _ => 0 as char) }

  /** An item of `len` bytes. */
  function Filled(len: nat): Bytes
    requires len < 256
  {
    [len as char] + seq(len, _ => 'x')
  }

  lemma {:induction false} EmptyItems(n: nat, rest: Bytes, m: nat)
    requires Items(rest, m)
    ensures Items(Empty(n) + rest, n + m)
    decreases n
  {
    if n == 0 {
      assert Empty(0) + rest == rest;
    } else {
      EmptyItems(n - 1, rest, m);
      var all := Empty(n) + rest;
      assert all[0] == 0 as char && all[1..] == Empty(n - 1) + rest;
    }
  }

  lemma {:induction false} FilledItem(len: nat, rest: Bytes, m: nat)
    requires len < 256 && Items(rest, m)
    ensures Items(Filled(len) + rest, m + 1)
  {
    assert (Filled(len) + rest)[1 + len..] == rest;
  }

  /** `n` empty items, one of `len` bytes, and `m` more empty ones, behind the path and a type byte. */
  function Example(n: nat, len: nat, m: nat): Bytes
    requires len < 256
  {
    SHORT_PATH + ([0 as char] + (Empty(n) + (Filled(len) + Empty(m))))
  }

  lemma {:induction false} ExampleItems(n: nat, len: nat, m: nat)
    requires len < 256
    ensures Items(Empty(n) + (Filled(len) + Empty(m)), n + 1 + m)
  {
    hide Items, Filled;
    NoItems();
    EmptyItems(m, [], 0);
    assert Empty(m) + [] == Empty(m);
    FilledItem(len, Empty(m), m);
    EmptyItems(n, Filled(len) + Empty(m), m + 1);
  }

  lemma {:induction false} ExampleParts(n: nat, len: nat, m: nat)
    requires len < 256
    ensures var msg := Example(n, len, m);
            && |msg| == 10 + n + 1 + len + m && AllBytes(msg) && msg[..9] == SHORT_PATH && msg[0] == 2 as char
            && msg[9..][1..] == Empty(n) + (Filled(len) + Empty(m))
  {
    var msg, items := Example(n, len, m), Empty(n) + (Filled(len) + Empty(m));
    assert msg[9..] == [0 as char] + items;
  }

  lemma {:induction false} ExampleIsRequest(n: nat, len: nat, m: nat)
    requires len < 256 && n + 1 + m == LEGACY_TRANSFER_NUM_ITEMS
    ensures IsRequest(Example(n, len, m)) && AllBytes(Example(n, len, m))
    ensures Example(n, len, m)[PathLen(Example(n, len, m))..][1..] == Empty(n) + (Filled(len) + Empty(m))
    ensures PathLen(Example(n, len, m)) == 9 && |Example(n, len, m)| == 10 + n + 1 + len + m
  {
    hide Items, Example, Filled, Empty, AllBytes, PathAt;
    ExampleParts(n, len, m);
    ExampleItems(n, len, m);
    ShortPath(Example(n, len, m));
  }

  lemma {:induction false} NoItems()
    ensures Items([], 0)
  {
  }

  lemma {:induction false} ShortPath(msg: Bytes)
    requires |msg| >= 9 && msg[..9] == SHORT_PATH
    ensures PrefixOk(PathAt(msg, 1, 2)) && msg[0] as int == 2
  {
    assert forall i | 0 <= i < 9 :: msg[i] == SHORT_PATH[i];
    assert Le32(msg, 1) == 0x8000_002C && Le32(msg, 5) == 0x8000_0272;
  }

  /** A request whose twelfth item would be a piece of its own: its 231 bytes are never completed. */
  lemma {:induction false} RefusedLast(s: State)
    requires s.stream == NoStream && |s.tx| <= FLASH_CAP
    ensures |Example(10, 209, 1)| == 231 && IsRequest(Example(10, 209, 1)) && !Sends(s, 0, 0, Example(10, 209, 1))
  {
    hide Sends, IsRequest, Items, ItemsFit;
    var msg, front := Example(10, 209, 1), Empty(10) + (Filled(209) + []);
    ExampleIsRequest(10, 209, 1);
    MessageSends(s, 0, 0, msg);
    NoItems();
    FilledItem(209, [], 0);
    EmptyItems(10, Filled(209) + [], 1);
    assert Empty(1) == [0 as char] && front + Empty(1) == Empty(10) + (Filled(209) + Empty(1));
    LastDoesNotFit(front, 11, Empty(1), 10);
  }

  /** One whose twelfth item ends a full piece: after its 230 bytes more is awaited, and never comes. */
  lemma {:induction false} RefusedFull(s: State)
    requires s.stream == NoStream && |s.tx| <= FLASH_CAP
    ensures |Example(11, 208, 0)| == 230 && IsRequest(Example(11, 208, 0)) && !Sends(s, 0, 0, Example(11, 208, 0))
  {
    hide Sends, IsRequest, Items, ItemsFit;
    ExampleIsRequest(11, 208, 0);
    MessageSends(s, 0, 0, Example(11, 208, 0));
  }

  // ---- APDUs that are too long -----------------------------------------------------------------

  /** What is held after an accepted chunk. */
  function Held(r: (State, Result<bool, nat>)): Bytes { if Awaits(r) then r.0.tx + r.0.local else r.0.tx }

  /** What an accepted later chunk adds is its data exactly if that is not too long. */
  lemma {:induction false} LaterAdds(s: State, received: Bytes, a: Apdu)
    requires Holding(s, received) && AllBytes(received) && AllBytes(a.data) && TransferChunk(s, Raw(a)).1.Ok?
    ensures Held(TransferChunk(s, Raw(a))) == received + a.data <==> |a.data| <= LEGACY_CHUNK_SIZE
  {
    hide TransferChunk, Body, Framed, Counted;
    RawIs(a);
    HeldAside(s, received);
    NextChunk(s, received, Raw(a));
    assert |received + ReadFrom(Raw(a), 5)| == |received| + |ReadFrom(Raw(a), 5)|;
  }

  /** What an accepted first chunk adds is its data behind the path exactly if it is not too long. */
  lemma {:induction false} FirstAdds(s: State, a: Apdu)
    requires s.stream == NoStream && |s.tx| <= FLASH_CAP && AllBytes(a.data) && TransferChunk(s, Raw(a)).1.Ok?
    ensures PathLen(a.data) <= |a.data|
    ensures Held(TransferChunk(s, Raw(a))) == a.data[PathLen(a.data)..] <==> |a.data| <= LEGACY_CHUNK_SIZE
  {
    hide TransferChunk, Body, Framed, Counted, PathAt;
    RawIs(a);
    FirstChunk(s, Raw(a));
    AcceptedPath(s, Raw(a));
    if |a.data| <= LEGACY_CHUNK_SIZE {
      assert Raw(a)[6 + 4 * (a.data[0] as int)..] == a.data[PathLen(a.data)..];
    }
  }

  lemma {:induction false} RawIs(a: Apdu)
    requires AllBytes(a.data)
    ensures AllBytes(Raw(a)) && |Raw(a)| == 5 + (if |a.data| <= 300 then |a.data| else 300)
    ensures |a.data| <= LEGACY_CHUNK_SIZE ==> ReadFrom(Raw(a), 5) == a.data
    ensures |a.data| > LEGACY_CHUNK_SIZE ==> ReadFrom(Raw(a), 5) == a.data[..LEGACY_CHUNK_SIZE]
    ensures a.data != [] ==> Raw(a)[5] == a.data[0]
  {
    if |a.data| <= LEGACY_CHUNK_SIZE { assert Raw(a)[5..] == a.data; } else { assert Raw(a)[5..235] == a.data[..230]; }
  }

  /** Such chunks are accepted: a later one whose first item ends at byte 235. */
  lemma {:induction false} LongLater(s: State, received: Bytes, a: Apdu)
    requires Holding(s, received) && s.checkItemLen && |received| + LEGACY_CHUNK_SIZE <= FLASH_CAP
    requires AllBytes(a.data) && |a.data| > LEGACY_CHUNK_SIZE && a.data[0] as int == 229
    ensures Awaits(TransferChunk(s, Raw(a)))
  {
    hide Items, TransferItems;
    CountHeld(s, received);
    RawIs(a);
    var (u, r) := ContinueTransfer(s, Raw(a));
    FullPiece(u, Raw(a), LEGACY_FULL_CHUNK_SIZE);
  }

  /** And a first one: 231 bytes, of which 230 are read. */
  lemma {:induction false} LongFirst(s: State)
    requires s.stream == NoStream
    ensures var data := Example(0, 219, 1);
            |data| == 231 && AllBytes(data) && Awaits(TransferChunk(s, Piece(0, 0, data)))
  {
    hide TransferItems, PathAt;
    var data := Example(0, 219, 1);
    var buf := Piece(0, 0, data);
    ExampleParts(0, 219, 1);
    assert data[10] == 219 as char by {
      assert data[9..][1..][0] == data[10];
      assert Empty(0) + (Filled(219) + Empty(1)) == Filled(219) + Empty(1);
    }
    hide Example;
    RawIs(Apdu(CLA, INS_LEGACY_TRANSFER, 0, 0, data));
    assert buf[5..] == data;
    SamePath(data, buf);
    ShortPath(data);
    var (u, r) := InitializeTransfer(s, buf);
    assert buf[15] == buf[5..][10];
    ItemsUnfold(u, buf, 15);
    FullPiece(WithItem(u, buf[15..235]), buf, LEGACY_FULL_CHUNK_SIZE);
  }
}
