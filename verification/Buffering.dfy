/**
 The transaction buffer: an append-only sequence of bytes of bounded length, kept in RAM while it fits
 there and in flash from the append that would overflow the RAM on.
 */
module Buffering {
  import opened Base

  const RAM_CAP := 8192
  const FLASH_CAP := 15104

  /** What an append makes of the buffer: all of `data` is added, or nothing is. */
  function Appended(held: Bytes, data: Bytes): (r: (Bytes, bool))
    ensures |held| <= FLASH_CAP ==> |r.0| <= FLASH_CAP
  {
    if |held| + |data| <= FLASH_CAP then (held + data, true) else (held, false)
  }

  class Buffer {
    var ramPos: nat
    var flashPos: nat
    var inRam: bool

    ghost predicate Valid(ram: array<char>, flash: array<char>)
      reads this
    {
      ram.Length == RAM_CAP && flash.Length == FLASH_CAP && ram != flash &&
      ramPos <= RAM_CAP && flashPos <= FLASH_CAP && (if inRam then flashPos == 0 else ramPos == 0)
    }

    /** The bytes appended since the last reset. */
    ghost function Contents(ram: array<char>, flash: array<char>): Bytes
      requires Valid(ram, flash)
      reads this, ram, flash
    {
      if inRam then ram[..ramPos] else flash[..flashPos]
    }

    constructor ()
      ensures ramPos == 0 && flashPos == 0 && inRam
    {
      ramPos, flashPos, inRam := 0, 0, true;
    }

    method Reset()
      modifies this
      ensures ramPos == 0 && flashPos == 0 && inRam
    {
      ramPos, flashPos, inRam := 0, 0, true;
    }

    method AppendFlash(flash: array<char>, data: Bytes) returns (ok: bool)
      requires flash.Length == FLASH_CAP && flashPos <= FLASH_CAP
      modifies this`flashPos, flash
      ensures ok == (old(flashPos) + |data| <= FLASH_CAP)
      ensures flashPos <= FLASH_CAP
      ensures flash[..flashPos] == if ok then old(flash[..flashPos]) + data else old(flash[..flashPos])
    {
      if FLASH_CAP - flashPos < |data| {
        return false;
      }
      forall i | 0 <= i < |data| { flash[flashPos + i] := data[i]; }
      assert flash[..flashPos + |data|] == old(flash[..flashPos]) + data;
      flashPos := flashPos + |data|;
      ok := true;
    }

    /** Appends all of `data` or nothing; RAM is written only past what it holds, and only while it is in use. */
    method Append(ram: array<char>, flash: array<char>, data: Bytes) returns (ok: bool)
      requires Valid(ram, flash)
      modifies this, ram, flash
      ensures Valid(ram, flash) && (Contents(ram, flash), ok) == Appended(old(Contents(ram, flash)), data)
      ensures ram[..] ==
              if old(inRam) && inRam then old(ram[..ramPos]) + data + old(ram[..])[ramPos..] else old(ram[..])
    {
      if inRam {
        if RAM_CAP - ramPos >= |data| {
          forall i | 0 <= i < |data| { ram[ramPos + i] := data[i]; }
          ramPos := ramPos + |data|;
          assert ram[..ramPos] == old(ram[..ramPos]) + data;
          return true;
        }
        // RAM is full: what it holds moves to flash, and the append goes there.
        inRam := false;
        var held := ramPos;
        ramPos := 0;
        if held > 0 {
          var moved := AppendFlash(flash, ram[..held]);
        }
        assert flash[..flashPos] == ram[..held];
        ok := AppendFlash(flash, data);
        return;
      }
      ok := AppendFlash(flash, data);
    }

    /** The buffered bytes. */
    method Get(ram: array<char>, flash: array<char>) returns (bytes: Bytes)
      requires Valid(ram, flash)
      ensures bytes == Contents(ram, flash)
    {
      bytes := if inRam then ram[..ramPos] else flash[..flashPos];
    }
  }
}
