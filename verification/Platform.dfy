/**
 The device's memory: the transaction buffer and, over the last bytes of the same RAM, the template of a
 structured transfer.
 */
module Platform {
  import opened Base
  import opened Buffering
  import opened TransferSpec

  /** Where the template lives: the last `TEMPLATE_BUF` bytes of the RAM buffer. */
  const TEMPLATE_AT := RAM_CAP - TEMPLATE_BUF

  class Device {
    const buffer: Buffer
    const ram: array<char>
    const flash: array<char>
    var templateLen: nat

    ghost predicate Valid()
      reads this, buffer
    {
      buffer.Valid(ram, flash) && templateLen <= TEMPLATE_BUF
    }

    /** The transaction buffer. */
    ghost function Tx(): Bytes
      requires Valid()
      reads this, buffer, ram, flash
    {
      buffer.Contents(ram, flash)
    }

    /** The template last stored. */
    ghost function Template(): Bytes
      requires Valid()
      reads this, buffer, ram
    {
      ram[TEMPLATE_AT..TEMPLATE_AT + templateLen]
    }

    constructor ()
      ensures Valid() && fresh(buffer) && fresh(ram) && fresh(flash)
      ensures Tx() == [] && Template() == []
    {
      buffer := new Buffer();
      ram := new char[RAM_CAP];
      flash := new char[FLASH_CAP];
      templateLen := 0;
    }

    method TxReset()
      requires Valid()
      modifies buffer
      ensures Valid() && Tx() == [] && Template() == old(Template())
    {
      buffer.Reset();
    }

    /** Appends all of `data` or nothing. The template stays as long as RAM is not filled up to it. */
    method TxAppend(data: Bytes) returns (ok: bool)
      requires Valid()
      modifies buffer, ram, flash
      ensures Valid() && (Tx(), ok) == Appended(old(Tx()), data)
      ensures |Tx()| <= TEMPLATE_AT || !buffer.inRam ==> Template() == old(Template())
    {
      ok := buffer.Append(ram, flash, data);
      if |Tx()| <= TEMPLATE_AT || !buffer.inRam {
        assert forall i | TEMPLATE_AT <= i < RAM_CAP :: ram[..][i] == old(ram[..])[i];
        assert ram[TEMPLATE_AT..TEMPLATE_AT + templateLen] == ram[..][TEMPLATE_AT..TEMPLATE_AT + templateLen];
      }
    }

    method GetTx() returns (bytes: Bytes)
      requires Valid()
      ensures bytes == Tx()
    {
      bytes := buffer.Get(ram, flash);
    }

    /** Stores a template. A transaction that does not reach the last bytes of RAM keeps every byte. */
    method TemplateStore(data: Bytes)
      requires Valid()
      modifies this`templateLen, ram
      ensures Valid() && (|data| <= TEMPLATE_BUF ==> Template() == data) && Template() <= data
      ensures |old(Tx())| <= TEMPLATE_AT || !buffer.inRam ==> Tx() == old(Tx())
    {
      var len := if |data| <= TEMPLATE_BUF then |data| else TEMPLATE_BUF;
      forall i | 0 <= i < len { ram[TEMPLATE_AT + i] := data[i]; }
      templateLen := len;
      assert ram[TEMPLATE_AT..TEMPLATE_AT + len] == data[..len];
    }

    method GetTemplate() returns (bytes: Bytes)
      requires Valid()
      ensures bytes == Template()
    {
      bytes := ram[TEMPLATE_AT..TEMPLATE_AT + templateLen];
    }
  }
}
