/**
 * The growable byte buffer of nodejs/DataBuffer.js: an allocated array and the number of
 * bytes in use. It is also the byte store of every encoder (node, web and js Data), whose
 * `alloc`/`append` repeat the same code over their own array.
 */
module Buffers {
  import opened Basics
  import opened Wire

  /** The argument of `append`: a number (one byte), a Buffer, a DataBuffer, or any other value. */
  datatype Appendable = Number(b: Byte) | Bytes(bytes: seq<Byte>) | Buffer(source: DataBuffer) | Other

  /** c is c0 doubled zero or more times. */
  ghost predicate Doubled(c0: nat, c: nat)
    decreases c
  {
    c == c0 || (c0 < c && c % 2 == 0 && Doubled(c0, c / 2))
  }

  lemma {:induction false} DoubledHalf(c0: nat, c: nat)
    requires 0 < c0 && Doubled(2 * c0, c)
    ensures Doubled(c0, c)
    decreases c
  {
    if c != 2 * c0 {
      DoubledHalf(c0, c / 2);
    }
  }

  class DataBuffer {
    var buffer: array<Byte>
    var length: nat

    ghost predicate Valid()
      reads this
    {
      0 < buffer.Length && length <= buffer.Length
    }

    /** The bytes in use. */
    ghost function Bytes(): seq<Byte>
      reads this, buffer
      requires Valid()
    {
      buffer[..length]
    }

    /** `new DataBuffer(length)`: an empty buffer of `length || 256` bytes. */
    constructor (initial: nat)
      ensures Valid() && fresh(buffer) && Bytes() == []
      ensures buffer.Length == if initial == 0 then 256 else initial
    {
      buffer := new Byte[if initial == 0 then 256 else initial];
      length := 0;
    }

    /** `_alloc(amount)`: doubles the array until `amount` more bytes fit, keeping the bytes in use. */
    method Alloc(amount: nat)
      requires Valid()
      modifies this
      ensures Valid() && Bytes() == old(Bytes())
      ensures length + amount <= buffer.Length
      ensures Doubled(old(buffer.Length), buffer.Length)
      ensures old(length + amount <= buffer.Length) ==> buffer == old(buffer)
      ensures buffer != old(buffer) ==> fresh(buffer) && buffer.Length / 2 < length + amount
      decreases if length + amount > buffer.Length then length + amount - buffer.Length else 0
    {
      if length + amount > buffer.Length {
        var newBuffer := new Byte[buffer.Length * 2];
        forall i | 0 <= i < length {
          newBuffer[i] := buffer[i];
        }
        ghost var c0 := buffer.Length;
        buffer := newBuffer;
        Alloc(amount);
        DoubledHalf(c0, buffer.Length);
      }
    }

    /** `append(number)`: one byte at the old length. */
    method AppendByte(x: Byte)
      requires Valid()
      modifies this, buffer
      ensures Valid() && Bytes() == old(Bytes()) + [x]
      ensures buffer == old(buffer) || fresh(buffer)
    {
      Alloc(1);
      buffer[length] := x;
      length := length + 1;
    }

    /** `append(Buffer)`: the bytes at [old length, old length + |xs|). */
    method AppendBytes(xs: seq<Byte>)
      requires Valid()
      modifies this, buffer
      ensures Valid() && Bytes() == old(Bytes()) + xs
      ensures buffer == old(buffer) || fresh(buffer)
    {
      Alloc(|xs|);
      forall i | 0 <= i < |xs| {
        buffer[length + i] := xs[i];
      }
      length := length + |xs|;
    }

    /** `append(DataBuffer)`: only the bytes the other buffer uses. It may be this buffer itself. */
    method AppendBuffer(x: DataBuffer)
      requires Valid() && x.Valid()
      requires x == this || x.buffer != buffer
      modifies this, buffer
      ensures Valid() && Bytes() == old(Bytes()) + old(x.Bytes())
      ensures buffer == old(buffer) || fresh(buffer)
      ensures x != this ==> x.Bytes() == old(x.Bytes())
    {
      var xs := x.buffer[..x.length];
      AppendBytes(xs);
    }

    /** `append(x)`: dispatch on the argument's type; any other value throws TypeError and changes nothing. */
    method Append(x: Appendable) returns (r: Status)
      requires Valid()
      requires x.Buffer? ==> x.source.Valid() && (x.source == this || x.source.buffer != buffer)
      modifies this, buffer
      ensures Valid() && (buffer == old(buffer) || fresh(buffer))
      ensures r.Err? <==> x.Other?
      ensures r.Err? ==> r.error == TypeError && Bytes() == old(Bytes())
      ensures x.Number? ==> Bytes() == old(Bytes()) + [x.b]
      ensures x.Bytes? ==> Bytes() == old(Bytes()) + x.bytes
      ensures x.Buffer? ==> Bytes() == old(Bytes()) + old(x.source.Bytes())
    {
      match x {
        case Number(b) =>
          AppendByte(b);
        case Bytes(bytes) =>
          AppendBytes(bytes);
        case Buffer(source) =>
          AppendBuffer(source);
        case Other =>
          return Err(TypeError);
      }
      r := Ok(());
    }
  }
}
