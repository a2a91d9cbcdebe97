/**
 * The Node.js encoder (nodejs/Data.js): a byte store of initial capacity 128 to which values are
 * appended in the protocol's binary format. Its `alloc`/`append` repeat the code of
 * nodejs/DataBuffer.js, so the store is a `DataBuffer`; `append` here accepts only a number or
 * a Buffer.
 */
module NodeData {
  import opened Basics
  import opened Wire
  import opened Buffers
  import opened Emit
  import opened Tokens

  class Data {
    const store: DataBuffer

    ghost predicate Valid()
      reads store
    {
      store.Valid()
    }

    /** The bytes written so far. */
    ghost function Bytes(): seq<Byte>
      reads store, store.buffer
      requires Valid()
    {
      store.Bytes()
    }

    /** `new Data`: no bytes, 128 allocated. */
    constructor ()
      ensures Valid() && fresh(store) && fresh(store.buffer)
      ensures Bytes() == [] && store.buffer.Length == 128
    {
      store := new DataBuffer(128);
    }

    /** `append(x)`: a number is one byte, a Buffer its bytes; anything else (a DataBuffer
        included) throws TypeError and writes nothing. */
    method Append(x: Appendable) returns (r: Status)
      requires Valid()
      modifies store, store.buffer
      ensures Valid() && (fresh(store.buffer) || store.buffer == old(store.buffer))
      ensures r.Ok? <==> x.Number? || x.Bytes?
      ensures r.Err? ==> r.error == TypeError && Bytes() == old(Bytes())
      ensures x.Number? ==> Bytes() == old(Bytes()) + [x.b]
      ensures x.Bytes? ==> Bytes() == old(Bytes()) + x.bytes
    {
      match x {
        case Number(b) =>
          store.AppendByte(b);
        case Bytes(bytes) =>
          store.AppendBytes(bytes);
        case _ =>
          return Err(TypeError);
      }
      r := Ok(());
    }

    /** `addUint(u)`. */
    method AddUint(u: Number) returns (r: Status)
      requires Valid()
      modifies store, store.buffer
      ensures Valid() && (fresh(store.buffer) || store.buffer == old(store.buffer))
      ensures r.Ok? <==> UintCode(u).Some?
      ensures r.Err? ==> r.error == TypeError && Bytes() == old(Bytes())
      ensures r.Ok? ==> Bytes() == old(Bytes()) + UintCode(u).value
    {
      r := Emit.AddUint(store, u);
    }

    /** `addInt(i)`. */
    method AddInt(i: Number) returns (r: Status)
      requires Valid()
      modifies store, store.buffer
      ensures Valid() && (fresh(store.buffer) || store.buffer == old(store.buffer))
      ensures r.Ok? <==> IntCode(i).Some?
      ensures r.Err? ==> r.error == TypeError && Bytes() == old(Bytes())
      ensures r.Ok? ==> Bytes() == old(Bytes()) + IntCode(i).value
    {
      r := Emit.AddInt(store, i);
    }

    /** `addFloat(f)`: the four bytes of `writeFloatLE`. */
    method AddFloat(f: Float32)
      requires Valid()
      modifies store, store.buffer
      ensures Valid() && (fresh(store.buffer) || store.buffer == old(store.buffer))
      ensures Bytes() == old(Bytes()) + f
    {
      store.AppendBytes(f);
    }

    /** `addToken(t)`: the token's sixteen bytes. */
    method AddToken(t: Token)
      requires Valid() && t.Valid()
      modifies store, store.buffer
      ensures Valid() && (fresh(store.buffer) || store.buffer == old(store.buffer))
      ensures Bytes() == old(Bytes()) + old(t.buffer[..])
    {
      var bytes := t.buffer[..];
      store.AppendBytes(bytes);
    }

    /** `addString(s)`, s given as its UTF-8 bytes (what `Buffer.byteLength` counts and
        `buffer.write` writes): the byte count as a uint, then the bytes. */
    method AddString(s: seq<Byte>) returns (r: Status)
      requires Valid()
      modifies store, store.buffer
      ensures Valid() && (fresh(store.buffer) || store.buffer == old(store.buffer))
      ensures r.Ok? <==> ValidUint(|s|)
      ensures r.Err? ==> r.error == TypeError && Bytes() == old(Bytes())
      ensures r.Ok? ==> Bytes() == old(Bytes()) + UintBytes(|s|) + s
    {
      r := Emit.AddUint(store, Integral(|s|));
      if r.Ok? {
        store.AppendBytes(s);
      }
    }

    /** `addBuffer(B)`: the length as a uint, then the bytes. */
    method AddBuffer(bytes: seq<Byte>) returns (r: Status)
      requires Valid()
      modifies store, store.buffer
      ensures Valid() && (fresh(store.buffer) || store.buffer == old(store.buffer))
      ensures r.Ok? <==> ValidUint(|bytes|)
      ensures r.Err? ==> r.error == TypeError && Bytes() == old(Bytes())
      ensures r.Ok? ==> Bytes() == old(Bytes()) + UintBytes(|bytes|) + bytes
    {
      r := Emit.AddUint(store, Integral(|bytes|));
      if r.Ok? {
        r := Append(Appendable.Bytes(bytes));
      }
    }

    /** `addBoolean(b)`, b being the argument's truthiness: one byte, 1 or 0. */
    method AddBoolean(b: bool)
      requires Valid()
      modifies store, store.buffer
      ensures Valid() && (fresh(store.buffer) || store.buffer == old(store.buffer))
      ensures Bytes() == old(Bytes()) + [if b then 1 else 0]
    {
      store.AppendByte(if b then 1 else 0);
    }

    /** `toBuffer()`: exactly the bytes written. */
    method ToBuffer() returns (r: seq<Byte>)
      requires Valid()
      ensures r == Bytes()
    {
      r := store.buffer[..store.length];
    }
  }
}
