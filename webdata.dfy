/**
 * The browser encoder (web/Data.js): the Node.js encoder over a Uint8Array, whose `append` also
 * takes another Data, with `addData`, and whose `addString` produces the UTF-8 bytes itself,
 * one UTF-16 code unit at a time, into a scratch Data.
 */
module WebData {
  import opened Basics
  import opened Wire
  import opened Buffers
  import opened Emit
  import opened Tokens
  import opened Utf8
  import opened Strings

  /** The argument of `append`: a number, a Uint8Array, a Data, or any other value. */
  datatype Item = Number(b: Byte) | Bytes(bytes: seq<Byte>) | Encoded(data: Data) | Unsupported

  class Data {
    const store: DataBuffer

    ghost predicate Valid()
      reads store
    {
      store.Valid()
    }

    /** The bytes written so far. */
    ghost function Bytes(): seq<Byte>
      reads store, store.buffer
      requires Valid()
    {
      store.Bytes()
    }

    /** Another Data can be appended to this one when it is this one or its array is another. */
    ghost predicate Separate(d: Data)
      reads this, store, d, d.store
    {
      d == this || (d.store != store && d.store.buffer != store.buffer)
    }

    /** `new Data`: no bytes, 128 allocated. */
    constructor ()
      ensures Valid() && fresh(store) && fresh(store.buffer)
      ensures Bytes() == [] && store.buffer.Length == 128
    {
      store := new DataBuffer(128);
    }

    /** `append(x)`: a number is one byte, a Uint8Array its bytes, a Data the bytes it uses;
        anything else throws TypeError and writes nothing. */
    method Append(x: Item) returns (r: Status)
      requires Valid()
      requires x.Encoded? ==> x.data.Valid() && Separate(x.data)
      modifies store, store.buffer
      ensures Valid() && (fresh(store.buffer) || store.buffer == old(store.buffer))
      ensures r.Ok? <==> !x.Unsupported?
      ensures r.Err? ==> r.error == TypeError && Bytes() == old(Bytes())
      ensures x.Number? ==> Bytes() == old(Bytes()) + [x.b]
      ensures x.Bytes? ==> Bytes() == old(Bytes()) + x.bytes
      ensures x.Encoded? ==> Bytes() == old(Bytes()) + old(x.data.Bytes())
    {
      match x {
        case Number(b) =>
          store.AppendByte(b);
        case Bytes(bytes) =>
          store.AppendBytes(bytes);
        case Encoded(d) =>
          store.AppendBuffer(d.store);
        case Unsupported =>
          return Err(TypeError);
      }
      r := Ok(());
    }

    /** `addData(d)`: this Data's bytes followed by the bytes d uses. */
    method AddData(d: Data)
      requires Valid() && d.Valid() && Separate(d)
      modifies store, store.buffer
      ensures Valid() && (fresh(store.buffer) || store.buffer == old(store.buffer))
      ensures Bytes() == old(Bytes()) + old(d.Bytes())
      ensures d != this ==> d.Bytes() == old(d.Bytes())
    {
      store.AppendBuffer(d.store);
    }

    /** `addUint(u)`. */
    method AddUint(u: Number) returns (r: Status)
      requires Valid()
      modifies store, store.buffer
      ensures Valid() && (fresh(store.buffer) || store.buffer == old(store.buffer))
      ensures r.Ok? <==> UintCode(u).Some?
      ensures r.Err? ==> r.error == TypeError && Bytes() == old(Bytes())
      ensures r.Ok? ==> Bytes() == old(Bytes()) + UintCode(u).value
    {
      r := Emit.AddUint(store, u);
    }

    /** `addInt(i)`. */
    method AddInt(i: Number) returns (r: Status)
      requires Valid()
      modifies store, store.buffer
      ensures Valid() && (fresh(store.buffer) || store.buffer == old(store.buffer))
      ensures r.Ok? <==> IntCode(i).Some?
      ensures r.Err? ==> r.error == TypeError && Bytes() == old(Bytes())
      ensures r.Ok? ==> Bytes() == old(Bytes()) + IntCode(i).value
    {
      r := Emit.AddInt(store, i);
    }

    /** `addFloat(f)`: the four bytes `setFloat32(..., true)` writes. */
    method AddFloat(f: Float32)
      requires Valid()
      modifies store, store.buffer
      ensures Valid() && (fresh(store.buffer) || store.buffer == old(store.buffer))
      ensures Bytes() == old(Bytes()) + f
    {
      store.AppendBytes(f);
    }

    /** `addToken(t)`: the token's sixteen bytes. */
    method AddToken(t: Token)
      requires Valid() && t.Valid()
      modifies store, store.buffer
      ensures Valid() && (fresh(store.buffer) || store.buffer == old(store.buffer))
      ensures Bytes() == old(Bytes()) + old(t.buffer[..])
    {
      var bytes := t.buffer[..];
      store.AppendBytes(bytes);
    }

    /** `addString(s)`: the UTF-8 bytes of s are first built in a scratch Data, so a surrogate
        code unit throws URIError with nothing written; then the byte count as a uint and the
        bytes. */
    method AddString(s: seq<CodeUnit>) returns (r: Status)
      requires Valid()
      modifies store, store.buffer
      ensures Valid() && (fresh(store.buffer) || store.buffer == old(store.buffer))
      ensures r.Ok? <==> StringCode(s).Some?
      ensures r.Err? ==> Bytes() == old(Bytes())
      ensures Encode(s).Err? ==> r == Err(URIError)
      ensures Encode(s).Ok? && r.Err? ==> r == Err(TypeError)
      ensures r.Ok? ==> Bytes() == old(Bytes()) + StringCode(s).value
    {
      r := PutString(store, s);
    }

    /** `addBuffer(B)`: the length as a uint, then the bytes. */
    method AddBuffer(bytes: seq<Byte>) returns (r: Status)
      requires Valid()
      modifies store, store.buffer
      ensures Valid() && (fresh(store.buffer) || store.buffer == old(store.buffer))
      ensures r.Ok? <==> ValidUint(|bytes|)
      ensures r.Err? ==> r.error == TypeError && Bytes() == old(Bytes())
      ensures r.Ok? ==> Bytes() == old(Bytes()) + UintBytes(|bytes|) + bytes
    {
      r := Emit.AddUint(store, Integral(|bytes|));
      if r.Ok? {
        store.AppendBytes(bytes);
      }
    }

    /** `addBoolean(b)`, b being the argument's truthiness: one byte, 1 or 0. */
    method AddBoolean(b: bool)
      requires Valid()
      modifies store, store.buffer
      ensures Valid() && (fresh(store.buffer) || store.buffer == old(store.buffer))
      ensures Bytes() == old(Bytes()) + [if b then 1 else 0]
    {
      store.AppendByte(if b then 1 else 0);
    }

    /** `toBuffer()`: exactly the bytes written. */
    method ToBuffer() returns (r: seq<Byte>)
      requires Valid()
      ensures r == Bytes()
    {
      r := store.buffer[..store.length];
    }
  }
}
