/**
 * The browser's `deflateData(obj, format)` (web/deflateData.js): the values that an object
 * holds under the names of the format's fields, written in format order into a new Data. The
 * bytes it writes are stated as functions of the object and the format, the `FitIn*` methods
 * that write them into a `WebData.Data` are proved to write exactly those bytes, and reading
 * them back with the decoder of the Inflate module gives the object's values field by field.
 *
 * `setFloat32` rounds any JavaScript value to a binary32; the model takes that rounding as the
 * parameter `single`, applied to every value of a float field that is not already a Float.
 */
module Deflate {
  import opened Basics
  import opened Wire
  import opened Emit
  import opened Utf8
  import opened Strings
  import opened Formats
  import opened WebData
  import Inflate

  type Code = Result<seq<Byte>, JsError>

  /** The bytes w written before a code that follows them. */
  function Then(w: seq<Byte>, rest: Code): (r: Code)
    ensures r.Ok? <==> rest.Ok?
    ensures r.Ok? ==> r.value == w + rest.value
    ensures r.Err? ==> r.error == rest.error
  {
    match rest
    case Err(e) => Err(e)
    case Ok(c) => Ok(w + c)
  }

  /** The code units of a string: its own for a string being sent, and for the bytes the
      decoder read, the string `toString("utf8")` makes of them. */
  function Text(v: Value): Option<seq<CodeUnit>>
  {
    match v
    case Str(units) => Some(units)
    case Utf8(bytes) => Some(Decoded(bytes))
    case _ => None
  }

  /** `value.length` and `value[i]` as fitInSimpleArray and fitInArray read them: the items of
      an array, the bytes of a Buffer as numbers, the code units of a string as one-unit
      strings; any other value has no length and `addUint(undefined)` throws. */
  function Elements(v: Value): (r: Option<seq<Value>>)
    ensures r.Some? <==> v.List? || v.Buf? || v.Str? || v.Utf8?
    ensures v.List? ==> r == Some(v.items)
    ensures v.Buf? ==> |r.value| == |v.bytes| && forall i :: 0 <= i < |v.bytes| ==> r.value[i] == Num(Integral(v.bytes[i]))
    ensures Text(v).Some? ==> var u := Text(v).value;
      |r.value| == |u| && forall i :: 0 <= i < |u| ==> r.value[i] == Str([u[i]])
  {
    match v
    case List(items) => Some(items)
    case Buf(bytes) => Some(seq(|bytes|, i requires 0 <= i < |bytes| => Num(Integral(bytes[i]))))
    case Str(units) => Some(seq(|units|, i requires 0 <= i < |units| => Str([units[i]])))
    case Utf8(bytes) =>
      var units := Decoded(bytes);
      Some(seq(|units|, i requires 0 <= i < |units| => Str([units[i]])))
    case _ => None
  }

  /** `addString(value)`: a string is written as its UTF-8 bytes, a surrogate throwing URIError;
      undefined has no length and throws TypeError; an array or Buffer with items has no
      `charCodeAt` and throws TypeError; any other value has no length and is written as the
      empty string. A decoded string (`Utf8`) is written as the string it was decoded to. */
  function StringValueCode(v: Value): Code
  {
    match v
    case Str(units) => TextCode(units)
    case Utf8(bytes) => TextCode(Decoded(bytes))
    case Undefined => Err(TypeError)
    case List(items) => if items == [] then Ok(UintBytes(0)) else Err(TypeError)
    case Buf(bytes) => if bytes == [] then Ok(UintBytes(0)) else Err(TypeError)
    case _ => Ok(UintBytes(0))
  }

  /** `addString` of a string: its code, URIError at a surrogate, TypeError when the byte count
      is too large for a uint. */
  function TextCode(units: seq<CodeUnit>): Code
  {
    if Encode(units).Err? then Err(URIError)
    else if StringCode(units).Some? then Ok(StringCode(units).value)
    else Err(TypeError)
  }

  /** The float32 bits addFloat writes for a value: its own bits when it is a float, otherwise
      the rounding `single` of the value. */
  function FloatBits(v: Value, single: Value -> Float32): Float32
  {
    if v.Float? then v.bits else single(v)
  }

  /** The number `addUint` and `addInt` read from a value: a number is itself, true and false
      are 1 and 0, undefined is NaN. Strings, arrays, byte arrays, tokens, objects and floats
      are not converted here. */
  function Numeric(v: Value): (r: Option<Number>)
    ensures v.Num? ==> r == Some(v.n)
    ensures v.Bool? ==> r == Some(Integral(if v.b then 1 else 0))
  {
    match v
    case Num(n) => Some(n)
    case Bool(b) => Some(Integral(if b then 1 else 0))
    case Undefined => Some(NaN)
    case _ => None
  }

  /** fitInSimpleType: the bytes the `add` method of the field's type writes for the value. */
  function ScalarCode(v: Value, t: Scalar, single: Value -> Float32): Code
  {
    match t
    case UintT => if Numeric(v).Some? && UintCode(Numeric(v).value).Some? then Ok(UintCode(Numeric(v).value).value) else Err(TypeError)
    case IntT => if Numeric(v).Some? && IntCode(Numeric(v).value).Some? then Ok(IntCode(Numeric(v).value).value) else Err(TypeError)
    case FloatT => Ok(FloatBits(v, single))
    case TokenT => if v.Tok? then Ok(v.token) else Err(TypeError)
    case StringT => StringValueCode(v)
    case BufferT =>
      if v.Buf? && ValidUint(|v.bytes|) then (ValidUintHasCode(|v.bytes|); Ok(UintBytes(|v.bytes|) + v.bytes))
      else Err(TypeError)
    case BooleanT => Ok([if Truthy(v) then 1 else 0])
  }

  /** `addUint(true)` writes 1 and `addUint(false)` 0, as does `addInt`. */
  lemma BooleanNumbers(b: bool, single: Value -> Float32)
    ensures ScalarCode(Bool(b), UintT, single) == Ok(UintBytes(if b then 1 else 0))
    ensures ScalarCode(Bool(b), IntT, single) == Ok(IntBytes(if b then 1 else 0))
  {
    var k := if b then 1 else 0;
    assert Numeric(Bool(b)) == Some(Integral(k));
    assert ValidUint(k) && ValidInt(k);
  }

  /** `addUint(undefined)` and `addInt(undefined)` throw: NaN is no integer. */
  lemma UndefinedNumbers(single: Value -> Float32)
    ensures ScalarCode(Undefined, UintT, single) == Err(TypeError)
    ensures ScalarCode(Undefined, IntT, single) == Err(TypeError)
  {
    assert Numeric(Undefined) == Some(NaN);
  }

  /** A string received and passed on again is written as it was first sent: decoding the
      bytes of a string without surrogates gives the string back. */
  lemma ResendString(s: seq<CodeUnit>)
    requires Encode(s).Ok?
    ensures StringValueCode(Utf8(Encode(s).value)) == StringValueCode(Str(s))
  {
    DecodedRoundTrip(s);
  }

  /** A received character beyond U+FFFF, here U+1F600, is a surrogate pair, which
      `addString` refuses with URIError. */
  lemma ResendPair(b: seq<Byte>)
    requires b == [0xF0, 0x9F, 0x98, 0x80]
    ensures StringValueCode(Utf8(b)) == Err(URIError)
  {
    DecodedPair();
    var u: seq<CodeUnit> := [0xD83D, 0xDE00];
    assert IsSurrogate(u[0]);
    EncodeFails(u);
  }

  /** A received byte that starts no character is passed on as U+FFFD, the bytes EF BF BD. */
  lemma ResendReplacement(b: seq<Byte>)
    requires b == [0xFF]
    ensures StringValueCode(Utf8(b)) == TextCode([0xFFFD])
    ensures Encode([0xFFFD]) == Ok([0xEF, 0xBF, 0xBD])
  {
    DecodedReplacement();
    var u: seq<CodeUnit> := [0xFFFD];
    assert UnitBytes(u[0]) == Some([0xEF, 0xBF, 0xBD]);
    assert Encode(u[1..]) == Ok([]);
    assert [0xEF, 0xBF, 0xBD] + [] == [0xEF, 0xBF, 0xBD];
  }

  /** The items of a simple array, one after the other. */
  function ScalarsCode(items: seq<Value>, t: Scalar, single: Value -> Float32): Code
  {
    if items == [] then Ok([])
    else match ScalarCode(items[0], t, single)
      case Err(e) => Err(e)
      case Ok(c) => Then(c, ScalarsCode(items[1..], t, single))
  }

  /** fitInFormat: the fields in format order, each with the value `obj[name]`; reading a
      property of undefined throws TypeError. */
  function FieldsCode(obj: Value, fs: seq<Field>, single: Value -> Float32): Code
    decreases SizeAll(fs), 2
  {
    if fs == [] then Ok([])
    else if obj.Undefined? then Err(TypeError)
    else
      SizeAllBound(fs, 0);
      match FieldCode(Get(obj, fs[0].name), fs[0], single)
      case Err(e) => Err(e)
      case Ok(c) => Then(c, FieldsCode(obj, fs[1..], single))
  }

  /** One field: a scalar, or the length as a uint followed by the items. */
  function FieldCode(v: Value, f: Field, single: Value -> Float32): Code
    decreases Size(f), 1
  {
    match f
    case Single(_, t) => ScalarCode(v, t, single)
    case SimpleArray(_, t) =>
      (match Elements(v)
       case None => Err(TypeError)
       case Some(items) =>
         match UintCode(Integral(|items|))
         case None => Err(TypeError)
         case Some(c) => Then(c, ScalarsCode(items, t, single)))
    case RecordArray(_, inner) =>
      (match Elements(v)
       case None => Err(TypeError)
       case Some(items) =>
         match UintCode(Integral(|items|))
         case None => Err(TypeError)
         case Some(c) => Then(c, RecordsCode(items, inner, single)))
  }

  /** The items of an array of records, each written as the inner fields. */
  function RecordsCode(items: seq<Value>, fs: seq<Field>, single: Value -> Float32): Code
    decreases SizeAll(fs), 3, |items|
  {
    if items == [] then Ok([])
    else match FieldsCode(items[0], fs, single)
      case Err(e) => Err(e)
      case Ok(c) => Then(c, RecordsCode(items[1..], fs, single))
  }

  /** What the decoder gives back for a value written as a scalar of type t. */
  function ScalarReceived(v: Value, t: Scalar, single: Value -> Float32): Value
  {
    match t
    case UintT => if Numeric(v).Some? then Num(Numeric(v).value) else v
    case IntT => if Numeric(v).Some? then Num(Numeric(v).value) else v
    case FloatT => Float(FloatBits(v, single))
    case TokenT => v
    case StringT =>
      if Text(v).Some? && Encode(Text(v).value).Ok? then Utf8(Encode(Text(v).value).value)
      else Utf8([])
    case BufferT => v
    case BooleanT => Bool(Truthy(v))
  }

  function ScalarsReceived(items: seq<Value>, t: Scalar, single: Value -> Float32): (r: seq<Value>)
    ensures |r| == |items|
  {
    if items == [] then [] else [ScalarReceived(items[0], t, single)] + ScalarsReceived(items[1..], t, single)
  }

  /** What the decoder gives back for the fields of obj, stored into `record` in format order. */
  function FieldsReceived(obj: Value, fs: seq<Field>, single: Value -> Float32, record: map<string, Value>): map<string, Value>
    decreases SizeAll(fs), 2
  {
    if fs == [] then record
    else
      SizeAllBound(fs, 0);
      FieldsReceived(obj, fs[1..], single, record[fs[0].name := FieldReceived(Get(obj, fs[0].name), fs[0], single)])
  }

  function FieldReceived(v: Value, f: Field, single: Value -> Float32): Value
    decreases Size(f), 1
  {
    match f
    case Single(_, t) => ScalarReceived(v, t, single)
    case SimpleArray(_, t) =>
      (match Elements(v) case None => Undefined case Some(items) => List(ScalarsReceived(items, t, single)))
    case RecordArray(_, inner) =>
      (match Elements(v) case None => Undefined case Some(items) => List(RecordsReceived(items, inner, single)))
  }

  function RecordsReceived(items: seq<Value>, fs: seq<Field>, single: Value -> Float32): seq<Value>
    decreases SizeAll(fs), 3, |items|
  {
    if items == [] then []
    else [Obj(FieldsReceived(items[0], fs, single, map[]))] + RecordsReceived(items[1..], fs, single)
  }

  /** `deflateData(obj, format)`: the bytes of the new Data, or what fitInFormat throws. */
  function DeflateSpec(obj: Value, fs: seq<Field>, single: Value -> Float32): Code
  {
    FieldsCode(obj, fs, single)
  }

  /** The code c occupies buf[off..end]. */
  ghost predicate Within(buf: seq<Byte>, off: nat, end: nat, c: seq<Byte>)
  {
    off <= end <= |buf| && buf[off .. end] == c
  }

  /** A code made of two parts: where the first part ends, the second begins. */
  lemma Split(buf: seq<Byte>, off: nat, end: nat, a: seq<Byte>, b: seq<Byte>) returns (mid: nat)
    requires Within(buf, off, end, a + b)
    ensures Within(buf, off, mid, a) && Within(buf, mid, end, b)
  {
    mid := off + |a|;
    assert buf[off .. mid] == (a + b)[..|a|];
    assert buf[mid .. end] == (a + b)[|a|..];
  }

  /** An unsigned code within a buffer reads back as its value. */
  lemma UintIn(buf: seq<Byte>, off: nat, end: nat, u: nat)
    requires u < Capacity(8) && Within(buf, off, end, UintBytes(u))
    ensures UintAt(buf, off) == Ok((u, end))
  {
    assert buf == buf[..off] + UintBytes(u) + buf[end..];
    UintRoundTrip(u, buf[..off], buf[end..]);
  }

  lemma IntIn(buf: seq<Byte>, off: nat, end: nat, i: int)
    requires IntInRange(i) && Within(buf, off, end, IntBytes(i))
    ensures IntAt(buf, off) == Ok((i, end))
  {
    assert buf == buf[..off] + IntBytes(i) + buf[end..];
    IntRoundTrip(i, buf[..off], buf[end..]);
  }

  /** A length-prefixed byte string within a buffer reads back as its bytes. */
  lemma CountedIn(buf: seq<Byte>, off: nat, end: nat, e: seq<Byte>)
    requires ValidUint(|e|) && Within(buf, off, end, UintBytes(|e|) + e)
    ensures Inflate.CountedAt(buf, off) == Ok((e, end))
  {
    ValidUintHasCode(|e|);
    var mid := Split(buf, off, end, UintBytes(|e|), e);
    UintIn(buf, off, mid, |e|);
  }

  /** A scalar reads back as what was written. */
  lemma ScalarRoundTrip(v: Value, t: Scalar, single: Value -> Float32, buf: seq<Byte>, off: nat, end: nat)
    requires ScalarCode(v, t, single).Ok? && Within(buf, off, end, ScalarCode(v, t, single).value)
    ensures Inflate.ScalarAt(buf, off, t) == Ok((ScalarReceived(v, t, single), end))
  {
    match t
    case UintT => UintScalarRoundTrip(v, t, single, buf, off, end);
    case IntT => IntScalarRoundTrip(v, t, single, buf, off, end);
    case FloatT => FixedScalarRoundTrip(v, t, single, buf, off, end);
    case TokenT => FixedScalarRoundTrip(v, t, single, buf, off, end);
    case StringT => StringScalarRoundTrip(v, t, single, buf, off, end);
    case BufferT => BufferScalarRoundTrip(v, t, single, buf, off, end);
    case BooleanT => BooleanScalarRoundTrip(v, t, single, buf, off, end);
  }

  lemma UintScalarRoundTrip(v: Value, t: Scalar, single: Value -> Float32, buf: seq<Byte>, off: nat, end: nat)
    requires t == UintT && ScalarCode(v, t, single).Ok? && Within(buf, off, end, ScalarCode(v, t, single).value)
    ensures Inflate.ScalarAt(buf, off, t) == Ok((ScalarReceived(v, t, single), end))
  {
    ValidUintHasCode(Numeric(v).value.n);
    UintIn(buf, off, end, Numeric(v).value.n);
  }

  lemma IntScalarRoundTrip(v: Value, t: Scalar, single: Value -> Float32, buf: seq<Byte>, off: nat, end: nat)
    requires t == IntT && ScalarCode(v, t, single).Ok? && Within(buf, off, end, ScalarCode(v, t, single).value)
    ensures Inflate.ScalarAt(buf, off, t) == Ok((ScalarReceived(v, t, single), end))
  {
    ValidIntHasCode(Numeric(v).value.n);
    IntIn(buf, off, end, Numeric(v).value.n);
  }

  lemma FixedScalarRoundTrip(v: Value, t: Scalar, single: Value -> Float32, buf: seq<Byte>, off: nat, end: nat)
    requires (t == FloatT || t == TokenT) && ScalarCode(v, t, single).Ok? && Within(buf, off, end, ScalarCode(v, t, single).value)
    ensures Inflate.ScalarAt(buf, off, t) == Ok((ScalarReceived(v, t, single), end))
  {
  }

  lemma StringScalarRoundTrip(v: Value, t: Scalar, single: Value -> Float32, buf: seq<Byte>, off: nat, end: nat)
    requires t == StringT && ScalarCode(v, t, single).Ok? && Within(buf, off, end, ScalarCode(v, t, single).value)
    ensures Inflate.ScalarAt(buf, off, t) == Ok((ScalarReceived(v, t, single), end))
  {
    var e := StringParts(v, t, single);
    Utf8In(e, t, buf, off, end);
  }

  /** A string field's code is a length-prefixed byte string, received as those bytes. */
  lemma StringParts(v: Value, t: Scalar, single: Value -> Float32) returns (e: seq<Byte>)
    requires t == StringT && ScalarCode(v, t, single).Ok?
    ensures ValidUint(|e|) && ScalarCode(v, t, single).value == UintBytes(|e|) + e && ScalarReceived(v, t, single) == Utf8(e)
  {
    e := if Text(v).Some? then Encode(Text(v).value).value else [];
  }

  lemma Utf8In(e: seq<Byte>, t: Scalar, buf: seq<Byte>, off: nat, end: nat)
    requires t == StringT && ValidUint(|e|) && Within(buf, off, end, UintBytes(|e|) + e)
    ensures Inflate.ScalarAt(buf, off, t) == Ok((Utf8(e), end))
  {
    CountedIn(buf, off, end, e);
  }

  lemma BufferScalarRoundTrip(v: Value, t: Scalar, single: Value -> Float32, buf: seq<Byte>, off: nat, end: nat)
    requires t == BufferT && ScalarCode(v, t, single).Ok? && Within(buf, off, end, ScalarCode(v, t, single).value)
    ensures Inflate.ScalarAt(buf, off, t) == Ok((ScalarReceived(v, t, single), end))
  {
    CountedIn(buf, off, end, v.bytes);
  }

  lemma BooleanScalarRoundTrip(v: Value, t: Scalar, single: Value -> Float32, buf: seq<Byte>, off: nat, end: nat)
    requires t == BooleanT && ScalarCode(v, t, single).Ok? && Within(buf, off, end, ScalarCode(v, t, single).value)
    ensures Inflate.ScalarAt(buf, off, t) == Ok((ScalarReceived(v, t, single), end))
  {
    assert buf[off] == ScalarCode(v, t, single).value[0];
  }

  /** The code of a run of scalars: the first item's, then the others'. */
  lemma ScalarsCodeCons(items: seq<Value>, t: Scalar, single: Value -> Float32)
    requires items != []
    ensures ScalarCode(items[0], t, single).Err? ==> ScalarsCode(items, t, single) == Err(ScalarCode(items[0], t, single).error)
    ensures ScalarCode(items[0], t, single).Ok? ==>
      ScalarsCode(items, t, single) == Then(ScalarCode(items[0], t, single).value, ScalarsCode(items[1..], t, single))
  {
  }

  /** ScalarsCodeCons for the items from index i on. */
  lemma ScalarsCodeFrom(items: seq<Value>, i: nat, t: Scalar, single: Value -> Float32)
    requires i < |items|
    ensures ScalarCode(items[i], t, single).Err? ==> ScalarsCode(items[i..], t, single) == Err(ScalarCode(items[i], t, single).error)
    ensures ScalarCode(items[i], t, single).Ok? ==>
      ScalarsCode(items[i..], t, single) == Then(ScalarCode(items[i], t, single).value, ScalarsCode(items[i + 1..], t, single))
  {
    ScalarsCodeCons(items[i..], t, single);
    assert items[i..][0] == items[i] && items[i..][1..] == items[i + 1..];
  }

  lemma {:induction false} ScalarsRoundTrip(items: seq<Value>, t: Scalar, single: Value -> Float32, buf: seq<Byte>, off: nat, end: nat)
    requires ScalarsCode(items, t, single).Ok? && Within(buf, off, end, ScalarsCode(items, t, single).value)
    ensures Inflate.ScalarsAt(buf, off, t, |items|) == Ok((ScalarsReceived(items, t, single), end))
  {
    if items != [] {
      ScalarsCodeCons(items, t, single);
      var mid := Split(buf, off, end, ScalarCode(items[0], t, single).value, ScalarsCode(items[1..], t, single).value);
      ScalarRoundTrip(items[0], t, single, buf, off, mid);
      ScalarsRoundTrip(items[1..], t, single, buf, mid, end);
      Inflate.ScalarsAtStep(buf, off, t, |items|, ScalarReceived(items[0], t, single), mid, ScalarsReceived(items[1..], t, single), end);
    } else {
      assert end == off;
    }
  }

  /** The code of the fields of an object: the first field's, then the others'. */
  lemma FieldsCodeCons(obj: Value, fs: seq<Field>, single: Value -> Float32)
    requires fs != [] && !obj.Undefined?
    ensures FieldCode(Get(obj, fs[0].name), fs[0], single).Err? ==>
      FieldsCode(obj, fs, single) == Err(FieldCode(Get(obj, fs[0].name), fs[0], single).error)
    ensures FieldCode(Get(obj, fs[0].name), fs[0], single).Ok? ==>
      FieldsCode(obj, fs, single) == Then(FieldCode(Get(obj, fs[0].name), fs[0], single).value, FieldsCode(obj, fs[1..], single))
  {
  }

  /** FieldsCodeCons for the fields from index i on. */
  lemma FieldsCodeFrom(obj: Value, fs: seq<Field>, i: nat, single: Value -> Float32)
    requires i < |fs| && !obj.Undefined?
    ensures FieldCode(Get(obj, fs[i].name), fs[i], single).Err? ==>
      FieldsCode(obj, fs[i..], single) == Err(FieldCode(Get(obj, fs[i].name), fs[i], single).error)
    ensures FieldCode(Get(obj, fs[i].name), fs[i], single).Ok? ==>
      FieldsCode(obj, fs[i..], single) == Then(FieldCode(Get(obj, fs[i].name), fs[i], single).value, FieldsCode(obj, fs[i + 1..], single))
  {
    FieldsCodeCons(obj, fs[i..], single);
    assert fs[i..][0] == fs[i] && fs[i..][1..] == fs[i + 1..];
  }

  /** Reading a property of undefined throws TypeError, whatever the fields. */
  lemma FieldsCodeUndefined(obj: Value, fs: seq<Field>, i: nat, single: Value -> Float32)
    requires i < |fs| && obj.Undefined?
    ensures FieldsCode(obj, fs[i..], single) == Err(TypeError)
  {
  }

  lemma {:induction false} FieldsRoundTrip(obj: Value, fs: seq<Field>, single: Value -> Float32, record: map<string, Value>, buf: seq<Byte>, off: nat, end: nat)
    requires FieldsCode(obj, fs, single).Ok? && Within(buf, off, end, FieldsCode(obj, fs, single).value)
    ensures Inflate.FieldsAt(buf, off, fs, record) == Ok((FieldsReceived(obj, fs, single, record), end))
    decreases SizeAll(fs), 2
  {
    if fs != [] {
      SizeAllBound(fs, 0);
      FieldsCodeCons(obj, fs, single);
      var v := Get(obj, fs[0].name);
      var w := FieldReceived(v, fs[0], single);
      var mid := Split(buf, off, end, FieldCode(v, fs[0], single).value, FieldsCode(obj, fs[1..], single).value);
      FieldRoundTrip(v, fs[0], single, buf, off, mid);
      FieldsRoundTrip(obj, fs[1..], single, record[fs[0].name := w], buf, mid, end);
      Inflate.FieldsAtStep(buf, off, fs, record, w, mid, Ok((FieldsReceived(obj, fs[1..], single, record[fs[0].name := w]), end)));
    } else {
      assert end == off;
    }
  }

  lemma {:induction false} FieldRoundTrip(v: Value, f: Field, single: Value -> Float32, buf: seq<Byte>, off: nat, end: nat)
    requires FieldCode(v, f, single).Ok? && Within(buf, off, end, FieldCode(v, f, single).value)
    ensures Inflate.FieldAt(buf, off, f) == Ok((FieldReceived(v, f, single), end))
    decreases Size(f), 1
  {
    match f
    case Single(_, t) =>
      ScalarRoundTrip(v, t, single, buf, off, end);
    case SimpleArray(_, t) =>
      SimpleArrayRoundTrip(v, f, single, buf, off, end);
    case RecordArray(_, inner) =>
      RecordArrayRoundTrip(v, f, single, buf, off, end);
  }

  lemma SimpleArrayRoundTrip(v: Value, f: Field, single: Value -> Float32, buf: seq<Byte>, off: nat, end: nat)
    requires f.SimpleArray? && FieldCode(v, f, single).Ok? && Within(buf, off, end, FieldCode(v, f, single).value)
    ensures Inflate.FieldAt(buf, off, f) == Ok((FieldReceived(v, f, single), end))
  {
    var items := Elements(v).value;
    ValidUintHasCode(|items|);
    ScalarItemsIn(items, f, single, buf, off, end);
  }

  /** A count followed by the items of a simple array reads back as the received items. */
  lemma ScalarItemsIn(items: seq<Value>, f: Field, single: Value -> Float32, buf: seq<Byte>, off: nat, end: nat)
    requires f.SimpleArray? && |items| < Capacity(8) && ScalarsCode(items, f.scalar, single).Ok?
    requires Within(buf, off, end, UintBytes(|items|) + ScalarsCode(items, f.scalar, single).value)
    ensures Inflate.FieldAt(buf, off, f) == Ok((List(ScalarsReceived(items, f.scalar, single)), end))
  {
    var mid := Split(buf, off, end, UintBytes(|items|), ScalarsCode(items, f.scalar, single).value);
    UintIn(buf, off, mid, |items|);
    ScalarsRoundTrip(items, f.scalar, single, buf, mid, end);
    Inflate.SimpleArrayAtStep(buf, off, f, |items|, mid, ScalarsReceived(items, f.scalar, single), end);
  }

  lemma RecordArrayRoundTrip(v: Value, f: Field, single: Value -> Float32, buf: seq<Byte>, off: nat, end: nat)
    requires f.RecordArray? && FieldCode(v, f, single).Ok? && Within(buf, off, end, FieldCode(v, f, single).value)
    ensures Inflate.FieldAt(buf, off, f) == Ok((FieldReceived(v, f, single), end))
    decreases Size(f), 0
  {
    var items := Elements(v).value;
    ValidUintHasCode(|items|);
    RecordItemsIn(items, f, single, buf, off, end);
  }

  /** A count followed by the items of a record array reads back as the received records. */
  lemma RecordItemsIn(items: seq<Value>, f: Field, single: Value -> Float32, buf: seq<Byte>, off: nat, end: nat)
    requires f.RecordArray? && |items| < Capacity(8) && RecordsCode(items, f.fields, single).Ok?
    requires Within(buf, off, end, UintBytes(|items|) + RecordsCode(items, f.fields, single).value)
    ensures Inflate.FieldAt(buf, off, f) == Ok((List(RecordsReceived(items, f.fields, single)), end))
    decreases Size(f), -1
  {
    var mid := Split(buf, off, end, UintBytes(|items|), RecordsCode(items, f.fields, single).value);
    UintIn(buf, off, mid, |items|);
    RecordsRoundTrip(items, f.fields, single, buf, mid, end);
    Inflate.RecordArrayAtStep(buf, off, f, |items|, mid, RecordsReceived(items, f.fields, single), end);
  }

  /** The code of a run of records: the first record's, then the others'. */
  lemma RecordsCodeCons(items: seq<Value>, fs: seq<Field>, single: Value -> Float32)
    requires items != []
    ensures FieldsCode(items[0], fs, single).Err? ==> RecordsCode(items, fs, single) == Err(FieldsCode(items[0], fs, single).error)
    ensures FieldsCode(items[0], fs, single).Ok? ==>
      RecordsCode(items, fs, single) == Then(FieldsCode(items[0], fs, single).value, RecordsCode(items[1..], fs, single))
  {
  }

  /** RecordsCodeCons for the items from index i on. */
  lemma RecordsCodeFrom(items: seq<Value>, i: nat, fs: seq<Field>, single: Value -> Float32)
    requires i < |items|
    ensures FieldsCode(items[i], fs, single).Err? ==> RecordsCode(items[i..], fs, single) == Err(FieldsCode(items[i], fs, single).error)
    ensures FieldsCode(items[i], fs, single).Ok? ==>
      RecordsCode(items[i..], fs, single) == Then(FieldsCode(items[i], fs, single).value, RecordsCode(items[i + 1..], fs, single))
  {
    RecordsCodeCons(items[i..], fs, single);
    assert items[i..][0] == items[i] && items[i..][1..] == items[i + 1..];
  }

  lemma {:induction false} RecordsRoundTrip(items: seq<Value>, fs: seq<Field>, single: Value -> Float32, buf: seq<Byte>, off: nat, end: nat)
    requires RecordsCode(items, fs, single).Ok? && Within(buf, off, end, RecordsCode(items, fs, single).value)
    ensures Inflate.RecordsAt(buf, off, fs, |items|) == Ok((RecordsReceived(items, fs, single), end))
    decreases SizeAll(fs), 3, |items|
  {
    if items != [] {
      RecordsCodeCons(items, fs, single);
      var mid := Split(buf, off, end, FieldsCode(items[0], fs, single).value, RecordsCode(items[1..], fs, single).value);
      FieldsRoundTrip(items[0], fs, single, map[], buf, off, mid);
      RecordsRoundTrip(items[1..], fs, single, buf, mid, end);
      Inflate.RecordsAtStep(buf, off, fs, |items|, FieldsReceived(items[0], fs, single, map[]), mid, RecordsReceived(items[1..], fs, single), end);
    } else {
      assert end == off;
    }
  }

  /** What deflateData writes, inflateData reads back: every field of the format with the value
      the object held under its name, as the decoder represents it. */
  lemma DeflateInflate(obj: Value, fs: seq<Field>, single: Value -> Float32)
    requires DeflateSpec(obj, fs, single).Ok?
    ensures Inflate.InflateSpec(DeflateSpec(obj, fs, single).value, fs) == Ok(Obj(FieldsReceived(obj, fs, single, map[])))
  {
    var c := DeflateSpec(obj, fs, single).value;
    assert c[0 .. |c|] == c;
    FieldsRoundTrip(obj, fs, single, map[], c, 0, |c|);
  }

  /** The state of fitInFormat over a Data: what the writes so far leave to be written. */
  ghost predicate Fits(r: Status, before: seq<Byte>, after: seq<Byte>, code: Code)
  {
    match code
    case Ok(c) => r.Ok? && after == before + c
    case Err(e) => r == Err(e)
  }

  /** fitInSimpleType. */
  method FitInSimpleType(value: Value, t: Scalar, single: Value -> Float32, data: Data) returns (r: Status)
    requires data.Valid()
    modifies data.store, data.store.buffer
    ensures data.Valid() && (fresh(data.store.buffer) || data.store.buffer == old(data.store.buffer))
    ensures Fits(r, old(data.Bytes()), data.Bytes(), ScalarCode(value, t, single))
  {
    match t {
      case UintT =>
        var x := Numeric(value);
        if x.None? {
          return Err(TypeError);
        }
        r := data.AddUint(x.value);
      case IntT =>
        var x := Numeric(value);
        if x.None? {
          return Err(TypeError);
        }
        r := data.AddInt(x.value);
      case FloatT =>
        data.AddFloat(FloatBits(value, single));
        r := Ok(());
      case TokenT =>
        r := data.Append(if value.Tok? then Item.Bytes(value.token) else Unsupported);
      case StringT =>
        r := FitInString(value, data);
      case BufferT =>
        if !value.Buf? {
          return Err(TypeError);
        }
        r := data.AddBuffer(value.bytes);
      case BooleanT =>
        data.AddBoolean(Truthy(value));
        r := Ok(());
    }
  }

  /** `data.addString(value)` for any value. */
  method FitInString(value: Value, data: Data) returns (r: Status)
    requires data.Valid()
    modifies data.store, data.store.buffer
    ensures data.Valid() && (fresh(data.store.buffer) || data.store.buffer == old(data.store.buffer))
    ensures Fits(r, old(data.Bytes()), data.Bytes(), StringValueCode(value))
  {
    if value.Str? {
      r := data.AddString(value.units);
    } else if value.Utf8? {
      r := data.AddString(Decoded(value.bytes));
    } else if value.Undefined? || (value.List? && value.items != []) || (value.Buf? && value.bytes != []) {
      r := Err(TypeError);
    } else {
      r := data.AddString([]);
      assert Encode([]) == Ok([]);
    }
  }

  /** fitInSimpleArray: the count of the items, then each item as fitInSimpleType writes it. */
  method FitInSimpleArray(value: Value, t: Scalar, single: Value -> Float32, data: Data) returns (r: Status)
    requires data.Valid()
    modifies data.store, data.store.buffer
    ensures data.Valid() && (fresh(data.store.buffer) || data.store.buffer == old(data.store.buffer))
    ensures Fits(r, old(data.Bytes()), data.Bytes(), FieldCode(value, SimpleArray("", t), single))
  {
    var elements := Elements(value);
    if elements.None? {
      return Err(TypeError);
    }
    var items := elements.value;
    r := data.AddUint(Integral(|items|));
    if r.Err? {
      return;
    }
    ghost var mid := data.Bytes();
    r := FitInScalars(items, t, single, data);
    FitsThen(r, old(data.Bytes()), mid, data.Bytes(), UintCode(Integral(|items|)).value, ScalarsCode(items, t, single));
  }

  /** The loop of fitInSimpleArray over the items. */
  method FitInScalars(items: seq<Value>, t: Scalar, single: Value -> Float32, data: Data) returns (r: Status)
    requires data.Valid()
    modifies data.store, data.store.buffer
    ensures data.Valid() && (fresh(data.store.buffer) || data.store.buffer == old(data.store.buffer))
    ensures Fits(r, old(data.Bytes()), data.Bytes(), ScalarsCode(items, t, single))
  {
    ghost var start := data.Bytes();
    ghost var written: seq<Byte> := [];
    ThenNil(ScalarsCode(items, t, single));
    var i := 0;
    while i < |items|
      invariant 0 <= i <= |items|
      invariant data.Valid() && (fresh(data.store.buffer) || data.store.buffer == old(data.store.buffer))
      invariant data.Bytes() == start + written
      invariant Then(written, ScalarsCode(items[i..], t, single)) == ScalarsCode(items, t, single)
    {
      var item := FitInScalarAt(items, i, t, single, data, written, start);
      if item.Err? {
        return item;
      }
      written := written + ScalarCode(items[i], t, single).value;
      i := i + 1;
    }
    assert items[i..] == [];
    r := Ok(());
  }

  /** One element of the loop above, written after the bytes `written` of the ones before it. */
  method FitInScalarAt(items: seq<Value>, i: nat, t: Scalar, single: Value -> Float32, data: Data,
                       ghost written: seq<Byte>, ghost start: seq<Byte>) returns (r: Status)
    requires data.Valid() && i < |items| && data.Bytes() == start + written
    requires Then(written, ScalarsCode(items[i..], t, single)) == ScalarsCode(items, t, single)
    modifies data.store, data.store.buffer
    ensures data.Valid() && (fresh(data.store.buffer) || data.store.buffer == old(data.store.buffer))
    ensures r.Err? ==> Fits(r, start, data.Bytes(), ScalarsCode(items, t, single))
    ensures r.Ok? ==> ScalarCode(items[i], t, single).Ok?
    ensures r.Ok? ==> data.Bytes() == start + (written + ScalarCode(items[i], t, single).value)
    ensures r.Ok? ==> Then(written + ScalarCode(items[i], t, single).value, ScalarsCode(items[i + 1..], t, single)) == ScalarsCode(items, t, single)
  {
    ScalarsCodeFrom(items, i, t, single);
    ghost var before := data.Bytes();
    r := FitInSimpleType(items[i], t, single, data);
    Advance(ScalarsCode(items, t, single), ScalarsCode(items[i..], t, single), ScalarCode(items[i], t, single),
      ScalarsCode(items[i + 1..], t, single), written, r, start, before, data.Bytes());
  }

  /** fitInArray: the count of the items, then each item as fitInFormat writes it. */
  method FitInArray(value: Value, fs: seq<Field>, single: Value -> Float32, data: Data) returns (r: Status)
    requires data.Valid()
    modifies data.store, data.store.buffer
    ensures data.Valid() && (fresh(data.store.buffer) || data.store.buffer == old(data.store.buffer))
    ensures Fits(r, old(data.Bytes()), data.Bytes(), FieldCode(value, RecordArray("", fs), single))
    decreases SizeAll(fs), 4
  {
    var elements := Elements(value);
    if elements.None? {
      return Err(TypeError);
    }
    var items := elements.value;
    r := data.AddUint(Integral(|items|));
    if r.Err? {
      return;
    }
    ghost var mid := data.Bytes();
    r := FitInRecords(items, fs, single, data);
    FitsThen(r, old(data.Bytes()), mid, data.Bytes(), UintCode(Integral(|items|)).value, RecordsCode(items, fs, single));
  }

  /** The loop of fitInArray over the items. */
  method FitInRecords(items: seq<Value>, fs: seq<Field>, single: Value -> Float32, data: Data) returns (r: Status)
    requires data.Valid()
    modifies data.store, data.store.buffer
    ensures data.Valid() && (fresh(data.store.buffer) || data.store.buffer == old(data.store.buffer))
    ensures Fits(r, old(data.Bytes()), data.Bytes(), RecordsCode(items, fs, single))
    decreases SizeAll(fs), 3
  {
    ghost var start := data.Bytes();
    ghost var written: seq<Byte> := [];
    ThenNil(RecordsCode(items, fs, single));
    var i := 0;
    while i < |items|
      invariant 0 <= i <= |items|
      invariant data.Valid() && (fresh(data.store.buffer) || data.store.buffer == old(data.store.buffer))
      invariant data.Bytes() == start + written
      invariant Then(written, RecordsCode(items[i..], fs, single)) == RecordsCode(items, fs, single)
    {
      RecordsCodeFrom(items, i, fs, single);
      ghost var before := data.Bytes();
      var item := FitInFormat(items[i], fs, single, data);
      Advance(RecordsCode(items, fs, single), RecordsCode(items[i..], fs, single), FieldsCode(items[i], fs, single),
        RecordsCode(items[i + 1..], fs, single), written, item, start, before, data.Bytes());
      if item.Err? {
        return item;
      }
      written := written + FieldsCode(items[i], fs, single).value;
      i := i + 1;
    }
    assert items[i..] == [];
    r := Ok(());
  }

  /** fitInFormat: each field of the format with the value the object holds under its name. */
  method FitInFormat(obj: Value, fs: seq<Field>, single: Value -> Float32, data: Data) returns (r: Status)
    requires data.Valid()
    modifies data.store, data.store.buffer
    ensures data.Valid() && (fresh(data.store.buffer) || data.store.buffer == old(data.store.buffer))
    ensures Fits(r, old(data.Bytes()), data.Bytes(), FieldsCode(obj, fs, single))
    decreases SizeAll(fs), 2
  {
    ghost var start := data.Bytes();
    ghost var written: seq<Byte> := [];
    ThenNil(FieldsCode(obj, fs, single));
    var i := 0;
    while i < |fs|
      invariant 0 <= i <= |fs|
      invariant data.Valid() && (fresh(data.store.buffer) || data.store.buffer == old(data.store.buffer))
      invariant data.Bytes() == start + written
      invariant Then(written, FieldsCode(obj, fs[i..], single)) == FieldsCode(obj, fs, single)
    {
      SizeAllBound(fs, i);
      if obj.Undefined? {
        FieldsCodeUndefined(obj, fs, i, single);
        return Err(TypeError);
      }
      FieldsCodeFrom(obj, fs, i, single);
      var value := Get(obj, fs[i].name);
      ghost var before := data.Bytes();
      var field := FitInField(value, fs[i], single, data);
      Advance(FieldsCode(obj, fs, single), FieldsCode(obj, fs[i..], single), FieldCode(value, fs[i], single),
        FieldsCode(obj, fs[i + 1..], single), written, field, start, before, data.Bytes());
      if field.Err? {
        return field;
      }
      written := written + FieldCode(value, fs[i], single).value;
      i := i + 1;
    }
    assert fs[i..] == [];
    r := Ok(());
  }

  /** The branch of fitInFormat on the kind of a field. */
  method FitInField(value: Value, f: Field, single: Value -> Float32, data: Data) returns (r: Status)
    requires data.Valid()
    modifies data.store, data.store.buffer
    ensures data.Valid() && (fresh(data.store.buffer) || data.store.buffer == old(data.store.buffer))
    ensures Fits(r, old(data.Bytes()), data.Bytes(), FieldCode(value, f, single))
    decreases Size(f), 1
  {
    match f {
      case Single(_, t) =>
        r := FitInSimpleType(value, t, single, data);
      case SimpleArray(_, t) =>
        r := FitInSimpleArray(value, t, single, data);
      case RecordArray(_, inner) =>
        r := FitInArray(value, inner, single, data);
    }
  }

  /** Writing c and then what a later call fits writes c followed by that call's code. */
  lemma FitsThen(r: Status, before: seq<Byte>, mid: seq<Byte>, after: seq<Byte>, c: seq<Byte>, code: Code)
    requires mid == before + c && Fits(r, mid, after, code)
    ensures Fits(r, before, after, Then(c, code))
  {
  }

  lemma ThenNil(rest: Code)
    ensures Then([], rest) == rest
  {
    if rest.Ok? {
      assert [] + rest.value == rest.value;
    }
  }

  /** One step of a writing loop: `whole` is what is written so far followed by `remaining`,
      which is one part's `code` followed by `rest`; after the part is fitted, either the loop
      stops with the error of the whole, or the written bytes grow by the part's code. */
  lemma Advance(whole: Code, remaining: Code, code: Code, rest: Code, written: seq<Byte>, r: Status,
                start: seq<Byte>, before: seq<Byte>, after: seq<Byte>)
    requires whole == Then(written, remaining)
    requires code.Err? ==> remaining == Err(code.error)
    requires code.Ok? ==> remaining == Then(code.value, rest)
    requires before == start + written && Fits(r, before, after, code)
    ensures r.Err? ==> Fits(r, start, after, whole)
    ensures r.Ok? ==> code.Ok? && after == start + (written + code.value) && whole == Then(written + code.value, rest)
  {
    if r.Ok? {
      ThenThen(written, code.value, rest);
    }
  }

  lemma ThenThen(w: seq<Byte>, c: seq<Byte>, rest: Code)
    ensures Then(w, Then(c, rest)) == Then(w + c, rest)
  {
    if rest.Ok? {
      assert w + (c + rest.value) == w + c + rest.value;
    }
  }

  /** `deflateData(obj, format)`: a new Data with the object fitted in, as a byte string. */
  method DeflateData(obj: Value, fs: seq<Field>, single: Value -> Float32) returns (r: Code)
    ensures r == DeflateSpec(obj, fs, single)
  {
    var data := new Data();
    var fitted := FitInFormat(obj, fs, single, data);
    if fitted.Err? {
      return Err(fitted.error);
    }
    var bytes := data.ToBuffer();
    assert DeflateSpec(obj, fs, single).Ok?;
    assert bytes == [] + DeflateSpec(obj, fs, single).value;
    assert [] + DeflateSpec(obj, fs, single).value == DeflateSpec(obj, fs, single).value;
    return Ok(bytes);
  }
}
