/**
 * Expanded formats and the values they describe. A format is the list of fields that
 * nodejs/expand.js produces from a signature: a scalar field `name:type`, a simple array
 * `name[]:type`, or an array of records `name[]:(fields)`. Values are the JavaScript values
 * that web/deflateData.js reads from an object and nodejs/inflateData.js builds.
 */
module Formats {
  import opened Wire
  import opened Emit
  import opened Tokens
  import opened Utf8

  /** The scalar types of a field: uint, int, float, string, token, Buffer, boolean. */
  datatype Scalar = UintT | IntT | FloatT | StringT | TokenT | BufferT | BooleanT

  datatype Field =
    | Single(name: string, scalar: Scalar)
    | SimpleArray(name: string, scalar: Scalar)
    | RecordArray(name: string, fields: seq<Field>)

  /** The format letter of a scalar type: the first character of its name. */
  function Letter(t: Scalar): char
  {
    match t
    case UintT => 'u'
    case IntT => 'i'
    case FloatT => 'f'
    case StringT => 's'
    case TokenT => 't'
    case BufferT => 'B'
    case BooleanT => 'b'
  }

  /** The compact format string of a field list: one letter per scalar field, "(x)" for a
      simple array and "(...)" around the format of a record array's fields. */
  function FormatString(fs: seq<Field>): string
  {
    if fs == [] then "" else FieldFormat(fs[0]) + FormatString(fs[1..])
  }

  function FieldFormat(f: Field): string
  {
    match f
    case Single(_, t) => [Letter(t)]
    case SimpleArray(_, t) => "(" + [Letter(t)] + ")"
    case RecordArray(_, inner) => "(" + FormatString(inner) + ")"
  }

  /** A size that decreases from a record array to its fields: the readers and writers
      recurse through it. */
  function Size(f: Field): nat
  {
    match f
    case RecordArray(_, inner) => 1 + SizeAll(inner)
    case _ => 1
  }

  function SizeAll(fs: seq<Field>): nat
  {
    if fs == [] then 0 else Size(fs[0]) + SizeAll(fs[1..])
  }

  lemma {:induction false} SizeAllBound(fs: seq<Field>, i: nat)
    requires i < |fs|
    ensures Size(fs[i]) <= SizeAll(fs)
    ensures SizeAll(fs[i + 1..]) < SizeAll(fs[i..])
  {
    if i > 0 {
      SizeAllBound(fs[1..], i - 1);
      assert fs[1..][i - 1..] == fs[i..];
      assert fs[1..][i..] == fs[i + 1..];
    }
  }

  /** A JavaScript value as the encoder reads it or the decoder builds it. A string is held as
      its UTF-16 code units (`Str`) on the sending side; the decoder gives the UTF-8 bytes it
      read (`Utf8`), which stand for the string `toString("utf8")` decodes them to. A float is its four little-endian binary32 bytes. */
  datatype Value =
    | Undefined
    | Num(n: Number)
    | Float(bits: Float32)
    | Tok(token: TokenBytes)
    | Str(units: seq<CodeUnit>)
    | Utf8(bytes: seq<Byte>)
    | Buf(bytes: seq<Byte>)
    | Bool(b: bool)
    | List(items: seq<Value>)
    | Obj(fields: map<string, Value>)

  /** `obj[name]`: undefined for a missing key or a value that is not an object. */
  function Get(obj: Value, name: string): Value
  {
    if obj.Obj? && name in obj.fields then obj.fields[name] else Undefined
  }

  /** JavaScript truthiness, as `Boolean(v)`: undefined, false, 0, -0, NaN and the empty
      string are falsy. */
  predicate Truthy(v: Value)
  {
    match v
    case Undefined => false
    case Num(n) => !n.NaN? && !(n.Integral? && n.n == 0)
    case Float(bits) => !FloatZero(bits) && !FloatNaN(bits)
    case Str(units) => units != []
    case Utf8(bytes) => bytes != []
    case Bool(b) => b
    case _ => true
  }

  /** The binary32 bits of +0 and -0, little-endian: everything 0 but the sign. */
  predicate FloatZero(bits: Float32)
  {
    bits[0] == 0 && bits[1] == 0 && bits[2] == 0 && (bits[3] == 0 || bits[3] == 0x80)
  }

  /** The binary32 bits of NaN: the eight exponent bits all 1 and a fraction that is not 0. */
  predicate FloatNaN(bits: Float32)
  {
    bits[3] % 0x80 == 0x7F && bits[2] >= 0x80 && (bits[2] % 0x80 != 0 || bits[1] != 0 || bits[0] != 0)
  }
}
