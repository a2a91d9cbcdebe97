/**
 * The decoder of nodejs/inflateData.js. Every reader takes a state {buffer, offset}, advances
 * the offset past what it read and throws on failure. The model states each reader as a
 * function from a buffer and an offset to the value read and the offset after it, and the
 * `Reader` class, whose methods move a cursor through the buffer as the source does, is proved
 * to compute exactly those functions.
 */
module Inflate {
  import opened Basics
  import opened Wire
  import opened Emit
  import opened Tokens
  import opened Formats

  type Read<T> = Result<(T, nat), ReadError>

  /** A value that needs n fixed bytes: Malformed (not a RangeError) when fewer remain. */
  function FixedAt(buf: seq<Byte>, off: nat, n: nat): (r: Read<seq<Byte>>)
    ensures r.Ok? <==> off + n <= |buf|
    ensures r.Ok? ==> |r.value.0| == n && r.value.1 == off + n
    ensures r.Err? ==> r.error == Malformed
  {
    if off + n > |buf| then Err(Malformed) else Ok((buf[off .. off + n], off + n))
  }

  /** readString and readBuffer: a uint length, then that many bytes. */
  function CountedAt(buf: seq<Byte>, off: nat): (r: Read<seq<Byte>>)
  {
    match UintAt(buf, off)
    case Err(e) => Err(e)
    case Ok((n, o)) => if o + n > |buf| then Err(Malformed) else Ok((buf[o .. o + n], o + n))
  }

  /** readBoolean: one byte, 0 or 1. */
  function BooleanAt(buf: seq<Byte>, off: nat): (r: Read<bool>)
  {
    if off + 1 > |buf| then Err(Malformed)
    else if buf[off] != 0 && buf[off] != 1 then Err(Malformed)
    else Ok((buf[off] == 1, off + 1))
  }

  /** readSimpleElement: the reader its type names. */
  function ScalarAt(buf: seq<Byte>, off: nat, t: Scalar): Read<Value>
  {
    match t
    case UintT =>
      (match UintAt(buf, off) case Err(e) => Err(e) case Ok((u, o)) => Ok((Num(Integral(u)), o)))
    case IntT =>
      (match IntAt(buf, off) case Err(e) => Err(e) case Ok((i, o)) => Ok((Num(Integral(i)), o)))
    case FloatT =>
      (match FixedAt(buf, off, 4) case Err(e) => Err(e) case Ok((b, o)) => Ok((Float(b), o)))
    case TokenT =>
      (match FixedAt(buf, off, 16) case Err(e) => Err(e) case Ok((b, o)) => Ok((Tok(b), o)))
    case StringT =>
      (match CountedAt(buf, off) case Err(e) => Err(e) case Ok((b, o)) => Ok((Utf8(b), o)))
    case BufferT =>
      (match CountedAt(buf, off) case Err(e) => Err(e) case Ok((b, o)) => Ok((Buf(b), o)))
    case BooleanT =>
      (match BooleanAt(buf, off) case Err(e) => Err(e) case Ok((b, o)) => Ok((Bool(b), o)))
  }

  /** n scalars of one type, one after the other. */
  function ScalarsAt(buf: seq<Byte>, off: nat, t: Scalar, n: nat): Read<seq<Value>>
    decreases n
  {
    if n == 0 then Ok(([], off))
    else match ScalarAt(buf, off, t)
      case Err(e) => Err(e)
      case Ok((v, o)) =>
        match ScalarsAt(buf, o, t, n - 1)
        case Err(e) => Err(e)
        case Ok((vs, o')) => Ok(([v] + vs, o'))
  }

  /** readElement: the fields in format order, each stored under its name in `record`. */
  function FieldsAt(buf: seq<Byte>, off: nat, fs: seq<Field>, record: map<string, Value>): Read<map<string, Value>>
    decreases SizeAll(fs), 2, 0
  {
    if fs == [] then Ok((record, off))
    else
      SizeAllBound(fs, 0);
      match FieldAt(buf, off, fs[0])
      case Err(e) => Err(e)
      case Ok((v, o)) => FieldsAt(buf, o, fs[1..], record[fs[0].name := v])
  }

  /** One field: a scalar, or a uint count followed by that many elements. */
  function FieldAt(buf: seq<Byte>, off: nat, f: Field): Read<Value>
    decreases Size(f), 1, 0
  {
    match f
    case Single(_, t) => ScalarAt(buf, off, t)
    case SimpleArray(_, t) =>
      (match UintAt(buf, off)
       case Err(e) => Err(e)
       case Ok((n, o)) =>
         match ScalarsAt(buf, o, t, n)
         case Err(e) => Err(e)
         case Ok((vs, o')) => Ok((List(vs), o')))
    case RecordArray(_, inner) =>
      (match UintAt(buf, off)
       case Err(e) => Err(e)
       case Ok((n, o)) =>
         match RecordsAt(buf, o, inner, n)
         case Err(e) => Err(e)
         case Ok((vs, o')) => Ok((List(vs), o')))
  }

  /** n records of the same fields, one after the other. */
  function RecordsAt(buf: seq<Byte>, off: nat, fs: seq<Field>, n: nat): Read<seq<Value>>
    decreases SizeAll(fs), 3, n
  {
    if n == 0 then Ok(([], off))
    else match FieldsAt(buf, off, fs, map[])
      case Err(e) => Err(e)
      case Ok((m, o)) =>
        match RecordsAt(buf, o, fs, n - 1)
        case Err(e) => Err(e)
        case Ok((vs, o')) => Ok(([Obj(m)] + vs, o'))
  }

  /** `inflateData(buffer, format)`: one element from offset 0, which must use up the buffer. */
  function InflateSpec(buf: seq<Byte>, fs: seq<Field>): Result<Value, ReadError>
  {
    match FieldsAt(buf, 0, fs, map[])
    case Err(e) => Err(e)
    case Ok((m, o)) => if o != |buf| then Err(Malformed) else Ok(Obj(m))
  }

  /** The first scalar of a run, then the others after it. */
  lemma ScalarsAtStep(buf: seq<Byte>, off: nat, t: Scalar, n: nat, v: Value, o: nat, vs: seq<Value>, o': nat)
    requires n > 0 && ScalarAt(buf, off, t) == Ok((v, o)) && ScalarsAt(buf, o, t, n - 1) == Ok((vs, o'))
    ensures ScalarsAt(buf, off, t, n) == Ok(([v] + vs, o'))
  {
  }

  /** The first field of an element, then the others with it recorded. */
  lemma FieldsAtStep(buf: seq<Byte>, off: nat, fs: seq<Field>, record: map<string, Value>, v: Value, o: nat, r: Read<map<string, Value>>)
    requires fs != [] && FieldAt(buf, off, fs[0]) == Ok((v, o)) && FieldsAt(buf, o, fs[1..], record[fs[0].name := v]) == r
    ensures FieldsAt(buf, off, fs, record) == r
  {
  }

  /** An array field of simple elements: its count, then that many scalars. */
  lemma SimpleArrayAtStep(buf: seq<Byte>, off: nat, f: Field, n: nat, o: nat, vs: seq<Value>, o': nat)
    requires f.SimpleArray? && UintAt(buf, off) == Ok((n, o)) && ScalarsAt(buf, o, f.scalar, n) == Ok((vs, o'))
    ensures FieldAt(buf, off, f) == Ok((List(vs), o'))
  {
  }

  /** An array field of records: its count, then that many records. */
  lemma RecordArrayAtStep(buf: seq<Byte>, off: nat, f: Field, n: nat, o: nat, vs: seq<Value>, o': nat)
    requires f.RecordArray? && UintAt(buf, off) == Ok((n, o)) && RecordsAt(buf, o, f.fields, n) == Ok((vs, o'))
    ensures FieldAt(buf, off, f) == Ok((List(vs), o'))
  {
  }

  /** The first record of a run, then the others after it. */
  lemma RecordsAtStep(buf: seq<Byte>, off: nat, fs: seq<Field>, n: nat, m: map<string, Value>, o: nat, vs: seq<Value>, o': nat)
    requires n > 0 && FieldsAt(buf, off, fs, map[]) == Ok((m, o)) && RecordsAt(buf, o, fs, n - 1) == Ok((vs, o'))
    ensures RecordsAt(buf, off, fs, n) == Ok(([Obj(m)] + vs, o'))
  {
  }

  /** A result of a reader method with its final offset, in the form of the functions above. */
  function Done<T>(r: Result<T, ReadError>, offset: nat): Read<T>
  {
    match r
    case Err(e) => Err(e)
    case Ok(v) => Ok((v, offset))
  }

  /** Every reader moves forward: a successful read ends at or after where it started. */
  lemma {:induction false} FieldsAtAdvance(buf: seq<Byte>, off: nat, fs: seq<Field>, record: map<string, Value>)
    requires FieldsAt(buf, off, fs, record).Ok?
    ensures off <= FieldsAt(buf, off, fs, record).value.1 <= |buf| || (fs == [] && off > |buf|)
    decreases SizeAll(fs), 2, 0
  {
    if fs != [] {
      SizeAllBound(fs, 0);
      FieldAtAdvance(buf, off, fs[0]);
      var o := FieldAt(buf, off, fs[0]).value.1;
      FieldsAtAdvance(buf, o, fs[1..], record[fs[0].name := FieldAt(buf, off, fs[0]).value.0]);
    }
  }

  lemma {:induction false} FieldAtAdvance(buf: seq<Byte>, off: nat, f: Field)
    requires FieldAt(buf, off, f).Ok?
    ensures off <= FieldAt(buf, off, f).value.1 <= |buf|
    decreases Size(f), 1, 0
  {
    match f
    case Single(_, t) =>
      ScalarAtAdvance(buf, off, t);
    case SimpleArray(_, t) =>
      var (n, o) := UintAt(buf, off).value;
      UintAtAdvance(buf, off);
      ScalarsAtAdvance(buf, o, t, n);
    case RecordArray(_, inner) =>
      var (n, o) := UintAt(buf, off).value;
      UintAtAdvance(buf, off);
      RecordsAtAdvance(buf, o, inner, n);
  }

  lemma {:induction false} RecordsAtAdvance(buf: seq<Byte>, off: nat, fs: seq<Field>, n: nat)
    requires RecordsAt(buf, off, fs, n).Ok? && off <= |buf|
    ensures off <= RecordsAt(buf, off, fs, n).value.1 <= |buf|
    decreases SizeAll(fs), 3, n
  {
    if n > 0 {
      FieldsAtAdvance(buf, off, fs, map[]);
      RecordsAtAdvance(buf, FieldsAt(buf, off, fs, map[]).value.1, fs, n - 1);
    }
  }

  lemma {:induction false} ScalarsAtAdvance(buf: seq<Byte>, off: nat, t: Scalar, n: nat)
    requires ScalarsAt(buf, off, t, n).Ok? && off <= |buf|
    ensures off <= ScalarsAt(buf, off, t, n).value.1 <= |buf|
    decreases n
  {
    if n > 0 {
      ScalarAtAdvance(buf, off, t);
      ScalarsAtAdvance(buf, ScalarAt(buf, off, t).value.1, t, n - 1);
    }
  }

  lemma ScalarAtAdvance(buf: seq<Byte>, off: nat, t: Scalar)
    requires ScalarAt(buf, off, t).Ok?
    ensures off < ScalarAt(buf, off, t).value.1 <= |buf|
  {
    if t == UintT || t == StringT || t == BufferT {
      UintAtAdvance(buf, off);
    } else if t == IntT {
      LayoutAtBound(buf, off);
    }
  }

  lemma UintAtAdvance(buf: seq<Byte>, off: nat)
    requires UintAt(buf, off).Ok?
    ensures off < UintAt(buf, off).value.1 <= |buf|
  {
    LayoutAtBound(buf, off);
  }

  /** The cursor of the readers: the state {buffer, offset}. */
  class Reader {
    const buffer: seq<Byte>
    var offset: nat

    constructor (buffer: seq<Byte>)
      ensures this.buffer == buffer && offset == 0
    {
      this.buffer := buffer;
      offset := 0;
    }

    /** The k-byte layout at the cursor, as readUint decodes it: the first byte names the
        bucket and holds the low bits, and the other k - 1 bytes add theirs, shifted past
        those already read. */
    method ReadLayout() returns (r: Result<(Len, nat), ReadError>)
      modifies this
      ensures r == LayoutAt(buffer, old(offset))
      ensures r.Ok? ==> offset == old(offset) + r.value.0
    {
      if offset >= |buffer| {
        return Err(Truncated);
      }
      var off := offset;
      var first := buffer[off];
      var bucket := BucketOf(first);
      if bucket.None? {
        return Err(Malformed);
      }
      var k := bucket.value;
      var length: int := k as int - 1;
      if off + length >= |buffer| {
        return Err(Truncated);
      }
      var u := Shifted(off, k);
      offset := off + 1 + length;
      return Ok((k, u));
    }

    /** The value of the k-byte layout whose first byte sits at `off`: the first byte under its
        bucket's mask, then each further byte shifted past the bits already read. */
    method Shifted(off: nat, k: Len) returns (u: nat)
      requires off + k <= |buffer| && BucketOf(buffer[off]) == Some(k)
      ensures u == Assemble(k, buffer[off], LEValue(buffer[off + 1 .. off + k]))
    {
      var first := buffer[off];
      u := first as int % Span(k);
      var scale: nat := Span(k);
      ghost var rest: int := 0;
      ghost var p: int := 1;
      var i: int := 1;
      while i < k
        invariant 1 <= i <= k
        invariant p == Pow256(i - 1)
        invariant scale == Span(k) * p
        invariant rest == LEValue(buffer[off + 1 .. off + i])
        invariant u == Assemble(k, first, rest)
      {
        var b := buffer[off + i];
        RestStep(buffer, off, i, i + 1, rest, p);
        AssembleStep(k, first, rest, b, p);
        u := u + b as int * scale;
        scale := scale * 256;
        rest := rest + b as int * p;
        p := p * 256;
        i := i + 1;
      }
    }

    /** readUint. */
    method ReadUint() returns (r: Result<nat, ReadError>)
      modifies this
      ensures Done(r, offset) == UintAt(buffer, old(offset))
    {
      var layout := ReadLayout();
      if layout.Err? {
        return Err(layout.error);
      }
      return Ok(layout.value.1);
    }

    /** readInt: the layout rebiased by the bucket's minimum; every failure, truncation
        included, is a plain Error, and 254 (the 8-byte bucket) is not accepted. */
    method ReadInt() returns (r: Result<int, ReadError>)
      modifies this
      ensures Done(r, offset) == IntAt(buffer, old(offset))
    {
      var layout := ReadLayout();
      if layout.Err? || layout.value.0 == 8 {
        return Err(Malformed);
      }
      var (k, v) := layout.value;
      return Ok(v + MinInt(k));
    }

    /** readFloat and readToken: n bytes taken as they are. */
    method ReadFixed(n: nat) returns (r: Result<seq<Byte>, ReadError>)
      modifies this
      ensures Done(r, offset) == FixedAt(buffer, old(offset), n)
    {
      if offset + n > |buffer| {
        return Err(Malformed);
      }
      r := Ok(buffer[offset .. offset + n]);
      offset := offset + n;
    }

    /** readString and readBuffer. */
    method ReadCounted() returns (r: Result<seq<Byte>, ReadError>)
      modifies this
      ensures Done(r, offset) == CountedAt(buffer, old(offset))
    {
      var length := ReadUint();
      if length.Err? {
        return Err(length.error);
      }
      if offset + length.value > |buffer| {
        return Err(Malformed);
      }
      r := Ok(buffer[offset .. offset + length.value]);
      offset := offset + length.value;
    }

    /** readBoolean. */
    method ReadBoolean() returns (r: Result<bool, ReadError>)
      modifies this
      ensures Done(r, offset) == BooleanAt(buffer, old(offset))
    {
      if offset + 1 > |buffer| {
        return Err(Malformed);
      }
      var b := buffer[offset];
      if b != 0 && b != 1 {
        return Err(Malformed);
      }
      offset := offset + 1;
      return Ok(b == 1);
    }

    /** readSimpleElement: dispatch on the type; anything not named is a boolean. */
    method ReadSimpleElement(t: Scalar) returns (r: Result<Value, ReadError>)
      modifies this
      ensures Done(r, offset) == ScalarAt(buffer, old(offset), t)
    {
      match t {
        case UintT =>
          var u := ReadUint();
          r := if u.Ok? then Ok(Num(Integral(u.value))) else Err(u.error);
        case IntT =>
          var i := ReadInt();
          r := if i.Ok? then Ok(Num(Integral(i.value))) else Err(i.error);
        case FloatT =>
          var b := ReadFixed(4);
          r := if b.Ok? then Ok(Float(b.value)) else Err(b.error);
        case TokenT =>
          var b := ReadFixed(16);
          r := if b.Ok? then Ok(Tok(b.value)) else Err(b.error);
        case StringT =>
          var b := ReadCounted();
          r := if b.Ok? then Ok(Utf8(b.value)) else Err(b.error);
        case BufferT =>
          var b := ReadCounted();
          r := if b.Ok? then Ok(Buf(b.value)) else Err(b.error);
        case BooleanT =>
          var b := ReadBoolean();
          r := if b.Ok? then Ok(Bool(b.value)) else Err(b.error);
      }
    }

    /** readSimpleArray: a uint count, then that many elements of the type. */
    method ReadSimpleArray(t: Scalar) returns (r: Result<Value, ReadError>)
      modifies this
      ensures Done(r, offset) == FieldAt(buffer, old(offset), SimpleArray("", t))
    {
      var length := ReadUint();
      if length.Err? {
        return Err(length.error);
      }
      var n := length.value;
      ghost var start := offset;
      var items := ReadScalars(t, n);
      SimpleArrayAtDone(buffer, old(offset), SimpleArray("", t), n, start, items, offset);
      if items.Err? {
        return Err(items.error);
      }
      return Ok(List(items.value));
    }

    /** n elements of type t, in order; the first failure stops the loop. */
    method ReadScalars(t: Scalar, n: nat) returns (r: Result<seq<Value>, ReadError>)
      modifies this
      ensures Done(r, offset) == ScalarsAt(buffer, old(offset), t, n)
    {
      ghost var start := offset;
      var items: seq<Value> := [];
      var i := 0;
      ghost var m := n;
      JoinNil(ScalarsAt(buffer, start, t, n));
      while i < n
        invariant 0 <= i <= n && m == n - i
        invariant Join(items, ScalarsAt(buffer, offset, t, m)) == ScalarsAt(buffer, start, t, n)
      {
        ghost var before := offset;
        var v := ReadSimpleElement(t);
        ScalarsJoin(items, buffer, before, t, m, ScalarAt(buffer, before, t));
        if v.Err? {
          return Err(v.error);
        }
        items := items + [v.value];
        i := i + 1;
        m := m - 1;
      }
      assert items + [] == items;
      return Ok(items);
    }

    /** readArray: a uint count, then that many records of the fields. */
    method ReadArray(fs: seq<Field>) returns (r: Result<Value, ReadError>)
      modifies this
      ensures Done(r, offset) == FieldAt(buffer, old(offset), RecordArray("", fs))
      decreases SizeAll(fs), 3
    {
      var length := ReadUint();
      if length.Err? {
        return Err(length.error);
      }
      var n := length.value;
      ghost var start := offset;
      var items: seq<Value> := [];
      var i := 0;
      ghost var m := n;
      JoinNil(RecordsAt(buffer, start, fs, n));
      while i < n
        invariant 0 <= i <= n && m == n - i
        invariant Join(items, RecordsAt(buffer, offset, fs, m)) == RecordsAt(buffer, start, fs, n)
      {
        ghost var before := offset;
        var v := ReadElement(fs);
        RecordsJoin(items, buffer, before, fs, m, FieldsAt(buffer, before, fs, map[]));
        if v.Err? {
          return Err(v.error);
        }
        items := items + [Obj(v.value)];
        i := i + 1;
        m := m - 1;
      }
      assert items + [] == items;
      return Ok(List(items));
    }

    /** readElement: the fields in format order, into a fresh record. */
    method ReadElement(fs: seq<Field>) returns (r: Result<map<string, Value>, ReadError>)
      modifies this
      ensures Done(r, offset) == FieldsAt(buffer, old(offset), fs, map[])
      decreases SizeAll(fs), 2
    {
      var record: map<string, Value> := map[];
      var i := 0;
      while i < |fs|
        invariant 0 <= i <= |fs|
        invariant FieldsAt(buffer, offset, fs[i..], record) == FieldsAt(buffer, old(offset), fs, map[])
      {
        SizeAllBound(fs, i);
        assert fs[i..][0] == fs[i] && fs[i..][1..] == fs[i + 1..];
        var v;
        match fs[i] {
          case Single(_, t) =>
            v := ReadSimpleElement(t);
          case SimpleArray(_, t) =>
            v := ReadSimpleArray(t);
          case RecordArray(_, inner) =>
            v := ReadArray(inner);
        }
        if v.Err? {
          return Err(v.error);
        }
        record := record[fs[i].name := v.value];
        i := i + 1;
      }
      return Ok(record);
    }
  }

  /** Prefixing the values read so far to the result of reading the rest. */
  function Join(items: seq<Value>, rest: Read<seq<Value>>): Read<seq<Value>>
  {
    match rest
    case Err(e) => Err(e)
    case Ok((vs, o)) => Ok((items + vs, o))
  }

  /** Wrapping the elements a simple array's count announces gives the field's value. */
  lemma SimpleArrayAtDone(buf: seq<Byte>, off: nat, f: Field, n: nat, o: nat, r: Result<seq<Value>, ReadError>, o': nat)
    requires f.SimpleArray? && UintAt(buf, off) == Ok((n, o))
    ensures Done(r, o') == ScalarsAt(buf, o, f.scalar, n) ==> Done(if r.Ok? then Ok(List(r.value)) else Err(r.error), o') == FieldAt(buf, off, f)
  {
  }

  /** One step of readSimpleArray's loop: the element read is the first of the m remaining. */
  lemma ScalarsJoin(items: seq<Value>, buf: seq<Byte>, off: nat, t: Scalar, m: nat, x: Read<Value>)
    requires m > 0 && ScalarAt(buf, off, t) == x
    ensures x.Err? ==> Join(items, ScalarsAt(buf, off, t, m)) == Err(x.error)
    ensures x.Ok? ==> Join(items, ScalarsAt(buf, off, t, m)) == Join(items + [x.value.0], ScalarsAt(buf, x.value.1, t, m - 1))
  {
    if x.Ok? {
      JoinJoin(items, [x.value.0], ScalarsAt(buf, x.value.1, t, m - 1));
    }
  }

  /** One step of readArray's loop: the record read is the first of the m remaining. */
  lemma RecordsJoin(items: seq<Value>, buf: seq<Byte>, off: nat, fs: seq<Field>, m: nat, x: Read<map<string, Value>>)
    requires m > 0 && FieldsAt(buf, off, fs, map[]) == x
    ensures x.Err? ==> Join(items, RecordsAt(buf, off, fs, m)) == Err(x.error)
    ensures x.Ok? ==> Join(items, RecordsAt(buf, off, fs, m)) == Join(items + [Obj(x.value.0)], RecordsAt(buf, x.value.1, fs, m - 1))
  {
    if x.Ok? {
      JoinJoin(items, [Obj(x.value.0)], RecordsAt(buf, x.value.1, fs, m - 1));
    }
  }

  lemma JoinNil(rest: Read<seq<Value>>)
    ensures Join([], rest) == rest
  {
    if rest.Ok? {
      assert [] + rest.value.0 == rest.value.0;
    }
  }

  lemma JoinJoin(items: seq<Value>, more: seq<Value>, rest: Read<seq<Value>>)
    ensures Join(items, Join(more, rest)) == Join(items + more, rest)
  {
    if rest.Ok? {
      assert items + (more + rest.value.0) == (items + more) + rest.value.0;
    }
  }

  /** One more byte of the rest: its value, weighted by its position, is added. */
  lemma RestStep(buf: seq<Byte>, off: nat, i: nat, next: nat, rest: int, p: int)
    requires 1 <= i && next == i + 1 && off + i < |buf|
    requires rest == LEValue(buf[off + 1 .. off + i]) && p == Pow256(i - 1)
    ensures rest + buf[off + i] as int * p == LEValue(buf[off + 1 .. off + next])
    ensures p * 256 == Pow256(next - 1)
  {
    var s := buf[off + 1 .. off + i];
    assert buf[off + 1 .. off + next] == s + [buf[off + i]];
    LEValueSnoc(s, buf[off + i]);
  }

  /** Adding b bytes-worth p to the rest adds b shifted past the first byte's bits to the value. */
  lemma AssembleStep(k: Len, first: Byte, rest: nat, b: Byte, p: nat)
    requires k >= 2
    ensures 0 <= b * p && 0 <= b * (Span(k) * p)
    ensures (Span(k) * p) * 256 == Span(k) * (p * 256)
    ensures Assemble(k, first, rest + b * p) == Assemble(k, first, rest) + b * (Span(k) * p)
  {
    var span := Span(k);
    assert span * (rest + b * p) == span * rest + b * (span * p);
  }
  /** `inflateData(buffer, format)`. */
  method InflateData(buffer: seq<Byte>, fs: seq<Field>) returns (r: Result<Value, ReadError>)
    ensures r == InflateSpec(buffer, fs)
  {
    var state := new Reader(buffer);
    var data := state.ReadElement(fs);
    if data.Err? {
      return Err(data.error);
    }
    if state.offset != |buffer| {
      return Err(Malformed);
    }
    return Ok(Obj(data.value));
  }
}
