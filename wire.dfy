/**
 * The variable-length integer codes of the wire format, as pure functions.
 *
 * An encoded integer takes k bytes, 1 <= k <= 8. The first byte names k by the
 * bucket it falls in (0-127: 1 byte, 128-191: 2, 192-223: 3, 224-239: 4,
 * 240-247: 5, 248-251: 6, 252-253: 7, 254: 8; 255 is never a first byte), keeps
 * the low 8-k bits of the value, and the remaining bits follow little-endian in
 * k-1 bytes. Signed integers use the same layout after adding 2^(7k-1).
 */
module Wire {
  import opened Basics

  type Byte = x: int | 0 <= x < 256

  /** The two failure kinds of the readers: `Truncated` is a `RangeError` (more bytes
      may complete the value), `Malformed` any other `Error`. */
  datatype ReadError = Truncated | Malformed

  /** The number of bytes of a code. */
  type Len = k: int | 1 <= k <= 8 witness 1

  function Pow256(n: nat): (r: nat)
    ensures r >= 1
  {
    if n == 0 then 1 else 256 * Pow256(n - 1)
  }

  /** Number of values the first byte of a k-byte code can hold: 2^(8-k), the source's MASK_(8-k)_B + 1. */
  function Span(k: Len): nat
  {
    if k == 1 then 128
    else if k == 2 then 64
    else if k == 3 then 32
    else if k == 4 then 16
    else if k == 5 then 8
    else if k == 6 then 4
    else if k == 7 then 2
    else 1
  }

  /** First byte of a k-byte code: the source's OFFSET_k_B. */
  function Offset(k: Len): Byte
  {
    256 - 2 * Span(k)
  }

  /** Number of values a k-byte code can hold, 2^(7k): MAX_UINT_k_B + 1 for k <= 7, and 2^56 for k = 8. */
  function Capacity(k: Len): nat
  {
    Span(k) * Pow256(k - 1)
  }

  /** Least signed value of a k-byte code, -2^(7k-1): the source's MIN_INT_k_B. */
  function MinInt(k: Len): int
    requires k <= 7
  {
    0 - Span(k) / 2 * Pow256(k - 1)
  }

  /** Largest integer a double holds exactly: the source's MAX_DOUBLE_INT, 2^53 - 1. */
  const MaxDoubleInt: nat := 9007199254740991

  /** The source's constants, evaluated. */
  lemma ConstantTable()
    ensures Offset(1) == 0 && Offset(2) == 128 && Offset(3) == 192 && Offset(4) == 224
    ensures Offset(5) == 240 && Offset(6) == 248 && Offset(7) == 252 && Offset(8) == 254
    ensures Capacity(1) == 128 && Capacity(2) == 16384 && Capacity(3) == 2097152
    ensures Capacity(7) == 562949953421312 && Capacity(8) == 72057594037927936
    ensures MinInt(1) == -64 && MinInt(2) == -8192 && MinInt(7) == -281474976710656
    ensures MaxDoubleInt < Capacity(8)
  {
  }

  /** Each bucket's first bytes follow the previous bucket's, up to 254; 255 is left over. */
  lemma BucketsAdjacent(k: Len)
    ensures Offset(k) + Span(k) == (if k == 8 then 255 else Offset(k + 1))
    ensures Offset(k) % Span(k) == 0
  {
  }

  /** The first byte of a k-byte code of v, and what is left for the other k - 1 bytes. */
  function Split(k: Len, v: nat): (r: (Byte, nat))
    ensures r.0 == Offset(k) + v % Span(k) && r.1 == v / Span(k)
  {
    BucketsAdjacent(k);
    (Offset(k) + v % Span(k), v / Span(k))
  }

  /** The unsigned code of u is the first byte of its bucket's split, then the rest of the
      value in as many bytes as it needs (none in the one-byte bucket). */
  lemma UintParts(u: nat)
    requires u < Capacity(8)
    ensures UintBytes(u) == [Split(UintLength(u), u).0]
      + LEUntilZero(if UintLength(u) == 1 then 0 else Split(UintLength(u), u).1)
  {
    UintBytesLayout(u);
    var k: int := UintLength(u);
    var (first, rest) := Split(k, u);
    DivBound(u, Span(k), Pow256(k - 1));
    assert Layout(k, u) == [first] + LE(rest, k - 1);
    if k >= 2 {
      assert Capacity(k - 1) <= u;
      RestLowerBound(k, u);
      LEUntilZeroExact(rest, k - 1);
    }
  }

  /** The signed code of i is the first byte of the split of its rebiased value, then exactly
      IntLength(i) - 1 bytes of the rest. */
  lemma IntParts(i: int)
    requires IntInRange(i)
    ensures 0 <= i - MinInt(IntLength(i))
    ensures IntBytes(i) == [Split(IntLength(i), i - MinInt(IntLength(i))).0]
      + LE(Split(IntLength(i), i - MinInt(IntLength(i))).1, IntLength(i) as int - 1)
  {
    IntRebias(i);
    var k: int := IntLength(i);
    var v := i - MinInt(k);
    var (first, rest) := Split(k, v);
    assert IntBytes(i) == Layout(k, v);
    DivBound(v, Span(k), Pow256(k - 1));
    assert Layout(k, v) == [first] + LE(rest, k - 1);
  }

  /** n little-endian bytes of v (higher bits of v are dropped). */
  function LE(v: nat, n: nat): (r: seq<Byte>)
    ensures |r| == n
  {
    if n == 0 then [] else [v % 256] + LE(v / 256, n - 1)
  }

  /** The little-endian bytes of v up to its last nonzero byte: what `while (u) { append(u % 256); u = u / 256 }` emits. */
  function LEUntilZero(v: nat): seq<Byte>
  {
    if v == 0 then [] else [v % 256] + LEUntilZero(v / 256)
  }

  /** The number a little-endian byte sequence denotes. */
  function LEValue(s: seq<Byte>): nat
  {
    if s == [] then 0 else s[0] + 256 * LEValue(s[1..])
  }

  lemma {:induction false} LEValueBound(s: seq<Byte>)
    ensures LEValue(s) < Pow256(|s|)
  {
    if s != [] {
      LEValueBound(s[1..]);
    }
  }

  lemma {:induction false} LEValueSnoc(s: seq<Byte>, b: Byte)
    ensures LEValue(s + [b]) == LEValue(s) + b * Pow256(|s|)
  {
    if s == [] {
      assert [b][1..] == [];
    } else {
      assert (s + [b])[1..] == s[1..] + [b];
      LEValueSnoc(s[1..], b);
    }
  }

  /** Decoding n little-endian bytes gives back any value below 256^n. */
  lemma {:induction false} LERoundTrip(v: nat, n: nat)
    requires v < Pow256(n)
    ensures LEValue(LE(v, n)) == v
  {
    if n > 0 {
      LERoundTrip(v / 256, n - 1);
    }
  }

  /** The "until zero" loop emits exactly n bytes when v needs exactly n bytes. */
  lemma {:induction false} LEUntilZeroExact(v: nat, n: nat)
    requires v < Pow256(n)
    requires n == 0 || Pow256(n - 1) <= v
    ensures LEUntilZero(v) == LE(v, n)
  {
    if n > 0 {
      if n == 1 {
        assert v / 256 == 0;
      } else {
        assert Pow256(n - 2) <= v / 256;
      }
      LEUntilZeroExact(v / 256, n - 1);
    }
  }

  lemma DivBound(v: nat, d: nat, m: nat)
    requires d > 0 && v < d * m
    ensures v / d < m
  {
  }

  /** The k-byte layout of a value v < Capacity(k). */
  function Layout(k: Len, v: nat): (r: seq<Byte>)
    requires v < Capacity(k)
    ensures |r| == k
  {
    DivBound(v, Span(k), Pow256(k - 1));
    [Offset(k) + v % Span(k)] + LE(v / Span(k), k - 1)
  }

  /** The bucket a first byte names, or None for 255. */
  function BucketOf(b: Byte): Option<Len>
  {
    if b < 128 then Some(1)
    else if b < 192 then Some(2)
    else if b < 224 then Some(3)
    else if b < 240 then Some(4)
    else if b < 248 then Some(5)
    else if b < 252 then Some(6)
    else if b < 254 then Some(7)
    else if b == 254 then Some(8)
    else None
  }

  /** The buckets partition the first-byte values: byte b names k exactly when it lies in [Offset(k), Offset(k) + Span(k)). */
  lemma BucketOfRange(k: Len, b: Byte)
    ensures BucketOf(b) == Some(k) <==> Offset(k) <= b < Offset(k) + Span(k)
  {
    ConstantTable();
  }

  /** Least k in [from, 8] whose capacity exceeds u (8 when none does). */
  function LengthFrom(u: nat, from: Len): (k: Len)
    ensures from <= k
    ensures k == 8 || u < Capacity(k)
    ensures forall j: Len :: from <= j < k ==> Capacity(j) <= u
    decreases 8 - from
  {
    if from == 8 || u < Capacity(from) then from else LengthFrom(u, from + 1)
  }

  /** Number of bytes of the unsigned code of u. */
  function UintLength(u: nat): Len
  {
    LengthFrom(u, 1)
  }

  /** The unsigned code of u < 2^56: the narrowest bucket that holds u. */
  function UintBytes(u: nat): (r: seq<Byte>)
    requires u < Capacity(8)
  {
    UintBytesFrom(u, 1)
  }

  /** The code of u in the first bucket from `from` on that holds it, trying one bucket after
      the other as the if-chain of addUint does. */
  function UintBytesFrom(u: nat, from: Len): (r: seq<Byte>)
    requires u < Capacity(8)
    decreases 8 - from
  {
    if from == 8 || u < Capacity(from) then Layout(from, u) else UintBytesFrom(u, from + 1)
  }

  lemma {:induction false} UintBytesFromLayout(u: nat, from: Len)
    requires u < Capacity(8)
    ensures UintBytesFrom(u, from) == Layout(LengthFrom(u, from), u)
    decreases 8 - from
  {
    if !(from == 8 || u < Capacity(from)) {
      UintBytesFromLayout(u, from + 1);
    }
  }

  /** The unsigned code is the layout of the narrowest bucket. */
  lemma UintBytesLayout(u: nat)
    requires u < Capacity(8)
    ensures UintBytes(u) == Layout(UintLength(u), u)
  {
    UintBytesFromLayout(u, 1);
  }

  /** Least k in [from, 7] whose signed range [MinInt(k), -MinInt(k)) holds i (7 when none does). */
  function IntLengthFrom(i: int, from: Len): (k: Len)
    requires from <= 7
    ensures from <= k <= 7
    ensures k == 7 || MinInt(k) <= i < -MinInt(k)
    ensures forall j: Len :: from <= j < k ==> !(MinInt(j) <= i < -MinInt(j))
    decreases 7 - from
  {
    if from == 7 || (MinInt(from) <= i < -MinInt(from)) then from else IntLengthFrom(i, from + 1)
  }

  function IntLength(i: int): (k: Len)
    ensures k <= 7
  {
    IntLengthFrom(i, 1)
  }

  /** Signed values that have a code: the range of the widest signed bucket. */
  predicate IntInRange(i: int)
  {
    MinInt(7) <= i < -MinInt(7)
  }

  lemma IntRebias(i: int)
    requires IntInRange(i)
    ensures 0 <= i - MinInt(IntLength(i)) < Capacity(IntLength(i))
  {
    var k := IntLength(i);
    assert MinInt(k) <= i < -MinInt(k);
    HalfCapacity(k);
  }

  /** The signed range of a bucket is the lower and upper half of its capacity. */
  lemma HalfCapacity(k: Len)
    requires k <= 7
    ensures Capacity(k) == -2 * MinInt(k)
  {
    var h := Span(k) / 2;
    var p := Pow256(k - 1);
    assert Span(k) == 2 * h;
    calc {
      Capacity(k);
      (2 * h) * p;
      2 * (h * p);
    }
  }

  /** The signed code of i: the narrowest bucket whose range holds i, storing i - MinInt(k). */
  function IntBytes(i: int): (r: seq<Byte>)
    requires IntInRange(i)
  {
    IntRebias(i);
    var k := IntLength(i);
    Layout(k, i - MinInt(k))
  }

  /** The value readUint assembles in bucket k: the first byte under the bucket's mask, plus the
      remaining bytes shifted past the mask's bits. */
  function Assemble(k: Len, first: Byte, rest: nat): nat
  {
    if k == 1 then first
    else if k == 2 then first % 64 + 64 * rest
    else if k == 3 then first % 32 + 32 * rest
    else if k == 4 then first % 16 + 16 * rest
    else if k == 5 then first % 8 + 8 * rest
    else if k == 6 then first % 4 + 4 * rest
    else if k == 7 then first % 2 + 2 * rest
    else rest
  }

  /** Within its own bucket, the masks and shifts are "mod Span(k)" and "times Span(k)". */
  lemma AssembleSpan(k: Len, first: Byte, rest: nat)
    requires BucketOf(first) == Some(k) && (k == 1 ==> rest == 0)
    ensures Assemble(k, first, rest) == first % Span(k) + Span(k) * rest
  {
    BucketOfRange(k, first);
  }

  /** Reads the layout at offset `off`, failing as readUint does. Returns the bucket and the stored value. */
  function LayoutAt(buf: seq<Byte>, off: nat): Result<(Len, nat), ReadError>
  {
    if off >= |buf| then Err(Truncated)
    else match BucketOf(buf[off])
      case None => Err(Malformed)
      case Some(k) =>
        if off + (k - 1) >= |buf| then Err(Truncated)
        else Ok((k, Assemble(k, buf[off], LEValue(buf[off + 1 .. off + k]))))
  }

  /** Past the one-byte bucket, a value too wide for bucket k - 1 leaves a rest that needs all
      k - 1 bytes of bucket k. */
  lemma RestLowerBound(k: Len, u: nat)
    requires 2 <= k && Capacity(k - 1) <= u
    ensures Pow256(k - 2) <= u / Span(k)
  {
    if k == 2 {
    } else if k == 3 {
    } else if k == 4 {
    } else if k == 5 {
    } else if k == 6 {
    } else if k == 7 {
    }
  }

  /** readUint as a function: the value and the offset after it. */
  function UintAt(buf: seq<Byte>, off: nat): (r: Result<(nat, nat), ReadError>)
  {
    match LayoutAt(buf, off)
    case Err(e) => Err(e)
    case Ok((k, v)) => Ok((v, off + k))
  }

  /** readInt as a function. Every failure of readInt is a plain Error, and 254 is not a signed first byte. */
  function IntAt(buf: seq<Byte>, off: nat): (r: Result<(int, nat), ReadError>)
  {
    match LayoutAt(buf, off)
    case Err(_) => Err(Malformed)
    case Ok((k, v)) => if k == 8 then Err(Malformed) else Ok((v + MinInt(k), off + k))
  }

  /** What readUint assembles from a first byte of bucket k and k - 1 further bytes fits bucket k. */
  lemma AssembleBound(k: Len, first: Byte, rest: nat)
    requires BucketOf(first) == Some(k) && rest < Pow256(k - 1)
    ensures Assemble(k, first, rest) < Capacity(k)
  {
    if k == 1 {
    } else if k == 2 {
    } else if k == 3 {
    } else if k == 4 {
    } else if k == 5 {
    } else if k == 6 {
    } else if k == 7 {
    }
  }

  /** Any value a layout decodes to fits its bucket. */
  lemma LayoutAtBound(buf: seq<Byte>, off: nat)
    requires LayoutAt(buf, off).Ok?
    ensures LayoutAt(buf, off).value.1 < Capacity(LayoutAt(buf, off).value.0)
    ensures LayoutAt(buf, off).value.0 <= |buf| - off
  {
    var k: int := LayoutAt(buf, off).value.0;
    var s := buf[off + 1 .. off + k];
    LEValueBound(s);
    AssembleBound(k, buf[off], LEValue(s));
  }

  /** Assembling the split of v gives v back. */
  lemma AssembleSplit(k: Len, v: nat)
    requires v < Capacity(k)
    ensures Assemble(k, Split(k, v).0, Split(k, v).1) == v
  {
    var (first, rest) := Split(k, v);
    DivBound(v, Span(k), Pow256(k - 1));
    BucketsAdjacent(k);
    BucketOfRange(k, first);
    AssembleSpan(k, first, rest);
    FirstMask(k, v);
  }

  /** The first byte of bucket k keeps, under the bucket's mask, exactly the low part it was given. */
  lemma FirstMask(k: Len, v: nat)
    ensures (Offset(k) + v % Span(k)) % Span(k) == v % Span(k)
  {
    if k == 1 {
    } else if k == 2 {
    } else if k == 3 {
    } else if k == 4 {
    } else if k == 5 {
    } else if k == 6 {
    } else if k == 7 {
    }
  }
  /** The parts of a layout: the first byte names the bucket, and assembled with the value
      of the other k - 1 bytes it gives v back. */
  lemma {:induction false} LayoutParts(k: Len, v: nat)
    requires v < Capacity(k)
    ensures BucketOf(Layout(k, v)[0]) == Some(k)
    ensures Assemble(k, Layout(k, v)[0], LEValue(Layout(k, v)[1..])) == v
  {
    var r := Layout(k, v);
    var (first, rest) := Split(k, v);
    DivBound(v, Span(k), Pow256(k - 1));
    BucketOfRange(k, first);
    BucketsAdjacent(k);
    assert r[0] == first;
    assert r[1..] == LE(rest, k - 1);
    LERoundTrip(rest, k - 1);
    AssembleSplit(k, v);
  }

  /** Reading a layout back, whatever precedes and follows it. */
  lemma {:induction false} LayoutRoundTrip(k: Len, v: nat, p: seq<Byte>, s: seq<Byte>)
    requires v < Capacity(k)
    ensures LayoutAt(p + Layout(k, v) + s, |p|) == Ok((k, v))
  {
    var r := Layout(k, v);
    var buf := p + r + s;
    var off := |p|;
    assert buf[off] == r[0];
    assert buf[off + 1 .. off + k] == r[1..];
    LayoutParts(k, v);
  }

  /** readUint on the bytes addUint(u) writes gives u back and consumes exactly those bytes. */
  lemma UintRoundTrip(u: nat, p: seq<Byte>, s: seq<Byte>)
    requires u < Capacity(8)
    ensures UintAt(p + UintBytes(u) + s, |p|) == Ok((u, |p| + |UintBytes(u)|))
  {
    UintBytesLayout(u);
    LayoutRoundTrip(UintLength(u), u, p, s);
  }

  /** readInt on the bytes addInt(i) writes gives i back and consumes exactly those bytes. */
  lemma IntRoundTrip(i: int, p: seq<Byte>, s: seq<Byte>)
    requires IntInRange(i)
    ensures IntAt(p + IntBytes(i) + s, |p|) == Ok((i, |p| + |IntBytes(i)|))
  {
    IntRebias(i);
    var k := IntLength(i);
    LayoutRoundTrip(k, i - MinInt(k), p, s);
  }
}
