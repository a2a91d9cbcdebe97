/**
 * The integer emitters shared by the three encoders (`addUint` and `addInt` of nodejs/Data.js,
 * web/Data.js and js/Data.js, which are the same code): the first byte chosen by an if-chain
 * over the buckets, then the remaining bytes from a loop.
 */
module Emit {
  import opened Basics
  import opened Wire
  import opened Buffers

  /** A JavaScript number as the validations see it: an integer, NaN, or any other number (a
      value with a fractional part, or an infinity). For the last two `Math.round(x) != x` or a
      range test fails; NaN is kept apart because it is falsy. */
  datatype Number = Integral(n: int) | NaN | Fractional

  /** The IEEE 754 binary32 encoding of a float, little-endian. The model treats it as opaque. */
  type Float32 = s: seq<Byte> | |s| == 4 witness [0, 0, 0, 0]

  /** The bytes `addUint(x)` writes, or None where it throws TypeError. */
  function UintCode(x: Number): Option<seq<Byte>>
  {
    if x.Integral? && ValidUint(x.n) then Some(UintBytes(x.n)) else None
  }

  /** The bytes `addInt(x)` writes, or None where it throws TypeError. */
  function IntCode(x: Number): Option<seq<Byte>>
  {
    if x.Integral? && ValidInt(x.n) then Some(IntBytes(x.n)) else None
  }

  /** What `addUint` accepts: an integer in [0, MAX_DOUBLE_INT]. */
  predicate ValidUint(u: int)
  {
    0 <= u <= MaxDoubleInt
  }

  /** What `addInt` accepts: an integer with |i| < -MIN_INT_7_B = 2^48. */
  predicate ValidInt(i: int)
  {
    MinInt(7) < i < -MinInt(7)
  }

  /** Every accepted unsigned integer has a code. */
  lemma ValidUintHasCode(u: int)
    requires ValidUint(u)
    ensures u < Capacity(8)
  {
    ConstantTable();
  }

  /** Every accepted signed integer has a code, and the accepted range is the code range less its least value. */
  lemma ValidIntHasCode(i: int)
    ensures ValidInt(i) <==> IntInRange(i) && i != MinInt(7)
  {
  }

  lemma UintLengthIs(u: nat, k: Len)
    requires forall j: Len :: j < k ==> Capacity(j) <= u
    requires k == 8 || u < Capacity(k)
    ensures UintLength(u) == k
  {
  }

  lemma IntLengthIs(i: int, k: Len)
    requires k <= 7
    requires forall j: Len :: j < k ==> !(MinInt(j) <= i < -MinInt(j))
    requires k == 7 || MinInt(k) <= i < -MinInt(k)
    ensures IntLength(i) == k
  {
  }

  /** The trailing loop of `addUint`: `while (u) { append(u % 256); u = u / 256 }`. */
  method PutRest(b: DataBuffer, u: nat)
    requires b.Valid()
    modifies b, b.buffer
    ensures b.Valid() && b.Bytes() == old(b.Bytes()) + LEUntilZero(u)
    ensures fresh(b.buffer) || b.buffer == old(b.buffer)
  {
    var rest := u;
    ghost var target := b.Bytes() + LEUntilZero(u);
    while rest != 0
      invariant b.Valid() && b.Bytes() + LEUntilZero(rest) == target
      invariant fresh(b.buffer) || b.buffer == old(b.buffer)
      decreases rest
    {
      b.AppendByte(rest % 256);
      rest := rest / 256;
    }
  }

  /** The trailing loop of `addInt`: `while (length--) { append(i % 256); i = i / 256 }`. */
  method PutFixed(b: DataBuffer, v: nat, n: nat)
    requires b.Valid()
    modifies b, b.buffer
    ensures b.Valid() && b.Bytes() == old(b.Bytes()) + LE(v, n)
    ensures fresh(b.buffer) || b.buffer == old(b.buffer)
  {
    var rest, count := v, n;
    ghost var target := b.Bytes() + LE(v, n);
    while count != 0
      invariant b.Valid() && b.Bytes() + LE(rest, count) == target
      invariant fresh(b.buffer) || b.buffer == old(b.buffer)
    {
      b.AppendByte(rest % 256);
      rest, count := rest / 256, count - 1;
    }
  }

  /** The if-chain of `addUint`: the first bucket whose MAX_UINT_k_B is at least u, else 8. */
  method UintBucket(u: nat) returns (k: Len)
    ensures k == UintLength(u)
  {
    if u < Capacity(1) {
      k := 1;
    } else if u < Capacity(2) {
      k := 2;
    } else if u < Capacity(3) {
      k := 3;
    } else if u < Capacity(4) {
      k := 4;
    } else if u < Capacity(5) {
      k := 5;
    } else if u < Capacity(6) {
      k := 6;
    } else if u < Capacity(7) {
      k := 7;
    } else {
      k := 8;
    }
    UintLengthIs(u, k);
  }

  /** The if-chain of `addInt`: the first bucket whose signed range holds i, else 7. */
  method IntBucket(i: int) returns (k: Len)
    ensures k <= 7 && k == IntLength(i)
  {
    if MinInt(1) <= i < -MinInt(1) {
      k := 1;
    } else if MinInt(2) <= i < -MinInt(2) {
      k := 2;
    } else if MinInt(3) <= i < -MinInt(3) {
      k := 3;
    } else if MinInt(4) <= i < -MinInt(4) {
      k := 4;
    } else if MinInt(5) <= i < -MinInt(5) {
      k := 5;
    } else if MinInt(6) <= i < -MinInt(6) {
      k := 6;
    } else {
      k := 7;
    }
    IntLengthIs(i, k);
  }

  /** `addUint(u)` after validation: appends exactly the unsigned code of u. */
  method PutUint(b: DataBuffer, u: nat)
    requires b.Valid() && ValidUint(u)
    modifies b, b.buffer
    ensures b.Valid() && b.Bytes() == old(b.Bytes()) + UintBytes(u)
    ensures fresh(b.buffer) || b.buffer == old(b.buffer)
  {
    ValidUintHasCode(u);
    var k := UintBucket(u);
    UintParts(u);
    var (first, rest) := Split(k, u);
    b.AppendByte(first);
    PutRest(b, if k == 1 then 0 else rest);
  }

  /** The first byte `addInt` appends for i, the value left for the other bytes and how many
      of them there are. */
  method IntHead(i: int) returns (first: Byte, rest: nat, length: nat)
    requires ValidInt(i)
    ensures first == IntBytes(i)[0] && length == |IntBytes(i)| - 1
    ensures IntBytes(i) == [first] + LE(rest, length)
  {
    var k := IntBucket(i);
    IntParts(i);
    first, rest := Split(k, i - MinInt(k)).0, Split(k, i - MinInt(k)).1;
    length := k as int - 1;
  }

  /** `addInt(i)` after validation: appends exactly the signed code of i. */
  method PutInt(b: DataBuffer, i: int)
    requires b.Valid() && ValidInt(i)
    modifies b, b.buffer
    ensures b.Valid() && b.Bytes() == old(b.Bytes()) + IntBytes(i)
    ensures fresh(b.buffer) || b.buffer == old(b.buffer)
  {
    var first, rest, length := IntHead(i);
    b.AppendByte(first);
    PutFixed(b, rest, length);
  }

  /** `addUint(x)`: TypeError, before anything is written, unless x is an integer in
      [0, MAX_DOUBLE_INT]; otherwise the unsigned code of x. */
  method AddUint(b: DataBuffer, x: Number) returns (r: Status)
    requires b.Valid()
    modifies b, b.buffer
    ensures b.Valid() && (fresh(b.buffer) || b.buffer == old(b.buffer))
    ensures r.Ok? <==> UintCode(x).Some?
    ensures r.Err? ==> r.error == TypeError && b.Bytes() == old(b.Bytes())
    ensures r.Ok? ==> b.Bytes() == old(b.Bytes()) + UintCode(x).value
  {
    if !x.Integral? || x.n < 0 || x.n > MaxDoubleInt {
      return Err(TypeError);
    }
    PutUint(b, x.n);
    r := Ok(());
  }

  /** `addInt(x)`: TypeError, before anything is written, unless x is an integer with
      |x| < -MIN_INT_7_B; otherwise the signed code of x. */
  method AddInt(b: DataBuffer, x: Number) returns (r: Status)
    requires b.Valid()
    modifies b, b.buffer
    ensures b.Valid() && (fresh(b.buffer) || b.buffer == old(b.buffer))
    ensures r.Ok? <==> IntCode(x).Some?
    ensures r.Err? ==> r.error == TypeError && b.Bytes() == old(b.Bytes())
    ensures r.Ok? ==> b.Bytes() == old(b.Bytes()) + IntCode(x).value
  {
    if !x.Integral? || x.n <= MinInt(7) || x.n >= -MinInt(7) {
      return Err(TypeError);
    }
    PutInt(b, x.n);
    r := Ok(());
  }
}
