/**
 * The standalone browser encoder (js/Data.js, js/DataArray.js, js/Exception.js). Its Data keeps,
 * besides the bytes, a `format` string with one letter per value written (`u`, `i`, `f`, `t`,
 * `s`, and `(...)` around arrays), so that a Data can be checked against a registered format.
 */
module JsData {
  import opened Basics
  import opened Wire
  import opened Buffers
  import opened Emit
  import opened Tokens
  import opened Utf8
  import opened Strings

  /** The bytes an `add*` call writes for one element, or None where it throws. */
  type Code = Option<seq<Byte>>

  /** How many leading codes exist: how far an element loop gets before an element throws. */
  function Written(cs: seq<Code>): (k: nat)
    ensures k <= |cs|
    ensures forall j :: 0 <= j < k ==> cs[j].Some?
    ensures k < |cs| ==> cs[k].None?
  {
    if cs == [] || cs[0].None? then 0 else 1 + Written(cs[1..])
  }

  /** The bytes of the codes, one after the other. */
  function Concat(cs: seq<Code>): seq<Byte>
    requires forall j :: 0 <= j < |cs| ==> cs[j].Some?
  {
    if cs == [] then [] else Concat(cs[..|cs| - 1]) + cs[|cs| - 1].value
  }

  /** One more element whose code exists: the loop gets past it, and its code is appended. */
  lemma ConcatSnoc(cs: seq<Code>, i: nat)
    requires i <= Written(cs) && i < |cs| && cs[i].Some?
    ensures i < Written(cs)
    ensures Concat(cs[..i + 1]) == Concat(cs[..i]) + cs[i].value
  {
    WrittenPast(cs, i);
    assert cs[..i + 1][..i] == cs[..i];
  }

  /** One step of an element loop that began on the bytes `start`: what was there before the
      step and the code of element i make up what is there after it. */
  lemma ConcatStep(cs: seq<Code>, i: nat, start: seq<Byte>, before: seq<Byte>, after: seq<Byte>)
    requires i <= Written(cs) && i < |cs| && cs[i].Some?
    requires before == start + Concat(cs[..i]) && after == before + cs[i].value
    ensures i < Written(cs)
    ensures after == start + Concat(cs[..i + 1])
  {
    ConcatSnoc(cs, i);
    Appended(start, Concat(cs[..i]), cs[i].value);
  }

  lemma Appended(start: seq<Byte>, done: seq<Byte>, code: seq<Byte>)
    ensures start + (done + code) == (start + done) + code
  {
  }

  /** An element loop stops at the first element without a code. */
  lemma WrittenStop(cs: seq<Code>, i: nat)
    requires i <= Written(cs) && i < |cs| && cs[i].None?
    ensures Written(cs) == i
  {
  }

  lemma {:induction false} WrittenPast(cs: seq<Code>, i: nat)
    requires i <= Written(cs) && i < |cs| && cs[i].Some?
    ensures i < Written(cs)
  {
    if i > 0 {
      WrittenPast(cs[1..], i - 1);
    }
  }

  /** The code of each element under `addUint`. */
  function UintCodes(xs: seq<Number>): (cs: seq<Code>)
    ensures |cs| == |xs|
  {
    if xs == [] then [] else UintCodes(xs[..|xs| - 1]) + [UintCode(xs[|xs| - 1])]
  }

  /** The code of each element under `addInt`. */
  function IntCodes(xs: seq<Number>): (cs: seq<Code>)
    ensures |cs| == |xs|
  {
    if xs == [] then [] else IntCodes(xs[..|xs| - 1]) + [IntCode(xs[|xs| - 1])]
  }

  /** The code of each element under `addString`. */
  function StringCodes(xs: seq<seq<CodeUnit>>): (cs: seq<Code>)
    ensures |cs| == |xs|
  {
    if xs == [] then [] else StringCodes(xs[..|xs| - 1]) + [StringCode(xs[|xs| - 1])]
  }

  lemma {:induction false} UintCodesAt(xs: seq<Number>, i: nat)
    requires i < |xs|
    ensures UintCodes(xs)[i] == UintCode(xs[i])
  {
    if i < |xs| - 1 {
      UintCodesAt(xs[..|xs| - 1], i);
    }
  }

  lemma {:induction false} IntCodesAt(xs: seq<Number>, i: nat)
    requires i < |xs|
    ensures IntCodes(xs)[i] == IntCode(xs[i])
  {
    if i < |xs| - 1 {
      IntCodesAt(xs[..|xs| - 1], i);
    }
  }

  lemma {:induction false} StringCodesAt(xs: seq<seq<CodeUnit>>, i: nat)
    requires i < |xs|
    ensures StringCodes(xs)[i] == StringCode(xs[i])
  {
    if i < |xs| - 1 {
      StringCodesAt(xs[..|xs| - 1], i);
    }
  }

  function FloatCodes(xs: seq<Float32>): (cs: seq<Code>)
    ensures |cs| == |xs| && forall i :: 0 <= i < |xs| ==> cs[i] == Some(xs[i])
  {
    seq(|xs|, i requires 0 <= i < |xs| => Some(xs[i]))
  }

  ghost function TokenCodes(ts: seq<Token>): (cs: seq<Code>)
    reads set t | t in ts :: t.buffer
    ensures |cs| == |ts| && forall i :: 0 <= i < |ts| ==> cs[i] == Some(ts[i].buffer[..])
  {
    seq(|ts|, i reads set t | t in ts :: t.buffer => if 0 <= i < |ts| then Some(ts[i].buffer[..]) else None)
  }

  /** n copies of the letter c. */
  function Repeat(c: char, n: nat): (s: string)
    ensures |s| == n && forall i :: 0 <= i < n ==> s[i] == c
  {
    if n == 0 then [] else Repeat(c, n - 1) + [c]
  }

  /** `addUint` (unsigned) or `addInt` on element k, stated through its code. */
  method PutCode(b: DataBuffer, xs: seq<Number>, k: nat, ghost cs: seq<Code>, unsigned: bool) returns (r: Status)
    requires b.Valid() && k < |xs| && cs == if unsigned then UintCodes(xs) else IntCodes(xs)
    modifies b, b.buffer
    ensures b.Valid() && (fresh(b.buffer) || b.buffer == old(b.buffer))
    ensures r.Ok? <==> cs[k].Some?
    ensures r.Err? ==> b.Bytes() == old(b.Bytes())
    ensures r.Ok? ==> b.Bytes() == old(b.Bytes()) + cs[k].value
  {
    if unsigned {
      UintCodesAt(xs, k);
      r := Emit.AddUint(b, xs[k]);
    } else {
      IntCodesAt(xs, k);
      r := Emit.AddInt(b, xs[k]);
    }
  }

  /** `addString` on element k, stated through its code. */
  method PutStringAt(b: DataBuffer, xs: seq<seq<CodeUnit>>, k: nat, ghost cs: seq<Code>) returns (r: Status)
    requires b.Valid() && k < |xs| && cs == StringCodes(xs)
    modifies b, b.buffer
    ensures b.Valid() && (fresh(b.buffer) || b.buffer == old(b.buffer))
    ensures r.Ok? <==> cs[k].Some?
    ensures r.Err? ==> b.Bytes() == old(b.Bytes())
    ensures r.Ok? ==> b.Bytes() == old(b.Bytes()) + cs[k].value
  {
    StringCodesAt(xs, k);
    r := PutString(b, xs[k]);
  }

  /** The element loop of `addUintArray` on its store: `addUint` on each element until one
      throws; k is the number written. The letters those calls add to the format are set by
      the caller. */
  method PutUints(b: DataBuffer, xs: seq<Number>, ghost cs: seq<Code>) returns (k: nat)
    requires b.Valid() && cs == UintCodes(xs)
    modifies b, b.buffer
    ensures b.Valid() && (fresh(b.buffer) || b.buffer == old(b.buffer))
    ensures k == Written(cs)
    ensures b.Bytes() == old(b.Bytes()) + Concat(cs[..k])
  {
    k := 0;
    while k < |xs|
      invariant 0 <= k <= Written(cs)
      invariant b.Valid() && (fresh(b.buffer) || b.buffer == old(b.buffer))
      invariant b.Bytes() == old(b.Bytes()) + Concat(cs[..k])
    {
      ghost var before := b.Bytes();
      var r := PutCode(b, xs, k, cs, true);
      if r.Err? {
        WrittenStop(cs, k);
        return;
      }
      ConcatStep(cs, k, old(b.Bytes()), before, b.Bytes());
      k := k + 1;
    }
  }

  /** The element loop of `addIntArray`. */
  method PutInts(b: DataBuffer, xs: seq<Number>, ghost cs: seq<Code>) returns (k: nat)
    requires b.Valid() && cs == IntCodes(xs)
    modifies b, b.buffer
    ensures b.Valid() && (fresh(b.buffer) || b.buffer == old(b.buffer))
    ensures k == Written(cs)
    ensures b.Bytes() == old(b.Bytes()) + Concat(cs[..k])
  {
    k := 0;
    while k < |xs|
      invariant 0 <= k <= Written(cs)
      invariant b.Valid() && (fresh(b.buffer) || b.buffer == old(b.buffer))
      invariant b.Bytes() == old(b.Bytes()) + Concat(cs[..k])
    {
      ghost var before := b.Bytes();
      var r := PutCode(b, xs, k, cs, false);
      if r.Err? {
        WrittenStop(cs, k);
        return;
      }
      ConcatStep(cs, k, old(b.Bytes()), before, b.Bytes());
      k := k + 1;
    }
  }

  /** The element loop of `addStringArray`: stops at the first string that throws, with its
      error. */
  method PutStrings(b: DataBuffer, xs: seq<seq<CodeUnit>>, ghost cs: seq<Code>) returns (r: Status)
    requires b.Valid() && cs == StringCodes(xs)
    modifies b, b.buffer
    ensures b.Valid() && (fresh(b.buffer) || b.buffer == old(b.buffer))
    ensures r.Ok? <==> Written(cs) == |xs|
    ensures b.Bytes() == old(b.Bytes()) + Concat(cs[..Written(cs)])
  {
    var k := 0;
    while k < |xs|
      invariant 0 <= k <= Written(cs)
      invariant b.Valid() && (fresh(b.buffer) || b.buffer == old(b.buffer))
      invariant b.Bytes() == old(b.Bytes()) + Concat(cs[..k])
    {
      ghost var before := b.Bytes();
      r := PutStringAt(b, xs, k, cs);
      if r.Err? {
        WrittenStop(cs, k);
        return;
      }
      ConcatStep(cs, k, old(b.Bytes()), before, b.Bytes());
      k := k + 1;
    }
    r := Ok(());
  }

  /** The element loop of `addFloatArray`: four bytes per element. */
  method PutFloats(b: DataBuffer, xs: seq<Float32>, ghost cs: seq<Code>)
    requires b.Valid() && cs == FloatCodes(xs)
    modifies b, b.buffer
    ensures b.Valid() && (fresh(b.buffer) || b.buffer == old(b.buffer))
    ensures b.Bytes() == old(b.Bytes()) + Concat(cs)
  {
    var k := 0;
    while k < |xs|
      invariant 0 <= k <= |xs| == Written(cs)
      invariant b.Valid() && (fresh(b.buffer) || b.buffer == old(b.buffer))
      invariant b.Bytes() == old(b.Bytes()) + Concat(cs[..k])
    {
      ghost var before := b.Bytes();
      b.AppendBytes(xs[k]);
      ConcatStep(cs, k, old(b.Bytes()), before, b.Bytes());
      k := k + 1;
    }
    assert cs[..k] == cs;
  }

  /** The element loop of `addTokenArray`: sixteen bytes per token. */
  method PutTokens(b: DataBuffer, ts: seq<Token>, ghost cs: seq<Code>)
    requires b.Valid() && cs == TokenCodes(ts)
    requires forall i :: 0 <= i < |ts| ==> ts[i].Valid() && ts[i].buffer != b.buffer
    modifies b, b.buffer
    ensures b.Valid() && (fresh(b.buffer) || b.buffer == old(b.buffer))
    ensures b.Bytes() == old(b.Bytes()) + Concat(cs)
  {
    var k := 0;
    while k < |ts|
      invariant 0 <= k <= |ts| == Written(cs)
      invariant b.Valid() && (fresh(b.buffer) || b.buffer == old(b.buffer))
      invariant forall j :: 0 <= j < |ts| ==> cs[j] == Some(ts[j].buffer[..])
      invariant b.Bytes() == old(b.Bytes()) + Concat(cs[..k])
    {
      var bytes := ts[k].buffer[..];
      ghost var before := b.Bytes();
      b.AppendBytes(bytes);
      ConcatStep(cs, k, old(b.Bytes()), before, b.Bytes());
      k := k + 1;
    }
    assert cs[..k] == cs;
  }

  /** The argument of `Data.toData`: a Data, a DataArray, a string, null or undefined, or
      anything else. */
  datatype Convertible = FromData(data: Data) | FromArray(elements: DataArray) | FromString(chars: seq<CodeUnit>)
                       | Missing | Unconvertible

  class Data {
    const store: DataBuffer
    var format: string

    ghost predicate Valid()
      reads store
    {
      store.Valid()
    }

    /** The bytes written so far. */
    ghost function Bytes(): seq<Byte>
      reads store, store.buffer
      requires Valid()
    {
      store.Bytes()
    }

    /** Another Data can be appended to this one when it is this one or its array is another. */
    ghost predicate Separate(d: Data)
      reads this, store, d, d.store
    {
      d == this || (d.store != store && d.store.buffer != store.buffer)
    }

    /** `new Data`: no bytes, and the empty format. The browser `DataBuffer` the source builds
        is not part of this model; its initial size of 256 is assumed from the Node.js
        `DataBuffer`, which the model uses in its place. */
    constructor ()
      ensures Valid() && fresh(store) && fresh(store.buffer)
      ensures Bytes() == [] && format == "" && store.buffer.Length == 256
    {
      store := new DataBuffer(0);
      format := "";
    }

    /** `addUint(u)`: the code of u and the letter "u", or TypeError with nothing changed. */
    method AddUint(u: Number) returns (r: Status)
      requires Valid()
      modifies this, store, store.buffer
      ensures Valid() && (fresh(store.buffer) || store.buffer == old(store.buffer))
      ensures r.Ok? <==> UintCode(u).Some?
      ensures r.Err? ==> r.error == TypeError && Bytes() == old(Bytes()) && format == old(format)
      ensures r.Ok? ==> Bytes() == old(Bytes()) + UintCode(u).value && format == old(format) + "u"
    {
      r := Emit.AddUint(store, u);
      if r.Ok? {
        format := format + "u";
      }
    }

    /** `addInt(i)`: the code of i and the letter "i", or TypeError with nothing changed. */
    method AddInt(i: Number) returns (r: Status)
      requires Valid()
      modifies this, store, store.buffer
      ensures Valid() && (fresh(store.buffer) || store.buffer == old(store.buffer))
      ensures r.Ok? <==> IntCode(i).Some?
      ensures r.Err? ==> r.error == TypeError && Bytes() == old(Bytes()) && format == old(format)
      ensures r.Ok? ==> Bytes() == old(Bytes()) + IntCode(i).value && format == old(format) + "i"
    {
      r := Emit.AddInt(store, i);
      if r.Ok? {
        format := format + "i";
      }
    }

    /** `addFloat(f)`: four bytes and the letter "f". */
    method AddFloat(f: Float32)
      requires Valid()
      modifies this, store, store.buffer
      ensures Valid() && (fresh(store.buffer) || store.buffer == old(store.buffer))
      ensures Bytes() == old(Bytes()) + f && format == old(format) + "f"
    {
      store.AppendBytes(f);
      format := format + "f";
    }

    /** `addToken(t)`: sixteen bytes and the letter "t". */
    method AddToken(t: Token)
      requires Valid() && t.Valid()
      modifies this, store, store.buffer
      ensures Valid() && (fresh(store.buffer) || store.buffer == old(store.buffer))
      ensures Bytes() == old(Bytes()) + old(t.buffer[..]) && format == old(format) + "t"
    {
      var bytes := t.buffer[..];
      store.AppendBytes(bytes);
      format := format + "t";
    }

    /** `addString(s)`: the UTF-8 bytes are built in a scratch DataBuffer (URIError at a
        surrogate, nothing changed); the byte count goes through `addUint`, whose "u" is then
        replaced by the saved format: the format gains "s" only. */
    method AddString(s: seq<CodeUnit>) returns (r: Status)
      requires Valid()
      modifies this, store, store.buffer
      ensures Valid() && (fresh(store.buffer) || store.buffer == old(store.buffer))
      ensures r.Ok? <==> StringCode(s).Some?
      ensures r.Err? ==> Bytes() == old(Bytes()) && format == old(format)
      ensures Encode(s).Err? ==> r == Err(URIError)
      ensures r.Ok? ==> Bytes() == old(Bytes()) + StringCode(s).value && format == old(format) + "s"
    {
      r := PutString(store, s);
      if r.Ok? {
        format := format + "s";
      }
    }

    /** `addDataArray(a)`: the element count as a uint, the elements' bytes, and "(" + a's
        format + ")". */
    method AddDataArray(a: DataArray) returns (r: Status)
      requires Valid() && a.Valid() && a.store != store && a.store.buffer != store.buffer
      modifies this, store, store.buffer
      ensures Valid() && (fresh(store.buffer) || store.buffer == old(store.buffer))
      ensures r.Ok? <==> ValidUint(a.length)
      ensures r.Err? ==> r.error == TypeError && Bytes() == old(Bytes()) && format == old(format)
      ensures r.Ok? ==> Bytes() == old(Bytes()) + UintBytes(a.length) + a.Bytes()
      ensures r.Ok? ==> format == old(format) + "(" + a.format + ")"
    {
      var saved := format;
      r := AddUint(Integral(a.length));
      if r.Ok? {
        store.AppendBuffer(a.store);
        format := saved + "(" + a.format + ")";
      }
    }

    /** `addData(d)`: both the bytes and the formats are concatenated. */
    method AddData(d: Data)
      requires Valid() && d.Valid() && Separate(d)
      modifies this, store, store.buffer
      ensures Valid() && (fresh(store.buffer) || store.buffer == old(store.buffer))
      ensures Bytes() == old(Bytes()) + old(d.Bytes())
      ensures format == old(format) + old(d.format)
    {
      store.AppendBuffer(d.store);
      format := format + d.format;
    }

    /** `addUintArray(xs)`: the count, then each element through `addUint`, then the format
        gains "(u)" in place of the letters those calls added. An element that throws stops the
        loop, leaving the bytes and the letters ("u" for the count, one "u" per element)
        written so far in place. */
    method AddUintArray(xs: seq<Number>) returns (r: Status)
      requires Valid()
      modifies this, store, store.buffer
      ensures Valid() && (fresh(store.buffer) || store.buffer == old(store.buffer))
      ensures r.Ok? <==> ValidUint(|xs|) && Written(UintCodes(xs)) == |xs|
      ensures r.Err? ==> r.error == TypeError
      ensures !ValidUint(|xs|) ==> Bytes() == old(Bytes()) && format == old(format)
      ensures ValidUint(|xs|) ==>
        Bytes() == old(Bytes()) + UintBytes(|xs|) + Concat(UintCodes(xs)[..Written(UintCodes(xs))])
      ensures r.Ok? ==> format == old(format) + "(u)"
      ensures r.Err? && ValidUint(|xs|) ==> format == old(format) + "u" + Repeat('u', Written(UintCodes(xs)))
    {
      var saved := format;
      r := AddUint(Integral(|xs|));
      if r.Err? {
        return;
      }
      var k := PutUints(store, xs, UintCodes(xs));
      if k < |xs| {
        format := saved + "u" + Repeat('u', k);
        return Err(TypeError);
      }
      format := saved + "(u)";
    }

    /** `addIntArray(xs)`: as `addUintArray`, with `addInt` on each element and "(i)". */
    method AddIntArray(xs: seq<Number>) returns (r: Status)
      requires Valid()
      modifies this, store, store.buffer
      ensures Valid() && (fresh(store.buffer) || store.buffer == old(store.buffer))
      ensures r.Ok? <==> ValidUint(|xs|) && Written(IntCodes(xs)) == |xs|
      ensures r.Err? ==> r.error == TypeError
      ensures !ValidUint(|xs|) ==> Bytes() == old(Bytes()) && format == old(format)
      ensures ValidUint(|xs|) ==>
        Bytes() == old(Bytes()) + UintBytes(|xs|) + Concat(IntCodes(xs)[..Written(IntCodes(xs))])
      ensures r.Ok? ==> format == old(format) + "(i)"
      ensures r.Err? && ValidUint(|xs|) ==> format == old(format) + "u" + Repeat('i', Written(IntCodes(xs)))
    {
      var saved := format;
      r := AddUint(Integral(|xs|));
      if r.Err? {
        return;
      }
      var k := PutInts(store, xs, IntCodes(xs));
      if k < |xs| {
        format := saved + "u" + Repeat('i', k);
        return Err(TypeError);
      }
      format := saved + "(i)";
    }

    /** `addFloatArray(xs)`: the count, four bytes per element, and "(f)"; no element throws. */
    method AddFloatArray(xs: seq<Float32>) returns (r: Status)
      requires Valid()
      modifies this, store, store.buffer
      ensures Valid() && (fresh(store.buffer) || store.buffer == old(store.buffer))
      ensures r.Ok? <==> ValidUint(|xs|)
      ensures r.Err? ==> r.error == TypeError && Bytes() == old(Bytes()) && format == old(format)
      ensures r.Ok? ==> Bytes() == old(Bytes()) + UintBytes(|xs|) + Concat(FloatCodes(xs))
      ensures r.Ok? ==> format == old(format) + "(f)"
    {
      var saved := format;
      r := AddUint(Integral(|xs|));
      if r.Err? {
        return;
      }
      PutFloats(store, xs, FloatCodes(xs));
      format := saved + "(f)";
    }

    /** `addTokenArray(ts)`: the count, sixteen bytes per token, and "(t)"; no element throws. */
    method AddTokenArray(ts: seq<Token>) returns (r: Status)
      requires Valid()
      requires forall i :: 0 <= i < |ts| ==> ts[i].Valid() && ts[i].buffer != store.buffer
      modifies this, store, store.buffer
      ensures Valid() && (fresh(store.buffer) || store.buffer == old(store.buffer))
      ensures r.Ok? <==> ValidUint(|ts|)
      ensures r.Err? ==> r.error == TypeError && Bytes() == old(Bytes()) && format == old(format)
      ensures r.Ok? ==> Bytes() == old(Bytes()) + UintBytes(|ts|) + Concat(old(TokenCodes(ts)))
      ensures r.Ok? ==> format == old(format) + "(t)"
    {
      var saved := format;
      r := AddUint(Integral(|ts|));
      if r.Err? {
        return;
      }
      PutTokens(store, ts, TokenCodes(ts));
      format := saved + "(t)";
    }

    /** `addStringArray(xs)`: as `addUintArray`, with `addString` on each element and "(s)";
        an element with a surrogate stops the loop with URIError. */
    method AddStringArray(xs: seq<seq<CodeUnit>>) returns (r: Status)
      requires Valid()
      modifies this, store, store.buffer
      ensures Valid() && (fresh(store.buffer) || store.buffer == old(store.buffer))
      ensures r.Ok? <==> ValidUint(|xs|) && Written(StringCodes(xs)) == |xs|
      ensures !ValidUint(|xs|) ==> r == Err(TypeError) && Bytes() == old(Bytes()) && format == old(format)
      ensures ValidUint(|xs|) ==>
        Bytes() == old(Bytes()) + UintBytes(|xs|) + Concat(StringCodes(xs)[..Written(StringCodes(xs))])
      ensures r.Ok? ==> format == old(format) + "(s)"
      ensures r.Err? && ValidUint(|xs|) ==> format == old(format) + "u" + Repeat('s', Written(StringCodes(xs)))
    {
      var saved := format;
      r := AddUint(Integral(|xs|));
      if r.Err? {
        return;
      }
      var e;
      e := PutStrings(store, xs, StringCodes(xs));
      if e.Err? {
        format := saved + "u" + Repeat('s', Written(StringCodes(xs)));
        return e;
      }
      format := saved + "(s)";
    }

    /** `toBuffer()`: exactly the bytes written. */
    method ToBuffer() returns (r: seq<Byte>)
      requires Valid()
      ensures r == Bytes()
    {
      r := store.buffer[..store.length];
    }
  }

  /** A DataArray: the encodings of `length` elements, all of the one format fixed at
      construction. */
  class DataArray {
    const store: DataBuffer
    const format: string
    var length: nat

    ghost predicate Valid()
      reads store
    {
      store.Valid()
    }

    ghost function Bytes(): seq<Byte>
      reads store, store.buffer
      requires Valid()
    {
      store.Bytes()
    }

    /** `new DataArray(format)`: no elements. */
    constructor (format: string)
      ensures Valid() && fresh(store) && fresh(store.buffer)
      ensures Bytes() == [] && length == 0 && this.format == format
    {
      store := new DataBuffer(0);
      this.format := format;
      length := 0;
    }

    /** `addData(d)`: TypeError, with nothing changed, unless d's format is the array's; then
        d's bytes are appended and the count grows by one. */
    method AddData(d: Data) returns (r: Status)
      requires Valid() && d.Valid() && d.store != store && d.store.buffer != store.buffer
      modifies this, store, store.buffer
      ensures Valid() && (fresh(store.buffer) || store.buffer == old(store.buffer))
      ensures r.Ok? <==> d.format == format
      ensures r.Err? ==> r.error == TypeError && Bytes() == old(Bytes()) && length == old(length)
      ensures r.Ok? ==> Bytes() == old(Bytes()) + d.Bytes() && length == old(length) + 1
    {
      if d.format != format {
        return Err(TypeError);
      }
      store.AppendBuffer(d.store);
      length := length + 1;
      r := Ok(());
    }
  }

  /** The format of the Data that `toData(x)` gives when it succeeds. */
  ghost function ConvertedFormat(x: Convertible): string
    reads if x.FromData? then {x.data} else if x.FromArray? then {x.elements} else {}
  {
    match x
    case FromData(d) => d.format
    case FromArray(a) => "(" + a.format + ")"
    case FromString(_) => "s"
    case _ => ""
  }

  /** `Data.toData(x)`: a Data is returned itself; a DataArray or a string is written into a
      new Data; null or undefined gives a new empty Data; anything else throws TypeError. */
  method ToData(x: Convertible) returns (r: Result<Data, JsError>)
    requires x.FromData? ==> x.data.Valid()
    requires x.FromArray? ==> x.elements.Valid()
    ensures x.FromData? ==> r == Ok(x.data)
    ensures x.Unconvertible? ==> r == Err(TypeError)
    ensures x.FromArray? ==> (r.Ok? <==> ValidUint(x.elements.length))
    ensures x.FromString? ==> (r.Ok? <==> StringCode(x.chars).Some?)
    ensures x.Missing? ==> r.Ok?
    ensures r.Ok? ==> r.value.Valid() && r.value.format == ConvertedFormat(x)
    ensures r.Ok? && !x.FromData? ==> fresh(r.value) && fresh(r.value.store) && fresh(r.value.store.buffer)
    ensures r.Ok? && x.FromArray? ==> r.value.Bytes() == UintBytes(x.elements.length) + x.elements.Bytes()
    ensures r.Ok? && x.FromString? ==> r.value.Bytes() == StringCode(x.chars).value
    ensures r.Ok? && x.Missing? ==> r.value.Bytes() == []
  {
    if x.FromData? {
      return Ok(x.data);
    } else if x.Unconvertible? {
      return Err(TypeError);
    }
    var data := new Data();
    if x.FromArray? {
      var s := data.AddDataArray(x.elements);
      if s.Err? {
        return Err(s.error);
      }
    } else if x.FromString? {
      var s := data.AddString(x.chars);
      if s.Err? {
        return Err(s.error);
      }
    }
    return Ok(data);
  }

  /** A protocol exception of js/Exception.js: its type and its (normalised) data. */
  datatype Exception = Exception(kind: int, data: Data)

  /** `new Exception(type, data)`: the data goes through `Data.toData`; then the type must be
      registered, with the format its data has. `registered` maps each registered exception
      type to its format string. */
  method NewException(registered: map<int, string>, kind: int, x: Convertible) returns (r: Result<Exception, JsError>)
    requires x.FromData? ==> x.data.Valid()
    requires x.FromArray? ==> x.elements.Valid()
    ensures r.Ok? ==> r.value.kind == kind && r.value.data.Valid() && r.value.data.format == ConvertedFormat(x)
    ensures r.Ok? ==> kind in registered && registered[kind] == ConvertedFormat(x)
    ensures x.FromData? ==> (r.Ok? <==> kind in registered && registered[kind] == x.data.format)
    ensures x.FromData? && r.Ok? ==> r.value.data == x.data
    ensures x.Missing? ==> (r.Ok? <==> kind in registered && registered[kind] == "")
    ensures x.Unconvertible? ==> r == Err(TypeError)
  {
    var data := ToData(x);
    if data.Err? {
      return Err(data.error);
    }
    if kind !in registered {
      return Err(PlainError("Invalid exception type"));
    }
    if data.value.format != registered[kind] {
      return Err(PlainError("Invalid data type"));
    }
    return Ok(Exception(kind, data.value));
  }
}
