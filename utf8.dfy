/**
 * The UTF-16 to UTF-8 step of `addString` in web/Data.js and js/Data.js: a code unit below 128 is
 * one byte; any other code unit is the UTF-8 of that single character, read back from
 * `encodeURIComponent`, which throws URIError for a lone surrogate half. Because the loop
 * takes one code unit at a time, every surrogate (paired or not) throws. Also the UTF-8 to
 * UTF-16 step of Node's `toString("utf8")`, which gives a received string its code units.
 */
module Utf8 {
  import opened Basics
  import opened Wire
  import opened Buffers

  type CodeUnit = c: int | 0 <= c < 0x1_0000

  predicate IsSurrogate(c: CodeUnit)
  {
    0xD800 <= c < 0xE000
  }

  /** The bytes appended for one code unit, or None where encodeURIComponent throws. */
  function UnitBytes(c: CodeUnit): Option<seq<Byte>>
  {
    if c < 0x80 then Some([c])
    else if IsSurrogate(c) then None
    else if c < 0x800 then Some([0xC0 + c / 64, 0x80 + c % 64])
    else Some([0xE0 + c / 4096, 0x80 + (c / 64) % 64, 0x80 + c % 64])
  }

  /** The payload `addString` writes for a string, or URIError. */
  function Encode(s: seq<CodeUnit>): Result<seq<Byte>, JsError>
  {
    if s == [] then Ok([])
    else match UnitBytes(s[0])
      case None => Err(URIError)
      case Some(b) =>
        match Encode(s[1..])
        case Err(e) => Err(e)
        case Ok(rest) => Ok(b + rest)
  }

  /** Reading UTF-8 back into code units, for the bytes one to three-byte sequences give. */
  function Decode(b: seq<Byte>): Option<seq<CodeUnit>>
    decreases |b|
  {
    if b == [] then Some([])
    else if b[0] < 0x80 then Prepend(b[0], Decode(b[1..]))
    else if 0xC0 <= b[0] < 0xE0 && |b| >= 2 && 0x80 <= b[1] < 0xC0 then
      Prepend((b[0] as int - 0xC0) * 64 + (b[1] as int - 0x80), Decode(b[2..]))
    else if 0xE0 <= b[0] < 0xF0 && |b| >= 3 && 0x80 <= b[1] < 0xC0 && 0x80 <= b[2] < 0xC0 then
      Prepend((b[0] as int - 0xE0) * 4096 + (b[1] as int - 0x80) * 64 + (b[2] as int - 0x80), Decode(b[3..]))
    else None
  }

  function Prepend(c: CodeUnit, rest: Option<seq<CodeUnit>>): Option<seq<CodeUnit>>
  {
    if rest.Some? then Some([c] + rest.value) else None
  }

  /** A string encodes exactly when it has no surrogate code unit. */
  lemma {:induction false} EncodeFails(s: seq<CodeUnit>)
    ensures Encode(s).Err? <==> exists i :: 0 <= i < |s| && IsSurrogate(s[i])
    ensures Encode(s).Err? ==> Encode(s).error == URIError
  {
    if s != [] {
      EncodeFails(s[1..]);
      if IsSurrogate(s[0]) {
        assert IsSurrogate(s[0]);
      } else if exists i :: 0 <= i < |s| && IsSurrogate(s[i]) {
        var i :| 0 <= i < |s| && IsSurrogate(s[i]);
        assert IsSurrogate(s[1..][i - 1]);
      } else {
        forall i | 0 <= i < |s[1..]|
          ensures !IsSurrogate(s[1..][i])
        {
          assert s[1..][i] == s[i + 1];
        }
      }
    }
  }

  /** A string of code units below 128 is written as those units, one byte each. */
  lemma {:induction false} EncodeAscii(s: seq<CodeUnit>)
    requires forall i :: 0 <= i < |s| ==> s[i] < 0x80
    ensures Encode(s) == Ok(s)
  {
    if s != [] {
      EncodeAscii(s[1..]);
      assert [s[0]] + s[1..] == s;
    }
  }

  /** Encoding one more code unit appends its bytes. */
  lemma {:induction false} EncodeSnoc(s: seq<CodeUnit>, c: CodeUnit)
    requires Encode(s).Ok? && UnitBytes(c).Some?
    ensures Encode(s + [c]) == Ok(Encode(s).value + UnitBytes(c).value)
  {
    if s == [] {
      var u := UnitBytes(c).value;
      assert s + [c] == [c] && [c][1..] == [];
      assert Encode([c][1..]) == Ok([]);
      assert Encode([c]) == Ok(u + []);
      assert u + [] == u && Encode(s).value + u == u;
    } else {
      var b := UnitBytes(s[0]).value;
      var t := Encode(s[1..]).value;
      assert (s + [c])[0] == s[0];
      assert (s + [c])[1..] == s[1..] + [c];
      EncodeSnoc(s[1..], c);
      assert Encode(s + [c]) == Ok(b + (t + UnitBytes(c).value));
      assert b + (t + UnitBytes(c).value) == (b + t) + UnitBytes(c).value;
    }
  }

  lemma UnitRoundTrip(c: CodeUnit, rest: seq<Byte>)
    requires UnitBytes(c).Some?
    ensures Decode(UnitBytes(c).value + rest) == Prepend(c, Decode(rest))
  {
    var b := UnitBytes(c).value + rest;
    if c < 0x80 {
      assert b[1..] == rest;
    } else if c < 0x800 {
      assert b[2..] == rest;
      assert (b[0] as int - 0xC0) * 64 + (b[1] as int - 0x80) == c;
    } else {
      assert b[3..] == rest;
      assert (b[0] as int - 0xE0) * 4096 + (b[1] as int - 0x80) * 64 + (b[2] as int - 0x80) == c;
    }
  }

  /** Decoding what `addString` writes gives the string back. */
  lemma {:induction false} RoundTrip(s: seq<CodeUnit>)
    requires Encode(s).Ok?
    ensures Decode(Encode(s).value) == Some(s)
  {
    if s != [] {
      RoundTrip(s[1..]);
      UnitRoundTrip(s[0], Encode(s[1..]).value);
      assert [s[0]] + s[1..] == s;
    }
  }

  /** `buffer.toString("utf8")` of Node.js: the UTF-8 decoder of the WHATWG Encoding Standard
      (section 9.1.1), which turns each maximal ill-formed subsequence into U+FFFD and a
      character beyond U+FFFF into a surrogate pair. */
  function Decoded(b: seq<Byte>): seq<CodeUnit>
  {
    DecodeFrom(b, 0, 0, 0x80, 0xBF)
  }

  /** The decoder's loop on the bytes b, in the middle of a character when `needed` > 0: the
      bits read so far are `point`, and the next byte must lie in `lower..upper`. A byte out
      of range ends the character with U+FFFD and is read again as the start of the next. */
  function DecodeFrom(b: seq<Byte>, point: nat, needed: nat, lower: Byte, upper: Byte): seq<CodeUnit>
    decreases |b|, needed
  {
    if b == [] then (if needed > 0 then [0xFFFD] else [])
    else if needed == 0 then
      var x := b[0];
      if x < 0x80 then [x] + DecodeFrom(b[1..], 0, 0, 0x80, 0xBF)
      else if 0xC2 <= x <= 0xDF then DecodeFrom(b[1..], x % 0x20, 1, 0x80, 0xBF)
      else if 0xE0 <= x <= 0xEF then
        DecodeFrom(b[1..], x % 0x10, 2, if x == 0xE0 then 0xA0 else 0x80, if x == 0xED then 0x9F else 0xBF)
      else if 0xF0 <= x <= 0xF4 then
        DecodeFrom(b[1..], x % 0x08, 3, if x == 0xF0 then 0x90 else 0x80, if x == 0xF4 then 0x8F else 0xBF)
      else [0xFFFD] + DecodeFrom(b[1..], 0, 0, 0x80, 0xBF)
    else if !(lower <= b[0] <= upper) then [0xFFFD] + DecodeFrom(b, 0, 0, 0x80, 0xBF)
    else
      var p := point * 64 + b[0] % 64;
      if needed == 1 then Units(p) + DecodeFrom(b[1..], 0, 0, 0x80, 0xBF)
      else DecodeFrom(b[1..], p, needed - 1, 0x80, 0xBF)
  }

  /** A code point as JavaScript holds it: one code unit, or a surrogate pair above U+FFFF. */
  function Units(p: nat): seq<CodeUnit>
  {
    if p < 0x1_0000 then [p]
    else [0xD800 + ((p - 0x1_0000) / 0x400) % 0x400, 0xDC00 + (p - 0x1_0000) % 0x400]
  }

  /** One continuation byte inside its lead's range adds its six bits to the character. */
  lemma ContinueStep(b: seq<Byte>, point: nat, needed: nat, lower: Byte, upper: Byte, m: nat)
    requires b != [] && needed > 0 && lower <= b[0] <= upper && m < 64 && b[0] == 0x80 + m
    ensures needed == 1 ==> DecodeFrom(b, point, needed, lower, upper) == Units(point * 64 + m) + Decoded(b[1..])
    ensures needed > 1 ==> DecodeFrom(b, point, needed, lower, upper) == DecodeFrom(b[1..], point * 64 + m, needed - 1, 0x80, 0xBF)
  {
    assert b[0] % 64 == m;
  }

  /** A lead byte of a three- or four-byte character: its low bits start the character, and
      the range of the next byte is narrowed after E0, ED, F0 and F4. */
  lemma LeadStep(b: seq<Byte>, a: nat, needed: nat, lower: Byte, upper: Byte)
    requires b != [] && (needed == 2 || needed == 3)
    requires needed == 2 ==> a < 0x10 && b[0] == 0xE0 + a && lower == (if a == 0 then 0xA0 else 0x80) && upper == (if a == 0xD then 0x9F else 0xBF)
    requires needed == 3 ==> a < 5 && b[0] == 0xF0 + a && lower == (if a == 0 then 0x90 else 0x80) && upper == (if a == 4 then 0x8F else 0xBF)
    ensures Decoded(b) == DecodeFrom(b[1..], a, needed, lower, upper)
  {
  }

  /** Decoding the bytes of one encodable code unit gives that unit, whatever follows. */
  lemma UnitDecoded(c: CodeUnit, rest: seq<Byte>)
    requires UnitBytes(c).Some?
    ensures Decoded(UnitBytes(c).value + rest) == [c] + Decoded(rest)
  {
    if c < 0x80 {
      assert (UnitBytes(c).value + rest)[1..] == rest;
    } else if c < 0x800 {
      PairDecoded(c / 64, c % 64, rest);
    } else {
      TripleDecoded(c / 4096, (c / 64) % 64, c % 64, rest);
    }
  }

  /** A two-byte character: lead 0xC2..0xDF with the high five bits, then the low six. */
  lemma PairDecoded(hi: nat, lo: nat, rest: seq<Byte>)
    requires 2 <= hi < 0x20 && lo < 64
    ensures Decoded([0xC0 + hi, 0x80 + lo] + rest) == [hi * 64 + lo] + Decoded(rest)
  {
    var b := [0xC0 + hi, 0x80 + lo] + rest;
    assert b[1..][1..] == rest;
    assert Decoded(b) == DecodeFrom(b[1..], hi, 1, 0x80, 0xBF);
    ContinueStep(b[1..], hi, 1, 0x80, 0xBF, lo);
  }

  /** A three-byte character outside the surrogates: the bounds of E0 and ED let its second
      byte through. */
  lemma TripleDecoded(a: nat, m: nat, lo: nat, rest: seq<Byte>)
    requires a < 0x10 && m < 64 && lo < 64
    requires 0x800 <= a * 4096 + m * 64 + lo < 0x1_0000
    requires !(0xD800 <= a * 4096 + m * 64 + lo < 0xE000)
    ensures Decoded([0xE0 + a, 0x80 + m, 0x80 + lo] + rest) == [a * 4096 + m * 64 + lo] + Decoded(rest)
  {
    var b := [0xE0 + a, 0x80 + m, 0x80 + lo] + rest;
    assert b[1..][1..][1..] == rest;
    assert a == 0 ==> m >= 0x20;
    assert a == 0xD ==> m < 0x20;
    var lower: Byte := if a == 0 then 0xA0 else 0x80;
    var upper: Byte := if a == 0xD then 0x9F else 0xBF;
    LeadStep(b, a, 2, lower, upper);
    ContinueStep(b[1..], a, 2, lower, upper, m);
    ContinueStep(b[1..][1..], a * 64 + m, 1, 0x80, 0xBF, lo);
    assert (a * 64 + m) * 64 + lo == a * 4096 + m * 64 + lo;
  }

  /** Node's decoder reads the bytes `addString` writes back as the string. */
  lemma {:induction false} DecodedRoundTrip(s: seq<CodeUnit>)
    requires Encode(s).Ok?
    ensures Decoded(Encode(s).value) == s
  {
    if s != [] {
      DecodedRoundTrip(s[1..]);
      UnitDecoded(s[0], Encode(s[1..]).value);
      assert [s[0]] + s[1..] == s;
    }
  }

  /** A four-byte character, U+10000 to U+10FFFF: the bounds of F0 and F4 let its second byte
      through, and it decodes to its surrogate pair. */
  lemma QuadDecoded(a: nat, m: nat, n: nat, lo: nat, rest: seq<Byte>)
    requires a < 8 && m < 64 && n < 64 && lo < 64
    requires 0x1_0000 <= a * 0x4_0000 + m * 4096 + n * 64 + lo <= 0x10_FFFF
    ensures Decoded([0xF0 + a, 0x80 + m, 0x80 + n, 0x80 + lo] + rest) == Units(a * 0x4_0000 + m * 4096 + n * 64 + lo) + Decoded(rest)
  {
    var b := [0xF0 + a, 0x80 + m, 0x80 + n, 0x80 + lo] + rest;
    var b1, b2, b3 := b[1..], b[2..], b[3..];
    assert b1[1..] == b2 && b2[1..] == b3 && b3[1..] == rest;
    assert a == 0 ==> m >= 0x10;
    assert a == 4 ==> m < 0x10;
    var lower: Byte := if a == 0 then 0x90 else 0x80;
    var upper: Byte := if a == 4 then 0x8F else 0xBF;
    var p1, p2 := a * 64 + m, (a * 64 + m) * 64 + n;
    LeadStep(b, a, 3, lower, upper);
    ContinueStep(b1, a, 3, lower, upper, m);
    ContinueStep(b2, p1, 2, 0x80, 0xBF, n);
    ContinueStep(b3, p2, 1, 0x80, 0xBF, lo);
    assert p2 * 64 + lo == a * 0x4_0000 + m * 4096 + n * 64 + lo;
  }

  /** U+1F600, written F0 9F 98 80, decodes to the surrogate pair D83D DE00. */
  lemma DecodedPair()
    ensures Decoded([0xF0, 0x9F, 0x98, 0x80]) == [0xD83D, 0xDE00]
  {
    var b: seq<Byte> := [0xF0, 0x9F, 0x98, 0x80];
    QuadDecoded(0, 0x1F, 0x18, 0, []);
    assert [0xF0 + 0, 0x80 + 0x1F, 0x80 + 0x18, 0x80 + 0] + [] == b;
    assert Decoded(b) == Units(0x1F600) + Decoded([]);
    assert Units(0x1F600) == [0xD83D, 0xDE00];
  }

  /** A byte that cannot start a character, a second byte out of the lead's range and a
      character cut short each decode to U+FFFD. */
  lemma DecodedReplacement()
    ensures Decoded([0xFF]) == [0xFFFD]
    ensures Decoded([0xE0, 0x80, 0x41]) == [0xFFFD, 0xFFFD, 0x41]
    ensures Decoded([0xC3]) == [0xFFFD]
  {
    var b: seq<Byte> := [0xE0, 0x80, 0x41];
    assert DecodeFrom(b, 0, 0, 0x80, 0xBF) == DecodeFrom(b[1..], 0, 2, 0xA0, 0xBF);
    assert DecodeFrom(b[1..], 0, 2, 0xA0, 0xBF) == [0xFFFD] + DecodeFrom(b[1..], 0, 0, 0x80, 0xBF);
    assert DecodeFrom(b[1..], 0, 0, 0x80, 0xBF) == [0xFFFD] + DecodeFrom(b[2..], 0, 0, 0x80, 0xBF);
  }

  /** One step of the character loop that began on the bytes `start`: the bytes of unit i are
      appended to the encoding of the units before it. */
  lemma EncodeStep(s: seq<CodeUnit>, i: nat, start: seq<Byte>, before: seq<Byte>, after: seq<Byte>)
    requires i < |s| && Encode(s[..i]).Ok? && UnitBytes(s[i]).Some?
    requires before == start + Encode(s[..i]).value && after == before + UnitBytes(s[i]).value
    ensures Encode(s[..i + 1]).Ok? && after == start + Encode(s[..i + 1]).value
  {
    EncodeSnoc(s[..i], s[i]);
    assert s[..i + 1] == s[..i] + [s[i]];
    var done := Encode(s[..i]).value;
    var unit := UnitBytes(s[i]).value;
    assert start + (done + unit) == (start + done) + unit;
  }

  /** The byte loop for one code unit: appends its bytes one at a time. */
  method AppendEach(scratch: DataBuffer, bytes: seq<Byte>)
    requires scratch.Valid()
    modifies scratch, scratch.buffer
    ensures scratch.Valid() && (fresh(scratch.buffer) || scratch.buffer == old(scratch.buffer))
    ensures scratch.Bytes() == old(scratch.Bytes()) + bytes
  {
    var j := 0;
    while j < |bytes|
      invariant 0 <= j <= |bytes| && scratch.Valid()
      invariant fresh(scratch.buffer) || scratch.buffer == old(scratch.buffer)
      invariant scratch.Bytes() == old(scratch.Bytes()) + bytes[..j]
    {
      scratch.AppendByte(bytes[j]);
      assert bytes[..j + 1] == bytes[..j] + [bytes[j]];
      j := j + 1;
    }
    assert bytes[..j] == bytes;
  }

  /** The character loop of `addString`: appends each code unit's bytes to a scratch buffer,
      one byte at a time, and stops with URIError at the first surrogate. */
  method Transcode(s: seq<CodeUnit>, scratch: DataBuffer) returns (r: Status)
    requires scratch.Valid()
    modifies scratch, scratch.buffer
    ensures scratch.Valid() && (fresh(scratch.buffer) || scratch.buffer == old(scratch.buffer))
    ensures r.Ok? <==> Encode(s).Ok?
    ensures r.Ok? ==> scratch.Bytes() == old(scratch.Bytes()) + Encode(s).value
    ensures r.Err? ==> r.error == URIError
  {
    var i := 0;
    while i < |s|
      invariant 0 <= i <= |s| && scratch.Valid()
      invariant fresh(scratch.buffer) || scratch.buffer == old(scratch.buffer)
      invariant Encode(s[..i]).Ok?
      invariant scratch.Bytes() == old(scratch.Bytes()) + Encode(s[..i]).value
    {
      var bytes := UnitBytes(s[i]);
      if bytes.None? {
        EncodeFails(s);
        return Err(URIError);
      }
      ghost var before := scratch.Bytes();
      AppendEach(scratch, bytes.value);
      EncodeStep(s, i, old(scratch.Bytes()), before, scratch.Bytes());
      i := i + 1;
    }
    assert s[..i] == s;
    r := Ok(());
  }
}

/** The string encoder shared by web/Data.js and js/Data.js. */
module Strings {
  import opened Basics
  import opened Wire
  import opened Buffers
  import opened Emit
  import opened Utf8

  /** The bytes `addString(s)` writes: the UTF-8 byte count as a uint, then the bytes; None
      where it throws. */
  function StringCode(s: seq<CodeUnit>): Option<seq<Byte>>
  {
    if Encode(s).Ok? && ValidUint(|Encode(s).value|) then Some(UintBytes(|Encode(s).value|) + Encode(s).value)
    else None
  }

  /** `addString(s)` of web/Data.js and js/Data.js: the UTF-8 bytes are built in a scratch
      buffer, so a surrogate throws URIError with nothing written; then the byte count as a
      uint and the bytes. */
  method PutString(b: DataBuffer, s: seq<CodeUnit>) returns (r: Status)
    requires b.Valid()
    modifies b, b.buffer
    ensures b.Valid() && (fresh(b.buffer) || b.buffer == old(b.buffer))
    ensures r.Ok? <==> Encode(s).Ok? && ValidUint(|Encode(s).value|)
    ensures r.Err? ==> b.Bytes() == old(b.Bytes())
    ensures Encode(s).Err? ==> r == Err(URIError)
    ensures Encode(s).Ok? && r.Err? ==> r == Err(TypeError)
    ensures r.Ok? ==> b.Bytes() == old(b.Bytes()) + UintBytes(|Encode(s).value|) + Encode(s).value
  {
    var scratch := new DataBuffer(128);
    r := Transcode(s, scratch);
    if r.Err? {
      return;
    }
    ghost var e := Encode(s).value;
    assert scratch.Bytes() == e;
    r := AddUint(b, Integral(scratch.length));
    if r.Err? {
      return;
    }
    b.AppendBuffer(scratch);
  }
}
