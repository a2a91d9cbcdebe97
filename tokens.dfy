/**
 * Tokens: sixteen-byte values (nodejs/Token.js, js/Token.js, web/Token.js). A token is built
 * from a base (a sixteen-byte buffer, another token, or, on the web only, 32 hex digits) or,
 * without a base, from sixteen random bytes, which the model takes as a parameter.
 */
module Tokens {
  import opened Basics
  import opened Wire

  type TokenBytes = s: seq<Byte> | |s| == 16 witness seq(16, i => 0)

  /** The `base` argument of `new Token(base)` and of the web `isEqual`. `Falsy` is undefined,
      null, false, 0 or NaN; the empty string is `Text("")`, which is falsy as well. */
  datatype Base = Falsy | Bytes(bytes: seq<Byte>) | Copy(token: Token) | Text(chars: string) | Other

  predicate Truthy(base: Base)
  {
    !base.Falsy? && !(base.Text? && base.chars == "")
  }

  predicate IsHexDigit(c: char)
  {
    '0' <= c <= '9' || 'a' <= c <= 'f' || 'A' <= c <= 'F'
  }

  /** `parseInt(c, 16)` for one hex digit, in either case. */
  function DigitValue(c: char): (d: nat)
    requires IsHexDigit(c)
    ensures d < 16
  {
    if c <= '9' then c as int - '0' as int
    else if c >= 'a' then c as int - 'a' as int + 10
    else c as int - 'A' as int + 10
  }

  /** The lowercase digit `Number.prototype.toString(16)` gives for d. */
  function HexDigit(d: nat): (c: char)
    requires d < 16
    ensures ('0' <= c <= '9' || 'a' <= c <= 'f') && DigitValue(c) == d
  {
    if d < 10 then ('0' as int + d) as char else ('a' as int + d - 10) as char
  }

  /** The test `/^[0-9a-fA-F]{32}$/`. */
  predicate IsHex32(s: string)
  {
    |s| == 32 && forall i :: 0 <= i < |s| ==> IsHexDigit(s[i])
  }

  /** The byte that the digit pair at 2k, 2k+1 denotes. */
  function PairValue(s: string, k: nat): (b: Byte)
    requires 2 * k + 1 < |s| && IsHexDigit(s[2 * k]) && IsHexDigit(s[2 * k + 1])
  {
    DigitValue(s[2 * k]) * 16 + DigitValue(s[2 * k + 1])
  }

  /** Hex parsing of toTokenBuffer: byte k from characters 2k and 2k+1. */
  function ParseHex(s: string): (b: TokenBytes)
    requires IsHex32(s)
  {
    seq(16, k requires 0 <= k < 16 => PairValue(s, k))
  }

  /** `toString`: two lowercase digits per byte, high digit first, zero-padded. */
  function Hex(b: TokenBytes): (s: string)
  {
    seq(32, i requires 0 <= i < 32 => if i % 2 == 0 then HexDigit(b[i / 2] / 16) else HexDigit(b[i / 2] % 16))
  }

  /** `toString` gives 32 lowercase hex digits, which parse back to the token's bytes. */
  lemma HexRoundTrip(b: TokenBytes)
    ensures IsHex32(Hex(b))
    ensures forall i :: 0 <= i < 32 ==> '0' <= Hex(b)[i] <= '9' || 'a' <= Hex(b)[i] <= 'f'
    ensures ParseHex(Hex(b)) == b
  {
    var s := Hex(b);
    forall k | 0 <= k < 16
      ensures ParseHex(s)[k] == b[k]
    {
      assert s[2 * k] == HexDigit(b[k] / 16) && s[2 * k + 1] == HexDigit(b[k] % 16);
    }
  }

  /** What the token built from `base` holds, or the TypeError thrown. With `hex` (web/Token.js,
      toTokenBuffer) 32 hex digits are accepted too. A falsy base takes the random bytes. */
  ghost function NewBytes(base: Base, random: TokenBytes, hex: bool): Result<TokenBytes, JsError>
    requires base.Copy? ==> base.token.Valid()
    reads if base.Copy? then {base.token, base.token.buffer} else {}
  {
    if !Truthy(base) then Ok(random) else BaseBytes(base, hex)
  }

  /** The conversion of a truthy base; every falsy or other value is a TypeError. */
  ghost function BaseBytes(base: Base, hex: bool): Result<TokenBytes, JsError>
    requires base.Copy? ==> base.token.Valid()
    reads if base.Copy? then {base.token, base.token.buffer} else {}
  {
    match base
    case Bytes(b) => if |b| == 16 then Ok(b) else Err(TypeError)
    case Copy(t) => Ok(t.buffer[..])
    case Text(s) => if hex && IsHex32(s) then Ok(ParseHex(s)) else Err(TypeError)
    case _ => Err(TypeError)
  }

  /** Which bases a token can be built from: a falsy one, sixteen bytes, a token, or (web) hex. */
  lemma NewBytesAccepts(base: Base, random: TokenBytes, hex: bool)
    requires base.Copy? ==> base.token.Valid()
    ensures NewBytes(base, random, hex).Ok? <==>
      !Truthy(base) || (base.Bytes? && |base.bytes| == 16) || base.Copy? || (hex && base.Text? && IsHex32(base.chars))
    ensures NewBytes(base, random, hex).Err? ==> NewBytes(base, random, hex).error == TypeError
    ensures !Truthy(base) ==> NewBytes(base, random, hex) == Ok(random)
  {
  }

  class Token {
    const buffer: array<Byte>

    ghost predicate Valid()
      reads this
    {
      buffer.Length == 16
    }

    /** A token holding a fresh copy of the given bytes. */
    constructor Of(bytes: TokenBytes)
      ensures Valid() && fresh(buffer) && buffer[..] == bytes
    {
      buffer := new Byte[16](i requires 0 <= i < 16 => bytes[i]);
    }

    /** `isEqual(token)` of nodejs/Token.js and js/Token.js: compares the sixteen bytes. */
    method IsEqual(token: Token) returns (r: bool)
      requires Valid() && token.Valid()
      ensures r <==> buffer[..] == token.buffer[..]
    {
      var i := 0;
      while i < 16
        invariant 0 <= i <= 16
        invariant buffer[..i] == token.buffer[..i]
      {
        if buffer[i] != token.buffer[i] {
          assert buffer[..][i] != token.buffer[..][i];
          return false;
        }
        assert buffer[..i + 1] == buffer[..i] + [buffer[i]];
        assert token.buffer[..i + 1] == token.buffer[..i] + [token.buffer[i]];
        i := i + 1;
      }
      assert buffer[..] == buffer[..16] && token.buffer[..] == token.buffer[..16];
      return true;
    }

    /** `isEqual(obj)` of web/Token.js: converts obj with toTokenBuffer (which may throw), then
        compares the bytes. */
    method WebIsEqual(obj: Base) returns (r: Result<bool, JsError>)
      requires Valid() && (obj.Copy? ==> obj.token.Valid())
      ensures r.Ok? <==> BaseBytes(obj, true).Ok?
      ensures r.Err? ==> r.error == TypeError
      ensures r.Ok? ==> (r.value <==> buffer[..] == BaseBytes(obj, true).value)
    {
      var other := TokenBuffer(obj);
      if other.Err? {
        return Err(other.error);
      }
      var i := 0;
      while i < 16
        invariant 0 <= i <= 16
        invariant buffer[..i] == other.value[..i]
      {
        if buffer[i] != other.value[i] {
          assert buffer[..][i] != other.value[..][i];
          return Ok(false);
        }
        assert buffer[..i + 1] == buffer[..i] + [buffer[i]];
        assert other.value[..i + 1] == other.value[..i] + [other.value[i]];
        i := i + 1;
      }
      assert buffer[..] == buffer[..16] && other.value[..] == other.value[..16];
      return Ok(true);
    }

    /** `toString` of web/Token.js. */
    function ToString(): (s: string)
      requires Valid()
      reads this, buffer
      ensures IsHex32(s) && ParseHex(s) == buffer[..]
    {
      HexRoundTrip(buffer[..]);
      Hex(buffer[..])
    }
  }

  /** toTokenBuffer of web/Token.js: a fresh sixteen-byte array filled from the base. */
  method TokenBuffer(obj: Base) returns (r: Result<array<Byte>, JsError>)
    requires obj.Copy? ==> obj.token.Valid()
    ensures r.Ok? <==> BaseBytes(obj, true).Ok?
    ensures r.Err? ==> r.error == TypeError
    ensures r.Ok? ==> fresh(r.value) && r.value[..] == BaseBytes(obj, true).value
  {
    var buffer := new Byte[16];
    match obj {
      case Bytes(b) =>
        if |b| != 16 {
          return Err(TypeError);
        }
        forall i | 0 <= i < 16 {
          buffer[i] := b[i];
        }
      case Copy(t) =>
        forall i | 0 <= i < 16 {
          buffer[i] := t.buffer[i];
        }
      case Text(s) =>
        if !IsHex32(s) {
          return Err(TypeError);
        }
        var i := 0;
        while i < 32
          invariant 0 <= i <= 32 && i % 2 == 0
          invariant forall k :: 0 <= k < i / 2 ==> buffer[k] == PairValue(s, k)
        {
          buffer[i / 2] := DigitValue(s[i]) * 16 + DigitValue(s[i + 1]);
          i := i + 2;
        }
      case _ =>
        return Err(TypeError);
    }
    return Ok(buffer);
  }

  /** `new Token(base)` of web/Token.js. */
  method NewWebToken(base: Base, random: TokenBytes) returns (r: Result<Token, JsError>)
    requires base.Copy? ==> base.token.Valid()
    ensures r.Ok? <==> NewBytes(base, random, true).Ok?
    ensures r.Err? ==> r.error == TypeError
    ensures r.Ok? ==> fresh(r.value) && fresh(r.value.buffer) && r.value.Valid()
    ensures r.Ok? ==> r.value.buffer[..] == NewBytes(base, random, true).value
  {
    if Truthy(base) {
      var b := TokenBuffer(base);
      if b.Err? {
        return Err(b.error);
      }
      var t := new Token.Of(b.value[..]);
      return Ok(t);
    }
    var t := new Token.Of(random);
    return Ok(t);
  }

  /** `new Token(base)` of nodejs/Token.js and js/Token.js: no hex strings. */
  method NewToken(base: Base, random: TokenBytes) returns (r: Result<Token, JsError>)
    requires base.Copy? ==> base.token.Valid()
    ensures r.Ok? <==> NewBytes(base, random, false).Ok?
    ensures r.Err? ==> r.error == TypeError
    ensures r.Ok? ==> fresh(r.value) && fresh(r.value.buffer) && r.value.Valid()
    ensures r.Ok? ==> r.value.buffer[..] == NewBytes(base, random, false).value
  {
    if !Truthy(base) {
      var t := new Token.Of(random);
      return Ok(t);
    }
    if base.Bytes? && |base.bytes| == 16 {
      var t := new Token.Of(base.bytes);
      return Ok(t);
    } else if base.Copy? {
      var t := new Token.Of(base.token.buffer[..]);
      return Ok(t);
    }
    return Err(TypeError);
  }
}
