/** The length-prefixed framing of a byte stream (nodejs/NetWrapper.js): each message travels as
    uint(length) followed by that many body bytes; the receiver caches what it has been given
    and slices complete messages off the head of the cache. */
module Framer {
  import opened Basics
  import opened Wire
  import Emit

  /** What the framing loop makes of a cache: the complete messages at its head in stream order,
      the bytes it keeps, and whether it stopped at a length prefix whose first byte is 255. */
  datatype Frames = Frames(messages: seq<seq<Byte>>, rest: seq<Byte>, corrupt: bool)

  /** One turn of the loop: the message at the head of the cache and the bytes behind it, or
      the reason the loop stops there. */
  datatype Cut = Stop(corrupt: bool) | Message(body: seq<Byte>, tail: seq<Byte>)

  /** Reads the length prefix at the head of the cache. A truncated prefix or an incomplete
      body stops the loop; a malformed prefix stops it as corrupt. */
  function CutHead(cache: seq<Byte>): (r: Cut)
    ensures r.Message? ==> |r.tail| < |cache| && cache[|cache| - |r.tail| ..] == r.tail
    ensures r.Stop? && r.corrupt ==> cache != [] && cache[0] == 255
  {
    UintAtProgress(cache);
    match UintAt(cache, 0)
    case Err(e) => Stop(e == Malformed)
    case Ok((n, off)) =>
      if |cache| >= off + n then Message(cache[off .. off + n], cache[off + n ..]) else Stop(false)
  }

  /** The framing loop as a function of the cache. */
  function Frame(cache: seq<Byte>): (r: Frames)
    ensures r.corrupt ==> r.rest != [] && r.rest[0] == 255
    decreases |cache|
  {
    match CutHead(cache)
    case Stop(corrupt) => Frames([], cache, corrupt)
    case Message(m, tail) => Cons(m, Frame(tail))
  }

  /** A message in front of a framing. */
  function Cons(m: seq<Byte>, f: Frames): Frames
  {
    Frames([m] + f.messages, f.rest, f.corrupt)
  }

  /** A prefix that reads consumes at least one byte; a malformed one starts with 255. */
  lemma UintAtProgress(cache: seq<Byte>)
    ensures UintAt(cache, 0).Ok? ==> 0 < UintAt(cache, 0).value.1 <= |cache|
    ensures UintAt(cache, 0) == Err(Malformed) ==> cache != [] && cache[0] == 255
  {
    if UintAt(cache, 0).Ok? {
      LayoutAtBound(cache, 0);
    }
  }

  /** A prefix that reads from a does not change when more bytes arrive behind it. */
  lemma UintAtPrefix(a: seq<Byte>, b: seq<Byte>)
    requires UintAt(a, 0).Ok?
    ensures UintAt(a + b, 0) == UintAt(a, 0)
  {
    LayoutAtBound(a, 0);
    var k := LayoutAt(a, 0).value.0;
    assert (a + b)[0] == a[0];
    assert (a + b)[1 .. k] == a[1 .. k];
  }

  lemma DropAppend(a: seq<Byte>, b: seq<Byte>, k: nat)
    requires k <= |a|
    ensures (a + b)[k ..] == a[k ..] + b
  {
    assert forall i :: 0 <= i < |a| - k + |b| ==> (a + b)[k ..][i] == (a[k ..] + b)[i];
  }

  /** A message that is complete in a stays the same message when b arrives behind it. */
  lemma CutAppend(a: seq<Byte>, b: seq<Byte>)
    requires CutHead(a).Message?
    ensures CutHead(a + b) == Message(CutHead(a).body, CutHead(a).tail + b)
  {
    UintAtPrefix(a, b);
    var (n, off) := UintAt(a, 0).value;
    assert (a + b)[off .. off + n] == a[off .. off + n];
    DropAppend(a, b, off + n);
  }

  /** The framing of f's kept bytes once b has arrived behind them, appended to f. */
  function Continue(f: Frames, b: seq<Byte>): Frames
  {
    var g := Frame(f.rest + b);
    Frames(f.messages + g.messages, g.rest, g.corrupt)
  }

  lemma ConsContinue(m: seq<Byte>, f: Frames, b: seq<Byte>)
    ensures Continue(Cons(m, f), b) == Cons(m, Continue(f, b))
  {
    var g := Frame(f.rest + b);
    assert ([m] + f.messages) + g.messages == [m] + (f.messages + g.messages);
  }

  /** Chunk boundaries do not matter: framing a + b is framing a, then framing what a left
      behind followed by b. */
  lemma {:induction false} FrameAppend(a: seq<Byte>, b: seq<Byte>)
    ensures Frame(a + b) == Continue(Frame(a), b)
    decreases |a|
  {
    match CutHead(a)
    case Stop(_) =>
      assert [] + Frame(a + b).messages == Frame(a + b).messages;
    case Message(m, t) =>
      CutAppend(a, b);
      FrameAppend(t, b);
      ConsContinue(m, Frame(t), b);
  }

  /** Whatever the framing stopped at frames to nothing more on its own. */
  lemma FrameRest(cache: seq<Byte>)
    ensures Frame(Frame(cache).rest) == Frames([], Frame(cache).rest, Frame(cache).corrupt)
  {
    FrameAppend(cache, []);
    assert cache + [] == cache;
    assert Frame(cache).rest + [] == Frame(cache).rest;
  }

  /** What `send` writes for a body: the uint byte count, then the body. */
  function Framed(body: seq<Byte>): (r: seq<Byte>)
    requires Emit.ValidUint(|body|)
  {
    Emit.ValidUintHasCode(|body|);
    UintBytes(|body|) + body
  }

  /** Delivering the head message moves it from the framing to what was delivered. */
  lemma DeliverOne(done: seq<seq<Byte>>, m: seq<Byte>, f: Frames)
    ensures done + Cons(m, f).messages == (done + [m]) + f.messages
  {
  }

  /** A prefix that reads as the byte count of the body behind it cuts that body off. */
  lemma CutPrefixed(p: seq<Byte>, body: seq<Byte>, s: seq<Byte>)
    requires UintAt(p + body + s, 0) == Ok((|body|, |p|))
    ensures CutHead(p + body + s) == Message(body, s)
  {
    var c := p + body + s;
    assert c[|p| .. |p| + |body|] == body;
    assert c[|p| + |body| ..] == s;
  }

  /** The head of a framed body is that body, whatever follows it. */
  lemma CutFramed(body: seq<Byte>, s: seq<Byte>)
    requires Emit.ValidUint(|body|)
    ensures CutHead(Framed(body) + s) == Message(body, s)
  {
    Emit.ValidUintHasCode(|body|);
    var p := UintBytes(|body|);
    UintRoundTrip(|body|, [], body + s);
    assert [] + p + (body + s) == p + body + s;
    CutPrefixed(p, body, s);
  }

  /** A framed body is sliced off whole, whatever follows it. */
  lemma FrameFramed(body: seq<Byte>, s: seq<Byte>)
    requires Emit.ValidUint(|body|)
    ensures Frame(Framed(body) + s) == Cons(body, Frame(s))
  {
    CutFramed(body, s);
  }

  /** What sending the bodies one after the other puts on the stream. */
  function Stream(bodies: seq<seq<Byte>>): seq<Byte>
    requires forall i :: 0 <= i < |bodies| ==> Emit.ValidUint(|bodies[i]|)
  {
    if bodies == [] then [] else Framed(bodies[0]) + Stream(bodies[1..])
  }

  /** Round trip: the framer gives back exactly the bodies sent, in order, and keeps nothing. */
  lemma {:induction false} FrameStream(bodies: seq<seq<Byte>>)
    requires forall i :: 0 <= i < |bodies| ==> Emit.ValidUint(|bodies[i]|)
    ensures Frame(Stream(bodies)) == Frames(bodies, [], false)
  {
    if bodies != [] {
      FrameStream(bodies[1..]);
      FrameFramed(bodies[0], Stream(bodies[1..]));
      assert [bodies[0]] + bodies[1..] == bodies;
    }
  }

  /** A first byte of 255 stops the loop as corrupt, with nothing delivered. */
  lemma CorruptHead(s: seq<Byte>)
    ensures Frame([255] + s) == Frames([], [255] + s, true)
  {
    assert ([255] + s)[0] == 255;
  }

  /** The readable listener of a NetWrapper together with `send`. */
  class NetWrapper {
    /** The bytes received and not yet sliced into messages. */
    var cache: seq<Byte>
    /** The messages handed to `onmessage`, in order. */
    var delivered: seq<seq<Byte>>
    /** The bytes written to the socket. */
    var output: seq<Byte>
    /** Whether the socket has been asked to end. */
    var ending: bool
    /** Every chunk the socket has given, in order. */
    ghost var received: seq<Byte>

    /** The wrapper has delivered what the framing of all it received delivers, and kept the rest. */
    ghost predicate Valid()
      reads this
    {
      Frame(received).messages == delivered && Frame(received).rest == cache
    }

    constructor ()
      ensures Valid()
      ensures cache == [] && delivered == [] && output == [] && !ending && received == []
    {
      cache := [];
      delivered := [];
      output := [];
      ending := false;
      received := [];
    }

    /** The `while (true)` loop: slices every complete message off the head of the cache and
        reports whether it stopped at a malformed length prefix. */
    method Drain() returns (corrupt: bool)
      modifies this
      ensures delivered == old(delivered) + Frame(old(cache)).messages
      ensures cache == Frame(old(cache)).rest
      ensures corrupt == Frame(old(cache)).corrupt
      ensures output == old(output) && ending == old(ending) && received == old(received)
    {
      while true
        invariant old(delivered) + Frame(old(cache)).messages == delivered + Frame(cache).messages
        invariant Frame(cache).rest == Frame(old(cache)).rest
        invariant Frame(cache).corrupt == Frame(old(cache)).corrupt
        invariant output == old(output) && ending == old(ending) && received == old(received)
        decreases |cache|
      {
        var length := UintAt(cache, 0);
        if length.Err? {
          assert Frame(cache) == Frames([], cache, length.error == Malformed) by {
            assert CutHead(cache) == Stop(length.error == Malformed);
          }
          return length.error == Malformed;
        }
        var (n, off) := length.value;
        if |cache| >= off + n {
          var message := cache[off .. off + n];
          var tail := cache[off + n ..];
          assert Frame(cache) == Cons(message, Frame(tail)) by {
            assert CutHead(cache) == Message(message, tail);
          }
          DeliverOne(delivered, message, Frame(tail));
          cache := tail;
          delivered := delivered + [message];
        } else {
          assert Frame(cache) == Frames([], cache, false) by {
            assert CutHead(cache) == Stop(false);
          }
          return false;
        }
      }
    }

    /** The readable listener as written: a malformed prefix calls `that._protocolError`,
        which NetWrapper does not define, so the listener throws TypeError. */
    method OnReadable(data: seq<Byte>) returns (r: Status)
      requires Valid()
      modifies this
      ensures received == old(received) + data && Valid()
      ensures delivered == Frame(received).messages && cache == Frame(received).rest
      ensures r.Err? <==> Frame(received).corrupt
      ensures r.Err? ==> r.error == TypeError
      ensures output == old(output) && ending == old(ending)
    {
      FrameAppend(received, data);
      received := received + data;
      cache := cache + data;
      var corrupt := Drain();
      if corrupt {
        return Err(TypeError);
      }
      return Ok(());
    }

    /** The readable listener with the protocol error it evidently means: end the socket. */
    method OnReadableClosing(data: seq<Byte>)
      requires Valid()
      modifies this
      ensures received == old(received) + data && Valid()
      ensures delivered == Frame(received).messages && cache == Frame(received).rest
      ensures ending == (old(ending) || Frame(received).corrupt)
      ensures output == old(output)
    {
      FrameAppend(received, data);
      received := received + data;
      cache := cache + data;
      var corrupt := Drain();
      if corrupt {
        ending := true;
      }
    }

    /** `send(metadata, data)`: the uint byte count of both, then both. The count goes through
        `addUint`, which throws TypeError past 2^53 - 1 before anything is written. */
    method Send(metadata: seq<Byte>, data: seq<Byte>) returns (r: Status)
      modifies this
      ensures r.Ok? <==> Emit.ValidUint(|metadata + data|)
      ensures r.Ok? ==> output == old(output) + Framed(metadata + data)
      ensures r.Err? ==> r.error == TypeError && output == old(output)
      ensures cache == old(cache) && delivered == old(delivered) && ending == old(ending)
      ensures received == old(received)
    {
      var n := |metadata| + |data|;
      if !Emit.ValidUint(n) {
        return Err(TypeError);
      }
      Emit.ValidUintHasCode(n);
      var length := UintBytes(n);
      output := output + length;
      output := output + metadata;
      output := output + data;
      assert output == old(output) + (length + (metadata + data));
      return Ok(());
    }
  }
}
