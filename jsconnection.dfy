/**
 * The connection of js/Connection.js: the browser end of an asyncProtocol session whose
 * WebSocket is relayed onto the TCP stream of a node server. What the browser sends is written
 * to the stream as it is, so each message must carry its length, as a frame; what it receives
 * arrives one message per WebSocket message, without a length. The registries are those of the
 * Protocol module, keyed by id. Calls go out under increasing sequence ids and wait in a table,
 * with their return format, their two callbacks and their timer. Calls from the other side are
 * not checked for sequence; each is handed to the application with an `answer` function.
 *
 * The state of a connection is a value (`State`) and every handler a function on it; the
 * class `Connection` of the module JsConnection holds the same state in fields and runs the
 * handlers in place. The receiving side reads the head of a message in state form, as the
 * Protocol module does; a data argument is already a Data (`Payload`).
 */
module JsSession {
  import opened Basics
  import opened Wire
  import opened Formats
  import opened Protocol
  import NodeSession
  import Emit
  import Inflate
  import Framer

  /** A call received from the other side and handed to the application: its type, the
      sequence id it came with, its registered call type, the decoded arguments and whether it
      was answered. */
  datatype Request = Request(kind: nat, id: nat, call: CallType, data: Value, answered: bool)

  /** What the application passes to `answer`: an Exception (its type and data, checked
      against the registry when it was made) or the data of the return. */
  datatype Reply = Raise(kind: nat, data: Payload) | Give(data: Payload)

  /** The fields of a connection. `closing` says `webSocket.close(1002)` was called; `sent` is
      every message sent on the socket; `timers` maps the sequence id of each armed timeout to
      its delay; `settled` records each pending call that left the table with whether the
      callback for its outcome was there; `issued` is every sequence id ever stored. A pending
      call holds its return format. The field `_lastReceivedID` is never changed and is left
      out. */
  datatype State = State(
    lastSent: nat,
    pending: map<nat, Pending<seq<Field>>>,
    timers: map<nat, nat>,
    closing: bool,
    sent: seq<seq<Byte>>,
    settled: seq<Settlement>,
    requests: seq<Request>,
    issued: set<nat>)

  /** The timeout of a call when `sendCall` is given none, in milliseconds. */
  const DefaultTimeout: nat := 60000

  /** A new connection. */
  function Initial(): State
  {
    State(0, map[], map[], false, [], [], [], {})
  }

  /** `_protocolError`: closes the socket with code 1002; the connection goes on until it
      closes. */
  function ProtocolError(s: State): State
  {
    s.(closing := true)
  }

  // ---------------------------------------------------------------------------------------------
  // Handlers

  /** `sendCall(type, data, onreturn, onexception, timeout)`. An unknown type and data of the
      wrong format throw and change nothing, and so does a type past 2^53 - 1; a sequence id or
      length past it throws after the sequence id is taken. There is no check that the socket
      is open. The message is the frame of the type, the sequence id and the data. */
  function SendCall(s: State, reg: Tables, kind: nat, data: Payload,
                    onReturn: bool, onException: bool, timeout: Option<nat>): (Status, State)
  {
    match Refusal(reg.clientCalls, kind, data)
    case Some(e) => (Err(e), s)
    case None =>
      var s1 := s.(lastSent := s.lastSent + 1);
      match NodeSession.Encoded([kind, s1.lastSent], data.bytes)
      case Err(e) => (Err(e), s1)
      case Ok(frame) => (Ok(()), Store(s1.(sent := s1.sent + [frame]), reg.clientCalls[kind].results, onReturn, onException, timeout))
  }

  /** The checks `sendCall` makes before it takes a sequence id, in its order. */
  function Refusal(calls: map<nat, CallType>, kind: nat, data: Payload): (r: Option<JsError>)
    ensures r.None? <==> kind in calls && data.format == FormatString(calls[kind].args) && Emit.ValidUint(kind)
    ensures kind !in calls ==> r == Some(PlainError("Invalid call type"))
  {
    if kind !in calls then Some(PlainError("Invalid call type"))
    else if data.format != FormatString(calls[kind].args) then Some(PlainError("Invalid data type"))
    else if !Emit.ValidUint(kind) then Some(TypeError)
    else None
  }

  /** The call just sent, under the last sequence id: its timer, unless the delay is 0, and its
      entry in the table with its return format. */
  function Store(s: State, results: seq<Field>, onReturn: bool, onException: bool, timeout: Option<nat>): State
  {
    var id := s.lastSent;
    var delay := if timeout.Some? then timeout.value else DefaultTimeout;
    s.(timers := if delay != 0 then s.timers[id := delay] else s.timers,
       pending := s.pending[id := Pending(results, onReturn, onException)],
       issued := s.issued + {id})
  }

  /** The timeout callback of call `id`: if the call still waits, its exception callback gets
      type 0 and the call leaves the table. */
  function Timeout(s: State, id: nat): State
    requires id in s.timers
  {
    var s1 := s.(timers := s.timers - {id});
    if id in s.pending then
      s1.(pending := s.pending - {id}, settled := s.settled + [Settlement(id, TimedOut, s.pending[id].onException)])
    else s1
  }

  /** `_onclose`: every call that waited, in increasing order, has its timer cleared and its
      exception callback run with type -1; then the table empties. */
  function Close(s: State): State
  {
    s.(pending := map[], timers := s.timers - s.pending.Keys,
       settled := s.settled + Closing(s.pending, s.lastSent))
  }

  /** `_processCall`: a call of a type missing from the server calls or whose arguments do not
      decode is a protocol error; otherwise it is handed to the application, under whatever
      sequence id it came with. */
  function ProcessCall(s: State, reg: Tables, id: nat, kind: nat, body: seq<Byte>): State
  {
    if kind !in reg.serverCalls then ProtocolError(s)
    else
      match Inflate.InflateSpec(body, reg.serverCalls[kind].args)
      case Err(_) => ProtocolError(s)
      case Ok(v) => s.(requests := s.requests + [Request(kind, id, reg.serverCalls[kind], v, false)])
  }

  /** A pending call leaving the table with its outcome: its timer is cleared and the callback,
      if any, is run. */
  function Resolve(s: State, id: nat, outcome: Outcome, notified: bool): State
    requires id in s.pending
  {
    s.(pending := s.pending - {id}, timers := s.timers - {id},
       settled := s.settled + [Settlement(id, outcome, notified)])
  }

  /** `_processReturn`: an unknown sequence id and data that does not decode are protocol
      errors, and the call stays in the table; otherwise the return callback runs and the call
      leaves the table. */
  function ProcessReturn(s: State, id: nat, body: seq<Byte>): State
  {
    if id !in s.pending then ProtocolError(s)
    else
      match Inflate.InflateSpec(body, s.pending[id].call)
      case Err(_) => ProtocolError(s)
      case Ok(v) => Resolve(s, id, Returned(v), s.pending[id].onReturn)
  }

  /** `_processException`: an unknown sequence id, an exception type not registered and data
      that does not decode are protocol errors; otherwise the exception callback runs and the
      call leaves the table. */
  function ProcessException(s: State, reg: Tables, id: nat, kind: nat, body: seq<Byte>): State
  {
    if id !in s.pending || kind !in reg.exceptions then ProtocolError(s)
    else
      match Inflate.InflateSpec(body, reg.exceptions[kind])
      case Err(_) => ProtocolError(s)
      case Ok(v) => Resolve(s, id, RemoteException(kind, v), s.pending[id].onException)
  }

  /** `_processMessage` once the head is read. Every read happens inside one `try`, so a head
      that does not read, the exception type included, is a protocol error and nothing else. */
  function Dispatch(s: State, reg: Tables, h: Header): State
  {
    match h
    case Unreadable(_) => ProtocolError(s)
    case IsCall(kind, id, body) => ProcessCall(s, reg, id, kind, body)
    case IsException(id, kind, body) => ProcessException(s, reg, id, kind, body)
    case IsReturn(id, body, clean) => if clean then ProcessReturn(s, id, body) else ProtocolError(s)
  }

  /** `_processMessage` on one message of the socket. */
  function OnMessage(s: State, reg: Tables, m: seq<Byte>): State
  {
    Dispatch(s, reg, Classify(m))
  }

  /** What `answer(obj)` sends: the type and data of the Exception, or 0 and the return data,
      which must have the call's return format. */
  function AnswerMessage(q: Request, reply: Reply): Result<(nat, seq<Byte>), JsError>
  {
    match reply
    case Raise(kind, data) => Ok((kind, data.bytes))
    case Give(data) =>
      if data.format != FormatString(q.call.results) then Err(PlainError("Invalid data type"))
      else Ok((0, data.bytes))
  }

  /** `answer(obj)` for request `i`: a second answer throws; otherwise the answer is sent, as a
      frame, and the request marked answered. */
  function Answer(s: State, i: nat, reply: Reply): Result<State, JsError>
    requires i < |s.requests|
  {
    var q := s.requests[i];
    if q.answered then Err(PlainError("Answer already sent"))
    else
      match AnswerMessage(q, reply)
      case Err(e) => Err(e)
      case Ok((kind, bytes)) =>
        match NodeSession.Encoded([0, q.id, kind], bytes)
        case Err(e) => Err(e)
        case Ok(frame) => Ok(s.(sent := s.sent + [frame], requests := s.requests[i := q.(answered := true)]))
  }

  // ---------------------------------------------------------------------------------------------
  // The invariant

  /** What every handler keeps: the table of pending calls keeps its ledger and a timer belongs
      to a call that was stored. */
  predicate Valid(s: State)
  {
    Ledger(s.pending, s.issued, s.settled, s.lastSent) &&
    (forall id :: id in s.timers ==> id in s.issued)
  }

  /** No call stored is lost: each is pending or settled. */
  predicate Complete(s: State)
  {
    Accounted(s.pending, s.issued, s.settled)
  }

  lemma InitialValid()
    ensures Valid(Initial()) && Complete(Initial())
    ensures Initial().pending == map[] && Initial().sent == []
  {
  }

  /** `sendCall` keeps the invariant and loses no call. */
  lemma SendCallKeeps(s: State, reg: Tables, kind: nat, data: Payload,
                      onReturn: bool, onException: bool, timeout: Option<nat>)
    requires Valid(s)
    ensures var t := SendCall(s, reg, kind, data, onReturn, onException, timeout).1;
      Valid(t) && (Complete(s) ==> Complete(t))
  {
    var f := NodeSession.Encoded([kind, s.lastSent + 1], data.bytes);
    if Refusal(reg.clientCalls, kind, data).None? {
      if f.Err? {
        TakeIdKeeps(s);
      } else {
        SendCallStored(s, reg, kind, data, onReturn, onException, timeout);
        StoreKeeps(s, s.sent + [f.value], reg.clientCalls[kind].results, onReturn, onException, timeout);
      }
    }
  }

  /** `sendCall` sending the call and storing it. */
  lemma SendCallStored(s: State, reg: Tables, kind: nat, data: Payload,
                       onReturn: bool, onException: bool, timeout: Option<nat>)
    requires Refusal(reg.clientCalls, kind, data).None?
    requires NodeSession.Encoded([kind, s.lastSent + 1], data.bytes).Ok?
    ensures SendCall(s, reg, kind, data, onReturn, onException, timeout) ==
      (Ok(()), Store(s.(lastSent := s.lastSent + 1, sent := s.sent + [NodeSession.Encoded([kind, s.lastSent + 1], data.bytes).value]),
                     reg.clientCalls[kind].results, onReturn, onException, timeout))
  {
  }

  /** Taking a sequence id keeps the invariant and loses no call. */
  lemma TakeIdKeeps(s: State)
    requires Valid(s)
    ensures Valid(s.(lastSent := s.lastSent + 1))
    ensures Complete(s) ==> Complete(s.(lastSent := s.lastSent + 1))
  {
  }

  /** Storing a call under a fresh sequence id keeps the invariant and loses no call. */
  lemma StoreKeeps(s: State, sent: seq<seq<Byte>>, results: seq<Field>, onReturn: bool, onException: bool, timeout: Option<nat>)
    requires Valid(s)
    ensures var t := Store(s.(lastSent := s.lastSent + 1, sent := sent), results, onReturn, onException, timeout);
      Valid(t) && (Complete(s) ==> Complete(t))
  {
    Issue(s.pending, s.issued, s.settled, s.lastSent, Pending(results, onReturn, onException));
  }

  /** The timeout keeps the invariant and loses no call. */
  lemma TimeoutKeeps(s: State, id: nat)
    requires Valid(s) && id in s.timers
    ensures Valid(Timeout(s, id)) && (Complete(s) ==> Complete(Timeout(s, id)))
  {
    if id in s.pending {
      Settle(s.pending, s.issued, s.settled, s.lastSent, Settlement(id, TimedOut, s.pending[id].onException));
    }
  }

  /** Closing keeps the invariant; every call that waited is settled, once; and when none was
      lost before, every call ever sent has been settled. */
  lemma CloseKeeps(s: State)
    requires Valid(s)
    ensures Valid(Close(s)) && (Complete(s) ==> Complete(Close(s)))
    ensures SettledSeqs(Close(s).settled[|s.settled| ..]) == s.pending.Keys
    ensures Complete(s) ==> SettledSeqs(Close(s).settled) == s.issued
  {
    CloseAll(s.pending, s.issued, s.settled, s.lastSent);
    ClosingSettlesAll(s.pending, s.lastSent);
    var t := Close(s);
    assert t.settled[|s.settled| ..] == Closing(s.pending, s.lastSent);
    if Complete(s) {
      forall x | x in SettledSeqs(t.settled)
        ensures x in s.issued
      {
        var i :| 0 <= i < |t.settled| && t.settled[i].id == x;
      }
    }
  }

  /** Resolving a pending call keeps the invariant and loses no call. */
  lemma ResolveKeeps(s: State, id: nat, outcome: Outcome, notified: bool)
    requires Valid(s) && id in s.pending
    ensures Valid(Resolve(s, id, outcome, notified))
    ensures Complete(s) ==> Complete(Resolve(s, id, outcome, notified))
  {
    Settle(s.pending, s.issued, s.settled, s.lastSent, Settlement(id, outcome, notified));
  }

  /** Every message keeps the invariant and loses no call. */
  lemma DispatchKeeps(s: State, reg: Tables, h: Header)
    requires Valid(s)
    ensures var t := Dispatch(s, reg, h); Valid(t) && (Complete(s) ==> Complete(t))
  {
    match h
    case Unreadable(_) =>
    case IsCall(kind, id, body) =>
    case IsException(id, kind, body) =>
      if id in s.pending && kind in reg.exceptions {
        var r := Inflate.InflateSpec(body, reg.exceptions[kind]);
        if r.Ok? {
          ResolveKeeps(s, id, RemoteException(kind, r.value), s.pending[id].onException);
        }
      }
    case IsReturn(id, body, clean) =>
      if clean && id in s.pending {
        var r := Inflate.InflateSpec(body, s.pending[id].call);
        if r.Ok? {
          ResolveKeeps(s, id, Returned(r.value), s.pending[id].onReturn);
        }
      }
  }

  /** A return or an exception that is refused leaves the call waiting, so the close or its
      timer still settles it: here the table entry goes only once the callback has run. */
  lemma AnswerRefusedKept(s: State, reg: Tables, m: seq<Byte>, id: nat)
    requires Valid(s) && id in s.pending
    requires OnMessage(s, reg, m).closing && !s.closing
    ensures var t := OnMessage(s, reg, m);
      id in t.pending && t.settled == s.settled && Valid(t) && (Complete(s) ==> Complete(t))
  {
    DispatchKeeps(s, reg, Classify(m));
  }

  /** Answering keeps the invariant and loses no call. */
  lemma AnswerKeeps(s: State, i: nat, reply: Reply)
    requires Valid(s) && i < |s.requests|
    ensures Answer(s, i, reply).Ok? ==> Valid(Answer(s, i, reply).value)
    ensures Answer(s, i, reply).Ok? && Complete(s) ==> Complete(Answer(s, i, reply).value)
  {
  }

  /** A call is answered at most once: after an answer was sent, every further answer throws. */
  lemma AnswerOnceOnly(s: State, i: nat, reply: Reply, again: Reply)
    requires i < |s.requests| && Answer(s, i, reply).Ok?
    ensures var t := Answer(s, i, reply).value;
      i < |t.requests| && t.requests[i].answered && Answer(t, i, again) == Err(PlainError("Answer already sent"))
  {
  }

  // ---------------------------------------------------------------------------------------------
  // What goes on the socket

  /** A call `sendCall` accepts goes out as one message that the framer of the server cuts back
      as a call of that type with the new sequence id and the data's bytes. */
  lemma SendCallWire(s: State, reg: Tables, kind: nat, data: Payload,
                     onReturn: bool, onException: bool, timeout: Option<nat>)
    requires Positive(reg)
    requires SendCall(s, reg, kind, data, onReturn, onException, timeout).0.Ok?
    ensures var t := SendCall(s, reg, kind, data, onReturn, onException, timeout).1;
      t.lastSent == s.lastSent + 1 && t.lastSent in t.pending && |t.sent| == |s.sent| + 1 && t.sent[..|s.sent|] == s.sent &&
      exists m :: Framer.Frame(t.sent[|s.sent|]) == Framer.Frames([m], [], false) && Classify(m) == IsCall(kind, t.lastSent, data.bytes)
  {
    var id := s.lastSent + 1;
    var f := NodeSession.Encoded([kind, id], data.bytes);
    SendCallStored(s, reg, kind, data, onReturn, onException, timeout);
    assert Meta([kind, id]).Some?;
    assert Emit.ValidUint([kind, id][0]) && Emit.ValidUint([kind, id][1]);
    var none: seq<Byte> := [];
    NodeSession.CallOnWire(none, none + f.value, kind, id, data.bytes);
    assert (none + f.value)[|none| ..] == f.value;
  }

  /** An answer goes out as one message that the framer of the server cuts back as the return
      or the exception for the sequence id the call came with. */
  lemma AnswerWire(s: State, i: nat, reply: Reply)
    requires i < |s.requests| && Answer(s, i, reply).Ok?
    ensures AnswerMessage(s.requests[i], reply).Ok?
    ensures var t := Answer(s, i, reply).value; var id := s.requests[i].id;
      var (kind, bytes) := AnswerMessage(s.requests[i], reply).value;
      |t.sent| == |s.sent| + 1 && t.sent[..|s.sent|] == s.sent &&
      exists m :: Framer.Frame(t.sent[|s.sent|]) == Framer.Frames([m], [], false) &&
        Classify(m) == if kind == 0 then IsReturn(id, bytes, true) else IsException(id, kind, bytes)
  {
    var q := s.requests[i];
    var (kind, bytes) := AnswerMessage(q, reply).value;
    var f := NodeSession.Encoded([0, q.id, kind], bytes);
    assert Meta([0, q.id, kind]).Some?;
    assert Emit.ValidUint([0, q.id, kind][1]) && Emit.ValidUint([0, q.id, kind][2]);
    var none: seq<Byte> := [];
    NodeSession.AnswerOnWire(none, none + f.value, q.id, kind, bytes);
    assert (none + f.value)[|none| ..] == f.value;
  }

  /** A call of a known type whose arguments decode is handed to the application under the
      sequence id it came with, whatever that id is: the same id twice is taken twice. */
  lemma CallDelivered(s: State, reg: Tables, kind: nat, id: nat, data: seq<Byte>, v: Value)
    requires Emit.ValidUint(kind) && kind != 0 && Emit.ValidUint(id)
    requires kind in reg.serverCalls && Inflate.InflateSpec(data, reg.serverCalls[kind].args) == Ok(v)
    ensures Meta([kind, id]).Some?
    ensures var q := Request(kind, id, reg.serverCalls[kind], v, false); var m := Meta([kind, id]).value + data;
      OnMessage(s, reg, m) == s.(requests := s.requests + [q]) &&
      OnMessage(OnMessage(s, reg, m), reg, m) == s.(requests := s.requests + [q, q])
  {
    ClassifyCall(kind, id, data);
  }

  /** A return for a pending call whose data decodes settles the call with that data. */
  lemma ReturnDelivered(s: State, reg: Tables, id: nat, data: seq<Byte>, v: Value)
    requires Emit.ValidUint(id) && id in s.pending
    requires Inflate.InflateSpec(data, s.pending[id].call) == Ok(v)
    ensures Meta([0, id, 0]).Some?
    ensures var t := OnMessage(s, reg, Meta([0, id, 0]).value + data);
      t.pending == s.pending - {id} && t.settled == s.settled + [Settlement(id, Returned(v), s.pending[id].onReturn)]
  {
    ClassifyAnswer(id, 0, data);
  }

  // ---------------------------------------------------------------------------------------------
  // The message as written

  /** One part of `new Uint8Array([length, meta, data])`: the typed array of the part is turned
      into a number through its text, so a part of one byte gives that byte and any other part
      (empty, or with a comma in its text) gives 0. */
  function PackedPart(x: seq<Byte>): Byte
  {
    if |x| == 1 then x[0] else 0
  }

  /** `new Uint8Array([length, meta, data]).buffer`, what `sendCall` and `_sendAnswer` send as
      written: three bytes, one per part. */
  function Packed(meta: seq<Byte>, data: seq<Byte>): (r: seq<Byte>)
    requires Emit.ValidUint(|meta + data|)
    ensures |r| == 3
  {
    Emit.ValidUintHasCode(|meta + data|);
    [PackedPart(UintBytes(|meta + data|)), PackedPart(meta), PackedPart(data)]
  }

  /** As written, every message `sendCall` sends is three bytes whose middle one is 0, never the
      frame of the call: the server never sees the call's type or sequence id. */
  lemma PackedLosesCall(kind: nat, id: nat, data: seq<Byte>)
    requires Emit.ValidUint(kind) && Emit.ValidUint(id) && kind != 0
    requires Emit.ValidUint(|Meta([kind, id]).value + data|)
    ensures var meta := Meta([kind, id]).value;
      Packed(meta, data)[1] == 0 && Packed(meta, data) != Framer.Framed(meta + data)
  {
    var meta := Meta([kind, id]).value;
    MetaTwo(kind, id);
    UintOneByte(kind);
    var f := Framer.Framed(meta + data);
    Emit.ValidUintHasCode(|meta + data|);
    assert f[|UintBytes(|meta + data|)|] == meta[0] == UintBytes(kind)[0];
    if |UintBytes(kind)| == 1 {
      assert |meta| >= 2 && PackedPart(meta) == 0;
    }
  }

  /** The first byte of a code is never 0 unless the code is the one byte of 0. */
  lemma UintOneByte(u: nat)
    requires u < Capacity(8) && u != 0
    ensures |UintBytes(u)| >= 1 && UintBytes(u)[0] != 0
  {
    UintBytesLayout(u);
    var k := UintLength(u);
    ConstantTable();
    if k != 1 {
      assert Layout(k, u)[0] >= Offset(k) > 0;
    }
  }

  /** A value below 128 is coded as its own byte. */
  lemma SmallUint(u: nat)
    requires u < 128
    ensures u < Capacity(8) && UintBytes(u) == [u]
  {
    ConstantTable();
    assert Capacity(1) == 128;
    assert LE(u / Span(1), 0) == [];
  }

  /** The smallest call as written: type 1, sequence id 1, no data. It should go out as
      [2, 1, 1]; it goes out as [2, 0, 0], which the server frames as the message [0, 0]. */
  lemma PackedFirstCall()
    ensures Meta([1, 1]) == Some([1, 1])
    ensures Packed([1, 1], []) == [2, 0, 0] && Framer.Framed([1, 1] + []) == [2, 1, 1]
    ensures Framer.Frame([2, 0, 0]) == Framer.Frames([[0, 0]], [], false)
  {
    SmallUint(1);
    SmallUint(2);
    MetaTwo(1, 1);
    assert UintBytes(1) + UintBytes(1) == [1, 1];
    var none: seq<Byte> := [];
    Framer.FrameFramed([0, 0], none);
    assert Framer.Framed([0, 0]) + none == [2, 0, 0];
    assert Framer.Frame(none) == Framer.Frames([], [], false);
  }

  /** The message [0, 0] the server cuts from that call reads as a return for sequence id 0
      whose exception type does not read. */
  lemma PackedFirstCallReads()
    ensures Classify([0, 0]) == IsReturn(0, [], false)
  {
    ZeroZeroReads();
  }

  /** The reads of [0, 0]: 0 at offset 0, 0 at offset 1, and nothing at offset 2. */
  lemma ZeroZeroReads()
    ensures UintAt([0, 0], 0) == Ok((0, 1)) && UintAt([0, 0], 1) == Ok((0, 2))
    ensures UintAt([0, 0], 2) == Err(Truncated)
  {
    SmallUint(0);
    var none: seq<Byte> := [];
    UintRoundTrip(0, none, [0]);
    UintRoundTrip(0, [0], none);
    assert none + [0] + [0] == [0] + [0] + none == [0, 0];
  }
}

module JsConnection {
  import opened Basics
  import opened Wire
  import opened Formats
  import opened Protocol
  import opened JsSession
  import NodeSession
  import Emit
  import Inflate

  /** The fields of `Connection`, handled in place. */
  class Connection {
    var lastSent: nat
    var pending: map<nat, Pending<seq<Field>>>
    var timers: map<nat, nat>
    var closing: bool
    var sent: seq<seq<Byte>>
    var settled: seq<Settlement>
    var requests: seq<Request>
    ghost var issued: set<nat>

    ghost function Snapshot(): State
      reads this
    {
      State(lastSent, pending, timers, closing, sent, settled, requests, issued)
    }

    constructor ()
      ensures Snapshot() == Initial()
    {
      lastSent := 0;
      pending, timers := map[], map[];
      closing := false;
      sent, settled, requests := [], [], [];
      issued := {};
    }

    /** The invariant of the connection. */
    ghost predicate Valid()
      reads this
    {
      JsSession.Valid(Snapshot())
    }

    /** `sendCall`. */
    method SendCall(reg: Registry, kind: nat, data: Payload, onReturn: bool, onException: bool, timeout: Option<nat>) returns (r: Status)
      requires Valid()
      modifies this
      ensures (r, Snapshot()) == JsSession.SendCall(old(Snapshot()), reg.Current(), kind, data, onReturn, onException, timeout)
      ensures Valid()
    {
      SendCallKeeps(Snapshot(), reg.Current(), kind, data, onReturn, onException, timeout);
      var refused := Refusal(reg.clientCalls, kind, data);
      if refused.Some? {
        return Err(refused.value);
      }
      lastSent := lastSent + 1;
      var frame := NodeSession.Encoded([kind, lastSent], data.bytes);
      if frame.Err? {
        return Err(frame.error);
      }
      sent := sent + [frame.value];
      StoreCall(reg.clientCalls[kind].results, onReturn, onException, timeout);
      r := Ok(());
    }

    /** The call just sent enters the table, with its timer unless the delay is 0. */
    method StoreCall(results: seq<Field>, onReturn: bool, onException: bool, timeout: Option<nat>)
      modifies this
      ensures Snapshot() == Store(old(Snapshot()), results, onReturn, onException, timeout)
    {
      var delay := if timeout.Some? then timeout.value else DefaultTimeout;
      if delay != 0 {
        timers := timers[lastSent := delay];
      }
      pending := pending[lastSent := Pending(results, onReturn, onException)];
      issued := issued + {lastSent};
    }

    /** The timeout callback of call `id`. */
    method Timeout(id: nat)
      requires Valid() && id in timers
      modifies this
      ensures Snapshot() == JsSession.Timeout(old(Snapshot()), id) && Valid()
    {
      TimeoutKeeps(Snapshot(), id);
      timers := timers - {id};
      if id in pending {
        settled := settled + [Settlement(id, TimedOut, pending[id].onException)];
        pending := pending - {id};
      }
    }

    /** `_onclose`: walks the ids of the table in increasing order, then empties it. */
    method OnClose()
      requires Valid()
      modifies this
      ensures Snapshot() == Close(old(Snapshot())) && Valid()
    {
      ghost var s0 := Snapshot();
      CloseKeeps(s0);
      forall k | k in pending
        ensures 1 <= k <= lastSent
      {
        assert k in s0.issued;
      }
      var ts, closed := CloseTable(pending, lastSent, timers);
      timers := ts;
      settled := settled + closed;
      pending := map[];
    }

    /** `_processCall`. */
    method ProcessCall(reg: Registry, id: nat, kind: nat, body: seq<Byte>)
      modifies this
      ensures Snapshot() == JsSession.ProcessCall(old(Snapshot()), reg.Current(), id, kind, body)
    {
      if kind !in reg.serverCalls {
        closing := true;
        return;
      }
      var data := Inflate.InflateData(body, reg.serverCalls[kind].args);
      if data.Err? {
        closing := true;
        return;
      }
      requests := requests + [Request(kind, id, reg.serverCalls[kind], data.value, false)];
    }

    /** `_processReturn`. */
    method ProcessReturn(id: nat, body: seq<Byte>)
      modifies this
      ensures Snapshot() == JsSession.ProcessReturn(old(Snapshot()), id, body)
    {
      if id !in pending {
        closing := true;
        return;
      }
      var p := pending[id];
      var data := Inflate.InflateData(body, p.call);
      if data.Err? {
        closing := true;
        return;
      }
      timers := timers - {id};
      settled := settled + [Settlement(id, Returned(data.value), p.onReturn)];
      pending := pending - {id};
    }

    /** `_processException`. */
    method ProcessException(reg: Registry, id: nat, kind: nat, body: seq<Byte>)
      modifies this
      ensures Snapshot() == JsSession.ProcessException(old(Snapshot()), reg.Current(), id, kind, body)
    {
      if id !in pending || kind !in reg.exceptions {
        closing := true;
        return;
      }
      var p := pending[id];
      var data := Inflate.InflateData(body, reg.exceptions[kind]);
      if data.Err? {
        closing := true;
        return;
      }
      timers := timers - {id};
      settled := settled + [Settlement(id, RemoteException(kind, data.value), p.onException)];
      pending := pending - {id};
    }

    /** `_processMessage`. */
    method OnMessage(reg: Registry, m: seq<Byte>)
      requires Valid()
      modifies this
      ensures Snapshot() == JsSession.OnMessage(old(Snapshot()), reg.Current(), m) && Valid()
    {
      DispatchKeeps(Snapshot(), reg.Current(), Classify(m));
      match Classify(m)
      case Unreadable(_) =>
        closing := true;
      case IsCall(kind, id, body) =>
        ProcessCall(reg, id, kind, body);
      case IsException(id, kind, body) =>
        ProcessException(reg, id, kind, body);
      case IsReturn(id, body, clean) =>
        if clean {
          ProcessReturn(id, body);
        } else {
          closing := true;
        }
    }

    /** `answer(obj)` for request `i`. */
    method Answer(i: nat, reply: Reply) returns (r: Status)
      requires Valid() && i < |requests|
      modifies this
      ensures var a := JsSession.Answer(old(Snapshot()), i, reply);
        (a.Err? ==> r == Err(a.error) && Snapshot() == old(Snapshot())) &&
        (a.Ok? ==> r == Ok(()) && Snapshot() == a.value)
      ensures Valid()
    {
      AnswerKeeps(Snapshot(), i, reply);
      var q := requests[i];
      if q.answered {
        return Err(PlainError("Answer already sent"));
      }
      var message := AnswerMessage(q, reply);
      if message.Err? {
        return Err(message.error);
      }
      var (kind, bytes) := message.value;
      var frame := NodeSession.Encoded([0, q.id, kind], bytes);
      if frame.Err? {
        return Err(frame.error);
      }
      sent := sent + [frame.value];
      requests := requests[i := q.(answered := true)];
      r := Ok(());
    }
  }
}
