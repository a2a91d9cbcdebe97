/**
 * The connection of web/Connection.js: one end of an asyncProtocol session over a WebSocket in
 * the browser. The socket keeps message boundaries, so a message goes out whole, without a
 * length. Calls and exceptions are found by name or id in the dictionaries of a context
 * (the Context module); calls go out under increasing sequence ids and wait in a table for
 * their return, an exception, a timeout or the close of the socket, and their single callback
 * gets the outcome. Calls from the other side must arrive with the next sequence id and are
 * handed to the callback registered with the call, together with an `answer` function.
 *
 * The state of a connection is a value (`State`) and every handler a function on it; the
 * class `Connection` of the module WebConnection holds the same state in fields and runs the
 * handlers in place. `deflateData` rounds floats with a function the model takes as the
 * parameter `single` (see the Deflate module).
 */
module WebSession {
  import opened Basics
  import opened Wire
  import opened Formats
  import opened Protocol
  import Expand
  import Context
  import Emit
  import Inflate
  import Deflate

  /** A call received from the other side and handed to its callback: its type, its sequence
      id, its registered entry, the decoded arguments and whether it was answered. */
  datatype Request = Request(kind: nat, id: nat, call: Context.Call, data: Value, answered: bool)

  /** What the application passes to `answer`: an Exception (its name, looked up as a key, and
      its data) or the data of the return. */
  datatype Reply = Raise(name: Context.Key, data: Value) | Give(data: Value)

  /** The fields of a connection. `ready` is `_ready`; `closing` says `socket.close()` was
      called; `sent` is every message sent on the socket; `timers` maps the sequence id of each
      armed timeout to its delay; `settled` records each pending call that left the table with
      whether it had a callback to run; `issued` is every sequence id ever stored. A pending
      call holds its signature and, twice, whether it has a callback. */
  datatype State = State(
    ready: bool,
    lastSent: nat,
    lastReceived: nat,
    pending: map<nat, Pending<Expand.CallSignature>>,
    timers: map<nat, nat>,
    closing: bool,
    sent: seq<seq<Byte>>,
    settled: seq<Settlement>,
    requests: seq<Request>,
    issued: set<nat>)

  /** The timeout of a call when `call` is given none, in milliseconds. */
  const DefaultTimeout: nat := 60000

  /** A new connection, not yet open. */
  function Initial(): State
  {
    State(false, 0, 0, map[], map[], false, [], [], [], {})
  }

  /** The `onopen` listener of the socket. */
  function Open(s: State): State
  {
    s.(ready := true)
  }

  /** `_protocolError`: closes the socket; the connection goes on until `onclose` runs. */
  function ProtocolError(s: State): State
  {
    s.(closing := true)
  }

  // ---------------------------------------------------------------------------------------------
  // Handlers

  /** `call(name, data, callback, timeout)`. A connection not open and an unknown name throw,
      and so does data `deflateData` refuses; a call id past 2^53 - 1 throws before the
      sequence id is taken, a sequence id past it after. The message is the call id, the
      sequence id and the data. */
  function Call(s: State, d: Context.Dicts, name: Context.Key, data: Value, single: Value -> Emit.Float32,
                callback: bool, timeout: Option<nat>): (Status, State)
  {
    match Lookup(s.ready, d.clientCalls, name)
    case Err(e) => (Err(e), s)
    case Ok(call) =>
      match Deflate.DeflateSpec(data, call.signature.args, single)
      case Err(e) => (Err(e), s)
      case Ok(bytes) =>
        if !Emit.ValidUint(call.signature.id) then (Err(TypeError), s)
        else
          var s1 := s.(lastSent := s.lastSent + 1);
          match Meta([call.signature.id, s1.lastSent])
          case None => (Err(TypeError), s1)
          case Some(meta) => (Ok(()), Store(s1.(sent := s1.sent + [meta + bytes]), call.signature, callback, timeout))
  }

  /** The checks `call` makes before it encodes the data, in its order. */
  function Lookup(ready: bool, calls: map<Context.Key, Context.Call>, name: Context.Key): (r: Result<Context.Call, JsError>)
    ensures r.Ok? <==> ready && name in calls
    ensures r.Ok? ==> r.value == calls[name]
    ensures !ready ==> r == Err(PlainError("The connection isn't opened"))
  {
    if !ready then Err(PlainError("The connection isn't opened"))
    else if name !in calls then Err(PlainError("Invalid call"))
    else Ok(calls[name])
  }

  /** The call just sent, under the last sequence id: its timer, unless the delay is 0, and its
      entry in the table. */
  function Store(s: State, call: Expand.CallSignature, callback: bool, timeout: Option<nat>): State
  {
    var id := s.lastSent;
    var delay := if timeout.Some? then timeout.value else DefaultTimeout;
    s.(timers := if delay != 0 then s.timers[id := delay] else s.timers,
       pending := s.pending[id := Pending(call, callback, callback)],
       issued := s.issued + {id})
  }

  /** The timeout callback of call `id`: if the call still waits, it leaves the table and its
      callback gets the Exception "timeout". */
  function Timeout(s: State, id: nat): State
    requires id in s.timers
  {
    var s1 := s.(timers := s.timers - {id});
    if id in s.pending then
      s1.(pending := s.pending - {id}, settled := s.settled + [Settlement(id, TimedOut, s.pending[id].onException)])
    else s1
  }

  /** `_onclose`: the table empties, the connection is no longer ready, and every call that
      waited, in increasing order, has its timer cleared and its callback run with the Exception
      "closed". */
  function Close(s: State): State
  {
    s.(pending := map[], timers := s.timers - s.pending.Keys, ready := false,
       settled := s.settled + Closing(s.pending, s.lastSent))
  }

  /** `_processCall`: the next sequence id is taken whatever happens; a call out of sequence,
      of a type missing from the server calls or whose arguments do not decode is a protocol
      error; a call registered without a callback throws; otherwise it goes to its callback. */
  function ProcessCall(s: State, d: Context.Dicts, id: nat, kind: nat, body: seq<Byte>): (Status, State)
  {
    var s1 := s.(lastReceived := s.lastReceived + 1);
    if id != s1.lastReceived || Context.Id(kind) !in d.serverCalls then (Ok(()), ProtocolError(s1))
    else
      var call := d.serverCalls[Context.Id(kind)];
      match Inflate.InflateSpec(body, call.signature.args)
      case Err(_) => (Ok(()), ProtocolError(s1))
      case Ok(v) =>
        if call.callback.None? then (Err(PlainError("Callback not registered")), s1)
        else (Ok(()), s1.(requests := s1.requests + [Request(kind, id, call, v, false)]))
  }

  /** A pending call leaving the table with its outcome: its timer is cleared and its callback,
      if any, is run. */
  function Resolve(s: State, id: nat, outcome: Outcome, notified: bool): State
    requires id in s.pending
  {
    s.(pending := s.pending - {id}, timers := s.timers - {id},
       settled := s.settled + [Settlement(id, outcome, notified)])
  }

  /** `_processReturn` as written: the call leaves the table before its data is decoded, so
      data that does not decode loses the call. */
  function ProcessReturn(s: State, id: nat, body: seq<Byte>): State
  {
    if id !in s.pending then ProtocolError(s)
    else
      var p := s.pending[id];
      var s1 := s.(pending := s.pending - {id});
      match Inflate.InflateSpec(body, p.call.outArgs)
      case Err(_) => ProtocolError(s1)
      case Ok(v) => s1.(timers := s.timers - {id}, settled := s.settled + [Settlement(id, Returned(v), p.onReturn)])
  }

  /** `_processReturn` with the call kept in the table until its data decodes. */
  function ProcessReturnKept(s: State, id: nat, body: seq<Byte>): State
  {
    if id !in s.pending then ProtocolError(s)
    else
      match Inflate.InflateSpec(body, s.pending[id].call.outArgs)
      case Err(_) => ProtocolError(s)
      case Ok(v) => Resolve(s, id, Returned(v), s.pending[id].onReturn)
  }

  /** `_processException` as written: the call leaves the table before the exception id is
      looked up and its data decoded. */
  function ProcessException(s: State, d: Context.Dicts, id: nat, kind: nat, body: seq<Byte>): State
  {
    if id !in s.pending then ProtocolError(s)
    else
      var p := s.pending[id];
      var s1 := s.(pending := s.pending - {id});
      if Context.Id(kind) !in d.exceptions then ProtocolError(s1)
      else
        match Inflate.InflateSpec(body, d.exceptions[Context.Id(kind)].args)
        case Err(_) => ProtocolError(s1)
        case Ok(v) => s1.(timers := s.timers - {id}, settled := s.settled + [Settlement(id, RemoteException(kind, v), p.onException)])
  }

  /** `_processException` with the call kept in the table until the exception is accepted. */
  function ProcessExceptionKept(s: State, d: Context.Dicts, id: nat, kind: nat, body: seq<Byte>): State
  {
    if id !in s.pending || Context.Id(kind) !in d.exceptions then ProtocolError(s)
    else
      match Inflate.InflateSpec(body, d.exceptions[Context.Id(kind)].args)
      case Err(_) => ProtocolError(s)
      case Ok(v) => Resolve(s, id, RemoteException(kind, v), s.pending[id].onException)
  }

  /** `_onmessage` once the head is read. `_onmessage` goes on after a head that does not read:
      a type other than 0 whose sequence id does not read still reaches `_processCall`, which
      takes a sequence id before it finds the id wrong; any other unreadable head ends in
      `_processReturn` with no call to find. An answer whose exception type does not read is a
      protocol error and is then taken as a return. */
  function Dispatch(s: State, d: Context.Dicts, h: Header): (Status, State)
  {
    match h
    case Unreadable(head) =>
      if head.Some? && head.value != 0 then (Ok(()), ProtocolError(s.(lastReceived := s.lastReceived + 1)))
      else (Ok(()), ProtocolError(s))
    case IsCall(kind, id, body) => ProcessCall(s, d, id, kind, body)
    case IsException(id, kind, body) => (Ok(()), ProcessExceptionKept(s, d, id, kind, body))
    case IsReturn(id, body, clean) => (Ok(()), ProcessReturnKept(if clean then s else ProtocolError(s), id, body))
  }

  /** `_onmessage` on one message of the socket. */
  function OnMessage(s: State, d: Context.Dicts, m: seq<Byte>): (Status, State)
  {
    Dispatch(s, d, Classify(m))
  }

  /** What `answer(obj)` sends: the id of the exception found under the name and its data, or
      0 and the return data. A name not registered throws, and so does data `deflateData`
      refuses. */
  function AnswerMessage(d: Context.Dicts, q: Request, reply: Reply, single: Value -> Emit.Float32): Result<(nat, seq<Byte>), JsError>
  {
    match reply
    case Raise(name, data) =>
      if name !in d.exceptions then Err(PlainError("Invalid exception"))
      else
        (match Deflate.DeflateSpec(data, d.exceptions[name].args, single)
         case Err(e) => Err(e)
         case Ok(bytes) => Ok((d.exceptions[name].id, bytes)))
    case Give(data) =>
      match Deflate.DeflateSpec(data, q.call.signature.outArgs, single)
      case Err(e) => Err(e)
      case Ok(bytes) => Ok((0, bytes))
  }

  /** `answer(obj)` for request `i`: a second answer throws; a connection no longer ready
      returns false and sends nothing; otherwise the answer is sent, the request marked
      answered and true returned. */
  function Answer(s: State, d: Context.Dicts, i: nat, reply: Reply, single: Value -> Emit.Float32): Result<(bool, State), JsError>
    requires i < |s.requests|
  {
    var q := s.requests[i];
    if q.answered then Err(PlainError("Answer already sent"))
    else if !s.ready then Ok((false, s))
    else
      match AnswerMessage(d, q, reply, single)
      case Err(e) => Err(e)
      case Ok((kind, bytes)) =>
        match Meta([0, q.id, kind])
        case None => Err(TypeError)
        case Some(meta) => Ok((true, s.(sent := s.sent + [meta + bytes], requests := s.requests[i := q.(answered := true)])))
  }

  // ---------------------------------------------------------------------------------------------
  // The invariant

  /** What every handler keeps: the table of pending calls keeps its ledger, a timer belongs to
      a call that was stored, the calls handed to a callback carry increasing sequence ids none
      past the last one received, and a connection that is not ready has nothing pending. */
  predicate Valid(s: State)
  {
    Ledger(s.pending, s.issued, s.settled, s.lastSent) &&
    (forall id :: id in s.timers ==> id in s.issued) &&
    (forall i :: 0 <= i < |s.requests| ==> 1 <= s.requests[i].id <= s.lastReceived) &&
    (forall i, j :: 0 <= i < j < |s.requests| ==> s.requests[i].id < s.requests[j].id) &&
    (!s.ready ==> s.pending == map[])
  }

  /** No call stored is lost: each is pending or settled. */
  predicate Complete(s: State)
  {
    Accounted(s.pending, s.issued, s.settled)
  }

  lemma InitialValid()
    ensures Valid(Initial()) && Complete(Initial())
    ensures !Initial().ready && Initial().pending == map[] && Initial().sent == []
  {
  }

  /** Opening keeps the invariant and loses no call. */
  lemma OpenKeeps(s: State)
    requires Valid(s)
    ensures Valid(Open(s)) && (Complete(s) ==> Complete(Open(s))) && Open(s).ready
  {
  }

  /** `call` keeps the invariant and loses no call. */
  lemma CallKeeps(s: State, d: Context.Dicts, name: Context.Key, data: Value, single: Value -> Emit.Float32,
                  callback: bool, timeout: Option<nat>)
    requires Valid(s)
    ensures var t := Call(s, d, name, data, single, callback, timeout).1;
      Valid(t) && (Complete(s) ==> Complete(t))
  {
    var r := Call(s, d, name, data, single, callback, timeout);
    if r.1 != s {
      var call := d.clientCalls[name];
      var bytes := Deflate.DeflateSpec(data, call.signature.args, single).value;
      if r.0.Err? {
        CallUncoded(s, d, name, data, single, callback, timeout);
        TakeIdKeeps(s);
      } else {
        CallStored(s, d, name, data, single, callback, timeout);
        var meta := Meta([call.signature.id, s.lastSent + 1]).value;
        StoreKeeps(s, s.sent + [meta + bytes], call.signature, callback, timeout);
      }
    }
  }

  /** `call` refused once it has taken a sequence id. */
  lemma CallUncoded(s: State, d: Context.Dicts, name: Context.Key, data: Value, single: Value -> Emit.Float32,
                    callback: bool, timeout: Option<nat>)
    requires Call(s, d, name, data, single, callback, timeout).1 != s
    requires Call(s, d, name, data, single, callback, timeout).0.Err?
    ensures Call(s, d, name, data, single, callback, timeout).1 == s.(lastSent := s.lastSent + 1)
  {
  }

  /** `call` sending the message and storing the call. */
  lemma CallStored(s: State, d: Context.Dicts, name: Context.Key, data: Value, single: Value -> Emit.Float32,
                   callback: bool, timeout: Option<nat>)
    requires Call(s, d, name, data, single, callback, timeout).0.Ok?
    ensures s.ready && name in d.clientCalls
    ensures var call := d.clientCalls[name];
      Deflate.DeflateSpec(data, call.signature.args, single).Ok? && Meta([call.signature.id, s.lastSent + 1]).Some? &&
      Call(s, d, name, data, single, callback, timeout).1 ==
        Store(s.(lastSent := s.lastSent + 1,
                 sent := s.sent + [Meta([call.signature.id, s.lastSent + 1]).value + Deflate.DeflateSpec(data, call.signature.args, single).value]),
              call.signature, callback, timeout)
  {
  }

  /** Taking a sequence id keeps the invariant and loses no call. */
  lemma TakeIdKeeps(s: State)
    requires Valid(s)
    ensures Valid(s.(lastSent := s.lastSent + 1))
    ensures Complete(s) ==> Complete(s.(lastSent := s.lastSent + 1))
  {
  }

  /** Storing a call under a fresh sequence id keeps the invariant and loses no call. */
  lemma StoreKeeps(s: State, sent: seq<seq<Byte>>, call: Expand.CallSignature, callback: bool, timeout: Option<nat>)
    requires Valid(s) && s.ready
    ensures var t := Store(s.(lastSent := s.lastSent + 1, sent := sent), call, callback, timeout);
      Valid(t) && (Complete(s) ==> Complete(t))
  {
    Issue(s.pending, s.issued, s.settled, s.lastSent, Pending(call, callback, callback));
  }

  /** The timeout keeps the invariant and loses no call. */
  lemma TimeoutKeeps(s: State, id: nat)
    requires Valid(s) && id in s.timers
    ensures Valid(Timeout(s, id)) && (Complete(s) ==> Complete(Timeout(s, id)))
  {
    if id in s.pending {
      Settle(s.pending, s.issued, s.settled, s.lastSent, Settlement(id, TimedOut, s.pending[id].onException));
    }
  }

  /** Closing keeps the invariant; every call that waited is settled, once; and when none was
      lost before, every call ever sent has been settled. */
  lemma CloseKeeps(s: State)
    requires Valid(s)
    ensures Valid(Close(s)) && (Complete(s) ==> Complete(Close(s)))
    ensures SettledSeqs(Close(s).settled[|s.settled| ..]) == s.pending.Keys
    ensures Complete(s) ==> SettledSeqs(Close(s).settled) == s.issued
  {
    CloseAll(s.pending, s.issued, s.settled, s.lastSent);
    ClosingSettlesAll(s.pending, s.lastSent);
    var t := Close(s);
    assert t.settled[|s.settled| ..] == Closing(s.pending, s.lastSent);
    if Complete(s) {
      forall x | x in SettledSeqs(t.settled)
        ensures x in s.issued
      {
        var i :| 0 <= i < |t.settled| && t.settled[i].id == x;
      }
    }
  }

  /** Resolving a pending call keeps the invariant and loses no call. */
  lemma ResolveKeeps(s: State, id: nat, outcome: Outcome, notified: bool)
    requires Valid(s) && id in s.pending
    ensures Valid(Resolve(s, id, outcome, notified))
    ensures Complete(s) ==> Complete(Resolve(s, id, outcome, notified))
  {
    Settle(s.pending, s.issued, s.settled, s.lastSent, Settlement(id, outcome, notified));
  }

  /** Taking the next sequence id received keeps the invariant, and every request handed over
      so far has an id below it. */
  lemma ReceiveIdKeeps(s: State)
    requires Valid(s)
    ensures var s1 := s.(lastReceived := s.lastReceived + 1);
      Valid(s1) && Valid(ProtocolError(s1)) && (Complete(s) ==> Complete(s1) && Complete(ProtocolError(s1))) &&
      forall i :: 0 <= i < |s1.requests| ==> s1.requests[i].id < s1.lastReceived
  {
  }

  /** A received call keeps the invariant: a call handed to its callback carries the sequence
      id just taken, above every earlier one. */
  lemma ProcessCallKeeps(s: State, d: Context.Dicts, id: nat, kind: nat, body: seq<Byte>)
    requires Valid(s)
    ensures var t := ProcessCall(s, d, id, kind, body).1;
      Valid(t) && (Complete(s) ==> Complete(t)) && t.lastReceived == s.lastReceived + 1
  {
    var s1 := s.(lastReceived := s.lastReceived + 1);
    var t := ProcessCall(s, d, id, kind, body).1;
    ReceiveIdKeeps(s);
    ProcessCallCases(s, d, id, kind, body);
    if t != ProtocolError(s1) && t != s1 {
      RequestKeeps(s1, t.requests[|s.requests|]);
    }
  }

  /** `_processCall` reports a protocol error, throws, or hands over one request with the new
      sequence id. */
  lemma ProcessCallCases(s: State, d: Context.Dicts, id: nat, kind: nat, body: seq<Byte>)
    ensures var s1 := s.(lastReceived := s.lastReceived + 1);
      var t := ProcessCall(s, d, id, kind, body).1;
      t != ProtocolError(s1) && t != s1 ==>
        |t.requests| == |s.requests| + 1 && t.requests[|s.requests|].id == s1.lastReceived &&
        t == s1.(requests := s1.requests + [t.requests[|s.requests|]])
  {
  }

  /** Handing a callback a call with the last sequence id received keeps the invariant. */
  lemma RequestKeeps(s: State, q: Request)
    requires Valid(s) && q.id == s.lastReceived && s.lastReceived >= 1
    requires forall i :: 0 <= i < |s.requests| ==> s.requests[i].id < s.lastReceived
    ensures Valid(s.(requests := s.requests + [q]))
  {
  }

  /** The corrected return handler keeps the invariant and loses no call. */
  lemma ProcessReturnKeptKeeps(s: State, id: nat, body: seq<Byte>)
    requires Valid(s)
    ensures var t := ProcessReturnKept(s, id, body); Valid(t) && (Complete(s) ==> Complete(t))
  {
    if id in s.pending {
      var r := Inflate.InflateSpec(body, s.pending[id].call.outArgs);
      if r.Ok? {
        ResolveKeeps(s, id, Returned(r.value), s.pending[id].onReturn);
      }
    }
  }

  /** The corrected exception handler keeps the invariant and loses no call. */
  lemma ProcessExceptionKeptKeeps(s: State, d: Context.Dicts, id: nat, kind: nat, body: seq<Byte>)
    requires Valid(s)
    ensures var t := ProcessExceptionKept(s, d, id, kind, body); Valid(t) && (Complete(s) ==> Complete(t))
  {
    if id in s.pending && Context.Id(kind) in d.exceptions {
      var r := Inflate.InflateSpec(body, d.exceptions[Context.Id(kind)].args);
      if r.Ok? {
        ResolveKeeps(s, id, RemoteException(kind, r.value), s.pending[id].onException);
      }
    }
  }

  /** Every message keeps the invariant and loses no call. */
  lemma DispatchKeeps(s: State, d: Context.Dicts, h: Header)
    requires Valid(s)
    ensures var t := Dispatch(s, d, h).1; Valid(t) && (Complete(s) ==> Complete(t))
  {
    match h
    case Unreadable(_) => ReceiveIdKeeps(s);
    case IsCall(kind, id, body) => ProcessCallKeeps(s, d, id, kind, body);
    case IsException(id, kind, body) => ProcessExceptionKeptKeeps(s, d, id, kind, body);
    case IsReturn(id, body, clean) => ProcessReturnKeptKeeps(if clean then s else ProtocolError(s), id, body);
  }

  /** The return handler as written keeps the invariant but loses the call whose return data
      does not decode: it is neither pending nor settled, so neither the close nor its timer
      will run its callback. */
  lemma ProcessReturnLoses(s: State, id: nat, body: seq<Byte>)
    requires Valid(s) && id in s.pending
    requires Inflate.InflateSpec(body, s.pending[id].call.outArgs).Err?
    ensures Valid(ProcessReturn(s, id, body))
    ensures !Complete(ProcessReturn(s, id, body))
  {
    DropLoses(s.pending, s.issued, s.settled, s.lastSent, id);
  }

  /** The corrected return handler keeps such a call, so the close settles it later. */
  lemma ProcessReturnKeeps(s: State, id: nat, body: seq<Byte>)
    requires Valid(s) && id in s.pending
    requires Inflate.InflateSpec(body, s.pending[id].call.outArgs).Err?
    ensures var t := ProcessReturnKept(s, id, body);
      Valid(t) && (Complete(s) ==> Complete(t)) && id in t.pending && t.closing
  {
  }

  /** The exception handler as written loses the call the same way, here also when the
      exception id is not registered. */
  lemma ProcessExceptionLoses(s: State, d: Context.Dicts, id: nat, kind: nat, body: seq<Byte>)
    requires Valid(s) && id in s.pending
    requires Context.Id(kind) !in d.exceptions || Inflate.InflateSpec(body, d.exceptions[Context.Id(kind)].args).Err?
    ensures Valid(ProcessException(s, d, id, kind, body))
    ensures !Complete(ProcessException(s, d, id, kind, body))
  {
    DropLoses(s.pending, s.issued, s.settled, s.lastSent, id);
  }

  /** The corrected exception handler keeps such a call. */
  lemma ProcessExceptionKeeps(s: State, d: Context.Dicts, id: nat, kind: nat, body: seq<Byte>)
    requires Valid(s) && id in s.pending
    requires Context.Id(kind) !in d.exceptions || Inflate.InflateSpec(body, d.exceptions[Context.Id(kind)].args).Err?
    ensures var t := ProcessExceptionKept(s, d, id, kind, body);
      Valid(t) && (Complete(s) ==> Complete(t)) && id in t.pending && t.closing
  {
  }

  /** Answering keeps the invariant and loses no call. */
  lemma AnswerKeeps(s: State, d: Context.Dicts, i: nat, reply: Reply, single: Value -> Emit.Float32)
    requires Valid(s) && i < |s.requests|
    ensures Answer(s, d, i, reply, single).Ok? ==> Valid(Answer(s, d, i, reply, single).value.1)
    ensures Answer(s, d, i, reply, single).Ok? && Complete(s) ==> Complete(Answer(s, d, i, reply, single).value.1)
  {
    var r := Answer(s, d, i, reply, single);
    if r.Ok? && r.value.0 {
      var t := r.value.1;
      assert t == s.(sent := t.sent, requests := s.requests[i := s.requests[i].(answered := true)]);
      assert forall k :: 0 <= k < |t.requests| ==> t.requests[k].id == s.requests[k].id;
    }
  }

  // ---------------------------------------------------------------------------------------------
  // What goes on the socket

  /** A call `call` accepts goes out as one message that reads back, on the other side, as a
      call of the registered id with the new sequence id and the bytes of the data. */
  lemma CallWire(s: State, d: Context.Dicts, name: Context.Key, data: Value, single: Value -> Emit.Float32,
                 callback: bool, timeout: Option<nat>)
    requires Context.Keyed(d)
    requires Call(s, d, name, data, single, callback, timeout).0.Ok?
    ensures name in d.clientCalls && Deflate.DeflateSpec(data, d.clientCalls[name].signature.args, single).Ok?
    ensures var t := Call(s, d, name, data, single, callback, timeout).1;
      t.lastSent == s.lastSent + 1 && t.lastSent in t.pending && |t.sent| == |s.sent| + 1 &&
      t.sent[..|s.sent|] == s.sent &&
      Classify(t.sent[|s.sent|]) == IsCall(d.clientCalls[name].signature.id, t.lastSent,
                                           Deflate.DeflateSpec(data, d.clientCalls[name].signature.args, single).value)
  {
    CallStored(s, d, name, data, single, callback, timeout);
    var call := d.clientCalls[name];
    var bytes := Deflate.DeflateSpec(data, call.signature.args, single).value;
    assert Emit.ValidUint([call.signature.id, s.lastSent + 1][0]) && Emit.ValidUint([call.signature.id, s.lastSent + 1][1]);
    ClassifyCall(call.signature.id, s.lastSent + 1, bytes);
  }

  /** A call `call` refuses before it takes a sequence id leaves the connection as it was; a
      connection not open refuses every call. */
  lemma CallRefused(s: State, d: Context.Dicts, name: Context.Key, data: Value, single: Value -> Emit.Float32,
                    callback: bool, timeout: Option<nat>)
    requires Call(s, d, name, data, single, callback, timeout).0.Err?
    ensures var t := Call(s, d, name, data, single, callback, timeout).1;
      t == s || t == s.(lastSent := s.lastSent + 1)
    ensures !s.ready || name !in d.clientCalls ==> Call(s, d, name, data, single, callback, timeout).1 == s
    ensures !s.ready ==> Call(s, d, name, data, single, callback, timeout).0 == Err(PlainError("The connection isn't opened"))
  {
  }

  /** An answer goes out as one message that reads back as the return or the exception for the
      sequence id of the call. */
  lemma AnswerWire(s: State, d: Context.Dicts, i: nat, reply: Reply, single: Value -> Emit.Float32)
    requires Context.Keyed(d)
    requires i < |s.requests| && Answer(s, d, i, reply, single).Ok? && Answer(s, d, i, reply, single).value.0
    ensures AnswerMessage(d, s.requests[i], reply, single).Ok?
    ensures var t := Answer(s, d, i, reply, single).value.1; var id := s.requests[i].id;
      var (kind, bytes) := AnswerMessage(d, s.requests[i], reply, single).value;
      |t.sent| == |s.sent| + 1 && t.sent[..|s.sent|] == s.sent &&
      Classify(t.sent[|s.sent|]) == match reply
        case Raise(name, _) => IsException(id, d.exceptions[name].id, bytes)
        case Give(_) => IsReturn(id, bytes, true)
  {
    var q := s.requests[i];
    var (kind, bytes) := AnswerMessage(d, q, reply, single).value;
    assert Meta([0, q.id, kind]).Some?;
    assert Emit.ValidUint([0, q.id, kind][1]) && Emit.ValidUint([0, q.id, kind][2]);
    ClassifyAnswer(q.id, kind, bytes);
  }

  /** A call is answered at most once: after an answer was sent, every further answer throws. */
  lemma AnswerOnceOnly(s: State, d: Context.Dicts, i: nat, reply: Reply, again: Reply, single: Value -> Emit.Float32)
    requires i < |s.requests| && Answer(s, d, i, reply, single).Ok? && Answer(s, d, i, reply, single).value.0
    ensures var t := Answer(s, d, i, reply, single).value.1;
      i < |t.requests| && t.requests[i].answered && Answer(t, d, i, again, single) == Err(PlainError("Answer already sent"))
  {
  }

  /** Once the socket has closed, an answer to a call not yet answered returns false and sends
      nothing. */
  lemma AnswerAfterClose(s: State, d: Context.Dicts, i: nat, reply: Reply, single: Value -> Emit.Float32)
    requires i < |s.requests| && !s.requests[i].answered
    ensures i < |Close(s).requests|
    ensures Answer(Close(s), d, i, reply, single) == Ok((false, Close(s)))
  {
  }

  /** A call from the other side that arrives in sequence, of a type registered with a
      callback and with arguments that decode, is handed to that callback. */
  lemma CallDelivered(s: State, d: Context.Dicts, kind: nat, data: seq<Byte>, v: Value)
    requires Emit.ValidUint(kind) && kind != 0 && Emit.ValidUint(s.lastReceived + 1)
    requires Context.Id(kind) in d.serverCalls && d.serverCalls[Context.Id(kind)].callback.Some?
    requires Inflate.InflateSpec(data, d.serverCalls[Context.Id(kind)].signature.args) == Ok(v)
    ensures Meta([kind, s.lastReceived + 1]).Some?
    ensures OnMessage(s, d, Meta([kind, s.lastReceived + 1]).value + data) ==
      (Ok(()), s.(lastReceived := s.lastReceived + 1,
                  requests := s.requests + [Request(kind, s.lastReceived + 1, d.serverCalls[Context.Id(kind)], v, false)]))
  {
    ClassifyCall(kind, s.lastReceived + 1, data);
  }

  /** A return for a pending call whose data decodes settles the call with that data. */
  lemma ReturnDelivered(s: State, d: Context.Dicts, id: nat, data: seq<Byte>, v: Value)
    requires Emit.ValidUint(id) && id in s.pending
    requires Inflate.InflateSpec(data, s.pending[id].call.outArgs) == Ok(v)
    ensures Meta([0, id, 0]).Some?
    ensures var t := OnMessage(s, d, Meta([0, id, 0]).value + data).1;
      t.pending == s.pending - {id} && t.settled == s.settled + [Settlement(id, Returned(v), s.pending[id].onReturn)]
  {
    ClassifyAnswer(id, 0, data);
  }

  /** A message whose type reads as other than 0 but whose sequence id does not read uses up
      the next sequence id: the call the other side sends next, under that id, is refused as
      out of sequence. */
  lemma HalfHeadSkipsId(s: State, d: Context.Dicts, m: seq<Byte>, kind: nat, body: seq<Byte>)
    requires Classify(m).Unreadable? && Classify(m).head.Some? && Classify(m).head.value != 0
    ensures var t := OnMessage(s, d, m).1;
      t.lastReceived == s.lastReceived + 1 && t.closing &&
      ProcessCall(t, d, s.lastReceived + 1, kind, body) == (Ok(()), ProtocolError(t.(lastReceived := t.lastReceived + 1)))
  {
  }
}

module WebConnection {
  import opened Basics
  import opened Wire
  import opened Formats
  import opened Protocol
  import opened WebSession
  import Expand
  import Context
  import Emit
  import Inflate
  import Deflate

  /** The fields of `Connection`, handled in place. */
  class Connection {
    var ready: bool
    var lastSent: nat
    var lastReceived: nat
    var pending: map<nat, Pending<Expand.CallSignature>>
    var timers: map<nat, nat>
    var closing: bool
    var sent: seq<seq<Byte>>
    var settled: seq<Settlement>
    var requests: seq<Request>
    ghost var issued: set<nat>

    ghost function Snapshot(): State
      reads this
    {
      State(ready, lastSent, lastReceived, pending, timers, closing, sent, settled, requests, issued)
    }

    constructor ()
      ensures Snapshot() == Initial()
    {
      ready := false;
      lastSent, lastReceived := 0, 0;
      pending, timers := map[], map[];
      closing := false;
      sent, settled, requests := [], [], [];
      issued := {};
    }

    /** The invariant of the connection. */
    ghost predicate Valid()
      reads this
    {
      WebSession.Valid(Snapshot())
    }

    /** The `onopen` listener. */
    method OnOpen()
      requires Valid()
      modifies this
      ensures Snapshot() == Open(old(Snapshot())) && Valid()
    {
      ready := true;
    }

    /** `call`. */
    method Call(ctx: Context.Context, name: Context.Key, data: Value, single: Value -> Emit.Float32,
                callback: bool, timeout: Option<nat>) returns (r: Status)
      requires Valid()
      modifies this
      ensures (r, Snapshot()) == WebSession.Call(old(Snapshot()), ctx.Current(), name, data, single, callback, timeout)
      ensures Valid()
    {
      ghost var s0 := Snapshot();
      CallKeeps(s0, ctx.Current(), name, data, single, callback, timeout);
      var call := Lookup(ready, ctx.clientCalls, name);
      if call.Err? {
        return Err(call.error);
      }
      var bytes := Deflate.DeflateSpec(data, call.value.signature.args, single);
      if bytes.Err? {
        return Err(bytes.error);
      }
      if !Emit.ValidUint(call.value.signature.id) {
        return Err(TypeError);
      }
      lastSent := lastSent + 1;
      var meta := Meta([call.value.signature.id, lastSent]);
      if meta.None? {
        return Err(TypeError);
      }
      sent := sent + [meta.value + bytes.value];
      StoreCall(call.value.signature, callback, timeout);
      r := Ok(());
    }

    /** The call just sent enters the table, with its timer unless the delay is 0. */
    method StoreCall(call: Expand.CallSignature, callback: bool, timeout: Option<nat>)
      modifies this
      ensures Snapshot() == Store(old(Snapshot()), call, callback, timeout)
    {
      var delay := if timeout.Some? then timeout.value else DefaultTimeout;
      if delay != 0 {
        timers := timers[lastSent := delay];
      }
      pending := pending[lastSent := Pending(call, callback, callback)];
      issued := issued + {lastSent};
    }

    /** The timeout callback of call `id`. */
    method Timeout(id: nat)
      requires Valid() && id in timers
      modifies this
      ensures Snapshot() == WebSession.Timeout(old(Snapshot()), id) && Valid()
    {
      TimeoutKeeps(Snapshot(), id);
      timers := timers - {id};
      if id in pending {
        settled := settled + [Settlement(id, TimedOut, pending[id].onException)];
        pending := pending - {id};
      }
    }

    /** `_onclose`: walks the ids of the table in increasing order. */
    method OnClose()
      requires Valid()
      modifies this
      ensures Snapshot() == Close(old(Snapshot())) && Valid()
    {
      ghost var s0 := Snapshot();
      CloseKeeps(s0);
      forall k | k in pending
        ensures 1 <= k <= lastSent
      {
        assert k in s0.issued;
      }
      var ts, closed := CloseTable(pending, lastSent, timers);
      pending := map[];
      ready := false;
      timers := ts;
      settled := settled + closed;
    }

    /** `_processCall`. */
    method ProcessCall(ctx: Context.Context, id: nat, kind: nat, body: seq<Byte>) returns (r: Status)
      modifies this
      ensures (r, Snapshot()) == WebSession.ProcessCall(old(Snapshot()), ctx.Current(), id, kind, body)
    {
      lastReceived := lastReceived + 1;
      if id != lastReceived || Context.Id(kind) !in ctx.serverCalls {
        closing := true;
        return Ok(());
      }
      var call := ctx.serverCalls[Context.Id(kind)];
      var data := Inflate.InflateData(body, call.signature.args);
      if data.Err? {
        closing := true;
        return Ok(());
      }
      if call.callback.None? {
        return Err(PlainError("Callback not registered"));
      }
      requests := requests + [Request(kind, id, call, data.value, false)];
      r := Ok(());
    }

    /** `_processReturn`, keeping the call until its data decodes. */
    method ProcessReturn(id: nat, body: seq<Byte>)
      modifies this
      ensures Snapshot() == ProcessReturnKept(old(Snapshot()), id, body)
    {
      if id !in pending {
        closing := true;
        return;
      }
      var p := pending[id];
      var data := Inflate.InflateData(body, p.call.outArgs);
      if data.Err? {
        closing := true;
        return;
      }
      pending := pending - {id};
      timers := timers - {id};
      settled := settled + [Settlement(id, Returned(data.value), p.onReturn)];
    }

    /** `_processException`, keeping the call until the exception is accepted. */
    method ProcessException(ctx: Context.Context, id: nat, kind: nat, body: seq<Byte>)
      modifies this
      ensures Snapshot() == ProcessExceptionKept(old(Snapshot()), ctx.Current(), id, kind, body)
    {
      if id !in pending || Context.Id(kind) !in ctx.exceptions {
        closing := true;
        return;
      }
      var p := pending[id];
      var data := Inflate.InflateData(body, ctx.exceptions[Context.Id(kind)].args);
      if data.Err? {
        closing := true;
        return;
      }
      pending := pending - {id};
      timers := timers - {id};
      settled := settled + [Settlement(id, RemoteException(kind, data.value), p.onException)];
    }

    /** `_onmessage`. */
    method OnMessage(ctx: Context.Context, m: seq<Byte>) returns (r: Status)
      requires Valid()
      modifies this
      ensures (r, Snapshot()) == WebSession.OnMessage(old(Snapshot()), ctx.Current(), m)
      ensures Valid()
    {
      DispatchKeeps(Snapshot(), ctx.Current(), Classify(m));
      r := Ok(());
      match Classify(m)
      case Unreadable(head) =>
        if head.Some? && head.value != 0 {
          lastReceived := lastReceived + 1;
        }
        closing := true;
      case IsCall(kind, id, body) =>
        r := ProcessCall(ctx, id, kind, body);
      case IsException(id, kind, body) =>
        ProcessException(ctx, id, kind, body);
      case IsReturn(id, body, clean) =>
        if !clean {
          closing := true;
        }
        ProcessReturn(id, body);
    }

    /** `answer(obj)` for request `i`. */
    method Answer(ctx: Context.Context, i: nat, reply: Reply, single: Value -> Emit.Float32) returns (r: Result<bool, JsError>)
      requires Valid() && i < |requests|
      modifies this
      ensures var a := WebSession.Answer(old(Snapshot()), ctx.Current(), i, reply, single);
        (a.Err? ==> r == Err(a.error) && Snapshot() == old(Snapshot())) &&
        (a.Ok? ==> r == Ok(a.value.0) && Snapshot() == a.value.1)
      ensures Valid()
    {
      AnswerKeeps(Snapshot(), ctx.Current(), i, reply, single);
      var q := requests[i];
      if q.answered {
        return Err(PlainError("Answer already sent"));
      }
      if !ready {
        return Ok(false);
      }
      var message := AnswerMessage(ctx.Current(), q, reply, single);
      if message.Err? {
        return Err(message.error);
      }
      var (kind, bytes) := message.value;
      var meta := Meta([0, q.id, kind]);
      if meta.None? {
        return Err(TypeError);
      }
      sent := sent + [meta.value + bytes];
      requests := requests[i := q.(answered := true)];
      r := Ok(true);
    }
  }
}
