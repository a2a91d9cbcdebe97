/**
 * The connection of nodejs/Connection.js: one end of an asyncProtocol session over a TCP
 * socket. Every message travels as a frame (its length as a uint, then the message). Calls go
 * out under increasing sequence ids and wait in a table for their return, an exception, a
 * timeout or the close of the socket; calls from the other side must arrive with the next
 * sequence id and are handed to the application with an `answer` function.
 *
 * The connection's state is a value (`State`) and every handler a function on it; the class
 * `Connection` at the end holds the same state in fields and runs the handlers in place.
 */
module NodeSession {
  import opened Basics
  import opened Wire
  import opened Formats
  import opened Protocol
  import Emit
  import Inflate
  import Framer

  /** A call received from the other side and handed to the application: its type, its sequence
      id, its registered call type, the decoded arguments and whether it was answered. */
  datatype Request = Request(kind: nat, id: nat, call: CallType, data: Value, answered: bool)

  /** What the application passes to `answer`: an Exception (its type and data) or the data of
      the return. */
  datatype Reply = Raise(kind: int, data: Payload) | Give(data: Payload)

  /** The fields of a connection. `timers` maps the sequence id of each armed timeout to its
      delay; `ended` says `socket.end()` was called; `output` is every byte written to the
      socket; `settled` records each pending call that left the table with the callback it
      got; `issued` is every sequence id ever stored in the table. */
  datatype State = State(
    lastSent: nat,
    lastReceived: nat,
    pending: map<nat, Pending<CallType>>,
    timers: map<nat, nat>,
    closed: bool,
    ended: bool,
    output: seq<Byte>,
    settled: seq<Settlement>,
    requests: seq<Request>,
    issued: set<nat>)

  /** The timeout of a call when `sendCall` is given none, in milliseconds. */
  const DefaultTimeout: nat := 60000

  /** A new connection. */
  function Initial(): State
  {
    State(0, 0, map[], map[], false, false, [], [], [], {})
  }

  /** The calls this side may make: the client makes client calls, the server server calls. */
  function Outgoing(reg: Tables, isClient: bool): map<nat, CallType>
  {
    if isClient then reg.clientCalls else reg.serverCalls
  }

  /** The calls this side may receive. */
  function Incoming(reg: Tables, isClient: bool): map<nat, CallType>
  {
    if isClient then reg.serverCalls else reg.clientCalls
  }

  /** `_protocolError`: ends the socket; the connection goes on until it closes. */
  function ProtocolError(s: State): State
  {
    s.(ended := true)
  }

  /** Writes a message as three writes (its length, its head, its data), or throws TypeError
      when a uint of the head or the length is past 2^53 - 1. */
  function Write(s: State, head: seq<nat>, bytes: seq<Byte>): Result<State, JsError>
  {
    match Encoded(head, bytes)
    case Err(e) => Err(e)
    case Ok(frame) => Ok(s.(output := s.output + frame))
  }

  /** The frame `Write` appends to the output: the length, the head, the data. */
  function Encoded(head: seq<nat>, bytes: seq<Byte>): Result<seq<Byte>, JsError>
  {
    match Meta(head)
    case None => Err(TypeError)
    case Some(meta) =>
      if !Emit.ValidUint(|meta| + |bytes|) then Err(TypeError)
      else Ok(Framer.Framed(meta + bytes))
  }

  // ---------------------------------------------------------------------------------------------
  // Handlers

  /** `sendCall(type, data, onreturn, onexception, timeout)`, `data` already made a Data. A
      closed connection, an unknown type and data of the wrong format throw and change nothing;
      a type past 2^53 - 1 throws before the sequence id is taken, a sequence id or length past
      it after. */
  function SendCall(s: State, reg: Tables, isClient: bool, kind: nat, data: Payload,
                    onReturn: bool, onException: bool, timeout: Option<nat>): (Status, State)
  {
    match Refusal(s.closed, Outgoing(reg, isClient), kind, data)
    case Some(e) => (Err(e), s)
    case None =>
      var id := s.lastSent + 1;
      var s1 := s.(lastSent := id);
      match Write(s1, [kind, id], data.bytes)
      case Err(e) => (Err(e), s1)
      case Ok(s2) => (Ok(()), Store(s2, Outgoing(reg, isClient)[kind], onReturn, onException, timeout))
  }

  /** The checks `sendCall` makes before it takes a sequence id, in its order. */
  function Refusal(closed: bool, calls: map<nat, CallType>, kind: nat, data: Payload): (r: Option<JsError>)
    ensures r.None? <==> !closed && kind in calls && data.format == FormatString(calls[kind].args) && Emit.ValidUint(kind)
  {
    if closed then Some(PlainError("The connection has already been closed"))
    else if kind !in calls then Some(PlainError("Invalid call type"))
    else if data.format != FormatString(calls[kind].args) then Some(PlainError("Invalid data type"))
    else if !Emit.ValidUint(kind) then Some(TypeError)
    else None
  }

  /** The call just written, under the last sequence id: its timer, unless the delay is 0, and
      its entry in the table of pending calls. */
  function Store(s: State, call: CallType, onReturn: bool, onException: bool, timeout: Option<nat>): State
  {
    var id := s.lastSent;
    var delay := if timeout.Some? then timeout.value else DefaultTimeout;
    s.(timers := if delay != 0 then s.timers[id := delay] else s.timers,
       pending := s.pending[id := Pending(call, onReturn, onException)],
       issued := s.issued + {id})
  }

  /** The timeout callback of call `id`: if the call still waits, it leaves the table and its
      exception callback gets type 0. */
  function Timeout(s: State, id: nat): State
    requires id in s.timers
  {
    var s1 := s.(timers := s.timers - {id});
    if id in s.pending then
      s1.(pending := s.pending - {id}, settled := s.settled + [Settlement(id, TimedOut, s.pending[id].onException)])
    else s1
  }

  /** `_onclose`: the table empties, the connection is closed, and every call that waited, in
      increasing order, has its timer cleared and its exception callback run with type -1. */
  function Close(s: State): State
  {
    s.(pending := map[], timers := s.timers - s.pending.Keys, closed := true,
       settled := s.settled + Closing(s.pending, s.lastSent))
  }

  /** `_processCall`: the next sequence id is taken whatever happens; a call out of sequence, of
      an unknown type or whose arguments do not decode is a protocol error; otherwise it is
      handed to the application. */
  function ProcessCall(s: State, reg: Tables, isClient: bool, id: nat, kind: nat, body: seq<Byte>): State
  {
    var s1 := s.(lastReceived := s.lastReceived + 1);
    if id != s1.lastReceived || kind !in Incoming(reg, isClient) then ProtocolError(s1)
    else
      var call := Incoming(reg, isClient)[kind];
      match Inflate.InflateSpec(body, call.args)
      case Err(_) => ProtocolError(s1)
      case Ok(v) => s1.(requests := s1.requests + [Request(kind, id, call, v, false)])
  }

  /** A pending call leaving the table with its outcome: its timer is cleared and the callback,
      if any, is run. */
  function Resolve(s: State, id: nat, outcome: Outcome, notified: bool): State
    requires id in s.pending
  {
    s.(pending := s.pending - {id}, timers := s.timers - {id},
       settled := s.settled + [Settlement(id, outcome, notified)])
  }

  /** `_processReturn` as written: the call leaves the table before its data is decoded, so data
      that does not decode loses the call. */
  function ProcessReturn(s: State, id: nat, body: seq<Byte>): State
  {
    if id !in s.pending then ProtocolError(s)
    else
      var p := s.pending[id];
      var s1 := s.(pending := s.pending - {id});
      match Inflate.InflateSpec(body, p.call.results)
      case Err(_) => ProtocolError(s1)
      case Ok(v) => s1.(timers := s.timers - {id}, settled := s.settled + [Settlement(id, Returned(v), p.onReturn)])
  }

  /** `_processReturn` with the call kept in the table until its data decodes. */
  function ProcessReturnKept(s: State, id: nat, body: seq<Byte>): State
  {
    if id !in s.pending then ProtocolError(s)
    else
      match Inflate.InflateSpec(body, s.pending[id].call.results)
      case Err(_) => ProtocolError(s)
      case Ok(v) => Resolve(s, id, Returned(v), s.pending[id].onReturn)
  }

  /** `_processException` as written: the call leaves the table before the exception type is
      checked and its data decoded. */
  function ProcessException(s: State, reg: Tables, id: nat, kind: nat, body: seq<Byte>): State
  {
    if id !in s.pending then ProtocolError(s)
    else
      var p := s.pending[id];
      var s1 := s.(pending := s.pending - {id});
      if kind !in p.call.exceptions || kind !in reg.exceptions then ProtocolError(s1)
      else
        match Inflate.InflateSpec(body, reg.exceptions[kind])
        case Err(_) => ProtocolError(s1)
        case Ok(v) => s1.(timers := s.timers - {id}, settled := s.settled + [Settlement(id, RemoteException(kind, v), p.onException)])
  }

  /** `_processException` with the call kept in the table until the exception is accepted. */
  function ProcessExceptionKept(s: State, reg: Tables, id: nat, kind: nat, body: seq<Byte>): State
  {
    if id !in s.pending then ProtocolError(s)
    else if kind !in s.pending[id].call.exceptions || kind !in reg.exceptions then ProtocolError(s)
    else
      match Inflate.InflateSpec(body, reg.exceptions[kind])
      case Err(_) => ProtocolError(s)
      case Ok(v) => Resolve(s, id, RemoteException(kind, v), s.pending[id].onException)
  }

  /** `_processMessage` once the head of the message is read. A head that does not read is a
      protocol error; an answer whose exception type does not read is a protocol error and is
      then taken as a return. */
  function Dispatch(s: State, reg: Tables, isClient: bool, h: Header): State
  {
    match h
    case Unreadable(_) => ProtocolError(s)
    case IsCall(kind, id, body) => ProcessCall(s, reg, isClient, id, kind, body)
    case IsException(id, kind, body) => ProcessExceptionKept(s, reg, id, kind, body)
    case IsReturn(id, body, clean) => ProcessReturnKept(if clean then s else ProtocolError(s), id, body)
  }

  /** `_processMessage` on one message cut from the stream. */
  function ProcessMessage(s: State, reg: Tables, isClient: bool, m: seq<Byte>): State
  {
    Dispatch(s, reg, isClient, Classify(m))
  }

  /** The messages of the stream processed in order. */
  function Process(s: State, reg: Tables, isClient: bool, ms: seq<seq<Byte>>): State
    decreases |ms|
  {
    if ms == [] then s else Process(ProcessMessage(s, reg, isClient, ms[0]), reg, isClient, ms[1..])
  }

  /** What `answer(obj)` sends: the exception type and its data, or 0 and the return data. An
      exception not listed for the call and data of the wrong format throw. */
  function AnswerMessage(q: Request, reply: Reply): Result<(nat, seq<Byte>), JsError>
  {
    match reply
    case Raise(kind, data) =>
      if kind < 0 || kind as nat !in q.call.exceptions then Err(PlainError("Invalid exception"))
      else Ok((kind as nat, data.bytes))
    case Give(data) =>
      if data.format != FormatString(q.call.results) then Err(PlainError("Invalid data type"))
      else Ok((0, data.bytes))
  }

  /** `answer(obj)` for request `i`, as written: the flag that should stop a second answer is
      never set, so every call may be answered any number of times. Returns false, sending
      nothing, once the connection is closed. */
  function Answer(s: State, i: nat, reply: Reply): Result<(bool, State), JsError>
    requires i < |s.requests|
  {
    var q := s.requests[i];
    if q.answered then Err(PlainError("Answer already sent"))
    else if s.closed then Ok((false, s))
    else
      match AnswerMessage(q, reply)
      case Err(e) => Err(e)
      case Ok((kind, bytes)) =>
        match Write(s, [0, q.id, kind], bytes)
        case Err(e) => Err(e)
        case Ok(t) => Ok((true, t))
  }

  /** `answer(obj)` with the flag set once the answer is sent. */
  function AnswerOnce(s: State, i: nat, reply: Reply): Result<(bool, State), JsError>
    requires i < |s.requests|
  {
    var q := s.requests[i];
    if q.answered then Err(PlainError("Answer already sent"))
    else if s.closed then Ok((false, s))
    else
      match AnswerMessage(q, reply)
      case Err(e) => Err(e)
      case Ok((kind, bytes)) =>
        match Write(s, [0, q.id, kind], bytes)
        case Err(e) => Err(e)
        case Ok(t) => Ok((true, t.(requests := t.requests[i := q.(answered := true)])))
  }

  // ---------------------------------------------------------------------------------------------
  // The invariant

  /** What every handler keeps: the table of pending calls keeps its ledger, a timer belongs to
      a call that was stored, the calls handed to the application carry increasing sequence
      ids none past the last one received, and a closed connection has nothing pending. */
  predicate Valid(s: State)
  {
    Ledger(s.pending, s.issued, s.settled, s.lastSent) &&
    (forall id :: id in s.timers ==> id in s.issued) &&
    (forall i :: 0 <= i < |s.requests| ==> 1 <= s.requests[i].id <= s.lastReceived) &&
    (forall i, j :: 0 <= i < j < |s.requests| ==> s.requests[i].id < s.requests[j].id) &&
    (s.closed ==> s.pending == map[])
  }

  /** No call stored is lost: each is pending or settled. */
  predicate Complete(s: State)
  {
    Accounted(s.pending, s.issued, s.settled)
  }

  lemma InitialValid()
    ensures Valid(Initial()) && Complete(Initial())
    ensures Initial().pending == map[] && Initial().output == [] && !Initial().closed
  {
  }

  /** `sendCall` keeps the invariant and loses no call. */
  lemma SendCallKeeps(s: State, reg: Tables, isClient: bool, kind: nat, data: Payload,
                      onReturn: bool, onException: bool, timeout: Option<nat>)
    requires Valid(s)
    ensures var t := SendCall(s, reg, isClient, kind, data, onReturn, onException, timeout).1;
      Valid(t) && (Complete(s) ==> Complete(t))
  {
    var f := Encoded([kind, s.lastSent + 1], data.bytes);
    if Refusal(s.closed, Outgoing(reg, isClient), kind, data).Some? {
      SendCallStopped(s, reg, isClient, kind, data, onReturn, onException, timeout);
    } else if f.Err? {
      SendCallUncoded(s, reg, isClient, kind, data, onReturn, onException, timeout);
      TakeIdKeeps(s);
    } else {
      SendCallStored(s, reg, isClient, kind, data, onReturn, onException, timeout);
      StoreKeeps(s, s.output + f.value, Outgoing(reg, isClient)[kind], onReturn, onException, timeout);
    }
  }

  /** `sendCall` refused by a check before it takes a sequence id. */
  lemma SendCallStopped(s: State, reg: Tables, isClient: bool, kind: nat, data: Payload,
                        onReturn: bool, onException: bool, timeout: Option<nat>)
    requires Refusal(s.closed, Outgoing(reg, isClient), kind, data).Some?
    ensures SendCall(s, reg, isClient, kind, data, onReturn, onException, timeout) ==
      (Err(Refusal(s.closed, Outgoing(reg, isClient), kind, data).value), s)
  {
  }

  /** `sendCall` refused once it has taken a sequence id, because the message cannot be coded. */
  lemma SendCallUncoded(s: State, reg: Tables, isClient: bool, kind: nat, data: Payload,
                        onReturn: bool, onException: bool, timeout: Option<nat>)
    requires Refusal(s.closed, Outgoing(reg, isClient), kind, data).None?
    requires Encoded([kind, s.lastSent + 1], data.bytes).Err?
    ensures SendCall(s, reg, isClient, kind, data, onReturn, onException, timeout) ==
      (Err(Encoded([kind, s.lastSent + 1], data.bytes).error), s.(lastSent := s.lastSent + 1))
  {
  }

  /** `sendCall` writing the call and storing it. */
  lemma SendCallStored(s: State, reg: Tables, isClient: bool, kind: nat, data: Payload,
                       onReturn: bool, onException: bool, timeout: Option<nat>)
    requires Refusal(s.closed, Outgoing(reg, isClient), kind, data).None?
    requires Encoded([kind, s.lastSent + 1], data.bytes).Ok?
    ensures SendCall(s, reg, isClient, kind, data, onReturn, onException, timeout) ==
      (Ok(()), Store(s.(lastSent := s.lastSent + 1, output := s.output + Encoded([kind, s.lastSent + 1], data.bytes).value),
                     Outgoing(reg, isClient)[kind], onReturn, onException, timeout))
  {
  }

  /** Taking a sequence id keeps the invariant and loses no call. */
  lemma TakeIdKeeps(s: State)
    requires Valid(s)
    ensures Valid(s.(lastSent := s.lastSent + 1))
    ensures Complete(s) ==> Complete(s.(lastSent := s.lastSent + 1))
  {
  }

  /** Storing a call under a fresh sequence id keeps the invariant and loses no call. */
  lemma StoreKeeps(s: State, output: seq<Byte>, call: CallType, onReturn: bool, onException: bool, timeout: Option<nat>)
    requires Valid(s) && !s.closed
    ensures var t := Store(s.(lastSent := s.lastSent + 1, output := output), call, onReturn, onException, timeout);
      Valid(t) && (Complete(s) ==> Complete(t))
  {
    Issue(s.pending, s.issued, s.settled, s.lastSent, Pending(call, onReturn, onException));
  }

  /** The timeout keeps the invariant and loses no call. */
  lemma TimeoutKeeps(s: State, id: nat)
    requires Valid(s) && id in s.timers
    ensures Valid(Timeout(s, id)) && (Complete(s) ==> Complete(Timeout(s, id)))
  {
    if id in s.pending {
      Settle(s.pending, s.issued, s.settled, s.lastSent, Settlement(id, TimedOut, s.pending[id].onException));
    }
  }

  /** Closing keeps the invariant; every call that waited is settled, once; and when none was
      lost before, every call ever sent has been settled. */
  lemma CloseKeeps(s: State)
    requires Valid(s)
    ensures Valid(Close(s)) && (Complete(s) ==> Complete(Close(s)))
    ensures SettledSeqs(Close(s).settled[|s.settled| ..]) == s.pending.Keys
    ensures Complete(s) ==> SettledSeqs(Close(s).settled) == s.issued
  {
    CloseAll(s.pending, s.issued, s.settled, s.lastSent);
    ClosingSettlesAll(s.pending, s.lastSent);
    var t := Close(s);
    assert t.settled[|s.settled| ..] == Closing(s.pending, s.lastSent);
    if Complete(s) {
      forall x | x in SettledSeqs(t.settled)
        ensures x in s.issued
      {
        var i :| 0 <= i < |t.settled| && t.settled[i].id == x;
      }
    }
  }

  /** Resolving a pending call keeps the invariant and loses no call. */
  lemma ResolveKeeps(s: State, id: nat, outcome: Outcome, notified: bool)
    requires Valid(s) && id in s.pending
    ensures Valid(Resolve(s, id, outcome, notified))
    ensures Complete(s) ==> Complete(Resolve(s, id, outcome, notified))
  {
    Settle(s.pending, s.issued, s.settled, s.lastSent, Settlement(id, outcome, notified));
  }

  /** A received call keeps the invariant: a call handed to the application carries the
      sequence id just taken, above every earlier one. */
  lemma ProcessCallKeeps(s: State, reg: Tables, isClient: bool, id: nat, kind: nat, body: seq<Byte>)
    requires Valid(s)
    ensures var t := ProcessCall(s, reg, isClient, id, kind, body);
      Valid(t) && (Complete(s) ==> Complete(t)) && t.lastReceived == s.lastReceived + 1
  {
    var s1 := s.(lastReceived := s.lastReceived + 1);
    var t := ProcessCall(s, reg, isClient, id, kind, body);
    ReceiveIdKeeps(s);
    ProcessCallCases(s, reg, isClient, id, kind, body);
    if t != ProtocolError(s1) {
      RequestKeeps(s1, t.requests[|s.requests|]);
    }
  }

  /** `_processCall` either reports a protocol error or hands over one request with the new
      sequence id. */
  lemma ProcessCallCases(s: State, reg: Tables, isClient: bool, id: nat, kind: nat, body: seq<Byte>)
    ensures var s1 := s.(lastReceived := s.lastReceived + 1);
      var t := ProcessCall(s, reg, isClient, id, kind, body);
      t != ProtocolError(s1) ==>
        |t.requests| == |s.requests| + 1 && t.requests[|s.requests|].id == s1.lastReceived &&
        t == s1.(requests := s1.requests + [t.requests[|s.requests|]])
  {
  }

  /** Taking the next sequence id received keeps the invariant, and every request handed over
      so far has an id below it. */
  lemma ReceiveIdKeeps(s: State)
    requires Valid(s)
    ensures var s1 := s.(lastReceived := s.lastReceived + 1);
      Valid(s1) && Valid(ProtocolError(s1)) && (Complete(s) ==> Complete(s1) && Complete(ProtocolError(s1))) &&
      forall i :: 0 <= i < |s1.requests| ==> s1.requests[i].id < s1.lastReceived
  {
  }

  /** Handing the application a call with the last sequence id received keeps the invariant. */
  lemma RequestKeeps(s: State, q: Request)
    requires Valid(s) && q.id == s.lastReceived && s.lastReceived >= 1
    requires forall i :: 0 <= i < |s.requests| ==> s.requests[i].id < s.lastReceived
    ensures Valid(s.(requests := s.requests + [q]))
  {
  }

  /** The corrected return handler keeps the invariant and loses no call. */
  lemma ProcessReturnKeptKeeps(s: State, id: nat, body: seq<Byte>)
    requires Valid(s)
    ensures var t := ProcessReturnKept(s, id, body); Valid(t) && (Complete(s) ==> Complete(t))
  {
    if id in s.pending {
      var r := Inflate.InflateSpec(body, s.pending[id].call.results);
      if r.Ok? {
        ResolveKeeps(s, id, Returned(r.value), s.pending[id].onReturn);
      }
    }
  }

  /** The corrected exception handler keeps the invariant and loses no call. */
  lemma ProcessExceptionKeptKeeps(s: State, reg: Tables, id: nat, kind: nat, body: seq<Byte>)
    requires Valid(s)
    ensures var t := ProcessExceptionKept(s, reg, id, kind, body); Valid(t) && (Complete(s) ==> Complete(t))
  {
    if id in s.pending && kind in s.pending[id].call.exceptions && kind in reg.exceptions {
      var r := Inflate.InflateSpec(body, reg.exceptions[kind]);
      if r.Ok? {
        ResolveKeeps(s, id, RemoteException(kind, r.value), s.pending[id].onException);
      }
    }
  }

  /** Every message keeps the invariant and loses no call. */
  lemma DispatchKeeps(s: State, reg: Tables, isClient: bool, h: Header)
    requires Valid(s)
    ensures var t := Dispatch(s, reg, isClient, h); Valid(t) && (Complete(s) ==> Complete(t))
  {
    match h
    case Unreadable(_) =>
    case IsCall(kind, id, body) => ProcessCallKeeps(s, reg, isClient, id, kind, body);
    case IsException(id, kind, body) => ProcessExceptionKeptKeeps(s, reg, id, kind, body);
    case IsReturn(id, body, clean) => ProcessReturnKeptKeeps(if clean then s else ProtocolError(s), id, body);
  }

  /** Processing a stream of messages keeps the invariant and loses no call. */
  lemma {:induction false} ProcessKeeps(s: State, reg: Tables, isClient: bool, ms: seq<seq<Byte>>)
    requires Valid(s)
    ensures Valid(Process(s, reg, isClient, ms))
    ensures Complete(s) ==> Complete(Process(s, reg, isClient, ms))
    decreases |ms|
  {
    if ms != [] {
      DispatchKeeps(s, reg, isClient, Classify(ms[0]));
      ProcessKeeps(ProcessMessage(s, reg, isClient, ms[0]), reg, isClient, ms[1..]);
    }
  }

  /** The return handler as written keeps the invariant but loses the call whose return data
      does not decode: it is neither pending nor settled, so neither the close nor its timer
      will run its callback. */
  lemma ProcessReturnLoses(s: State, id: nat, body: seq<Byte>)
    requires Valid(s) && id in s.pending
    requires Inflate.InflateSpec(body, s.pending[id].call.results).Err?
    ensures Valid(ProcessReturn(s, id, body))
    ensures !Complete(ProcessReturn(s, id, body))
    ensures ProcessReturn(s, id, body).ended && id in ProcessReturn(s, id, body).timers <==> id in s.timers
  {
    DropLoses(s.pending, s.issued, s.settled, s.lastSent, id);
  }

  /** The corrected return handler keeps a call whose return data does not decode, so the close
      settles it later. */
  lemma ProcessReturnKeeps(s: State, id: nat, body: seq<Byte>)
    requires Valid(s) && id in s.pending
    requires Inflate.InflateSpec(body, s.pending[id].call.results).Err?
    ensures var t := ProcessReturnKept(s, id, body);
      Valid(t) && (Complete(s) ==> Complete(t)) && id in t.pending && t.ended
  {
  }

  /** The exception handler as written loses the call the same way, here also when the
      exception type is not listed for the call or not registered. */
  lemma ProcessExceptionLoses(s: State, reg: Tables, id: nat, kind: nat, body: seq<Byte>)
    requires Valid(s) && id in s.pending
    requires kind !in s.pending[id].call.exceptions || kind !in reg.exceptions ||
             Inflate.InflateSpec(body, reg.exceptions[kind]).Err?
    ensures Valid(ProcessException(s, reg, id, kind, body))
    ensures !Complete(ProcessException(s, reg, id, kind, body))
  {
    DropLoses(s.pending, s.issued, s.settled, s.lastSent, id);
  }

  /** The corrected exception handler keeps such a call. */
  lemma ProcessExceptionKeeps(s: State, reg: Tables, id: nat, kind: nat, body: seq<Byte>)
    requires Valid(s) && id in s.pending
    requires kind !in s.pending[id].call.exceptions || kind !in reg.exceptions ||
             Inflate.InflateSpec(body, reg.exceptions[kind]).Err?
    ensures var t := ProcessExceptionKept(s, reg, id, kind, body);
      Valid(t) && (Complete(s) ==> Complete(t)) && id in t.pending && t.ended
  {
  }

  /** Answering keeps the invariant and loses no call, as written and corrected. */
  lemma AnswerKeeps(s: State, i: nat, reply: Reply)
    requires Valid(s) && i < |s.requests|
    ensures Answer(s, i, reply).Ok? ==> Valid(Answer(s, i, reply).value.1)
    ensures Answer(s, i, reply).Ok? && Complete(s) ==> Complete(Answer(s, i, reply).value.1)
  {
    var r := Answer(s, i, reply);
    if r.Ok? {
      assert r.value.1 == s.(output := r.value.1.output);
      OutputKeeps(s, r.value.1.output);
    }
  }

  /** The corrected `answer` keeps the invariant and loses no call. */
  lemma AnswerOnceKeeps(s: State, i: nat, reply: Reply)
    requires Valid(s) && i < |s.requests|
    ensures AnswerOnce(s, i, reply).Ok? ==> Valid(AnswerOnce(s, i, reply).value.1)
    ensures AnswerOnce(s, i, reply).Ok? && Complete(s) ==> Complete(AnswerOnce(s, i, reply).value.1)
  {
    var r := AnswerOnce(s, i, reply);
    if r.Ok? && r.value.0 {
      var t := r.value.1;
      var q := s.requests[i];
      assert t == s.(output := t.output, requests := s.requests[i := q.(answered := true)]);
      OutputKeeps(s, t.output);
      MarkKeeps(s.(output := t.output), i);
    }
  }

  /** Writing to the socket keeps the invariant and loses no call. */
  lemma OutputKeeps(s: State, output: seq<Byte>)
    requires Valid(s)
    ensures Valid(s.(output := output)) && (Complete(s) ==> Complete(s.(output := output)))
  {
  }

  /** Marking a request answered keeps the invariant and loses no call. */
  lemma MarkKeeps(s: State, i: nat)
    requires Valid(s) && i < |s.requests|
    ensures var t := s.(requests := s.requests[i := s.requests[i].(answered := true)]);
      Valid(t) && (Complete(s) ==> Complete(t))
  {
    var t := s.(requests := s.requests[i := s.requests[i].(answered := true)]);
    assert forall k :: 0 <= k < |t.requests| ==> t.requests[k].id == s.requests[k].id;
  }

  // ---------------------------------------------------------------------------------------------
  // What goes on the wire

  /** One frame written after `out` is cut back as its message alone. */
  lemma OneFrame(out: seq<Byte>, m: seq<Byte>)
    requires Emit.ValidUint(|m|)
    ensures Framer.Frame((out + Framer.Framed(m))[|out| ..]) == Framer.Frames([m], [], false)
  {
    assert (out + Framer.Framed(m))[|out| ..] == Framer.Framed(m) + [];
    Framer.FrameFramed(m, []);
  }

  /** A call message written after `out` is one frame that reads back as that call. */
  lemma CallOnWire(out: seq<Byte>, out': seq<Byte>, kind: nat, id: nat, bytes: seq<Byte>)
    requires Emit.ValidUint(kind) && Emit.ValidUint(id) && kind != 0 && Meta([kind, id]).Some?
    requires Emit.ValidUint(|Meta([kind, id]).value + bytes|)
    requires out' == out + Framer.Framed(Meta([kind, id]).value + bytes)
    ensures exists m :: Framer.Frame(out'[|out| ..]) == Framer.Frames([m], [], false) && Classify(m) == IsCall(kind, id, bytes)
  {
    var m := Meta([kind, id]).value + bytes;
    OneFrame(out, m);
    ClassifyCall(kind, id, bytes);
  }

  /** An answer message written after `out` is one frame that reads back as that answer. */
  lemma AnswerOnWire(out: seq<Byte>, out': seq<Byte>, id: nat, kind: nat, bytes: seq<Byte>)
    requires Emit.ValidUint(kind) && Emit.ValidUint(id) && Meta([0, id, kind]).Some?
    requires Emit.ValidUint(|Meta([0, id, kind]).value + bytes|)
    requires out' == out + Framer.Framed(Meta([0, id, kind]).value + bytes)
    ensures exists m :: Framer.Frame(out'[|out| ..]) == Framer.Frames([m], [], false) &&
                        Classify(m) == if kind == 0 then IsReturn(id, bytes, true) else IsException(id, kind, bytes)
  {
    var m := Meta([0, id, kind]).value + bytes;
    OneFrame(out, m);
    ClassifyAnswer(id, kind, bytes);
  }

  /** What a `sendCall` that returns writes and stores. */
  lemma SendCallSent(s: State, reg: Tables, isClient: bool, kind: nat, data: Payload,
                     onReturn: bool, onException: bool, timeout: Option<nat>)
    requires SendCall(s, reg, isClient, kind, data, onReturn, onException, timeout).0.Ok?
    ensures Emit.ValidUint(kind) && Emit.ValidUint(s.lastSent + 1) && kind in Outgoing(reg, isClient)
    ensures Meta([kind, s.lastSent + 1]).Some?
    ensures var m := Meta([kind, s.lastSent + 1]).value + data.bytes;
      var t := SendCall(s, reg, isClient, kind, data, onReturn, onException, timeout).1;
      Emit.ValidUint(|m|) && t.output == s.output + Framer.Framed(m) &&
      t.lastSent == s.lastSent + 1 && t.pending == s.pending[t.lastSent := Pending(Outgoing(reg, isClient)[kind], onReturn, onException)]
  {
    assert Emit.ValidUint([kind, s.lastSent + 1][1]);
  }

  /** A call `sendCall` accepts goes out as one frame whose message reads back, on the other
      side, as a call of that type with the new sequence id and the data's bytes. */
  lemma SendCallWire(s: State, reg: Tables, isClient: bool, kind: nat, data: Payload,
                     onReturn: bool, onException: bool, timeout: Option<nat>)
    requires Positive(reg)
    requires SendCall(s, reg, isClient, kind, data, onReturn, onException, timeout).0.Ok?
    ensures var t := SendCall(s, reg, isClient, kind, data, onReturn, onException, timeout).1;
      t.lastSent == s.lastSent + 1 && t.lastSent in t.pending &&
      exists m :: Framer.Frame(t.output[|s.output| ..]) == Framer.Frames([m], [], false) &&
        Classify(m) == IsCall(kind, t.lastSent, data.bytes)
  {
    SendCallSent(s, reg, isClient, kind, data, onReturn, onException, timeout);
    var t := SendCall(s, reg, isClient, kind, data, onReturn, onException, timeout).1;
    CallOnWire(s.output, t.output, kind, s.lastSent + 1, data.bytes);
  }

  /** A call `sendCall` refuses leaves the connection as it was, but for a sequence id taken
      when the type was fine and the sequence id or the length was not. */
  lemma SendCallRefused(s: State, reg: Tables, isClient: bool, kind: nat, data: Payload,
                        onReturn: bool, onException: bool, timeout: Option<nat>)
    requires SendCall(s, reg, isClient, kind, data, onReturn, onException, timeout).0.Err?
    ensures var t := SendCall(s, reg, isClient, kind, data, onReturn, onException, timeout).1;
      t == s || t == s.(lastSent := s.lastSent + 1)
    ensures s.closed || kind !in Outgoing(reg, isClient) ==>
      SendCall(s, reg, isClient, kind, data, onReturn, onException, timeout).1 == s
  {
  }

  /** What an answer that is sent writes. */
  lemma AnswerSent(s: State, i: nat, reply: Reply)
    requires i < |s.requests| && Answer(s, i, reply).Ok? && Answer(s, i, reply).value.0
    ensures AnswerMessage(s.requests[i], reply).Ok?
    ensures var (kind, bytes) := AnswerMessage(s.requests[i], reply).value;
      Emit.ValidUint(s.requests[i].id) && Emit.ValidUint(kind) && Meta([0, s.requests[i].id, kind]).Some? &&
      var m := Meta([0, s.requests[i].id, kind]).value + bytes;
      Emit.ValidUint(|m|) && Answer(s, i, reply).value.1 == s.(output := s.output + Framer.Framed(m))
  {
    var q := s.requests[i];
    var (kind, bytes) := AnswerMessage(q, reply).value;
    assert Emit.ValidUint([0, q.id, kind][1]) && Emit.ValidUint([0, q.id, kind][2]);
  }

  /** An answer goes out as one frame whose message reads back as the return or the exception
      for the sequence id of the call. */
  lemma AnswerWire(s: State, i: nat, reply: Reply)
    requires i < |s.requests| && Answer(s, i, reply).Ok? && Answer(s, i, reply).value.0
    ensures var t := Answer(s, i, reply).value.1; var id := s.requests[i].id;
      exists m :: Framer.Frame(t.output[|s.output| ..]) == Framer.Frames([m], [], false) &&
        Classify(m) == match reply
          case Raise(kind, data) => if kind == 0 then IsReturn(id, data.bytes, true) else IsException(id, kind as nat, data.bytes)
          case Give(data) => IsReturn(id, data.bytes, true)
  {
    AnswerSent(s, i, reply);
    var q := s.requests[i];
    var (kind, bytes) := AnswerMessage(q, reply).value;
    var t := Answer(s, i, reply).value.1;
    AnswerOnWire(s.output, t.output, q.id, kind, bytes);
  }

  /** As written, a call can be answered twice: after an answer that was sent, the same answer
      is accepted again and goes out a second time. */
  lemma AnswerTwice(s: State, i: nat, reply: Reply)
    requires i < |s.requests| && Answer(s, i, reply).Ok? && Answer(s, i, reply).value.0
    ensures var t := Answer(s, i, reply).value.1;
      i < |t.requests| && Answer(t, i, reply).Ok? && Answer(t, i, reply).value.0 &&
      |Answer(t, i, reply).value.1.output| > |t.output| > |s.output|
  {
    var q := s.requests[i];
    var (kind, bytes) := AnswerMessage(q, reply).value;
    var t := Answer(s, i, reply).value.1;
    assert t.requests == s.requests && !t.closed;
    assert Write(t, [0, q.id, kind], bytes).Ok?;
  }

  /** Corrected, a call is answered at most once: after an answer was sent, every further
      answer throws. */
  lemma AnswerOnceOnly(s: State, i: nat, reply: Reply, again: Reply)
    requires i < |s.requests| && AnswerOnce(s, i, reply).Ok? && AnswerOnce(s, i, reply).value.0
    ensures var t := AnswerOnce(s, i, reply).value.1;
      i < |t.requests| && t.requests[i].answered && AnswerOnce(t, i, again) == Err(PlainError("Answer already sent"))
  {
  }

  /** A call from the other side that arrives in sequence, of a type this side receives and with
      arguments that decode, is handed to the application with those arguments. */
  lemma CallDelivered(s: State, reg: Tables, isClient: bool, kind: nat, data: seq<Byte>, v: Value)
    requires Emit.ValidUint(kind) && kind != 0 && Emit.ValidUint(s.lastReceived + 1)
    requires kind in Incoming(reg, isClient) && Inflate.InflateSpec(data, Incoming(reg, isClient)[kind].args) == Ok(v)
    ensures Meta([kind, s.lastReceived + 1]).Some?
    ensures var t := ProcessMessage(s, reg, isClient, Meta([kind, s.lastReceived + 1]).value + data);
      t == s.(lastReceived := s.lastReceived + 1,
              requests := s.requests + [Request(kind, s.lastReceived + 1, Incoming(reg, isClient)[kind], v, false)])
  {
    ClassifyCall(kind, s.lastReceived + 1, data);
    CallDispatched(s, reg, isClient, kind, data, v);
  }

  /** A call in sequence, of a known type, whose arguments decode, is handed to the application. */
  lemma CallDispatched(s: State, reg: Tables, isClient: bool, kind: nat, data: seq<Byte>, v: Value)
    requires kind in Incoming(reg, isClient) && Inflate.InflateSpec(data, Incoming(reg, isClient)[kind].args) == Ok(v)
    ensures Dispatch(s, reg, isClient, IsCall(kind, s.lastReceived + 1, data)) ==
      s.(lastReceived := s.lastReceived + 1,
         requests := s.requests + [Request(kind, s.lastReceived + 1, Incoming(reg, isClient)[kind], v, false)])
  {
  }

  /** A return for a pending call whose data decodes settles the call with that data. */
  lemma ReturnDelivered(s: State, reg: Tables, isClient: bool, id: nat, data: seq<Byte>, v: Value)
    requires Emit.ValidUint(id) && id in s.pending
    requires Inflate.InflateSpec(data, s.pending[id].call.results) == Ok(v)
    ensures Meta([0, id, 0]).Some?
    ensures var t := ProcessMessage(s, reg, isClient, Meta([0, id, 0]).value + data);
      t.pending == s.pending - {id} && t.settled == s.settled + [Settlement(id, Returned(v), s.pending[id].onReturn)]
  {
    ClassifyAnswer(id, 0, data);
  }

  // ---------------------------------------------------------------------------------------------
  // Reading the socket

  /** `_onreadable` corrected: the chunk joins the cache, every whole frame is cut and its
      message processed in order, and a corrupt length ends the socket. The cache keeps what
      is left. */
  function Receive(s: State, reg: Tables, isClient: bool, cache: seq<Byte>, chunk: seq<Byte>): (State, seq<Byte>)
  {
    var f := Framer.Frame(cache + chunk);
    var t := Process(s, reg, isClient, f.messages);
    (if f.corrupt then ProtocolError(t) else t, f.rest)
  }

  /** One message cut from the front of the cache: the framing of the rest of the cache ends
      the same way, and processing the framing processes that message first. */
  lemma FrameStep(reg: Tables, isClient: bool, cache: seq<Byte>)
    requires Framer.CutHead(cache).Message?
    ensures var c := Framer.CutHead(cache); var f, g := Framer.Frame(cache), Framer.Frame(c.tail);
      f.rest == g.rest && f.corrupt == g.corrupt &&
      forall t :: Process(t, reg, isClient, f.messages) == Process(ProcessMessage(t, reg, isClient, c.body), reg, isClient, g.messages)
  {
    var c := Framer.CutHead(cache);
    var f, g := Framer.Frame(cache), Framer.Frame(c.tail);
    assert f.messages[1..] == g.messages;
  }

  /** Receiving keeps the invariant and loses no call. */
  lemma ReceiveKeeps(s: State, reg: Tables, isClient: bool, cache: seq<Byte>, chunk: seq<Byte>)
    requires Valid(s)
    ensures Valid(Receive(s, reg, isClient, cache, chunk).0)
    ensures Complete(s) ==> Complete(Receive(s, reg, isClient, cache, chunk).0)
  {
    ProcessKeeps(s, reg, isClient, Framer.Frame(cache + chunk).messages);
  }

  /** Processing a stream in two parts is processing it whole. */
  lemma {:induction false} ProcessAppend(s: State, reg: Tables, isClient: bool, a: seq<seq<Byte>>, b: seq<seq<Byte>>)
    ensures Process(s, reg, isClient, a + b) == Process(Process(s, reg, isClient, a), reg, isClient, b)
    decreases |a|
  {
    if a == [] {
      assert a + b == b;
    } else {
      assert (a + b)[0] == a[0] && (a + b)[1..] == a[1..] + b;
      ProcessAppend(ProcessMessage(s, reg, isClient, a[0]), reg, isClient, a[1..], b);
    }
  }

  /** Whether the socket was ended changes nothing else a message does. */
  lemma DispatchEnded(s: State, reg: Tables, isClient: bool, h: Header)
    ensures Dispatch(ProtocolError(s), reg, isClient, h) == ProtocolError(Dispatch(s, reg, isClient, h))
  {
    match h
    case Unreadable(_) =>
    case IsCall(kind, id, body) =>
    case IsException(id, kind, body) =>
    case IsReturn(id, body, clean) =>
  }

  lemma {:induction false} ProcessEnded(s: State, reg: Tables, isClient: bool, ms: seq<seq<Byte>>)
    ensures Process(ProtocolError(s), reg, isClient, ms) == ProtocolError(Process(s, reg, isClient, ms))
    decreases |ms|
  {
    if ms != [] {
      DispatchEnded(s, reg, isClient, Classify(ms[0]));
      ProcessEnded(ProcessMessage(s, reg, isClient, ms[0]), reg, isClient, ms[1..]);
    }
  }

  /** How the bytes arrive does not matter: two chunks received one after the other have the
      effect of the two received at once. */
  lemma ReceiveChunks(s: State, reg: Tables, isClient: bool, cache: seq<Byte>, a: seq<Byte>, b: seq<Byte>)
    ensures var (s1, c1) := Receive(s, reg, isClient, cache, a);
      Receive(s1, reg, isClient, c1, b) == Receive(s, reg, isClient, cache, a + b)
  {
    var f := Framer.Frame(cache + a);
    var g := Framer.Frame(f.rest + b);
    assert cache + (a + b) == (cache + a) + b;
    Framer.FrameAppend(cache + a, b);
    ProcessAppend(s, reg, isClient, f.messages, g.messages);
    var t := Process(s, reg, isClient, f.messages);
    if f.corrupt {
      Framer.CorruptHead(f.rest[1..] + b);
      assert [255] + (f.rest[1..] + b) == f.rest + b;
      ProcessEnded(t, reg, isClient, g.messages);
    }
  }

  /** A stream of framed messages received from an empty cache has each message processed in
      order and leaves nothing behind. */
  lemma ReceiveStream(s: State, reg: Tables, isClient: bool, bodies: seq<seq<Byte>>)
    requires forall i :: 0 <= i < |bodies| ==> Emit.ValidUint(|bodies[i]|)
    ensures Receive(s, reg, isClient, [], Framer.Stream(bodies)) == (Process(s, reg, isClient, bodies), [])
  {
    Framer.FrameStream(bodies);
    assert [] + Framer.Stream(bodies) == Framer.Stream(bodies);
  }
}

/** The `Connection` object of nodejs/Connection.js: the state of `NodeSession` held in fields,
    each handler run in place and proved to do what the function of the same name does. */
module NodeConnection {
  import opened Basics
  import opened Wire
  import opened Formats
  import opened Protocol
  import opened NodeSession
  import Emit
  import Inflate
  import Framer

  /** The fields of `Connection`, handled in place. */
  class Connection {
    const isClient: bool
    var cache: seq<Byte>
    var lastSent: nat
    var lastReceived: nat
    var pending: map<nat, Pending<CallType>>
    var timers: map<nat, nat>
    var closed: bool
    var ended: bool
    var output: seq<Byte>
    var settled: seq<Settlement>
    var requests: seq<Request>
    ghost var issued: set<nat>

    ghost function Snapshot(): State
      reads this
    {
      State(lastSent, lastReceived, pending, timers, closed, ended, output, settled, requests, issued)
    }

    constructor (isClient: bool)
      ensures this.isClient == isClient && cache == [] && Snapshot() == Initial()
    {
      this.isClient := isClient;
      cache := [];
      lastSent, lastReceived := 0, 0;
      pending, timers := map[], map[];
      closed, ended := false, false;
      output, settled, requests := [], [], [];
      issued := {};
    }

    /** The invariant of the connection. */
    ghost predicate Valid()
      reads this
    {
      NodeSession.Valid(Snapshot())
    }

    /** `sendCall`. */
    method SendCall(reg: Registry, kind: nat, data: Payload, onReturn: bool, onException: bool, timeout: Option<nat>) returns (r: Status)
      requires Valid()
      modifies this
      ensures (r, Snapshot()) == NodeSession.SendCall(old(Snapshot()), reg.Current(), isClient, kind, data, onReturn, onException, timeout)
      ensures cache == old(cache) && Valid()
    {
      ghost var s0 := Snapshot();
      var calls := if isClient then reg.clientCalls else reg.serverCalls;
      var refused := Refusal(closed, calls, kind, data);
      if refused.Some? {
        SendCallStopped(s0, reg.Current(), isClient, kind, data, onReturn, onException, timeout);
        return Err(refused.value);
      }
      lastSent := lastSent + 1;
      var frame := Encoded([kind, lastSent], data.bytes);
      if frame.Err? {
        SendCallUncoded(s0, reg.Current(), isClient, kind, data, onReturn, onException, timeout);
        TakeIdKeeps(s0);
        return Err(frame.error);
      }
      output := output + frame.value;
      StoreCall(calls[kind], onReturn, onException, timeout);
      SendCallStored(s0, reg.Current(), isClient, kind, data, onReturn, onException, timeout);
      StoreKeeps(s0, s0.output + frame.value, calls[kind], onReturn, onException, timeout);
      r := Ok(());
    }

    /** The call just written enters the table, with its timer unless the delay is 0. */
    method StoreCall(call: CallType, onReturn: bool, onException: bool, timeout: Option<nat>)
      modifies this
      ensures Snapshot() == Store(old(Snapshot()), call, onReturn, onException, timeout) && cache == old(cache)
    {
      var delay := if timeout.Some? then timeout.value else DefaultTimeout;
      if delay != 0 {
        timers := timers[lastSent := delay];
      }
      pending := pending[lastSent := Pending(call, onReturn, onException)];
      issued := issued + {lastSent};
    }

    /** The timeout callback of call `id`. */
    method Timeout(id: nat)
      requires Valid() && id in timers
      modifies this
      ensures Snapshot() == NodeSession.Timeout(old(Snapshot()), id)
      ensures cache == old(cache) && Valid()
    {
      TimeoutKeeps(Snapshot(), id);
      timers := timers - {id};
      if id in pending {
        settled := settled + [Settlement(id, TimedOut, pending[id].onException)];
        pending := pending - {id};
      }
    }

    /** `_onclose`: walks the ids of the table in increasing order. */
    method OnClose()
      requires Valid()
      modifies this
      ensures Snapshot() == Close(old(Snapshot()))
      ensures cache == old(cache) && Valid()
    {
      ghost var s0 := Snapshot();
      assert NodeSession.Valid(s0);
      CloseKeeps(s0);
      forall k | k in pending
        ensures 1 <= k <= lastSent
      {
        assert k in s0.issued;
      }
      var ts, closing := CloseTable(pending, lastSent, timers);
      pending := map[];
      closed := true;
      timers := ts;
      settled := settled + closing;
    }

    /** `_processCall`. */
    method ProcessCall(reg: Registry, id: nat, kind: nat, body: seq<Byte>)
      modifies this
      ensures Snapshot() == NodeSession.ProcessCall(old(Snapshot()), reg.Current(), isClient, id, kind, body)
      ensures cache == old(cache)
    {
      lastReceived := lastReceived + 1;
      var calls := if isClient then reg.serverCalls else reg.clientCalls;
      if id != lastReceived || kind !in calls {
        ended := true;
        return;
      }
      var data := Inflate.InflateData(body, calls[kind].args);
      if data.Err? {
        ended := true;
        return;
      }
      requests := requests + [Request(kind, id, calls[kind], data.value, false)];
    }

    /** `_processReturn`, keeping the call until its data decodes. */
    method ProcessReturn(id: nat, body: seq<Byte>)
      modifies this
      ensures Snapshot() == ProcessReturnKept(old(Snapshot()), id, body)
      ensures cache == old(cache)
    {
      if id !in pending {
        ended := true;
        return;
      }
      var p := pending[id];
      var data := Inflate.InflateData(body, p.call.results);
      if data.Err? {
        ended := true;
        return;
      }
      pending := pending - {id};
      timers := timers - {id};
      settled := settled + [Settlement(id, Returned(data.value), p.onReturn)];
    }

    /** `_processException`, keeping the call until the exception is accepted. */
    method ProcessException(reg: Registry, id: nat, kind: nat, body: seq<Byte>)
      modifies this
      ensures Snapshot() == ProcessExceptionKept(old(Snapshot()), reg.Current(), id, kind, body)
      ensures cache == old(cache)
    {
      if id !in pending {
        ended := true;
        return;
      }
      var p := pending[id];
      if kind !in p.call.exceptions || kind !in reg.exceptions {
        ended := true;
        return;
      }
      var data := Inflate.InflateData(body, reg.exceptions[kind]);
      if data.Err? {
        ended := true;
        return;
      }
      pending := pending - {id};
      timers := timers - {id};
      settled := settled + [Settlement(id, RemoteException(kind, data.value), p.onException)];
    }

    /** `_processMessage`. */
    method ProcessMessage(reg: Registry, m: seq<Byte>)
      modifies this
      ensures Snapshot() == NodeSession.ProcessMessage(old(Snapshot()), reg.Current(), isClient, m)
      ensures cache == old(cache)
    {
      match Classify(m)
      case Unreadable(_) =>
        ended := true;
      case IsCall(kind, id, body) =>
        ProcessCall(reg, id, kind, body);
      case IsException(id, kind, body) =>
        ProcessException(reg, id, kind, body);
      case IsReturn(id, body, clean) =>
        if !clean {
          ended := true;
        }
        ProcessReturn(id, body);
    }

    /** `_onreadable` as written: it reads the length with `readUint(cache, 0, byteLength)`,
        but `readUint` takes a reading state, so the call throws TypeError, a protocol error,
        and the loop stops before any message is cut: the cache only grows. */
    method OnReadable(chunk: Option<seq<Byte>>)
      modifies this
      ensures chunk.None? ==> Snapshot() == old(Snapshot()) && cache == old(cache)
      ensures chunk.Some? ==> Snapshot() == ProtocolError(old(Snapshot())) && cache == old(cache) + chunk.value
    {
      if chunk.None? {
        return;
      }
      cache := cache + chunk.value;
      ended := true;
    }

    /** `_onreadable` with the length read at the start of the cache: every whole frame is cut
        and its message processed; a corrupt length is a protocol error. */
    method OnReadableFramed(reg: Registry, chunk: Option<seq<Byte>>)
      requires Valid()
      modifies this
      ensures chunk.None? ==> Snapshot() == old(Snapshot()) && cache == old(cache)
      ensures chunk.Some? ==> (Snapshot(), cache) == Receive(old(Snapshot()), reg.Current(), isClient, old(cache), chunk.value)
      ensures Valid()
    {
      if chunk.None? {
        return;
      }
      ghost var s0 := Snapshot();
      ghost var tables := reg.Current();
      ReceiveKeeps(s0, tables, isClient, cache, chunk.value);
      cache := cache + chunk.value;
      ghost var c0 := cache;
      while true
        invariant Process(Snapshot(), tables, isClient, Framer.Frame(cache).messages) == Process(s0, tables, isClient, Framer.Frame(c0).messages)
        invariant Framer.Frame(cache).rest == Framer.Frame(c0).rest
        invariant Framer.Frame(cache).corrupt == Framer.Frame(c0).corrupt
        invariant tables == reg.Current()
        decreases |cache|
      {
        match Framer.CutHead(cache)
        case Stop(corrupt) =>
          if corrupt {
            ended := true;
          }
          return;
        case Message(message, tail) =>
          FrameStep(tables, isClient, cache);
          cache := tail;
          ProcessMessage(reg, message);
      }
    }

    /** `answer(obj)` as written. */
    method Answer(i: nat, reply: Reply) returns (r: Result<bool, JsError>)
      requires Valid() && i < |requests|
      modifies this
      ensures var a := NodeSession.Answer(old(Snapshot()), i, reply);
        (a.Err? ==> r == Err(a.error) && Snapshot() == old(Snapshot())) &&
        (a.Ok? ==> r == Ok(a.value.0) && Snapshot() == a.value.1)
      ensures cache == old(cache) && Valid()
    {
      ghost var s0 := Snapshot();
      var q := requests[i];
      if q.answered {
        return Err(PlainError("Answer already sent"));
      }
      if closed {
        return Ok(false);
      }
      var message := AnswerMessage(q, reply);
      if message.Err? {
        return Err(message.error);
      }
      var (kind, bytes) := message.value;
      var frame := Encoded([0, q.id, kind], bytes);
      if frame.Err? {
        return Err(frame.error);
      }
      output := output + frame.value;
      OutputKeeps(s0, output);
      r := Ok(true);
    }

    /** `answer(obj)` with the flag set once the answer is sent. */
    method AnswerOnce(i: nat, reply: Reply) returns (r: Result<bool, JsError>)
      requires Valid() && i < |requests|
      modifies this
      ensures var a := NodeSession.AnswerOnce(old(Snapshot()), i, reply);
        (a.Err? ==> r == Err(a.error) && Snapshot() == old(Snapshot())) &&
        (a.Ok? ==> r == Ok(a.value.0) && Snapshot() == a.value.1)
      ensures cache == old(cache) && Valid()
    {
      ghost var s0 := Snapshot();
      var q := requests[i];
      if q.answered {
        return Err(PlainError("Answer already sent"));
      }
      if closed {
        return Ok(false);
      }
      var message := AnswerMessage(q, reply);
      if message.Err? {
        return Err(message.error);
      }
      var (kind, bytes) := message.value;
      var frame := Encoded([0, q.id, kind], bytes);
      if frame.Err? {
        return Err(frame.error);
      }
      output := output + frame.value;
      OutputKeeps(s0, output);
      requests := requests[i := q.(answered := true)];
      MarkKeeps(s0.(output := output), i);
      r := Ok(true);
    }
  }
}
