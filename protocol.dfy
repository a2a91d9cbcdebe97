/**
 * What the three connections (nodejs/Connection.js, web/Connection.js, js/Connection.js) share:
 * the layout of a message, how a received message is told apart as a call, a return or an
 * exception, the table of calls waiting for an answer with the record of how each ended, and
 * the static registries of call types and exceptions.
 *
 * A message is uint(type) ++ uint(seq) ++ args for a call and uint(0) ++ uint(seq) ++
 * uint(exception) ++ data for an answer, where exception 0 means a return.
 */
module Protocol {
  import opened Basics
  import opened Wire
  import opened Formats
  import Emit
  import Inflate

  /** The data of a call or an answer once `Data.toData` has made it a Data: its format string
      and its bytes. */
  datatype Payload = Payload(format: string, bytes: seq<Byte>)

  /** How a call sent to the other side ends, as its callback is told. */
  datatype Outcome = Returned(data: Value) | RemoteException(kind: nat, data: Value) | TimedOut | Closed

  /** A pending call leaving the table: its sequence id, how it ended and whether a callback
      was there to be run. */
  datatype Settlement = Settlement(id: nat, outcome: Outcome, notified: bool)

  /** An entry of the table of pending calls: what the call needs to read its answer and which
      callbacks it has. */
  datatype Pending<C> = Pending(call: C, onReturn: bool, onException: bool)

  // ---------------------------------------------------------------------------------------------
  // Messages

  /** The uints of a message head, each as `addUint` writes it, or None when one of them is past
      2^53 - 1 and `addUint` throws. */
  function Meta(us: seq<nat>): (r: Option<seq<Byte>>)
    ensures r.Some? <==> forall i :: 0 <= i < |us| ==> Emit.ValidUint(us[i])
  {
    if us == [] then Some([])
    else if !Emit.ValidUint(us[0]) then None
    else
      match Meta(us[1..])
      case None => None
      case Some(rest) =>
        Emit.ValidUintHasCode(us[0]);
        Some(UintBytes(us[0]) + rest)
  }

  /** A message head read back: the type and, for an answer, the exception type. */
  datatype Header =
    | Unreadable(head: Option<nat>)              // the type or the sequence id does not read; the type, if it did
    | IsCall(kind: nat, id: nat, body: seq<Byte>)
    | IsException(id: nat, kind: nat, body: seq<Byte>)
    | IsReturn(id: nat, body: seq<Byte>, clean: bool) // clean: the exception type read as 0; otherwise
                                                        // it did not read and body follows the seq

  /** The head of a received message, read in state form: a nonzero type is a call; otherwise a
      nonzero exception type is an exception and 0 a return. */
  function Classify(m: seq<Byte>): (r: Header)
    ensures r.IsCall? ==> r.kind != 0
    ensures r.IsException? ==> r.kind != 0
  {
    match UintAt(m, 0)
    case Err(_) => Unreadable(None)
    case Ok((kind, o1)) =>
      match UintAt(m, o1)
      case Err(_) => Unreadable(Some(kind))
      case Ok((id, o2)) =>
        Inflate.UintAtAdvance(m, o1);
        if kind != 0 then IsCall(kind, id, m[o2 ..])
        else
          match UintAt(m, o2)
          case Err(_) => IsReturn(id, m[o2 ..], false)
          case Ok((e, o3)) =>
            Inflate.UintAtAdvance(m, o2);
            if e != 0 then IsException(id, e, m[o3 ..]) else IsReturn(id, m[o3 ..], true)
  }

  // The regroupings and slices of concatenations that the reads below are given, proved apart
  // from the reads themselves, whose unfolding would make them costly.

  lemma Regroup(a: seq<Byte>, b: seq<Byte>, c: seq<Byte>, d: seq<Byte>)
    ensures a + b + (c + d) == a + b + c + d
  {
  }

  lemma Regroup3(a: seq<Byte>, b: seq<Byte>, c: seq<Byte>)
    ensures [] + a + (b + c) == a + b + c
  {
  }

  lemma Regroup4(a: seq<Byte>, b: seq<Byte>, c: seq<Byte>, d: seq<Byte>)
    ensures [] + a + (b + c + d) == a + b + c + d
  {
  }

  lemma AfterTwo(a: seq<Byte>, b: seq<Byte>, rest: seq<Byte>)
    ensures |a| + |b| <= |a + b + rest| && (a + b + rest)[|a| + |b| ..] == rest
  {
  }

  lemma AfterThree(a: seq<Byte>, b: seq<Byte>, c: seq<Byte>, rest: seq<Byte>)
    ensures |a| + |b| + |c| <= |a + b + c + rest| && (a + b + c + rest)[|a| + |b| + |c| ..] == rest
  {
  }

  /** The head of a call message, two uints, as `Meta` writes it. */
  lemma MetaTwo(a: nat, b: nat)
    requires Emit.ValidUint(a) && Emit.ValidUint(b)
    ensures a < Capacity(8) && b < Capacity(8)
    ensures Meta([a, b]) == Some(UintBytes(a) + UintBytes(b))
  {
    Emit.ValidUintHasCode(a);
    Emit.ValidUintHasCode(b);
    assert Meta([b]) == Some(UintBytes(b)) by {
      assert [b][1..] == [];
      assert UintBytes(b) + [] == UintBytes(b);
    }
    assert [a, b][1..] == [b];
  }

  /** The head of an answer message, three uints, as `Meta` writes it. */
  lemma MetaThree(a: nat, b: nat, c: nat)
    requires Emit.ValidUint(a) && Emit.ValidUint(b) && Emit.ValidUint(c)
    ensures a < Capacity(8) && b < Capacity(8) && c < Capacity(8)
    ensures Meta([a, b, c]) == Some(UintBytes(a) + UintBytes(b) + UintBytes(c))
  {
    Emit.ValidUintHasCode(a);
    MetaTwo(b, c);
    assert [a, b, c][1..] == [b, c];
    assert UintBytes(a) + (UintBytes(b) + UintBytes(c)) == UintBytes(a) + UintBytes(b) + UintBytes(c);
  }

  /** How `Classify` goes once its reads are known, whatever the bytes. */
  lemma ClassifyReads(m: seq<Byte>, kind: nat, o1: nat, id: nat, o2: nat)
    requires UintAt(m, 0) == Ok((kind, o1)) && UintAt(m, o1) == Ok((id, o2)) && o2 <= |m|
    ensures kind != 0 ==> Classify(m) == IsCall(kind, id, m[o2 ..])
    ensures kind == 0 ==> forall e, o3 :: UintAt(m, o2) == Ok((e, o3)) && o3 <= |m| ==>
      Classify(m) == if e != 0 then IsException(id, e, m[o3 ..]) else IsReturn(id, m[o3 ..], true)
  {
  }

  /** A call message reads back as that call. */
  lemma ClassifyCall(kind: nat, id: nat, args: seq<Byte>)
    requires Emit.ValidUint(kind) && Emit.ValidUint(id) && kind != 0
    ensures Meta([kind, id]).Some?
    ensures Classify(Meta([kind, id]).value + args) == IsCall(kind, id, args)
  {
    MetaTwo(kind, id);
    CallBytes(kind, id, args);
  }

  lemma CallBytes(kind: nat, id: nat, args: seq<Byte>)
    requires kind != 0 && kind < Capacity(8) && id < Capacity(8)
    ensures Classify(UintBytes(kind) + UintBytes(id) + args) == IsCall(kind, id, args)
  {
    CodesOf(kind);
    CodesOf(id);
    CallShape(UintBytes(kind), UintBytes(id), args, kind, id);
  }

  /** `c` is a code of the uint `u`: read wherever it stands, it gives `u` back and ends where
      it ends. */
  ghost predicate Codes(c: seq<Byte>, u: nat)
  {
    forall p: seq<Byte>, s: seq<Byte> :: UintAt(p + c + s, |p|) == Ok((u, |p| + |c|))
  }

  /** What addUint writes is a code of its uint. */
  lemma CodesOf(u: nat)
    requires u < Capacity(8)
    ensures Codes(UintBytes(u), u)
  {
    forall p: seq<Byte>, s: seq<Byte> ensures UintAt(p + UintBytes(u) + s, |p|) == Ok((u, |p| + |UintBytes(u)|)) {
      UintRoundTrip(u, p, s);
    }
  }

  /** A message made of the codes of a type other than 0 and of a sequence id, then arguments,
      is that call. */
  lemma CallShape(c1: seq<Byte>, c2: seq<Byte>, args: seq<Byte>, kind: nat, id: nat)
    requires kind != 0 && Codes(c1, kind) && Codes(c2, id)
    ensures Classify(c1 + c2 + args) == IsCall(kind, id, args)
  {
    var none: seq<Byte> := [];
    assert UintAt(none + c1 + (c2 + args), |none|) == Ok((kind, |none| + |c1|));
    Regroup3(c1, c2, args);
    assert UintAt(c1 + c2 + args, |c1|) == Ok((id, |c1| + |c2|));
    AfterTwo(c1, c2, args);
    ClassifyReads(c1 + c2 + args, kind, |c1|, id, |c1| + |c2|);
  }

  /** An answer message reads back as that return (exception type 0) or exception. */
  lemma ClassifyAnswer(id: nat, kind: nat, data: seq<Byte>)
    requires Emit.ValidUint(id) && Emit.ValidUint(kind)
    ensures Meta([0, id, kind]).Some?
    ensures Classify(Meta([0, id, kind]).value + data) ==
      if kind == 0 then IsReturn(id, data, true) else IsException(id, kind, data)
  {
    MetaThree(0, id, kind);
    AnswerBytes(id, kind, data);
  }

  lemma AnswerBytes(id: nat, kind: nat, data: seq<Byte>)
    requires 0 < Capacity(8) && kind < Capacity(8) && id < Capacity(8)
    ensures Classify(UintBytes(0) + UintBytes(id) + UintBytes(kind) + data) ==
      if kind == 0 then IsReturn(id, data, true) else IsException(id, kind, data)
  {
    CodesOf(0);
    CodesOf(id);
    CodesOf(kind);
    AnswerShape(UintBytes(0), UintBytes(id), UintBytes(kind), data, id, kind);
  }

  /** A message made of the codes of 0, of a sequence id and of an exception type, then data, is
      that answer: a return when the type is 0, an exception otherwise. */
  lemma AnswerShape(c0: seq<Byte>, c1: seq<Byte>, c2: seq<Byte>, data: seq<Byte>, id: nat, kind: nat)
    requires Codes(c0, 0) && Codes(c1, id) && Codes(c2, kind)
    ensures Classify(c0 + c1 + c2 + data) ==
      if kind == 0 then IsReturn(id, data, true) else IsException(id, kind, data)
  {
    AnswerHead(c0, c1, c2, data, id, kind);
    AfterThree(c0, c1, c2, data);
    ClassifyReads(c0 + c1 + c2 + data, 0, |c0|, id, |c0| + |c1|);
  }

  /** The three reads of an answer message's head. */
  lemma AnswerHead(c0: seq<Byte>, c1: seq<Byte>, c2: seq<Byte>, data: seq<Byte>, id: nat, kind: nat)
    requires Codes(c0, 0) && Codes(c1, id) && Codes(c2, kind)
    ensures UintAt(c0 + c1 + c2 + data, 0) == Ok((0, |c0|))
    ensures UintAt(c0 + c1 + c2 + data, |c0|) == Ok((id, |c0| + |c1|))
    ensures UintAt(c0 + c1 + c2 + data, |c0| + |c1|) == Ok((kind, |c0| + |c1| + |c2|))
  {
    ReadFirstOfThree(c0, c1, c2, data, 0);
    ReadSecondOfThree(c0, c1, c2, data, id);
    ReadThirdOfThree(c0, c1, c2, data, kind);
  }

  lemma ReadFirstOfThree(c0: seq<Byte>, c1: seq<Byte>, c2: seq<Byte>, data: seq<Byte>, u: nat)
    requires Codes(c0, u)
    ensures UintAt(c0 + c1 + c2 + data, 0) == Ok((u, |c0|))
  {
    var none: seq<Byte> := [];
    assert UintAt(none + c0 + (c1 + c2 + data), |none|) == Ok((u, |none| + |c0|));
    Regroup4(c0, c1, c2, data);
  }

  lemma ReadSecondOfThree(c0: seq<Byte>, c1: seq<Byte>, c2: seq<Byte>, data: seq<Byte>, u: nat)
    requires Codes(c1, u)
    ensures UintAt(c0 + c1 + c2 + data, |c0|) == Ok((u, |c0| + |c1|))
  {
    assert UintAt(c0 + c1 + (c2 + data), |c0|) == Ok((u, |c0| + |c1|));
    Regroup(c0, c1, c2, data);
  }

  lemma ReadThirdOfThree(c0: seq<Byte>, c1: seq<Byte>, c2: seq<Byte>, data: seq<Byte>, u: nat)
    requires Codes(c2, u)
    ensures UintAt(c0 + c1 + c2 + data, |c0| + |c1|) == Ok((u, |c0| + |c1| + |c2|))
  {
    assert UintAt(c0 + c1 + c2 + data, |c0 + c1|) == Ok((u, |c0 + c1| + |c2|));
  }

  // ---------------------------------------------------------------------------------------------
  // The table of pending calls

  /** The sequence ids the record of settlements holds. */
  function SettledSeqs(settled: seq<Settlement>): set<nat>
  {
    set i | 0 <= i < |settled| :: settled[i].id
  }

  /** What the table of pending calls keeps true: every call ever stored (`issued`) has an id in
      1..lastSent; only such calls are pending; a settled call is not pending; and no call is
      settled twice, so no callback runs twice. */
  predicate Ledger<C>(pending: map<nat, Pending<C>>, issued: set<nat>, settled: seq<Settlement>, lastSent: nat)
  {
    (forall s :: s in issued ==> 1 <= s <= lastSent) &&
    (forall s :: s in pending ==> s in issued) &&
    (forall i :: 0 <= i < |settled| ==> settled[i].id in issued && settled[i].id !in pending) &&
    (forall i, j :: 0 <= i < j < |settled| ==> settled[i].id != settled[j].id)
  }

  /** No call is lost: every call stored is still pending or has been settled. */
  predicate Accounted<C>(pending: map<nat, Pending<C>>, issued: set<nat>, settled: seq<Settlement>)
  {
    forall s :: s in issued ==> s in pending || s in SettledSeqs(settled)
  }

  /** Storing a call under the next sequence id keeps the ledger and loses nothing. */
  lemma Issue<C>(pending: map<nat, Pending<C>>, issued: set<nat>, settled: seq<Settlement>, lastSent: nat, p: Pending<C>)
    requires Ledger(pending, issued, settled, lastSent)
    ensures Ledger(pending[lastSent + 1 := p], issued + {lastSent + 1}, settled, lastSent + 1)
    ensures Accounted(pending, issued, settled) ==> Accounted(pending[lastSent + 1 := p], issued + {lastSent + 1}, settled)
  {
  }

  /** Taking a pending call out of the table and recording how it ended keeps the ledger and
      loses nothing. */
  lemma Settle<C>(pending: map<nat, Pending<C>>, issued: set<nat>, settled: seq<Settlement>, lastSent: nat, x: Settlement)
    requires Ledger(pending, issued, settled, lastSent) && x.id in pending
    ensures Ledger(pending - {x.id}, issued, settled + [x], lastSent)
    ensures Accounted(pending, issued, settled) ==> Accounted(pending - {x.id}, issued, settled + [x])
  {
    var settled' := settled + [x];
    assert settled'[|settled|] == x;
    forall s | s in issued && Accounted(pending, issued, settled) && s !in pending - {x.id}
      ensures s in SettledSeqs(settled')
    {
      if s == x.id {
        assert settled'[|settled|].id == s;
      } else {
        var i :| 0 <= i < |settled| && settled[i].id == s;
        assert settled'[i].id == s;
      }
    }
  }

  /** Taking a pending call out of the table without settling it keeps the ledger. */
  lemma Drop<C>(pending: map<nat, Pending<C>>, issued: set<nat>, settled: seq<Settlement>, lastSent: nat, s: nat)
    requires Ledger(pending, issued, settled, lastSent)
    ensures Ledger(pending - {s}, issued, settled, lastSent)
  {
  }

  /** A call taken out of the table without being settled is lost. */
  lemma DropLoses<C>(pending: map<nat, Pending<C>>, issued: set<nat>, settled: seq<Settlement>, lastSent: nat, s: nat)
    requires Ledger(pending, issued, settled, lastSent) && s in pending
    ensures !Accounted(pending - {s}, issued, settled)
  {
    assert s in issued;
    assert s !in SettledSeqs(settled) by {
      forall i | 0 <= i < |settled|
        ensures settled[i].id != s
      {
      }
    }
  }

  /** The settlements of the close handler: every call of the table below `hi` + 1, in
      increasing sequence order, ends Closed, and its exception callback runs if it has one. */
  function Closing<C>(pending: map<nat, Pending<C>>, hi: nat): (r: seq<Settlement>)
    ensures forall i :: 0 <= i < |r| ==> r[i].id in pending && 1 <= r[i].id <= hi
    ensures forall i :: 0 <= i < |r| ==> r[i].outcome == Closed && r[i].notified == pending[r[i].id].onException
    ensures forall i, j :: 0 <= i < j < |r| ==> r[i].id < r[j].id
  {
    if hi == 0 then []
    else
      var last := if hi in pending then [Settlement(hi, Closed, pending[hi].onException)] else [];
      Closing(pending, hi - 1) + last
  }

  /** The close handler settles every pending call, once. */
  lemma {:induction false} ClosingSettlesAll<C>(pending: map<nat, Pending<C>>, hi: nat)
    requires forall s :: s in pending ==> 1 <= s <= hi
    ensures SettledSeqs(Closing(pending, hi)) == pending.Keys
  {
    ClosingCovers(pending, hi);
  }

  lemma {:induction false} ClosingCovers<C>(pending: map<nat, Pending<C>>, hi: nat)
    ensures forall s :: s in pending && 1 <= s <= hi ==> s in SettledSeqs(Closing(pending, hi))
  {
    if hi > 0 {
      ClosingCovers(pending, hi - 1);
      var before := Closing(pending, hi - 1);
      var after := Closing(pending, hi);
      forall s | s in pending && 1 <= s <= hi
        ensures s in SettledSeqs(after)
      {
        if s == hi {
          assert after[|before|].id == s;
        } else {
          var i :| 0 <= i < |before| && before[i].id == s;
          assert after[i].id == s;
        }
      }
    }
  }

  /** Settling, at once, pending calls each named once keeps the ledger of an emptied table. */
  lemma SettleMany<C>(pending: map<nat, Pending<C>>, issued: set<nat>, settled: seq<Settlement>, lastSent: nat, c: seq<Settlement>)
    requires Ledger(pending, issued, settled, lastSent)
    requires forall i :: 0 <= i < |c| ==> c[i].id in pending
    requires forall i, j :: 0 <= i < j < |c| ==> c[i].id != c[j].id
    ensures Ledger<C>(map[], issued, settled + c, lastSent)
  {
    var all := settled + c;
    forall i | 0 <= i < |all|
      ensures all[i].id in issued
    {
      if i >= |settled| {
        assert all[i] == c[i - |settled|];
      }
    }
    forall i, j | 0 <= i < j < |all|
      ensures all[i].id != all[j].id
    {
      if j >= |settled| {
        assert all[j] == c[j - |settled|];
        if i >= |settled| {
          assert all[i] == c[i - |settled|];
        } else {
          assert all[i].id !in pending;
        }
      }
    }
  }

  /** Settling every pending call at once loses nothing. */
  lemma SettleAll<C>(pending: map<nat, Pending<C>>, issued: set<nat>, settled: seq<Settlement>, c: seq<Settlement>)
    requires Accounted(pending, issued, settled) && pending.Keys <= SettledSeqs(c)
    ensures Accounted<C>(map[], issued, settled + c)
  {
    var all := settled + c;
    forall s | s in issued
      ensures s in SettledSeqs(all)
    {
      if s in pending {
        assert s in SettledSeqs(c);
        var k :| 0 <= k < |c| && c[k].id == s;
        assert all[|settled| + k].id == s;
      } else {
        var k :| 0 <= k < |settled| && settled[k].id == s;
        assert all[k].id == s;
      }
    }
  }

  /** Closing keeps the ledger and, with nothing pending any more, leaves every call stored
      settled exactly once when none was lost before. */
  lemma CloseAll<C>(pending: map<nat, Pending<C>>, issued: set<nat>, settled: seq<Settlement>, lastSent: nat)
    requires Ledger(pending, issued, settled, lastSent)
    ensures Ledger<C>(map[], issued, settled + Closing(pending, lastSent), lastSent)
    ensures Accounted(pending, issued, settled) ==> Accounted<C>(map[], issued, settled + Closing(pending, lastSent))
  {
    var c := Closing(pending, lastSent);
    SettleMany(pending, issued, settled, lastSent, c);
    ClosingSettlesAll(pending, lastSent);
    if Accounted(pending, issued, settled) {
      SettleAll(pending, issued, settled, c);
    }
  }

  /** The loop of the close handlers over the ids of the table, in increasing order: each call has its
      timer cleared and is settled as closed. */
  method CloseTable<C>(calls: map<nat, Pending<C>>, hi: nat, timers: map<nat, nat>) returns (ts: map<nat, nat>, closing: seq<Settlement>)
    requires forall k :: k in calls ==> 1 <= k <= hi
    ensures ts == timers - calls.Keys
    ensures closing == Closing(calls, hi)
  {
    ts, closing := timers, [];
    var i := 1;
    while i <= hi
      invariant 1 <= i <= hi + 1
      invariant closing == Closing(calls, i - 1)
      invariant forall k :: k in ts <==> k in timers && (k !in calls || k >= i)
      invariant forall k :: k in ts ==> ts[k] == timers[k]
      decreases hi - i
    {
      if i in calls {
        ts := ts - {i};
        closing := closing + [Settlement(i, Closed, calls[i].onException)];
      }
      i := i + 1;
    }
    assert ts.Keys == (timers - calls.Keys).Keys;
  }

  // ---------------------------------------------------------------------------------------------
  // Static registries (nodejs/Connection.js and js/Connection.js)

  /** A registered call type: its argument format, its return format and the exception types
      its answer may raise. */
  datatype CallType = CallType(args: seq<Field>, results: seq<Field>, exceptions: seq<nat>)

  /** The registries of the three kinds of entity, as a value. */
  datatype Tables = Tables(serverCalls: map<nat, CallType>, clientCalls: map<nat, CallType>, exceptions: map<nat, seq<Field>>)

  /** Every id registered is at least 1, so no call type reads as the 0 that opens an answer. */
  predicate Positive(t: Tables)
  {
    (forall k :: k in t.serverCalls ==> k >= 1) &&
    (forall k :: k in t.clientCalls ==> k >= 1) &&
    (forall k :: k in t.exceptions ==> k >= 1)
  }

  /** `Math.round(id) != id || id < 1`: what the registration functions refuse with TypeError. */
  predicate ValidId(id: Emit.Number)
  {
    id.Integral? && id.n >= 1
  }

  /** `Connection._registeredServerCalls`, `_registeredClientCalls` and `_registeredExceptions`,
      keyed by id. The formats arrive already inflated. */
  class Registry {
    var serverCalls: map<nat, CallType>
    var clientCalls: map<nat, CallType>
    var exceptions: map<nat, seq<Field>>

    function Current(): Tables
      reads this
    {
      Tables(serverCalls, clientCalls, exceptions)
    }

    constructor ()
      ensures serverCalls == map[] && clientCalls == map[] && exceptions == map[] && Positive(Current())
    {
      serverCalls := map[];
      clientCalls := map[];
      exceptions := map[];
    }

    /** `Connection.registerServerCall(id, args, returns, exceptions)`: an id that is not a
        positive integer throws TypeError, an id already present throws; otherwise the id maps
        to the call type and is returned. */
    method RegisterServerCall(id: Emit.Number, args: seq<Field>, results: seq<Field>, exceptions': seq<nat>) returns (r: Result<nat, JsError>)
      modifies this
      ensures !ValidId(id) ==> r == Err(TypeError)
      ensures ValidId(id) && id.n in old(serverCalls) ==> r.Err? && r.error != TypeError
      ensures ValidId(id) && id.n !in old(serverCalls) ==> r == Ok(id.n)
      ensures serverCalls == if r.Ok? then old(serverCalls)[id.n := CallType(args, results, exceptions')] else old(serverCalls)
      ensures clientCalls == old(clientCalls) && exceptions == old(exceptions)
      ensures Positive(old(Current())) ==> Positive(Current())
    {
      if !ValidId(id) {
        return Err(TypeError);
      }
      if id.n in serverCalls {
        return Err(PlainError("Unable to register server call"));
      }
      serverCalls := serverCalls[id.n := CallType(args, results, exceptions')];
      return Ok(id.n);
    }

    /** `Connection.registerClientCall`: the same on the calls this side makes. */
    method RegisterClientCall(id: Emit.Number, args: seq<Field>, results: seq<Field>, exceptions': seq<nat>) returns (r: Result<nat, JsError>)
      modifies this
      ensures !ValidId(id) ==> r == Err(TypeError)
      ensures ValidId(id) && id.n in old(clientCalls) ==> r.Err? && r.error != TypeError
      ensures ValidId(id) && id.n !in old(clientCalls) ==> r == Ok(id.n)
      ensures clientCalls == if r.Ok? then old(clientCalls)[id.n := CallType(args, results, exceptions')] else old(clientCalls)
      ensures serverCalls == old(serverCalls) && exceptions == old(exceptions)
      ensures Positive(old(Current())) ==> Positive(Current())
    {
      if !ValidId(id) {
        return Err(TypeError);
      }
      if id.n in clientCalls {
        return Err(PlainError("Unable to register client call"));
      }
      clientCalls := clientCalls[id.n := CallType(args, results, exceptions')];
      return Ok(id.n);
    }

    /** `Connection.registerException(id, format)`. */
    method RegisterException(id: Emit.Number, format: seq<Field>) returns (r: Result<nat, JsError>)
      modifies this
      ensures !ValidId(id) ==> r == Err(TypeError)
      ensures ValidId(id) && id.n in old(exceptions) ==> r.Err? && r.error != TypeError
      ensures ValidId(id) && id.n !in old(exceptions) ==> r == Ok(id.n)
      ensures exceptions == if r.Ok? then old(exceptions)[id.n := format] else old(exceptions)
      ensures serverCalls == old(serverCalls) && clientCalls == old(clientCalls)
      ensures Positive(old(Current())) ==> Positive(Current())
    {
      if !ValidId(id) {
        return Err(TypeError);
      }
      if id.n in exceptions {
        return Err(PlainError("Unable to register exception"));
      }
      exceptions := exceptions[id.n := format];
      return Ok(id.n);
    }
  }
}
