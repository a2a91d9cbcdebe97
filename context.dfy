/**
 * The registry of a context (nodejs/Context.js, web/Context.js): three dictionaries, of the
 * calls this side may receive, of the calls it may make and of the exceptions, each holding
 * every entry twice, under its name and under its id.
 */
module Context {
  import opened Basics
  import opened Expand

  /** A dictionary key. The source's keys are strings: a name, or an id written in decimal. */
  datatype Key = Name(name: string) | Id(id: nat)

  /** The name of a registered entity never reads as the decimal key of an id, so the two
      kinds of key cannot meet in one dictionary, as `Key` takes for granted. */
  lemma NameIsNotId(name: string, id: nat)
    requires IsIdentifier(name)
    ensures name != Decimal(id)
  {
    assert IsDigit(Decimal(id)[0]);
  }

  /** A callback the application passes in, known by its identity only. */
  datatype Handler = Handler(id: nat)

  /** A registered call: its expanded signature and the callback run when it is received. */
  datatype Call = Call(signature: CallSignature, callback: Option<Handler>)

  /** Stores an entry under its name and under its id. */
  function Insert<T>(table: map<Key, T>, name: string, id: nat, entry: T): map<Key, T>
  {
    table[Name(name) := entry][Id(id) := entry]
  }

  /** After an insertion, the name and the id both find the entry, and every other key finds
      what it found before: an entry registered earlier under the same id keeps its name key. */
  lemma InsertLookup<T>(table: map<Key, T>, name: string, id: nat, entry: T)
    ensures var t := Insert(table, name, id, entry);
      Name(name) in t && t[Name(name)] == entry && Id(id) in t && t[Id(id)] == entry
    ensures var t := Insert(table, name, id, entry);
      forall k :: k != Name(name) && k != Id(id) ==> (k in t <==> k in table) && (k in table ==> t[k] == table[k])
  {
  }

  /** The names an exception may not take: the connection raises them itself. */
  predicate Reserved(name: string)
  {
    name == "timeout" || name == "closed"
  }

  /** The three dictionaries of a context, as a value. */
  datatype Dicts = Dicts(serverCalls: map<Key, Call>, clientCalls: map<Key, Call>, exceptions: map<Key, ExceptionSignature>)

  /** What registration keeps true: every id is at least 1, so no call reads as an answer and no
      exception as a return, and an entry stored under an id has that id. */
  predicate Keyed(d: Dicts)
  {
    (forall k :: k in d.serverCalls ==> d.serverCalls[k].signature.id >= 1 && (k.Id? ==> k.id == d.serverCalls[k].signature.id)) &&
    (forall k :: k in d.clientCalls ==> d.clientCalls[k].signature.id >= 1 && (k.Id? ==> k.id == d.clientCalls[k].signature.id)) &&
    (forall k :: k in d.exceptions ==> d.exceptions[k].id >= 1 && (k.Id? ==> k.id == d.exceptions[k].id))
  }

  /** The three dictionaries of a context. */
  class Context {
    var serverCalls: map<Key, Call>
    var clientCalls: map<Key, Call>
    var exceptions: map<Key, ExceptionSignature>

    function Current(): Dicts
      reads this
    {
      Dicts(serverCalls, clientCalls, exceptions)
    }

    constructor ()
      ensures serverCalls == map[] && clientCalls == map[] && exceptions == map[] && Keyed(Current())
    {
      serverCalls := map[];
      clientCalls := map[];
      exceptions := map[];
    }

    /** `registerServerCall(signature, callback)`: expands the signature and stores it, with the
        callback, under its name and its id; a name already present throws and changes nothing. */
    method RegisterServerCall(signature: string, callback: Option<Handler>) returns (r: Status)
      modifies this
      ensures HeaderOf(StripSpaces(signature)).None? ==> r == Err(InvalidFormat)
      ensures HeaderOf(StripSpaces(signature)).Some? && Name(HeaderOf(StripSpaces(signature)).value.name) in old(serverCalls) ==> r.Err?
      ensures r.Err? ==> serverCalls == old(serverCalls)
      ensures r.Ok? ==> HeaderOf(StripSpaces(signature)).Some?
      ensures r.Ok? ==> var h := HeaderOf(StripSpaces(signature)).value;
        Name(h.name) !in old(serverCalls) && Name(h.name) in serverCalls &&
        serverCalls == Insert(old(serverCalls), h.name, h.id, serverCalls[Name(h.name)]) &&
        serverCalls[Name(h.name)].signature.id == h.id && serverCalls[Name(h.name)].signature.name == h.name &&
        serverCalls[Name(h.name)].callback == callback
      ensures clientCalls == old(clientCalls) && exceptions == old(exceptions)
      ensures Keyed(old(Current())) ==> Keyed(Current())
    {
      var data := ExpandCallSignature(signature);
      if data.Err? {
        return Err(data.error);
      }
      var s := data.value;
      if Name(s.name) in serverCalls {
        return Err(PlainError("Unable to register server call"));
      }
      serverCalls := Insert(serverCalls, s.name, s.id, Call(s, callback));
      return Ok(());
    }

    /** `registerClientCall(signature, callback)`: the same on the dictionary of calls this side
        makes. web/Context.js takes no callback: there it is None. */
    method RegisterClientCall(signature: string, callback: Option<Handler>) returns (r: Status)
      modifies this
      ensures HeaderOf(StripSpaces(signature)).None? ==> r == Err(InvalidFormat)
      ensures HeaderOf(StripSpaces(signature)).Some? && Name(HeaderOf(StripSpaces(signature)).value.name) in old(clientCalls) ==> r.Err?
      ensures r.Err? ==> clientCalls == old(clientCalls)
      ensures r.Ok? ==> HeaderOf(StripSpaces(signature)).Some?
      ensures r.Ok? ==> var h := HeaderOf(StripSpaces(signature)).value;
        Name(h.name) !in old(clientCalls) && Name(h.name) in clientCalls &&
        clientCalls == Insert(old(clientCalls), h.name, h.id, clientCalls[Name(h.name)]) &&
        clientCalls[Name(h.name)].signature.id == h.id && clientCalls[Name(h.name)].signature.name == h.name &&
        clientCalls[Name(h.name)].callback == callback
      ensures serverCalls == old(serverCalls) && exceptions == old(exceptions)
      ensures Keyed(old(Current())) ==> Keyed(Current())
    {
      var data := ExpandCallSignature(signature);
      if data.Err? {
        return Err(data.error);
      }
      var s := data.value;
      if Name(s.name) in clientCalls {
        return Err(PlainError("Unable to register client call"));
      }
      clientCalls := Insert(clientCalls, s.name, s.id, Call(s, callback));
      return Ok(());
    }

    /** `registerException(signature)`: expands the signature and stores it under its name and
        its id; the names "timeout" and "closed" and names already present throw. The signature
        is read with its arguments up to the last ')', so that they may hold a record array. */
    method RegisterException(signature: string) returns (r: Status)
      modifies this
      ensures HeaderOf(StripSpaces(signature)).None? ==> r == Err(InvalidFormat)
      ensures HeaderOf(StripSpaces(signature)).Some? ==> var h := HeaderOf(StripSpaces(signature)).value;
        Reserved(h.name) || Name(h.name) in old(exceptions) ==> r.Err?
      ensures r.Err? ==> exceptions == old(exceptions)
      ensures r.Ok? ==> HeaderOf(StripSpaces(signature)).Some?
      ensures r.Ok? ==> var h := HeaderOf(StripSpaces(signature)).value;
        !Reserved(h.name) && Name(h.name) !in old(exceptions) && Name(h.name) in exceptions &&
        exceptions == Insert(old(exceptions), h.name, h.id, exceptions[Name(h.name)]) &&
        exceptions[Name(h.name)].id == h.id && exceptions[Name(h.name)].name == h.name
      ensures serverCalls == old(serverCalls) && clientCalls == old(clientCalls)
      ensures Keyed(old(Current())) ==> Keyed(Current())
    {
      var data := ExpandNestedExceptionSignature(signature);
      if data.Err? {
        return Err(data.error);
      }
      var s := data.value;
      if Reserved(s.name) || Name(s.name) in exceptions {
        return Err(PlainError("Unable to register exception"));
      }
      exceptions := Insert(exceptions, s.name, s.id, s);
      return Ok(());
    }
  }
}
