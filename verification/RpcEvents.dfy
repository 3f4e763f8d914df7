/** Event subscriptions of one RPC websocket (main/rpc_consumer.py, RPCEventSubscriptionManager). */
module RpcEvents {
  /** A JSON value; only null matters on its own. */
  datatype Value = Null | Scalar(text: string)

  type Data = map<string, Value>

  /** Params as received: a dictionary, or anything else. Blank stands for None, "", 0 and []. */
  datatype Params = Blank | Fields(fields: Data) | Bare(text: string)

  predicate Truthy(params: Params) {
    params.Bare? || (params.Fields? && params.fields != map[])
  }

  /** data.get(key) */
  function Get(data: Data, key: string): Value {
    if key in data then data[key] else Null
  }

  ghost predicate Matches(params: Params, data: Data) {
    params.Fields? ==> forall key | key in params.fields :: params.fields[key] == Get(data, key)
  }

  method CompareParams(params: Params, data: Data) returns (matches: bool)
    ensures matches <==> Matches(params, data)
  {
    if !Truthy(params) {
      return true;
    }
    if !params.Fields? {
      return true;
    }
    var rest := params.fields.Keys;
    while rest != {}
      invariant rest <= params.fields.Keys
      invariant forall key | key in params.fields && key !in rest :: params.fields[key] == Get(data, key)
      decreases rest
    {
      var key :| key in rest;
      if params.fields[key] != Get(data, key) {
        return false;
      }
      rest := rest - {key};
    }
    return true;
  }

  ghost predicate IsSubMap(fields: Data, data: Data) {
    forall key | key in fields :: key in data && data[key] == fields[key]
  }

  /** Matching is sub-map inclusion, except that a null param also matches a missing key.
      The two agree on all data exactly when no param is null. */
  lemma MatchesIsSubMapExactlyWithoutNulls(fields: Data)
    ensures forall data :: IsSubMap(fields, data) ==> Matches(Fields(fields), data)
    ensures (forall data :: Matches(Fields(fields), data) <==> IsSubMap(fields, data)) <==> Null !in fields.Values
  {
    if Null in fields.Values {
      var key :| key in fields && fields[key] == Null;
      var data: Data := map k | k in fields && k != key :: fields[k];
      assert key !in data;
      assert Matches(Fields(fields), data);
      assert !IsSubMap(fields, data);
    } else {
      forall data | Matches(Fields(fields), data)
        ensures IsSubMap(fields, data)
      {
        forall key | key in fields
          ensures key in data && data[key] == fields[key]
        {
          assert fields[key] in fields.Values;
        }
      }
    }
  }

  /** What unsubscribe_event is given besides the event name. */
  datatype Target = EntireEvent | Key(keyHash: string) | Contained(data: Data) | Unusable

  /** Python's falsy targets stand for the whole event. */
  predicate IsWholeEvent(target: Target) {
    || target.EntireEvent?
    || (target.Key? && target.keyHash == "")
    || (target.Contained? && target.data == map[])
  }

  datatype Call =
    | Subscribe(event: string, keyHash: string, params: Params)
    | Unsubscribe(event: string, target: Target)

  type Table = map<string, map<string, Params>>

  /** One live subscription. */
  datatype Subscription = Subscription(event: string, keyHash: string, params: Params)

  ghost function Live(table: Table): set<Subscription> {
    set event, key | event in table && key in table[event] :: Subscription(event, key, table[event][key])
  }

  ghost predicate Holds(table: Table, s: Subscription) {
    s.event in table && s.keyHash in table[s.event] && table[s.event][s.keyHash] == s.params
  }

  lemma LiveMember(table: Table, s: Subscription)
    ensures s in Live(table) <==> Holds(table, s)
  {
    if Holds(table, s) {
      assert s == Subscription(s.event, s.keyHash, table[s.event][s.keyHash]);
    }
  }

  lemma LiveIsApplied(table: Table, after: Table, call: Call)
    requires forall s :: Holds(after, s) <==> s in Apply(Live(table), call)
    ensures Live(after) == Apply(Live(table), call)
  {
    forall s
      ensures s in Live(after) <==> s in Apply(Live(table), call)
    {
      LiveMember(after, s);
    }
  }

  ghost predicate NoEmptyTable(table: Table) {
    forall event | event in table :: table[event] != map[]
  }

  /** A call, on the plain set of live subscriptions. */
  ghost function Apply(live: set<Subscription>, call: Call): set<Subscription> {
    match call
    case Subscribe(event, key, params) =>
      (set s | s in live && !(s.event == event && s.keyHash == key)) + {Subscription(event, key, params)}
    case Unsubscribe(event, target) =>
      set s | s in live && !(s.event == event && Removes(target, s))
  }

  ghost predicate Removes(target: Target, s: Subscription) {
    if IsWholeEvent(target) then true
    else match target
      case Key(key) => s.keyHash == key
      case Contained(data) => Matches(s.params, data)
      case Unusable => false
  }

  /** An event reaches the socket when some live params match its data. */
  ghost predicate Delivers(live: set<Subscription>, event: string, data: Data) {
    exists s :: s in live && s.event == event && Matches(s.params, data)
  }

  class RPCEventSubscriptionManager {
    var subscribedEvents: Table
    const sha256: string -> string

    constructor (sha256: string -> string)
      ensures this.sha256 == sha256 && subscribedEvents == map[]
      ensures Live(subscribedEvents) == {} && NoEmptyTable(subscribedEvents)
    {
      this.sha256 := sha256;
      subscribedEvents := map[];
    }

    /** dumped is the JSON text of the params. */
    method SubscribeEvent(event: string, params: Params, dumped: string) returns (keyHash: string)
      requires NoEmptyTable(subscribedEvents)
      modifies this
      ensures NoEmptyTable(subscribedEvents)
      ensures keyHash == sha256(if Truthy(params) then dumped else "")
      ensures Live(subscribedEvents) == Apply(old(Live(subscribedEvents)), Subscribe(event, keyHash, params))
    {
      ghost var before := subscribedEvents;
      var key := "";
      if Truthy(params) {
        key := dumped;
      }
      keyHash := sha256(key);
      if event !in subscribedEvents {
        subscribedEvents := subscribedEvents[event := map[]];
      }
      subscribedEvents := subscribedEvents[event := subscribedEvents[event][keyHash := params]];
      assert subscribedEvents == SubscribedTable(before, event, keyHash, params);
      SubscribedNotEmpty(before, event, keyHash, params);
      SubscribeOnTable(before, event, keyHash, params);
    }

    method UnsubscribeEvent(event: string, target: Target)
      requires NoEmptyTable(subscribedEvents)
      modifies this
      ensures NoEmptyTable(subscribedEvents)
      ensures Live(subscribedEvents) == Apply(old(Live(subscribedEvents)), Unsubscribe(event, target))
    {
      ghost var before := subscribedEvents;
      if IsWholeEvent(target) {
        subscribedEvents := subscribedEvents - {event};
        DropOnTable(before, event, target);
        return;
      }
      if event !in subscribedEvents {
        DropOnTable(before, event, target);
        assert before - {event} == before;
        return;
      }
      var kept := subscribedEvents[event];
      if target.Key? {
        kept := kept - {target.keyHash};
      }
      if target.Contained? {
        kept := KeepOthers(kept, target.data);
      }
      ReplaceOnTable(before, event, target, kept);
      if kept == map[] {
        subscribedEvents := subscribedEvents - {event};
      } else {
        subscribedEvents := subscribedEvents[event := kept];
      }
    }

    method IsSubscribedToEvent(event: string, data: Data) returns (subscribed: bool)
      ensures subscribed <==> Delivers(Live(subscribedEvents), event, data)
    {
      if event !in subscribedEvents {
        return false;
      }
      var table := subscribedEvents[event];
      var rest := table.Keys;
      while rest != {}
        invariant rest <= table.Keys
        invariant forall key | key in table && key !in rest :: !Matches(table[key], data)
        decreases rest
      {
        var key :| key in rest;
        var matches := CompareParams(table[key], data);
        if matches {
          assert Subscription(event, key, table[key]) in Live(subscribedEvents);
          return true;
        }
        rest := rest - {key};
      }
      return false;
    }
  }

  /** The loop of a selective unsubscribe: entries whose params are not contained in the data stay. */
  method KeepOthers(table: map<string, Params>, data: Data) returns (kept: map<string, Params>)
    ensures forall key :: key in kept <==> key in table && !Matches(table[key], data)
    ensures forall key | key in kept :: kept[key] == table[key]
  {
    kept := map[];
    var rest := table.Keys;
    while rest != {}
      invariant rest <= table.Keys
      invariant forall key :: key in kept <==> key in table && key !in rest && !Matches(table[key], data)
      invariant forall key | key in kept :: kept[key] == table[key]
      decreases rest
    {
      var key :| key in rest;
      var matches := CompareParams(table[key], data);
      if !matches {
        kept := kept[key := table[key]];
      }
      rest := rest - {key};
    }
  }

  ghost function SubscribedTable(table: Table, event: string, key: string, params: Params): Table {
    table[event := (if event in table then table[event] else map[])[key := params]]
  }

  lemma SubscribedNotEmpty(table: Table, event: string, key: string, params: Params)
    requires NoEmptyTable(table)
    ensures NoEmptyTable(SubscribedTable(table, event, key, params))
  {
    assert key in SubscribedTable(table, event, key, params)[event];
  }

  lemma SubscribeOnTable(table: Table, event: string, key: string, params: Params)
    ensures Live(SubscribedTable(table, event, key, params)) == Apply(Live(table), Subscribe(event, key, params))
  {
    var after, call := SubscribedTable(table, event, key, params), Subscribe(event, key, params);
    forall s
      ensures Holds(after, s) <==> s in Apply(Live(table), call)
    {
      LiveMember(table, s);
    }
    LiveIsApplied(table, after, call);
  }

  /** Replacing one event's table by the entries the target does not remove, or dropping it
      when none is left, is the reference call. */
  lemma ReplaceOnTable(table: Table, event: string, target: Target, kept: map<string, Params>)
    requires event in table
    requires forall key :: key in kept <==>
               key in table[event] && !Removes(target, Subscription(event, key, table[event][key]))
    requires forall key | key in kept :: kept[key] == table[event][key]
    ensures Live(if kept == map[] then table - {event} else table[event := kept])
         == Apply(Live(table), Unsubscribe(event, target))
  {
    var after := if kept == map[] then table - {event} else table[event := kept];
    var call := Unsubscribe(event, target);
    forall s
      ensures Holds(after, s) <==> s in Apply(Live(table), call)
    {
      LiveMember(table, s);
    }
    LiveIsApplied(table, after, call);
  }

  lemma DropOnTable(table: Table, event: string, target: Target)
    requires event in table ==> IsWholeEvent(target)
    ensures Live(table - {event}) == Apply(Live(table), Unsubscribe(event, target))
  {
    var call := Unsubscribe(event, target);
    forall s
      ensures Holds(table - {event}, s) <==> s in Apply(Live(table), call)
    {
      LiveMember(table, s);
    }
    LiveIsApplied(table, table - {event}, call);
  }

  /** The live subscriptions after a run of calls from an empty manager. */
  ghost function Run(calls: seq<Call>): set<Subscription> {
    if calls == [] then {} else Apply(Run(calls[..|calls| - 1]), calls[|calls| - 1])
  }

  /** A run keeps one subscription per event and key: the one of the latest subscribe. */
  ghost predicate KeysUnique(live: set<Subscription>) {
    forall s, t | s in live && t in live && s.event == t.event && s.keyHash == t.keyHash :: s == t
  }

  lemma {:induction false} RunKeepsKeysUnique(calls: seq<Call>)
    ensures KeysUnique(Run(calls))
  {
    if calls != [] {
      RunKeepsKeysUnique(calls[..|calls| - 1]);
    }
  }

  /** A subscription is live exactly when some call made it and no later call on its event
      replaced or removed it. */
  ghost predicate MadeAndKept(calls: seq<Call>, s: Subscription) {
    exists i :: 0 <= i < |calls|
      && calls[i] == Subscribe(s.event, s.keyHash, s.params)
      && forall j | i < j < |calls| :: Spares(calls[j], s)
  }

  ghost predicate Spares(call: Call, s: Subscription) {
    match call
    case Subscribe(event, key, params) => !(event == s.event && key == s.keyHash)
    case Unsubscribe(event, target) => !(event == s.event && Removes(target, s))
  }

  lemma {:induction false} LiveExactlyWhenMadeAndKept(calls: seq<Call>, s: Subscription)
    ensures s in Run(calls) <==> MadeAndKept(calls, s)
  {
    if calls != [] {
      var front, last := calls[..|calls| - 1], calls[|calls| - 1];
      LiveExactlyWhenMadeAndKept(front, s);
      if last == Subscribe(s.event, s.keyHash, s.params) {
        assert calls[|calls| - 1] == last;
        assert s in Run(calls);
      } else {
        assert s in Run(calls) <==> s in Run(front) && Spares(last, s);
        if MadeAndKept(front, s) && Spares(last, s) {
          var i :| 0 <= i < |front| && front[i] == Subscribe(s.event, s.keyHash, s.params)
                   && forall j | i < j < |front| :: Spares(front[j], s);
          assert calls[i] == front[i];
          assert forall j | i < j < |calls| :: j == |front| || calls[j] == front[j];
        }
        if MadeAndKept(calls, s) {
          var i :| 0 <= i < |calls| && calls[i] == Subscribe(s.event, s.keyHash, s.params)
                   && forall j | i < j < |calls| :: Spares(calls[j], s);
          assert front[i] == calls[i];
          assert Spares(calls[|calls| - 1], s);
          assert forall j | i < j < |front| :: front[j] == calls[j];
        }
      }
    }
  }

  /** Unsubscribing with a dictionary stops delivery of exactly that data and keeps exactly the
      subscriptions that are not contained in it. */
  lemma UnsubscribeStopsDelivery(calls: seq<Call>, event: string, data: Data)
    requires data != map[]
    ensures var after := Run(calls + [Unsubscribe(event, Contained(data))]);
            && !Delivers(after, event, data)
            && (forall s :: s in after <==> s in Run(calls) && (s.event == event ==> !Matches(s.params, data)))
  {
    var longer := calls + [Unsubscribe(event, Contained(data))];
    assert longer[..|longer| - 1] == calls;
  }

  /** Params get every event of their name exactly when they are blank or no dictionary. */
  lemma UnfilteredExactlyWithoutEntries(params: Params)
    ensures (forall data :: Matches(params, data)) <==> !Truthy(params) || params.Bare?
  {
    if params.Fields? && params.fields != map[] {
      var key :| key in params.fields;
      var data: Data := map[key := if params.fields[key] == Null then Scalar("") else Null];
      assert !Matches(params, data);
    }
  }

  /** Unsubscribing by the key that a subscription returned removes that subscription and no other
      one; a missing target and an empty dictionary remove every subscription of the event. */
  lemma UnsubscribeByKey(calls: seq<Call>, event: string, keyHash: string)
    ensures var after := Run(calls + [Unsubscribe(event, Key(keyHash))]);
            forall s :: s in after <==>
              s in Run(calls) && !(s.event == event && (keyHash == "" || s.keyHash == keyHash))
    ensures forall target, s | target in {EntireEvent, Contained(map[])} ::
              s in Run(calls + [Unsubscribe(event, target)]) <==> s in Run(calls) && s.event != event
  {
    var byKey := calls + [Unsubscribe(event, Key(keyHash))];
    assert byKey[..|byKey| - 1] == calls;
    forall target
      ensures Run(calls + [Unsubscribe(event, target)]) == Apply(Run(calls), Unsubscribe(event, target))
    {
      assert (calls + [Unsubscribe(event, target)])[..|calls|] == calls;
    }
  }

  /** A subscription takes the place of the one with its event and key, and leaves all others. */
  lemma SubscribeReplacesItsKey(calls: seq<Call>, event: string, keyHash: string, params: Params)
    ensures var after := Run(calls + [Subscribe(event, keyHash, params)]);
            forall s :: s in after <==>
              s == Subscription(event, keyHash, params)
              || (s in Run(calls) && !(s.event == event && s.keyHash == keyHash))
  {
    var longer := calls + [Subscribe(event, keyHash, params)];
    assert longer[..|longer| - 1] == calls;
  }

  /** So unsubscribing right after subscribing, by the returned key, leaves no such key behind. */
  lemma SubscribeThenUnsubscribe(calls: seq<Call>, event: string, keyHash: string, params: Params)
    requires keyHash != ""
    ensures var after := Run(calls + [Subscribe(event, keyHash, params), Unsubscribe(event, Key(keyHash))]);
            forall s :: s in after <==> s in Run(calls) && !(s.event == event && s.keyHash == keyHash)
  {
    var once := calls + [Subscribe(event, keyHash, params)];
    assert once + [Unsubscribe(event, Key(keyHash))]
        == calls + [Subscribe(event, keyHash, params), Unsubscribe(event, Key(keyHash))];
    SubscribeReplacesItsKey(calls, event, keyHash, params);
    UnsubscribeByKey(once, event, keyHash);
  }
}
