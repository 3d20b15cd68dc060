/** The fan-out between the event stream and the dispatcher: each event is expanded into
    the messages of its envelope, between two bounded first-in-first-out channels. The
    JSON decoder is an arbitrary partial function. */
module Fanout {
  import opened Bytes
  import opened SseReader
  import opened Messages

  type Decoder = Bytes -> Option<Envelope>

  // ---------- what one event means ----------

  /** The envelope an event carries, if it carries one. */
  function EnvelopeOf(dec: Decoder, ev: Event): Option<Envelope> {
    if ev.event == "oid" then None else dec(ev.data)
  }

  /** The oid an event sets, if it sets one. */
  function SetsOID(dec: Decoder, ev: Event): Option<string> {
    if ev.event == "oid" then Some(ev.data)
    else
      match dec(ev.data)
      case Some(env) => if env.oid != [] then Some(env.oid) else None
      case None => None
  }

  function NextOID(dec: Decoder, oid: string, ev: Event): string {
    match SetsOID(dec, ev)
    case Some(o) => o
    case None => oid
  }

  /** A possible order in which the keys of an envelope are visited. */
  ghost predicate IsOrder(dec: Decoder, ev: Event, order: seq<string>) {
    match EnvelopeOf(dec, ev)
    case None => order == []
    case Some(env) =>
      && (forall k :: k in order <==> k in env.events)
      && (forall i, j :: 0 <= i < j < |order| ==> order[i] != order[j])
  }

  function ItemMessages(oid: string, key: string, items: seq<Payload>): (ms: seq<Message>)
    ensures |ms| == |items|
    ensures forall i :: 0 <= i < |ms| ==> ms[i] == Message(oid, key, items[i])
  {
    seq(|items|, i requires 0 <= i < |items| => Message(oid, key, items[i]))
  }

  function KeysMessages(oid: string, order: seq<string>, events: map<string, seq<Payload>>): seq<Message>
    requires forall k :: k in order ==> k in events
  {
    if order == [] then []
    else ItemMessages(oid, order[0], events[order[0]]) + KeysMessages(oid, order[1..], events)
  }

  function EventMessages(dec: Decoder, oid: string, ev: Event, order: seq<string>): seq<Message>
    requires IsOrder(dec, ev, order)
  {
    match EnvelopeOf(dec, ev)
    case None => []
    case Some(env) => KeysMessages(NextOID(dec, oid, ev), order, env.events)
  }

  // ---------- what a stream of events means ----------

  ghost predicate AreOrders(dec: Decoder, evs: seq<Event>, orders: seq<seq<string>>) {
    |orders| == |evs| && forall i :: 0 <= i < |evs| ==> IsOrder(dec, evs[i], orders[i])
  }

  function OIDAfter(dec: Decoder, oid: string, evs: seq<Event>): string
    decreases |evs|
  {
    if evs == [] then oid else OIDAfter(dec, NextOID(dec, oid, evs[0]), evs[1..])
  }

  function Expansion(dec: Decoder, oid: string, evs: seq<Event>, orders: seq<seq<string>>): seq<Message>
    requires AreOrders(dec, evs, orders)
    decreases |evs|
  {
    if evs == [] then []
    else EventMessages(dec, oid, evs[0], orders[0]) + Expansion(dec, NextOID(dec, oid, evs[0]), evs[1..], orders[1..])
  }

  /** `ms` are the messages of `evs`, for some order of the keys of each envelope. */
  ghost predicate Expands(dec: Decoder, evs: seq<Event>, ms: seq<Message>) {
    exists orders :: AreOrders(dec, evs, orders) && Expansion(dec, "", evs, orders) == ms
  }

  lemma {:induction false} KeysInOrder(keys: set<string>) returns (order: seq<string>)
    ensures forall k :: k in order <==> k in keys
    ensures forall i, j :: 0 <= i < j < |order| ==> order[i] != order[j]
  {
    if keys == {} {
      order := [];
    } else {
      var k :| k in keys;
      order := KeysInOrder(keys - {k});
      order := [k] + order;
    }
  }

  /** Some order exists for every list of events. */
  lemma {:induction false} SomeOrders(dec: Decoder, evs: seq<Event>) returns (orders: seq<seq<string>>)
    ensures AreOrders(dec, evs, orders)
  {
    if evs == [] {
      orders := [];
    } else {
      orders := SomeOrders(dec, evs[1..]);
      var first := [];
      if EnvelopeOf(dec, evs[0]).Some? {
        first := KeysInOrder(EnvelopeOf(dec, evs[0]).value.events.Keys);
      }
      orders := [first] + orders;
    }
  }

  lemma {:induction false} OIDAfterAppend(dec: Decoder, oid: string, a: seq<Event>, b: seq<Event>)
    ensures OIDAfter(dec, oid, a + b) == OIDAfter(dec, OIDAfter(dec, oid, a), b)
    decreases |a|
  {
    if a == [] {
      assert a + b == b;
    } else {
      assert (a + b)[1..] == a[1..] + b;
      OIDAfterAppend(dec, NextOID(dec, oid, a[0]), a[1..], b);
    }
  }

  lemma {:induction false} ExpansionAppend(dec: Decoder, oid: string,
                                           a: seq<Event>, oa: seq<seq<string>>, b: seq<Event>, ob: seq<seq<string>>)
    requires AreOrders(dec, a, oa) && AreOrders(dec, b, ob)
    ensures AreOrders(dec, a + b, oa + ob)
    ensures Expansion(dec, oid, a + b, oa + ob) ==
            Expansion(dec, oid, a, oa) + Expansion(dec, OIDAfter(dec, oid, a), b, ob)
    decreases |a|
  {
    if a == [] {
      assert a + b == b && oa + ob == ob;
    } else {
      assert (a + b)[1..] == a[1..] + b && (oa + ob)[1..] == oa[1..] + ob;
      var next := NextOID(dec, oid, a[0]);
      ExpansionAppend(dec, next, a[1..], oa[1..], b, ob);
      AppendAssociates(EventMessages(dec, oid, a[0], oa[0]), Expansion(dec, next, a[1..], oa[1..]),
                       Expansion(dec, OIDAfter(dec, oid, a), b, ob));
    }
  }

  // ---------- which oid a message carries ----------

  /** The oids set by `evs`, in order. */
  function OIDsSet(dec: Decoder, evs: seq<Event>): seq<string> {
    if evs == [] then []
    else
      match SetsOID(dec, evs[0])
      case Some(o) => [o] + OIDsSet(dec, evs[1..])
      case None => OIDsSet(dec, evs[1..])
  }

  /** The current oid is the last one set. */
  lemma {:induction false} OIDIsLastSet(dec: Decoder, oid: string, evs: seq<Event>)
    ensures OIDAfter(dec, oid, evs) == LastOr(OIDsSet(dec, evs), oid)
    decreases |evs|
  {
    if evs != [] { OIDIsLastSet(dec, NextOID(dec, oid, evs[0]), evs[1..]); }
  }

  lemma {:induction false} KeysMessagesOrigin(oid: string, order: seq<string>, events: map<string, seq<Payload>>,
                                              k: nat)
    requires forall key :: key in order ==> key in events
    requires k < |KeysMessages(oid, order, events)|
    ensures var m := KeysMessages(oid, order, events)[k];
            m.oid == oid && m.event in events && m.data in events[m.event]
    decreases |order|
  {
    var first := ItemMessages(oid, order[0], events[order[0]]);
    if k >= |first| { KeysMessagesOrigin(oid, order[1..], events, k - |first|); }
  }

  /** How many messages the first `i` events yield. */
  function StretchStart(dec: Decoder, oid: string, evs: seq<Event>, orders: seq<seq<string>>, i: nat): nat
    requires AreOrders(dec, evs, orders) && i <= |evs|
  {
    |Expansion(dec, oid, evs[..i], orders[..i])|
  }

  /** The k-th message is among those that event `i` yields. */
  predicate InStretch(dec: Decoder, oid: string, evs: seq<Event>, orders: seq<seq<string>>, i: nat, k: nat)
    requires AreOrders(dec, evs, orders) && i < |evs|
  {
    StretchStart(dec, oid, evs, orders, i) <= k < StretchStart(dec, oid, evs, orders, i + 1)
  }

  /** Where a stretch begins, counted from the second event on. */
  lemma StretchShift(dec: Decoder, oid: string, evs: seq<Event>, orders: seq<seq<string>>, i: nat)
    requires evs != [] && AreOrders(dec, evs, orders) && i < |evs|
    ensures AreOrders(dec, evs[1..], orders[1..])
    ensures StretchStart(dec, oid, evs, orders, i + 1) ==
            |EventMessages(dec, oid, evs[0], orders[0])| +
            StretchStart(dec, NextOID(dec, oid, evs[0]), evs[1..], orders[1..], i)
  {
    assert evs[..i + 1][1..] == evs[1..][..i] && orders[..i + 1][1..] == orders[1..][..i];
  }

  /** Message `m` comes from event `i`: it is an item of that event's envelope and its
      oid is the one in force once that event has been seen. */
  predicate ComesFrom(dec: Decoder, oid: string, evs: seq<Event>, i: nat, m: Message)
    requires i < |evs|
  {
    && EnvelopeOf(dec, evs[i]).Some?
    && m.event in EnvelopeOf(dec, evs[i]).value.events
    && m.data in EnvelopeOf(dec, evs[i]).value.events[m.event]
    && m.oid == OIDAfter(dec, oid, evs[..i + 1])
  }

  lemma ComesFromLater(dec: Decoder, oid: string, evs: seq<Event>, i: nat, m: Message)
    requires i + 1 < |evs| && ComesFrom(dec, NextOID(dec, oid, evs[0]), evs[1..], i, m)
    ensures ComesFrom(dec, oid, evs, i + 1, m)
  {
    assert evs[..i + 2][1..] == evs[1..][..i + 1];
  }

  /** Every message carries the oid in force at the very event that yielded it, and is an
      item of that event's envelope, so that all messages of one envelope share one oid. */
  lemma {:induction false} OIDAttribution(dec: Decoder, oid: string, evs: seq<Event>, orders: seq<seq<string>>, k: nat)
    requires AreOrders(dec, evs, orders) && k < |Expansion(dec, oid, evs, orders)|
    ensures exists i :: 0 <= i < |evs| && InStretch(dec, oid, evs, orders, i, k) &&
                        ComesFrom(dec, oid, evs, i, Expansion(dec, oid, evs, orders)[k])
    decreases |evs|
  {
    var first := EventMessages(dec, oid, evs[0], orders[0]);
    var next := NextOID(dec, oid, evs[0]);
    var m := Expansion(dec, oid, evs, orders)[k];
    if k < |first| {
      ComesFromFirst(dec, oid, evs, orders[0], k);
      StretchShift(dec, oid, evs, orders, 0);
      assert m == first[k] && ComesFrom(dec, oid, evs, 0, m) && InStretch(dec, oid, evs, orders, 0, k);
    } else {
      OIDAttribution(dec, next, evs[1..], orders[1..], k - |first|);
      var rest := Expansion(dec, next, evs[1..], orders[1..]);
      assert m == rest[k - |first|];
      var i :| 0 <= i < |evs| - 1 && InStretch(dec, next, evs[1..], orders[1..], i, k - |first|) &&
               ComesFrom(dec, next, evs[1..], i, m);
      ComesFromLater(dec, oid, evs, i, m);
      StretchShift(dec, oid, evs, orders, i);
      StretchShift(dec, oid, evs, orders, i + 1);
      assert InStretch(dec, oid, evs, orders, i + 1, k);
    }
  }

  lemma ComesFromFirst(dec: Decoder, oid: string, evs: seq<Event>, order: seq<string>, k: nat)
    requires evs != [] && IsOrder(dec, evs[0], order) && k < |EventMessages(dec, oid, evs[0], order)|
    ensures ComesFrom(dec, oid, evs, 0, EventMessages(dec, oid, evs[0], order)[k])
  {
    var next := NextOID(dec, oid, evs[0]);
    KeysMessagesOrigin(next, order, EnvelopeOf(dec, evs[0]).value.events, k);
    assert evs[..1] == [evs[0]] && [evs[0]][1..] == [];
    assert OIDAfter(dec, oid, [evs[0]]) == OIDAfter(dec, next, []);
  }

  /** The event names an oid: by its type, or in an envelope that has one. */
  predicate NamesOID(dec: Decoder, ev: Event, oid: string) {
    if ev.event == "oid" then oid == ev.data
    else dec(ev.data).Some? && dec(ev.data).value.oid != "" && oid == dec(ev.data).value.oid
  }

  /** It names none: it does not decode, or its envelope's oid is empty. */
  predicate NamesNoOID(dec: Decoder, ev: Event) {
    ev.event != "oid" && (dec(ev.data).None? || dec(ev.data).value.oid == "")
  }

  /** After the first `n` events the last oid named is `now`, or it is still `oid`. */
  predicate LastNamed(dec: Decoder, oid: string, evs: seq<Event>, n: nat, now: string)
    requires n <= |evs|
  {
    || (now == oid && forall l :: 0 <= l < n ==> NamesNoOID(dec, evs[l]))
    || exists j :: 0 <= j < n && NamesOID(dec, evs[j], now) && forall l :: j < l < n ==> NamesNoOID(dec, evs[l])
  }

  lemma NextIsNamed(dec: Decoder, oid: string, ev: Event)
    ensures NamesOID(dec, ev, NextOID(dec, oid, ev)) || (NamesNoOID(dec, ev) && NextOID(dec, oid, ev) == oid)
  {
  }

  lemma {:induction false} OIDAfterIsLastNamed(dec: Decoder, oid: string, evs: seq<Event>, n: nat)
    requires n <= |evs|
    ensures LastNamed(dec, oid, evs, n, OIDAfter(dec, oid, evs[..n]))
  {
    if n > 0 {
      OIDAfterIsLastNamed(dec, oid, evs, n - 1);
      var was, ev := OIDAfter(dec, oid, evs[..n - 1]), evs[n - 1];
      assert evs[..n] == evs[..n - 1] + [ev] && [ev][1..] == [];
      OIDAfterAppend(dec, oid, evs[..n - 1], [ev]);
      assert OIDAfter(dec, was, [ev]) == OIDAfter(dec, NextOID(dec, was, ev), []);
      NextIsNamed(dec, was, ev);
    }
  }

  /** The k-th message is an item of the envelope of the event that yielded it, and carries
      the last oid named by the events up to that one: the data of an "oid" event, or the
      oid of an envelope that has one; the first oid if none was named. */
  lemma MessageOID(dec: Decoder, oid: string, evs: seq<Event>, orders: seq<seq<string>>, k: nat)
    requires AreOrders(dec, evs, orders) && k < |Expansion(dec, oid, evs, orders)|
    ensures var m := Expansion(dec, oid, evs, orders)[k];
            exists i :: 0 <= i < |evs| && InStretch(dec, oid, evs, orders, i, k) &&
                        evs[i].event != "oid" && dec(evs[i].data).Some? &&
                        m.event in dec(evs[i].data).value.events &&
                        m.data in dec(evs[i].data).value.events[m.event] &&
                        LastNamed(dec, oid, evs, i + 1, m.oid)
  {
    OIDAttribution(dec, oid, evs, orders, k);
    var i :| 0 <= i < |evs| && InStretch(dec, oid, evs, orders, i, k) &&
             ComesFrom(dec, oid, evs, i, Expansion(dec, oid, evs, orders)[k]);
    OIDAfterIsLastNamed(dec, oid, evs, i + 1);
  }

  // ---------- items of one key stay together and in order ----------

  function OfKey(ms: seq<Message>, key: string): seq<Message> {
    if ms == [] then []
    else if ms[0].event == key then [ms[0]] + OfKey(ms[1..], key)
    else OfKey(ms[1..], key)
  }

  lemma {:induction false} OfKeyAppend(a: seq<Message>, b: seq<Message>, key: string)
    ensures OfKey(a + b, key) == OfKey(a, key) + OfKey(b, key)
  {
    if a == [] {
      assert a + b == b;
    } else {
      assert (a + b)[1..] == a[1..] + b;
      OfKeyAppend(a[1..], b, key);
    }
  }

  lemma {:induction false} OfKeyUniform(ms: seq<Message>, k: string, key: string)
    requires forall m :: m in ms ==> m.event == k
    ensures OfKey(ms, key) == if k == key then ms else []
  {
    if ms != [] {
      assert ms[0] in ms;
      OfKeyUniform(ms[1..], k, key);
    }
  }

  lemma {:induction false} KeysMessagesOfKey(oid: string, order: seq<string>, events: map<string, seq<Payload>>,
                                             key: string)
    requires forall k :: k in order ==> k in events
    requires forall i, j :: 0 <= i < j < |order| ==> order[i] != order[j]
    ensures OfKey(KeysMessages(oid, order, events), key) ==
            if key in order then ItemMessages(oid, key, events[key]) else []
    decreases |order|
  {
    if order != [] {
      var first := ItemMessages(oid, order[0], events[order[0]]);
      KeysMessagesOfKey(oid, order[1..], events, key);
      OfKeyAppend(first, KeysMessages(oid, order[1..], events), key);
      OfKeyUniform(first, order[0], key);
      assert key in order <==> key == order[0] || key in order[1..];
    }
  }

  /** Whatever the key order, one event yields for each key exactly that key's items,
      each once and in order, and nothing for any other key. */
  lemma EventMessagesByKey(dec: Decoder, oid: string, ev: Event, order: seq<string>, key: string)
    requires IsOrder(dec, ev, order)
    ensures var ms := OfKey(EventMessages(dec, oid, ev, order), key);
            if ev.event != "oid" && dec(ev.data).Some? && key in dec(ev.data).value.events then
              var env := dec(ev.data).value;
              && |ms| == |env.events[key]|
              && forall k :: 0 <= k < |ms| ==>
                   ms[k] == Message(if env.oid != "" then env.oid else oid, key, env.events[key][k])
            else ms == []
    ensures ev.event == "oid" || dec(ev.data).None? ==> EventMessages(dec, oid, ev, order) == []
  {
    match EnvelopeOf(dec, ev)
    case None =>
    case Some(env) => KeysMessagesOfKey(NextOID(dec, oid, ev), order, env.events, key);
  }

  // ---------- the loop as a machine between two channels ----------

  const CAPACITY := 64

  datatype State = State(
    received: seq<Event>,              // everything ever enqueued on the events channel
    queue: seq<Event>,                 // what waits there
    processed: seq<Event>,             // what the loop has taken
    orders: seq<seq<string>>,          // the key orders it went through
    lastOID: string,
    unsent: seq<Message>,              // of the current envelope
    messages: seq<Message>,            // the messages channel
    taken: seq<Message>,               // what the dispatcher has taken, in order
    running: bool)                     // false once the messages channel is closed

  datatype Action =
    | Receive(ev: Event)
    | Take(order: seq<string>)
    | Send
    | Stop                             // cancelled, closed, or the events channel ended
    | Hand

  const INIT := State([], [], [], [], "", [], [], [], true)

  ghost predicate Enabled(dec: Decoder, s: State, a: Action) {
    match a
    case Receive(_) => |s.queue| < CAPACITY
    case Take(order) => s.running && s.unsent == [] && s.queue != [] && IsOrder(dec, s.queue[0], order)
    case Send => s.running && s.unsent != [] && |s.messages| < CAPACITY
    case Stop => s.running
    case Hand => s.messages != []
  }

  function Next(dec: Decoder, s: State, a: Action): State
    requires Enabled(dec, s, a)
  {
    match a
    case Receive(ev) => s.(received := s.received + [ev], queue := s.queue + [ev])
    case Take(order) =>
      var ev := s.queue[0];
      s.(queue := s.queue[1..], processed := s.processed + [ev], orders := s.orders + [order],
         lastOID := NextOID(dec, s.lastOID, ev), unsent := EventMessages(dec, s.lastOID, ev, order))
    case Send => s.(unsent := s.unsent[1..], messages := s.messages + [s.unsent[0]])
    case Stop => s.(running := false)
    case Hand => s.(messages := s.messages[1..], taken := s.taken + [s.messages[0]])
  }

  ghost predicate Leads(dec: Decoder, s: State, actions: seq<Action>, t: State)
    decreases |actions|
  {
    if actions == [] then s == t
    else Enabled(dec, s, actions[0]) && Leads(dec, Next(dec, s, actions[0]), actions[1..], t)
  }

  ghost predicate Inv(dec: Decoder, s: State) {
    && s.received == s.processed + s.queue
    && AreOrders(dec, s.processed, s.orders)
    && s.lastOID == OIDAfter(dec, "", s.processed)
    && s.taken + s.messages + s.unsent == Expansion(dec, "", s.processed, s.orders)
    && |s.queue| <= CAPACITY && |s.messages| <= CAPACITY
  }

  lemma TakeStep(dec: Decoder, s: State, a: Action)
    requires Inv(dec, s) && Enabled(dec, s, a) && a.Take?
    ensures Inv(dec, Next(dec, s, a))
  {
    var ev := s.queue[0];
    assert s.queue == [ev] + s.queue[1..];
    AppendAssociates(s.processed, [ev], s.queue[1..]);
    assert AreOrders(dec, [ev], [a.order]);
    ExpansionAppend(dec, "", s.processed, s.orders, [ev], [a.order]);
    OIDAfterAppend(dec, "", s.processed, [ev]);
    assert [ev][1..] == [];
    assert Expansion(dec, s.lastOID, [ev], [a.order]) == EventMessages(dec, s.lastOID, ev, a.order) + [];
    assert s.taken + s.messages + [] == s.taken + s.messages;
  }

  lemma MoveStep(dec: Decoder, s: State, a: Action)
    requires Inv(dec, s) && Enabled(dec, s, a) && !a.Take?
    ensures Inv(dec, Next(dec, s, a))
  {
    match a
    case Receive(ev) => AppendAssociates(s.processed, s.queue, [ev]);
    case Send =>
      assert s.unsent == [s.unsent[0]] + s.unsent[1..];
      assert s.taken + s.messages + s.unsent == s.taken + (s.messages + [s.unsent[0]]) + s.unsent[1..];
    case Stop =>
    case Hand =>
      assert s.messages == [s.messages[0]] + s.messages[1..];
      assert s.taken + s.messages == s.taken + [s.messages[0]] + s.messages[1..];
  }

  lemma {:induction false} Run(dec: Decoder, s: State, actions: seq<Action>, t: State)
    requires Inv(dec, s) && Leads(dec, s, actions, t)
    ensures Inv(dec, t)
    decreases |actions|
  {
    if actions != [] {
      if actions[0].Take? { TakeStep(dec, s, actions[0]); } else { MoveStep(dec, s, actions[0]); }
      Run(dec, Next(dec, s, actions[0]), actions[1..], t);
    }
  }

  /** What the dispatcher took, then the messages channel, then the rest of the current
      envelope, then any expansion of the queued events, is an expansion of everything
      received: nothing lost, duplicated or reordered. */
  lemma Conserved(dec: Decoder, s: State, orders: seq<seq<string>>)
    requires Inv(dec, s) && AreOrders(dec, s.queue, orders)
    ensures Expands(dec, s.received, s.taken + s.messages + s.unsent + Expansion(dec, s.lastOID, s.queue, orders))
    ensures |s.queue| <= 64 && |s.messages| <= 64
  {
    ExpansionAppend(dec, "", s.processed, s.orders, s.queue, orders);
    assert AreOrders(dec, s.received, s.orders + orders);
  }

  // ---------- the loop can always go on ----------

  /** The step to take when something is left. */
  lemma SomeStep(dec: Decoder, s: State) returns (a: Action)
    requires s.running && (s.queue != [] || s.unsent != [] || s.messages != [])
    ensures Enabled(dec, s, a)
    ensures var t := Next(dec, s, a);
            && t.running && t.received == s.received
            && (|t.queue| < |s.queue| || (t.queue == s.queue && |t.unsent| < |s.unsent|) ||
                (t.queue == s.queue && t.unsent == s.unsent && |t.messages| < |s.messages|))
  {
    if s.messages != [] {
      a := Hand;
    } else if s.unsent != [] {
      a := Send;
    } else {
      var orders := SomeOrders(dec, s.queue);
      a := Take(orders[0]);
    }
  }

  /** Unless it is told to stop, the loop can always go on until everything received has
      been expanded and handed over. */
  lemma {:induction false} CanDrain(dec: Decoder, s: State) returns (actions: seq<Action>, t: State)
    requires s.running
    ensures Leads(dec, s, actions, t) && t.received == s.received
    ensures t.queue == [] && t.unsent == [] && t.messages == []
    decreases |s.queue|, |s.unsent|, |s.messages|
  {
    if s.queue == [] && s.unsent == [] && s.messages == [] {
      actions, t := [], s;
    } else {
      var a := SomeStep(dec, s);
      var rest;
      rest, t := CanDrain(dec, Next(dec, s, a));
      actions := [a] + rest;
      assert actions[1..] == rest;
    }
  }
}
