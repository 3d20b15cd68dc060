/** The loop that turns events into messages, as the client object runs it. */
module PubsubClient {
  import opened Bytes
  import opened SseReader
  import opened Fanout
  import opened Messages

  /** `part` is `all`, or as much of it as was sent before a stop. */
  predicate SentPart<T(==)>(part: seq<T>, all: seq<T>, stopped: bool) {
    part <= all && (!stopped ==> part == all)
  }

  lemma {:induction false} KeysMessagesAppend(oid: string, a: seq<string>, b: seq<string>,
                                              events: map<string, seq<Payload>>)
    requires forall k :: k in a + b ==> k in events
    ensures forall k :: k in a ==> k in events
    ensures forall k :: k in b ==> k in events
    ensures KeysMessages(oid, a + b, events) == KeysMessages(oid, a, events) + KeysMessages(oid, b, events)
    decreases |a|
  {
    if a == [] {
      assert a + b == b;
    } else {
      assert a[0] in a + b && (a + b)[1..] == a[1..] + b;
      KeysMessagesAppend(oid, a[1..], b, events);
    }
  }

  /** Of the sends `from` to `to` none lost against a stop; the one that follows did exactly
      if the loop has stopped there. */
  predicate StopsHere(stops: nat -> bool, from: nat, to: nat, stopped: bool) {
    && (forall n :: from <= n < to ==> !stops(n))
    && (stopped ==> stops(to))
  }

  lemma NoStop(stops: nat -> bool, from: nat, to: nat)
    requires StopsHere(stops, from, to, false) && !stops(to)
    ensures StopsHere(stops, from, to + 1, false)
  {
  }

  lemma StopsJoin(stops: nat -> bool, a: nat, b: nat, c: nat, stopped: bool)
    requires StopsHere(stops, a, b, false) && StopsHere(stops, b, c, stopped)
    ensures StopsHere(stops, a, c, stopped)
  {
  }

  class Client {
    var lastOID: string
    var messages: seq<Message>   // everything ever sent on the messages channel
    var messagesClosed: bool

    constructor ()
      ensures lastOID == "" && messages == [] && !messagesClosed
    {
      lastOID, messages, messagesClosed := "", [], false;
    }

    /** One key of an envelope. `stops(n)` says that the send of what would be the n-th
        message loses against a cancel or close. */
    method SendItems(key: string, items: seq<Payload>, stops: nat -> bool) returns (stopped: bool)
      modifies this`messages
      ensures old(messages) <= messages
      ensures SentPart(messages, old(messages) + ItemMessages(lastOID, key, items), stopped)
      ensures StopsHere(stops, |old(messages)|, |messages|, stopped)
    {
      ghost var all := ItemMessages(lastOID, key, items);
      assert old(messages) + all[..0] == messages;
      for i := 0 to |items|
        invariant messages == old(messages) + all[..i]
        invariant StopsHere(stops, |old(messages)|, |messages|, false)
      {
        if stops(|messages|) {
          return true;
        }
        messages := messages + [Message(lastOID, key, items[i])];
        assert all[..i + 1] == all[..i] + [all[i]];
      }
      assert all[..|items|] == all;
      return false;
    }

    /** All keys of an envelope, in the order the map yields them. */
    method SendEnvelope(order: seq<string>, events: map<string, seq<Payload>>, stops: nat -> bool)
      returns (stopped: bool)
      requires forall k :: k in order ==> k in events
      modifies this`messages
      ensures old(messages) <= messages
      ensures SentPart(messages, old(messages) + KeysMessages(lastOID, order, events), stopped)
      ensures StopsHere(stops, |old(messages)|, |messages|, stopped)
    {
      ghost var start := messages;
      assert start + [] == messages;
      for i := 0 to |order|
        invariant messages == start + KeysMessages(lastOID, order[..i], events)
        invariant StopsHere(stops, |start|, |messages|, false)
      {
        assert order[..i + 1] == order[..i] + [order[i]];
        KeysMessagesAppend(lastOID, order[..i], [order[i]], events);
        ghost var sofar := KeysMessages(lastOID, order[..i], events);
        ghost var next := ItemMessages(lastOID, order[i], events[order[i]]);
        assert KeysMessages(lastOID, [order[i]], events) == next + KeysMessages(lastOID, [], events) == next;
        AppendAssociates(start, sofar, next);
        stopped := SendItems(order[i], events[order[i]], stops);
        if stopped {
          assert order == order[..i + 1] + order[i + 1..];
          KeysMessagesAppend(lastOID, order[..i + 1], order[i + 1..], events);
          assert start + KeysMessages(lastOID, order[..i + 1], events) <= start + KeysMessages(lastOID, order, events);
          return true;
        }
      }
      assert order[..|order|] == order;
      return false;
    }

    /** One event: an oid, an envelope, or something that does not decode. */
    method HandleEvent(dec: Decoder, ev: Event, order: seq<string>, stops: nat -> bool) returns (stopped: bool)
      requires IsOrder(dec, ev, order)
      modifies this`lastOID, this`messages
      ensures lastOID == NextOID(dec, old(lastOID), ev)
      ensures old(messages) <= messages
      ensures SentPart(messages, old(messages) + EventMessages(dec, old(lastOID), ev, order), stopped)
      ensures StopsHere(stops, |old(messages)|, |messages|, stopped)
      ensures ev.event == "oid" ==> lastOID == ev.data && messages == old(messages)
      ensures ev.event != "oid" && dec(ev.data).None? ==> lastOID == old(lastOID) && messages == old(messages)
      ensures ev.event != "oid" && dec(ev.data).Some? ==>
                lastOID == if dec(ev.data).value.oid != "" then dec(ev.data).value.oid else old(lastOID)
    {
      stopped := false;
      assert messages + [] == messages;
      if ev.event == "oid" {
        lastOID := ev.data;
      } else {
        var decoded := dec(ev.data);
        if decoded.Some? {
          var env := decoded.value;
          if env.oid != "" {
            lastOID := env.oid;
          }
          stopped := SendEnvelope(order, env.events, stops);
        }
      }
    }

    /** Reads events until the channel ends or the i-th select is `cancelled`. `orders` are
        the map's iteration orders. */
    method Loop(dec: Decoder, events: seq<Event>, orders: seq<seq<string>>,
                         cancelled: nat -> bool, stops: nat -> bool)
      returns (stopped: bool, ghost processed: nat)
      requires AreOrders(dec, events, orders)
      modifies this
      ensures messagesClosed == old(messagesClosed)
      ensures processed <= |events|
      ensures lastOID == OIDAfter(dec, old(lastOID), events[..processed])
      ensures AreOrders(dec, events[..processed], orders[..processed])
      ensures SentPart(messages,
                       old(messages) + Expansion(dec, old(lastOID), events[..processed], orders[..processed]), stopped)
      ensures old(messages) <= messages
      ensures !stopped ==> processed == |events|
      ensures forall n :: |old(messages)| <= n < |messages| ==> !stops(n)
      ensures forall n :: 0 <= n < processed ==> !cancelled(n)
      ensures stopped ==> (processed < |events| && cancelled(processed)) || (processed > 0 && stops(|messages|))
    {
      ghost var start, oid := messages, lastOID;
      assert start + [] == messages;
      for i := 0 to |events|
        invariant AreOrders(dec, events[..i], orders[..i])
        invariant lastOID == OIDAfter(dec, oid, events[..i])
        invariant messages == start + Expansion(dec, oid, events[..i], orders[..i])
        invariant messagesClosed == old(messagesClosed)
        invariant StopsHere(stops, |start|, |messages|, false)
        invariant StopsHere(cancelled, 0, i, false)
      {
        if cancelled(i) {
          return true, i;
        }
        NoStop(cancelled, 0, i);
        var ev := events[i];
        ghost var sent := |messages|;
        ghost var was := Expansion(dec, oid, events[..i], orders[..i]);
        ProcessedOneMore(dec, oid, events, orders, i);
        AppendAssociates(start, was, EventMessages(dec, lastOID, ev, orders[i]));
        stopped := HandleEvent(dec, ev, orders[i], stops);
        StopsJoin(stops, |start|, sent, |messages|, stopped);
        if stopped {
          return true, i + 1;
        }
      }
      assert events[..|events|] == events && orders[..|events|] == orders;
      return false, |events|;
    }

    /** The goroutine: the loop, then the deferred close of the messages channel. */
    method ProcessEvents(dec: Decoder, events: seq<Event>, orders: seq<seq<string>>,
                         cancelled: nat -> bool, stops: nat -> bool)
      returns (stopped: bool, ghost processed: nat)
      requires AreOrders(dec, events, orders)
      modifies this
      ensures messagesClosed
      ensures processed <= |events|
      ensures lastOID == OIDAfter(dec, old(lastOID), events[..processed])
      ensures AreOrders(dec, events[..processed], orders[..processed])
      ensures SentPart(messages,
                       old(messages) + Expansion(dec, old(lastOID), events[..processed], orders[..processed]), stopped)
      ensures old(messages) <= messages
      ensures !stopped ==> processed == |events|
      ensures forall n :: |old(messages)| <= n < |messages| ==> !stops(n)
      ensures forall n :: 0 <= n < processed ==> !cancelled(n)
      ensures stopped ==> (processed < |events| && cancelled(processed)) || (processed > 0 && stops(|messages|))
    {
      stopped, processed := Loop(dec, events, orders, cancelled, stops);
      messagesClosed := true;
    }
  }

  lemma ProcessedOneMore(dec: Decoder, oid: string, events: seq<Event>, orders: seq<seq<string>>, i: nat)
    requires AreOrders(dec, events, orders) && i < |events|
    ensures AreOrders(dec, events[..i], orders[..i]) && AreOrders(dec, events[..i + 1], orders[..i + 1])
    ensures OIDAfter(dec, oid, events[..i + 1]) == NextOID(dec, OIDAfter(dec, oid, events[..i]), events[i])
    ensures Expansion(dec, oid, events[..i + 1], orders[..i + 1]) ==
            Expansion(dec, oid, events[..i], orders[..i]) +
            EventMessages(dec, OIDAfter(dec, oid, events[..i]), events[i], orders[i])
  {
    var a, oa, b, ob := events[..i], orders[..i], [events[i]], [orders[i]];
    assert events[..i + 1] == a + b && orders[..i + 1] == oa + ob;
    assert AreOrders(dec, b, ob) && b[1..] == [];
    OIDAfterAppend(dec, oid, a, b);
    ExpansionAppend(dec, oid, a, oa, b, ob);
    var o := OIDAfter(dec, oid, a);
    assert Expansion(dec, o, b, ob) == EventMessages(dec, o, events[i], orders[i]) + [];
  }
}
