/** The stream client as an object: one pass over a connection's bytes, committing ids
    and sending events as it goes. */
module SseClient {
  import opened Bytes
  import opened SseReader

  /** How a reading goroutine leaves its loop. */
  datatype Exit = ShutDown | Disconnected

  /** Why the loop ends: told to stop, at the end of the connection, or in a send. */
  datatype End = Told | AtEnd | Abandoned

  /** What one line text makes the reader send, given the pending event. */
  function Sends(text: Bytes, pending: Event): (evs: seq<Event>)
    ensures |evs| <= 1
  {
    if text == [] then Completed(pending) else []
  }

  function PendingNext(text: Bytes, pending: Event): Event {
    if text == [] then BLANK else Accumulate(pending, text)
  }

  function DelayNext(text: Bytes, delay: int): int {
    if text == [] then delay else DelayAfter(delay, text)
  }

  lemma DeliverUnfold(ts: seq<Bytes>, pending: Event)
    requires ts != []
    ensures Deliver(ts, pending) == Sends(ts[0], pending) + Deliver(ts[1..], PendingNext(ts[0], pending))
  {
    var later := Deliver(ts[1..], PendingNext(ts[0], pending));
    assert [] + later == later;
  }

  lemma OneMoreText(read: seq<Bytes>, t: Bytes)
    ensures Deliver(read + [t], BLANK) == Deliver(read, BLANK) + Sends(t, Pending(read, BLANK))
    ensures Pending(read + [t], BLANK) == PendingNext(t, Pending(read, BLANK))
  {
    var acc := Pending(read, BLANK);
    DeliverAppend(read, [t], BLANK);
    assert [t][1..] == [];
    assert Deliver([t], acc) == Sends(t, acc) + [];
  }

  lemma OneMoreDelay(read: seq<Bytes>, t: Bytes, delay: int)
    ensures Delay(read + [t], delay) == DelayNext(t, Delay(read, delay))
  {
    DelayAppend(read, [t], delay);
    assert [t][1..] == [];
  }

  lemma OneMoreID(evs: seq<Event>, more: seq<Event>, id: Bytes)
    requires |more| <= 1
    ensures LastID(evs + more, id) == LastID(more, LastID(evs, id))
  {
    if more == [] {
      assert evs + more == evs;
    } else {
      assert (evs + more)[..|evs|] == evs && more[..0] == [];
    }
  }

  /** The client's fields once the texts `read` have been taken in. */
  datatype Fields = Fields(events: seq<Event>, id: Bytes, delay: int)

  function After(read: seq<Bytes>, start: Fields): Fields {
    Fields(start.events + Deliver(read, BLANK), LastID(Deliver(read, BLANK), start.id), Delay(read, start.delay))
  }

  lemma AfterOneMore(read: seq<Bytes>, t: Bytes, start: Fields)
    ensures var now := After(read, start);
            var sent := Sends(t, Pending(read, BLANK));
            After(read + [t], start) == Fields(now.events + sent, LastID(sent, now.id), DelayNext(t, now.delay))
  {
    OneMoreText(read, t);
    OneMoreDelay(read, t, start.delay);
    OneMoreID(Deliver(read, BLANK), Sends(t, Pending(read, BLANK)), start.id);
    AppendAssociates(start.events, Deliver(read, BLANK), Sends(t, Pending(read, BLANK)));
  }

  lemma FirstText(rest: Bytes, k: nat, first: bool, line: Bytes)
    requires k < |rest| && k == IndexOf(rest, LF) && line == LineText(rest[..k + 1], first)
    ensures Texts(rest, first) == [line] + Texts(rest[k + 1..], false)
  {
    TextsUnfold(rest, k, first);
    HeadAndTail(Texts(rest, first), [line], Texts(rest[k + 1..], false));
  }

  /** Fields and pending event once the texts `read` have been taken in since `start`. */
  predicate InStep(read: seq<Bytes>, start: Fields, now: Fields, pending: Event) {
    now == After(read, start) && pending == Pending(read, BLANK)
  }

  lemma InStepAtStart(start: Fields)
    ensures InStep([], start, start, BLANK)
  {
    assert start.events + [] == start.events;
  }

  /** All texts are taken in but the send of the last event was given up. */
  predicate LastAbandoned(read: seq<Bytes>, start: Fields, now: Fields) {
    var all := After(read, start);
    Deliver(read, BLANK) != [] && now == all.(events := all.events[..|all.events| - 1])
  }

  lemma AbandonsLast(read: seq<Bytes>, t: Bytes, start: Fields, now: Fields)
    requires Sends(t, Pending(read, BLANK)) != []
    requires now == After(read + [t], start).(events := After(read, start).events)
    ensures LastAbandoned(read + [t], start, now)
  {
    AfterOneMore(read, t, start);
    OneMoreText(read, t);
  }

  /** None of the sends, or polls, from `from` up to `to` met a cancel or close. */
  predicate NoneLost(stops: nat -> bool, from: nat, to: nat) {
    from <= to && forall n :: from <= n < to ==> !stops(n)
  }

  lemma OneMoreNotLost(stops: nat -> bool, from: nat, to: nat)
    requires NoneLost(stops, from, to) && !stops(to)
    ensures NoneLost(stops, from, to + 1)
  {
  }

  lemma NoneLostJoin(stops: nat -> bool, a: nat, b: nat, c: nat)
    requires NoneLost(stops, a, b) && NoneLost(stops, b, c)
    ensures NoneLost(stops, a, c)
  {
  }

  class Client {
    var lastEventID: Bytes
    var reconnectDelay: int
    var events: seq<Event>      // everything ever sent on the events channel
    var eventsClosed: bool

    constructor (reconnectDelay: int)
      ensures lastEventID == [] && this.reconnectDelay == reconnectDelay
      ensures events == [] && !eventsClosed
    {
      lastEventID, this.reconnectDelay := [], reconnectDelay;
      events, eventsClosed := [], false;
    }

    /** One field line, added to the pending event. */
    method TakeField(pending: Event, line: Bytes) returns (event: Event)
      modifies this`reconnectDelay
      ensures event == Accumulate(pending, line)
      ensures reconnectDelay == DelayAfter(old(reconnectDelay), line)
    {
      event := pending;
      var value := ValueOf(line);
      match FieldOf(line) {
        case Data => event := event.(data := event.data + (value + [LF]));
        case Type => event := event.(event := value);
        case Id => event := event.(id := value);
        case Retry =>
          var ms := Atoi(value);
          if ms.Some? {
            event := event.(retry := ms.value);
            reconnectDelay := WrapInt64(ms.value * 1_000_000);
          }
        case Ignored =>
      }
    }

    /** A blank line: commits the id, then sends the event unless the send is abandoned. */
    method SendPending(pending: Event, abandon: bool) returns (abandoned: bool)
      modifies this`lastEventID, this`events
      ensures abandoned == (abandon && Completed(pending) != [])
      ensures events == if abandoned then old(events) else old(events) + Completed(pending)
      ensures lastEventID == LastID(Completed(pending), old(lastEventID))
    {
      abandoned := false;
      if pending.data != [] {
        var event := pending.(data := TrimLF(pending.data));
        if event.event == [] {
          event := event.(event := "message");
        }
        assert Completed(pending) == [event] && [event][..0] == [];
        if event.id != [] {
          lastEventID := event.id;
        }
        if abandon {
          return true;
        }
        events := events + [event];
      } else {
        assert events + [] == events;
      }
    }

    ghost function State(): Fields
      reads this
    {
      Fields(events, lastEventID, reconnectDelay)
    }

    /** Takes in one line text. */
    method TakeText(text: Bytes, pending: Event, abandon: bool) returns (event: Event, abandoned: bool)
      modifies this`lastEventID, this`events, this`reconnectDelay
      ensures abandoned == (abandon && Sends(text, pending) != [])
      ensures event == PendingNext(text, pending)
      ensures events == if abandoned then old(events) else old(events) + Sends(text, pending)
      ensures lastEventID == LastID(Sends(text, pending), old(lastEventID))
      ensures reconnectDelay == DelayNext(text, old(reconnectDelay))
    {
      if text == [] {
        abandoned := SendPending(pending, abandon);
        event := BLANK;
      } else {
        assert events + [] == events;
        event := TakeField(pending, text);
        abandoned := false;
      }
    }

    /** The next line, trimmed and without a leading BOM, and what follows it. */
    static method ReadLine(rest: Bytes, first: bool) returns (ok: bool, line: Bytes, after: Bytes)
      ensures ok ==> Texts(rest, first) == [line] + Texts(after, false) && |after| < |rest|
      ensures !ok ==> Texts(rest, first) == []
    {
      var k := IndexOf(rest, LF);
      if k == |rest| {
        return false, [], [];
      }
      line := TrimRight(rest[..k + 1]);
      if first {
        line := StripBOM(line);
      }
      FirstText(rest, k, first, line);
      return true, line, rest[k + 1..];
    }

    /** The next line, if there is one, taken in: `read` are the texts taken in since
        `start`, `whole` all texts of the connection. */
    method TakeLine(rest: Bytes, first: bool, pending: Event, aborts: nat -> bool,
                    ghost whole: seq<Bytes>, ghost read: seq<Bytes>, ghost start: Fields)
      returns (ok: bool, after: Bytes, event: Event, abandoned: bool, ghost now: seq<Bytes>)
      requires whole == read + Texts(rest, first)
      requires InStep(read, start, State(), pending)
      modifies this`lastEventID, this`events, this`reconnectDelay
      ensures NoneLost(aborts, |old(events)|, |events|)
      ensures !ok ==> read == whole && now == read && event == pending && !abandoned && unchanged(this)
      ensures ok ==> |after| < |rest| && |now| == |read| + 1 && whole == now + Texts(after, false) && now <= whole
      ensures !abandoned ==> InStep(now, start, State(), event)
      ensures abandoned ==> LastAbandoned(now, start, State()) && aborts(|events|)
    {
      var line;
      ok, line, after := ReadLine(rest, first);
      if !ok {
        assert read + [] == read;
        return false, after, pending, false, read;
      }
      now := read + [line];
      AppendAssociates(read, [line], Texts(after, false));
      AfterOneMore(read, line, start);
      OneMoreText(read, line);
      ghost var sent := |events|;
      event, abandoned := TakeText(line, pending, aborts(|events|));
      if |events| > sent {
        OneMoreNotLost(aborts, sent, sent);
      }
      if abandoned {
        AbandonsLast(read, line, start, State());
      }
    }

    /** The loop: why it ends, how many lines it took, and their texts. */
    method Loop(body: Bytes, polls: nat -> bool, aborts: nat -> bool)
      returns (end: End, lines: nat, pending: Event, ghost read: seq<Bytes>)
      modifies this`lastEventID, this`events, this`reconnectDelay
      ensures read <= Texts(body, true) && lines == |read|
      ensures NoneLost(polls, 0, lines)
      ensures NoneLost(aborts, |old(events)|, |events|)
      ensures end == Abandoned ==> LastAbandoned(read, old(State()), State()) && aborts(|events|)
      ensures end != Abandoned ==> InStep(read, old(State()), State(), pending) && (end == Told <==> polls(|read|))
      ensures end == AtEnd ==> read == Texts(body, true)
    {
      var rest, first := body, true;
      lines, read, pending := 0, [], BLANK;
      ghost var whole, start := Texts(body, true), State();
      assert [] + whole == whole;
      InStepAtStart(start);
      while true
        invariant whole == read + Texts(rest, first) && read <= whole
        invariant InStep(read, start, State(), pending)
        invariant lines == |read| && NoneLost(polls, 0, lines)
        invariant NoneLost(aborts, |start.events|, |events|)
        decreases |rest|
      {
        if polls(lines) {
          return Told, lines, pending, read;
        }
        OneMoreNotLost(polls, 0, lines);
        var ok, abandoned;
        ghost var sent := |events|;
        ok, rest, pending, abandoned, read := TakeLine(rest, first, pending, aborts, whole, read, start);
        NoneLostJoin(aborts, |start.events|, sent, |events|);
        if !ok {
          return AtEnd, lines, pending, read;
        }
        lines := lines + 1;
        if abandoned {
          return Abandoned, lines, pending, read;
        }
        first := false;
      }
    }

    /** Reads one connection that carried `body`. `polls(i)` answers the i-th question
        whether the context is cancelled or the client closed; `aborts(n)` says that the
        send of what would be the n-th event loses against one of them. */
    method ReadStream(body: Bytes, polls: nat -> bool, aborts: nat -> bool)
      returns (exit: Exit, ghost read: seq<Bytes>)
      modifies this
      ensures read <= Texts(body, true)
      ensures forall i :: 0 <= i < |read| ==> !polls(i)
      ensures NoneLost(aborts, |old(events)|, |events|)
      ensures exit == Disconnected ==>
                && read == Texts(body, true) && State() == After(read, old(State()))
                && eventsClosed == old(eventsClosed)
                && !polls(|read|) && !polls(|read| + 1)
      ensures exit == ShutDown ==>
                && eventsClosed
                && (|| (State() == After(read, old(State())) &&
                        (polls(|read|) || (read == Texts(body, true) && polls(|read| + 1))))
                    || (LastAbandoned(read, old(State()), State()) && aborts(|events|)))
    {
      var end, lines, pending;
      end, lines, pending, read := Loop(body, polls, aborts);
      if end == AtEnd && !polls(lines + 1) {
        return Disconnected, read;
      }
      eventsClosed := true;
      return ShutDown, read;
    }
  }
}
