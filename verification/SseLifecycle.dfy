/** The stream client as goroutines taking atomic steps: connecting, polling, reading a
    line, sending, waiting to reconnect, shutting the channel. A connection may carry any
    bytes and be cut anywhere, connects may fail, and the context may be cancelled or the
    client closed at any moment. One run has one call of Connect. */
module SseLifecycle {
  import opened Bytes
  import opened SseReader
  import opened SseResume
  import SseClient

  /** One connection: the `Last-Event-ID` it asked for and the bytes it carried. */
  datatype Exchange = Exchange(asked: Bytes, body: Bytes)

  /** A connection in use: its bytes not read yet, and what the reader has accumulated. */
  datatype Conn = Conn(exchange: Exchange, rest: Bytes, first: bool, pending: Event)

  datatype Pc =
    | Connecting(initial: bool)        // in doConnect, called by Connect or after a loss
    | Polling(conn: Conn)              // at the head of the reading loop
    | Reading(conn: Conn)              // blocked in ReadString
    | Sending(conn: Conn, event: Event)
    | Lost(conn: Conn)                 // the read failed
    | Waiting                          // in handleDisconnect, before the delay is over
    | ShuttingDown                     // about to close the events channel
    | Ended

  datatype State = State(
    goroutines: seq<Pc>,               // the first one called Connect
    lastEventID: Bytes,
    sent: seq<Event>,                  // everything enqueued on the events channel
    shutdowns: nat,                    // how often shutdownEvents was called
    sentOnClosed: bool,                // a send on the closed channel, which panics
    done: bool,                        // the context is cancelled or the client closed
    sentAfterDone: nat,
    connected: bool,                   // Connect returned the channel
    exchanges: seq<Exchange>)          // history: every connection made, in order

  datatype Action =
    | Done                             // cancel or Close
    | ConnectOk(i: nat, body: Bytes)   // the response will carry these bytes
    | ConnectFail(i: nat)
    | Poll(i: nat)
    | ReadLine(i: nat)
    | ReadFail(i: nat)                 // every line read: cut, end of stream, cancelled read
    | Send(i: nat)
    | GiveUp(i: nat)                   // the done case of the select around a send
    | AfterLoss(i: nat)
    | DelayOver(i: nat)
    | StopWaiting(i: nat)
    | ShutDown(i: nat)

  const INIT := State([Connecting(true)], [], [], 0, false, false, 0, false, [])

  predicate At(s: State, i: nat) { i < |s.goroutines| }

  predicate Enabled(s: State, a: Action) {
    match a
    case Done => true
    case ConnectOk(i, _) => At(s, i) && s.goroutines[i].Connecting?
    case ConnectFail(i) => At(s, i) && s.goroutines[i].Connecting?
    case Poll(i) => At(s, i) && s.goroutines[i].Polling?
    case ReadLine(i) => At(s, i) && s.goroutines[i].Reading? && LF in s.goroutines[i].conn.rest
    case ReadFail(i) => At(s, i) && s.goroutines[i].Reading? && LF !in s.goroutines[i].conn.rest
    case Send(i) => At(s, i) && s.goroutines[i].Sending?
    case GiveUp(i) => At(s, i) && s.goroutines[i].Sending? && s.done
    case AfterLoss(i) => At(s, i) && s.goroutines[i].Lost?
    case DelayOver(i) => At(s, i) && s.goroutines[i].Waiting?
    case StopWaiting(i) => At(s, i) && s.goroutines[i].Waiting? && s.done
    case ShutDown(i) => At(s, i) && s.goroutines[i].ShuttingDown?
  }

  /** A connection just made. */
  function Opened(e: Exchange): Conn {
    Conn(e, e.body, true, BLANK)
  }

  function Goto(s: State, i: nat, pc: Pc): State
    requires At(s, i)
  {
    s.(goroutines := s.goroutines[i := pc])
  }

  /** What the first unread line sends, and the connection after it. */
  function LineTaken(c: Conn): (seq<Event>, Conn)
    requires LF in c.rest
  {
    var k := IndexOf(c.rest, LF);
    var text := LineText(c.rest[..k + 1], c.first);
    (SseClient.Sends(text, c.pending),
     Conn(c.exchange, c.rest[k + 1..], false, SseClient.PendingNext(text, c.pending)))
  }

  /** One line taken in by goroutine `i`; a completed event's id is committed here. */
  function TakeLine(s: State, i: nat): State
    requires At(s, i) && s.goroutines[i].Reading? && LF in s.goroutines[i].conn.rest
  {
    var (evs, c') := LineTaken(s.goroutines[i].conn);
    if evs == [] then Goto(s, i, Polling(c'))
    else Goto(s, i, Sending(c', evs[0])).(lastEventID := if evs[0].id == [] then s.lastEventID else evs[0].id)
  }

  function Next(s: State, a: Action): State
    requires Enabled(s, a)
  {
    match a
    case Done => s.(done := true)
    case ConnectOk(i, body) =>
      var e := Exchange(s.lastEventID, body);
      s.(goroutines := s.goroutines[i := Ended] + [Polling(Opened(e))], connected := true,
         exchanges := s.exchanges + [e])
    case ConnectFail(i) => Goto(s, i, if s.goroutines[i].initial then Ended else Waiting)
    case Poll(i) =>
      Goto(s, i, if s.done then ShuttingDown else Reading(s.goroutines[i].conn))
    case ReadLine(i) => TakeLine(s, i)
    case ReadFail(i) => Goto(s, i, Lost(s.goroutines[i].conn))
    case Send(i) =>
      Goto(s, i, Polling(s.goroutines[i].conn)).(
        sent := s.sent + [s.goroutines[i].event],
        sentOnClosed := s.sentOnClosed || s.shutdowns > 0,
        sentAfterDone := s.sentAfterDone + if s.done then 1 else 0)
    case GiveUp(i) => Goto(s, i, ShuttingDown)
    case AfterLoss(i) => Goto(s, i, if s.done then ShuttingDown else Waiting)
    case DelayOver(i) => Goto(s, i, Connecting(false))
    case StopWaiting(i) => Goto(s, i, ShuttingDown)
    case ShutDown(i) => Goto(s, i, Ended).(shutdowns := s.shutdowns + 1)
  }

  /** `actions` lead from `s` to `t`. */
  predicate Leads(s: State, actions: seq<Action>, t: State)
    decreases |actions|
  {
    if actions == [] then s == t
    else Enabled(s, actions[0]) && Leads(Next(s, actions[0]), actions[1..], t)
  }

  predicate Reachable(actions: seq<Action>, t: State) {
    Leads(INIT, actions, t)
  }

  // ---------- the channel has one owner ----------

  /** The newest goroutine: the only one that can still act. */
  function Owner(s: State): Pc
    requires s.goroutines != []
  {
    s.goroutines[|s.goroutines| - 1]
  }

  predicate Owned(s: State) {
    && s.goroutines != []
    && forall i :: 0 <= i < |s.goroutines| - 1 ==> s.goroutines[i] == Ended
  }

  predicate ChannelInv(s: State) {
    && Owned(s)
    && !s.sentOnClosed
    && s.shutdowns <= 1
    && (s.shutdowns == 1 ==> Owner(s) == Ended)
    && (s.connected && Owner(s) == Ended ==> s.shutdowns == 1)
    && (Owner(s) == ShuttingDown ==> s.done)
    && (s.shutdowns == 1 ==> s.done)
    && (Owner(s) == Connecting(true) ==> !s.connected)
    && (Owner(s) != Connecting(true) && Owner(s) != Ended ==> s.connected)
    && (!s.done ==> s.sentAfterDone == 0)
    && s.sentAfterDone <= 1
    && (s.sentAfterDone == 1 ==> Owner(s).Polling? || Owner(s) == ShuttingDown || Owner(s) == Ended)
  }

  lemma ChannelStep(s: State, a: Action)
    requires ChannelInv(s) && Enabled(s, a)
    ensures ChannelInv(Next(s, a))
  {
    if !a.Done? { OwnerActs(s, a); }
    StaysOwned(s, a);
  }

  lemma {:induction false} ChannelRun(s: State, actions: seq<Action>, t: State)
    requires ChannelInv(s) && Leads(s, actions, t)
    ensures ChannelInv(t)
    decreases |actions|
  {
    if actions != [] {
      ChannelStep(s, actions[0]);
      ChannelRun(Next(s, actions[0]), actions[1..], t);
    }
  }

  /** In every reachable state at most one goroutine can still send on or close the
      events channel; the channel is closed at most once and never sent on afterwards;
      once connected, it is closed exactly when no goroutine is left; and at most one
      event is enqueued after the cancel or Close. */
  lemma ChannelSafety(actions: seq<Action>, t: State)
    requires Reachable(actions, t)
    ensures forall i, j :: 0 <= i < j < |t.goroutines| ==> t.goroutines[i] == Ended || t.goroutines[j] == Ended
    ensures t.shutdowns <= 1 && !t.sentOnClosed
    ensures t.connected ==> (t.shutdowns == 1 <==> forall i :: 0 <= i < |t.goroutines| ==> t.goroutines[i] == Ended)
    ensures t.shutdowns == 1 ==> t.done
    ensures t.sentAfterDone <= 1
  {
    ChannelRun(INIT, actions, t);
  }

  // ---------- the same, told by the steps taken ----------

  function Sends(actions: seq<Action>): nat {
    if actions == [] then 0 else (if actions[0].Send? then 1 else 0) + Sends(actions[1..])
  }

  /** How many sends follow the first cancel or Close. */
  function SendsAfterDone(actions: seq<Action>): nat {
    if actions == [] then 0
    else if actions[0].Done? then Sends(actions[1..])
    else SendsAfterDone(actions[1..])
  }

  /** How many sends follow the first closing of the channel. */
  function SendsAfterClosing(actions: seq<Action>): nat {
    if actions == [] then 0
    else if actions[0].ShutDown? then Sends(actions[1..])
    else SendsAfterClosing(actions[1..])
  }

  function Closings(actions: seq<Action>): nat {
    if actions == [] then 0 else (if actions[0].ShutDown? then 1 else 0) + Closings(actions[1..])
  }

  /** The bodies of the connections made, in order. */
  function Bodies(actions: seq<Action>): seq<Bytes> {
    if actions == [] then [] else BodyOf(actions[0]) + Bodies(actions[1..])
  }

  function BodyOf(a: Action): seq<Bytes> { if a.ConnectOk? then [a.body] else [] }

  function BodiesOf(exchanges: seq<Exchange>): seq<Bytes> {
    if exchanges == [] then [] else [exchanges[0].body] + BodiesOf(exchanges[1..])
  }

  lemma {:induction false} DoneByActions(s: State, actions: seq<Action>, t: State)
    requires Leads(s, actions, t)
    ensures t.done <==> s.done || Done in actions
    ensures t.sentAfterDone == s.sentAfterDone + if s.done then Sends(actions) else SendsAfterDone(actions)
    ensures |t.sent| == |s.sent| + Sends(actions)
    decreases |actions|
  {
    if actions != [] {
      assert Done in actions <==> actions[0] == Done || Done in actions[1..];
      DoneByActions(Next(s, actions[0]), actions[1..], t);
    }
  }

  lemma {:induction false} ClosedByActions(s: State, actions: seq<Action>, t: State)
    requires Leads(s, actions, t)
    ensures t.shutdowns == s.shutdowns + Closings(actions)
    ensures s.sentOnClosed ==> t.sentOnClosed
    ensures !t.sentOnClosed ==> (if s.shutdowns > 0 then Sends(actions) else SendsAfterClosing(actions)) == 0
    decreases |actions|
  {
    if actions != [] {
      ClosedByActions(Next(s, actions[0]), actions[1..], t);
    }
  }

  lemma BodiesOneMore(exchanges: seq<Exchange>, e: Exchange)
    ensures BodiesOf(exchanges + [e]) == BodiesOf(exchanges) + [e.body]
    decreases |exchanges|
  {
    if exchanges == [] {
      assert [e][1..] == [] && exchanges + [e] == [e];
    } else {
      assert (exchanges + [e])[1..] == exchanges[1..] + [e];
      BodiesOneMore(exchanges[1..], e);
    }
  }

  lemma {:induction false} ConnectedByActions(s: State, actions: seq<Action>, t: State)
    requires Leads(s, actions, t)
    ensures t.connected <==> s.connected || Bodies(actions) != []
    ensures BodiesOf(t.exchanges) == BodiesOf(s.exchanges) + Bodies(actions)
    decreases |actions|
  {
    if actions == [] {
      assert BodiesOf(s.exchanges) + [] == BodiesOf(s.exchanges);
    } else {
      ConnectedStep(s, actions[0]);
      ConnectedByActions(Next(s, actions[0]), actions[1..], t);
      AppendAssociates(BodiesOf(s.exchanges), BodyOf(actions[0]), Bodies(actions[1..]));
    }
  }

  lemma ConnectedStep(s: State, a: Action)
    requires Enabled(s, a)
    ensures Next(s, a).connected <==> s.connected || BodyOf(a) != []
    ensures BodiesOf(Next(s, a).exchanges) == BodiesOf(s.exchanges) + BodyOf(a)
  {
    if a.ConnectOk? {
      BodiesOneMore(s.exchanges, Exchange(s.lastEventID, a.body));
    } else {
      assert BodiesOf(s.exchanges) + [] == BodiesOf(s.exchanges);
    }
  }

  /** However a run goes: at most one event is sent after the first cancel or Close, none
      after the channel is closed, and it is closed at most once. The events enqueued are
      the sends, one each, and the connections recorded are those made. */
  lemma ChannelSafetyBySteps(actions: seq<Action>, t: State)
    requires Reachable(actions, t)
    ensures SendsAfterDone(actions) <= 1
    ensures SendsAfterClosing(actions) == 0 && Closings(actions) <= 1
    ensures t.done <==> Done in actions
    ensures |t.sent| == Sends(actions)
    ensures t.shutdowns == Closings(actions)
    ensures t.connected <==> Bodies(actions) != []
    ensures BodiesOf(t.exchanges) == Bodies(actions)
  {
    ChannelRun(INIT, actions, t);
    DoneByActions(INIT, actions, t);
    ClosedByActions(INIT, actions, t);
    ConnectedByActions(INIT, actions, t);
    assert [] + Bodies(actions) == Bodies(actions);
  }

  // ---------- every reconnect has waited ----------

  function Attempts(actions: seq<Action>): nat {
    if actions == [] then 0
    else (if actions[0].ConnectOk? || actions[0].ConnectFail? then 1 else 0) + Attempts(actions[1..])
  }

  function Delays(actions: seq<Action>): nat {
    if actions == [] then 0 else (if actions[0].DelayOver? then 1 else 0) + Delays(actions[1..])
  }

  function Trying(s: State): nat
    requires s.goroutines != []
  {
    if Owner(s).Connecting? then 1 else 0
  }

  lemma TryingStep(s: State, a: Action)
    requires Owned(s) && Enabled(s, a)
    ensures Owned(Next(s, a))
    ensures Trying(Next(s, a)) == if a.DelayOver? then 1 else if a.ConnectOk? || a.ConnectFail? then 0 else Trying(s)
    ensures a.DelayOver? ==> Trying(s) == 0
    ensures a.ConnectOk? || a.ConnectFail? ==> Trying(s) == 1
  {
    if !a.Done? { OwnerActs(s, a); }
    StaysOwned(s, a);
  }

  lemma {:induction false} AttemptsWait(s: State, actions: seq<Action>, t: State)
    requires Owned(s) && Leads(s, actions, t)
    ensures Owned(t) && Attempts(actions) + Trying(t) == Trying(s) + Delays(actions)
    decreases |actions|
  {
    if actions != [] {
      TryingStep(s, actions[0]);
      AttemptsWait(Next(s, actions[0]), actions[1..], t);
    }
  }

  /** Every attempt to connect after the first has a delay of its own that ran out before
      it, whether the connection was lost or could not be made. */
  lemma ReconnectsWait(actions: seq<Action>, t: State)
    requires Reachable(actions, t)
    ensures Delays(actions) <= Attempts(actions) <= 1 + Delays(actions)
  {
    AttemptsWait(INIT, actions, t);
  }

  // ---------- what is enqueued is what was read ----------

  /** The event whose id is committed but which is not enqueued yet. */
  function InHand(pc: Pc): seq<Event> {
    if pc.Sending? then [pc.event] else []
  }

  /** What the connection in hand will still deliver if it is read to its end. */
  function StillToRead(c: Conn): seq<Event> {
    Deliver(Texts(c.rest, c.first), c.pending)
  }

  predicate HasConn(pc: Pc) { pc.Polling? || pc.Reading? || pc.Sending? || pc.Lost? }

  /** Not on the way out. */
  predicate Active(pc: Pc) { !pc.ShuttingDown? && !pc.Ended? }

  /** `part` is what connection `e` has delivered when its reader is at `pc`. */
  predicate Place(part: seq<Event>, e: Exchange, pc: Pc) {
    && part <= Read(e.body)
    && (HasConn(pc) ==> pc.conn.exchange == e && part + InHand(pc) + StillToRead(pc.conn) == Read(e.body))
    && (pc.Lost? || pc.Waiting? || pc.Connecting? ==> part == Read(e.body))
  }

  /** `parts[i]` is what the i-th connection delivered: exactly the events its bytes mean,
      for the newest one the first of them; and it had asked for the last id of all events
      delivered before it. */
  predicate Fed(exchanges: seq<Exchange>, parts: seq<seq<Event>>) {
    |parts| == |exchanges| && forall i :: 0 <= i < |parts| ==> FedAt(exchanges, parts, i)
  }

  predicate FedAt(exchanges: seq<Exchange>, parts: seq<seq<Event>>, i: nat)
    requires i < |parts| == |exchanges|
  {
    && parts[i] <= Read(exchanges[i].body)
    && (i < |parts| - 1 ==> parts[i] == Read(exchanges[i].body))
    && exchanges[i].asked == LastID(Flatten(parts[..i]), [])
  }

  predicate ReadInv(s: State, parts: seq<seq<Event>>) {
    && Owned(s)
    && Fed(s.exchanges, parts)
    && s.sent == Flatten(parts)
    && (if parts == [] then !HasConn(Owner(s))
        else Place(parts[|parts| - 1], s.exchanges[|parts| - 1], Owner(s)))
    && (Active(Owner(s)) ==> s.lastEventID == LastID(s.sent + InHand(Owner(s)), []))
  }

  /** Only the newest goroutine acts. */
  lemma OwnerActs(s: State, a: Action)
    requires Owned(s) && Enabled(s, a) && !a.Done?
    ensures a.i == |s.goroutines| - 1 && s.goroutines[a.i] == Owner(s)
  {
  }

  lemma StaysOwned(s: State, a: Action)
    requires Owned(s) && Enabled(s, a)
    requires !a.Done? ==> a.i == |s.goroutines| - 1
    ensures Owned(Next(s, a))
  {
  }

  lemma FlattenOne<T>(parts: seq<seq<T>>, p: seq<T>)
    ensures Flatten(parts + [p]) == Flatten(parts) + p
  {
    FlattenAppend(parts, [p]);
    assert [p][1..] == [] && Flatten([p]) == p + [];
  }

  lemma FedOneMore(exchanges: seq<Exchange>, parts: seq<seq<Event>>, e: Exchange)
    requires Fed(exchanges, parts)
    requires parts != [] ==> parts[|parts| - 1] == Read(exchanges[|parts| - 1].body)
    requires e.asked == LastID(Flatten(parts), [])
    ensures Fed(exchanges + [e], parts + [[]])
  {
    var es, more := exchanges + [e], parts + [[]];
    forall i | 0 <= i < |more|
      ensures FedAt(es, more, i)
    {
      assert more[..i] == parts[..i];
      assert i < |parts| ==> FedAt(exchanges, parts, i);
    }
  }

  lemma ConnectShape(s: State, a: Action)
    requires Owned(s) && Enabled(s, a) && a.ConnectOk?
    ensures var t, e := Next(s, a), Exchange(s.lastEventID, a.body);
            && t.sent == s.sent && t.lastEventID == s.lastEventID && t.goroutines != []
            && Owner(s).Connecting? && Owner(t) == Polling(Opened(e)) && t.exchanges == s.exchanges + [e]
  {
    OwnerActs(s, a);
  }

  lemma ConnectStep(s: State, parts: seq<seq<Event>>, a: Action)
    requires ReadInv(s, parts) && Enabled(s, a) && a.ConnectOk?
    ensures ReadInv(Next(s, a), parts + [[]])
  {
    OwnerActs(s, a);
    StaysOwned(s, a);
    ConnectShape(s, a);
    var e := Exchange(s.lastEventID, a.body);
    assert s.sent + [] == s.sent;
    FedOneMore(s.exchanges, parts, e);
    FlattenOne(parts, []);
    assert [] + [] + StillToRead(Opened(e)) == Read(e.body);
  }

  /** One line moves what it completes from the unread part into the reader's hand. */
  lemma LineMovesEvent(c: Conn)
    requires LF in c.rest
    ensures var (evs, c') := LineTaken(c);
            StillToRead(c) == evs + StillToRead(c') && |evs| <= 1 && c'.exchange == c.exchange
  {
    var ts := Texts(c.rest, c.first);
    TextsUnfold(c.rest, IndexOf(c.rest, LF), c.first);
    SseClient.DeliverUnfold(ts, c.pending);
  }

  /** Where a line leaves its reader, and the id it leaves behind. */
  lemma LinePlace(part: seq<Event>, e: Exchange, c: Conn, sent: seq<Event>, id: Bytes)
    requires LF in c.rest && Place(part, e, Reading(c)) && id == LastID(sent, [])
    ensures var (evs, c') := LineTaken(c);
            if evs == [] then Place(part, e, Polling(c'))
            else Place(part, e, Sending(c', evs[0])) &&
                 LastID(sent + [evs[0]], []) == if evs[0].id == [] then id else evs[0].id
  {
    LineMovesEvent(c);
    var (evs, c') := LineTaken(c);
    AppendAssociates(part, evs, StillToRead(c'));
    assert part + [] == part;
    if evs == [] {
      assert part + evs == part;
    } else {
      assert evs == [evs[0]];
      assert (sent + [evs[0]])[..|sent|] == sent;
    }
  }

  lemma ReadShape(s: State, a: Action)
    requires Owned(s) && Enabled(s, a) && a.ReadLine?
    ensures var t := Next(s, a);
            && Owner(s).Reading? && LF in Owner(s).conn.rest
            && var (evs, c') := LineTaken(Owner(s).conn);
               && t.sent == s.sent && t.exchanges == s.exchanges && t.goroutines != []
               && Owner(t) == (if evs == [] then Polling(c') else Sending(c', evs[0]))
               && t.lastEventID == if evs == [] || evs[0].id == [] then s.lastEventID else evs[0].id
  {
    OwnerActs(s, a);
  }

  lemma ReadStep(s: State, parts: seq<seq<Event>>, a: Action)
    requires ReadInv(s, parts) && Enabled(s, a) && a.ReadLine?
    ensures ReadInv(Next(s, a), parts)
  {
    OwnerActs(s, a);
    StaysOwned(s, a);
    ReadShape(s, a);
    var n := |parts| - 1;
    assert s.sent + [] == s.sent;
    LinePlace(parts[n], s.exchanges[n], Owner(s).conn, s.sent, s.lastEventID);
  }

  lemma SendShape(s: State, a: Action)
    requires Owned(s) && Enabled(s, a) && a.Send?
    ensures var t := Next(s, a);
            && Owner(s).Sending? && t.goroutines != [] && Owner(t) == Polling(Owner(s).conn)
            && t.sent == s.sent + [Owner(s).event] && t.lastEventID == s.lastEventID && t.exchanges == s.exchanges
  {
    OwnerActs(s, a);
  }

  /** The newest connection has delivered one event more. */
  function Extended(parts: seq<seq<Event>>, ev: Event): seq<seq<Event>>
    requires parts != []
  {
    parts[|parts| - 1 := parts[|parts| - 1] + [ev]]
  }

  lemma ExtendedParts(parts: seq<seq<Event>>, ev: Event)
    requires parts != []
    ensures Flatten(Extended(parts, ev)) == Flatten(parts) + [ev]
  {
    var n := |parts| - 1;
    var front, last := parts[..n], parts[n];
    assert parts == front + [last] && Extended(parts, ev) == front + [last + [ev]];
    FlattenOne(front, last);
    FlattenOne(front, last + [ev]);
    AppendAssociates(Flatten(front), last, [ev]);
  }

  lemma FedExtended(exchanges: seq<Exchange>, parts: seq<seq<Event>>, ev: Event)
    requires Fed(exchanges, parts) && parts != []
    requires parts[|parts| - 1] + [ev] <= Read(exchanges[|parts| - 1].body)
    ensures Fed(exchanges, Extended(parts, ev))
  {
    var now := Extended(parts, ev);
    forall i | 0 <= i < |now|
      ensures FedAt(exchanges, now, i)
    {
      assert FedAt(exchanges, parts, i) && now[..i] == parts[..i];
    }
  }

  lemma SendPlace(part: seq<Event>, e: Exchange, c: Conn, ev: Event)
    requires Place(part, e, Sending(c, ev))
    ensures Place(part + [ev], e, Polling(c))
  {
    assert part + [ev] + [] == part + [ev];
  }

  lemma SendStep(s: State, parts: seq<seq<Event>>, a: Action)
    requires ReadInv(s, parts) && Enabled(s, a) && a.Send?
    ensures Owner(s).Sending? && parts != [] && ReadInv(Next(s, a), Extended(parts, Owner(s).event))
  {
    OwnerActs(s, a);
    StaysOwned(s, a);
    SendShape(s, a);
    var n := |parts| - 1;
    SendPlace(parts[n], s.exchanges[n], Owner(s).conn, Owner(s).event);
    ExtendedParts(parts, Owner(s).event);
    FedExtended(s.exchanges, parts, Owner(s).event);
    assert s.sent + [Owner(s).event] + [] == s.sent + [Owner(s).event];
  }

  /** A step that neither connects, reads nor sends keeps what is known of the connection. */
  lemma MoveShape(s: State, a: Action)
    requires Owned(s) && Enabled(s, a)
    requires !a.ConnectOk? && !a.ReadLine? && !a.Done? && !a.Send?
    ensures var t := Next(s, a);
            var pc, pc' := Owner(s), Owner(t);
            && t.sent == s.sent && t.lastEventID == s.lastEventID && t.exchanges == s.exchanges && t.goroutines != []
            && !pc'.Sending?
            && (Active(pc') ==> Active(pc) && !pc.Sending?)
            && (HasConn(pc') ==> HasConn(pc) && pc.conn == pc'.conn)
            && (pc'.Lost? ==> LF !in pc.conn.rest)
            && (pc'.Waiting? || pc'.Connecting? ==> pc.Lost? || pc.Waiting? || pc.Connecting?)
  {
    OwnerActs(s, a);
  }

  lemma MovePlace(part: seq<Event>, e: Exchange, pc: Pc, pc': Pc)
    requires Place(part, e, pc) && !pc'.Sending?
    requires Active(pc') ==> Active(pc) && !pc.Sending?
    requires HasConn(pc') ==> HasConn(pc) && pc.conn == pc'.conn
    requires pc'.Lost? ==> LF !in pc.conn.rest
    requires pc'.Waiting? || pc'.Connecting? ==> pc.Lost? || pc.Waiting? || pc.Connecting?
    ensures Place(part, e, pc')
  {
    if pc'.Lost? {
      assert StillToRead(pc.conn) == [];
      assert part + [] + [] == part;
    }
  }

  lemma MoveStep(s: State, parts: seq<seq<Event>>, a: Action)
    requires ReadInv(s, parts) && Enabled(s, a)
    requires !a.ConnectOk? && !a.ReadLine? && !a.Done? && !a.Send?
    ensures ReadInv(Next(s, a), parts)
  {
    OwnerActs(s, a);
    StaysOwned(s, a);
    MoveShape(s, a);
    if parts != [] {
      var n := |parts| - 1;
      MovePlace(parts[n], s.exchanges[n], Owner(s), Owner(Next(s, a)));
    }
  }

  /** `parts` once the step has been taken. */
  function PartsAfter(s: State, parts: seq<seq<Event>>, a: Action): seq<seq<Event>>
    requires ReadInv(s, parts)
  {
    if a.ConnectOk? then parts + [[]]
    else if a.Send? && Owner(s).Sending? && parts != [] then Extended(parts, Owner(s).event)
    else parts
  }

  lemma ReadInvStep(s: State, parts: seq<seq<Event>>, a: Action)
    requires ReadInv(s, parts) && Enabled(s, a)
    ensures ReadInv(Next(s, a), PartsAfter(s, parts, a))
  {
    if a.ConnectOk? { ConnectStep(s, parts, a); }
    else if a.ReadLine? { ReadStep(s, parts, a); }
    else if a.Send? { SendStep(s, parts, a); }
    else if !a.Done? { MoveStep(s, parts, a); }
  }

  lemma {:induction false} ReadRun(s: State, parts: seq<seq<Event>>, actions: seq<Action>, t: State)
    returns (parts': seq<seq<Event>>)
    requires ReadInv(s, parts) && Leads(s, actions, t)
    ensures ReadInv(t, parts')
    decreases |actions|
  {
    if actions == [] {
      parts' := parts;
    } else {
      ReadInvStep(s, parts, actions[0]);
      parts' := ReadRun(Next(s, actions[0]), PartsAfter(s, parts, actions[0]), actions[1..], t);
    }
  }

  /** Whatever the server sends: the events enqueued are, connection by connection, exactly
      the events its bytes mean (for the newest connection the first of them), and every
      connection asks for the last non-empty id enqueued before it. */
  lemma DeliveredAsRead(actions: seq<Action>, t: State) returns (parts: seq<seq<Event>>)
    requires Reachable(actions, t)
    ensures t.sent == Flatten(parts) && Fed(t.exchanges, parts)
  {
    assert [] + InHand(Connecting(true)) == [];
    parts := ReadRun(INIT, [], actions, t);
  }

  // ---------- a log is resumed without loss or duplication ----------

  /** Every connection carried a part of the replay of `log` from after the id it asked
      for: a server that has such a log, and connections cut anywhere. */
  predicate ServedFrom(log: seq<Bytes>, exchanges: seq<Exchange>)
    requires Entries(log)
  {
    forall i :: 0 <= i < |exchanges| ==> exchanges[i].body <= Replay(log, exchanges[i].asked)
  }

  lemma {:induction false} LastIDIsIDAfter(all: seq<Event>, k: nat)
    requires DistinctIDs(all) && k <= |all|
    ensures LastID(all[..k], []) == IDAfter(all, k)
  {
    if k > 0 {
      assert all[..k][k - 1] == all[k - 1];
    }
  }

  /** The next connection's part continues the log where the parts before it ended. */
  lemma PartContinues(log: seq<Bytes>, e: Exchange, before: seq<Event>)
    requires IsLog(log) && before <= LogEvents(log)
    requires e.asked == LastID(before, []) && e.body <= Replay(log, e.asked)
    ensures before + Read(e.body) <= LogEvents(log)
    ensures e.body == Replay(log, e.asked) ==> before + Read(e.body) == LogEvents(log)
  {
    var all, k := LogEvents(log), |before|;
    assert before == all[..k] && all == all[..k] + all[k..];
    LastIDIsIDAfter(all, k);
    KnownAfter(all, k);
    ReadReplay(log, k, e.body);
  }

  lemma PrefixOfRest<T>(before: seq<T>, part: seq<T>, whole: seq<T>, all: seq<T>)
    requires part <= whole && before + whole <= all
    ensures before + part <= all
  {
    assert before + whole == before + part + whole[|part|..];
  }

  lemma FedContinues(log: seq<Bytes>, exchanges: seq<Exchange>, parts: seq<seq<Event>>, i: nat)
    requires IsLog(log) && ServedFrom(log, exchanges) && Fed(exchanges, parts) && i < |parts|
    requires Flatten(parts[..i]) <= LogEvents(log)
    ensures Flatten(parts[..i]) + parts[i] <= LogEvents(log)
  {
    assert FedAt(exchanges, parts, i);
    PartContinues(log, exchanges[i], Flatten(parts[..i]));
    PrefixOfRest(Flatten(parts[..i]), parts[i], Read(exchanges[i].body), LogEvents(log));
  }

  lemma {:induction false} PartsArePrefix(log: seq<Bytes>, exchanges: seq<Exchange>, parts: seq<seq<Event>>, n: nat)
    requires IsLog(log) && ServedFrom(log, exchanges) && Fed(exchanges, parts) && n <= |parts|
    ensures Flatten(parts[..n]) <= LogEvents(log)
  {
    if n == 0 {
      assert Flatten(parts[..0]) == [];
    } else {
      PartsArePrefix(log, exchanges, parts, n - 1);
      FedContinues(log, exchanges, parts, n - 1);
      assert parts[..n] == parts[..n - 1] + [parts[n - 1]];
      FlattenOne(parts[..n - 1], parts[n - 1]);
    }
  }

  /** Over any number of connections, each cut anywhere, the events enqueued are always
      the first events of the log: none lost, none repeated, none out of order. */
  lemma ResumeWithoutLossOrDuplication(log: seq<Bytes>, actions: seq<Action>, t: State)
    requires IsLog(log) && Reachable(actions, t) && ServedFrom(log, t.exchanges)
    ensures t.sent <= LogEvents(log)
  {
    var parts := DeliveredAsRead(actions, t);
    assert parts[..|parts|] == parts;
    PartsArePrefix(log, t.exchanges, parts, |parts|);
  }

  /** A replay that arrives whole and is read to its end leaves nothing of the log out,
      however the connections before it ended. */
  lemma WholeReplayDeliversAll(log: seq<Bytes>, actions: seq<Action>, t: State, i: nat)
    requires IsLog(log) && Reachable(actions, t) && ServedFrom(log, t.exchanges)
    requires At(t, i) && (t.goroutines[i].Reading? || t.goroutines[i].Lost?)
    requires var c := t.goroutines[i].conn;
             LF !in c.rest && c.exchange.body == Replay(log, c.exchange.asked)
    ensures t.sent == LogEvents(log)
  {
    assert [] + InHand(Connecting(true)) == [];
    var parts := ReadRun(INIT, [], actions, t);
    assert t.goroutines[i] == Owner(t);
    PlaceAtEnd(parts[|parts| - 1], t.exchanges[|parts| - 1], Owner(t));
    WholeLast(log, t.exchanges, parts);
  }

  lemma PlaceAtEnd(part: seq<Event>, e: Exchange, pc: Pc)
    requires Place(part, e, pc) && (pc.Reading? || pc.Lost?) && LF !in pc.conn.rest
    ensures pc.conn.exchange == e && part == Read(e.body)
  {
    assert StillToRead(pc.conn) == [] && part + [] + [] == part;
  }

  lemma WholeLast(log: seq<Bytes>, exchanges: seq<Exchange>, parts: seq<seq<Event>>)
    requires IsLog(log) && ServedFrom(log, exchanges) && Fed(exchanges, parts) && parts != []
    requires parts[|parts| - 1] == Read(exchanges[|parts| - 1].body)
    requires exchanges[|parts| - 1].body == Replay(log, exchanges[|parts| - 1].asked)
    ensures Flatten(parts) == LogEvents(log)
  {
    var n := |parts| - 1;
    assert FedAt(exchanges, parts, n);
    PartsArePrefix(log, exchanges, parts, n);
    PartContinues(log, exchanges[n], Flatten(parts[..n]));
    assert parts == parts[..n] + [parts[n]];
    FlattenOne(parts[..n], parts[n]);
  }

  // ---------- a connection can be read to its end ----------

  lemma {:induction false} LeadsJoin(s: State, a: seq<Action>, u: State, b: seq<Action>, t: State)
    requires Leads(s, a, u) && Leads(u, b, t)
    ensures Leads(s, a + b, t)
    decreases |a|
  {
    if a == [] {
      assert a + b == b;
    } else {
      assert (a + b)[1..] == a[1..] + b;
      LeadsJoin(Next(s, a[0]), a[1..], u, b, t);
    }
  }

  /** One line: polled, read and, if it completes an event, sent. */
  lemma OneLineOn(s: State, i: nat) returns (actions: seq<Action>, t: State)
    requires At(s, i) && s.goroutines[i].Polling? && LF in s.goroutines[i].conn.rest && !s.done
    ensures Leads(s, actions, t) && !t.done && |t.goroutines| == |s.goroutines|
    ensures var (evs, c') := LineTaken(s.goroutines[i].conn);
            t.goroutines[i] == Polling(c') && t.sent == s.sent + evs
  {
    LineMovesEvent(s.goroutines[i].conn);
    var (evs, c') := LineTaken(s.goroutines[i].conn);
    var s1 := Next(s, Poll(i));
    var s2 := Next(s1, ReadLine(i));
    assert Leads(s2, [], s2) && [ReadLine(i)][1..] == [];
    assert Leads(s1, [ReadLine(i)], s2);
    assert [Poll(i), ReadLine(i)][1..] == [ReadLine(i)];
    actions, t := [Poll(i), ReadLine(i)], s2;
    if evs == [] {
      assert s.sent + [] == s.sent;
    } else {
      assert evs == [evs[0]];
      t := Next(s2, Send(i));
      assert Leads(s2, [Send(i)], t) by { assert [Send(i)][1..] == []; }
      LeadsJoin(s, actions, s2, [Send(i)], t);
      actions := actions + [Send(i)];
    }
  }

  /** Unless it is told to stop, a reader can always go on to the end of its connection,
      and has then sent all the events that were still to come. */
  lemma {:induction false} CanReadToTheEnd(s: State, i: nat) returns (actions: seq<Action>, t: State)
    requires At(s, i) && s.goroutines[i].Polling? && !s.done
    ensures Leads(s, actions, t) && At(t, i) && t.goroutines[i].Polling? && LF !in t.goroutines[i].conn.rest
    ensures t.sent == s.sent + StillToRead(s.goroutines[i].conn)
    decreases |s.goroutines[i].conn.rest|
  {
    var c := s.goroutines[i].conn;
    if LF in c.rest {
      LineMovesEvent(c);
      var (evs, c') := LineTaken(c);
      var as1, s1 := OneLineOn(s, i);
      var as2;
      as2, t := CanReadToTheEnd(s1, i);
      LeadsJoin(s, as1, s1, as2, t);
      actions := as1 + as2;
      AppendAssociates(s.sent, evs, StillToRead(c'));
    } else {
      actions, t := [], s;
      assert s.sent + [] == s.sent;
    }
  }

  /** After a loss the client can always come back: once the delay is over it asks for what
      follows the last id, and takes whatever the server sends. */
  lemma CanReconnect(s: State, i: nat, body: Bytes) returns (actions: seq<Action>, t: State)
    requires At(s, i) && s.goroutines[i].Lost? && !s.done
    ensures Leads(s, actions, t) && !t.done && t.sent == s.sent && t.goroutines != []
    ensures Owner(t) == Polling(Opened(Exchange(s.lastEventID, body)))
  {
    var s1 := Next(s, AfterLoss(i));
    var s2 := Next(s1, DelayOver(i));
    t := Next(s2, ConnectOk(i, body));
    assert Leads(s2, [ConnectOk(i, body)], t) by { assert [ConnectOk(i, body)][1..] == []; }
    assert [DelayOver(i), ConnectOk(i, body)][1..] == [ConnectOk(i, body)];
    assert Leads(s1, [DelayOver(i), ConnectOk(i, body)], t);
    actions := [AfterLoss(i), DelayOver(i), ConnectOk(i, body)];
    assert actions[1..] == [DelayOver(i), ConnectOk(i, body)];
  }
}
