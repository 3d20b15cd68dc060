/** The worker as one system: the stream client feeds the fan-out, the fan-out feeds the
    dispatcher. Sending an event is enqueuing it, taking a message is dispatching it; all
    other steps belong to one part. Each part learns of a cancel or Close in a step of its
    own, at any moment after it. */
module Worker {
  import opened Bytes
  import opened Messages
  import SseReader
  import SseResume
  import S = SseLifecycle
  import F = Fanout
  import D = DispatchRun
  import Dispatch
  import DispatchTask
  import DispatchCounts
  import DispatchHistory
  import Config

  /** `told`: the run's context has been cancelled or the client closed. */
  datatype State = State(sse: S.State, fan: F.State, disp: D.State, told: bool)

  /** What does not change during a run. */
  datatype World = World(dec: F.Decoder, cfg: Dispatch.Config)

  datatype Action =
    | Tell                       // a cancel from outside, such as a signal
    | Stream(sa: S.Action)       // anything but a send
    | Deliver(i: nat)            // reader `i` sends its event to the fan-out
    | Expand(fa: F.Action)       // taking an event, sending a message, stopping
    | HandOver                   // the dispatcher takes the next message
    | Handle(da: D.Action)       // anything but receiving

  const INIT := State(S.INIT, F.INIT, D.INIT, false)

  /** The events channel is closed and has run empty. */
  predicate EventsEnded(s: State) { s.sse.shutdowns > 0 && s.fan.queue == [] && s.fan.unsent == [] }

  /** The messages channel is closed and has run empty. */
  predicate MessagesEnded(s: State) { !s.fan.running && s.fan.messages == [] }

  ghost predicate Enabled(w: World, s: State, a: Action) {
    match a
    case Tell => true
    case Stream(b) => !b.Send? && S.Enabled(s.sse, b) && (b.Done? ==> s.told)
    case Deliver(i) =>
      S.Enabled(s.sse, S.Send(i)) && F.Enabled(w.dec, s.fan, F.Receive(s.sse.goroutines[i].event))
    case Expand(b) =>
      !b.Receive? && !b.Hand? && F.Enabled(w.dec, s.fan, b) && (b.Stop? ==> s.told || EventsEnded(s))
    case HandOver =>
      F.Enabled(w.dec, s.fan, F.Hand) && D.Enabled(s.disp, D.Receive(s.fan.messages[0]))
    case Handle(b) =>
      && !b.Receive? && D.Enabled(s.disp, b)
      && (b.CancelContext? ==> s.told)
      && (b.LeaveLoop? && b.closed ==> MessagesEnded(s))
  }

  /** A step of a shutdown's handler that closes the client or cancels the run. */
  predicate Tells(s: D.State, a: D.Action) {
    && a.Act? && a.i < |s.tasks|
    && (s.tasks[a.i].pc == DispatchTask.ClosingClient || s.tasks[a.i].pc == DispatchTask.CancellingAll)
  }

  function Next(w: World, s: State, a: Action): State
    requires Enabled(w, s, a)
  {
    match a
    case Tell => s.(told := true)
    case Stream(b) => s.(sse := S.Next(s.sse, b))
    case Deliver(i) =>
      s.(sse := S.Next(s.sse, S.Send(i)),
         fan := F.Next(w.dec, s.fan, F.Receive(s.sse.goroutines[i].event)))
    case Expand(b) => s.(fan := F.Next(w.dec, s.fan, b))
    case HandOver =>
      s.(fan := F.Next(w.dec, s.fan, F.Hand),
         disp := D.Next(w.cfg, s.disp, D.Receive(s.fan.messages[0])))
    case Handle(b) => s.(disp := D.Next(w.cfg, s.disp, b), told := s.told || Tells(s.disp, b))
  }

  ghost predicate Leads(w: World, s: State, actions: seq<Action>, t: State)
    decreases |actions|
  {
    if actions == [] then s == t
    else Enabled(w, s, actions[0]) && Leads(w, Next(w, s, actions[0]), actions[1..], t)
  }

  // ---------- a run of the system is a run of each part ----------

  lemma {:induction false} StreamRun(w: World, s: State, actions: seq<Action>, t: State) returns (as': seq<S.Action>)
    requires Leads(w, s, actions, t)
    ensures S.Leads(s.sse, as', t.sse)
    decreases |actions|
  {
    if actions == [] {
      as' := [];
    } else {
      var rest := StreamRun(w, Next(w, s, actions[0]), actions[1..], t);
      match actions[0]
      case Stream(b) => as' := [b] + rest; assert as'[1..] == rest;
      case Deliver(i) => as' := [S.Send(i)] + rest; assert as'[1..] == rest;
      case _ => as' := rest;
    }
  }

  lemma {:induction false} FanoutRun(w: World, s: State, actions: seq<Action>, t: State) returns (as': seq<F.Action>)
    requires Leads(w, s, actions, t)
    ensures F.Leads(w.dec, s.fan, as', t.fan)
    decreases |actions|
  {
    if actions == [] {
      as' := [];
    } else {
      var rest := FanoutRun(w, Next(w, s, actions[0]), actions[1..], t);
      match actions[0]
      case Deliver(i) => as' := [F.Receive(s.sse.goroutines[i].event)] + rest; assert as'[1..] == rest;
      case Expand(b) => as' := [b] + rest; assert as'[1..] == rest;
      case HandOver => as' := [F.Hand] + rest; assert as'[1..] == rest;
      case _ => as' := rest;
    }
  }

  lemma {:induction false} DispatcherRun(w: World, s: State, actions: seq<Action>, t: State)
    returns (as': seq<D.Action>)
    requires Leads(w, s, actions, t)
    ensures D.Leads(w.cfg, s.disp, as', t.disp)
    decreases |actions|
  {
    if actions == [] {
      as' := [];
    } else {
      var rest := DispatcherRun(w, Next(w, s, actions[0]), actions[1..], t);
      match actions[0]
      case HandOver => as' := [D.Receive(s.fan.messages[0])] + rest; assert as'[1..] == rest;
      case Handle(b) => as' := [b] + rest; assert as'[1..] == rest;
      case _ => as' := rest;
    }
  }

  // ---------- what one part sends is what the next receives ----------

  function Dispatched(tasks: seq<DispatchTask.Task>): (ms: seq<Message>)
    ensures |ms| == |tasks|
    ensures forall i :: 0 <= i < |tasks| ==> ms[i] == tasks[i].msg
  {
    if tasks == [] then [] else Dispatched(tasks[..|tasks| - 1]) + [tasks[|tasks| - 1].msg]
  }

  lemma DispatchedSame(a: seq<DispatchTask.Task>, b: seq<DispatchTask.Task>)
    requires |a| == |b| && forall i :: 0 <= i < |a| ==> a[i].msg == b[i].msg
    ensures Dispatched(a) == Dispatched(b)
  {
  }

  predicate Coupled(s: State) {
    s.fan.received == s.sse.sent && s.fan.taken == Dispatched(s.disp.tasks)
  }

  lemma HandleKeepsMessages(cfg: Dispatch.Config, s: D.State, a: D.Action)
    requires D.Enabled(s, a) && !a.Receive?
    ensures Dispatched(D.Next(cfg, s, a).tasks) == Dispatched(s.tasks)
  {
    if a.Act? {
      D.SharedKeepsTasks(D.Stepped(cfg, s, a.i, a.ans), a.i, s.tasks[a.i].pc);
      DispatchedSame(D.Next(cfg, s, a).tasks, s.tasks);
    }
  }

  lemma DispatchedOneMore(tasks: seq<DispatchTask.Task>, msg: Message)
    ensures Dispatched(tasks + [DispatchTask.Spawned(msg)]) == Dispatched(tasks) + [msg]
  {
    var more := tasks + [DispatchTask.Spawned(msg)];
    assert more[..|more| - 1] == tasks;
  }

  lemma CoupledHandOver(w: World, s: State)
    requires Coupled(s) && Enabled(w, s, HandOver)
    ensures Coupled(Next(w, s, HandOver))
  {
    DispatchedOneMore(s.disp.tasks, s.fan.messages[0]);
  }

  lemma StreamSendsNothing(s: S.State, a: S.Action)
    requires S.Enabled(s, a) && !a.Send?
    ensures S.Next(s, a).sent == s.sent
  {
  }

  lemma CoupledStep(w: World, s: State, a: Action)
    requires Coupled(s) && Enabled(w, s, a)
    ensures Coupled(Next(w, s, a))
  {
    match a
    case Stream(b) => StreamSendsNothing(s.sse, b);
    case HandOver => CoupledHandOver(w, s);
    case Handle(b) => HandleKeepsMessages(w.cfg, s.disp, b);
    case _ =>
  }

  lemma {:induction false} CoupledRun(w: World, s: State, actions: seq<Action>, t: State)
    requires Coupled(s) && Leads(w, s, actions, t)
    ensures Coupled(t)
    decreases |actions|
  {
    if actions != [] {
      CoupledStep(w, s, actions[0]);
      CoupledRun(w, Next(w, s, actions[0]), actions[1..], t);
    }
  }

  /** Each part passes on what it has as soon as the next one can take it: an event while
      64 are not waiting, a message while the dispatcher is receiving; and whatever a part
      can do by itself it can do here. */
  lemma PartsPassOn(w: World, s: State)
    ensures forall i :: 0 <= i < |s.sse.goroutines| && s.sse.goroutines[i].Sending? && |s.fan.queue| < 64 ==>
              Enabled(w, s, Deliver(i))
    ensures s.fan.messages != [] && s.disp.loop.Receiving? ==> Enabled(w, s, HandOver)
    ensures forall b: S.Action :: S.Enabled(s.sse, b) && !b.Send? && !b.Done? ==> Enabled(w, s, Stream(b))
    ensures forall b: F.Action :: F.Enabled(w.dec, s.fan, b) && (b.Take? || b.Send?) ==> Enabled(w, s, Expand(b))
    ensures forall b: D.Action :: D.Enabled(s.disp, b) && (b.Act? || b.Return?) ==> Enabled(w, s, Handle(b))
    ensures s.told ==> Enabled(w, s, Stream(S.Done)) && Enabled(w, s, Handle(D.CancelContext))
    ensures MessagesEnded(s) && s.disp.loop.Receiving? ==> Enabled(w, s, Handle(D.LeaveLoop(true)))
  {
  }

  // ---------- main results ----------

  /** Conservation, whatever the server sends: in every reachable state the messages
      dispatched, then those in the channel, then the rest of the current envelope, then
      any expansion of the queued events, are an expansion of exactly the events read. */
  lemma NothingLostBetween(w: World, actions: seq<Action>, t: State, orders: seq<seq<string>>)
    requires Leads(w, INIT, actions, t)
    requires F.AreOrders(w.dec, t.fan.queue, orders)
    ensures F.Expands(w.dec, t.sse.sent,
                      Dispatched(t.disp.tasks) + t.fan.messages + t.fan.unsent +
                      F.Expansion(w.dec, t.fan.lastOID, t.fan.queue, orders))
  {
    var fa := FanoutRun(w, INIT, actions, t);
    F.Run(w.dec, F.INIT, fa, t.fan);
    F.Conserved(w.dec, t.fan, orders);
    CoupledRun(w, INIT, actions, t);
  }

  /** From the bytes of any connections to the dispatcher: what has been dispatched, waits
      or is still to be expanded is an expansion of what the bytes of each connection mean,
      one connection after the other, and every connection resumed after the last id. */
  lemma FromBytesToDispatch(w: World, actions: seq<Action>, t: State, orders: seq<seq<string>>)
    returns (parts: seq<seq<SseReader.Event>>)
    requires Leads(w, INIT, actions, t)
    requires F.AreOrders(w.dec, t.fan.queue, orders)
    ensures S.Fed(t.sse.exchanges, parts)
    ensures F.Expands(w.dec, Flatten(parts),
                      Dispatched(t.disp.tasks) + t.fan.messages + t.fan.unsent +
                      F.Expansion(w.dec, t.fan.lastOID, t.fan.queue, orders))
  {
    var sa := StreamRun(w, INIT, actions, t);
    parts := S.DeliveredAsRead(sa, t.sse);
    NothingLostBetween(w, actions, t, orders);
  }

  /** From a server's log to the dispatcher: the events read are the first of the log, and
      everything dispatched, waiting or still to be expanded comes from exactly those.
      Nothing is lost, repeated or reordered on the way, whatever connections were cut and
      however the goroutines interleave. */
  lemma EndToEnd(w: World, log: seq<Bytes>, actions: seq<Action>, t: State, orders: seq<seq<string>>)
    requires SseResume.IsLog(log) && Leads(w, INIT, actions, t) && S.ServedFrom(log, t.sse.exchanges)
    requires F.AreOrders(w.dec, t.fan.queue, orders)
    ensures t.sse.sent <= SseResume.LogEvents(log)
    ensures F.Expands(w.dec, t.sse.sent,
                      Dispatched(t.disp.tasks) + t.fan.messages + t.fan.unsent +
                      F.Expansion(w.dec, t.fan.lastOID, t.fan.queue, orders))
  {
    var sa := StreamRun(w, INIT, actions, t);
    S.ResumeWithoutLossOrDuplication(log, sa, t.sse);
    NothingLostBetween(w, actions, t, orders);
  }

  /** Once a whole replay has been read and both channels have run empty, the messages
      dispatched are an expansion of the whole log. */
  lemma WholeLogDispatched(w: World, log: seq<Bytes>, actions: seq<Action>, t: State, i: nat)
    requires SseResume.IsLog(log) && Leads(w, INIT, actions, t) && S.ServedFrom(log, t.sse.exchanges)
    requires S.At(t.sse, i) && (t.sse.goroutines[i].Reading? || t.sse.goroutines[i].Lost?)
    requires var c := t.sse.goroutines[i].conn;
             LF !in c.rest && c.exchange.body == SseResume.Replay(log, c.exchange.asked)
    requires t.fan.queue == [] && t.fan.unsent == [] && t.fan.messages == []
    ensures F.Expands(w.dec, SseResume.LogEvents(log), Dispatched(t.disp.tasks))
  {
    var sa := StreamRun(w, INIT, actions, t);
    S.WholeReplayDeliversAll(log, sa, t.sse, i);
    NothingLostBetween(w, actions, t, []);
    var ms := Dispatched(t.disp.tasks);
    assert ms + [] + [] + F.Expansion(w.dec, t.fan.lastOID, [], []) == ms;
  }

  /** When Run returns, every message dispatched has been answered completely, and the exit
      code is 10 exactly if one of them was a shutdown. */
  lemma EveryMessageAnswered(w: World, actions: seq<Action>, t: State)
    requires Leads(w, INIT, actions, t) && t.disp.loop.Over?
    ensures forall i :: 0 <= i < |t.disp.tasks| ==>
              var k := t.disp.tasks[i];
              && k.msg == Dispatched(t.disp.tasks)[i] && k.cmd == Dispatch.CommandOf(k.msg.event)
              && Dispatch.CompleteTrace(w.cfg, k.msg, k.cmd, k.heard, k.byUser, D.Projection(t.disp.log, i))
    ensures t.disp.code == D.SHUTDOWN_CODE <==> exists i :: 0 <= i < |t.disp.tasks| && t.disp.tasks[i].cmd.Shutdown?
  {
    var da := DispatcherRun(w, INIT, actions, t);
    D.EveryTraceComplete(w.cfg, da, t.disp);
    D.ShutdownCodeVisible(w.cfg, da, t.disp);
    DispatchCounts.CommandsRun(w.cfg, D.INIT, da, t.disp);
  }

  /** The gate from the configuration file to the handler: whenever a task acts, the verb
      of its command is allowed by the lists the dispatcher was configured with. */
  lemma ConfiguredVerbsOnly(w: World, allow: seq<string>, deny: seq<string>, actions: seq<Action>, t: State, i: nat)
    requires Leads(w, INIT, actions, t)
    requires w.cfg.allowed.Some? && forall v :: v in w.cfg.allowed.value <==> Config.Allows(allow, deny, v)
    requires i < |t.disp.tasks| && DispatchCounts.Acting(t.disp.tasks[i])
    ensures var c := Dispatch.CommandOf(t.disp.tasks[i].msg.event);
            Dispatch.Controlled(c) && Config.Allows(allow, deny, Dispatch.VerbOf(c))
  {
    var da := DispatcherRun(w, INIT, actions, t);
    DispatchCounts.OnlyAllowedVerbsAct(w.cfg, da, t.disp, i);
  }

  // ---------- why Run returns ----------

  predicate ShutdownSeen(tasks: seq<DispatchTask.Task>) {
    exists i :: 0 <= i < |tasks| && tasks[i].cmd.Shutdown?
  }

  /** Nothing ends by itself: every part that has stopped was told to, or follows one that
      was; and `outside` or a shutdown told it. */
  predicate ToldInv(w: World, s: State, outside: bool) {
    && S.ChannelInv(s.sse) && D.Inv(w.cfg, s.disp)
    && (s.sse.done || !s.fan.running || s.disp.ctxDone || !s.disp.loop.Receiving? ==> s.told)
    && (s.told ==> outside || ShutdownSeen(s.disp.tasks))
  }

  lemma DispatcherTold(cfg: Dispatch.Config, s: D.State, a: D.Action)
    requires D.Inv(cfg, s) && D.Enabled(s, a)
    ensures var t := D.Next(cfg, s, a);
            && (ShutdownSeen(s.tasks) || Tells(s, a) ==> ShutdownSeen(t.tasks))
            && (t.ctxDone ==> s.ctxDone || a.CancelContext? || Tells(s, a))
            && (!t.loop.Receiving? ==> !s.loop.Receiving? || s.ctxDone || (a.LeaveLoop? && a.closed))
  {
    SeenStays(cfg, s, a);
    if Tells(s, a) { TellsIsShutdown(cfg, s, a); }
    if a.Act? { ActTells(cfg, s, a); }
  }

  lemma ActTells(cfg: Dispatch.Config, s: D.State, a: D.Action)
    requires D.Enabled(s, a) && a.Act?
    ensures var t := D.Next(cfg, s, a); t.loop == s.loop && (t.ctxDone ==> s.ctxDone || Tells(s, a))
  {
    D.SharedKeepsTasks(D.Stepped(cfg, s, a.i, a.ans), a.i, s.tasks[a.i].pc);
  }

  lemma SeenStays(cfg: Dispatch.Config, s: D.State, a: D.Action)
    requires D.Enabled(s, a)
    ensures var t := D.Next(cfg, s, a);
            |s.tasks| <= |t.tasks| && forall i :: 0 <= i < |s.tasks| ==> t.tasks[i].cmd == s.tasks[i].cmd
  {
    if a.Act? { D.SharedKeepsTasks(D.Stepped(cfg, s, a.i, a.ans), a.i, s.tasks[a.i].pc); }
  }

  lemma TellsIsShutdown(cfg: Dispatch.Config, s: D.State, a: D.Action)
    requires D.Inv(cfg, s) && Tells(s, a)
    ensures s.tasks[a.i].cmd.Shutdown?
  {
    assert DispatchTask.Fits(cfg, s.tasks[a.i], D.Projection(s.log, a.i));
  }

  lemma ToldStep(w: World, s: State, a: Action, outside: bool)
    requires ToldInv(w, s, outside) && Enabled(w, s, a) && (a.Tell? ==> outside)
    ensures ToldInv(w, Next(w, s, a), outside)
  {
    match a
    case Stream(b) => S.ChannelStep(s.sse, b);
    case Deliver(i) => S.ChannelStep(s.sse, S.Send(i));
    case HandOver =>
      D.InvStep(w.cfg, s.disp, D.Receive(s.fan.messages[0]));
      DispatcherTold(w.cfg, s.disp, D.Receive(s.fan.messages[0]));
    case Handle(b) =>
      D.InvStep(w.cfg, s.disp, b);
      DispatcherTold(w.cfg, s.disp, b);
    case _ =>
  }

  lemma {:induction false} ToldRun(w: World, s: State, actions: seq<Action>, t: State, outside: bool)
    requires ToldInv(w, s, outside) && Leads(w, s, actions, t) && (Tell in actions ==> outside)
    ensures ToldInv(w, t, outside)
    decreases |actions|
  {
    if actions != [] {
      assert actions[0] in actions;
      ToldStep(w, s, actions[0], outside);
      ToldRun(w, Next(w, s, actions[0]), actions[1..], t, outside);
    }
  }

  /** Run does not return by itself: the receiving loop ends only after a cancel or Close,
      and unless that came from outside it came from a shutdown message, so that the exit
      code is 10. */
  lemma RunReturnsOnlyWhenTold(w: World, actions: seq<Action>, t: State)
    requires Leads(w, INIT, actions, t)
    ensures !t.disp.loop.Receiving? ==> t.told
    ensures Tell in actions ==> t.told
    ensures t.told && Tell !in actions ==>
              exists i :: 0 <= i < |t.disp.tasks| && t.disp.tasks[i].msg.event == "worker.shutdown"
    ensures t.disp.loop.Over? && Tell !in actions ==> t.disp.code == 10
  {
    D.InitInv(w.cfg);
    ToldStays(w, INIT, actions, t);
    ToldRun(w, INIT, actions, t, Tell in actions);
    var da := DispatcherRun(w, INIT, actions, t);
    SeenByEvent(w.cfg, da, t.disp);
    if t.disp.loop.Over? {
      D.ShutdownCodeVisible(w.cfg, da, t.disp);
    }
  }

  lemma {:induction false} ToldStays(w: World, s: State, actions: seq<Action>, t: State)
    requires Leads(w, s, actions, t)
    ensures s.told || Tell in actions ==> t.told
    decreases |actions|
  {
    if actions != [] {
      assert Tell in actions <==> actions[0] == Tell || Tell in actions[1..];
      ToldStays(w, Next(w, s, actions[0]), actions[1..], t);
    }
  }

  lemma SeenByEvent(cfg: Dispatch.Config, da: seq<D.Action>, t: D.State)
    requires D.Leads(cfg, D.INIT, da, t)
    ensures ShutdownSeen(t.tasks) <==> exists i :: 0 <= i < |t.tasks| && t.tasks[i].msg.event == "worker.shutdown"
  {
    DispatchCounts.CommandsRun(cfg, D.INIT, da, t);
    forall i | 0 <= i < |t.tasks|
      ensures t.tasks[i].cmd.Shutdown? <==> t.tasks[i].msg.event == "worker.shutdown"
    {
      DispatchHistory.ShutdownCommand(t.tasks[i].msg.event);
    }
  }
}
