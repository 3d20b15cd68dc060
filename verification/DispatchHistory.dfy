/** The dispatcher's fields told by the steps that were taken: what a run has done to the
    context, the slot and the cancelled execs, which answers a goroutine got and whether it
    found itself cancelled, read off the list of actions. */
module DispatchHistory {
  import opened Bytes
  import opened Messages
  import opened Dispatch
  import opened DispatchTask
  import opened DispatchRun
  import DispatchAnswers
  import DispatchCounts

  /** Goroutine `i` has taken the step at `pc`. */
  datatype Taken = Taken(i: nat, pc: Pc)

  /** The step of a goroutine that an action is, if it is one. */
  function StepOf(s: State, a: Action): (step: seq<Taken>)
    requires Enabled(s, a)
    ensures |step| <= 1
  {
    if a.Act? then [Taken(a.i, s.tasks[a.i].pc)] else []
  }

  function StepsOf(cfg: Config, s: State, actions: seq<Action>): seq<Taken>
    decreases |actions|
  {
    if actions == [] || !Enabled(s, actions[0]) then []
    else StepOf(s, actions[0]) + StepsOf(cfg, Next(cfg, s, actions[0]), actions[1..])
  }

  // ---------- context, cancelled execs, code, client ----------

  /** What one action does to these fields. */
  lemma ActionShape(cfg: Config, s: State, a: Action)
    requires Enabled(s, a)
    ensures var t := Next(cfg, s, a);
            var pc := if a.Act? then s.tasks[a.i].pc else Acking;
            && (t.ctxDone <==> s.ctxDone || a.CancelContext? || pc == CancellingAll)
            && (forall k :: k in t.cancelled <==> k in s.cancelled || pc == Cancelling(Some(k)))
            && t.code == (if pc == SettingCode then 10 else s.code)
            && (t.closed <==> s.closed || pc == ClosingClient)
            && t.slot == (if pc == Storing then Some(a.i) else if pc.Clearing? then None else s.slot)
  {
    if a.Act? { SharedKeepsTasks(Stepped(cfg, s, a.i, a.ans), a.i, s.tasks[a.i].pc); }
  }

  /** Some goroutine has taken a step at `pc`. */
  predicate Happened(steps: seq<Taken>, pc: Pc) {
    steps != [] && (steps[0].pc == pc || Happened(steps[1..], pc))
  }

  lemma HappenedCons(first: seq<Taken>, rest: seq<Taken>, pc: Pc)
    requires |first| <= 1
    ensures Happened(first + rest, pc) <==> (first != [] && first[0].pc == pc) || Happened(rest, pc)
  {
    if first == [] {
      assert first + rest == rest;
    } else {
      assert (first + rest)[1..] == rest;
    }
  }

  /** The context is done exactly if it was cancelled from outside or by a shutdown. */
  lemma {:induction false} ContextBySteps(cfg: Config, s: State, actions: seq<Action>, t: State)
    requires Leads(cfg, s, actions, t)
    ensures t.ctxDone <==> s.ctxDone || CancelContext in actions || Happened(StepsOf(cfg, s, actions), CancellingAll)
    decreases |actions|
  {
    if actions != [] {
      var a, u := actions[0], Next(cfg, s, actions[0]);
      ActionShape(cfg, s, a);
      ContextBySteps(cfg, u, actions[1..], t);
      HappenedCons(StepOf(s, a), StepsOf(cfg, u, actions[1..]), CancellingAll);
      assert CancelContext in actions <==> a == CancelContext || CancelContext in actions[1..];
    }
  }

  /** An exec's context has been cancelled exactly if an exec.cancel that had taken its
      cancel function has called it. */
  lemma {:induction false} CancelledBySteps(cfg: Config, s: State, actions: seq<Action>, t: State, k: nat)
    requires Leads(cfg, s, actions, t)
    ensures k in t.cancelled <==> k in s.cancelled || Happened(StepsOf(cfg, s, actions), Cancelling(Some(k)))
    decreases |actions|
  {
    if actions != [] {
      var a, u := actions[0], Next(cfg, s, actions[0]);
      ActionShape(cfg, s, a);
      CancelledBySteps(cfg, u, actions[1..], t, k);
      HappenedCons(StepOf(s, a), StepsOf(cfg, u, actions[1..]), Cancelling(Some(k)));
    }
  }

  /** The slot as the last store or clear has left it. */
  function SlotAfter(steps: seq<Taken>, slot: Option<nat>): Option<nat> {
    if steps == [] then slot
    else if steps[|steps| - 1].pc == Storing then Some(steps[|steps| - 1].i)
    else if steps[|steps| - 1].pc.Clearing? then None
    else SlotAfter(steps[..|steps| - 1], slot)
  }

  lemma {:induction false} SlotAfterCons(first: seq<Taken>, rest: seq<Taken>, slot: Option<nat>)
    ensures SlotAfter(first + rest, slot) == SlotAfter(rest, SlotAfter(first, slot))
    decreases |rest|
  {
    if rest == [] {
      assert first + rest == first;
    } else {
      assert (first + rest)[..|first + rest| - 1] == first + rest[..|rest| - 1];
      SlotAfterCons(first, rest[..|rest| - 1], slot);
    }
  }

  lemma {:induction false} SlotBySteps(cfg: Config, s: State, actions: seq<Action>, t: State)
    requires Leads(cfg, s, actions, t)
    ensures t.slot == SlotAfter(StepsOf(cfg, s, actions), s.slot)
    decreases |actions|
  {
    if actions != [] {
      var a, u := actions[0], Next(cfg, s, actions[0]);
      ActionShape(cfg, s, a);
      SlotBySteps(cfg, u, actions[1..], t);
      var first := StepOf(s, a);
      SlotAfterCons(first, StepsOf(cfg, u, actions[1..]), s.slot);
      assert SlotAfter(first, s.slot) == u.slot by { assert first != [] ==> first[..0] == []; }
    }
  }

  // ---------- answers, and being cancelled ----------

  /** The answers that goroutine `i` has got to its questions. */
  function AnswersGiven(cfg: Config, s: State, actions: seq<Action>, i: nat): seq<Answer>
    decreases |actions|
  {
    if actions == [] || !Enabled(s, actions[0]) then []
    else AnswerOf(s, actions[0], i) + AnswersGiven(cfg, Next(cfg, s, actions[0]), actions[1..], i)
  }

  function AnswerOf(s: State, a: Action, i: nat): seq<Answer>
    requires Enabled(s, a)
  {
    if a.Act? && a.i == i && Asking(s.tasks[i].pc) then [a.ans] else []
  }

  predicate FindsCancelled(s: State, a: Action, i: nat)
    requires Enabled(s, a)
  {
    a.Act? && a.i == i && s.tasks[i].pc == Deciding(Failed) && (i in s.cancelled || s.ctxDone)
  }

  /** Goroutine `i` looked at its context after a failed execution and found it cancelled. */
  predicate FoundCancelled(cfg: Config, s: State, actions: seq<Action>, i: nat)
    decreases |actions|
  {
    actions != [] && Enabled(s, actions[0]) &&
    (FindsCancelled(s, actions[0], i) || FoundCancelled(cfg, Next(cfg, s, actions[0]), actions[1..], i))
  }

  function HeardNow(s: State, i: nat): seq<Answer> {
    if i < |s.tasks| then s.tasks[i].heard else []
  }

  predicate ByUserNow(s: State, i: nat) { i < |s.tasks| && s.tasks[i].byUser }

  lemma HeardStep(cfg: Config, s: State, a: Action, i: nat)
    requires Enabled(s, a)
    ensures HeardNow(Next(cfg, s, a), i) == HeardNow(s, i) + AnswerOf(s, a, i)
    ensures ByUserNow(Next(cfg, s, a), i) <==> (ByUserNow(s, i) || FindsCancelled(s, a, i))
  {
    if a.Act? { SharedKeepsTasks(Stepped(cfg, s, a.i, a.ans), a.i, s.tasks[a.i].pc); }
  }

  lemma {:induction false} HeardFrom(cfg: Config, s: State, actions: seq<Action>, t: State, i: nat)
    requires Leads(cfg, s, actions, t)
    ensures HeardNow(t, i) == HeardNow(s, i) + AnswersGiven(cfg, s, actions, i)
    ensures ByUserNow(t, i) <==> ByUserNow(s, i) || FoundCancelled(cfg, s, actions, i)
    decreases |actions|
  {
    if actions == [] {
      assert HeardNow(s, i) + [] == HeardNow(s, i);
    } else {
      var a, u := actions[0], Next(cfg, s, actions[0]);
      HeardStep(cfg, s, a, i);
      HeardFrom(cfg, u, actions[1..], t, i);
      AppendAssociates(HeardNow(s, i), AnswerOf(s, a, i), AnswersGiven(cfg, u, actions[1..], i));
    }
  }

  /** What a goroutine has heard are the answers it was given, and it took the
      cancelled-by-user branch exactly if it found itself cancelled after a failure. */
  lemma HeardIsWhatWasAnswered(cfg: Config, actions: seq<Action>, t: State, i: nat)
    requires Leads(cfg, INIT, actions, t) && i < |t.tasks|
    ensures t.tasks[i].heard == AnswersGiven(cfg, INIT, actions, i)
    ensures t.tasks[i].byUser <==> FoundCancelled(cfg, INIT, actions, i)
  {
    HeardFrom(cfg, INIT, actions, t, i);
    assert [] + AnswersGiven(cfg, INIT, actions, i) == AnswersGiven(cfg, INIT, actions, i);
  }

  // ---------- what is received ----------

  function Received(actions: seq<Action>): seq<Message> {
    if actions == [] then []
    else (if actions[0].Receive? then [actions[0].msg] else []) + Received(actions[1..])
  }

  /** What is received after the loop has been left. */
  function ReceivedAfterLeaving(actions: seq<Action>): seq<Message> {
    if actions == [] then []
    else if actions[0].LeaveLoop? then Received(actions[1..])
    else ReceivedAfterLeaving(actions[1..])
  }

  function MessagesOf(tasks: seq<Task>): (ms: seq<Message>)
    ensures |ms| == |tasks| && forall i :: 0 <= i < |ms| ==> ms[i] == tasks[i].msg
  {
    seq(|tasks|, i requires 0 <= i < |tasks| => tasks[i].msg)
  }

  lemma ReceivedStep(cfg: Config, s: State, a: Action)
    requires Enabled(s, a)
    ensures MessagesOf(Next(cfg, s, a).tasks) == MessagesOf(s.tasks) + if a.Receive? then [a.msg] else []
    ensures Next(cfg, s, a).loop.Receiving? <==> s.loop.Receiving? && !a.LeaveLoop?
    ensures a.Receive? ==> s.loop.Receiving?
  {
    if a.Act? { SharedKeepsTasks(Stepped(cfg, s, a.i, a.ans), a.i, s.tasks[a.i].pc); }
  }

  lemma {:induction false} ReceivedFrom(cfg: Config, s: State, actions: seq<Action>, t: State)
    requires Leads(cfg, s, actions, t)
    ensures MessagesOf(t.tasks) == MessagesOf(s.tasks) + Received(actions)
    ensures (if s.loop.Receiving? then ReceivedAfterLeaving(actions) else Received(actions)) == []
    decreases |actions|
  {
    if actions == [] {
      assert MessagesOf(s.tasks) + [] == MessagesOf(s.tasks);
    } else {
      var a, u := actions[0], Next(cfg, s, actions[0]);
      ReceivedStep(cfg, s, a);
      ReceivedFrom(cfg, u, actions[1..], t);
      var one := if a.Receive? then [a.msg] else [];
      AppendAssociates(MessagesOf(s.tasks), one, Received(actions[1..]));
    }
  }

  /** The goroutines are those of the messages received, in order, one each, and none is
      received once the loop has been left. */
  lemma OneGoroutineEach(cfg: Config, actions: seq<Action>, t: State)
    requires Leads(cfg, INIT, actions, t)
    ensures MessagesOf(t.tasks) == Received(actions)
    ensures ReceivedAfterLeaving(actions) == []
  {
    ReceivedFrom(cfg, INIT, actions, t);
    assert [] + Received(actions) == Received(actions);
  }

  // ---------- whole runs ----------

  /** When Run returns, each message has been answered completely for the answers it was
      given, whatever else went on. */
  lemma AnsweredAsGiven(cfg: Config, actions: seq<Action>, t: State, i: nat)
    requires Leads(cfg, INIT, actions, t) && t.loop.Over? && i < |t.tasks|
    ensures var msg := t.tasks[i].msg;
            CompleteTrace(cfg, msg, CommandOf(msg.event), AnswersGiven(cfg, INIT, actions, i),
                          FoundCancelled(cfg, INIT, actions, i), Projection(t.log, i))
  {
    EveryTraceComplete(cfg, actions, t);
    HeardIsWhatWasAnswered(cfg, actions, t, i);
    DispatchCounts.CommandsRun(cfg, INIT, actions, t);
  }

  /** When Run returns, every allowed worker.exec with a command has been acknowledged and
      answered with the return code its executor gave; with 130 if that failed and the exec
      found itself cancelled; with 99 if it failed otherwise. */
  lemma ExecAnsweredInRun(cfg: Config, actions: seq<Action>, t: State, i: nat)
    requires Leads(cfg, INIT, actions, t) && t.loop.Over? && i < |t.tasks|
    requires t.tasks[i].msg.event == "worker.exec" && "cmd" in t.tasks[i].msg.data && DispatchAnswers.May(cfg, "exec")
    ensures var given := AnswersGiven(cfg, INIT, actions, i);
            && |given| == 1
            && Projection(t.log, i) == [Ack("worker.exec", t.tasks[i].msg.oid),
                                        Result(t.tasks[i].msg.oid,
                                               if given[0].ok then given[0].rc
                                               else if FoundCancelled(cfg, INIT, actions, i) then 130 else 99),
                                        Done(t.tasks[i].msg.oid)]
  {
    AnsweredAsGiven(cfg, actions, t, i);
    DispatchAnswers.ExecAnswer(cfg, t.tasks[i].msg, AnswersGiven(cfg, INIT, actions, i),
                               FoundCancelled(cfg, INIT, actions, i), Projection(t.log, i));
  }

  lemma {:induction false} ClosedRun(cfg: Config, s: State, actions: seq<Action>, t: State)
    requires Leads(cfg, s, actions, t) && Inv(cfg, s)
    requires s.closed <==> exists i :: 0 <= i < |s.tasks| && PastClosing(s.tasks[i])
    ensures t.closed <==> exists i :: 0 <= i < |t.tasks| && PastClosing(t.tasks[i])
    decreases |actions|
  {
    if actions != [] {
      ClosedStep(cfg, s, actions[0]);
      InvStep(cfg, s, actions[0]);
      ClosedRun(cfg, Next(cfg, s, actions[0]), actions[1..], t);
    }
  }

  predicate PastClosing(t: Task) {
    t.cmd.Shutdown? && (t.pc == CancellingAll || t.pc == SettingCode || t.pc == Returned || t.pc == Gone)
  }

  lemma PastClosingStep(cfg: Config, t: Task, v: View, ans: Answer, trace: seq<Pub>)
    requires t.pc != Gone && Fits(cfg, t, trace)
    ensures PastClosing(Step(cfg, t, v, ans)) <==> PastClosing(t) || t.pc == ClosingClient
  {
  }

  lemma ClosedStep(cfg: Config, s: State, a: Action)
    requires Enabled(s, a) && Inv(cfg, s)
    requires s.closed <==> exists i :: 0 <= i < |s.tasks| && PastClosing(s.tasks[i])
    ensures var t := Next(cfg, s, a); t.closed <==> exists i :: 0 <= i < |t.tasks| && PastClosing(t.tasks[i])
  {
    var t := Next(cfg, s, a);
    ActionShape(cfg, s, a);
    if a.Act? {
      SharedKeepsTasks(Stepped(cfg, s, a.i, a.ans), a.i, s.tasks[a.i].pc);
      assert Fits(cfg, s.tasks[a.i], Projection(s.log, a.i));
      PastClosingStep(cfg, s.tasks[a.i], ViewOf(s, a.i), a.ans, Projection(s.log, a.i));
      OneMoved(s, t, a.i);
    } else {
      assert forall i :: 0 <= i < |s.tasks| ==> t.tasks[i] == s.tasks[i];
      assert a.Receive? ==> !PastClosing(t.tasks[|s.tasks|]);
    }
  }

  lemma OneMoved(s: State, t: State, i: nat)
    requires i < |s.tasks| && |t.tasks| == |s.tasks|
    requires forall j :: 0 <= j < |s.tasks| && j != i ==> t.tasks[j] == s.tasks[j]
    requires PastClosing(t.tasks[i]) <==> PastClosing(s.tasks[i]) || s.tasks[i].pc == ClosingClient
    requires s.closed <==> exists i :: 0 <= i < |s.tasks| && PastClosing(s.tasks[i])
    requires t.closed <==> s.closed || s.tasks[i].pc == ClosingClient
    ensures t.closed <==> exists i :: 0 <= i < |t.tasks| && PastClosing(t.tasks[i])
  {
    if s.tasks[i].pc == ClosingClient {
      assert PastClosing(t.tasks[i]);
    } else {
      assert forall j :: 0 <= j < |s.tasks| ==> PastClosing(t.tasks[j]) == PastClosing(s.tasks[j]);
    }
  }

  /** When Run returns, the exit code is 10 and the client is closed if a "worker.shutdown"
      was among the messages; otherwise the code is 0 and the client is open. */
  lemma ShutdownByEvent(cfg: Config, actions: seq<Action>, t: State)
    requires Leads(cfg, INIT, actions, t) && t.loop.Over?
    ensures var shutdown := exists i :: 0 <= i < |t.tasks| && t.tasks[i].msg.event == "worker.shutdown";
            t.code == (if shutdown then 10 else 0) && t.closed == shutdown
  {
    InitInv(cfg);
    EveryTraceComplete(cfg, actions, t);
    ShutdownCodeVisible(cfg, actions, t);
    ClosedRun(cfg, INIT, actions, t);
    DispatchCounts.CommandsRun(cfg, INIT, actions, t);
    forall i | 0 <= i < |t.tasks|
      ensures PastClosing(t.tasks[i]) == t.tasks[i].cmd.Shutdown? == (t.tasks[i].msg.event == "worker.shutdown")
    {
      ShutdownCommand(t.tasks[i].msg.event);
    }
  }

  lemma ShutdownCommand(event: string)
    ensures CommandOf(event).Shutdown? <==> event == "worker.shutdown"
  {
  }
}
