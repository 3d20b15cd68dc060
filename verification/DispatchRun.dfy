/** The dispatcher as an interleaving: the receiving loop, one goroutine a message, the
    wait group, the shared exec-cancel slot, the shutdown code and one log of publication
    attempts. Any goroutine may take the next step. */
module DispatchRun {
  import opened Bytes
  import opened Messages
  import opened Dispatch
  import opened DispatchTask

  datatype Entry = Entry(task: nat, pub: Pub)

  datatype Loop = Receiving | Draining | Over    // in select, in wg.Wait, returned

  datatype SlotOp = Store(task: nat) | Clear(task: nat)

  datatype State = State(
    tasks: seq<Task>,            // one for each message, in the order received
    log: seq<Entry>,             // publication attempts, in the order made
    wg: int,
    loop: Loop,
    ctxDone: bool,
    slot: Option<nat>,           // whose cancel function execCancel holds
    slotOps: seq<SlotOp>,        // history of the slot
    cancelled: set<nat>,         // execs whose own context an exec.cancel cancelled
    code: int,
    closed: bool,                // a shutdown has closed the client
    name: string)                // what the publisher was last told by a rename

  datatype Action =
    | Receive(msg: Message)
    | LeaveLoop(closed: bool)    // the messages channel is closed and empty, or the context done
    | Return                     // wg.Wait returned
    | CancelContext              // from outside
    | Act(i: nat, ans: Answer)

  const INIT := State([], [], 0, Receiving, false, None, [], {}, 0, false, "")

  const SHUTDOWN_CODE := 10

  predicate Enabled(s: State, a: Action) {
    match a
    case Receive(_) => s.loop.Receiving?
    case LeaveLoop(closed) => s.loop.Receiving? && (closed || s.ctxDone)
    case Return => s.loop.Draining? && s.wg == 0
    case CancelContext => true
    case Act(i, _) => i < |s.tasks| && s.tasks[i].pc != Gone
  }

  function ViewOf(s: State, i: nat): View { View(i in s.cancelled || s.ctxDone, s.slot) }

  function Tagged(i: nat, ps: seq<Pub>): seq<Entry> {
    seq(|ps|, k requires 0 <= k < |ps| => Entry(i, ps[k]))
  }

  /** The goroutine's own step and its publication attempt. */
  function Stepped(cfg: Config, s: State, i: nat, ans: Answer): State
    requires i < |s.tasks| && s.tasks[i].pc != Gone
  {
    s.(tasks := s.tasks[i := Step(cfg, s.tasks[i], ViewOf(s, i), ans)],
       log := s.log + Tagged(i, Attempts(s.tasks[i])))
  }

  /** What the step does to the shared fields. */
  function Shared(s: State, i: nat, pc: Pc): State {
    match pc
    case Storing => s.(slot := Some(i), slotOps := s.slotOps + [Store(i)])
    case Clearing(_) => s.(slot := None, slotOps := s.slotOps + [Clear(i)])
    case Cancelling(target) => if target.Some? then s.(cancelled := s.cancelled + {target.value}) else s
    case ClosingClient => s.(closed := true)
    case CancellingAll => s.(ctxDone := true)
    case Renaming(newName) => if newName != "" then s.(name := newName) else s
    case SettingCode => s.(code := SHUTDOWN_CODE)
    case Returned => s.(wg := s.wg - 1)
    case _ => s
  }

  function Next(cfg: Config, s: State, a: Action): State
    requires Enabled(s, a)
  {
    match a
    case Receive(msg) => s.(tasks := s.tasks + [Spawned(msg)], wg := s.wg + 1)
    case LeaveLoop(_) => s.(loop := Draining)
    case Return => s.(loop := Over)
    case CancelContext => s.(ctxDone := true)
    case Act(i, ans) => Shared(Stepped(cfg, s, i, ans), i, s.tasks[i].pc)
  }

  predicate Leads(cfg: Config, s: State, actions: seq<Action>, t: State)
    decreases |actions|
  {
    if actions == [] then s == t
    else Enabled(s, actions[0]) && Leads(cfg, Next(cfg, s, actions[0]), actions[1..], t)
  }

  // ---------- the log of one task ----------

  function Projection(log: seq<Entry>, i: nat): seq<Pub> {
    if log == [] then []
    else Projection(log[..|log| - 1], i) + if log[|log| - 1].task == i then [log[|log| - 1].pub] else []
  }

  lemma ProjectionOne(log: seq<Entry>, e: Entry, i: nat)
    ensures Projection(log + [e], i) == Projection(log, i) + if e.task == i then [e.pub] else []
  {
    assert (log + [e])[..|log|] == log;
  }

  lemma ProjectionStep(log: seq<Entry>, j: nat, ps: seq<Pub>, i: nat)
    requires |ps| <= 1
    ensures Projection(log + Tagged(j, ps), i) == Projection(log, i) + if i == j then ps else []
  {
    if ps == [] {
      assert log + Tagged(j, ps) == log;
    } else {
      assert Tagged(j, ps) == [Entry(j, ps[0])] && ps == [ps[0]];
      ProjectionOne(log, Entry(j, ps[0]), i);
    }
  }

  lemma {:induction false} ProjectionUnused(log: seq<Entry>, i: nat)
    requires forall k :: 0 <= k < |log| ==> log[k].task != i
    ensures Projection(log, i) == []
  {
    if log != [] { ProjectionUnused(log[..|log| - 1], i); }
  }

  // ---------- every trace fits ----------

  predicate TracesInv(cfg: Config, s: State) {
    && (forall k :: 0 <= k < |s.log| ==> s.log[k].task < |s.tasks|)
    && forall i :: 0 <= i < |s.tasks| ==> Fits(cfg, s.tasks[i], Projection(s.log, i))
  }

  lemma SharedKeepsTasks(s: State, i: nat, pc: Pc)
    ensures Shared(s, i, pc).tasks == s.tasks && Shared(s, i, pc).log == s.log && Shared(s, i, pc).loop == s.loop
  {
  }

  lemma TracesAct(cfg: Config, s: State, i: nat, ans: Answer)
    requires TracesInv(cfg, s) && i < |s.tasks| && s.tasks[i].pc != Gone
    ensures TracesInv(cfg, Stepped(cfg, s, i, ans))
  {
    var t := Stepped(cfg, s, i, ans);
    forall j | 0 <= j < |s.tasks|
      ensures Fits(cfg, t.tasks[j], Projection(t.log, j))
    {
      ProjectionStep(s.log, i, Attempts(s.tasks[i]), j);
      if j == i {
        FitsStep(cfg, s.tasks[i], ViewOf(s, i), ans, Projection(s.log, i));
      } else {
        assert Projection(s.log, j) + [] == Projection(s.log, j);
      }
    }
  }

  lemma TracesReceive(cfg: Config, s: State, msg: Message)
    requires TracesInv(cfg, s)
    ensures TracesInv(cfg, s.(tasks := s.tasks + [Spawned(msg)], wg := s.wg + 1))
  {
    FitsSpawned(cfg, msg);
    ProjectionUnused(s.log, |s.tasks|);
  }

  lemma TracesStep(cfg: Config, s: State, a: Action)
    requires TracesInv(cfg, s) && Enabled(s, a)
    ensures TracesInv(cfg, Next(cfg, s, a))
  {
    match a
    case Receive(msg) => TracesReceive(cfg, s, msg);
    case Act(i, ans) =>
      TracesAct(cfg, s, i, ans);
      SharedKeepsTasks(Stepped(cfg, s, i, ans), i, s.tasks[i].pc);
    case _ =>
  }

  // ---------- the wait group counts the live goroutines ----------

  function Live(tasks: seq<Task>): nat {
    if tasks == [] then 0 else Live(tasks[..|tasks| - 1]) + One(tasks[|tasks| - 1].pc != Gone)
  }

  lemma {:induction false} LiveUpdate(tasks: seq<Task>, i: nat, t: Task)
    requires i < |tasks|
    ensures Live(tasks[i := t]) == Live(tasks) - One(tasks[i].pc != Gone) + One(t.pc != Gone)
  {
    var n := |tasks| - 1;
    if i < n {
      LiveUpdate(tasks[..n], i, t);
      assert tasks[i := t][..n] == tasks[..n][i := t];
    } else {
      assert tasks[i := t][..n] == tasks[..n];
    }
  }

  lemma {:induction false} NoneLive(tasks: seq<Task>)
    requires Live(tasks) == 0
    ensures forall i :: 0 <= i < |tasks| ==> tasks[i].pc == Gone
  {
    if tasks != [] { NoneLive(tasks[..|tasks| - 1]); }
  }

  predicate GroupInv(s: State) {
    s.wg == Live(s.tasks) && (s.loop.Over? ==> s.wg == 0)
  }

  lemma GoneOnlyAfterReturned(cfg: Config, t: Task, v: View, ans: Answer)
    requires t.pc != Gone
    ensures Step(cfg, t, v, ans).pc == Gone <==> t.pc == Returned
  {
  }

  lemma SharedGroup(s: State, i: nat, pc: Pc)
    ensures Shared(s, i, pc).wg == s.wg - One(pc == Returned)
  {
  }

  lemma GroupStep(cfg: Config, s: State, a: Action)
    requires GroupInv(s) && Enabled(s, a)
    ensures GroupInv(Next(cfg, s, a))
  {
    match a
    case Receive(msg) =>
      assert (s.tasks + [Spawned(msg)])[..|s.tasks|] == s.tasks;
    case Act(i, ans) =>
      if s.loop.Over? { NoneLive(s.tasks); }
      LiveUpdate(s.tasks, i, Step(cfg, s.tasks[i], ViewOf(s, i), ans));
      GoneOnlyAfterReturned(cfg, s.tasks[i], ViewOf(s, i), ans);
      var m := Stepped(cfg, s, i, ans);
      SharedKeepsTasks(m, i, s.tasks[i].pc);
      SharedGroup(m, i, s.tasks[i].pc);
    case _ =>
  }

  // ---------- shutdown code, gate, command of each task ----------

  predicate PastCode(t: Task) { t.cmd.Shutdown? && (t.pc == Returned || t.pc == Gone) }

  predicate CodeInv(s: State) {
    && (s.code == SHUTDOWN_CODE <==> exists i :: 0 <= i < |s.tasks| && PastCode(s.tasks[i]))
    && (s.code == 0 || s.code == SHUTDOWN_CODE)
  }

  lemma PastCodeStep(cfg: Config, t: Task, v: View, ans: Answer, trace: seq<Pub>)
    requires t.pc != Gone && Fits(cfg, t, trace)
    ensures PastCode(Step(cfg, t, v, ans)) <==> PastCode(t) || t.pc == SettingCode
  {
  }

  lemma CodeStep(cfg: Config, s: State, a: Action)
    requires CodeInv(s) && TracesInv(cfg, s) && Enabled(s, a)
    ensures CodeInv(Next(cfg, s, a))
  {
    var t := Next(cfg, s, a);
    match a
    case Receive(msg) =>
      assert !PastCode(Spawned(msg));
      assert forall i :: 0 <= i < |s.tasks| ==> t.tasks[i] == s.tasks[i];
    case Act(i, ans) =>
      PastCodeStep(cfg, s.tasks[i], ViewOf(s, i), ans, Projection(s.log, i));
      SharedKeepsTasks(Stepped(cfg, s, i, ans), i, s.tasks[i].pc);
      CodeAct(cfg, s, t, i);
    case _ =>
  }

  lemma CodeAct(cfg: Config, s: State, t: State, i: nat)
    requires CodeInv(s) && i < |s.tasks| && |t.tasks| == |s.tasks|
    requires forall j :: 0 <= j < |s.tasks| && j != i ==> t.tasks[j] == s.tasks[j]
    requires PastCode(t.tasks[i]) <==> PastCode(s.tasks[i]) || s.tasks[i].pc == SettingCode
    requires t.code == if s.tasks[i].pc == SettingCode then SHUTDOWN_CODE else s.code
    ensures CodeInv(t)
  {
    if s.tasks[i].pc == SettingCode {
      assert PastCode(t.tasks[i]);
    } else {
      assert forall j :: 0 <= j < |s.tasks| ==> PastCode(t.tasks[j]) == PastCode(s.tasks[j]);
    }
  }

  // ---------- whole runs ----------

  predicate Inv(cfg: Config, s: State) {
    TracesInv(cfg, s) && GroupInv(s) && CodeInv(s)
  }

  lemma InitInv(cfg: Config)
    ensures Inv(cfg, INIT)
  {
  }

  lemma InvStep(cfg: Config, s: State, a: Action)
    requires Inv(cfg, s) && Enabled(s, a)
    ensures Inv(cfg, Next(cfg, s, a))
  {
    TracesStep(cfg, s, a);
    GroupStep(cfg, s, a);
    CodeStep(cfg, s, a);
  }

  lemma {:induction false} InvRun(cfg: Config, s: State, actions: seq<Action>, t: State)
    requires Inv(cfg, s) && Leads(cfg, s, actions, t)
    ensures Inv(cfg, t)
    decreases |actions|
  {
    if actions != [] {
      InvStep(cfg, s, actions[0]);
      InvRun(cfg, Next(cfg, s, actions[0]), actions[1..], t);
    }
  }

  /** Under every interleaving, when Run returns no handler is live and what each message
      published, in order, is a complete trace of its command. */
  lemma EveryTraceComplete(cfg: Config, actions: seq<Action>, t: State)
    requires Leads(cfg, INIT, actions, t) && t.loop.Over?
    ensures forall i :: 0 <= i < |t.tasks| ==>
              t.tasks[i].pc == Gone && Completed(cfg, t.tasks[i], Projection(t.log, i))
  {
    InitInv(cfg);
    InvRun(cfg, INIT, actions, t);
    NoneLive(t.tasks);
    forall i | 0 <= i < |t.tasks|
      ensures Completed(cfg, t.tasks[i], Projection(t.log, i))
    {
      assert Fits(cfg, t.tasks[i], Projection(t.log, i));
    }
  }

  /** When Run returns, the code is 10 exactly if a shutdown was dispatched, although the
      run is cancelled before the code is stored. */
  lemma ShutdownCodeVisible(cfg: Config, actions: seq<Action>, t: State)
    requires Leads(cfg, INIT, actions, t) && t.loop.Over?
    ensures t.code == SHUTDOWN_CODE <==> exists i :: 0 <= i < |t.tasks| && t.tasks[i].cmd.Shutdown?
    ensures t.code != SHUTDOWN_CODE ==> t.code == 0
  {
    InitInv(cfg);
    InvRun(cfg, INIT, actions, t);
    NoneLive(t.tasks);
    assert forall i :: 0 <= i < |t.tasks| ==> PastCode(t.tasks[i]) == t.tasks[i].cmd.Shutdown?;
  }
}
