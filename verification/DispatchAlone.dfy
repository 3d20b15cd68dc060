/** The object and the machine: a message's goroutine that runs alone, from spawned to gone,
    leaves the shared fields exactly as the dispatcher object's Dispatch does. */
module DispatchAlone {
  import opened Bytes
  import opened Messages
  import opened Dispatch
  import opened DispatchTask
  import opened DispatchRun
  import opened DispatchHandlers

  function Pubs(log: seq<Entry>): seq<Pub> {
    seq(|log|, k requires 0 <= k < |log| => log[k].pub)
  }

  /** The machine's shared fields, as the object has them. */
  function FieldsOf(s: State): Fields {
    Fields(Pubs(s.log), s.slot, s.cancelled, s.ctxDone, s.code, s.closed, s.name)
  }

  // ---------- the shared fields at each program counter ----------

  predicate Past(pc: Pc) { pc.Publishing? || pc == Returned || pc == Gone }

  function SlotNow(f: Fields, t: Task, i: nat): Option<nat> {
    if !t.cmd.Exec? then f.slot
    else if t.pc == Executing || t.pc.Clearing? then Some(i)
    else if t.pc.Deciding? || (Past(t.pc) && t.heard != []) then None
    else f.slot
  }

  function CancelledNow(f: Fields, t: Task): set<nat> {
    if t.cmd.ExecCancel? && Past(t.pc) && f.slot.Some? then f.cancelled + {f.slot.value} else f.cancelled
  }

  predicate CtxNow(cfg: Config, f: Fields, t: Task) {
    f.ctxDone || (t.cmd.Shutdown? && cfg.hasCancelFunc && (t.pc == SettingCode || Past(t.pc)))
  }

  function CodeNow(f: Fields, t: Task): int {
    if t.cmd.Shutdown? && Past(t.pc) then SHUTDOWN_CODE else f.code
  }

  predicate ClosedNow(f: Fields, t: Task) {
    f.closed || (t.cmd.Shutdown? && (t.pc == CancellingAll || t.pc == SettingCode || Past(t.pc)))
  }

  function NameNow(f: Fields, t: Task): string {
    var newName := TextField(t.msg.data, "new_name");
    if t.cmd.Rename? && Past(t.pc) && newName != "" then newName else f.name
  }

  /** What a goroutine on its own has found out about the shared fields. */
  predicate Informed(cfg: Config, f: Fields, t: Task, i: nat) {
    && (t.pc.Cancelling? ==> t.pc.target == f.slot)
    && (t.pc == CancellingAll ==> cfg.hasCancelFunc)
    && (t.cmd.ExecCancel? || t.cmd.Rename? ==> !t.pc.Publishing?)
    && (t.cmd.Exec? && Past(t.pc) && t.heard != [] && !t.heard[0].ok ==>
          (t.byUser <==> f.ctxDone || i in f.cancelled))
  }

  predicate SharedNow(cfg: Config, f: Fields, s: State, i: nat)
    requires i < |s.tasks|
  {
    var t := s.tasks[i];
    && s.slot == SlotNow(f, t, i) && s.cancelled == CancelledNow(f, t)
    && s.ctxDone == CtxNow(cfg, f, t) && s.code == CodeNow(f, t)
    && s.closed == ClosedNow(f, t) && s.name == NameNow(f, t)
    && Informed(cfg, f, t, i)
  }

  // ---------- every step of the goroutine keeps it so ----------

  /** What a step of goroutine `i` does, field by field. */
  lemma ActShape(cfg: Config, s: State, i: nat, ans: Answer)
    requires i < |s.tasks| && s.tasks[i].pc != Gone
    ensures var t, pc := Next(cfg, s, Act(i, ans)), s.tasks[i].pc;
            && t.tasks == s.tasks[i := Step(cfg, s.tasks[i], ViewOf(s, i), ans)]
            && t.log == s.log + Tagged(i, Attempts(s.tasks[i]))
            && t.slot == (if pc == Storing then Some(i) else if pc.Clearing? then None else s.slot)
            && t.cancelled == s.cancelled + (if pc.Cancelling? && pc.target.Some? then {pc.target.value} else {})
            && t.ctxDone == (s.ctxDone || pc == CancellingAll)
            && t.code == (if pc == SettingCode then SHUTDOWN_CODE else s.code)
            && t.closed == (s.closed || pc == ClosingClient)
            && t.name == if pc.Renaming? && pc.newName != "" then pc.newName else s.name
  {
    SharedKeepsTasks(Stepped(cfg, s, i, ans), i, s.tasks[i].pc);
  }

  lemma SlotKept(cfg: Config, f: Fields, t: Task, v: View, ans: Answer, trace: seq<Pub>, i: nat)
    requires t.pc != Gone && Fits(cfg, t, trace)
    ensures SlotNow(f, Step(cfg, t, v, ans), i) ==
            if t.pc == Storing then Some(i) else if t.pc.Clearing? then None else SlotNow(f, t, i)
  {
  }

  lemma CancelKept(cfg: Config, f: Fields, t: Task, v: View, ans: Answer, trace: seq<Pub>, i: nat)
    requires t.pc != Gone && Fits(cfg, t, trace) && Informed(cfg, f, t, i)
    ensures CancelledNow(f, Step(cfg, t, v, ans)) ==
            if t.pc.Cancelling? && t.pc.target.Some? then CancelledNow(f, t) + {t.pc.target.value}
            else CancelledNow(f, t)
  {
  }

  lemma ShutdownKept(cfg: Config, f: Fields, t: Task, v: View, ans: Answer, trace: seq<Pub>, i: nat)
    requires t.pc != Gone && Fits(cfg, t, trace) && Informed(cfg, f, t, i)
    ensures CtxNow(cfg, f, Step(cfg, t, v, ans)) == (CtxNow(cfg, f, t) || t.pc == CancellingAll)
    ensures CodeNow(f, Step(cfg, t, v, ans)) == if t.pc == SettingCode then SHUTDOWN_CODE else CodeNow(f, t)
  {
  }

  lemma ClosedKept(cfg: Config, f: Fields, t: Task, v: View, ans: Answer, trace: seq<Pub>)
    requires t.pc != Gone && Fits(cfg, t, trace)
    ensures ClosedNow(f, Step(cfg, t, v, ans)) == (ClosedNow(f, t) || t.pc == ClosingClient)
    ensures NameNow(f, Step(cfg, t, v, ans)) ==
            if t.pc.Renaming? && t.pc.newName != "" then t.pc.newName else NameNow(f, t)
  {
  }

  lemma InformedKept(cfg: Config, f: Fields, t: Task, v: View, ans: Answer, trace: seq<Pub>, i: nat)
    requires t.pc != Gone && Fits(cfg, t, trace) && Informed(cfg, f, t, i)
    requires t.pc == ReadingSlot ==> v.slot == f.slot
    requires t.pc.Deciding? ==> (v.cancelled <==> f.ctxDone || i in f.cancelled)
    ensures Informed(cfg, f, Step(cfg, t, v, ans), i)
  {
  }

  lemma ViewAlone(cfg: Config, f: Fields, s: State, i: nat, trace: seq<Pub>)
    requires i < |s.tasks| && SharedNow(cfg, f, s, i) && Fits(cfg, s.tasks[i], trace)
    ensures var v := ViewOf(s, i);
            && (s.tasks[i].pc == ReadingSlot ==> v.slot == f.slot)
            && (s.tasks[i].pc.Deciding? ==> (v.cancelled <==> f.ctxDone || i in f.cancelled))
  {
  }

  lemma SharedStep(cfg: Config, f: Fields, s: State, i: nat, ans: Answer, trace: seq<Pub>)
    requires i < |s.tasks| && s.tasks[i].pc != Gone
    requires SharedNow(cfg, f, s, i) && Fits(cfg, s.tasks[i], trace)
    ensures SharedNow(cfg, f, Next(cfg, s, Act(i, ans)), i)
  {
    var t, v := s.tasks[i], ViewOf(s, i);
    ActShape(cfg, s, i, ans);
    ViewAlone(cfg, f, s, i, trace);
    SlotKept(cfg, f, t, v, ans, trace, i);
    CancelKept(cfg, f, t, v, ans, trace, i);
    ShutdownKept(cfg, f, t, v, ans, trace, i);
    ClosedKept(cfg, f, t, v, ans, trace);
    InformedKept(cfg, f, t, v, ans, trace, i);
  }

  // ---------- whole runs of one goroutine ----------

  predicate AloneInv(cfg: Config, f: Fields, msg: Message, s: State, i: nat, trace: seq<Pub>) {
    && i < |s.tasks| && s.tasks[i].msg == msg && s.tasks[i].cmd == CommandOf(msg.event)
    && Fits(cfg, s.tasks[i], trace)
    && Pubs(s.log) == f.log + trace
    && SharedNow(cfg, f, s, i)
  }

  lemma PubsAppend(log: seq<Entry>, i: nat, ps: seq<Pub>)
    ensures Pubs(log + Tagged(i, ps)) == Pubs(log) + ps
  {
  }

  lemma AloneStep(cfg: Config, f: Fields, msg: Message, s: State, i: nat, ans: Answer, trace: seq<Pub>)
    requires AloneInv(cfg, f, msg, s, i, trace) && s.tasks[i].pc != Gone
    ensures AloneInv(cfg, f, msg, Next(cfg, s, Act(i, ans)), i, trace + Attempts(s.tasks[i]))
  {
    ActShape(cfg, s, i, ans);
    FitsStep(cfg, s.tasks[i], ViewOf(s, i), ans, trace);
    PubsAppend(s.log, i, Attempts(s.tasks[i]));
    AppendAssociates(f.log, trace, Attempts(s.tasks[i]));
    SharedStep(cfg, f, s, i, ans, trace);
  }

  /** Only goroutine `i` takes steps. */
  predicate OnlyActs(actions: seq<Action>, i: nat) {
    forall a :: a in actions ==> a.Act? && a.i == i
  }

  lemma {:induction false} AloneRun(cfg: Config, f: Fields, msg: Message, s: State, actions: seq<Action>, t: State,
                                    i: nat, trace: seq<Pub>)
    returns (trace': seq<Pub>)
    requires AloneInv(cfg, f, msg, s, i, trace) && Leads(cfg, s, actions, t) && OnlyActs(actions, i)
    ensures AloneInv(cfg, f, msg, t, i, trace')
    decreases |actions|
  {
    if actions == [] {
      trace' := trace;
    } else {
      var a := actions[0];
      assert a in actions;
      AloneStep(cfg, f, msg, s, i, a.ans, trace);
      trace' := AloneRun(cfg, f, msg, Next(cfg, s, a), actions[1..], t, i, trace + Attempts(s.tasks[i]));
    }
  }

  lemma BodyAlone(cfg: Config, f: Fields, t: Task, i: nat)
    requires t.pc == Gone && Informed(cfg, f, t, i) && HeardAll(cfg, t.msg, t.cmd, t.heard)
    ensures OwedBody(cfg, t.msg, t.cmd, t.heard, t.byUser) ==
            OwedBody(cfg, t.msg, t.cmd, t.heard, f.ctxDone || i in f.cancelled)
  {
    if t.cmd.Exec? && t.heard != [] && !AllGood(t.heard) {
      assert t.heard == [t.heard[0]];
    }
  }

  lemma GoneIsHandled(cfg: Config, f: Fields, msg: Message, s: State, i: nat, trace: seq<Pub>)
    requires AloneInv(cfg, f, msg, s, i, trace) && s.tasks[i].pc == Gone
    ensures HeardAll(cfg, msg, CommandOf(msg.event), s.tasks[i].heard)
    ensures FieldsOf(s) == Handled(cfg, f, msg, i, s.tasks[i].heard)
  {
    var t := s.tasks[i];
    var a := AckPart(msg, t.cmd);
    assert trace == a + trace[|a|..];
    BodyAlone(cfg, f, t, i);
    AppendAssociates(f.log, a, trace[|a|..]);
    if t.heard == [] && t.cmd.Exec? { assert s.slot == f.slot; }
  }

  /** A goroutine that runs alone from spawned to gone leaves log, slot, cancelled execs,
      context and code exactly as handling its message says, given the answers it heard. */
  lemma RunAloneIsHandled(cfg: Config, s: State, actions: seq<Action>, t: State, i: nat)
    requires i < |s.tasks| && s.tasks[i] == Spawned(s.tasks[i].msg)
    requires Leads(cfg, s, actions, t) && OnlyActs(actions, i)
    requires i < |t.tasks| && t.tasks[i].pc == Gone
    ensures var msg := s.tasks[i].msg;
            && HeardAll(cfg, msg, CommandOf(msg.event), t.tasks[i].heard)
            && FieldsOf(t) == Handled(cfg, FieldsOf(s), msg, i, t.tasks[i].heard)
  {
    var msg := s.tasks[i].msg;
    FitsSpawned(cfg, msg);
    assert Pubs(s.log) + [] == Pubs(s.log);
    var trace := AloneRun(cfg, FieldsOf(s), msg, s, actions, t, i, []);
    GoneIsHandled(cfg, FieldsOf(s), msg, t, i, trace);
  }

  // ---------- object and machine agree ----------

  /** Which answers are heard is settled by the answers there are. */
  lemma HeardDetermined(cfg: Config, msg: Message, c: Command, a: seq<Answer>, b: seq<Answer>, all: seq<Answer>)
    requires HeardAll(cfg, msg, c, a) && HeardAll(cfg, msg, c, b) && a <= all && b <= all
    ensures a == b
  {
  }

  /** The object that handles a message ends with the fields of the machine in which the
      message's goroutine ran alone, when both start alike and get the same answers. */
  method DispatchAsMachine(d: Dispatcher, msg: Message, me: nat, w: World,
                           ghost s: State, ghost actions: seq<Action>, ghost t: State)
    requires d.Shared() == FieldsOf(s) && me < |s.tasks| && s.tasks[me] == Spawned(msg)
    requires Leads(d.cfg, s, actions, t) && OnlyActs(actions, me)
    requires me < |t.tasks| && t.tasks[me].pc == Gone && t.tasks[me].heard <= [w.first, w.second]
    modifies d
    ensures d.Shared() == FieldsOf(t)
  {
    var heard := d.Dispatch(msg, me, w);
    RunAloneIsHandled(d.cfg, s, actions, t, me);
    HeardDetermined(d.cfg, msg, CommandOf(msg.event), heard, t.tasks[me].heard, [w.first, w.second]);
  }

  // ---------- there are such runs ----------

  /** How many steps are left at most. */
  function StepsLeft(pc: Pc): nat {
    match pc
    case Acking => 11
    case Routing => 10
    case Storing => 8
    case Executing => 7
    case Clearing(_) => 6
    case Deciding(_) => 5
    case Popping => 6
    case Opening => 6
    case Evaluating => 5
    case Writing => 5
    case Pushing => 5
    case Checking => 5
    case ClosingClient => 5
    case CancellingAll => 4
    case SettingCode => 3
    case ReadingSlot => 3
    case Cancelling(_) => 2
    case Renaming(_) => 2
    case Publishing(rest) => 2 + |rest|
    case Returned => 1
    case Gone => 0
  }

  lemma StepIsProgress(cfg: Config, t: Task, v: View, ans: Answer)
    requires t.pc != Gone
    ensures StepsLeft(Step(cfg, t, v, ans).pc) < StepsLeft(t.pc)
  {
  }

  lemma AsksAtMostTwo(cfg: Config, t: Task, trace: seq<Pub>)
    requires Fits(cfg, t, trace) && Asking(t.pc)
    ensures |t.heard| <= 1
  {
  }

  /** From any state in which its trace fits, a goroutine can run alone to its end, hearing
      the given answers in order. */
  lemma {:induction false} CanRunAlone(cfg: Config, s: State, i: nat, w: World, trace: seq<Pub>)
    returns (actions: seq<Action>, t: State)
    requires i < |s.tasks| && Fits(cfg, s.tasks[i], trace) && s.tasks[i].heard <= [w.first, w.second]
    ensures Leads(cfg, s, actions, t) && OnlyActs(actions, i)
    ensures i < |t.tasks| && t.tasks[i].pc == Gone && t.tasks[i].heard <= [w.first, w.second]
    decreases StepsLeft(s.tasks[i].pc)
  {
    var k := s.tasks[i];
    if k.pc == Gone {
      actions, t := [], s;
    } else {
      var ans := if k.heard == [] then w.first else w.second;
      if Asking(k.pc) { AsksAtMostTwo(cfg, k, trace); }
      ActShape(cfg, s, i, ans);
      FitsStep(cfg, k, ViewOf(s, i), ans, trace);
      StepIsProgress(cfg, k, ViewOf(s, i), ans);
      var rest;
      rest, t := CanRunAlone(cfg, Next(cfg, s, Act(i, ans)), i, w, trace + Attempts(k));
      actions := [Act(i, ans)] + rest;
      assert actions[1..] == rest;
    }
  }

  // ---------- Run can always return ----------

  lemma Prepend(cfg: Config, s: State, a: Action, rest: seq<Action>, t: State)
    requires Enabled(s, a) && Leads(cfg, Next(cfg, s, a), rest, t)
    ensures Leads(cfg, s, [a] + rest, t)
  {
    assert ([a] + rest)[1..] == rest;
  }

  lemma {:induction false} LeadsJoin(cfg: Config, s: State, a: seq<Action>, u: State, b: seq<Action>, t: State)
    requires Leads(cfg, s, a, u) && Leads(cfg, u, b, t)
    ensures Leads(cfg, s, a + b, t)
    decreases |a|
  {
    if a == [] {
      assert a + b == b;
    } else {
      LeadsJoin(cfg, Next(cfg, s, a[0]), a[1..], u, b, t);
      Prepend(cfg, s, a[0], a[1..] + b, t);
      assert [a[0]] + (a[1..] + b) == a + b;
    }
  }

  lemma OneStep(cfg: Config, s: State, a: Action)
    requires Enabled(s, a)
    ensures Leads(cfg, s, [a], Next(cfg, s, a))
  {
    assert [a][1..] == [];
  }

  /** Goroutine `i` on its own leaves the loop and the other goroutines alone. */
  lemma {:induction false} OthersStay(cfg: Config, s: State, actions: seq<Action>, t: State, i: nat)
    requires Leads(cfg, s, actions, t) && OnlyActs(actions, i)
    ensures t.loop == s.loop && |t.tasks| == |s.tasks|
    ensures forall j :: 0 <= j < |s.tasks| && j != i ==> t.tasks[j] == s.tasks[j]
    decreases |actions|
  {
    if actions != [] {
      var a := actions[0];
      assert a in actions;
      ActShape(cfg, s, i, a.ans);
      SharedKeepsTasks(Stepped(cfg, s, i, a.ans), i, s.tasks[i].pc);
      OthersStay(cfg, Next(cfg, s, a), actions[1..], t, i);
    }
  }

  lemma HeardAtMostTwo(cfg: Config, t: Task, trace: seq<Pub>)
    requires Fits(cfg, t, trace)
    ensures |t.heard| <= 2
  {
  }

  /** The goroutines from `n` on finish, one after the other. */
  lemma {:induction false} FinishFrom(cfg: Config, s: State, n: nat) returns (actions: seq<Action>, t: State)
    requires Inv(cfg, s) && n <= |s.tasks| && forall j :: 0 <= j < n ==> s.tasks[j].pc == Gone
    ensures Leads(cfg, s, actions, t) && Inv(cfg, t) && t.loop == s.loop
    ensures forall j :: 0 <= j < |t.tasks| ==> t.tasks[j].pc == Gone
    decreases |s.tasks| - n
  {
    if n == |s.tasks| {
      actions, t := [], s;
    } else {
      var h := s.tasks[n].heard;
      assert Fits(cfg, s.tasks[n], Projection(s.log, n));
      HeardAtMostTwo(cfg, s.tasks[n], Projection(s.log, n));
      var w := World(if |h| > 0 then h[0] else Answer(false, 0), if |h| > 1 then h[1] else Answer(false, 0));
      var first, u := CanRunAlone(cfg, s, n, w, Projection(s.log, n));
      OthersStay(cfg, s, first, u, n);
      InvRun(cfg, s, first, u);
      var rest;
      rest, t := FinishFrom(cfg, u, n + 1);
      LeadsJoin(cfg, s, first, u, rest, t);
      actions := first + rest;
    }
  }

  lemma {:induction false} AllGone(tasks: seq<Task>)
    requires forall j :: 0 <= j < |tasks| ==> tasks[j].pc == Gone
    ensures Live(tasks) == 0
  {
    if tasks != [] { AllGone(tasks[..|tasks| - 1]); }
  }

  /** From every reachable state Run can still return: no handler waits for another one,
      and the wait group comes down to zero. */
  lemma RunCanReturn(cfg: Config, before: seq<Action>, s: State) returns (actions: seq<Action>, t: State)
    requires Leads(cfg, INIT, before, s)
    ensures Leads(cfg, s, actions, t) && t.loop.Over?
  {
    InitInv(cfg);
    InvRun(cfg, INIT, before, s);
    if s.loop.Over? {
      actions, t := [], s;
    } else {
      var left, u := LeaveNow(cfg, s);
      InvRun(cfg, s, left, u);
      var finish, v := FinishFrom(cfg, u, 0);
      LeadsJoin(cfg, s, left, u, finish, v);
      AllGone(v.tasks);
      OneStep(cfg, v, Return);
      t := Next(cfg, v, Return);
      LeadsJoin(cfg, s, left + finish, v, [Return], t);
      actions := left + finish + [Return];
    }
  }

  lemma LeaveNow(cfg: Config, s: State) returns (actions: seq<Action>, t: State)
    requires !s.loop.Over?
    ensures Leads(cfg, s, actions, t) && t.loop.Draining?
  {
    if s.loop.Draining? {
      actions, t := [], s;
    } else {
      var u := Next(cfg, s, CancelContext);
      OneStep(cfg, s, CancelContext);
      OneStep(cfg, u, LeaveLoop(false));
      t := Next(cfg, u, LeaveLoop(false));
      LeadsJoin(cfg, s, [CancelContext], u, [LeaveLoop(false)], t);
      actions := [CancelContext] + [LeaveLoop(false)];
    }
  }
}
