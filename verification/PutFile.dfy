/** put_file from the message to the file: the dispatcher's goroutines and the file system
    as one machine. A handler's two questions, the pop and the write, are answered by the
    call that AtomicWrite follows step by step, so that what a message's goroutine publishes
    can be compared with what its target holds. */
module PutFile {
  import opened Bytes
  import opened Messages
  import opened Dispatch
  import opened DispatchTask
  import D = DispatchRun
  import DispatchCounts
  import A = AtomicWrite

  datatype State = State(disp: D.State, files: A.State)

  /** `pathOf` reads a path as the file system does. */
  datatype World = World(cfg: Config, pathOf: string -> A.Path)

  datatype Action =
    | Dispatch(da: D.Action)         // anything but an answer to a pop or a write
    | Pop(i: nat, ans: A.Answer)     // the pop of message i returns
    | File(i: nat, ans: A.Answer)    // a file-system step of its write
    | Written(i: nat)                // its write returns

  predicate Asks(msg: Message) { CommandOf(msg.event) == Command.PutFile && HasFile(msg.data) }

  function Target(w: World, msg: Message): A.Path { w.pathOf(TextField(msg.data, "filepath")) }

  predicate Transferring(pc: Pc) { pc == Popping || pc == Writing }

  /** The i-th call is the one the i-th message makes if it asks for one; the bytes the
      server has for it are part of the initial state. */
  predicate CallFor(w: World, s: State, msg: Message, i: nat) {
    i < |s.files.calls| && (Asks(msg) ==> s.files.calls[i].path == Target(w, msg))
  }

  predicate Working(s: State, i: nat, pc: Pc) {
    i < |s.disp.tasks| && i < |s.files.calls| && s.disp.tasks[i].pc == pc
  }

  predicate Enabled(w: World, s: State, a: Action) {
    match a
    case Dispatch(b) =>
      && D.Enabled(s.disp, b)
      && (b.Act? ==> !Transferring(s.disp.tasks[b.i].pc))
      && (b.Receive? ==> CallFor(w, s, b.msg, |s.disp.tasks|))
    case Pop(i, ans) =>
      Working(s, i, Popping) && s.files.calls[i].pc.Popping? && A.Enabled(s.files, A.Act(i, ans))
    case File(i, ans) =>
      && Working(s, i, Writing) && !s.files.calls[i].pc.Popping? && !s.files.calls[i].pc.Finished?
      && A.Enabled(s.files, A.Act(i, ans))
    case Written(i) => Working(s, i, Writing) && s.files.calls[i].pc.Finished?
  }

  /** What the machine of the goroutines sees of a step. */
  function DispatcherAction(s: State, a: Action): Option<D.Action>
    requires a.Written? ==> a.i < |s.files.calls|
  {
    match a
    case Dispatch(b) => Some(b)
    case Pop(i, ans) => Some(D.Act(i, Answer(ans.Ok?, 0)))
    case File(_, _) => None
    case Written(i) => Some(D.Act(i, Answer(A.Committed(s.files.calls[i]), 0)))
  }

  /** What the file system sees of it. */
  function FileAction(a: Action): Option<A.Action> {
    match a
    case Pop(i, ans) => Some(A.Act(i, ans))
    case File(i, ans) => Some(A.Act(i, ans))
    case _ => None
  }

  function Next(w: World, s: State, a: Action): State
    requires Enabled(w, s, a)
  {
    var da, fa := DispatcherAction(s, a), FileAction(a);
    State(if da.Some? then D.Next(w.cfg, s.disp, da.value) else s.disp,
          if fa.Some? then A.Next(s.files, fa.value) else s.files)
  }

  predicate Leads(w: World, s: State, actions: seq<Action>, t: State)
    decreases |actions|
  {
    if actions == [] then s == t
    else Enabled(w, s, actions[0]) && Leads(w, Next(w, s, actions[0]), actions[1..], t)
  }

  predicate Initial(s: State) {
    s.disp == D.INIT && A.Initial(s.files) && A.SafeTargets(s.files)
  }

  // ---------- a run of both is a run of each ----------

  lemma {:induction false} DispatcherRun(w: World, s: State, actions: seq<Action>, t: State)
    returns (das: seq<D.Action>)
    requires Leads(w, s, actions, t)
    ensures D.Leads(w.cfg, s.disp, das, t.disp)
    decreases |actions|
  {
    if actions == [] {
      das := [];
    } else {
      das := DispatcherRun(w, Next(w, s, actions[0]), actions[1..], t);
      var da := DispatcherAction(s, actions[0]);
      if da.Some? {
        assert ([da.value] + das)[1..] == das;
        das := [da.value] + das;
      }
    }
  }

  lemma {:induction false} FilesRun(w: World, s: State, actions: seq<Action>, t: State) returns (fas: seq<A.Action>)
    requires Leads(w, s, actions, t)
    ensures A.Leads(s.files, fas, t.files)
    decreases |actions|
  {
    if actions == [] {
      fas := [];
    } else {
      fas := FilesRun(w, Next(w, s, actions[0]), actions[1..], t);
      var fa := FileAction(actions[0]);
      if fa.Some? {
        assert ([fa.value] + fas)[1..] == fas;
        fas := [fa.value] + fas;
      }
    }
  }

  // ---------- handler and call go together ----------

  /** A handler and its call: the call moves while the handler waits, and the answers the
      handler has heard are how the call has gone. */
  predicate Tied(t: Task, c: A.Call) {
    if t.pc == Writing then !c.pc.Popping?
    else if !t.cmd.PutFile? || t.heard == [] then c.pc.Popping?
    else if |t.heard| == 1 then c.pc == A.Finished(false)
    else c.pc == A.Finished(t.heard[1].ok)
  }

  predicate TiedAt(w: World, s: State, i: nat)
    requires i < |s.files.calls|
  {
    if i < |s.disp.tasks| then Tied(s.disp.tasks[i], s.files.calls[i]) && CallFor(w, s, s.disp.tasks[i].msg, i)
    else s.files.calls[i].pc.Popping?
  }

  predicate Inv(w: World, s: State) {
    && D.Inv(w.cfg, s.disp)
    && |s.disp.tasks| <= |s.files.calls|
    && forall i :: 0 <= i < |s.files.calls| ==> TiedAt(w, s, i)
  }

  /** A step that asks the file system nothing keeps a put_file's answers. */
  lemma TiedQuiet(cfg: Config, t: Task, v: View, ans: Answer, trace: seq<Pub>, c: A.Call)
    requires t.pc != Gone && Fits(cfg, t, trace) && !Transferring(t.pc) && Tied(t, c)
    ensures Tied(Step(cfg, t, v, ans), c)
  {
  }

  lemma TiedPop(cfg: Config, t: Task, v: View, trace: seq<Pub>, c: A.Call, ans: A.Answer, c': A.Call)
    requires Fits(cfg, t, trace) && t.pc == Popping && c.pc.Popping?
    requires c'.pc == if ans.Ok? then A.MakingDir else A.Finished(false)
    ensures Tied(Step(cfg, t, v, Answer(ans.Ok?, 0)), c')
  {
  }

  lemma TiedWritten(cfg: Config, t: Task, v: View, trace: seq<Pub>, c: A.Call)
    requires Fits(cfg, t, trace) && t.pc == Writing && c.pc.Finished?
    ensures Tied(Step(cfg, t, v, Answer(A.Committed(c), 0)), c)
  {
  }

  /** What a step of the goroutines leaves alone. */
  lemma ActTasks(cfg: Config, s: D.State, i: nat, ans: Answer)
    requires i < |s.tasks| && s.tasks[i].pc != Gone
    ensures D.Next(cfg, s, D.Act(i, ans)).tasks == s.tasks[i := Step(cfg, s.tasks[i], D.ViewOf(s, i), ans)]
  {
    D.SharedKeepsTasks(D.Stepped(cfg, s, i, ans), i, s.tasks[i].pc);
  }

  lemma FileShape(s: A.State, a: A.Action)
    requires A.Enabled(s, a)
    ensures A.OnlyCall(s, A.Next(s, a), a.i)
    ensures A.Next(s, a).calls[a.i].pc == A.NextPc(s.calls[a.i], a.ans, s.next)
  {
  }

  lemma ReceiveKeeps(w: World, s: State, msg: Message, i: nat)
    requires Inv(w, s) && CallFor(w, s, msg, |s.disp.tasks|) && i < |s.files.calls|
    ensures TiedAt(w, State(s.disp.(tasks := s.disp.tasks + [Spawned(msg)], wg := s.disp.wg + 1), s.files), i)
  {
    assert TiedAt(w, s, i);
    var tasks := s.disp.tasks + [Spawned(msg)];
    if i < |s.disp.tasks| {
      assert tasks[i] == s.disp.tasks[i];
    } else if i == |s.disp.tasks| {
      assert tasks[i] == Spawned(msg) && Tied(Spawned(msg), s.files.calls[i]);
    }
  }

  lemma ActKeeps(w: World, s: State, b: D.Action, i: nat)
    requires Inv(w, s) && Enabled(w, s, Dispatch(b)) && b.Act? && i < |s.files.calls|
    ensures TiedAt(w, State(D.Next(w.cfg, s.disp, b), s.files), i)
  {
    assert TiedAt(w, s, i);
    ActTasks(w.cfg, s.disp, b.i, b.ans);
    if b.i == i {
      var k := s.disp.tasks[i];
      assert Fits(w.cfg, k, D.Projection(s.disp.log, i));
      TiedQuiet(w.cfg, k, D.ViewOf(s.disp, i), b.ans, D.Projection(s.disp.log, i), s.files.calls[i]);
    }
  }

  lemma DispatchKeeps(w: World, s: State, b: D.Action, i: nat)
    requires Inv(w, s) && Enabled(w, s, Dispatch(b)) && i < |s.files.calls|
    ensures TiedAt(w, State(D.Next(w.cfg, s.disp, b), s.files), i)
  {
    match b
    case Receive(msg) => ReceiveKeeps(w, s, msg, i);
    case Act(_, _) => ActKeeps(w, s, b, i);
    case _ => assert TiedAt(w, s, i);
  }

  lemma DispatchTied(w: World, s: State, a: Action)
    requires Inv(w, s) && Enabled(w, s, a) && a.Dispatch?
    ensures Inv(w, Next(w, s, a))
  {
    var t := Next(w, s, a);
    D.InvStep(w.cfg, s.disp, a.da);
    if a.da.Act? { ActTasks(w.cfg, s.disp, a.da.i, a.da.ans); }
    forall i | 0 <= i < |t.files.calls|
      ensures TiedAt(w, t, i)
    {
      DispatchKeeps(w, s, a.da, i);
    }
  }

  lemma PopKeeps(w: World, s: State, a: Action, i: nat)
    requires Inv(w, s) && Enabled(w, s, a) && a.Pop? && i < |s.files.calls|
    ensures |Next(w, s, a).files.calls| == |s.files.calls| && TiedAt(w, Next(w, s, a), i)
  {
    assert TiedAt(w, s, i);
    ActTasks(w.cfg, s.disp, a.i, Answer(a.ans.Ok?, 0));
    FileShape(s.files, A.Act(a.i, a.ans));
    if i == a.i {
      var k, trace := s.disp.tasks[i], D.Projection(s.disp.log, i);
      assert Fits(w.cfg, k, trace);
      TiedPop(w.cfg, k, D.ViewOf(s.disp, i), trace, s.files.calls[i], a.ans, Next(w, s, a).files.calls[i]);
    }
  }

  lemma PopTied(w: World, s: State, a: Action)
    requires Inv(w, s) && Enabled(w, s, a) && a.Pop?
    ensures Inv(w, Next(w, s, a))
  {
    var ans := Answer(a.ans.Ok?, 0);
    D.InvStep(w.cfg, s.disp, D.Act(a.i, ans));
    ActTasks(w.cfg, s.disp, a.i, ans);
    FileShape(s.files, A.Act(a.i, a.ans));
    forall i | 0 <= i < |s.files.calls|
      ensures TiedAt(w, Next(w, s, a), i)
    {
      PopKeeps(w, s, a, i);
    }
  }

  lemma FileTied(w: World, s: State, a: Action)
    requires Inv(w, s) && Enabled(w, s, a) && a.File?
    ensures Inv(w, Next(w, s, a))
  {
    var t := Next(w, s, a);
    FileShape(s.files, A.Act(a.i, a.ans));
    forall i | 0 <= i < |t.files.calls|
      ensures TiedAt(w, t, i)
    {
      assert TiedAt(w, s, i);
    }
  }

  lemma WrittenTied(w: World, s: State, a: Action)
    requires Inv(w, s) && Enabled(w, s, a) && a.Written?
    ensures Inv(w, Next(w, s, a))
  {
    var t, k, c := Next(w, s, a), s.disp.tasks[a.i], s.files.calls[a.i];
    var ans := Answer(A.Committed(c), 0);
    D.InvStep(w.cfg, s.disp, D.Act(a.i, ans));
    ActTasks(w.cfg, s.disp, a.i, ans);
    assert Fits(w.cfg, k, D.Projection(s.disp.log, a.i));
    TiedWritten(w.cfg, k, D.ViewOf(s.disp, a.i), D.Projection(s.disp.log, a.i), c);
    forall i | 0 <= i < |t.files.calls|
      ensures TiedAt(w, t, i)
    {
      assert TiedAt(w, s, i);
    }
  }

  lemma {:induction false} InvRun(w: World, s: State, actions: seq<Action>, t: State)
    requires Inv(w, s) && Leads(w, s, actions, t)
    ensures Inv(w, t)
    decreases |actions|
  {
    if actions != [] {
      match actions[0] {
        case Dispatch(_) => DispatchTied(w, s, actions[0]);
        case Pop(_, _) => PopTied(w, s, actions[0]);
        case File(_, _) => FileTied(w, s, actions[0]);
        case Written(_) => WrittenTied(w, s, actions[0]);
      }
      InvRun(w, Next(w, s, actions[0]), actions[1..], t);
    }
  }

  // ---------- what is published is what the file holds ----------

  predicate PutOutcome(p: Pub) { p.Own? && (p.outcome.PutDone? || p.outcome.PutFail?) }

  /** A put_file outcome is owed only by a put_file that asked, and it is done exactly if
      all answers were good. */
  lemma OwedPut(cfg: Config, msg: Message, c: Command, heard: seq<Answer>, byUser: bool, p: Pub)
    requires HeardAll(cfg, msg, c, heard) && p in OwedBody(cfg, msg, c, heard, byUser) && PutOutcome(p)
    ensures c.PutFile? && HasFile(msg.data) && heard != []
    ensures p.outcome.PutDone? <==> AllGood(heard)
  {
  }

  /** A goroutine that has published a put_file outcome is past its questions. */
  lemma PublishedPut(cfg: Config, t: Task, trace: seq<Pub>, p: Pub)
    requires Fits(cfg, t, trace) && p in trace && PutOutcome(p)
    ensures Past(t.pc) && t.cmd.PutFile? && HasFile(t.msg.data) && t.heard != []
    ensures p.outcome.PutDone? <==> AllGood(t.heard)
  {
    var whole := if t.pc.Publishing? then trace + t.pc.rest else trace;
    assert p in whole;
    if Past(t.pc) {
      var a := AckPart(t.msg, t.cmd);
      assert whole == a + whole[|a|..];
      OwedPut(cfg, t.msg, t.cmd, t.heard, t.byUser, p);
    }
  }

  predicate Past(pc: Pc) { pc.Publishing? || pc == Returned || pc == Gone }

  lemma TiedOutcome(cfg: Config, t: Task, trace: seq<Pub>, p: Pub, c: A.Call)
    requires Fits(cfg, t, trace) && p in trace && PutOutcome(p) && Tied(t, c)
    ensures c.pc == A.Finished(p.outcome.PutDone?) && HasFile(t.msg.data) && t.cmd.PutFile?
  {
    PublishedPut(cfg, t, trace, p);
    var whole := if t.pc.Publishing? then trace + t.pc.rest else trace;
    assert HeardAll(cfg, t.msg, t.cmd, t.heard);
    if |t.heard| == 2 {
      assert t.heard == [t.heard[0], t.heard[1]];
    } else {
      assert t.heard[0] in t.heard;
    }
  }

  lemma {:induction false} EntryProjected(log: seq<D.Entry>, k: nat)
    requires k < |log|
    ensures log[k].pub in D.Projection(log, log[k].task)
  {
    if k < |log| - 1 {
      assert log[..|log| - 1][k] == log[k];
      EntryProjected(log[..|log| - 1], k);
    }
  }

  /** A published put_file outcome is how the message's call has ended. */
  lemma OutcomeOfCall(w: World, s0: State, actions: seq<Action>, t: State, k: nat, i: nat, p: Pub)
    requires Initial(s0) && Leads(w, s0, actions, t)
    requires k < |t.disp.log| && t.disp.log[k] == D.Entry(i, p) && PutOutcome(p) && i < |t.disp.tasks|
    ensures i < |t.files.calls| && t.files.calls[i].pc == A.Finished(p.outcome.PutDone?)
    ensures Asks(t.disp.tasks[i].msg) && t.files.calls[i].path == Target(w, t.disp.tasks[i].msg)
  {
    D.InitInv(w.cfg);
    InvRun(w, s0, actions, t);
    assert TiedAt(w, t, i);
    EntryProjected(t.disp.log, k);
    assert Fits(w.cfg, t.disp.tasks[i], D.Projection(t.disp.log, i));
    TiedOutcome(w.cfg, t.disp.tasks[i], D.Projection(t.disp.log, i), p, t.files.calls[i]);
    var das := DispatcherRun(w, s0, actions, t);
    DispatchCounts.CommandsRun(w.cfg, D.INIT, das, t.disp);
  }

  /** Where a message that asks wants its file. */
  lemma TargetByField(w: World, msg: Message)
    requires Asks(msg)
    ensures msg.event == "worker.put_file" && "filepath" in msg.data && msg.data["filepath"].Text?
    ensures Target(w, msg) == w.pathOf(msg.data["filepath"].text)
  {
  }

  /** In every reachable state, for every put_file outcome published so far: if it is done,
      the target holds exactly the bytes the server stored; if it is fail, the target is
      unchanged; unless another write has succeeded on the same target. */
  lemma PublishedIsTruthful(w: World, s0: State, actions: seq<Action>, t: State, k: nat, i: nat, p: Pub)
    requires Initial(s0) && Leads(w, s0, actions, t)
    requires k < |t.disp.log| && t.disp.log[k] == D.Entry(i, p) && PutOutcome(p) && i < |t.disp.tasks|
    requires forall j :: 0 <= j < |t.files.calls| && j != i && A.Committed(t.files.calls[j]) ==>
               t.files.calls[j].path != Target(w, t.disp.tasks[i].msg)
    ensures i < |s0.files.calls|
    ensures var msg := t.disp.tasks[i].msg;
            && msg.event == "worker.put_file" && "filepath" in msg.data && msg.data["filepath"].Text?
            && var path := w.pathOf(msg.data["filepath"].text);
               A.Content(t.files, path) ==
               if p.outcome == PutDone then Some(s0.files.calls[i].content) else A.Content(s0.files, path)
  {
    OutcomeOfCall(w, s0, actions, t, k, i, p);
    TargetByField(w, t.disp.tasks[i].msg);
    var fas := FilesRun(w, s0, actions, t);
    A.OutcomeIsTruthful(s0.files, fas, t.files, i);
  }

  // ---------- a put_file can be done ----------

  lemma Prepend(w: World, s: State, a: Action, rest: seq<Action>, t: State)
    requires Enabled(w, s, a) && Leads(w, Next(w, s, a), rest, t)
    ensures Leads(w, s, [a] + rest, t)
  {
    assert ([a] + rest)[1..] == rest;
  }

  /** While its handler waits for the write, the file-system steps of a call are steps of
      the whole. */
  lemma {:induction false} LiftFiles(w: World, s: State, fas: seq<A.Action>, f: A.State, i: nat)
    returns (actions: seq<Action>)
    requires Working(s, i, Writing) && !s.files.calls[i].pc.Popping?
    requires A.Leads(s.files, fas, f) && A.OnlyBy(fas, i)
    ensures Leads(w, s, actions, State(s.disp, f))
    decreases |fas|
  {
    if fas == [] {
      actions := [];
    } else {
      var a := fas[0];
      assert a in fas;
      FileShape(s.files, a);
      var u := Next(w, s, File(i, a.ans));
      assert u == State(s.disp, A.Next(s.files, a));
      var rest := LiftFiles(w, u, fas[1..], f, i);
      Prepend(w, s, File(i, a.ans), rest, State(s.disp, f));
      actions := [File(i, a.ans)] + rest;
    }
  }

  /** A successful pop, and a successful return from the write. */
  lemma PopOn(w: World, s: State, i: nat)
    requires Working(s, i, Popping) && s.files.calls[i].pc.Popping?
    ensures Enabled(w, s, Pop(i, A.Ok))
    ensures var t := Next(w, s, Pop(i, A.Ok));
            && Working(t, i, Writing) && t.disp.tasks[i].msg == s.disp.tasks[i].msg && t.files.dir == s.files.dir
            && t.files.calls[i] == s.files.calls[i].(pc := A.MakingDir, buf := s.files.calls[i].content)
  {
    ActTasks(w.cfg, s.disp, i, Answer(true, 0));
  }

  lemma WrittenOn(w: World, s: State, i: nat)
    requires Working(s, i, Writing) && A.Committed(s.files.calls[i])
    ensures Enabled(w, s, Written(i))
    ensures var t := Next(w, s, Written(i));
            && t.files == s.files && i < |t.disp.tasks|
            && t.disp.tasks[i].pc == Publishing([Own(PutDone, s.disp.tasks[i].msg.oid)])
  {
    ActTasks(w.cfg, s.disp, i, Answer(true, 0));
  }

  /** A handler about to pop can go on until put_file.done is all that is left to publish,
      and then its target holds the bytes the server stored. */
  lemma CanBeDone(w: World, s: State, i: nat, tmp: A.Path) returns (actions: seq<Action>, t: State)
    requires Working(s, i, Popping) && s.files.calls[i].pc.Popping?
    requires A.IsTemp(tmp) && tmp.dir == s.files.calls[i].path.dir && tmp !in s.files.dir
    ensures Leads(w, s, actions, t) && i < |t.disp.tasks|
    ensures t.disp.tasks[i].pc == Publishing([Own(PutDone, s.disp.tasks[i].msg.oid)])
    ensures A.Content(t.files, s.files.calls[i].path) == Some(s.files.calls[i].content)
  {
    PopOn(w, s, i);
    var s1 := Next(w, s, Pop(i, A.Ok));
    var fas, f := A.FromMakingDir(s1.files, i, tmp);
    var write := LiftFiles(w, s1, fas, f, i);
    var s2 := State(s1.disp, f);
    WrittenOn(w, s2, i);
    t := Next(w, s2, Written(i));
    LeadsOn(w, s1, write, s2, Written(i));
    Prepend(w, s, Pop(i, A.Ok), write + [Written(i)], t);
    actions := [Pop(i, A.Ok)] + (write + [Written(i)]);
  }

  lemma {:induction false} LeadsOn(w: World, s: State, actions: seq<Action>, t: State, a: Action)
    requires Leads(w, s, actions, t) && Enabled(w, t, a)
    ensures Leads(w, s, actions + [a], Next(w, t, a))
    decreases |actions|
  {
    if actions == [] {
      assert [a][1..] == [] && actions + [a] == [a];
    } else {
      assert (actions + [a])[1..] == actions[1..] + [a];
      LeadsOn(w, Next(w, s, actions[0]), actions[1..], t, a);
    }
  }

  // ---------- from the message to the file ----------

  /** A step of a goroutine that is not waiting for a pop or a write. */
  lemma GoroutineOn(w: World, actions: seq<Action>, s0: State, s: State, i: nat) returns (more: seq<Action>, t: State)
    requires Leads(w, s0, actions, s) && i < |s.disp.tasks|
    requires s.disp.tasks[i].pc != Gone && !Transferring(s.disp.tasks[i].pc)
    ensures Leads(w, s0, more, t) && t.files == s.files && |t.disp.tasks| == |s.disp.tasks|
    ensures t.disp.tasks[i] == Step(w.cfg, s.disp.tasks[i], D.ViewOf(s.disp, i), Answer(true, 0))
    ensures t.disp.log == s.disp.log + D.Tagged(i, Attempts(s.disp.tasks[i]))
  {
    var b := D.Act(i, Answer(true, 0));
    ActTasks(w.cfg, s.disp, i, Answer(true, 0));
    D.SharedKeepsTasks(D.Stepped(w.cfg, s.disp, i, Answer(true, 0)), i, s.disp.tasks[i].pc);
    LeadsOn(w, s0, actions, s, Dispatch(b));
    more, t := actions + [Dispatch(b)], Next(w, s, Dispatch(b));
  }

  /** Received, acknowledged and routed. */
  lemma ToPopping(w: World, s0: State, msg: Message) returns (actions: seq<Action>, t: State)
    requires Initial(s0) && CallFor(w, s0, msg, 0) && Asks(msg) && VerbAllowed(w.cfg, msg.event)
    ensures Leads(w, s0, actions, t) && t.files == s0.files && |t.disp.tasks| == 1
    ensures t.disp.tasks[0].pc == Popping && t.disp.tasks[0].msg == msg
    ensures t.disp.log == [D.Entry(0, Ack(msg.event, msg.oid))]
  {
    assert Leads(w, s0, [], s0);
    LeadsOn(w, s0, [], s0, Dispatch(D.Receive(msg)));
    var s1 := Next(w, s0, Dispatch(D.Receive(msg)));
    var as2, s2 := GoroutineOn(w, [] + [Dispatch(D.Receive(msg))], s0, s1, 0);
    assert [] + D.Tagged(0, Attempts(s1.disp.tasks[0])) == [D.Entry(0, Ack(msg.event, msg.oid))];
    actions, t := GoroutineOn(w, as2, s0, s2, 0);
    assert s2.disp.log + D.Tagged(0, []) == s2.disp.log;
  }

  /** A put_file that asks for a free target can be served: it is acknowledged, its target
      ends with the bytes the server stored, and put_file.done is published. */
  lemma CanBeServed(w: World, s0: State, msg: Message, tmp: A.Path) returns (actions: seq<Action>, t: State)
    requires Initial(s0) && CallFor(w, s0, msg, 0) && VerbAllowed(w.cfg, msg.event) && Asks(msg)
    requires A.IsTemp(tmp) && tmp.dir == Target(w, msg).dir && tmp !in s0.files.dir
    ensures Leads(w, s0, actions, t)
    ensures exists front :: t.disp.log == front + [D.Entry(0, Own(PutDone, msg.oid))]
    ensures A.Content(t.files, Target(w, msg)) == Some(s0.files.calls[0].content)
  {
    var as1, s1 := ToPopping(w, s0, msg);
    var as2, s2 := CanBeDone(w, s1, 0, tmp);
    LeadsJoin(w, s0, as1, s1, as2, s2);
    actions, t := GoroutineOn(w, as1 + as2, s0, s2, 0);
    assert D.Tagged(0, [Own(PutDone, msg.oid)]) == [D.Entry(0, Own(PutDone, msg.oid))];
  }

  lemma {:induction false} LeadsJoin(w: World, s: State, a: seq<Action>, u: State, b: seq<Action>, t: State)
    requires Leads(w, s, a, u) && Leads(w, u, b, t)
    ensures Leads(w, s, a + b, t)
    decreases |a|
  {
    if a == [] {
      assert a + b == b;
    } else {
      LeadsJoin(w, Next(w, s, a[0]), a[1..], u, b, t);
      Prepend(w, s, a[0], a[1..] + b, t);
      AppendAssociates([a[0]], a[1..], b);
      assert [a[0]] + a[1..] == a;
    }
  }
}
