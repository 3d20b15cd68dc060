/** One message's goroutine as a program counter: what each atomic step publishes and
    where it leads, whatever the executor, evaluator, store and file system answer. */
module DispatchTask {
  import opened Bytes
  import opened Messages
  import opened Dispatch

  /** How the executor returned: with a return code, or with an error. */
  datatype Execution = Exited(rc: int) | Failed

  datatype Pc =
    | Acking
    | Routing
    | Publishing(rest: seq<Pub>)          // the attempts this branch still makes
    | Storing | Executing | Clearing(e: Execution) | Deciding(e: Execution)
    | Evaluating
    | Popping | Writing
    | Opening | Pushing
    | Checking                            // file_exists
    | ReadingSlot | Cancelling(target: Option<nat>)
    | ClosingClient | CancellingAll | SettingCode
    | Renaming(newName: string)
    | Returned                            // before the deferred wg.Done
    | Gone

  /** `heard` are the answers so far; `byUser` records that the cancelled-by-user branch
      was taken. */
  datatype Task = Task(msg: Message, cmd: Command, pc: Pc, heard: seq<Answer>, byUser: bool)

  function ExecutionOf(ans: Answer): Execution { if ans.ok then Exited(ans.rc) else Failed }

  /** The steps that put a question to the world. */
  predicate Asking(pc: Pc) {
    pc == Executing || pc == Evaluating || pc == Popping || pc == Writing ||
    pc == Opening || pc == Pushing || pc == Checking
  }

  /** What a step may look at outside its own task. */
  datatype View = View(cancelled: bool, slot: Option<nat>)

  function Spawned(msg: Message): Task {
    var c := CommandOf(msg.event);
    Task(msg, c, if Acknowledged(c) then Acking else Routing, [], false)
  }

  /** Where the switch on the event leads. */
  function Route(cfg: Config, msg: Message, c: Command): Pc {
    if Controlled(c) && !VerbAllowed(cfg, msg.event) then Publishing(ErrorPubs(msg))
    else
      match c
      case Exec => if HasCommand(msg.data) then Storing else Publishing(ErrorPubs(msg))
      case Eval => Evaluating
      case PutFile => if HasFile(msg.data) then Popping else Publishing(ErrorPubs(msg))
      case GetFile => if HasFile(msg.data) then Opening else Publishing(ErrorPubs(msg))
      case FileExists => Checking
      case Capable => if HoldsTags(cfg, msg.data) then Publishing([Own(CapableReply, msg.oid)]) else Returned
      case Shutdown => ClosingClient
      case ExecCancel => ReadingSlot
      case Rename => Renaming(TextField(msg.data, "new_name"))
      case Unknown => Publishing([Result(msg.oid, ERROR_RC)])
      case Ready => Returned
      case Notification => Returned
  }

  function AfterExec(msg: Message, e: Execution, cancelled: bool): seq<Pub> {
    match e
    case Exited(rc) => [Result(msg.oid, rc), Done(msg.oid)]
    case Failed => if cancelled then [Result(msg.oid, CANCELLED_RC), Done(msg.oid)] else ErrorPubs(msg)
  }

  function NextPc(cfg: Config, t: Task, v: View, ans: Answer): Pc
    requires t.pc != Gone
  {
    var oid := t.msg.oid;
    match t.pc
    case Acking => Routing
    case Routing => Route(cfg, t.msg, t.cmd)
    case Publishing(rest) => if rest == [] then Returned else Publishing(rest[1..])
    case Storing => Executing
    case Executing => Clearing(ExecutionOf(ans))
    case Clearing(e) => Deciding(e)
    case Deciding(e) => Publishing(AfterExec(t.msg, e, v.cancelled))
    case Evaluating => Publishing([if ans.ok then Own(EvalDone, oid) else Result(oid, ERROR_RC)])
    case Popping => if ans.ok then Writing else Publishing([Own(PutFail, oid)])
    case Writing => Publishing([Own(if ans.ok then PutDone else PutFail, oid)])
    case Opening => if ans.ok then Pushing else Publishing([Own(GetFail, oid)])
    case Pushing => Publishing([Own(if ans.ok then GetDone else GetFail, oid)])
    case Checking => Publishing([Own(ExistsReply(ans.ok), oid)])
    case ReadingSlot => Cancelling(v.slot)
    case Cancelling(_) => Returned
    case ClosingClient => if cfg.hasCancelFunc then CancellingAll else SettingCode
    case CancellingAll => SettingCode
    case SettingCode => Returned
    case Renaming(_) => Returned
    case Returned => Gone
  }

  /** What the step attempts to publish. */
  function Attempts(t: Task): (ps: seq<Pub>)
    ensures |ps| <= 1
  {
    match t.pc
    case Acking => [Ack(t.msg.event, t.msg.oid)]
    case Publishing(rest) => if rest == [] then [] else [rest[0]]
    case _ => []
  }

  function Step(cfg: Config, t: Task, v: View, ans: Answer): Task
    requires t.pc != Gone
  {
    t.(pc := NextPc(cfg, t, v, ans),
       heard := if Asking(t.pc) then t.heard + [ans] else t.heard,
       byUser := t.byUser || (t.pc == Deciding(Failed) && v.cancelled))
  }

  // ---------- the trace so far fits the program counter ----------

  /** The program counter belongs to the command, its checks have been passed, and the
      answers so far are the ones that lead here. */
  predicate Working(cfg: Config, t: Task) {
    && !t.byUser
    && (Controlled(t.cmd) ==> VerbAllowed(cfg, t.msg.event))
    && match t.pc
       case Storing => t.cmd.Exec? && HasCommand(t.msg.data) && t.heard == []
       case Executing => t.cmd.Exec? && HasCommand(t.msg.data) && t.heard == []
       case Clearing(e) => t.cmd.Exec? && HasCommand(t.msg.data) && HeardExecution(t, e)
       case Deciding(e) => t.cmd.Exec? && HasCommand(t.msg.data) && HeardExecution(t, e)
       case Evaluating => t.cmd.Eval? && t.heard == []
       case Popping => t.cmd.PutFile? && HasFile(t.msg.data) && t.heard == []
       case Writing => t.cmd.PutFile? && HasFile(t.msg.data) && HeardGood(t)
       case Opening => t.cmd.GetFile? && HasFile(t.msg.data) && t.heard == []
       case Pushing => t.cmd.GetFile? && HasFile(t.msg.data) && HeardGood(t)
       case Checking => t.cmd.FileExists? && t.heard == []
       case ReadingSlot => t.cmd.ExecCancel? && t.heard == []
       case Cancelling(_) => t.cmd.ExecCancel? && t.heard == []
       case ClosingClient => t.cmd.Shutdown? && t.heard == []
       case CancellingAll => t.cmd.Shutdown? && t.heard == []
       case SettingCode => t.cmd.Shutdown? && t.heard == []
       case Renaming(n) => t.cmd.Rename? && t.heard == [] && n == TextField(t.msg.data, "new_name")
       case _ => false
  }

  predicate HeardExecution(t: Task, e: Execution) { |t.heard| == 1 && e == ExecutionOf(t.heard[0]) }

  predicate HeardGood(t: Task) { |t.heard| == 1 && t.heard[0].ok }

  predicate Completed(cfg: Config, t: Task, trace: seq<Pub>) {
    CompleteTrace(cfg, t.msg, t.cmd, t.heard, t.byUser, trace)
  }

  predicate Fits(cfg: Config, t: Task, trace: seq<Pub>) {
    match t.pc
    case Acking => Acknowledged(t.cmd) && trace == [] && t.heard == [] && !t.byUser
    case Routing => trace == AckPart(t.msg, t.cmd) && t.heard == [] && !t.byUser
    case Publishing(rest) => !t.cmd.Shutdown? && Completed(cfg, t, trace + rest)
    case Returned => Completed(cfg, t, trace)
    case Gone => Completed(cfg, t, trace)
    case _ => trace == AckPart(t.msg, t.cmd) && Working(cfg, t)
  }

  /** Publishing `b` is all that is left to do. */
  predicate BodyReady(cfg: Config, t: Task, b: seq<Pub>) {
    CompleteBody(cfg, t.msg, t.cmd, t.heard, t.byUser, b)
  }

  /** After the acknowledgement a complete body completes the trace. */
  lemma BodyCompletes(cfg: Config, t: Task, b: seq<Pub>)
    requires BodyReady(cfg, t, b)
    ensures Completed(cfg, t, AckPart(t.msg, t.cmd) + b)
  {
    var a := AckPart(t.msg, t.cmd);
    assert (a + b)[|a|..] == b;
  }

  /** A task that has left the acknowledgement behind and is ready to publish, finished or
      still at work. */
  lemma FitsReady(cfg: Config, t: Task)
    requires || (t.pc.Publishing? && !t.cmd.Shutdown? && BodyReady(cfg, t, t.pc.rest))
             || (t.pc == Returned && BodyReady(cfg, t, []))
             || Working(cfg, t)
    ensures Fits(cfg, t, AckPart(t.msg, t.cmd))
  {
    if t.pc.Publishing? {
      BodyCompletes(cfg, t, t.pc.rest);
    } else if t.pc == Returned {
      BodyCompletes(cfg, t, []);
      assert AckPart(t.msg, t.cmd) + [] == AckPart(t.msg, t.cmd);
    }
  }

  lemma FitsSpawned(cfg: Config, msg: Message)
    ensures Fits(cfg, Spawned(msg), [])
  {
  }

  lemma FitsRoute(cfg: Config, t: Task, v: View, ans: Answer)
    requires t.pc == Routing && t.heard == [] && !t.byUser
    ensures Fits(cfg, Step(cfg, t, v, ans), AckPart(t.msg, t.cmd))
  {
    FitsReady(cfg, Step(cfg, t, v, ans));
  }

  lemma FitsPublish(cfg: Config, t: Task, v: View, ans: Answer, trace: seq<Pub>)
    requires t.pc.Publishing? && Fits(cfg, t, trace)
    ensures Fits(cfg, Step(cfg, t, v, ans), trace + Attempts(t))
  {
    var rest := t.pc.rest;
    if rest == [] {
      assert trace + rest == trace && trace + Attempts(t) == trace;
    } else {
      assert rest == [rest[0]] + rest[1..];
      AppendAssociates(trace, [rest[0]], rest[1..]);
    }
  }

  lemma FitsExec(cfg: Config, t: Task, v: View, ans: Answer)
    requires Working(cfg, t) && t.cmd.Exec?
    ensures Fits(cfg, Step(cfg, t, v, ans), AckPart(t.msg, t.cmd))
  {
    FitsReady(cfg, Step(cfg, t, v, ans));
  }

  lemma FitsTransfer(cfg: Config, t: Task, v: View, ans: Answer)
    requires Working(cfg, t) && (t.cmd.PutFile? || t.cmd.GetFile?)
    ensures Fits(cfg, Step(cfg, t, v, ans), AckPart(t.msg, t.cmd))
  {
    FitsReady(cfg, Step(cfg, t, v, ans));
  }

  lemma FitsOther(cfg: Config, t: Task, v: View, ans: Answer)
    requires Working(cfg, t) && !t.cmd.Exec? && !t.cmd.PutFile? && !t.cmd.GetFile?
    ensures Fits(cfg, Step(cfg, t, v, ans), AckPart(t.msg, t.cmd))
  {
    FitsReady(cfg, Step(cfg, t, v, ans));
  }

  /** Every step keeps the trace in step with the program counter. */
  lemma FitsStep(cfg: Config, t: Task, v: View, ans: Answer, trace: seq<Pub>)
    requires t.pc != Gone && Fits(cfg, t, trace)
    ensures Fits(cfg, Step(cfg, t, v, ans), trace + Attempts(t))
  {
    if t.pc.Publishing? {
      FitsPublish(cfg, t, v, ans, trace);
    } else if t.pc == Acking {
      assert trace + Attempts(t) == AckPart(t.msg, t.cmd);
    } else {
      assert trace + Attempts(t) == trace;
      if t.pc == Routing {
        FitsRoute(cfg, t, v, ans);
      } else if t.pc != Returned {
        if t.cmd.Exec? { FitsExec(cfg, t, v, ans); }
        else if t.cmd.PutFile? || t.cmd.GetFile? { FitsTransfer(cfg, t, v, ans); }
        else { FitsOther(cfg, t, v, ans); }
      }
    }
  }
}
