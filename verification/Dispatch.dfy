/** What the dispatcher owes for each message: the commands, the verb gate and the
    grammar of publications. */
module Dispatch {
  import opened Bytes
  import opened Messages

  datatype Command =
    | Ready | Exec | Eval | PutFile | GetFile | FileExists | Capable
    | Shutdown | ExecCancel | Rename | Notification | Unknown

  function CommandOf(event: string): Command {
    match event
    case "worker.ready" => Ready
    case "worker.exec" => Exec
    case "worker.eval" => Eval
    case "worker.put_file" => PutFile
    case "worker.get_file" => GetFile
    case "worker.file_exists" => FileExists
    case "worker.capable" => Capable
    case "worker.shutdown" => Shutdown
    case "worker.exec.cancel" => ExecCancel
    case "worker.rename" => Rename
    case "worker.connect" => Notification
    case "worker.disconnect" => Notification
    case "worker.register" => Notification
    case "worker.unregister" => Notification
    case _ => Unknown
  }

  /** The commands that configuration can forbid. */
  predicate Controlled(c: Command) {
    c.Exec? || c.Eval? || c.PutFile? || c.GetFile? || c.FileExists?
  }

  predicate Acknowledged(c: Command) { !c.Shutdown? && !c.Rename? }

  // ---------- configuration ----------

  /** `allowed` is None when no restrictions are configured. */
  datatype Config = Config(tags: seq<string>, allowed: Option<set<string>>, hasCancelFunc: bool)

  const WORKER: string := "worker."

  function VerbFromEvent(event: string): string {
    if |event| > 7 && event[..7] == WORKER then event[7..] else ""
  }

  predicate VerbAllowed(cfg: Config, event: string) {
    cfg.allowed.None? || VerbFromEvent(event) in cfg.allowed.value
  }

  function VerbOf(c: Command): string
    requires Controlled(c)
  {
    match c
    case Exec => "exec"
    case Eval => "eval"
    case PutFile => "put_file"
    case GetFile => "get_file"
    case FileExists => "file_exists"
  }

  lemma VerbOfEvent(event: string)
    requires Controlled(CommandOf(event))
    ensures VerbFromEvent(event) == VerbOf(CommandOf(event))
  {
    match event
    case "worker.exec" => VerbAfterPrefix(event, "exec");
    case "worker.eval" => VerbAfterPrefix(event, "eval");
    case "worker.put_file" => VerbAfterPrefix(event, "put_file");
    case "worker.get_file" => VerbAfterPrefix(event, "get_file");
    case "worker.file_exists" => VerbAfterPrefix(event, "file_exists");
    case _ =>
  }

  lemma VerbAfterPrefix(event: string, verb: string)
    requires event == WORKER + verb && verb != ""
    ensures VerbFromEvent(event) == verb
  {
    assert event[..7] == WORKER && event[7..] == verb;
  }

  // ---------- message data ----------

  function TextField(data: Payload, key: string): string {
    if key in data && data[key].Text? then data[key].text else ""
  }

  function RequestedTags(data: Payload): seq<string> {
    if "tags" in data && data["tags"].List? then data["tags"].items else []
  }

  predicate HasCommand(data: Payload) { "cmd" in data }

  predicate HasFile(data: Payload) {
    TextField(data, "filekey") != "" && TextField(data, "filepath") != ""
  }

  /** The worker has every tag that is asked for. */
  predicate HoldsTags(cfg: Config, data: Payload) {
    forall t :: t in RequestedTags(data) ==> t in cfg.tags
  }

  // ---------- publications ----------

  datatype Outcome = EvalDone | PutDone | PutFail | GetDone | GetFail | CapableReply | ExistsReply(present: bool)

  /** One attempt to publish: `worker.result` with its return code, `worker.done`, the
      acknowledgement of an event, or a command's own reply. */
  datatype Pub =
    | Ack(event: string, oid: string)
    | Result(oid: string, rc: int)
    | Done(oid: string)
    | Own(outcome: Outcome, oid: string)

  const ERROR_RC := 99
  const CANCELLED_RC := 130

  function ErrorPubs(msg: Message): seq<Pub> { [Result(msg.oid, ERROR_RC), Done(msg.oid)] }

  // ---------- the grammar ----------

  function One(b: bool): nat { if b then 1 else 0 }

  function AckPart(msg: Message, c: Command): seq<Pub> {
    if Acknowledged(c) then [Ack(msg.event, msg.oid)] else []
  }

  /** What the world answers to a request: success or not, and a return code. */
  datatype Answer = Answer(ok: bool, rc: int)

  /** The answers a handler has to get before it is finished. Storing a file and pushing
      a file each need a second answer only after a good first one. */
  predicate HeardAll(cfg: Config, msg: Message, c: Command, heard: seq<Answer>) {
    if !Controlled(c) || !VerbAllowed(cfg, msg.event) then heard == []
    else
      match c
      case Exec => |heard| == One(HasCommand(msg.data))
      case Eval => |heard| == 1
      case PutFile => HeardTwo(HasFile(msg.data), heard)
      case GetFile => HeardTwo(HasFile(msg.data), heard)
      case FileExists => |heard| == 1
  }

  predicate HeardTwo(asked: bool, heard: seq<Answer>) {
    if !asked then heard == []
    else (|heard| == 1 && !heard[0].ok) || (|heard| == 2 && heard[0].ok)
  }

  predicate AllGood(heard: seq<Answer>) { forall a :: a in heard ==> a.ok }

  /** What must follow the acknowledgement, given the answers; `byUser` says that a failed
      exec found its context cancelled. */
  function OwedBody(cfg: Config, msg: Message, c: Command, heard: seq<Answer>, byUser: bool): seq<Pub> {
    var oid := msg.oid;
    if Controlled(c) && !VerbAllowed(cfg, msg.event) then ErrorPubs(msg)
    else
      match c
      case Exec =>
        if heard == [] then ErrorPubs(msg)
        else if AllGood(heard) then [Result(oid, heard[0].rc), Done(oid)]
        else if byUser then [Result(oid, CANCELLED_RC), Done(oid)]
        else ErrorPubs(msg)
      case Eval => [if AllGood(heard) then Own(EvalDone, oid) else Result(oid, ERROR_RC)]
      case PutFile => if heard == [] then ErrorPubs(msg) else [Own(if AllGood(heard) then PutDone else PutFail, oid)]
      case GetFile => if heard == [] then ErrorPubs(msg) else [Own(if AllGood(heard) then GetDone else GetFail, oid)]
      case FileExists => [Own(ExistsReply(AllGood(heard)), oid)]
      case Capable => if HoldsTags(cfg, msg.data) then [Own(CapableReply, oid)] else []
      case Unknown => [Result(oid, ERROR_RC)]
      case _ => []
  }

  /** A message handled completely: every answer in, and exactly the owed publications. */
  predicate CompleteBody(cfg: Config, msg: Message, c: Command, heard: seq<Answer>, byUser: bool, b: seq<Pub>) {
    HeardAll(cfg, msg, c, heard) && b == OwedBody(cfg, msg, c, heard, byUser)
  }

  predicate CompleteTrace(cfg: Config, msg: Message, c: Command, heard: seq<Answer>, byUser: bool, t: seq<Pub>) {
    var a := AckPart(msg, c);
    a <= t && CompleteBody(cfg, msg, c, heard, byUser, t[|a|..])
  }

  // ---------- what the grammar guarantees ----------

  predicate IsOutcome(p: Pub) { p.Result? || p.Own? }

  /** Whether a message is owed an outcome. */
  predicate OwedOutcome(cfg: Config, msg: Message, c: Command) {
    Controlled(c) || c.Unknown? || (c.Capable? && HoldsTags(cfg, msg.data))
  }

  function CountPubs(t: seq<Pub>, f: Pub -> bool): nat {
    if t == [] then 0 else (if f(t[0]) then 1 else 0) + CountPubs(t[1..], f)
  }

  lemma {:induction false} CountPubsAppend(a: seq<Pub>, b: seq<Pub>, f: Pub -> bool)
    ensures CountPubs(a + b, f) == CountPubs(a, f) + CountPubs(b, f)
  {
    if a == [] {
      assert a + b == b;
    } else {
      assert (a + b)[1..] == a[1..] + b;
      CountPubsAppend(a[1..], b, f);
    }
  }

  lemma CountShort(t: seq<Pub>, f: Pub -> bool)
    requires |t| <= 2
    ensures CountPubs(t, f) == One(|t| > 0 && f(t[0])) + One(|t| > 1 && f(t[1]))
  {
    if |t| == 2 { assert t[1..] == [t[1]]; }
  }

  /** The body has at most one outcome, first; a Done only directly after a Result. */
  lemma BodyShape(cfg: Config, msg: Message, c: Command, heard: seq<Answer>, byUser: bool, b: seq<Pub>)
    requires CompleteBody(cfg, msg, c, heard, byUser, b)
    ensures |b| <= 2
    ensures forall k :: 0 <= k < |b| ==> !b[k].Ack? && b[k].oid == msg.oid
    ensures |b| >= 1 <==> OwedOutcome(cfg, msg, c)
    ensures |b| >= 1 ==> IsOutcome(b[0])
    ensures |b| == 2 ==> b[0].Result? && b[1].Done?
  {
  }

  /** A complete trace has its acknowledgement first and only there, and a Done only last,
      directly after a Result. */
  lemma TraceShape(cfg: Config, msg: Message, c: Command, heard: seq<Answer>, byUser: bool, t: seq<Pub>)
    requires CompleteTrace(cfg, msg, c, heard, byUser, t)
    ensures forall k :: 0 <= k < |t| ==> (t[k].Ack? <==> k == 0 && Acknowledged(c)) && t[k].oid == msg.oid
    ensures forall k :: 0 <= k < |t| && t[k].Done? ==> k == |t| - 1 && k > 0 && t[k - 1].Result?
  {
    var a := AckPart(msg, c);
    BodyShape(cfg, msg, c, heard, byUser, t[|a|..]);
    assert t == a + t[|a|..];
  }

  /** It has one acknowledgement if the command gets one, and one outcome if one is owed. */
  lemma TraceCounts(cfg: Config, msg: Message, c: Command, heard: seq<Answer>, byUser: bool, t: seq<Pub>)
    requires CompleteTrace(cfg, msg, c, heard, byUser, t)
    ensures CountPubs(t, (p: Pub) => p.Ack?) == One(Acknowledged(c))
    ensures CountPubs(t, IsOutcome) == One(OwedOutcome(cfg, msg, c))
  {
    var a := AckPart(msg, c);
    var b := t[|a|..];
    assert t == a + b;
    BodyShape(cfg, msg, c, heard, byUser, b);
    var isAck := (p: Pub) => p.Ack?;
    CountPubsAppend(a, b, isAck);
    CountPubsAppend(a, b, IsOutcome);
    CountShort(a, isAck); CountShort(b, isAck);
    CountShort(a, IsOutcome); CountShort(b, IsOutcome);
  }
}
