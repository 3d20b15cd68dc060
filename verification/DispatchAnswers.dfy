/** What each kind of message is answered with, spelled out event by event: the complete
    traces of the grammar, and what handling the message does to the shared fields. */
module DispatchAnswers {
  import opened Bytes
  import opened Messages
  import opened Dispatch
  import opened DispatchHandlers

  /** The configuration lets the verb be used. */
  predicate May(cfg: Config, verb: string) {
    cfg.allowed == None || verb in cfg.allowed.value
  }

  /** The message carries a text under `key` that is not empty. */
  predicate Carries(msg: Message, key: string) {
    key in msg.data && msg.data[key].Text? && msg.data[key].text != ""
  }

  lemma MayByEvent(cfg: Config, event: string, verb: string)
    requires event == "worker." + verb && verb != ""
    ensures VerbAllowed(cfg, event) <==> May(cfg, verb)
  {
    VerbAfterPrefix(event, verb);
  }

  /** A complete trace is its acknowledgement and what is owed after it. */
  lemma TraceParts(cfg: Config, msg: Message, c: Command, heard: seq<Answer>, byUser: bool, t: seq<Pub>)
    requires CompleteTrace(cfg, msg, c, heard, byUser, t)
    ensures t == AckPart(msg, c) + OwedBody(cfg, msg, c, heard, byUser)
    ensures HeardAll(cfg, msg, c, heard)
  {
    assert t == AckPart(msg, c) + t[|AckPart(msg, c)|..];
  }

  /** worker.exec: the executor's return code, 130 when it failed after a cancel, 99 when
      it failed otherwise; 99 unasked when the verb is denied or "cmd" is missing. */
  lemma ExecAnswer(cfg: Config, msg: Message, heard: seq<Answer>, byUser: bool, t: seq<Pub>)
    requires msg.event == "worker.exec" && CompleteTrace(cfg, msg, CommandOf(msg.event), heard, byUser, t)
    ensures if May(cfg, "exec") && "cmd" in msg.data then
              && |heard| == 1
              && t == [Ack("worker.exec", msg.oid),
                       Result(msg.oid, if heard[0].ok then heard[0].rc else if byUser then 130 else 99),
                       Done(msg.oid)]
            else heard == [] && t == [Ack("worker.exec", msg.oid), Result(msg.oid, 99), Done(msg.oid)]
  {
    MayByEvent(cfg, msg.event, "exec");
    TraceParts(cfg, msg, Exec, heard, byUser, t);
  }

  /** worker.eval: done, or a result with code 99 and no done. */
  lemma EvalAnswer(cfg: Config, msg: Message, heard: seq<Answer>, byUser: bool, t: seq<Pub>)
    requires msg.event == "worker.eval" && CompleteTrace(cfg, msg, CommandOf(msg.event), heard, byUser, t)
    ensures if May(cfg, "eval") then
              && |heard| == 1
              && t == [Ack("worker.eval", msg.oid),
                       if heard[0].ok then Own(EvalDone, msg.oid) else Result(msg.oid, 99)]
            else heard == [] && t == [Ack("worker.eval", msg.oid), Result(msg.oid, 99), Done(msg.oid)]
  {
    MayByEvent(cfg, msg.event, "eval");
    TraceParts(cfg, msg, Eval, heard, byUser, t);
  }

  /** worker.put_file: fail as soon as the pop or the write fails, done after both; 99 when
      the verb is denied or a field is missing. */
  lemma PutFileAnswer(cfg: Config, msg: Message, heard: seq<Answer>, byUser: bool, t: seq<Pub>)
    requires msg.event == "worker.put_file" && CompleteTrace(cfg, msg, CommandOf(msg.event), heard, byUser, t)
    ensures if May(cfg, "put_file") && Carries(msg, "filekey") && Carries(msg, "filepath") then
              || (|heard| == 1 && !heard[0].ok && t == [Ack("worker.put_file", msg.oid), Own(PutFail, msg.oid)])
              || (|heard| == 2 && heard[0].ok &&
                  t == [Ack("worker.put_file", msg.oid), Own(if heard[1].ok then PutDone else PutFail, msg.oid)])
            else heard == [] && t == [Ack("worker.put_file", msg.oid), Result(msg.oid, 99), Done(msg.oid)]
  {
    MayByEvent(cfg, msg.event, "put_file");
    TraceParts(cfg, msg, PutFile, heard, byUser, t);
    GoodOfTwo(heard);
  }

  /** worker.get_file: fail as soon as the file cannot be opened or pushed, done after both. */
  lemma GetFileAnswer(cfg: Config, msg: Message, heard: seq<Answer>, byUser: bool, t: seq<Pub>)
    requires msg.event == "worker.get_file" && CompleteTrace(cfg, msg, CommandOf(msg.event), heard, byUser, t)
    ensures if May(cfg, "get_file") && Carries(msg, "filekey") && Carries(msg, "filepath") then
              || (|heard| == 1 && !heard[0].ok && t == [Ack("worker.get_file", msg.oid), Own(GetFail, msg.oid)])
              || (|heard| == 2 && heard[0].ok &&
                  t == [Ack("worker.get_file", msg.oid), Own(if heard[1].ok then GetDone else GetFail, msg.oid)])
            else heard == [] && t == [Ack("worker.get_file", msg.oid), Result(msg.oid, 99), Done(msg.oid)]
  {
    MayByEvent(cfg, msg.event, "get_file");
    TraceParts(cfg, msg, GetFile, heard, byUser, t);
    GoodOfTwo(heard);
  }

  lemma GoodOfTwo(heard: seq<Answer>)
    ensures |heard| == 1 ==> AllGood(heard) == heard[0].ok
    ensures |heard| == 2 ==> AllGood(heard) == (heard[0].ok && heard[1].ok)
  {
    if |heard| == 1 { assert heard == [heard[0]]; }
    if |heard| == 2 { assert heard == [heard[0], heard[1]]; }
  }

  /** worker.file_exists: one reply with the file system's answer. */
  lemma FileExistsAnswer(cfg: Config, msg: Message, heard: seq<Answer>, byUser: bool, t: seq<Pub>)
    requires msg.event == "worker.file_exists" && CompleteTrace(cfg, msg, CommandOf(msg.event), heard, byUser, t)
    ensures if May(cfg, "file_exists") then
              && |heard| == 1
              && t == [Ack("worker.file_exists", msg.oid), Own(ExistsReply(heard[0].ok), msg.oid)]
            else heard == [] && t == [Ack("worker.file_exists", msg.oid), Result(msg.oid, 99), Done(msg.oid)]
  {
    MayByEvent(cfg, msg.event, "file_exists");
    TraceParts(cfg, msg, FileExists, heard, byUser, t);
    GoodOfTwo(heard);
  }

  /** worker.capable: a reply if the worker has all the tags asked for, nothing otherwise. */
  lemma CapableAnswer(cfg: Config, msg: Message, heard: seq<Answer>, byUser: bool, t: seq<Pub>)
    requires msg.event == "worker.capable" && CompleteTrace(cfg, msg, CommandOf(msg.event), heard, byUser, t)
    ensures heard == []
    ensures if "tags" in msg.data && msg.data["tags"].List? && exists x :: x in msg.data["tags"].items && x !in cfg.tags
            then t == [Ack("worker.capable", msg.oid)]
            else t == [Ack("worker.capable", msg.oid), Own(CapableReply, msg.oid)]
  {
    TraceParts(cfg, msg, Capable, heard, byUser, t);
  }

  /** Messages that are acknowledged and nothing else. */
  lemma AckOnly(cfg: Config, msg: Message, heard: seq<Answer>, byUser: bool, t: seq<Pub>)
    requires || msg.event == "worker.ready" || msg.event == "worker.exec.cancel"
             || msg.event == "worker.connect" || msg.event == "worker.disconnect"
             || msg.event == "worker.register" || msg.event == "worker.unregister"
    requires CompleteTrace(cfg, msg, CommandOf(msg.event), heard, byUser, t)
    ensures heard == [] && t == [Ack(msg.event, msg.oid)]
  {
    TraceParts(cfg, msg, CommandOf(msg.event), heard, byUser, t);
  }

  /** worker.shutdown and worker.rename are answered with nothing at all. */
  lemma NoAnswer(cfg: Config, msg: Message, heard: seq<Answer>, byUser: bool, t: seq<Pub>)
    requires msg.event == "worker.shutdown" || msg.event == "worker.rename"
    requires CompleteTrace(cfg, msg, CommandOf(msg.event), heard, byUser, t)
    ensures heard == [] && t == []
  {
    TraceParts(cfg, msg, CommandOf(msg.event), heard, byUser, t);
  }

  /** Any other event is acknowledged and answered with a result of code 99, no done. */
  lemma UnknownAnswer(cfg: Config, msg: Message, heard: seq<Answer>, byUser: bool, t: seq<Pub>)
    requires msg.event !in {"worker.ready", "worker.exec", "worker.eval", "worker.put_file", "worker.get_file",
                            "worker.file_exists", "worker.capable", "worker.shutdown", "worker.exec.cancel",
                            "worker.rename", "worker.connect", "worker.disconnect", "worker.register",
                            "worker.unregister"}
    requires CompleteTrace(cfg, msg, CommandOf(msg.event), heard, byUser, t)
    ensures heard == [] && t == [Ack(msg.event, msg.oid), Result(msg.oid, 99)]
  {
    TraceParts(cfg, msg, CommandOf(msg.event), heard, byUser, t);
  }

  // ---------- what handling does to the shared fields ----------

  /** What handling publishes is a complete trace. */
  lemma HandledTrace(cfg: Config, f: Fields, msg: Message, me: nat, heard: seq<Answer>) returns (t: seq<Pub>)
    requires HeardAll(cfg, msg, CommandOf(msg.event), heard)
    ensures Handled(cfg, f, msg, me, heard).log == f.log + t
    ensures CompleteTrace(cfg, msg, CommandOf(msg.event), heard, f.ctxDone || me in f.cancelled, t)
  {
    var c := CommandOf(msg.event);
    var a, b := AckPart(msg, c), OwedBody(cfg, msg, c, heard, f.ctxDone || me in f.cancelled);
    t := a + b;
    AppendAssociates(f.log, a, b);
    assert t[|a|..] == b;
  }

  /** Handling a worker.exec adds exactly these three publications to the log. */
  lemma ExecHandled(cfg: Config, f: Fields, msg: Message, me: nat, heard: seq<Answer>)
    requires msg.event == "worker.exec" && HeardAll(cfg, msg, CommandOf(msg.event), heard)
    ensures var g := Handled(cfg, f, msg, me, heard);
            if May(cfg, "exec") && "cmd" in msg.data then
              && |heard| == 1
              && g.log == f.log + [Ack("worker.exec", msg.oid),
                                   Result(msg.oid, if heard[0].ok then heard[0].rc
                                                   else if f.ctxDone || me in f.cancelled then 130 else 99),
                                   Done(msg.oid)]
            else g.log == f.log + [Ack("worker.exec", msg.oid), Result(msg.oid, 99), Done(msg.oid)]
  {
    var t := HandledTrace(cfg, f, msg, me, heard);
    ExecAnswer(cfg, msg, heard, f.ctxDone || me in f.cancelled, t);
  }

  lemma ShutdownHandled(cfg: Config, f: Fields, msg: Message, me: nat, heard: seq<Answer>)
    requires msg.event == "worker.shutdown"
    ensures var g := Handled(cfg, f, msg, me, heard);
            && g.log == f.log && g.slot == f.slot && g.cancelled == f.cancelled && g.name == f.name
            && g.code == 10 && g.closed && (g.ctxDone <==> f.ctxDone || cfg.hasCancelFunc)
  {
    assert f.log + [] + [] == f.log;
  }

  lemma ExecCancelHandled(cfg: Config, f: Fields, msg: Message, me: nat, heard: seq<Answer>)
    requires msg.event == "worker.exec.cancel"
    ensures var g := Handled(cfg, f, msg, me, heard);
            && g.log == f.log + [Ack("worker.exec.cancel", msg.oid)] && g.slot == f.slot
            && (forall k :: k in g.cancelled <==> k in f.cancelled || f.slot == Some(k))
            && g.ctxDone == f.ctxDone && g.code == f.code && g.closed == f.closed && g.name == f.name
  {
    assert f.log + [Ack("worker.exec.cancel", msg.oid)] + [] == f.log + [Ack("worker.exec.cancel", msg.oid)];
  }

  lemma RenameHandled(cfg: Config, f: Fields, msg: Message, me: nat, heard: seq<Answer>)
    requires msg.event == "worker.rename"
    ensures var g := Handled(cfg, f, msg, me, heard);
            && g.log == f.log && g.slot == f.slot && g.cancelled == f.cancelled
            && g.ctxDone == f.ctxDone && g.code == f.code && g.closed == f.closed
            && g.name == if Carries(msg, "new_name") then msg.data["new_name"].text else f.name
  {
    assert f.log + [] + [] == f.log;
  }

  /** All other messages touch the log; an exec that ran leaves the slot empty. */
  lemma OthersHandled(cfg: Config, f: Fields, msg: Message, me: nat, heard: seq<Answer>)
    requires msg.event != "worker.shutdown" && msg.event != "worker.exec.cancel" && msg.event != "worker.rename"
    requires HeardAll(cfg, msg, CommandOf(msg.event), heard)
    ensures var g := Handled(cfg, f, msg, me, heard);
            && g.cancelled == f.cancelled && g.ctxDone == f.ctxDone && g.code == f.code
            && g.closed == f.closed && g.name == f.name
            && g.slot == if msg.event == "worker.exec" && May(cfg, "exec") && "cmd" in msg.data then None else f.slot
  {
    if msg.event == "worker.exec" {
      MayByEvent(cfg, msg.event, "exec");
    }
  }
}
