/** The dispatcher object: one message handled from start to end by one goroutine, with
    the publications it attempts and the fields it changes. What several goroutines do to
    each other is the subject of DispatchRun; DispatchAlone ties the two together. */
module DispatchHandlers {
  import opened Bytes
  import opened Messages
  import opened Dispatch

  /** The answers waiting for a handler. */
  datatype World = World(first: Answer, second: Answer)

  /** What all handlers share. */
  datatype Fields = Fields(log: seq<Pub>, slot: Option<nat>, cancelled: set<nat>, ctxDone: bool, code: int,
                           closed: bool, name: string)

  /** The shared fields once the `me`-th message has been handled with nobody else around,
      given the answers heard: acknowledgement and owed publications are out, an exec has
      left the slot empty, an exec.cancel has cancelled whoever was in it, a shutdown has
      closed the client, cancelled the run, if it can, and stored its code, and a rename has
      told the publisher the new name. */
  function Handled(cfg: Config, f: Fields, msg: Message, me: nat, heard: seq<Answer>): Fields {
    var c := CommandOf(msg.event);
    Fields(
      f.log + AckPart(msg, c) + OwedBody(cfg, msg, c, heard, f.ctxDone || me in f.cancelled),
      if c.Exec? && heard != [] then None else f.slot,
      if c.ExecCancel? && f.slot.Some? then f.cancelled + {f.slot.value} else f.cancelled,
      f.ctxDone || (c.Shutdown? && cfg.hasCancelFunc),
      if c.Shutdown? then 10 else f.code,
      f.closed || c.Shutdown?,
      if c.Rename? && TextField(msg.data, "new_name") != "" then TextField(msg.data, "new_name") else f.name)
  }

  class Dispatcher {
    const cfg: Config
    var log: seq<Pub>                 // every publication attempted
    var execCancel: Option<nat>       // whose cancel function is stored
    var cancelled: set<nat>           // the execs whose context was cancelled through it
    var clientClosed: bool
    var runCancelled: bool
    var shutdownCode: int
    var workerName: string            // what the publisher was last told

    constructor (cfg: Config)
      ensures this.cfg == cfg && log == [] && execCancel == None && shutdownCode == 0
      ensures !clientClosed && !runCancelled && cancelled == {}
    {
      this.cfg := cfg;
      log, execCancel, shutdownCode, workerName := [], None, 0, "";
      clientClosed, runCancelled, cancelled := false, false, {};
    }

    ghost function Shared(): Fields
      reads this
    {
      Fields(log, execCancel, cancelled, runCancelled, shutdownCode, clientClosed, workerName)
    }

    method Publish(p: Pub)
      modifies this`log
      ensures log == old(log) + [p]
    {
      log := log + [p];
    }

    /** publishError, then publishDone. */
    method PublishErrorAndDone(msg: Message)
      modifies this`log
      ensures log == old(log) + ErrorPubs(msg)
    {
      Publish(Result(msg.oid, ERROR_RC));
      Publish(Done(msg.oid));
    }

    method HandleExec(msg: Message, me: nat, w: World) returns (ghost heard: seq<Answer>)
      requires VerbAllowed(cfg, msg.event)
      modifies this`log, this`execCancel
      ensures HeardAll(cfg, msg, Exec, heard) && heard <= [w.first, w.second]
      ensures log == old(log) + OwedBody(cfg, msg, Exec, heard, runCancelled || me in cancelled)
      ensures execCancel == if HasCommand(msg.data) then None else old(execCancel)
    {
      if !HasCommand(msg.data) {
        PublishErrorAndDone(msg);
        return [];
      }
      execCancel := Some(me);
      var ans := w.first;             // the executor returns
      heard := [ans];
      execCancel := None;
      if !ans.ok {
        if runCancelled || me in cancelled {
          Publish(Result(msg.oid, CANCELLED_RC));
          Publish(Done(msg.oid));
        } else {
          PublishErrorAndDone(msg);
        }
        assert ans in heard;
        return;
      }
      Publish(Result(msg.oid, ans.rc));
      Publish(Done(msg.oid));
    }

    method HandleEval(msg: Message, w: World) returns (ghost heard: seq<Answer>)
      requires VerbAllowed(cfg, msg.event)
      modifies this`log
      ensures HeardAll(cfg, msg, Eval, heard) && heard <= [w.first, w.second]
      ensures log == old(log) + OwedBody(cfg, msg, Eval, heard, false)
    {
      heard := [w.first];
      assert w.first in heard;
      if !w.first.ok {
        Publish(Result(msg.oid, ERROR_RC));
        return;
      }
      Publish(Own(EvalDone, msg.oid));
    }

    /** Pops the bytes, then writes the file. */
    method HandlePutFile(msg: Message, w: World) returns (ghost heard: seq<Answer>)
      requires VerbAllowed(cfg, msg.event)
      modifies this`log
      ensures HeardAll(cfg, msg, PutFile, heard) && heard <= [w.first, w.second]
      ensures log == old(log) + OwedBody(cfg, msg, PutFile, heard, false)
    {
      if TextField(msg.data, "filekey") == "" {
        PublishErrorAndDone(msg);
        return [];
      }
      if TextField(msg.data, "filepath") == "" {
        PublishErrorAndDone(msg);
        return [];
      }
      if !w.first.ok {
        heard := [w.first];
        assert w.first in heard;
        Publish(Own(PutFail, msg.oid));
        return;
      }
      heard := [w.first, w.second];
      assert w.second in heard;
      if !w.second.ok {
        Publish(Own(PutFail, msg.oid));
        return;
      }
      Publish(Own(PutDone, msg.oid));
    }

    /** Opens the file, then pushes its bytes. */
    method HandleGetFile(msg: Message, w: World) returns (ghost heard: seq<Answer>)
      requires VerbAllowed(cfg, msg.event)
      modifies this`log
      ensures HeardAll(cfg, msg, GetFile, heard) && heard <= [w.first, w.second]
      ensures log == old(log) + OwedBody(cfg, msg, GetFile, heard, false)
    {
      if TextField(msg.data, "filekey") == "" {
        PublishErrorAndDone(msg);
        return [];
      }
      if TextField(msg.data, "filepath") == "" {
        PublishErrorAndDone(msg);
        return [];
      }
      if !w.first.ok {
        heard := [w.first];
        assert w.first in heard;
        Publish(Own(GetFail, msg.oid));
        return;
      }
      heard := [w.first, w.second];
      assert w.second in heard;
      if !w.second.ok {
        Publish(Own(GetFail, msg.oid));
        return;
      }
      Publish(Own(GetDone, msg.oid));
    }

    method HandleFileExists(msg: Message, w: World) returns (ghost heard: seq<Answer>)
      requires VerbAllowed(cfg, msg.event)
      modifies this`log
      ensures HeardAll(cfg, msg, FileExists, heard) && heard <= [w.first, w.second]
      ensures log == old(log) + OwedBody(cfg, msg, FileExists, heard, false)
    {
      heard := [w.first];
      assert w.first in heard;
      Publish(Own(ExistsReply(w.first.ok), msg.oid));
    }

    /** Whether every requested tag is one of `mine`. */
    static method HoldsAll(requested: seq<string>, mine: seq<string>) returns (allMatch: bool)
      ensures allMatch <==> forall t :: t in requested ==> t in mine
    {
      allMatch := true;
      for i := 0 to |requested|
        invariant allMatch
        invariant forall k :: 0 <= k < i ==> requested[k] in mine
      {
        var found := false;
        for j := 0 to |mine|
          invariant !found
          invariant requested[i] !in mine[..j]
        {
          if requested[i] == mine[j] {
            found := true;
            break;
          }
        }
        if !found {
          assert mine[..|mine|] == mine && requested[i] in requested;
          allMatch := false;
          break;
        }
      }
    }

    method HandleCapable(msg: Message)
      modifies this`log
      ensures log == old(log) + OwedBody(cfg, msg, Capable, [], false)
    {
      var allMatch := HoldsAll(RequestedTags(msg.data), cfg.tags);
      assert log + [] == log;
      if allMatch {
        Publish(Own(CapableReply, msg.oid));
      }
    }

    method HandleShutdown()
      modifies this`clientClosed, this`runCancelled, this`shutdownCode
      ensures clientClosed && shutdownCode == 10
      ensures runCancelled == (old(runCancelled) || cfg.hasCancelFunc)
    {
      clientClosed := true;
      if cfg.hasCancelFunc {
        runCancelled := true;
      }
      shutdownCode := 10;
    }

    method HandleExecCancel()
      modifies this`cancelled
      ensures cancelled == old(cancelled) + if execCancel.Some? then {execCancel.value} else {}
    {
      var cancel := execCancel;
      if cancel.Some? {
        cancelled := cancelled + {cancel.value};
      }
    }

    /** The verb gate in front of the five controlled handlers. */
    method DispatchControlled(msg: Message, c: Command, me: nat, w: World) returns (ghost heard: seq<Answer>)
      requires Controlled(c)
      modifies this`log, this`execCancel
      ensures HeardAll(cfg, msg, c, heard) && heard <= [w.first, w.second]
      ensures log == old(log) + OwedBody(cfg, msg, c, heard, runCancelled || me in cancelled)
      ensures execCancel == if heard != [] && c.Exec? then None else old(execCancel)
    {
      if !VerbAllowed(cfg, msg.event) {
        PublishErrorAndDone(msg);
        return [];
      }
      match c {
        case Exec => heard := HandleExec(msg, me, w);
        case Eval => heard := HandleEval(msg, w);
        case PutFile => heard := HandlePutFile(msg, w);
        case GetFile => heard := HandleGetFile(msg, w);
        case FileExists => heard := HandleFileExists(msg, w);
      }
    }

    /** One message: the shared fields become what Handled says. */
    method Dispatch(msg: Message, me: nat, w: World) returns (ghost heard: seq<Answer>)
      modifies this
      ensures HeardAll(cfg, msg, CommandOf(msg.event), heard) && heard <= [w.first, w.second]
      ensures Shared() == Handled(cfg, old(Shared()), msg, me, heard)
    {
      var c := CommandOf(msg.event);
      heard := [];
      if Acknowledged(c) {
        Publish(Ack(msg.event, msg.oid));
      }
      assert log == old(log) + AckPart(msg, c);
      assert log + [] == log;
      if Controlled(c) {
        heard := DispatchControlled(msg, c, me, w);
      } else {
        match c {
          case Capable => HandleCapable(msg);
          case Shutdown => HandleShutdown();
          case ExecCancel => HandleExecCancel();
          case Rename =>
            var newName := TextField(msg.data, "new_name");
            if newName != "" {
              workerName := newName;
            }
          case Unknown => Publish(Result(msg.oid, ERROR_RC));
          case Ready =>
          case Notification =>
        }
      }
    }
  }
}
