/** Counting over the whole attempt log: acknowledgements and outcomes match the messages
    dispatched, and no controlled verb acts unless it is allowed. */
module DispatchCounts {
  import opened Dispatch
  import opened DispatchTask
  import opened DispatchRun

  function CountLog(log: seq<Entry>, f: Pub -> bool): nat {
    if log == [] then 0 else CountLog(log[..|log| - 1], f) + One(f(log[|log| - 1].pub))
  }

  /** The same count, task by task. */
  function CountByTask(log: seq<Entry>, n: nat, f: Pub -> bool): nat {
    if n == 0 then 0 else CountByTask(log, n - 1, f) + CountPubs(Projection(log, n - 1), f)
  }

  lemma {:induction false} CountByTaskOne(log: seq<Entry>, e: Entry, n: nat, f: Pub -> bool)
    ensures CountByTask(log + [e], n, f) == CountByTask(log, n, f) + if e.task < n then One(f(e.pub)) else 0
  {
    if n > 0 {
      CountByTaskOne(log, e, n - 1, f);
      ProjectionOne(log, e, n - 1);
      var p := Projection(log, n - 1);
      if e.task == n - 1 {
        CountPubsAppend(p, [e.pub], f);
      } else {
        assert p + [] == p;
      }
    }
  }

  lemma {:induction false} CountNothing(n: nat, f: Pub -> bool)
    ensures CountByTask([], n, f) == 0
  {
    if n > 0 { CountNothing(n - 1, f); }
  }

  lemma {:induction false} CountsAgree(log: seq<Entry>, n: nat, f: Pub -> bool)
    requires forall k :: 0 <= k < |log| ==> log[k].task < n
    ensures CountLog(log, f) == CountByTask(log, n, f)
  {
    if log == [] {
      CountNothing(n, f);
    } else {
      var front, e := log[..|log| - 1], log[|log| - 1];
      assert log == front + [e];
      CountsAgree(front, n, f);
      CountByTaskOne(front, e, n, f);
    }
  }

  /** How many messages satisfy `f`. */
  function CountTasks(tasks: seq<Task>, f: Task -> bool): nat {
    if tasks == [] then 0 else CountTasks(tasks[..|tasks| - 1], f) + One(f(tasks[|tasks| - 1]))
  }

  lemma {:induction false} CountMatches(log: seq<Entry>, tasks: seq<Task>, f: Pub -> bool, g: Task -> bool)
    requires forall i :: 0 <= i < |tasks| ==> CountPubs(Projection(log, i), f) == One(g(tasks[i]))
    ensures CountByTask(log, |tasks|, f) == CountTasks(tasks, g)
  {
    if tasks != [] { CountMatches(log, tasks[..|tasks| - 1], f, g); }
  }

  /** When Run returns, the whole log holds one acknowledgement for each message that gets
      one and one outcome for each message that is owed one, under every interleaving. */
  lemma CountsMatchMessages(cfg: Config, actions: seq<Action>, t: State)
    requires Leads(cfg, INIT, actions, t) && t.loop.Over?
    ensures CountLog(t.log, (p: Pub) => p.Ack?) == CountTasks(t.tasks, (k: Task) => Acknowledged(k.cmd))
    ensures CountLog(t.log, IsOutcome) == CountTasks(t.tasks, (k: Task) => OwedOutcome(cfg, k.msg, k.cmd))
  {
    EveryTraceComplete(cfg, actions, t);
    InitInv(cfg);
    InvRun(cfg, INIT, actions, t);
    var isAck := (p: Pub) => p.Ack?;
    forall i | 0 <= i < |t.tasks|
      ensures CountPubs(Projection(t.log, i), (p: Pub) => p.Ack?) == One(Acknowledged(t.tasks[i].cmd))
      ensures CountPubs(Projection(t.log, i), IsOutcome) == One(OwedOutcome(cfg, t.tasks[i].msg, t.tasks[i].cmd))
    {
      var k := t.tasks[i];
      TraceCounts(cfg, k.msg, k.cmd, k.heard, k.byUser, Projection(t.log, i));
    }
    CountsAgree(t.log, |t.tasks|, (p: Pub) => p.Ack?);
    CountsAgree(t.log, |t.tasks|, IsOutcome);
    CountMatches(t.log, t.tasks, (p: Pub) => p.Ack?, (k: Task) => Acknowledged(k.cmd));
    CountMatches(t.log, t.tasks, IsOutcome, (k: Task) => OwedOutcome(cfg, k.msg, k.cmd));
  }

  // ---------- commands and the verb gate ----------

  /** A task is in the part of a handler that acts: it runs a command, evaluates code or
      touches a file or the store. */
  predicate Acting(t: Task) {
    Asking(t.pc)
  }

  lemma {:induction false} CommandsRun(cfg: Config, s: State, actions: seq<Action>, t: State)
    requires Leads(cfg, s, actions, t)
    requires forall i :: 0 <= i < |s.tasks| ==> s.tasks[i].cmd == CommandOf(s.tasks[i].msg.event)
    ensures forall i :: 0 <= i < |t.tasks| ==> t.tasks[i].cmd == CommandOf(t.tasks[i].msg.event)
    decreases |actions|
  {
    if actions != [] {
      var u := Next(cfg, s, actions[0]);
      if actions[0].Act? {
        SharedKeepsTasks(Stepped(cfg, s, actions[0].i, actions[0].ans), actions[0].i, s.tasks[actions[0].i].pc);
      }
      assert forall i :: 0 <= i < |s.tasks| ==> u.tasks[i].cmd == s.tasks[i].cmd && u.tasks[i].msg == s.tasks[i].msg;
      CommandsRun(cfg, u, actions[1..], t);
    }
  }

  /** In every reachable state a task that acts belongs to a controlled command whose verb
      is allowed. */
  lemma OnlyAllowedVerbsAct(cfg: Config, actions: seq<Action>, t: State, i: nat)
    requires Leads(cfg, INIT, actions, t) && i < |t.tasks| && Acting(t.tasks[i])
    ensures var event := t.tasks[i].msg.event;
            Controlled(CommandOf(event)) &&
            (cfg.allowed.Some? ==> VerbOf(CommandOf(event)) in cfg.allowed.value)
  {
    InitInv(cfg);
    InvRun(cfg, INIT, actions, t);
    assert Fits(cfg, t.tasks[i], Projection(t.log, i));
    CommandsRun(cfg, INIT, actions, t);
    VerbOfEvent(t.tasks[i].msg.event);
  }
}
