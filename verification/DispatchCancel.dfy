/** The shared exec-cancel slot: whose cancel function it holds, and which exec an
    exec.cancel reaches. */
module DispatchCancel {
  import opened Bytes
  import opened Messages
  import opened Dispatch
  import opened DispatchTask
  import opened DispatchRun

  /** The exec has stored its cancel function and not yet cleared the slot. */
  predicate Registered(t: Task) { t.pc == Executing || t.pc.Clearing? }

  predicate LastStored(s: State, k: nat) {
    s.slotOps != [] && s.slotOps[|s.slotOps| - 1] == Store(k)
  }

  ghost predicate SlotInv(s: State) {
    && (forall k: nat :: s.slot == Some(k) <==> LastStored(s, k))
    && (s.slot.Some? ==> s.slot.value < |s.tasks| && Registered(s.tasks[s.slot.value]))
    && (forall i :: 0 <= i < |s.tasks| && s.tasks[i].byUser ==> i in s.cancelled || s.ctxDone)
  }

  lemma RegisteredStep(cfg: Config, t: Task, v: View, ans: Answer)
    requires t.pc != Gone
    ensures Registered(Step(cfg, t, v, ans)) <==> t.pc == Storing || t.pc == Executing
    ensures Step(cfg, t, v, ans).byUser ==> t.byUser || v.cancelled
  {
  }

  lemma SharedSlot(s: State, i: nat, pc: Pc)
    ensures var u := Shared(s, i, pc);
            && u.slot == (if pc == Storing then Some(i) else if pc.Clearing? then None else s.slot)
            && u.slotOps == (if pc == Storing then s.slotOps + [Store(i)]
                             else if pc.Clearing? then s.slotOps + [Clear(i)] else s.slotOps)
            && s.cancelled <= u.cancelled && (s.ctxDone ==> u.ctxDone)
  {
  }

  lemma SlotStep(cfg: Config, s: State, a: Action)
    requires SlotInv(s) && Enabled(s, a)
    ensures SlotInv(Next(cfg, s, a))
  {
    if a.Act? {
      RegisteredStep(cfg, s.tasks[a.i], ViewOf(s, a.i), a.ans);
      var m := Stepped(cfg, s, a.i, a.ans);
      SharedSlot(m, a.i, s.tasks[a.i].pc);
      SharedKeepsTasks(m, a.i, s.tasks[a.i].pc);
    }
  }

  lemma {:induction false} SlotRun(cfg: Config, s: State, actions: seq<Action>, t: State)
    requires SlotInv(s) && Leads(cfg, s, actions, t)
    ensures SlotInv(t)
    decreases |actions|
  {
    if actions != [] {
      SlotStep(cfg, s, actions[0]);
      SlotRun(cfg, Next(cfg, s, actions[0]), actions[1..], t);
    }
  }

  /** In every reachable state a non-empty slot belongs to an exec that has stored and not
      yet cleared it; it holds exec k's cancel function exactly when k's store is the last
      thing that happened to it; and it is empty once every exec has cleared. */
  lemma SlotBelongsToARegisteredExec(cfg: Config, actions: seq<Action>, t: State)
    requires Leads(cfg, INIT, actions, t)
    ensures t.slot.Some? ==> t.slot.value < |t.tasks| && Registered(t.tasks[t.slot.value])
    ensures forall k: nat :: t.slot == Some(k) <==> LastStored(t, k)
    ensures (forall i :: 0 <= i < |t.tasks| ==> !Registered(t.tasks[i])) ==> t.slot == None
  {
    SlotRun(cfg, INIT, actions, t);
  }

  /** The cancelled-by-user branch is taken only after an exec.cancel reached that exec's
      context or the run's own context was cancelled. */
  lemma CancelledByUserIsTruthful(cfg: Config, actions: seq<Action>, t: State, i: nat)
    requires Leads(cfg, INIT, actions, t) && i < |t.tasks| && t.tasks[i].byUser
    ensures i in t.cancelled || t.ctxDone
  {
    SlotRun(cfg, INIT, actions, t);
  }

  // ---------- execs that do not overlap ----------

  predicate NoOverlap(s: State) {
    forall i, j :: 0 <= i < j < |s.tasks| ==> !(Registered(s.tasks[i]) && Registered(s.tasks[j]))
  }

  /** A run in every state of which at most one exec is registered. */
  predicate LeadsApart(cfg: Config, s: State, actions: seq<Action>, t: State)
    decreases |actions|
  {
    && NoOverlap(s)
    && if actions == [] then s == t
       else Enabled(s, actions[0]) && LeadsApart(cfg, Next(cfg, s, actions[0]), actions[1..], t)
  }

  predicate InSlot(s: State) {
    forall k :: 0 <= k < |s.tasks| && Registered(s.tasks[k]) ==> s.slot == Some(k)
  }

  lemma InSlotStep(cfg: Config, s: State, a: Action)
    requires InSlot(s) && Enabled(s, a) && NoOverlap(s) && NoOverlap(Next(cfg, s, a))
    ensures InSlot(Next(cfg, s, a))
  {
    match a
    case Receive(msg) => assert !Registered(Spawned(msg));
    case Act(i, ans) =>
      RegisteredStep(cfg, s.tasks[i], ViewOf(s, i), ans);
      var m := Stepped(cfg, s, i, ans);
      SharedSlot(m, i, s.tasks[i].pc);
      SharedKeepsTasks(m, i, s.tasks[i].pc);
      InSlotAct(s, Next(cfg, s, a), i);
    case _ =>
  }

  lemma InSlotAct(s: State, t: State, i: nat)
    requires InSlot(s) && NoOverlap(s) && NoOverlap(t) && i < |s.tasks| && |t.tasks| == |s.tasks|
    requires forall j :: 0 <= j < |s.tasks| && j != i ==> t.tasks[j] == s.tasks[j]
    requires Registered(t.tasks[i]) <==> s.tasks[i].pc == Storing || s.tasks[i].pc == Executing
    requires t.slot == if s.tasks[i].pc == Storing then Some(i)
                       else if s.tasks[i].pc.Clearing? then None else s.slot
    ensures InSlot(t)
  {
    forall k | 0 <= k < |t.tasks| && Registered(t.tasks[k])
      ensures t.slot == Some(k)
    {
      if k != i {
        assert Registered(s.tasks[k]);
      }
    }
  }

  lemma {:induction false} InSlotRun(cfg: Config, s: State, actions: seq<Action>, t: State)
    requires InSlot(s) && LeadsApart(cfg, s, actions, t)
    ensures InSlot(t)
    decreases |actions|
  {
    if actions != [] {
      InSlotStep(cfg, s, actions[0]);
      InSlotRun(cfg, Next(cfg, s, actions[0]), actions[1..], t);
    }
  }

  /** A run in every state of which each registered exec is within reach of an exec.cancel. */
  predicate LeadsInSlot(cfg: Config, s: State, actions: seq<Action>, t: State)
    decreases |actions|
  {
    && InSlot(s)
    && if actions == [] then s == t
       else Enabled(s, actions[0]) && LeadsInSlot(cfg, Next(cfg, s, actions[0]), actions[1..], t)
  }

  lemma OneInSlot(s: State)
    requires InSlot(s)
    ensures NoOverlap(s)
  {
  }

  lemma {:induction false} ReachableExactlyFrom(cfg: Config, s: State, actions: seq<Action>, t: State)
    requires InSlot(s)
    ensures LeadsInSlot(cfg, s, actions, t) <==> LeadsApart(cfg, s, actions, t)
    decreases |actions|
  {
    OneInSlot(s);
    if actions != [] && Enabled(s, actions[0]) {
      var u := Next(cfg, s, actions[0]);
      if NoOverlap(u) {
        InSlotStep(cfg, s, actions[0]);
        ReachableExactlyFrom(cfg, u, actions[1..], t);
      } else if InSlot(u) {
        OneInSlot(u);
      }
    }
  }

  /** An exec.cancel could reach every registered exec at every moment of a run exactly
      when no two execs of the run were ever registered at once. */
  lemma CancellableExactlyWhenApart(cfg: Config, actions: seq<Action>, t: State)
    ensures LeadsInSlot(cfg, INIT, actions, t) <==> LeadsApart(cfg, INIT, actions, t)
  {
    ReachableExactlyFrom(cfg, INIT, actions, t);
  }

  /** If execs never overlap, an exec.cancel `c` that reads the slot while exec `k` is
      registered takes k's cancel function away with it. */
  lemma CancelReachesTheExec(cfg: Config, actions: seq<Action>, t: State, k: nat, c: nat, ans: Answer)
    requires LeadsApart(cfg, INIT, actions, t)
    requires k < |t.tasks| && Registered(t.tasks[k])
    requires c < |t.tasks| && t.tasks[c].pc == ReadingSlot
    ensures Next(cfg, t, Act(c, ans)).tasks[c].pc == Cancelling(Some(k))
  {
    InSlotRun(cfg, INIT, actions, t);
    var m := Stepped(cfg, t, c, ans);
    SharedKeepsTasks(m, c, ReadingSlot);
  }

  /** Nobody else moves a goroutine. */
  lemma {:induction false} OthersLeaveAlone(cfg: Config, s: State, actions: seq<Action>, t: State, c: nat)
    requires Leads(cfg, s, actions, t) && c < |s.tasks|
    requires forall a :: a in actions ==> !(a.Act? && a.i == c)
    ensures c < |t.tasks| && t.tasks[c] == s.tasks[c]
    decreases |actions|
  {
    if actions != [] {
      var a := actions[0];
      assert a in actions;
      if a.Act? { SharedKeepsTasks(Stepped(cfg, s, a.i, a.ans), a.i, s.tasks[a.i].pc); }
      OthersLeaveAlone(cfg, Next(cfg, s, a), actions[1..], t, c);
    }
  }

  /** However long the others go on in between, the cancel then cancels that exec's context
      and no other, so that a failing execution finds itself cancelled. */
  lemma CancelHitsItsTarget(cfg: Config, s: State, actions: seq<Action>, t: State, k: nat, c: nat, ans: Answer)
    requires c < |s.tasks| && s.tasks[c].pc == Cancelling(Some(k))
    requires Leads(cfg, s, actions, t) && forall a :: a in actions ==> !(a.Act? && a.i == c)
    ensures Enabled(t, Act(c, ans))
    ensures Next(cfg, t, Act(c, ans)).cancelled == t.cancelled + {k}
    ensures ViewOf(Next(cfg, t, Act(c, ans)), k).cancelled
  {
    OthersLeaveAlone(cfg, s, actions, t, c);
  }

  // ---------- execs that do overlap ----------

  lemma {:induction false} LeadsOn(cfg: Config, s: State, actions: seq<Action>, t: State, a: Action)
    requires Leads(cfg, s, actions, t) && Enabled(t, a)
    ensures Leads(cfg, s, actions + [a], Next(cfg, t, a))
    decreases |actions|
  {
    if actions == [] {
      assert [a][1..] == [] && actions + [a] == [a];
    } else {
      assert (actions + [a])[1..] == actions[1..] + [a];
      LeadsOn(cfg, Next(cfg, s, actions[0]), actions[1..], t, a);
    }
  }

  /** One step of task `i`, appended to a run. */
  lemma ActOn(cfg: Config, actions: seq<Action>, t: State, i: nat) returns (actions': seq<Action>, t': State)
    requires Leads(cfg, INIT, actions, t) && i < |t.tasks| && t.tasks[i].pc != Gone
    ensures Leads(cfg, INIT, actions', t')
    ensures t' == Shared(Stepped(cfg, t, i, Answer(true, 0)), i, t.tasks[i].pc)
  {
    var a := Act(i, Answer(true, 0));
    LeadsOn(cfg, INIT, actions, t, a);
    actions', t' := actions + [a], Next(cfg, t, a);
  }

  /** An exec that has been received goes on until it has stored its cancel function. */
  lemma ToStore(cfg: Config, actions: seq<Action>, t: State, i: nat) returns (actions': seq<Action>, t': State)
    requires Leads(cfg, INIT, actions, t) && i < |t.tasks| && t.tasks[i].pc == Acking
    requires t.tasks[i].cmd.Exec? && VerbAllowed(cfg, t.tasks[i].msg.event) && HasCommand(t.tasks[i].msg.data)
    ensures Leads(cfg, INIT, actions', t')
    ensures |t'.tasks| == |t.tasks| && t'.slot == Some(i) && t'.tasks[i].pc == Executing
    ensures forall j :: 0 <= j < |t.tasks| && j != i ==> t'.tasks[j] == t.tasks[j]
  {
    var as1, t1 := ActOn(cfg, actions, t, i);
    assert t1.tasks[i].pc == Routing;
    var as2, t2 := ActOn(cfg, as1, t1, i);
    assert t2.tasks[i].pc == Storing;
    actions', t' := ActOn(cfg, as2, t2, i);
  }

  lemma ReceiveOn(cfg: Config, actions: seq<Action>, t: State, msg: Message) returns (actions': seq<Action>, t': State)
    requires Leads(cfg, INIT, actions, t) && t.loop.Receiving?
    ensures Leads(cfg, INIT, actions', t')
    ensures t'.tasks == t.tasks + [Spawned(msg)] && t'.loop.Receiving?
  {
    LeadsOn(cfg, INIT, actions, t, Receive(msg));
    actions', t' := actions + [Receive(msg)], Next(cfg, t, Receive(msg));
  }

  /** Two execs, both executing; the second one's cancel function is in the slot. */
  lemma TwoExecs(cfg: Config, msg: Message) returns (actions: seq<Action>, t: State)
    requires CommandOf(msg.event) == Exec && VerbAllowed(cfg, msg.event) && HasCommand(msg.data)
    ensures Leads(cfg, INIT, actions, t)
    ensures |t.tasks| == 2 && t.tasks[0].pc == Executing && t.tasks[1].pc == Executing
  {
    var as1, t1 := ReceiveOn(cfg, [], INIT, msg);
    var as2, t2 := ReceiveOn(cfg, as1, t1, msg);
    assert t2.tasks == [Spawned(msg), Spawned(msg)];
    var as3, t3 := ToStore(cfg, as2, t2, 0);
    actions, t := ToStore(cfg, as3, t3, 1);
  }

  /** When execs overlap, one can still be running with nothing in the slot, so that an
      exec.cancel reaches nobody: the first of two execs finished after the second one had
      replaced its entry. */
  lemma OverlapLosesCancel(cfg: Config, msg: Message) returns (actions: seq<Action>, t: State)
    requires CommandOf(msg.event) == Exec && VerbAllowed(cfg, msg.event) && HasCommand(msg.data)
    ensures Leads(cfg, INIT, actions, t)
    ensures |t.tasks| == 2 && t.tasks[1].pc == Executing && t.slot == None
  {
    var as1, t1 := TwoExecs(cfg, msg);
    var as2, t2 := ActOn(cfg, as1, t1, 0);
    assert t2.tasks[0].pc.Clearing?;
    actions, t := ActOn(cfg, as2, t2, 0);
  }
}
