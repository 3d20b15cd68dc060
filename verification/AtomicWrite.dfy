/** Storing files: every put_file call pops its bytes and then writes them through a
    temporary file and a rename. Any number of calls interleave, each file-system step may
    fail, and the whole may stop after any step. Files are directory entries that point to
    inodes, so that a rename moves a file and an open file is written by its inode. */
module AtomicWrite {
  import opened Bytes

  datatype Path = Path(dir: string, name: string)

  const TEMP_PREFIX: string := ".cla-tmp-"

  predicate IsTemp(p: Path) { TEMP_PREFIX <= p.name }

  datatype Pc =
    | Popping
    | MakingDir
    | Creating
    | Copying(tmp: Path, ino: nat, n: nat)   // n bytes written
    | Closing(tmp: Path, ino: nat)
    | Renaming(tmp: Path, ino: nat)
    | Removing(tmp: Path, ino: nat)          // the deferred cleanup
    | Finished(ok: bool)                     // returned

  /** One call: the target, the bytes the server stored for it, and the buffer the pop has
      filled. */
  datatype Call = Call(path: Path, content: Bytes, buf: Bytes, pc: Pc)

  datatype State = State(
    dir: map<Path, nat>,
    data: map<nat, Bytes>,
    next: nat,                               // the next inode
    calls: seq<Call>,
    renamed: map<Path, nat>,                 // which call renamed onto a path last
    leaked: set<Path>)                       // temporary files whose removal failed

  /** `Broke(k)`: a pop that fails after k bytes. */
  datatype Answer = Ok | Fails | Broke(k: nat) | Wrote(k: nat) | Named(tmp: Path)

  datatype Action = Act(i: nat, ans: Answer)

  function Content(s: State, p: Path): Option<Bytes> {
    if p in s.dir && s.dir[p] in s.data then Some(s.data[s.dir[p]]) else None
  }

  predicate HasTemp(pc: Pc) { pc.Copying? || pc.Closing? || pc.Renaming? || pc.Removing? }

  /** Which answers the file system can give. */
  predicate Enabled(s: State, a: Action) {
    a.i < |s.calls| &&
    var c := s.calls[a.i];
    match c.pc
    case Popping => a.ans.Ok? || a.ans.Fails? || (a.ans.Broke? && a.ans.k <= |c.content|)
    case MakingDir => a.ans.Ok? || a.ans.Fails?
    case Creating =>
      a.ans.Fails? || (a.ans.Named? && IsTemp(a.ans.tmp) && a.ans.tmp.dir == c.path.dir && a.ans.tmp !in s.dir)
    case Copying(_, _, n) =>
      a.ans.Fails? || (a.ans.Wrote? && n + a.ans.k <= |c.buf|) || (a.ans.Ok? && n == |c.buf|)
    case Closing(_, _) => a.ans.Ok? || a.ans.Fails?
    case Renaming(tmp, _) => a.ans.Fails? || (a.ans.Ok? && tmp in s.dir)
    case Removing(_, _) => a.ans.Ok? || a.ans.Fails?
    case Finished(_) => false
  }

  function NextPc(c: Call, ans: Answer, next: nat): Pc
    requires !c.pc.Finished? && (ans.Wrote? ==> c.pc.Copying?)
  {
    match c.pc
    case Popping => if ans.Ok? then MakingDir else Finished(false)
    case MakingDir => if ans.Ok? then Creating else Finished(false)
    case Creating => if ans.Named? then Copying(ans.tmp, next, 0) else Finished(false)
    case Copying(tmp, ino, n) =>
      if ans.Ok? then Closing(tmp, ino)
      else if ans.Wrote? then Copying(tmp, ino, n + ans.k)
      else Removing(tmp, ino)
    case Closing(tmp, ino) => if ans.Ok? then Renaming(tmp, ino) else Removing(tmp, ino)
    case Renaming(tmp, ino) => if ans.Ok? then Finished(true) else Removing(tmp, ino)
    case Removing(_, _) => Finished(false)
  }

  function NextBuf(c: Call, ans: Answer): Bytes
    requires ans.Broke? ==> ans.k <= |c.content|
  {
    if !c.pc.Popping? then c.buf
    else if ans.Ok? then c.content
    else if ans.Broke? then c.content[..ans.k]
    else []
  }

  /** What the step does to the file system. */
  function Effect(s: State, i: nat, c: Call, ans: Answer): State
    requires ans.Wrote? && c.pc.Copying? ==> c.pc.n + ans.k <= |c.buf|
    requires ans.Ok? && c.pc.Renaming? ==> c.pc.tmp in s.dir
  {
    match c.pc
    case Creating =>
      if ans.Named? then s.(dir := s.dir[ans.tmp := s.next], data := s.data[s.next := []], next := s.next + 1) else s
    case Copying(_, ino, n) =>
      if ans.Wrote? then s.(data := s.data[ino := c.buf[..n + ans.k]]) else s
    case Renaming(tmp, _) =>
      if ans.Ok? then
        s.(dir := (s.dir - {tmp})[c.path := s.dir[tmp]], renamed := s.renamed[c.path := i])
      else s
    case Removing(tmp, _) =>
      if ans.Ok? then s.(dir := s.dir - {tmp}) else s.(leaked := s.leaked + {tmp})
    case _ => s
  }

  function Next(s: State, a: Action): State
    requires Enabled(s, a)
  {
    var c := s.calls[a.i];
    Effect(s, a.i, c, a.ans).(calls := s.calls[a.i := c.(pc := NextPc(c, a.ans, s.next), buf := NextBuf(c, a.ans))])
  }

  predicate Leads(s: State, actions: seq<Action>, t: State)
    decreases |actions|
  {
    if actions == [] then s == t
    else Enabled(s, actions[0]) && Leads(Next(s, actions[0]), actions[1..], t)
  }

  /** Calls about to start on a file system. */
  predicate Initial(s: State) {
    && (forall p :: p in s.dir ==> s.dir[p] in s.data && s.dir[p] < s.next)
    && (forall i :: 0 <= i < |s.calls| ==> s.calls[i].pc == Popping)
    && s.renamed == map[] && s.leaked == {}
  }

  /** A target that no call can pick as its temporary name: it has not that form, or it
      exists already. */
  predicate SafeTarget(s0: State, p: Path) { !IsTemp(p) || p in s0.dir }

  predicate SafeTargets(s0: State) {
    forall i :: 0 <= i < |s0.calls| ==> SafeTarget(s0, s0.calls[i].path)
  }

  // ---------- the invariant ----------

  predicate Committed(c: Call) { c.pc == Finished(true) }

  /** A call's temporary file is its own, and holds what it has written so far. */
  predicate TempInv(s0: State, s: State, c: Call) {
    HasTemp(c.pc) ==>
      && IsTemp(c.pc.tmp) && c.pc.tmp !in s0.dir && c.pc.tmp !in s.leaked
      && c.pc.tmp in s.dir && s.dir[c.pc.tmp] == c.pc.ino
      && s0.next <= c.pc.ino < s.next && c.pc.ino in s.data
      && (c.pc.Copying? ==> c.pc.n <= |c.buf| && s.data[c.pc.ino] == c.buf[..c.pc.n])
      && (c.pc.Closing? || c.pc.Renaming? ==> s.data[c.pc.ino] == c.buf)
  }

  predicate Uses(c: Call, ino: nat) { HasTemp(c.pc) && c.pc.ino == ino }

  /** No other path and no other call shares it. */
  predicate Unshared(s: State) {
    && (forall p, i :: p in s.dir && 0 <= i < |s.calls| && Uses(s.calls[i], s.dir[p]) ==> p == s.calls[i].pc.tmp)
    && (forall i, j :: 0 <= i < j < |s.calls| && HasTemp(s.calls[i].pc) && HasTemp(s.calls[j].pc) ==>
          s.calls[i].pc.tmp != s.calls[j].pc.tmp)
  }

  /** The pop has succeeded. */
  predicate Popped(pc: Pc) { pc.MakingDir? || pc.Creating? || HasTemp(pc) }

  predicate SameCalls(s0: State, s: State) {
    && |s.calls| == |s0.calls|
    && forall i :: 0 <= i < |s.calls| ==>
         s.calls[i].path == s0.calls[i].path && s.calls[i].content == s0.calls[i].content &&
         SafeTarget(s0, s.calls[i].path) &&
         (Popped(s.calls[i].pc) ==> s.calls[i].buf == s.calls[i].content)
  }

  /** A path holds what the last rename onto it brought, or what it held at the start. */
  predicate PathInv(s0: State, s: State, p: Path) {
    if p in s.renamed then
      && s.renamed[p] < |s.calls| && s.calls[s.renamed[p]].path == p && Committed(s.calls[s.renamed[p]])
      && Content(s, p) == Some(s.calls[s.renamed[p]].content)
    else if p in s0.dir then
      p in s.dir && s.dir[p] == s0.dir[p] && Content(s, p) == Content(s0, p)
    else IsTemp(p) || p !in s.dir
  }

  /** Every temporary name that was not there at the start is somebody's, or leaked. */
  predicate TempsOwned(s0: State, s: State) {
    forall p :: p in s.dir && IsTemp(p) && p !in s0.dir && p !in s.leaked ==>
      exists i :: 0 <= i < |s.calls| && HasTemp(s.calls[i].pc) && s.calls[i].pc.tmp == p
  }

  predicate Tables(s0: State, s: State) {
    && s0.next <= s.next
    && (forall p :: p in s.dir ==> s.dir[p] < s.next && s.dir[p] in s.data)
    && (forall p :: p in s0.dir ==> s0.dir[p] < s0.next && s0.dir[p] in s0.data)
    && (forall p :: p in s.leaked ==> p in s.dir)
  }

  ghost predicate Inv(s0: State, s: State) {
    && SameCalls(s0, s)
    && Tables(s0, s)
    && (forall i :: 0 <= i < |s.calls| ==> TempInv(s0, s, s.calls[i]))
    && Unshared(s)
    && (forall p :: PathInv(s0, s, p))
    && (forall i :: 0 <= i < |s.calls| && Committed(s.calls[i]) ==> s.calls[i].path in s.renamed)
    && TempsOwned(s0, s)
  }

  lemma InitialInv(s: State)
    requires Initial(s) && SafeTargets(s)
    ensures Inv(s, s)
  {
  }

  /** Only call `i` moved; everybody else stays where it was. */
  predicate OnlyCall(s: State, t: State, i: nat) {
    && i < |s.calls| && |t.calls| == |s.calls|
    && (forall j :: 0 <= j < |s.calls| && j != i ==> t.calls[j] == s.calls[j])
    && t.calls[i].path == s.calls[i].path && t.calls[i].content == s.calls[i].content
  }

  lemma StepIsOnlyCall(s: State, a: Action)
    requires Enabled(s, a)
    ensures OnlyCall(s, Next(s, a), a.i)
  {
  }

  // ---------- steps that leave the files alone ----------

  predicate Quiet(c: Call, ans: Answer) {
    || (c.pc.Creating? && !ans.Named?)
    || (c.pc.Copying? && !ans.Wrote?)
    || (c.pc.Renaming? && !ans.Ok?)
    || c.pc.Popping? || c.pc.MakingDir? || c.pc.Closing?
  }

  /** A quiet step keeps the temporary file, if there is one, and commits nothing. */
  lemma QuietShape(s: State, a: Action)
    requires Enabled(s, a) && Quiet(s.calls[a.i], a.ans)
    ensures var t, c := Next(s, a), s.calls[a.i];
            var c' := t.calls[a.i];
            && t == s.(calls := t.calls)
            && HasTemp(c'.pc) == HasTemp(c.pc)
            && (HasTemp(c.pc) ==> c'.pc.tmp == c.pc.tmp && c'.pc.ino == c.pc.ino)
            && (Committed(c') == Committed(c))
            && (c'.pc.Copying? ==> false)
            && (c'.pc.Closing? || c'.pc.Renaming? ==> c.pc.Closing? || (c.pc.Copying? && c.pc.n == |c.buf|))
            && (HasTemp(c.pc) ==> c'.buf == c.buf)
            && (Popped(c'.pc) ==> (c.pc.Popping? && c'.buf == c'.content) || (Popped(c.pc) && c'.buf == c.buf))
  {
  }

  lemma QuietStep(s0: State, s: State, a: Action)
    requires Inv(s0, s) && Enabled(s, a) && Quiet(s.calls[a.i], a.ans)
    ensures Inv(s0, Next(s, a))
  {
    var t := Next(s, a);
    StepIsOnlyCall(s, a);
    QuietShape(s, a);
    forall j | 0 <= j < |t.calls|
      ensures TempInv(s0, t, t.calls[j])
    {
      assert TempInv(s0, s, s.calls[j]);
    }
    forall p
      ensures PathInv(s0, t, p)
    {
      assert PathInv(s0, s, p);
    }
    OwnedStays(s0, s, t, a.i);
  }

  lemma OwnedStays(s0: State, s: State, t: State, i: nat)
    requires TempsOwned(s0, s) && OnlyCall(s, t, i)
    requires forall p :: p in t.dir && IsTemp(p) && p !in s0.dir && p !in t.leaked ==> p in s.dir && p !in s.leaked
    requires HasTemp(s.calls[i].pc) ==>
               || (HasTemp(t.calls[i].pc) && t.calls[i].pc.tmp == s.calls[i].pc.tmp)
               || s.calls[i].pc.tmp !in t.dir || s.calls[i].pc.tmp in t.leaked
    ensures TempsOwned(s0, t)
  {
    forall p | p in t.dir && IsTemp(p) && p !in s0.dir && p !in t.leaked
      ensures exists j :: 0 <= j < |t.calls| && HasTemp(t.calls[j].pc) && t.calls[j].pc.tmp == p
    {
      var j :| 0 <= j < |s.calls| && HasTemp(s.calls[j].pc) && s.calls[j].pc.tmp == p;
      assert HasTemp(t.calls[j].pc) && t.calls[j].pc.tmp == p;
    }
  }

  // ---------- creating the temporary file ----------

  lemma CreateTemps(s0: State, s: State, a: Action)
    requires Inv(s0, s) && Enabled(s, a) && s.calls[a.i].pc.Creating? && a.ans.Named?
    ensures var t := Next(s, a);
            (forall j :: 0 <= j < |t.calls| ==> TempInv(s0, t, t.calls[j])) && Unshared(t)
  {
    var t := Next(s, a);
    StepIsOnlyCall(s, a);
    assert PathInv(s0, s, a.ans.tmp);
    forall j | 0 <= j < |t.calls|
      ensures TempInv(s0, t, t.calls[j])
    {
      assert TempInv(s0, s, s.calls[j]);
    }
    forall p, j | p in t.dir && 0 <= j < |t.calls| && Uses(t.calls[j], t.dir[p])
      ensures p == t.calls[j].pc.tmp
    {
      if j != a.i { assert TempInv(s0, s, s.calls[j]); }
    }
    forall j | 0 <= j < |s.calls| && HasTemp(s.calls[j].pc)
      ensures s.calls[j].pc.tmp != a.ans.tmp
    {
      assert TempInv(s0, s, s.calls[j]);
    }
  }

  lemma CreatePaths(s0: State, s: State, a: Action, p: Path)
    requires Inv(s0, s) && Enabled(s, a) && s.calls[a.i].pc.Creating? && a.ans.Named?
    ensures PathInv(s0, Next(s, a), p)
  {
    StepIsOnlyCall(s, a);
    assert PathInv(s0, s, p);
  }

  lemma CreateOwned(s0: State, s: State, a: Action)
    requires Inv(s0, s) && Enabled(s, a) && s.calls[a.i].pc.Creating? && a.ans.Named?
    ensures TempsOwned(s0, Next(s, a))
  {
    var t := Next(s, a);
    forall p | p in t.dir && IsTemp(p) && p !in s0.dir && p !in t.leaked
      ensures exists j :: 0 <= j < |t.calls| && HasTemp(t.calls[j].pc) && t.calls[j].pc.tmp == p
    {
      if p == a.ans.tmp {
        assert HasTemp(t.calls[a.i].pc);
      } else {
        var j :| 0 <= j < |s.calls| && HasTemp(s.calls[j].pc) && s.calls[j].pc.tmp == p;
        assert t.calls[j] == s.calls[j];
      }
    }
  }

  lemma CreateStep(s0: State, s: State, a: Action)
    requires Inv(s0, s) && Enabled(s, a) && s.calls[a.i].pc.Creating? && a.ans.Named?
    ensures Inv(s0, Next(s, a))
  {
    StepIsOnlyCall(s, a);
    CreateTemps(s0, s, a);
    CreateOwned(s0, s, a);
    forall p
      ensures PathInv(s0, Next(s, a), p)
    {
      CreatePaths(s0, s, a, p);
    }
  }

  // ---------- writing through the open file ----------

  lemma WriteTemps(s0: State, s: State, a: Action, j: nat)
    requires Inv(s0, s) && Enabled(s, a) && s.calls[a.i].pc.Copying? && a.ans.Wrote? && j < |s.calls|
    ensures TempInv(s0, Next(s, a), Next(s, a).calls[j])
  {
    StepIsOnlyCall(s, a);
    assert TempInv(s0, s, s.calls[a.i]);
    assert TempInv(s0, s, s.calls[j]);
    if j != a.i && HasTemp(s.calls[j].pc) {
      assert s.calls[j].pc.tmp != s.calls[a.i].pc.tmp;
      assert !Uses(s.calls[a.i], s.dir[s.calls[j].pc.tmp]);
    }
  }

  lemma WritePaths(s0: State, s: State, a: Action, p: Path)
    requires Inv(s0, s) && Enabled(s, a) && s.calls[a.i].pc.Copying? && a.ans.Wrote?
    ensures PathInv(s0, Next(s, a), p)
  {
    StepIsOnlyCall(s, a);
    assert TempInv(s0, s, s.calls[a.i]);
    assert PathInv(s0, s, p);
    assert p in s.dir && Uses(s.calls[a.i], s.dir[p]) ==> p == s.calls[a.i].pc.tmp;
  }

  lemma WriteShape(s0: State, s: State, a: Action)
    requires Inv(s0, s) && Enabled(s, a) && s.calls[a.i].pc.Copying? && a.ans.Wrote?
    ensures var t := Next(s, a); SameCalls(s0, t) && Tables(s0, t) && Unshared(t) && TempsOwned(s0, t)
  {
    var t := Next(s, a);
    StepIsOnlyCall(s, a);
    assert TempInv(s0, s, s.calls[a.i]);
    OwnedStays(s0, s, t, a.i);
  }

  lemma WriteStep(s0: State, s: State, a: Action)
    requires Inv(s0, s) && Enabled(s, a) && s.calls[a.i].pc.Copying? && a.ans.Wrote?
    ensures Inv(s0, Next(s, a))
  {
    var t := Next(s, a);
    StepIsOnlyCall(s, a);
    WriteShape(s0, s, a);
    forall j | 0 <= j < |t.calls|
      ensures TempInv(s0, t, t.calls[j])
    {
      WriteTemps(s0, s, a, j);
    }
    forall p
      ensures PathInv(s0, t, p)
    {
      WritePaths(s0, s, a, p);
    }
  }

  // ---------- renaming ----------

  lemma RenameTemps(s0: State, s: State, a: Action)
    requires Inv(s0, s) && Enabled(s, a) && s.calls[a.i].pc.Renaming? && a.ans.Ok?
    ensures var t := Next(s, a);
            (forall j :: 0 <= j < |t.calls| ==> TempInv(s0, t, t.calls[j])) && Unshared(t)
  {
    var t := Next(s, a);
    StepIsOnlyCall(s, a);
    assert TempInv(s0, s, s.calls[a.i]);
    forall j | 0 <= j < |t.calls|
      ensures TempInv(s0, t, t.calls[j])
    {
      assert TempInv(s0, s, s.calls[j]);
    }
    forall p, j | p in t.dir && 0 <= j < |t.calls| && Uses(t.calls[j], t.dir[p])
      ensures p == t.calls[j].pc.tmp
    {
      assert j != a.i && TempInv(s0, s, s.calls[j]);
      assert !Uses(s.calls[j], s.dir[s.calls[a.i].pc.tmp]);
    }
  }

  lemma RenamePaths(s0: State, s: State, a: Action, p: Path)
    requires Inv(s0, s) && Enabled(s, a) && s.calls[a.i].pc.Renaming? && a.ans.Ok?
    ensures PathInv(s0, Next(s, a), p)
  {
    StepIsOnlyCall(s, a);
    assert TempInv(s0, s, s.calls[a.i]);
    assert PathInv(s0, s, p);
  }

  lemma RenameStep(s0: State, s: State, a: Action)
    requires Inv(s0, s) && Enabled(s, a) && s.calls[a.i].pc.Renaming? && a.ans.Ok?
    ensures Inv(s0, Next(s, a))
  {
    var t := Next(s, a);
    StepIsOnlyCall(s, a);
    RenameTemps(s0, s, a);
    assert TempInv(s0, s, s.calls[a.i]);
    forall p
      ensures PathInv(s0, t, p)
    {
      RenamePaths(s0, s, a, p);
    }
    OwnedStays(s0, s, t, a.i);
  }

  // ---------- the deferred cleanup ----------

  lemma RemovePaths(s0: State, s: State, a: Action, p: Path)
    requires Inv(s0, s) && Enabled(s, a) && s.calls[a.i].pc.Removing?
    ensures PathInv(s0, Next(s, a), p)
  {
    StepIsOnlyCall(s, a);
    assert TempInv(s0, s, s.calls[a.i]);
    assert PathInv(s0, s, p);
  }

  lemma RemoveTemps(s0: State, s: State, a: Action)
    requires Inv(s0, s) && Enabled(s, a) && s.calls[a.i].pc.Removing?
    ensures var t := Next(s, a);
            (forall j :: 0 <= j < |t.calls| ==> TempInv(s0, t, t.calls[j])) && Unshared(t)
  {
    var t := Next(s, a);
    StepIsOnlyCall(s, a);
    forall j | 0 <= j < |t.calls|
      ensures TempInv(s0, t, t.calls[j])
    {
      assert TempInv(s0, s, s.calls[j]);
    }
  }

  lemma RemoveStep(s0: State, s: State, a: Action)
    requires Inv(s0, s) && Enabled(s, a) && s.calls[a.i].pc.Removing?
    ensures Inv(s0, Next(s, a))
  {
    var t := Next(s, a);
    StepIsOnlyCall(s, a);
    RemoveTemps(s0, s, a);
    assert TempInv(s0, s, s.calls[a.i]);
    forall p
      ensures PathInv(s0, t, p)
    {
      RemovePaths(s0, s, a, p);
    }
    OwnedStays(s0, s, t, a.i);
  }

  lemma {:induction false} Run(s0: State, s: State, actions: seq<Action>, t: State)
    requires Inv(s0, s) && Leads(s, actions, t)
    ensures Inv(s0, t)
    decreases |actions|
  {
    if actions != [] {
      var a := actions[0];
      var pc := s.calls[a.i].pc;
      if Quiet(s.calls[a.i], a.ans) { QuietStep(s0, s, a); }
      else if pc.Creating? { CreateStep(s0, s, a); }
      else if pc.Copying? { WriteStep(s0, s, a); }
      else if pc.Renaming? { RenameStep(s0, s, a); }
      else { RemoveStep(s0, s, a); }
      Run(s0, Next(s, a), actions[1..], t);
    }
  }

  // ---------- main results ----------

  /** `p` holds what it held at the start, or the complete bytes of one call that had it
      as its target and has renamed. */
  predicate Intact(s0: State, t: State, p: Path) {
    || Content(t, p) == Content(s0, p)
    || exists w :: 0 <= w < |t.calls| && t.calls[w].path == p && Committed(t.calls[w]) &&
                   Content(t, p) == Some(t.calls[w].content)
  }

  /** Stopped after any step of any interleaving, every path that is no fresh temporary
      name is intact; one that nobody targets is unchanged. */
  lemma NeverMixed(s0: State, actions: seq<Action>, t: State, p: Path)
    requires Initial(s0) && SafeTargets(s0) && Leads(s0, actions, t)
    requires SafeTarget(s0, p)
    ensures SameCalls(s0, t) && Intact(s0, t, p)
    ensures (forall w :: 0 <= w < |s0.calls| ==> s0.calls[w].path != p) ==> Content(t, p) == Content(s0, p)
  {
    InitialInv(s0);
    Run(s0, s0, actions, t);
    assert PathInv(s0, t, p);
  }

  /** Every target stays intact in every run. */
  ghost predicate TargetsIntact(s0: State) {
    forall actions, t, i ::
      Leads(s0, actions, t) && 0 <= i < |s0.calls| ==> Intact(s0, t, s0.calls[i].path)
  }

  /** A target with a temporary name that does not exist yet can be picked by its own call
      as the temporary file, and is then seen half written. */
  lemma UnsafeTargetSeenHalfWritten(s0: State, i: nat) returns (actions: seq<Action>, t: State)
    requires Initial(s0) && i < |s0.calls| && !SafeTarget(s0, s0.calls[i].path)
    ensures Leads(s0, actions, t) && !Intact(s0, t, s0.calls[i].path)
  {
    var p := s0.calls[i].path;
    var a1, a2, a3 := Act(i, Ok), Act(i, Ok), Act(i, Named(p));
    var s1 := Next(s0, a1);
    var s2 := Next(s1, a2);
    t := Next(s2, a3);
    actions := [a1, a2, a3];
    assert actions[1..] == [a2, a3] && [a2, a3][1..] == [a3] && [a3][1..] == [];
    assert Leads(s2, [a3], t);
    assert Leads(s1, [a2, a3], t);
    assert Content(s0, p) == None && Content(t, p) == Some([]);
    assert forall j :: 0 <= j < |t.calls| ==> !Committed(t.calls[j]);
  }

  /** Targets stay intact under every interleaving exactly when none of them is a
      temporary name that does not exist yet. */
  lemma IntactExactlyWhenSafe(s0: State)
    requires Initial(s0)
    ensures TargetsIntact(s0) <==> SafeTargets(s0)
    ensures forall p :: SafeTarget(s0, p) <==> !(".cla-tmp-" <= p.name) || p in s0.dir
  {
    if SafeTargets(s0) {
      forall actions, t, i | Leads(s0, actions, t) && 0 <= i < |s0.calls|
        ensures Intact(s0, t, s0.calls[i].path)
      {
        NeverMixed(s0, actions, t, s0.calls[i].path);
      }
    } else {
      var i :| 0 <= i < |s0.calls| && !SafeTarget(s0, s0.calls[i].path);
      var actions, t := UnsafeTargetSeenHalfWritten(s0, i);
    }
  }

  /** Once every call has returned and no removal failed, no temporary file is left. */
  lemma NoTempLeft(s0: State, actions: seq<Action>, t: State, p: Path)
    requires Initial(s0) && SafeTargets(s0) && Leads(s0, actions, t)
    requires forall i :: 0 <= i < |t.calls| ==> t.calls[i].pc.Finished?
    requires !RemovalFailed(s0, actions) && ".cla-tmp-" <= p.name && p in t.dir
    ensures p in s0.dir
  {
    LeakedBySteps(s0, actions, t);
    InitialInv(s0);
    Run(s0, s0, actions, t);
  }

  /** The cleanup of some call could not remove its temporary file. */
  predicate RemovalFailed(s: State, actions: seq<Action>)
    decreases |actions|
  {
    actions != [] && Enabled(s, actions[0]) &&
    (FailsToRemove(s, actions[0]) || RemovalFailed(Next(s, actions[0]), actions[1..]))
  }

  predicate FailsToRemove(s: State, a: Action)
    requires Enabled(s, a)
  {
    s.calls[a.i].pc.Removing? && a.ans.Fails?
  }

  lemma {:induction false} LeakedBySteps(s: State, actions: seq<Action>, t: State)
    requires Leads(s, actions, t)
    ensures t.leaked == {} <==> s.leaked == {} && !RemovalFailed(s, actions)
    decreases |actions|
  {
    if actions != [] {
      LeakedStep(s, actions[0]);
      LeakedBySteps(Next(s, actions[0]), actions[1..], t);
    }
  }

  lemma LeakedStep(s: State, a: Action)
    requires Enabled(s, a)
    ensures Next(s, a).leaked == {} <==> s.leaked == {} && !FailsToRemove(s, a)
  {
    if FailsToRemove(s, a) { assert s.calls[a.i].pc.tmp in Next(s, a).leaked; }
  }

  /** Once a call has returned, its target holds exactly the bytes the server stored if it
      succeeded, and is unchanged if it failed, also when the pop broke off after some
      bytes; unless another call has renamed onto the same target. */
  lemma OutcomeIsTruthful(s0: State, actions: seq<Action>, t: State, i: nat)
    requires Initial(s0) && SafeTargets(s0) && Leads(s0, actions, t)
    requires i < |t.calls| && t.calls[i].pc.Finished?
    requires forall j :: 0 <= j < |t.calls| && j != i && t.calls[j].path == t.calls[i].path ==> !Committed(t.calls[j])
    ensures SameCalls(s0, t)
    ensures Content(t, t.calls[i].path) ==
            if Committed(t.calls[i]) then Some(s0.calls[i].content) else Content(s0, t.calls[i].path)
  {
    InitialInv(s0);
    Run(s0, s0, actions, t);
    assert PathInv(s0, t, t.calls[i].path);
  }

  // ---------- success and failure are what the answers make them ----------

  predicate IsFailure(ans: Answer) { ans.Fails? || ans.Broke? }

  /** Some request of call `i` has failed. */
  predicate FailedIn(actions: seq<Action>, i: nat) {
    actions != [] && ((actions[0].i == i && IsFailure(actions[0].ans)) || FailedIn(actions[1..], i))
  }

  /** On its way to report a failure, or there. */
  predicate Doomed(pc: Pc) { pc.Removing? || pc == Finished(false) }

  lemma DoomedStep(s: State, a: Action, i: nat)
    requires Enabled(s, a) && i < |s.calls|
    ensures i < |Next(s, a).calls|
    ensures Doomed(Next(s, a).calls[i].pc) <==> Doomed(s.calls[i].pc) || (a.i == i && IsFailure(a.ans))
  {
  }

  lemma {:induction false} DoomedBySteps(s: State, actions: seq<Action>, t: State, i: nat)
    requires Leads(s, actions, t) && i < |s.calls|
    ensures i < |t.calls| && (Doomed(t.calls[i].pc) <==> Doomed(s.calls[i].pc) || FailedIn(actions, i))
    decreases |actions|
  {
    if actions != [] {
      DoomedStep(s, actions[0], i);
      DoomedBySteps(Next(s, actions[0]), actions[1..], t, i);
    }
  }

  /** A call reports success exactly if none of its requests has failed: not the pop, not
      making the directory, not creating, copying, closing or renaming. */
  lemma SucceedsExactlyWithoutFailure(s0: State, actions: seq<Action>, t: State, i: nat)
    requires Initial(s0) && Leads(s0, actions, t) && i < |s0.calls|
    ensures i < |t.calls|
    ensures t.calls[i].pc.Finished? ==> (Committed(t.calls[i]) <==> !FailedIn(actions, i))
  {
    DoomedBySteps(s0, actions, t, i);
  }

  // ---------- a call can succeed ----------

  predicate OnlyBy(actions: seq<Action>, i: nat) { forall a :: a in actions ==> a.i == i }

  lemma Prepend(s: State, a: Action, rest: seq<Action>, t: State)
    requires Enabled(s, a) && Leads(Next(s, a), rest, t)
    ensures Leads(s, [a] + rest, t)
  {
    assert ([a] + rest)[1..] == rest;
  }

  /** From an open, empty temporary file: write all, close, rename. */
  lemma FromCopying(s: State, i: nat) returns (actions: seq<Action>, t: State)
    requires i < |s.calls| && s.calls[i].pc.Copying? && s.calls[i].pc.n == 0
    requires s.calls[i].pc.tmp in s.dir && s.dir[s.calls[i].pc.tmp] == s.calls[i].pc.ino
    ensures Leads(s, actions, t) && OnlyBy(actions, i) && i < |t.calls| && Committed(t.calls[i])
    ensures Content(t, s.calls[i].path) == Some(s.calls[i].buf)
  {
    var c := s.calls[i];
    var write, ok := Act(i, Wrote(|c.buf|)), Act(i, Ok);
    var s1 := Next(s, write);
    assert c.buf[..|c.buf|] == c.buf;
    var s2 := Next(s1, ok);
    var s3 := Next(s2, ok);
    t := Next(s3, ok);
    Prepend(s3, ok, [], t);
    Prepend(s2, ok, [ok] + [], t);
    Prepend(s1, ok, [ok] + ([ok] + []), t);
    Prepend(s, write, [ok] + ([ok] + ([ok] + [])), t);
    actions := [write] + ([ok] + ([ok] + ([ok] + [])));
  }

  /** From the request for a directory, with a free temporary name at hand. */
  lemma FromMakingDir(s: State, i: nat, tmp: Path) returns (actions: seq<Action>, t: State)
    requires i < |s.calls| && s.calls[i].pc.MakingDir?
    requires IsTemp(tmp) && tmp.dir == s.calls[i].path.dir && tmp !in s.dir
    ensures Leads(s, actions, t) && OnlyBy(actions, i) && i < |t.calls| && Committed(t.calls[i])
    ensures Content(t, s.calls[i].path) == Some(s.calls[i].buf)
  {
    var s1 := Next(s, Act(i, Ok));
    var s2 := Next(s1, Act(i, Named(tmp)));
    var rest;
    rest, t := FromCopying(s2, i);
    Prepend(s1, Act(i, Named(tmp)), rest, t);
    Prepend(s, Act(i, Ok), [Act(i, Named(tmp))] + rest, t);
    actions := [Act(i, Ok)] + ([Act(i, Named(tmp))] + rest);
  }

  /** A call can always succeed: from the pop there is a run of its own in which the target
      ends with the bytes the server stored. */
  lemma CanSucceed(s: State, i: nat, tmp: Path) returns (actions: seq<Action>, t: State)
    requires i < |s.calls| && s.calls[i].pc.Popping?
    requires IsTemp(tmp) && tmp.dir == s.calls[i].path.dir && tmp !in s.dir
    ensures Leads(s, actions, t) && OnlyBy(actions, i) && i < |t.calls| && Committed(t.calls[i])
    ensures Content(t, s.calls[i].path) == Some(s.calls[i].content)
  {
    var s1 := Next(s, Act(i, Ok));
    var rest;
    rest, t := FromMakingDir(s1, i, tmp);
    Prepend(s, Act(i, Ok), rest, t);
    actions := [Act(i, Ok)] + rest;
  }
}
