/** A failed save of the extension: its entry is left in the downloaded copy, which is dropped so that no later
    save carries it. When the copy can nevertheless come back. */
module ExtensionSaves {
  import opened Outcomes
  import opened ExtensionVault
  import opened ExtensionRuns
  import opened ExtensionSafety

  /** The copy a task works on. */
  function CopyOf(t: Task): Option<TaskId> {
    match t
    case Committing(_, _, _, copy, _) => Some(copy)
    case Writing(_, _, _, copy, _) => Some(copy)
    case Written(_, _, _, copy, _) => Some(copy)
    case Uploading(copy) => Some(copy)
    case _ => None
  }

  /** The download that named this copy is over. */
  predicate CopyPast(s: Sys, copy: TaskId) {
    copy < s.next && (copy in s.tasks ==>
      var t := s.tasks[copy];
      t.Downloaded? || t.Committing? || t.Writing? || t.Written? || t == Clearing(None))
  }

  predicate CopiesPast(s: Sys) {
    && (s.mem.open.Some? ==> CopyPast(s, s.mem.open.value.copy))
    && (forall id :: id in s.tasks && CopyOf(s.tasks[id]).Some? ==> CopyPast(s, CopyOf(s.tasks[id]).value))
    && (forall copy :: copy in s.handed + s.failed ==> CopyPast(s, copy))
  }

  lemma CopyPastStep(s: Sys, op: Op, copy: TaskId)
    requires Enabled(s, op) && CopyPast(s, copy)
    ensures CopyPast(Next(s, op), copy)
  {
  }

  lemma CopiesStep(s: Sys, op: Op)
    requires Enabled(s, op) && IdsBelow(s) && CopiesPast(s)
    ensures CopiesPast(Next(s, op))
  {
    var after := Next(s, op);
    forall copy | CopyPast(s, copy) ensures CopyPast(after, copy) {
      CopyPastStep(s, op, copy);
    }
    forall id | id in after.tasks && CopyOf(after.tasks[id]).Some? ensures CopyPast(after, CopyOf(after.tasks[id]).value) {
      NewCopyPast(s, op, id);
    }
  }

  lemma NewCopyPast(s: Sys, op: Op, id: TaskId)
    requires Enabled(s, op) && IdsBelow(s) && CopiesPast(s)
    requires id in Next(s, op).tasks && CopyOf(Next(s, op).tasks[id]).Some?
    ensures CopyPast(Next(s, op), CopyOf(Next(s, op).tasks[id]).value)
  {
    var copy := CopyOf(Next(s, op).tasks[id]).value;
    if op.EndDownload? && id == op.id {
    } else {
      assert CopyPast(s, copy);
      CopyPastStep(s, op, copy);
    }
  }

  lemma {:induction false} AlwaysCopiesPast(states: seq<Sys>, ops: seq<Op>, n: nat)
    requires Run(states, ops) && n < |states|
    ensures CopiesPast(states[n])
    decreases n
  {
    if n > 0 {
      var m := n - 1;
      AlwaysCopiesPast(states, ops, m);
      AlwaysSound(states, ops, m);
      assert Stepped(states, ops, m);
      CopiesStep(states[m], ops[m]);
    }
  }

  /** A request of the current generation that has this copy, or has only to take it from its download. */
  predicate Holds(s: Sys, id: TaskId, copy: TaskId) {
    id in s.tasks && GenOf(s.tasks[id]) == Some(s.mem.generation) &&
    var t := s.tasks[id];
    if t.Waiting? then t.ticket == copy && copy in s.tasks && s.tasks[copy].Downloaded?
    else CopyOf(t) == Some(copy)
  }

  ghost predicate Unheld(s: Sys, copy: TaskId) {
    !OpenIs(s.mem, copy) && forall id :: !Holds(s, id, copy)
  }

  lemma UnheldSame(s: Sys, op: Op, copy: TaskId, id: TaskId)
    requires Sound(s) && Enabled(s, op) && CopyPast(s, copy) && !Holds(s, id, copy)
    requires id in s.tasks && id in Next(s, op).tasks && Next(s, op).tasks[id] == s.tasks[id]
    ensures !Holds(Next(s, op), id, copy)
  {
    assert TaskSound(s, s.tasks[id]);
    GenerationGrows(s, op);
    if s.tasks[id].Waiting? && s.tasks[id].ticket == copy {
      StaysDownloaded(s, op, copy);
    }
  }

  lemma StaysDownloaded(s: Sys, op: Op, copy: TaskId)
    requires Enabled(s, op) && CopyPast(s, copy)
    ensures copy in Next(s, op).tasks && Next(s, op).tasks[copy].Downloaded? ==> copy in s.tasks && s.tasks[copy].Downloaded?
  {
  }

  lemma UnheldMoved(s: Sys, op: Op, copy: TaskId, id: TaskId)
    requires Sound(s) && Enabled(s, op) && CopyPast(s, copy) && !OpenIs(s.mem, copy) && !Holds(s, id, copy)
    requires id !in s.tasks || id !in Next(s, op).tasks || Next(s, op).tasks[id] != s.tasks[id]
    ensures !Holds(Next(s, op), id, copy)
  {
    if id in s.tasks {
      assert TaskSound(s, s.tasks[id]);
    }
    if op.CaptureRequest? {
      assert TaskSound(s, s.tasks[op.id]);
    }
  }

  lemma UnheldTask(s: Sys, op: Op, copy: TaskId, id: TaskId)
    requires Sound(s) && Enabled(s, op) && CopyPast(s, copy) && Unheld(s, copy)
    ensures !Holds(Next(s, op), id, copy)
  {
    assert !Holds(s, id, copy);
    if id in s.tasks && id in Next(s, op).tasks && Next(s, op).tasks[id] == s.tasks[id] {
      UnheldSame(s, op, copy, id);
    } else {
      UnheldMoved(s, op, copy, id);
    }
  }

  lemma UnheldStep(s: Sys, op: Op, copy: TaskId)
    requires Sound(s) && Enabled(s, op) && CopyPast(s, copy) && Unheld(s, copy)
    ensures Unheld(Next(s, op), copy)
  {
    forall id ensures !Holds(Next(s, op), id, copy) {
      UnheldTask(s, op, copy, id);
    }
    if op.FinishCommit? {
      assert !Holds(s, op.id, copy);
    }
  }

  lemma {:induction false} UnheldStaysOut(s: Sys, ops: seq<Op>, copy: TaskId)
    requires Sound(s) && CopyPast(s, copy) && Unheld(s, copy) && Played(s, ops).Some?
    ensures !OpenIs(Played(s, ops).value.mem, copy)
    decreases |ops|
  {
    if ops != [] {
      SoundStep(s, ops[0]);
      CopyPastStep(s, ops[0], copy);
      UnheldStep(s, ops[0], copy);
      UnheldStaysOut(Next(s, ops[0]), ops[1..], copy);
    }
  }

  /** The copy can be the open vault again. */
  ghost predicate Returns(s: Sys, copy: TaskId) {
    exists ops :: Played(s, ops).Some? && OpenIs(Played(s, ops).value.mem, copy)
  }

  lemma ReturnsFirst(s: Sys, op: Op, copy: TaskId)
    requires Enabled(s, op) && Returns(Next(s, op), copy)
    ensures Returns(s, copy)
  {
    var rest :| Played(Next(s, op), rest).Some? && OpenIs(Played(Next(s, op), rest).value.mem, copy);
    PlayedOne(s, op, rest);
    assert Played(s, [op] + rest).Some?;
  }

  lemma ReturnsNow(s: Sys, copy: TaskId)
    requires OpenIs(s.mem, copy)
    ensures Returns(s, copy)
  {
    assert Played(s, []) == Some(s);
  }

  lemma HeldReturns(s: Sys, id: TaskId, copy: TaskId)
    requires Holds(s, id, copy)
    ensures Returns(s, copy)
    decreases if s.tasks[id].Waiting? then 3 else if s.tasks[id].Committing? then 2 else if s.tasks[id].Writing? then 1 else 0
  {
    var t := s.tasks[id];
    var op := if t.Waiting? then Resume(id)
              else if t.Committing? then Write(id)
              else if t.Writing? then ApplyWrite(id)
              else FinishCommit(id);
    if t.Written? {
      ReturnsNow(Next(s, op), copy);
    } else {
      HeldReturns(Next(s, op), id, copy);
    }
    ReturnsFirst(s, op, copy);
  }

  /** After a failed save, its copy can come back exactly when a request of the current generation had already
      taken it: such a request commits it again, and the next save uploads the entry with it. */
  lemma FailedCopyReturnsIff(states: seq<Sys>, ops: seq<Op>, n: nat, copy: TaskId)
    requires Run(states, ops) && n < |states| && copy in states[n].failed && !OpenIs(states[n].mem, copy)
    ensures Returns(states[n], copy) <==> exists id :: Holds(states[n], id, copy)
  {
    var s := states[n];
    AlwaysSound(states, ops, n);
    AlwaysCopiesPast(states, ops, n);
    assert CopyPast(s, copy);
    if id :| Holds(s, id, copy) {
      HeldReturns(s, id, copy);
    } else {
      forall continued | Played(s, continued).Some? ensures !OpenIs(Played(s, continued).value.mem, copy) {
        UnheldStaysOut(s, continued, copy);
      }
    }
  }

  /** A failed save closes its copy; it comes back exactly when a request already held it as the save failed. */
  lemma FailureReturnsIff(states: seq<Sys>, ops: seq<Op>, n: nat)
    requires Run(states, ops) && n < |ops| && Stepped(states, ops, n) && ops[n].EndUpload? && !ops[n].stored
    ensures var copy := states[n].tasks[ops[n].id].copy;
      && !OpenIs(states[n + 1].mem, copy)
      && (Returns(states[n + 1], copy) <==> exists id :: Holds(states[n], id, copy))
  {
    var s, after, copy := states[n], states[n + 1], states[n].tasks[ops[n].id].copy;
    forall id ensures Holds(after, id, copy) <==> Holds(s, id, copy) {
      FailureHolds(s, ops[n].id, copy, id);
    }
    FailedCopyReturnsIff(states, ops, n + 1, copy);
  }

  lemma FailureHolds(s: Sys, upload: TaskId, copy: TaskId, id: TaskId)
    requires Enabled(s, EndUpload(upload, false))
    ensures Holds(Next(s, EndUpload(upload, false)), id, copy) <==> Holds(s, id, copy)
  {
  }

  /** A save the server refuses as outdated locks, and its copy never comes back. */
  lemma RefusedCopyNeverReturns(states: seq<Sys>, ops: seq<Op>, n: nat)
    requires Run(states, ops) && n < |ops| && ops[n].RefuseUpload? && Stepped(states, ops, n)
    ensures !Returns(states[n + 1], states[n].tasks[ops[n].id].copy)
  {
    var s, after, copy := states[n], states[n + 1], states[n].tasks[ops[n].id].copy;
    AlwaysSound(states, ops, n);
    forall id ensures !Holds(after, id, copy) {
      if id in s.tasks {
        assert TaskSound(s, s.tasks[id]);
      }
    }
    FailedCopyReturnsIff(states, ops, n + 1, copy);
  }

  function Editable(k: Key, gen: Generation, copy: TaskId, next: TaskId): Sys {
    Sys(Mem(gen, Some(Open(k, gen, copy)), None), Some(k), map[], next, {copy}, {})
  }

  function Taken(k: Key, gen: Generation, copy: TaskId, next: TaskId): Sys {
    Editable(k, gen, copy, next).(tasks := map[next := Committing(gen, gen, k, copy, false)], next := next + 1)
  }

  /** A request that takes the open copy before a save of it fails brings the unsaved entry back. */
  lemma FailedSaveComesBack(k: Key, gen: Generation, copy: TaskId, next: TaskId)
    requires copy < next
    ensures Leads(Editable(k, gen, copy, next), BeginRequest, ReadStored(next), CaptureRequest(next, false), Taken(k, gen, copy, next))
    ensures var s := Taken(k, gen, copy, next);
      Enabled(s, Edit(copy)) && Enabled(Next(s, Edit(copy)), EndUpload(next + 1, false))
    ensures var failed := Next(Next(Taken(k, gen, copy, next), Edit(copy)), EndUpload(next + 1, false));
      copy in failed.failed && failed.mem.open.None? && Returns(failed, copy)
  {
    var failed := Next(Next(Taken(k, gen, copy, next), Edit(copy)), EndUpload(next + 1, false));
    HeldReturns(failed, next, copy);
  }

  function Requested(own: Task): Sys {
    OPENED.(tasks := map[1 := own], next := 2)
  }

  /** An unlock and a request lead to a state in which a copy can be edited. */
  lemma EditableReached() returns (states: seq<Sys>, ops: seq<Op>)
    ensures Run(states, ops) && states[|ops|] == Editable(1, 1, 0, 2)
  {
    var commit := [Write(1), ApplyWrite(1), FinishCommit(1)] + [];
    var request := [BeginRequest, ReadStored(1), CaptureRequest(1, false)] + commit;
    ops := UnlockThen(request);
    Unlocks(request);
    PlayedThree(OPENED, BeginRequest, ReadStored(1), CaptureRequest(1, false), commit, Requested(Committing(1, 1, 1, 0, false)));
    PlayedThree(Requested(Committing(1, 1, 1, 0, false)), Write(1), ApplyWrite(1), FinishCommit(1), [], Editable(1, 1, 0, 2));
    states := Reached(ops);
  }
}
