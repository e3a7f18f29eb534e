/** What the extension does when nothing gets in the way: from any state an unlock opens the vault and stores its key,
    a request reopens it or hands out the open one, and a wrong key, a missed deadline or a lock closes it. */
module ExtensionLaws {
  import opened Outcomes
  import opened ExtensionVault
  import opened ExtensionRuns
  import opened ExtensionSafety

  /** A lock starts a generation and leaves nothing in memory; only work of the current generation opens the vault;
      only the failed copy is dropped. */
  lemma MemoryFields(m: Mem, gen: Generation, key: Key, copy: TaskId)
    ensures Locked(m).generation == m.generation + 1 && Locked(m).open == None && Locked(m).reopening == None
    ensures Committed(m, gen, key, copy)
         == Mem(m.generation, if gen == m.generation then Some(Open(key, gen, copy)) else m.open, m.reopening)
    ensures Dropped(m, copy)
         == Mem(m.generation, if m.open.Some? && m.open.value.copy == copy then None else m.open, m.reopening)
    ensures m.open.Some? ==> SourceOf(m) == InMemory(m.open.value.key, m.open.value.copy)
    ensures m.open.None? && m.reopening.Some? ==> SourceOf(m) == Shared(m.reopening.value)
    ensures m.open.None? && m.reopening.None? ==> SourceOf(m) == StartDownload
  {
  }

  lemma PlaysThreeThree(s: Sys, a: Op, b: Op, c: Op, one: Sys, d: Op, e: Op, f: Op, end: Sys)
    requires Leads(s, a, b, c, one) && Leads(one, d, e, f, end)
    ensures Played(s, [a, b, c] + ([d, e, f] + [])) == Some(end)
  {
    PlayedThree(s, a, b, c, [d, e, f] + [], one);
    PlayedThree(one, d, e, f, [], end);
  }

  /** An unlock whose key has been asked for, and one whose download is over, beside everything else. */
  function Fetching(s: Sys): Sys {
    var id, g := s.next, s.mem.generation + 1;
    s.(mem := Mem(g, None, None), stored := None, tasks := s.tasks[id := Downloading(g, g, g, true)], next := id + 1)
  }

  function Landing(s: Sys): Sys {
    var id, g := s.next, s.mem.generation + 1;
    s.(mem := Mem(g, None, None), stored := None, tasks := s.tasks[id := Committing(g, g, g, id, true)], next := id + 1)
  }

  /** What it ends with: open and stored under the key of the new generation, everything else as it was. */
  function Unlocked(s: Sys): Sys {
    var id, g := s.next, s.mem.generation + 1;
    s.(mem := Mem(g, Some(Open(g, g, id)), None), stored := Some(g), next := id + 1)
  }

  lemma UnlockStarts(s: Sys)
    requires IdsBelow(s)
    ensures Leads(s, BeginUnlock, Clear(s.next), CaptureUnlock(s.next), Fetching(s))
  {
    var id, g := s.next, s.mem.generation + 1;
    assert s.tasks[id := Clearing(Some(g))][id := Cleared(g)][id := Downloading(g, g, g, true)]
        == s.tasks[id := Downloading(g, g, g, true)];
  }

  lemma UnlockFetches(s: Sys)
    ensures Enabled(Fetching(s), EndDownload(s.next, true)) && Next(Fetching(s), EndDownload(s.next, true)) == Landing(s)
  {
    assert Fetching(s).tasks[s.next := Landing(s).tasks[s.next]] == Landing(s).tasks;
  }

  lemma UnlockLands(s: Sys)
    requires IdsBelow(s)
    ensures Leads(Landing(s), Write(s.next), ApplyWrite(s.next), FinishCommit(s.next), Unlocked(s))
  {
    var id, g := s.next, s.mem.generation + 1;
    assert Landing(s).tasks[id := Writing(g, g, g, id, true)][id := Written(g, g, g, id, true)] - {id} == s.tasks;
  }

  /** An unlock that nothing disturbs opens the vault with the key of its own generation and stores it, whatever was
      open, stored or waiting before. */
  lemma UnlockOpens(s: Sys)
    requires IdsBelow(s)
    ensures var id := s.next;
      LeadsTo(s, [BeginUnlock, Clear(id), CaptureUnlock(id), EndDownload(id, true)] + [Write(id), ApplyWrite(id), FinishCommit(id)],
              Unlocked(s))
  {
    var id := s.next;
    StartLeads(s);
    LandLeads(s);
    LeadsOn(s, [BeginUnlock, Clear(id), CaptureUnlock(id), EndDownload(id, true)], Landing(s),
            [Write(id), ApplyWrite(id), FinishCommit(id)], Unlocked(s));
  }

  lemma StartLeads(s: Sys)
    requires IdsBelow(s)
    ensures LeadsTo(s, [BeginUnlock, Clear(s.next), CaptureUnlock(s.next), EndDownload(s.next, true)], Landing(s))
  {
    var id := s.next;
    var ops := [BeginUnlock, Clear(id), CaptureUnlock(id), EndDownload(id, true)];
    forall rest ensures Played(s, ops + rest) == Played(Landing(s), rest) {
      assert ops + rest == [BeginUnlock, Clear(id), CaptureUnlock(id)] + ([EndDownload(id, true)] + rest);
      StartsAndFetches(s, rest);
    }
  }

  lemma LandLeads(s: Sys)
    requires IdsBelow(s)
    ensures LeadsTo(Landing(s), [Write(s.next), ApplyWrite(s.next), FinishCommit(s.next)], Unlocked(s))
  {
    forall rest ensures Played(Landing(s), [Write(s.next), ApplyWrite(s.next), FinishCommit(s.next)] + rest) == Played(Unlocked(s), rest) {
      PlaysLand(s, rest);
    }
  }

  lemma StartsAndFetches(s: Sys, rest: seq<Op>)
    requires IdsBelow(s)
    ensures Played(s, [BeginUnlock, Clear(s.next), CaptureUnlock(s.next)] + ([EndDownload(s.next, true)] + rest))
         == Played(Landing(s), rest)
  {
    PlaysStart(s, [EndDownload(s.next, true)] + rest);
    PlaysFetch(s, rest);
  }

  lemma PlaysStart(s: Sys, rest: seq<Op>)
    requires IdsBelow(s)
    ensures Played(s, [BeginUnlock, Clear(s.next), CaptureUnlock(s.next)] + rest) == Played(Fetching(s), rest)
  {
    UnlockStarts(s);
    PlayedThree(s, BeginUnlock, Clear(s.next), CaptureUnlock(s.next), rest, Fetching(s));
  }

  lemma PlaysFetch(s: Sys, rest: seq<Op>)
    ensures Played(Fetching(s), [EndDownload(s.next, true)] + rest) == Played(Landing(s), rest)
  {
    UnlockFetches(s);
    PlayedOne(Fetching(s), EndDownload(s.next, true), rest);
  }

  lemma PlaysLand(s: Sys, rest: seq<Op>)
    requires IdsBelow(s)
    ensures Played(Landing(s), [Write(s.next), ApplyWrite(s.next), FinishCommit(s.next)] + rest) == Played(Unlocked(s), rest)
  {
    UnlockLands(s);
    PlayedThree(Landing(s), Write(s.next), ApplyWrite(s.next), FinishCommit(s.next), rest, Unlocked(s));
  }

  /** A key that does not open the vault locks the extension, and the storage is cleared. */
  lemma WrongKeyLocks(s: Sys, id: TaskId)
    requires id in s.tasks && s.tasks[id].Downloading?
    ensures Enabled(s, EndDownload(id, false))
    ensures var after := Next(s, EndDownload(id, false));
      && after.mem == Mem(s.mem.generation + 1, None, None) && after.tasks[id] == Clearing(None)
      && Enabled(after, Clear(id)) && Next(after, Clear(id)).stored == None
      && id !in Next(after, Clear(id)).tasks
  {
  }

  /** A lock, and likewise a request that finds no key or a deadline missed, closes the vault and has the storage
      cleared. */
  lemma LockCloses(s: Sys)
    ensures var after := Next(s, Lock);
      && after.mem == Mem(s.mem.generation + 1, None, None) && after.stored == s.stored
      && Enabled(after, Clear(s.next)) && Next(after, Clear(s.next)).stored == None
      && Next(after, Clear(s.next)).mem == after.mem
  {
  }

  lemma RequestLocksOut(s: Sys, id: TaskId, expired: bool)
    requires id in s.tasks && s.tasks[id].Read? && (s.tasks[id].value.None? || expired)
    ensures var after := Next(s, CaptureRequest(id, expired));
      && after.mem == Mem(s.mem.generation + 1, None, None) && after.tasks[id] == Clearing(None)
      && Next(after, Clear(id)).stored == None
  {
  }

  /** A request that finds the vault open in time hands out the open copy and keeps it open. */
  lemma RequestTakesOpen(s: Sys)
    requires IdsBelow(s) && s.mem.open.Some? && s.mem.open.value.gen == s.mem.generation && s.stored.Some?
    ensures var id, o := s.next, s.mem.open.value;
      Played(s, [BeginRequest, ReadStored(id), CaptureRequest(id, false)] + ([Write(id), ApplyWrite(id), FinishCommit(id)] + []))
      == Some(s.(next := id + 1, handed := s.handed + {o.copy}))
  {
    var id, o := s.next, s.mem.open.value;
    TakesOpen(s);
    HandsOutOpen(s);
    PlaysThreeThree(s, BeginRequest, ReadStored(id), CaptureRequest(id, false), Taking(s), Write(id), ApplyWrite(id), FinishCommit(id),
                    s.(next := id + 1, handed := s.handed + {o.copy}));
  }

  function Taking(s: Sys): Sys
    requires s.mem.open.Some?
  {
    var o, g := s.mem.open.value, s.mem.generation;
    s.(tasks := s.tasks[s.next := Committing(g, g, o.key, o.copy, false)], next := s.next + 1)
  }

  lemma TakesOpen(s: Sys)
    requires IdsBelow(s) && s.mem.open.Some? && s.stored.Some?
    ensures Leads(s, BeginRequest, ReadStored(s.next), CaptureRequest(s.next, false), Taking(s))
  {
    var id, o, g := s.next, s.mem.open.value, s.mem.generation;
    assert s.tasks[id := Reading(g)][id := Read(g, s.stored, g)][id := Committing(g, g, o.key, o.copy, false)] == Taking(s).tasks;
  }

  lemma HandsOutOpen(s: Sys)
    requires IdsBelow(s) && s.mem.open.Some? && s.mem.open.value.gen == s.mem.generation
    ensures Leads(Taking(s), Write(s.next), ApplyWrite(s.next), FinishCommit(s.next),
                  s.(next := s.next + 1, handed := s.handed + {s.mem.open.value.copy}))
  {
    var id, o, g := s.next, s.mem.open.value, s.mem.generation;
    assert Taking(s).tasks[id := Writing(g, g, o.key, o.copy, false)][id := Written(g, g, o.key, o.copy, false)] - {id} == s.tasks;
  }

  /** A closed vault being fetched again: asked for, there, taken. */
  function Asked(s: Sys): Sys
    requires s.stored.Some?
  {
    var id, k, g := s.next, s.stored.value, s.mem.generation;
    s.(mem := Mem(g, None, Some(id + 1)), next := id + 2,
       tasks := s.tasks[id + 1 := Downloading(g, g, k, false)][id := Waiting(g, g, id + 1)])
  }

  function There(s: Sys, own: Task): Sys
    requires s.stored.Some?
  {
    var id, k, g := s.next, s.stored.value, s.mem.generation;
    s.(mem := Mem(g, None, None), next := id + 2, tasks := s.tasks[id + 1 := Downloaded(g, k)][id := own])
  }

  /** What it ends with: open under the stored key for the current generation, the storage as it was. */
  function Reopened(s: Sys): Sys
    requires s.stored.Some?
  {
    var id, k, g := s.next, s.stored.value, s.mem.generation;
    s.(mem := Mem(g, Some(Open(k, g, id + 1)), None), tasks := s.tasks[id + 1 := Downloaded(g, k)], next := id + 2,
       handed := s.handed + {id + 1})
  }

  lemma AsksForVault(s: Sys)
    requires IdsBelow(s) && s.mem.open.None? && s.mem.reopening.None? && s.stored.Some?
    ensures Leads(s, BeginRequest, ReadStored(s.next), CaptureRequest(s.next, false), Asked(s))
  {
    var id, k, g := s.next, s.stored.value, s.mem.generation;
    assert s.tasks[id := Reading(g)][id := Read(g, s.stored, g)][id + 1 := Downloading(g, g, k, false)][id := Waiting(g, g, id + 1)]
        == Asked(s).tasks;
  }

  lemma FetchesVault(s: Sys)
    requires s.stored.Some?
    ensures var id, g := s.next, s.mem.generation;
      Enabled(Asked(s), EndDownload(id + 1, true))
      && Next(Asked(s), EndDownload(id + 1, true)) == There(s, Waiting(g, g, id + 1))
  {
    var id, k, g := s.next, s.stored.value, s.mem.generation;
    assert Asked(s).tasks[id + 1 := Downloaded(g, k)] == There(s, Waiting(g, g, id + 1)).tasks;
  }

  lemma TakesFetched(s: Sys)
    requires s.stored.Some?
    ensures var id, k, g := s.next, s.stored.value, s.mem.generation;
      Leads(There(s, Waiting(g, g, id + 1)), Resume(id), Write(id), ApplyWrite(id), There(s, Written(g, g, k, id + 1, false)))
  {
    var id, k, g := s.next, s.stored.value, s.mem.generation;
    assert There(s, Waiting(g, g, id + 1)).tasks[id := Committing(g, g, k, id + 1, false)][id := Writing(g, g, k, id + 1, false)]
             [id := Written(g, g, k, id + 1, false)] == There(s, Written(g, g, k, id + 1, false)).tasks;
  }

  lemma OpensFetched(s: Sys)
    requires IdsBelow(s) && s.stored.Some?
    ensures var id, k, g := s.next, s.stored.value, s.mem.generation;
      var written := There(s, Written(g, g, k, id + 1, false));
      Enabled(written, FinishCommit(id)) && Next(written, FinishCommit(id)) == Reopened(s)
  {
    var id, k, g := s.next, s.stored.value, s.mem.generation;
    assert There(s, Written(g, g, k, id + 1, false)).tasks - {id} == Reopened(s).tasks;
  }

  /** What the steps of a request do, whatever follows them. */
  ghost predicate LeadsTo(s: Sys, ops: seq<Op>, after: Sys) {
    forall rest :: Played(s, ops + rest) == Played(after, rest)
  }

  lemma LeadsOn(s: Sys, ops: seq<Op>, middle: Sys, more: seq<Op>, after: Sys)
    requires LeadsTo(s, ops, middle) && LeadsTo(middle, more, after)
    ensures LeadsTo(s, ops + more, after)
  {
    forall rest ensures Played(s, ops + more + rest) == Played(after, rest) {
      assert ops + more + rest == ops + (more + rest);
    }
  }

  /** A request that finds the vault closed downloads it with the stored key, opens it for the current generation,
      and leaves the storage alone. */
  lemma RequestReopensVault(s: Sys)
    requires IdsBelow(s) && s.mem.open.None? && s.mem.reopening.None? && s.stored.Some?
    ensures var id := s.next;
      LeadsTo(s, [BeginRequest, ReadStored(id), CaptureRequest(id, false), EndDownload(id + 1, true)]
                 + [Resume(id), Write(id), ApplyWrite(id), FinishCommit(id)], Reopened(s))
  {
    var id, g := s.next, s.mem.generation;
    AskLeads(s);
    TakeLeads(s);
    LeadsOn(s, [BeginRequest, ReadStored(id), CaptureRequest(id, false), EndDownload(id + 1, true)], There(s, Waiting(g, g, id + 1)),
            [Resume(id), Write(id), ApplyWrite(id), FinishCommit(id)], Reopened(s));
  }

  lemma AskLeads(s: Sys)
    requires IdsBelow(s) && s.mem.open.None? && s.mem.reopening.None? && s.stored.Some?
    ensures var id, g := s.next, s.mem.generation;
      LeadsTo(s, [BeginRequest, ReadStored(id), CaptureRequest(id, false), EndDownload(id + 1, true)], There(s, Waiting(g, g, id + 1)))
  {
    var id, g := s.next, s.mem.generation;
    var ops := [BeginRequest, ReadStored(id), CaptureRequest(id, false), EndDownload(id + 1, true)];
    forall rest ensures Played(s, ops + rest) == Played(There(s, Waiting(g, g, id + 1)), rest) {
      assert ops + rest == [BeginRequest, ReadStored(id), CaptureRequest(id, false)] + ([EndDownload(id + 1, true)] + rest);
      AsksAndFetches(s, rest);
    }
  }

  lemma TakeLeads(s: Sys)
    requires IdsBelow(s) && s.stored.Some?
    ensures var id, g := s.next, s.mem.generation;
      LeadsTo(There(s, Waiting(g, g, id + 1)), [Resume(id), Write(id), ApplyWrite(id), FinishCommit(id)], Reopened(s))
  {
    var id, g := s.next, s.mem.generation;
    var ops := [Resume(id), Write(id), ApplyWrite(id), FinishCommit(id)];
    forall rest ensures Played(There(s, Waiting(g, g, id + 1)), ops + rest) == Played(Reopened(s), rest) {
      assert ops + rest == [Resume(id), Write(id), ApplyWrite(id)] + ([FinishCommit(id)] + rest);
      TakesAndOpens(s, rest);
    }
  }

  lemma AsksAndFetches(s: Sys, rest: seq<Op>)
    requires IdsBelow(s) && s.mem.open.None? && s.mem.reopening.None? && s.stored.Some?
    ensures var id, g := s.next, s.mem.generation;
      Played(s, [BeginRequest, ReadStored(id), CaptureRequest(id, false)] + ([EndDownload(id + 1, true)] + rest))
      == Played(There(s, Waiting(g, g, id + 1)), rest)
  {
    PlaysAsk(s, [EndDownload(s.next + 1, true)] + rest);
    PlaysFetched(s, rest);
  }

  lemma TakesAndOpens(s: Sys, rest: seq<Op>)
    requires IdsBelow(s) && s.stored.Some?
    ensures var id, g := s.next, s.mem.generation;
      Played(There(s, Waiting(g, g, id + 1)), [Resume(id), Write(id), ApplyWrite(id)] + ([FinishCommit(id)] + rest))
      == Played(Reopened(s), rest)
  {
    PlaysTake(s, [FinishCommit(s.next)] + rest);
    PlaysOpen(s, rest);
  }

  lemma PlaysAsk(s: Sys, rest: seq<Op>)
    requires IdsBelow(s) && s.mem.open.None? && s.mem.reopening.None? && s.stored.Some?
    ensures Played(s, [BeginRequest, ReadStored(s.next), CaptureRequest(s.next, false)] + rest) == Played(Asked(s), rest)
  {
    AsksForVault(s);
    PlayedThree(s, BeginRequest, ReadStored(s.next), CaptureRequest(s.next, false), rest, Asked(s));
  }

  lemma PlaysFetched(s: Sys, rest: seq<Op>)
    requires s.stored.Some?
    ensures var g := s.mem.generation;
      Played(Asked(s), [EndDownload(s.next + 1, true)] + rest) == Played(There(s, Waiting(g, g, s.next + 1)), rest)
  {
    FetchesVault(s);
    PlayedOne(Asked(s), EndDownload(s.next + 1, true), rest);
  }

  lemma PlaysTake(s: Sys, rest: seq<Op>)
    requires s.stored.Some?
    ensures var id, k, g := s.next, s.stored.value, s.mem.generation;
      Played(There(s, Waiting(g, g, id + 1)), [Resume(id), Write(id), ApplyWrite(id)] + rest)
      == Played(There(s, Written(g, g, k, id + 1, false)), rest)
  {
    var id, k, g := s.next, s.stored.value, s.mem.generation;
    TakesFetched(s);
    PlayedThree(There(s, Waiting(g, g, id + 1)), Resume(id), Write(id), ApplyWrite(id), rest, There(s, Written(g, g, k, id + 1, false)));
  }

  lemma PlaysOpen(s: Sys, rest: seq<Op>)
    requires IdsBelow(s) && s.stored.Some?
    ensures var id, k, g := s.next, s.stored.value, s.mem.generation;
      Played(There(s, Written(g, g, k, id + 1, false)), [FinishCommit(id)] + rest) == Played(Reopened(s), rest)
  {
    var id, k, g := s.next, s.stored.value, s.mem.generation;
    OpensFetched(s);
    PlayedOne(There(s, Written(g, g, k, id + 1, false)), FinishCommit(id), rest);
  }

  /** A request that finds a download under way joins it. */
  lemma RequestJoins(s: Sys, id: TaskId)
    requires id in s.tasks && s.tasks[id].Read? && s.tasks[id].value.Some? && s.mem.open.None? && s.mem.reopening.Some?
    ensures Next(s, CaptureRequest(id, false))
         == s.(tasks := s.tasks[id := Waiting(s.tasks[id].start, s.mem.generation, s.mem.reopening.value)])
  {
  }

  /** A download that ends in a later generation is thrown away; a shared one can no longer be joined. */
  lemma LateDownloadDropped(s: Sys, id: TaskId)
    requires id in s.tasks && s.tasks[id].Downloading? && s.tasks[id].gen != s.mem.generation
    ensures var after := Next(s, EndDownload(id, true));
      && id !in after.tasks && after.mem.open == s.mem.open && after.mem.generation == s.mem.generation
      && after.mem.reopening == (if s.tasks[id].unlocking then s.mem.reopening else None)
  {
  }

  /** Work that ends its write in a later generation does not open the vault, and has the storage cleared. */
  lemma LateCommitClears(s: Sys, id: TaskId)
    requires id in s.tasks && s.tasks[id].Written? && s.tasks[id].gen != s.mem.generation
    ensures var after := Next(s, FinishCommit(id));
      after.mem == s.mem && after.tasks[id] == Clearing(None) && after.handed == s.handed
  {
  }

  /** A save that is stored leaves everything open; one that fails closes its copy and no other; one refused as
      outdated locks. */
  lemma UploadEnds(s: Sys, id: TaskId)
    requires id in s.tasks && s.tasks[id].Uploading?
    ensures Next(s, EndUpload(id, true)) == s.(tasks := s.tasks - {id})
    ensures var failed, copy := Next(s, EndUpload(id, false)), s.tasks[id].copy;
      && failed.failed == s.failed + {copy} && failed.stored == s.stored && failed.tasks == s.tasks - {id}
      && failed.mem.open == (if s.mem.open.Some? && s.mem.open.value.copy == copy then None else s.mem.open)
      && failed.mem.generation == s.mem.generation && failed.mem.reopening == s.mem.reopening
    ensures var refused := Next(s, RefuseUpload(id));
      && refused.mem == Mem(s.mem.generation + 1, None, None) && refused.tasks[id] == Clearing(None)
      && refused.failed == s.failed + {s.tasks[id].copy}
  {
  }

  /** A shared download that fails lets the next request start another; an eviction empties the memory and leaves
      the storage. */
  lemma FailuresFree(s: Sys, id: TaskId)
    requires id in s.tasks && MayFail(s.tasks[id])
    ensures Next(s, Fail(id)).tasks == s.tasks - {id} && Next(s, Fail(id)).stored == s.stored
    ensures !s.tasks[id].Downloading? || s.tasks[id].unlocking ==> Next(s, Fail(id)).mem == s.mem
    ensures s.tasks[id].Downloading? && !s.tasks[id].unlocking ==> Next(s, Fail(id)).mem.reopening == None
    ensures Next(s, Evict).mem == Mem(s.mem.generation, None, None) && Next(s, Evict).stored == s.stored && Next(s, Evict).tasks == map[]
  {
  }

  /** A task may fail wherever it waits for something that can: a read, a clear's end, a download, a turn to write. A
      clear and a write are asked for once and end. */
  lemma MayFailIff(t: Task)
    ensures MayFail(t) <==> !t.Clearing? && !t.Writing? && !t.Written? && !t.Uploading?
  {
  }
}
