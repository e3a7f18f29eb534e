/** Unlocks, requests and locks of the extension, interleaved at every await. The session storage answers in any
    order, a task may fail at any wait, and the worker may be evicted with its storage left behind. */
module ExtensionRuns {
  import opened Outcomes
  import opened ExtensionVault

  /** Where a task waits. start is the generation when it was called (after the lock an unlock begins with). */
  datatype Task =
    | Clearing(unlock: Option<Generation>)                       // storage.clear asked for; an unlock waits for it
    | Cleared(start: Generation)                                 // an unlock whose clear has been done
    | Reading(start: Generation)                                 // a request's storage.get
    | Read(start: Generation, value: Option<Key>, readAt: Generation)
    | Waiting(start: Generation, gen: Generation, ticket: TaskId)
    | Downloading(start: Generation, gen: Generation, key: Key, unlocking: bool)
    | Downloaded(gen: Generation, key: Key)                      // a shared download, done
    | Committing(start: Generation, gen: Generation, key: Key, copy: TaskId, unlocking: bool)
    | Writing(start: Generation, gen: Generation, key: Key, copy: TaskId, unlocking: bool)
    | Written(start: Generation, gen: Generation, key: Key, copy: TaskId, unlocking: bool)
    | Uploading(copy: TaskId)                                    // a save that has added its entry to a copy

  /** stored is the key in session storage. handed are the copies requests have returned, failed those holding an
      entry whose save failed. */
  datatype Sys = Sys(mem: Mem, stored: Option<Key>, tasks: map<TaskId, Task>, next: TaskId,
                     handed: set<TaskId>, failed: set<TaskId>)

  datatype Op =
    | Lock                                       // also the lock of any failing check, revocation or missed deadline
    | BeginUnlock
    | Clear(id: TaskId)
    | CaptureUnlock(id: TaskId)
    | BeginRequest
    | ReadStored(id: TaskId)
    | CaptureRequest(id: TaskId, expired: bool)
    | EndDownload(id: TaskId, opens: bool)
    | Resume(id: TaskId)
    | Write(id: TaskId)
    | ApplyWrite(id: TaskId)
    | FinishCommit(id: TaskId)
    | Edit(copy: TaskId)
    | EndUpload(id: TaskId, stored: bool)
    | RefuseUpload(id: TaskId)                   // the server has a newer version
    | Fail(id: TaskId)
    | Evict

  predicate MayFail(t: Task) {
    t.Reading? || t.Read? || t.Cleared? || t.Waiting? || t.Downloading? || t.Downloaded? || t.Committing?
  }

  predicate Enabled(s: Sys, op: Op) {
    match op
    case Lock => true
    case BeginUnlock => true
    case Clear(id) => id in s.tasks && s.tasks[id].Clearing?
    case CaptureUnlock(id) => id in s.tasks && s.tasks[id].Cleared?
    case BeginRequest => true
    case ReadStored(id) => id in s.tasks && s.tasks[id].Reading?
    case CaptureRequest(id, _) => id in s.tasks && s.tasks[id].Read?
    case EndDownload(id, _) => id in s.tasks && s.tasks[id].Downloading?
    case Resume(id) =>
      && id in s.tasks && s.tasks[id].Waiting?
      && s.tasks[id].ticket in s.tasks && s.tasks[s.tasks[id].ticket].Downloaded?
    case Write(id) => id in s.tasks && s.tasks[id].Committing?
    case ApplyWrite(id) => id in s.tasks && s.tasks[id].Writing?
    case FinishCommit(id) => id in s.tasks && s.tasks[id].Written?
    case Edit(copy) => copy in s.handed && forall id :: id in s.tasks ==> !s.tasks[id].Uploading?
    case EndUpload(id, _) => id in s.tasks && s.tasks[id].Uploading?
    case RefuseUpload(id) => id in s.tasks && s.tasks[id].Uploading?
    case Fail(id) => id in s.tasks && MayFail(s.tasks[id])
    case Evict => true
  }

  function Put(s: Sys, id: TaskId, t: Task): Sys {
    s.(tasks := s.tasks[id := t])
  }

  function Spawn(s: Sys, t: Task): Sys {
    s.(tasks := s.tasks[s.next := t], next := s.next + 1)
  }

  function Gone(s: Sys, id: TaskId): Sys {
    s.(tasks := s.tasks - {id})
  }

  function LockAnd(s: Sys): Sys {
    s.(mem := Locked(s.mem))
  }

  predicate Stale(s: Sys) {
    s.stored.Some? && s.stored.value != s.mem.generation
  }

  function AfterClear(s: Sys, id: TaskId): Sys
    requires id in s.tasks && s.tasks[id].Clearing?
  {
    var empty := s.(stored := None);
    if s.tasks[id].unlock.Some? then Put(empty, id, Cleared(s.tasks[id].unlock.value)) else Gone(empty, id)
  }

  function Captured(s: Sys, op: Op): Sys
    requires op.CaptureRequest? && op.id in s.tasks && s.tasks[op.id].Read?
  {
    var t, gen := s.tasks[op.id], s.mem.generation;
    if t.value.None? || op.expired then Put(LockAnd(s), op.id, Clearing(None))
    else
      match SourceOf(s.mem)
      case InMemory(key, copy) => Put(s, op.id, Committing(t.start, gen, key, copy, false))
      case Shared(ticket) => Put(s, op.id, Waiting(t.start, gen, ticket))
      case StartDownload =>
        Put(Spawn(s.(mem := s.mem.(reopening := Some(s.next))), Downloading(t.start, gen, t.value.value, false)),
            op.id, Waiting(t.start, gen, s.next))
  }

  function Ended(s: Sys, op: Op): Sys
    requires op.EndDownload? && op.id in s.tasks && s.tasks[op.id].Downloading?
  {
    var t := s.tasks[op.id];
    var m := if op.opens then s.mem else Locked(s.mem);
    var left := s.(mem := if t.unlocking then m else m.(reopening := None));
    if !op.opens then Put(left, op.id, Clearing(None))
    else if t.gen != s.mem.generation then Gone(left, op.id)
    else Put(left, op.id, if t.unlocking then Committing(t.start, t.gen, t.key, op.id, true) else Downloaded(t.gen, t.key))
  }

  function Applied(s: Sys, id: TaskId): Sys
    requires id in s.tasks && s.tasks[id].Writing?
  {
    var t := s.tasks[id];
    var after := Put(s, id, Written(t.start, t.gen, t.key, t.copy, t.unlocking));
    if t.unlocking then after.(stored := Some(t.key)) else after
  }

  function Finished(s: Sys, id: TaskId): Sys
    requires id in s.tasks && s.tasks[id].Written?
  {
    var t := s.tasks[id];
    var after := s.(mem := Committed(s.mem, t.gen, t.key, t.copy));
    if t.gen != s.mem.generation then Put(after, id, Clearing(None))
    else Gone(after, id).(handed := if t.unlocking then s.handed else s.handed + {t.copy})
  }

  function Failed(s: Sys, id: TaskId): Sys
    requires id in s.tasks
  {
    var t := s.tasks[id];
    Gone(if t.Downloading? && !t.unlocking then s.(mem := s.mem.(reopening := None)) else s, id)
  }

  function Next(s: Sys, op: Op): Sys
    requires Enabled(s, op)
  {
    match op
    case Lock => Spawn(LockAnd(s), Clearing(None))
    case BeginUnlock => Spawn(LockAnd(s), Clearing(Some(s.mem.generation + 1)))
    case Clear(id) => AfterClear(s, id)
    case CaptureUnlock(id) => Put(s, id, Downloading(s.tasks[id].start, s.mem.generation, s.mem.generation, true))
    case BeginRequest => Spawn(s, Reading(s.mem.generation))
    case ReadStored(id) => Put(s, id, Read(s.tasks[id].start, s.stored, s.mem.generation))
    case CaptureRequest(_, _) => Captured(s, op)
    case EndDownload(_, _) => Ended(s, op)
    case Resume(id) =>
      var t := s.tasks[id];
      Put(s, id, Committing(t.start, t.gen, s.tasks[t.ticket].key, t.ticket, false))
    case Write(id) =>
      var t := s.tasks[id];
      Put(s, id, Writing(t.start, t.gen, t.key, t.copy, t.unlocking))
    case ApplyWrite(id) => Applied(s, id)
    case FinishCommit(id) => Finished(s, id)
    case Edit(copy) => Spawn(s, Uploading(copy))
    case EndUpload(id, stored) =>
      if stored then Gone(s, id)
      else Gone(s.(mem := Dropped(s.mem, s.tasks[id].copy), failed := s.failed + {s.tasks[id].copy}), id)
    case RefuseUpload(id) => Put(LockAnd(s.(failed := s.failed + {s.tasks[id].copy})), id, Clearing(None))
    case Fail(id) => Failed(s, id)
    case Evict => s.(mem := Mem(s.mem.generation, None, None), tasks := map[])
  }

  // ---------------------------------------------------------------- what every step keeps

  /** The generation a task captured, if it has got that far. */
  function GenOf(t: Task): Option<Generation> {
    match t
    case Waiting(_, gen, _) => Some(gen)
    case Downloading(_, gen, _, _) => Some(gen)
    case Downloaded(gen, _) => Some(gen)
    case Committing(_, gen, _, _, _) => Some(gen)
    case Writing(_, gen, _, _, _) => Some(gen)
    case Written(_, gen, _, _, _) => Some(gen)
    case _ => None
  }

  /** A download that was joined is still one of the generation that joined it, or has locked. */
  predicate TicketSound(s: Sys, ticket: TaskId, gen: Generation) {
    ticket < s.next && (ticket in s.tasks ==> SharedIn(s.tasks[ticket], gen) || s.tasks[ticket] == Clearing(None))
  }

  /** A key is no newer than the generation that uses it, and an unlock's is its own. */
  predicate TaskSound(s: Sys, t: Task) {
    match t
    case Clearing(unlock) => unlock.Some? ==> unlock.value <= s.mem.generation
    case Cleared(start) => start <= s.mem.generation
    case Reading(start) => start <= s.mem.generation
    case Read(start, value, readAt) => start <= readAt <= s.mem.generation && (value.Some? ==> value.value <= readAt)
    case Waiting(start, gen, ticket) =>
      start <= gen <= s.mem.generation && TicketSound(s, ticket, gen)
    case Downloading(start, gen, key, unlocking) => KeySound(s, start, gen, key, unlocking)
    case Downloaded(gen, key) => key <= gen <= s.mem.generation
    case Committing(start, gen, key, _, unlocking) => KeySound(s, start, gen, key, unlocking)
    case Writing(start, gen, key, _, unlocking) => KeySound(s, start, gen, key, unlocking)
    case Written(start, gen, key, _, unlocking) => KeySound(s, start, gen, key, unlocking)
    case Uploading(_) => true
  }

  predicate KeySound(s: Sys, start: Generation, gen: Generation, key: Key, unlocking: bool) {
    start <= gen <= s.mem.generation && key <= gen && (unlocking ==> key == gen)
  }

  predicate Joinable(t: Task, gen: Generation) {
    t.Downloading? && !t.unlocking && t.gen == gen
  }

  predicate SharedIn(t: Task, gen: Generation) {
    Joinable(t, gen) || (t.Downloaded? && t.gen == gen)
  }

  predicate OpenSound(s: Sys) {
    s.mem.open.Some? ==> s.mem.open.value.gen == s.mem.generation && s.mem.open.value.key <= s.mem.generation
  }

  predicate ReopeningSound(s: Sys) {
    s.mem.reopening.Some? ==> s.mem.reopening.value in s.tasks && Joinable(s.tasks[s.mem.reopening.value], s.mem.generation)
  }

  predicate StoredSound(s: Sys) {
    s.stored.Some? ==> s.stored.value <= s.mem.generation
  }

  predicate MemSound(s: Sys) {
    OpenSound(s) && ReopeningSound(s) && StoredSound(s)
  }

  predicate IdsBelow(s: Sys) {
    forall id :: id in s.tasks ==> id < s.next
  }

  predicate TasksSound(s: Sys) {
    forall id :: id in s.tasks ==> TaskSound(s, s.tasks[id])
  }

  /** A task that is bound to clear the storage. */
  predicate WillClear(s: Sys, id: TaskId) {
    id in s.tasks && (s.tasks[id].Clearing? || (s.tasks[id].Written? && s.tasks[id].unlocking && s.tasks[id].gen != s.mem.generation))
  }

  ghost predicate StaleIsDoomed(s: Sys) {
    Stale(s) ==> exists id :: WillClear(s, id)
  }

  /** An eviction that catches a stale key: whatever would have cleared it is gone. */
  predicate Cuts(s: Sys, op: Op) {
    op.Evict? && Stale(s)
  }

  /** The stored key is cleared or replaced. */
  predicate Rewrites(s: Sys, op: Op)
    requires Enabled(s, op)
  {
    op.Clear? || (op.ApplyWrite? && s.tasks[op.id].unlocking)
  }

  predicate Sound(s: Sys) {
    MemSound(s) && IdsBelow(s) && TasksSound(s)
  }

  lemma SoundStep(s: Sys, op: Op)
    requires Sound(s) && Enabled(s, op)
    ensures Sound(Next(s, op))
  {
    MemStep(s, op);
    IdsStep(s, op);
    forall id | id in Next(s, op).tasks ensures TaskSound(Next(s, op), Next(s, op).tasks[id]) {
      TaskStep(s, op, id);
    }
  }

  lemma IdsStep(s: Sys, op: Op)
    requires IdsBelow(s) && Enabled(s, op)
    ensures IdsBelow(Next(s, op))
  {
  }

  lemma OpenStep(s: Sys, op: Op)
    requires OpenSound(s) && TasksSound(s) && Enabled(s, op)
    ensures OpenSound(Next(s, op))
  {
    if op.FinishCommit? {
      assert TaskSound(s, s.tasks[op.id]);
    }
  }

  lemma ReopeningStep(s: Sys, op: Op)
    requires ReopeningSound(s) && IdsBelow(s) && Enabled(s, op)
    ensures ReopeningSound(Next(s, op))
  {
  }

  lemma StoredStep(s: Sys, op: Op)
    requires StoredSound(s) && TasksSound(s) && Enabled(s, op)
    ensures StoredSound(Next(s, op))
  {
    if op.ApplyWrite? {
      assert TaskSound(s, s.tasks[op.id]);
    }
  }

  lemma MemStep(s: Sys, op: Op)
    requires Sound(s) && Enabled(s, op)
    ensures MemSound(Next(s, op))
  {
    OpenStep(s, op);
    ReopeningStep(s, op);
    StoredStep(s, op);
  }

  lemma GenerationGrows(s: Sys, op: Op)
    requires Enabled(s, op)
    ensures s.mem.generation <= Next(s, op).mem.generation && s.next <= Next(s, op).next
  {
  }

  lemma TaskKept(s: Sys, op: Op, t: Task)
    requires Enabled(s, op) && TaskSound(s, t)
    ensures TaskSound(Next(s, op), t)
  {
  }

  lemma TaskMoved(s: Sys, op: Op, id: TaskId)
    requires Sound(s) && Enabled(s, op) && id in Next(s, op).tasks
    requires id !in s.tasks || s.tasks[id] != Next(s, op).tasks[id]
    ensures TaskSound(Next(s, op), Next(s, op).tasks[id])
  {
    if id in s.tasks {
      assert TaskSound(s, s.tasks[id]);
    }
    if op.Resume? {
      assert TaskSound(s, s.tasks[s.tasks[id].ticket]);
    }
    if op.CaptureRequest? {
      assert TaskSound(s, s.tasks[op.id]);
    }
  }

  lemma TaskStep(s: Sys, op: Op, id: TaskId)
    requires Sound(s) && Enabled(s, op) && id in Next(s, op).tasks
    ensures TaskSound(Next(s, op), Next(s, op).tasks[id])
  {
    if id in s.tasks && s.tasks[id] == Next(s, op).tasks[id] {
      TaskKept(s, op, s.tasks[id]);
    } else {
      TaskMoved(s, op, id);
    }
  }

  /** A step that locks, or clears a commit that came too late, leaves a task that will clear. */
  lemma LocksDoom(s: Sys, op: Op)
    requires Enabled(s, op) && Next(s, op).mem.generation != s.mem.generation
    ensures exists id :: WillClear(Next(s, op), id)
  {
    if op.Lock? || op.BeginUnlock? {
      assert WillClear(Next(s, op), s.next);
    } else {
      assert op.CaptureRequest? || op.EndDownload? || op.RefuseUpload?;
      assert WillClear(Next(s, op), op.id);
    }
  }

  lemma DoomStays(s: Sys, op: Op, w: TaskId)
    requires Sound(s) && Enabled(s, op) && WillClear(s, w) && !op.Evict?
    requires Next(s, op).stored == s.stored != None && Next(s, op).mem.generation == s.mem.generation
    ensures WillClear(Next(s, op), w)
  {
  }

  /** A step that neither cuts off a stale key nor rewrites it keeps: a stale key is bound to be cleared. */
  lemma DoomedStep(s: Sys, op: Op)
    requires Sound(s) && Enabled(s, op) && StaleIsDoomed(s) && !Cuts(s, op) && !Rewrites(s, op)
    ensures StaleIsDoomed(Next(s, op))
  {
    var after := Next(s, op);
    if Stale(after) {
      if after.mem.generation != s.mem.generation {
        LocksDoom(s, op);
      } else {
        assert after.stored == s.stored;
        var w :| WillClear(s, w);
        DoomStays(s, op, w);
      }
    }
  }

  /** A late write of a key is bound to be cleared, whatever the storage held before. */
  lemma RewriteDooms(s: Sys, op: Op)
    requires Sound(s) && Enabled(s, op) && Rewrites(s, op)
    ensures StaleIsDoomed(Next(s, op))
  {
    if op.ApplyWrite? {
      assert TaskSound(s, s.tasks[op.id]);
      assert Stale(Next(s, op)) ==> WillClear(Next(s, op), op.id);
    }
  }

  lemma StaleStays(s: Sys, op: Op)
    requires Sound(s) && Enabled(s, op) && Stale(s) && !Rewrites(s, op)
    ensures Stale(Next(s, op))
  {
    GenerationGrows(s, op);
    StorageKept(s, op);
  }

  lemma StorageKept(s: Sys, op: Op)
    requires Enabled(s, op) && !Rewrites(s, op)
    ensures Next(s, op).stored == s.stored
  {
  }
}
