/** What a lock of the extension guarantees over whole runs, and exactly where it does not reach. */
module ExtensionSafety {
  import opened Outcomes
  import opened ExtensionVault
  import opened ExtensionRuns

  const START := Sys(Mem(0, None, None), None, map[], 0, {}, {})

  predicate Stepped(states: seq<Sys>, ops: seq<Op>, i: nat)
    requires i < |ops| && |states| == |ops| + 1
  {
    Enabled(states[i], ops[i]) && states[i + 1] == Next(states[i], ops[i])
  }

  predicate Run(states: seq<Sys>, ops: seq<Op>) {
    |states| == |ops| + 1 && states[0] == START && forall i :: 0 <= i < |ops| ==> Stepped(states, ops, i)
  }

  lemma {:induction false} AlwaysSound(states: seq<Sys>, ops: seq<Op>, n: nat)
    requires Run(states, ops) && n < |states|
    ensures Sound(states[n])
    decreases n
  {
    if n > 0 {
      var m := n - 1;
      AlwaysSound(states, ops, m);
      assert Stepped(states, ops, m);
      SoundStep(states[m], ops[m]);
    }
  }

  /** An open vault was committed by work that had captured the current generation. */
  lemma OpenIsCurrent(states: seq<Sys>, ops: seq<Op>, n: nat)
    requires Run(states, ops) && n < |states|
    ensures states[n].mem.open.Some? ==> states[n].mem.open.value.gen == states[n].mem.generation
  {
    AlwaysSound(states, ops, n);
  }

  /** Nothing left to run: a finished download that nobody takes does nothing more. */
  predicate Quiet(s: Sys) {
    forall id :: id in s.tasks ==> s.tasks[id].Downloaded?
  }

  predicate NotRewritten(states: seq<Sys>, ops: seq<Op>, e: nat, n: nat)
    requires n <= |ops| < |states|
  {
    forall k :: e < k < n ==> Enabled(states[k], ops[k]) && !Rewrites(states[k], ops[k])
  }

  /** An eviction caught a stale key, and the storage has not been cleared or written to since. */
  ghost predicate CutOff(states: seq<Sys>, ops: seq<Op>, n: nat)
    requires n <= |ops| < |states|
  {
    exists e :: 0 <= e < n && Cuts(states[e], ops[e]) && NotRewritten(states, ops, e, n)
  }

  lemma CutOffStep(states: seq<Sys>, ops: seq<Op>, n: nat)
    requires n < |ops| < |states| && Enabled(states[n], ops[n])
    ensures CutOff(states, ops, n + 1)
       <==> Cuts(states[n], ops[n]) || (CutOff(states, ops, n) && !Rewrites(states[n], ops[n]))
  {
    if Cuts(states[n], ops[n]) {
      assert NotRewritten(states, ops, n, n + 1);
    }
    if CutOff(states, ops, n) && !Rewrites(states[n], ops[n]) {
      var e :| 0 <= e < n && Cuts(states[e], ops[e]) && NotRewritten(states, ops, e, n);
      assert NotRewritten(states, ops, e, n + 1);
    }
    if CutOff(states, ops, n + 1) {
      var e :| 0 <= e < n + 1 && Cuts(states[e], ops[e]) && NotRewritten(states, ops, e, n + 1);
      assert e < n ==> NotRewritten(states, ops, e, n);
    }
  }

  lemma {:induction false} CutOrDoomed(states: seq<Sys>, ops: seq<Op>, n: nat)
    requires Run(states, ops) && n < |states|
    ensures if CutOff(states, ops, n) then Stale(states[n]) else StaleIsDoomed(states[n])
    decreases n
  {
    if n > 0 {
      var m := n - 1;
      var s, op := states[m], ops[m];
      CutOrDoomed(states, ops, m);
      assert Stepped(states, ops, m);
      AlwaysSound(states, ops, m);
      CutOffStep(states, ops, m);
      if Rewrites(s, op) {
        RewriteDooms(s, op);
      } else if CutOff(states, ops, n) {
        StaleStays(s, op);
      } else {
        DoomedStep(s, op);
      }
    }
  }

  /** With nothing left to run, the key in session storage is stale exactly when an eviction caught a stale key and
      the storage has been neither cleared nor given a new key since. */
  lemma QuietKeyCurrentIff(states: seq<Sys>, ops: seq<Op>, n: nat)
    requires Run(states, ops) && n < |states| && Quiet(states[n])
    ensures Stale(states[n]) <==> CutOff(states, ops, n)
  {
    CutOrDoomed(states, ops, n);
  }

  predicate NoEviction(ops: seq<Op>, n: nat) {
    forall i :: 0 <= i < n && i < |ops| ==> !ops[i].Evict?
  }

  lemma QuietKeyCurrent(states: seq<Sys>, ops: seq<Op>, n: nat)
    requires Run(states, ops) && n < |states| && Quiet(states[n]) && NoEviction(ops, n)
    ensures states[n].stored.Some? ==> states[n].stored.value == states[n].mem.generation
  {
    QuietKeyCurrentIff(states, ops, n);
  }

  // ---------------------------------------------------------------- a lock against one task

  /** The generation a task was called in. */
  function StartOf(t: Task): Option<Generation> {
    match t
    case Clearing(unlock) => unlock
    case Cleared(start) => Some(start)
    case Reading(start) => Some(start)
    case Read(start, _, _) => Some(start)
    case Waiting(start, _, _) => Some(start)
    case Downloading(start, _, _, _) => Some(start)
    case Downloaded(_, _) => None
    case Committing(start, _, _, _, _) => Some(start)
    case Writing(start, _, _, _, _) => Some(start)
    case Written(start, _, _, _, _) => Some(start)
    case Uploading(_) => None
  }

  predicate Locks(states: seq<Sys>, i: nat)
    requires i + 1 < |states|
  {
    states[i].mem.generation != states[i + 1].mem.generation
  }

  ghost predicate LockedBetween(states: seq<Sys>, i: nat, j: nat)
    requires j < |states|
  {
    exists m :: i <= m < j && Locks(states, m)
  }

  lemma {:induction false} SameGenerationIff(states: seq<Sys>, ops: seq<Op>, i: nat, j: nat)
    requires Run(states, ops) && i <= j < |states|
    ensures states[i].mem.generation <= states[j].mem.generation
    ensures states[i].mem.generation == states[j].mem.generation <==> !LockedBetween(states, i, j)
    decreases j
  {
    if i < j {
      var m := j - 1;
      SameGenerationIff(states, ops, i, m);
      assert Stepped(states, ops, m);
      GenerationGrows(states[m], ops[m]);
      if Locks(states, m) {
        assert LockedBetween(states, i, j);
      } else if LockedBetween(states, i, m) {
        var k :| i <= k < m && Locks(states, k);
        assert LockedBetween(states, i, j);
      }
    }
  }

  predicate StartKept(s: Sys, id: TaskId, start: Generation) {
    id < s.next && (id in s.tasks ==> StartOf(s.tasks[id]) in {Some(start), None})
  }

  lemma StartStep(s: Sys, op: Op, id: TaskId, start: Generation)
    requires Enabled(s, op) && StartKept(s, id, start)
    ensures StartKept(Next(s, op), id, start)
  {
  }

  lemma {:induction false} StartStays(states: seq<Sys>, ops: seq<Op>, i: nat, j: nat, id: TaskId, start: Generation)
    requires Run(states, ops) && i <= j < |states| && StartKept(states[i], id, start)
    ensures StartKept(states[j], id, start)
    decreases j
  {
    if i < j {
      var m := j - 1;
      StartStays(states, ops, i, m, id, start);
      assert Stepped(states, ops, m);
      StartStep(states[m], ops[m], id, start);
    }
  }

  predicate Begins(s: Sys, op: Op, id: TaskId) {
    (op.BeginUnlock? || op.BeginRequest?) && id == s.next
  }

  predicate Commits(s: Sys, op: Op, id: TaskId) {
    op == FinishCommit(id) && id in s.tasks && s.tasks[id].Written? && s.tasks[id].gen == s.mem.generation
  }

  /** A task commits across a lock that landed after it was called exactly when it had captured a later
      generation than the one it was called in: what fences a task is its capture, not its call. */
  lemma CommitsAcrossLockIff(states: seq<Sys>, ops: seq<Op>, i: nat, j: nat, id: TaskId)
    requires Run(states, ops) && i < j < |ops| && Begins(states[i], ops[i], id) && Commits(states[j], ops[j], id)
    ensures LockedBetween(states, i + 1, j) <==> states[j].tasks[id].gen != states[i + 1].mem.generation
    ensures states[j].tasks[id].start == states[i + 1].mem.generation
  {
    assert Stepped(states, ops, i);
    SameGenerationIff(states, ops, i + 1, j);
    StartStays(states, ops, i + 1, j, id, states[i + 1].mem.generation);
  }

  predicate GenKept(s: Sys, id: TaskId, gen: Generation) {
    id < s.next && (id in s.tasks ==> GenOf(s.tasks[id]) == Some(gen) || s.tasks[id] == Clearing(None))
  }

  lemma GenStep(s: Sys, op: Op, id: TaskId, gen: Generation)
    requires Enabled(s, op) && GenKept(s, id, gen)
    ensures GenKept(Next(s, op), id, gen)
  {
  }

  lemma {:induction false} GenStays(states: seq<Sys>, ops: seq<Op>, i: nat, j: nat, id: TaskId, gen: Generation)
    requires Run(states, ops) && i <= j < |states| && GenKept(states[i], id, gen)
    ensures GenKept(states[j], id, gen)
    decreases j
  {
    if i < j {
      var m := j - 1;
      GenStays(states, ops, i, m, id, gen);
      assert Stepped(states, ops, m);
      GenStep(states[m], ops[m], id, gen);
    }
  }

  predicate Captures(op: Op, id: TaskId) {
    op == CaptureUnlock(id) || (op.CaptureRequest? && op.id == id)
  }

  /** Work that commits saw no lock since it captured its generation. */
  lemma NoLockSinceCapture(states: seq<Sys>, ops: seq<Op>, c: nat, j: nat, id: TaskId)
    requires Run(states, ops) && c < j < |ops| && Captures(ops[c], id) && Commits(states[j], ops[j], id)
    ensures !LockedBetween(states, c, j)
  {
    assert Stepped(states, ops, c);
    AlwaysSound(states, ops, c);
    assert GenKept(states[c + 1], id, states[c].mem.generation);
    GenStays(states, ops, c + 1, j, id, states[c].mem.generation);
    SameGenerationIff(states, ops, c, j);
  }

  // ---------------------------------------------------------------- the key a request uses

  /** Once read, a request's value is the one it captures with. */
  predicate ReadKept(s: Sys, id: TaskId, t: Task) {
    id < s.next && (id in s.tasks && (s.tasks[id].Read? || s.tasks[id].Reading?) ==> s.tasks[id] == t)
  }

  lemma ReadStep(s: Sys, op: Op, id: TaskId, t: Task)
    requires Enabled(s, op) && ReadKept(s, id, t) && t.Read?
    ensures ReadKept(Next(s, op), id, t)
  {
  }

  lemma {:induction false} ReadStays(states: seq<Sys>, ops: seq<Op>, i: nat, j: nat, id: TaskId, t: Task)
    requires Run(states, ops) && i <= j < |states| && ReadKept(states[i], id, t) && t.Read?
    ensures ReadKept(states[j], id, t)
    decreases j
  {
    if i < j {
      var m := j - 1;
      ReadStays(states, ops, i, m, id, t);
      assert Stepped(states, ops, m);
      ReadStep(states[m], ops[m], id, t);
    }
  }

  /** The key a request captures with is one of the generation it captures exactly when it was not stale when
      read and no lock landed between the read and the capture. */
  lemma CapturedKeyCurrentIff(states: seq<Sys>, ops: seq<Op>, i: nat, j: nat, id: TaskId)
    requires Run(states, ops) && i < j < |ops| && ops[i] == ReadStored(id) && states[i].stored.Some?
    requires Stepped(states, ops, j) && ops[j].CaptureRequest? && ops[j].id == id
    ensures states[j].tasks[id].value == states[i].stored
    ensures states[i].stored.value == states[j].mem.generation <==> !Stale(states[i]) && !LockedBetween(states, i, j)
  {
    assert Stepped(states, ops, i);
    AlwaysSound(states, ops, i);
    ReadStays(states, ops, i + 1, j, id, states[i + 1].tasks[id]);
    SameGenerationIff(states, ops, i, j);
  }

  // ---------------------------------------------------------------- the gaps, step by step

  /** The state after these steps, if each was possible. */
  function Played(s: Sys, ops: seq<Op>): Option<Sys>
    decreases |ops|
  {
    if ops == [] then Some(s)
    else if Enabled(s, ops[0]) then Played(Next(s, ops[0]), ops[1..])
    else None
  }

  lemma PlayedOne(s: Sys, op: Op, rest: seq<Op>)
    requires Enabled(s, op)
    ensures Played(s, [op] + rest) == Played(Next(s, op), rest)
  {
  }

  predicate Leads(s: Sys, a: Op, b: Op, c: Op, after: Sys) {
    Enabled(s, a) && Enabled(Next(s, a), b) && Enabled(Next(Next(s, a), b), c) && after == Next(Next(Next(s, a), b), c)
  }

  lemma PlayedThree(s: Sys, a: Op, b: Op, c: Op, rest: seq<Op>, after: Sys)
    requires Leads(s, a, b, c, after)
    ensures Played(s, [a, b, c] + rest) == Played(after, rest)
  {
    assert [a, b, c] + rest == [a] + ([b] + ([c] + rest));
    PlayedOne(s, a, [b] + ([c] + rest));
    PlayedOne(Next(s, a), b, [c] + rest);
    PlayedOne(Next(Next(s, a), b), c, rest);
  }

  /** Awake after an eviction: a key in storage and nothing in memory. */
  function Awake(k: Key, gen: Generation, next: TaskId): Sys {
    Sys(Mem(gen, None, None), Some(k), map[], next, {}, {})
  }

  function LockedMeanwhile(k: Key, gen: Generation, next: TaskId): Sys {
    Sys(Mem(gen + 1, None, None), Some(k), map[next := Read(gen, Some(k), gen), next + 1 := Clearing(None)], next + 2, {}, {})
  }

  function Reopened(k: Key, gen: Generation, next: TaskId, own: Task): Sys {
    Sys(Mem(gen + 1, None, None), None, map[next := own, next + 2 := Downloaded(gen + 1, k)], next + 3, {}, {})
  }

  lemma RequestReads(k: Key, gen: Generation, next: TaskId)
    ensures Leads(Awake(k, gen, next), BeginRequest, ReadStored(next), Lock, LockedMeanwhile(k, gen, next))
  {
  }

  lemma RequestReopens(k: Key, gen: Generation, next: TaskId)
    ensures Leads(LockedMeanwhile(k, gen, next), Clear(next + 1), CaptureRequest(next, false), EndDownload(next + 2, true),
                  Reopened(k, gen, next, Waiting(gen, gen + 1, next + 2)))
  {
  }

  lemma RequestWrites(k: Key, gen: Generation, next: TaskId)
    ensures Leads(Reopened(k, gen, next, Waiting(gen, gen + 1, next + 2)), Resume(next), Write(next), ApplyWrite(next),
                  Reopened(k, gen, next, Written(gen, gen + 1, k, next + 2, false)))
  {
  }

  lemma RequestCommits(k: Key, gen: Generation, next: TaskId)
    ensures var s := Reopened(k, gen, next, Written(gen, gen + 1, k, next + 2, false));
      Enabled(s, FinishCommit(next)) && Next(s, FinishCommit(next))
        == Sys(Mem(gen + 1, Some(Open(k, gen + 1, next + 2)), None), None, map[next + 2 := Downloaded(gen + 1, k)],
               next + 3, {next + 2}, {})
  {
  }

  /** A lock that lands while a request waits for its reads does not stop it: the request captures after the
      lock, reopens with the key it had read, and leaves the vault open over a cleared storage. */
  lemma RequestOutlivesLock(k: Key, gen: Generation, next: TaskId)
    ensures var ops := [BeginRequest, ReadStored(next), Lock] + ([Clear(next + 1), CaptureRequest(next, false), EndDownload(next + 2, true)]
                       + ([Resume(next), Write(next), ApplyWrite(next)] + [FinishCommit(next)]));
      var end := Played(Awake(k, gen, next), ops);
      end.Some? && end.value.mem.open == Some(Open(k, gen + 1, next + 2)) && end.value.stored.None? && Quiet(end.value)
  {
    var last := [FinishCommit(next)];
    var tail := [Resume(next), Write(next), ApplyWrite(next)] + last;
    var middle := [Clear(next + 1), CaptureRequest(next, false), EndDownload(next + 2, true)] + tail;
    RequestReads(k, gen, next);
    RequestReopens(k, gen, next);
    RequestWrites(k, gen, next);
    RequestCommits(k, gen, next);
    PlayedThree(Awake(k, gen, next), BeginRequest, ReadStored(next), Lock, middle, LockedMeanwhile(k, gen, next));
    PlayedThree(LockedMeanwhile(k, gen, next), Clear(next + 1), CaptureRequest(next, false), EndDownload(next + 2, true), tail,
                Reopened(k, gen, next, Waiting(gen, gen + 1, next + 2)));
    var done := Reopened(k, gen, next, Written(gen, gen + 1, k, next + 2, false));
    PlayedThree(Reopened(k, gen, next, Waiting(gen, gen + 1, next + 2)), Resume(next), Write(next), ApplyWrite(next), last, done);
    assert last == [FinishCommit(next)] + [];
    PlayedOne(done, FinishCommit(next), []);
  }

  /** A lock that lands while an unlock is still clearing the storage does not stop it either: the unlock
      captures after the lock and leaves the vault unlocked. */
  lemma UnlockOutlivesLock(s: Sys)
    requires s.tasks == map[]
    ensures var unlock, lock, gen := s.next, s.next + 1, s.mem.generation + 2;
      var ops := [BeginUnlock, Lock, Clear(lock)] + ([Clear(unlock), CaptureUnlock(unlock), EndDownload(unlock, true)]
                 + ([Write(unlock), ApplyWrite(unlock), FinishCommit(unlock)] + []));
      var end := Played(s, ops);
      end.Some? && end.value.mem.open == Some(Open(gen, gen, unlock)) && end.value.stored == Some(gen) && end.value.tasks == map[]
  {
    var unlock, lock, start := s.next, s.next + 1, s.mem.generation + 1;
    var gen := start + 1;
    var tail := [Write(unlock), ApplyWrite(unlock), FinishCommit(unlock)] + [];
    var middle := [Clear(unlock), CaptureUnlock(unlock), EndDownload(unlock, true)] + tail;
    var committing := Committing(start, gen, gen, unlock, true);
    UnlockLocked(s);
    UnlockDownloads(s, gen, unlock);
    UnlockCommits(s, gen, unlock);
    PlayedThree(s, BeginUnlock, Lock, Clear(lock), middle, Unlocking(s, gen, None, unlock, Clearing(Some(start))));
    PlayedThree(Unlocking(s, gen, None, unlock, Clearing(Some(start))), Clear(unlock), CaptureUnlock(unlock), EndDownload(unlock, true),
                tail, Unlocking(s, gen, None, unlock, committing));
    PlayedThree(Unlocking(s, gen, None, unlock, committing), Write(unlock), ApplyWrite(unlock), FinishCommit(unlock), [],
                Unlocked(s, gen, unlock));
  }

  function Unlocking(s: Sys, gen: Generation, stored: Option<Key>, unlock: TaskId, t: Task): Sys {
    Sys(Mem(gen, None, None), stored, map[unlock := t], unlock + 2, s.handed, s.failed)
  }

  function Unlocked(s: Sys, gen: Generation, unlock: TaskId): Sys {
    Sys(Mem(gen, Some(Open(gen, gen, unlock)), None), Some(gen), map[], unlock + 2, s.handed, s.failed)
  }

  lemma UnlockLocked(s: Sys)
    requires s.tasks == map[]
    ensures Leads(s, BeginUnlock, Lock, Clear(s.next + 1),
                  Unlocking(s, s.mem.generation + 2, None, s.next, Clearing(Some(s.mem.generation + 1))))
  {
  }

  lemma UnlockDownloads(s: Sys, gen: Generation, unlock: TaskId)
    requires gen > 0
    ensures Leads(Unlocking(s, gen, None, unlock, Clearing(Some(gen - 1))), Clear(unlock), CaptureUnlock(unlock), EndDownload(unlock, true),
                  Unlocking(s, gen, None, unlock, Committing(gen - 1, gen, gen, unlock, true)))
  {
  }

  lemma UnlockCommits(s: Sys, gen: Generation, unlock: TaskId)
    requires gen > 0
    ensures Leads(Unlocking(s, gen, None, unlock, Committing(gen - 1, gen, gen, unlock, true)), Write(unlock), ApplyWrite(unlock),
                  FinishCommit(unlock), Unlocked(s, gen, unlock))
  {
  }

  /** An eviction between a late write and its clear leaves a key that outlives the lock. */
  lemma EvictionKeepsKey(s: Sys, id: TaskId)
    requires Sound(s) && id in s.tasks && s.tasks[id].Writing? && s.tasks[id].unlocking
    ensures Leads(Next(s, Lock), Clear(s.next), ApplyWrite(id), Evict,
                  Sys(Mem(s.mem.generation + 1, None, None), Some(s.tasks[id].key), map[], s.next + 1, s.handed, s.failed))
  {
  }

  // ---------------------------------------------------------------- each gap, from the start

  lemma {:induction false} PlayedIsRun(states: seq<Sys>, ops: seq<Op>, rest: seq<Op>) returns (all: seq<Sys>)
    requires Run(states, ops) && Played(states[|ops|], rest).Some?
    ensures Run(all, ops + rest) && all[|ops + rest|] == Played(states[|ops|], rest).value
    decreases |rest|
  {
    if rest == [] {
      all := states;
      assert ops + rest == ops;
    } else {
      var longer := states + [Next(states[|ops|], rest[0])];
      forall i | 0 <= i < |ops| + 1 ensures Stepped(longer, ops + [rest[0]], i) {
        assert i < |ops| ==> Stepped(states, ops, i);
      }
      all := PlayedIsRun(longer, ops + [rest[0]], rest[1..]);
      assert ops + [rest[0]] + rest[1..] == ops + rest;
    }
  }

  lemma Reached(ops: seq<Op>) returns (states: seq<Sys>)
    requires Played(START, ops).Some?
    ensures Run(states, ops) && states[|ops|] == Played(START, ops).value
  {
    assert [] + ops == ops;
    states := PlayedIsRun([START], [], ops);
  }

  function Fetched(own: Task): Sys {
    Sys(Mem(1, None, None), None, map[0 := own], 1, {}, {})
  }

  const OPENED := Sys(Mem(1, Some(Open(1, 1, 0)), None), Some(1), map[], 1, {}, {})

  lemma FirstUnlock(rest: seq<Op>)
    ensures Played(START, [BeginUnlock, Clear(0), CaptureUnlock(0)] + ([EndDownload(0, true)] + rest))
         == Played(Fetched(Committing(1, 1, 1, 0, true)), rest)
  {
    PlayedThree(START, BeginUnlock, Clear(0), CaptureUnlock(0), [EndDownload(0, true)] + rest, Fetched(Downloading(1, 1, 1, true)));
    PlayedOne(Fetched(Downloading(1, 1, 1, true)), EndDownload(0, true), rest);
    assert Next(Fetched(Downloading(1, 1, 1, true)), EndDownload(0, true)) == Fetched(Committing(1, 1, 1, 0, true));
  }

  function UnlockThen(rest: seq<Op>): seq<Op> {
    [BeginUnlock, Clear(0), CaptureUnlock(0)] + ([EndDownload(0, true)] + ([Write(0), ApplyWrite(0), FinishCommit(0)] + rest))
  }

  lemma Unlocks(rest: seq<Op>)
    ensures Played(START, UnlockThen(rest)) == Played(OPENED, rest)
  {
    FirstUnlock([Write(0), ApplyWrite(0), FinishCommit(0)] + rest);
    PlayedThree(Fetched(Committing(1, 1, 1, 0, true)), Write(0), ApplyWrite(0), FinishCommit(0), rest, OPENED);
  }

  /** An unlock and an eviction lead to the state `RequestOutlivesLock` starts from. */
  lemma AwakeReached() returns (states: seq<Sys>, ops: seq<Op>)
    ensures Run(states, ops) && states[|ops|] == Awake(1, 1, 1)
  {
    ops := UnlockThen([Evict] + []);
    Unlocks([Evict] + []);
    PlayedOne(OPENED, Evict, []);
    states := Reached(ops);
  }

  const LATE := [Clear(1), ApplyWrite(0), Evict]

  const CUT := Sys(Mem(2, None, None), Some(1), map[], 2, {}, {})

  lemma LateWrite()
    ensures Played(Fetched(Committing(1, 1, 1, 0, true)), [Write(0)] + ([Lock] + (LATE + []))) == Some(CUT)
  {
    var writing := Fetched(Writing(1, 1, 1, 0, true));
    PlayedOne(Fetched(Committing(1, 1, 1, 0, true)), Write(0), [Lock] + (LATE + []));
    assert Next(Fetched(Committing(1, 1, 1, 0, true)), Write(0)) == writing;
    PlayedOne(writing, Lock, LATE + []);
    EvictionKeepsKey(writing, 0);
    PlayedThree(Next(writing, Lock), Clear(1), ApplyWrite(0), Evict, [], CUT);
  }

  /** From the start: an unlock is locked while it writes, its write lands late, and the worker is evicted before the
      clear. Nothing is left to run, and the key of generation 1 is stored under generation 2. */
  lemma EvictionCutsOff() returns (states: seq<Sys>, ops: seq<Op>)
    ensures Run(states, ops) && states[|ops|] == CUT && Quiet(CUT) && CutOff(states, ops, |ops|)
  {
    var late := [Write(0)] + ([Lock] + (LATE + []));
    ops := [BeginUnlock, Clear(0), CaptureUnlock(0)] + ([EndDownload(0, true)] + late);
    FirstUnlock(late);
    LateWrite();
    states := Reached(ops);
    QuietKeyCurrentIff(states, ops, |ops|);
  }
}
