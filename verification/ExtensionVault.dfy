/** The browser extension's owner of the open vault: the variables it keeps in memory, and what each stretch of
    code between two awaits does to them. A key is named by the generation whose unlock produced it. */
module ExtensionVault {
  import opened Outcomes

  type Generation = nat
  type Key = Generation
  type TaskId = nat

  /** The vault in memory: the key it was opened with, the generation that committed it, and which downloaded
      copy it is, named by the task that downloaded it. */
  datatype Open = Open(key: Key, gen: Generation, copy: TaskId)

  /** reopening names the download that concurrent requests share. */
  datatype Mem = Mem(generation: Generation, open: Option<Open>, reopening: Option<TaskId>)

  /** How a request gets its vault once it has its generation. */
  datatype Source = InMemory(key: Key, copy: TaskId) | Shared(ticket: TaskId) | StartDownload

  function Locked(m: Mem): Mem {
    Mem(m.generation + 1, None, None)
  }

  function SourceOf(m: Mem): Source {
    match (m.open, m.reopening)
    case (Some(o), _) => InMemory(o.key, o.copy)
    case (None, Some(t)) => Shared(t)
    case (None, None) => StartDownload
  }

  function Committed(m: Mem, gen: Generation, key: Key, copy: TaskId): Mem {
    if gen == m.generation then m.(open := Some(Open(key, gen, copy))) else m
  }

  predicate OpenIs(m: Mem, copy: TaskId) {
    m.open.Some? && m.open.value.copy == copy
  }

  function Dropped(m: Mem, copy: TaskId): Mem {
    if OpenIs(m, copy) then m.(open := None) else m
  }

  class VaultState {
    var open: Option<Open>
    var reopening: Option<TaskId>
    var generation: Generation

    function Value(): Mem
      reads this
    {
      Mem(generation, open, reopening)
    }

    constructor ()
      ensures Value() == Mem(0, None, None)
    {
      open, reopening, generation := None, None, 0;
    }

    /** As far as the clearing of the session storage, which is asked for next. */
    method Lock()
      modifies this
      ensures Value() == Locked(old(Value()))
    {
      generation := generation + 1;
      open := None;
      reopening := None;
    }

    /** From the end of its reads to its first wait: the generation is taken only now. */
    method BeginRequest(fresh': TaskId) returns (gen: Generation, source: Source)
      modifies this
      ensures gen == old(generation) && source == SourceOf(old(Value()))
      ensures Value() == if source.StartDownload? then old(Value()).(reopening := Some(fresh')) else old(Value())
    {
      gen := generation;
      if open.Some? {
        source := InMemory(open.value.key, open.value.copy);
      } else if reopening.Some? {
        source := Shared(reopening.value);
      } else {
        source := StartDownload;
        reopening := Some(fresh');
      }
    }

    /** The end of a download: current says whether its caller may go on; a shared one stops being joinable. */
    method EndDownload(gen: Generation, shared: bool, opens: bool) returns (current: bool)
      modifies this
      ensures current == (opens && gen == old(generation))
      ensures var m := if opens then old(Value()) else Locked(old(Value()));
        Value() == if shared then m.(reopening := None) else m
    {
      if !opens {
        Lock();
        current := false;
      } else {
        current := gen == generation;
      }
      if shared {
        reopening := None;
      }
    }

    /** After the session storage has been written: false asks for it to be cleared again. */
    method FinishCommit(gen: Generation, key: Key, copy: TaskId) returns (kept: bool)
      modifies this
      ensures kept == (gen == old(generation))
      ensures Value() == Committed(old(Value()), gen, key, copy)
    {
      if gen != generation {
        return false;
      }
      open := Some(Open(key, gen, copy));
      return true;
    }

    /** A save that failed drops the copy it changed, if it is still the open one. */
    method DropCopy(copy: TaskId)
      modifies this
      ensures Value() == Dropped(old(Value()), copy)
    {
      if open.Some? && open.value.copy == copy {
        open := None;
      }
    }
  }
}
