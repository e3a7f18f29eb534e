/** The audit store's methods are the steps of `AuditRuns` and `AuditForks`: run on the object, each leaves what its
    step leaves of the state it represents. */
module AuditRefinement {
  import opened Outcomes
  import opened AuditChain
  import opened AuditLog
  import opened AuditRuns
  import opened AuditForks

  /** An open store, and the state of its files and of what it remembers. */
  ghost predicate Represents(store: Store, s: State)
    reads store
  {
    && store.log == s.log && store.mark == s.mark && s.live == Some(store.anchor)
    && (store.anchor.count == 0 ==> store.anchor.hash == None && store.tail == Genesis)
    && (store.anchor.count > 0 ==> store.anchor.hash == Some(store.tail))
  }

  /** An append that lands is the append step; one that is cut back leaves the state as it was; one that is not
      flushed is the failed attempt. */
  method DoLog(store: Store, ghost s: State, content: Content, landing: Landing, markWritable: bool)
    returns (r: Option<Entry>, ghost s': State)
    requires Represents(store, s)
    modifies store
    ensures Represents(store, s')
    ensures landing.Whole? ==> r.Some? && AuditRuns.Next(store.codec, store.key, s, Append(content, markWritable), s')
    ensures landing.Whole? ==> s' == After(store.codec, store.key, s, Attempt(content, true, markWritable))
    ensures landing.CutBack? ==> r.None? && s' == s
    ensures landing.Unflushed? ==> r.None? && s' == After(store.codec, store.key, s, Attempt(content, false, markWritable))
  {
    r := store.Log(content, landing, markWritable);
    s' := State(store.log, store.mark, Some(store.anchor));
    if landing.Whole? {
      assert AppendLeaves(store.codec, store.key, s, content, markWritable, r.value, s');
    }
  }

  /** A restart opens the files the last process left: refused, or the restart step. */
  method DoRestart(store: Store, ghost s: State) returns (r: Option<Error>, after: Store, ghost s': State)
    requires Represents(store, s) && (s.mark.count == 0 ==> s.mark.hash == None)
    ensures fresh(after)
    ensures r.Some? <==> OpenRefused(store.codec, store.key, s.log, s.mark)
    ensures r.Some? ==> after.log == RefusedLog(store.codec, store.key, s.log, s.mark) && after.mark == s.mark
    ensures r.None? ==> Represents(after, s') && AuditRuns.Next(store.codec, store.key, s, Restart, s')
  {
    after := new Store(store.codec, store.key, store.log, store.mark);
    var entries;
    r, entries := after.Open();
    s' := State(after.log, after.mark, Some(after.anchor));
  }
}
