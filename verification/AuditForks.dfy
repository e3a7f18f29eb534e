/** An append whose flush fails: its record stays in the log while the chain takes its step back, so the next append
    reuses its position. What the log is good for from then on. */
module AuditForks {
  import opened Outcomes
  import opened AuditChain
  import opened AuditLog
  import opened AuditRuns

  datatype Attempt = Attempt(content: Content, flushed: bool, markWritable: bool)

  function LiveTail(a: Anchor): Digest {
    if a.hash.Some? then a.hash.value else Genesis
  }

  /** The record an append mints. */
  function Minted(key: Key, s: State, a: Attempt): Entry
    requires s.live.Some?
  {
    NextEntry(key, s.live.value.count, LiveTail(s.live.value), a.content)
  }

  /** What an append leaves of an open log, as `AuditLog.Store.Log` does. */
  function After(c: Codec, key: Key, s: State, a: Attempt): State
    requires s.live.Some?
  {
    var e := Minted(key, s, a);
    var next := Anchor(s.live.value.count + 1, Some(e.hash));
    if a.flushed then State(s.log + Line(c, e), if a.markWritable then next else s.mark, Some(next))
    else s.(log := s.log + Line(c, e))
  }

  /** The log ends in a whole record that is not at its own position, and the mark stops short of it. */
  ghost predicate Forked(c: Codec, key: Key, s: State, entries: seq<Entry>, nls: seq<bool>) {
    && |entries| == |nls| && s.log == Laid(c, entries, nls) && s.live.Some?
    && s.mark.count <= s.live.value.count < |entries|
    && RecordOf(entries[|entries| - 1]).position < |entries|
    && Verifies(key, RecordOf(entries[|entries| - 1]))
  }

  lemma ForkedRefused(c: Codec, key: Key, s: State, entries: seq<Entry>, nls: seq<bool>)
    requires Sound(c) && Forked(c, key, s, entries, nls)
    ensures OpenRefused(c, key, s.log, s.mark)
  {
    assert Laid(c, entries, nls) + "" == Laid(c, entries, nls);
    ReadsBack(c, entries, nls, "");
    assert !ExtendsAt(key, s.mark, entries, |entries| - 1);
  }

  /** The next append puts a second record at a position already taken. */
  lemma SecondForks(c: Codec, key: Key, s: State, a: Attempt, entries: seq<Entry>, nls: seq<bool>)
    requires |entries| == |nls| && s.log == Laid(c, entries, nls) && s.live.Some?
    requires s.mark.count <= s.live.value.count < |entries|
    ensures Forked(c, key, After(c, key, s, a), entries + [Minted(key, s, a)], nls + [true])
  {
    var e := Minted(key, s, a);
    LaidExtends(c, entries, nls, e, true);
    var longer := entries + [e];
    assert longer[|longer| - 1] == e;
  }

  /** The record whose flush failed is in the log and the log is as if it had been appended, except that the open
      store does not know it: until a restart the log does not verify against the live anchor. */
  lemma UnflushedStays(c: Codec, key: Key, s: State, a: Attempt, entries: seq<Entry>, nls: seq<bool>)
    requires Sound(c) && Written(c, key, s, entries, nls, "") && s.live.Some? && !a.flushed
    ensures var after, longer := After(c, key, s, a), entries + [Minted(key, s, a)];
      && Written(c, key, after.(live := None), longer, nls + [true], "") && after.log == Laid(c, longer, nls + [true])
      && after.live == s.live && after.live.value.count == |entries|
      && ReadFrom(c, after.log, 0).0 == longer && !AnchoredAt(RecordsOf(longer), after.live.value)
  {
    var e := ExtendedEntries(key, entries, a.content);
    assert e == Minted(key, s, a);
    LaidExtends(c, entries, nls, e, true);
    assert Laid(c, entries + [e], nls + [true]) + "" == Laid(c, entries + [e], nls + [true]);
    assert Laid(c, entries, nls) + "" == Laid(c, entries, nls);
    UnflushedMarked(c, key, s, a, entries, nls, e);
    ReadsBack(c, entries + [e], nls + [true], "");
  }

  lemma UnflushedMarked(c: Codec, key: Key, s: State, a: Attempt, entries: seq<Entry>, nls: seq<bool>, e: Entry)
    requires Written(c, key, s, entries, nls, "") && s.live.Some? && !a.flushed
    requires e == NextEntry(key, |entries|, TailOf(entries), a.content) && Chained(key, RecordsOf(entries + [e]))
    requires After(c, key, s, a).log == Laid(c, entries + [e], nls + [true]) + ""
    ensures Written(c, key, After(c, key, s, a).(live := None), entries + [e], nls + [true], "")
  {
  }

  ghost predicate Stepped(c: Codec, key: Key, states: seq<State>, attempts: seq<Attempt>, i: nat)
    requires i < |attempts| && |states| == |attempts| + 1
  {
    states[i].live.Some? && states[i + 1] == After(c, key, states[i], attempts[i])
  }

  lemma {:induction false} ForkedFromTwo(c: Codec, key: Key, states: seq<State>, attempts: seq<Attempt>, n: nat,
                                         entries: seq<Entry>, nls: seq<bool>) returns (all: seq<Entry>, ends: seq<bool>)
    requires |states| == |attempts| + 1 && 2 <= n < |states| && forall i :: 0 <= i < |attempts| ==> Stepped(c, key, states, attempts, i)
    requires |entries| == |nls| && states[1].log == Laid(c, entries, nls) && states[1].live.Some?
    requires states[1].mark.count <= states[1].live.value.count < |entries|
    ensures Forked(c, key, states[n], all, ends)
    decreases n
  {
    all, ends := entries, nls;
    if n > 2 {
      all, ends := ForkedFromTwo(c, key, states, attempts, n - 1, entries, nls);
    }
    assert Stepped(c, key, states, attempts, n - 1);
    SecondForks(c, key, states[n - 1], attempts[n - 1], all, ends);
    all, ends := all + [Minted(key, states[n - 1], attempts[n - 1])], ends + [true];
  }

  lemma ForkRefused(c: Codec, key: Key, states: seq<State>, attempts: seq<Attempt>, n: nat, entries: seq<Entry>, nls: seq<bool>)
    requires Sound(c)
    requires |states| == |attempts| + 1 && 2 <= n < |states| && forall i :: 0 <= i < |attempts| ==> Stepped(c, key, states, attempts, i)
    requires |entries| == |nls| && states[1].log == Laid(c, entries, nls) && states[1].live.Some?
    requires states[1].mark.count <= states[1].live.value.count < |entries|
    ensures OpenRefused(c, key, states[n].log, states[n].mark)
  {
    var all, ends := ForkedFromTwo(c, key, states, attempts, n, entries, nls);
    ForkedRefused(c, key, states[n], all, ends);
  }

  /** From a log its own writes left, an append whose flush fails and then any further ones: a restart is refused
      exactly when at least one more record was written, or when no mark ever was. Before that, a restart heals the
      log. */
  lemma UnflushedRestartIff(c: Codec, key: Key, states: seq<State>, attempts: seq<Attempt>, n: nat,
                            entries: seq<Entry>, nls: seq<bool>)
    requires Sound(c) && |states| == |attempts| + 1 && 1 <= n < |states|
    requires forall i :: 0 <= i < |attempts| ==> Stepped(c, key, states, attempts, i)
    requires Written(c, key, states[0], entries, nls, "") && !attempts[0].flushed
    ensures OpenRefused(c, key, states[n].log, states[n].mark) <==> n >= 2 || states[n].mark.count == 0
  {
    assert Stepped(c, key, states, attempts, 0);
    var e := Minted(key, states[0], attempts[0]);
    UnflushedStays(c, key, states[0], attempts[0], entries, nls);
    if n >= 2 {
      ForkRefused(c, key, states, attempts, n, entries + [e], nls + [true]);
    } else {
      OpensWhatWasWritten(c, key, states[1].(live := None), entries + [e], nls + [true], "");
    }
  }
}
