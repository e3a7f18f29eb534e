/** The audit log over every run of appends, torn writes and restarts. */
module AuditRuns {
  import opened Outcomes
  import opened AuditChain
  import opened AuditLog

  // ---------------------------------------------------------------- the text of a log

  /** The text of entries; nls says which kept the newline written behind them. A write torn
      exactly at its newline leaves a record without one, and the next follows it directly. */
  function Laid(c: Codec, entries: seq<Entry>, nls: seq<bool>): string
    requires |entries| == |nls|
  {
    if entries == [] then ""
    else
      var n := |entries| - 1;
      Laid(c, entries[..n], nls[..n]) + c.enc(entries[n]) + (if nls[n] then "\n" else "")
  }

  /** Where the decoder stops after the first i records. */
  function EndOf(c: Codec, entries: seq<Entry>, nls: seq<bool>, i: nat): int
    requires |entries| == |nls| && i <= |entries|
  {
    |Laid(c, entries[..i], nls[..i])| - (if i > 0 && nls[i - 1] then 1 else 0)
  }

  /** What a torn write leaves behind the last whole record: nothing, or a proper part of one. */
  ghost predicate Fragment(c: Codec, frag: string) {
    frag == "" || exists e, k :: 0 < k < |c.enc(e)| && frag == c.enc(e)[..k]
  }

  lemma FragmentFacts(c: Codec, frag: string)
    requires Sound(c) && Fragment(c, frag)
    ensures c.dec(frag) == None && '\n' !in frag && (frag != "" ==> !IsSpace(frag[0])) && Spaces(frag) == 0
  {
    if frag == "" {
      var e := Entry(0, Content(Stamp("", ""), "", "", "", "", ""), Genesis, Genesis);
      assert PlainText(c.enc(e));
      assert c.enc(e)[..0] == frag;
    } else {
      var e, k :| 0 < k < |c.enc(e)| && frag == c.enc(e)[..k];
      assert PlainText(c.enc(e));
    }
  }

  lemma {:induction false} LaidSplits(c: Codec, entries: seq<Entry>, nls: seq<bool>, i: nat) returns (rest: string)
    requires |entries| == |nls| && i <= |entries|
    ensures Laid(c, entries, nls) == Laid(c, entries[..i], nls[..i]) + rest
    ensures i < |entries| ==> c.enc(entries[i]) + (if nls[i] then "\n" else "") <= rest
    decreases |entries|
  {
    if i == |entries| {
      assert entries[..i] == entries && nls[..i] == nls;
      rest := "";
    } else {
      var n := |entries| - 1;
      var last := c.enc(entries[n]) + (if nls[n] then "\n" else "");
      if i == n {
        rest := last;
      } else {
        var inner := LaidSplits(c, entries[..n], nls[..n], i);
        assert entries[..n][..i] == entries[..i] && nls[..n][..i] == nls[..i];
        rest := inner + last;
      }
    }
  }

  lemma LaidStep(c: Codec, entries: seq<Entry>, nls: seq<bool>, i: nat)
    requires |entries| == |nls| && i < |entries|
    ensures Laid(c, entries[..i + 1], nls[..i + 1])
         == Laid(c, entries[..i], nls[..i]) + c.enc(entries[i]) + (if nls[i] then "\n" else "")
  {
    assert entries[..i + 1][..i] == entries[..i] && nls[..i + 1][..i] == nls[..i];
  }

  /** The text from where the decoder stopped after i records. */
  lemma RestAt(c: Codec, entries: seq<Entry>, nls: seq<bool>, frag: string, i: nat) returns (after: string)
    requires |entries| == |nls| && i <= |entries|
    ensures 0 <= EndOf(c, entries, nls, i) <= |Laid(c, entries, nls) + frag|
    ensures (Laid(c, entries, nls) + frag)[EndOf(c, entries, nls, i)..]
         == (if i > 0 && nls[i - 1] then "\n" else "") + after
    ensures i < |entries| ==> c.enc(entries[i]) + (if nls[i] then "\n" else "") <= after
    ensures i == |entries| ==> after == frag
  {
    var rest := LaidSplits(c, entries, nls, i);
    after := rest + frag;
    var head := Laid(c, entries[..i], nls[..i]);
    if i > 0 {
      LaidStep(c, entries, nls, i - 1);
    }
    assert Laid(c, entries, nls) + frag == head + after;
    if i == |entries| {
      assert entries[..i] == entries && nls[..i] == nls;
    }
  }

  lemma EndInText(c: Codec, entries: seq<Entry>, nls: seq<bool>, frag: string, i: nat)
    requires |entries| == |nls| && i <= |entries|
    ensures 0 <= EndOf(c, entries, nls, i) <= |Laid(c, entries, nls) + frag|
  {
    var _ := RestAt(c, entries, nls, frag, i);
  }

  /** Of one record, what a sound codec gives. */
  ghost predicate Decodes(c: Codec, e: Entry) {
    PlainText(c.enc(e)) && forall rest :: c.dec(c.enc(e) + rest) == Some((e, |c.enc(e)|))
  }

  /** From where the decoder stopped after i records, it finds the next one. */
  lemma NextAt(c: Codec, entries: seq<Entry>, nls: seq<bool>, frag: string, i: nat)
    requires |entries| == |nls| && i < |entries| && Decodes(c, entries[i])
    ensures 0 <= EndOf(c, entries, nls, i) < EndOf(c, entries, nls, i + 1) <= |Laid(c, entries, nls) + frag|
    ensures NextRecord(c, Laid(c, entries, nls) + frag, EndOf(c, entries, nls, i)) == Some((entries[i], EndOf(c, entries, nls, i + 1)))
  {
    EndsAfter(c, entries, nls, i);
    var after := RestAt(c, entries, nls, frag, i);
    NextRecordFinds(c, Laid(c, entries, nls) + frag, EndOf(c, entries, nls, i), if i > 0 && nls[i - 1] then 1 else 0,
                    EndOf(c, entries, nls, i + 1), after, entries[i]);
  }

  /** After the last record it stops for good. */
  lemma StopsAtEnd(c: Codec, entries: seq<Entry>, nls: seq<bool>, frag: string)
    requires Sound(c) && |entries| == |nls| && Fragment(c, frag)
    ensures 0 <= EndOf(c, entries, nls, |entries|) <= |Laid(c, entries, nls) + frag|
    ensures NextRecord(c, Laid(c, entries, nls) + frag, EndOf(c, entries, nls, |entries|)) == None
  {
    var n := |entries|;
    var after := RestAt(c, entries, nls, frag, n);
    FragmentFacts(c, frag);
    NextRecordStops(c, Laid(c, entries, nls) + frag, EndOf(c, entries, nls, n), if n > 0 && nls[n - 1] then 1 else 0, after);
  }

  lemma EndsAfter(c: Codec, entries: seq<Entry>, nls: seq<bool>, i: nat)
    requires |entries| == |nls| && i < |entries|
    ensures EndOf(c, entries, nls, i + 1)
         == EndOf(c, entries, nls, i) + (if i > 0 && nls[i - 1] then 1 else 0) + |c.enc(entries[i])|
  {
    LaidStep(c, entries, nls, i);
  }

  lemma NextRecordFinds(c: Codec, text: string, end: nat, gap: nat, next: int, after: string, e: Entry)
    requires Decodes(c, e) && end <= |text| && gap <= 1 && next == end + gap + |c.enc(e)|
    requires text[end..] == (if gap == 1 then "\n" else "") + after && c.enc(e) <= after
    ensures end < next <= |text| && NextRecord(c, text, end) == Some((e, next))
  {
    assert after[0] == c.enc(e)[0];
    SpacesAfter(text[end..], gap, after);
    var rest := after[|c.enc(e)|..];
    assert after == c.enc(e) + rest;
    assert text[end + gap..] == after by {
      assert text[end + gap..] == text[end..][gap..];
    }
  }

  lemma NextRecordStops(c: Codec, text: string, end: nat, gap: nat, after: string)
    requires end <= |text| && gap <= 1
    requires text[end..] == (if gap == 1 then "\n" else "") + after
    requires c.dec(after) == None && (after != "" ==> !IsSpace(after[0]))
    ensures NextRecord(c, text, end) == None
  {
    SpacesAfter(text[end..], gap, after);
    assert text[end + gap..] == after by {
      assert text[end + gap..] == text[end..][gap..];
    }
  }

  lemma SpacesAfter(s: string, gap: nat, after: string)
    requires gap <= 1 && s == (if gap == 1 then "\n" else "") + after
    requires after != "" ==> !IsSpace(after[0])
    ensures Spaces(s) == gap
  {
  }

  /** The reader gets from one stop to the next. */
  predicate Hops(c: Codec, text: string, entries: seq<Entry>, stops: seq<nat>, i: nat)
    requires |stops| == |entries| + 1 && i < |entries|
  {
    stops[i] < stops[i + 1] <= |text| && NextRecord(c, text, stops[i]) == Some((entries[i], stops[i + 1]))
  }

  lemma {:induction false} ReadsHops(c: Codec, text: string, entries: seq<Entry>, stops: seq<nat>, i: nat)
    requires |stops| == |entries| + 1 && i <= |entries| && stops[i] <= |text| && stops[|entries|] <= |text|
    requires forall j :: i <= j < |entries| ==> Hops(c, text, entries, stops, j)
    requires NextRecord(c, text, stops[|entries|]) == None
    ensures ReadFrom(c, text, stops[i]) == (entries[i..], stops[|entries|])
    decreases |entries| - i
  {
    if i < |entries| {
      assert Hops(c, text, entries, stops, i);
      ReadsHops(c, text, entries, stops, i + 1);
      assert entries[i..] == [entries[i]] + entries[i + 1..];
    }
  }

  lemma ReadsAll(c: Codec, entries: seq<Entry>, nls: seq<bool>, frag: string)
    requires Sound(c) && |entries| == |nls| && Fragment(c, frag)
    ensures EndOf(c, entries, nls, |entries|) >= 0
    ensures ReadFrom(c, Laid(c, entries, nls) + frag, 0) == (entries, EndOf(c, entries, nls, |entries|))
  {
    var text, n := Laid(c, entries, nls) + frag, |entries|;
    forall i | 0 <= i <= n ensures 0 <= EndOf(c, entries, nls, i) <= |text| {
      EndInText(c, entries, nls, frag, i);
    }
    var stops: seq<nat> := seq(n + 1, i requires 0 <= i <= n => EndOf(c, entries, nls, i));
    forall i | 0 <= i < n ensures Hops(c, text, entries, stops, i) {
      assert Decodes(c, entries[i]);
      NextAt(c, entries, nls, frag, i);
    }
    StopsAtEnd(c, entries, nls, frag);
    ReadsHops(c, text, entries, stops, 0);
    assert entries[0..] == entries;
  }

  lemma EndBeforeNewline(c: Codec, entries: seq<Entry>, nls: seq<bool>)
    requires |entries| == |nls|
    ensures var laid, nl := Laid(c, entries, nls), entries != [] && nls[|nls| - 1];
      && EndOf(c, entries, nls, |entries|) == (if nl then |laid| - 1 else |laid|)
      && (nl ==> laid != "" && laid[|laid| - 1] == '\n')
  {
    assert entries[..|entries|] == entries && nls[..|nls|] == nls;
  }

  /** Reading a log back gives exactly its whole records, and trimming drops exactly the torn
      fragment. */
  lemma ReadsBack(c: Codec, entries: seq<Entry>, nls: seq<bool>, frag: string)
    requires Sound(c) && |entries| == |nls| && Fragment(c, frag)
    ensures EndOf(c, entries, nls, |entries|) >= 0
    ensures ReadFrom(c, Laid(c, entries, nls) + frag, 0) == (entries, EndOf(c, entries, nls, |entries|))
    ensures Trimmed(Laid(c, entries, nls) + frag, EndOf(c, entries, nls, |entries|)) == Ok(Laid(c, entries, nls))
  {
    ReadsAll(c, entries, nls, frag);
    FragmentFacts(c, frag);
    EndBeforeNewline(c, entries, nls);
    TrimsFragment(Laid(c, entries, nls), frag, entries != [] && nls[|nls| - 1]);
  }

  lemma TrimsFragment(laid: string, frag: string, nl: bool)
    requires nl ==> laid != "" && laid[|laid| - 1] == '\n'
    requires '\n' !in frag
    ensures Trimmed(laid + frag, if nl then |laid| - 1 else |laid|) == Ok(laid)
  {
    var text := laid + frag;
    assert text[..|laid|] == laid && text[|laid|..] == frag;
    assert frag == "" ==> text == laid;
    if nl {
      assert text[|laid| - 1] == '\n';
    } else if frag != "" {
      assert text[|laid|] == frag[0] && frag[0] in frag;
    }
  }

  // ---------------------------------------------------------------- runs

  /** A log on disk, and whether a process holds it open (and what it remembers). */
  datatype State = State(log: string, mark: Anchor, live: Option<Anchor>)

  datatype Event =
    | Append(content: Content, markWritable: bool)
    | Tear(content: Content, kept: nat)          // a crash keeping that much of the next write
    | Restart

  function TailOf(entries: seq<Entry>): Digest {
    if entries == [] then Genesis else entries[|entries| - 1].hash
  }

  /** What a log's own writes can leave on disk: whole chained records, at most one fragment
      behind them, and a mark that names some prefix. */
  ghost predicate Written(c: Codec, key: Key, s: State, entries: seq<Entry>, nls: seq<bool>, frag: string) {
    && |entries| == |nls| && Fragment(c, frag)
    && s.log == Laid(c, entries, nls) + frag
    && Chained(key, RecordsOf(entries))
    && s.mark.count <= |entries|
    && (s.mark.count > 0 ==> s.mark.hash == Some(entries[s.mark.count - 1].hash))
    && (s.mark.count == 0 ==> s.mark.hash == None)
    && (s.live.Some? ==> frag == "" && s.live.value == TailAnchor(RecordsOf(entries)))
  }

  ghost predicate IsWritten(c: Codec, key: Key, s: State) {
    exists entries, nls, frag :: Written(c, key, s, entries, nls, frag)
  }

  /** What opening leaves of a state, if it accepts it. */
  ghost predicate Reopens(c: Codec, key: Key, s: State, s': State) {
    && !OpenRefused(c, key, s.log, s.mark)
    && s'.live.Some?
    && exists entries, tail :: AcceptedOpen(c, key, s.log, s.mark, entries, s'.log, s'.mark, s'.live.value, tail)
                            && (entries == [] ==> s'.live == Some(Anchor(0, None)))
  }

  ghost predicate Next(c: Codec, key: Key, s: State, ev: Event, s': State) {
    match ev
    case Append(content, markWritable) =>
      s.live.Some? && exists e :: AppendLeaves(c, key, s, content, markWritable, e, s')
    case Tear(content, kept) =>
      s.live.Some? && exists e :: TearLeaves(c, key, s, content, kept, e, s')
    case Restart => Reopens(c, key, s.(live := None), s')
  }

  ghost predicate AppendLeaves(c: Codec, key: Key, s: State, content: Content, markWritable: bool, e: Entry, s': State)
    requires s.live.Some?
  {
    && e == NextEntry(key, s.live.value.count, if s.live.value.hash.Some? then s.live.value.hash.value else Genesis, content)
    && s' == State(s.log + Line(c, e), if markWritable then Anchor(s.live.value.count + 1, Some(e.hash)) else s.mark,
                   Some(Anchor(s.live.value.count + 1, Some(e.hash))))
  }

  ghost predicate TearLeaves(c: Codec, key: Key, s: State, content: Content, kept: nat, e: Entry, s': State)
    requires s.live.Some?
  {
    && e == NextEntry(key, s.live.value.count, if s.live.value.hash.Some? then s.live.value.hash.value else Genesis, content)
    && kept <= |Line(c, e)|
    && s' == State(s.log + Line(c, e)[..kept], s.mark, None)
  }

  lemma ExtendedEntries(key: Key, entries: seq<Entry>, content: Content) returns (e: Entry)
    requires Chained(key, RecordsOf(entries))
    ensures e == NextEntry(key, |entries|, TailOf(entries), content)
    ensures Chained(key, RecordsOf(entries + [e]))
  {
    e := NextEntry(key, |entries|, TailOf(entries), content);
    ExtendedChained(key, RecordsOf(entries), FieldsOf(e));
    assert RecordsOf(entries + [e]) == Extended(key, RecordsOf(entries), FieldsOf(e));
  }

  lemma LaidExtends(c: Codec, entries: seq<Entry>, nls: seq<bool>, e: Entry, nl: bool)
    requires |entries| == |nls|
    ensures Laid(c, entries + [e], nls + [nl]) == Laid(c, entries, nls) + c.enc(e) + (if nl then "\n" else "")
  {
  }

  lemma AppendEntries(c: Codec, key: Key, s: State, ev: Event, s': State, entries: seq<Entry>, nls: seq<bool>)
    returns (entries': seq<Entry>, nls': seq<bool>, frag': string)
    requires Sound(c) && Written(c, key, s, entries, nls, "") && s.live.Some? && ev.Append? && Next(c, key, s, ev, s')
    ensures Written(c, key, s', entries', nls', frag')
    ensures |entries'| == |entries| + 1 && entries'[..|entries|] == entries && entries'[|entries|].content == ev.content
  {
    var e := ExtendedEntries(key, entries, ev.content);
    LaidExtends(c, entries, nls, e, true);
    assert s'.log == Laid(c, entries + [e], nls + [true]) + "";
    entries', nls', frag' := entries + [e], nls + [true], "";
  }

  lemma TearEntries(c: Codec, key: Key, s: State, ev: Event, s': State, entries: seq<Entry>, nls: seq<bool>)
    returns (entries': seq<Entry>, nls': seq<bool>, frag': string)
    requires Sound(c) && Written(c, key, s, entries, nls, "") && s.live.Some? && ev.Tear? && Next(c, key, s, ev, s')
    ensures Written(c, key, s', entries', nls', frag')
    ensures entries' == entries
      || (|entries'| == |entries| + 1 && entries'[..|entries|] == entries && entries'[|entries|].content == ev.content)
  {
    var e := ExtendedEntries(key, entries, ev.content);
    var text := c.enc(e);
    TornLine(text, ev.kept);
    if ev.kept < |text| {
      entries', nls', frag' := entries, nls, text[..ev.kept];
      TornPart(c, key, s, s', entries, nls, e, ev.kept);
    } else {
      entries', nls', frag' := entries + [e], nls + [ev.kept > |text|], "";
      TornWhole(c, key, s, s', entries, nls, e, ev.kept);
    }
  }

  lemma TornPart(c: Codec, key: Key, s: State, s': State, entries: seq<Entry>, nls: seq<bool>, e: Entry, kept: nat)
    requires Sound(c) && Written(c, key, s, entries, nls, "") && kept < |c.enc(e)|
    requires s' == State(s.log + c.enc(e)[..kept], s.mark, None)
    ensures Written(c, key, s', entries, nls, c.enc(e)[..kept])
  {
    assert Laid(c, entries, nls) + "" == Laid(c, entries, nls);
    assert kept == 0 ==> c.enc(e)[..kept] == "";
  }

  lemma TornWhole(c: Codec, key: Key, s: State, s': State, entries: seq<Entry>, nls: seq<bool>, e: Entry, kept: nat)
    requires Written(c, key, s, entries, nls, "") && |c.enc(e)| <= kept && Chained(key, RecordsOf(entries + [e]))
    requires s' == State(s.log + (c.enc(e) + (if kept > |c.enc(e)| then "\n" else "")), s.mark, None)
    ensures Written(c, key, s', entries + [e], nls + [kept > |c.enc(e)|], "")
  {
    var nl := kept > |c.enc(e)|;
    LaidExtends(c, entries, nls, e, nl);
    assert s'.log == Laid(c, entries + [e], nls + [nl]) + "";
  }

  /** What stays of a line cut at some point. */
  lemma TornLine(text: string, kept: nat)
    requires kept <= |text| + 1
    ensures (text + "\n")[..kept] == if kept < |text| then text[..kept] else text + (if kept > |text| then "\n" else "")
  {
  }

  // ---------------------------------------------------------------- opening what was written

  lemma PrefixExtendsMark(c: Codec, key: Key, s: State, entries: seq<Entry>, nls: seq<bool>, frag: string)
    requires Written(c, key, s, entries, nls, frag) && s.mark.count > 0
    ensures ExtendsMark(key, s.mark, entries)
  {
    forall i | s.mark.count <= i < |entries| ensures ExtendsAt(key, s.mark, entries, i) {
      assert Linked(key, RecordsOf(entries), i);
    }
  }

  lemma ReadsWritten(c: Codec, key: Key, s: State, entries: seq<Entry>, nls: seq<bool>, frag: string)
    requires Sound(c) && Written(c, key, s, entries, nls, frag)
    ensures ReadFrom(c, s.log, 0).0 == entries && !Converts(key, s.mark, entries)
    ensures Trimmed(s.log, ReadFrom(c, s.log, 0).1) == Ok(Laid(c, entries, nls))
  {
    ReadsBack(c, entries, nls, frag);
    if entries != [] {
      LastVerifies(key, entries);
    }
  }

  lemma RefusedIffUnmarked(c: Codec, key: Key, log: string, mark: Anchor, entries: seq<Entry>)
    requires ReadFrom(c, log, 0).0 == entries && !Converts(key, mark, entries) && Trimmed(log, ReadFrom(c, log, 0).1).Ok?
    requires Chained(key, RecordsOf(entries)) && mark.count <= |entries|
    requires mark.count > 0 ==> ExtendsMark(key, mark, entries) && mark.hash == Some(entries[mark.count - 1].hash)
    ensures OpenRefused(c, key, log, mark) <==> entries != [] && mark.count == 0
  {
    if entries != [] {
      LastVerifies(key, entries);
    }
  }

  /** A log its own writes left is refused exactly when it holds records but its mark counts
      none. */
  lemma OpensWhatWasWritten(c: Codec, key: Key, s: State, entries: seq<Entry>, nls: seq<bool>, frag: string)
    requires Sound(c) && Written(c, key, s, entries, nls, frag)
    ensures ReadFrom(c, s.log, 0).0 == entries && !Converts(key, s.mark, entries)
    ensures OpenRefused(c, key, s.log, s.mark) <==> entries != [] && s.mark.count == 0
  {
    ReadsWritten(c, key, s, entries, nls, frag);
    if s.mark.count > 0 {
      PrefixExtendsMark(c, key, s, entries, nls, frag);
    }
    RefusedIffUnmarked(c, key, s.log, s.mark, entries);
  }

  lemma LastVerifies(key: Key, entries: seq<Entry>)
    requires entries != [] && Chained(key, RecordsOf(entries))
    ensures Verifies(key, RecordOf(entries[|entries| - 1])) && RecordOf(entries[|entries| - 1]).position == |entries|
  {
    assert Linked(key, RecordsOf(entries), |entries| - 1);
  }

  /** Otherwise every whole record is kept, only the fragment goes, and the store resumes at the
      log's own length and tail. */
  lemma AcceptedKeepsRecords(c: Codec, key: Key, s: State, entries: seq<Entry>, nls: seq<bool>, frag: string,
                             got: seq<Entry>, log': string, mark': Anchor, anchor: Anchor, tail: Digest)
    requires Sound(c) && Written(c, key, s, entries, nls, frag)
    requires AcceptedOpen(c, key, s.log, s.mark, got, log', mark', anchor, tail)
    ensures got == entries && log' == Laid(c, entries, nls)
    ensures anchor.count == |entries| && tail == TailOf(entries)
    ensures entries != [] ==> anchor == mark' == TailAnchor(RecordsOf(entries))
    ensures entries == [] ==> mark' == s.mark
  {
    ReadsWritten(c, key, s, entries, nls, frag);
  }

  /** What a restart that is accepted leaves of a written log. */
  lemma ReopenedLog(c: Codec, key: Key, s: State, s': State, entries: seq<Entry>, nls: seq<bool>, frag: string)
    requires Sound(c) && Written(c, key, s, entries, nls, frag) && Reopens(c, key, s, s')
    ensures s'.log == Laid(c, entries, nls) && s'.live.Some? && s'.live.value == TailAnchor(RecordsOf(entries))
    ensures s'.mark == if entries == [] then s.mark else TailAnchor(RecordsOf(entries))
  {
    var got, tail :| AcceptedOpen(c, key, s.log, s.mark, got, s'.log, s'.mark, s'.live.value, tail)
                  && (got == [] ==> s'.live == Some(Anchor(0, None)));
    AcceptedKeepsRecords(c, key, s, entries, nls, frag, got, s'.log, s'.mark, s'.live.value, tail);
  }

  lemma WholeIsWritten(c: Codec, key: Key, s: State, entries: seq<Entry>, nls: seq<bool>, mark: Anchor)
    requires |entries| == |nls| && Chained(key, RecordsOf(entries)) && s.log == Laid(c, entries, nls)
    requires s.live == Some(TailAnchor(RecordsOf(entries)))
    requires s.mark == if entries == [] then mark else TailAnchor(RecordsOf(entries))
    requires entries == [] ==> mark == Anchor(0, None)
    ensures Written(c, key, s, entries, nls, "")
  {
    assert s.log == Laid(c, entries, nls) + "";
  }

  lemma RestartKeepsWritten(c: Codec, key: Key, s: State, s': State, entries: seq<Entry>, nls: seq<bool>, frag: string)
    requires Sound(c) && Written(c, key, s, entries, nls, frag) && Reopens(c, key, s.(live := None), s')
    ensures Written(c, key, s', entries, nls, "")
  {
    var stopped := s.(live := None);
    assert Written(c, key, stopped, entries, nls, frag);
    ReopenedLog(c, key, stopped, s', entries, nls, frag);
    WholeIsWritten(c, key, s', entries, nls, s.mark);
  }

  lemma StepKeepsWritten(c: Codec, key: Key, s: State, ev: Event, s': State)
    requires Sound(c) && IsWritten(c, key, s) && Next(c, key, s, ev, s')
    ensures IsWritten(c, key, s')
  {
    var entries, nls, frag :| Written(c, key, s, entries, nls, frag);
    match ev
    case Append(_, _) =>
      var longer, ends, rest := AppendEntries(c, key, s, ev, s', entries, nls);
    case Tear(_, _) =>
      var longer, ends, rest := TearEntries(c, key, s, ev, s', entries, nls);
    case Restart => RestartKeepsWritten(c, key, s, s', entries, nls, frag);
  }

  const FRESH := State("", Anchor(0, None), Some(Anchor(0, None)))

  ghost predicate NextAtIndex(c: Codec, key: Key, states: seq<State>, events: seq<Event>, i: nat)
    requires |states| == |events| + 1 && i < |events|
  {
    Next(c, key, states[i], events[i], states[i + 1])
  }

  ghost predicate IsRun(c: Codec, key: Key, states: seq<State>, events: seq<Event>) {
    && |states| == |events| + 1 && states[0] == FRESH
    && forall i :: 0 <= i < |events| ==> NextAtIndex(c, key, states, events, i)
  }

  lemma {:induction false} AlwaysWritten(c: Codec, key: Key, states: seq<State>, events: seq<Event>, n: nat)
    requires Sound(c) && IsRun(c, key, states, events) && n < |states|
    ensures IsWritten(c, key, states[n])
    decreases n
  {
    if n == 0 {
      assert FRESH.log == Laid(c, [], []) + "";
      assert Written(c, key, FRESH, [], [], "");
    } else {
      var i := n - 1;
      AlwaysWritten(c, key, states, events, i);
      assert NextAtIndex(c, key, states, events, i);
      StepKeepsWritten(c, key, states[i], events[i], states[i + 1]);
    }
  }

  /** After any run of appends, torn writes and restarts, a restart is refused only when records
      landed and no mark ever did; otherwise it keeps every whole record. */
  lemma RestartAfterAnyRun(c: Codec, key: Key, states: seq<State>, events: seq<Event>, n: nat)
    requires Sound(c) && IsRun(c, key, states, events) && n < |states|
    ensures exists entries, nls, frag ::
      && Written(c, key, states[n], entries, nls, frag)
      && ReadFrom(c, states[n].log, 0).0 == entries
      && (OpenRefused(c, key, states[n].log, states[n].mark) <==> entries != [] && states[n].mark.count == 0)
  {
    AlwaysWritten(c, key, states, events, n);
    var entries, nls, frag :| Written(c, key, states[n], entries, nls, frag);
    OpensWhatWasWritten(c, key, states[n], entries, nls, frag);
  }

  /** While a process holds the log, it verifies from end to end against the live anchor. */
  lemma LiveLogVerifies(c: Codec, key: Key, states: seq<State>, events: seq<Event>, n: nat)
    requires Sound(c) && IsRun(c, key, states, events) && n < |states| && states[n].live.Some?
    ensures var (entries, end) := ReadFrom(c, states[n].log, 0);
      && Chained(key, RecordsOf(entries)) && AnchoredAt(RecordsOf(entries), states[n].live.value)
      && 0 <= end <= |states[n].log| && end + Spaces(states[n].log[end..]) == |states[n].log|
  {
    AlwaysWritten(c, key, states, events, n);
    var entries, nls, frag :| Written(c, key, states[n], entries, nls, frag);
    ReadsBack(c, entries, nls, "");
    var after := RestAt(c, entries, nls, "", |entries|);
    assert states[n].log == Laid(c, entries, nls) + "";
    SpacesAfter(states[n].log[EndOf(c, entries, nls, |entries|)..], if |entries| > 0 && nls[|entries| - 1] then 1 else 0, "");
  }

  // ---------------------------------------------------------------- what acceptance means

  /** Opening never accepts fewer records than the mark counts, accepts more only if they
      extend the marked digest one by one, and never changes what a record says. */
  lemma AcceptedLogFollowsMark(c: Codec, key: Key, log: string, mark: Anchor)
    requires !OpenRefused(c, key, log, mark)
    ensures var read := ReadFrom(c, log, 0).0;
            var entries := Adopted(key, mark, read);
      && |entries| == |read| >= mark.count
      && (forall i :: 0 <= i < |read| ==> FieldsOf(entries[i]) == FieldsOf(read[i]))
      && (entries != [] ==> mark.count > 0)
      && (Converts(key, mark, read) ==> LegacyChain(key, read) && Chained(key, RecordsOf(entries)))
      && (!Converts(key, mark, read) && read != [] ==>
            && ExtendsMark(key, mark, read)
            && Verifies(key, RecordOf(read[|read| - 1]))
            && (|read| == mark.count ==> mark.hash == Some(read[|read| - 1].hash)))
  {
    var read := ReadFrom(c, log, 0).0;
    RemintedRecords(key, read);
    if !Converts(key, mark, read) && |read| > mark.count > 0 {
      assert ExtendsAt(key, mark, read, |read| - 1);
    }
  }

  /** A refused open leaves the mark, and edits the log exactly when it could place the tail, found it not to be
      the record the mark names, and had a fragment to drop. */
  lemma RefusedOpenEditsIff(c: Codec, key: Key, log: string, mark: Anchor)
    requires OpenRefused(c, key, log, mark)
    ensures var (read, end) := ReadFrom(c, log, 0);
      RefusedLog(c, key, log, mark) != log
      <==> !TailRefused(key, mark, read) && TailForged(key, mark, read) && Trimmed(log, end).Ok? && Trimmed(log, end) != Ok(log)
  {
    var read := ReadFrom(c, log, 0).0;
    if Converts(key, mark, read) {
      RemintedRecords(key, read);
      LastVerifies(key, Reminted(key, read));
    }
  }

  /** Two logs that verify against one anchor hold the same records. */
  lemma VerifiedLogsEqual(key: Key, a: seq<Entry>, b: seq<Entry>, anchor: Anchor)
    requires Chained(key, RecordsOf(a)) && AnchoredAt(RecordsOf(a), anchor)
    requires Chained(key, RecordsOf(b)) && AnchoredAt(RecordsOf(b), anchor)
    ensures |a| == |b| && forall i :: 0 <= i < |a| ==> SameRecord(a[i], b[i])
  {
    AnchorNamesOneLog(key, RecordsOf(a), RecordsOf(b), anchor);
    forall i | 0 <= i < |a| ensures SameRecord(a[i], b[i]) {
      assert RecordsOf(a)[i] == RecordsOf(b)[i];
      SameFields(a[i], b[i]);
    }
  }

  /** Two entries that say the same, in the same place; a time may be written in another zone. */
  predicate SameRecord(a: Entry, b: Entry) {
    && a.index == b.index && a.prevHash == b.prevHash && a.hash == b.hash
    && a.content.time.utc == b.content.time.utc && a.content.action == b.content.action
    && a.content.userId == b.content.userId && a.content.deviceId == b.content.deviceId
    && a.content.ip == b.content.ip && a.content.details == b.content.details
  }

  lemma SameFields(a: Entry, b: Entry)
    requires RecordOf(a) == RecordOf(b)
    ensures SameRecord(a, b)
  {
    var f, g := FieldsOf(a), FieldsOf(b);
    assert |f| == 6 && f[0] == g[0] && f[1] == g[1] && f[2] == g[2] && f[3] == g[3] && f[4] == g[4] && f[5] == g[5];
  }

  /** A log in which any record says something else than in an intact one fails against the same anchor. */
  lemma EditedLogFails(c: Codec, key: Key, log: string, edited: string, anchor: Anchor, i: nat)
    requires Intact(c, key, log, anchor)
    requires var a, b := ReadFrom(c, log, 0).0, ReadFrom(c, edited, 0).0;
      |a| != |b| || (i < |a| && !SameRecord(a[i], b[i]))
    ensures !Intact(c, key, edited, anchor)
  {
    if Intact(c, key, edited, anchor) {
      VerifiedLogsEqual(key, ReadFrom(c, log, 0).0, ReadFrom(c, edited, 0).0, anchor);
    }
  }
}
