/** What the records of the audit log say: that an appended one says what was logged, that the log of any run holds
    what was logged in order, and that a conversion changes no word. */
module AuditLaws {
  import opened Outcomes
  import opened HistoryIds
  import opened AuditChain
  import opened AuditLog
  import opened AuditRuns

  /** An appended record holds the content given, next in line after the tail; its digest is taken of its position,
      the tail, and the six fields in the order the chain's format fixes. */
  lemma AppendedRecord(key: Key, count: nat, tail: Digest, content: Content)
    ensures var e := NextEntry(key, count, tail, content);
      && e.content == content && e.index == count && e.prevHash == tail
      && e.hash == Mac(key, count + 1, tail,
                       [content.time.utc, content.action, content.userId, content.deviceId, content.ip, content.details])
      && Verifies(key, RecordOf(e))
  {
  }

  /** Two digests are equal only for the same key, place and words: so no other record can stand in this one's place. */
  lemma AppendedRecordIsUnique(key: Key, count: nat, tail: Digest, content: Content, other: Entry)
    requires Verifies(key, RecordOf(other)) && other.hash == NextEntry(key, count, tail, content).hash
    ensures SameRecord(other, NextEntry(key, count, tail, content))
  {
    var e := NextEntry(key, count, tail, content);
    assert RecordOf(other).fields == RecordOf(e).fields;
    SameFields(other, e);
  }

  // ---------------------------------------------------------------- what a run's log says

  /** The contents are those logged, in order: every append's, and of the writes a crash tore, those that landed whole. */
  ghost predicate Logged(events: seq<Event>, contents: seq<Content>) {
    if events == [] then contents == []
    else
      var n, ev := |events| - 1, events[|events| - 1];
      match ev
      case Append(content, _) => contents != [] && contents[|contents| - 1] == content && Logged(events[..n], contents[..|contents| - 1])
      case Tear(content, _) =>
        || Logged(events[..n], contents)
        || (contents != [] && contents[|contents| - 1] == content && Logged(events[..n], contents[..|contents| - 1]))
      case Restart => Logged(events[..n], contents)
  }

  function ContentsOf(entries: seq<Entry>): (t: seq<Content>)
    ensures |t| == |entries| && forall i :: 0 <= i < |t| ==> t[i] == entries[i].content
  {
    seq(|entries|, i requires 0 <= i < |entries| => entries[i].content)
  }

  /** What a step of a run does to the records of its log. */
  lemma EntriesStep(c: Codec, key: Key, s: State, ev: Event, s': State, entries: seq<Entry>, nls: seq<bool>, frag: string)
    returns (entries': seq<Entry>, nls': seq<bool>, frag': string)
    requires Sound(c) && Written(c, key, s, entries, nls, frag) && Next(c, key, s, ev, s')
    ensures Written(c, key, s', entries', nls', frag')
    ensures entries' == entries || (|entries'| == |entries| + 1 && entries'[..|entries|] == entries)
    ensures match ev
            case Append(content, _) => entries' != entries && entries'[|entries|].content == content
            case Tear(content, _) => entries' != entries ==> entries'[|entries|].content == content
            case Restart => entries' == entries
  {
    match ev
    case Append(content, _) =>
      entries', nls', frag' := AppendEntries(c, key, s, ev, s', entries, nls);
    case Tear(content, _) =>
      entries', nls', frag' := TearEntries(c, key, s, ev, s', entries, nls);
    case Restart =>
      RestartKeepsWritten(c, key, s, s', entries, nls, frag);
      entries', nls', frag' := entries, nls, "";
  }

  lemma LoggedStep(events: seq<Event>, entries: seq<Entry>, entries': seq<Entry>)
    requires events != [] && Logged(events[..|events| - 1], ContentsOf(entries))
    requires entries' == entries || (|entries'| == |entries| + 1 && entries'[..|entries|] == entries)
    requires match events[|events| - 1]
             case Append(content, _) => entries' != entries && entries'[|entries|].content == content
             case Tear(content, _) => entries' != entries ==> entries'[|entries|].content == content
             case Restart => entries' == entries
    ensures Logged(events, ContentsOf(entries'))
  {
    if entries' != entries {
      assert ContentsOf(entries')[..|entries|] == ContentsOf(entries);
    }
  }

  lemma {:induction false} RunLogged(c: Codec, key: Key, states: seq<State>, events: seq<Event>, n: nat)
    returns (entries: seq<Entry>, nls: seq<bool>, frag: string)
    requires Sound(c) && IsRun(c, key, states, events) && n < |states|
    ensures Written(c, key, states[n], entries, nls, frag) && Logged(events[..n], ContentsOf(entries))
    decreases n
  {
    if n == 0 {
      entries, nls, frag := [], [], "";
      FreshWritten(c, key);
    } else {
      var i := n - 1;
      var before, ends, rest := RunLogged(c, key, states, events, i);
      assert NextAtIndex(c, key, states, events, i);
      assert events[..n][..i] == events[..i] && events[..n][i] == events[i];
      entries, nls, frag := NextLogged(c, key, states[i], events[..n], states[n], before, ends, rest);
    }
  }

  lemma NextLogged(c: Codec, key: Key, s: State, events: seq<Event>, s': State, before: seq<Entry>, ends: seq<bool>, rest: string)
    returns (entries: seq<Entry>, nls: seq<bool>, frag: string)
    requires Sound(c) && Written(c, key, s, before, ends, rest) && events != [] && Next(c, key, s, events[|events| - 1], s')
    requires Logged(events[..|events| - 1], ContentsOf(before))
    ensures Written(c, key, s', entries, nls, frag) && Logged(events, ContentsOf(entries))
  {
    entries, nls, frag := EntriesStep(c, key, s, events[|events| - 1], s', before, ends, rest);
    LoggedStep(events, before, entries);
  }

  lemma FreshWritten(c: Codec, key: Key)
    ensures Written(c, key, FRESH, [], [], "")
  {
    assert FRESH.log == Laid(c, [], []) + "";
  }

  /** Over every run of appends, torn writes and restarts: reading the log gives what was logged, word for word and in
      order, less the writes a crash tore. */
  lemma LogSaysWhatWasLogged(c: Codec, key: Key, states: seq<State>, events: seq<Event>, n: nat)
    requires Sound(c) && IsRun(c, key, states, events) && n < |states|
    ensures Logged(events[..n], ContentsOf(ReadFrom(c, states[n].log, 0).0))
  {
    var entries, nls, frag := RunLogged(c, key, states, events, n);
    ReadsBack(c, entries, nls, frag);
  }

  // ---------------------------------------------------------------- the earlier format

  /** When a log is converted: it holds records, its last one is not of the shared format, the mark names its length
      and last digest, and each record carries the earlier digest of its line, numbered and linked from the first. */
  lemma ConvertsIff(key: Key, mark: Anchor, entries: seq<Entry>)
    ensures Converts(key, mark, entries) <==>
      && entries != [] && mark.count == |entries| && mark.hash == Some(entries[|entries| - 1].hash)
      && !Verifies(key, RecordOf(entries[|entries| - 1]))
      && forall i :: 0 <= i < |entries| ==>
           && entries[i].index == i && entries[i].prevHash == (if i == 0 then Genesis else entries[i - 1].hash)
           && entries[i].hash == Legacy(key, LegacyLine(entries[i]), entries[i].prevHash)
  {
    if Converts(key, mark, entries) {
      forall i | 0 <= i < |entries|
        ensures entries[i].index == i && entries[i].prevHash == (if i == 0 then Genesis else entries[i - 1].hash)
             && entries[i].hash == Legacy(key, LegacyLine(entries[i]), entries[i].prevHash)
      {
        assert LegacyLinked(key, entries, i);
      }
    }
  }

  /** A conversion changes no word: only numbers and digests. */
  lemma ConversionKeepsWords(key: Key, entries: seq<Entry>, i: nat)
    requires i < |entries|
    ensures var r := Reminted(key, entries);
      |r| == |entries| && r[i].content == entries[i].content && r[i].index == i
      && r[i].prevHash == if i == 0 then Genesis else r[i - 1].hash
  {
    RemintedRecords(key, entries);
    var r := Reminted(key, entries);
    assert Linked(key, RecordsOf(r), i);
  }

  predicate NoBar(s: string) {
    forall i :: 0 <= i < |s| ==> s[i] != '|'
  }

  predicate Unbarred(c: Content) {
    NoBar(c.time.written) && NoBar(c.action) && NoBar(c.userId) && NoBar(c.deviceId) && NoBar(c.ip) && NoBar(c.details)
  }

  lemma CutSame(a: string, x: string, b: string, y: string)
    requires NoBar(a) && NoBar(b) && a + "|" + x == b + "|" + y
    ensures a == b && x == y
  {
    CutAfter(a, "|", x);
    CutAfter(b, "|", y);
    var s, t := a + "|" + x, b + "|" + y;
    assert s[..|a|] == a && t[..|b|] == b;
    assert s[|a| + 1..] == x && t[|b| + 1..] == y;
  }

  /** The line of the earlier digest, cut at its bars. */
  function Cut(e: Entry): string {
    e.content.userId + "|" + (e.content.deviceId + "|" + (e.content.ip + "|" + (e.content.details + "|" + "")))
  }

  lemma LineCut(e: Entry)
    ensures LegacyLine(e) == Decimal(e.index) + "|" + (e.content.time.written + "|" + (e.content.action + "|" + Cut(e)))
  {
  }

  lemma DecimalUnbarred(n: int)
    ensures NoBar(Decimal(n))
  {
    if n < 0 {
      assert Decimal(n) == "-" + Digits(-n);
    }
  }

  lemma CutTells(e: Entry, f: Entry)
    requires Unbarred(e.content) && Unbarred(f.content) && Cut(e) == Cut(f)
    ensures e.content.userId == f.content.userId && e.content.deviceId == f.content.deviceId
         && e.content.ip == f.content.ip && e.content.details == f.content.details
  {
    var d, g := e.content.details + "|" + "", f.content.details + "|" + "";
    CutSame(e.content.userId, e.content.deviceId + "|" + (e.content.ip + "|" + d),
            f.content.userId, f.content.deviceId + "|" + (f.content.ip + "|" + g));
    CutSame(e.content.deviceId, e.content.ip + "|" + d, f.content.deviceId, f.content.ip + "|" + g);
    CutSame(e.content.ip, d, f.content.ip, g);
    CutSame(e.content.details, "", f.content.details, "");
  }

  /** The earlier digest covers every word of a record, as long as none holds the bar its line is joined with. */
  lemma LegacyLineTells(e: Entry, f: Entry)
    requires Unbarred(e.content) && Unbarred(f.content) && LegacyLine(e) == LegacyLine(f)
    ensures Decimal(e.index) == Decimal(f.index) && e.content.time.written == f.content.time.written
    ensures e.content.action == f.content.action && e.content.userId == f.content.userId && e.content.deviceId == f.content.deviceId
         && e.content.ip == f.content.ip && e.content.details == f.content.details
  {
    LineCut(e);
    LineCut(f);
    DecimalUnbarred(e.index);
    DecimalUnbarred(f.index);
    CutSame(Decimal(e.index), e.content.time.written + "|" + (e.content.action + "|" + Cut(e)),
            Decimal(f.index), f.content.time.written + "|" + (f.content.action + "|" + Cut(f)));
    CutSame(e.content.time.written, e.content.action + "|" + Cut(e), f.content.time.written, f.content.action + "|" + Cut(f));
    CutSame(e.content.action, Cut(e), f.content.action, Cut(f));
    CutTells(e, f);
  }

  /** With a bar, two records that say different things can share a line, and so a digest: here a bar moves
      from the address to the details. */
  lemma LegacyLineMixes(index: int, time: Stamp)
    ensures var a := Entry(index, Content(time, "x", "u", "d", "1|2", ""), Genesis, Genesis);
      var b := Entry(index, Content(time, "x", "u", "d", "1", "2|"), Genesis, Genesis);
      a.content != b.content && LegacyLine(a) == LegacyLine(b)
  {
    var a := Entry(index, Content(time, "x", "u", "d", "1|2", ""), Genesis, Genesis);
    var b := Entry(index, Content(time, "x", "u", "d", "1", "2|"), Genesis, Genesis);
    assert a.content.ip[1] != 'x';
    assert |a.content.ip| != |b.content.ip|;
    LineCut(a);
    LineCut(b);
    assert Cut(a) == "u|d|1|2||" && Cut(b) == "u|d|1|2||";
  }

  // ---------------------------------------------------------------- dropping a fragment

  /** What is dropped behind the last record is unterminated: a newline in it, past the one that ends the record,
      refuses the log, since records may follow. */
  lemma TrimmedIff(text: string, end: nat)
    requires end <= |text|
    ensures var clean := if end < |text| && text[end] == '\n' then end + 1 else end;
      Trimmed(text, end) == if exists i :: clean <= i < |text| && text[i] == '\n' then Err(CorruptLog) else Ok(text[..clean])
  {
    var clean := if end < |text| && text[end] == '\n' then end + 1 else end;
    if i :| clean <= i < |text| && text[i] == '\n' {
      assert text[clean..][i - clean] == '\n';
    }
    if '\n' in text[clean..] {
      var j :| 0 <= j < |text[clean..]| && text[clean..][j] == '\n';
      assert text[clean + j] == '\n';
    }
    assert text[..|text|] == text;
  }

  /** Between records the reader passes over the white space of section 2 of RFC 8259, and stops at anything else. */
  lemma {:induction false} SpacesAre(s: string)
    ensures forall i :: 0 <= i < Spaces(s) ==> (s[i] as int) in {0x20, 0x09, 0x0A, 0x0D}
    ensures Spaces(s) < |s| ==> (s[Spaces(s)] as int) !in {0x20, 0x09, 0x0A, 0x0D}
  {
    if s != "" && IsSpace(s[0]) {
      SpacesAre(s[1..]);
    }
  }

  // ---------------------------------------------------------------- past the mark

  /** Records past the mark are taken exactly when each is numbered by its place, carries its own digest, and follows
      the one before it: the first of them, the digest the mark names. */
  lemma ExtendsIff(key: Key, mark: Anchor, entries: seq<Entry>)
    ensures ExtendsMark(key, mark, entries)
       <==> mark.count <= |entries| && forall i :: mark.count <= i < |entries| ==> FollowsOn(key, mark, entries, i)
  {
    forall i | mark.count <= i < |entries| ensures ExtendsAt(key, mark, entries, i) <==> FollowsOn(key, mark, entries, i) {
    }
    if mark.count <= |entries| && forall i :: mark.count <= i < |entries| ==> FollowsOn(key, mark, entries, i) {
      forall i | mark.count <= i < |entries| ensures ExtendsAt(key, mark, entries, i) {
        assert FollowsOn(key, mark, entries, i);
      }
    }
  }

  predicate FollowsOn(key: Key, mark: Anchor, entries: seq<Entry>, i: nat)
    requires i < |entries|
  {
    var e := entries[i];
    && e.index == i && e.hash == Mac(key, i + 1, e.prevHash, FieldsOf(e))
    && Some(e.prevHash) == if i == mark.count || i == 0 then mark.hash else Some(entries[i - 1].hash)
  }

  /** So if the marked records are a chain that ends at the mark, an accepted log is one chain from end to end. */
  lemma AcceptedIsChained(key: Key, mark: Anchor, entries: seq<Entry>)
    requires 0 < mark.count <= |entries| && ExtendsMark(key, mark, entries)
    requires Chained(key, RecordsOf(entries[..mark.count])) && mark.hash == Some(entries[mark.count - 1].hash)
    ensures Chained(key, RecordsOf(entries))
  {
    var records, front := RecordsOf(entries), RecordsOf(entries[..mark.count]);
    forall i | 0 <= i < |records| ensures Linked(key, records, i) {
      if i < mark.count {
        assert Linked(key, front, i);
        assert front[i] == records[i] && (i > 0 ==> front[i - 1] == records[i - 1]);
      } else {
        assert ExtendsAt(key, mark, entries, i);
        assert records[i - 1].hash == entries[i - 1].hash;
      }
    }
  }

  /** A log of the shared format is opened exactly when what stands behind its last record may be dropped, and either
      it and its mark are both empty, or its mark names one of its records and the later ones extend that; the last
      record, if it is the one marked, must be numbered so, carry its own digest and be the one the mark names. */
  lemma OpenedIff(c: Codec, key: Key, log: string, mark: Anchor)
    requires !Converts(key, mark, ReadFrom(c, log, 0).0)
    ensures var (read, end) := ReadFrom(c, log, 0);
      !OpenRefused(c, key, log, mark) <==>
        && Trimmed(log, end).Ok?
        && if mark.count == 0 then read == []
           else
             && mark.count <= |read| && ExtendsMark(key, mark, read)
             && (mark.count == |read| ==>
                   var last := read[|read| - 1];
                   last.index == mark.count - 1 && Verifies(key, RecordOf(last)) && mark.hash == Some(last.hash))
  {
  }

  /** One of the earlier format that its mark attests is always opened, and what it is rewritten to reads back as its
      own records, renumbered and with new digests. */
  lemma ConvertedOpens(c: Codec, key: Key, log: string, mark: Anchor)
    requires Sound(c) && Converts(key, mark, ReadFrom(c, log, 0).0)
    ensures !OpenRefused(c, key, log, mark)
    ensures var converted := Reminted(key, ReadFrom(c, log, 0).0);
      ReadFrom(c, Lines(c, converted), 0).0 == converted && Chained(key, RecordsOf(converted))
  {
    var read := ReadFrom(c, log, 0).0;
    RemintedRecords(key, read);
    LastVerifies(key, Reminted(key, read));
    LinesReadBack(c, Reminted(key, read));
    assert ExtendsMark(key, AdoptedMark(key, mark, read), Reminted(key, read));
  }

  lemma LinesReadBack(c: Codec, entries: seq<Entry>)
    requires Sound(c)
    ensures ReadFrom(c, Lines(c, entries), 0).0 == entries
  {
    LinesAreLaid(c, entries);
    ReadsBack(c, entries, seq(|entries|, _ => true), "");
    assert Lines(c, entries) + "" == Lines(c, entries);
  }

  lemma {:induction false} LinesAreLaid(c: Codec, entries: seq<Entry>)
    ensures Lines(c, entries) == Laid(c, entries, seq(|entries|, _ => true))
  {
    if entries != [] {
      var n := |entries| - 1;
      LinesAreLaid(c, entries[..n]);
      assert seq(|entries|, _ => true)[..n] == seq(n, _ => true);
    }
  }

  /** A log with nothing in it is intact against the mark that counts nothing, and against none that counts a record. */
  lemma EmptyIntact(c: Codec, key: Key, anchor: Anchor)
    requires Sound(c)
    ensures Intact(c, key, "", anchor) <==> anchor.count == 0 && anchor.hash in {None, Some(Genesis)}
  {
    ReadsBack(c, [], [], "");
    assert Laid(c, [], []) + "" == "";
  }
}
