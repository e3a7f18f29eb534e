/** The audit log: an append-only file of records, and a mark kept elsewhere that counts them.

    A record's text comes from a codec (in the server, JSON), of which only this is used: a
    record decodes off the front of any text that starts with it, no proper part of it does,
    and it holds no newline and starts with no white space. */
module AuditLog {
  import opened Outcomes
  import opened AuditChain
  import opened HistoryIds

  /** A time as written, and as the chain authenticates it. */
  datatype Stamp = Stamp(written: string, utc: string)

  datatype Content = Content(time: Stamp, action: string, userId: string, deviceId: string, ip: string, details: string)

  datatype Entry = Entry(index: int, content: Content, prevHash: Digest, hash: Digest)

  datatype Codec = Codec(enc: Entry -> string, dec: string -> Option<(Entry, nat)>)

  datatype Error = Truncated | BrokenChain | BadRecord | CorruptLog

  predicate IsSpace(c: char) {
    c == ' ' || c == '\t' || c == '\r' || c == '\n'
  }

  ghost predicate PlainText(s: string) {
    s != "" && !IsSpace(s[0]) && '\n' !in s
  }

  ghost predicate Sound(c: Codec) {
    && (forall e :: PlainText(c.enc(e)))
    && (forall e, rest :: c.dec(c.enc(e) + rest) == Some((e, |c.enc(e)|)))
    && (forall e, k :: 0 <= k < |c.enc(e)| ==> c.dec(c.enc(e)[..k]) == None)
  }

  function FieldsOf(e: Entry): seq<string> {
    [e.content.time.utc, e.content.action, e.content.userId, e.content.deviceId, e.content.ip, e.content.details]
  }

  function RecordOf(e: Entry): Record {
    Record(e.index + 1, e.prevHash, e.hash, FieldsOf(e))
  }

  function RecordsOf(entries: seq<Entry>): (r: seq<Record>)
    ensures |r| == |entries| && forall i :: 0 <= i < |r| ==> r[i] == RecordOf(entries[i])
  {
    seq(|entries|, i requires 0 <= i < |entries| => RecordOf(entries[i]))
  }

  // ---------------------------------------------------------------- reading

  function Spaces(s: string): (n: nat)
    ensures n <= |s| && (n < |s| ==> !IsSpace(s[n]))
  {
    if s != "" && IsSpace(s[0]) then 1 + Spaces(s[1..]) else 0
  }

  /** The next record at or after end, and where it stops. */
  function NextRecord(c: Codec, text: string, end: nat): Option<(Entry, nat)>
    requires end <= |text|
  {
    var start := end + Spaces(text[end..]);
    match c.dec(text[start..])
    case None => None
    case Some((e, n)) => if 0 < n <= |text| - start then Some((e, start + n)) else None
  }

  /** Every record from end on, and the offset just past the last. */
  function ReadFrom(c: Codec, text: string, end: nat): (seq<Entry>, nat)
    requires end <= |text|
    decreases |text| - end
  {
    match NextRecord(c, text, end)
    case None => ([], end)
    case Some((e, next)) =>
      if next <= end || next > |text| then ([], end)
      else
        var (rest, last) := ReadFrom(c, text, next);
        ([e] + rest, last)
  }

  /** The text with an unterminated fragment dropped, or a refusal when records may follow. */
  function Trimmed(text: string, end: nat): Result<string, Error> {
    if |text| <= end then Ok(text)
    else
      var clean := if text[end] == '\n' then end + 1 else end;
      if |text| == clean then Ok(text)
      else if '\n' in text[clean..] then Err(CorruptLog)
      else Ok(text[..clean])
  }

  // ---------------------------------------------------------------- placing the tail

  /** Where the record at i must follow from, walking past the mark. */
  function FollowsFrom(mark: Anchor, entries: seq<Entry>, i: nat): Option<Digest>
    requires mark.count <= i <= |entries|
  {
    if i == mark.count then mark.hash else Some(entries[i - 1].hash)
  }

  predicate ExtendsAt(key: Key, mark: Anchor, entries: seq<Entry>, i: nat)
    requires mark.count <= i < |entries|
  {
    && RecordOf(entries[i]).position == i + 1
    && Verifies(key, RecordOf(entries[i]))
    && Some(entries[i].prevHash) == FollowsFrom(mark, entries, i)
  }

  /** The records past the mark extend the marked digest one by one. */
  ghost predicate ExtendsMark(key: Key, mark: Anchor, entries: seq<Entry>) {
    mark.count <= |entries| && forall i :: mark.count <= i < |entries| ==> ExtendsAt(key, mark, entries, i)
  }

  function LegacyLine(e: Entry): string {
    Decimal(e.index) + "|" + e.content.time.written + "|" + e.content.action + "|" + e.content.userId + "|"
    + e.content.deviceId + "|" + e.content.ip + "|" + e.content.details + "|"
  }

  predicate LegacyLinked(key: Key, entries: seq<Entry>, i: nat)
    requires i < |entries|
  {
    && entries[i].index == i
    && entries[i].prevHash == (if i == 0 then Genesis else entries[i - 1].hash)
    && entries[i].hash == Legacy(key, LegacyLine(entries[i]), entries[i].prevHash)
  }

  ghost predicate LegacyChain(key: Key, entries: seq<Entry>) {
    forall i :: 0 <= i < |entries| ==> LegacyLinked(key, entries, i)
  }

  /** Whether opening converts the log: not already in the shared format, attested exactly by
      the mark, and sound in the earlier format. */
  ghost predicate Converts(key: Key, mark: Anchor, entries: seq<Entry>) {
    && entries != []
    && !Verifies(key, RecordOf(entries[|entries| - 1]))
    && mark == Anchor(|entries|, Some(entries[|entries| - 1].hash))
    && LegacyChain(key, entries)
  }

  function Contents(entries: seq<Entry>): (t: seq<seq<string>>)
    ensures |t| == |entries| && forall i :: 0 <= i < |t| ==> t[i] == FieldsOf(entries[i])
  {
    seq(|entries|, i requires 0 <= i < |entries| => FieldsOf(entries[i]))
  }

  function Reminted(key: Key, entries: seq<Entry>): (r: seq<Entry>)
    ensures |r| == |entries|
  {
    var records := Replay(key, Contents(entries));
    seq(|entries|, i requires 0 <= i < |entries| =>
      entries[i].(index := records[i].position - 1, prevHash := records[i].prev, hash := records[i].hash))
  }

  function Line(c: Codec, e: Entry): string {
    c.enc(e) + "\n"
  }

  function Lines(c: Codec, entries: seq<Entry>): string {
    if entries == [] then "" else Lines(c, entries[..|entries| - 1]) + Line(c, entries[|entries| - 1])
  }

  // ---------------------------------------------------------------- the store

  /** How an append ends: written and flushed, failed and cut back, or written and not flushed. */
  datatype Landing = Whole | CutBack | Unflushed

  class Store {
    const codec: Codec
    const key: Key
    // on disk
    var log: string
    var mark: Anchor
    // in memory: what the chain and the anchor were last advanced to
    var anchor: Anchor
    var tail: Digest

    constructor (codec: Codec, key: Key, log: string, mark: Anchor)
      ensures this.codec == codec && this.key == key && this.log == log && this.mark == mark
    {
      this.codec, this.key, this.log, this.mark := codec, key, log, mark;
      this.anchor, this.tail := Anchor(0, None), Genesis;
    }

    method ReadAll() returns (entries: seq<Entry>, end: nat)
      ensures (entries, end) == ReadFrom(codec, log, 0)
      ensures end <= |log|
    {
      entries, end := [], 0;
      ghost var all := ReadFrom(codec, log, 0);
      while true
        invariant end <= |log|
        invariant all.0 == entries + ReadFrom(codec, log, end).0 && all.1 == ReadFrom(codec, log, end).1
        decreases |log| - end
      {
        var next := NextRecord(codec, log, end);
        if next == None {
          break;
        }
        var (e, stop) := next.value;
        if stop <= end || stop > |log| {
          break;
        }
        assert ReadFrom(codec, log, end).0 == [e] + ReadFrom(codec, log, stop).0;
        entries := entries + [e];
        end := stop;
      }
      assert entries + [] == entries;
    }

    /** The first record past the mark that does not extend it, and what is wrong with it. */
    ghost predicate FailsFirst(entries: seq<Entry>, error: Error)
      requires anchor.count <= |entries|
      reads this
    {
      exists i: nat :: anchor.count <= i < |entries| && !ExtendsAt(key, anchor, entries, i)
        && (forall j :: anchor.count <= j < i ==> ExtendsAt(key, anchor, entries, j))
        && error == if entries[i].index == i && !Verifies(key, RecordOf(entries[i])) then BadRecord else BrokenChain
    }

    /** The anchor to resume against, or a refusal. */
    method PlaceTail(entries: seq<Entry>) returns (r: Result<Anchor, Error>)
      ensures r.Ok? <==> (entries == [] && anchor.count == 0) || (anchor.count > 0 && ExtendsMark(key, anchor, entries))
      ensures r.Ok? && entries == [] ==> r.value == Anchor(0, None)
      ensures r.Ok? && entries != [] && |entries| == anchor.count ==> r.value == anchor
      ensures r.Ok? && |entries| > anchor.count ==> r.value == Anchor(|entries|, Some(entries[|entries| - 1].hash))
      ensures |entries| < anchor.count ==> r == Err(Truncated)
      ensures r.Err? && anchor.count == 0 ==> r == Err(BrokenChain)
      ensures r.Err? && 0 < anchor.count <= |entries| ==> FailsFirst(entries, r.error)
    {
      if |entries| < anchor.count {
        return Err(Truncated);
      }
      if |entries| == 0 {
        return Ok(Anchor(0, None));
      }
      if anchor.count == 0 {
        return Err(BrokenChain);
      }
      if |entries| == anchor.count {
        return Ok(anchor);
      }
      var prev := anchor.hash;
      for i := anchor.count to |entries|
        invariant prev == FollowsFrom(anchor, entries, i)
        invariant forall j :: anchor.count <= j < i ==> ExtendsAt(key, anchor, entries, j)
      {
        var rec := RecordOf(entries[i]);
        if rec.position != i + 1 {
          assert !ExtendsAt(key, anchor, entries, i);
          return Err(BrokenChain);
        }
        if !Verifies(key, rec) {
          assert !ExtendsAt(key, anchor, entries, i);
          return Err(BadRecord);
        }
        if Some(rec.prev) != prev {
          assert !ExtendsAt(key, anchor, entries, i);
          return Err(BrokenChain);
        }
        prev := Some(rec.hash);
      }
      return Ok(Anchor(|entries|, Some(entries[|entries| - 1].hash)));
    }

    method LegacyChainVerifies(entries: seq<Entry>) returns (ok: bool)
      ensures ok <==> LegacyChain(key, entries)
    {
      var prev := Genesis;
      for i := 0 to |entries|
        invariant prev == if i == 0 then Genesis else entries[i - 1].hash
        invariant forall j :: 0 <= j < i ==> LegacyLinked(key, entries, j)
      {
        var e := entries[i];
        if e.index != i || e.prevHash != prev || e.hash != Legacy(key, LegacyLine(e), e.prevHash) {
          assert !LegacyLinked(key, entries, i);
          return false;
        }
        prev := e.hash;
      }
      return true;
    }

    /** Rewrites a log of the earlier format onto the shared digests, if the mark attests to it. */
    method Converge(entries: seq<Entry>) returns (converted: seq<Entry>, rewrote: bool)
      modifies this`log, this`mark, this`anchor
      ensures rewrote <==> Converts(key, old(anchor), entries)
      ensures !rewrote ==> converted == entries && log == old(log) && mark == old(mark) && anchor == old(anchor)
      ensures rewrote ==> converted == Reminted(key, entries) && log == Lines(codec, converted)
      ensures rewrote ==> mark == anchor == TailAnchor(Replay(key, Contents(entries)))
    {
      if |entries| == 0 || Verifies(key, RecordOf(entries[|entries| - 1])) {
        return entries, false;
      }
      if anchor != Anchor(|entries|, Some(entries[|entries| - 1].hash)) {
        return entries, false;
      }
      var legacy := LegacyChainVerifies(entries);
      if !legacy {
        return entries, false;
      }
      converted := Reminted(key, entries);
      var text := "";
      for i := 0 to |converted|
        invariant text == Lines(codec, converted[..i])
      {
        assert converted[..i + 1][..i] == converted[..i];
        text := text + Line(codec, converted[i]);
      }
      assert converted[..|converted|] == converted;
      log := text;
      anchor := TailAnchor(Replay(key, Contents(entries)));
      mark := anchor;
      rewrote := true;
    }

    method TrimTornTail(end: nat) returns (r: Option<Error>)
      modifies this`log
      ensures r == None ==> Trimmed(old(log), end) == Ok(log)
      ensures r.Some? ==> Trimmed(old(log), end) == Err(r.value) && log == old(log)
    {
      if |log| <= end {
        return None;
      }
      var clean := end;
      if log[end] == '\n' {
        clean := clean + 1;
      }
      if |log| == clean {
        return None;
      }
      if '\n' in log[clean..] {
        return Some(CorruptLog);
      }
      log := log[..clean];
      return None;
    }

    /** Opens the log on disk; entries is what it then holds. */
    method Open() returns (r: Option<Error>, entries: seq<Entry>)
      modifies this
      ensures r == None ==> AcceptedOpen(codec, key, old(log), old(mark), entries, log, mark, anchor, tail)
      ensures OpenRefused(codec, key, old(log), old(mark)) <==> r.Some?
      ensures r.Some? ==> mark == old(mark) && log == RefusedLog(codec, key, old(log), old(mark))
    {
      anchor := mark;
      var read, end := ReadAll();
      var rewrote;
      entries, rewrote := Converge(read);
      ghost var minted := Replay(key, Contents(read));
      if rewrote {
        RemintedRecords(key, read);
      }
      var placed := PlaceTail(entries);
      if placed.Err? {
        return Some(placed.error), entries;
      }
      if !rewrote {
        var torn := TrimTornTail(end);
        if torn.Some? {
          return torn, entries;
        }
      }
      assert |entries| > anchor.count ==> ExtendsAt(key, anchor, entries, |entries| - 1);
      r := ResumeAt(entries, placed.value);
    }

    predicate Names(resume: Anchor, last: Record) {
      Verifies(key, last) && last.position == resume.count && Some(last.hash) == resume.hash
    }

    /** Resumes the chain at the last record, if it is the one the anchor names. */
    method ResumeAt(entries: seq<Entry>, resume: Anchor) returns (r: Option<Error>)
      modifies this`anchor, this`mark, this`tail
      ensures r.Some? <==> entries != [] && !Names(resume, RecordOf(entries[|entries| - 1]))
      ensures r == None && entries == [] ==> tail == Genesis && anchor == old(anchor) && mark == old(mark)
      ensures r == None && entries != [] ==>
        && tail == entries[|entries| - 1].hash && anchor == resume
        && mark == if resume != old(anchor) then resume else old(mark)
      ensures r.Some? ==> anchor == old(anchor) && mark == old(mark) && tail == old(tail)
    {
      if |entries| == 0 {
        tail := Genesis;
        return None;
      }
      var last := RecordOf(entries[|entries| - 1]);
      if !Names(resume, last) {
        return Some(BadRecord);
      }
      if resume != anchor {
        anchor := resume;
        mark := anchor;
      }
      tail := last.hash;
      return None;
    }

    /** Appends one record, then moves the mark if it can be written. A write that fails is cut back; a flush that
        fails is not, though the chain takes its step back in both cases. */
    method Log(content: Content, landing: Landing, markWritable: bool) returns (r: Option<Entry>)
      requires anchor.count > 0 ==> anchor.hash == Some(tail)
      requires anchor.count == 0 ==> tail == Genesis
      modifies this`log, this`mark, this`anchor, this`tail
      ensures var e := NextEntry(key, old(anchor).count, old(tail), content);
        && r == (if landing.Whole? then Some(e) else None)
        && log == (if landing.CutBack? then old(log) else old(log) + Line(codec, e))
        && (landing.Whole? ==> anchor == Anchor(old(anchor).count + 1, Some(e.hash)) && tail == e.hash)
        && (!landing.Whole? ==> anchor == old(anchor) && tail == old(tail))
        && mark == if landing.Whole? && markWritable then anchor else old(mark)
    {
      var position := anchor.count + 1;
      var e := Entry(position - 1, content, tail, Genesis);
      e := e.(hash := Mac(key, position, tail, FieldsOf(e)));
      if landing.CutBack? {
        return None;
      }
      log := log + Line(codec, e);
      if landing.Unflushed? {
        return None;
      }
      tail := e.hash;
      if position > anchor.count {
        anchor := Anchor(position, Some(e.hash));
        if markWritable {
          mark := anchor;
        }
      }
      return Some(e);
    }

    method VerifyIntegrity() returns (ok: bool)
      ensures ok <==> Intact(codec, key, log, anchor)
    {
      var entries, end := ReadAll();
      if end + Spaces(log[end..]) != |log| {
        return false;
      }
      ok := VerifyStream(key, RecordsOf(entries), anchor);
    }
  }

  /** What the integrity check asks of a log: nothing undecoded in it, and a chain that ends at its anchor. */
  ghost predicate Intact(c: Codec, key: Key, log: string, anchor: Anchor) {
    var (entries, end) := ReadFrom(c, log, 0);
    && end <= |log| && end + Spaces(log[end..]) == |log|
    && Chained(key, RecordsOf(entries)) && AnchoredAt(RecordsOf(entries), anchor)
  }

  function NextEntry(key: Key, count: nat, tail: Digest, content: Content): Entry {
    var e := Entry(count, content, tail, Genesis);
    e.(hash := Mac(key, count + 1, tail, FieldsOf(e)))
  }

  lemma RemintedRecords(key: Key, entries: seq<Entry>)
    ensures RecordsOf(Reminted(key, entries)) == Replay(key, Contents(entries))
    ensures Chained(key, RecordsOf(Reminted(key, entries)))
  {
    ReplayKeepsContent(key, Contents(entries));
    var r, records := Reminted(key, entries), Replay(key, Contents(entries));
    forall i | 0 <= i < |entries| ensures RecordOf(r[i]) == records[i] {
      assert Linked(key, records, i);
      assert FieldsOf(r[i]) == FieldsOf(entries[i]);
    }
  }

  // ---------------------------------------------------------------- what opening decides

  /** The log opening works on: as read, or converted. */
  ghost function Adopted(key: Key, mark: Anchor, read: seq<Entry>): seq<Entry> {
    if Converts(key, mark, read) then Reminted(key, read) else read
  }

  ghost function AdoptedMark(key: Key, mark: Anchor, read: seq<Entry>): Anchor {
    if Converts(key, mark, read) then TailAnchor(Replay(key, Contents(read))) else mark
  }

  /** The tail cannot be placed against the mark. */
  ghost predicate TailRefused(key: Key, m: Anchor, entries: seq<Entry>) {
    || |entries| < m.count
    || (entries != [] && m.count == 0)
    || (m.count > 0 && !ExtendsMark(key, m, entries))
  }

  /** The tail could be placed but is not the record the mark names. */
  ghost predicate TailForged(key: Key, m: Anchor, entries: seq<Entry>) {
    entries != [] && |entries| == m.count &&
    (RecordOf(entries[|entries| - 1]).position != m.count || !Verifies(key, RecordOf(entries[|entries| - 1]))
     || m.hash != Some(entries[|entries| - 1].hash))
  }

  /** The mark and the log cannot be reconciled. */
  ghost predicate OpenRefused(c: Codec, key: Key, log: string, mark: Anchor) {
    var (read, end) := ReadFrom(c, log, 0);
    var entries, m := Adopted(key, mark, read), AdoptedMark(key, mark, read);
    TailRefused(key, m, entries) || (!Converts(key, mark, read) && Trimmed(log, end).Err?) || TailForged(key, m, entries)
  }

  /** The log after an open that was refused: only a tail that could be placed has been trimmed. */
  ghost function RefusedLog(c: Codec, key: Key, log: string, mark: Anchor): string {
    var (read, end) := ReadFrom(c, log, 0);
    if TailRefused(key, mark, read) || Trimmed(log, end).Err? then log else Trimmed(log, end).value
  }

  ghost predicate AcceptedOpen(c: Codec, key: Key, log: string, mark: Anchor,
                               entries: seq<Entry>, log': string, mark': Anchor, anchor: Anchor, tail: Digest) {
    var (read, end) := ReadFrom(c, log, 0);
    && entries == Adopted(key, mark, read)
    && log' == (if Converts(key, mark, read) then Lines(c, entries)
                else if Trimmed(log, end).Ok? then Trimmed(log, end).value else "")
    && anchor.count == |entries|
    && (entries != [] ==> anchor.hash == Some(entries[|entries| - 1].hash) && mark' == anchor)
    && (entries == [] ==> mark' == mark == anchor)
    && tail == (if entries == [] then Genesis else entries[|entries| - 1].hash)
  }
}
