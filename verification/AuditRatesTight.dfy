/** A run in which one source gets all that its own bucket and the overflow bucket can grant within a window. */
module AuditRatesTight {
  import opened AuditBudget
  import opened AuditRates

  const SRC := "s"
  const VISITOR := "v"

  function Other(i: nat): (name: string)
    ensures |name| == i + 10
  {
    seq(i + 10, _ => 'o')
  }

  /** A run so far, the last time in it, and the records its source got within the span. */
  datatype Span = Span(from: int, to: int)

  ghost predicate SteadyUpTo(events: seq<Event>, now: int) {
    Steady(events) && forall i :: 0 <= i < |events| ==> TimeOf(events[i]) <= now
  }

  lemma SteadyExtends(events: seq<Event>, now: int, ev: Event)
    requires SteadyUpTo(events, now) && now <= TimeOf(ev) && !ev.Drain?
    ensures SteadyUpTo(events + [ev], TimeOf(ev))
  {
  }

  lemma ExecExtends(events: seq<Event>, ev: Event, l: Limits)
    ensures Exec(events + [ev], l) == Step(Exec(events, l), ev, l)
  {
    assert (events + [ev])[..|events|] == events;
  }

  lemma RecordsExtend(log: seq<Grant>, g: Grant, span: Span)
    ensures RecordsOf(log + [g], SRC, span.from, span.to)
         == RecordsOf(log, SRC, span.from, span.to) + if g.src == SRC && span.from <= g.at < span.to then 1 else 0
  {
    assert (log + [g])[..|log|] == log;
  }

  /** After these events the table is this, and the source has got this many records within the span. */
  ghost predicate Reaches(events: seq<Event>, now: int, l: Limits, span: Span, t: Table, records: nat) {
    SteadyUpTo(events, now) && Exec(events, l).table == t && RecordsOf(Exec(events, l).log, SRC, span.from, span.to) == records
  }

  function Counted(src: string, now: int, span: Span): nat {
    if src == SRC && span.from <= now < span.to then 1 else 0
  }

  /** A rejection that is recorded. */
  lemma Recorded(events: seq<Event>, was: int, src: string, now: int, l: Limits, span: Span, t: Table, records: nat,
                 after: Table, total: nat)
    requires Reaches(events, was, l, span, t, records) && was <= now
    requires TakeFrom(t, src, now, l.window, l.burst).record && after == TakeFrom(t, src, now, l.window, l.burst).table
    requires total == records + Counted(src, now, span)
    ensures Reaches(events + [Rejection(src, now)], now, l, span, after, total)
  {
    var ev := Rejection(src, now);
    SteadyExtends(events, was, ev);
    ExecExtends(events, ev, l);
    RecordsExtend(Exec(events, l).log, Grant(src, Bucket(t, src), now), span);
  }

  lemma SweptAt(events: seq<Event>, was: int, now: int, l: Limits, span: Span, t: Table, records: nat)
    requires Reaches(events, was, l, span, t, records) && was <= now
    ensures Reaches(events + [Sweep(now)], now, l, span, Collected(t, now, l.window, false).1, records)
  {
    SteadyExtends(events, was, Sweep(now));
    ExecExtends(events, Sweep(now), l);
  }

  lemma Waits(events: seq<Event>, was: int, now: int, l: Limits, span: Span, t: Table, records: nat)
    requires Reaches(events, was, l, span, t, records) && was <= now
    ensures Reaches(events, now, l, span, t, records)
  {
  }

  lemma SameBucket(t: Table, key: string, s: Source, src: string)
    requires key in t
    ensures Bucket(t[key := s], src) == Bucket(t, src)
  {
    assert t[key := s].Keys == t.Keys;
    assert |t[key := s]| == |t[key := s].Keys| && |t| == |t.Keys|;
  }

  /** n more records in one bucket. */
  function Charged(t: Table, key: string, n: nat): Table
    requires key in t
  {
    t[key := t[key].(recorded := t[key].recorded + n)]
  }

  /** The bucket's window stands and has room for n more records. */
  predicate HasRoom(t: Table, key: string, now: int, n: nat, l: Limits) {
    key in t && !WindowPassed(t[key], now, l.window) && t[key].recorded + n <= l.burst
  }

  lemma ChargedOnce(t: Table, key: string, now: int, n: nat, l: Limits)
    requires key == Bucket(t, SRC) && HasRoom(t, key, now, n, l) && n > 0
    ensures TakeFrom(t, SRC, now, l.window, l.burst) == Taken(true, 0, Charged(t, key, 1))
    ensures Bucket(Charged(t, key, 1), SRC) == key && HasRoom(Charged(t, key, 1), key, now, n - 1, l)
    ensures Charged(Charged(t, key, 1), key, n - 1) == Charged(t, key, n)
  {
    SameBucket(t, key, t[key].(recorded := t[key].recorded + 1), SRC);
  }

  lemma ChargedNone(t: Table, key: string)
    requires key in t
    ensures Charged(t, key, 0) == t
  {
  }

  /** As long as its window stands and its burst is not used up, every rejection of the source is recorded. */
  lemma {:induction false} Burst(events: seq<Event>, was: int, now: int, n: nat, l: Limits, span: Span, t: Table, records: nat, key: string,
                                 after: Table, total: nat)
    returns (longer: seq<Event>)
    requires Reaches(events, was, l, span, t, records) && was <= now && span.from <= now < span.to
    requires key == Bucket(t, SRC) && HasRoom(t, key, now, n, l) && after == Charged(t, key, n) && total == records + n
    ensures Reaches(longer, now, l, span, after, total)
    decreases n
  {
    if n == 0 {
      ChargedNone(t, key);
      Waits(events, was, now, l, span, t, records);
      longer := events;
    } else {
      ChargedOnce(t, key, now, n, l);
      Recorded(events, was, SRC, now, l, span, t, records, Charged(t, key, 1), records + 1);
      longer := Burst(events + [Rejection(SRC, now)], now, now, n - 1, l, span, Charged(t, key, 1), records + 1, key, after, total);
    }
  }

  lemma FirstTaken(t: Table, key: string, now: int, l: Limits)
    requires l.window > 0 && l.burst > 0 && key == Bucket(t, SRC) && (key !in t || WindowPassed(t[key], now, l.window))
    ensures TakeFrom(t, SRC, now, l.window, l.burst).record
    ensures TakeFrom(t, SRC, now, l.window, l.burst).table == t[key := Source(now, 1, 0)]
    ensures HasRoom(t[key := Source(now, 1, 0)], key, now, l.burst - 1, l)
    ensures Charged(t[key := Source(now, 1, 0)], key, l.burst - 1) == t[key := Source(now, l.burst, 0)]
  {
  }

  lemma FirstRecord(events: seq<Event>, was: int, now: int, l: Limits, span: Span, t: Table, records: nat, key: string, entered: Table)
    requires Reaches(events, was, l, span, t, records) && was <= now && span.from <= now < span.to
    requires l.window > 0 && l.burst > 0 && key == Bucket(t, SRC) && (key !in t || WindowPassed(t[key], now, l.window))
    requires entered == t[key := Source(now, 1, 0)]
    ensures Reaches(events + [Rejection(SRC, now)], now, l, span, entered, records + 1)
  {
    FirstTaken(t, key, now, l);
    Recorded(events, was, SRC, now, l, span, t, records, entered, records + 1);
  }

  /** The first record of a new window, and the rest of its burst. */
  lemma FreshBurst(events: seq<Event>, was: int, now: int, l: Limits, span: Span, t: Table, records: nat, key: string,
                   after: Table, total: nat)
    returns (longer: seq<Event>)
    requires Reaches(events, was, l, span, t, records) && was <= now && span.from <= now < span.to
    requires l.window > 0 && l.burst > 0 && key == Bucket(t, SRC) && (key !in t || WindowPassed(t[key], now, l.window))
    requires Bucket(t[key := Source(now, 1, 0)], SRC) == key
    requires after == t[key := Source(now, l.burst, 0)] && total == records + l.burst
    ensures Reaches(longer, now, l, span, after, total)
  {
    var entered := t[key := Source(now, 1, 0)];
    FirstRecord(events, was, now, l, span, t, records, key, entered);
    FirstTaken(t, key, now, l);
    longer := Burst(events + [Rejection(SRC, now)], now, now, l.burst - 1, l, span, entered, records + 1, key, after, total);
  }

  // ---------------------------------------------------------------- the run

  /** The source, first, and the others, each entered at 1. */
  ghost predicate CrowdedTable(t: Table, n: nat) {
    && |t| == n + 1 && SRC in t && t[SRC] == Source(0, 1, 0) && OVERFLOW !in t && VISITOR !in t
    && forall k :: k in t && k != SRC ==> t[k].windowStart == 1 && 10 <= |k| < n + 10
  }

  lemma {:induction false} Crowd(n: nat, l: Limits, span: Span) returns (events: seq<Event>, t: Table)
    requires n < MAX_SOURCES && 1 < span.from && l.burst > 0 && l.window > 1
    ensures Reaches(events, 1, l, span, t, 0) && CrowdedTable(t, n)
  {
    if n == 0 {
      t := map[SRC := Source(0, 1, 0)];
      assert Reaches([], 0, l, span, map[], 0);
      Recorded([], 0, SRC, 0, l, span, map[], 0, t, 0);
      events := [] + [Rejection(SRC, 0)];
    } else {
      events, t := Crowd(n - 1, l, span);
      CrowdGrows(t, n - 1);
      Recorded(events, 1, Other(n - 1), 1, l, span, t, 0, t[Other(n - 1) := Source(1, 1, 0)], 0);
      events, t := events + [Rejection(Other(n - 1), 1)], t[Other(n - 1) := Source(1, 1, 0)];
    }
  }

  lemma CrowdGrows(t: Table, n: nat)
    requires CrowdedTable(t, n)
    ensures Other(n) !in t && CrowdedTable(t[Other(n) := Source(1, 1, 0)], n + 1)
  {
    var after := t[Other(n) := Source(1, 1, 0)];
    assert Other(n) !in t;
    assert after.Keys == t.Keys + {Other(n)};
    assert |after| == |after.Keys| && |t| == |t.Keys|;
  }

  /** A full table without the source, the overflow bucket opened at 2 with one record in it. */
  ghost predicate Evicted(t: Table) {
    && |t| == MAX_SOURCES && SRC !in t && OVERFLOW in t && t[OVERFLOW] == Source(2, 1, 0)
    && forall k :: k in t && k != OVERFLOW ==> t[k].windowStart == 1
  }

  lemma SweptOut(t: Table, burst: nat, l: Limits)
    requires CrowdedTable(t, MAX_SOURCES - 1) && l.window > 3
    ensures Evicted(Collected(t[OVERFLOW := Source(2, 1, 0)][SRC := Source(0, burst, 0)], l.window, l.window, false).1)
  {
    var full := t[OVERFLOW := Source(2, 1, 0)][SRC := Source(0, burst, 0)];
    var after := Collected(full, l.window, l.window, false).1;
    assert after.Keys == t.Keys - {SRC} + {OVERFLOW};
    assert |after| == |after.Keys| && |t| == |t.Keys|;
  }

  /** Up to the sweep that forgets the source: its own bucket has given it all but one record of a burst, at the end
      of its window. */
  lemma OwnBucket(l: Limits, span: Span) returns (events: seq<Event>, t: Table)
    requires l.burst > 0 && l.window > 3 && span == Span(l.window - 1, l.window + 3)
    ensures Reaches(events, l.window, l, span, t, l.burst - 1) && Evicted(t)
  {
    var crowd;
    events, crowd := Crowd(MAX_SOURCES - 1, l, span);
    Recorded(events, 1, VISITOR, 2, l, span, crowd, 0, crowd[OVERFLOW := Source(2, 1, 0)], 0);
    events, t := events + [Rejection(VISITOR, 2)], crowd[OVERFLOW := Source(2, 1, 0)];
    var spent := t[SRC := Source(0, l.burst, 0)];
    events := Burst(events, 2, l.window - 1, l.burst - 1, l, span, t, 0, SRC, spent, l.burst - 1);
    t := spent;
    SweptAt(events, l.window - 1, l.window, l, span, t, l.burst - 1);
    SweptOut(crowd, l.burst, l);
    events, t := events + [Sweep(l.window)], Collected(t, l.window, l.window, false).1;
  }

  /** Then the overflow bucket, across its two windows. */
  lemma OverflowBucket(l: Limits, span: Span) returns (events: seq<Event>, t: Table)
    requires l.burst > 0 && l.window > 3 && span == Span(l.window - 1, l.window + 3)
    ensures Reaches(events, l.window + 2, l, span, t, 3 * l.burst - 2)
    ensures t.Keys == {OVERFLOW} && t[OVERFLOW].windowStart == l.window + 2
  {
    events, t := OwnBucket(l, span);
    var spent := t[OVERFLOW := Source(2, l.burst, 0)];
    events := Burst(events, l.window, l.window, l.burst - 1, l, span, t, l.burst - 1, OVERFLOW, spent, 2 * l.burst - 2);
    SameBucket(t, OVERFLOW, Source(2, l.burst, 0), SRC);
    SameBucket(spent, OVERFLOW, Source(l.window + 2, 1, 0), SRC);
    var renewed := spent[OVERFLOW := Source(l.window + 2, l.burst, 0)];
    events := FreshBurst(events, l.window, l.window + 2, l, span, spent, 2 * l.burst - 2, OVERFLOW, renewed, 3 * l.burst - 2);
    SweptAt(events, l.window + 2, l.window + 2, l, span, renewed, 3 * l.burst - 2);
    events, t := events + [Sweep(l.window + 2)], Collected(renewed, l.window + 2, l.window, false).1;
    assert t.Keys == {OVERFLOW};
  }

  /** For any limits the bound of `SourceRate` is reached: the source records at the end of its own window, is swept
      out of a full table, records in the overflow bucket on both sides of its window, and once more in a bucket of
      its own, all within four ticks of the clock. */
  lemma SourceRateReached(l: Limits) returns (events: seq<Event>)
    requires l.burst > 0 && l.window > 3
    ensures Steady(events) && RecordsOf(Exec(events, l).log, SRC, l.window - 1, l.window + 3) == 4 * l.burst - 2
  {
    var span := Span(l.window - 1, l.window + 3);
    var t;
    events, t := OverflowBucket(l, span);
    assert |t| == |t.Keys| == 1;
    events := FreshBurst(events, l.window + 2, l.window + 2, l, span, t, 3 * l.burst - 2, SRC,
                         t[SRC := Source(l.window + 2, l.burst, 0)], 4 * l.burst - 2);
  }
}
