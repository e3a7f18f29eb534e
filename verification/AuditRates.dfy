/** How many individual records one source can get in a span of time: what one bucket grants, and what a
    source that draws on two buckets gets. */
module AuditRates {
  import opened AuditBudget

  ghost predicate Monotone(events: seq<Event>) {
    forall i, j :: 0 <= i < j < |events| ==> TimeOf(events[i]) <= TimeOf(events[j])
  }

  /** The clock does not run backwards and no shutdown comes in between. */
  ghost predicate Steady(events: seq<Event>) {
    Monotone(events) && forall i :: 0 <= i < |events| ==> !events[i].Drain?
  }

  /** When a bucket's individual records were granted. */
  function Times(log: seq<Grant>, key: string): seq<int> {
    if log == [] then []
    else
      var n := |log| - 1;
      Times(log[..n], key) + if log[n].bucket == key then [log[n].at] else []
  }

  // ---------------------------------------------------------------- one bucket

  /** The grants g of one bucket, given the window its entry is in (or would start now). A window's first record is
      granted as it starts. */
  ghost predicate Paced(g: seq<int>, start: int, recorded: nat, now: int, l: Limits)
    requires l.burst > 0
  {
    && recorded <= l.burst && recorded <= |g| && start <= now
    && (forall j :: 0 <= j < |g| ==> g[j] <= now)
    && (recorded > 0 ==> g[|g| - recorded] == start)
    && (forall j :: 0 <= j < |g| - recorded ==> g[j] <= start)
    && (forall j :: 0 <= j < |g| - recorded - (l.burst - 1) ==> g[j] <= start - l.window)
    && Spaced(g, l)
  }

  /** Of any two bursts in a row, the first and the last record are a window apart. */
  ghost predicate Spaced(g: seq<int>, l: Limits)
    requires l.burst > 0
  {
    forall j :: 0 <= j < |g| - (2 * l.burst - 1) ==> g[j + 2 * l.burst - 1] - g[j] >= l.window
  }

  ghost predicate BucketPaced(r: Run, key: string, now: int, l: Limits)
    requires l.burst > 0
  {
    if key in r.table then Paced(Times(r.log, key), r.table[key].windowStart, r.table[key].recorded, now, l)
    else Paced(Times(r.log, key), now, 0, now, l)
  }

  lemma PacedLater(g: seq<int>, start: int, recorded: nat, now: int, later: int, l: Limits)
    requires l.burst > 0 && Paced(g, start, recorded, now, l) && now <= later
    ensures Paced(g, start, recorded, later, l)
    ensures later - start >= l.window ==> Paced(g, later, 0, later, l)
    ensures recorded == 0 && start == now ==> Paced(g, later, 0, later, l)
  {
  }

  lemma PacedGrant(g: seq<int>, start: int, recorded: nat, now: int, l: Limits)
    requires l.burst > 0 && Paced(g, start, recorded, now, l) && recorded < l.burst && (recorded == 0 ==> start == now)
    ensures Paced(g + [now], start, recorded + 1, now, l)
  {
  }

  lemma StepTimes(r: Run, ev: Event, key: string, l: Limits)
    ensures Times(Step(r, ev, l).log, key) == Times(r.log, key) + Charged(r, ev, key, l)
  {
    if ev.Rejection? && TakeFrom(r.table, ev.src, ev.now, l.window, l.burst).record {
      var longer := r.log + [Grant(ev.src, Bucket(r.table, ev.src), ev.now)];
      assert longer[..|longer| - 1] == r.log;
    }
  }

  ghost function Charged(r: Run, ev: Event, key: string, l: Limits): seq<int> {
    if ev.Rejection? && Bucket(r.table, ev.src) == key && TakeFrom(r.table, ev.src, ev.now, l.window, l.burst).record
    then [ev.now] else []
  }

  /** An entry's window has a record from the moment it starts. */
  ghost predicate Opened(t: Table, now: int) {
    forall k :: k in t ==> t[k].recorded > 0 && t[k].windowStart <= now
  }

  lemma StepOpened(r: Run, ev: Event, now: int, l: Limits)
    requires l.burst > 0 && Opened(r.table, now) && now <= TimeOf(ev)
    ensures Opened(Step(r, ev, l).table, TimeOf(ev))
  {
  }

  lemma StepPaced(r: Run, ev: Event, key: string, now: int, l: Limits)
    requires l.window > 0 && l.burst > 0 && BucketPaced(r, key, now, l) && Opened(r.table, now) && now <= TimeOf(ev) && !ev.Drain?
    ensures BucketPaced(Step(r, ev, l), key, TimeOf(ev), l)
  {
    var later, g := TimeOf(ev), Times(r.log, key);
    var start := if key in r.table then r.table[key].windowStart else now;
    var recorded := if key in r.table then r.table[key].recorded else 0;
    PacedLater(g, start, recorded, now, later, l);
    StepTimes(r, ev, key, l);
    if ev.Rejection? && Bucket(r.table, ev.src) == key {
      TakePaced(r, ev.src, key, later, l);
    }
  }

  lemma TakePaced(r: Run, src: string, key: string, now: int, l: Limits)
    requires l.window > 0 && l.burst > 0 && Opened(r.table, now) && key == Bucket(r.table, src)
    requires var g := Times(r.log, key);
      if key in r.table && !WindowPassed(r.table[key], now, l.window)
      then Paced(g, r.table[key].windowStart, r.table[key].recorded, now, l)
      else Paced(g, now, 0, now, l)
    ensures BucketPaced(Step(r, Rejection(src, now), l), key, now, l)
  {
    var g, s := Times(r.log, key), Entered(r.table, key, now);
    var (start, recorded) := if WindowPassed(s, now, l.window) then (now, 0) else (s.windowStart, s.recorded);
    StepTimes(r, Rejection(src, now), key, l);
    if recorded < l.burst {
      PacedGrant(g, start, recorded, now, l);
    }
  }

  lemma {:induction false} AlwaysPaced(events: seq<Event>, key: string, l: Limits)
    requires l.window > 0 && l.burst > 0 && Steady(events)
    ensures events != [] ==> Opened(Exec(events, l).table, TimeOf(events[|events| - 1]))
    ensures events != [] ==> BucketPaced(Exec(events, l), key, TimeOf(events[|events| - 1]), l)
  {
    if events != [] {
      var front, ev := events[..|events| - 1], events[|events| - 1];
      AlwaysPaced(front, key, l);
      var r := Exec(front, l);
      var now := if front == [] then TimeOf(ev) else TimeOf(front[|front| - 1]);
      StepOpened(r, ev, now, l);
      StepPaced(r, ev, key, now, l);
    }
  }

  ghost predicate Ascending(g: seq<int>) {
    forall a, b :: 0 <= a <= b < |g| ==> g[a] <= g[b]
  }

  ghost predicate AscendingTo(g: seq<int>, now: int) {
    Ascending(g) && forall a :: 0 <= a < |g| ==> g[a] <= now
  }

  lemma AscendingExtends(g: seq<int>, now: int, more: seq<int>, later: int)
    requires AscendingTo(g, now) && now <= later && (more == [] || more == [later])
    ensures AscendingTo(g + more, later)
  {
  }

  lemma {:induction false} AlwaysAscending(events: seq<Event>, key: string, l: Limits)
    requires Monotone(events)
    ensures var g := Times(Exec(events, l).log, key);
      if events == [] then g == [] else AscendingTo(g, TimeOf(events[|events| - 1]))
  {
    if events != [] {
      var n := |events| - 1;
      var front, ev := events[..n], events[n];
      AlwaysAscending(front, key, l);
      StepTimes(Exec(front, l), ev, key, l);
      AscendingExtends(Times(Exec(front, l).log, key), if n > 0 then TimeOf(front[n - 1]) else TimeOf(ev),
                       Charged(Exec(front, l), ev, key, l), TimeOf(ev));
    }
  }

  // ---------------------------------------------------------------- counting

  function Within(g: seq<int>, from: int, to: int): (n: nat) {
    if g == [] then 0 else Within(g[..|g| - 1], from, to) + if from <= g[|g| - 1] < to then 1 else 0
  }

  lemma {:induction false} NoneWithin(g: seq<int>, from: int, to: int)
    requires forall i :: 0 <= i < |g| ==> g[i] < from
    ensures Within(g, from, to) == 0
  {
    if g != [] {
      NoneWithin(g[..|g| - 1], from, to);
    }
  }

  /** Of an ascending sequence that stops before to, what is within the span comes last. */
  lemma {:induction false} WithinIsLast(g: seq<int>, from: int, to: int)
    requires Ascending(g) && forall i :: 0 <= i < |g| ==> g[i] < to
    ensures Within(g, from, to) <= |g| && forall i :: |g| - Within(g, from, to) <= i < |g| ==> g[i] >= from
  {
    if g != [] {
      WithinIsLast(g[..|g| - 1], from, to);
      if g[|g| - 1] < from {
        NoneWithin(g, from, to);
      }
    }
  }

  lemma {:induction false} SpacedBound(g: seq<int>, from: int, to: int, l: Limits)
    requires l.burst > 0 && Ascending(g) && Spaced(g, l) && to - from <= l.window
    ensures Within(g, from, to) <= 2 * l.burst - 1
  {
    if g != [] {
      var front := g[..|g| - 1];
      if g[|g| - 1] >= to {
        assert Spaced(front, l);
        SpacedBound(front, from, to, l);
      } else {
        WithinIsLast(g, from, to);
        var i := |g| - 2 * l.burst;
        if i >= 0 {
          assert g[i + 2 * l.burst - 1] - g[i] >= l.window;
        }
      }
    }
  }

  /** With a clock that does not run backwards and no shutdown in between, no bucket grants two whole bursts within a
      span no longer than its window. */
  lemma BucketRate(events: seq<Event>, key: string, l: Limits, from: int, to: int)
    requires l.window > 0 && l.burst > 0 && Steady(events) && to - from <= l.window
    ensures Within(Times(Exec(events, l).log, key), from, to) <= 2 * l.burst - 1
  {
    AlwaysPaced(events, key, l);
    AlwaysAscending(events, key, l);
    SpacedBound(Times(Exec(events, l).log, key), from, to, l);
  }

  // ---------------------------------------------------------------- one source, two buckets

  /** The individual records of one source within a span. */
  function RecordsOf(log: seq<Grant>, src: string, from: int, to: int): (n: nat) {
    if log == [] then 0
    else
      var n := |log| - 1;
      RecordsOf(log[..n], src, from, to) + if log[n].src == src && from <= log[n].at < to then 1 else 0
  }

  ghost predicate OwnOrOverflow(log: seq<Grant>) {
    forall i :: 0 <= i < |log| ==> log[i].bucket == log[i].src || log[i].bucket == OVERFLOW
  }

  lemma {:induction false} AlwaysOwnOrOverflow(events: seq<Event>, l: Limits)
    ensures OwnOrOverflow(Exec(events, l).log)
  {
    if events != [] {
      AlwaysOwnOrOverflow(events[..|events| - 1], l);
    }
  }

  lemma {:induction false} SplitByBucket(log: seq<Grant>, src: string, from: int, to: int)
    requires OwnOrOverflow(log)
    ensures RecordsOf(log, src, from, to) <= Within(Times(log, src), from, to) + Within(Times(log, OVERFLOW), from, to)
  {
    if log != [] {
      var n := |log| - 1;
      SplitByBucket(log[..n], src, from, to);
      TimesExtend(log, src, from, to);
      TimesExtend(log, OVERFLOW, from, to);
    }
  }

  lemma TimesExtend(log: seq<Grant>, key: string, from: int, to: int)
    requires log != []
    ensures var n := |log| - 1;
      Within(Times(log, key), from, to)
      == Within(Times(log[..n], key), from, to) + if log[n].bucket == key && from <= log[n].at < to then 1 else 0
  {
    var n := |log| - 1;
    var before, after := Times(log[..n], key), Times(log, key);
    if log[n].bucket == key {
      assert after[..|after| - 1] == before;
    } else {
      assert after == before;
    }
  }

  /** A source may draw on its own bucket and on the overflow bucket, and gets less than two bursts from each within
      a window. */
  lemma SourceRate(events: seq<Event>, src: string, l: Limits, from: int, to: int)
    requires l.window > 0 && l.burst > 0 && Steady(events) && to - from <= l.window
    ensures RecordsOf(Exec(events, l).log, src, from, to) <= 4 * l.burst - 2
  {
    AlwaysOwnOrOverflow(events, l);
    SplitByBucket(Exec(events, l).log, src, from, to);
    BucketRate(events, src, l, from, to);
    BucketRate(events, OVERFLOW, l, from, to);
  }

  /** The server's own limits. */
  const SERVER_LIMITS := Limits(60_000_000_000, 20)

  /** At most 39 records from one bucket and 78 of one source in a minute. */
  lemma ServerRate(events: seq<Event>, src: string, from: int)
    requires Steady(events)
    ensures Within(Times(Exec(events, SERVER_LIMITS).log, src), from, from + 60_000_000_000) <= 39
    ensures RecordsOf(Exec(events, SERVER_LIMITS).log, src, from, from + 60_000_000_000) <= 78
  {
    BucketRate(events, src, SERVER_LIMITS, from, from + 60_000_000_000);
    SourceRate(events, src, SERVER_LIMITS, from, from + 60_000_000_000);
  }
}
