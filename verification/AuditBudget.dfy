/** The audit budget: how many anonymous rejections one source may have recorded one by one, and
    the counts that stand for the rest. */
module AuditBudget {
  const MAX_SOURCES := 1024
  const OVERFLOW := "overflow"

  datatype Source = Source(windowStart: int, recorded: nat, suppressed: nat)

  type Table = map<string, Source>

  /** The bucket a rejection from src counts against. */
  function Bucket(t: Table, src: string): string {
    if src !in t && |t| >= MAX_SOURCES then OVERFLOW else src
  }

  function Entered(t: Table, key: string, now: int): Source {
    if key in t then t[key] else Source(now, 0, 0)
  }

  predicate WindowPassed(s: Source, now: int, window: int) {
    now - s.windowStart >= window
  }

  datatype Taken = Taken(record: bool, folded: nat, table: Table)

  function TakeFrom(t: Table, src: string, now: int, window: int, burst: nat): Taken {
    var key := Bucket(t, src);
    var s := Entered(t, key, now);
    var passed := WindowPassed(s, now, window);
    var s' := if passed then Source(now, 0, 0) else s;
    var folded := if passed then s.suppressed else 0;
    if s'.recorded < burst
    then Taken(true, folded, t[key := s'.(recorded := s'.recorded + 1)])
    else Taken(false, folded, t[key := s'.(suppressed := s'.suppressed + 1)])
  }

  predicate Swept(s: Source, now: int, window: int, all: bool) {
    all || WindowPassed(s, now, window)
  }

  /** The counts a collection reports, and the table it leaves. */
  function Collected(t: Table, now: int, window: int, all: bool): (map<string, nat>, Table) {
    (map k | k in t && Swept(t[k], now, window, all) && t[k].suppressed > 0 :: t[k].suppressed,
     map k | k in t && !Swept(t[k], now, window, all) :: t[k])
  }

  /** One summary or individual record the server writes. */
  datatype Written = Individual(source: string) | Summary(source: string, count: nat)

  class Budget {
    const window: int
    const burst: nat
    var sources: Table

    constructor (window: int, burst: nat)
      ensures this.window == window && this.burst == burst && sources == map[]
    {
      this.window, this.burst, sources := window, burst, map[];
    }

    method Take(src: string, now: int) returns (record: bool, folded: nat)
      modifies this
      ensures Taken(record, folded, sources) == TakeFrom(old(sources), src, now, window, burst)
    {
      var key := src;
      if key !in sources && |sources| >= MAX_SOURCES {
        key := OVERFLOW;
      }
      if key !in sources {
        sources := sources[key := Source(now, 0, 0)];
      }
      var s := sources[key];
      folded := 0;
      if now - s.windowStart >= window {
        folded := s.suppressed;
        s := s.(suppressed := 0, windowStart := now, recorded := 0);
      }
      if s.recorded < burst {
        s := s.(recorded := s.recorded + 1);
        record := true;
      } else {
        s := s.(suppressed := s.suppressed + 1);
        record := false;
      }
      sources := sources[key := s];
    }

    method Collect(now: int, all: bool) returns (out: map<string, nat>)
      modifies this
      ensures (out, sources) == Collected(old(sources), now, window, all)
    {
      out := map[];
      ghost var before := sources;
      var todo := sources.Keys;
      while todo != {}
        invariant todo <= sources.Keys <= before.Keys && out.Keys <= before.Keys
        invariant forall k :: k in before ==> (k in sources <==> k in todo || !Swept(before[k], now, window, all))
        invariant forall k :: k in before ==>
          (k in out <==> k !in todo && Swept(before[k], now, window, all) && before[k].suppressed > 0)
        invariant forall k :: k in sources ==> sources[k] == before[k]
        invariant forall k :: k in out ==> out[k] == before[k].suppressed
        decreases |todo|
      {
        var src :| src in todo;
        var s := sources[src];
        todo := todo - {src};
        if all || now - s.windowStart >= window {
          if s.suppressed > 0 {
            out := out[src := s.suppressed];
          }
          sources := sources - {src};
        }
      }
      assert out == Collected(before, now, window, all).0;
      assert sources == Collected(before, now, window, all).1;
    }

    /** The periodic flush (all is false) and the shutdown (all is true): one summary for each source collected. */
    method Flush(now: int, all: bool) returns (written: seq<Written>)
      modifies this
      ensures sources == Collected(old(sources), now, window, all).1
      ensures Reports(written, Collected(old(sources), now, window, all).0)
    {
      var out := Collect(now, all);
      written := [];
      var todo := out.Keys;
      while todo != {}
        invariant todo <= out.Keys && sources == Collected(old(sources), now, window, all).1
        invariant Reports(written, out - todo)
        decreases |todo|
      {
        var src :| src in todo;
        ReportsOneMore(written, out, todo, src);
        written := written + [Summary(src, out[src])];
        todo := todo - {src};
      }
      assert out - todo == out;
    }

    /** What one anonymous rejection makes the server write. */
    method RecordRejection(src: string, now: int) returns (written: seq<Written>)
      modifies this
      ensures var t := TakeFrom(old(sources), src, now, window, burst);
        && sources == t.table
        && written == (if t.folded > 0 then [Summary(src, t.folded)] else []) + (if t.record then [Individual(src)] else [])
    {
      var record, folded := Take(src, now);
      written := [];
      if folded > 0 {
        written := written + [Summary(src, folded)];
      }
      if record {
        written := written + [Individual(src)];
      }
    }
  }

  /** Exactly one summary for each count. */
  ghost predicate Reports(written: seq<Written>, out: map<string, nat>) {
    && |written| == |out|
    && (forall i :: 0 <= i < |written| ==>
          written[i].Summary? && written[i].source in out && written[i].count == out[written[i].source])
    && (forall k :: k in out ==> Summary(k, out[k]) in written)
  }

  lemma ReportsOneMore(written: seq<Written>, out: map<string, nat>, todo: set<string>, src: string)
    requires src in todo && todo <= out.Keys && Reports(written, out - todo)
    ensures Reports(written + [Summary(src, out[src])], out - (todo - {src}))
  {
    assert out - (todo - {src}) == (out - todo)[src := out[src]];
  }

  // ---------------------------------------------------------------- runs

  datatype Event = Rejection(src: string, now: int) | Sweep(now: int) | Drain(now: int)

  /** An individual record: the source it was written for, the bucket it was charged to, and when. */
  datatype Grant = Grant(src: string, bucket: string, at: int)

  /** A table, and what has happened to every rejection so far. */
  datatype Run = Run(
    table: Table,
    calls: nat,                     // rejections taken
    granted: nat,                   // recorded individually
    folded: nat,                    // reported by a later take of the same bucket
    collected: nat,                 // reported by a sweep or drain
    log: seq<Grant>)                // the individual records, in order

  datatype Limits = Limits(window: int, burst: nat)

  function TimeOf(ev: Event): int {
    match ev
    case Rejection(_, now) => now
    case Sweep(now) => now
    case Drain(now) => now
  }

  ghost function Step(r: Run, ev: Event, l: Limits): Run {
    match ev
    case Rejection(src, now) =>
      var t := TakeFrom(r.table, src, now, l.window, l.burst);
      var key := Bucket(r.table, src);
      Run(t.table, r.calls + 1, r.granted + (if t.record then 1 else 0), r.folded + t.folded, r.collected,
          if t.record then r.log + [Grant(src, key, now)] else r.log)
    case Sweep(now) => AfterCollect(r, now, l, false)
    case Drain(now) => AfterCollect(r, now, l, true)
  }

  ghost function AfterCollect(r: Run, now: int, l: Limits, all: bool): Run {
    var (out, table) := Collected(r.table, now, l.window, all);
    r.(table := table, collected := r.collected + Sum(out))
  }

  ghost function Exec(events: seq<Event>, l: Limits): Run {
    if events == [] then Run(map[], 0, 0, 0, 0, [])
    else Step(Exec(events[..|events| - 1], l), events[|events| - 1], l)
  }

  // ---------------------------------------------------------------- sums over a table

  ghost function Sum(m: map<string, nat>): nat {
    if m == map[] then 0 else var k :| k in m; m[k] + Sum(m - {k})
  }

  /** A sum may be taken in any order. */
  lemma {:induction false} SumApart(m: map<string, nat>, k: string)
    requires k in m
    ensures Sum(m) == m[k] + Sum(m - {k})
    decreases |m|
  {
    var p :| p in m && Sum(m) == m[p] + Sum(m - {p});
    if p != k {
      SumApart(m - {p}, k);
      SumApart(m - {k}, p);
      assert m - {p} - {k} == m - {k} - {p};
    }
  }

  lemma SumUpdated(m: map<string, nat>, k: string, v: nat)
    ensures Sum(m[k := v]) + (if k in m then m[k] else 0) == Sum(m) + v
  {
    SumApart(m[k := v], k);
    assert m[k := v] - {k} == m - {k};
    if k in m {
      SumApart(m, k);
    } else {
      assert m - {k} == m;
    }
  }

  function Suppressed(t: Table): map<string, nat> {
    map k | k in t :: t[k].suppressed
  }

  /** Rejections counted and not yet reported. */
  ghost function Held(t: Table): nat {
    Sum(Suppressed(t))
  }

  /** A collection reports exactly what it forgets. */
  lemma {:induction false} CollectedSum(t: Table, now: int, window: int, all: bool)
    ensures var (out, rest) := Collected(t, now, window, all); Held(t) == Sum(out) + Held(rest)
    decreases |t|
  {
    var (out, rest) := Collected(t, now, window, all);
    if t == map[] {
      assert Suppressed(t) == map[] && out == map[] && Suppressed(rest) == map[];
    } else {
      var k :| k in t;
      CollectedSum(t - {k}, now, window, all);
      CollectedWithout(t, k, now, window, all);
      SumApart(Suppressed(t), k);
      SumWithout(out, k);
      SumWithout(Suppressed(rest), k);
    }
  }

  lemma CollectedWithout(t: Table, k: string, now: int, window: int, all: bool)
    requires k in t
    ensures Suppressed(t - {k}) == Suppressed(t) - {k}
    ensures Collected(t - {k}, now, window, all).0 == Collected(t, now, window, all).0 - {k}
    ensures Suppressed(Collected(t - {k}, now, window, all).1) == Suppressed(Collected(t, now, window, all).1) - {k}
  {
  }

  lemma SumWithout(m: map<string, nat>, k: string)
    ensures Sum(m) == (if k in m then m[k] else 0) + Sum(m - {k})
  {
    if k in m {
      SumApart(m, k);
    } else {
      assert m - {k} == m;
    }
  }

  // ---------------------------------------------------------------- folded, never dropped

  ghost predicate Accounted(r: Run) {
    r.calls == r.granted + r.folded + r.collected + Held(r.table)
  }

  lemma TakeAccounted(r: Run, src: string, now: int, l: Limits)
    requires Accounted(r)
    ensures Accounted(Step(r, Rejection(src, now), l))
  {
    var key := Bucket(r.table, src);
    var t := TakeFrom(r.table, src, now, l.window, l.burst);
    assert Suppressed(t.table) == Suppressed(r.table)[key := t.table[key].suppressed];
    SumUpdated(Suppressed(r.table), key, t.table[key].suppressed);
  }

  /** Over every run, whatever the clock does: each rejection is recorded, folded into a later
      summary, reported by a sweep or drain, or still counted. */
  lemma {:induction false} NothingDropped(events: seq<Event>, l: Limits)
    ensures Accounted(Exec(events, l))
  {
    if events == [] {
      assert Suppressed(map[]) == map[];
    } else {
      var before, ev := Exec(events[..|events| - 1], l), events[|events| - 1];
      NothingDropped(events[..|events| - 1], l);
      match ev
      case Rejection(src, now) => TakeAccounted(before, src, now, l);
      case Sweep(now) => CollectedSum(before.table, now, l.window, false);
      case Drain(now) => CollectedSum(before.table, now, l.window, true);
    }
  }

  /** A drain leaves nothing counted, so after shutdown every rejection is in the log. */
  lemma DrainReportsAll(events: seq<Event>, now: int, l: Limits)
    ensures var r := Exec(events + [Drain(now)], l);
      r.table == map[] && r.calls == r.granted + r.folded + r.collected
  {
    var all := events + [Drain(now)];
    assert all[..|all| - 1] == events;
    NothingDropped(all, l);
    assert Exec(all, l).table == map[];
    assert Suppressed(map[]) == map[];
  }

  // ---------------------------------------------------------------- the table stays bounded

  ghost predicate Bounded(t: Table) {
    |t| <= MAX_SOURCES || (|t| == MAX_SOURCES + 1 && OVERFLOW in t)
  }

  lemma {:induction false} TableBounded(events: seq<Event>, l: Limits)
    ensures Bounded(Exec(events, l).table)
  {
    if events != [] {
      var before, after := Exec(events[..|events| - 1], l).table, Exec(events, l).table;
      TableBounded(events[..|events| - 1], l);
      if !events[|events| - 1].Rejection? {
        SmallerTable(before, after);
      } else {
        var key := Bucket(before, events[|events| - 1].src);
        assert after.Keys == before.Keys + {key};
      }
    }
  }

  lemma SmallerTable(before: Table, after: Table)
    requires after.Keys <= before.Keys
    ensures |after| <= |before| && (|after| == |before| ==> after.Keys == before.Keys)
  {
    assert |after.Keys| + |before.Keys - after.Keys| == |before.Keys| by {
      assert before.Keys == after.Keys + (before.Keys - after.Keys);
    }
  }
}
