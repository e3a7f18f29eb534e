/** What one rejection and one collection do to the audit budget, in the table's own fields and the server's own
    numbers. */
module BudgetLaws {
  import opened AuditBudget
  import opened AuditRates

  /** A rejection counts against its source, or, if that is new and 1024 are known, against the shared entry. A window
      that is over starts again. It is recorded while its entry has records left in its window, and counted after. */
  lemma TakeFields(t: Table, src: string, now: int, window: int, burst: nat)
    ensures var taken := TakeFrom(t, src, now, window, burst);
      var key := if src in t || |t| < 1024 then src else "overflow";
      var over := key in t && now >= t[key].windowStart + window;
      var fresh' := key !in t || over;
      var used, held := if fresh' then 0 else t[key].recorded, if fresh' then 0 else t[key].suppressed;
      && (taken.record <==> used < burst)
      && taken.folded == (if over then t[key].suppressed else 0)
      && key in taken.table && taken.table.Keys == t.Keys + {key}
      && taken.table[key] == Source(if fresh' then now else t[key].windowStart,
                                    used + (if taken.record then 1 else 0), held + (if taken.record then 0 else 1))
      && forall other :: other in t && other != key ==> taken.table[other] == t[other]
  {
  }

  /** A collection forgets the entries whose window is over, all of them at shutdown, and reports what they held. */
  lemma CollectFields(t: Table, now: int, window: int, all: bool, k: string)
    ensures var (out, left) := Collected(t, now, window, all);
      var gone := k in t && (all || now >= t[k].windowStart + window);
      && (k in left <==> k in t && !gone) && (k in left ==> left[k] == t[k])
      && (k in out <==> gone && t[k].suppressed > 0) && (k in out ==> out[k] == t[k].suppressed)
  {
  }

  /** The table holds at most 1025 entries, the shared one among them if it holds more than 1024. */
  lemma AtMost1025(events: seq<Event>, l: Limits)
    ensures |Exec(events, l).table| <= 1025 && (|Exec(events, l).table| == 1025 ==> "overflow" in Exec(events, l).table)
  {
    TableBounded(events, l);
  }

  /** A source that keeps rejecting within one window gets 20 records and no more. */
  lemma {:induction false} TwentyThenCounted(t: Table, src: string, now: int, n: nat)
    requires src in t && t[src] == Source(now, 0, 0)
    ensures var after := Many(t, src, now, n);
      src in after && after[src].recorded == (if n < 20 then n else 20) && after[src].suppressed == (if n < 20 then 0 else n - 20)
      && after[src].windowStart == now
  {
    if n > 0 {
      TwentyThenCounted(t, src, now, n - 1);
      TakeFields(Many(t, src, now, n - 1), src, now, SERVER_LIMITS.window, SERVER_LIMITS.burst);
    }
  }

  function Many(t: Table, src: string, now: int, n: nat): Table {
    if n == 0 then t else TakeFrom(Many(t, src, now, n - 1), src, now, 60_000_000_000, 20).table
  }

  /** The books: a rejection is one call, recorded or not, and what its window folds is reported; a sweep reports what
      it forgets; and each record says for whom, against which entry and when. */
  lemma StepBooks(r: Run, src: string, now: int, l: Limits)
    ensures var taken, after := TakeFrom(r.table, src, now, l.window, l.burst), Step(r, Rejection(src, now), l);
      && after.table == taken.table && after.calls == r.calls + 1 && after.folded == r.folded + taken.folded
      && after.collected == r.collected && after.granted == r.granted + (if taken.record then 1 else 0)
      && (!taken.record ==> after.log == r.log)
      && (taken.record ==>
            after.log == r.log + [Grant(src, if src in r.table || |r.table| < 1024 then src else "overflow", now)])
    ensures var (out, left) := Collected(r.table, now, l.window, false);
      Step(r, Sweep(now), l) == r.(table := left, collected := r.collected + Sum(out))
    ensures var (out, left) := Collected(r.table, now, l.window, true);
      Step(r, Drain(now), l) == r.(table := left, collected := r.collected + Sum(out))
  {
  }
}
