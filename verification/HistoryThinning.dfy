/** Bounding the history: expired snapshots go, and past 100 the least separated interior
    snapshot is removed until 100 are left. */
module HistoryThinning {
  const MAX_HISTORY := 100

  datatype Info = Info(name: string, modTime: int)

  ghost predicate NewestFirst(s: seq<Info>) {
    forall i, j :: 0 <= i < j < |s| ==> s[i].modTime >= s[j].modTime
  }

  /** How far apart the neighbours of an interior snapshot are. */
  function Span(s: seq<Info>, i: int): int
    requires 0 < i < |s| - 1
  {
    s[i - 1].modTime - s[i + 1].modTime
  }

  /** The earliest interior position of least span among the first n. */
  function LeastSpan(s: seq<Info>, n: int): (r: int)
    requires 2 <= n <= |s| - 1
    ensures 0 < r < n
  {
    if n == 2 then 1
    else
      var r := LeastSpan(s, n - 1);
      if Span(s, n - 1) < Span(s, r) then n - 1 else r
  }

  lemma {:induction false} LeastSpanIsLeast(s: seq<Info>, n: int)
    requires 2 <= n <= |s| - 1
    ensures forall i :: 0 < i < n ==> Span(s, LeastSpan(s, n)) <= Span(s, i)
    ensures forall i :: 0 < i < LeastSpan(s, n) ==> Span(s, LeastSpan(s, n)) < Span(s, i)
  {
    if n > 2 {
      LeastSpanIsLeast(s, n - 1);
    }
  }

  /** In the snapshots' own times: no neighbours of an interior snapshot are closer together than those of the one
      removed, and none before it are as close. */
  lemma LeastSeparated(s: seq<Info>, i: int)
    requires |s| >= 3 && 0 < i < |s| - 1
    ensures var r := LeastSpan(s, |s| - 1);
      var gap := s[r - 1].modTime - s[r + 1].modTime;
      gap <= s[i - 1].modTime - s[i + 1].modTime && (i < r ==> gap < s[i - 1].modTime - s[i + 1].modTime)
  {
    LeastSpanIsLeast(s, |s| - 1);
    assert Span(s, LeastSpan(s, |s| - 1)) <= Span(s, i);
  }

  function Without(s: seq<Info>, r: int): seq<Info>
    requires 0 <= r < |s|
  {
    s[..r] + s[r + 1..]
  }

  function Thinned(s: seq<Info>): seq<Info>
    decreases |s|
  {
    if |s| <= MAX_HISTORY then s else Thinned(Without(s, LeastSpan(s, |s| - 1)))
  }

  /** The scan for the snapshot to remove next. */
  method FindLeastSpan(snapshots: seq<Info>) returns (remove: int)
    requires |snapshots| >= 3
    ensures remove == LeastSpan(snapshots, |snapshots| - 1)
  {
    remove := 1;
    var gap := snapshots[0].modTime - snapshots[2].modTime;
    for i := 2 to |snapshots| - 1
      invariant remove == LeastSpan(snapshots, i)
      invariant gap == Span(snapshots, remove)
    {
      var span := snapshots[i - 1].modTime - snapshots[i + 1].modTime;
      assert LeastSpan(snapshots, i + 1) == if Span(snapshots, i) < Span(snapshots, remove) then i else remove;
      if span < gap {
        remove, gap := i, span;
      }
    }
  }

  lemma ThinnedStep(s: seq<Info>)
    requires |s| > MAX_HISTORY
    ensures Thinned(s) == Thinned(Without(s, LeastSpan(s, |s| - 1)))
  {
  }

  method Thin(s: seq<Info>) returns (snapshots: seq<Info>)
    ensures snapshots == Thinned(s)
  {
    snapshots := s;
    while |snapshots| > MAX_HISTORY
      invariant Thinned(snapshots) == Thinned(s)
      decreases |snapshots|
    {
      var remove := FindLeastSpan(snapshots);
      ThinnedStep(snapshots);
      snapshots := Without(snapshots, remove);
    }
  }

  /** Every interior span is at least g. */
  ghost predicate SpansAtLeast(s: seq<Info>, g: int) {
    forall i :: 0 < i < |s| - 1 ==> Span(s, i) >= g
  }

  lemma WithoutKeeps(s: seq<Info>, r: int, g: int)
    requires 0 < r < |s| - 1 && NewestFirst(s)
    ensures var t := Without(s, r);
      NewestFirst(t) && |t| == |s| - 1 && t[0] == s[0] && t[|t| - 1] == s[|s| - 1]
    ensures SpansAtLeast(s, g) ==> SpansAtLeast(Without(s, r), g)
  {
    var t := Without(s, r);
    if SpansAtLeast(s, g) {
      forall i | 0 < i < |t| - 1 ensures Span(t, i) >= g {
        assert Span(s, if i < r then i else i + 1) >= g;
      }
    }
  }

  /** Thinning keeps the newest and the oldest snapshot, never more than 100, and never
      lowers the least interior span. */
  lemma {:induction false} ThinnedKeeps(s: seq<Info>, g: int)
    requires NewestFirst(s)
    ensures |Thinned(s)| == if |s| <= MAX_HISTORY then |s| else MAX_HISTORY
    ensures NewestFirst(Thinned(s))
    ensures s != [] ==> Thinned(s)[0] == s[0] && Thinned(s)[|Thinned(s)| - 1] == s[|s| - 1]
    ensures SpansAtLeast(s, g) ==> SpansAtLeast(Thinned(s), g)
    decreases |s|
  {
    if |s| > MAX_HISTORY {
      var r := LeastSpan(s, |s| - 1);
      WithoutKeeps(s, r, g);
      ThinnedKeeps(Without(s, r), g);
    }
  }

  /** at lists, in increasing order, positions of s that spell t. */
  ghost predicate Spells(s: seq<Info>, at: seq<int>, t: seq<Info>) {
    && |at| == |t|
    && (forall k :: 0 <= k < |at| ==> 0 <= at[k] < |s| && t[k] == s[at[k]])
    && (forall j, k :: 0 <= j < k < |at| ==> at[j] < at[k])
  }

  function PastGap(inner: seq<int>, r: int): (at: seq<int>)
    ensures |at| == |inner| && forall k :: 0 <= k < |at| ==> at[k] == if inner[k] < r then inner[k] else inner[k] + 1
  {
    seq(|inner|, k requires 0 <= k < |inner| => if inner[k] < r then inner[k] else inner[k] + 1)
  }

  lemma SpellsPastGap(s: seq<Info>, r: int, inner: seq<int>, t: seq<Info>)
    requires 0 <= r < |s| && Spells(Without(s, r), inner, t)
    ensures Spells(s, PastGap(inner, r), t)
  {
  }

  function Positions(n: nat): (at: seq<int>)
    ensures |at| == n && forall k :: 0 <= k < n ==> at[k] == k
  {
    seq(n, k => k)
  }

  /** The positions thinning keeps, in increasing order. */
  function KeptAt(s: seq<Info>): (at: seq<int>)
    decreases |s|
  {
    if |s| <= MAX_HISTORY then Positions(|s|)
    else
      var r := LeastSpan(s, |s| - 1);
      PastGap(KeptAt(Without(s, r)), r)
  }

  /** Thinning keeps a subsequence. */
  lemma {:induction false} ThinnedIsSubsequence(s: seq<Info>)
    ensures Spells(s, KeptAt(s), Thinned(s))
    decreases |s|
  {
    if |s| > MAX_HISTORY {
      var r := LeastSpan(s, |s| - 1);
      ThinnedIsSubsequence(Without(s, r));
      SpellsPastGap(s, r, KeptAt(Without(s, r)), Thinned(Without(s, r)));
    }
  }

  // ------------------------------------------------------------- whole history

  datatype Snap<T> = Snap(content: T, modTime: int)

  ghost predicate Lists<T>(order: seq<Info>, h: map<string, Snap<T>>, names: set<string>) {
    && NamesOf(order) == names
    && (forall i :: 0 <= i < |order| ==> order[i].name in h && order[i].modTime == h[order[i].name].modTime)
    && Distinct(order)
  }

  function Unexpired<T>(h: map<string, Snap<T>>, cutoff: int): set<string> {
    set n | n in h && h[n].modTime >= cutoff
  }

  function NamesOf(order: seq<Info>): set<string> {
    set i | 0 <= i < |order| :: order[i].name
  }

  /** One of the orders the unexpired snapshots may be sorted in: those of equal age may come either way. */
  ghost predicate Sorts<T>(order: seq<Info>, h: map<string, Snap<T>>, cutoff: int) {
    Lists(order, h, Unexpired(h, cutoff)) && NewestFirst(order)
  }

  function Kept<T>(h: map<string, Snap<T>>, order: seq<Info>): map<string, Snap<T>> {
    map n | n in NamesOf(Thinned(order)) && n in h :: h[n]
  }

  /** after is what pruning may leave of before: the unexpired snapshots in some newest-first
      order, thinned. */
  ghost predicate Pruned<T(!new)>(before: map<string, Snap<T>>, after: map<string, Snap<T>>, cutoff: int) {
    exists order :: Sorts(order, before, cutoff) && after == Kept(before, order)
  }

  method InsertByTime(order: seq<Info>, x: Info) returns (r: seq<Info>)
    requires NewestFirst(order)
    ensures NewestFirst(r)
    ensures exists p :: 0 <= p <= |order| && r == order[..p] + [x] + order[p..]
  {
    var p := 0;
    while p < |order| && order[p].modTime > x.modTime
      invariant 0 <= p <= |order|
      invariant forall i :: 0 <= i < p ==> order[i].modTime > x.modTime
    {
      p := p + 1;
    }
    r := order[..p] + [x] + order[p..];
  }

  method SortNewestFirst<T>(h: map<string, Snap<T>>, names: set<string>) returns (order: seq<Info>)
    requires names <= h.Keys
    ensures Lists(order, h, names) && NewestFirst(order)
  {
    order := [];
    var todo := names;
    while todo != {}
      invariant todo <= names
      invariant Lists(order, h, names - todo) && NewestFirst(order)
      decreases |todo|
    {
      var n :| n in todo;
      var longer := InsertByTime(order, Info(n, h[n].modTime));
      InsertedLists(order, h, names - todo, n, longer);
      order := longer;
      todo := todo - {n};
      assert names - todo == names - (todo + {n}) + {n};
    }
    assert names - todo == names;
  }

  lemma InsertedLists<T>(order: seq<Info>, h: map<string, Snap<T>>, names: set<string>, n: string, r: seq<Info>)
    requires Lists(order, h, names) && n in h && n !in names
    requires exists p :: 0 <= p <= |order| && r == order[..p] + [Info(n, h[n].modTime)] + order[p..]
    ensures Lists(r, h, names + {n})
  {
    var x := Info(n, h[n].modTime);
    var p :| 0 <= p <= |order| && r == order[..p] + [x] + order[p..];
    InsertedNames(order, x, p, r);
    forall i | 0 <= i < |order| ensures order[i].name != n {
      assert order[i].name in NamesOf(order);
    }
    InsertedDistinct(order, n, x, p, r);
    forall i | 0 <= i < |r| ensures r[i].name in h && r[i].modTime == h[r[i].name].modTime {
      assert r[i] == if i == p then x else order[if i < p then i else i - 1];
    }
  }

  lemma InsertedDistinct(order: seq<Info>, n: string, x: Info, p: int, r: seq<Info>)
    requires Distinct(order)
    requires forall i :: 0 <= i < |order| ==> order[i].name != n
    requires 0 <= p <= |order| && r == order[..p] + [x] + order[p..] && x.name == n
    ensures Distinct(r)
  {
  }

  lemma InsertedNames(order: seq<Info>, x: Info, p: int, r: seq<Info>)
    requires 0 <= p <= |order| && r == order[..p] + [x] + order[p..]
    ensures NamesOf(r) == NamesOf(order) + {x.name}
  {
    forall n | n in NamesOf(r) ensures n in NamesOf(order) + {x.name} {
      var i :| 0 <= i < |r| && r[i].name == n;
      if i != p {
        assert order[if i < p then i else i - 1].name == n;
      }
    }
    forall n | n in NamesOf(order) ensures n in NamesOf(r) {
      var i :| 0 <= i < |order| && order[i].name == n;
      assert r[if i < p then i else i + 1].name == n;
    }
    assert r[p].name in NamesOf(r);
  }

  method Prune<T(!new)>(h: map<string, Snap<T>>, cutoff: int) returns (kept: map<string, Snap<T>>)
    ensures Pruned(h, kept, cutoff)
  {
    var todo := h.Keys;
    var names: set<string> := {};
    while todo != {}
      invariant todo <= h.Keys
      invariant names == Unexpired(h, cutoff) - todo
      decreases |todo|
    {
      var n :| n in todo;
      if h[n].modTime >= cutoff {
        names := names + {n};
      }
      todo := todo - {n};
    }
    assert names == Unexpired(h, cutoff);
    var order := SortNewestFirst(h, names);
    var snapshots := Thin(order);
    kept := map n | n in NamesOf(snapshots) && n in h :: h[n];
    assert Sorts(order, h, cutoff) && kept == Kept(h, order);
  }

  ghost predicate IsNewest<T>(h: map<string, Snap<T>>, cutoff: int, n: string) {
    && n in Unexpired(h, cutoff)
    && forall m :: m in Unexpired(h, cutoff) && m != n ==> h[m].modTime < h[n].modTime
  }

  ghost predicate IsOldest<T>(h: map<string, Snap<T>>, cutoff: int, n: string) {
    && n in Unexpired(h, cutoff)
    && forall m :: m in Unexpired(h, cutoff) && m != n ==> h[m].modTime > h[n].modTime
  }

  predicate FewEnough<T>(h: map<string, Snap<T>>, cutoff: int) {
    |Unexpired(h, cutoff)| <= MAX_HISTORY
  }

  /** What any prune keeps and drops: nothing expired stays, nothing else goes until more than
      100 are left, and the newest and the oldest always stay. */
  ghost predicate PruneOutcome<T(!new)>(before: map<string, Snap<T>>, after: map<string, Snap<T>>, cutoff: int) {
    && (forall n :: n in after ==> n in before && before[n].modTime >= cutoff && after[n] == before[n])
    && |after| <= MAX_HISTORY
    && (FewEnough(before, cutoff) ==> forall n :: n in before && before[n].modTime >= cutoff ==> n in after)
    && (forall n :: IsNewest(before, cutoff, n) || IsOldest(before, cutoff, n) ==> n in after)
  }

  lemma KeptNames<T>(order: seq<Info>, h: map<string, Snap<T>>, cutoff: int)
    requires Sorts(order, h, cutoff)
    ensures Kept(h, order).Keys == NamesOf(Thinned(order)) <= Unexpired(h, cutoff) && |Kept(h, order)| <= MAX_HISTORY
    ensures FewEnough(h, cutoff) ==> Kept(h, order).Keys == Unexpired(h, cutoff)
  {
    ThinnedNames(order, h, Unexpired(h, cutoff));
    var kept := Kept(h, order);
    assert kept.Keys == NamesOf(Thinned(order));
    assert |kept| == |kept.Keys|;
  }

  lemma PruneKeeps<T(!new)>(before: map<string, Snap<T>>, after: map<string, Snap<T>>, cutoff: int)
    requires Pruned(before, after, cutoff)
    ensures PruneOutcome(before, after, cutoff)
  {
    var recent := Unexpired(before, cutoff);
    var order :| Sorts(order, before, cutoff) && after == Kept(before, order);
    KeptNames(order, before, cutoff);
    forall n | n in after ensures n in before && before[n].modTime >= cutoff {
      assert n in recent;
    }
    if FewEnough(before, cutoff) {
      forall n | n in before && before[n].modTime >= cutoff ensures n in after {
        assert n in recent;
      }
    }
    forall n | IsNewest(before, cutoff, n) || IsOldest(before, cutoff, n) ensures n in after {
      EndpointThinned(order, before, recent, n);
    }
  }

  lemma PrunedRecent<T(!new)>(before: map<string, Snap<T>>, after: map<string, Snap<T>>, cutoff: int)
    requires Pruned(before, after, cutoff)
    ensures forall n :: n in after ==> n in Unexpired(before, cutoff) && after[n] == before[n]
    ensures |after| <= MAX_HISTORY
  {
    PruneKeeps(before, after, cutoff);
  }

  lemma RoomKeeps<T(!new)>(before: map<string, Snap<T>>, after: map<string, Snap<T>>, cutoff: int)
    requires Pruned(before, after, cutoff) && FewEnough(before, cutoff)
    ensures forall n :: n in before && before[n].modTime >= cutoff ==> n in after && after[n] == before[n]
  {
    PruneKeeps(before, after, cutoff);
  }

  /** Enough for a snapshot to survive any prune. */
  ghost predicate Stays<T>(h: map<string, Snap<T>>, cutoff: int, n: string) {
    FewEnough(h, cutoff) || IsNewest(h, cutoff, n) || IsOldest(h, cutoff, n)
  }

  lemma StaysKept<T(!new)>(h: map<string, Snap<T>>, after: map<string, Snap<T>>, cutoff: int, n: string)
    requires Pruned(h, after, cutoff) && n in Unexpired(h, cutoff) && Stays(h, cutoff, n)
    ensures n in after && after[n] == h[n]
  {
    PruneKeeps(h, after, cutoff);
  }

  lemma ThinnedFewerNames(order: seq<Info>)
    ensures NamesOf(Thinned(order)) <= NamesOf(order)
  {
    var at := KeptAt(order);
    ThinnedIsSubsequence(order);
    forall n | n in NamesOf(Thinned(order)) ensures n in NamesOf(order) {
      var k :| 0 <= k < |at| && Thinned(order)[k].name == n;
      assert order[at[k]].name == n;
    }
  }

  lemma ThinnedNames<T>(order: seq<Info>, h: map<string, Snap<T>>, names: set<string>)
    requires Lists(order, h, names) && NewestFirst(order)
    ensures NamesOf(Thinned(order)) <= names && |NamesOf(Thinned(order))| <= MAX_HISTORY
    ensures |names| <= MAX_HISTORY ==> NamesOf(Thinned(order)) == names
  {
    NamesBounded(order);
    ThinnedFewerNames(order);
    ThinnedKeeps(order, 0);
    NamesBounded(Thinned(order));
  }

  lemma EndpointThinned<T>(order: seq<Info>, h: map<string, Snap<T>>, names: set<string>, n: string)
    requires Lists(order, h, names) && NewestFirst(order) && n in names
    requires (forall m :: m in names && m != n ==> h[m].modTime < h[n].modTime)
          || (forall m :: m in names && m != n ==> h[m].modTime > h[n].modTime)
    ensures n in NamesOf(Thinned(order))
  {
    var i :| 0 <= i < |order| && order[i].name == n;
    var first, last, thin := order[0], order[|order| - 1], Thinned(order);
    assert first.name in names && last.name in names;
    assert first.modTime >= order[i].modTime >= last.modTime;
    ThinnedKeeps(order, 0);
    assert first.name == n || last.name == n;
    assert thin[0].name == n || thin[|thin| - 1].name == n;
  }

  lemma NamesExtended(s: seq<Info>)
    requires s != []
    ensures NamesOf(s) == NamesOf(s[..|s| - 1]) + {s[|s| - 1].name}
  {
    var front := s[..|s| - 1];
    InsertedNames(front, s[|s| - 1], |front|, s);
  }

  predicate Distinct(s: seq<Info>) {
    forall i, j :: 0 <= i < j < |s| ==> s[i].name != s[j].name
  }

  lemma {:induction false} NamesBounded(s: seq<Info>)
    ensures |NamesOf(s)| <= |s|
    ensures Distinct(s) ==> |NamesOf(s)| == |s|
  {
    if s != [] {
      var front, last := s[..|s| - 1], s[|s| - 1].name;
      NamesBounded(front);
      NamesExtended(s);
      if Distinct(s) {
        assert Distinct(front) && last !in NamesOf(front);
      }
    }
  }
}
