/** Exactly when pruning can lose every one of some snapshots. Which positions of the sorted history go depends
    on the ages alone; which file stands at a position is open between files of equal age. */
module HistoryLoss {
  import opened HistoryThinning

  predicate SameAges(s: seq<Info>, t: seq<Info>) {
    |s| == |t| && forall i :: 0 <= i < |s| ==> s[i].modTime == t[i].modTime
  }

  lemma {:induction false} SameLeastSpan(s: seq<Info>, t: seq<Info>, n: int)
    requires SameAges(s, t) && 2 <= n <= |s| - 1
    ensures LeastSpan(s, n) == LeastSpan(t, n)
  {
    if n > 2 {
      SameLeastSpan(s, t, n - 1);
    }
  }

  /** Thinning keeps the same positions of two histories of the same ages. */
  lemma {:induction false} SameKept(s: seq<Info>, t: seq<Info>)
    requires SameAges(s, t)
    ensures KeptAt(s) == KeptAt(t)
    decreases |s|
  {
    if |s| > MAX_HISTORY {
      var fewer, others, r := SameRemoval(s, t);
      SameKept(fewer, others);
    } else {
      KeptAll(s);
      KeptAll(t);
    }
  }

  lemma SameRemoval(s: seq<Info>, t: seq<Info>) returns (fewer: seq<Info>, others: seq<Info>, r: int)
    requires SameAges(s, t) && |s| > MAX_HISTORY
    ensures SameAges(fewer, others) && |fewer| < |s|
    ensures KeptAt(s) == PastGap(KeptAt(fewer), r) && KeptAt(t) == PastGap(KeptAt(others), r)
  {
    r := LeastSpan(s, |s| - 1);
    SameLeastSpan(s, t, |s| - 1);
    SameWithout(s, t, r);
    KeptStep(s, r);
    KeptStep(t, r);
    fewer, others := Without(s, r), Without(t, r);
  }

  lemma SameWithout(s: seq<Info>, t: seq<Info>, r: int)
    requires SameAges(s, t) && 0 <= r < |s|
    ensures SameAges(Without(s, r), Without(t, r)) && |Without(s, r)| == |s| - 1
  {
  }

  lemma KeptAll(s: seq<Info>)
    requires |s| <= MAX_HISTORY
    ensures KeptAt(s) == Positions(|s|)
  {
  }

  lemma KeptStep(s: seq<Info>, r: int)
    requires |s| > MAX_HISTORY && r == LeastSpan(s, |s| - 1)
    ensures KeptAt(s) == PastGap(KeptAt(Without(s, r)), r)
  {
  }

  /** The positions of one age that thinning removes. */
  function LostAt(s: seq<Info>, age: int): set<int> {
    set i | 0 <= i < |s| && s[i].modTime == age && i !in KeptAt(s)
  }

  function OfAge<T>(h: map<string, Snap<T>>, names: set<string>, age: int): set<string> {
    set n | n in names && n in h && h[n].modTime == age
  }

  /** Of one age there are more of these than positions that go. */
  predicate Outnumbers<T>(h: map<string, Snap<T>>, names: set<string>, order: seq<Info>, age: int) {
    |OfAge(h, names, age)| > |LostAt(order, age)|
  }

  lemma KeptName<T>(order: seq<Info>, h: map<string, Snap<T>>, cutoff: int, i: int)
    requires Sorts(order, h, cutoff) && 0 <= i < |order|
    ensures order[i].name in Kept(h, order) <==> i in KeptAt(order)
  {
    var at, thin := KeptAt(order), Thinned(order);
    ThinnedIsSubsequence(order);
    if i in at {
      var k :| 0 <= k < |at| && at[k] == i;
      assert thin[k].name == order[i].name;
    }
    if order[i].name in NamesOf(thin) {
      var k :| 0 <= k < |thin| && thin[k].name == order[i].name;
      assert order[at[k]].name == order[i].name;
      assert at[k] == i;
    }
  }

  // ---------------------------------------------------------------- any two orders have the same ages

  lemma Fewer(a: set<string>, b: set<string>)
    requires a <= b
    ensures |a| <= |b|
  {
    assert b == a + (b - a);
  }

  lemma NotNewerAt<T>(s: seq<Info>, t: seq<Info>, h: map<string, Snap<T>>, cutoff: int, i: int)
    requires Sorts(s, h, cutoff) && Sorts(t, h, cutoff) && |s| == |t| && 0 <= i < |s|
    ensures s[i].modTime <= t[i].modTime
  {
    if s[i].modTime > t[i].modTime {
      var newer, room := s[..i + 1], t[..i];
      NamesBounded(newer);
      NamesBounded(room);
      forall n | n in NamesOf(newer) ensures n in NamesOf(room) {
        var j :| 0 <= j < |newer| && newer[j].name == n;
        assert s[j].name in Unexpired(h, cutoff) && s[j].modTime == h[n].modTime >= s[i].modTime;
        var k :| 0 <= k < |t| && t[k].name == n;
        assert t[k].modTime > t[i].modTime;
        assert k < i && room[k].name == n;
      }
      Fewer(NamesOf(newer), NamesOf(room));
      assert false;
    }
  }

  lemma SortsSameAges<T>(s: seq<Info>, t: seq<Info>, h: map<string, Snap<T>>, cutoff: int)
    requires Sorts(s, h, cutoff) && Sorts(t, h, cutoff)
    ensures SameAges(s, t)
  {
    NamesBounded(s);
    NamesBounded(t);
    forall i | 0 <= i < |s| ensures s[i].modTime == t[i].modTime {
      NotNewerAt(s, t, h, cutoff, i);
      NotNewerAt(t, s, h, cutoff, i);
    }
  }

  // ---------------------------------------------------------------- enough of one age: one is kept

  lemma Pick(at: set<int>) returns (i: int)
    requires at != {}
    ensures i in at
  {
    assert (forall j: int :: j !in at) ==> at == {};
    i :| i in at;
  }

  function NamesAt(s: seq<Info>, at: set<int>): set<string> {
    set i | i in at && 0 <= i < |s| :: s[i].name
  }

  lemma {:induction false} NoMoreNames(s: seq<Info>, at: set<int>)
    ensures |NamesAt(s, at)| <= |at|
    decreases |at|
  {
    if at != {} {
      var i := Pick(at);
      NoMoreNames(s, at - {i});
      var extra := if 0 <= i < |s| then {s[i].name} else {};
      assert NamesAt(s, at) == NamesAt(s, at - {i}) + extra;
    }
  }

  ghost predicate OneKept<T>(names: set<string>, after: map<string, Snap<T>>) {
    exists n :: n in names && n in after
  }

  ghost predicate OneAlwaysKept<T(!new)>(h: map<string, Snap<T>>, cutoff: int, names: set<string>) {
    forall after :: Pruned(h, after, cutoff) ==> OneKept(names, after)
  }

  lemma EnoughKeepsOne<T(!new)>(h: map<string, Snap<T>>, cutoff: int, names: set<string>, order: seq<Info>, age: int,
                                after: map<string, Snap<T>>)
    requires Sorts(order, h, cutoff) && names <= Unexpired(h, cutoff) && Outnumbers(h, names, order, age)
    requires Pruned(h, after, cutoff)
    ensures OneKept(names, after)
  {
    var s: seq<Info> :| Sorts(s, h, cutoff) && after == Kept(h, s);
    SortsSameAges(order, s, h, cutoff);
    SameKept(order, s);
    if forall n :: n in names ==> n !in after {
      forall n | n in OfAge(h, names, age) ensures n in NamesAt(s, LostAt(order, age)) {
        assert n in Unexpired(h, cutoff);
        var i :| 0 <= i < |s| && s[i].name == n;
        KeptName(s, h, cutoff, i);
        assert i in LostAt(order, age);
      }
      Fewer(OfAge(h, names, age), NamesAt(s, LostAt(order, age)));
      NoMoreNames(s, LostAt(order, age));
      assert false;
    }
  }

  // ---------------------------------------------------------------- not enough of any: all can go

  function Swapped(s: seq<Info>, p: int, q: int): seq<Info>
    requires 0 <= p < |s| && 0 <= q < |s|
  {
    s[p := s[q]][q := s[p]]
  }

  lemma SwapNames(s: seq<Info>, p: int, q: int)
    requires 0 <= p < |s| && 0 <= q < |s|
    ensures NamesOf(Swapped(s, p, q)) == NamesOf(s)
  {
    var t := Swapped(s, p, q);
    forall n | n in NamesOf(s) ensures n in NamesOf(t) {
      var i :| 0 <= i < |s| && s[i].name == n;
      assert t[if i == p then q else if i == q then p else i].name == n;
    }
    forall n | n in NamesOf(t) ensures n in NamesOf(s) {
      var i :| 0 <= i < |t| && t[i].name == n;
      assert s[if i == p then q else if i == q then p else i].name == n;
    }
  }

  lemma SwapSorts<T>(h: map<string, Snap<T>>, cutoff: int, s: seq<Info>, p: int, q: int)
    requires Sorts(s, h, cutoff) && 0 <= p < |s| && 0 <= q < |s| && s[p].modTime == s[q].modTime
    ensures Sorts(Swapped(s, p, q), h, cutoff) && SameAges(s, Swapped(s, p, q))
  {
    SwapNames(s, p, q);
  }

  function KeptOf(s: seq<Info>, names: set<string>): set<int> {
    set i | 0 <= i < |s| && s[i].name in names && i in KeptAt(s)
  }

  /** A lost position of the age of a kept one, held by another file, if these do not outnumber the lost. */
  lemma RoomToLose<T>(h: map<string, Snap<T>>, cutoff: int, names: set<string>, s: seq<Info>, p: int) returns (q: int)
    requires Sorts(s, h, cutoff) && p in KeptOf(s, names) && !Outnumbers(h, names, s, s[p].modTime)
    ensures q in LostAt(s, s[p].modTime) && s[q].name !in names
  {
    var age := s[p].modTime;
    var lost, held := LostAt(s, age), OfAge(h, names, age);
    if forall i :: i in lost ==> s[i].name in names {
      LostDistinct(s, lost);
      forall n | n in NamesAt(s, lost) ensures n in held - {s[p].name} {
        var i :| i in lost && 0 <= i < |s| && s[i].name == n;
        assert i != p;
      }
      assert s[p].name in held && |held - {s[p].name}| == |held| - 1;
      Fewer(NamesAt(s, lost), held - {s[p].name});
      assert false;
    }
    q :| q in lost && s[q].name !in names;
  }

  lemma {:induction false} LostDistinct(s: seq<Info>, at: set<int>)
    requires forall i :: i in at ==> 0 <= i < |s|
    requires Distinct(s)
    ensures |NamesAt(s, at)| == |at|
    decreases |at|
  {
    if at != {} {
      var i := Pick(at);
      LostDistinct(s, at - {i});
      assert NamesAt(s, at) == NamesAt(s, at - {i}) + {s[i].name};
      assert s[i].name !in NamesAt(s, at - {i});
    }
  }

  ghost predicate NoneOutnumber<T>(h: map<string, Snap<T>>, names: set<string>, order: seq<Info>) {
    forall age :: !Outnumbers(h, names, order, age)
  }

  lemma SameLost<T>(h: map<string, Snap<T>>, names: set<string>, s: seq<Info>, t: seq<Info>)
    requires SameAges(s, t) && NoneOutnumber(h, names, s)
    ensures NoneOutnumber(h, names, t)
  {
    SameKept(s, t);
    forall age ensures !Outnumbers(h, names, t, age) {
      assert LostAt(t, age) == LostAt(s, age);
      assert !Outnumbers(h, names, s, age);
    }
  }

  lemma SwapLoses(s: seq<Info>, names: set<string>, p: int, q: int)
    requires p in KeptOf(s, names) && q in LostAt(s, s[p].modTime) && s[q].name !in names
    ensures KeptOf(Swapped(s, p, q), names) == KeptOf(s, names) - {p}
  {
    var t := Swapped(s, p, q);
    SameKept(s, t);
    forall i | i in KeptOf(t, names) ensures i in KeptOf(s, names) - {p} {
    }
    forall i | i in KeptOf(s, names) - {p} ensures i in KeptOf(t, names) {
      assert i != q;
    }
  }

  lemma {:induction false} AllCanGo<T>(h: map<string, Snap<T>>, cutoff: int, names: set<string>, order: seq<Info>) returns (s: seq<Info>)
    requires Sorts(order, h, cutoff) && NoneOutnumber(h, names, order)
    ensures Sorts(s, h, cutoff) && KeptOf(s, names) == {}
    decreases |KeptOf(order, names)|
  {
    if KeptOf(order, names) == {} {
      s := order;
    } else {
      var p := Pick(KeptOf(order, names));
      assert !Outnumbers(h, names, order, order[p].modTime);
      var q := RoomToLose(h, cutoff, names, order, p);
      SwapSorts(h, cutoff, order, p, q);
      SameLost(h, names, order, Swapped(order, p, q));
      SwapLoses(order, names, p, q);
      s := AllCanGo(h, cutoff, names, Swapped(order, p, q));
    }
  }

  /** Every prune keeps one of these exactly when, at some age, they outnumber the positions that go. */
  lemma OneKeptIff<T(!new)>(h: map<string, Snap<T>>, cutoff: int, names: set<string>, order: seq<Info>)
    requires Sorts(order, h, cutoff) && names <= Unexpired(h, cutoff)
    ensures OneAlwaysKept(h, cutoff, names) <==> exists age :: Outnumbers(h, names, order, age)
  {
    if age :| Outnumbers(h, names, order, age) {
      forall after | Pruned(h, after, cutoff) ensures OneKept(names, after) {
        EnoughKeepsOne(h, cutoff, names, order, age, after);
      }
    } else {
      assert NoneOutnumber(h, names, order);
      var s := AllCanGo(h, cutoff, names, order);
      var after := Kept(h, s);
      assert Pruned(h, after, cutoff);
      forall n | n in names ensures n !in after {
        assert n in Unexpired(h, cutoff);
        var i :| 0 <= i < |s| && s[i].name == n;
        KeptName(s, h, cutoff, i);
        assert i !in KeptOf(s, names);
      }
    }
  }

  // ---------------------------------------------------------------- which can stay

  predicate AgeStays(order: seq<Info>, age: int) {
    exists i :: 0 <= i < |order| && i in KeptAt(order) && order[i].modTime == age
  }

  /** Some prune keeps a snapshot exactly when some position of its age stays. */
  lemma MayStayIff<T(!new)>(h: map<string, Snap<T>>, cutoff: int, n: string, order: seq<Info>)
    requires Sorts(order, h, cutoff) && n in Unexpired(h, cutoff)
    ensures (exists after :: Pruned(h, after, cutoff) && n in after) <==> AgeStays(order, h[n].modTime)
  {
    if after :| Pruned(h, after, cutoff) && n in after {
      var s: seq<Info> :| Sorts(s, h, cutoff) && after == Kept(h, s);
      SortsSameAges(order, s, h, cutoff);
      SameKept(order, s);
      var i :| 0 <= i < |s| && s[i].name == n;
      KeptName(s, h, cutoff, i);
      assert order[i].modTime == h[n].modTime;
    }
    if AgeStays(order, h[n].modTime) {
      var i :| 0 <= i < |order| && i in KeptAt(order) && order[i].modTime == h[n].modTime;
      var p :| 0 <= p < |order| && order[p].name == n;
      var s := Swapped(order, p, i);
      SwapSorts(h, cutoff, order, p, i);
      SameKept(order, s);
      KeptName(s, h, cutoff, i);
      assert Pruned(h, Kept(h, s), cutoff) && n in Kept(h, s);
    }
  }

  // ---------------------------------------------------------------- up to one file too many

  lemma LostAtMostOne(order: seq<Info>, age: int)
    requires |order| <= MAX_HISTORY + 1
    ensures LostAt(order, age) == if |order| > MAX_HISTORY && order[LeastSpan(order, MAX_HISTORY)].modTime == age
                                  then {LeastSpan(order, MAX_HISTORY)} else {}
  {
    if |order| > MAX_HISTORY {
      var r := LeastSpan(order, MAX_HISTORY);
      var at := KeptAt(order);
      var inner := Positions(MAX_HISTORY);
      assert KeptAt(Without(order, r)) == inner;
      assert at == PastGap(inner, r);
      forall i | 0 <= i < |order| ensures i in at <==> i != r {
        if i < r {
          assert at[i] == i;
        } else if i > r {
          assert at[i - 1] == i;
        }
      }
    } else {
      forall i | 0 <= i < |order| ensures i in KeptAt(order) {
        assert KeptAt(order)[i] == i;
      }
    }
  }

  /** With at most 101 recent snapshots, as after any one write, a snapshot survives every prune exactly when
      there is room or the one of least span is of another age. */
  lemma SurvivesIff<T(!new)>(h: map<string, Snap<T>>, cutoff: int, n: string, order: seq<Info>)
    requires Sorts(order, h, cutoff) && n in Unexpired(h, cutoff) && |order| <= MAX_HISTORY + 1
    ensures (forall after :: Pruned(h, after, cutoff) ==> n in after)
       <==> |order| <= MAX_HISTORY || order[LeastSpan(order, MAX_HISTORY)].modTime != h[n].modTime
  {
    OneKeptIff(h, cutoff, {n}, order);
    forall age ensures Outnumbers(h, {n}, order, age) <==> age == h[n].modTime && LostAt(order, age) == {} {
      LostAtMostOne(order, age);
      assert OfAge(h, {n}, age) == if age == h[n].modTime then {n} else {};
    }
    LostAtMostOne(order, h[n].modTime);
    assert forall after: map<string, Snap<T>> :: OneKept({n}, after) <==> n in after;
  }

  /** There is always an order to read these conditions off, and by `SortsSameAges` any one will do. */
  lemma SomeOrder<T>(h: map<string, Snap<T>>, cutoff: int) returns (order: seq<Info>)
    ensures Sorts(order, h, cutoff)
  {
    order := SortedFrom(h, Unexpired(h, cutoff));
  }

  lemma {:induction false} SortedFrom<T>(h: map<string, Snap<T>>, names: set<string>) returns (order: seq<Info>)
    requires names <= h.Keys
    ensures Lists(order, h, names) && NewestFirst(order)
    decreases |names|
  {
    if names == {} {
      order := [];
    } else {
      var n :| n in names;
      var rest := SortedFrom(h, names - {n});
      var x := Info(n, h[n].modTime);
      var p := Place(rest, x.modTime);
      order := rest[..p] + [x] + rest[p..];
      InsertedLists(rest, h, names - {n}, n, order);
      InsertedSorted(rest, x, p);
      assert names - {n} + {n} == names;
    }
  }

  lemma InsertedSorted(s: seq<Info>, x: Info, p: nat)
    requires NewestFirst(s) && p <= |s|
    requires (forall i :: 0 <= i < p ==> s[i].modTime >= x.modTime) && (forall i :: p <= i < |s| ==> s[i].modTime <= x.modTime)
    ensures NewestFirst(s[..p] + [x] + s[p..])
  {
  }

  lemma {:induction false} Place(s: seq<Info>, age: int) returns (p: nat)
    requires NewestFirst(s)
    ensures p <= |s| && (forall i :: 0 <= i < p ==> s[i].modTime >= age) && (forall i :: p <= i < |s| ==> s[i].modTime <= age)
  {
    p := |s|;
    if s != [] && s[|s| - 1].modTime < age {
      p := Place(s[..|s| - 1], age);
    }
  }
}
