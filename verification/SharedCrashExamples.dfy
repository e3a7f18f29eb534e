/** Two accepted rotations that one crash leaves without ciphertext any copy of a key opens: of a vault never
    written, and of one with a full history and a clock that was set back. */
module SharedCrashExamples {
  import opened Outcomes
  import opened HistoryIds
  import opened HistoryThinning
  import opened HistoryLoss
  import opened SharedRotation
  import opened SharedCrashes
  import M = SharedVault
  import F = VaultFiles

  const RETENTION: F.Time := 90 * 86_400 * F.SECOND

  // ---------------------------------------------------------------- a record with one owner

  const SEALED := M.SealedKey(0, Some(M.SEALED_KEY_BYTES))
  const OWNER := M.Member(M.Owner, M.Active, None, SEALED, "o", "f", "f", 1, 0, Some(0))
  const RECORD := M.Vault("sv_0123456789012345678901", 1, map["o" := OWNER], None, None)
  const ROTATE := M.Op.Rotate("o", 1, [M.SealedFor("o", SEALED, "f")])

  lemma NotRefused()
    ensures M.RotateRefusal(RECORD, ROTATE) == None
  {
    assert "o" in M.ActiveOwners(RECORD);
    assert ROTATE.copies[0].userId in M.Named(ROTATE.copies);
    assert "o" in M.PostRotationOwners(RECORD, M.Named(ROTATE.copies));
  }

  function Rekeying(version: nat): Rotation {
    Rotation(ROTATE, F.Save(version, F.Blob(2, 0), None, None, "", false, true, None, 0, true), true, true)
  }

  // ---------------------------------------------------------------- never written

  /** The rotation of a vault never written is accepted; stopped between its two commits it leaves the old record
      over ciphertext of the new key, and no snapshot. */
  lemma NeverWrittenCrash() returns (w: World, r: Rotation, rekeyed: F.Dir, x: World)
    ensures w == World(RECORD, F.EMPTY_DIR) && Accepted(w, r) && F.SaveLeaves(w.dir, r.save, rekeyed, RETENTION)
    ensures RotationStop(w, r, rekeyed, x) && !Openable(w, r, x)
  {
    NotRefused();
    w, r := World(RECORD, F.EMPTY_DIR), Rekeying(0);
    assert Accepted(w, r);
    var committed := F.SaveCommitted(w.dir, r.save);
    rekeyed := committed.(history := Kept(committed.history, []));
    assert Sorts([], committed.history, r.save.now - RETENTION);
    assert F.SaveLeaves(w.dir, r.save, rekeyed, RETENTION);
    NeverWrittenStopsOpenableIff(w, r, rekeyed, RETENTION);
    x :| RotationStop(w, r, rekeyed, x) && !Openable(w, r, x);
  }

  // ---------------------------------------------------------------- a full history

  function Names(n: nat): set<string> {
    set v: nat | 1 <= v <= n :: HistoryId(0, v)
  }

  /** When version v was archived: the first fifty before the clock was set back past them all. */
  function AgeOf(v: int): int {
    if v > 100 then 0 else if v <= 50 then 10 * (50 - v) + 2 else -10 * (v - 51) - 2
  }

  function FullHistory(): F.History {
    map id | id in Names(100) :: Snap(F.Blob(1, HistoryVersion(id)), AgeOf(HistoryVersion(id)))
  }

  function FullDir(): F.Dir {
    F.Dir(F.Metadata(101, F.Sum(F.Blob(1, 1000)), 0, "", None, None, map[], 0, None), Some(F.Blob(1, 1000)), FullHistory(), map[])
  }

  /** With its archive, newest first: the archive is in the middle. */
  function VersionAt(i: nat): nat {
    if i < 50 then i + 1 else if i == 50 then 101 else i
  }

  function Order(): (order: seq<Info>)
    ensures |order| == 101
    ensures forall i :: 0 <= i < 101 ==> order[i] == Info(HistoryId(0, VersionAt(i)), AgeOf(VersionAt(i)))
  {
    seq(101, i requires 0 <= i < 101 => Info(HistoryId(0, VersionAt(i)), AgeOf(VersionAt(i))))
  }

  lemma NameOf(v: nat)
    requires v <= 101
    ensures HistoryVersion(HistoryId(0, v)) == v
  {
    HistoryVersionRoundTrip(0, v);
  }

  lemma {:induction false} NameCount(n: nat)
    ensures |Names(n)| <= n
  {
    if n > 0 {
      NameCount(n - 1);
      assert Names(n) == Names(n - 1) + {HistoryId(0, n)};
    }
  }

  lemma FullAccepted()
    ensures Accepted(World(RECORD, FullDir()), Rekeying(101)) && Bounded(FullDir())
  {
    NotRefused();
    var d := FullDir();
    forall id | id in d.history ensures HistoryVersion(id) <= 101 && d.history[id].content.key == 1 {
      var v: nat :| 1 <= v <= 100 && id == HistoryId(0, v);
      NameOf(v);
    }
    NameCount(100);
    assert FullHistory().Keys == Names(100);
    assert |FullHistory()| == |FullHistory().Keys|;
    assert Agrees(World(RECORD, d));
  }

  function Archived(): (h: F.History) {
    F.SaveArchived(FullDir(), Rekeying(101).save).history
  }

  lemma ArchivedIs()
    ensures Archived() == FullHistory()[HistoryId(0, 101) := Snap(F.Blob(1, 1000), 0)]
  {
  }

  lemma OrderDistinct()
    ensures Distinct(Order())
  {
    var order := Order();
    forall i, j | 0 <= i < j < |order| ensures order[i].name != order[j].name {
      NameOf(VersionAt(i));
      NameOf(VersionAt(j));
    }
  }

  lemma OrderAges(i: nat)
    requires i < 101
    ensures HistoryId(0, VersionAt(i)) in Archived() && Archived()[HistoryId(0, VersionAt(i))].modTime == AgeOf(VersionAt(i))
    ensures Archived()[HistoryId(0, VersionAt(i))].content == F.Blob(1, if i == 50 then 1000 else VersionAt(i))
  {
    ArchivedIs();
    NameOf(VersionAt(i));
    NameOf(101);
    if i != 50 {
      assert HistoryId(0, VersionAt(i)) in Names(100);
    }
  }

  lemma Listed(n: string)
    requires n in Archived()
    ensures n in NamesOf(Order())
  {
    ArchivedIs();
    var v: nat :| 1 <= v <= 101 && n == HistoryId(0, v);
    assert Order()[if v <= 50 then v - 1 else if v == 101 then 50 else v].name == n;
  }

  lemma OrderSorts(cutoff: int)
    requires cutoff <= -1_000
    ensures Sorts(Order(), Archived(), cutoff)
  {
    var order, h := Order(), Archived();
    OrderDistinct();
    forall i | 0 <= i < |order| ensures order[i].name in h && order[i].modTime == h[order[i].name].modTime >= cutoff {
      OrderAges(i);
    }
    forall n | n in Unexpired(h, cutoff) ensures n in NamesOf(order) {
      Listed(n);
    }
    assert NamesOf(order) == Unexpired(h, cutoff);
  }

  lemma Spans(i: nat)
    requires 0 < i < 100
    ensures Span(Order(), i) == AgeOf(VersionAt(i - 1)) - AgeOf(VersionAt(i + 1))
    ensures if i == 50 then Span(Order(), i) == 4 else Span(Order(), i) >= 12
  {
  }

  lemma ArchiveIsLeast()
    ensures LeastSpan(Order(), MAX_HISTORY) == 50
  {
    var r := LeastSpan(Order(), MAX_HISTORY);
    LeastSpanIsLeast(Order(), MAX_HISTORY);
    Spans(50);
    Spans(r);
    assert Span(Order(), r) <= Span(Order(), 50);
  }

  lemma OnlyCopyLost(cutoff: int)
    requires cutoff <= -1_000
    ensures Sorts(Order(), Archived(), cutoff)
    ensures forall id :: id in Kept(Archived(), Order()) ==> Archived()[id].content != F.Blob(1, 1000)
  {
    var order, h := Order(), Archived();
    OrderSorts(cutoff);
    ArchiveIsLeast();
    LostAtMostOne(order, 0);
    KeptName(order, h, cutoff, 50);
    KeptNames(order, h, cutoff);
    forall id | id in Kept(h, order) ensures h[id].content != F.Blob(1, 1000) {
      var i :| 0 <= i < |order| && order[i].name == id;
      OrderAges(i);
    }
  }

  lemma NothingLeft() returns (rekeyed: F.Dir)
    ensures F.SaveLeaves(FullDir(), Rekeying(101).save, rekeyed, RETENTION) && !CanRollBackTo(rekeyed, FullDir().kdbx)
  {
    var s := Rekeying(101).save;
    FullAccepted();
    OnlyCopyLost(s.now - RETENTION);
    var kept := Kept(Archived(), Order());
    assert !OneCopyKept(FullDir(), s, kept, RETENTION);
    rekeyed := LosingOutcome(FullDir(), s, kept, RETENTION);
  }

  /** A rotation of a vault with a full history, the clock having been set back into the middle of it: the archive
      is the least separated snapshot, pruning removes it, and a crash before the record commits leaves the old
      record with nothing to roll back to. */
  lemma FullHistoryCrash() returns (w: World, r: Rotation, rekeyed: F.Dir, x: World)
    ensures w.dir.meta.version > 0 && Bounded(w.dir) && Accepted(w, r) && F.SaveLeaves(w.dir, r.save, rekeyed, RETENTION)
    ensures RotationStop(w, r, rekeyed, x) && !Openable(w, r, x)
  {
    w, r := World(RECORD, FullDir()), Rekeying(101);
    FullAccepted();
    rekeyed := NothingLeft();
    StopsOpenableIff(w, r, rekeyed, RETENTION);
    x :| RotationStop(w, r, rekeyed, x) && !Openable(w, r, x);
  }
}
