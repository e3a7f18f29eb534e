/** One crash anywhere in a rotation of a shared vault: what may be on disk, and exactly when the vault can
    still be opened. */
module SharedCrashes {
  import opened Outcomes
  import opened HistoryIds
  import opened HistoryThinning
  import opened HistoryLoss
  import opened SharedRotation
  import M = SharedVault
  import F = VaultFiles

  /** The states a rotation's process can stop in. */
  ghost predicate RotationStop(w: World, r: Rotation, rekeyed: F.Dir, x: World)
    requires r.op.Rotate? && r.op.actor in w.record.members
  {
    || (x.record == w.record && F.SaveStop(w.dir, r.save, rekeyed, x.dir))
    || (x.record == M.Rotated(w.record, r.op) && F.ClearStop(Marked(rekeyed, r.marks), x.dir))
    || (x.record == M.Rotated(w.record, r.op) && x.dir == rekeyed)
  }

  /** The vault can still be opened: under the old record by the old ciphertext, current or one
      rollback away; or under the new record by ciphertext of the key it seals. */
  ghost predicate Openable(w: World, r: Rotation, x: World)
    requires r.op.Rotate? && r.op.actor in w.record.members
  {
    || (x.record == w.record && x.dir.kdbx == w.dir.kdbx)
    || (x.record == w.record && CanRollBackTo(x.dir, w.dir.kdbx))
    || (x.record == M.Rotated(w.record, r.op) && x.dir.kdbx.Some? && x.dir.kdbx.value.key == x.record.keyEpoch)
  }

  ghost predicate CanRollBackTo(d: F.Dir, kdbx: Option<F.Blob>) {
    exists id :: RollsBackTo(d, id, kdbx)
  }

  ghost predicate RollsBackTo(d: F.Dir, id: string, kdbx: Option<F.Blob>) {
    F.RestoreRefusal(d, id) == None && kdbx == Some(d.history[id].content)
  }

  /** A rotation that is not refused, by a client whose bytes are under the next epoch's key. */
  ghost predicate Accepted(w: World, r: Rotation) {
    && Agrees(w) && w.dir.meta.version <= MAX_INT64
    && RotationShape(r) && Honest(Rotate(r))
    && M.RotateRefusal(w.record, r.op) == None && F.SaveRefusal(w.dir, r.save) == None
  }

  // ---------------------------------------------------------------- one outcome of the write

  /** Before pruning the old ciphertext is in the history, under a name a rollback opens. */
  lemma ArchiveRollsBack(w: World, r: Rotation, x: F.Dir)
    requires Accepted(w, r) && w.dir.meta.version > 0
    requires x.meta.keyEpochSince == w.dir.meta.keyEpochSince && x.history == F.SaveArchived(w.dir, r.save).history
    ensures RollsBackTo(x, F.ArchiveId(w.dir.meta), w.dir.kdbx)
  {
    HistoryVersionRoundTrip(F.Unix(w.dir.meta.updatedAt), w.dir.meta.version);
    ArchiveNameUsable(F.Unix(w.dir.meta.updatedAt), w.dir.meta.version);
  }

  lemma StillRollsBack(d: F.Dir, x: F.Dir, id: string, kdbx: Option<F.Blob>)
    requires RollsBackTo(d, id, kdbx) && x.meta.keyEpochSince == d.meta.keyEpochSince
    requires id in x.history && x.history[id] == d.history[id]
    ensures CanRollBackTo(x, kdbx)
  {
    assert RollsBackTo(x, id, kdbx);
  }

  lemma MoreRollsBack(d: F.Dir, x: F.Dir, kdbx: Option<F.Blob>)
    requires x.meta == d.meta && CanRollBackTo(d, kdbx)
    requires forall id :: id in d.history ==> id in x.history && x.history[id] == d.history[id]
    ensures CanRollBackTo(x, kdbx)
  {
    var id :| RollsBackTo(d, id, kdbx);
    StillRollsBack(d, x, id, kdbx);
  }

  lemma BeforeRecordOpenable(w: World, r: Rotation, rekeyed: F.Dir, x: F.Dir, retention: F.Time)
    requires Accepted(w, r) && F.SaveLeaves(w.dir, r.save, rekeyed, retention) && F.SaveStop(w.dir, r.save, rekeyed, x)
    requires w.dir.meta.version > 0 && CanRollBackTo(rekeyed, w.dir.kdbx)
    ensures x.kdbx == w.dir.kdbx || CanRollBackTo(x, w.dir.kdbx)
  {
    if F.PruneStop(F.SaveCommitted(w.dir, r.save), rekeyed.history, x) {
      PrunedRecent(F.SaveCommitted(w.dir, r.save).history, rekeyed.history, r.save.now - retention);
      MoreRollsBack(rekeyed, x, w.dir.kdbx);
    } else if x == F.SaveSwapped(w.dir, r.save) {
      ArchiveRollsBack(w, r, x);
    }
  }

  lemma AfterRecordOpenable(w: World, r: Rotation, rekeyed: F.Dir, x: World, retention: F.Time)
    requires Accepted(w, r) && F.SaveLeaves(w.dir, r.save, rekeyed, retention)
    requires x.record == M.Rotated(w.record, r.op) && (x.dir == rekeyed || F.ClearStop(Marked(rekeyed, r.marks), x.dir))
    ensures Openable(w, r, x)
  {
  }

  ghost predicate EveryStopOpenable(w: World, r: Rotation, rekeyed: F.Dir)
    requires r.op.Rotate? && r.op.actor in w.record.members
  {
    forall x :: RotationStop(w, r, rekeyed, x) ==> Openable(w, r, x)
  }

  /** Whether every crash leaves a vault holding data openable is whether its old ciphertext, or another copy of
      it, came through the pruning. */
  lemma StopsOpenableIff(w: World, r: Rotation, rekeyed: F.Dir, retention: F.Time)
    requires Accepted(w, r) && F.SaveLeaves(w.dir, r.save, rekeyed, retention) && w.dir.meta.version > 0
    ensures EveryStopOpenable(w, r, rekeyed) <==> CanRollBackTo(rekeyed, w.dir.kdbx)
  {
    if CanRollBackTo(rekeyed, w.dir.kdbx) {
      forall x | RotationStop(w, r, rekeyed, x) ensures Openable(w, r, x) {
        if x.record == w.record && F.SaveStop(w.dir, r.save, rekeyed, x.dir) {
          BeforeRecordOpenable(w, r, rekeyed, x.dir, retention);
        } else {
          AfterRecordOpenable(w, r, rekeyed, x, retention);
        }
      }
    } else {
      UnpairedStop(w, r, rekeyed, retention);
      assert !Openable(w, r, World(w.record, rekeyed));
    }
  }

  /** The stop between the vault's write and the record's. */
  lemma UnpairedStop(w: World, r: Rotation, rekeyed: F.Dir, retention: F.Time)
    requires Accepted(w, r) && F.SaveLeaves(w.dir, r.save, rekeyed, retention)
    ensures RotationStop(w, r, rekeyed, World(w.record, rekeyed))
    ensures rekeyed.kdbx == Some(r.save.blob) && w.record != M.Rotated(w.record, r.op)
    ensures w.dir.meta.version > 0 ==> rekeyed.kdbx != w.dir.kdbx
  {
    PrunedRecent(F.SaveCommitted(w.dir, r.save).history, rekeyed.history, r.save.now - retention);
    assert F.PruneStop(F.SaveCommitted(w.dir, r.save), rekeyed.history, rekeyed);
  }

  /** A vault never written has nothing to archive: unless the files already held these very bytes, the crash
      between the two commits leaves ciphertext that no copy of the old key opens, with nothing to roll back to. */
  lemma NeverWrittenStopsOpenableIff(w: World, r: Rotation, rekeyed: F.Dir, retention: F.Time)
    requires Accepted(w, r) && F.SaveLeaves(w.dir, r.save, rekeyed, retention) && w.dir.meta.version == 0
    ensures EveryStopOpenable(w, r, rekeyed) <==> w.dir.kdbx == Some(r.save.blob)
  {
    PrunedRecent(F.SaveCommitted(w.dir, r.save).history, rekeyed.history, r.save.now - retention);
    assert rekeyed.history == map[];
    if w.dir.kdbx == Some(r.save.blob) {
      forall x | RotationStop(w, r, rekeyed, x) ensures Openable(w, r, x) {
        if x.record != w.record {
          AfterRecordOpenable(w, r, rekeyed, x, retention);
        }
      }
    } else {
      UnpairedStop(w, r, rekeyed, retention);
      assert !Openable(w, r, World(w.record, rekeyed));
    }
  }

  // ---------------------------------------------------------------- decided before the call

  /** The snapshots a rollback could put the old ciphertext back from, before pruning. */
  function CopiesOf(d: F.Dir, s: F.Save, retention: F.Time): (copies: set<string>)
    ensures copies <= Unexpired(F.SaveArchived(d, s).history, s.now - retention)
  {
    var h := F.SaveArchived(d, s).history;
    set id | id in Unexpired(h, s.now - retention)
          && F.Admits(d.meta, id) && F.ValidFileId(id) && Some(h[id].content) == d.kdbx
  }

  ghost predicate CrashSafe(w: World, r: Rotation, retention: F.Time)
    requires r.op.Rotate? && r.op.actor in w.record.members
  {
    forall rekeyed :: F.SaveLeaves(w.dir, r.save, rekeyed, retention) ==> EveryStopOpenable(w, r, rekeyed)
  }

  ghost predicate SomeOutnumber(d: F.Dir, s: F.Save, order: seq<Info>, retention: F.Time) {
    exists age :: Outnumbers(F.SaveArchived(d, s).history, CopiesOf(d, s, retention), order, age)
  }

  ghost predicate OneCopyKept(d: F.Dir, s: F.Save, after: F.History, retention: F.Time) {
    OneKept(CopiesOf(d, s, retention), after)
  }

  lemma RollsBackIffKept(d: F.Dir, s: F.Save, rekeyed: F.Dir, retention: F.Time)
    requires F.SaveLeaves(d, s, rekeyed, retention) && PlainSave(s)
    ensures CanRollBackTo(rekeyed, d.kdbx) <==> OneCopyKept(d, s, rekeyed.history, retention)
  {
    PrunedRecent(F.SaveCommitted(d, s).history, rekeyed.history, s.now - retention);
    if id :| RollsBackTo(rekeyed, id, d.kdbx) {
      assert id in CopiesOf(d, s, retention);
    }
    if OneCopyKept(d, s, rekeyed.history, retention) {
      var id :| id in CopiesOf(d, s, retention) && id in rekeyed.history;
      assert RollsBackTo(rekeyed, id, d.kdbx);
    }
  }

  lemma LosingOutcome(d: F.Dir, s: F.Save, after: F.History, retention: F.Time) returns (rekeyed: F.Dir)
    requires F.SaveRefusal(d, s) == None && PlainSave(s)
    requires Pruned(F.SaveArchived(d, s).history, after, s.now - retention) && !OneCopyKept(d, s, after, retention)
    ensures F.SaveLeaves(d, s, rekeyed, retention) && !CanRollBackTo(rekeyed, d.kdbx)
  {
    rekeyed := F.SaveCommitted(d, s).(history := after);
    RollsBackIffKept(d, s, rekeyed, retention);
  }

  ghost predicate AlwaysRollsBack(d: F.Dir, s: F.Save, retention: F.Time) {
    forall rekeyed :: F.SaveLeaves(d, s, rekeyed, retention) ==> CanRollBackTo(rekeyed, d.kdbx)
  }

  lemma EveryPruneRollsBack(d: F.Dir, s: F.Save, retention: F.Time)
    requires F.SaveRefusal(d, s) == None && PlainSave(s)
    requires OneAlwaysKept(F.SaveArchived(d, s).history, s.now - retention, CopiesOf(d, s, retention))
    ensures AlwaysRollsBack(d, s, retention)
  {
    forall rekeyed | F.SaveLeaves(d, s, rekeyed, retention) ensures CanRollBackTo(rekeyed, d.kdbx) {
      assert Pruned(F.SaveArchived(d, s).history, rekeyed.history, s.now - retention);
      RollsBackIffKept(d, s, rekeyed, retention);
    }
  }

  lemma EveryPruneKeepsOne(d: F.Dir, s: F.Save, retention: F.Time)
    requires F.SaveRefusal(d, s) == None && PlainSave(s) && AlwaysRollsBack(d, s, retention)
    ensures OneAlwaysKept(F.SaveArchived(d, s).history, s.now - retention, CopiesOf(d, s, retention))
  {
    forall after | Pruned(F.SaveArchived(d, s).history, after, s.now - retention)
      ensures OneKept(CopiesOf(d, s, retention), after)
    {
      if !OneCopyKept(d, s, after, retention) {
        var rekeyed := LosingOutcome(d, s, after, retention);
        assert false;
      }
    }
  }

  lemma EveryPruneRollsBackIff(d: F.Dir, s: F.Save, order: seq<Info>, retention: F.Time)
    requires F.SaveRefusal(d, s) == None && PlainSave(s)
    requires Sorts(order, F.SaveArchived(d, s).history, s.now - retention)
    ensures AlwaysRollsBack(d, s, retention) <==> SomeOutnumber(d, s, order, retention)
  {
    if AlwaysRollsBack(d, s, retention) {
      EveryPruneKeepsOne(d, s, retention);
    } else if OneAlwaysKept(F.SaveArchived(d, s).history, s.now - retention, CopiesOf(d, s, retention)) {
      EveryPruneRollsBack(d, s, retention);
    }
    OneKeptIff(F.SaveArchived(d, s).history, s.now - retention, CopiesOf(d, s, retention), order);
  }

  /** One crash anywhere in an accepted rotation is sure to leave the vault openable exactly when: it was never
      written and already held these bytes; or it was written and, of one age, the copies of the old ciphertext in
      the history outnumber the snapshots of that age that pruning removes. */
  lemma CrashLeavesOpenableIff(w: World, r: Rotation, order: seq<Info>, retention: F.Time)
    requires Accepted(w, r) && Sorts(order, F.SaveArchived(w.dir, r.save).history, r.save.now - retention)
    ensures CrashSafe(w, r, retention)
       <==> if w.dir.meta.version == 0 then w.dir.kdbx == Some(r.save.blob)
            else SomeOutnumber(w.dir, r.save, order, retention)
  {
    var committed := F.SaveCommitted(w.dir, r.save);
    if w.dir.meta.version == 0 {
      var rekeyed := committed.(history := Kept(committed.history, order));
      assert F.SaveLeaves(w.dir, r.save, rekeyed, retention);
      NeverWrittenStopsOpenableIff(w, r, rekeyed, retention);
      forall other | F.SaveLeaves(w.dir, r.save, other, retention)
        ensures EveryStopOpenable(w, r, other) <==> w.dir.kdbx == Some(r.save.blob)
      {
        NeverWrittenStopsOpenableIff(w, r, other, retention);
      }
    } else {
      forall rekeyed | F.SaveLeaves(w.dir, r.save, rekeyed, retention)
        ensures EveryStopOpenable(w, r, rekeyed) <==> CanRollBackTo(rekeyed, w.dir.kdbx)
      {
        StopsOpenableIff(w, r, rekeyed, retention);
      }
      EveryPruneRollsBackIff(w.dir, r.save, order, retention);
    }
  }

  // ---------------------------------------------------------------- where the history is bounded

  predicate Bounded(d: F.Dir) {
    |d.history| <= MAX_HISTORY
  }

  /** Every write that prunes leaves at most 100 snapshots; nothing else adds one. */
  lemma StepKeepsBounded(w: World, l: Label, w': World, retention: F.Time)
    requires Bounded(w.dir) && LabelLands(w, l, w', retention)
    ensures Bounded(w'.dir)
  {
    match l
    case Upload(user, epoch, s) => SaveKeepsBounded(w.dir, s, w'.dir, retention);
    case Rollback(user, epoch, id, now, writable) =>
      PrunedRecent(F.RestoreCommitted(w.dir, id, now, writable).history, w'.dir.history, now - retention);
    case Rotate(r) =>
      var rekeyed :| RotationLands(w, r, rekeyed, w', retention);
      SaveKeepsBounded(w.dir, r.save, rekeyed, retention);
      PartIsSmaller(w'.dir.history, rekeyed.history);
    case Membership(op) =>
  }

  lemma SaveKeepsBounded(d: F.Dir, s: F.Save, d': F.Dir, retention: F.Time)
    requires F.SaveLeaves(d, s, d', retention)
    ensures Bounded(d')
  {
    PrunedRecent(F.SaveCommitted(d, s).history, d'.history, s.now - retention);
  }

  lemma PartIsSmaller(x: F.History, all: F.History)
    requires F.PartOf(x, all)
    ensures |x| <= |all|
  {
    assert x.Keys <= all.Keys;
    Fewer(x.Keys, all.Keys);
    assert |x| == |x.Keys| && |all| == |all.Keys|;
  }

  lemma OneTooMany(d: F.Dir, s: F.Save, order: seq<Info>, retention: F.Time)
    requires Bounded(d) && Sorts(order, F.SaveArchived(d, s).history, s.now - retention)
    ensures |order| <= MAX_HISTORY + 1
  {
    var h := F.SaveArchived(d, s).history;
    NamesBounded(order);
    Fewer(NamesOf(order), h.Keys);
    Fewer(h.Keys, d.history.Keys + {F.ArchiveId(d.meta)});
    assert |d.history| == |d.history.Keys|;
  }

  /** From a bounded history the archive is sure to survive the pruning of its own write exactly when there is
      room, or the snapshot of least span is of another age. */
  lemma ArchiveSurvivesIff(w: World, r: Rotation, order: seq<Info>, retention: F.Time)
    requires Accepted(w, r) && w.dir.meta.version > 0 && Bounded(w.dir) && retention >= 0
    requires Sorts(order, F.SaveArchived(w.dir, r.save).history, r.save.now - retention)
    ensures |order| <= MAX_HISTORY + 1
    ensures (forall after :: Pruned(F.SaveArchived(w.dir, r.save).history, after, r.save.now - retention)
                         ==> F.ArchiveId(w.dir.meta) in after)
       <==> |order| <= MAX_HISTORY || order[LeastSpan(order, MAX_HISTORY)].modTime != r.save.now
  {
    OneTooMany(w.dir, r.save, order, retention);
    SurvivesIff(F.SaveArchived(w.dir, r.save).history, r.save.now - retention, F.ArchiveId(w.dir.meta), order);
  }

  lemma StayingArchiveRollsBack(w: World, r: Rotation, rekeyed: F.Dir, retention: F.Time)
    requires Accepted(w, r) && w.dir.meta.version > 0 && retention >= 0
    requires F.SaveLeaves(w.dir, r.save, rekeyed, retention)
    requires Stays(F.SaveArchived(w.dir, r.save).history, r.save.now - retention, F.ArchiveId(w.dir.meta))
    ensures CanRollBackTo(rekeyed, w.dir.kdbx)
  {
    var archived := F.SaveArchived(w.dir, r.save);
    StaysKept(archived.history, rekeyed.history, r.save.now - retention, F.ArchiveId(w.dir.meta));
    ArchiveRollsBack(w, r, archived);
    StillRollsBack(archived, rekeyed, F.ArchiveId(w.dir.meta), w.dir.kdbx);
  }

  /** So room for it, or a clock that has not been set back (or back past every snapshot), is enough: then every
      crash leaves the vault openable. */
  lemma CrashLeavesOpenable(w: World, r: Rotation, rekeyed: F.Dir, retention: F.Time)
    requires Accepted(w, r) && F.SaveLeaves(w.dir, r.save, rekeyed, retention)
    requires w.dir.meta.version > 0 && retention >= 0
    requires Stays(F.SaveArchived(w.dir, r.save).history, r.save.now - retention, F.ArchiveId(w.dir.meta))
    ensures EveryStopOpenable(w, r, rekeyed)
  {
    StayingArchiveRollsBack(w, r, rekeyed, retention);
    StopsOpenableIff(w, r, rekeyed, retention);
  }

  /** The rollback a crash may call for is one an active writer of the old record can make,
      and it puts the old ciphertext back as the current one. */
  lemma RollbackRecovers(w: World, x: World, id: string, user: M.UserId, now: F.Time, d': F.Dir, retention: F.Time)
    requires Agrees(w) && w.dir.meta.version > 0 && x.record == w.record && RollsBackTo(x.dir, id, w.dir.kdbx)
    requires user in x.record.members && M.IsActiveOwner(x.record.members[user])
    requires F.RestoreLeaves(x.dir, id, now, true, d', retention)
    ensures LabelLands(x, Rollback(user, x.record.keyEpoch, id, now, true), World(x.record, d'), retention)
    ensures d'.kdbx == w.dir.kdbx && d'.kdbx.Some? && d'.kdbx.value.key == x.record.keyEpoch
  {
  }
}
