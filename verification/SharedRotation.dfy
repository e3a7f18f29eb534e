/** A shared vault across its two stores: the membership record, which says whose copies of
    which epoch's key are current, and the vault directory, whose ciphertext must open under
    that epoch's key.

    A shared vault has one key an epoch, so the key of a blob is named by its epoch. */
module SharedRotation {
  import opened Outcomes
  import opened HistoryIds
  import opened HistoryThinning
  import opened HistoryLoss
  import opened PersonalVault
  import M = SharedVault
  import F = VaultFiles

  datatype World = World(record: M.Vault, dir: F.Dir)

  /** The pair a backup would capture agrees: the ciphertext is the one the metadata describes,
      and it and every snapshot a rollback would admit open under the record's epoch key. */
  ghost predicate Agrees(w: World) {
    Sound(w.dir) && (w.dir.meta.version > 0 ==> w.dir.kdbx.value.key == w.record.keyEpoch)
  }

  // ---------------------------------------------------------------- what lands

  function WriterRefusal(v: M.Vault, user: M.UserId, epoch: int): Option<M.Error> {
    if user !in v.members then Some(M.NotMember)
    else if v.members[user].state != M.Active || v.members[user].role == M.Reader then Some(M.Forbidden)
    else if v.keyEpoch != epoch then Some(M.WrongEpoch)
    else None
  }

  /** A shared upload: no envelopes, no epoch of its own. */
  predicate PlainSave(s: F.Save) {
    !s.rotated && s.password == None && s.recovery == None && s.userKey == None
  }

  datatype Rotation = Rotation(
    op: M.Op,                 // the membership half
    save: F.Save,             // the re-encrypted vault
    marks: bool,              // whether marking the key epoch succeeds
    clears: bool)             // whether clearing the history succeeds in full

  ghost predicate RotationShape(r: Rotation) {
    r.op.Rotate? && PlainSave(r.save) && r.save.mustArchive
  }

  function Marked(d: F.Dir, marks: bool): F.Dir {
    if marks && F.EpochRefusal(d, d.meta.version) == None then F.EpochMarked(d, d.meta.version) else d
  }

  /** What the retirement of the old key makes of d: a clear that fails may have removed some of the files. */
  ghost predicate Retired(d: F.Dir, r: Rotation, d': F.Dir) {
    if r.clears then d' == F.Cleared(Marked(d, r.marks)) else F.ClearStop(Marked(d, r.marks), d')
  }

  /** A completed rotation: rekeyed is the directory its ciphertext write left. */
  ghost predicate RotationLands(w: World, r: Rotation, rekeyed: F.Dir, w': World, retention: F.Time) {
    && RotationShape(r)
    && M.RotateRefusal(w.record, r.op) == None
    && F.SaveLeaves(w.dir, r.save, rekeyed, retention)
    && w'.record == M.Rotated(w.record, r.op)
    && Retired(rekeyed, r, w'.dir)
  }

  datatype Label =
    | Upload(user: M.UserId, epoch: int, save: F.Save)
    | Rollback(user: M.UserId, epoch: int, id: string, now: F.Time, writable: bool)
    | Rotate(r: Rotation)
    | Membership(op: M.Op)

  ghost predicate LabelLands(w: World, l: Label, w': World, retention: F.Time) {
    match l
    case Upload(user, epoch, s) =>
      && WriterRefusal(w.record, user, epoch) == None && PlainSave(s) && !s.mustArchive
      && w'.record == w.record
      && F.SaveLeaves(w.dir, s, w'.dir, retention)
    case Rollback(user, epoch, id, now, writable) =>
      && WriterRefusal(w.record, user, epoch) == None
      && w'.record == w.record
      && F.RestoreLeaves(w.dir, id, now, writable, w'.dir, retention)
    case Rotate(r) => exists rekeyed :: RotationLands(w, r, rekeyed, w', retention)
    case Membership(op) =>
      !op.Rotate? && M.Apply(w.record, op).Ok? && w' == World(M.Apply(w.record, op).value, w.dir)
  }

  /** The writer's bytes are under the key of the epoch it names (a rotation's, the next). */
  ghost predicate Honest(l: Label) {
    match l
    case Upload(_, epoch, s) => s.blob.key == epoch
    case Rotate(r) => r.op.Rotate? && r.save.blob.key == r.op.epoch + 1
    case _ => true
  }

  ghost predicate Retires(l: Label) {
    l.Rotate? ==> l.r.marks || l.r.clears
  }

  // ---------------------------------------------------------------- agreement, always

  lemma RekeyedDirectory(d: F.Dir, s: F.Save, rekeyed: F.Dir, retention: F.Time)
    requires Sound(d) && PlainSave(s) && F.SaveLeaves(d, s, rekeyed, retention)
    ensures rekeyed.kdbx == Some(s.blob) && rekeyed.meta.checksum == F.Sum(s.blob)
    ensures rekeyed.meta.version == d.meta.version + 1 && rekeyed.meta.keyEpochSince == d.meta.keyEpochSince
    ensures forall id :: id in rekeyed.history ==> HistoryVersion(id) <= d.meta.version
  {
    HistoryVersionRoundTrip(F.Unix(d.meta.updatedAt), d.meta.version);
    forall id | id in rekeyed.history ensures HistoryVersion(id) <= d.meta.version {
      assert id != F.ArchiveId(d.meta) ==> id in d.history && SnapshotOk(d, id);
    }
  }

  /** One of marking and clearing is enough for a rotation to keep the stores agreeing. */
  lemma RotationKeepsAgreement(w: World, r: Rotation, rekeyed: F.Dir, w': World, retention: F.Time)
    requires Agrees(w) && RotationLands(w, r, rekeyed, w', retention) && Honest(Rotate(r))
    requires r.marks || r.clears
    ensures Agrees(w')
  {
    RekeyedDirectory(w.dir, r.save, rekeyed, retention);
    forall id | id in w'.dir.history ensures SnapshotOk(w'.dir, id) {
      assert id in rekeyed.history;
    }
  }

  lemma StepKeepsAgreement(w: World, l: Label, w': World, retention: F.Time)
    requires Agrees(w) && LabelLands(w, l, w', retention) && Honest(l) && Retires(l)
    ensures Agrees(w')
  {
    match l
    case Upload(user, epoch, s) => SaveKeepsSound(w.dir, s, w'.dir, retention);
    case Rollback(user, epoch, id, now, writable) =>
      RestoreKeepsSound(w.dir, id, now, writable, w'.dir, retention);
      assert w.dir.meta.version > 0;
    case Rotate(r) =>
      var rekeyed :| RotationLands(w, r, rekeyed, w', retention);
      RotationKeepsAgreement(w, r, rekeyed, w', retention);
    case Membership(op) =>
      ApplyKeepsEpoch(w.record, op);
  }

  lemma ApplyKeepsEpoch(v: M.Vault, op: M.Op)
    requires !op.Rotate? && M.Apply(v, op).Ok?
    ensures M.Apply(v, op).value.keyEpoch == v.keyEpoch
  {
  }

  ghost predicate LandsAt(worlds: seq<World>, run: seq<Label>, retention: F.Time, i: nat)
    requires |worlds| == |run| + 1 && i < |run|
  {
    LabelLands(worlds[i], run[i], worlds[i + 1], retention) && Honest(run[i]) && Retires(run[i])
  }

  /** Whatever saves, rollbacks, membership changes and rotations land, in whatever order, the
      stores agree whenever the membership lock is free: so a captured pair always opens. */
  lemma {:induction false} StoresAlwaysAgree(worlds: seq<World>, run: seq<Label>, retention: F.Time, n: nat)
    requires |worlds| == |run| + 1 && Agrees(worlds[0]) && n < |worlds|
    requires forall i :: 0 <= i < |run| ==> LandsAt(worlds, run, retention, i)
    ensures Agrees(worlds[n])
    decreases n
  {
    if n > 0 {
      var i := n - 1;
      StoresAlwaysAgree(worlds, run, retention, i);
      assert LandsAt(worlds, run, retention, i);
      StepKeepsAgreement(worlds[i], run[i], worlds[i + 1], retention);
    }
  }

  /** An archive's name is always one a rollback can open. */
  lemma ArchiveNameUsable(unix: int, version: nat)
    ensures F.ValidFileId(HistoryId(unix, version))
  {
  }

  // ---------------------------------------------------------------- agreement, exactly

  /** No snapshot a rollback would admit. */
  predicate NothingAdmitted(d: F.Dir) {
    forall id :: id in d.history ==> !F.Admits(d.meta, id)
  }

  lemma OldKeyAdmitted(w: World, r: Rotation, rekeyed: F.Dir, id: string, retention: F.Time)
    requires Agrees(w) && RotationShape(r) && Honest(Rotate(r)) && M.RotateRefusal(w.record, r.op) == None
    requires F.SaveLeaves(w.dir, r.save, rekeyed, retention) && id in rekeyed.history && F.Admits(rekeyed.meta, id)
    ensures rekeyed.history[id].content.key == w.record.keyEpoch && w.dir.meta.version > 0
  {
    assert id != F.ArchiveId(w.dir.meta) ==> id in w.dir.history && SnapshotOk(w.dir, id);
  }

  /** Whatever a rotation's mark and clear did, the stores agree after it exactly when it left no snapshot that a
      rollback would admit. */
  lemma RotationAgreesIff(w: World, r: Rotation, rekeyed: F.Dir, w': World, retention: F.Time)
    requires Agrees(w) && RotationLands(w, r, rekeyed, w', retention) && Honest(Rotate(r))
    ensures Agrees(w') <==> NothingAdmitted(w'.dir)
    ensures r.marks || r.clears ==> Agrees(w')
  {
    RekeyedDirectory(w.dir, r.save, rekeyed, retention);
    if r.marks || r.clears {
      RotationKeepsAgreement(w, r, rekeyed, w', retention);
    }
    forall id | id in w'.dir.history && F.Admits(w'.dir.meta, id) ensures !SnapshotOk(w'.dir, id) {
      if !r.marks {
        OldKeyAdmitted(w, r, rekeyed, id, retention);
      }
    }
  }

  /** Some snapshot a rollback would admit is of an age that a prune can leave. */
  ghost predicate AdmittedMayStay(d: F.Dir, s: F.Save, order: seq<Info>, retention: F.Time) {
    var h := F.SaveArchived(d, s).history;
    exists id :: id in Unexpired(h, s.now - retention) && F.Admits(d.meta, id) && AgeStays(order, h[id].modTime)
  }

  ghost predicate AlwaysAgrees(w: World, r: Rotation, retention: F.Time) {
    forall rekeyed, w' :: RotationLands(w, r, rekeyed, w', retention) ==> Agrees(w')
  }

  lemma StayingOutcome(d: F.Dir, s: F.Save, order: seq<Info>, id: string, retention: F.Time) returns (rekeyed: F.Dir)
    requires F.SaveRefusal(d, s) == None && PlainSave(s)
    requires Sorts(order, F.SaveArchived(d, s).history, s.now - retention)
    requires id in Unexpired(F.SaveArchived(d, s).history, s.now - retention)
    requires AgeStays(order, F.SaveArchived(d, s).history[id].modTime)
    ensures F.SaveLeaves(d, s, rekeyed, retention) && id in rekeyed.history && rekeyed.meta.keyEpochSince == d.meta.keyEpochSince
  {
    var committed, cutoff := F.SaveCommitted(d, s), s.now - retention;
    MayStayIff(committed.history, cutoff, id, order);
    var after :| Pruned(committed.history, after, cutoff) && id in after;
    rekeyed := committed.(history := after);
    assert F.PrunedDir(committed, rekeyed, cutoff);
  }

  /** An admitted snapshot that may stay: here is what the rotation leaves if it does. */
  lemma StaysAndDisagrees(w: World, r: Rotation, order: seq<Info>, id: string, retention: F.Time) returns (rekeyed: F.Dir, w': World)
    requires Agrees(w) && RotationShape(r) && Honest(Rotate(r)) && !r.marks && !r.clears
    requires M.RotateRefusal(w.record, r.op) == None && F.SaveRefusal(w.dir, r.save) == None
    requires Sorts(order, F.SaveArchived(w.dir, r.save).history, r.save.now - retention)
    requires id in Unexpired(F.SaveArchived(w.dir, r.save).history, r.save.now - retention) && F.Admits(w.dir.meta, id)
    requires AgeStays(order, F.SaveArchived(w.dir, r.save).history[id].modTime)
    ensures RotationLands(w, r, rekeyed, w', retention) && !Agrees(w')
  {
    rekeyed := StayingOutcome(w.dir, r.save, order, id, retention);
    w' := World(M.Rotated(w.record, r.op), rekeyed);
    RotationAgreesIff(w, r, rekeyed, w', retention);
    assert id in w'.dir.history;
  }

  lemma LeftMayStay(d: F.Dir, s: F.Save, rekeyed: F.Dir, order: seq<Info>, id: string, retention: F.Time)
    requires F.SaveLeaves(d, s, rekeyed, retention) && PlainSave(s)
    requires Sorts(order, F.SaveArchived(d, s).history, s.now - retention)
    requires id in rekeyed.history && F.Admits(rekeyed.meta, id)
    ensures AdmittedMayStay(d, s, order, retention)
  {
    var h, cutoff := F.SaveCommitted(d, s).history, s.now - retention;
    PrunedRecent(h, rekeyed.history, cutoff);
    assert id in Unexpired(h, cutoff);
    MayStayIff(h, cutoff, id, order);
  }

  /** Decided before the call: a rotation is sure to leave the stores agreeing exactly when its mark or its clear
      succeeds, or no snapshot that a rollback would admit can survive the pruning. */
  lemma RotationSureIff(w: World, r: Rotation, order: seq<Info>, retention: F.Time)
    requires Agrees(w) && RotationShape(r) && Honest(Rotate(r))
    requires M.RotateRefusal(w.record, r.op) == None && F.SaveRefusal(w.dir, r.save) == None
    requires Sorts(order, F.SaveArchived(w.dir, r.save).history, r.save.now - retention)
    ensures AlwaysAgrees(w, r, retention) <==> r.marks || r.clears || !AdmittedMayStay(w.dir, r.save, order, retention)
  {
    var h, cutoff := F.SaveArchived(w.dir, r.save).history, r.save.now - retention;
    if !r.marks && !r.clears && AdmittedMayStay(w.dir, r.save, order, retention) {
      var id :| id in Unexpired(h, cutoff) && F.Admits(w.dir.meta, id) && AgeStays(order, h[id].modTime);
      var rekeyed, w' := StaysAndDisagrees(w, r, order, id, retention);
    } else {
      forall rekeyed, w' | RotationLands(w, r, rekeyed, w', retention) ensures Agrees(w') {
        if r.marks || r.clears {
          RotationAgreesIff(w, r, rekeyed, w', retention);
        } else {
          NoneLeftAgrees(w, r, rekeyed, w', order, retention);
        }
      }
    }
  }

  lemma NoneLeftAgrees(w: World, r: Rotation, rekeyed: F.Dir, w': World, order: seq<Info>, retention: F.Time)
    requires Agrees(w) && RotationLands(w, r, rekeyed, w', retention) && Honest(Rotate(r)) && !r.marks && !r.clears
    requires Sorts(order, F.SaveArchived(w.dir, r.save).history, r.save.now - retention)
    requires !AdmittedMayStay(w.dir, r.save, order, retention)
    ensures Agrees(w')
  {
    RotationAgreesIff(w, r, rekeyed, w', retention);
    forall id | id in w'.dir.history ensures !F.Admits(w'.dir.meta, id) {
      if F.Admits(w'.dir.meta, id) {
        LeftMayStay(w.dir, r.save, rekeyed, order, id, retention);
      }
    }
  }
}
