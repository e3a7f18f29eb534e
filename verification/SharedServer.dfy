/** The server's shared-vault writes: each holds the membership store while it writes the vault
    store, and a rotation commits both in a fixed order. */
module SharedServer {
  import opened Outcomes
  import opened HistoryThinning
  import opened SharedRotation
  import opened SharedCrashes
  import M = SharedVault
  import F = VaultFiles

  datatype Error = ByMembership(error: M.Error) | ByFiles(fileError: F.Error) | VersionMoved

  function StoreKey(id: string): string {
    "shared/" + id
  }

  /** The fingerprint of the key a user has published, if any; the public key stands for it. */
  function CurrentFingerprint(dirs: map<string, F.Dir>, user: M.UserId): Option<string> {
    match F.Current(dirs, user).meta.userKey
    case None => None
    case Some(k) => Some(k.publicKey)
  }

  /** The key user has published, by name. */
  predicate HasPublished(dirs: map<string, F.Dir>, user: M.UserId, publicKey: string) {
    user in dirs && dirs[user].meta.userKey.Some? && dirs[user].meta.userKey.value.publicKey == publicKey
  }

  /** Each copy is sealed to the key its user has published. */
  ghost predicate Verified(dirs: map<string, F.Dir>, copies: seq<M.SealedFor>) {
    forall i :: 0 <= i < |copies| ==> HasPublished(dirs, copies[i].userId, copies[i].keyFingerprint)
  }

  /** after differs from before at one key, if at all. */
  predicate OnlyAt<T(==)>(before: map<string, T>, after: map<string, T>, key: string) {
    key in after && after == before[key := after[key]]
  }

  function WriteRefusal(d: F.Dir, retired: bool, save: F.Save): Option<Error> {
    if d.meta.version != save.expected then Some(VersionMoved)
    else if retired then Some(ByFiles(F.Error.Retired))
    else match F.SaveRefusal(d, save)
      case Some(e) => Some(ByFiles(e))
      case None => None
  }

  class Server {
    const shared: M.Store
    const vaults: F.Store

    constructor (shared: M.Store, vaults: F.Store)
      ensures this.shared == shared && this.vaults == vaults
    {
      this.shared, this.vaults := shared, vaults;
    }

    ghost function WorldOf(id: string): World
      requires id in shared.records
      reads shared, vaults
    {
      World(shared.records[id], F.Current(vaults.dirs, StoreKey(id)))
    }

    /** Why a write by user is refused before the vault's files are looked at. */
    ghost function MembershipRefusal(id: string, user: M.UserId, epoch: int): (r: Option<M.Error>)
      reads shared
      ensures r == None ==> id in shared.records
    {
      match M.Loaded(shared.records, id)
      case Err(e) => Some(e)
      case Ok(v) => WriterRefusal(v, user, epoch)
    }

    method CheckWriter(id: string, user: M.UserId, epoch: int) returns (r: Option<M.Error>)
      ensures r == MembershipRefusal(id, user, epoch)
    {
      var loaded := shared.Load(id);
      if loaded.Err? {
        return Some(loaded.error);
      }
      var v := loaded.value;
      if user !in v.members {
        return Some(M.NotMember);
      }
      var m := v.members[user];
      if m.state != M.Active || (m.role != M.Owner && m.role != M.Editor) {
        return Some(M.Forbidden);
      }
      if v.keyEpoch != epoch {
        return Some(M.WrongEpoch);
      }
      return None;
    }

    /** Why a rotation is refused before anything is written: by the record, or by the published keys. */
    ghost function PrepareRefusal(id: string, op: M.Op): Option<Error>
      requires op.Rotate?
      reads shared, vaults
    {
      match M.Loaded(shared.records, id)
      case Err(e) => Some(ByMembership(e))
      case Ok(v) =>
        match M.RotateRefusal(v, op)
        case Some(e) => Some(ByMembership(e))
        case None => if Verified(vaults.dirs, op.copies) then None else Some(ByMembership(M.Shape))
    }

    /** Why it is refused at all: then by the version, or by the vault's files. */
    ghost function RotationRefusal(id: string, op: M.Op, save: F.Save): Option<Error>
      requires op.Rotate?
      reads shared, vaults
    {
      if PrepareRefusal(id, op).Some? then PrepareRefusal(id, op)
      else WriteRefusal(F.Current(vaults.dirs, StoreKey(id)), StoreKey(id) in vaults.retired, save)
    }

    method Upload(id: string, user: M.UserId, epoch: int, s: F.Save, ghost torn: Snap<F.Blob>) returns (r: Option<Error>)
      requires PlainSave(s) && !s.mustArchive
      modifies vaults`dirs
      ensures MembershipRefusal(id, user, epoch).Some? ==>
        r == Some(ByMembership(MembershipRefusal(id, user, epoch).value)) && vaults.dirs == old(vaults.dirs)
      ensures MembershipRefusal(id, user, epoch) == None && StoreKey(id) in vaults.retired ==>
        r == Some(ByFiles(F.Error.Retired)) && vaults.dirs == old(vaults.dirs)
      ensures MembershipRefusal(id, user, epoch) == None && StoreKey(id) !in vaults.retired ==>
        var d := F.Current(old(vaults.dirs), StoreKey(id));
        match F.SaveRefusal(d, s)
        case Some(e) => r == Some(ByFiles(e)) && vaults.dirs == old(vaults.dirs)[StoreKey(id) := F.SaveRefused(d, s)]
        case None =>
          && r == None && OnlyAt(old(vaults.dirs), vaults.dirs, StoreKey(id))
          && LabelLands(old(WorldOf(id)), Label.Upload(user, epoch, s), WorldOf(id), vaults.retention)
    {
      var refusal := CheckWriter(id, user, epoch);
      if refusal.Some? {
        return Some(ByMembership(refusal.value));
      }
      var saved;
      ghost var trail;
      saved, trail := vaults.SaveVault(StoreKey(id), s, torn);
      r := if saved.Err? then Some(ByFiles(saved.error)) else None;
    }

    method Rollback(id: string, user: M.UserId, epoch: int, hid: string, now: F.Time, writable: bool) returns (r: Option<Error>)
      modifies vaults`dirs
      ensures MembershipRefusal(id, user, epoch).Some? ==>
        r == Some(ByMembership(MembershipRefusal(id, user, epoch).value)) && vaults.dirs == old(vaults.dirs)
      ensures MembershipRefusal(id, user, epoch) == None && StoreKey(id) in vaults.retired ==>
        r == Some(ByFiles(F.Error.Retired)) && vaults.dirs == old(vaults.dirs)
      ensures MembershipRefusal(id, user, epoch) == None && StoreKey(id) !in vaults.retired ==>
        match F.RestoreRefusal(F.Current(old(vaults.dirs), StoreKey(id)), hid)
        case Some(e) => r == Some(ByFiles(e)) && vaults.dirs == old(vaults.dirs)
        case None =>
          && r == None && OnlyAt(old(vaults.dirs), vaults.dirs, StoreKey(id))
          && LabelLands(old(WorldOf(id)), Label.Rollback(user, epoch, hid, now, writable), WorldOf(id), vaults.retention)
    {
      var refusal := CheckWriter(id, user, epoch);
      if refusal.Some? {
        return Some(ByMembership(refusal.value));
      }
      var restored := vaults.RestoreHistory(StoreKey(id), hid, now, writable);
      r := if restored.Err? then Some(ByFiles(restored.error)) else None;
    }

    method Verify(copies: seq<M.SealedFor>) returns (ok: bool)
      ensures ok <==> Verified(vaults.dirs, copies)
    {
      for i := 0 to |copies|
        invariant Verified(vaults.dirs, copies[..i])
      {
        if CurrentFingerprint(vaults.dirs, copies[i].userId) != Some(copies[i].keyFingerprint) {
          return false;
        }
      }
      assert copies[..|copies|] == copies;
      return true;
    }

    /** Marks the epoch, then clears the history. marks is whether the mark can be written, stuck names the files
        that cannot be removed; neither failure stops the rotation. */
    method RetireOldKey(key: string, version: int, marks: bool, stuck: set<string>) returns (cleared: bool, ghost stops: seq<F.Dir>)
      requires key !in vaults.retired && key in vaults.dirs && version == vaults.dirs[key].meta.version > 0
      modifies vaults`dirs
      ensures OnlyAt(old(vaults.dirs), vaults.dirs, key)
      ensures var d, d' := old(vaults.dirs)[key], vaults.dirs[key];
        && cleared == !(exists id :: id in stuck && (id in d.history || id in d.conflicts))
        && (if cleared then d' == F.Cleared(Marked(d, marks)) else F.ClearStop(Marked(d, marks), d'))
        && forall x :: x in stops ==> F.ClearStop(Marked(d, marks), x)
    {
      if marks {
        var epochErr := vaults.MarkKeyEpoch(key, version);
      } else {
        assert vaults.dirs == vaults.dirs[key := vaults.dirs[key]];
      }
      assert vaults.dirs[key] == Marked(old(vaults.dirs)[key], marks);
      ghost var marked := vaults.dirs[key];
      var clearErr;
      clearErr, stops := vaults.ClearHistory(key, stuck);
      cleared := clearErr == None;
      stops := [marked] + stops;
    }

    /** A rotation, under the membership lock throughout; r is what it amounts to, stops lists what is on disk after
        each write. A refusal leaves every record and every vault's directory as it was. */
    method Rotate(id: string, op: M.Op, save: F.Save, marks: bool, stuck: set<string>, ghost torn: Snap<F.Blob>)
      returns (a: Result<M.Vault, Error>, ghost r: Rotation, ghost rekeyed: F.Dir, ghost stops: seq<World>)
      requires op.Rotate? && PlainSave(save) && save.mustArchive
      modifies shared, vaults`dirs
      ensures r.op == op && r.save == save && r.marks == marks
      ensures a.Err? <==> old(RotationRefusal(id, op, save)).Some?
      ensures a.Err? ==> a.error == old(RotationRefusal(id, op, save)).value
      ensures a.Err? ==>
        && shared.records == old(shared.records)
        && SameDirs(old(vaults.dirs), vaults.dirs)
      ensures a.Ok? ==>
        && id in old(shared.records) && OnlyAt(old(shared.records), shared.records, id)
        && OnlyAt(old(vaults.dirs), vaults.dirs, StoreKey(id))
        && a.value == shared.records[id]
        && Verified(old(vaults.dirs), op.copies)
        && RotationLands(old(WorldOf(id)), r, rekeyed, WorldOf(id), vaults.retention)
        && StopsOfRotation(old(WorldOf(id)), r, rekeyed, stops)
    {
      ghost var before := F.Current(vaults.dirs, StoreKey(id));
      rekeyed, stops := before, [];
      r := Rotation(op, save, marks, true);
      var written;
      ghost var trail;
      written, trail := PrepareAndWrite(id, op, save, torn);
      if written.Err? {
        return Err(written.error), r, rekeyed, stops;
      }
      var v, key := written.value, StoreKey(id);
      rekeyed := vaults.dirs[key];
      var next, cleared;
      ghost var clearing;
      next, cleared, clearing := CommitRecord(v, op, key, vaults.dirs[key].meta.version, marks, stuck);
      r := r.(clears := cleared);
      Landed(World(v, before), r, rekeyed, trail, clearing, World(next, vaults.dirs[key]), vaults.retention);
      stops := StopsOf(v, next, trail, clearing);
      assert WorldOf(id) == World(next, vaults.dirs[key]) && old(WorldOf(id)) == World(v, before);
      return Ok(next), r, rekeyed, stops;
    }

    /** As far as the vault's write, which is where a rotation can still be refused. */
    method PrepareAndWrite(id: string, op: M.Op, save: F.Save, ghost torn: Snap<F.Blob>)
      returns (r: Result<M.Vault, Error>, ghost trail: seq<F.Dir>)
      requires op.Rotate? && PlainSave(save)
      modifies vaults`dirs
      ensures (r.Err? <==> old(RotationRefusal(id, op, save)).Some?) && (r.Err? ==> r.error == old(RotationRefusal(id, op, save)).value)
      ensures r.Err? ==> SameDirs(old(vaults.dirs), vaults.dirs)
      ensures r.Ok? ==>
        && id in shared.records && r.value == shared.records[id] && r.value.id == id
        && M.RotateRefusal(r.value, op) == None && Verified(old(vaults.dirs), op.copies)
        && StoreKey(id) !in vaults.retired && OnlyAt(old(vaults.dirs), vaults.dirs, StoreKey(id))
        && F.SaveLeaves(F.Current(old(vaults.dirs), StoreKey(id)), save, vaults.dirs[StoreKey(id)], vaults.retention)
        && forall x :: x in trail ==> F.SaveStop(F.Current(old(vaults.dirs), StoreKey(id)), save, vaults.dirs[StoreKey(id)], x)
    {
      trail := [];
      var prepared := Prepare(id, op);
      if prepared.Err? {
        return Err(prepared.error), trail;
      }
      var saved;
      saved, trail := WriteVault(StoreKey(id), save, torn);
      r := if saved.Err? then Err(saved.error) else Ok(prepared.value);
    }

    /** The checks before anything is written: the store's, then the published keys. */
    method Prepare(id: string, op: M.Op) returns (r: Result<M.Vault, Error>)
      requires op.Rotate?
      ensures r.Ok? ==>
        && id in shared.records && r.value == shared.records[id] && r.value.id == id
        && M.RotateRefusal(r.value, op) == None && Verified(vaults.dirs, op.copies)
      ensures (r.Err? <==> PrepareRefusal(id, op).Some?) && (r.Err? ==> r.error == PrepareRefusal(id, op).value)
    {
      var prepared := shared.PrepareRotation(id, op.actor, op.epoch, op.copies);
      if prepared.Err? {
        return Err(ByMembership(prepared.error));
      }
      var verified := Verify(op.copies);
      r := if verified then Ok(prepared.value) else Err(ByMembership(M.Shape));
    }

    /** The record's half, and then the retirement of the old key. */
    method CommitRecord(v: M.Vault, op: M.Op, key: string, version: int, marks: bool, stuck: set<string>)
      returns (next: M.Vault, cleared: bool, ghost stops: seq<F.Dir>)
      requires op.Rotate? && M.RotateRefusal(v, op) == None
      requires key !in vaults.retired && key in vaults.dirs && version == vaults.dirs[key].meta.version > 0
      modifies shared, vaults`dirs
      ensures next == M.Rotated(v, op) && shared.records == old(shared.records)[v.id := next]
      ensures OnlyAt(old(vaults.dirs), vaults.dirs, key)
      ensures var marked := Marked(old(vaults.dirs)[key], marks);
        && (if cleared then vaults.dirs[key] == F.Cleared(marked) else F.ClearStop(marked, vaults.dirs[key]))
        && forall x :: x in stops ==> F.ClearStop(marked, x)
    {
      next := shared.CommitRotation(v, op.actor, op.epoch, op.copies);
      cleared, stops := RetireOldKey(key, version, marks, stuck);
    }

    /** The vault's half of a rotation: refused unless the caller's version is still the current one. */
    method WriteVault(key: string, save: F.Save, ghost torn: Snap<F.Blob>) returns (r: Result<F.Metadata, Error>, ghost trail: seq<F.Dir>)
      requires PlainSave(save)
      modifies vaults`dirs
      ensures r.Err? ==> SameDirs(old(vaults.dirs), vaults.dirs)
      ensures var refusal := WriteRefusal(F.Current(old(vaults.dirs), key), key in vaults.retired, save);
        && (r.Err? <==> refusal.Some?) && (r.Err? ==> r.error == refusal.value)
      ensures r.Ok? ==>
        && key !in vaults.retired && OnlyAt(old(vaults.dirs), vaults.dirs, key) && r.value == vaults.dirs[key].meta
        && F.SaveLeaves(F.Current(old(vaults.dirs), key), save, vaults.dirs[key], vaults.retention)
        && forall x :: x in trail ==> F.SaveStop(F.Current(old(vaults.dirs), key), save, vaults.dirs[key], x)
    {
      trail := [];
      if F.Current(vaults.dirs, key).meta.version != save.expected {
        return Err(VersionMoved), trail;
      }
      var saved;
      saved, trail := vaults.SaveVault(key, save, torn);
      r := if saved.Err? then Err(ByFiles(saved.error)) else Ok(saved.value);
    }
  }

  /** A directory that is not there yet and one that holds nothing are the same. */
  predicate SameDirs(before: map<string, F.Dir>, after: map<string, F.Dir>) {
    forall key :: key in before.Keys + after.Keys ==> F.Current(after, key) == F.Current(before, key)
  }

  /** Everything on disk on the way is what a rotation's process can stop in. */
  ghost predicate StopsOfRotation(w: World, r: Rotation, rekeyed: F.Dir, stops: seq<World>)
    requires r.op.Rotate? && r.op.actor in w.record.members
  {
    forall x :: x in stops ==> RotationStop(w, r, rekeyed, x)
  }

  lemma Landed(w: World, r: Rotation, rekeyed: F.Dir, before: seq<F.Dir>, after: seq<F.Dir>, w': World, retention: F.Time)
    requires RotationShape(r) && M.RotateRefusal(w.record, r.op) == None && F.SaveLeaves(w.dir, r.save, rekeyed, retention)
    requires w'.record == M.Rotated(w.record, r.op) && Retired(rekeyed, r, w'.dir)
    requires forall x :: x in before ==> F.SaveStop(w.dir, r.save, rekeyed, x)
    requires forall x :: x in after ==> F.ClearStop(Marked(rekeyed, r.marks), x)
    ensures RotationLands(w, r, rekeyed, w', retention)
    ensures StopsOfRotation(w, r, rekeyed, StopsOf(w.record, w'.record, before, after))
  {
  }

  /** What is on disk before and after the record commits. */
  ghost function StopsOf(v: M.Vault, next: M.Vault, before: seq<F.Dir>, after: seq<F.Dir>): (stops: seq<World>)
    ensures forall x :: x in stops ==> (x.record == v && x.dir in before) || (x.record == next && x.dir in after)
  {
    seq(|before|, i requires 0 <= i < |before| => World(v, before[i]))
    + seq(|after|, i requires 0 <= i < |after| => World(next, after[i]))
  }
}
