/** Published keys and the rotations that check them: the vault store holds the map of `KeyReplacement`, and a copy
    sealed to a replaced key is refused. */
module SharedKeys {
  import opened Outcomes
  import opened SharedServer
  import M = SharedVault
  import F = VaultFiles
  import K = KeyReplacement
  import SharedRotation

  /** Each user's published key. */
  function PublishedKeys(dirs: map<string, F.Dir>): map<M.UserId, string> {
    map u | u in dirs && dirs[u].meta.userKey.Some? :: dirs[u].meta.userKey.value.publicKey
  }

  /** The rotation's check of its copies is that of the interleavings. */
  lemma VerifiedIff(dirs: map<string, F.Dir>, copies: seq<M.SealedFor>, w: K.World)
    requires w.published == PublishedKeys(dirs)
    ensures Verified(dirs, copies) <==> K.Verified(w, copies)
  {
    forall i | 0 <= i < |copies|
      ensures HasPublished(dirs, copies[i].userId, copies[i].keyFingerprint)
         <==> copies[i].userId in w.published && w.published[copies[i].userId] == copies[i].keyFingerprint
    {
    }
  }

  /** A publication that lands is the publication step, its stale-marking owed exactly when there was a key before. */
  lemma PublicationIsStep(dirs: map<string, F.Dir>, user: M.UserId, k: F.UserKey, now: F.Time, w: K.World)
    requires w.published == PublishedKeys(dirs) && K.WellFormed(w)
    ensures var after := K.Next(w, K.Publish(user, k.publicKey));
      && after.published == PublishedKeys(dirs[user := F.UserKeySaved(F.Current(dirs, user), k, now)])
      && after.hooks == w.hooks + if F.Current(dirs, user).meta.userKey.Some? then multiset{(user, k.publicKey)} else multiset{}
  {
  }

  /** Saves, rotations and rollbacks change nobody's published key. */
  lemma WritesKeepPublished(dirs: map<string, F.Dir>, key: string, d': F.Dir, retention: F.Time, s: F.Save,
                            id: string, now: F.Time, writable: bool)
    requires var d := F.Current(dirs, key); F.SaveLeaves(d, s, d', retention) || F.RestoreLeaves(d, id, now, writable, d', retention)
    ensures PublishedKeys(dirs[key := d']) == PublishedKeys(dirs)
  {
  }

  /** After a key has been published, with nothing else published by that user since: a copy for them passes the
      check exactly when it is sealed to that key, so one sealed to any key it replaced makes a rotation be refused. */
  lemma OnlyLastPublishedPasses(dirs: map<string, F.Dir>, user: M.UserId, k: F.UserKey, now: F.Time, later: map<string, F.Dir>,
                                copy: M.SealedFor)
    requires copy.userId == user
    requires F.Current(later, user).meta.userKey == F.UserKeySaved(F.Current(dirs, user), k, now).meta.userKey
    ensures Verified(later, [copy]) <==> copy.keyFingerprint == k.publicKey
  {
    if copy.keyFingerprint == k.publicKey {
      assert HasPublished(later, [copy][0].userId, [copy][0].keyFingerprint);
    } else {
      assert !HasPublished(later, [copy][0].userId, [copy][0].keyFingerprint);
    }
  }

  /** The same, run on the stores: the owner replaces their key, and a rotation that names another for them is
      refused before anything is written. */
  method ReplaceThenRotate(server: Server, user: M.UserId, expected: int, k: F.UserKey, now: F.Time, id: string, op: M.Op, i: nat)
    returns (published: Option<F.Error>, prepared: Result<M.Vault, Error>)
    requires op.Rotate? && i < |op.copies| && op.copies[i].userId == user && op.copies[i].keyFingerprint != k.publicKey
    modifies server.vaults`dirs
    ensures published == None ==> prepared.Err?
  {
    var created;
    published, created := server.vaults.SaveUserKey(user, expected, k, false, now);
    prepared := server.Prepare(id, op);
    if published == None {
      ghost var dirs := server.vaults.dirs;
      assert user in dirs && dirs[user].meta.userKey.Some? && dirs[user].meta.userKey.value.publicKey == k.publicKey;
      assert !HasPublished(dirs, op.copies[i].userId, op.copies[i].keyFingerprint);
    }
  }

  /** The steps of the interleavings do happen: a stale-marking is owed once and run once, and a rotation begun and
      committed leaves the rotated record, its named rows counted. */
  lemma StepsHappen(w: K.World, user: M.UserId, fp: string, op: M.Op)
    requires K.WellFormed(w)
    ensures K.Enabled(w, K.RunHook(user, fp)) ==>
      var after := K.Next(w, K.RunHook(user, fp));
      && after.hooks + multiset{(user, fp)} == w.hooks && after.published == w.published
      && after.v == M.SweptVault(w.v, M.MarkStale(user, fp))
    ensures K.Enabled(w, K.BeginRotate(op)) ==>
      var begun := K.Next(w, K.BeginRotate(op));
      && begun.rotating == Some(op) && begun.v == w.v && K.WellFormed(begun) && K.Enabled(begun, K.CommitRotate)
      && K.Next(begun, K.CommitRotate).v == M.Rotated(w.v, op) && K.Next(begun, K.CommitRotate).rotating == None
      && K.Next(begun, K.CommitRotate).rotated == w.rotated + M.Named(op.copies)
      && K.Next(begun, K.AbandonRotate) == w
    ensures K.Enabled(w, K.Membership(op)) ==>
      var after := K.Next(w, K.Membership(op));
      && after.v == M.Apply(w.v, op).value && after.published == w.published && after.hooks == w.hooks
      && after.rotated == w.rotated - if op.Reseal? || op.Remove? then {op.user} else {}
  {
  }

  /** Who may write to a shared vault: an active owner or editor, naming the current epoch. */
  lemma WriterIff(v: M.Vault, user: M.UserId, epoch: int)
    ensures var r := SharedRotation.WriterRefusal(v, user, epoch);
      && (r == None <==> user in v.members && v.members[user].state == M.Active
                         && v.members[user].role in {M.Owner, M.Editor} && v.keyEpoch == epoch)
      && (r == Some(M.NotMember) <==> user !in v.members)
      && (r == Some(M.WrongEpoch) <==> user in v.members && v.members[user].state == M.Active
                                       && v.members[user].role in {M.Owner, M.Editor} && v.keyEpoch != epoch)
      && r in {None, Some(M.NotMember), Some(M.Forbidden), Some(M.WrongEpoch)}
  {
  }

  /** Vaults have directories of their own, apart from every user's. */
  lemma StoreKeysDistinct(id: string, other: string)
    ensures StoreKey(id) == StoreKey(other) ==> id == other
    ensures StoreKey(id) == "shared/" + id
  {
    assert StoreKey(id)[7..] == id && StoreKey(other)[7..] == other;
  }

  /** Marking moves the epoch mark to the version just written, if it can be written, and nothing else. */
  lemma MarkedFields(d: F.Dir, marks: bool)
    requires d.meta.version > 0
    ensures var d' := SharedRotation.Marked(d, marks);
      && d'.meta.keyEpochSince == (if marks && d.meta.version > d.meta.keyEpochSince then d.meta.version else d.meta.keyEpochSince)
      && d' == d.(meta := d.meta.(keyEpochSince := d'.meta.keyEpochSince))
  {
  }
}
