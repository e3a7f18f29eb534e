/** What a personal vault keeps over every run of its clients, and which writes can collide. */
module PersonalVault {
  import opened Outcomes
  import opened HistoryIds
  import opened HistoryThinning
  import opened VaultFiles

  // ------------------------------------------------------- one directory

  /** A directory whose files agree: every snapshot a rollback would admit opens under the key
      of the current ciphertext. */
  ghost predicate Sound(d: Dir) {
    && d.meta.keyEpochSince <= d.meta.version
    && (d.meta.version == 0 ==> d.history == map[])
    && (d.meta.version > 0 ==> d.kdbx.Some? && d.meta.checksum == Sum(d.kdbx.value))
    && forall id :: id in d.history ==> SnapshotOk(d, id)
  }

  ghost predicate SnapshotOk(d: Dir, id: string)
    requires id in d.history
  {
    && HistoryVersion(id) <= d.meta.version
    && (Admits(d.meta, id) ==> d.kdbx.Some? && d.history[id].content.key == d.kdbx.value.key)
  }

  lemma FewerSnapshotsSound(d: Dir, d': Dir)
    requires Sound(d) && d'.meta == d.meta && d'.kdbx == d.kdbx
    requires forall id :: id in d'.history ==> id in d.history && d'.history[id] == d.history[id]
    ensures Sound(d')
  {
  }

  lemma SaveCommittedSound(d: Dir, s: Save)
    requires Sound(d) && SaveRefusal(d, s) == None
    requires d.meta.version > 0 ==> s.rotated || s.blob.key == d.kdbx.value.key
    ensures Sound(SaveCommitted(d, s))
    ensures SaveCommitted(d, s).kdbx == Some(s.blob) && SaveCommitted(d, s).meta == SavedMeta(d.meta, s)
  {
    HistoryVersionRoundTrip(Unix(d.meta.updatedAt), d.meta.version);
    var d' := SaveCommitted(d, s);
    forall id | id in d'.history ensures SnapshotOk(d', id) {
      assert id != ArchiveId(d.meta) ==> id in d.history && SnapshotOk(d, id);
    }
  }

  /** A save under the current key, or one that starts a key epoch, keeps the directory sound. */
  lemma SaveKeepsSound(d: Dir, s: Save, d': Dir, retention: Time)
    requires Sound(d) && SaveLeaves(d, s, d', retention)
    requires d.meta.version > 0 ==> s.rotated || s.blob.key == d.kdbx.value.key
    ensures Sound(d') && d'.kdbx == Some(s.blob) && d'.meta == SavedMeta(d.meta, s)
  {
    SaveCommittedSound(d, s);
    FewerSnapshotsSound(SaveCommitted(d, s), d');
  }

  lemma RestoreCommittedSound(d: Dir, id: string, now: Time, writable: bool)
    requires Sound(d) && RestoreRefusal(d, id) == None
    ensures Sound(RestoreCommitted(d, id, now, writable)) && d.kdbx.Some? && d.history[id].content.key == d.kdbx.value.key
    ensures RestoreCommitted(d, id, now, writable).kdbx == Some(d.history[id].content)
    ensures RestoreCommitted(d, id, now, writable).meta == NextMeta(d.meta, d.history[id].content, ROLLBACK_DEVICE, now)
  {
    HistoryVersionRoundTrip(Unix(d.meta.updatedAt), d.meta.version);
    var d' := RestoreCommitted(d, id, now, writable);
    assert SnapshotOk(d, id);
    forall i | i in d'.history ensures SnapshotOk(d', i) {
      assert i != RollbackId(Unix(d.meta.updatedAt), d.meta.version) ==> i in d.history && SnapshotOk(d, i);
    }
  }

  /** A rollback lands only on ciphertext under the current key. */
  lemma RestoreKeepsSound(d: Dir, id: string, now: Time, writable: bool, d': Dir, retention: Time)
    requires Sound(d) && RestoreLeaves(d, id, now, writable, d', retention)
    ensures Sound(d') && d'.kdbx == Some(d.history[id].content) && d.kdbx.Some? && d'.kdbx.value.key == d.kdbx.value.key
    ensures d'.meta == NextMeta(d.meta, d.history[id].content, ROLLBACK_DEVICE, now)
  {
    RestoreCommittedSound(d, id, now, writable);
    FewerSnapshotsSound(RestoreCommitted(d, id, now, writable), d');
  }

  // ------------------------------------------------------- runs of honest clients

  datatype Op =
    | SaveOp(s: Save)
    | RotateOp(s: Save)
    | EnvelopesOp(expected: int, password: Option<Envelope>, recovery: Option<Envelope>,
                  devices: Option<map<string, Envelope>>, now: Time)
    | UserKeyOp(expected: int, key: UserKey, createOnly: bool, now: Time)
    | RestoreOp(id: string, now: Time, writable: bool)

  ghost predicate OpShape(op: Op) {
    match op
    case SaveOp(s) => !s.rotated && !s.mustArchive && s.userKey == None
    case RotateOp(s) => s.rotated && !s.mustArchive
    case _ => true
  }

  /** op succeeds on d and leaves d'. */
  ghost predicate Lands(d: Dir, op: Op, d': Dir, retention: Time) {
    match op
    case SaveOp(s) => SaveLeaves(d, s, d', retention)
    case RotateOp(s) => s.password.Some? && s.recovery.Some? && SaveLeaves(d, s, d', retention)
    case EnvelopesOp(expected, pw, rec, devs, now) =>
      expected == d.meta.version && d' == EnvelopesSaved(d, pw, rec, devs, now)
    case UserKeyOp(expected, k, createOnly, now) =>
      UserKeyRefusal(d, expected, createOnly) == None && d' == UserKeySaved(d, k, now)
    case RestoreOp(id, now, writable) => RestoreLeaves(d, id, now, writable, d', retention)
  }

  /** op is refused on d; d' differs from d at most by a preserved conflict. */
  ghost predicate Refuses(d: Dir, op: Op, d': Dir) {
    match op
    case SaveOp(s) => SaveRefusal(d, s).Some? && d' == SaveRefused(d, s)
    case RotateOp(s) =>
      (s.password == None || s.recovery == None || SaveRefusal(d, s).Some?) && (d' == d || d' == SaveRefused(d, s))
    case EnvelopesOp(expected, _, _, _, _) => expected != d.meta.version && d' == d
    case UserKeyOp(expected, _, createOnly, _) => UserKeyRefusal(d, expected, createOnly).Some? && d' == d
    case RestoreOp(id, _, _) => RestoreRefusal(d, id).Some? && d' == d
  }

  /** A run: states[i+1] is what ops[i] leaves of states[i]. */
  ghost predicate IsRun(states: seq<Dir>, ops: seq<Op>, retention: Time) {
    && |states| == |ops| + 1
    && forall i :: 0 <= i < |ops| ==> Steps(states, ops, retention, i)
  }

  ghost predicate Steps(states: seq<Dir>, ops: seq<Op>, retention: Time, i: nat)
    requires |states| == |ops| + 1 && i < |ops|
  {
    OpShape(ops[i]) && (Lands(states[i], ops[i], states[i + 1], retention) || Refuses(states[i], ops[i], states[i + 1]))
  }

  /** The key of the ciphertext at each version a run passes through, newest state last. */
  ghost predicate ReadableAt(states: seq<Dir>, version: int, key: Key) {
    exists i :: 0 <= i < |states| && states[i].meta.version == version && states[i].kdbx.Some? && states[i].kdbx.value.key == key
  }

  ghost predicate Wraps(e: Option<Envelope>, key: Key) {
    e.Some? ==> e.value.wraps == key
  }

  /** The op was made by a client holding the key it read with the version it names; a
      rotation moves everything it carries to the key of its own bytes. */
  ghost predicate Honest(past: seq<Dir>, op: Op) {
    match op
    case SaveOp(s) => ReadableAt(past, s.expected, s.blob.key) && Wraps(s.password, s.blob.key) && Wraps(s.recovery, s.blob.key)
    case RotateOp(s) =>
      && Wraps(s.password, s.blob.key) && Wraps(s.recovery, s.blob.key)
      && (s.userKey.Some? ==> s.userKey.value.seedUnder == s.blob.key)
    case EnvelopesOp(expected, pw, rec, _, _) =>
      exists k :: ReadableAt(past, expected, k) && Wraps(pw, k) && Wraps(rec, k)
    case UserKeyOp(expected, k, _, _) => ReadableAt(past, expected, k.seedUnder)
    case RestoreOp(_, _, _) => true
  }

  ghost predicate HonestRun(states: seq<Dir>, ops: seq<Op>) {
    |states| == |ops| + 1 && forall i :: 0 <= i < |ops| ==> HonestAt(states, ops, i)
  }

  ghost predicate HonestAt(states: seq<Dir>, ops: seq<Op>, i: nat)
    requires |states| == |ops| + 1 && i < |ops|
  {
    Honest(states[..i + 1], ops[i])
  }

  /** Everything the owner needs opens under the key of the current ciphertext. */
  ghost predicate Openable(d: Dir) {
    && Sound(d) && d.meta.version > 0
    && Wraps(d.meta.passwordEnvelope, d.kdbx.value.key)
    && Wraps(d.meta.recoveryEnvelope, d.kdbx.value.key)
    && (d.meta.userKey.Some? ==> d.meta.userKey.value.seedUnder == d.kdbx.value.key)
  }

  /** Versions never fall, the epoch mark never falls, and a version names one key. */
  ghost predicate Ordered(states: seq<Dir>) {
    forall i, j :: 0 <= i < j < |states| ==> NotBelow(states[i], states[j])
  }

  lemma StepOrdered(d: Dir, op: Op, d': Dir, retention: Time)
    requires d.meta.keyEpochSince <= d.meta.version
    requires Lands(d, op, d', retention) || Refuses(d, op, d')
    ensures d'.meta.keyEpochSince <= d'.meta.version
    ensures NotBelow(d, d')
    ensures (op.SaveOp? || op.RotateOp? || op.RestoreOp?) && Lands(d, op, d', retention) ==>
      d'.meta.version == d.meta.version + 1
  {
  }

  lemma StepAtOrdered(states: seq<Dir>, ops: seq<Op>, retention: Time, i: nat)
    requires |states| == |ops| + 1 && i < |ops| && Steps(states, ops, retention, i)
    requires states[i].meta.keyEpochSince <= states[i].meta.version
    ensures NotBelow(states[i], states[i + 1]) && states[i + 1].meta.keyEpochSince <= states[i + 1].meta.version
  {
    StepOrdered(states[i], ops[i], states[i + 1], retention);
  }

  lemma {:induction false} OrderedUpTo(states: seq<Dir>, ops: seq<Op>, retention: Time, n: nat)
    requires IsRun(states, ops, retention) && states[0].meta.keyEpochSince <= states[0].meta.version && n < |states|
    ensures Ordered(states[..n + 1]) && states[n].meta.keyEpochSince <= states[n].meta.version
    decreases n
  {
    if n > 0 {
      var m, upTo := n - 1, states[..n + 1];
      OrderedUpTo(states, ops, retention, m);
      assert Steps(states, ops, retention, m);
      StepAtOrdered(states, ops, retention, m);
      assert upTo[..n] == states[..m + 1];
      OrderedExtends(upTo, n);
    }
  }

  lemma RunOrdered(states: seq<Dir>, ops: seq<Op>, retention: Time)
    requires IsRun(states, ops, retention) && states[0].meta.keyEpochSince <= states[0].meta.version
    ensures Ordered(states)
    ensures forall i :: 0 <= i < |states| ==> states[i].meta.keyEpochSince <= states[i].meta.version
  {
    forall i | 0 <= i < |states| ensures states[i].meta.keyEpochSince <= states[i].meta.version {
      OrderedUpTo(states, ops, retention, i);
    }
    OrderedUpTo(states, ops, retention, |ops|);
    assert states[..|ops| + 1] == states;
  }

  ghost predicate NotBelow(a: Dir, b: Dir) {
    && a.meta.version <= b.meta.version
    && a.meta.keyEpochSince <= b.meta.keyEpochSince
    && (a.meta.version == b.meta.version ==> a.kdbx == b.kdbx)
  }

  lemma OrderedExtends(states: seq<Dir>, n: nat)
    requires 0 < n && |states| == n + 1 && Ordered(states[..n]) && NotBelow(states[n - 1], states[n])
    ensures Ordered(states)
  {
  }

  /** What op carries is under key, or moves to a key of its own. */
  ghost predicate Carries(op: Op, key: Key) {
    match op
    case SaveOp(s) => s.blob.key == key && Wraps(s.password, key) && Wraps(s.recovery, key)
    case RotateOp(s) => Wraps(s.password, s.blob.key) && Wraps(s.recovery, s.blob.key)
      && (s.userKey.Some? ==> s.userKey.value.seedUnder == s.blob.key)
    case EnvelopesOp(_, pw, rec, _, _) => Wraps(pw, key) && Wraps(rec, key)
    case UserKeyOp(_, k, _, _) => k.seedUnder == key
    case RestoreOp(_, _, _) => true
  }

  lemma HonestIsCurrent(past: seq<Dir>, op: Op, d': Dir, retention: Time)
    requires past != [] && Ordered(past) && Honest(past, op) && past[|past| - 1].kdbx.Some?
    requires Lands(past[|past| - 1], op, d', retention)
    ensures Carries(op, past[|past| - 1].kdbx.value.key)
  {
  }

  lemma StepOpenable(d: Dir, op: Op, d': Dir, retention: Time)
    requires Openable(d) && OpShape(op)
    requires Lands(d, op, d', retention) || Refuses(d, op, d')
    requires Lands(d, op, d', retention) ==> Carries(op, d.kdbx.value.key)
    ensures Openable(d')
  {
    if Lands(d, op, d', retention) {
      match op
      case SaveOp(s) => SaveKeepsSound(d, s, d', retention);
      case RotateOp(s) => SaveKeepsSound(d, s, d', retention);
      case RestoreOp(id, now, writable) => RestoreKeepsSound(d, id, now, writable, d', retention);
      case _ =>
    }
  }

  lemma OrderedPrefix(states: seq<Dir>, n: nat)
    requires Ordered(states) && n <= |states|
    ensures Ordered(states[..n])
  {
  }

  /** From any openable state, whatever honest clients do in whatever order, every state is
      openable: both envelopes, the published key and every admissible snapshot open under
      the key of the current ciphertext. */
  lemma {:induction false} AlwaysOpenable(states: seq<Dir>, ops: seq<Op>, retention: Time, n: nat)
    requires IsRun(states, ops, retention) && HonestRun(states, ops) && Openable(states[0]) && n < |states|
    ensures Openable(states[n])
    decreases n
  {
    if n > 0 {
      AlwaysOpenable(states, ops, retention, n - 1);
      RunOrdered(states, ops, retention);
      NextOpenable(states, ops, retention, n - 1);
    }
  }

  lemma NextOpenable(states: seq<Dir>, ops: seq<Op>, retention: Time, i: nat)
    requires |states| == |ops| + 1 && i < |ops|
    requires Steps(states, ops, retention, i) && HonestAt(states, ops, i) && Ordered(states) && Openable(states[i])
    ensures Openable(states[i + 1])
  {
    var past := states[..i + 1];
    OrderedPrefix(states, i + 1);
    assert past[|past| - 1] == states[i];
    HonestStepOpenable(past, ops[i], states[i + 1], retention);
  }

  lemma HonestStepOpenable(past: seq<Dir>, op: Op, d': Dir, retention: Time)
    requires past != [] && Ordered(past) && Honest(past, op) && Openable(past[|past| - 1]) && OpShape(op)
    requires Lands(past[|past| - 1], op, d', retention) || Refuses(past[|past| - 1], op, d')
    ensures Openable(d')
  {
    var d := past[|past| - 1];
    if Lands(d, op, d', retention) {
      HonestIsCurrent(past, op, d', retention);
    }
    StepOpenable(d, op, d', retention);
  }

  // ------------------------------------------------------- the first version

  /** The first save makes the vault openable exactly when every envelope already waiting at
      version 0 is replaced by it or wraps its key. (Envelopes may be saved at version 0, when
      there is no ciphertext yet to read a key from; a published key may not.) */
  lemma FirstSaveOpenableIff(d: Dir, s: Save, d': Dir, retention: Time)
    requires Sound(d) && d.meta.version == 0 && d.meta.userKey == None
    requires OpShape(SaveOp(s)) && SaveLeaves(d, s, d', retention)
    requires Wraps(s.password, s.blob.key) && Wraps(s.recovery, s.blob.key)
    ensures Openable(d') <==>
      && (s.password.Some? || Wraps(d.meta.passwordEnvelope, s.blob.key))
      && (s.recovery.Some? || Wraps(d.meta.recoveryEnvelope, s.blob.key))
  {
  }

  // ------------------------------------------------------- optimistic concurrency

  predicate NamesVersion(op: Op, n: int) {
    match op
    case SaveOp(s) => s.expected == n
    case RotateOp(s) => s.expected == n
    case EnvelopesOp(expected, _, _, _, _) => expected == n
    case UserKeyOp(expected, _, _, _) => expected == n
    case RestoreOp(_, _, _) => false
  }

  /** Once a save or rotation based on a version lands, nothing else based on it ever lands. */
  lemma NoSecondWriteOnOneVersion(states: seq<Dir>, ops: seq<Op>, retention: Time, i: nat, j: nat, n: int)
    requires IsRun(states, ops, retention) && states[0].meta.keyEpochSince <= states[0].meta.version
    requires i < j < |ops| && NamesVersion(ops[i], n) && NamesVersion(ops[j], n)
    requires (ops[i].SaveOp? || ops[i].RotateOp?) && Lands(states[i], ops[i], states[i + 1], retention)
    ensures !Lands(states[j], ops[j], states[j + 1], retention)
  {
    RunOrdered(states, ops, retention);
    assert Steps(states, ops, retention, i) && Steps(states, ops, retention, j);
    StepOrdered(states[i], ops[i], states[i + 1], retention);
    assert i + 1 == j || NotBelow(states[i + 1], states[j]);
  }

  predicate MovesVersion(op: Op) {
    op.SaveOp? || op.RotateOp? || op.RestoreOp?
  }

  /** Some write naming version n can land. */
  ghost predicate CanLand(d: Dir, n: int, retention: Time) {
    exists op, d' :: OpShape(op) && NamesVersion(op, n) && Lands(d, op, d', retention)
  }

  lemma CanLandIff(d: Dir, n: int, retention: Time)
    ensures CanLand(d, n, retention) <==> d.meta.version == n
  {
    if d.meta.version == n {
      var op := EnvelopesOp(n, None, None, None, 0);
      assert OpShape(op) && NamesVersion(op, n) && Lands(d, op, EnvelopesSaved(d, None, None, None, 0), retention);
    }
  }

  /** After a write based on a version, another based on the same version can land exactly when the first was of
      envelopes or of a key. */
  lemma SecondWriteIff(d: Dir, op: Op, d': Dir, n: int, retention: Time)
    requires NamesVersion(op, n) && Lands(d, op, d', retention)
    ensures CanLand(d', n, retention) <==> op.EnvelopesOp? || op.UserKeyOp?
  {
    CanLandIff(d', n, retention);
  }

  ghost predicate MovedAt(states: seq<Dir>, ops: seq<Op>, retention: Time, k: nat)
    requires |states| == |ops| + 1 && k < |ops|
  {
    MovesVersion(ops[k]) && Lands(states[k], ops[k], states[k + 1], retention)
  }

  lemma {:induction false} VersionStandsIff(states: seq<Dir>, ops: seq<Op>, retention: Time, i: nat, j: nat)
    requires IsRun(states, ops, retention) && states[0].meta.keyEpochSince <= states[0].meta.version && i <= j <= |ops|
    ensures states[i].meta.version <= states[j].meta.version
    ensures states[j].meta.version == states[i].meta.version <==> forall k :: i <= k < j ==> !MovedAt(states, ops, retention, k)
    decreases j
  {
    if i < j {
      var m := j - 1;
      VersionStandsIff(states, ops, retention, i, m);
      RunOrdered(states, ops, retention);
      assert Steps(states, ops, retention, m);
      MovedIff(states, ops, retention, m);
    }
  }

  lemma MovedIff(states: seq<Dir>, ops: seq<Op>, retention: Time, k: nat)
    requires |states| == |ops| + 1 && k < |ops| && Steps(states, ops, retention, k)
    ensures states[k + 1].meta.version == states[k].meta.version + if MovedAt(states, ops, retention, k) then 1 else 0
  {
  }

  /** Over a run: a write naming the current version can land for as long as, and no longer than, no save, rotation
      or rollback does, whatever else has landed on that version. */
  lemma LandsAgainIff(states: seq<Dir>, ops: seq<Op>, retention: Time, i: nat, j: nat, n: int)
    requires IsRun(states, ops, retention) && states[0].meta.keyEpochSince <= states[0].meta.version && i <= j <= |ops|
    requires CanLand(states[i], n, retention)
    ensures CanLand(states[j], n, retention) <==> forall k :: i <= k < j ==> !MovedAt(states, ops, retention, k)
  {
    CanLandIff(states[i], n, retention);
    CanLandIff(states[j], n, retention);
    VersionStandsIff(states, ops, retention, i, j);
  }

  /** So two envelope writes naming one version both land, the second over the first. */
  lemma EnvelopeWritesCanCollide(d: Dir, a: Envelope, b: Envelope, now: Time) returns (states: seq<Dir>, ops: seq<Op>)
    ensures |ops| == 2 && |states| == 3 && states[0] == d && IsRun(states, ops, 1)
    ensures forall i :: 0 <= i < 2 ==>
      NamesVersion(ops[i], d.meta.version) && Lands(states[i], ops[i], states[i + 1], 1)
    ensures states[2].meta.passwordEnvelope == Some(b)
  {
    var first := EnvelopesOp(d.meta.version, Some(a), None, None, now);
    var second := EnvelopesOp(d.meta.version, Some(b), None, None, now);
    var d1 := EnvelopesSaved(d, Some(a), None, None, now);
    ops := [first, second];
    states := [d, d1, EnvelopesSaved(d1, Some(b), None, None, now)];
  }
}
