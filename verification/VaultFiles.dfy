/** The versioned vault store: one directory per vault holding metadata, the current
    ciphertext, history snapshots and preserved conflicts.

    What an operation leaves is given as a relation between the directory before and after
    (pruning may break ties between snapshots of equal age either way); the class `Store`
    performs it write by write and is proved to satisfy the relation. */
module VaultFiles {
  import opened Outcomes
  import opened HistoryIds
  import opened HistoryThinning

  type Time = int                    // nanoseconds
  const SECOND: Time := 1_000_000_000
  const MAX_PREVIOUS := 5

  /** The identity of a vault key. Only clients hold keys; the store never looks at these. */
  type Key = int

  /** Ciphertext, and the key it opens under. */
  datatype Blob = Blob(key: Key, body: int)
  /** A vault key wrapped for its owner; opaque to the store. */
  datatype Envelope = Envelope(wraps: Key, body: int)
  /** A published key whose seed is wrapped under a vault key. */
  datatype UserKey = UserKey(publicKey: string, seedUnder: Key, previous: seq<string>)
  /** A digest, as collision-free as the blob it is taken of. */
  datatype Checksum = NoSum | Sum(of: Blob)

  datatype Metadata = Metadata(
    version: nat,
    checksum: Checksum,
    updatedAt: Time,
    updatedBy: string,
    passwordEnvelope: Option<Envelope>,
    recoveryEnvelope: Option<Envelope>,
    deviceEnvelopes: map<string, Envelope>,
    keyEpochSince: nat,
    userKey: Option<UserKey>)

  type History = map<string, Snap<Blob>>

  datatype Dir = Dir(meta: Metadata, kdbx: Option<Blob>, history: History, conflicts: map<string, Blob>)

  datatype Error =
    | NotFound | Retired | Conflict(current: nat, expected: int, id: string) | VersionMoved
    | StaleKey | RotationEnvelopes | RotationUserKey | Archive | BadEpoch | Io

  const ROLLBACK_DEVICE := "rollback"

  const EMPTY_DIR := Dir(Metadata(0, NoSum, 0, "", None, None, map[], 0, None), None, map[], map[])

  function Current(dirs: map<string, Dir>, key: string): Dir {
    if key in dirs then dirs[key] else EMPTY_DIR
  }

  // ---------------------------------------------------------------- saving

  datatype Save = Save(
    expected: int, blob: Blob, password: Option<Envelope>, recovery: Option<Envelope>, device: string,
    rotated: bool, mustArchive: bool, userKey: Option<UserKey>,
    now: Time,
    archiveWritable: bool)           // whether the archive copy can be written just now

  function FileToken(v: string): string {
    if v == "" then "web"
    else if |v| <= 64 && forall i :: 0 <= i < |v| ==>
      'a' <= v[i] <= 'z' || 'A' <= v[i] <= 'Z' || '0' <= v[i] <= '9' || v[i] == '-' || v[i] == '_'
    then v else "unknown"
  }

  function ConflictId(now: Time, device: string, expected: int): string {
    Decimal(now) + "_" + FileToken(device) + "_exp" + Decimal(expected)
  }

  function Unix(t: Time): int {
    t / SECOND
  }

  function ArchiveId(m: Metadata): string {
    HistoryId(Unix(m.updatedAt), m.version)
  }

  predicate UserKeyRefused(d: Dir, s: Save) {
    match d.meta.userKey
    case Some(k) => s.userKey == None || s.userKey.value.publicKey != k.publicKey
    case None => s.userKey.Some?
  }

  function SaveRefusal(d: Dir, s: Save): Option<Error> {
    if s.expected != d.meta.version then Some(Conflict(d.meta.version, s.expected, ConflictId(s.now, s.device, s.expected)))
    else if s.rotated && UserKeyRefused(d, s) then Some(RotationUserKey)
    else if d.meta.version > 0 && s.mustArchive && !(d.kdbx.Some? && s.archiveWritable) then Some(Archive)
    else None
  }

  /** The current ciphertext copied into the history under id, if it can be. */
  function Archived(d: Dir, id: string, now: Time, writable: bool): Dir {
    if d.meta.version > 0 && d.kdbx.Some? && writable then d.(history := d.history[id := Snap(d.kdbx.value, now)]) else d
  }

  function NextMeta(m: Metadata, blob: Blob, device: string, now: Time): Metadata {
    m.(version := m.version + 1, checksum := Sum(blob), updatedAt := now, updatedBy := device)
  }

  function Or<T>(a: Option<T>, b: Option<T>): Option<T> {
    if a.Some? then a else b
  }

  function SavedMeta(m: Metadata, s: Save): Metadata {
    var next := NextMeta(m, s.blob, s.device, s.now);
    var keyed :=
      if !s.rotated then next
      else next.(keyEpochSince := next.version,
                 deviceEnvelopes := map[],
                 userKey := match s.userKey
                            case None => m.userKey
                            case Some(k) => Some(k.(previous := if m.userKey.Some? then m.userKey.value.previous else k.previous)));
    keyed.(passwordEnvelope := Or(s.password, m.passwordEnvelope), recoveryEnvelope := Or(s.recovery, m.recoveryEnvelope))
  }

  /** The directory after each write of a save, in order: the archive, the ciphertext, the
      metadata. Pruning follows. */
  function SaveArchived(d: Dir, s: Save): Dir {
    Archived(d, ArchiveId(d.meta), s.now, s.archiveWritable)
  }

  function SaveSwapped(d: Dir, s: Save): Dir {
    SaveArchived(d, s).(kdbx := Some(s.blob))
  }

  function SaveCommitted(d: Dir, s: Save): Dir {
    SaveSwapped(d, s).(meta := SavedMeta(d.meta, s))
  }

  ghost predicate PrunedDir(d: Dir, d': Dir, cutoff: Time) {
    d' == d.(history := d'.history) && Pruned(d.history, d'.history, cutoff)
  }

  /** A save that succeeds takes d to d'. */
  ghost predicate SaveLeaves(d: Dir, s: Save, d': Dir, retention: Time) {
    SaveRefusal(d, s) == None && PrunedDir(SaveCommitted(d, s), d', s.now - retention)
  }

  /** A refused save leaves everything but the rejected upload, kept as a conflict. */
  function SaveRefused(d: Dir, s: Save): Dir {
    if s.expected != d.meta.version
    then d.(conflicts := d.conflicts[ConflictId(s.now, s.device, s.expected) := s.blob])
    else d
  }

  /** Where a stop during a pruning pass can leave the history. */
  ghost predicate Between(after: History, x: History, before: History) {
    && after.Keys <= x.Keys <= before.Keys
    && forall id :: id in x ==> x[id] == before[id]
  }

  ghost predicate PruneStop(d: Dir, after: History, x: Dir) {
    x == d.(history := x.history) && Between(after, x.history, d.history)
  }

  /** Where a stop anywhere during a successful save can leave the directory. A torn archive
      write leaves any content under the archive's name. */
  ghost predicate SaveStop(d: Dir, s: Save, d': Dir, x: Dir) {
    || x == d
    || TornArchive(d, ArchiveId(d.meta), x)
    || x == SaveArchived(d, s)
    || x == SaveSwapped(d, s)
    || PruneStop(SaveCommitted(d, s), d'.history, x)
  }

  // ---------------------------------------------------------------- rolling back

  predicate ValidFileId(id: string) {
    id != "" && id != "." && id != ".." && forall i :: 0 <= i < |id| ==> id[i] != '/' && id[i] != '\\' && id[i] != '\0'
  }

  predicate Admits(m: Metadata, id: string) {
    HistoryVersion(id) >= m.keyEpochSince
  }

  function RestoreRefusal(d: Dir, id: string): Option<Error> {
    if !Admits(d.meta, id) then Some(StaleKey)
    else if !ValidFileId(id) || id !in d.history then Some(NotFound)
    else None
  }

  function RolledBack(d: Dir, archiveId: string, blob: Blob, now: Time, writable: bool): Dir {
    Archived(d, archiveId, now, writable).(kdbx := Some(blob), meta := NextMeta(d.meta, blob, ROLLBACK_DEVICE, now))
  }

  function RestoreCommitted(d: Dir, id: string, now: Time, writable: bool): Dir
    requires RestoreRefusal(d, id) == None
  {
    RolledBack(d, RollbackId(Unix(d.meta.updatedAt), d.meta.version), d.history[id].content, now, writable)
  }

  ghost predicate RestoreLeaves(d: Dir, id: string, now: Time, writable: bool, d': Dir, retention: Time) {
    RestoreRefusal(d, id) == None && PrunedDir(RestoreCommitted(d, id, now, writable), d', now - retention)
  }

  // ---------------------------------------------------------------- the smaller operations

  function EpochRefusal(d: Dir, version: int): Option<Error> {
    if d.meta.version == 0 then Some(NotFound)
    else if version <= 0 || version > d.meta.version then Some(BadEpoch)
    else None
  }

  function EpochMarked(d: Dir, version: int): Dir
    requires EpochRefusal(d, version) == None
  {
    if version <= d.meta.keyEpochSince then d else d.(meta := d.meta.(keyEpochSince := version))
  }

  function Cleared(d: Dir): Dir {
    d.(history := map[], conflicts := map[])
  }

  predicate PartOf<T(==)>(x: map<string, T>, all: map<string, T>) {
    forall id :: id in x ==> id in all && x[id] == all[id]
  }

  /** Where clearing the history can stop: the snapshots go first, then the conflicts. */
  ghost predicate ClearStop(d: Dir, x: Dir) {
    && x == d.(history := x.history, conflicts := x.conflicts)
    && PartOf(x.history, d.history) && PartOf(x.conflicts, d.conflicts)
    && (x.conflicts == d.conflicts || x.history == map[])
  }

  function Discarded(d: Dir, id: string): Dir {
    d.(conflicts := d.conflicts - {id})
  }

  function EnvelopesSaved(d: Dir, password: Option<Envelope>, recovery: Option<Envelope>,
                          devices: Option<map<string, Envelope>>, now: Time): Dir
  {
    d.(meta := d.meta.(passwordEnvelope := Or(password, d.meta.passwordEnvelope),
                       recoveryEnvelope := Or(recovery, d.meta.recoveryEnvelope),
                       deviceEnvelopes := if devices.Some? then devices.value else d.meta.deviceEnvelopes,
                       updatedAt := now))
  }

  function LastN<T>(s: seq<T>, n: nat): seq<T> {
    if |s| > n then s[|s| - n..] else s
  }

  function PublishedKey(was: Option<UserKey>, k: UserKey): UserKey {
    k.(previous := match was
       case None => []
       case Some(o) => if o.publicKey == k.publicKey then o.previous else LastN(o.previous + [o.publicKey], MAX_PREVIOUS))
  }

  function UserKeyRefusal(d: Dir, expected: int, createOnly: bool): Option<Error> {
    if expected == 0 || d.meta.version != expected || (createOnly && d.meta.userKey.Some?) then Some(VersionMoved) else None
  }

  function UserKeySaved(d: Dir, k: UserKey, now: Time): Dir {
    d.(meta := d.meta.(userKey := Some(PublishedKey(d.meta.userKey, k)), updatedAt := now))
  }

  // ---------------------------------------------------------------- writes to one directory

  lemma BetweenEnds(kept: History, h: History, before: History)
    requires Between(kept, kept, before) && Between(kept, h, before) && h.Keys - kept.Keys == {}
    ensures h == kept
  {
    forall id | id in h ensures id in kept {
      assert id !in h.Keys - kept.Keys;
    }
    assert h.Keys == kept.Keys;
  }

  /** Removes files one at a time until only kept is left. */
  method RemoveDown(d: Dir, kept: History) returns (d': Dir, ghost trail: seq<Dir>)
    requires Between(kept, kept, d.history)
    ensures d' == d.(history := kept)
    ensures forall x :: x in trail ==> PruneStop(d, kept, x)
  {
    trail := [];
    var h := d.history;
    var extra := h.Keys - kept.Keys;
    while extra != {}
      invariant Between(kept, h, d.history) && extra == h.Keys - kept.Keys
      invariant forall x :: x in trail ==> PruneStop(d, kept, x)
      decreases |extra|
    {
      var id :| id in extra;
      h, extra := RemoveOne(kept, h, d.history, id);
      ghost var stop := d.(history := h);
      assert PruneStop(d, kept, stop);
      trail := trail + [stop];
    }
    BetweenEnds(kept, h, d.history);
    d' := d.(history := h);
  }

  lemma NoneLeft<T>(x: map<string, T>)
    requires x.Keys == {}
    ensures x == map[]
  {
  }

  /** Removes the snapshots and then the conflicts, one at a time, up to a file that cannot be removed. */
  method RemoveAll(d: Dir, stuck: set<string>) returns (failed: bool, d': Dir, ghost trail: seq<Dir>)
    ensures failed <==> exists id :: id in stuck && (id in d.history || id in d.conflicts)
    ensures ClearStop(d, d') && (!failed ==> d' == Cleared(d))
    ensures forall x :: x in trail ==> ClearStop(d, x)
  {
    d', trail := d, [];
    while d'.history.Keys != {}
      invariant ClearStop(d, d') && d'.conflicts == d.conflicts
      invariant forall id :: id in d.history && id !in d'.history ==> id !in stuck
      invariant forall x :: x in trail ==> ClearStop(d, x)
      decreases |d'.history.Keys|
    {
      var id :| id in d'.history;
      if id in stuck {
        return true, d', trail;
      }
      ghost var keys := d'.history.Keys;
      d' := d'.(history := d'.history - {id});
      assert d'.history.Keys == keys - {id};
      trail := trail + [d'];
    }
    NoneLeft(d'.history);
    while d'.conflicts.Keys != {}
      invariant ClearStop(d, d') && d'.history == map[]
      invariant forall id :: id in d.conflicts && id !in d'.conflicts ==> id !in stuck
      invariant forall x :: x in trail ==> ClearStop(d, x)
      decreases |d'.conflicts.Keys|
    {
      var id :| id in d'.conflicts;
      if id in stuck {
        return true, d', trail;
      }
      ghost var keys := d'.conflicts.Keys;
      d' := d'.(conflicts := d'.conflicts - {id});
      assert d'.conflicts.Keys == keys - {id};
      trail := trail + [d'];
    }
    NoneLeft(d'.conflicts);
    failed := false;
  }

  method RemoveOne(kept: History, h: History, ghost before: History, id: string) returns (h': History, extra: set<string>)
    requires Between(kept, h, before) && id in h && id !in kept
    ensures h' == h - {id} && extra == h'.Keys - kept.Keys && |extra| < |h.Keys - kept.Keys|
    ensures Between(kept, h', before)
  {
    h' := h - {id};
    extra := h'.Keys - kept.Keys;
    assert extra == (h.Keys - kept.Keys) - {id};
  }

  method PruneOldHistory(d: Dir, cutoff: Time) returns (d': Dir, ghost trail: seq<Dir>)
    ensures PrunedDir(d, d', cutoff)
    ensures forall x :: x in trail ==> PruneStop(d, d'.history, x)
  {
    var kept := Prune(d.history, cutoff);
    d', trail := RemoveDown(d, kept);
  }

  ghost predicate TornArchive(d: Dir, id: string, x: Dir) {
    id in x.history && x == d.(history := d.history[id := x.history[id]])
  }

  /** Copies the current ciphertext into the history; torn is what an interrupted copy leaves. */
  method WriteArchive(d: Dir, id: string, now: Time, writable: bool, ghost torn: Snap<Blob>)
    returns (d': Dir, written: bool, ghost trail: seq<Dir>)
    ensures written <==> d.meta.version > 0 && d.kdbx.Some? && writable
    ensures d' == Archived(d, id, now, writable)
    ensures forall x :: x in trail ==> x == d' || TornArchive(d, id, x)
  {
    d', trail := d, [];
    written := d.meta.version > 0 && d.kdbx.Some? && writable;
    if written {
      d' := d.(history := d.history[id := Snap(d.kdbx.value, now)]);
      trail := [d.(history := d.history[id := torn]), d'];
    }
  }

  /** Replaces the ciphertext, then the metadata, then prunes: the order every write keeps. */
  method CommitFiles(d: Dir, blob: Blob, next: Metadata, cutoff: Time, ghost committed: Dir) returns (d': Dir, ghost trail: seq<Dir>)
    requires committed == d.(kdbx := Some(blob), meta := next)
    ensures PrunedDir(committed, d', cutoff)
    ensures forall x :: x in trail ==> x == d.(kdbx := Some(blob)) || PruneStop(committed, d'.history, x)
  {
    var swapped := d.(kdbx := Some(blob));
    var written := swapped.(meta := next);
    ghost var pruning;
    d', pruning := PruneOldHistory(written, cutoff);
    trail := [swapped, committed] + pruning;
  }

  method NextMetadata(current: Metadata, s: Save) returns (next: Metadata)
    ensures next == SavedMeta(current, s)
  {
    next := Metadata(current.version + 1, Sum(s.blob), s.now, s.device, current.passwordEnvelope,
                     current.recoveryEnvelope, current.deviceEnvelopes, current.keyEpochSince, current.userKey);
    if s.rotated {
      next := next.(keyEpochSince := next.version, deviceEnvelopes := map[]);
      if s.userKey.Some? {
        var kept := s.userKey.value;
        if current.userKey.Some? {
          kept := kept.(previous := current.userKey.value.previous);
        }
        next := next.(userKey := Some(kept));
      }
    }
    if s.password.Some? {
      next := next.(passwordEnvelope := s.password);
    }
    if s.recovery.Some? {
      next := next.(recoveryEnvelope := s.recovery);
    }
  }

  lemma WritesAreStops(d: Dir, s: Save, d': Dir, writes: seq<Dir>)
    requires forall x :: x in writes ==>
      || x == SaveArchived(d, s) || TornArchive(d, ArchiveId(d.meta), x)
      || x == SaveSwapped(d, s) || PruneStop(SaveCommitted(d, s), d'.history, x)
    ensures forall x :: x in writes ==> SaveStop(d, s, d', x)
  {
  }

  /** The writes of a save that named the current version: the archive, then the new files. */
  method ReplaceCurrent(d: Dir, s: Save, retention: Time, ghost torn: Snap<Blob>)
    returns (refused: Option<Error>, d': Dir, ghost trail: seq<Dir>)
    requires s.expected == d.meta.version && !(s.rotated && UserKeyRefused(d, s))
    ensures refused == SaveRefusal(d, s)
    ensures refused.Some? ==> d' == d
    ensures refused.None? ==> PrunedDir(SaveCommitted(d, s), d', s.now - retention)
    ensures refused.None? ==> forall x :: x in trail ==> SaveStop(d, s, d', x)
  {
    var current := d.meta;
    var archived, written;
    archived, written, trail :=
      WriteArchive(d, HistoryId(Unix(current.updatedAt), current.version), s.now, s.archiveWritable, torn);
    if current.version > 0 && !written && s.mustArchive {
      return Some(Archive), d, trail;
    }
    var next := NextMetadata(current, s);
    ghost var rest;
    d', rest := CommitFiles(archived, s.blob, next, s.now - retention, SaveCommitted(d, s));
    WritesAreStops(d, s, d', trail);
    WritesAreStops(d, s, d', rest);
    trail := trail + rest;
    refused := None;
  }

  /** One save of one directory. */
  method SaveInto(d: Dir, s: Save, retention: Time, ghost torn: Snap<Blob>)
    returns (r: Result<Metadata, Error>, d': Dir, ghost trail: seq<Dir>)
    ensures r.Err? <==> SaveRefusal(d, s).Some?
    ensures r.Err? ==> r.error == SaveRefusal(d, s).value && d' == SaveRefused(d, s)
    ensures r.Ok? ==> r.value == d'.meta && SaveLeaves(d, s, d', retention)
    ensures r.Ok? ==> forall x :: x in trail ==> SaveStop(d, s, d', x)
  {
    d', trail := d, [];
    var current := d.meta;
    if s.expected != current.version {
      var conflictId := ConflictId(s.now, s.device, s.expected);
      return Err(Conflict(current.version, s.expected, conflictId)), d.(conflicts := d.conflicts[conflictId := s.blob]), trail;
    }
    if s.rotated {
      if current.userKey.Some? && (s.userKey == None || s.userKey.value.publicKey != current.userKey.value.publicKey) {
        return Err(RotationUserKey), d, trail;
      }
      if current.userKey == None && s.userKey.Some? {
        return Err(RotationUserKey), d, trail;
      }
    }
    var refused;
    refused, d', trail := ReplaceCurrent(d, s, retention, torn);
    r := if refused.Some? then Err(refused.value) else Ok(d'.meta);
  }

  /** One rollback of one directory. */
  method RestoreInto(d: Dir, id: string, now: Time, archiveWritable: bool, retention: Time)
    returns (r: Result<Metadata, Error>, d': Dir)
    ensures match RestoreRefusal(d, id)
            case Some(e) => r == Err(e) && d' == d
            case None => r == Ok(d'.meta) && RestoreLeaves(d, id, now, archiveWritable, d', retention)
  {
    if HistoryVersion(id) < d.meta.keyEpochSince {
      return Err(StaleKey), d;
    }
    if !ValidFileId(id) || id !in d.history {
      return Err(NotFound), d;
    }
    d' := RollBackTo(d, RollbackId(Unix(d.meta.updatedAt), d.meta.version), d.history[id].content, now, archiveWritable, retention);
    r := Ok(d'.meta);
  }

  /** Makes blob the next version, archiving the current one if it can. */
  method RollBackTo(d: Dir, archiveId: string, blob: Blob, now: Time, archiveWritable: bool, retention: Time) returns (d': Dir)
    ensures PrunedDir(RolledBack(d, archiveId, blob, now, archiveWritable), d', now - retention)
  {
    var current := d.meta;
    ghost var trail;
    var archived, written;
    archived, written, trail := WriteArchive(d, archiveId, now, archiveWritable, Snap(blob, now));
    var next := Metadata(current.version + 1, Sum(blob), now, ROLLBACK_DEVICE, current.passwordEnvelope,
                         current.recoveryEnvelope, current.deviceEnvelopes, current.keyEpochSince, current.userKey);
    d', trail := CommitFiles(archived, blob, next, now - retention, RolledBack(d, archiveId, blob, now, archiveWritable));
  }

  // ---------------------------------------------------------------- the store

  class Store {
    var dirs: map<string, Dir>
    var retired: set<string>
    const retention: Time

    constructor (retentionDays: int)
      ensures dirs == map[] && retired == {}
      ensures retention == (if retentionDays <= 0 then 90 else retentionDays) * 86_400 * SECOND
    {
      dirs, retired := map[], {};
      retention := (if retentionDays <= 0 then 90 else retentionDays) * 86_400 * SECOND;
    }

    /** One save. torn is what an interrupted archive write would leave; trail lists every
        state the directory passes through. */
    method SaveVault(key: string, s: Save, ghost torn: Snap<Blob>) returns (r: Result<Metadata, Error>, ghost trail: seq<Dir>)
      modifies this`dirs
      ensures key in retired ==> r == Err(Error.Retired) && dirs == old(dirs)
      ensures r.Err? && r.error.Conflict? ==>
        key in dirs && r.error.id in dirs[key].conflicts && dirs[key].conflicts[r.error.id] == s.blob
      ensures key !in retired ==>
        var d := Current(old(dirs), key);
        match SaveRefusal(d, s)
        case Some(e) => r == Err(e) && dirs == old(dirs)[key := SaveRefused(d, s)]
        case None =>
          && r.Ok? && key in dirs && dirs == old(dirs)[key := dirs[key]] && r.value == dirs[key].meta
          && SaveLeaves(d, s, dirs[key], retention)
          && forall x :: x in trail ==> SaveStop(d, s, dirs[key], x)
    {
      trail := [];
      if key in retired {
        return Err(Error.Retired), trail;
      }
      var saved;
      r, saved, trail := SaveInto(Current(dirs, key), s, retention, torn);
      dirs := dirs[key := saved];
    }

    /** A personal key rotation: refused without both new envelopes. */
    method RotateVault(key: string, s: Save, ghost torn: Snap<Blob>) returns (r: Result<Metadata, Error>)
      requires s.rotated && !s.mustArchive
      modifies this`dirs
      ensures s.password == None || s.recovery == None ==> r == Err(RotationEnvelopes) && dirs == old(dirs)
      ensures s.password.Some? && s.recovery.Some? && key in retired ==> r == Err(Error.Retired) && dirs == old(dirs)
      ensures s.password.Some? && s.recovery.Some? && key !in retired ==>
        var d := Current(old(dirs), key);
        match SaveRefusal(d, s)
        case Some(e) => r == Err(e) && dirs == old(dirs)[key := SaveRefused(d, s)]
        case None => r.Ok? && key in dirs && dirs == old(dirs)[key := dirs[key]] && SaveLeaves(d, s, dirs[key], retention)
    {
      if s.password == None || s.recovery == None {
        return Err(RotationEnvelopes);
      }
      ghost var trail;
      r, trail := SaveVault(key, s, torn);
    }

    method RestoreHistory(key: string, id: string, now: Time, archiveWritable: bool) returns (r: Result<Metadata, Error>)
      modifies this`dirs
      ensures key in retired ==> r == Err(Error.Retired) && dirs == old(dirs)
      ensures key !in retired ==>
        var d := Current(old(dirs), key);
        match RestoreRefusal(d, id)
        case Some(e) => r == Err(e) && dirs == old(dirs)
        case None =>
          && r.Ok? && key in dirs && dirs == old(dirs)[key := dirs[key]] && r.value == dirs[key].meta
          && RestoreLeaves(d, id, now, archiveWritable, dirs[key], retention)
    {
      if key in retired {
        return Err(Error.Retired);
      }
      var d := Current(dirs, key);
      var restored;
      r, restored := RestoreInto(d, id, now, archiveWritable, retention);
      if r.Ok? {
        dirs := dirs[key := restored];
      }
    }

    method MarkKeyEpoch(key: string, version: int) returns (r: Option<Error>)
      modifies this`dirs
      ensures key in retired ==> r == Some(Error.Retired) && dirs == old(dirs)
      ensures key !in retired ==>
        var d := Current(old(dirs), key);
        && r == EpochRefusal(d, version)
        && dirs == if r == None then old(dirs)[key := EpochMarked(d, version)] else old(dirs)
    {
      if key in retired {
        return Some(Error.Retired);
      }
      var d := Current(dirs, key);
      if d.meta.version == 0 {
        return Some(NotFound);
      }
      if version <= 0 || version > d.meta.version {
        return Some(BadEpoch);
      }
      if version <= d.meta.keyEpochSince {
        assert dirs == dirs[key := d];
        return None;
      }
      dirs := dirs[key := d.(meta := d.meta.(keyEpochSince := version))];
      return None;
    }

    /** stuck names the files that cannot be removed; the first one met ends the clear. */
    method ClearHistory(key: string, stuck: set<string>) returns (r: Option<Error>, ghost trail: seq<Dir>)
      modifies this`dirs
      ensures key in retired ==> r == Some(Error.Retired) && dirs == old(dirs)
      ensures key !in retired ==>
        var d := Current(old(dirs), key);
        && key in dirs && dirs == old(dirs)[key := dirs[key]]
        && r == (if exists id :: id in stuck && (id in d.history || id in d.conflicts) then Some(Io) else None)
        && ClearStop(d, dirs[key]) && (r == None ==> dirs[key] == Cleared(d))
        && forall x :: x in trail ==> ClearStop(d, x)
    {
      trail := [];
      if key in retired {
        return Some(Error.Retired), trail;
      }
      var failed, left;
      failed, left, trail := RemoveAll(Current(dirs, key), stuck);
      dirs := dirs[key := left];
      return if failed then Some(Io) else None, trail;
    }

    /** One preserved conflict the owner is done with. */
    method DiscardConflict(key: string, id: string, removable: bool) returns (r: Option<Error>)
      modifies this`dirs
      ensures r == if !ValidFileId(id) then Some(NotFound)
                   else if key in retired then Some(Error.Retired)
                   else if id !in Current(old(dirs), key).conflicts || !removable then Some(Io)
                   else None
      ensures if r == None then key in dirs && dirs == old(dirs)[key := dirs[key]] && dirs[key] == Discarded(Current(old(dirs), key), id)
              else dirs == old(dirs)
    {
      if !ValidFileId(id) {
        return Some(NotFound);
      }
      if key in retired {
        return Some(Error.Retired);
      }
      var d := Current(dirs, key);
      if id !in d.conflicts || !removable {
        return Some(Io);
      }
      dirs := dirs[key := d.(conflicts := d.conflicts - {id})];
      return None;
    }

    method SaveEnvelopes(key: string, expected: int, password: Option<Envelope>, recovery: Option<Envelope>,
                         devices: Option<map<string, Envelope>>, now: Time) returns (r: Option<Error>)
      modifies this`dirs
      ensures key in retired ==> r == Some(Error.Retired) && dirs == old(dirs)
      ensures key !in retired ==>
        var d := Current(old(dirs), key);
        if expected != d.meta.version then r == Some(VersionMoved) && dirs == old(dirs)
        else r == None && dirs == old(dirs)[key := EnvelopesSaved(d, password, recovery, devices, now)]
    {
      if key in retired {
        return Some(Error.Retired);
      }
      var d := Current(dirs, key);
      var meta := d.meta;
      if meta.version != expected {
        return Some(VersionMoved);
      }
      if password.Some? {
        meta := meta.(passwordEnvelope := password);
      }
      if recovery.Some? {
        meta := meta.(recoveryEnvelope := recovery);
      }
      if devices.Some? {
        meta := meta.(deviceEnvelopes := devices.value);
      }
      dirs := dirs[key := d.(meta := meta.(updatedAt := now))];
      return None;
    }

    /** Publishes or replaces the owner's key; created says which. */
    method SaveUserKey(key: string, expected: int, k: UserKey, createOnly: bool, now: Time)
      returns (r: Option<Error>, created: bool)
      modifies this`dirs
      ensures expected == 0 ==> r == Some(VersionMoved) && dirs == old(dirs)
      ensures key in retired && expected != 0 ==> r == Some(Error.Retired) && dirs == old(dirs)
      ensures key !in retired ==>
        var d := Current(old(dirs), key);
        && r == UserKeyRefusal(d, expected, createOnly)
        && dirs == (if r == None then old(dirs)[key := UserKeySaved(d, k, now)] else old(dirs))
        && (r == None ==> (created <==> d.meta.userKey == None))
    {
      created := false;
      if expected == 0 {
        return Some(VersionMoved), false;
      }
      if key in retired {
        return Some(Error.Retired), false;
      }
      var d := Current(dirs, key);
      if d.meta.version != expected || (createOnly && d.meta.userKey.Some?) {
        return Some(VersionMoved), false;
      }
      var rec := k.(previous := []);
      created := d.meta.userKey == None;
      if !created {
        var was := d.meta.userKey.value;
        rec := rec.(previous := was.previous);
        if was.publicKey != rec.publicKey {
          rec := rec.(previous := rec.previous + [was.publicKey]);
          if |rec.previous| > MAX_PREVIOUS {
            rec := rec.(previous := rec.previous[|rec.previous| - MAX_PREVIOUS..]);
          }
        }
      }
      dirs := dirs[key := d.(meta := d.meta.(userKey := Some(rec), updatedAt := now))];
      return None, created;
    }

    /** Takes the directory away and retires its key for good; unless it is there and cannot be renamed. */
    method MoveOut(key: string, movable: bool) returns (r: Option<Error>, moved: Option<Dir>)
      modifies this
      ensures r == if key in old(dirs) && !movable then Some(Io) else None
      ensures moved == if key in old(dirs) && movable then Some(old(dirs)[key]) else None
      ensures r.Some? ==> dirs == old(dirs) && retired == old(retired)
      ensures r.None? ==> dirs == old(dirs) - {key} && retired == old(retired) + {key}
    {
      moved := None;
      if key in dirs {
        if !movable {
          return Some(Io), None;
        }
        moved := Some(dirs[key]);
        dirs := dirs - {key};
      }
      assert dirs == old(dirs) - {key};
      retired := retired + {key};
      r := None;
    }
  }
}
