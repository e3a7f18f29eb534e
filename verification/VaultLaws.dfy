/** What each operation on a vault directory asks for and leaves, in the directory's own fields; and what becomes of
    a rejected upload, of a replaced version and of replaced keys. */
module VaultLaws {
  import opened Outcomes
  import opened HistoryIds
  import opened HistoryThinning
  import opened VaultFiles

  // ---------------------------------------------------------------- saving

  /** A save is refused for its version first, then for the published key a rotation must keep, then for an archive
      it must have and cannot write. */
  lemma SaveRefusedIff(d: Dir, s: Save)
    ensures var was, given := d.meta.userKey, s.userKey;
      var moved := s.expected != d.meta.version;
      var otherKey := s.rotated && (if was.Some? then given.None? || given.value.publicKey != was.value.publicKey else given.Some?);
      var unarchived := d.meta.version > 0 && s.mustArchive && (d.kdbx.None? || !s.archiveWritable);
      match SaveRefusal(d, s)
      case None => !moved && !otherKey && !unarchived
      case Some(Conflict(current, expected, _)) => moved && current == d.meta.version && expected == s.expected
      case Some(RotationUserKey) => !moved && otherKey
      case Some(Archive) => !moved && !otherKey && unarchived
      case _ => false
  {
  }

  /** A save refused because the version moved keeps the rejected bytes under the ID it answers with, and changes
      nothing else; any other refusal changes nothing. */
  lemma RefusedUploadKept(d: Dir, s: Save)
    requires SaveRefusal(d, s).Some?
    ensures var d', e := SaveRefused(d, s), SaveRefusal(d, s).value;
      && d'.meta == d.meta && d'.kdbx == d.kdbx && d'.history == d.history
      && (!e.Conflict? ==> d'.conflicts == d.conflicts)
      && (e.Conflict? ==>
            && e.id in d'.conflicts && d'.conflicts[e.id] == s.blob
            && forall other :: other != e.id ==>
                 && (other in d'.conflicts <==> other in d.conflicts)
                 && (other in d.conflicts ==> d'.conflicts[other] == d.conflicts[other]))
  {
  }

  /** What a save that lands leaves in the metadata and the ciphertext. */
  lemma SavedFields(d: Dir, s: Save, d': Dir, retention: Time)
    requires SaveLeaves(d, s, d', retention)
    ensures d'.kdbx == Some(s.blob) && d'.conflicts == d.conflicts
    ensures var m, m' := d.meta, d'.meta;
      && m'.version == m.version + 1 && m'.checksum == Sum(s.blob) && m'.updatedAt == s.now && m'.updatedBy == s.device
      && m'.passwordEnvelope == (if s.password.Some? then s.password else m.passwordEnvelope)
      && m'.recoveryEnvelope == (if s.recovery.Some? then s.recovery else m.recoveryEnvelope)
      && m'.deviceEnvelopes == (if s.rotated then map[] else m.deviceEnvelopes)
      && m'.keyEpochSince == (if s.rotated then m.version + 1 else m.keyEpochSince)
  {
  }

  /** A save never changes who is published: it keeps the public key and the ones before it; a rotation only takes
      the seed's new wrapping. */
  lemma SavedUserKey(d: Dir, s: Save, d': Dir, retention: Time)
    requires SaveLeaves(d, s, d', retention)
    ensures d'.meta.userKey.Some? == d.meta.userKey.Some?
    ensures d.meta.userKey.Some? ==>
      var k, k' := d.meta.userKey.value, d'.meta.userKey.value;
      && k'.publicKey == k.publicKey && k'.previous == k.previous
      && k'.seedUnder == if s.rotated then s.userKey.value.seedUnder else k.seedUnder
  {
  }

  /** A history after a write holds nothing but what it held and, if it could be written, the version the write
      replaced: its bytes, under its own time and number, as old as the write. */
  ghost predicate HistoryFrom(d: Dir, d': Dir, archive: string, now: Time, writable: bool) {
    forall id :: id in d'.history ==>
      || (id in d.history && d'.history[id] == d.history[id])
      || (id == archive && writable && d.meta.version > 0 && d.kdbx.Some? && d'.history[id] == Snap(d.kdbx.value, now))
  }

  lemma SavedHistory(d: Dir, s: Save, d': Dir, retention: Time)
    requires SaveLeaves(d, s, d', retention)
    ensures HistoryFrom(d, d', HistoryId(Unix(d.meta.updatedAt), d.meta.version), s.now, s.archiveWritable)
    ensures forall id :: id in d'.history ==> d'.history[id].modTime >= s.now - retention
    ensures |d'.history| <= 100
  {
    PrunedRecent(SaveCommitted(d, s).history, d'.history, s.now - retention);
  }

  /** With room for it, the version a save replaces is in the history afterwards if it could be written there, and so
      is everything recent that was there before, but for a snapshot of its very name. */
  lemma ReplacedVersionKept(d: Dir, s: Save, d': Dir, retention: Time)
    requires SaveLeaves(d, s, d', retention) && |d.history| < 100 && retention >= 0
    ensures var archive := HistoryId(Unix(d.meta.updatedAt), d.meta.version);
      && (d.meta.version > 0 && d.kdbx.Some? && s.archiveWritable ==>
            archive in d'.history && d'.history[archive] == Snap(d.kdbx.value, s.now))
      && forall id :: id in d.history && id != archive && d.history[id].modTime >= s.now - retention ==>
            id in d'.history && d'.history[id] == d.history[id]
  {
    RoomKeepsAll(d, s, d', retention, SaveCommitted(d, s).history);
  }

  lemma RoomKeepsAll(d: Dir, s: Save, d': Dir, retention: Time, h: History)
    requires SaveLeaves(d, s, d', retention) && |d.history| < 100 && h == SaveCommitted(d, s).history
    ensures forall id :: id in h && h[id].modTime >= s.now - retention ==> id in d'.history && d'.history[id] == h[id]
  {
    ArchivedFew(d, ArchiveId(d.meta), s.now, s.archiveWritable, s.now - retention);
    assert Pruned(h, d'.history, s.now - retention);
    assert h == Archived(d, ArchiveId(d.meta), s.now, s.archiveWritable).history;
    RoomKeeps(h, d'.history, s.now - retention);
  }

  lemma ArchivedFew(d: Dir, id: string, now: Time, writable: bool, cutoff: Time)
    requires |d.history| < 100
    ensures FewEnough(Archived(d, id, now, writable).history, cutoff)
  {
    FewUnexpired(d.history, Archived(d, id, now, writable).history, id, cutoff);
  }

  lemma FewUnexpired(before: History, h: History, id: string, cutoff: Time)
    requires |before| < 100 && h.Keys <= before.Keys + {id}
    ensures FewEnough(h, cutoff)
  {
    var recent := Unexpired(h, cutoff);
    assert recent <= before.Keys + {id};
    assert before.Keys + {id} == recent + (before.Keys + {id} - recent);
    assert |before| == |before.Keys|;
  }

  // ---------------------------------------------------------------- rolling back

  lemma RestoreRefusedIff(d: Dir, id: string)
    ensures RestoreRefusal(d, id) ==
      if HistoryVersion(id) < d.meta.keyEpochSince then Some(StaleKey)
      else if !UsableName(id) || id !in d.history then Some(NotFound)
      else None
  {
  }

  /** A file name, never a path. */
  predicate UsableName(id: string) {
    id !in {"", ".", ".."} && '/' !in id && '\\' !in id && '\0' !in id
  }

  /** A rollback makes the snapshot's bytes the next version, and keeps envelopes, published key and epoch. */
  lemma RestoredFields(d: Dir, id: string, now: Time, writable: bool, d': Dir, retention: Time)
    requires RestoreLeaves(d, id, now, writable, d', retention)
    ensures id in d.history && d'.kdbx == Some(d.history[id].content) && d'.conflicts == d.conflicts
    ensures d'.meta == d.meta.(version := d.meta.version + 1, checksum := Sum(d.history[id].content), updatedAt := now,
                               updatedBy := "rollback")
    ensures HistoryFrom(d, d', HistoryId(Unix(d.meta.updatedAt), d.meta.version) + "_before_rollback", now, writable)
    ensures |d'.history| <= 100
  {
    PrunedRecent(RestoreCommitted(d, id, now, writable).history, d'.history, now - retention);
  }

  /** With room in the history, a rollback can be rolled back: the version it replaced is admitted under the name it
      was given, and puts the very ciphertext back. */
  lemma RollbackUndone(d: Dir, id: string, now: Time, d': Dir, later: Time, d'': Dir, retention: Time)
    requires d.kdbx.Some? && 0 < d.meta.version <= MAX_INT64 && d.meta.keyEpochSince <= d.meta.version
    requires |d.history| < 100 && retention >= 0 && RestoreLeaves(d, id, now, true, d', retention)
    ensures var back := HistoryId(Unix(d.meta.updatedAt), d.meta.version) + "_before_rollback";
      && RestoreRefusal(d', back) == None
      && (RestoreLeaves(d', back, later, true, d'', retention) ==> d''.kdbx == d.kdbx)
  {
    var back := RollbackId(Unix(d.meta.updatedAt), d.meta.version);
    ReplacedByRollback(d, id, now, d', retention);
    RollbackAdmitted(d, d', back);
  }

  lemma RollbackAdmitted(d: Dir, d': Dir, back: string)
    requires back == RollbackId(Unix(d.meta.updatedAt), d.meta.version) && back in d'.history
    requires d.meta.version <= MAX_INT64 && d'.meta.keyEpochSince <= d.meta.version
    ensures RestoreRefusal(d', back) == None
  {
    HistoryVersionRoundTrip(Unix(d.meta.updatedAt), d.meta.version);
  }

  lemma ReplacedByRollback(d: Dir, id: string, now: Time, d': Dir, retention: Time)
    requires d.kdbx.Some? && 0 < d.meta.version && |d.history| < 100 && retention >= 0 && RestoreLeaves(d, id, now, true, d', retention)
    ensures var back := RollbackId(Unix(d.meta.updatedAt), d.meta.version);
      back in d'.history && d'.history[back] == Snap(d.kdbx.value, now)
  {
    var h := Archived(d, RollbackId(Unix(d.meta.updatedAt), d.meta.version), now, true).history;
    ArchivedFew(d, RollbackId(Unix(d.meta.updatedAt), d.meta.version), now, true, now - retention);
    assert Pruned(h, d'.history, now - retention);
    RoomKeeps(h, d'.history, now - retention);
  }

  // ---------------------------------------------------------------- marks, envelopes, conflicts

  /** The epoch mark goes up to the version named, never down, and nothing else changes. */
  lemma EpochMarkedFields(d: Dir, version: int)
    ensures EpochRefusal(d, version) == if d.meta.version == 0 then Some(NotFound)
                                        else if 1 <= version <= d.meta.version then None else Some(BadEpoch)
    ensures EpochRefusal(d, version) == None ==>
      var d' := EpochMarked(d, version);
      && d'.meta.keyEpochSince == (if version > d.meta.keyEpochSince then version else d.meta.keyEpochSince)
      && d' == d.(meta := d.meta.(keyEpochSince := d'.meta.keyEpochSince))
  {
  }

  /** Afterwards exactly the snapshots of versions before the mark are refused. */
  lemma MarkRefusesOlder(d: Dir, version: int, id: string)
    requires EpochRefusal(d, version) == None && RestoreRefusal(d, id) == None
    ensures RestoreRefusal(EpochMarked(d, version), id) == if HistoryVersion(id) < version then Some(StaleKey) else None
  {
  }

  lemma EnvelopeFields(d: Dir, password: Option<Envelope>, recovery: Option<Envelope>, devices: Option<map<string, Envelope>>, now: Time)
    ensures var d' := EnvelopesSaved(d, password, recovery, devices, now);
      && (d'.kdbx, d'.history, d'.conflicts) == (d.kdbx, d.history, d.conflicts)
      && d'.meta.updatedAt == now
      && d'.meta.passwordEnvelope == (if password.Some? then password else d.meta.passwordEnvelope)
      && d'.meta.recoveryEnvelope == (if recovery.Some? then recovery else d.meta.recoveryEnvelope)
      && d'.meta.deviceEnvelopes == (if devices.Some? then devices.value else d.meta.deviceEnvelopes)
      && (d'.meta.version, d'.meta.checksum, d'.meta.updatedBy, d'.meta.keyEpochSince, d'.meta.userKey)
         == (d.meta.version, d.meta.checksum, d.meta.updatedBy, d.meta.keyEpochSince, d.meta.userKey)
  {
  }

  lemma ClearedFields(d: Dir)
    ensures var d' := Cleared(d); d'.meta == d.meta && d'.kdbx == d.kdbx && d'.history == map[] && d'.conflicts == map[]
  {
  }

  lemma DiscardedFields(d: Dir, id: string)
    ensures var d' := Discarded(d, id);
      && d'.meta == d.meta && d'.kdbx == d.kdbx && d'.history == d.history
      && (forall other :: other in d'.conflicts <==> other in d.conflicts && other != id)
      && forall other :: other in d'.conflicts ==> d'.conflicts[other] == d.conflicts[other]
  {
  }

  // ---------------------------------------------------------------- published keys

  /** A publication lands exactly at the version it names, which is not 0, and, if it must be the first, only where
      there is none. */
  lemma PublishedIff(d: Dir, expected: int, createOnly: bool)
    ensures UserKeyRefusal(d, expected, createOnly) == None <==>
      expected == d.meta.version && d.meta.version > 0 && (createOnly ==> d.meta.userKey.None?)
    ensures UserKeyRefusal(d, expected, createOnly) in {None, Some(VersionMoved)}
  {
  }

  /** It replaces the published key and its seed; a key of another name is kept among the previous ones, of which the
      five most recent stay. */
  lemma PublishedFields(d: Dir, k: UserKey, now: Time)
    ensures var d' := UserKeySaved(d, k, now);
      && d' == d.(meta := d.meta.(userKey := d'.meta.userKey, updatedAt := now))
      && d'.meta.userKey.Some?
      && var k' := d'.meta.userKey.value;
      && k'.publicKey == k.publicKey && k'.seedUnder == k.seedUnder
      && (d.meta.userKey.None? ==> k'.previous == [])
      && (d.meta.userKey.Some? ==>
            var was := d.meta.userKey.value;
            if was.publicKey == k.publicKey then k'.previous == was.previous
            else EndsWith(was.previous + [was.publicKey], k'.previous)
                 && |k'.previous| == if |was.previous| < 5 then |was.previous| + 1 else 5)
  {
    if d.meta.userKey.Some? {
      var all := d.meta.userKey.value.previous + [d.meta.userKey.value.publicKey];
      assert all[0..] == all;
    }
  }

  predicate EndsWith(all: seq<string>, tail: seq<string>) {
    |tail| <= |all| && all[|all| - |tail|..] == tail
  }

  /** The public keys a run of publications replaced, oldest first. */
  function ReplacedKeys(ks: seq<UserKey>): seq<string> {
    if |ks| <= 1 then []
    else
      var n := |ks| - 1;
      ReplacedKeys(ks[..n]) + if ks[n].publicKey == ks[n - 1].publicKey then [] else [ks[n - 1].publicKey]
  }

  function PublishAll(d: Dir, ks: seq<UserKey>, now: Time): Dir {
    if ks == [] then d else UserKeySaved(PublishAll(d, ks[..|ks| - 1], now), ks[|ks| - 1], now)
  }

  /** After any sequence of publications the record is the last one's key, and its previous keys are the last five
      that were replaced, in order. */
  lemma {:induction false} PreviousKeysAre(d: Dir, ks: seq<UserKey>, now: Time)
    requires ks != [] && d.meta.userKey.None?
    ensures RecordIs(PublishAll(d, ks, now), ks[|ks| - 1], ReplacedKeys(ks))
    decreases |ks|
  {
    var n := |ks| - 1;
    var before := PublishAll(d, ks[..n], now);
    if n > 0 {
      PreviousKeysAre(d, ks[..n], now);
      assert ks[..n][n - 1] == ks[n - 1];
      NextRecord(before, ks[n - 1], ks[n], ReplacedKeys(ks[..n]), now);
    } else {
      assert before == d;
      PublishedFields(d, ks[0], now);
    }
  }

  predicate RecordIs(d: Dir, k: UserKey, replaced: seq<string>) {
    && d.meta.userKey.Some?
    && d.meta.userKey.value.publicKey == k.publicKey && d.meta.userKey.value.seedUnder == k.seedUnder
    && EndsWith(replaced, d.meta.userKey.value.previous)
    && |d.meta.userKey.value.previous| == if |replaced| < 5 then |replaced| else 5
  }

  lemma NextRecord(d: Dir, was: UserKey, k: UserKey, replaced: seq<string>, now: Time)
    requires RecordIs(d, was, replaced)
    ensures RecordIs(UserKeySaved(d, k, now), k, replaced + if k.publicKey == was.publicKey then [] else [was.publicKey])
  {
    PublishedFields(d, k, now);
    Shifted(replaced, d.meta.userKey.value.previous, was.publicKey, UserKeySaved(d, k, now).meta.userKey.value.previous);
  }

  lemma Shifted(all: seq<string>, tail: seq<string>, x: string, next: seq<string>)
    requires EndsWith(all, tail)
    ensures EndsWith(tail + [x], next) ==> EndsWith(all + [x], next)
    ensures all + [] == all
  {
    if EndsWith(tail + [x], next) {
      var cut := |all| - |tail|;
      assert all == all[..cut] + tail;
      assert all + [x] == all[..cut] + (tail + [x]);
    }
  }

  // ---------------------------------------------------------------- names

  /** A character a device's name may keep in a file's: a letter, a digit, a hyphen or an underscore. */
  predicate NameChar(c: char) {
    var n := c as int;
    97 <= n <= 122 || 65 <= n <= 90 || 48 <= n <= 57 || n == 45 || n == 95
  }

  /** A device stands in a conflict's ID by its own name if that is short and plain, and otherwise as web or unknown. */
  lemma DeviceInName(device: string)
    ensures FileToken(device)
         == if device == "" then "web"
            else if |device| > 64 || exists i :: 0 <= i < |device| && !NameChar(device[i]) then "unknown"
            else device
  {
  }

  /** A directory never written is empty, at version 0, with nothing to open it. */
  lemma UnwrittenIs(dirs: map<string, Dir>, key: string)
    ensures key in dirs ==> Current(dirs, key) == dirs[key]
    ensures key !in dirs ==>
      var d := Current(dirs, key);
      && d.kdbx == None && d.history == map[] && d.conflicts == map[]
      && d.meta.updatedAt == 0 && d.meta.updatedBy == ""
      && d.meta.version == 0 && d.meta.keyEpochSince == 0 && d.meta.checksum == NoSum && d.meta.userKey == None
      && d.meta.passwordEnvelope == None && d.meta.recoveryEnvelope == None && d.meta.deviceEnvelopes == map[]
  {
  }

  /** A conflict's ID is one its owner can open and discard, whatever device is named. */
  lemma ConflictNameUsable(now: Time, device: string, expected: int)
    ensures UsableName(ConflictId(now, device, expected)) && ValidFileId(ConflictId(now, device, expected))
  {
    var a, b, c := Decimal(now) + "_", FileToken(device), "_exp" + Decimal(expected);
    DecimalHarmless(now);
    DecimalHarmless(expected);
    assert Harmless(a) && Harmless(b) && Harmless(c);
    HarmlessTogether(a, b);
    HarmlessTogether(a + b, c);
    assert ConflictId(now, device, expected) == a + b + c;
    assert |a + b + c| > 2;
  }

  predicate Harmless(s: string) {
    forall i :: 0 <= i < |s| ==> s[i] != '/' && s[i] != '\\' && s[i] != '\0'
  }

  lemma HarmlessTogether(a: string, b: string)
    requires Harmless(a) && Harmless(b)
    ensures Harmless(a + b)
  {
  }

  lemma DecimalHarmless(n: int)
    ensures Harmless(Decimal(n))
  {
    if n < 0 {
      assert Decimal(n) == "-" + Digits(-n);
    }
  }

  /** Refusals at different times never share a conflict ID. */
  lemma ConflictNamesDistinct(now: Time, later: Time, device: string, other: string, expected: int, named: int)
    requires -MAX_INT64 <= now < later <= MAX_INT64
    ensures ConflictId(now, device, expected) != ConflictId(later, other, named)
  {
    var a, b := Decimal(now), Decimal(later);
    var rest, tail := FileToken(device) + "_exp" + Decimal(expected), FileToken(other) + "_exp" + Decimal(named);
    assert ConflictId(now, device, expected) == a + "_" + rest;
    assert ConflictId(later, other, named) == b + "_" + tail;
    CutAfter(a, "_", rest);
    CutAfter(b, "_", tail);
    if a + "_" + rest == b + "_" + tail {
      assert (a + "_" + rest)[..|a|] == a && (b + "_" + tail)[..|b|] == b;
      ParsesInt(now);
      ParsesInt(later);
    }
  }

  /** The seconds of a time, rounded down. */
  lemma UnixRoundsDown(t: Time)
    ensures Unix(t) * 1_000_000_000 <= t < (Unix(t) + 1) * 1_000_000_000
  {
  }

  /** Archives made of versions last written in different seconds, or of different versions, have different names. */
  lemma ArchiveNamesTell(unix: int, version: nat, other: int, v: nat)
    requires -MAX_INT64 <= unix <= MAX_INT64 && -MAX_INT64 <= other <= MAX_INT64 && version <= MAX_INT64 && v <= MAX_INT64
    requires HistoryId(unix, version) == HistoryId(other, v) || RollbackId(unix, version) == RollbackId(other, v)
    ensures unix == other && version == v
  {
    HistoryVersionRoundTrip(unix, version);
    HistoryVersionRoundTrip(other, v);
    NameParts(unix, version);
    NameParts(other, v);
    if HistoryId(unix, version) == HistoryId(other, v) {
      SameTime(unix, "v" + Decimal(version), other, "v" + Decimal(v), HistoryId(unix, version));
    } else {
      SameTime(unix, "v" + Decimal(version) + BEFORE_ROLLBACK, other, "v" + Decimal(v) + BEFORE_ROLLBACK, RollbackId(unix, version));
    }
  }

  lemma NameParts(unix: int, version: nat)
    ensures HistoryId(unix, version) == Decimal(unix) + "_" + ("v" + Decimal(version))
    ensures RollbackId(unix, version) == Decimal(unix) + "_" + ("v" + Decimal(version) + BEFORE_ROLLBACK)
  {
    Regrouped(Decimal(unix), Decimal(version));
    assert Decimal(unix) + "_" + ("v" + Decimal(version)) + BEFORE_ROLLBACK
        == Decimal(unix) + "_" + ("v" + Decimal(version) + BEFORE_ROLLBACK);
  }

  lemma Regrouped(a: string, b: string)
    ensures a + "_v" + b == a + "_" + ("v" + b)
  {
    assert "_v" == "_" + "v";
  }

  lemma SameTime(unix: int, a: string, other: int, b: string, name: string)
    requires -MAX_INT64 <= unix <= MAX_INT64 && -MAX_INT64 <= other <= MAX_INT64
    requires name == Decimal(unix) + "_" + a && name == Decimal(other) + "_" + b
    ensures unix == other
  {
    TimeOfName(unix, a);
    TimeOfName(other, b);
  }

  lemma TimeOfName(unix: int, rest: string)
    requires -MAX_INT64 <= unix <= MAX_INT64
    ensures var name := Decimal(unix) + "_" + rest;
      FindFrom(name, "_", 0) == Some(|Decimal(unix)|) && ParseInt64(name[..|Decimal(unix)|]) == unix
  {
    var name := Decimal(unix) + "_" + rest;
    CutAfter(Decimal(unix), "_", rest);
    assert name[..|Decimal(unix)|] == Decimal(unix);
    ParsesInt(unix);
  }

  /** Printing and reading a number of the type's range gives it back, whatever its sign. */
  lemma ParsesInt(n: int)
    requires -MAX_INT64 - 1 <= n <= MAX_INT64
    ensures ParseInt64(Decimal(n)) == n
  {
    if n >= 0 {
      ParsesDecimal(n);
    } else {
      ValueOfDigits(-n);
      assert Decimal(n)[1..] == Digits(-n);
    }
  }

  predicate Numeral(s: string) {
    s != "" && AllDigits(s)
  }

  /** A number is digits, with a sign or without; one beyond the type's range reads as the nearest bound, and anything
      else as 0. */
  lemma ReadsNumber(ds: string)
    requires Numeral(ds)
    ensures var n := Value(ds);
      && ParseInt64(ds) == (if n > 0x7FFF_FFFF_FFFF_FFFF then 0x7FFF_FFFF_FFFF_FFFF else n)
      && ParseInt64("+" + ds) == ParseInt64(ds)
      && ParseInt64("-" + ds) == if n > 0x8000_0000_0000_0000 then -0x8000_0000_0000_0000 else -n
  {
    assert ("+" + ds)[1..] == ds && ("-" + ds)[1..] == ds;
    assert IsDigit(ds[0]);
  }

  lemma ReadsNothing(s: string)
    requires !Numeral(s) && (s == "" || s[0] !in {'+', '-'} || !Numeral(s[1..]))
    ensures ParseInt64(s) == 0
  {
  }

  predicate MarkAt(id: string, i: nat) {
    i + 1 < |id| && id[i] == '_' && id[i + 1] == 'v'
  }

  lemma MarkIsSep(id: string, i: nat)
    ensures MarkAt(id, i) <==> SepAt(id, "_v", i)
  {
    if i + 2 <= |id| {
      assert id[i..i + 2] == [id[i], id[i + 1]];
    }
  }

  /** Where a name has no _v, a rollback takes its version to be 0. */
  lemma NoVersionInName(id: string)
    requires forall i: nat :: !MarkAt(id, i)
    ensures HistoryVersion(id) == 0
  {
    forall j: nat ensures !SepAt(id, "_v", j) {
      MarkIsSep(id, j);
    }
    FindsNone(id, "_v", 0);
  }

  /** Otherwise it is the number between the first _v and the underscore after it, if there is one. */
  lemma VersionInName(a: string, b: string, tail: string)
    requires forall i: nat :: i < |a| ==> !MarkAt(a + "_v", i)
    requires (forall i :: 0 <= i < |b| ==> b[i] != '_') && (tail == "" || tail[0] == '_')
    ensures HistoryVersion(a + "_v" + b + tail) == ParseInt64(b)
  {
    var id := a + "_v" + (b + tail);
    assert a + "_v" + b + tail == id;
    MarkIsSep(id, |a|);
    forall j: nat | j < |a| ensures !SepAt(id, "_v", j) {
      MarkIsSep(id, j);
      assert !MarkAt(a + "_v", j);
      assert id[j] == (a + "_v")[j] && id[j + 1] == (a + "_v")[j + 1];
    }
    FindsFirst(id, "_v", 0, |a|);
    assert id[|a| + 2..] == b + tail;
    VersionEnds(b, tail);
  }

  lemma VersionEnds(b: string, tail: string)
    requires (forall i :: 0 <= i < |b| ==> b[i] != '_') && (tail == "" || tail[0] == '_')
    ensures match FindFrom(b + tail, "_", 0)
            case None => b + tail == b
            case Some(j) => (b + tail)[..j] == b
  {
    if tail == "" {
      assert b + tail == b;
      NoCut(b);
    } else {
      assert b + tail == b + "_" + tail[1..];
      CutAfter(b, "_", tail[1..]);
      assert (b + tail)[..|b|] == b;
    }
  }

  /** A number is printed with a sign exactly when it is negative, and without leading zeros. */
  lemma {:induction false} DecimalPlain(n: int)
    ensures Decimal(n)[0] == '-' <==> n < 0
    ensures n > 0 ==> Decimal(n)[0] != '0'
    ensures n == 0 ==> Decimal(n) == "0"
  {
    if n >= 10 {
      DecimalPlain(n / 10);
      assert Decimal(n)[0] == Decimal(n / 10)[0];
    }
  }

  // ---------------------------------------------------------------- rejected uploads, over runs

  datatype Op =
    | SaveOp(s: Save)
    | RestoreOp(id: string, now: Time, writable: bool)
    | MarkOp(version: int)
    | EnvelopesOp(password: Option<Envelope>, recovery: Option<Envelope>, devices: Option<map<string, Envelope>>, now: Time)
    | PublishOp(k: UserKey, now: Time)
    | DiscardOp(id: string)
    | ClearOp

  /** What one operation that is let through leaves; one that is not, but for a refused save, leaves d. */
  ghost predicate Step(d: Dir, op: Op, d': Dir, retention: Time) {
    || d' == d
    || match op
       case SaveOp(s) => SaveLeaves(d, s, d', retention) || (SaveRefusal(d, s).Some? && d' == SaveRefused(d, s))
       case RestoreOp(id, now, writable) => RestoreLeaves(d, id, now, writable, d', retention)
       case MarkOp(version) => EpochRefusal(d, version) == None && d' == EpochMarked(d, version)
       case EnvelopesOp(pw, rec, devs, now) => d' == EnvelopesSaved(d, pw, rec, devs, now)
       case PublishOp(k, now) => d' == UserKeySaved(d, k, now)
       case DiscardOp(id) => d' == Discarded(d, id)
       case ClearOp => ClearStop(d, d')
  }

  ghost predicate StepsAt(states: seq<Dir>, ops: seq<Op>, retention: Time, i: nat)
    requires |states| == |ops| + 1 && i < |ops|
  {
    Step(states[i], ops[i], states[i + 1], retention)
  }

  ghost predicate Run(states: seq<Dir>, ops: seq<Op>, retention: Time) {
    |states| == |ops| + 1 && forall i :: 0 <= i < |ops| ==> StepsAt(states, ops, retention, i)
  }

  /** The operation may take this conflict away: a clear, its discarding, or another refusal answered with its ID. */
  ghost predicate Frees(d: Dir, op: Op, id: string) {
    || op.ClearOp?
    || op == DiscardOp(id)
    || (op.SaveOp? && SaveRefusal(d, op.s).Some? && SaveRefusal(d, op.s).value.Conflict? && SaveRefusal(d, op.s).value.id == id)
  }

  lemma ConflictStays(d: Dir, op: Op, d': Dir, retention: Time, id: string, blob: Blob)
    requires Step(d, op, d', retention) && !Frees(d, op, id) && id in d.conflicts && d.conflicts[id] == blob
    ensures id in d'.conflicts && d'.conflicts[id] == blob
  {
    if op.SaveOp? && SaveRefusal(d, op.s).Some? {
      RefusedUploadKept(d, op.s);
    }
  }

  ghost predicate NothingFrees(states: seq<Dir>, ops: seq<Op>, i: nat, j: nat, id: string)
    requires |states| == |ops| + 1
  {
    forall k :: i < k < j && k < |ops| ==> !Frees(states[k], ops[k], id)
  }

  /** A rejected upload is among the conflicts, under the ID its uploader was told, until a clear, its discarding or
      another refusal under the same ID. */
  lemma {:induction false} RejectedUploadStays(states: seq<Dir>, ops: seq<Op>, retention: Time, i: nat, j: nat)
    requires Run(states, ops, retention) && i < j <= |ops| && ops[i].SaveOp?
    requires SaveRefusal(states[i], ops[i].s).Some? && SaveRefusal(states[i], ops[i].s).value.Conflict?
    requires states[i + 1] == SaveRefused(states[i], ops[i].s)
    requires NothingFrees(states, ops, i, j, SaveRefusal(states[i], ops[i].s).value.id)
    ensures var id := SaveRefusal(states[i], ops[i].s).value.id;
      id in states[j].conflicts && states[j].conflicts[id] == ops[i].s.blob
    decreases j
  {
    var id, m := SaveRefusal(states[i], ops[i].s).value.id, j - 1;
    if m == i {
      RefusedUploadKept(states[i], ops[i].s);
    } else {
      RejectedUploadStays(states, ops, retention, i, m);
      assert StepsAt(states, ops, retention, m);
      ConflictStays(states[m], ops[m], states[j], retention, id, ops[i].s.blob);
    }
  }
}
