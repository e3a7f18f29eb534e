/** The critical sections that start, end, save and reload sessions. */
module SessionServer {
  import opened Outcomes
  import opened LogoutFence
  import opened DevicePairing

  /** A live session; one without a device is a browser session. */
  datatype Session = Session(id: string, userID: string, expiresAt: int, sso: Identity, deviceID: string)

  /** Sessions under the digest of their token. */
  type Sessions = map<string, Session>

  datatype MintError = Inactive | Irrevocable | LoginFenced | DeviceGone | IssuerRevoked

  datatype LogoutError = NotAdmitted(why: AdmitError) | SessionsNotDurable

  const BROWSER_SECONDS := 24 * 3600
  const DEVICE_SECONDS := 90 * 24 * 3600

  function Live(sessions: Sessions, now: int): Sessions {
    map k | k in sessions && now < sessions[k].expiresAt :: sessions[k]
  }

  function Unmatched(sessions: Sessions, e: LogoutEvent): Sessions {
    map k | k in sessions && !e.Matches(sessions[k].sso) :: sessions[k]
  }

  function MatchedUsers(sessions: Sessions, e: LogoutEvent): set<string> {
    set k | k in sessions && e.Matches(sessions[k].sso) :: sessions[k].userID
  }

  function PinsOfAny(b: Book, users: set<string>): set<string> {
    set p | p in b.pins && b.pins[p].userID in users
  }

  function OffDevices(sessions: Sessions, devices: set<string>): Sessions {
    map k | k in sessions && sessions[k].deviceID !in devices :: sessions[k]
  }

  function NotOf(sessions: Sessions, userID: string): Sessions {
    map k | k in sessions && sessions[k].userID != userID :: sessions[k]
  }

  predicate Reloads(sess: Session, events: Events, devices: map<string, Device>, now: int) {
    now < sess.expiresAt && !FencedBy(events, sess.sso, now) && (sess.deviceID == "" || sess.deviceID in devices)
  }

  function Loaded(stored: Sessions, events: Events, devices: map<string, Device>, now: int): Sessions {
    map k | k in stored && Reloads(stored[k], events, devices, now) :: stored[k]
  }

  function LoginVerdict(active: bool, sso: Identity, events: Events, now: int): Option<MintError> {
    if !active then Some(Inactive)
    else if !sso.Revocable() then Some(Irrevocable)
    else if FencedBy(events, sso, now) then Some(LoginFenced)
    else None
  }

  function MintVerdict(active: bool, deviceID: string, origin: Origin, events: Events, devices: map<string, Device>, now: int)
    : Option<MintError>
  {
    if LoginVerdict(active, origin.sso, events, now).Some? then LoginVerdict(active, origin.sso, events, now)
    else if deviceID != "" && deviceID !in devices then Some(DeviceGone)
    else if origin.issuerDeviceID != "" && origin.issuerDeviceID !in devices then Some(IssuerRevoked)
    else None
  }

  class Server {
    const logouts: LogoutLog
    const devices: Store
    var sessions: Sessions
    var sessionsFile: Sessions
    var sessionsDirty: bool
    var logoutPending: set<string>

    ghost predicate Valid()
      reads this, logouts
    {
      logouts.Valid()
    }

    /** A server over logout and device records loaded before it; the session file is read last. */
    constructor (logouts: LogoutLog, devices: Store, stored: Sessions, now: int)
      requires logouts.Valid()
      ensures Valid() && this.logouts == logouts && this.devices == devices
      ensures sessions == Loaded(stored, logouts.events, devices.devices, now)
      ensures sessionsFile == stored && !sessionsDirty && logoutPending == {}
    {
      this.logouts, this.devices := logouts, devices;
      sessions, sessionsFile, sessionsDirty, logoutPending := map[], stored, false, {};
      new;
      LoadSessions(now);
    }

    method LoadSessions(now: int)
      requires sessions == map[]
      modifies this`sessions
      ensures sessions == Loaded(sessionsFile, logouts.events, devices.devices, now)
    {
      var todo := sessionsFile.Keys;
      while todo != {}
        invariant todo <= sessionsFile.Keys
        invariant sessions == map k | k in sessionsFile && k !in todo
                                      && Reloads(sessionsFile[k], logouts.events, devices.devices, now) :: sessionsFile[k]
        decreases todo
      {
        var k :| k in todo;
        todo := todo - {k};
        var sess := sessionsFile[k];
        var fenced := logouts.Fenced(sess.sso, now);
        if now < sess.expiresAt && !fenced {
          if sess.deviceID == "" || sess.deviceID in devices.devices {
            sessions := sessions[k := sess];
          }
        }
      }
    }

    /** On failure the memory stays as it is and the file is left for a later retry. */
    method SaveSessionsLocked(saved: bool)
      modifies this`sessionsFile, this`sessionsDirty
      ensures sessionsDirty == !saved
      ensures sessionsFile == if saved then sessions else old(sessionsFile)
    {
      if saved {
        sessionsFile := sessions;
      }
      sessionsDirty := !saved;
    }

    method RetrySessionSave(saved: bool)
      modifies this`sessionsFile, this`sessionsDirty
      ensures sessionsDirty == (old(sessionsDirty) && !saved)
      ensures sessionsFile == if old(sessionsDirty) && saved then sessions else old(sessionsFile)
    {
      if sessionsDirty {
        SaveSessionsLocked(saved);
      }
    }

    method PruneSessionsLocked(now: int) returns (removed: bool)
      modifies this`sessions
      ensures sessions == Live(old(sessions), now)
      ensures removed <==> sessions != old(sessions)
    {
      var todo := sessions.Keys;
      removed := false;
      while todo != {}
        invariant todo <= old(sessions).Keys
        invariant sessions == map k | k in old(sessions) && (k in todo || now < old(sessions)[k].expiresAt) :: old(sessions)[k]
        invariant removed <==> sessions != old(sessions)
        decreases todo
      {
        var k :| k in todo;
        todo := todo - {k};
        if now >= sessions[k].expiresAt {
          sessions := sessions - {k};
          removed := true;
          assert k in old(sessions) && k !in sessions;
        }
      }
    }

    method PruneSessions(now: int, saved: bool)
      modifies this
      ensures sessions == Live(old(sessions), now) && logoutPending == old(logoutPending)
      ensures var tried := sessions != old(sessions) || old(sessionsDirty);
        sessionsDirty == (tried && !saved) && sessionsFile == if tried && saved then sessions else old(sessionsFile)
    {
      var removed := PruneSessionsLocked(now);
      if removed || sessionsDirty {
        SaveSessionsLocked(saved);
      }
    }

    /** now is read before the lock is taken. */
    method StartSession(key: string, id: string, userID: string, active: bool, sso: Identity, now: int, saved: bool)
      returns (refused: Option<MintError>)
      modifies this
      ensures refused == LoginVerdict(active, sso, logouts.events, now) && logoutPending == old(logoutPending)
      ensures refused.Some? ==> sessions == old(sessions) && sessionsFile == old(sessionsFile) && sessionsDirty == old(sessionsDirty)
      ensures refused.None? ==>
          && sessions == Live(old(sessions), now)[key := Session(id, userID, now + BROWSER_SECONDS, sso, "")]
          && sessionsFile == (if saved then sessions else old(sessionsFile)) && sessionsDirty == !saved
    {
      if !active {
        return Some(Inactive);
      }
      if !sso.Revocable() {
        return Some(Irrevocable);
      }
      var fenced := logouts.Fenced(sso, now);
      if fenced {
        return Some(LoginFenced);
      }
      var _ := PruneSessionsLocked(now);
      sessions := sessions[key := Session(id, userID, now + BROWSER_SECONDS, sso, "")];
      SaveSessionsLocked(saved);
      return None;
    }

    method StartSessionWithToken(key: string, id: string, device: Device, origin: Origin, active: bool,
                                 fencedAt: int, now: int, saved: bool)
      returns (refused: Option<MintError>)
      modifies this
      ensures refused == MintVerdict(active, device.id, origin, logouts.events, devices.devices, fencedAt)
      ensures logoutPending == old(logoutPending)
      ensures refused.Some? ==> sessions == old(sessions) && sessionsFile == old(sessionsFile) && sessionsDirty == old(sessionsDirty)
      ensures refused.None? ==>
          && sessions == Live(old(sessions), now)[key := Session(id, device.userID, now + DEVICE_SECONDS, origin.sso, device.id)]
          && sessionsFile == (if saved then sessions else old(sessionsFile)) && sessionsDirty == !saved
    {
      if !active {
        return Some(Inactive);
      }
      if !origin.sso.Revocable() {
        return Some(Irrevocable);
      }
      var fenced := logouts.Fenced(origin.sso, fencedAt);
      if fenced {
        return Some(LoginFenced);
      }
      if device.id != "" && device.id !in devices.devices {
        return Some(DeviceGone);
      }
      if origin.issuerDeviceID != "" && origin.issuerDeviceID !in devices.devices {
        return Some(IssuerRevoked);
      }
      var _ := PruneSessionsLocked(now);
      sessions := sessions[key := Session(id, device.userID, now + DEVICE_SECONDS, origin.sso, device.id)];
      SaveSessionsLocked(saved);
      return None;
    }

    /** Records the token and ends the sessions it names, with the pairings of their users. */
    method ApplySSOLogout(c: LogoutClaims, clientID: string, now: int, admitSaved: bool, saved: bool)
      returns (n: nat, err: Option<LogoutError>)
      requires Valid()
      modifies this, logouts, devices
      ensures Valid() && devices.file == old(devices.file)
      ensures logouts.events == Admitted(old(logouts.events), EventOf(c, clientID), now, admitSaved)
      ensures var e := EventOf(c, clientID);
        match Verdict(old(logouts.events), e, now, admitSaved)
        case Err(why) =>
          && n == 0 && err == Some(NotAdmitted(why)) && logouts.file == old(logouts.file)
          && sessions == old(sessions) && devices.Value() == old(devices.Value())
          && sessionsFile == old(sessionsFile) && sessionsDirty == old(sessionsDirty) && logoutPending == old(logoutPending)
        case Ok(_) =>
          && Indexed(logouts.file) == logouts.events
          && n == |old(sessions)| - |sessions|
          && sessions == Unmatched(old(sessions), e)
          && devices.Value() == Without(old(devices.Value()), PinsOfAny(old(devices.Value()), MatchedUsers(old(sessions), e)))
          && err == (if n > 0 && !saved then Some(SessionsNotDurable) else None)
          && sessionsFile == (if n > 0 && saved then sessions else old(sessionsFile))
          && sessionsDirty == (if n > 0 then !saved else old(sessionsDirty))
          && logoutPending == old(logoutPending) + if err.Some? then {c.jwtID} else {}
    {
      var admitted := logouts.Admit(c, clientID, now, admitSaved);
      if admitted.Err? {
        return 0, Some(NotAdmitted(admitted.error));
      }
      n := EndMatching(admitted.value);
      err := SaveLogout(n, c.jwtID, saved);
    }

    /** Nothing is written when nothing matched. */
    method SaveLogout(n: nat, jwtID: string, saved: bool) returns (err: Option<LogoutError>)
      modifies this`sessionsFile, this`sessionsDirty, this`logoutPending
      ensures err == (if n > 0 && !saved then Some(SessionsNotDurable) else None)
      ensures sessionsFile == (if n > 0 && saved then sessions else old(sessionsFile))
      ensures sessionsDirty == (if n > 0 then !saved else old(sessionsDirty))
      ensures logoutPending == old(logoutPending) + if err.Some? then {jwtID} else {}
    {
      err := None;
      if n > 0 {
        SaveSessionsLocked(saved);
        if !saved {
          logoutPending := logoutPending + {jwtID};
          err := Some(SessionsNotDurable);
        }
      }
    }

    method EndMatching(event: LogoutEvent) returns (n: nat)
      modifies this`sessions, devices
      ensures devices.file == old(devices.file)
      ensures sessions == Unmatched(old(sessions), event) && n == |old(sessions)| - |sessions|
      ensures devices.Value()
           == Without(old(devices.Value()), PinsOfAny(old(devices.Value()), MatchedUsers(old(sessions), event)))
    {
      ghost var book := devices.Value();
      ghost var users: set<string> := {};
      n := 0;
      var todo := sessions.Keys;
      CancelledNone(book);
      while todo != {}
        invariant todo <= old(sessions).Keys && todo <= sessions.Keys && devices.file == old(devices.file)
        invariant sessions == map k | k in old(sessions) && (k in todo || !event.Matches(old(sessions)[k].sso)) :: old(sessions)[k]
        invariant n == |old(sessions)| - |sessions|
        invariant users == set k | k in old(sessions) && k !in todo && event.Matches(old(sessions)[k].sso) :: old(sessions)[k].userID
        invariant devices.Value() == Without(book, PinsOfAny(book, users))
        decreases todo
      {
        var k :| k in todo;
        todo := todo - {k};
        var session := sessions[k];
        if event.Matches(session.sso) {
          sessions := sessions - {k};
          devices.CancelUserPairings(session.userID);
          CancelledMore(book, users, session.userID);
          users := users + {session.userID};
          n := n + 1;
        }
      }
      assert users == MatchedUsers(old(sessions), event);
    }

    /** Ends the retry of a delivery whose first attempt held in memory only. */
    method LogoutSessionsPending(jwtID: string) returns (pending: bool)
      modifies this`logoutPending
      ensures pending == (jwtID in old(logoutPending)) && logoutPending == old(logoutPending) - {jwtID}
    {
      pending := jwtID in logoutPending;
      logoutPending := logoutPending - {jwtID};
    }

    method RevokeDeviceLocked(deviceID: string, deviceSaved: bool)
      modifies this`sessions, devices
      ensures devices.Value() == RevokedBook(old(devices.Value()), deviceID)
      ensures devices.file == if deviceID in old(devices.devices) && deviceSaved then devices.devices else old(devices.file)
      ensures sessions == OffDevices(old(sessions), {deviceID})
    {
      var _ := devices.Revoke(deviceID, deviceSaved);
      var todo := sessions.Keys;
      while todo != {}
        invariant todo <= old(sessions).Keys
        invariant sessions == map k | k in old(sessions) && (k in todo || old(sessions)[k].deviceID != deviceID) :: old(sessions)[k]
        modifies this`sessions
        decreases todo
      {
        var k :| k in todo;
        todo := todo - {k};
        if sessions[k].deviceID == deviceID {
          sessions := sessions - {k};
        }
      }
    }

    /** The user's codes first, then each device that is still registered; unsaved are those whose removal does
        not reach the device file, which a later write brings up to date. */
    method RevokeAllDevices(userID: string, unsaved: set<string>, saved: bool)
      modifies this, devices
      ensures var was := old(devices.Value());
        && devices.Value() == Without(was, PinsOf(was, userID)).(devices := was.devices - DevicesOf(was, userID))
        && sessions == OffDevices(old(sessions), DevicesOf(was, userID))
        && Flushed(was.devices, DevicesOf(was, userID), unsaved, old(devices.file), devices.file)
      ensures sessionsFile == (if saved then sessions else old(sessionsFile)) && sessionsDirty == !saved
      ensures logoutPending == old(logoutPending)
    {
      ghost var was := devices.Value();
      devices.CancelUserPairings(userID);
      var revoked := devices.ListUserDevices(userID);
      var todo := revoked;
      ghost var cancelled := devices.Value();
      while todo != {}
        invariant todo <= revoked && unchanged(`sessionsFile, `logoutPending)
        invariant devices.Value() == cancelled.(devices := was.devices - (revoked - todo))
        invariant sessions == OffDevices(old(sessions), revoked - todo)
        invariant Flushed(was.devices, revoked - todo, unsaved, old(devices.file), devices.file)
        decreases todo
      {
        var d :| d in todo;
        ghost var file := devices.file;
        RevokeDeviceLocked(d, d !in unsaved);
        assert revoked - (todo - {d}) == (revoked - todo) + {d};
        FlushedMore(was.devices, revoked - todo, unsaved, old(devices.file), file, d);
        todo := todo - {d};
      }
      assert revoked - todo == revoked;
      SaveSessionsLocked(saved);
    }

    /** A deactivated account: its codes first, outside the session lock, then its sessions. */
    method RevokeDirectorySessions(userID: string, saved: bool)
      modifies this, devices
      ensures devices.Value() == Without(old(devices.Value()), PinsOf(old(devices.Value()), userID)) && devices.file == old(devices.file)
      ensures sessions == NotOf(old(sessions), userID) && logoutPending == old(logoutPending)
      ensures sessionsFile == (if saved then sessions else old(sessionsFile)) && sessionsDirty == !saved
    {
      devices.CancelUserPairings(userID);
      var todo := sessions.Keys;
      while todo != {}
        modifies this`sessions
        invariant todo <= old(sessions).Keys
        invariant sessions == map k | k in old(sessions) && (k in todo || old(sessions)[k].userID != userID) :: old(sessions)[k]
        decreases todo
      {
        var k :| k in todo;
        todo := todo - {k};
        if sessions[k].userID == userID {
          sessions := sessions - {k};
        }
      }
      SaveSessionsLocked(saved);
    }

    /** Ends one session of the caller by its ID; a device session takes its device with it. */
    method EndSession(id: string, userID: string, currentID: string, deviceSaved: bool, saved: bool)
      returns (ended: Option<string>)
      modifies this, devices
      ensures ended.Some? ==> ended.value in old(sessions)
      ensures ended.Some? ==> old(sessions)[ended.value].id == id && old(sessions)[ended.value].userID == userID
      ensures ended.None? <==> id == "" || id == currentID
                               || forall k :: k in old(sessions) ==> old(sessions)[k].id != id || old(sessions)[k].userID != userID
      ensures ended.None? ==> sessions == old(sessions) && devices.Value() == old(devices.Value()) && sessionsFile == old(sessionsFile)
      ensures logoutPending == old(logoutPending) && (ended.None? ==> sessionsDirty == old(sessionsDirty))
      ensures devices.file == if devices.Value() != old(devices.Value()) && deviceSaved then devices.devices else old(devices.file)
      ensures ended.Some? ==>
          var d := old(sessions)[ended.value].deviceID;
          var left := old(sessions) - {ended.value};
          if d != "" && d in old(devices.devices) then
            sessions == OffDevices(left, {d}) && devices.Value() == RevokedBook(old(devices.Value()), d)
          else
            sessions == left && devices.Value() == old(devices.Value())
      ensures ended.Some? ==> sessionsFile == (if saved then sessions else old(sessionsFile)) && sessionsDirty == !saved
    {
      if id == "" || id == currentID {
        return None;
      }
      ended := None;
      var todo := sessions.Keys;
      while todo != {}
        invariant todo <= sessions.Keys
        invariant forall k :: k in sessions && k !in todo ==> sessions[k].id != id || sessions[k].userID != userID
        decreases todo
      {
        var k :| k in todo;
        todo := todo - {k};
        if sessions[k].id == id && sessions[k].userID == userID {
          ended := Some(k);
          break;
        }
      }
      if ended.None? {
        return;
      }
      var d := sessions[ended.value].deviceID;
      sessions := sessions - {ended.value};
      if d != "" && d in devices.devices {
        RevokeDeviceLocked(d, deviceSaved);
      }
      SaveSessionsLocked(saved);
    }
  }

  /** What the device file holds after these were revoked one by one: nothing new, unless a write landed; then
      every device but some of those revoked, among them each whose own write landed. */
  ghost predicate Flushed(was: map<string, Device>, revoked: set<string>, unsaved: set<string>,
                          before: map<string, Device>, file: map<string, Device>)
  {
    if revoked <= unsaved then file == before
    else exists gone :: revoked - unsaved <= gone <= revoked && file == was - gone
  }

  lemma FlushedMore(was: map<string, Device>, revoked: set<string>, unsaved: set<string>,
                    before: map<string, Device>, file: map<string, Device>, d: string)
    requires Flushed(was, revoked, unsaved, before, file)
    ensures Flushed(was, revoked + {d}, unsaved, before, if d in unsaved then file else was - (revoked + {d}))
  {
    if d in unsaved && !(revoked <= unsaved) {
      var gone :| revoked - unsaved <= gone <= revoked && file == was - gone;
      assert (revoked + {d}) - unsaved <= gone;
    }
  }

  lemma CancelledNone(b: Book)
    ensures Without(b, PinsOfAny(b, {})) == b
  {
    assert PinsOfAny(b, {}) == {} && SecretsUnder(b, {}) == {};
  }

  lemma CancelledMore(b: Book, users: set<string>, userID: string)
    ensures var after := Without(b, PinsOfAny(b, users));
      Without(after, PinsOf(after, userID)) == Without(b, PinsOfAny(b, users + {userID}))
  {
    var gone, all := PinsOfAny(b, users), PinsOfAny(b, users + {userID});
    var after := Without(b, gone);
    assert all == gone + PinsOf(after, userID);
    assert SecretsUnder(b, all) == SecretsUnder(b, gone) + SecretsUnder(after, PinsOf(after, userID));
  }
}
