/** The server's critical sections are the steps of `SessionRuns`: run on the objects, each leaves what its step
    leaves of the state they represent. */
module SessionRefinement {
  import opened Outcomes
  import opened LogoutFence
  import opened DevicePairing
  import opened SessionServer
  import opened SessionRuns
  import SessionLaws

  /** The part of the state that the server's objects hold; the rest is what handlers hold between their locks. */
  ghost predicate Represents(server: Server, s: Sys)
    reads server, server.logouts, server.devices
  {
    && server.Valid()
    && server.logouts.events == s.events && Indexed(server.logouts.file) == s.eventsFile
    && server.devices.Value() == s.book && server.devices.file == s.deviceFile
    && server.sessions == s.sessions && server.sessionsFile == s.sessionsFile
  }

  method DoLogin(server: Server, ghost s: Sys, op: Op)
    requires op.Login? && Enabled(s, op) && Represents(server, s)
    modifies server
    ensures Represents(server, Next(s, op))
  {
    var _ := server.StartSession(op.key, op.id, op.userID, op.active, op.sso, op.now, op.saved);
  }

  method DoMint(server: Server, s: Sys, op: Op)
    requires op.Mint? && Enabled(s, op) && Represents(server, s) && op.deviceID != ""
    modifies server
    ensures Represents(server, Next(s, op))
  {
    var p := s.flight[op.deviceID];
    var _ := server.StartSessionWithToken(op.key, op.id, Device(op.deviceID, p.userID), p.origin, op.active,
                                          op.fencedAt, op.now, op.saved);
  }

  method DoCreate(server: Server, ghost s: Sys, op: Op)
    requires op.CreateCode? && Enabled(s, op) && Represents(server, s)
    modifies server.devices
    ensures Represents(server, Next(s, op))
  {
    var _ := server.devices.CreatePairingSession(op.start.userID, op.start.origin, op.pin, op.secret, op.prunedAt, op.issuedAt);
  }

  method DoRedeem(server: Server, ghost s: Sys, op: Op)
    requires op.Redeem? && Enabled(s, op) && Represents(server, s)
    modifies server.devices
    ensures Represents(server, Next(s, op))
  {
    var _ := server.devices.RedeemPairing(op.code, op.deviceID, op.now, op.saved);
  }

  lemma FewerIff(sessions: Sessions, e: LogoutEvent)
    ensures |Unmatched(sessions, e)| < |sessions| <==> Unmatched(sessions, e) != sessions
  {
    var left := Unmatched(sessions, e);
    if left != sessions {
      var k :| k in sessions && k !in left;
      assert left.Keys <= sessions.Keys - {k};
      assert sessions.Keys == left.Keys + (sessions.Keys - left.Keys);
      assert |left| == |left.Keys| && |sessions| == |sessions.Keys|;
    }
  }

  method DoLogout(server: Server, ghost s: Sys, op: Op)
    requires op.Logout? && Enabled(s, op) && Represents(server, s)
    modifies server, server.logouts, server.devices
    ensures Represents(server, Next(s, op))
  {
    FewerIff(s.sessions, EventOf(op.c, op.clientID));
    SessionLaws.LogoutLeaves(s, op);
    var _, _ := server.ApplySSOLogout(op.c, op.clientID, op.now, op.admitSaved, op.saved);
  }

  method DoCancel(server: Server, ghost s: Sys, op: Op)
    requires op.CancelCodes? && Enabled(s, op) && Represents(server, s)
    modifies server.devices
    ensures Represents(server, Next(s, op))
  {
    server.devices.CancelUserPairings(op.userID);
  }

  method DoList(server: Server, s: Sys)
    requires Enabled(s, ListDevices) && Represents(server, s)
    ensures Represents(server, Next(s, ListDevices))
  {
    var listed := server.devices.ListUserDevices(s.lock.userID);
    assert Next(s, ListDevices).lock == Revoking(listed);
  }

  method DoRevokeNext(server: Server, ghost s: Sys, op: Op)
    requires op.RevokeNext? && Enabled(s, op) && Represents(server, s)
    modifies server, server.devices
    ensures Represents(server, Next(s, op))
  {
    server.RevokeDeviceLocked(op.deviceID, op.saved);
  }

  lemma RevokeLeaves(s: Sys, d: string, deviceSaved: bool, saved: bool)
    requires s.lock.Free?
    ensures var after := Next(s, RevokeDevice(d, deviceSaved, saved));
      && after.events == s.events && after.eventsFile == s.eventsFile
      && after.sessions == OffDevices(s.sessions, {d}) && after.sessionsFile == (if saved then after.sessions else s.sessionsFile)
      && after.book == RevokedBook(s.book, d)
      && after.deviceFile == if d in s.book.devices && deviceSaved then after.book.devices else s.deviceFile
  {
    assert d !in s.book.devices ==> RevokedBook(s.book, d) == s.book;
  }

  method DoRevokeDevice(server: Server, ghost s: Sys, op: Op)
    requires op.RevokeDevice? && Enabled(s, op) && Represents(server, s)
    modifies server, server.devices
    ensures Represents(server, Next(s, op))
  {
    RevokeLeaves(s, op.deviceID, op.deviceSaved, op.saved);
    server.RevokeDeviceLocked(op.deviceID, op.deviceSaved);
    server.SaveSessionsLocked(op.saved);
  }

  method DoAbandon(server: Server, ghost s: Sys, op: Op)
    requires op.Abandon? && Enabled(s, op) && Represents(server, s)
    modifies server.devices
    ensures Represents(server, Next(s, op))
  {
    var _ := server.devices.Revoke(op.deviceID, op.saved);
  }

  method DoFinish(server: Server, ghost s: Sys, op: Op)
    requires op.FinishRevoke? && Enabled(s, op) && Represents(server, s)
    modifies server
    ensures Represents(server, Next(s, op))
  {
    server.SaveSessionsLocked(op.saved);
  }

  /** A prune that removes nothing and owes no write does not write: the step is then the one whose write fails. */
  method DoPrune(server: Server, ghost s: Sys, now: int, saved: bool) returns (ghost written: bool)
    requires Enabled(s, Prune(now, saved)) && Represents(server, s)
    modifies server
    ensures written ==> saved
    ensures Represents(server, Next(s, Prune(now, written)))
  {
    written := saved && (Live(server.sessions, now) != server.sessions || server.sessionsDirty);
    server.PruneSessions(now, saved);
  }

  method DoRetry(server: Server, ghost s: Sys, saved: bool) returns (ghost retried: bool)
    requires Enabled(s, Retry) && Represents(server, s)
    modifies server
    ensures Represents(server, if retried then Next(s, Retry) else s)
  {
    retried := server.sessionsDirty && saved;
    server.RetrySessionSave(saved);
  }

  /** The step that ending the session under this key amounts to. */
  function EndStep(s: Sys, key: string, deviceSaved: bool, saved: bool): Op
    requires key in s.sessions
  {
    var d := s.sessions[key].deviceID;
    if d != "" && d in s.book.devices then RevokeDevice(d, deviceSaved, saved) else EndSessions({key}, saved)
  }

  lemma EndedFirst(b: Book, sessions: Sessions, key: string, d: string)
    requires key in sessions && sessions[key].deviceID == d && d in b.devices
    ensures OffDevices(sessions - {key}, {d}) == OffDevices(sessions, {d}) && RevokedBook(b, d) != b
  {
    assert d !in RevokedBook(b, d).devices;
  }

  lemma EndAloneLeaves(s: Sys, key: string, saved: bool)
    requires s.lock.Free?
    ensures var after := Next(s, EndSessions({key}, saved));
      && after.events == s.events && after.eventsFile == s.eventsFile && after.book == s.book && after.deviceFile == s.deviceFile
      && after.sessions == s.sessions - {key} && after.sessionsFile == (if saved then after.sessions else s.sessionsFile)
  {
  }

  lemma EndLeaves(s: Sys, key: string, deviceSaved: bool, saved: bool)
    requires key in s.sessions && s.lock.Free?
    ensures var after, d := Next(s, EndStep(s, key, deviceSaved, saved)), s.sessions[key].deviceID;
      && after.events == s.events && after.eventsFile == s.eventsFile
      && after.sessionsFile == (if saved then after.sessions else s.sessionsFile)
      && after.deviceFile == (if after.book != s.book && deviceSaved then after.book.devices else s.deviceFile)
      && if d != "" && d in s.book.devices then
           after.sessions == OffDevices(s.sessions - {key}, {d}) && after.book == RevokedBook(s.book, d)
         else
           after.sessions == s.sessions - {key} && after.book == s.book
  {
    var d := s.sessions[key].deviceID;
    if d != "" && d in s.book.devices {
      RevokeLeaves(s, d, deviceSaved, saved);
      EndedFirst(s.book, s.sessions, key, d);
    } else {
      EndAloneLeaves(s, key, saved);
    }
  }

  /** Ending one session of the caller is the revocation of its device, or the end of that session alone. */
  method DoEndSession(server: Server, ghost s: Sys, id: string, userID: string, currentID: string, deviceSaved: bool, saved: bool)
    returns (ended: Option<string>)
    requires Represents(server, s) && s.lock.Free?
    modifies server, server.devices
    ensures ended.Some? ==> ended.value in s.sessions
    ensures Represents(server, if ended.Some? then Next(s, EndStep(s, ended.value, deviceSaved, saved)) else s)
  {
    ended := server.EndSession(id, userID, currentID, deviceSaved, saved);
    if ended.Some? {
      EndLeaves(s, ended.value, deviceSaved, saved);
    }
  }

  function KeysOf(sessions: Sessions, userID: string): set<string> {
    set k | k in sessions && sessions[k].userID == userID
  }

  /** A deactivated account: two steps, since its codes are cancelled before the session lock is taken. */
  method DoRevokeDirectory(server: Server, ghost s: Sys, userID: string, saved: bool)
    requires Represents(server, s) && s.lock.Free?
    modifies server, server.devices
    ensures var cancelled := Next(s, CancelPairings(userID));
      Represents(server, Next(cancelled, EndSessions(KeysOf(cancelled.sessions, userID), saved)))
  {
    assert NotOf(s.sessions, userID) == s.sessions - KeysOf(s.sessions, userID);
    server.RevokeDirectorySessions(userID, saved);
  }

  /** A new process over the files the old one left. */
  method DoRestart(server: Server, ghost s: Sys, now: int) returns (after: Server)
    requires Enabled(s, Restart(now)) && Represents(server, s)
    ensures fresh(after) && Represents(after, Next(s, Restart(now)))
  {
    var logouts := new LogoutLog(server.logouts.file);
    var devices := new Store(server.devices.file);
    after := new Server(logouts, devices, server.sessionsFile, now);
  }
}
