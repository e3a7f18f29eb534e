/** Who may log in and pair, what a code, a device and a session are good for and for how long, in their own fields;
    and, over runs, whose session it is. */
module SessionLaws {
  import opened Outcomes
  import opened LogoutFence
  import opened DevicePairing
  import opened SessionServer
  import opened SessionRuns
  import opened SessionSafety

  // ---------------------------------------------------------------- codes

  /** A code works until its time has passed: under its PIN if six characters were presented, under its secret
      otherwise. It makes a device of its own user, carrying on where it was issued. */
  lemma RedeemIff(b: Book, code: string, deviceID: string, now: int, saved: bool)
    ensures var filed := if |code| == 6 then b.pins else b.codes;
      var good := code in filed && now <= filed[code].expiresAt;
      RedeemVerdict(b, code, deviceID, now, saved)
      == if !good then Err(PairingExpired) else if !saved then Err(DeviceNotSaved)
         else Ok((Device(deviceID, filed[code].userID), filed[code].origin))
  {
  }

  /** A redeem spends its code, whether or not the device could be saved, and no other; it adds at most its device. */
  lemma RedeemLeaves(b: Book, code: string, deviceID: string, now: int, saved: bool)
    requires Paired(b) && deviceID !in b.devices
    ensures var after := RedeemedBook(b, code, deviceID, now, saved);
      var filed := if |code| == 6 then b.pins else b.codes;
      if code in filed && now <= filed[code].expiresAt then
        && after.codes == b.codes - {filed[code].secret} && after.pins == b.pins - {filed[code].pin}
        && after.devices == (if saved then b.devices[deviceID := Device(deviceID, filed[code].userID)] else b.devices)
      else after == b
  {
  }

  /** From the moment it is made a code can be redeemed for 90 seconds, by PIN or by secret, once. */
  lemma CodeLife(b: Book, userID: string, origin: Origin, pin: string, secret: string, prunedAt: int, issuedAt: int,
                 deviceID: string, now: int, again: string, other: string, later: int)
    requires |pin| == 6 && |secret| != 6
    ensures var made := Created(b, Pairing(pin, userID, secret, issuedAt + PAIRING_SECONDS, origin), prunedAt);
      forall code :: code in {pin, secret} ==>
        && (RedeemVerdict(made, code, deviceID, now, true)
            == if now <= issuedAt + 90 then Ok((Device(deviceID, userID), origin)) else Err(PairingExpired))
        && (now <= issuedAt + 90 && again in {pin, secret} ==>
              RedeemVerdict(RedeemedBook(made, code, deviceID, now, true), again, other, later, true) == Err(PairingExpired))
  {
  }

  /** Making a code drops those whose time has passed, and otherwise adds just this one. */
  lemma CreatedFields(b: Book, session: Pairing, prunedAt: int)
    requires Paired(b) && session.secret !in b.codes && session.pin !in b.pins
    ensures var after := Created(b, session, prunedAt);
      && after.devices == b.devices
      && (forall p :: p in after.pins <==> p == session.pin || (p in b.pins && prunedAt <= b.pins[p].expiresAt))
      && (forall c :: c in after.codes <==> c == session.secret || (c in b.codes && prunedAt <= b.codes[c].expiresAt))
      && after.pins[session.pin] == session && after.codes[session.secret] == session
  {
    forall c | c in b.codes
      ensures c in SecretsUnder(b, Expired(b, prunedAt)) <==> prunedAt > b.codes[c].expiresAt
    {
      assert b.codes[c].pin in b.pins && b.pins[b.codes[c].pin] == b.codes[c];
    }
  }

  /** Cancelling drops a user's codes and nobody else's, and no device. */
  lemma CancelledFields(b: Book, userID: string)
    requires Paired(b)
    ensures var after := Without(b, PinsOf(b, userID));
      && after.devices == b.devices
      && (forall p :: p in after.pins <==> p in b.pins && b.pins[p].userID != userID)
      && (forall c :: c in after.codes <==> c in b.codes && b.codes[c].userID != userID)
  {
    forall c | c in b.codes ensures c in SecretsUnder(b, PinsOf(b, userID)) <==> b.codes[c].userID == userID {
      assert b.codes[c].pin in b.pins && b.pins[b.codes[c].pin] == b.codes[c];
    }
  }

  lemma RevokedFields(b: Book, deviceID: string, userID: string)
    ensures RevokedBook(b, deviceID).devices.Keys == b.devices.Keys - {deviceID}
    ensures forall d :: d in DevicesOf(b, userID) <==> d in b.devices && b.devices[d].userID == userID
    ensures RevokedBook(b, deviceID).pins == b.pins && RevokedBook(b, deviceID).codes == b.codes
  {
  }

  // ---------------------------------------------------------------- logging in and minting

  /** A login needs an active account, an identity a logout could name, and no retained logout that covers it. */
  lemma LoginIff(active: bool, id: Identity, events: Events, now: int)
    ensures LoginVerdict(active, id, events, now)
      == if !active then Some(Inactive)
         else if id.issuer == "" || id.clientID == "" || id.subject == "" then Some(Irrevocable)
         else if exists k :: k in events && now <= events[k].retainUntil && events[k].Matches(id) then Some(LoginFenced)
         else None
  {
  }

  /** A mint needs all of that of the sign-on it carries on, its device, and the device that vouched for it. */
  lemma MintIff(active: bool, deviceID: string, origin: Origin, events: Events, devices: map<string, Device>, now: int)
    ensures MintVerdict(active, deviceID, origin, events, devices, now)
      == if LoginVerdict(active, origin.sso, events, now).Some? then LoginVerdict(active, origin.sso, events, now)
         else if deviceID != "" && deviceID !in devices then Some(DeviceGone)
         else if origin.issuerDeviceID != "" && origin.issuerDeviceID !in devices then Some(IssuerRevoked)
         else None
  {
  }

  /** A browser login is live for exactly a day: a pruning at any time drops it if and only if that has passed. */
  lemma LoginLives(s: Sys, op: Op, now: int)
    requires op.Login? && Enabled(s, op) && LoginVerdict(op.active, op.sso, s.events, op.now).None?
    ensures var after := Next(s, op);
      && op.key in after.sessions && after.sessions[op.key].userID == op.userID && after.sessions[op.key].sso == op.sso
      && after.sessions[op.key].deviceID == "" && after.sessions[op.key].id == op.id
      && (op.key in Live(after.sessions, now) <==> now < op.now + 24 * 60 * 60)
      && after.sessionsFile == if op.saved then after.sessions else s.sessionsFile
  {
  }

  /** A device session is live for exactly ninety days, for the user and the sign-on of its pairing. */
  lemma MintLives(s: Sys, op: Op, now: int)
    requires op.Mint? && Enabled(s, op) && MintRefusal(s, op).None?
    ensures var after, p := Next(s, op), s.flight[op.deviceID];
      && op.key in after.sessions && after.sessions[op.key].userID == p.userID && after.sessions[op.key].sso == p.origin.sso
      && after.sessions[op.key].deviceID == op.deviceID && after.sessions[op.key].id == op.id
      && (op.key in Live(after.sessions, now) <==> now < op.now + 90 * 24 * 60 * 60)
      && after.sessionsFile == if op.saved then after.sessions else s.sessionsFile
  {
  }

  /** The other sessions are touched by neither, but for those whose time has passed. */
  lemma OthersKept(s: Sys, op: Op, k: string)
    requires (op.Login? || op.Mint?) && Enabled(s, op) && k in s.sessions && k != op.key && op.now < s.sessions[k].expiresAt
    ensures k in Next(s, op).sessions && Next(s, op).sessions[k] == s.sessions[k]
  {
    if op.Login? {
      assert Next(s, op) == AfterLogin(s, op);
    } else {
      assert Next(s, op) == AfterMint(s, op);
    }
  }

  /** A restart brings back exactly the stored sessions whose time has not passed, that no retained logout covers,
      and whose device, if any, is in the device file. */
  lemma RestartedIff(s: Sys, now: int, k: string)
    requires now <= s.clock
    ensures var after := Next(s, Restart(now));
      && (k in after.sessions <==>
            && k in s.sessionsFile && now < s.sessionsFile[k].expiresAt
            && !(exists e :: e in s.eventsFile && now <= s.eventsFile[e].retainUntil && s.eventsFile[e].Matches(s.sessionsFile[k].sso))
            && (s.sessionsFile[k].deviceID == "" || s.sessionsFile[k].deviceID in s.deviceFile))
      && (k in after.sessions ==> after.sessions[k] == s.sessionsFile[k])
      && after.book.devices == s.deviceFile && after.book.pins == map[] && after.book.codes == map[]
      && after.lock.Free? && after.starts == {} && after.flight == map[] && after.refused == {}
      && after.events == s.eventsFile && after.sessionsFile == s.sessionsFile && after.deviceFile == s.deviceFile
  {
  }

  /** Revoking a device ends exactly the sessions on it. */
  lemma RevokedSessions(s: Sys, d: string, deviceSaved: bool, saved: bool, k: string)
    requires s.lock.Free? && k in s.sessions
    ensures var after := Next(s, RevokeDevice(d, deviceSaved, saved));
      && (k in after.sessions <==> s.sessions[k].deviceID != d)
      && (k in after.sessions ==> after.sessions[k] == s.sessions[k])
      && (forall other :: other in after.book.devices <==> other in s.book.devices && other != d)
      && (d in s.book.devices && deviceSaved ==> d !in after.deviceFile)
      && (saved ==> k !in after.sessions ==> k !in after.sessionsFile)
  {
  }

  /** A redeemed device gets its session exactly when its account is active, the sign-on it carries on could be named
      by a logout and is covered by none retained in memory, and it and the device that vouched are still registered. */
  lemma MintsIff(s: Sys, op: Op)
    requires op.Mint? && Enabled(s, op)
    ensures var origin := s.flight[op.deviceID].origin;
      MintRefusal(s, op).None? <==>
        && op.active && origin.sso.issuer != "" && origin.sso.clientID != "" && origin.sso.subject != ""
        && !(exists k :: k in s.events && op.fencedAt <= s.events[k].retainUntil && s.events[k].Matches(origin.sso))
        && (op.deviceID == "" || op.deviceID in s.book.devices)
        && (origin.issuerDeviceID == "" || origin.issuerDeviceID in s.book.devices)
    ensures MintRefusal(s, op).Some? ==> op.deviceID in Next(s, op).refused && op.deviceID !in Next(s, op).flight
                                         && Next(s, op).sessions == s.sessions && Next(s, op).sessionsFile == s.sessionsFile
  {
  }

  /** Time passes, and a handler done with a refused device forgets it; neither touches anything else a session
      depends on. */
  lemma HandlersFields(s: Sys, to: int, d: string, saved: bool)
    ensures s.clock <= to ==> Next(s, Tick(to)).clock == to && Next(s, Tick(to)).sessions == s.sessions && Next(s, Tick(to)).book == s.book
    ensures d in s.refused ==>
      var after := Next(s, Abandon(d, saved));
      after.refused == s.refused - {d} && d !in after.book.devices && after.sessions == s.sessions
  {
  }

  /** Pruning drops what has run out, ending sessions drops those named, a retry writes the file as memory is; each
      save that lands leaves file and memory alike. */
  lemma UpkeepFields(s: Sys, now: int, keys: set<string>, saved: bool, k: string)
    requires s.lock.Free? && now <= s.clock && k in s.sessions
    ensures var after := Next(s, Prune(now, saved));
      && (k in after.sessions <==> now < s.sessions[k].expiresAt) && (k in after.sessions ==> after.sessions[k] == s.sessions[k])
      && after.sessionsFile == if saved then after.sessions else s.sessionsFile
    ensures var after := Next(s, EndSessions(keys, saved));
      && (k in after.sessions <==> k !in keys) && (k in after.sessions ==> after.sessions[k] == s.sessions[k])
      && after.sessionsFile == if saved then after.sessions else s.sessionsFile
    ensures Next(s, Retry) == s.(sessionsFile := s.sessions)
  {
  }

  /** A redeem that is refused, or whose device cannot be saved, leaves the device file and nothing in flight. */
  lemma RefusedRedeemLeaves(s: Sys, op: Op)
    requires op.Redeem? && Enabled(s, op) && RedeemVerdict(s.book, op.code, op.deviceID, op.now, op.saved).Err?
    ensures var after := Next(s, op);
      && after.deviceFile == s.deviceFile && after.flight == s.flight && after.sessions == s.sessions
      && after.book.devices.Keys <= s.book.devices.Keys
  {
  }

  /** The two cancellations of a user's codes, with every device revoked or for a deactivated account. */
  lemma CancellationSteps(s: Sys, userID: string, c: string)
    requires Paired(s.book) && c in s.book.codes && s.lock.Free?
    ensures c in Next(s, CancelCodes(userID)).book.codes <==> s.book.codes[c].userID != userID
    ensures c in Next(s, CancelPairings(userID)).book.codes <==> s.book.codes[c].userID != userID
    ensures Next(s, CancelCodes(userID)).book.devices == s.book.devices && Next(s, CancelPairings(userID)).book.devices == s.book.devices
    ensures Next(s, CancelCodes(userID)).sessions == s.sessions && Next(s, CancelPairings(userID)).sessions == s.sessions
  {
    CancelledFields(s.book, userID);
  }

  lemma LogoutLeaves(s: Sys, op: Op)
    requires op.Logout? && Enabled(s, op)
    ensures var after, e := Next(s, op), EventOf(op.c, op.clientID);
      && after.events == Admitted(s.events, e, op.now, op.admitSaved) && after.deviceFile == s.deviceFile
      && if Verdict(s.events, e, op.now, op.admitSaved).Err? then
           after.book == s.book && after.sessions == s.sessions
           && after.eventsFile == s.eventsFile && after.sessionsFile == s.sessionsFile
         else
           && after.eventsFile == after.events && after.sessions == Unmatched(s.sessions, e)
           && after.book == Without(s.book, PinsOfAny(s.book, MatchedUsers(s.sessions, e)))
           && after.sessionsFile == if op.saved && after.sessions != s.sessions then after.sessions else s.sessionsFile
  {
  }

  /** A logout step ends the live sessions it matches, cancels the codes of exactly their users, and records the
      token in memory and file; a refused one does none of it. */
  lemma LogoutStepFields(s: Sys, op: Op, c: string)
    requires op.Logout? && Enabled(s, op) && Paired(s.book) && c in s.book.codes
    ensures var after, e := Next(s, op), EventOf(op.c, op.clientID);
      var accepted := Verdict(s.events, e, op.now, op.admitSaved).Ok?;
      && (c in after.book.codes <==> !(accepted && EndsOneOf(s.sessions, e, s.book.codes[c].userID)))
      && (forall k :: k in after.sessions <==> k in s.sessions && !(accepted && e.Matches(s.sessions[k].sso)))
      && after.eventsFile == (if accepted then after.events else s.eventsFile)
      && after.sessionsFile in {s.sessionsFile, after.sessions}
      && (accepted && op.saved && after.sessions != s.sessions ==> after.sessionsFile == after.sessions)
  {
    LogoutLeaves(s, op);
    CodesCancelled(s.book, s.sessions, EventOf(op.c, op.clientID), c);
  }

  /** Some session of the user is one the token names. */
  ghost predicate EndsOneOf(sessions: Sessions, e: LogoutEvent, userID: string) {
    exists k :: k in sessions && e.Matches(sessions[k].sso) && sessions[k].userID == userID
  }

  lemma CodesCancelled(b: Book, sessions: Sessions, e: LogoutEvent, c: string)
    requires Paired(b) && c in b.codes
    ensures c in Without(b, PinsOfAny(b, MatchedUsers(sessions, e))).codes
       <==> !EndsOneOf(sessions, e, b.codes[c].userID)
  {
    var p, gone := b.codes[c], PinsOfAny(b, MatchedUsers(sessions, e));
    if p.userID in MatchedUsers(sessions, e) {
      assert p.pin in gone && b.pins[p.pin].secret == c;
    }
    if c in SecretsUnder(b, gone) {
      var pin :| pin in gone && pin in b.pins && b.pins[pin].secret == c;
      assert b.codes[b.pins[pin].secret] == b.pins[pin];
    }
  }

  /** Deactivating an account ends exactly its sessions. */
  lemma DirectorySessions(sessions: Sessions, userID: string, k: string)
    requires k in sessions
    ensures k in NotOf(sessions, userID) <==> sessions[k].userID != userID
    ensures k in NotOf(sessions, userID) ==> NotOf(sessions, userID)[k] == sessions[k]
    ensures NotOf(sessions, userID).Keys <= sessions.Keys
  {
  }

  // ---------------------------------------------------------------- whose session it is

  /** A session on a device is one of the device's user, wherever both are found. */
  predicate Belong(sessions: Sessions, devices: map<string, Device>) {
    forall k :: k in sessions && sessions[k].deviceID in devices ==> devices[sessions[k].deviceID].userID == sessions[k].userID
  }

  predicate OnUsed(sessions: Sessions, used: set<string>) {
    forall k :: k in sessions && sessions[k].deviceID != "" ==> sessions[k].deviceID in used
  }

  predicate SameUsers(devices: map<string, Device>, file: map<string, Device>) {
    forall d :: d in devices && d in file ==> devices[d] == file[d]
  }

  predicate FlightFiled(s: Sys) {
    forall d :: d in s.flight && d in s.deviceFile ==> s.deviceFile[d].userID == s.flight[d].userID
  }

  predicate Owned(s: Sys) {
    && Belong(s.sessions, s.book.devices) && Belong(s.sessions, s.deviceFile)
    && Belong(s.sessionsFile, s.book.devices) && Belong(s.sessionsFile, s.deviceFile)
    && OnUsed(s.sessions, s.usedDevices) && OnUsed(s.sessionsFile, s.usedDevices)
    && SameUsers(s.book.devices, s.deviceFile) && FlightFiled(s)
  }

  lemma OwnedSpent(s: Sys, op: Op)
    requires Owned(s) && DevicesSound(s) && op.Redeem? && op.deviceID !in s.usedDevices && op.deviceID != ""
    ensures Owned(Spent(s, op).(flight := s.flight - {op.deviceID}))
  {
    var after := Spent(s, op);
    SpentFiles(s, op);
    BelongMore(s.sessions, s.usedDevices, s.book.devices, after.book.devices, op.deviceID);
    BelongMore(s.sessionsFile, s.usedDevices, s.book.devices, after.book.devices, op.deviceID);
  }

  /** No session is on a device that is new. */
  lemma BelongMore(sessions: Sessions, used: set<string>, devices: map<string, Device>, more: map<string, Device>, d: string)
    requires Belong(sessions, devices) && OnUsed(sessions, used) && d !in used && d != ""
    requires forall other :: other in more && other != d ==> other in devices && more[other] == devices[other]
    ensures Belong(sessions, more)
  {
  }

  lemma SpentFiles(s: Sys, op: Op)
    requires DevicesSound(s) && op.Redeem? && op.deviceID !in s.usedDevices
    ensures var after := Spent(s, op);
      && (forall d :: d in after.book.devices && d != op.deviceID ==> d in s.book.devices && after.book.devices[d] == s.book.devices[d])
      && (after.deviceFile == s.deviceFile || after.deviceFile == after.book.devices)
      && (op.deviceID in after.book.devices ==> after.deviceFile == after.book.devices)
      && after.sessions == s.sessions && after.sessionsFile == s.sessionsFile && after.flight == s.flight
      && after.usedDevices == s.usedDevices + {op.deviceID}
  {
  }

  lemma OwnedFlown(s: Sys, d: string, p: Pairing)
    requires Owned(s) && (d in s.deviceFile ==> s.deviceFile[d].userID == p.userID)
    ensures Owned(s.(flight := s.flight[d := p]))
  {
  }

  lemma OwnedRedeem(s: Sys, op: Op)
    requires Owned(s) && Sound(s) && op.Redeem? && Enabled(s, op)
    ensures Owned(AfterRedeem(s, op))
  {
    UnusedNowhere(s, op.deviceID);
    OwnedSpent(s, op);
    assert s.flight - {op.deviceID} == s.flight;
    if RedeemVerdict(s.book, op.code, op.deviceID, op.now, op.saved).Ok? {
      OwnedFlown(Spent(s, op), op.deviceID, Presented(s.book, op.code).value);
    }
  }

  lemma OwnedSession(s: Sys, key: string, session: Session, now: int, saved: bool)
    requires Owned(s)
    requires session.deviceID != "" ==> session.deviceID in s.usedDevices
    requires session.deviceID in s.book.devices ==> s.book.devices[session.deviceID].userID == session.userID
    requires session.deviceID in s.deviceFile ==> s.deviceFile[session.deviceID].userID == session.userID
    ensures Owned(LoggedIn(s, key, session, now, saved))
  {
  }

  lemma OwnedMint(s: Sys, op: Op)
    requires Owned(s) && op.Mint? && Enabled(s, op) && FlightSound(s, op.deviceID)
    ensures Owned(AfterMint(s, op))
  {
    var d, p := op.deviceID, s.flight[op.deviceID];
    var landed := s.(flight := s.flight - {d});
    var session := Session(op.id, p.userID, op.now + DEVICE_SECONDS, p.origin.sso, d);
    OwnedLanded(s, d);
    if MintRefusal(s, op).None? {
      OwnedSession(landed, op.key, session, op.now, op.saved);
      assert AfterMint(s, op) == LoggedIn(landed, op.key, session, op.now, op.saved);
    } else {
      OwnedFewer(landed, AfterMint(s, op));
    }
  }

  lemma OwnedLanded(s: Sys, d: string)
    requires Owned(s)
    ensures Owned(s.(flight := s.flight - {d}))
  {
  }

  lemma OwnedLogin(s: Sys, op: Op)
    requires Owned(s) && op.Login? && "" !in s.book.devices && "" !in s.deviceFile
    ensures Owned(AfterLogin(s, op))
  {
    var session := Session(op.id, op.userID, op.now + BROWSER_SECONDS, op.sso, "");
    if LoginVerdict(op.active, op.sso, s.events, op.now).None? {
      OwnedSession(s, op.key, session, op.now, op.saved);
      assert AfterLogin(s, op) == LoggedIn(s, op.key, session, op.now, op.saved);
    } else {
      assert AfterLogin(s, op) == s;
    }
  }

  predicate FlightBooked(s: Sys) {
    forall d :: d in s.flight && d in s.book.devices ==> s.book.devices[d].userID == s.flight[d].userID
  }

  lemma OwnedRevoked(s: Sys, deviceID: string, deviceSaved: bool)
    requires Owned(s) && FlightBooked(s)
    ensures Owned(Revoked(s, deviceID, deviceSaved))
  {
  }

  lemma OwnedFewer(s: Sys, after: Sys)
    requires Owned(s) && Submap(after.sessions, s.sessions)
    requires after.sessionsFile == s.sessionsFile || after.sessionsFile == after.sessions
    requires after.book.devices == s.book.devices && after.deviceFile == s.deviceFile && after.flight == s.flight
    requires after.usedDevices == s.usedDevices
    ensures Owned(after)
  {
  }

  lemma OwnedRestart(s: Sys, op: Op)
    requires Owned(s) && op.Restart? && Enabled(s, op)
    ensures Owned(AfterRestart(s, op.now))
  {
  }

  lemma FlightsBooked(s: Sys)
    requires Sound(s)
    ensures FlightBooked(s)
  {
    forall d | d in s.flight && d in s.book.devices ensures s.book.devices[d].userID == s.flight[d].userID {
      assert FlightSound(s, d);
    }
  }

  lemma OwnedOff(s: Sys, d: string, deviceSaved: bool)
    requires Owned(s) && FlightBooked(s)
    ensures Owned(Revoked(SignedOff(s, d), d, deviceSaved))
  {
    OwnedFewer(s, SignedOff(s, d));
    OwnedRevoked(SignedOff(s, d), d, deviceSaved);
  }

  lemma OwnedRevocation(s: Sys, op: Op)
    requires Owned(s) && FlightBooked(s) && Enabled(s, op) && (op.Abandon? || op.RevokeNext? || op.RevokeDevice?)
    ensures Owned(Next(s, op))
  {
    match op {
      case Abandon(d, saved) => OwnedRevoked(s.(refused := s.refused - {d}), d, saved);
      case RevokeNext(d, saved) => OwnedOff(s, d, saved);
      case RevokeDevice(d, deviceSaved, _) =>
        OwnedOff(s, d, deviceSaved);
        OwnedFewer(Revoked(SignedOff(s, d), d, deviceSaved), Next(s, op));
    }
  }

  predicate OnlyFewer(op: Op) {
    !op.Redeem? && !op.Mint? && !op.Login? && !op.Restart? && !op.Abandon? && !op.RevokeNext? && !op.RevokeDevice?
  }

  lemma LogoutStep(s: Sys, op: Op)
    requires Enabled(s, op) && op.Logout?
    ensures var after := Next(s, op);
      && Submap(after.sessions, s.sessions) && (after.sessionsFile == s.sessionsFile || after.sessionsFile == after.sessions)
      && after.deviceFile == s.deviceFile && after.usedDevices == s.usedDevices
  {
  }

  lemma QuietFiles(s: Sys, op: Op)
    requires Enabled(s, op) && OnlyFewer(op) && !op.Logout?
    ensures var after := Next(s, op);
      && (after.sessionsFile == s.sessionsFile || after.sessionsFile == after.sessions)
      && after.deviceFile == s.deviceFile && after.usedDevices == s.usedDevices
  {
  }

  lemma FewerStep(s: Sys, op: Op)
    requires Enabled(s, op) && OnlyFewer(op)
    ensures var after := Next(s, op);
      && Submap(after.sessions, s.sessions) && (after.sessionsFile == s.sessionsFile || after.sessionsFile == after.sessions)
      && after.book.devices == s.book.devices && after.deviceFile == s.deviceFile && after.flight == s.flight
      && after.usedDevices == s.usedDevices
  {
    DevicesKept(s, op);
    FlightsKept(s, op);
    if op.Logout? {
      LogoutStep(s, op);
    } else {
      QuietStep(s, op);
      QuietFiles(s, op);
    }
  }

  lemma FlightsKept(s: Sys, op: Op)
    requires Enabled(s, op) && OnlyFewer(op)
    ensures Next(s, op).flight == s.flight
  {
  }

  lemma OwnedStep(s: Sys, op: Op)
    requires Owned(s) && Sound(s) && Enabled(s, op)
    ensures Owned(Next(s, op))
  {
    if op.Redeem? {
      OwnedRedeem(s, op);
    } else if op.Mint? {
      assert FlightSound(s, op.deviceID);
      OwnedMint(s, op);
    } else if op.Login? {
      OwnedLogin(s, op);
    } else if op.Restart? {
      OwnedRestart(s, op);
    } else if OnlyFewer(op) {
      FewerStep(s, op);
      OwnedFewer(s, Next(s, op));
    } else {
      FlightsBooked(s);
      OwnedRevocation(s, op);
    }
  }

  lemma {:induction false} AlwaysOwned(states: seq<Sys>, ops: seq<Op>, n: nat)
    requires Run(states, ops) && n < |states|
    ensures Owned(states[n])
    decreases n
  {
    if n > 0 {
      var m := n - 1;
      AlwaysOwned(states, ops, m);
      AlwaysSound(states, ops, m);
      assert Stepped(states, ops, m);
      OwnedStep(states[m], ops[m]);
    }
  }

  /** Over every run, restarts and lost writes included, a live session on a device is one of the device's own user. */
  lemma SessionsBelongToDevices(states: seq<Sys>, ops: seq<Op>, n: nat, k: string)
    requires Run(states, ops) && n < |states| && k in states[n].sessions && states[n].sessions[k].deviceID != ""
    ensures var d := states[n].sessions[k].deviceID;
      d in states[n].book.devices && states[n].book.devices[d].userID == states[n].sessions[k].userID
  {
    AlwaysOwned(states, ops, n);
    SessionsAlwaysHaveDevices(states, ops, n, k);
  }

  // ---------------------------------------------------------------- what a pairing hands on

  /** A pairing hands on the user and the sign-on of the session that issued the code, and names that session's
      device as the one vouching. */
  lemma PairingHandsOn(s: Sys, from: string, now: int)
    requires Enabled(s, ReadSession(from, now))
    ensures Start(s.sessions[from].userID, Origin(s.sessions[from].sso, s.sessions[from].deviceID))
         in Next(s, ReadSession(from, now)).starts
    ensures forall start :: start in Next(s, ReadSession(from, now)).starts && start !in s.starts ==>
      start.userID == s.sessions[from].userID && start.origin == Origin(s.sessions[from].sso, s.sessions[from].deviceID)
  {
  }

  lemma CodeHandsOn(s: Sys, op: Op)
    requires op.CreateCode? && Enabled(s, op)
    ensures var after := Next(s, op);
      && op.secret in after.book.codes && op.pin in after.book.pins && after.book.pins[op.pin] == after.book.codes[op.secret]
      && after.book.codes[op.secret].userID == op.start.userID && after.book.codes[op.secret].origin == op.start.origin
      && after.book.codes[op.secret].expiresAt == op.issuedAt + 90
  {
  }

  lemma RedeemHandsOn(s: Sys, op: Op)
    requires op.Redeem? && Enabled(s, op) && RedeemVerdict(s.book, op.code, op.deviceID, op.now, op.saved).Ok?
    ensures var filed, after := if |op.code| == 6 then s.book.pins else s.book.codes, Next(s, op);
      && op.code in filed && op.deviceID in after.flight && op.deviceID in after.book.devices
      && after.flight[op.deviceID].userID == filed[op.code].userID && after.flight[op.deviceID].origin == filed[op.code].origin
      && after.book.devices[op.deviceID].userID == filed[op.code].userID && after.deviceFile == after.book.devices
  {
    var after := Next(s, op);
    assert after == Spent(s, op).(flight := s.flight[op.deviceID := Presented(s.book, op.code).value]);
  }
}
