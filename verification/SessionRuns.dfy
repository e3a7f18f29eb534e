/** Logins, pairings, revocations, logouts and restarts in any order. Every step is one critical section of the
    server, so a handler that takes a lock twice is two steps and anything may happen between them. */
module SessionRuns {
  import opened Outcomes
  import opened LogoutFence
  import opened DevicePairing
  import opened SessionServer

  /** Who holds the session lock across several steps: revoking all devices of a user takes the device lock
      once per device. */
  datatype Lock = Free | CodesCancelled(userID: string) | Revoking(left: set<string>)

  datatype Start = Start(userID: string, origin: Origin)

  datatype Sys = Sys(
    clock: int,
    events: Events, eventsFile: Events,
    book: Book, deviceFile: map<string, Device>,
    sessions: Sessions, sessionsFile: Sessions,
    lock: Lock,
    starts: set<Start>,               // pairings whose session has been read and whose code is not yet made
    flight: map<string, Pairing>,     // devices registered by a redeem that has not yet minted, and their pairing
    refused: set<string>,             // devices whose mint was refused, to be revoked by the same handler
    // history
    admitted: set<LogoutEvent>,
    owners: map<string, string>,      // every secret ever made, and the user it was made for
    usedDevices: set<string>,
    voidSecrets: set<string>)         // codes cancelled, and redeems overtaken, by a revocation of all devices

  datatype Op =
    | Tick(to: int)
    | Login(key: string, id: string, userID: string, active: bool, sso: Identity, now: int, saved: bool)
    | ReadSession(key: string, now: int)
    | CreateCode(start: Start, pin: string, secret: string, prunedAt: int, issuedAt: int)
    | Redeem(code: string, deviceID: string, now: int, saved: bool)
    | Mint(deviceID: string, key: string, id: string, active: bool, fencedAt: int, now: int, saved: bool)
    | Abandon(deviceID: string, saved: bool)
    | Logout(c: LogoutClaims, clientID: string, now: int, admitSaved: bool, saved: bool)
    | CancelCodes(userID: string)
    | ListDevices
    | RevokeNext(deviceID: string, saved: bool)
    | FinishRevoke(saved: bool)
    | RevokeDevice(deviceID: string, deviceSaved: bool, saved: bool)
    | CancelPairings(userID: string)             // of a deactivated account, without the session lock
    | EndSessions(keys: set<string>, saved: bool)
    | Prune(now: int, saved: bool)
    | Retry
    | Restart(now: int)

  /** Clocks are read before locks are taken, so a step may act on any earlier time; fresh random values are
      new, and a fresh PIN differs from the outstanding ones. */
  predicate Enabled(s: Sys, op: Op) {
    match op
    case Tick(to) => s.clock <= to
    case Login(_, _, _, _, _, now, _) => s.lock.Free? && now <= s.clock
    case ReadSession(key, now) => s.lock.Free? && now <= s.clock && key in s.sessions && now <= s.sessions[key].expiresAt
    case CreateCode(start, pin, secret, prunedAt, issuedAt) =>
      && start in s.starts && secret !in s.owners && pin !in Without(s.book, Expired(s.book, prunedAt)).pins
      && prunedAt <= issuedAt <= s.clock
    case Redeem(_, deviceID, now, _) => deviceID != "" && deviceID !in s.usedDevices && now <= s.clock
    case Mint(deviceID, _, _, _, fencedAt, now, _) => s.lock.Free? && deviceID in s.flight && fencedAt <= now <= s.clock
    case Abandon(deviceID, _) => deviceID in s.refused
    case Logout(_, _, now, _, _) => s.lock.Free? && now <= s.clock
    case CancelCodes(_) => s.lock.Free?
    case ListDevices => s.lock.CodesCancelled?
    case RevokeNext(deviceID, _) => s.lock.Revoking? && deviceID in s.lock.left
    case FinishRevoke(_) => s.lock.Revoking? && s.lock.left == {}
    case RevokeDevice(deviceID, _, _) => s.lock.Free?
    case CancelPairings(_) => true
    case EndSessions(_, _) => s.lock.Free?
    case Prune(now, _) => s.lock.Free? && now <= s.clock
    case Retry => s.lock.Free?
    case Restart(now) => now <= s.clock
  }

  function FlightSecrets(s: Sys, userID: string): set<string> {
    set d | d in s.flight && s.flight[d].userID == userID :: s.flight[d].secret
  }

  predicate Submap(less: Sessions, more: Sessions) {
    forall k :: k in less ==> k in more && less[k] == more[k]
  }

  /** The log stands and no session appears. */
  predicate Quiet(s: Sys, after: Sys) {
    && Submap(after.sessions, s.sessions) && after.events == s.events && after.eventsFile == s.eventsFile
    && after.admitted == s.admitted && s.clock <= after.clock
  }

  /** The history only grows. */
  predicate Later(s: Sys, after: Sys) {
    && s.clock <= after.clock && s.admitted <= after.admitted
    && s.voidSecrets <= after.voidSecrets && s.usedDevices <= after.usedDevices
  }

  predicate SameDevices(s: Sys, after: Sys) {
    after.book.devices == s.book.devices && after.flight == s.flight
  }

  function Saved(s: Sys, saved: bool): (after: Sys)
    ensures Quiet(s, after) && Later(s, after) && SameDevices(s, after)
  {
    if saved then s.(sessionsFile := s.sessions) else s
  }

  function Revoked(s: Sys, deviceID: string, deviceSaved: bool): (after: Sys)
    ensures Quiet(s, after) && Later(s, after)
    ensures after.book.devices == s.book.devices - {deviceID} && after.flight == s.flight
  {
    var left := RevokedBook(s.book, deviceID);
    if deviceID in s.book.devices then
      s.(book := left, deviceFile := if deviceSaved then left.devices else s.deviceFile)
    else s
  }

  function LoggedIn(s: Sys, key: string, session: Session, now: int, saved: bool): (after: Sys)
    ensures Later(s, after) && SameDevices(s, after)
  {
    Saved(s.(sessions := Live(s.sessions, now)[key := session]), saved)
  }

  function MintRefusal(s: Sys, op: Op): Option<MintError>
    requires op.Mint? && op.deviceID in s.flight
  {
    MintVerdict(op.active, op.deviceID, s.flight[op.deviceID].origin, s.events, s.book.devices, op.fencedAt)
  }

  function AfterMint(s: Sys, op: Op): (after: Sys)
    requires op.Mint? && op.deviceID in s.flight
    ensures Later(s, after) && after.book == s.book && after.flight == s.flight - {op.deviceID}
  {
    var p := s.flight[op.deviceID];
    var landed := s.(flight := s.flight - {op.deviceID});
    if MintRefusal(s, op).Some? then landed.(refused := s.refused + {op.deviceID})
    else LoggedIn(landed, op.key, Session(op.id, p.userID, op.now + DEVICE_SECONDS, p.origin.sso, op.deviceID), op.now, op.saved)
  }

  function Spent(s: Sys, op: Op): (after: Sys)
    requires op.Redeem?
    ensures Quiet(s, after) && Later(s, after)
  {
    var book := RedeemedBook(s.book, op.code, op.deviceID, op.now, op.saved);
    s.(book := book, usedDevices := s.usedDevices + {op.deviceID},
       deviceFile := if RedeemVerdict(s.book, op.code, op.deviceID, op.now, op.saved).Ok? then book.devices else s.deviceFile)
  }

  function AfterRedeem(s: Sys, op: Op): (after: Sys)
    requires op.Redeem?
    ensures Quiet(s, after) && Later(s, after)
  {
    if RedeemVerdict(s.book, op.code, op.deviceID, op.now, op.saved).Ok? then
      Spent(s, op).(flight := s.flight[op.deviceID := Presented(s.book, op.code).value])
    else Spent(s, op)
  }

  function AfterLogout(s: Sys, op: Op): (after: Sys)
    requires op.Logout?
    ensures Later(s, after) && SameDevices(s, after)
  {
    var e := EventOf(op.c, op.clientID);
    var logged := s.(events := Admitted(s.events, e, op.now, op.admitSaved));
    if Verdict(s.events, e, op.now, op.admitSaved).Err? then logged
    else
      Saved(logged.(eventsFile := logged.events, admitted := s.admitted + {e}, sessions := Unmatched(s.sessions, e),
                   book := Without(s.book, PinsOfAny(s.book, MatchedUsers(s.sessions, e)))),
            op.saved && Unmatched(s.sessions, e) != s.sessions)
  }

  function AfterLogin(s: Sys, op: Op): (after: Sys)
    requires op.Login?
    ensures Later(s, after) && SameDevices(s, after)
  {
    if LoginVerdict(op.active, op.sso, s.events, op.now).Some? then s
    else LoggedIn(s, op.key, Session(op.id, op.userID, op.now + BROWSER_SECONDS, op.sso, ""), op.now, op.saved)
  }

  function AfterRead(s: Sys, key: string): (after: Sys)
    requires key in s.sessions
    ensures Quiet(s, after) && Later(s, after) && SameDevices(s, after)
  {
    var session := s.sessions[key];
    s.(starts := s.starts + {Start(session.userID, Origin(session.sso, session.deviceID))})
  }

  function NewPairing(op: Op): Pairing
    requires op.CreateCode?
  {
    Pairing(op.pin, op.start.userID, op.secret, op.issuedAt + PAIRING_SECONDS, op.start.origin)
  }

  function AfterCreate(s: Sys, op: Op): (after: Sys)
    requires op.CreateCode?
    ensures Quiet(s, after) && Later(s, after) && SameDevices(s, after)
  {
    s.(book := Created(s.book, NewPairing(op), op.prunedAt), owners := s.owners[op.secret := op.start.userID])
  }

  function AfterCancel(s: Sys, userID: string): (after: Sys)
    ensures Quiet(s, after) && Later(s, after) && SameDevices(s, after)
  {
    s.(book := Without(s.book, PinsOf(s.book, userID)), lock := CodesCancelled(userID),
       voidSecrets := s.voidSecrets + CodesOf(s.book, userID) + FlightSecrets(s, userID))
  }

  function AfterCancelOnly(s: Sys, userID: string): (after: Sys)
    ensures Quiet(s, after) && Later(s, after) && SameDevices(s, after)
  {
    s.(book := Without(s.book, PinsOf(s.book, userID)))
  }

  function SignedOff(s: Sys, deviceID: string): (after: Sys)
    ensures Quiet(s, after) && Later(s, after) && SameDevices(s, after)
  {
    s.(sessions := OffDevices(s.sessions, {deviceID}))
  }

  function AfterRevokeNext(s: Sys, op: Op): (after: Sys)
    requires op.RevokeNext? && s.lock.Revoking?
    ensures Quiet(s, after) && Later(s, after)
    ensures after.book.devices == s.book.devices - {op.deviceID} && after.flight == s.flight
  {
    Revoked(SignedOff(s, op.deviceID), op.deviceID, op.saved).(lock := Revoking(s.lock.left - {op.deviceID}))
  }

  function AfterRevoke(s: Sys, op: Op): (after: Sys)
    requires op.RevokeDevice?
    ensures Quiet(s, after) && Later(s, after)
    ensures after.book.devices == s.book.devices - {op.deviceID} && after.flight == s.flight
  {
    Saved(Revoked(SignedOff(s, op.deviceID), op.deviceID, op.deviceSaved), op.saved)
  }

  function AfterRestart(s: Sys, now: int): (after: Sys)
    ensures Later(s, after)
  {
    s.(events := s.eventsFile, book := Book(s.deviceFile, map[], map[]), lock := Free, starts := {}, flight := map[], refused := {},
       sessions := Loaded(s.sessionsFile, s.eventsFile, s.deviceFile, now))
  }

  function Next(s: Sys, op: Op): Sys
    requires Enabled(s, op)
  {
    match op
    case Tick(to) => s.(clock := to)
    case Login(_, _, _, _, _, _, _) => AfterLogin(s, op)
    case ReadSession(key, _) => AfterRead(s, key)
    case CreateCode(_, _, _, _, _) => AfterCreate(s, op)
    case Redeem(_, _, _, _) => AfterRedeem(s, op)
    case Mint(_, _, _, _, _, _, _) => AfterMint(s, op)
    case Abandon(deviceID, saved) => Revoked(s.(refused := s.refused - {deviceID}), deviceID, saved)
    case Logout(_, _, _, _, _) => AfterLogout(s, op)
    case CancelCodes(userID) => AfterCancel(s, userID)
    case ListDevices => s.(lock := Revoking(DevicesOf(s.book, s.lock.userID)))
    case RevokeNext(_, _) => AfterRevokeNext(s, op)
    case FinishRevoke(saved) => Saved(s.(lock := Free), saved)
    case RevokeDevice(_, _, _) => AfterRevoke(s, op)
    case CancelPairings(userID) => AfterCancelOnly(s, userID)
    case EndSessions(keys, saved) => Saved(s.(sessions := s.sessions - keys), saved)
    case Prune(now, saved) => Saved(s.(sessions := Live(s.sessions, now)), saved)
    case Retry => Saved(s, true)
    case Restart(now) => AfterRestart(s, now)
  }

  // ---------------------------------------------------------------- the logout fence

  predicate InLog(events: Events, e: LogoutEvent) {
    e.Key() in events && events[e.Key()] == e
  }

  predicate NoneMatches(sessions: Sessions, e: LogoutEvent) {
    forall k :: k in sessions ==> !e.Matches(sessions[k].sso)
  }

  predicate FencedOff(s: Sys, e: LogoutEvent) {
    InLog(s.events, e) && InLog(s.eventsFile, e) && NoneMatches(s.sessions, e)
  }

  predicate Fence(s: Sys) {
    forall e :: e in s.admitted && s.clock <= e.retainUntil ==> FencedOff(s, e)
  }

  lemma FenceFewer(s: Sys, after: Sys, e: LogoutEvent)
    requires FencedOff(s, e) && Submap(after.sessions, s.sessions)
    requires after.events == s.events && after.eventsFile == s.eventsFile
    ensures FencedOff(after, e)
  {
  }

  lemma FenceMint(s: Sys, e: LogoutEvent, op: Op)
    requires op.Mint? && Enabled(s, op) && FencedOff(s, e) && s.clock <= e.retainUntil
    ensures FencedOff(AfterMint(s, op), e)
  {
  }

  lemma FenceAdmitted(events: Events, e: LogoutEvent, added: LogoutEvent, now: int, saved: bool)
    requires InLog(events, e) && now <= e.retainUntil
    ensures InLog(Admitted(events, added, now, saved), e)
  {
  }

  lemma FenceLogout(s: Sys, e: LogoutEvent, op: Op)
    requires op.Logout? && Enabled(s, op) && s.clock <= e.retainUntil
    requires e in AfterLogout(s, op).admitted
    requires e in s.admitted ==> FencedOff(s, e)
    ensures FencedOff(AfterLogout(s, op), e)
  {
    if e in s.admitted {
      FenceOldLogout(s, e, op);
    } else {
      FenceNewLogout(s, op);
    }
  }

  lemma FenceOldLogout(s: Sys, e: LogoutEvent, op: Op)
    requires op.Logout? && Enabled(s, op) && s.clock <= e.retainUntil && FencedOff(s, e)
    ensures FencedOff(AfterLogout(s, op), e)
  {
    FenceAdmitted(s.events, e, EventOf(op.c, op.clientID), op.now, op.admitSaved);
  }

  lemma FenceNewLogout(s: Sys, op: Op)
    requires op.Logout? && Verdict(s.events, EventOf(op.c, op.clientID), op.now, op.admitSaved).Ok?
    ensures FencedOff(AfterLogout(s, op), EventOf(op.c, op.clientID))
  {
  }

  lemma FenceRestart(s: Sys, e: LogoutEvent, op: Op)
    requires op.Restart? && Enabled(s, op) && FencedOff(s, e) && s.clock <= e.retainUntil
    ensures FencedOff(AfterRestart(s, op.now), e)
  {
  }

  lemma FenceLogin(s: Sys, e: LogoutEvent, op: Op)
    requires op.Login? && Enabled(s, op) && FencedOff(s, e) && s.clock <= e.retainUntil
    ensures FencedOff(AfterLogin(s, op), e)
  {
  }

  predicate AddsOrReloads(op: Op) {
    op.Login? || op.Mint? || op.Logout? || op.Restart?
  }

  lemma QuietStep(s: Sys, op: Op)
    requires Enabled(s, op) && !AddsOrReloads(op)
    ensures Quiet(s, Next(s, op))
  {
  }

  lemma FenceKept(s: Sys, op: Op, e: LogoutEvent)
    requires Enabled(s, op) && (e in s.admitted ==> FencedOff(s, e))
    requires e in Next(s, op).admitted && s.clock <= e.retainUntil
    ensures FencedOff(Next(s, op), e)
  {
    if op.Logout? {
      FenceLogout(s, e, op);
    } else {
      FenceOther(s, op, e);
    }
  }

  lemma FenceOther(s: Sys, op: Op, e: LogoutEvent)
    requires Enabled(s, op) && FencedOff(s, e) && !op.Logout? && s.clock <= e.retainUntil
    ensures FencedOff(Next(s, op), e)
  {
    if op.Mint? {
      FenceMint(s, e, op);
    } else if op.Restart? {
      FenceRestart(s, e, op);
    } else if op.Login? {
      FenceLogin(s, e, op);
    } else {
      QuietStep(s, op);
      FenceFewer(s, Next(s, op), e);
    }
  }

  lemma HistoryGrows(s: Sys, op: Op)
    requires Enabled(s, op)
    ensures Later(s, Next(s, op))
  {
  }

  lemma OnlyLogoutAdmits(s: Sys, op: Op)
    requires Enabled(s, op) && !op.Logout?
    ensures Next(s, op).admitted == s.admitted
  {
  }

  lemma FenceStep(s: Sys, op: Op)
    requires Fence(s) && Enabled(s, op)
    ensures Fence(Next(s, op))
  {
    forall e | e in Next(s, op).admitted && Next(s, op).clock <= e.retainUntil ensures FencedOff(Next(s, op), e) {
      HistoryGrows(s, op);
      if !op.Logout? {
        OnlyLogoutAdmits(s, op);
      }
      FenceKept(s, op, e);
    }
  }

  // ---------------------------------------------------------------- sessions, devices and codes

  predicate SessionsHaveDevices(s: Sys) {
    forall k :: k in s.sessions && s.sessions[k].deviceID != "" ==> s.sessions[k].deviceID in s.book.devices
  }

  predicate NoSessionOn(sessions: Sessions, deviceID: string) {
    forall k :: k in sessions ==> sessions[k].deviceID != deviceID
  }

  predicate CodesSound(s: Sys) {
    && Paired(s.book)
    && (forall c :: c in s.book.codes ==> c in s.owners && s.owners[c] == s.book.codes[c].userID && c !in s.voidSecrets)
    && s.voidSecrets <= s.owners.Keys
  }

  predicate DevicesSound(s: Sys) {
    s.book.devices.Keys <= s.deviceFile.Keys <= s.usedDevices && "" !in s.usedDevices
  }

  /** A redeem overtaken by a revocation of all devices: its device is gone, or is about to be. */
  predicate Overtaken(s: Sys, d: string)
    requires d in s.flight
  {
    match s.lock
    case Free => d !in s.book.devices
    case CodesCancelled(userID) => d in s.book.devices ==> s.flight[d].userID == userID
    case Revoking(left) => d in s.book.devices ==> d in left
  }

  predicate FlightSound(s: Sys, d: string)
    requires d in s.flight
  {
    var p := s.flight[d];
    && d in s.usedDevices && d !in s.refused && NoSessionOn(s.sessions, d)
    && p.secret in s.owners && s.owners[p.secret] == p.userID && p.secret !in s.book.codes
    && (d in s.book.devices ==> s.book.devices[d].userID == p.userID)
    && (p.secret in s.voidSecrets ==> Overtaken(s, d))
  }

  predicate RefusedSound(s: Sys, d: string) {
    d in s.usedDevices && NoSessionOn(s.sessions, d)
  }

  predicate Sound(s: Sys) {
    && SessionsHaveDevices(s) && CodesSound(s) && DevicesSound(s)
    && (forall d :: d in s.flight ==> FlightSound(s, d))
    && (forall d :: d in s.refused ==> RefusedSound(s, d))
  }

  /** Steps that only remove sessions, and may save them, keep everything else sound. */
  lemma FewerSessions(s: Sys, after: Sys)
    requires Sound(s)
    requires after == s.(sessions := after.sessions, sessionsFile := after.sessionsFile, clock := after.clock, starts := after.starts)
    requires Submap(after.sessions, s.sessions)
    ensures Sound(after)
  {
  }

  lemma SoundAddSession(s: Sys, key: string, session: Session, now: int, saved: bool)
    requires Sound(s)
    requires session.deviceID != "" ==> session.deviceID in s.book.devices
    requires session.deviceID !in s.flight && session.deviceID !in s.refused
    ensures Sound(LoggedIn(s, key, session, now, saved))
  {
  }

  lemma SoundCreate(s: Sys, op: Op)
    requires Sound(s) && op.CreateCode? && Enabled(s, op)
    ensures Sound(AfterCreate(s, op))
  {
    var after := AfterCreate(s, op);
    CreateKeepsPairedIff(s.book, NewPairing(op), op.prunedAt);
    forall d | d in after.flight ensures FlightSound(after, d) {
      assert FlightSound(s, d);
    }
    forall d | d in after.refused ensures RefusedSound(after, d) {
      assert RefusedSound(s, d);
    }
  }

  lemma UnusedNowhere(s: Sys, d: string)
    requires Sound(s) && d !in s.usedDevices
    ensures d !in s.book.devices && d !in s.flight && d !in s.refused
    ensures d != "" ==> NoSessionOn(s.sessions, d)
  {
  }

  lemma SpentCodes(s: Sys, op: Op)
    requires CodesSound(s) && op.Redeem?
    ensures CodesSound(Spent(s, op)) && Spent(s, op).book.codes.Keys <= s.book.codes.Keys
  {
  }

  lemma SpentDevices(s: Sys, op: Op)
    requires DevicesSound(s) && SessionsHaveDevices(s) && op.Redeem? && op.deviceID !in s.usedDevices && op.deviceID != ""
    ensures DevicesSound(Spent(s, op)) && SessionsHaveDevices(Spent(s, op))
    ensures forall d :: d in s.usedDevices ==> (d in Spent(s, op).book.devices <==> d in s.book.devices)
    ensures forall d :: d in s.book.devices ==> Spent(s, op).book.devices[d] == s.book.devices[d]
  {
  }

  /** The code spent by a redeem was nobody else's and not cancelled. */
  lemma SpentCode(s: Sys, op: Op)
    requires CodesSound(s) && op.Redeem? && RedeemVerdict(s.book, op.code, op.deviceID, op.now, op.saved).Ok?
    ensures var p := Presented(s.book, op.code).value;
      && p.secret in s.owners && s.owners[p.secret] == p.userID && p.secret !in s.voidSecrets
      && p.secret !in Spent(s, op).book.codes && op.deviceID in Spent(s, op).book.devices
      && Spent(s, op).book.devices[op.deviceID].userID == p.userID
  {
  }

  lemma SoundRedeem(s: Sys, op: Op)
    requires Sound(s) && op.Redeem? && Enabled(s, op)
    ensures Sound(AfterRedeem(s, op))
  {
    UnusedNowhere(s, op.deviceID);
    SpentCodes(s, op);
    SpentDevices(s, op);
    FlightStays(s, Spent(s, op));
    if RedeemVerdict(s.book, op.code, op.deviceID, op.now, op.saved).Ok? {
      SpentCode(s, op);
      SoundFlown(Spent(s, op), op.deviceID, Presented(s.book, op.code).value);
    }
  }

  /** Redeeming leaves the redeems already in flight as they were. */
  lemma FlightStays(s: Sys, after: Sys)
    requires Sound(s)
    requires after == s.(book := after.book, usedDevices := after.usedDevices, deviceFile := after.deviceFile)
    requires s.usedDevices <= after.usedDevices && after.book.codes.Keys <= s.book.codes.Keys
    requires forall d :: d in s.usedDevices ==>
        (d in after.book.devices <==> d in s.book.devices) && (d in s.book.devices ==> after.book.devices[d] == s.book.devices[d])
    requires SessionsHaveDevices(after) && CodesSound(after) && DevicesSound(after)
    ensures Sound(after)
  {
  }

  lemma SoundFlown(s: Sys, d: string, p: Pairing)
    requires Sound(s) && d in s.usedDevices && d !in s.flight && d !in s.refused && NoSessionOn(s.sessions, d)
    requires p.secret in s.owners && s.owners[p.secret] == p.userID && p.secret !in s.book.codes && p.secret !in s.voidSecrets
    requires d in s.book.devices && s.book.devices[d].userID == p.userID
    ensures Sound(s.(flight := s.flight[d := p]))
  {
  }

  lemma SoundLanded(s: Sys, d: string)
    requires Sound(s) && d in s.flight
    ensures d in s.usedDevices && d != "" && d !in s.refused && NoSessionOn(s.sessions, d)
    ensures Sound(s.(flight := s.flight - {d}))
  {
  }

  lemma SoundRefused(s: Sys, d: string)
    requires Sound(s) && d in s.usedDevices && d !in s.flight && NoSessionOn(s.sessions, d)
    ensures Sound(s.(refused := s.refused + {d}))
  {
  }

  lemma SoundMint(s: Sys, op: Op)
    requires Sound(s) && op.Mint? && Enabled(s, op)
    ensures Sound(AfterMint(s, op))
  {
    var d, p, after := op.deviceID, s.flight[op.deviceID], AfterMint(s, op);
    SoundLanded(s, d);
    var landed := s.(flight := s.flight - {d});
    if MintRefusal(s, op).None? {
      var session := Session(op.id, p.userID, op.now + DEVICE_SECONDS, p.origin.sso, d);
      SoundAddSession(landed, op.key, session, op.now, op.saved);
      assert after == LoggedIn(landed, op.key, session, op.now, op.saved);
    } else {
      SoundRefused(landed, d);
      assert after == landed.(refused := landed.refused + {d});
    }
  }

  lemma FlightAfterRevoked(s: Sys, deviceID: string, deviceSaved: bool, d: string)
    requires d in s.flight && FlightSound(s, d)
    ensures FlightSound(Revoked(s, deviceID, deviceSaved), d)
  {
  }

  /** Deleting a device whose sessions are gone, whoever holds the lock. */
  lemma SoundRevoked(s: Sys, deviceID: string, deviceSaved: bool)
    requires Sound(s) && NoSessionOn(s.sessions, deviceID)
    ensures Sound(Revoked(s, deviceID, deviceSaved))
  {
    var after := Revoked(s, deviceID, deviceSaved);
    forall d | d in after.flight ensures FlightSound(after, d) {
      FlightAfterRevoked(s, deviceID, deviceSaved, d);
    }
    forall d | d in after.refused ensures RefusedSound(after, d) {
      assert RefusedSound(s, d);
    }
  }

  lemma SoundRefusedLess(s: Sys, d: string)
    requires Sound(s)
    ensures Sound(s.(refused := s.refused - {d}))
  {
  }

  lemma SoundCodesFewer(s: Sys, gone: set<string>)
    requires Sound(s)
    ensures Sound(s.(book := Without(s.book, gone)))
  {
  }

  lemma SoundLogout(s: Sys, op: Op)
    requires Sound(s) && op.Logout? && Enabled(s, op)
    ensures Sound(AfterLogout(s, op))
  {
    var e, after := EventOf(op.c, op.clientID), AfterLogout(s, op);
    var logged := s.(events := after.events, eventsFile := after.eventsFile, admitted := after.admitted);
    SoundLog(s, logged);
    if Verdict(s.events, e, op.now, op.admitSaved).Ok? {
      SoundEnded(logged, after, PinsOfAny(s.book, MatchedUsers(s.sessions, e)));
    } else {
      assert after == logged;
    }
  }

  lemma SoundEnded(s: Sys, after: Sys, gone: set<string>)
    requires Sound(s) && Submap(after.sessions, s.sessions)
    requires after == s.(book := Without(s.book, gone), sessions := after.sessions, sessionsFile := after.sessionsFile)
    ensures Sound(after)
  {
    SoundCodesFewer(s, gone);
    FewerSessions(s.(book := Without(s.book, gone)), after);
  }

  lemma SoundLog(s: Sys, after: Sys)
    requires Sound(s) && after == s.(events := after.events, eventsFile := after.eventsFile, admitted := after.admitted)
    ensures Sound(after)
  {
  }

  lemma SoundCancel(s: Sys, op: Op)
    requires Sound(s) && op.CancelCodes? && Enabled(s, op)
    ensures Sound(AfterCancel(s, op.userID))
  {
    var userID := op.userID;
    var after := AfterCancel(s, userID);
    CancelLeavesNone(s.book, userID);
    WithoutKeepsPaired(s.book, PinsOf(s.book, userID));
    forall c | c in after.book.codes ensures c !in after.voidSecrets {
      assert c !in CodesOf(after.book, userID) && after.book.codes[c] == s.book.codes[c];
    }
    forall d | d in after.flight ensures FlightSound(after, d) {
      FlightCancelled(s, userID, d);
    }
  }

  lemma FlightCancelled(s: Sys, userID: string, d: string)
    requires s.lock.Free? && d in s.flight && FlightSound(s, d)
    requires forall other :: other in s.flight ==> FlightSound(s, other)
    ensures FlightSound(AfterCancel(s, userID), d)
  {
  }

  lemma SoundLock(s: Sys, after: Sys)
    requires Sound(s) && after == s.(lock := after.lock)
    requires forall d :: d in s.flight && s.flight[d].secret in s.voidSecrets ==> Overtaken(after, d)
    ensures Sound(after)
  {
  }

  lemma SoundList(s: Sys)
    requires Sound(s) && s.lock.CodesCancelled?
    ensures Sound(Next(s, ListDevices))
  {
  }

  lemma SoundRevokeNext(s: Sys, op: Op)
    requires Sound(s) && op.RevokeNext? && Enabled(s, op)
    ensures Sound(AfterRevokeNext(s, op))
  {
    var ended := SignedOff(s, op.deviceID);
    FewerSessions(s, ended);
    SoundRevoked(ended, op.deviceID, op.saved);
    SoundTicked(Revoked(ended, op.deviceID, op.saved), op.deviceID, Revoking(s.lock.left - {op.deviceID}));
  }

  lemma SoundTicked(s: Sys, d: string, lock: Lock)
    requires Sound(s) && s.lock.Revoking? && d !in s.book.devices && lock == Revoking(s.lock.left - {d})
    ensures Sound(s.(lock := lock))
  {
  }

  lemma SoundRevokeDevice(s: Sys, op: Op)
    requires Sound(s) && op.RevokeDevice? && Enabled(s, op)
    ensures Sound(AfterRevoke(s, op))
  {
    var ended := SignedOff(s, op.deviceID);
    FewerSessions(s, ended);
    SoundRevoked(ended, op.deviceID, op.deviceSaved);
    FewerSessions(Revoked(ended, op.deviceID, op.deviceSaved), AfterRevoke(s, op));
  }

  lemma SoundFinish(s: Sys, op: Op)
    requires Sound(s) && op.FinishRevoke? && Enabled(s, op)
    ensures Sound(Next(s, op))
  {
    var freed := s.(lock := Free);
    forall d | d in s.flight && s.flight[d].secret in s.voidSecrets ensures Overtaken(freed, d) {
      assert FlightSound(s, d);
    }
    SoundLock(s, freed);
    FewerSessions(freed, Next(s, op));
  }

  lemma SoundAbandon(s: Sys, op: Op)
    requires Sound(s) && op.Abandon? && Enabled(s, op)
    ensures Sound(Next(s, op))
  {
    assert RefusedSound(s, op.deviceID);
    SoundRefusedLess(s, op.deviceID);
    SoundRevoked(s.(refused := s.refused - {op.deviceID}), op.deviceID, op.saved);
  }

  lemma SoundLogin(s: Sys, op: Op)
    requires Sound(s) && op.Login? && Enabled(s, op)
    ensures Sound(AfterLogin(s, op))
  {
    var after, session := AfterLogin(s, op), Session(op.id, op.userID, op.now + BROWSER_SECONDS, op.sso, "");
    if after != s {
      UnusedNowhere(s, "");
      SoundAddSession(s, op.key, session, op.now, op.saved);
      assert after == LoggedIn(s, op.key, session, op.now, op.saved);
    }
  }

  lemma SoundRestart(s: Sys, op: Op)
    requires Sound(s) && op.Restart? && Enabled(s, op)
    ensures Sound(AfterRestart(s, op.now))
  {
  }

  predicate OnlySessions(op: Op) {
    op.Tick? || op.ReadSession? || op.EndSessions? || op.Prune? || op.Retry?
  }

  lemma SmallStep(s: Sys, op: Op)
    requires Enabled(s, op) && OnlySessions(op)
    ensures var after := Next(s, op);
      && after == s.(sessions := after.sessions, sessionsFile := after.sessionsFile, clock := after.clock, starts := after.starts)
      && Submap(after.sessions, s.sessions)
  {
  }

  lemma SoundSmall(s: Sys, op: Op)
    requires Sound(s) && Enabled(s, op) && OnlySessions(op)
    ensures Sound(Next(s, op))
  {
    var after := Next(s, op);
    SmallStep(s, op);
    FewerSessions(s, after);
  }

  lemma SoundStep(s: Sys, op: Op)
    requires Sound(s) && Enabled(s, op)
    ensures Sound(Next(s, op))
  {
    match op {
      case Login(_, _, _, _, _, _, _) => SoundLogin(s, op);
      case CreateCode(_, _, _, _, _) => SoundCreate(s, op);
      case Redeem(_, _, _, _) => SoundRedeem(s, op);
      case Mint(_, _, _, _, _, _, _) => SoundMint(s, op);
      case Abandon(_, _) => SoundAbandon(s, op);
      case Logout(_, _, _, _, _) => SoundLogout(s, op);
      case CancelCodes(_) => SoundCancel(s, op);
      case ListDevices => SoundList(s);
      case RevokeNext(_, _) => SoundRevokeNext(s, op);
      case FinishRevoke(_) => SoundFinish(s, op);
      case RevokeDevice(_, _, _) => SoundRevokeDevice(s, op);
      case Restart(_) => SoundRestart(s, op);
      case CancelPairings(userID) => SoundCodesFewer(s, PinsOf(s.book, userID));
      case _ => SoundSmall(s, op);
    }
  }
}
