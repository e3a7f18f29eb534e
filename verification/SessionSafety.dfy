/** What holds over whole runs of the session machine: a logout keeps what it names out, a token is admitted
    once, and nothing revoked is ever minted again. */
module SessionSafety {
  import opened Outcomes
  import opened LogoutFence
  import opened DevicePairing
  import opened SessionServer
  import opened SessionRuns

  /** A server with nothing stored yet. */
  predicate Fresh(s: Sys) {
    && s.events == map[] && s.eventsFile == map[] && s.book == Book(map[], map[], map[]) && s.deviceFile == map[]
    && s.sessions == map[] && s.sessionsFile == map[] && s.lock.Free? && s.starts == {} && s.flight == map[]
    && s.refused == {} && s.admitted == {} && s.owners == map[] && s.usedDevices == {} && s.voidSecrets == {}
  }

  predicate Stepped(states: seq<Sys>, ops: seq<Op>, i: nat)
    requires i < |ops| && |states| == |ops| + 1
  {
    Enabled(states[i], ops[i]) && states[i + 1] == Next(states[i], ops[i])
  }

  predicate Run(states: seq<Sys>, ops: seq<Op>) {
    && |states| == |ops| + 1 && Fresh(states[0])
    && forall i :: 0 <= i < |ops| ==> Stepped(states, ops, i)
  }

  lemma {:induction false} AlwaysSound(states: seq<Sys>, ops: seq<Op>, n: nat)
    requires Run(states, ops) && n < |states|
    ensures Fence(states[n]) && Sound(states[n])
    decreases n
  {
    if n > 0 {
      var m := n - 1;
      AlwaysSound(states, ops, m);
      assert Stepped(states, ops, m);
      FenceStep(states[m], ops[m]);
      SoundStep(states[m], ops[m]);
    }
  }

  lemma {:induction false} HistoryKept(states: seq<Sys>, ops: seq<Op>, i: nat, j: nat)
    requires Run(states, ops) && i <= j < |states|
    ensures Later(states[i], states[j])
    decreases j
  {
    if i < j {
      var m := j - 1;
      HistoryKept(states, ops, i, m);
      assert Stepped(states, ops, m);
      HistoryGrows(states[m], ops[m]);
    }
  }

  // ---------------------------------------------------------------- logout

  predicate Accepts(s: Sys, op: Op) {
    op.Logout? && Verdict(s.events, EventOf(op.c, op.clientID), op.now, op.admitSaved).Ok?
  }

  lemma AcceptAdmits(s: Sys, op: Op)
    requires op.Logout? && Verdict(s.events, EventOf(op.c, op.clientID), op.now, op.admitSaved).Ok?
    ensures EventOf(op.c, op.clientID) in AfterLogout(s, op).admitted
  {
  }

  lemma AdmittedStays(states: seq<Sys>, ops: seq<Op>, i: nat, j: nat)
    requires Run(states, ops) && i < j < |states| && Accepts(states[i], ops[i])
    ensures EventOf(ops[i].c, ops[i].clientID) in states[j].admitted
  {
    assert Stepped(states, ops, i);
    AcceptAdmits(states[i], ops[i]);
    assert states[i + 1] == AfterLogout(states[i], ops[i]);
    HistoryKept(states, ops, i + 1, j);
  }

  lemma AcceptedIsRetained(states: seq<Sys>, ops: seq<Op>, i: nat, j: nat)
    requires Run(states, ops) && i < j < |states| && Accepts(states[i], ops[i])
    requires states[j].clock <= EventOf(ops[i].c, ops[i].clientID).retainUntil
    ensures FencedOff(states[j], EventOf(ops[i].c, ops[i].clientID))
  {
    AdmittedStays(states, ops, i, j);
    AlwaysSound(states, ops, j);
  }

  /** From the moment a logout is accepted until its retention ends, no live session matches it, whatever
      logins, redeems, logouts and restarts happen meanwhile. */
  lemma LoggedOutStaysOut(states: seq<Sys>, ops: seq<Op>, i: nat, j: nat, k: string)
    requires Run(states, ops) && i < j < |states| && Accepts(states[i], ops[i])
    requires states[j].clock <= EventOf(ops[i].c, ops[i].clientID).retainUntil
    requires k in states[j].sessions
    ensures !EventOf(ops[i].c, ops[i].clientID).Matches(states[j].sessions[k].sso)
  {
    AcceptedIsRetained(states, ops, i, j);
  }

  /** A token accepted once is refused as a replay until its retention ends, across restarts too. */
  lemma TokenAcceptedOnce(states: seq<Sys>, ops: seq<Op>, i: nat, j: nat)
    requires Run(states, ops) && i < j < |ops| && Accepts(states[i], ops[i]) && ops[j].Logout?
    requires EventOf(ops[j].c, ops[j].clientID).Key() == EventOf(ops[i].c, ops[i].clientID).Key()
    requires states[j].clock <= EventOf(ops[i].c, ops[i].clientID).retainUntil
    ensures Verdict(states[j].events, EventOf(ops[j].c, ops[j].clientID), ops[j].now, ops[j].admitSaved) == Err(Replayed)
  {
    AcceptedIsRetained(states, ops, i, j);
    assert Stepped(states, ops, j);
    var e := EventOf(ops[i].c, ops[i].clientID);
    assert InLog(Unexpired(states[j].events, ops[j].now), e);
  }

  // ---------------------------------------------------------------- devices and codes

  /** No session outlives its device. */
  lemma SessionsAlwaysHaveDevices(states: seq<Sys>, ops: seq<Op>, n: nat, k: string)
    requires Run(states, ops) && n < |states| && k in states[n].sessions && states[n].sessions[k].deviceID != ""
    ensures states[n].sessions[k].deviceID in states[n].book.devices
  {
    AlwaysSound(states, ops, n);
  }

  predicate Mints(s: Sys, op: Op)
    requires Enabled(s, op)
  {
    op.Mint? && MintRefusal(s, op).None?
  }

  lemma MintNeedsLiveDevices(s: Sys, op: Op)
    requires Sound(s) && Enabled(s, op) && Mints(s, op)
    ensures op.deviceID in s.book.devices
    ensures var issuer := s.flight[op.deviceID].origin.issuerDeviceID; issuer == "" || issuer in s.book.devices
    ensures s.flight[op.deviceID].secret !in s.voidSecrets
  {
  }

  /** No code outstanding when its user's codes were cancelled by a revocation of all devices, and no redeem
      then in flight, ever yields a session. */
  lemma CancelledNeverMints(states: seq<Sys>, ops: seq<Op>, i: nat, j: nat)
    requires Run(states, ops) && i < j < |ops| && ops[i].CancelCodes?
    requires Stepped(states, ops, j) && Mints(states[j], ops[j])
    ensures var secret := states[j].flight[ops[j].deviceID].secret;
      secret !in CodesOf(states[i].book, ops[i].userID) && secret !in FlightSecrets(states[i], ops[i].userID)
  {
    assert Stepped(states, ops, i);
    HistoryKept(states, ops, i + 1, j);
    AlwaysSound(states, ops, j);
    MintNeedsLiveDevices(states[j], ops[j]);
  }

  predicate Revokes(s: Sys, op: Op, d: string) {
    d in s.book.devices && ((op.RevokeNext? || op.RevokeDevice? || op.Abandon?) && op.deviceID == d)
  }

  /** A device once registered, or refused for want of a write, that is not in the store. */
  predicate Gone(s: Sys, d: string) {
    d in s.usedDevices && d !in s.book.devices
  }

  /** What a step does to a device that is not new. */
  lemma DeviceStep(s: Sys, op: Op, d: string)
    requires Sound(s) && Enabled(s, op) && d in s.usedDevices
    ensures d in Next(s, op).book.devices
       <==> if op.Restart? then d in s.deviceFile else d in s.book.devices && !Revokes(s, op, d)
    ensures d in Next(s, op).flight ==> d in s.flight && !op.Restart?
  {
    if op.Redeem? {
      SpentDevices(s, op);
    } else if op.Restart? {
    } else if op.RevokeNext? || op.RevokeDevice? || op.Abandon? {
      RevocationStep(s, op, d);
    } else {
      DevicesKept(s, op);
    }
  }

  lemma RevocationStep(s: Sys, op: Op, d: string)
    requires Enabled(s, op) && (op.RevokeNext? || op.RevokeDevice? || op.Abandon?)
    ensures d in Next(s, op).book.devices <==> d in s.book.devices && !Revokes(s, op, d)
    ensures Next(s, op).flight == s.flight
  {
  }

  lemma DevicesKept(s: Sys, op: Op)
    requires Enabled(s, op) && !op.Redeem? && !op.Restart? && !op.RevokeNext? && !op.RevokeDevice? && !op.Abandon?
    ensures Next(s, op).book.devices == s.book.devices && Next(s, op).flight.Keys <= s.flight.Keys
  {
  }

  /** The last restart read it back, and no revocation followed. */
  predicate ReadBack(states: seq<Sys>, ops: seq<Op>, i: nat, j: nat, d: string)
    requires j <= |ops| < |states|
  {
    exists r :: i <= r < j && ReadBackAt(states[r], ops[r], d) && NotRevoked(states, ops, r, j, d)
  }

  predicate ReadBackAt(s: Sys, op: Op, d: string) {
    op.Restart? && d in s.deviceFile
  }

  predicate NotRevoked(states: seq<Sys>, ops: seq<Op>, r: nat, j: nat, d: string)
    requires j <= |ops| < |states|
  {
    forall k :: r < k < j ==> !Revokes(states[k], ops[k], d)
  }

  lemma ReadBackStep(states: seq<Sys>, ops: seq<Op>, i: nat, j: nat, d: string)
    requires i <= j < |ops| < |states|
    ensures ReadBack(states, ops, i, j + 1, d)
       <==> ReadBackAt(states[j], ops[j], d) || (ReadBack(states, ops, i, j, d) && !Revokes(states[j], ops[j], d))
  {
    if ReadBackAt(states[j], ops[j], d) {
      assert NotRevoked(states, ops, j, j + 1, d);
    }
    if ReadBack(states, ops, i, j, d) && !Revokes(states[j], ops[j], d) {
      var r :| i <= r < j && ReadBackAt(states[r], ops[r], d) && NotRevoked(states, ops, r, j, d);
      assert NotRevoked(states, ops, r, j + 1, d);
    }
    if ReadBack(states, ops, i, j + 1, d) {
      var r :| i <= r < j + 1 && ReadBackAt(states[r], ops[r], d) && NotRevoked(states, ops, r, j + 1, d);
      assert r < j ==> NotRevoked(states, ops, r, j, d);
    }
  }

  /** A device that is gone comes back exactly when a restart reads it out of a file its removal never reached,
      and it stays back until it is revoked again. */
  lemma {:induction false} GoneReturnsIff(states: seq<Sys>, ops: seq<Op>, i: nat, j: nat, d: string)
    requires Run(states, ops) && i <= j < |states| && Gone(states[i], d)
    ensures d in states[j].usedDevices
    ensures d in states[j].book.devices <==> ReadBack(states, ops, i, j, d)
    ensures d in states[j].book.devices ==> d !in states[j].flight
    decreases j
  {
    if i < j {
      var m := j - 1;
      GoneReturnsIff(states, ops, i, m, d);
      assert Stepped(states, ops, m);
      AlwaysSound(states, ops, m);
      HistoryGrows(states[m], ops[m]);
      DeviceStep(states[m], ops[m], d);
      ReadBackStep(states, ops, i, m, d);
    }
  }

  lemma RevokedIsGone(states: seq<Sys>, ops: seq<Op>, i: nat, d: string)
    requires Run(states, ops) && i < |ops| && Revokes(states[i], ops[i], d)
    ensures Gone(states[i + 1], d)
  {
    assert Stepped(states, ops, i);
    AlwaysSound(states, ops, i);
    DeviceStep(states[i], ops[i], d);
    HistoryGrows(states[i], ops[i]);
  }

  lemma GoneNeverMints(states: seq<Sys>, ops: seq<Op>, i: nat, j: nat, d: string)
    requires Run(states, ops) && i <= j < |ops| && d != "" && Gone(states[i], d)
    requires Stepped(states, ops, j) && Mints(states[j], ops[j])
    ensures ops[j].deviceID != d
    ensures states[j].flight[ops[j].deviceID].origin.issuerDeviceID == d ==> ReadBack(states, ops, i, j, d)
  {
    GoneReturnsIff(states, ops, i, j, d);
    AlwaysSound(states, ops, j);
    MintNeedsLiveDevices(states[j], ops[j]);
  }

  /** A revoked device never mints again; it vouches for a pairing only if a restart has read it back and no
      revocation of it followed. */
  lemma RevokedNeverMints(states: seq<Sys>, ops: seq<Op>, i: nat, j: nat, d: string)
    requires Run(states, ops) && i < j < |ops| && Revokes(states[i], ops[i], d)
    requires Stepped(states, ops, j) && Mints(states[j], ops[j])
    ensures ops[j].deviceID != d
    ensures states[j].flight[ops[j].deviceID].origin.issuerDeviceID == d ==> ReadBack(states, ops, i + 1, j, d)
  {
    AlwaysSound(states, ops, i);
    RevokedIsGone(states, ops, i, d);
    GoneNeverMints(states, ops, i + 1, j, d);
  }

  /** Each device listed is gone, or is still to be revoked. */
  predicate Pending(s: Sys, listed: set<string>) {
    s.lock.Revoking? && forall d :: d in listed ==> d in s.usedDevices && (d in s.book.devices ==> d in s.lock.left)
  }

  lemma StepsUnderLock(s: Sys, op: Op)
    requires s.lock.Revoking? && Enabled(s, op) && !op.FinishRevoke? && !op.Restart?
    ensures op.Tick? || op.CreateCode? || op.Redeem? || op.Abandon? || op.RevokeNext? || op.CancelPairings?
    ensures Next(s, op).lock == if op.RevokeNext? then Revoking(s.lock.left - {op.deviceID}) else s.lock
  {
  }

  lemma PendingStep(s: Sys, op: Op, listed: set<string>)
    requires Pending(s, listed) && Sound(s) && Enabled(s, op) && !op.FinishRevoke? && !op.Restart?
    ensures Pending(Next(s, op), listed)
  {
    StepsUnderLock(s, op);
    HistoryGrows(s, op);
    forall d | d in listed ensures d in Next(s, op).book.devices ==> d in Next(s, op).lock.left {
      DeviceStep(s, op, d);
    }
  }

  predicate Uninterrupted(ops: seq<Op>, i: nat, j: nat) {
    forall k :: i <= k < j && k < |ops| ==> !ops[k].FinishRevoke? && !ops[k].Restart?
  }

  lemma {:induction false} ListedPending(states: seq<Sys>, ops: seq<Op>, i: nat, j: nat)
    requires Run(states, ops) && i < j < |states| && ops[i].ListDevices? && Uninterrupted(ops, i, j)
    requires states[i].lock.CodesCancelled?
    ensures Pending(states[j], DevicesOf(states[i].book, states[i].lock.userID))
    decreases j
  {
    var m := j - 1;
    assert Stepped(states, ops, m);
    AlwaysSound(states, ops, m);
    if i < m {
      ListedPending(states, ops, i, m);
      PendingStep(states[m], ops[m], DevicesOf(states[i].book, states[i].lock.userID));
    }
  }

  /** Revoking all devices of a user, run to its end with anything in between: every device of theirs that
      was registered is gone, none of them ever mints, and one vouches for a pairing only if a restart has read
      it back since and no revocation of it followed. */
  lemma RevokeAllIsFinal(states: seq<Sys>, ops: seq<Op>, i: nat, j: nat, n: nat, d: string)
    requires Run(states, ops) && i < j < n < |ops|
    requires Stepped(states, ops, i) && ops[i].ListDevices? && Uninterrupted(ops, i, j) && ops[j].FinishRevoke?
    requires d in DevicesOf(states[i].book, states[i].lock.userID)
    requires Stepped(states, ops, n) && Mints(states[n], ops[n])
    ensures d !in states[j].book.devices
    ensures ops[n].deviceID != d
    ensures states[n].flight[ops[n].deviceID].origin.issuerDeviceID == d ==> ReadBack(states, ops, j, n, d)
  {
    ListedPending(states, ops, i, j);
    assert Stepped(states, ops, j);
    AlwaysSound(states, ops, i);
    GoneNeverMints(states, ops, j, n, d);
  }

  /** A revoked device's session comes back after a restart exactly when neither the device file nor the session
      file was written: the failed device write is not reported and not retried. */
  lemma RevocationUndoneIff(s: Sys, d: string, k: string, deviceSaved: bool, saved: bool, now: int)
    requires s.lock.Free? && now <= s.clock
    requires d != "" && d in s.book.devices && d in s.deviceFile
    requires k in s.sessions && k in s.sessionsFile && s.sessionsFile[k] == s.sessions[k] && s.sessions[k].deviceID == d
    requires now < s.sessions[k].expiresAt && !FencedBy(s.eventsFile, s.sessions[k].sso, now)
    ensures var revoked := Next(s, RevokeDevice(d, deviceSaved, saved));
      k !in revoked.sessions && (k in Next(revoked, Restart(now)).sessions <==> !deviceSaved && !saved)
  {
  }
}
