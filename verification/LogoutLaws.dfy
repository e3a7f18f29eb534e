/** Which sessions a back-channel logout token names, in the token's own fields: what it ends, what it fences, and
    for how long; and when a token is taken for a repeat. */
module LogoutLaws {
  import opened Outcomes
  import opened HistoryIds
  import opened LogoutFence
  import opened DevicePairing
  import opened SessionServer
  import opened SessionRuns
  import opened SessionSafety

  /** A sign-on at the issuer and for the client of the token, with a subject. */
  predicate SamePlace(c: LogoutClaims, clientID: string, id: Identity) {
    id.issuer == c.issuer && id.clientID == clientID && id.subject != ""
  }

  /** What an accepted logout does to the sessions: one naming only a session ends exactly the sessions with that ID;
      one naming a session and a subject, those with both; one naming only a subject, those of the subject signed on
      no later than the token. The sessions left are as they were. */
  lemma LogoutEndsIff(sessions: Sessions, c: LogoutClaims, clientID: string, k: string)
    requires k in sessions
    ensures var id, left := sessions[k].sso, Unmatched(sessions, EventOf(c, clientID));
      && (c.sessionID != "" && c.subject == "" ==>
            (k !in left <==> SamePlace(c, clientID, id) && id.sessionID == c.sessionID))
      && (c.sessionID != "" && c.subject != "" ==>
            (k !in left <==> SamePlace(c, clientID, id) && id.sessionID == c.sessionID && id.subject == c.subject))
      && (c.sessionID == "" ==>
            (k !in left <==> SamePlace(c, clientID, id) && id.subject == c.subject && id.issuedAt <= c.issuedAt))
      && (c.sessionID != "" && id.sessionID != c.sessionID ==> k in left)
      && (k in left ==> left[k] == sessions[k])
  {
  }

  lemma LogoutAddsNone(sessions: Sessions, c: LogoutClaims, clientID: string)
    ensures Unmatched(sessions, EventOf(c, clientID)).Keys <= sessions.Keys
  {
  }

  /** The same three cases, of a retained event. */
  predicate Covers(e: LogoutEvent, id: Identity) {
    && id.issuer == e.issuer && id.clientID == e.clientID && id.subject != ""
    && (e.sessionID != "" ==> id.sessionID == e.sessionID && e.subject in {"", id.subject})
    && (e.sessionID == "" ==> id.subject == e.subject && id.issuedAt <= e.issuedAt)
  }

  /** A sign-on is fenced exactly while an event that covers it is retained. */
  lemma FencedIff(events: Events, id: Identity, now: int)
    ensures FencedBy(events, id, now) <==> exists k :: k in events && now <= events[k].retainUntil && Covers(events[k], id)
  {
    forall k | k in events ensures events[k].Matches(id) <==> Covers(events[k], id) {
    }
  }

  /** From an accepted logout on, until its replay time passes, a login it names is refused, even if every other
      condition is met. */
  lemma NamedLoginRefused(events: Events, c: LogoutClaims, clientID: string, at: int, id: Identity, now: int)
    requires Verdict(events, EventOf(c, clientID), at, true).Ok? && now <= c.replayUntil
    requires SamePlace(c, clientID, id) && id.issuer != "" && id.clientID != ""
    requires if c.sessionID != "" then id.sessionID == c.sessionID && c.subject in {"", id.subject}
             else id.subject == c.subject && id.issuedAt <= c.issuedAt
    ensures LoginVerdict(true, id, Admitted(events, EventOf(c, clientID), at, true), now) == Some(LoginFenced)
  {
    var e := EventOf(c, clientID);
    var after := Admitted(events, e, at, true);
    assert after[e.Key()] == e && Covers(e, id);
    FencedIff(after, id, now);
  }

  /** Over every run: while an accepted token is retained, no live session is one it names. */
  lemma NamedStayOut(states: seq<Sys>, ops: seq<Op>, i: nat, j: nat, k: string)
    requires Run(states, ops) && i < j < |states| && Accepts(states[i], ops[i])
    requires states[j].clock <= ops[i].c.replayUntil && k in states[j].sessions
    ensures var c, clientID, id := ops[i].c, ops[i].clientID, states[j].sessions[k].sso;
      && (c.sessionID != "" && c.subject == "" ==> !(SamePlace(c, clientID, id) && id.sessionID == c.sessionID))
      && (c.sessionID != "" && c.subject != "" ==>
            !(SamePlace(c, clientID, id) && id.sessionID == c.sessionID && id.subject == c.subject))
      && (c.sessionID == "" ==> !(SamePlace(c, clientID, id) && id.subject == c.subject && id.issuedAt <= c.issuedAt))
  {
    LoggedOutStaysOut(states, ops, i, j, k);
  }

  // ---------------------------------------------------------------- repeats and capacity

  predicate NoNul(s: string) {
    '\0' !in s
  }

  lemma CutSame(a: string, x: string, b: string, y: string)
    requires NoNul(a) && NoNul(b) && a + "\0" + x == b + "\0" + y
    ensures a == b && x == y
  {
    CutAfter(a, "\0", x);
    CutAfter(b, "\0", y);
    var s, t := a + "\0" + x, b + "\0" + y;
    assert s[..|a|] == a && t[..|b|] == b;
    assert s[|a| + 1..] == x && t[|b| + 1..] == y;
  }

  lemma KeysTell(e: LogoutEvent, f: LogoutEvent)
    requires NoNul(e.issuer) && NoNul(e.clientID) && NoNul(f.issuer) && NoNul(f.clientID)
    ensures e.Key() == f.Key() <==> e.issuer == f.issuer && e.clientID == f.clientID && e.jwtID == f.jwtID
  {
    var a, b := e.clientID + "\0" + e.jwtID, f.clientID + "\0" + f.jwtID;
    assert e.Key() == e.issuer + "\0" + a && f.Key() == f.issuer + "\0" + b;
    if e.Key() == f.Key() {
      CutSame(e.issuer, a, f.issuer, b);
      CutSame(e.clientID, e.jwtID, f.clientID, f.jwtID);
    }
  }

  ghost predicate Plain(events: Events) {
    forall k :: k in events ==> NoNul(events[k].issuer) && NoNul(events[k].clientID)
  }

  /** A token is a repeat exactly when one of its issuer, client and token ID is still retained. (Issuer and client
      hold no NUL, which is what the record's keys are joined with.) */
  lemma RepeatIff(events: Events, c: LogoutClaims, clientID: string, now: int, saved: bool)
    requires Keyed(events) && Plain(events) && NoNul(c.issuer) && NoNul(clientID)
    ensures Verdict(events, EventOf(c, clientID), now, saved) == Err(Replayed)
       <==> exists k :: k in events && Retained(events[k], c, clientID, now)
  {
    var e := EventOf(c, clientID);
    forall k | k in events ensures Retained(events[k], c, clientID, now) <==> k == e.Key() && now <= events[k].retainUntil {
      KeysTell(events[k], e);
    }
    if e.Key() in Unexpired(events, now) {
      assert Retained(events[e.Key()], c, clientID, now);
    }
  }

  predicate Retained(e: LogoutEvent, c: LogoutClaims, clientID: string, now: int) {
    e.issuer == c.issuer && e.clientID == clientID && e.jwtID == c.jwtID && now <= e.retainUntil
  }

  /** Of the tokens that are no repeat, one is refused for room when 4096 are retained, and otherwise only when it
      cannot be written; an accepted one is recorded as it is, until its replay time. */
  lemma AcceptedIff(events: Events, c: LogoutClaims, clientID: string, now: int, saved: bool)
    requires Verdict(events, EventOf(c, clientID), now, saved) != Err(Replayed)
    ensures var full := |set k | k in events && now <= events[k].retainUntil| >= 4096;
      Verdict(events, EventOf(c, clientID), now, saved)
      == if full then Err(AtCapacity) else if !saved then Err(NotSaved)
         else Ok(LogoutEvent(c.issuer, clientID, c.jwtID, c.subject, c.sessionID, c.issuedAt, c.replayUntil))
  {
    var kept := Unexpired(events, now);
    assert kept.Keys == set k | k in events && now <= events[k].retainUntil;
    assert |kept| == |kept.Keys|;
  }

  /** Whatever the answer, expired events go and the rest stay; only an accepted token is added. */
  lemma RetainedAfter(events: Events, c: LogoutClaims, clientID: string, now: int, saved: bool, k: string)
    ensures var e := EventOf(c, clientID);
      var after := Admitted(events, e, now, saved);
      var accepted := Verdict(events, e, now, saved).Ok?;
      && (k in after <==> (k in events && now <= events[k].retainUntil) || (accepted && k == e.Key()))
      && (k in after ==> after[k] == if accepted && k == e.Key() then e else events[k])
  {
  }

  // ---------------------------------------------------------------- the codes of logged-out users

  /** A logout cancels every code of the users whose sessions it ended and leaves everybody else's. */
  lemma LogoutCancelsCodes(b: Book, sessions: Sessions, e: LogoutEvent, code: string)
    requires Paired(b) && code in b.codes
    ensures var ended := exists k :: k in sessions && k !in Unmatched(sessions, e) && sessions[k].userID == b.codes[code].userID;
      code !in Without(b, PinsOfAny(b, MatchedUsers(sessions, e))).codes <==> ended
  {
    var p, users := b.codes[code], MatchedUsers(sessions, e);
    var gone := PinsOfAny(b, users);
    if p.userID in users {
      assert p.pin in gone && b.pins[p.pin].secret == code;
    }
    if code in SecretsUnder(b, gone) {
      var pin :| pin in gone && pin in b.pins && b.pins[pin].secret == code;
      assert b.codes[b.pins[pin].secret] == b.pins[pin];
    }
  }
}
