/** The record of accepted back-channel logout tokens, and the fence it puts before every login.
    The tokens are those of OpenID Connect Back-Channel Logout 1.0, sections 2.4 to 2.7. */
module LogoutFence {
  import opened Outcomes

  /** What a sign-on proved, kept on every session it produced. */
  datatype Identity = Identity(issuer: string, clientID: string, subject: string, sessionID: string, issuedAt: int) {
    predicate Revocable() {
      issuer != "" && clientID != "" && subject != ""
    }
  }

  /** A verified logout token, before it is admitted. */
  datatype LogoutClaims = LogoutClaims(
    issuer: string, jwtID: string, subject: string, sessionID: string, issuedAt: int, replayUntil: int)

  datatype LogoutEvent = LogoutEvent(
    issuer: string, clientID: string, jwtID: string, subject: string, sessionID: string,
    issuedAt: int, retainUntil: int)
  {
    /** The named session, or every session of the subject issued no later than the logout. */
    predicate Matches(id: Identity) {
      if id.subject == "" || id.issuer != issuer || id.clientID != clientID then false
      else if sessionID != "" then id.sessionID == sessionID && (subject == "" || id.subject == subject)
      else id.subject == subject && id.issuedAt <= issuedAt
    }

    function Key(): string {
      issuer + "\0" + clientID + "\0" + jwtID
    }
  }

  type Events = map<string, LogoutEvent>

  datatype AdmitError = Replayed | AtCapacity | NotSaved

  const CAPACITY := 4096

  function EventOf(c: LogoutClaims, clientID: string): LogoutEvent {
    LogoutEvent(c.issuer, clientID, c.jwtID, c.subject, c.sessionID, c.issuedAt, c.replayUntil)
  }

  predicate Keyed(events: Events) {
    forall k :: k in events ==> events[k].Key() == k
  }

  function Unexpired(events: Events, now: int): Events {
    map k | k in events && now <= events[k].retainUntil :: events[k]
  }

  function Verdict(events: Events, e: LogoutEvent, now: int, saved: bool): Result<LogoutEvent, AdmitError> {
    var kept := Unexpired(events, now);
    if e.Key() in kept then Err(Replayed)
    else if |kept| >= CAPACITY then Err(AtCapacity)
    else if !saved then Err(NotSaved)
    else Ok(e)
  }

  /** The events retained after an admission that was tried at now. */
  function Admitted(events: Events, e: LogoutEvent, now: int, saved: bool): Events {
    var kept := Unexpired(events, now);
    if Verdict(events, e, now, saved).Ok? then kept[e.Key() := e] else kept
  }

  predicate FencedBy(events: Events, id: Identity, now: int) {
    exists k :: k in events && now <= events[k].retainUntil && events[k].Matches(id)
  }

  /** The map a list of events loads into: a later event replaces an earlier one under the same key. */
  function Indexed(list: seq<LogoutEvent>): Events {
    if list == [] then map[]
    else
      var n := |list| - 1;
      Indexed(list[..n])[list[n].Key() := list[n]]
  }

  lemma {:induction false} IndexedKeyed(list: seq<LogoutEvent>)
    ensures Keyed(Indexed(list))
  {
    if list != [] {
      IndexedKeyed(list[..|list| - 1]);
    }
  }

  lemma IndexedExtends(list: seq<LogoutEvent>, e: LogoutEvent)
    ensures Indexed(list + [e]) == Indexed(list)[e.Key() := e]
  {
  }

  /** The list written to the file, in whatever order the map gives: loading it gives the map back. */
  method ListOf(events: Events) returns (list: seq<LogoutEvent>)
    requires Keyed(events)
    ensures Indexed(list) == events
  {
    list := [];
    var todo := events.Keys;
    while todo != {}
      invariant todo <= events.Keys
      invariant Indexed(list) == map k | k in events && k !in todo :: events[k]
      decreases todo
    {
      var k :| k in todo;
      todo := todo - {k};
      IndexedExtends(list, events[k]);
      list := list + [events[k]];
    }
  }

  class LogoutLog {
    var events: Events
    var file: seq<LogoutEvent>

    ghost predicate Valid()
      reads this
    {
      Keyed(events)
    }

    /** A missing file holds no events. */
    constructor (stored: seq<LogoutEvent>)
      ensures Valid() && events == Indexed(stored) && file == stored
    {
      var loaded: Events := map[];
      for i := 0 to |stored|
        invariant loaded == Indexed(stored[..i])
      {
        assert stored[..i + 1] == stored[..i] + [stored[i]];
        IndexedExtends(stored[..i], stored[i]);
        loaded := loaded[stored[i].Key() := stored[i]];
      }
      assert stored[..|stored|] == stored;
      IndexedKeyed(stored);
      events := loaded;
      file := stored;
    }

    /** Nothing is recorded unless the write reaches the disk: saved says whether it does. */
    method Admit(c: LogoutClaims, clientID: string, now: int, saved: bool)
      returns (r: Result<LogoutEvent, AdmitError>)
      requires Valid()
      modifies this
      ensures Valid()
      ensures r == Verdict(old(events), EventOf(c, clientID), now, saved)
      ensures events == Admitted(old(events), EventOf(c, clientID), now, saved)
      ensures if r.Ok? then Indexed(file) == events else file == old(file)
    {
      var e := EventOf(c, clientID);
      var todo := events.Keys;
      while todo != {}
        invariant todo <= old(events).Keys && file == old(file)
        invariant events == map k | k in old(events) && (k in todo || now <= old(events)[k].retainUntil) :: old(events)[k]
        decreases todo
      {
        var k :| k in todo;
        todo := todo - {k};
        if now > events[k].retainUntil {
          events := events - {k};
        }
      }
      assert events == Unexpired(old(events), now);
      if e.Key() in events {
        return Err(Replayed);
      }
      if |events| >= CAPACITY {
        return Err(AtCapacity);
      }
      ghost var kept := events;
      events := events[e.Key() := e];
      if !saved {
        events := events - {e.Key()};
        assert events == kept;
        return Err(NotSaved);
      }
      file := ListOf(events);
      return Ok(e);
    }

    method Fenced(id: Identity, now: int) returns (fenced: bool)
      ensures fenced <==> FencedBy(events, id, now)
    {
      var todo := events.Keys;
      while todo != {}
        invariant todo <= events.Keys
        invariant forall k :: k in events && k !in todo ==> !(now <= events[k].retainUntil && events[k].Matches(id))
        decreases todo
      {
        var k :| k in todo;
        if now <= events[k].retainUntil && events[k].Matches(id) {
          return true;
        }
        todo := todo - {k};
      }
      return false;
    }
  }

  /** One admission after another: a token admitted once is refused until its retention has passed. */
  lemma RefusedWhileRetained(events: Events, e: LogoutEvent, first: int, saved: bool, again: LogoutEvent, now: int, savedAgain: bool)
    requires Verdict(events, e, first, saved).Ok? && again.Key() == e.Key()
    ensures Verdict(Admitted(events, e, first, saved), again, now, savedAgain) == Err(Replayed) <==> now <= e.retainUntil
  {
  }
}
