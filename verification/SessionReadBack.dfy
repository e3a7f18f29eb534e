/** A run in which a revoked device that a restart read back vouches for a new one: neither write of the
    revocation reached the disk. */
module SessionReadBack {
  import opened Outcomes
  import opened LogoutFence
  import opened DevicePairing
  import opened SessionServer
  import opened SessionRuns
  import opened SessionSafety

  const SSO := Identity("issuer", "client", "subject", "", 0)

  const START := Sys(0, map[], map[], Book(map[], map[], map[]), map[], map[], map[], Free, {}, map[], {}, {}, map[], {}, {})

  /** Nothing logged, nothing locked, no code outstanding. */
  predicate Idle(s: Sys) {
    s.clock == 0 && s.lock.Free? && s.events == map[] && s.eventsFile == map[] && s.book.pins == map[] && s.book.codes == map[]
  }

  predicate Chain(states: seq<Sys>, ops: seq<Op>) {
    |states| == |ops| + 1 && forall i :: 0 <= i < |ops| ==> Stepped(states, ops, i)
  }

  lemma Joined(states: seq<Sys>, ops: seq<Op>, more: seq<Sys>, others: seq<Op>)
    requires Chain(states, ops) && Chain(more, others) && states[|ops|] == more[0]
    ensures Chain(states + more[1..], ops + others)
  {
    var all, run := states + more[1..], ops + others;
    forall i | 0 <= i < |run| ensures Stepped(all, run, i) {
      if i < |ops| {
        assert Stepped(states, ops, i);
      } else {
        assert Stepped(more, others, i - |ops|);
      }
    }
  }

  predicate LiveOn(sessions: Sessions, key: string, deviceID: string) {
    key in sessions && sessions[key].sso == SSO && sessions[key].deviceID == deviceID && sessions[key].expiresAt > 0
  }

  /** A device is paired from a live session: read, issue, redeem, mint. */
  lemma PairVia(s: Sys, from: string, issuer: string, secret: string, d: string, key: string) returns (states: seq<Sys>, ops: seq<Op>)
    requires Idle(s) && LiveOn(s.sessions, from, issuer) && (issuer == "" || issuer in s.book.devices)
    requires secret !in s.owners && |secret| != 6 && d != "" && d !in s.usedDevices
    ensures Chain(states, ops) && |ops| == 4 && states[0] == s
    ensures Stepped(states, ops, 3) && Mints(states[3], ops[3])
    ensures ops[3].deviceID == d && states[3].flight[d].origin.issuerDeviceID == issuer
    ensures var after := states[4];
      && Idle(after) && after.owners.Keys == s.owners.Keys + {secret} && after.usedDevices == s.usedDevices + {d}
      && d in after.book.devices && d in after.deviceFile
      && LiveOn(after.sessions, key, d) && after.sessionsFile == after.sessions
  {
    var flown;
    flown, ops := FlyVia(s, from, issuer, secret, d);
    var s3 := flown[3];
    var mint := Mint(d, key, "id", true, 0, 0, true);
    assert MintRefusal(s3, mint).None?;
    var s4 := Next(s3, mint);
    Joined(flown, ops, [s3, s4], [mint]);
    states, ops := flown + [s4], ops + [mint];
    assert [s3, s4][1..] == [s4];
  }

  /** Up to the redeem: the device is registered and not yet minted. */
  lemma FlyVia(s: Sys, from: string, issuer: string, secret: string, d: string) returns (states: seq<Sys>, ops: seq<Op>)
    requires Idle(s) && LiveOn(s.sessions, from, issuer) && secret !in s.owners && |secret| != 6 && d != "" && d !in s.usedDevices
    ensures Chain(states, ops) && |ops| == 3 && states[0] == s
    ensures var after := states[3];
      && Idle(after) && after.owners.Keys == s.owners.Keys + {secret} && after.usedDevices == s.usedDevices + {d}
      && d in after.flight && after.flight[d].origin == Origin(SSO, issuer)
      && after.book.devices.Keys == s.book.devices.Keys + {d} && after.deviceFile == after.book.devices
  {
    var issued, first := CodeVia(s, from, issuer, secret);
    var s2 := issued[2];
    var redeem := Redeem(secret, d, 0, true);
    var s3 := Next(s2, redeem);
    assert s3.book.pins == map[] && s3.book.codes == map[];
    Joined(issued, first, [s2, s3], [redeem]);
    assert [s2, s3][1..] == [s3];
    states, ops := issued + [s3], first + [redeem];
  }

  /** The only code outstanding, issued from a live session. */
  predicate OnlyCode(b: Book, secret: string, origin: Origin) {
    && secret in b.codes && b.codes.Keys == {secret} && b.pins.Keys == {b.codes[secret].pin}
    && b.codes[secret].secret == secret && b.codes[secret].origin == origin && b.codes[secret].expiresAt > 0
  }

  lemma CodeVia(s: Sys, from: string, issuer: string, secret: string) returns (states: seq<Sys>, ops: seq<Op>)
    requires Idle(s) && LiveOn(s.sessions, from, issuer) && secret !in s.owners
    ensures Chain(states, ops) && |ops| == 2 && states[0] == s
    ensures var after := states[2];
      && after.clock == 0 && after.lock.Free? && after.events == map[] && after.eventsFile == map[]
      && after.owners.Keys == s.owners.Keys + {secret} && after.usedDevices == s.usedDevices
      && after.book.devices == s.book.devices && OnlyCode(after.book, secret, Origin(SSO, issuer))
  {
    var read := ReadSession(from, 0);
    var s1 := Next(s, read);
    var create := CreateCode(Start(s.sessions[from].userID, Origin(SSO, issuer)), "pin", secret, 0, 0);
    assert Expired(s1.book, 0) == {} && Without(s1.book, {}) == s1.book;
    states, ops := [s, s1, Next(s1, create)], [read, create];
  }

  lemma LoginRun() returns (states: seq<Sys>, ops: seq<Op>)
    ensures Chain(states, ops) && |ops| == 1 && states[0] == START
    ensures var s := states[1]; Idle(s) && LiveOn(s.sessions, "browser", "") && s.owners == map[] && s.usedDevices == {}
  {
    var login := Login("browser", "id", "user", true, SSO, 0, true);
    assert Enabled(START, login);
    states, ops := [START, Next(START, login)], [login];
  }

  /** Neither file is written, and the server restarts. */
  lemma LostRevocation(s: Sys, d: string, key: string) returns (states: seq<Sys>, ops: seq<Op>)
    requires Idle(s) && d != "" && d in s.book.devices && d in s.deviceFile && LiveOn(s.sessions, key, d) && s.sessionsFile == s.sessions
    ensures Chain(states, ops) && ops == [RevokeDevice(d, false, false), Restart(0)] && states[0] == s
    ensures var after := states[2];
      && Idle(after) && after.owners == s.owners && after.usedDevices == s.usedDevices
      && d in after.book.devices && LiveOn(after.sessions, key, d)
  {
    var revoke := RevokeDevice(d, false, false);
    var s1 := Next(s, revoke);
    assert s1.deviceFile == s.deviceFile && s1.sessionsFile == s.sessionsFile;
    states, ops := [s, s1, Next(s1, Restart(0))], [revoke, Restart(0)];
  }

  /** The sixth step revokes a device, the eleventh mints a session for which it vouched. */
  lemma RevokedDeviceVouches() returns (states: seq<Sys>, ops: seq<Op>)
    ensures Run(states, ops) && |ops| == 11
    ensures Revokes(states[5], ops[5], "laptop")
    ensures Stepped(states, ops, 10) && Mints(states[10], ops[10]) && states[10].flight[ops[10].deviceID].origin.issuerDeviceID == "laptop"
  {
    states, ops := LoginRun();
    var more, others := PairVia(states[1], "browser", "", "first code", "laptop", "laptop key");
    Joined(states, ops, more, others);
    states, ops := states + more[1..], ops + others;
    more, others := LostRevocation(states[5], "laptop", "laptop key");
    Joined(states, ops, more, others);
    states, ops := states + more[1..], ops + others;
    assert "second code" != "first code" && "phone" != "laptop" by {
      assert |"second code"| != |"first code"| && |"phone"| != |"laptop"|;
    }
    more, others := PairVia(states[7], "laptop key", "laptop", "second code", "phone", "phone key");
    Joined(states, ops, more, others);
    states, ops := states + more[1..], ops + others;
  }
}
