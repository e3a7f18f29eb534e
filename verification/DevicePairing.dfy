/** Registered devices and the short-lived codes that pair new ones. */
module DevicePairing {
  import opened Outcomes
  import opened LogoutFence

  datatype Device = Device(id: string, userID: string)

  /** What a code carries from the session that issued it; no issuing device means a browser session. */
  datatype Origin = Origin(sso: Identity, issuerDeviceID: string)

  datatype Pairing = Pairing(pin: string, userID: string, secret: string, expiresAt: int, origin: Origin)

  /** The three maps of the store: devices by ID, and each outstanding pairing by PIN and by secret. */
  datatype Book = Book(devices: map<string, Device>, pins: map<string, Pairing>, codes: map<string, Pairing>)

  datatype PairError = PairingExpired | DeviceNotSaved

  const PAIRING_SECONDS := 90

  function SecretsUnder(b: Book, pins: set<string>): set<string> {
    set p | p in pins && p in b.pins :: b.pins[p].secret
  }

  /** The book after the entries under these PINs have been deleted, each with the secret it names. */
  function Without(b: Book, pins: set<string>): Book {
    b.(pins := b.pins - pins, codes := b.codes - SecretsUnder(b, pins))
  }

  function Expired(b: Book, now: int): set<string> {
    set p | p in b.pins && now > b.pins[p].expiresAt
  }

  function PinsOf(b: Book, userID: string): set<string> {
    set p | p in b.pins && b.pins[p].userID == userID
  }

  function Created(b: Book, session: Pairing, prunedAt: int): Book {
    var kept := Without(b, Expired(b, prunedAt));
    kept.(pins := kept.pins[session.pin := session], codes := kept.codes[session.secret := session])
  }

  /** A presented code of six characters is a PIN, any other is a secret. */
  function Presented(b: Book, code: string): Option<Pairing> {
    if |code| == 6 then
      if code in b.pins then Some(b.pins[code]) else None
    else if code in b.codes then Some(b.codes[code]) else None
  }

  function RedeemVerdict(b: Book, code: string, deviceID: string, now: int, saved: bool): Result<(Device, Origin), PairError> {
    var p := Presented(b, code);
    if p.None? || now > p.value.expiresAt then Err(PairingExpired)
    else if !saved then Err(DeviceNotSaved)
    else Ok((Device(deviceID, p.value.userID), p.value.origin))
  }

  /** The code is spent even when the new device cannot be saved. */
  function RedeemedBook(b: Book, code: string, deviceID: string, now: int, saved: bool): Book {
    var p := Presented(b, code);
    if p.None? || now > p.value.expiresAt then b
    else
      Book(if saved then b.devices[deviceID := Device(deviceID, p.value.userID)] else b.devices - {deviceID},
           b.pins - {p.value.pin}, b.codes - {p.value.secret})
  }

  function RevokedBook(b: Book, deviceID: string): Book {
    b.(devices := b.devices - {deviceID})
  }

  function DevicesOf(b: Book, userID: string): set<string> {
    set d | d in b.devices && b.devices[d].userID == userID
  }

  class Store {
    var devices: map<string, Device>
    var pairingPINs: map<string, Pairing>
    var pairingCodes: map<string, Pairing>
    var file: map<string, Device>

    ghost function Value(): Book
      reads this
    {
      Book(devices, pairingPINs, pairingCodes)
    }

    /** Codes are never on disk: a restart forgets them all. */
    constructor (stored: map<string, Device>)
      ensures Value() == Book(stored, map[], map[]) && file == stored
    {
      devices, pairingPINs, pairingCodes, file := stored, map[], map[], stored;
    }

    method CreatePairingSession(userID: string, origin: Origin, pin: string, secret: string, prunedAt: int, issuedAt: int)
      returns (session: Pairing)
      modifies this
      ensures session == Pairing(pin, userID, secret, issuedAt + PAIRING_SECONDS, origin)
      ensures Value() == Created(old(Value()), session, prunedAt) && file == old(file)
    {
      ghost var was := Value();
      var todo := pairingPINs.Keys;
      ghost var gone: set<string> := {};
      while todo != {}
        invariant todo <= was.pins.Keys && file == old(file)
        invariant gone == Expired(was, prunedAt) - todo
        invariant Value() == Without(was, gone)
        decreases todo
      {
        var p :| p in todo;
        todo := todo - {p};
        var other := pairingPINs[p];
        if prunedAt > other.expiresAt {
          DeleteOne(was, gone, p);
          pairingPINs := pairingPINs - {p};
          pairingCodes := pairingCodes - {other.secret};
          gone := gone + {p};
        }
      }
      assert gone == Expired(was, prunedAt);
      session := Pairing(pin, userID, secret, issuedAt + PAIRING_SECONDS, origin);
      pairingPINs := pairingPINs[pin := session];
      pairingCodes := pairingCodes[secret := session];
    }

    method RedeemPairing(code: string, deviceID: string, now: int, saved: bool) returns (r: Result<(Device, Origin), PairError>)
      modifies this
      ensures r == RedeemVerdict(old(Value()), code, deviceID, now, saved)
      ensures Value() == RedeemedBook(old(Value()), code, deviceID, now, saved)
      ensures file == if r.Ok? then devices else old(file)
    {
      var session := None;
      if |code| == 6 {
        if code in pairingPINs { session := Some(pairingPINs[code]); }
      } else {
        if code in pairingCodes { session := Some(pairingCodes[code]); }
      }
      if session.None? || now > session.value.expiresAt {
        return Err(PairingExpired);
      }
      pairingPINs := pairingPINs - {session.value.pin};
      pairingCodes := pairingCodes - {session.value.secret};
      var device := Device(deviceID, session.value.userID);
      devices := devices[deviceID := device];
      if !saved {
        devices := devices - {deviceID};
        return Err(DeviceNotSaved);
      }
      file := devices;
      return Ok((device, session.value.origin));
    }

    /** The device is gone from memory even when the file still lists it. */
    method Revoke(deviceID: string, saved: bool) returns (found: bool)
      modifies this
      ensures found == (deviceID in old(devices))
      ensures Value() == RevokedBook(old(Value()), deviceID)
      ensures file == if found && saved then devices else old(file)
    {
      if deviceID !in devices {
        return false;
      }
      devices := devices - {deviceID};
      if saved {
        file := devices;
      }
      return true;
    }

    method CancelUserPairings(userID: string)
      modifies this
      ensures Value() == Without(old(Value()), PinsOf(old(Value()), userID)) && file == old(file)
    {
      ghost var was := Value();
      var todo := pairingPINs.Keys;
      ghost var gone: set<string> := {};
      while todo != {}
        invariant todo <= was.pins.Keys && file == old(file)
        invariant gone == PinsOf(was, userID) - todo
        invariant Value() == Without(was, gone)
        decreases todo
      {
        var p :| p in todo;
        todo := todo - {p};
        var pairing := pairingPINs[p];
        if pairing.userID == userID {
          DeleteOne(was, gone, p);
          pairingPINs := pairingPINs - {p};
          pairingCodes := pairingCodes - {pairing.secret};
          gone := gone + {p};
        }
      }
      assert gone == PinsOf(was, userID);
    }

    method ListUserDevices(userID: string) returns (ids: set<string>)
      ensures ids == DevicesOf(Value(), userID)
    {
      ids := set d | d in devices && devices[d].userID == userID;
    }
  }

  lemma DeleteOne(b: Book, gone: set<string>, p: string)
    requires p in b.pins && p !in gone
    ensures var after := Without(b, gone);
      Without(b, gone + {p}) == after.(pins := after.pins - {p}, codes := after.codes - {b.pins[p].secret})
  {
  }

  // ---------------------------------------------------------------- PINs and secrets name the same pairings

  /** Every pairing is filed under its own PIN and under its own secret. */
  predicate Paired(b: Book) {
    && (forall p :: p in b.pins ==> b.pins[p].pin == p && b.pins[p].secret in b.codes && b.codes[b.pins[p].secret] == b.pins[p])
    && (forall c :: c in b.codes ==> b.codes[c].secret == c && b.codes[c].pin in b.pins && b.pins[b.codes[c].pin] == b.codes[c])
  }

  function CodesOf(b: Book, userID: string): set<string> {
    set c | c in b.codes && b.codes[c].userID == userID
  }

  lemma WithoutKeepsPaired(b: Book, gone: set<string>)
    requires Paired(b)
    ensures Paired(Without(b, gone))
  {
  }

  /** A new code keeps the two maps in step exactly when its PIN is not outstanding: on a clash the older
      pairing loses its PIN but keeps its secret. */
  lemma CreateKeepsPairedIff(b: Book, session: Pairing, prunedAt: int)
    requires Paired(b) && session.secret !in b.codes
    ensures Paired(Created(b, session, prunedAt)) <==> session.pin !in Without(b, Expired(b, prunedAt)).pins
  {
    var kept := Without(b, Expired(b, prunedAt));
    var after := Created(b, session, prunedAt);
    WithoutKeepsPaired(b, Expired(b, prunedAt));
    if session.pin in kept.pins {
      var c := kept.pins[session.pin].secret;
      assert c in after.codes && after.codes[c].pin == session.pin && after.pins[session.pin] == session;
    }
  }

  /** Cancelling a user's pairings leaves none of their codes exactly when each of them is filed under a PIN
      of theirs. */
  lemma CancelLeavesNoneIff(b: Book, userID: string)
    ensures CodesOf(Without(b, PinsOf(b, userID)), userID) == {}
       <==> forall c :: c in CodesOf(b, userID) ==> c in SecretsUnder(b, PinsOf(b, userID))
  {
    var after := Without(b, PinsOf(b, userID));
    forall c | c in CodesOf(b, userID) && c !in SecretsUnder(b, PinsOf(b, userID))
      ensures c in CodesOf(after, userID)
    {
    }
    if CodesOf(after, userID) != {} {
      var c :| c in CodesOf(after, userID);
      assert c in CodesOf(b, userID) && c !in SecretsUnder(b, PinsOf(b, userID));
    }
  }

  lemma CancelLeavesNone(b: Book, userID: string)
    requires Paired(b)
    ensures CodesOf(Without(b, PinsOf(b, userID)), userID) == {}
  {
  }

  /** Two codes with one PIN: the first survives the cancellation of its user. */
  lemma SharedPinOutlivesCancel(sso: Identity)
    ensures var origin := Origin(sso, "");
      var first, second := Pairing("000000", "u", "s1", 90, origin), Pairing("000000", "u", "s2", 90, origin);
      var b := Created(Created(Book(map[], map[], map[]), first, 0), second, 0);
      CodesOf(Without(b, PinsOf(b, "u")), "u") == {"s1"}
  {
    var origin := Origin(sso, "");
    var first, second := Pairing("000000", "u", "s1", 90, origin), Pairing("000000", "u", "s2", 90, origin);
    var b := Created(Created(Book(map[], map[], map[]), first, 0), second, 0);
    assert PinsOf(b, "u") == {"000000"};
    assert b.pins["000000"] == second;
    assert SecretsUnder(b, {"000000"}) == {"s2"};
    assert "s1" != "s2" && b.codes.Keys == {"s1", "s2"} by {
      assert "s1"[1] != "s2"[1];
    }
  }
}
