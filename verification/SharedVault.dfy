/** Membership of a shared vault: rows, their states, and the operations that change them.

    Each operation is a function from a record to the record it leaves (or the refusal),
    and a method of `Store` that performs it step by step and is proved equal to that function.
    What the operations keep over every run is proved in `SharedVaultRuns`. */
module SharedVault {
  import opened Outcomes

  type UserId = string
  type Time = int

  const MAX_MEMBERS := 100
  const SEALED_KEY_BYTES := 1120 + 32 + 16

  datatype Role = Owner | Editor | Reader
  datatype State = Invited | Active | Stale | Suspended
  datatype Reason = Removed | Left | Declined

  datatype Error =
    | NotFound | NotMember | AlreadyMember | LastOwner | MemberCap
    | Shape | Corrupt | WrongState | Forbidden | WrongEpoch

  /** A sealed copy of the vault key: opaque, except for the length its base64 decodes to
      (None when it does not decode). */
  datatype SealedKey = SealedKey(copy: nat, decodedBytes: Option<nat>)

  datatype SealedFor = SealedFor(userId: UserId, sealedKey: SealedKey, keyFingerprint: string)

  datatype Member = Member(
    role: Role,
    state: State,
    suspendedFrom: Option<State>,
    sealedKey: SealedKey,
    sealedBy: UserId,
    sealedByFingerprint: string,
    keyFingerprint: string,
    keyEpoch: int,
    addedAt: Time,
    acceptedAt: Option<Time>)

  datatype Pending = Pending(since: Time, userId: UserId, reason: Reason)

  datatype Vault = Vault(
    id: string,
    keyEpoch: int,
    members: map<UserId, Member>,
    deletedAt: Option<Time>,
    rotationPending: Option<Pending>)

  predicate ValidSealedKey(k: SealedKey) {
    k.decodedBytes == Some(SEALED_KEY_BYTES)
  }

  predicate IdChar(c: char) {
    'A' <= c <= 'Z' || 'a' <= c <= 'z' || '0' <= c <= '9' || c == '_' || c == '-'
  }

  predicate ValidId(id: string) {
    |id| == 25 && id[..3] == "sv_" && forall i :: 3 <= i < 25 ==> IdChar(id[i])
  }

  predicate ValidSuspendedFrom(m: Member) {
    if m.state != Suspended then m.suspendedFrom == None
    else m.suspendedFrom in {Some(Invited), Some(Active), Some(Stale)}
  }

  /** What a record must satisfy to be read back; anything else is refused as corrupt. */
  ghost predicate Loadable(id: string, v: Vault) {
    && v.id == id
    && (forall u :: u in v.members ==> ValidSuspendedFrom(v.members[u]))
    && (v.rotationPending.Some? ==> v.rotationPending.value.userId != "")
  }

  function FreshState(m: Member): State {
    if m.acceptedAt.Some? then Active else Invited
  }

  function LandOn(m: Member, s: State): Member {
    if m.state == Suspended then m.(suspendedFrom := Some(s)) else m.(state := s)
  }

  predicate IsActiveOwner(m: Member) {
    m.role == Owner && m.state == Active
  }

  ghost function ActiveOwners(v: Vault): set<UserId> {
    set u | u in v.members && IsActiveOwner(v.members[u])
  }

  /** None when actor may manage the vault; "" is an administrator. */
  function Authorize(v: Vault, actor: UserId): Option<Error> {
    if actor == "" then None
    else if actor !in v.members then Some(NotMember)
    else if !IsActiveOwner(v.members[actor]) then Some(Forbidden)
    else None
  }

  // ---------------------------------------------------------------- operations

  datatype Op =
    | Invite(user: UserId, role: Role, sealed: SealedKey, fingerprint: string, sealer: UserId, sealerFp: string, now: Time)
    | Reseal(user: UserId, sealed: SealedKey, fingerprint: string, sealer: UserId, sealerFp: string)
    | SetRole(actor: UserId, user: UserId, role: Role)
    | Accept(user: UserId, now: Time)
    | Remove(actor: UserId, user: UserId, now: Time)
    | Rotate(actor: UserId, epoch: int, copies: seq<SealedFor>)
    | Suspend(user: UserId)
    | Resume(user: UserId)
    | MarkStale(user: UserId, current: string)

  /** Refusals decided before the record is read. */
  function ShapeRefusal(op: Op): Option<Error> {
    if (op.Invite? || op.Reseal?) && !ValidSealedKey(op.sealed) then Some(Shape) else None
  }

  function PutRow(v: Vault, user: UserId, m: Member): Vault {
    v.(members := v.members[user := m])
  }

  function InvitedRow(v: Vault, op: Op): Member
    requires op.Invite?
  {
    Member(op.role, Invited, None, op.sealed, op.sealer, op.sealerFp, op.fingerprint, v.keyEpoch, op.now, None)
  }

  function ResealedRow(v: Vault, m: Member, op: Op): Member
    requires op.Reseal?
  {
    var m' := m.(sealedKey := op.sealed, keyFingerprint := op.fingerprint, sealedBy := op.sealer,
                 sealedByFingerprint := op.sealerFp, keyEpoch := v.keyEpoch);
    LandOn(m', FreshState(m'))
  }

  predicate IsSelfReseal(op: Op)
    requires op.Reseal?
  {
    op.sealer != "" && op.sealer == op.user
  }

  ghost function ResealRefusal(v: Vault, op: Op): Option<Error>
    requires op.Reseal?
  {
    var actor := if IsSelfReseal(op) then "" else op.sealer;
    if Authorize(v, actor).Some? then Authorize(v, actor)
    else if op.user !in v.members then Some(NotMember)
    else if IsSelfReseal(op) && v.members[op.user].keyEpoch != v.keyEpoch then Some(WrongEpoch)
    else if IsSelfReseal(op) && v.members[op.user].state != Stale then Authorize(v, op.sealer)
    else None
  }

  /** True when taking the active-owner standing away from user would leave nobody holding it. */
  ghost predicate IsLastOwner(v: Vault, user: UserId)
    requires user in v.members
  {
    IsActiveOwner(v.members[user]) && |ActiveOwners(v)| == 1
  }

  function DepartureReason(op: Op, m: Member): Reason
    requires op.Remove?
  {
    if op.actor != op.user then Removed else if m.state == Invited then Declined else Left
  }

  ghost function Named(copies: seq<SealedFor>): set<UserId> {
    set i | 0 <= i < |copies| :: copies[i].userId
  }

  ghost predicate CopiesOk(v: Vault, copies: seq<SealedFor>) {
    forall i :: 0 <= i < |copies| ==>
      copies[i].userId in v.members && ValidSealedKey(copies[i].sealedKey) && copies[i].keyFingerprint != ""
  }

  /** The active owners a rotation sealing for named would leave. */
  ghost function PostRotationOwners(v: Vault, named: set<UserId>): set<UserId> {
    set u | u in v.members && u in named && v.members[u].role == Owner
         && v.members[u].state != Suspended && FreshState(v.members[u]) == Active
  }

  ghost function RotateRefusal(v: Vault, op: Op): Option<Error>
    requires op.Rotate?
  {
    if Authorize(v, op.actor).Some? then Authorize(v, op.actor)
    else if |ActiveOwners(v)| == 0 then Some(WrongState)
    else if v.keyEpoch != op.epoch then Some(WrongEpoch)
    else if !CopiesOk(v, op.copies) then Some(Shape)
    else if op.actor !in Named(op.copies) then Some(Shape)
    else if |PostRotationOwners(v, Named(op.copies))| == 0 then Some(LastOwner)
    else None
  }

  /** The row a fresh copy of the next key leaves; the last copy named for a user wins. */
  function SealedRow(m: Member, c: SealedFor, actor: UserId, actorFp: string, next: int): Member {
    var m' := m.(sealedKey := c.sealedKey, keyFingerprint := c.keyFingerprint,
                 sealedBy := actor, sealedByFingerprint := actorFp, keyEpoch := next);
    LandOn(m', FreshState(m'))
  }

  function LastCopy(copies: seq<SealedFor>, user: UserId): (c: SealedFor)
    requires exists i :: 0 <= i < |copies| && copies[i].userId == user
    ensures c.userId == user && c in copies
  {
    if copies[|copies| - 1].userId == user then copies[|copies| - 1]
    else LastCopy(copies[..|copies| - 1], user)
  }

  ghost function RowAfterCopies(m: Member, copies: seq<SealedFor>, user: UserId, actor: UserId, actorFp: string, next: int): Member {
    if user in Named(copies) then SealedRow(m, LastCopy(copies, user), actor, actorFp, next) else m
  }

  ghost function RotatedRow(v: Vault, op: Op, user: UserId): Member
    requires op.Rotate? && op.actor in v.members && user in v.members
  {
    if user in Named(op.copies)
    then RowAfterCopies(v.members[user], op.copies, user, op.actor, v.members[op.actor].keyFingerprint, v.keyEpoch + 1)
    else LandOn(v.members[user], Stale)
  }

  ghost function Rotated(v: Vault, op: Op): Vault
    requires op.Rotate? && op.actor in v.members
  {
    v.(members := map u | u in v.members :: RotatedRow(v, op, u),
       keyEpoch := v.keyEpoch + 1,
       rotationPending := None)
  }

  function SuspendedRow(m: Member): Member {
    if m.state == Suspended then m else m.(suspendedFrom := Some(m.state), state := Suspended)
  }

  function ResumedRow(m: Member): Member {
    if m.state != Suspended then m
    else m.(state := if m.suspendedFrom == None then FreshState(m) else m.suspendedFrom.value, suspendedFrom := None)
  }

  function MarkedRow(m: Member, current: string): Member {
    if m.keyFingerprint == current || m.state == Stale then m else LandOn(m, Stale)
  }

  ghost function Apply(v: Vault, op: Op): Result<Vault, Error> {
    match op
    case Invite(user, _, _, _, sealer, _, _) =>
      if Authorize(v, sealer).Some? then Err(Authorize(v, sealer).value)
      else if user in v.members then Err(AlreadyMember)
      else if |v.members| >= MAX_MEMBERS then Err(MemberCap)
      else Ok(PutRow(v, user, InvitedRow(v, op)))
    case Reseal(user, _, _, _, _) =>
      if ResealRefusal(v, op).Some? then Err(ResealRefusal(v, op).value)
      else Ok(PutRow(v, user, ResealedRow(v, v.members[user], op)))
    case SetRole(actor, user, role) =>
      if Authorize(v, actor).Some? then Err(Authorize(v, actor).value)
      else if user !in v.members then Err(NotMember)
      else if role != Owner && IsLastOwner(v, user) then Err(LastOwner)
      else Ok(PutRow(v, user, v.members[user].(role := role)))
    case Accept(user, now) =>
      if user !in v.members then Err(NotMember)
      else if v.members[user].state != Invited then Err(WrongState)
      else if |ActiveOwners(v)| == 0 then Err(WrongState)
      else Ok(PutRow(v, user, v.members[user].(state := Active, acceptedAt := Some(now))))
    case Remove(actor, user, now) =>
      var auth := Authorize(v, if actor == user then "" else actor);
      if auth.Some? then Err(auth.value)
      else if user !in v.members then Err(NotMember)
      else if actor != "" && IsLastOwner(v, user) then Err(LastOwner)
      else Ok(v.(members := v.members - {user},
                 rotationPending := Some(Pending(now, user, DepartureReason(op, v.members[user])))))
    case Rotate(actor, _, _) =>
      if RotateRefusal(v, op).Some? then Err(RotateRefusal(v, op).value)
      else Ok(Rotated(v, op))
    case Suspend(_) => Ok(SweptVault(v, op))
    case Resume(_) => Ok(SweptVault(v, op))
    case MarkStale(_, _) => Ok(SweptVault(v, op))
  }

  predicate IsSweep(op: Op) {
    op.Suspend? || op.Resume? || op.MarkStale?
  }

  function SweptRow(m: Member, op: Op): Member
    requires IsSweep(op)
  {
    match op
    case Suspend(_) => SuspendedRow(m)
    case Resume(_) => ResumedRow(m)
    case MarkStale(_, current) => MarkedRow(m, current)
  }

  function SweptVault(v: Vault, op: Op): Vault
    requires IsSweep(op)
  {
    if op.user in v.members then PutRow(v, op.user, SweptRow(v.members[op.user], op)) else v
  }

  // ---------------------------------------------------------------- the store

  type Records = map<string, Vault>

  ghost function Loaded(records: Records, id: string): Result<Vault, Error> {
    if !ValidId(id) || id !in records then Err(NotFound)
    else if !Loadable(id, records[id]) then Err(Corrupt)
    else Ok(records[id])
  }

  datatype Answer = Done | Refused(error: Error)

  /** An operation on the record named id: its answer, and the records it leaves. */
  ghost function After(records: Records, id: string, op: Op): (Answer, Records) {
    if ShapeRefusal(op).Some? then (Refused(ShapeRefusal(op).value), records)
    else match Loaded(records, id)
      case Err(e) => (Refused(e), records)
      case Ok(v) =>
        match Apply(v, op)
        case Err(e) => (Refused(e), records)
        case Ok(v') => (Done, records[id := v'])
  }

  /** An operation swept over every readable record, as suspension and stale-marking are. */
  ghost function Swept(records: Records, op: Op): Records
    requires IsSweep(op)
  {
    map id | id in records :: SweptRecord(id, records[id], op)
  }

  ghost function SweptRecord(id: string, v: Vault, op: Op): Vault
    requires IsSweep(op)
  {
    if ValidId(id) && Loadable(id, v) then SweptVault(v, op) else v
  }

  /** Whether a sweep changes this row, and so saves its record. */
  predicate ChangesRow(m: Member, op: Op)
    requires IsSweep(op)
  {
    match op
    case Suspend(_) => m.state != Suspended
    case Resume(_) => m.state == Suspended
    case MarkStale(_, current) => m.keyFingerprint != current && m.state != Stale
  }

  ghost predicate Touches(id: string, v: Vault, op: Op)
    requires IsSweep(op)
  {
    ValidId(id) && Loadable(id, v) && op.user in v.members && ChangesRow(v.members[op.user], op)
  }

  ghost function SweptPart(records: Records, op: Op, touched: set<string>): Records
    requires IsSweep(op)
  {
    map id | id in records :: if id in touched then SweptRecord(id, records[id], op) else records[id]
  }

  lemma SweptOneMore(records: Records, op: Op, touched: set<string>, id: string, v: Vault)
    requires IsSweep(op) && id in records && Touches(id, records[id], op) && v == SweptVault(records[id], op)
    ensures SweptPart(records, op, touched + {id}) == SweptPart(records, op, touched)[id := v]
  {
  }

  lemma SweptInFull(records: Records, op: Op, touched: set<string>)
    requires IsSweep(op)
    requires forall id :: id in records && Touches(id, records[id], op) ==> id in touched
    ensures SweptPart(records, op, touched) == Swept(records, op)
  {
    forall id | id in records && id !in touched ensures SweptRecord(id, records[id], op) == records[id] {
      var v := records[id];
      if op.user in v.members && ValidId(id) && Loadable(id, v) {
        assert v.members[op.user := v.members[op.user]] == v.members;
      }
    }
  }

  /** A sweep over every readable record, ended by the first save that fails: it fails exactly when a record it
      must save is stuck, and has then swept some of the others. */
  ghost predicate SweepEnds(before: Records, op: Op, stuck: set<string>, touched: set<string>, failed: bool, after: Records)
    requires IsSweep(op)
  {
    && (failed <==> exists id :: id in stuck && id in before && Touches(id, before[id], op))
    && (forall id :: id in touched ==> id in before && Touches(id, before[id], op) && id !in stuck)
    && after == SweptPart(before, op, touched)
    && (!failed ==> after == Swept(before, op) && forall id :: id in before && Touches(id, before[id], op) ==> id in touched)
  }

  method CheckRecord(id: string, v: Vault) returns (readable: bool)
    ensures readable <==> Loadable(id, v)
  {
    if v.id != id {
      return false;
    }
    var todo := v.members.Keys;
    while todo != {}
      invariant todo <= v.members.Keys
      invariant forall u :: u in v.members && u !in todo ==> ValidSuspendedFrom(v.members[u])
      decreases |todo|
    {
      var u :| u in todo;
      if !ValidSuspendedFrom(v.members[u]) {
        return false;
      }
      todo := todo - {u};
    }
    return !(v.rotationPending.Some? && v.rotationPending.value.userId == "");
  }

  class Store {
    var records: Records

    constructor ()
      ensures records == map[]
    {
      records := map[];
    }

    method Load(id: string) returns (r: Result<Vault, Error>)
      ensures r == Loaded(records, id)
    {
      if !ValidId(id) || id !in records {
        return Err(NotFound);
      }
      var readable := CheckRecord(id, records[id]);
      r := if readable then Ok(records[id]) else Err(Corrupt);
    }

    method CountActiveOwners(v: Vault) returns (n: nat)
      ensures n == |ActiveOwners(v)|
    {
      n := 0;
      var todo := v.members.Keys;
      ghost var found: set<UserId> := {};
      while todo != {}
        invariant todo <= v.members.Keys
        invariant found == set u | u in v.members && u !in todo && IsActiveOwner(v.members[u])
        invariant n == |found|
        decreases |todo|
      {
        var u :| u in todo;
        if IsActiveOwner(v.members[u]) {
          n := n + 1;
          found := found + {u};
        }
        todo := todo - {u};
      }
      assert found == ActiveOwners(v);
    }

    method CountPostRotationOwners(v: Vault, named: set<UserId>) returns (n: nat)
      ensures n == |PostRotationOwners(v, named)|
    {
      n := 0;
      var todo := v.members.Keys;
      ghost var found: set<UserId> := {};
      while todo != {}
        invariant todo <= v.members.Keys
        invariant found == set u | u in PostRotationOwners(v, named) && u !in todo
        invariant n == |found|
        decreases |todo|
      {
        var u :| u in todo;
        var m := v.members[u];
        if u in named && m.role == Owner && m.state != Suspended && FreshState(m) == Active {
          n := n + 1;
          found := found + {u};
        }
        todo := todo - {u};
      }
      assert found == PostRotationOwners(v, named);
    }

    method Invite(id: string, user: UserId, role: Role, sealed: SealedKey, fingerprint: string,
                  sealer: UserId, sealerFp: string, now: Time) returns (r: Answer)
      modifies this
      ensures (r, records) == After(old(records), id, Op.Invite(user, role, sealed, fingerprint, sealer, sealerFp, now))
    {
      if !ValidSealedKey(sealed) {
        return Refused(Shape);
      }
      var loaded := Load(id);
      if loaded.Err? {
        return Refused(loaded.error);
      }
      var v := loaded.value;
      var auth := Authorize(v, sealer);
      if auth.Some? {
        return Refused(auth.value);
      }
      if user in v.members {
        return Refused(AlreadyMember);
      }
      if |v.members| >= MAX_MEMBERS {
        return Refused(MemberCap);
      }
      var m := Member(role, Invited, None, sealed, sealer, sealerFp, fingerprint, v.keyEpoch, now, None);
      v := v.(members := v.members[user := m]);
      records := records[id := v];
      return Done;
    }

    method Reseal(id: string, user: UserId, sealed: SealedKey, fingerprint: string,
                  sealer: UserId, sealerFp: string) returns (r: Answer)
      modifies this
      ensures (r, records) == After(old(records), id, Op.Reseal(user, sealed, fingerprint, sealer, sealerFp))
    {
      if !ValidSealedKey(sealed) {
        return Refused(Shape);
      }
      var self := sealer != "" && sealer == user;
      var actor := if self then "" else sealer;
      var loaded := Load(id);
      if loaded.Err? {
        return Refused(loaded.error);
      }
      var v := loaded.value;
      var auth := Authorize(v, actor);
      if auth.Some? {
        return Refused(auth.value);
      }
      if user !in v.members {
        return Refused(NotMember);
      }
      var m := v.members[user];
      if self {
        if m.keyEpoch != v.keyEpoch {
          return Refused(WrongEpoch);
        }
        if m.state != Stale {
          auth := Authorize(v, sealer);
          if auth.Some? {
            return Refused(auth.value);
          }
        }
      }
      m := m.(sealedKey := sealed, keyFingerprint := fingerprint, sealedBy := sealer,
              sealedByFingerprint := sealerFp, keyEpoch := v.keyEpoch);
      v := v.(members := v.members[user := LandOn(m, FreshState(m))]);
      records := records[id := v];
      return Done;
    }

    method SetRole(id: string, actor: UserId, user: UserId, role: Role) returns (r: Answer)
      modifies this
      ensures (r, records) == After(old(records), id, Op.SetRole(actor, user, role))
    {
      var loaded := Load(id);
      if loaded.Err? {
        return Refused(loaded.error);
      }
      var v := loaded.value;
      var auth := Authorize(v, actor);
      if auth.Some? {
        return Refused(auth.value);
      }
      if user !in v.members {
        return Refused(NotMember);
      }
      var m := v.members[user];
      var owners := CountActiveOwners(v);
      if m.role == Owner && role != Owner && m.state == Active && owners == 1 {
        return Refused(LastOwner);
      }
      m := m.(role := role);
      v := v.(members := v.members[user := m]);
      records := records[id := v];
      return Done;
    }

    method Accept(id: string, user: UserId, now: Time) returns (r: Answer)
      modifies this
      ensures (r, records) == After(old(records), id, Op.Accept(user, now))
    {
      var loaded := Load(id);
      if loaded.Err? {
        return Refused(loaded.error);
      }
      var v := loaded.value;
      if user !in v.members {
        return Refused(NotMember);
      }
      var m := v.members[user];
      if m.state != Invited {
        return Refused(WrongState);
      }
      var owners := CountActiveOwners(v);
      if owners == 0 {
        return Refused(WrongState);
      }
      m := m.(state := Active, acceptedAt := Some(now));
      v := v.(members := v.members[user := m]);
      records := records[id := v];
      return Done;
    }

    method Remove(id: string, actor: UserId, user: UserId, now: Time) returns (r: Answer)
      modifies this
      ensures (r, records) == After(old(records), id, Op.Remove(actor, user, now))
    {
      var authActor := if actor == user then "" else actor;
      var loaded := Load(id);
      if loaded.Err? {
        return Refused(loaded.error);
      }
      var v := loaded.value;
      var auth := Authorize(v, authActor);
      if auth.Some? {
        return Refused(auth.value);
      }
      if user !in v.members {
        return Refused(NotMember);
      }
      var m := v.members[user];
      var owners := CountActiveOwners(v);
      if actor != "" && m.role == Owner && m.state == Active && owners == 1 {
        return Refused(LastOwner);
      }
      v := v.(members := v.members - {user});
      var reason := Removed;
      if actor == user {
        reason := Left;
        if m.state == Invited {
          reason := Declined;
        }
      }
      v := v.(rotationPending := Some(Pending(now, user, reason)));
      records := records[id := v];
      return Done;
    }

    /** The checks a rotation makes before its caller's steps run. */
    method PrepareRotation(id: string, actor: UserId, epoch: int, copies: seq<SealedFor>)
      returns (r: Result<Vault, Error>)
      ensures match Loaded(records, id)
              case Err(e) => r == Err(e)
              case Ok(v) => r == match RotateRefusal(v, Op.Rotate(actor, epoch, copies))
                                 case Some(e) => Err(e)
                                 case None => Ok(v)
    {
      var loaded := Load(id);
      if loaded.Err? {
        return loaded;
      }
      var v := loaded.value;
      var auth := Authorize(v, actor);
      if auth.Some? {
        return Err(auth.value);
      }
      var owners := CountActiveOwners(v);
      if owners == 0 {
        return Err(WrongState);
      }
      if v.keyEpoch != epoch {
        return Err(WrongEpoch);
      }
      var named: set<UserId> := {};
      for i := 0 to |copies|
        invariant named == Named(copies[..i])
        invariant CopiesOk(v, copies[..i])
      {
        var c := copies[i];
        if c.userId !in v.members || !ValidSealedKey(c.sealedKey) || c.keyFingerprint == "" {
          assert !CopiesOk(v, copies);
          return Err(Shape);
        }
        NamedExtends(copies, i);
        named := named + {c.userId};
      }
      assert copies[..|copies|] == copies;
      if actor !in named {
        return Err(Shape);
      }
      var left := CountPostRotationOwners(v, named);
      if left == 0 {
        return Err(LastOwner);
      }
      return Ok(v);
    }

    /** Moves every row the rotation sealed onto its fresh copy. */
    method SealNamed(v: Vault, actor: UserId, copies: seq<SealedFor>) returns (rows: map<UserId, Member>, named: set<UserId>)
      requires actor in v.members && CopiesOk(v, copies)
      ensures named == Named(copies) && rows.Keys == v.members.Keys
      ensures forall u :: u in rows ==>
        rows[u] == RowAfterCopies(v.members[u], copies, u, actor, v.members[actor].keyFingerprint, v.keyEpoch + 1)
    {
      var actorFp := v.members[actor].keyFingerprint;
      var next := v.keyEpoch + 1;
      rows := v.members;
      named := {};
      for i := 0 to |copies|
        invariant rows.Keys == v.members.Keys
        invariant named == Named(copies[..i])
        invariant forall u :: u in rows ==> rows[u] == RowAfterCopies(v.members[u], copies[..i], u, actor, actorFp, next)
      {
        var c := copies[i];
        NamedExtends(copies, i);
        forall u | u in rows
          ensures RowAfterCopies(v.members[u], copies[..i + 1], u, actor, actorFp, next)
               == if u == c.userId then SealedRow(rows[u], c, actor, actorFp, next) else rows[u]
        {
          RowAfterOneMore(v.members[u], copies, i, u, actor, actorFp, next);
        }
        var m := SealRow(rows[c.userId], c, actor, actorFp, next);
        rows := rows[c.userId := m];
        named := named + {c.userId};
      }
      assert copies[..|copies|] == copies;
    }

    method SealRow(row: Member, c: SealedFor, actor: UserId, actorFp: string, next: int) returns (m: Member)
      ensures m == SealedRow(row, c, actor, actorFp, next)
    {
      m := row.(sealedKey := c.sealedKey, keyFingerprint := c.keyFingerprint);
      m := m.(sealedBy := actor, sealedByFingerprint := actorFp);
      m := m.(keyEpoch := next);
      m := LandOn(m, FreshState(m));
    }

    /** Every row not named goes stale. */
    method LeaveBehind(sealed: map<UserId, Member>, named: set<UserId>) returns (rows: map<UserId, Member>)
      ensures rows == map u | u in sealed :: if u in named then sealed[u] else LandOn(sealed[u], Stale)
    {
      rows := sealed;
      var todo := rows.Keys;
      while todo != {}
        invariant todo <= rows.Keys == sealed.Keys
        invariant forall u :: u in rows ==> rows[u] == if u in todo || u in named then sealed[u] else LandOn(sealed[u], Stale)
        decreases |todo|
      {
        var u :| u in todo;
        if u !in named {
          rows := rows[u := LandOn(rows[u], Stale)];
        }
        todo := todo - {u};
      }
    }

    /** The record a rotation commits once its ciphertext is written. */
    method CommitRotation(v: Vault, actor: UserId, epoch: int, copies: seq<SealedFor>) returns (v': Vault)
      requires RotateRefusal(v, Op.Rotate(actor, epoch, copies)) == None
      modifies this
      ensures v' == Rotated(v, Op.Rotate(actor, epoch, copies))
      ensures records == old(records)[v.id := v']
    {
      ghost var op := Op.Rotate(actor, epoch, copies);
      var sealed, named := SealNamed(v, actor, copies);
      var rows := LeaveBehind(sealed, named);
      v' := v.(members := rows, keyEpoch := v.keyEpoch + 1, rotationPending := None);
      assert v'.members == Rotated(v, op).members;
      records := records[v.id := v'];
    }

    /** Suspends (or resumes) user in every readable record, up to the first record that cannot be saved:
        those in stuck. */
    method SetSuspended(user: UserId, suspended: bool, stuck: set<string>) returns (touched: set<string>, failed: bool)
      modifies this
      ensures var op := if suspended then Op.Suspend(user) else Op.Resume(user);
        SweepEnds(old(records), op, stuck, touched, failed, records)
    {
      ghost var op := if suspended then Op.Suspend(user) else Op.Resume(user);
      ghost var before := records;
      var todo := records.Keys;
      touched := {};
      while todo != {}
        invariant todo <= before.Keys
        invariant records == SweptPart(before, op, touched)
        invariant forall id :: id in touched <==> id in before && id !in todo && Touches(id, before[id], op)
        invariant touched !! stuck
        decreases |todo|
      {
        var id :| id in todo;
        var loaded := Load(id);
        if loaded.Ok? && user in loaded.value.members && (loaded.value.members[user].state == Suspended) != suspended {
          var v := loaded.value;
          if id in stuck {
            return touched, true;
          }
          var m := SetRowSuspended(v.members[user], suspended);
          v := v.(members := v.members[user := m]);
          SweptOneMore(before, op, touched, id, v);
          records := records[id := v];
          touched := touched + {id};
        }
        todo := todo - {id};
      }
      SweptInFull(before, op, touched);
      failed := false;
    }

    method SetRowSuspended(row: Member, suspended: bool) returns (m: Member)
      ensures m == if suspended then SuspendedRow(row) else ResumedRow(row)
    {
      m := row;
      if suspended && m.state != Suspended {
        m := m.(suspendedFrom := Some(m.state), state := Suspended);
      } else if !suspended && m.state == Suspended {
        if m.suspendedFrom == None {
          m := m.(state := FreshState(m));
        } else {
          m := m.(state := m.suspendedFrom.value);
        }
        m := m.(suspendedFrom := None);
      }
    }

    /** Marks stale every row of user sealed to another key than the current one, up to a record that cannot
        be saved. */
    method MarkStale(user: UserId, current: string, stuck: set<string>) returns (touched: set<string>, failed: bool)
      modifies this
      ensures SweepEnds(old(records), Op.MarkStale(user, current), stuck, touched, failed, records)
    {
      ghost var op := Op.MarkStale(user, current);
      ghost var before := records;
      var todo := records.Keys;
      touched := {};
      while todo != {}
        invariant todo <= before.Keys
        invariant records == SweptPart(before, op, touched)
        invariant forall id :: id in touched <==> id in before && id !in todo && Touches(id, before[id], op)
        invariant touched !! stuck
        decreases |todo|
      {
        var id :| id in todo;
        var loaded := Load(id);
        if loaded.Ok? && user in loaded.value.members {
          var v := loaded.value;
          var m := v.members[user];
          if m.keyFingerprint != current && m.state != Stale {
            if id in stuck {
              return touched, true;
            }
            v := v.(members := v.members[user := LandOn(m, Stale)]);
            SweptOneMore(before, op, touched, id, v);
            records := records[id := v];
            touched := touched + {id};
          }
        }
        todo := todo - {id};
      }
      SweptInFull(before, op, touched);
      failed := false;
    }
  }

  lemma NamedExtends(copies: seq<SealedFor>, i: nat)
    requires i < |copies|
    ensures Named(copies[..i + 1]) == Named(copies[..i]) + {copies[i].userId}
  {
  }

  lemma RowAfterOneMore(m: Member, copies: seq<SealedFor>, i: nat, u: UserId, actor: UserId, actorFp: string, next: int)
    requires i < |copies|
    ensures RowAfterCopies(m, copies[..i + 1], u, actor, actorFp, next)
         == if u == copies[i].userId
            then SealedRow(RowAfterCopies(m, copies[..i], u, actor, actorFp, next), copies[i], actor, actorFp, next)
            else RowAfterCopies(m, copies[..i], u, actor, actorFp, next)
  {
    NamedExtends(copies, i);
    assert copies[..i + 1][..i] == copies[..i];
  }
}
