/** What membership operations keep, over every sequence of them. */
module SharedVaultRuns {
  import opened Outcomes
  import opened SharedVault

  /** A record beside what the server itself cannot see: who was ever handed a copy of the
      current epoch's key, and who was last to depart since the last rotation. */
  datatype Run = Run(v: Vault, handed: set<UserId>, departed: Option<UserId>)

  function Created(id: string, owner: UserId, sealed: SealedKey, fingerprint: string, now: Time): Run {
    var row := Member(Owner, Active, None, sealed, owner, fingerprint, fingerprint, 1, now, Some(now));
    Run(Vault(id, 1, map[owner := row], None, None), {owner}, None)
  }

  ghost predicate Succeeds(v: Vault, op: Op) {
    ShapeRefusal(op) == None && Apply(v, op).Ok?
  }

  ghost function Step(r: Run, op: Op): Run {
    if !Succeeds(r.v, op) then r
    else
      var v' := Apply(r.v, op).value;
      match op
      case Invite(user, _, _, _, _, _, _) => Run(v', r.handed + {user}, r.departed)
      case Reseal(user, _, _, _, _) => Run(v', r.handed + {user}, r.departed)
      case Remove(_, user, _) => Run(v', r.handed, Some(user))
      case Rotate(_, _, copies) => Run(v', Named(copies), None)
      case _ => Run(v', r.handed, r.departed)
  }

  ghost function Exec(r: Run, ops: seq<Op>): Run {
    if ops == [] then r else Step(Exec(r, ops[..|ops| - 1]), ops[|ops| - 1])
  }

  // ------------------------------------------------- who holds the current key

  /** While no rotation is pending every holder of the current key is a member, and a
      rotation is pending exactly when somebody departed since the last one. */
  ghost predicate HoldersAccounted(r: Run) {
    && (r.v.rotationPending == None ==> r.handed <= r.v.members.Keys)
    && (r.v.rotationPending.Some? <==> r.departed.Some?)
    && (r.departed.Some? ==> r.v.rotationPending.value.userId == r.departed.value)
  }

  lemma HoldersAccountedStep(r: Run, op: Op)
    requires HoldersAccounted(r)
    ensures HoldersAccounted(Step(r, op))
  {
  }

  lemma {:induction false} HoldersAccountedAlways(id: string, owner: UserId, sealed: SealedKey, fp: string, now: Time, ops: seq<Op>)
    ensures HoldersAccounted(Exec(Created(id, owner, sealed, fp, now), ops))
  {
    if ops != [] {
      HoldersAccountedAlways(id, owner, sealed, fp, now, ops[..|ops| - 1]);
      HoldersAccountedStep(Exec(Created(id, owner, sealed, fp, now), ops[..|ops| - 1]), ops[|ops| - 1]);
    }
  }

  // ------------------------------------------------- the rows

  /** The state a row has, or will resume to. */
  function Effective(m: Member): State {
    if m.state == Suspended && m.suspendedFrom.Some? then m.suspendedFrom.value else m.state
  }

  ghost predicate RowOk(m: Member, epoch: int) {
    && ValidSuspendedFrom(m)
    && m.keyEpoch <= epoch
    && (Effective(m) in {Invited, Active} ==> m.keyEpoch == epoch)
    && (Effective(m) == Active ==> m.acceptedAt.Some?)
    && (Effective(m) == Invited ==> m.acceptedAt == None)
  }

  ghost predicate RowsOk(v: Vault) {
    forall u :: u in v.members ==> RowOk(v.members[u], v.keyEpoch)
  }

  lemma RotatedRowOk(v: Vault, op: Op, u: UserId)
    requires op.Rotate? && op.actor in v.members && u in v.members && RowOk(v.members[u], v.keyEpoch)
    ensures RowOk(RotatedRow(v, op, u), v.keyEpoch + 1)
  {
  }

  lemma RowsOkStep(v: Vault, op: Op)
    requires RowsOk(v) && Succeeds(v, op)
    ensures RowsOk(Apply(v, op).value)
  {
    if op.Rotate? {
      forall u | u in v.members ensures RowOk(RotatedRow(v, op, u), v.keyEpoch + 1) {
        RotatedRowOk(v, op, u);
      }
    }
  }

  lemma {:induction false} RowsOkAlways(id: string, owner: UserId, sealed: SealedKey, fp: string, now: Time, ops: seq<Op>)
    ensures RowsOk(Exec(Created(id, owner, sealed, fp, now), ops).v)
  {
    if ops != [] {
      RowsOkAlways(id, owner, sealed, fp, now, ops[..|ops| - 1]);
      var r := Exec(Created(id, owner, sealed, fp, now), ops[..|ops| - 1]);
      if Succeeds(r.v, ops[|ops| - 1]) {
        RowsOkStep(r.v, ops[|ops| - 1]);
      }
    }
  }

  /** What a rotation leaves on every row: a named row holds one of its copies at the next
      epoch and comes back as a re-seal would; any other row keeps its old copy and is stale. */
  lemma RotationRows(v: Vault, op: Op, u: UserId)
    requires op.Rotate? && Succeeds(v, op) && u in v.members && ValidSuspendedFrom(v.members[u])
    ensures var m, m' := v.members[u], Apply(v, op).value.members[u];
      && m'.role == m.role && m'.acceptedAt == m.acceptedAt && m'.addedAt == m.addedAt
      && (m'.state == Suspended <==> m.state == Suspended)
      && (u in Named(op.copies) ==>
            && (exists c :: c in op.copies && c.userId == u && m'.sealedKey == c.sealedKey && m'.keyFingerprint == c.keyFingerprint)
            && m'.sealedBy == op.actor && m'.sealedByFingerprint == v.members[op.actor].keyFingerprint
            && m'.keyEpoch == op.epoch + 1
            && Effective(m') == (if m.acceptedAt.Some? then Active else Invited))
      && (u !in Named(op.copies) ==>
            && m'.sealedKey == m.sealedKey && m'.keyFingerprint == m.keyFingerprint && m'.keyEpoch == m.keyEpoch
            && Effective(m') == Stale)
  {
  }

  // ------------------------------------------------- the cap

  lemma MembersBoundedStep(v: Vault, op: Op)
    requires |v.members| <= MAX_MEMBERS && Succeeds(v, op)
    ensures |Apply(v, op).value.members| <= MAX_MEMBERS
  {
    var after := Apply(v, op).value.members;
    if op.Rotate? {
      assert after.Keys == v.members.Keys;
    } else if op.Remove? {
      assert after.Keys == v.members.Keys - {op.user};
    } else if op.user in v.members {
      assert after.Keys == v.members.Keys;
    }
  }

  /** A vault never has more than 100 members. */
  lemma {:induction false} MembersBoundedAlways(id: string, owner: UserId, sealed: SealedKey, fp: string, now: Time, ops: seq<Op>)
    ensures |Exec(Created(id, owner, sealed, fp, now), ops).v.members| <= MAX_MEMBERS
  {
    if ops != [] {
      MembersBoundedAlways(id, owner, sealed, fp, now, ops[..|ops| - 1]);
      var r := Exec(Created(id, owner, sealed, fp, now), ops[..|ops| - 1]);
      if Succeeds(r.v, ops[|ops| - 1]) {
        MembersBoundedStep(r.v, ops[|ops| - 1]);
      }
    }
  }

  // ------------------------------------------------- suspension commutes

  /** Suspending a row before a rotation, a re-seal or a stale-marking by somebody else, and
      resuming it after, leaves the record the operation alone would have left. */
  lemma SuspensionCommutes(v: Vault, op: Op, user: UserId)
    requires op.Rotate? || op.Reseal? || op.MarkStale?
    requires user in v.members && v.members[user].state != Suspended && ValidSuspendedFrom(v.members[user])
    requires Succeeds(v, op) && Succeeds(SweptVault(v, Suspend(user)), op)
    ensures SweptVault(Apply(SweptVault(v, Suspend(user)), op).value, Resume(user)) == Apply(v, op).value
  {
    if op.Rotate? {
      SuspensionCommutesWithRotation(v, op, user);
    } else {
      SuspensionCommutesWithRow(v, op, user);
    }
  }

  lemma SuspensionCommutesWithRow(v: Vault, op: Op, user: UserId)
    requires op.Reseal? || op.MarkStale?
    requires user in v.members && v.members[user].state != Suspended && ValidSuspendedFrom(v.members[user])
    requires Succeeds(v, op) && Succeeds(SweptVault(v, Suspend(user)), op)
    ensures SweptVault(Apply(SweptVault(v, Suspend(user)), op).value, Resume(user)) == Apply(v, op).value
  {
  }

  lemma SuspensionCommutesWithRotation(v: Vault, op: Op, user: UserId)
    requires op.Rotate? && op.actor in v.members
    requires user in v.members && v.members[user].state != Suspended && ValidSuspendedFrom(v.members[user])
    ensures op.actor in SweptVault(v, Suspend(user)).members
    ensures SweptVault(Rotated(SweptVault(v, Suspend(user)), op), Resume(user)) == Rotated(v, op)
  {
  }

  /** A member's suspension never makes somebody else's rotation or re-seal fail. */
  lemma SuspensionNeverBlocks(v: Vault, op: Op, user: UserId)
    requires RowsOk(v) && Succeeds(v, op)
    requires user in v.members && v.members[user].state != Suspended
    requires op.MarkStale? || (op.Rotate? && op.actor !in {"", user}) || (op.Reseal? && op.sealer != user)
    ensures Succeeds(SweptVault(v, Suspend(user)), op)
  {
    var w := SweptVault(v, Suspend(user));
    if op.Rotate? {
      assert op.actor in ActiveOwners(w);
      assert op.actor in PostRotationOwners(w, Named(op.copies));
      CopiesOkFor(v, w, op.copies);
    }
  }

  lemma CopiesOkFor(v: Vault, w: Vault, copies: seq<SealedFor>)
    requires v.members.Keys <= w.members.Keys && CopiesOk(v, copies)
    ensures CopiesOk(w, copies)
  {
  }

  // ------------------------------------------------- owners

  /** The active owners after a rotation are exactly those predicted before it. */
  lemma RotationLeavesPredictedOwners(v: Vault, op: Op)
    requires op.Rotate? && Succeeds(v, op)
    ensures ActiveOwners(Apply(v, op).value) == PostRotationOwners(v, Named(op.copies))
    ensures ActiveOwners(Apply(v, op).value) != {}
  {
  }

  /** On a record whose rows are sound, exactly these conditions let a member rotate; in
      particular the last-owner refusal is unreachable, and the actor stays an active owner. */
  lemma MemberRotationSucceedsIff(v: Vault, op: Op)
    requires RowsOk(v) && op.Rotate? && op.actor != ""
    ensures Succeeds(v, op) <==>
      op.actor in ActiveOwners(v) && v.keyEpoch == op.epoch && CopiesOk(v, op.copies) && op.actor in Named(op.copies)
    ensures Apply(v, op) != Err(LastOwner)
    ensures Succeeds(v, op) ==> op.actor in ActiveOwners(Apply(v, op).value)
  {
    if op.actor in ActiveOwners(v) {
      assert |ActiveOwners(v)| != 0;
      if op.actor in Named(op.copies) {
        assert op.actor in PostRotationOwners(v, Named(op.copies));
        if Succeeds(v, op) {
          RotationLeavesPredictedOwners(v, op);
        }
      }
    }
  }

  /** Operations a member performs; an administrator's actor is "". */
  predicate ByMember(op: Op) {
    match op
    case Invite(_, _, _, _, sealer, _, _) => sealer != ""
    case Reseal(_, _, _, sealer, _) => sealer != ""
    case SetRole(actor, _, _) => actor != ""
    case Accept(user, _) => true
    case Remove(actor, _, _) => actor != ""
    case Rotate(actor, _, _) => actor != ""
    case _ => false
  }

  lemma AnotherOwner(owners: set<UserId>, o: UserId) returns (other: UserId)
    requires o in owners && |owners| != 1
    ensures other in owners && other != o
  {
    assert owners - {o} != {} by {
      assert |owners - {o}| == |owners| - 1;
    }
    other :| other in owners - {o};
  }

  lemma OwnerSurvives(v: Vault, op: Op)
    requires RowsOk(v) && ByMember(op) && ActiveOwners(v) != {} && Succeeds(v, op)
    ensures ActiveOwners(Apply(v, op).value) != {}
  {
    if op.Rotate? {
      RotationLeavesPredictedOwners(v, op);
    } else {
      var after := Apply(v, op).value;
      var o :| o in ActiveOwners(v);
      if o !in ActiveOwners(after) {
        assert o == op.user && (op.SetRole? || op.Remove?);
        assert |ActiveOwners(v)| != 1;
        var o' := AnotherOwner(ActiveOwners(v), o);
        assert o' in ActiveOwners(after);
      }
    }
  }

  /** No sequence of members' operations takes a vault from an active owner to none. */
  lemma {:induction false} OwnerSurvivesAlways(r: Run, ops: seq<Op>)
    requires RowsOk(r.v) && ActiveOwners(r.v) != {}
    requires forall i :: 0 <= i < |ops| ==> ByMember(ops[i])
    ensures RowsOk(Exec(r, ops).v) && ActiveOwners(Exec(r, ops).v) != {}
  {
    if ops != [] {
      var front, last := ops[..|ops| - 1], ops[|ops| - 1];
      OwnerSurvivesAlways(r, front);
      if Succeeds(Exec(r, front).v, last) {
        RowsOkStep(Exec(r, front).v, last);
        OwnerSurvives(Exec(r, front).v, last);
      }
    }
  }

  // ------------------------------------------------- records stay readable

  /** An operation leaves a readable record unreadable exactly when it removes a row whose
      user id is empty: the departure it records then names nobody. */
  lemma StaysReadable(v: Vault, op: Op)
    requires Loadable(v.id, v) && Succeeds(v, op)
    ensures Loadable(v.id, Apply(v, op).value) <==> !(op.Remove? && op.user == "")
  {
  }
}
