/** What each membership operation asks for and what it leaves, in the record's own fields; and, over runs, where
    the role, the sealed copy and the acceptance of every row come from. */
module SharedVaultLaws {
  import opened Outcomes
  import opened SharedVault
  import opened SharedVaultRuns

  predicate ActiveOwnerIn(v: Vault, u: UserId) {
    u in v.members && v.members[u].role == Owner && v.members[u].state == Active
  }

  /** An administrator, or a member with the standing to manage the vault. */
  predicate Manages(v: Vault, actor: UserId) {
    actor == "" || ActiveOwnerIn(v, actor)
  }

  /** Some active owner other than u. */
  ghost predicate AnotherActiveOwner(v: Vault, u: UserId) {
    exists o :: o != u && ActiveOwnerIn(v, o)
  }

  ghost predicate SomeActiveOwner(v: Vault) {
    exists o :: ActiveOwnerIn(v, o)
  }

  lemma Single(owners: set<UserId>, u: UserId)
    requires u in owners
    ensures |owners| == 1 <==> forall o :: o in owners ==> o == u
  {
    assert |owners| == |owners - {u}| + 1;
    if forall o :: o in owners ==> o == u {
      assert owners == {u};
    }
  }

  lemma LastOwnerIff(v: Vault, u: UserId)
    requires u in v.members
    ensures IsLastOwner(v, u) <==> ActiveOwnerIn(v, u) && !AnotherActiveOwner(v, u)
  {
    if ActiveOwnerIn(v, u) {
      Single(ActiveOwners(v), u);
      assert forall o :: o in ActiveOwners(v) <==> ActiveOwnerIn(v, o);
    }
  }

  lemma NoOwnersIff(v: Vault)
    ensures |ActiveOwners(v)| == 0 <==> !SomeActiveOwner(v)
  {
    assert forall o :: o in ActiveOwners(v) <==> ActiveOwnerIn(v, o);
    if |ActiveOwners(v)| != 0 {
      var o :| o in ActiveOwners(v);
    }
  }

  // ------------------------------------------------- what each operation asks for

  /** Someone without the standing is told so; a stranger only that they are not a member. */
  function NoStanding(v: Vault, actor: UserId): Error {
    if actor in v.members then Forbidden else NotMember
  }

  /** An invitation succeeds exactly when the copy has the length of a sealed key, its sealer manages the vault, the
      user is not in it, and it has room. */
  lemma InviteIff(v: Vault, op: Op)
    requires op.Invite?
    ensures Succeeds(v, op) <==>
      op.sealed.decodedBytes == Some(1168) && Manages(v, op.sealer) && op.user !in v.members && |v.members| < 100
    ensures op.sealed.decodedBytes != Some(1168) ==> ShapeRefusal(op) == Some(Shape)
    ensures ShapeRefusal(op) == None && Apply(v, op).Err? ==>
      Apply(v, op).error == if !Manages(v, op.sealer) then NoStanding(v, op.sealer)
                            else if op.user in v.members then AlreadyMember else MemberCap
  {
  }

  /** A re-seal by somebody else needs the same standing; one's own needs only a row of the current epoch that is
      stale, or the standing. */
  lemma ResealIff(v: Vault, op: Op)
    requires op.Reseal?
    ensures Succeeds(v, op) <==>
      && op.sealed.decodedBytes == Some(1168) && op.user in v.members
      && if op.sealer != "" && op.sealer == op.user
         then v.members[op.user].keyEpoch == v.keyEpoch && (v.members[op.user].state == Stale || ActiveOwnerIn(v, op.user))
         else Manages(v, op.sealer)
    ensures op.sealed.decodedBytes != Some(1168) ==> ShapeRefusal(op) == Some(Shape)
    ensures ShapeRefusal(op) == None && Apply(v, op).Err? ==>
      var own := op.sealer != "" && op.sealer == op.user;
      Apply(v, op).error == if !own && !Manages(v, op.sealer) then NoStanding(v, op.sealer)
                            else if op.user !in v.members then NotMember
                            else if v.members[op.user].keyEpoch != v.keyEpoch then WrongEpoch
                            else Forbidden
  {
  }

  lemma SetRoleIff(v: Vault, op: Op)
    requires op.SetRole?
    ensures Succeeds(v, op) <==>
      && Manages(v, op.actor) && op.user in v.members
      && (op.role == Owner || !ActiveOwnerIn(v, op.user) || AnotherActiveOwner(v, op.user))
    ensures ShapeRefusal(op) == None
    ensures Apply(v, op).Err? ==>
      Apply(v, op).error == if !Manages(v, op.actor) then NoStanding(v, op.actor)
                            else if op.user !in v.members then NotMember else LastOwner
  {
    if op.user in v.members {
      LastOwnerIff(v, op.user);
    }
  }

  lemma AcceptIff(v: Vault, op: Op)
    requires op.Accept?
    ensures Succeeds(v, op) <==> op.user in v.members && v.members[op.user].state == Invited && SomeActiveOwner(v)
    ensures Apply(v, op).Err? ==> Apply(v, op).error == if op.user !in v.members then NotMember else WrongState
  {
    NoOwnersIff(v);
  }

  /** A member may always leave unless nobody would be left to manage the vault; an administrator may remove anyone. */
  lemma RemoveIff(v: Vault, op: Op)
    requires op.Remove?
    ensures Succeeds(v, op) <==>
      && (op.actor == op.user || Manages(v, op.actor)) && op.user in v.members
      && (op.actor == "" || !ActiveOwnerIn(v, op.user) || AnotherActiveOwner(v, op.user))
    ensures Apply(v, op).Err? ==>
      Apply(v, op).error == if op.actor != op.user && !Manages(v, op.actor) then NoStanding(v, op.actor)
                            else if op.user !in v.members then NotMember else LastOwner
  {
    if op.user in v.members {
      LastOwnerIff(v, op.user);
    }
  }

  ghost predicate NamedIn(copies: seq<SealedFor>, u: UserId) {
    exists i :: 0 <= i < |copies| && copies[i].userId == u
  }

  ghost predicate ActiveAfter(v: Vault, copies: seq<SealedFor>, o: UserId) {
    && o in v.members && NamedIn(copies, o) && v.members[o].role == Owner
    && v.members[o].state != Suspended && v.members[o].acceptedAt.Some?
  }

  lemma NobodyLeftIff(v: Vault, copies: seq<SealedFor>)
    ensures |PostRotationOwners(v, Named(copies))| == 0 <==> !(exists o :: ActiveAfter(v, copies, o))
  {
    var left := PostRotationOwners(v, Named(copies));
    assert forall o :: o in left <==> ActiveAfter(v, copies, o);
    if |left| != 0 {
      var o :| o in left;
    }
  }

  ghost predicate ProperCopies(v: Vault, copies: seq<SealedFor>) {
    forall i :: 0 <= i < |copies| ==>
      copies[i].userId in v.members && copies[i].sealedKey.decodedBytes == Some(1168) && copies[i].keyFingerprint != ""
  }

  lemma RotateIff(v: Vault, op: Op)
    requires op.Rotate?
    ensures Succeeds(v, op) <==>
      && Manages(v, op.actor) && SomeActiveOwner(v) && v.keyEpoch == op.epoch
      && ProperCopies(v, op.copies) && NamedIn(op.copies, op.actor)
      && exists o :: ActiveAfter(v, op.copies, o)
    ensures Apply(v, op).Err? ==>
      Apply(v, op).error == if !Manages(v, op.actor) then NoStanding(v, op.actor)
                            else if !SomeActiveOwner(v) then WrongState
                            else if v.keyEpoch != op.epoch then WrongEpoch
                            else if !ProperCopies(v, op.copies) || !NamedIn(op.copies, op.actor) then Shape
                            else LastOwner
  {
    NoOwnersIff(v);
    NobodyLeftIff(v, op.copies);
    assert ProperCopies(v, op.copies) <==> CopiesOk(v, op.copies);
    assert NamedIn(op.copies, op.actor) <==> op.actor in Named(op.copies);
  }

  // ------------------------------------------------- what each operation leaves

  /** The record beside its rows: only a rotation moves the epoch and settles a departure, only a departure leaves
      one, and it says who left, when, and whether they were removed, left, or declined. */
  lemma VaultStep(v: Vault, op: Op)
    requires Succeeds(v, op)
    ensures var after := Apply(v, op).value;
      && after.id == v.id && after.deletedAt == v.deletedAt
      && after.keyEpoch == v.keyEpoch + (if op.Rotate? then 1 else 0)
      && after.rotationPending ==
         if op.Rotate? then None
         else if op.Remove? then
           Some(Pending(op.now, op.user,
                        if op.actor != op.user then Removed
                        else if v.members[op.user].state == Invited then Declined else Left))
         else v.rotationPending
  {
  }

  /** Rows come by invitation and go by removal. */
  lemma MembersStep(v: Vault, op: Op, u: UserId)
    requires Succeeds(v, op)
    ensures u in Apply(v, op).value.members
       <==> (u in v.members && !(op.Remove? && op.user == u)) || (op.Invite? && op.user == u)
  {
  }

  /** A role comes from an invitation or a role change that names the member. */
  predicate NamesRole(op: Op, u: UserId) {
    (op.Invite? || op.SetRole?) && op.user == u
  }

  lemma RoleStep(v: Vault, op: Op, u: UserId)
    requires Succeeds(v, op) && u in Apply(v, op).value.members
    ensures Apply(v, op).value.members[u].role == if NamesRole(op, u) then op.role else v.members[u].role
  {
  }

  /** A copy comes from an invitation, a re-seal or a rotation that names the member; a rotation gives the last of
      the copies naming them. */
  ghost predicate NamesSeal(op: Op, u: UserId) {
    ((op.Invite? || op.Reseal?) && op.user == u) || (op.Rotate? && NamedIn(op.copies, u))
  }

  datatype Seal = Seal(sealedKey: SealedKey, keyFingerprint: string, sealedBy: UserId, sealedByFingerprint: string, keyEpoch: int)

  function SealOf(m: Member): Seal {
    Seal(m.sealedKey, m.keyFingerprint, m.sealedBy, m.sealedByFingerprint, m.keyEpoch)
  }

  ghost predicate LastNaming(copies: seq<SealedFor>, u: UserId, i: nat) {
    && i < |copies| && copies[i].userId == u
    && forall j :: i < j < |copies| ==> copies[j].userId != u
  }

  ghost predicate SealGiven(v: Vault, op: Op, u: UserId, seal: Seal) {
    if op.Rotate? then
      exists i: nat :: LastNaming(op.copies, u, i) && op.actor in v.members &&
        seal == Seal(op.copies[i].sealedKey, op.copies[i].keyFingerprint, op.actor, v.members[op.actor].keyFingerprint, v.keyEpoch + 1)
    else
      (op.Invite? || op.Reseal?) && seal == Seal(op.sealed, op.fingerprint, op.sealer, op.sealerFp, v.keyEpoch)
  }

  lemma {:induction false} LastCopyIsLast(copies: seq<SealedFor>, u: UserId) returns (i: nat)
    requires NamedIn(copies, u)
    ensures LastNaming(copies, u, i) && LastCopy(copies, u) == copies[i]
  {
    var n := |copies| - 1;
    if copies[n].userId == u {
      i := n;
    } else {
      i := LastCopyIsLast(copies[..n], u);
    }
  }

  lemma RotatedSeal(v: Vault, op: Op, u: UserId)
    requires op.Rotate? && op.actor in v.members && u in v.members
    ensures if NamedIn(op.copies, u) then SealGiven(v, op, u, SealOf(RotatedRow(v, op, u)))
            else SealOf(RotatedRow(v, op, u)) == SealOf(v.members[u])
  {
    assert NamedIn(op.copies, u) <==> u in Named(op.copies);
    if NamedIn(op.copies, u) {
      var i := LastCopyIsLast(op.copies, u);
    }
  }

  lemma SealStep(v: Vault, op: Op, u: UserId)
    requires Succeeds(v, op) && u in Apply(v, op).value.members
    ensures if NamesSeal(op, u) then SealGiven(v, op, u, SealOf(Apply(v, op).value.members[u]))
            else SealOf(Apply(v, op).value.members[u]) == SealOf(v.members[u])
  {
    if op.Rotate? {
      RotatedSeal(v, op, u);
    }
  }

  /** When a row was made and when its member accepted. */
  lemma TimesStep(v: Vault, op: Op, u: UserId)
    requires Succeeds(v, op) && u in Apply(v, op).value.members
    ensures var m := Apply(v, op).value.members[u];
      && m.addedAt == (if op.Invite? && op.user == u then op.now else v.members[u].addedAt)
      && m.acceptedAt == if op.Invite? && op.user == u then None
                         else if op.Accept? && op.user == u then Some(op.now)
                         else v.members[u].acceptedAt
  {
  }

  /** Where a fresh copy puts a member. */
  function Refreshed(m: Member): State {
    if m.acceptedAt.Some? then Active else Invited
  }

  /** A state that a suspension hides, and the one it shows. */
  predicate Lands(m: Member, m': Member, s: State) {
    if m.state == Suspended then m'.state == Suspended && m'.suspendedFrom == Some(s)
    else m'.state == s && m'.suspendedFrom == m.suspendedFrom
  }

  predicate SameState(m: Member, m': Member) {
    m'.state == m.state && m'.suspendedFrom == m.suspendedFrom
  }

  lemma StateStep(v: Vault, op: Op, u: UserId)
    requires Succeeds(v, op) && u in v.members && u in Apply(v, op).value.members
    ensures var m, m' := v.members[u], Apply(v, op).value.members[u];
      match op
      case Rotate(_, _, copies) => Lands(m, m', if NamedIn(copies, u) then Refreshed(m) else Stale)
      case Reseal(user, _, _, _, _) => if user == u then Lands(m, m', Refreshed(m)) else SameState(m, m')
      case Accept(user, _) => if user == u then m'.state == Active && m'.suspendedFrom == m.suspendedFrom else SameState(m, m')
      case Suspend(user) =>
        if user == u && m.state != Suspended then m'.state == Suspended && m'.suspendedFrom == Some(m.state) else SameState(m, m')
      case Resume(user) =>
        if user == u && m.state == Suspended
        then m'.suspendedFrom == None && m'.state == (if m.suspendedFrom.Some? then m.suspendedFrom.value else Refreshed(m))
        else SameState(m, m')
      case MarkStale(user, current) =>
        if user == u && m.keyFingerprint != current && m.state != Stale then Lands(m, m', Stale) else SameState(m, m')
      case _ => SameState(m, m')
  {
    if op.Rotate? {
      assert NamedIn(op.copies, u) <==> u in Named(op.copies);
    }
  }

  /** The row an invitation makes is its own: the role, copy, fingerprints, sealer and time are those named, at the
      record's epoch, not accepted; no other row changes. */
  lemma InvitedRowIs(v: Vault, op: Op)
    requires op.Invite? && Succeeds(v, op)
    ensures var after := Apply(v, op).value.members;
      && op.user !in v.members && after.Keys == v.members.Keys + {op.user}
      && after[op.user].role == op.role && after[op.user].state == Invited && after[op.user].suspendedFrom == None
      && after[op.user].acceptedAt == None && after[op.user].addedAt == op.now
      && SealOf(after[op.user]) == Seal(op.sealed, op.fingerprint, op.sealer, op.sealerFp, v.keyEpoch)
      && forall u :: u in v.members ==> after[u] == v.members[u]
  {
  }

  // ------------------------------------------------- where rows come from, over runs

  /** Step i of the run succeeded. */
  ghost predicate Landed(r: Run, ops: seq<Op>, i: nat) {
    i < |ops| && Succeeds(Exec(r, ops[..i]).v, ops[i])
  }

  lemma StepIs(r: Run, ops: seq<Op>)
    requires ops != []
    ensures var n := |ops| - 1;
      Exec(r, ops).v == if Succeeds(Exec(r, ops[..n]).v, ops[n]) then Apply(Exec(r, ops[..n]).v, ops[n]).value else Exec(r, ops[..n]).v
  {
  }

  /** The role last given to u: by the last invitation or role change that named them, or at the start. */
  ghost function RoleGiven(r: Run, ops: seq<Op>, u: UserId): Option<Role> {
    if ops == [] then
      if u in r.v.members then Some(r.v.members[u].role) else None
    else
      var n := |ops| - 1;
      if Landed(r, ops, n) && NamesRole(ops[n], u) then Some(ops[n].role) else RoleGiven(r, ops[..n], u)
  }

  /** Over every run, a member's role is the one last given to them. */
  lemma {:induction false} RoleProvenance(r: Run, ops: seq<Op>, u: UserId)
    requires u in Exec(r, ops).v.members
    ensures RoleGiven(r, ops, u) == Some(Exec(r, ops).v.members[u].role)
    decreases |ops|
  {
    if ops != [] {
      var n := |ops| - 1;
      var before := Exec(r, ops[..n]).v;
      StepIs(r, ops);
      if Landed(r, ops, n) {
        MembersStep(before, ops[n], u);
        RoleStep(before, ops[n], u);
      }
      if !(Landed(r, ops, n) && NamesRole(ops[n], u)) {
        RoleProvenance(r, ops[..n], u);
      }
    }
  }

  /** seal is what u was last given: by the last invitation, re-seal or rotation that named them, or at the start. */
  ghost predicate SealTraced(r: Run, ops: seq<Op>, u: UserId, seal: Seal) {
    if ops == [] then u in r.v.members && SealOf(r.v.members[u]) == seal
    else
      var n := |ops| - 1;
      if Landed(r, ops, n) && NamesSeal(ops[n], u) then SealGiven(Exec(r, ops[..n]).v, ops[n], u, seal)
      else SealTraced(r, ops[..n], u, seal)
  }

  /** Over every run, the copy a row holds, who sealed it, to which key and at which epoch, are those last given. */
  lemma {:induction false} SealProvenance(r: Run, ops: seq<Op>, u: UserId)
    requires u in Exec(r, ops).v.members
    ensures SealTraced(r, ops, u, SealOf(Exec(r, ops).v.members[u]))
    decreases |ops|
  {
    if ops != [] {
      var n := |ops| - 1;
      var before := Exec(r, ops[..n]).v;
      StepIs(r, ops);
      if Landed(r, ops, n) {
        MembersStep(before, ops[n], u);
        SealStep(before, ops[n], u);
      }
      if !(Landed(r, ops, n) && NamesSeal(ops[n], u)) {
        SealProvenance(r, ops[..n], u);
      }
    }
  }

  /** When u accepted: at the last acceptance since their last invitation, if at all; or at the start. */
  ghost function AcceptedAt(r: Run, ops: seq<Op>, u: UserId): Option<Time> {
    if ops == [] then
      if u in r.v.members then r.v.members[u].acceptedAt else None
    else
      var n := |ops| - 1;
      if Landed(r, ops, n) && ops[n].Invite? && ops[n].user == u then None
      else if Landed(r, ops, n) && ops[n].Accept? && ops[n].user == u then Some(ops[n].now)
      else AcceptedAt(r, ops[..n], u)
  }

  /** Over every run: nobody but the member accepts for them, and an invitation starts over. */
  lemma {:induction false} AcceptanceProvenance(r: Run, ops: seq<Op>, u: UserId)
    requires u in Exec(r, ops).v.members
    ensures Exec(r, ops).v.members[u].acceptedAt == AcceptedAt(r, ops, u)
    decreases |ops|
  {
    if ops != [] {
      var n := |ops| - 1;
      var before := Exec(r, ops[..n]).v;
      StepIs(r, ops);
      if Landed(r, ops, n) {
        MembersStep(before, ops[n], u);
        TimesStep(before, ops[n], u);
      }
      if !(Landed(r, ops, n) && (ops[n].Invite? || ops[n].Accept?) && ops[n].user == u) {
        AcceptanceProvenance(r, ops[..n], u);
      }
    }
  }

  // ------------------------------------------------- reading a record

  /** A character of the URL-safe alphabet of section 5 of RFC 4648. */
  predicate UrlSafe(c: char) {
    var n := c as int;
    48 <= n <= 57 || 65 <= n <= 90 || n == 95 || 97 <= n <= 122 || n == 45
  }

  predicate WellNamed(id: string) {
    |id| == 25 && id[..3] == "sv_" && forall i :: 3 <= i < 25 ==> UrlSafe(id[i])
  }

  /** A record is read back exactly when its name is sv_ and 22 characters of the URL-safe base64 alphabet, it is
      there under its own ID, every suspended row says what it was suspended from and no other row does, and a
      pending departure names somebody. */
  lemma LoadedIff(records: Records, id: string)
    ensures Loaded(records, id).Ok? <==>
      && WellNamed(id) && id in records && records[id].id == id
      && (forall u :: u in records[id].members ==>
            var m := records[id].members[u];
            if m.state == Suspended then m.suspendedFrom.Some? && m.suspendedFrom.value != Suspended else m.suspendedFrom == None)
      && (records[id].rotationPending.Some? ==> records[id].rotationPending.value.userId != "")
    ensures Loaded(records, id).Ok? ==> Loaded(records, id).value == records[id]
    ensures Loaded(records, id).Err? ==> Loaded(records, id).error == if WellNamed(id) && id in records then Corrupt else NotFound
  {
  }

  /** An operation on the store changes the record named, if it is readable and the operation succeeds, and no
      other; a refusal changes nothing. */
  lemma OperationLands(records: Records, id: string, op: Op)
    ensures var (answer, after) := After(records, id, op);
      && (answer == Done <==> Loaded(records, id).Ok? && Succeeds(records[id], op))
      && (answer == Done ==> id in after && after[id] == Apply(records[id], op).value && after.Keys == records.Keys)
      && (forall other :: other in records && (other != id || answer != Done) ==> other in after && after[other] == records[other])
      && (answer != Done ==> after == records)
      && (answer != Done ==>
            answer.error == if ShapeRefusal(op).Some? then ShapeRefusal(op).value
                            else if Loaded(records, id).Err? then Loaded(records, id).error
                            else Apply(records[id], op).error)
  {
  }

  /** A sweep applies its operation to every readable record and leaves the others. */
  lemma SweepLands(records: Records, op: Op, id: string)
    requires IsSweep(op) && id in records
    ensures Swept(records, op).Keys == records.Keys
    ensures Swept(records, op)[id] == if Loaded(records, id).Ok? then Apply(records[id], op).value else records[id]
  {
  }

  /** The records a sweep must save are those it changes, and the stale-markings hidden under a suspension. */
  lemma SweepSaves(records: Records, op: Op, id: string)
    requires IsSweep(op) && id in records
    ensures Touches(id, records[id], op)
       <==> Loaded(records, id).Ok? && op.user in records[id].members && NeedsSave(records[id].members[op.user], op)
  {
  }

  /** A sweep cut short has changed the records it reached and no other. */
  lemma SweepReaches(records: Records, op: Op, touched: set<string>, id: string)
    requires IsSweep(op) && id in records
    ensures SweptPart(records, op, touched).Keys == records.Keys
    ensures SweptPart(records, op, touched)[id]
         == if id in touched && Loaded(records, id).Ok? then Apply(records[id], op).value else records[id]
  {
  }

  predicate NeedsSave(m: Member, op: Op) {
    || (op.Suspend? && m.state != Suspended)
    || (op.Resume? && m.state == Suspended)
    || (op.MarkStale? && m.state != Stale && m.keyFingerprint != op.current)
  }
}
