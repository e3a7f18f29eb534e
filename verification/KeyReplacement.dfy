/** A shared rotation against members replacing their published keys.

    A replacement publishes the new fingerprint at once, under the vault store's lock alone;
    marking the member's rows stale waits for the membership lock and runs later. A rotation
    checks fingerprints and commits under the membership lock. Every interleaving of these
    steps, with every other membership operation, is a sequence of labels. */
module KeyReplacement {
  import opened Outcomes
  import opened SharedVault
  import opened SharedVaultRuns

  datatype World = World(
    v: Vault,
    published: map<UserId, string>,           // each user's current fingerprint
    hooks: multiset<(UserId, string)>,        // stale-markings not run yet
    rotating: Option<Op>,                     // a verified rotation holding the lock
    rotated: set<UserId>)                     // rows whose seal a rotation wrote

  datatype Label =
    | Publish(user: UserId, fingerprint: string)
    | RunHook(user: UserId, fingerprint: string)
    | BeginRotate(op: Op)
    | CommitRotate
    | AbandonRotate
    | Membership(op: Op)

  /** The caller's check, made under the membership lock. */
  ghost predicate Verified(w: World, copies: seq<SealedFor>) {
    forall i :: 0 <= i < |copies| ==>
      copies[i].userId in w.published && w.published[copies[i].userId] == copies[i].keyFingerprint
  }

  ghost predicate Enabled(w: World, l: Label) {
    match l
    case Publish(_, _) => true
    case RunHook(user, fp) => w.rotating == None && (user, fp) in w.hooks
    case BeginRotate(op) => w.rotating == None && op.Rotate? && RotateRefusal(w.v, op) == None && Verified(w, op.copies)
    case CommitRotate => w.rotating.Some?
    case AbandonRotate => w.rotating.Some?
    // Removing a row named "" leaves a record no operation can read (StaysReadable), so the
    // run ends there.
    case Membership(op) =>
      w.rotating == None && !op.Rotate? && !op.MarkStale? && !(op.Remove? && op.user == "") && Succeeds(w.v, op)
  }

  ghost predicate WellFormed(w: World) {
    w.rotating.Some? ==> w.rotating.value.Rotate? && RotateRefusal(w.v, w.rotating.value) == None
  }

  ghost function Next(w: World, l: Label): World
    requires WellFormed(w) && Enabled(w, l)
  {
    match l
    case Publish(user, fp) =>
      w.(published := w.published[user := fp],
         hooks := if user in w.published then w.hooks + multiset{(user, fp)} else w.hooks)
    case RunHook(user, fp) =>
      w.(v := SweptVault(w.v, MarkStale(user, fp)), hooks := w.hooks - multiset{(user, fp)})
    case BeginRotate(op) => w.(rotating := Some(op))
    case CommitRotate =>
      w.(v := Rotated(w.v, w.rotating.value), rotating := None,
         rotated := w.rotated + Named(w.rotating.value.copies))
    case AbandonRotate => w.(rotating := None)
    case Membership(op) =>
      w.(v := Apply(w.v, op).value,
         rotated := if op.Reseal? || op.Remove? then w.rotated - {op.user} else w.rotated)
  }

  ghost function Exec(w: World, run: seq<Label>): (w': World)
    requires WellFormed(w)
    ensures WellFormed(w')
  {
    if run == [] then w
    else
      var before := Exec(w, run[..|run| - 1]);
      if Enabled(before, run[|run| - 1]) then Next(before, run[|run| - 1]) else before
  }

  /** A seal to fp is accounted for: current, stale, or about to be marked stale. */
  ghost predicate SealAccounted(w: World, user: UserId, fp: string, stale: bool) {
    user in w.published && (w.published[user] == fp || stale || (user, w.published[user]) in w.hooks)
  }

  ghost predicate Inv(w: World) {
    && WellFormed(w)
    && (forall u :: u in w.rotated ==>
          u in w.v.members && SealAccounted(w, u, w.v.members[u].keyFingerprint, Effective(w.v.members[u]) == Stale))
    && (w.rotating.Some? ==> forall i :: 0 <= i < |w.rotating.value.copies| ==>
          SealAccounted(w, w.rotating.value.copies[i].userId, w.rotating.value.copies[i].keyFingerprint, false))
  }

  lemma InvCommit(w: World)
    requires Inv(w) && w.rotating.Some?
    ensures Inv(Next(w, CommitRotate))
  {
  }

  lemma InvHook(w: World, user: UserId, fp: string)
    requires Inv(w) && Enabled(w, RunHook(user, fp))
    ensures Inv(Next(w, RunHook(user, fp)))
  {
  }

  lemma InvMembership(w: World, op: Op)
    requires Inv(w) && Enabled(w, Membership(op))
    ensures Inv(Next(w, Membership(op)))
  {
  }

  lemma InvStep(w: World, l: Label)
    requires Inv(w) && Enabled(w, l)
    ensures Inv(Next(w, l))
  {
    match l
    case CommitRotate => InvCommit(w);
    case RunHook(user, fp) => InvHook(w, user, fp);
    case Membership(op) => InvMembership(w, op);
    case _ =>
  }

  lemma {:induction false} InvAlways(w: World, run: seq<Label>)
    requires Inv(w)
    ensures Inv(Exec(w, run))
  {
    if run != [] {
      var before := Exec(w, run[..|run| - 1]);
      InvAlways(w, run[..|run| - 1]);
      if Enabled(before, run[|run| - 1]) {
        InvStep(before, run[|run| - 1]);
      }
    }
  }

  /** Whatever the interleaving: once every stale-marking has run, each row whose seal a
      rotation wrote is sealed to its member's published key, or is stale. */
  lemma RotationSealsAreCurrentOrStale(w: World, run: seq<Label>)
    requires w.rotating == None && w.rotated == {}
    ensures var w' := Exec(w, run);
      w'.hooks == multiset{} ==>
        forall u :: u in w'.rotated ==>
          && u in w'.v.members && u in w'.published
          && (w'.v.members[u].keyFingerprint == w'.published[u] || Effective(w'.v.members[u]) == Stale)
  {
    InvAlways(w, run);
  }
}
