/** Deleting a shared vault, finishing a deletion that was cut short, and pruning old deletions.
    The files are the live record, the deleted record, and the vault directory at its live or deleted place;
    times are in seconds. */
module SharedDeletion {
  import opened Outcomes
  import opened SharedVault
  import VaultFiles

  type Data = VaultFiles.Dir

  /** deleted/<id>: the record written by a deletion, and the vault directory once it has been moved there. */
  datatype Tomb = Tomb(record: Option<Vault>, data: Option<Data>)

  datatype Disk = Disk(live: map<string, Vault>, tombs: map<string, Tomb>, data: map<string, Data>)

  /** Where a deletion stops, by a crash or by an error: each step is done in this order. */
  datatype Stop = BeforeDirectory | AfterDirectory | AfterRecord | AfterRemoval | Complete

  const DAY := 24 * 3600

  function TombOf(d: Disk, id: string): Tomb {
    if id in d.tombs then d.tombs[id] else Tomb(None, None)
  }

  /** Renaming onto a directory that is already there fails. */
  predicate CanMove(d: Disk, id: string) {
    TombOf(d, id).data.None?
  }

  function Moved(d: Disk, id: string): Disk {
    if id in d.data && CanMove(d, id) then
      d.(tombs := d.tombs[id := TombOf(d, id).(data := Some(d.data[id]))], data := d.data - {id})
    else d
  }

  ghost function DeleteRefusal(d: Disk, id: string, actor: UserId): Option<Error> {
    if !ValidId(id) || id !in d.live then Some(NotFound)
    else if !Loadable(id, d.live[id]) then Some(Corrupt)
    else Authorize(d.live[id], actor)
  }

  /** What a deletion leaves when it stops at this point. */
  function DeletedUpTo(d: Disk, id: string, now: Time, stop: Stop): Disk
    requires id in d.live
  {
    var tomb := TombOf(d, id);
    var dated := d.live[id].(deletedAt := Some(now));
    match stop
    case BeforeDirectory => d
    case AfterDirectory => d.(tombs := d.tombs[id := tomb])
    case AfterRecord => d.(tombs := d.tombs[id := tomb.(record := Some(dated))])
    case AfterRemoval => d.(tombs := d.tombs[id := tomb.(record := Some(dated))], live := d.live - {id})
    case Complete => Moved(d.(tombs := d.tombs[id := tomb.(record := Some(dated))], live := d.live - {id}), id)
  }

  /** A deletion that got as far as removing the live record. */
  predicate Unfinished(d: Disk, id: string) {
    ValidId(id) && id in d.tombs && d.tombs[id].record.Some? && id !in d.live
  }

  function Finishing(d: Disk, movable: set<string>): set<string> {
    set id | id in d.tombs && Unfinished(d, id) && id in movable && CanMove(d, id) && id in d.data
  }

  /** Every unfinished deletion is finished, except those whose directory cannot be moved. */
  function Reconciled(d: Disk, movable: set<string>): Disk {
    var moving := Finishing(d, movable);
    d.(tombs := map id | id in d.tombs :: if id in moving then d.tombs[id].(data := Some(d.data[id])) else d.tombs[id],
       data := d.data - moving)
  }

  predicate PastRetention(t: Tomb, now: Time, retentionDays: nat) {
    t.record.Some? && t.record.value.deletedAt.Some? && t.record.value.deletedAt.value < now - retentionDays * DAY
  }

  function Prunable(d: Disk, now: Time, retentionDays: nat): set<string> {
    set id | id in d.tombs && PastRetention(d.tombs[id], now, retentionDays)
  }

  function Pruned(d: Disk, now: Time, retentionDays: nat): Disk {
    d.(tombs := d.tombs - Prunable(d, now, retentionDays))
  }

  class Store {
    const retentionDays: nat
    var live: map<string, Vault>
    var tombs: map<string, Tomb>
    var data: map<string, Data>
    var retired: set<string>

    ghost function Value(): Disk
      reads this
    {
      Disk(live, tombs, data)
    }

    /** Opening the store finishes the deletions a crash interrupted; movable are the directories that can be renamed. */
    constructor (retentionDays: int, live: map<string, Vault>, tombs: map<string, Tomb>, data: map<string, Data>, movable: set<string>)
      ensures this.retentionDays == if retentionDays <= 0 then 90 else retentionDays
      ensures Value() == Reconciled(Disk(live, tombs, data), movable)
      ensures forall id :: id in tombs && Unfinished(Disk(live, tombs, data), id) && id !in this.data ==> id in retired
    {
      this.retentionDays := if retentionDays <= 0 then 90 else retentionDays;
      this.live, this.tombs, this.data, retired := live, tombs, data, {};
      new;
      ReconcileDeleted(movable);
    }

    /** A missing directory is not an error; either way the key is retired. */
    method MoveVault(id: string, movable: bool) returns (ok: bool)
      requires id in tombs
      modifies this`tombs, this`data, this`retired
      ensures ok == (id !in old(data) || (movable && CanMove(old(Value()), id)))
      ensures Value() == if ok then Moved(old(Value()), id) else old(Value())
      ensures retired == old(retired) + if ok then {id} else {}
    {
      if id in data {
        if !movable || tombs[id].data.Some? {
          return false;
        }
        tombs, data := tombs[id := tombs[id].(data := Some(data[id]))], data - {id};
      }
      retired := retired + {id};
      return true;
    }

    method ReconcileDeleted(movable: set<string>)
      modifies this`tombs, this`data, this`retired
      ensures Value() == Reconciled(old(Value()), movable)
      ensures forall id :: id in old(tombs) && Unfinished(old(Value()), id) && id !in data ==> id in retired
      ensures old(retired) <= retired
    {
      ghost var was := Value();
      var todo := tombs.Keys;
      assert Part(was, movable, todo) == was;
      while todo != {}
        invariant todo <= was.tombs.Keys && Value() == Part(was, movable, todo)
        invariant old(retired) <= retired
        invariant forall id :: id in was.tombs && id !in todo && Unfinished(was, id) && id !in data ==> id in retired
        decreases todo
      {
        var id :| id in todo;
        PartStep(was, movable, todo, id);
        todo := todo - {id};
        if ValidId(id) && tombs[id].record.Some? && id !in live {
          var _ := MoveVault(id, id in movable);
        }
      }
    }

    method Delete(id: string, actor: UserId, now: Time, stop: Stop) returns (refused: Option<Error>, done: bool)
      modifies this
      ensures refused == DeleteRefusal(old(Value()), id, actor)
      ensures Value() == if refused.None? then DeletedUpTo(old(Value()), id, now, stop) else old(Value())
      ensures done <==> refused.None? && stop.Complete? && id !in data
      ensures retired == old(retired) + if done then {id} else {}
    {
      done := false;
      if !ValidId(id) || id !in live {
        return Some(NotFound), false;
      }
      var v := live[id];
      var readable := CheckRecord(id, v);
      if !readable {
        return Some(Corrupt), false;
      }
      refused := Authorize(v, actor);
      if refused.Some? || stop == BeforeDirectory {
        return;
      }
      if id !in tombs {
        tombs := tombs[id := Tomb(None, None)];
      }
      if stop == AfterDirectory {
        return;
      }
      tombs := tombs[id := tombs[id].(record := Some(v.(deletedAt := Some(now))))];
      if stop == AfterRecord {
        return;
      }
      live := live - {id};
      if stop == AfterRemoval {
        return;
      }
      done := MoveVault(id, true);
    }

    method PruneDeleted(now: Time) returns (n: nat)
      modifies this`tombs
      ensures Value() == Pruned(old(Value()), now, retentionDays)
      ensures n == |old(tombs)| - |tombs|
    {
      var todo := tombs.Keys;
      n := 0;
      while todo != {}
        invariant todo <= old(tombs).Keys && todo <= tombs.Keys
        invariant tombs == map id | id in old(tombs)
                                    && (id in todo || !PastRetention(old(tombs)[id], now, retentionDays)) :: old(tombs)[id]
        invariant n == |old(tombs)| - |tombs|
        decreases todo
      {
        var id :| id in todo;
        todo := todo - {id};
        if PastRetention(tombs[id], now, retentionDays) {
          tombs := tombs - {id};
          n := n + 1;
        }
      }
    }
  }

  /** The recovery after every entry but these has been looked at. */
  ghost function Part(d: Disk, movable: set<string>, todo: set<string>): Disk {
    Reconciled(d, movable - todo)
  }

  lemma PartStep(d: Disk, movable: set<string>, todo: set<string>, id: string)
    requires id in todo && id in d.tombs
    ensures var part, next := Part(d, movable, todo), Part(d, movable, todo - {id});
      && part.tombs.Keys == d.tombs.Keys && part.tombs[id] == d.tombs[id] && part.live == d.live
      && (id in part.data <==> id in d.data)
      && next == if Unfinished(d, id) && id in movable && CanMove(d, id) then Moved(part, id) else part
  {
  }

  // ---------------------------------------------------------------- one interrupted deletion

  /** Record and data in place. */
  predicate WhollyLive(d: Disk, id: string, content: Option<Data>) {
    && id in d.live && TombOf(d, id).data.None?
    && content == if id in d.data then Some(d.data[id]) else None
  }

  /** No live record, and the data under the deleted record. */
  predicate WhollyDeleted(d: Disk, id: string, content: Option<Data>) {
    id !in d.live && id !in d.data && TombOf(d, id).record.Some? && TombOf(d, id).data == content
  }

  /** Wherever a deletion stops, recovery leaves the vault wholly live or wholly deleted with the same content:
      deleted exactly when the live record had been removed. */
  lemma RecoveryDecides(d: Disk, id: string, content: Option<Data>, now: Time, stop: Stop, movable: set<string>)
    requires ValidId(id) && WhollyLive(d, id, content) && id in movable
    ensures var after := Reconciled(DeletedUpTo(d, id, now, stop), movable);
      if stop.AfterRemoval? || stop.Complete? then WhollyDeleted(after, id, content) else WhollyLive(after, id, content)
  {
  }

  /** Recovering again, whatever can be moved by then, changes nothing more than the moves that failed before. */
  lemma RecoveryRepeats(d: Disk, first: set<string>, second: set<string>)
    ensures Reconciled(Reconciled(d, first), second) == Reconciled(d, first + second)
  {
  }

  lemma RecoveryIdempotent(d: Disk, movable: set<string>)
    ensures Reconciled(Reconciled(d, movable), movable) == Reconciled(d, movable)
  {
  }

  /** Pruning strands a vault directory, with neither record left to find it by, exactly when the deletion is
      past retention and its move never succeeded. */
  lemma PruneStrandsIff(d: Disk, id: string, now: Time, retentionDays: nat)
    requires Unfinished(d, id)
    ensures var after := Pruned(d, now, retentionDays);
      (id in after.data && id !in after.live && id !in after.tombs)
      <==> id in d.data && PastRetention(d.tombs[id], now, retentionDays)
  {
  }

  // ---------------------------------------------------------------- every run

  datatype Op =
    | Create(id: string, v: Vault)
    | Write(id: string, content: Data)
    | Save(id: string, v: Vault)
    | Delete(id: string, now: Time, stop: Stop)
    | Restart(movable: set<string>)
    | Prune(now: Time, retentionDays: nat)

  /** The disk, and what was last written to each vault and which contents a prune has destroyed. */
  datatype Sys = Sys(disk: Disk, content: map<string, Data>, pruned: set<string>)

  /** IDs are random, so a new one was never used; members reach only vaults with a live record. */
  predicate Enabled(s: Sys, op: Op) {
    match op
    case Create(id, _) => ValidId(id) && id !in s.disk.live && id !in s.disk.tombs && id !in s.disk.data && id !in s.content
    case Write(id, _) => id in s.disk.live
    case Save(id, _) => id in s.disk.live
    case Delete(id, _, _) => id in s.disk.live
    case Restart(_) => true
    case Prune(_, _) => true
  }

  function Next(s: Sys, op: Op): Sys
    requires Enabled(s, op)
  {
    var d := s.disk;
    match op
    case Create(id, v) => s.(disk := d.(live := d.live[id := v]))
    case Write(id, content) => s.(disk := d.(data := d.data[id := content]), content := s.content[id := content])
    case Save(id, v) => s.(disk := d.(live := d.live[id := v]))
    case Delete(id, now, stop) => s.(disk := DeletedUpTo(d, id, now, stop))
    case Restart(movable) => s.(disk := Reconciled(d, movable))
    case Prune(now, days) =>
      s.(disk := Pruned(d, now, days),
         pruned := s.pruned + set id | id in Prunable(d, now, days) && d.tombs[id].data.Some?)
  }

  /** One place only: in place, moved under the deletion, or pruned after it. */
  predicate Kept(s: Sys, id: string)
    requires id in s.content
  {
    var here, there := id in s.disk.data && s.disk.data[id] == s.content[id], TombOf(s.disk, id).data == Some(s.content[id]);
    if id in s.pruned then id !in s.disk.live && id !in s.disk.data && TombOf(s.disk, id).data.None?
    else if id in s.disk.data then here && TombOf(s.disk, id).data.None?
    else there && id !in s.disk.live
  }

  predicate Conserved(s: Sys) {
    && (forall id :: id in s.content ==> Kept(s, id))
    && s.disk.data.Keys <= s.content.Keys && s.pruned <= s.content.Keys
    && (forall id :: id in s.disk.tombs && s.disk.tombs[id].data.Some? ==> id in s.content)
    && (forall id :: id in s.disk.live ==> ValidId(id))
  }

  lemma ConservedStep(s: Sys, op: Op)
    requires Conserved(s) && Enabled(s, op)
    ensures Conserved(Next(s, op))
  {
    var after := Next(s, op);
    forall id | id in after.content ensures Kept(after, id) {
      KeptStep(s, op, id);
    }
  }

  lemma KeptStep(s: Sys, op: Op, id: string)
    requires Conserved(s) && Enabled(s, op) && id in Next(s, op).content
    ensures Kept(Next(s, op), id)
  {
    if id in s.content {
      assert Kept(s, id);
    }
  }

  predicate Run(states: seq<Sys>, ops: seq<Op>) {
    && |states| == |ops| + 1 && states[0] == Sys(Disk(map[], map[], map[]), map[], {})
    && forall i :: 0 <= i < |ops| ==> Stepped(states, ops, i)
  }

  predicate Stepped(states: seq<Sys>, ops: seq<Op>, i: nat)
    requires i < |ops| && |states| == |ops| + 1
  {
    Enabled(states[i], ops[i]) && states[i + 1] == Next(states[i], ops[i])
  }

  /** Through any run of writes, deletions cut short anywhere, restarts and prunes, what was last written to a
      vault is in exactly one place, and a live vault's is in place. */
  lemma {:induction false} ContentConserved(states: seq<Sys>, ops: seq<Op>, n: nat)
    requires Run(states, ops) && n < |states|
    ensures Conserved(states[n])
    decreases n
  {
    if n > 0 {
      var m := n - 1;
      ContentConserved(states, ops, m);
      assert Stepped(states, ops, m);
      ConservedStep(states[m], ops[m]);
    }
  }

  lemma LiveDataIntact(states: seq<Sys>, ops: seq<Op>, n: nat, id: string)
    requires Run(states, ops) && n < |states| && id in states[n].disk.live && id in states[n].content
    ensures id in states[n].disk.data && states[n].disk.data[id] == states[n].content[id]
  {
    ContentConserved(states, ops, n);
    assert Kept(states[n], id);
  }

  /** A prune destroys only what a finished deletion moved, more than the retention ago. */
  lemma PrunedOnlyAfterRetention(s: Sys, op: Op, id: string)
    requires Conserved(s) && Enabled(s, op) && id in Next(s, op).pruned && id !in s.pruned
    ensures op.Prune? && id !in s.disk.live && id in s.content
    ensures id in s.disk.tombs && s.disk.tombs[id].record.Some? && s.disk.tombs[id].record.value.deletedAt.Some?
    ensures s.disk.tombs[id].record.value.deletedAt.value + op.retentionDays * 86_400 < op.now
  {
  }
}
