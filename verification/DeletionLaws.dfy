/** What a deletion writes at each stop, what recovery moves, and what a prune removes, in the files' own fields. */
module DeletionLaws {
  import opened Outcomes
  import opened SharedVault
  import opened SharedVaultLaws
  import opened SharedDeletion

  /** A deletion starts for an administrator or an active owner of a readable record. */
  lemma DeleteIff(d: Disk, id: string, actor: UserId)
    ensures DeleteRefusal(d, id, actor)
         == if Loaded(d.live, id).Err? then Some(Loaded(d.live, id).error)
            else if !Manages(d.live[id], actor) then Some(NoStanding(d.live[id], actor)) else None
  {
  }

  /** The record a deletion keeps is the live one, dated. */
  lemma DeletedFields(d: Disk, id: string, now: Time, stop: Stop)
    requires id in d.live
    ensures var d' := DeletedUpTo(d, id, now, stop);
      var written, removed := stop in {AfterRecord, AfterRemoval, Complete}, stop in {AfterRemoval, Complete};
      var moved := stop == Complete && id in d.data && (id !in d.tombs || d.tombs[id].data.None?);
      && (written ==> id in d'.tombs && d'.tombs[id].record == Some(d.live[id].(deletedAt := Some(now))))
      && (!written ==> (if id in d'.tombs then d'.tombs[id].record else None) == (if id in d.tombs then d.tombs[id].record else None))
      && (id in d'.tombs <==> id in d.tombs || stop != BeforeDirectory)
      && (id in d'.live <==> !removed)
      && (id in d'.data <==> id in d.data && !moved)
      && (moved ==> d'.tombs[id].data == Some(d.data[id]))
      && forall other :: other != id ==>
           && (other in d'.live <==> other in d.live) && (other in d.live ==> d'.live[other] == d.live[other])
           && (other in d'.data <==> other in d.data) && (other in d.data ==> d'.data[other] == d.data[other])
           && (other in d'.tombs <==> other in d.tombs) && (other in d.tombs ==> d'.tombs[other] == d.tombs[other])
  {
  }

  /** A recovery moves the directory of each vault whose record is deleted and no longer live, where it can. */
  lemma ReconciledFields(d: Disk, movable: set<string>, id: string)
    ensures var d' := Reconciled(d, movable);
      var moved := WellNamed(id) && id in d.tombs && d.tombs[id].record.Some? && id !in d.live
                   && id in movable && d.tombs[id].data.None? && id in d.data;
      && d'.live == d.live && d'.tombs.Keys == d.tombs.Keys
      && (id in d'.data <==> id in d.data && !moved) && (id in d'.data ==> d'.data[id] == d.data[id])
      && (id in d.tombs ==> d'.tombs[id].record == d.tombs[id].record
                            && d'.tombs[id].data == if moved then Some(d.data[id]) else d.tombs[id].data)
  {
  }

  /** A prune removes exactly the deletions dated more than the retention ago, and touches nothing live. */
  lemma PrunedFields(d: Disk, now: Time, retentionDays: nat, id: string)
    ensures var d' := Pruned(d, now, retentionDays);
      var past := id in d.tombs && d.tombs[id].record.Some? && d.tombs[id].record.value.deletedAt.Some?
                 && d.tombs[id].record.value.deletedAt.value + retentionDays * 86_400 < now;
      && d'.live == d.live && d'.data == d.data
      && (id in d'.tombs <==> id in d.tombs && !past) && (id in d'.tombs ==> d'.tombs[id] == d.tombs[id])
  {
  }

  /** So what was deleted at a time stays for the whole of its retention and goes with the first prune after it. */
  lemma DeletedLives(d: Disk, id: string, now: Time, stop: Stop, later: Time, retentionDays: nat)
    requires id in d.live && stop in {AfterRecord, AfterRemoval, Complete}
    ensures id in Pruned(DeletedUpTo(d, id, now, stop), later, retentionDays).tombs <==> later <= now + retentionDays * 86_400
  {
    DeletedFields(d, id, now, stop);
    PrunedFields(DeletedUpTo(d, id, now, stop), later, retentionDays, id);
  }
}
