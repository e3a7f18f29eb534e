/** The keyed hash chain under the audit log, with digests as free terms: two digests are equal
    only when they were computed from the same key and the same input. */
module AuditChain {
  import opened Outcomes

  type Key = int

  datatype Digest =
    | Genesis
    | Mac(key: Key, position: int, prev: Digest, fields: seq<string>)
    | Legacy(key: Key, line: string, prev: Digest)     // the digest of the earlier format
    | Other(text: string)

  datatype Record = Record(position: int, prev: Digest, hash: Digest, fields: seq<string>)

  /** How many records a log held, and the digest of the last; None for no digest yet. */
  datatype Anchor = Anchor(count: nat, hash: Option<Digest>)

  predicate Verifies(key: Key, r: Record) {
    r.hash == Mac(key, r.position, r.prev, r.fields)
  }

  function HashBefore(records: seq<Record>, i: nat): Digest
    requires i <= |records|
  {
    if i == 0 then Genesis else records[i - 1].hash
  }

  predicate Linked(key: Key, records: seq<Record>, i: nat)
    requires i < |records|
  {
    records[i].position == i + 1 && records[i].prev == HashBefore(records, i) && Verifies(key, records[i])
  }

  ghost predicate Chained(key: Key, records: seq<Record>) {
    forall i :: 0 <= i < |records| ==> Linked(key, records, i)
  }

  predicate AnchoredAt(records: seq<Record>, anchor: Anchor) {
    anchor.count == |records| && (anchor.hash == Some(HashBefore(records, |records|)) || (records == [] && anchor.hash == None))
  }

  function TailAnchor(records: seq<Record>): Anchor {
    Anchor(|records|, if records == [] then None else Some(HashBefore(records, |records|)))
  }

  /** A whole log checked against its anchor. */
  method VerifyStream(key: Key, records: seq<Record>, anchor: Anchor) returns (ok: bool)
    ensures ok <==> Chained(key, records) && AnchoredAt(records, anchor)
  {
    var prev := Genesis;
    for i := 0 to |records|
      invariant prev == HashBefore(records, i)
      invariant forall j :: 0 <= j < i ==> Linked(key, records, j)
    {
      var r := records[i];
      if r.position != i + 1 || r.prev != prev || !Verifies(key, r) {
        assert !Linked(key, records, i);
        return false;
      }
      prev := r.hash;
    }
    ok := anchor.count == |records| && (anchor.hash == Some(prev) || (records == [] && anchor.hash == None));
  }

  lemma {:induction false} SameBackFrom(key: Key, a: seq<Record>, b: seq<Record>, i: nat)
    requires Chained(key, a) && Chained(key, b) && |a| == |b| && i < |a|
    requires HashBefore(a, |a|) == HashBefore(b, |b|)
    ensures a[i] == b[i]
    decreases |a| - i
  {
    assert Linked(key, a, i) && Linked(key, b, i);
    if i + 1 < |a| {
      SameBackFrom(key, a, b, i + 1);
      assert Linked(key, a, i + 1) && Linked(key, b, i + 1);
    }
  }

  /** An anchor names one log: two that verify against it are equal, record by record. */
  lemma AnchorNamesOneLog(key: Key, a: seq<Record>, b: seq<Record>, anchor: Anchor)
    requires Chained(key, a) && AnchoredAt(a, anchor) && Chained(key, b) && AnchoredAt(b, anchor)
    ensures a == b
  {
    forall i | 0 <= i < |a| ensures a[i] == b[i] {
      SameBackFrom(key, a, b, i);
    }
  }

  function Extended(key: Key, records: seq<Record>, fields: seq<string>): seq<Record> {
    var prev := HashBefore(records, |records|);
    records + [Record(|records| + 1, prev, Mac(key, |records| + 1, prev, fields), fields)]
  }

  lemma ExtendedChained(key: Key, records: seq<Record>, fields: seq<string>)
    requires Chained(key, records)
    ensures Chained(key, Extended(key, records, fields))
  {
    var longer := Extended(key, records, fields);
    forall i | 0 <= i < |longer| ensures Linked(key, longer, i) {
      if i < |records| {
        assert Linked(key, records, i);
      }
    }
  }

  /** The records minted by appending each tuple in turn to an empty chain. */
  function Replay(key: Key, tuples: seq<seq<string>>): (records: seq<Record>)
    ensures |records| == |tuples|
  {
    if tuples == [] then [] else Extended(key, Replay(key, tuples[..|tuples| - 1]), tuples[|tuples| - 1])
  }

  lemma {:induction false} ReplayKeepsContent(key: Key, tuples: seq<seq<string>>)
    ensures Chained(key, Replay(key, tuples))
    ensures forall i :: 0 <= i < |tuples| ==> Replay(key, tuples)[i].fields == tuples[i]
  {
    if tuples != [] {
      ReplayKeepsContent(key, tuples[..|tuples| - 1]);
      ExtendedChained(key, Replay(key, tuples[..|tuples| - 1]), tuples[|tuples| - 1]);
    }
  }
}
