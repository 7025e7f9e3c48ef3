/** The greatest RAV value seen per allocation, and its sums per indexer. */
module RavTracker {
  import opened Common

  /** A parsed record of a collection id in the current format. */
  datatype Record = Record(signer: Address, allocation: Address, value: nat)

  datatype Allocation = Allocation(id: Address, indexer: Address)

  /** The map says, for each allocation with a record of an accepted signer and no other, the
      greatest value of those records. */
  ghost predicate Tracks(values: map<Address, nat>, records: seq<Record>, signers: set<Address>) {
    && (forall record :: record in records && record.signer in signers ==>
          record.allocation in values && record.value <= values[record.allocation])
    && (forall a :: a in values ==>
          exists record ::
            && record in records && record.signer in signers
            && record.allocation == a && record.value == values[a])
  }

  /** A map that tracks two histories of the same records, however often and in whatever order
      they were delivered, is one and the same. */
  lemma TracksUnique(values1: map<Address, nat>, values2: map<Address, nat>, records1: seq<Record>,
                     records2: seq<Record>, signers: set<Address>)
    requires Tracks(values1, records1, signers) && Tracks(values2, records2, signers)
    requires forall record :: record in records1 <==> record in records2
    ensures values1 == values2
  {
  }

  class Tracker {
    const signers: set<Address>
    var values: map<Address, nat>
    ghost var records: seq<Record>

    ghost predicate Valid()
      reads this
    {
      Tracks(values, records, signers)
    }

    constructor (signers: set<Address>)
      ensures Valid() && this.signers == signers && values == map[] && records == []
    {
      this.signers := signers;
      values, records := map[], [];
    }

    /** Handles one record; `modified` tells the watchers whether anything changed. */
    method Process(record: Record) returns (modified: bool)
      requires Valid()
      modifies this
      ensures Valid() && records == old(records) + [record]
      ensures modified <==> values != old(values)
      ensures modified ==> record.signer in signers && values == old(values)[record.allocation := record.value]
      // In its own terms.
      ensures modified <==>
              && record.signer in signers
              && (record.allocation in old(values) ==> old(values)[record.allocation] < record.value)
    {
      records := records + [record];
      if record.signer !in signers {
        return false;
      }
      assert record in records;
      if record.allocation !in values {
        values := values[record.allocation := record.value];
      } else if values[record.allocation] < record.value {
        values := values[record.allocation := record.value];
      } else {
        return false;
      }
      assert record.allocation in values && values[record.allocation] == record.value;
      return true;
    }
  }

  function ValueOf(values: map<Address, nat>, allocation: Allocation): nat {
    if allocation.id in values then values[allocation.id] else 0
  }

  function ValueFor(values: map<Address, nat>, allocation: Allocation, indexer: Address): nat {
    if allocation.indexer == indexer then ValueOf(values, allocation) else 0
  }

  /** The tracked values of an indexer's active allocations. */
  function IndexerTotal(allocations: seq<Allocation>, values: map<Address, nat>, indexer: Address): nat {
    SumBy(allocations, (allocation: Allocation) => ValueFor(values, allocation, indexer))
  }

  /** The tracked values of all active allocations. */
  function TotalTracked(allocations: seq<Allocation>, values: map<Address, nat>): nat {
    SumBy(allocations, (allocation: Allocation) => ValueOf(values, allocation))
  }

  lemma OneMoreAllocation(allocations: seq<Allocation>, values: map<Address, nat>, n: nat)
    requires n < |allocations|
    ensures TotalTracked(allocations[..n + 1], values) ==
            TotalTracked(allocations[..n], values) + ValueOf(values, allocations[n])
    ensures forall indexer :: IndexerTotal(allocations[..n + 1], values, indexer) ==
                              IndexerTotal(allocations[..n], values, indexer) +
                                  ValueFor(values, allocations[n], indexer)
  {
    assert allocations[..n + 1][..n] == allocations[..n];
  }

  predicate Tracked(allocations: seq<Allocation>, values: map<Address, nat>, indexer: Address) {
    exists allocation :: allocation in allocations && allocation.indexer == indexer && allocation.id in values
  }

  lemma OneMoreTracked(allocations: seq<Allocation>, values: map<Address, nat>, n: nat, indexer: Address)
    requires n < |allocations|
    ensures Tracked(allocations[..n + 1], values, indexer) <==>
            Tracked(allocations[..n], values, indexer) ||
                (allocations[n].indexer == indexer && allocations[n].id in values)
  {
  }

  /** Nothing is lost or counted twice on the way from the allocations to the indexers. */
  method IndexerRavs(allocations: seq<Allocation>, values: map<Address, nat>) returns (ravs: map<Address, nat>)
    ensures forall indexer :: indexer in ravs <==> Tracked(allocations, values, indexer)
    ensures forall indexer :: indexer in ravs ==> ravs[indexer] == IndexerTotal(allocations, values, indexer)
    ensures MapSum(ravs) == TotalTracked(allocations, values)
    // In its own terms.
    ensures forall indexer :: indexer in ravs <==>
              exists a :: a in allocations && a.indexer == indexer && a.id in values
    ensures forall indexer :: indexer in ravs ==>
              ravs[indexer] == SumBy(allocations, (a: Allocation) =>
                if a.indexer == indexer && a.id in values then values[a.id] else 0)
  {
    ravs := map[];
    for n := 0 to |allocations|
      invariant forall indexer :: indexer in ravs <==> Tracked(allocations[..n], values, indexer)
      invariant forall indexer: Address ::
                  (if indexer in ravs then ravs[indexer] else 0) == IndexerTotal(allocations[..n], values, indexer)
      invariant MapSum(ravs) == TotalTracked(allocations[..n], values)
    {
      var allocation := allocations[n];
      OneMoreAllocation(allocations, values, n);
      forall indexer { OneMoreTracked(allocations, values, n, indexer); }
      if allocation.id in values {
        var sum := (if allocation.indexer in ravs then ravs[allocation.indexer] else 0) + values[allocation.id];
        MapSumUpdate(ravs, allocation.indexer, sum);
        ravs := ravs[allocation.indexer := sum];
      }
    }
    assert allocations[..|allocations|] == allocations;
    forall indexer | indexer in ravs
      ensures ravs[indexer] == SumBy(allocations, (a: Allocation) =>
                if a.indexer == indexer && a.id in values then values[a.id] else 0)
    {
      SumByCongruence(allocations, (a: Allocation) => ValueFor(values, a, indexer), (a: Allocation) =>
        if a.indexer == indexer && a.id in values then values[a.id] else 0);
    }
  }
}
