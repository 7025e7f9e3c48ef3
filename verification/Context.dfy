/** The in-memory store behind the manager: receipts under running ids, the last RAV, and the
    least timestamp that is still accepted. */
module MemoryContext {
  import opened Common
  import opened Messages
  import opened Truncation

  datatype Range = HalfOpen(start: nat, end: nat) | UpTo(last: nat) {
    predicate Contains(t: nat) {
      match this
      case HalfOpen(start, end) => start <= t < end
      case UpTo(last) => t <= last
    }
  }

  datatype State = State(rav: Option<SignedRav>, receipts: map<nat, SignedReceipt>, nextId: nat, minTimestampNs: nat)

  function InRange(receipts: map<nat, SignedReceipt>, range: Range): map<nat, SignedReceipt> {
    map id | id in receipts && range.Contains(Time(receipts[id])) :: receipts[id]
  }

  /** The receipts of the range in some order or, with a limit, a truncation of them. */
  ghost predicate IsRetrieval(receipts: map<nat, SignedReceipt>, range: Range, limit: Option<nat>,
                              batch: seq<SignedReceipt>) {
    var all := Values(InRange(receipts, range));
    if limit.None? then multiset(batch) == all else IsTruncation(multiset(batch), all, limit.value)
  }

  /** All that asking for a range can give. */
  ghost function Retrievals(receipts: map<nat, SignedReceipt>, range: Range,
                            limit: Option<nat>): iset<seq<SignedReceipt>> {
    iset batch: seq<SignedReceipt> | IsRetrieval(receipts, range, limit, batch)
  }

  function Stored(state: State, receipt: SignedReceipt): State {
    state.(receipts := state.receipts[state.nextId := receipt], nextId := state.nextId + 1)
  }

  function Removed(state: State, range: Range): State {
    state.(receipts := map id | id in state.receipts && !range.Contains(Time(state.receipts[id])) :: state.receipts[id])
  }

  function WithRav(state: State, rav: SignedRav): State {
    state.(rav := Some(rav), minTimestampNs := rav.message.timestampNs)
  }

  /** Storing keeps every receipt exactly if the next id is free: a context that starts with
      receipts under small ids replaces them. */
  lemma StoringKeeps(state: State, receipt: SignedReceipt)
    ensures (forall id :: id in state.receipts ==> Stored(state, receipt).receipts[id] == state.receipts[id]) <==>
            (state.nextId in state.receipts ==> state.receipts[state.nextId] == receipt)
  {
    assert Stored(state, receipt).receipts[state.nextId] == receipt;
  }

  lemma WholeIsTruncation(all: Bag, limit: nat)
    requires |all| <= limit
    ensures IsTruncation(all, all, limit)
  {
  }

  lemma InRangeStep(receipts: map<nat, SignedReceipt>, rest: set<nat>, id: nat, range: Range)
    requires rest <= receipts.Keys && id in rest
    ensures id !in InRange(receipts - rest, range)
    ensures InRange(receipts - (rest - {id}), range) ==
            if range.Contains(Time(receipts[id])) then InRange(receipts - rest, range)[id := receipts[id]]
            else InRange(receipts - rest, range)
  {
  }

  /** The stored receipts under all ids that equal one receipt, counted. */
  function Stock(receipts: map<nat, SignedReceipt>, r: SignedReceipt): nat {
    |set id: nat | id in receipts && receipts[id] == r|
  }

  /** Half-open ranges take in their start and not their end, others their last time. */
  predicate Within(range: Range, t: nat) {
    || (range.HalfOpen? && range.start <= t && t < range.end)
    || (range.UpTo? && t <= range.last)
  }

  /** Without a limit, a retrieval has every stored receipt of the range as often as it is
      stored, and no other. With one, it has no more receipts than that, each no later than one
      that it has being there as often as it is stored. */
  lemma RetrievalExactly(receipts: map<nat, SignedReceipt>, range: Range, limit: Option<nat>, batch: seq<SignedReceipt>)
    requires IsRetrieval(receipts, range, limit, batch)
    ensures forall r :: multiset(batch)[r] <= if range.Contains(Time(r)) then Stock(receipts, r) else 0
    ensures limit.None? ==> forall r :: range.Contains(Time(r)) ==> multiset(batch)[r] == Stock(receipts, r)
    ensures limit.Some? ==>
              && |batch| <= limit.value
              && forall x, y :: x in batch && range.Contains(Time(y)) && Time(y) <= Time(x) ==>
                   multiset(batch)[y] == Stock(receipts, y)
  {
    var all := Values(InRange(receipts, range));
    forall r ensures all[r] == if range.Contains(Time(r)) then Stock(receipts, r) else 0 {
      InRangeStock(receipts, range, r);
    }
    assert |multiset(batch)| == |batch|;
    assert forall x :: x in batch <==> x in multiset(batch);
  }

  lemma InRangeStock(receipts: map<nat, SignedReceipt>, range: Range, r: SignedReceipt)
    ensures Values(InRange(receipts, range))[r] == if range.Contains(Time(r)) then Stock(receipts, r) else 0
  {
    var within := InRange(receipts, range);
    var found := set id: nat | id in within && within[id] == r;
    OccurrencesCount<nat, SignedReceipt>(within, r, found);
    assert Values<nat, SignedReceipt>(within)[r] == |found|;
    if range.Contains(Time(r)) {
      assert found == set id: nat | id in receipts && receipts[id] == r;
    } else {
      assert found == {} && |found| == 0;
    }
  }

  class InMemoryContext {
    var ravStorage: Option<SignedRav>
    var receiptStorage: map<nat, SignedReceipt>
    var uniqueId: nat
    var minTimestampNs: nat
    const senderAddress: Option<Address>

    function View(): State
      reads this
    {
      State(ravStorage, receiptStorage, uniqueId, minTimestampNs)
    }

    /** The storages may already hold something; ids are counted from zero all the same. */
    constructor (ravStorage: Option<SignedRav>, receiptStorage: map<nat, SignedReceipt>, minTimestampNs: nat,
                 senderAddress: Option<Address>)
      ensures View() == State(ravStorage, receiptStorage, 0, minTimestampNs) && this.senderAddress == senderAddress
    {
      this.ravStorage, this.receiptStorage, uniqueId := ravStorage, receiptStorage, 0;
      this.minTimestampNs, this.senderAddress := minTimestampNs, senderAddress;
    }

    method UpdateLastRav(rav: SignedRav)
      modifies this
      ensures View() == WithRav(old(View()), rav)
      ensures ravStorage == Some(rav) && minTimestampNs == rav.message.timestampNs
      ensures receiptStorage == old(receiptStorage) && uniqueId == old(uniqueId)
    {
      ravStorage := Some(rav);
      minTimestampNs := rav.message.timestampNs;
    }

    method StoreReceipt(receipt: SignedReceipt) returns (id: nat)
      modifies this
      ensures View() == Stored(old(View()), receipt) && id == old(uniqueId)
      ensures receiptStorage == old(receiptStorage)[id := receipt] && uniqueId == id + 1
      ensures ravStorage == old(ravStorage) && minTimestampNs == old(minTimestampNs)
    {
      id := uniqueId;
      receiptStorage := receiptStorage[uniqueId := receipt];
      uniqueId := uniqueId + 1;
    }

    method RemoveReceiptsInTimestampRange(range: Range)
      modifies this
      ensures View() == Removed(old(View()), range)
      ensures forall id :: id in receiptStorage <==>
                id in old(receiptStorage) && !range.Contains(Time(old(receiptStorage)[id]))
      ensures forall id :: id in receiptStorage ==> receiptStorage[id] == old(receiptStorage)[id]
      ensures ravStorage == old(ravStorage) && uniqueId == old(uniqueId) && minTimestampNs == old(minTimestampNs)
    {
      receiptStorage :=
        map id | id in receiptStorage && !range.Contains(Time(receiptStorage[id])) :: receiptStorage[id];
    }

    method CollectInRange(range: Range) returns (batch: seq<SignedReceipt>)
      ensures multiset(batch) == Values(InRange(receiptStorage, range))
    {
      batch := [];
      var rest := receiptStorage.Keys;
      while rest != {}
        invariant rest <= receiptStorage.Keys
        invariant multiset(batch) == Values(InRange(receiptStorage - rest, range))
      {
        var id := AnyOf(rest);
        InRangeStep(receiptStorage, rest, id, range);
        if range.Contains(Time(receiptStorage[id])) {
          ValuesAdd(InRange(receiptStorage - rest, range), id, receiptStorage[id]);
          batch := batch + [receiptStorage[id]];
        }
        rest := rest - {id};
      }
      assert receiptStorage - rest == receiptStorage;
    }

    method RetrieveReceiptsInTimestampRange(range: Range, limit: Option<nat>) returns (batch: seq<SignedReceipt>)
      ensures IsRetrieval(receiptStorage, range, limit, batch)
      // In its own terms: without a limit, just what is stored in the range.
      ensures limit.None? ==>
                forall r :: multiset(batch)[r] == if Within(range, Time(r)) then Stock(receiptStorage, r) else 0
      ensures forall r :: r in batch ==> Within(range, Time(r))
    {
      batch := CollectInRange(range);

      if limit.Some? {
        if |batch| > limit.value {
          batch := SafeTruncateReceipts(batch, limit.value);
        } else {
          WholeIsTruncation(multiset(batch), limit.value);
        }
      }
      RetrievalExactly(receiptStorage, range, limit, batch);
      forall r | r in batch ensures Within(range, Time(r)) {
        assert r in multiset(batch);
      }
    }

    predicate VerifySigner(signer: Address) {
      senderAddress.Some? && signer == senderAddress.value
    }
  }
}
