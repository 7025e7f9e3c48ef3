/** Aggregating receipts into a RAV. */
module Aggregation {
  import opened Common
  import opened Messages

  datatype AggregationError = AggregateOverflow | NoValidReceipts

  function ValueOf(receipt: SignedReceipt): nat {
    receipt.message.value
  }

  function TotalValue(receipts: seq<SignedReceipt>): nat {
    SumBy(receipts, ValueOf)
  }

  /** The greatest of a starting time and the receipts' timestamps. */
  function Latest(start: nat, receipts: seq<SignedReceipt>): nat {
    if receipts == [] then start
    else Max(Latest(start, receipts[..|receipts| - 1]), receipts[|receipts| - 1].message.timestampNs)
  }

  lemma {:induction false} LatestIsGreatest(start: nat, receipts: seq<SignedReceipt>)
    ensures start <= Latest(start, receipts)
    ensures forall r :: r in receipts ==> r.message.timestampNs <= Latest(start, receipts)
    ensures || Latest(start, receipts) == start
            || exists r :: r in receipts && r.message.timestampNs == Latest(start, receipts)
  {
    if receipts != [] {
      var n := |receipts| - 1;
      LatestIsGreatest(start, receipts[..n]);
      assert forall r :: r in receipts <==> r in receipts[..n] || r == receipts[n];
    }
  }

  function PreviousTimestamp(previous: Option<SignedRav>): nat {
    if previous.None? then 0 else previous.value.message.timestampNs
  }

  function PreviousValue(previous: Option<SignedRav>): nat {
    if previous.None? then 0 else previous.value.message.valueAggregate
  }

  /** The voucher over the receipts on top of a previous one: it exists exactly if the true
      total fits 128 bits. */
  function Aggregated(identity: Identity, receipts: seq<SignedReceipt>,
                      previous: Option<SignedRav>): Result<Rav, AggregationError> {
    var total := PreviousValue(previous) + TotalValue(receipts);
    if total > U128_MAX then Err(AggregateOverflow)
    else Ok(Rav(identity, Latest(PreviousTimestamp(previous), receipts), total, []))
  }

  /** The same for a batch that says itself whom it is about. */
  function Expected(receipts: seq<SignedReceipt>, previous: Option<SignedRav>): Result<Rav, AggregationError> {
    if receipts == [] then Err(NoValidReceipts)
    else Aggregated(receipts[0].message.identity, receipts, previous)
  }

  lemma TotalOfPrefix(receipts: seq<SignedReceipt>, n: nat)
    requires n <= |receipts|
    ensures TotalValue(receipts[..n]) <= TotalValue(receipts)
    ensures n < |receipts| ==> TotalValue(receipts[..n + 1]) == TotalValue(receipts[..n]) + receipts[n].message.value
  {
    assert receipts == receipts[..n] + receipts[n..];
    SumByConcat(receipts[..n], receipts[n..], ValueOf);
    if n < |receipts| { assert receipts[..n + 1][..n] == receipts[..n]; }
  }

  lemma TotalConcat(xs: seq<SignedReceipt>, ys: seq<SignedReceipt>)
    ensures TotalValue(xs + ys) == TotalValue(xs) + TotalValue(ys)
  {
    SumByConcat(xs, ys, ValueOf);
  }

  lemma LatestOfPrefix(start: nat, receipts: seq<SignedReceipt>, n: nat)
    requires n < |receipts|
    ensures Latest(start, receipts[..n + 1]) == Max(Latest(start, receipts[..n]), receipts[n].message.timestampNs)
  {
    assert receipts[..n + 1][..n] == receipts[..n];
  }

  /** The sum of the receipts' values and the previous one's. */
  function FullTotal(receipts: seq<SignedReceipt>, previous: Option<SignedRav>): nat {
    (match previous case None => 0 case Some(rav) => rav.message.valueAggregate)
    + SumBy(receipts, (r: SignedReceipt) => r.message.value)
  }

  /** A voucher in its own terms: whom it is about, the full total, the greatest timestamp, and
      no metadata. */
  ghost predicate Vouches(rav: Rav, identity: Identity, receipts: seq<SignedReceipt>, previous: Option<SignedRav>) {
    && rav.identity == identity && rav.metadata == []
    && rav.valueAggregate == FullTotal(receipts, previous)
    && (previous.Some? ==> previous.value.message.timestampNs <= rav.timestampNs)
    && (forall r :: r in receipts ==> r.message.timestampNs <= rav.timestampNs)
    && (|| (exists r :: r in receipts && r.message.timestampNs == rav.timestampNs)
        || rav.timestampNs == match previous case None => 0 case Some(earlier) => earlier.message.timestampNs)
  }

  lemma AggregatedExactly(identity: Identity, receipts: seq<SignedReceipt>, previous: Option<SignedRav>)
    ensures var result := Aggregated(identity, receipts, previous);
            && (result.Ok? <==> FullTotal(receipts, previous) <= U128_MAX)
            && (result.Ok? ==> Vouches(result.value, identity, receipts, previous))
            && (result.Err? ==> result.error == AggregateOverflow)
  {
    SumByCongruence(receipts, ValueOf, (r: SignedReceipt) => r.message.value);
    LatestIsGreatest(PreviousTimestamp(previous), receipts);
  }

  method AggregateReceipts(identity: Identity, receipts: seq<SignedReceipt>, previous: Option<SignedRav>)
    returns (result: Result<Rav, AggregationError>)
    ensures result == Aggregated(identity, receipts, previous)
    ensures result.Ok? <==> FullTotal(receipts, previous) <= U128_MAX
    ensures result.Ok? ==> Vouches(result.value, identity, receipts, previous)
    ensures result.Err? ==> result.error == AggregateOverflow
  {
    AggregatedExactly(identity, receipts, previous);
    var timestampMax, valueAggregate: u128 := 0, 0;
    if previous.Some? {
      timestampMax := previous.value.message.timestampNs;
      valueAggregate := previous.value.message.valueAggregate;
    }
    for n := 0 to |receipts|
      invariant valueAggregate == PreviousValue(previous) + TotalValue(receipts[..n])
      invariant timestampMax == Latest(PreviousTimestamp(previous), receipts[..n])
    {
      TotalOfPrefix(receipts, n);
      if valueAggregate + receipts[n].message.value > U128_MAX {
        TotalOfPrefix(receipts, n + 1);
        return Err(AggregateOverflow);
      }
      valueAggregate := valueAggregate + receipts[n].message.value;
      LatestOfPrefix(PreviousTimestamp(previous), receipts, n);
      timestampMax := Max(timestampMax, receipts[n].message.timestampNs);
    }
    assert receipts[..|receipts|] == receipts;
    return Ok(Rav(identity, timestampMax, valueAggregate, []));
  }

  method AggregateChecked(receipts: seq<SignedReceipt>, previous: Option<SignedRav>)
    returns (result: Result<Rav, AggregationError>)
    ensures result == Expected(receipts, previous)
    ensures result == Err(NoValidReceipts) <==> receipts == []
    ensures result.Ok? <==> receipts != [] && FullTotal(receipts, previous) <= U128_MAX
    ensures result.Ok? ==> Vouches(result.value, receipts[0].message.identity, receipts, previous)
  {
    if |receipts| == 0 {
      return Err(NoValidReceipts);
    }
    result := AggregateReceipts(receipts[0].message.identity, receipts, previous);
  }

  lemma LatestUnique(start: nat, receipts: seq<SignedReceipt>, t: nat)
    requires start <= t && forall r :: r in receipts ==> r.message.timestampNs <= t
    requires t == start || exists r :: r in receipts && r.message.timestampNs == t
    ensures t == Latest(start, receipts)
  {
    LatestIsGreatest(start, receipts);
  }

  lemma {:induction false} LatestConcat(start: nat, xs: seq<SignedReceipt>, ys: seq<SignedReceipt>)
    ensures Latest(start, xs + ys) == Latest(Latest(start, xs), ys)
  {
    if ys == [] {
      assert xs + ys == xs;
    } else {
      LatestConcat(start, xs, ys[..|ys| - 1]);
      assert (xs + ys)[..|xs + ys| - 1] == xs + ys[..|ys| - 1];
    }
  }

  lemma SameMembers(xs: seq<SignedReceipt>, ys: seq<SignedReceipt>)
    requires multiset(xs) == multiset(ys)
    ensures forall r :: r in xs <==> r in ys
  {
    forall r ensures r in xs <==> r in ys {
      assert r in xs <==> r in multiset(xs);
      assert r in ys <==> r in multiset(ys);
    }
  }

  /** The order of the receipts does not matter, for success or for the voucher. */
  lemma OrderIrrelevant(identity: Identity, xs: seq<SignedReceipt>, ys: seq<SignedReceipt>, previous: Option<SignedRav>)
    requires multiset(xs) == multiset(ys)
    ensures Aggregated(identity, xs, previous) == Aggregated(identity, ys, previous)
  {
    SumByPermutation(xs, ys, ValueOf);
    SameMembers(xs, ys);
    LatestIsGreatest(PreviousTimestamp(previous), ys);
    LatestUnique(PreviousTimestamp(previous), xs, Latest(PreviousTimestamp(previous), ys));
  }

  /** Aggregating in two rounds, the second on top of the voucher of the first, is the same as
      aggregating at once, however the first voucher is signed. */
  lemma InTwoRounds(identity: Identity, xs: seq<SignedReceipt>, ys: seq<SignedReceipt>, previous: Option<SignedRav>,
                    signature: Signature)
    ensures Aggregated(identity, xs + ys, previous) ==
            match Aggregated(identity, xs, previous)
            case Err(error) => Err(error)
            case Ok(rav) => Aggregated(identity, ys, Some(SignedRav(rav, signature)))
  {
    TotalConcat(xs, ys);
    LatestConcat(PreviousTimestamp(previous), xs, ys);
    if PreviousValue(previous) + TotalValue(xs) <= U128_MAX {
      var first := Some(SignedRav(Aggregated(identity, xs, previous).value, signature));
      assert PreviousValue(first) == PreviousValue(previous) + TotalValue(xs);
      assert PreviousTimestamp(first) == Latest(PreviousTimestamp(previous), xs);
    }
  }

  lemma OnTopOf(identity: Identity, xs: seq<SignedReceipt>, ys: seq<SignedReceipt>, previous: Option<SignedRav>,
                issued: SignedRav)
    requires Aggregated(identity, xs, previous) == Ok(issued.message)
    ensures Aggregated(identity, xs + ys, previous) == Aggregated(identity, ys, Some(issued))
  {
    InTwoRounds(identity, xs, ys, previous, issued.signature);
  }
}
