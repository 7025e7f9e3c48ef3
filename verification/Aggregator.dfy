/** The aggregator service: checking a batch of receipts and issuing a signed RAV for it. */
module Aggregator {
  import opened Common
  import opened Messages
  import opened Aggregation
  import opened Signers

  datatype AggregatorError =
    | DuplicateReceiptSignature
    | NoValidReceiptsForRavRequest
    | UnknownSigningPayer
    | InvalidSigner
    | ReceiptTimestampLowerThanRav
    | RavCollectionIdNotUniform
    | RavCollectionIdMismatch
    | Overflow

  predicate SignerAccepted(signer: Option<Address>, accepted: set<Address>) {
    signer.Some? && signer.value in accepted
  }

  predicate AllSignersAccepted(scheme: Scheme, receipts: seq<SignedReceipt>, accepted: set<Address>) {
    forall r :: r in receipts ==> SignerAccepted(scheme.receiptSigner(r), accepted)
  }

  predicate AllLater(receipts: seq<SignedReceipt>, previous: Option<SignedRav>) {
    previous.Some? ==> forall r :: r in receipts ==> previous.value.message.timestampNs < r.message.timestampNs
  }

  predicate AllAbout(receipts: seq<SignedReceipt>, identity: Identity) {
    forall r :: r in receipts ==> r.message.identity == identity
  }

  /** The outcome for a batch, checks in the order in which they are made. */
  function Verdict(scheme: Scheme, receipts: seq<SignedReceipt>, previous: Option<SignedRav>,
                   registry: Registry): Result<SignedRav, AggregatorError> {
    if !scheme.UniqueIds(receipts) then Err(DuplicateReceiptSignature)
    else if receipts == [] then Err(NoValidReceiptsForRavRequest)
    else
      var identity := receipts[0].message.identity;
      if identity.payer !in registry then Err(UnknownSigningPayer)
      else
        var keys := registry[identity.payer];
        if !AllSignersAccepted(scheme, receipts, keys.acceptedSigners) then Err(InvalidSigner)
        else if previous.Some? && !SignerAccepted(scheme.ravSigner(previous.value), keys.acceptedSigners)
        then Err(InvalidSigner)
        else if !AllLater(receipts, previous) then Err(ReceiptTimestampLowerThanRav)
        else if !AllAbout(receipts, identity) then Err(RavCollectionIdNotUniform)
        else if previous.Some? && previous.value.message.identity != identity then Err(RavCollectionIdMismatch)
        else
          var aggregated := Aggregated(identity, receipts, previous);
          if aggregated.Err? then Err(Overflow)
          else Ok(SignedRav(aggregated.value, scheme.sign(aggregated.value, keys.signingKey)))
  }

  // ---------- The verdict in its own terms ----------

  predicate DifferentIds(scheme: Scheme, receipts: seq<SignedReceipt>) {
    forall i, j :: 0 <= i < j < |receipts| ==>
      scheme.canonical(receipts[i].signature) != scheme.canonical(receipts[j].signature)
  }

  /** Distinct receipts of a payer that there is a key for. */
  predicate HasKey(scheme: Scheme, receipts: seq<SignedReceipt>, registry: Registry) {
    DifferentIds(scheme, receipts) && receipts != [] && receipts[0].message.identity.payer in registry
  }

  predicate SignedByAny(signer: Option<Address>, accepted: set<Address>) {
    signer.Some? && exists a :: a in accepted && signer.value == a
  }

  /** The receipts, and the RAV that they come on top of, are signed by signers accepted for the
      payer. */
  predicate Authorised(scheme: Scheme, receipts: seq<SignedReceipt>, previous: Option<SignedRav>, registry: Registry) {
    && HasKey(scheme, receipts, registry)
    && var accepted := registry[receipts[0].message.identity.payer].acceptedSigners;
       && (forall r :: r in receipts ==> SignedByAny(scheme.receiptSigner(r), accepted))
       && (previous.Some? ==> SignedByAny(scheme.ravSigner(previous.value), accepted))
  }

  predicate Newer(receipts: seq<SignedReceipt>, previous: Option<SignedRav>) {
    forall r :: r in receipts && previous.Some? ==> r.message.timestampNs > previous.value.message.timestampNs
  }

  predicate Uniform(receipts: seq<SignedReceipt>) {
    forall a, b :: a in receipts && b in receipts ==> a.message.identity == b.message.identity
  }

  /** What each outcome means, in the order of the checks. */
  ghost predicate Adjudicated(scheme: Scheme, receipts: seq<SignedReceipt>, previous: Option<SignedRav>,
                              registry: Registry, result: Result<SignedRav, AggregatorError>) {
    match result
    case Err(DuplicateReceiptSignature) => !DifferentIds(scheme, receipts)
    case Err(NoValidReceiptsForRavRequest) => receipts == []
    case Err(UnknownSigningPayer) =>
      DifferentIds(scheme, receipts) && receipts != [] && receipts[0].message.identity.payer !in registry
    case Err(InvalidSigner) =>
      HasKey(scheme, receipts, registry) && !Authorised(scheme, receipts, previous, registry)
    case Err(ReceiptTimestampLowerThanRav) =>
      Authorised(scheme, receipts, previous, registry) && !Newer(receipts, previous)
    case Err(RavCollectionIdNotUniform) =>
      Authorised(scheme, receipts, previous, registry) && Newer(receipts, previous) && !Uniform(receipts)
    case Err(RavCollectionIdMismatch) =>
      && Authorised(scheme, receipts, previous, registry) && Newer(receipts, previous) && Uniform(receipts)
      && previous.Some? && previous.value.message.identity != receipts[0].message.identity
    case Err(Overflow) =>
      && Authorised(scheme, receipts, previous, registry) && Newer(receipts, previous) && Uniform(receipts)
      && (previous.Some? ==> previous.value.message.identity == receipts[0].message.identity)
      && FullTotal(receipts, previous) > U128_MAX
    case Ok(issued) =>
      && Authorised(scheme, receipts, previous, registry) && Newer(receipts, previous) && Uniform(receipts)
      && (previous.Some? ==> previous.value.message.identity == receipts[0].message.identity)
      && Vouches(issued.message, receipts[0].message.identity, receipts, previous)
      && issued.signature == scheme.sign(issued.message, registry[receipts[0].message.identity.payer].signingKey)
  }

  lemma VerdictMeans(scheme: Scheme, receipts: seq<SignedReceipt>, previous: Option<SignedRav>, registry: Registry)
    ensures Adjudicated(scheme, receipts, previous, registry, Verdict(scheme, receipts, previous, registry))
  {
    if receipts != [] {
      assert receipts[0] in receipts;
      assert Uniform(receipts) <==> AllAbout(receipts, receipts[0].message.identity);
      AggregatedExactly(receipts[0].message.identity, receipts, previous);
    }
  }

  /** These terms determine the outcome, the issued RAV and its signature included. */
  lemma AdjudicatedUnique(scheme: Scheme, receipts: seq<SignedReceipt>, previous: Option<SignedRav>, registry: Registry,
                          r1: Result<SignedRav, AggregatorError>, r2: Result<SignedRav, AggregatorError>)
    requires Adjudicated(scheme, receipts, previous, registry, r1)
    requires Adjudicated(scheme, receipts, previous, registry, r2)
    ensures r1 == r2
  {
    if receipts != [] { assert receipts[0] in receipts; }
    if r1.Ok? && r2.Ok? {
      SameVoucher(receipts, previous, r1.value.message, r2.value.message);
    }
  }

  lemma SameVoucher(receipts: seq<SignedReceipt>, previous: Option<SignedRav>, rav1: Rav, rav2: Rav)
    requires receipts != []
    requires Vouches(rav1, receipts[0].message.identity, receipts, previous)
    requires Vouches(rav2, receipts[0].message.identity, receipts, previous)
    ensures rav1 == rav2
  {
  }

  method CheckSignaturesUnique(scheme: Scheme, receipts: seq<SignedReceipt>) returns (ok: bool)
    ensures ok <==> scheme.UniqueIds(receipts)
    ensures ok <==> DifferentIds(scheme, receipts)
  {
    var seen: set<nat> := {};
    for n := 0 to |receipts|
      invariant scheme.UniqueIds(receipts[..n])
      invariant forall id :: id in seen <==> exists i :: 0 <= i < n && scheme.UniqueId(receipts[i]) == id
    {
      var id := scheme.UniqueId(receipts[n]);
      if id in seen {
        return false;
      }
      seen := seen + {id};
    }
    assert receipts[..|receipts|] == receipts;
    return true;
  }

  method CheckReceiptTimestamps(receipts: seq<SignedReceipt>, previous: Option<SignedRav>) returns (ok: bool)
    ensures ok <==> AllLater(receipts, previous)
    ensures ok <==> forall r :: r in receipts && previous.Some? ==>
              r.message.timestampNs > previous.value.message.timestampNs
  {
    if previous.Some? {
      for n := 0 to |receipts|
        invariant AllLater(receipts[..n], previous)
      {
        if previous.value.message.timestampNs >= receipts[n].message.timestampNs {
          return false;
        }
      }
    }
    return true;
  }

  method CheckCollectionId(receipts: seq<SignedReceipt>, identity: Identity) returns (ok: bool)
    ensures ok <==> AllAbout(receipts, identity)
    ensures ok <==> forall r :: r in receipts ==>
              && r.message.identity.collectionId == identity.collectionId && r.message.identity.payer == identity.payer
              && r.message.identity.dataService == identity.dataService
              && r.message.identity.serviceProvider == identity.serviceProvider
  {
    for n := 0 to |receipts|
      invariant AllAbout(receipts[..n], identity)
    {
      if receipts[n].message.identity != identity {
        return false;
      }
    }
    return true;
  }

  method CheckSigners(scheme: Scheme, receipts: seq<SignedReceipt>, accepted: set<Address>) returns (ok: bool)
    ensures ok <==> AllSignersAccepted(scheme, receipts, accepted)
    ensures ok <==> forall r :: r in receipts ==> exists a :: a in accepted && scheme.receiptSigner(r) == Some(a)
  {
    for n := 0 to |receipts|
      invariant AllSignersAccepted(scheme, receipts[..n], accepted)
    {
      if !SignerAccepted(scheme.receiptSigner(receipts[n]), accepted) {
        return false;
      }
    }
    return true;
  }

  method CheckAndAggregateReceipts(scheme: Scheme, receipts: seq<SignedReceipt>, previous: Option<SignedRav>,
                                   registry: Registry)
    returns (result: Result<SignedRav, AggregatorError>)
    ensures result == Verdict(scheme, receipts, previous, registry)
    // In its own terms.
    ensures Adjudicated(scheme, receipts, previous, registry, result)
  {
    VerdictMeans(scheme, receipts, previous, registry);
    var ok := CheckSignaturesUnique(scheme, receipts);
    if !ok { return Err(DuplicateReceiptSignature); }
    if |receipts| == 0 { return Err(NoValidReceiptsForRavRequest); }
    var identity := receipts[0].message.identity;
    if identity.payer !in registry { return Err(UnknownSigningPayer); }
    var keys := registry[identity.payer];
    ok := CheckSigners(scheme, receipts, keys.acceptedSigners);
    if !ok { return Err(InvalidSigner); }
    if previous.Some? {
      if !SignerAccepted(scheme.ravSigner(previous.value), keys.acceptedSigners) { return Err(InvalidSigner); }
    }
    ok := CheckReceiptTimestamps(receipts, previous);
    if !ok { return Err(ReceiptTimestampLowerThanRav); }
    ok := CheckCollectionId(receipts, identity);
    if !ok { return Err(RavCollectionIdNotUniform); }
    if previous.Some? && previous.value.message.identity != identity { return Err(RavCollectionIdMismatch); }
    var aggregated := AggregateReceipts(identity, receipts, previous);
    if aggregated.Err? { return Err(Overflow); }
    return Ok(SignedRav(aggregated.value, scheme.sign(aggregated.value, keys.signingKey)));
  }

  /** With a built registry, an issued RAV is signed by its payer's own key, and every receipt
      in it by a signer accepted for that payer and for no other. */
  lemma SignedForItsPayer(scheme: Scheme, keys: KeyList, accepted: SignerList, registry: Registry,
                          receipts: seq<SignedReceipt>, previous: Option<SignedRav>, issued: SignedRav)
    requires scheme.Sound() && Consistent(scheme, keys, accepted) && Registers(scheme, keys, accepted, registry)
    requires Verdict(scheme, receipts, previous, registry) == Ok(issued)
    ensures var payer := issued.message.identity.payer;
            && payer in registry
            && scheme.ravSigner(issued) == Some(scheme.address(registry[payer].signingKey))
            && scheme.ravSigner(issued).value in registry[payer].acceptedSigners
            && forall r, q :: r in receipts && q in registry ==>
                 && r.message.identity.payer == payer
                 && scheme.receiptSigner(r).Some?
                 && (scheme.receiptSigner(r).value in registry[q].acceptedSigners <==> q == payer)
  {
  }

  // ---------- Chains of RAVs ----------

  /** What a successful call makes of its inputs, signatures apart. */
  ghost predicate Extends(scheme: Scheme, receipts: seq<SignedReceipt>, previous: Option<SignedRav>,
                          issued: SignedRav) {
    && receipts != []
    && scheme.UniqueIds(receipts)
    && AllLater(receipts, previous)
    && AllAbout(receipts, issued.message.identity)
    && (previous.Some? ==> previous.value.message.identity == issued.message.identity)
    && Aggregated(issued.message.identity, receipts, previous) == Ok(issued.message)
  }

  lemma IssuedExtends(scheme: Scheme, receipts: seq<SignedReceipt>, previous: Option<SignedRav>, registry: Registry,
                      issued: SignedRav)
    requires Verdict(scheme, receipts, previous, registry) == Ok(issued)
    ensures Extends(scheme, receipts, previous, issued)
  {
  }

  /** One successful call; the configuration may have changed between calls. */
  datatype Round = Round(receipts: seq<SignedReceipt>, registry: Registry, issued: SignedRav)

  /** Successful calls, each on top of the RAV issued by the one before. */
  ghost predicate Chain(scheme: Scheme, previous: Option<SignedRav>, rounds: seq<Round>)
    decreases |rounds|
  {
    rounds == [] ||
    (&& Verdict(scheme, rounds[0].receipts, previous, rounds[0].registry) == Ok(rounds[0].issued)
     && Chain(scheme, Some(rounds[0].issued), rounds[1..]))
  }

  ghost predicate Linked(scheme: Scheme, previous: Option<SignedRav>, rounds: seq<Round>)
    decreases |rounds|
  {
    rounds == [] ||
    (&& Extends(scheme, rounds[0].receipts, previous, rounds[0].issued)
     && Linked(scheme, Some(rounds[0].issued), rounds[1..]))
  }

  lemma {:induction false} ChainLinked(scheme: Scheme, previous: Option<SignedRav>, rounds: seq<Round>)
    requires Chain(scheme, previous, rounds)
    ensures Linked(scheme, previous, rounds)
    decreases |rounds|
  {
    if rounds != [] {
      IssuedExtends(scheme, rounds[0].receipts, previous, rounds[0].registry, rounds[0].issued);
      ChainLinked(scheme, Some(rounds[0].issued), rounds[1..]);
    }
  }

  function AllReceipts(rounds: seq<Round>): seq<SignedReceipt> {
    if rounds == [] then [] else rounds[0].receipts + AllReceipts(rounds[1..])
  }

  lemma ExtendsTimes(scheme: Scheme, receipts: seq<SignedReceipt>, previous: Option<SignedRav>, issued: SignedRav)
    requires Extends(scheme, receipts, previous, issued)
    ensures forall r :: r in receipts ==> r.message.timestampNs <= issued.message.timestampNs
    ensures previous.Some? ==> previous.value.message.timestampNs < issued.message.timestampNs
    ensures PreviousValue(previous) <= issued.message.valueAggregate
  {
    LatestIsGreatest(PreviousTimestamp(previous), receipts);
    assert receipts[0] in receipts;
  }

  lemma {:induction false} LinkedLater(scheme: Scheme, previous: Option<SignedRav>, rounds: seq<Round>)
    requires Linked(scheme, previous, rounds)
    ensures AllLater(AllReceipts(rounds), previous)
    decreases |rounds|
  {
    if rounds != [] {
      ExtendsTimes(scheme, rounds[0].receipts, previous, rounds[0].issued);
      LinkedLater(scheme, Some(rounds[0].issued), rounds[1..]);
    }
  }

  lemma {:induction false} LinkedIdentity(scheme: Scheme, previous: Option<SignedRav>, rounds: seq<Round>,
                                          identity: Identity)
    requires Linked(scheme, previous, rounds)
    requires previous.Some? && previous.value.message.identity == identity
    ensures AllAbout(AllReceipts(rounds), identity)
    ensures forall i :: 0 <= i < |rounds| ==> rounds[i].issued.message.identity == identity
    decreases |rounds|
  {
    if rounds != [] {
      LinkedIdentity(scheme, Some(rounds[0].issued), rounds[1..], identity);
      assert forall i :: 1 <= i < |rounds| ==> rounds[i] == rounds[1..][i - 1];
    }
  }

  lemma {:induction false} LinkedAggregates(scheme: Scheme, previous: Option<SignedRav>, rounds: seq<Round>,
                                            identity: Identity)
    requires rounds != [] && Linked(scheme, previous, rounds)
    requires rounds[0].issued.message.identity == identity
    ensures Aggregated(identity, AllReceipts(rounds), previous) == Ok(rounds[|rounds| - 1].issued.message)
    decreases |rounds|
  {
    var first, rest := rounds[0], rounds[1..];
    if rest == [] {
      assert AllReceipts(rounds) == first.receipts;
    } else {
      LinkedAggregates(scheme, Some(first.issued), rest, identity);
      assert rounds[|rounds| - 1] == rest[|rest| - 1];
      assert AllReceipts(rounds) == first.receipts + AllReceipts(rest);
      OnTopOf(identity, first.receipts, AllReceipts(rest), previous, first.issued);
    }
  }

  lemma UniqueConcat(scheme: Scheme, a: seq<SignedReceipt>, b: seq<SignedReceipt>)
    requires scheme.UniqueIds(a) && scheme.UniqueIds(b)
    requires forall x, y :: x in a && y in b ==> scheme.UniqueId(x) != scheme.UniqueId(y)
    ensures scheme.UniqueIds(a + b)
  {
  }

  lemma {:induction false} LinkedUnique(scheme: Scheme, previous: Option<SignedRav>, rounds: seq<Round>)
    requires Linked(scheme, previous, rounds) && scheme.IdsDetermine(AllReceipts(rounds))
    ensures scheme.UniqueIds(AllReceipts(rounds))
    decreases |rounds|
  {
    if rounds != [] {
      var first, rest := rounds[0], rounds[1..];
      LinkedUnique(scheme, Some(first.issued), rest);
      ExtendsTimes(scheme, first.receipts, previous, first.issued);
      LinkedLater(scheme, Some(first.issued), rest);
      UniqueConcat(scheme, first.receipts, AllReceipts(rest));
    }
  }

  lemma {:induction false} LinkedAdvances(scheme: Scheme, previous: Option<SignedRav>, rounds: seq<Round>, i: nat,
                                          j: nat)
    requires Linked(scheme, previous, rounds) && i < j < |rounds|
    ensures rounds[i].issued.message.timestampNs < rounds[j].issued.message.timestampNs
    ensures rounds[i].issued.message.valueAggregate <= rounds[j].issued.message.valueAggregate
    decreases |rounds|
  {
    var first, rest := rounds[0], rounds[1..];
    if i > 0 {
      LinkedAdvances(scheme, Some(first.issued), rest, i - 1, j - 1);
    } else {
      ExtendsTimes(scheme, rest[0].receipts, Some(first.issued), rest[0].issued);
      if j > 1 { LinkedAdvances(scheme, Some(first.issued), rest, 0, j - 1); }
    }
  }

  /** Chains of calls. In the end a chain issues the very RAV that aggregating all its receipts
      at once would give; all of it is about one identity; and timestamps strictly increase. */
  lemma ChainIsOneAggregation(scheme: Scheme, previous: Option<SignedRav>, rounds: seq<Round>)
    requires rounds != [] && Chain(scheme, previous, rounds)
    ensures var identity := rounds[0].issued.message.identity;
            && Aggregated(identity, AllReceipts(rounds), previous) == Ok(rounds[|rounds| - 1].issued.message)
            && AllAbout(AllReceipts(rounds), identity)
            && (previous.Some? ==> previous.value.message.identity == identity)
            && forall i :: 0 <= i < |rounds| ==> rounds[i].issued.message.identity == identity
    ensures forall i, j :: 0 <= i < j < |rounds| ==>
              && rounds[i].issued.message.timestampNs < rounds[j].issued.message.timestampNs
              && rounds[i].issued.message.valueAggregate <= rounds[j].issued.message.valueAggregate
  {
    var identity := rounds[0].issued.message.identity;
    ChainLinked(scheme, previous, rounds);
    LinkedAggregates(scheme, previous, rounds, identity);
    LinkedIdentity(scheme, Some(rounds[0].issued), rounds[1..], identity);
    forall i | 0 <= i < |rounds| ensures rounds[i].issued.message.identity == identity {
      if i > 0 { assert rounds[i] == rounds[1..][i - 1]; }
    }
    forall i, j | 0 <= i < j < |rounds|
      ensures rounds[i].issued.message.timestampNs < rounds[j].issued.message.timestampNs
      ensures rounds[i].issued.message.valueAggregate <= rounds[j].issued.message.valueAggregate
    {
      LinkedAdvances(scheme, previous, rounds, i, j);
    }
  }

  /** Replay freedom: no unique id occurs twice in a chain, in one batch or across batches, and
      no receipt is as old as the RAV that the chain started from. */
  lemma ChainNeverRepeats(scheme: Scheme, previous: Option<SignedRav>, rounds: seq<Round>)
    requires Chain(scheme, previous, rounds) && scheme.IdsDetermine(AllReceipts(rounds))
    ensures scheme.UniqueIds(AllReceipts(rounds)) && AllLater(AllReceipts(rounds), previous)
  {
    ChainLinked(scheme, previous, rounds);
    LinkedUnique(scheme, previous, rounds);
    LinkedLater(scheme, previous, rounds);
  }
}
