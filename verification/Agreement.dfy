/** The receiver's expectation of a RAV and the aggregator's verdict on the request for it. */
module Agreement {
  import opened Common
  import opened Messages
  import opened Truncation
  import opened Checks
  import opened Aggregation
  import opened Signers
  import opened Aggregator
  import opened MemoryContext
  import opened Manager
  import opened Protocol

  /** What a request must fulfil beyond what the manager's own filtering ensures: one identity,
      known signers, and a total that fits. */
  predicate Grantable(scheme: Scheme, request: RavRequest, registry: Registry) {
    && request.valid != []
    && var identity := request.valid[0].message.identity;
       && AllAbout(request.valid, identity)
       && (request.previous.Some? ==> request.previous.value.message.identity == identity)
       && identity.payer in registry
       && AllSignersAccepted(scheme, request.valid, registry[identity.payer].acceptedSigners)
       && (request.previous.Some? ==>
           SignerAccepted(scheme.ravSigner(request.previous.value), registry[identity.payer].acceptedSigners))
       && PreviousValue(request.previous) + TotalValue(request.valid) <= U128_MAX
  }

  /** Two of the aggregator's checks can never fail on a request that the manager made: unique
      ids, and timestamps after the previous RAV's. */
  lemma FilteredByManager(judge: Judge, state: State, end: nat, limit: Option<nat>, batch: seq<SignedReceipt>)
    requires IsRetrieval(state.receipts, HalfOpen(FirstTimestamp(state.rav), end), limit, batch)
    requires !judge.Undecided(Firsts(judge.scheme, batch))
    ensures var request := RequestFor(judge, state.rav, batch);
            judge.scheme.UniqueIds(request.valid) && AllLater(request.valid, request.previous)
  {
    RetrievedInRange(state.receipts, HalfOpen(FirstTimestamp(state.rav), end), limit, batch);
    RequestWithinBatch(judge, state.rav, batch);
  }

  ghost predicate Agreed(scheme: Scheme, request: RavRequest, registry: Registry, sender: Option<Address>) {
    var verdict := Verdict(scheme, request.valid, request.previous, registry);
    && (verdict.Ok? <==> Grantable(scheme, request, registry))
    && (verdict.Ok? ==>
          && request.expected == Ok(verdict.value.message)
          && var key := registry[request.valid[0].message.identity.payer].signingKey;
             Refusal(scheme, sender, request.expected.value, verdict.value) ==
             if sender == Some(scheme.address(key)) then None else Some(InvalidRecoveredSigner))
  }

  lemma AgreedOnFiltered(scheme: Scheme, request: RavRequest, registry: Registry, sender: Option<Address>)
    requires scheme.Sound()
    requires scheme.UniqueIds(request.valid) && AllLater(request.valid, request.previous)
    requires request.expected == Expected(request.valid, request.previous)
    ensures Agreed(scheme, request, registry, sender)
  {
  }

  /** Manager and aggregator agree. The aggregator grants a request exactly if it is grantable,
      and then issues the very RAV that the manager expects, with the payer's key; so the manager
      accepts it exactly if it takes that key's address for the sender. */
  lemma ManagerAndAggregatorAgree(judge: Judge, state: State, end: nat, limit: Option<nat>,
                                  batch: seq<SignedReceipt>, registry: Registry, sender: Option<Address>)
    requires judge.scheme.Sound()
    requires IsRetrieval(state.receipts, HalfOpen(FirstTimestamp(state.rav), end), limit, batch)
    requires !judge.Undecided(Firsts(judge.scheme, batch))
    ensures Agreed(judge.scheme, RequestFor(judge, state.rav, batch), registry, sender)
  {
    FilteredByManager(judge, state, end, limit, batch);
    AgreedOnFiltered(judge.scheme, RequestFor(judge, state.rav, batch), registry, sender);
  }

  lemma StoredAtOnce(scheme: Scheme, sender: Option<Address>, w: World, n: nat, signed: SignedRav)
    requires n < |w.pending| && w.pending[n].mark == |w.arrived| && w.pending[n].request.expected == Ok(signed.message)
    requires Refusal(scheme, sender, signed.message, signed) == None
    ensures Enabled(scheme, sender, w, StoreRav(n, signed))
    ensures var stored := Next(scheme, sender, w, StoreRav(n, signed));
            && stored.state.rav == Some(signed)
            && stored.counted == w.counted + w.pending[n].request.valid
            && forall id :: id in w.state.receipts ==>
                 (id in Next(scheme, sender, stored, Clean).state.receipts <==>
                     signed.message.timestampNs < Time(w.state.receipts[id]))
  {
  }

  /** A grantable request goes through: if the aggregator's RAV is stored before anything else
      arrives, it becomes the current one, and a clean-up then leaves exactly the receipts that
      are later than it. */
  lemma RoundCompletes(scheme: Scheme, sender: Option<Address>, w: World, end: nat, limit: Option<nat>,
                       batch: seq<SignedReceipt>, checks: seq<Check>, registry: Registry)
    requires scheme.Sound() && Enabled(scheme, sender, w, Request(end, limit, batch, checks))
    requires var request := RequestFor(Judge(scheme, checks, w.state.minTimestampNs), w.state.rav, batch);
             && Grantable(scheme, request, registry)
             && sender == Some(scheme.address(registry[request.valid[0].message.identity.payer].signingKey))
    ensures var request := RequestFor(Judge(scheme, checks, w.state.minTimestampNs), w.state.rav, batch);
            var requested, n: nat := Next(scheme, sender, w, Request(end, limit, batch, checks)), |w.pending|;
            var verdict := Verdict(scheme, request.valid, request.previous, registry);
            && verdict.Ok?
            && Enabled(scheme, sender, requested, StoreRav(n, verdict.value))
            && var stored := Next(scheme, sender, requested, StoreRav(n, verdict.value));
               && stored.state.rav == Some(verdict.value)
               && stored.counted == w.counted + request.valid
               && forall id :: id in w.state.receipts ==>
                    (id in Next(scheme, sender, stored, Clean).state.receipts <==>
                     verdict.value.message.timestampNs < Time(w.state.receipts[id]))
  {
    var judge := Judge(scheme, checks, w.state.minTimestampNs);
    ManagerAndAggregatorAgree(judge, w.state, end, limit, batch, registry, sender);
    var request := RequestFor(judge, w.state.rav, batch);
    var verdict := Verdict(scheme, request.valid, request.previous, registry);
    var requested := Next(scheme, sender, w, Request(end, limit, batch, checks));
    assert requested == w.(pending := w.pending + [Pending(request, |w.arrived|)]);
    StoredAtOnce(scheme, sender, requested, |w.pending|, verdict.value);
  }
}
