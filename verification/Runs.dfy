/** What holds at every moment of every run of the protocol. */
module Runs {
  import opened Common
  import opened Messages
  import opened Truncation
  import opened Checks
  import opened Aggregation
  import opened MemoryContext
  import opened Manager
  import opened Protocol

  /** The worlds a run goes through, one for each event and one more, from a store without
      receipts on. */
  ghost predicate Run(scheme: Scheme, sender: Option<Address>, worlds: seq<World>, events: seq<Event>) {
    && |worlds| == |events| + 1
    && worlds[0] == Initial(worlds[0].base, worlds[0].state.minTimestampNs)
    && Resumable(worlds[0].base, worlds[0].state.minTimestampNs)
    && forall i :: 0 <= i < |events| ==>
         Enabled(scheme, sender, worlds[i], events[i]) && worlds[i + 1] == Next(scheme, sender, worlds[i], events[i])
  }

  lemma StepKeeps(scheme: Scheme, sender: Option<Address>, w: World, e: Event)
    requires Inv(scheme, w) && Enabled(scheme, sender, w, e)
    ensures Inv(scheme, Next(scheme, sender, w, e))
  {
    match e
    case Receive(_, _) => ReceiveKeeps(scheme, sender, w, e);
    case Request(_, _, _, _) => RequestKeeps(scheme, sender, w, e);
    case StoreRav(_, _) => StoreRavKeeps(scheme, sender, w, e);
    case Clean => CleanKeeps(scheme, sender, w, e);
  }

  lemma InitialHolds(scheme: Scheme, base: Option<SignedRav>, minTimestampNs: nat)
    requires Resumable(base, minTimestampNs)
    ensures Inv(scheme, Initial(base, minTimestampNs))
  {
  }

  lemma {:induction false} RunKeeps(scheme: Scheme, sender: Option<Address>, worlds: seq<World>, events: seq<Event>,
                                    i: nat)
    requires Run(scheme, sender, worlds, events) && i < |worlds|
    ensures Inv(scheme, worlds[i])
  {
    if i == 0 {
      InitialHolds(scheme, worlds[0].base, worlds[0].state.minTimestampNs);
    } else {
      RunKeeps(scheme, sender, worlds, events, i - 1);
      StepKeeps(scheme, sender, worlds[i - 1], events[i - 1]);
    }
  }

  /** Exact accounting. At every moment the stored RAV's value is that of the first RAV plus the
      sum over the receipts ever counted, and its timestamp the greatest among theirs; no receipt
      has been counted twice; and every open request counts only receipts that are later still. */
  lemma ExactAccounting(scheme: Scheme, sender: Option<Address>, worlds: seq<World>, events: seq<Event>, i: nat)
    requires Run(scheme, sender, worlds, events) && i < |worlds|
    ensures var w, base := worlds[i], worlds[0].state.rav;
            && PreviousValue(w.state.rav) == PreviousValue(base) + TotalValue(w.counted)
            && (w.counted == [] ==> w.state.rav == base)
            && (w.counted != [] ==>
                  && w.state.rav.Some?
                  && (forall r :: r in w.counted ==> FirstTimestamp(base) <= Time(r) < FirstTimestamp(w.state.rav))
                  && (exists r :: r in w.counted && Time(r) == w.state.rav.value.message.timestampNs))
            && (forall p, r :: p in w.pending && r in p.request.valid ==> FirstTimestamp(w.state.rav) <= Time(r))
            && (scheme.IdsDetermine(w.arrived) ==> scheme.UniqueIds(w.counted))
  {
    RunKeeps(scheme, sender, worlds, events, i);
    BaseKept(scheme, sender, worlds, events, i);
    var w := worlds[i];
    if w.counted != [] { GreatestCounted(w.base, w.counted); }
    forall p, r | p in w.pending && r in p.request.valid ensures FirstTimestamp(w.state.rav) <= Time(r) {
      assert PendingSound(scheme, w.state.rav, w.arrived, p);
    }
  }

  lemma {:induction false} BaseKept(scheme: Scheme, sender: Option<Address>, worlds: seq<World>, events: seq<Event>,
                                    i: nat)
    requires Run(scheme, sender, worlds, events) && i < |worlds|
    ensures worlds[i].base == worlds[0].state.rav
  {
    if i > 0 {
      BaseKept(scheme, sender, worlds, events, i - 1);
      NextKeepsBase(scheme, sender, worlds[i - 1], events[i - 1]);
    }
  }

  lemma NextKeepsBase(scheme: Scheme, sender: Option<Address>, w: World, e: Event)
    requires Enabled(scheme, sender, w, e)
    ensures Next(scheme, sender, w, e).base == w.base
  {
  }

  lemma GreatestCounted(base: Option<SignedRav>, counted: seq<SignedReceipt>)
    requires counted != [] && forall r :: r in counted ==> FirstTimestamp(base) <= Time(r)
    ensures forall r :: r in counted ==> Time(r) <= Latest(PreviousTimestamp(base), counted)
    ensures exists r :: r in counted && Time(r) == Latest(PreviousTimestamp(base), counted)
  {
    LatestIsGreatest(PreviousTimestamp(base), counted);
    assert counted[0] in counted;
  }

  /** No receipt left behind. At every moment everything that ever arrived is still stored,
      unless the RAV covers it; and of what the RAV covers, each receipt has been counted or
      rejected exactly as often as it arrived. */
  lemma NothingLost(scheme: Scheme, sender: Option<Address>, worlds: seq<World>, events: seq<Event>, i: nat, id: nat)
    requires Run(scheme, sender, worlds, events) && i < |worlds|
    requires id < |worlds[i].arrived|
    ensures var w := worlds[i];
            var receipt := w.arrived[id];
            if FirstTimestamp(w.state.rav) <= Time(receipt)
            then id in w.state.receipts && w.state.receipts[id] == receipt && receipt !in w.counted
            else multiset(w.counted)[receipt] + multiset(w.rejected)[receipt] == multiset(w.arrived)[receipt] > 0
  {
    RunKeeps(scheme, sender, worlds, events, i);
    var w := worlds[i];
    assert w.arrived[id] in multiset(w.arrived);
    if w.arrived[id] in w.counted {
      CountedArrived(w, w.arrived[id]);
    }
  }

  // ---------- What is counted, and whose RAV is stored ----------

  /** Some request of the run, before moment `i`, found the receipt to pass all its checks. */
  ghost predicate Vetted(worlds: seq<World>, events: seq<Event>, i: nat, r: SignedReceipt)
    requires i <= |events| < |worlds|
  {
    exists k ::
      && 0 <= k < i && events[k].Request? && r in events[k].batch
      && PassesChecks(events[k].checks, worlds[k].state.minTimestampNs, r)
  }

  lemma RequestVets(scheme: Scheme, sender: Option<Address>, w: World, e: Event, r: SignedReceipt)
    requires Enabled(scheme, sender, w, e) && e.Request?
    ensures var next := Next(scheme, sender, w, e);
            && next.pending == w.pending + [next.pending[|w.pending|]] && next.counted == w.counted
            && (r in next.pending[|w.pending|].request.valid ==>
                  r in e.batch && PassesChecks(e.checks, w.state.minTimestampNs, r))
  {
    var judge := Judge(scheme, e.checks, w.state.minTimestampNs);
    ValidExactly(judge, e.batch, r);
  }

  /** Every receipt counted or about to be counted has passed every check of a request. */
  lemma {:induction false} OnlyVettedCount(scheme: Scheme, sender: Option<Address>, worlds: seq<World>,
                                           events: seq<Event>, i: nat, r: SignedReceipt)
    requires Run(scheme, sender, worlds, events) && i < |worlds|
    ensures (r in worlds[i].counted || exists p :: p in worlds[i].pending && r in p.request.valid) ==>
              Vetted(worlds, events, i, r)
  {
    if i > 0 {
      var w, e := worlds[i - 1], events[i - 1];
      OnlyVettedCount(scheme, sender, worlds, events, i - 1, r);
      VettedLater(worlds, events, i, r);
      match e
      case Request(_, _, _, _) =>
        RequestVets(scheme, sender, w, e, r);
      case StoreRav(index, _) =>
        assert w.pending[index] in w.pending;
      case _ =>
    }
  }

  lemma VettedLater(worlds: seq<World>, events: seq<Event>, i: nat, r: SignedReceipt)
    requires 0 < i <= |events| < |worlds|
    ensures Vetted(worlds, events, i - 1, r) ==> Vetted(worlds, events, i, r)
  {
  }

  /** A RAV stored in the run is signed by the sender. */
  lemma {:induction false} StoredIsSenders(scheme: Scheme, sender: Option<Address>, worlds: seq<World>,
                                           events: seq<Event>, i: nat)
    requires Run(scheme, sender, worlds, events) && i < |worlds|
    ensures worlds[i].state.rav != worlds[0].state.rav ==>
              && worlds[i].state.rav.Some? && sender.Some?
              && scheme.ravSigner(worlds[i].state.rav.value) == sender
  {
    if i > 0 {
      StoredIsSenders(scheme, sender, worlds, events, i - 1);
      var w, e := worlds[i - 1], events[i - 1];
      if !e.StoreRav? { assert Next(scheme, sender, w, e).state.rav == w.state.rav; }
    }
  }

  // ---------- RAVs only move forward ----------

  /** A stored RAV is not dropped, what was counted stays counted, and the RAV's timestamp and
      value do not fall. */
  ghost predicate Forward(w: World, later: World) {
    && w.counted <= later.counted
    && (w.state.rav.Some? ==> later.state.rav.Some?)
    && FirstTimestamp(w.state.rav) <= FirstTimestamp(later.state.rav)
    && PreviousValue(w.state.rav) <= PreviousValue(later.state.rav)
  }

  lemma RequestAdvances(scheme: Scheme, rav: Option<SignedRav>, arrived: seq<SignedReceipt>, p: Pending, message: Rav)
    requires PendingSound(scheme, rav, arrived, p) && p.request.expected == Ok(message)
    ensures FirstTimestamp(rav) <= message.timestampNs && PreviousValue(rav) <= message.valueAggregate
  {
    LatestIsGreatest(PreviousTimestamp(rav), p.request.valid);
    assert p.request.valid[0] in p.request.valid;
  }

  lemma RavStored(scheme: Scheme, sender: Option<Address>, w: World, e: Event)
    requires Enabled(scheme, sender, w, e) && e.StoreRav?
    requires PendingSound(scheme, w.state.rav, w.arrived, w.pending[e.index])
    ensures Forward(w, Next(scheme, sender, w, e))
    ensures FirstTimestamp(w.state.rav) < FirstTimestamp(Next(scheme, sender, w, e).state.rav)
  {
    RequestAdvances(scheme, w.state.rav, w.arrived, w.pending[e.index], e.signed.message);
  }

  lemma StepForward(scheme: Scheme, sender: Option<Address>, w: World, e: Event)
    requires Inv(scheme, w) && Enabled(scheme, sender, w, e)
    ensures Forward(w, Next(scheme, sender, w, e))
    ensures e.StoreRav? ==> FirstTimestamp(w.state.rav) < FirstTimestamp(Next(scheme, sender, w, e).state.rav)
  {
    if e.StoreRav? {
      assert w.pending[e.index] in w.pending;
      RavStored(scheme, sender, w, e);
    }
  }

  lemma RunStep(scheme: Scheme, sender: Option<Address>, worlds: seq<World>, events: seq<Event>, k: nat)
    requires Run(scheme, sender, worlds, events) && k < |events|
    ensures Forward(worlds[k], worlds[k + 1])
    ensures events[k].StoreRav? ==> FirstTimestamp(worlds[k].state.rav) < FirstTimestamp(worlds[k + 1].state.rav)
  {
    RunKeeps(scheme, sender, worlds, events, k);
    StepForward(scheme, sender, worlds[k], events[k]);
  }

  lemma {:induction false} ForwardThrough(worlds: seq<World>, i: nat, j: nat)
    requires i <= j < |worlds|
    requires forall k :: i <= k < j ==> Forward(worlds[k], worlds[k + 1])
    ensures Forward(worlds[i], worlds[j])
    decreases j
  {
    if i < j { ForwardThrough(worlds, i, j - 1); }
  }

  /** RAVs only move forward, and strictly so whenever one is stored. */
  lemma RavsAdvance(scheme: Scheme, sender: Option<Address>, worlds: seq<World>, events: seq<Event>, i: nat, j: nat)
    requires Run(scheme, sender, worlds, events) && i <= j < |worlds|
    ensures Forward(worlds[i], worlds[j])
    ensures (exists k :: i <= k < j && events[k].StoreRav?) ==>
              FirstTimestamp(worlds[i].state.rav) < FirstTimestamp(worlds[j].state.rav)
  {
    forall k | i <= k < j ensures Forward(worlds[k], worlds[k + 1]) {
      RunStep(scheme, sender, worlds, events, k);
    }
    ForwardThrough(worlds, i, j);
    if k :| i <= k < j && events[k].StoreRav? {
      RunStep(scheme, sender, worlds, events, k);
      ForwardThrough(worlds, i, k);
      ForwardThrough(worlds, k + 1, j);
    }
  }

  // ---------- Timeliness ----------

  /** An event at some time by the receiver's clock: a receipt is accepted only within the buffer
      after its own timestamp, and a request leaves the buffer to the present. */
  predicate Prompt(scheme: Scheme, bufferNs: nat, clock: nat, w: World, e: Event) {
    match e
    case Receive(receipt, checks) =>
      Judge(scheme, checks, w.state.minTimestampNs).Outcome(receipt) == Pass ==> clock <= Time(receipt) + bufferNs
    case Request(end, _, _, _) => end + bufferNs == clock
    case _ => true
  }

  /** A run by a clock that does not go back. */
  predicate PromptRun(scheme: Scheme, bufferNs: nat, clocks: seq<nat>, worlds: seq<World>, events: seq<Event>) {
    && |clocks| == |events| < |worlds|
    && (forall i, j :: 0 <= i <= j < |clocks| ==> clocks[i] <= clocks[j])
    && forall i :: 0 <= i < |events| ==> Prompt(scheme, bufferNs, clocks[i], worlds[i], events[i])
  }

  /** The RAVs of open requests cover nothing that can still arrive. */
  ghost predicate Settled(w: World, bufferNs: nat, clock: nat) {
    forall p :: p in w.pending && p.request.expected.Ok? ==>
      p.request.expected.value.timestampNs + bufferNs < clock && Timely(w, p)
  }

  lemma ReceiveSettled(w: World, bufferNs: nat, clock: nat, receipt: SignedReceipt)
    requires Settled(w, bufferNs, clock) && clock <= Time(receipt) + bufferNs
    ensures Settled(w.(state := Stored(w.state, receipt), arrived := w.arrived + [receipt]), bufferNs, clock)
  {
  }

  lemma StepSettled(scheme: Scheme, sender: Option<Address>, w: World, e: Event, bufferNs: nat, before: nat, clock: nat)
    requires Settled(w, bufferNs, before) && before <= clock
    requires Enabled(scheme, sender, w, e) && Prompt(scheme, bufferNs, clock, w, e)
    ensures Settled(Next(scheme, sender, w, e), bufferNs, clock)
  {
    match e
    case Receive(receipt, checks) =>
      if Judge(scheme, checks, w.state.minTimestampNs).Outcome(receipt) == Pass {
        ReceiveSettled(w, bufferNs, clock, receipt);
      }
    case Request(end, limit, batch, checks) =>
      var judge := Judge(scheme, checks, w.state.minTimestampNs);
      if Answer(judge, w.state, end, batch).value.expected.Ok? {
        ExpectedBefore(judge, w.state, end, limit, batch);
      }
    case _ =>
  }

  lemma {:induction false} PromptSettles(scheme: Scheme, sender: Option<Address>, worlds: seq<World>,
                                         events: seq<Event>,
                                         bufferNs: nat, clocks: seq<nat>, i: nat)
    requires Run(scheme, sender, worlds, events) && PromptRun(scheme, bufferNs, clocks, worlds, events)
    requires i < |worlds|
    ensures Settled(worlds[i], bufferNs, if i == 0 then 0 else clocks[i - 1])
  {
    if i > 0 {
      PromptSettles(scheme, sender, worlds, events, bufferNs, clocks, i - 1);
      var before := if i == 1 then 0 else clocks[i - 2];
      StepSettled(scheme, sender, worlds[i - 1], events[i - 1], bufferNs, before, clocks[i - 1]);
    }
  }

  /** The buffer does its work: in a run in which no receipt is accepted later than the buffer
      after its timestamp, a RAV can be stored for an open request whenever it is not refused. */
  lemma PromptIsTimely(scheme: Scheme, sender: Option<Address>, worlds: seq<World>, events: seq<Event>,
                       bufferNs: nat, clocks: seq<nat>, i: nat, index: nat, signed: SignedRav)
    requires Run(scheme, sender, worlds, events) && PromptRun(scheme, bufferNs, clocks, worlds, events)
    requires i < |worlds| && index < |worlds[i].pending|
    ensures Enabled(scheme, sender, worlds[i], StoreRav(index, signed)) <==>
            var expected := worlds[i].pending[index].request.expected;
            expected.Ok? && Refusal(scheme, sender, expected.value, signed) == None
  {
    PromptSettles(scheme, sender, worlds, events, bufferNs, clocks, i);
    assert worlds[i].pending[index] in worlds[i].pending;
  }
}
