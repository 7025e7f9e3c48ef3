/** Whole runs of the receiver's side of the protocol, and what they account for. */
module Protocol {
  import opened Common
  import opened Messages
  import opened Truncation
  import opened Checks
  import opened Aggregation
  import opened MemoryContext
  import opened Manager

  /** A request made, and how many receipts had arrived by then. */
  datatype Pending = Pending(request: RavRequest, mark: nat)

  /** The manager's store, with the history of a run: the RAV it started from; every receipt ever stored, by id; the
      requests made against the current RAV; the receipts counted in RAVs so far; and those
      that a RAV's request had found invalid and that it passed over for good. */
  datatype World = World(
    base: Option<SignedRav>,
    state: State,
    arrived: seq<SignedReceipt>,
    pending: seq<Pending>,
    counted: seq<SignedReceipt>,
    rejected: seq<SignedReceipt>)

  /** What happens in a run. The user's checks may judge differently each time; requests are
      listed when they succeed, failed ones changing nothing. */
  datatype Event =
    | Receive(receipt: SignedReceipt, checks: seq<Check>)
    | Request(end: nat, limit: Option<nat>, batch: seq<SignedReceipt>, checks: seq<Check>)
    | StoreRav(index: nat, signed: SignedRav)
    | Clean

  /** A store without receipts, but perhaps with a RAV from before. */
  function Initial(base: Option<SignedRav>, minTimestampNs: nat): World {
    World(base, State(base, map[], 0, minTimestampNs), [], [], [], [])
  }

  /** The timestamp check has been set up no earlier than the RAV. */
  predicate Resumable(base: Option<SignedRav>, minTimestampNs: nat) {
    base.Some? ==> base.value.message.timestampNs <= minTimestampNs
  }

  function NoLater(receipts: seq<SignedReceipt>, time: nat): seq<SignedReceipt> {
    Filter(receipts, (r: SignedReceipt) => Time(r) <= time)
  }

  /** A RAV is stored for a request against the current RAV, and nothing that it covers has
      arrived since the request. */
  ghost predicate Timely(w: World, p: Pending) {
    p.request.expected.Ok? &&
    forall id :: p.mark <= id < |w.arrived| ==> p.request.expected.value.timestampNs < Time(w.arrived[id])
  }

  ghost predicate Enabled(scheme: Scheme, sender: Option<Address>, w: World, e: Event) {
    match e
    case Receive(receipt, checks) => MinTimestamp in checks
    case Request(end, limit, batch, checks) =>
      && batch in Retrievals(w.state.receipts, HalfOpen(FirstTimestamp(w.state.rav), end), limit)
      && Answer(Judge(scheme, checks, w.state.minTimestampNs), w.state, end, batch).Ok?
    case StoreRav(index, signed) =>
      && index < |w.pending| && Timely(w, w.pending[index])
      && Refusal(scheme, sender, w.pending[index].request.expected.value, signed) == None
    case Clean => true
  }

  ghost function Next(scheme: Scheme, sender: Option<Address>, w: World, e: Event): World
    requires Enabled(scheme, sender, w, e)
  {
    match e
    case Receive(receipt, checks) =>
      if Judge(scheme, checks, w.state.minTimestampNs).Outcome(receipt) == Pass
      then w.(state := Stored(w.state, receipt), arrived := w.arrived + [receipt])
      else w
    case Request(end, limit, batch, checks) =>
      var answer := Answer(Judge(scheme, checks, w.state.minTimestampNs), w.state, end, batch);
      w.(pending := w.pending + [Pending(answer.value, |w.arrived|)])
    case StoreRav(index, signed) =>
      var request := w.pending[index].request;
      w.(state := WithRav(w.state, signed),
         pending := [],
         counted := w.counted + request.valid,
         rejected := w.rejected + NoLater(Receipts(request.invalid), signed.message.timestampNs))
    case Clean => w.(state := Cleaned(w.state))
  }

  // ---------- The invariant ----------

  /** The store holds what arrived, except perhaps what the current RAV covers. */
  ghost predicate StoreSound(state: State, arrived: seq<SignedReceipt>) {
    && state.nextId == |arrived|
    && (forall id :: id in state.receipts ==> id < |arrived| && state.receipts[id] == arrived[id])
    && (forall id :: 0 <= id < |arrived| && FirstTimestamp(state.rav) <= Time(arrived[id]) ==> id in state.receipts)
  }

  /** The current RAV is the exact account of the counted receipts on top of the first RAV. */
  ghost predicate Accounts(base: Option<SignedRav>, rav: Option<SignedRav>, counted: seq<SignedReceipt>) {
    && (forall r :: r in counted ==> FirstTimestamp(base) <= Time(r))
    && if counted == [] then rav == base
       else
         && rav.Some?
         && rav.value.message.valueAggregate == PreviousValue(base) + TotalValue(counted)
         && rav.value.message.timestampNs == Latest(PreviousTimestamp(base), counted)
  }

  /** Of everything that arrived, what the RAV covers has been counted once or rejected once,
      occurrence by occurrence, and nothing else has. */
  ghost predicate Conserves(rav: Option<SignedRav>, arrived: seq<SignedReceipt>, counted: seq<SignedReceipt>,
                            rejected: seq<SignedReceipt>) {
    forall x :: multiset(counted)[x] + multiset(rejected)[x] ==
                if Time(x) < FirstTimestamp(rav) then multiset(arrived)[x] else 0
  }

  ghost predicate PendingSound(scheme: Scheme, rav: Option<SignedRav>, arrived: seq<SignedReceipt>, p: Pending) {
    var valid, invalid := p.request.valid, Receipts(p.request.invalid);
    && p.mark <= |arrived|
    && (forall id :: p.mark <= id < |arrived| ==> FirstTimestamp(rav) <= Time(arrived[id]))
    && p.request.expected == Expected(valid, rav)
    && scheme.UniqueIds(valid)
    && (forall r :: r in valid || r in invalid ==> FirstTimestamp(rav) <= Time(r))
    && (p.request.expected.Ok? ==>
          forall x :: FirstTimestamp(rav) <= Time(x) <= p.request.expected.value.timestampNs ==>
            multiset(arrived[..p.mark])[x] == multiset(valid)[x] + multiset(invalid)[x])
  }

  ghost predicate Inv(scheme: Scheme, w: World) {
    && StoreSound(w.state, w.arrived)
    && Resumable(w.state.rav, w.state.minTimestampNs)
    && Accounts(w.base, w.state.rav, w.counted)
    && Conserves(w.state.rav, w.arrived, w.counted, w.rejected)
    && (forall p :: p in w.pending ==> PendingSound(scheme, w.state.rav, w.arrived, p))
    && (scheme.IdsDetermine(w.arrived) ==> scheme.UniqueIds(w.counted))
  }

  // ---------- Receiving ----------

  lemma AcceptedIsLater(scheme: Scheme, checks: seq<Check>, minTimestampNs: nat, receipt: SignedReceipt)
    requires MinTimestamp in checks && PerformChecks(checks, minTimestampNs, receipt) == Pass
    ensures Time(receipt) > minTimestampNs
  {
  }

  /** The timestamp check keeps out all that the first RAV covers exactly if it was set up no
      earlier than that RAV. */
  lemma ResumableNeeded(base: Option<SignedRav>, minTimestampNs: nat)
    ensures Resumable(base, minTimestampNs) <==>
            forall r :: PerformChecks([MinTimestamp], minTimestampNs, r) == Pass ==> FirstTimestamp(base) <= Time(r)
  {
    forall r ensures PerformChecks([MinTimestamp], minTimestampNs, r) == Pass <==> Time(r) > minTimestampNs {
      PassesAll([MinTimestamp], minTimestampNs, r);
      assert forall c :: c in [MinTimestamp] <==> c == MinTimestamp;
    }
    if !Resumable(base, minTimestampNs) {
      var identity := Identity(0, 0, 0, 0);
      var r := SignedReceipt(Receipt(identity, base.value.message.timestampNs, 0, 0), 0);
      assert PerformChecks([MinTimestamp], minTimestampNs, r) == Pass;
    }
  }

  /** Otherwise a receipt is accepted that the next clean-up deletes, neither counted nor
      reported. */
  lemma StaleCheckLoses(scheme: Scheme, sender: Option<Address>, base: SignedRav, minTimestampNs: nat, r: SignedReceipt)
    requires minTimestampNs < Time(r) <= base.message.timestampNs
    ensures var received := Next(scheme, sender, Initial(Some(base), minTimestampNs), Receive(r, [MinTimestamp]));
            var cleaned := Next(scheme, sender, received, Clean);
            && cleaned.arrived == [r] && cleaned.state.receipts == map[]
            && cleaned.counted == [] && cleaned.rejected == []
  {
    assert PerformChecks([MinTimestamp], minTimestampNs, r) == Pass by {
      PassesAll([MinTimestamp], minTimestampNs, r);
    }
  }

  lemma StoreOneMore(state: State, arrived: seq<SignedReceipt>, receipt: SignedReceipt)
    requires StoreSound(state, arrived)
    ensures StoreSound(Stored(state, receipt), arrived + [receipt])
  {
  }

  lemma ConserveOneMore(rav: Option<SignedRav>, arrived: seq<SignedReceipt>, counted: seq<SignedReceipt>,
                        rejected: seq<SignedReceipt>, receipt: SignedReceipt)
    requires Conserves(rav, arrived, counted, rejected) && FirstTimestamp(rav) <= Time(receipt)
    ensures Conserves(rav, arrived + [receipt], counted, rejected)
  {
  }

  lemma PendingOneMore(scheme: Scheme, rav: Option<SignedRav>, arrived: seq<SignedReceipt>, p: Pending,
                       receipt: SignedReceipt)
    requires PendingSound(scheme, rav, arrived, p) && FirstTimestamp(rav) <= Time(receipt)
    ensures PendingSound(scheme, rav, arrived + [receipt], p)
  {
    assert (arrived + [receipt])[..p.mark] == arrived[..p.mark];
  }

  lemma IdsOfFewer(scheme: Scheme, fewer: seq<SignedReceipt>, more: seq<SignedReceipt>)
    requires scheme.IdsDetermine(more) && forall r :: r in fewer ==> r in more
    ensures scheme.IdsDetermine(fewer)
  {
  }

  lemma ReceivedKeeps(scheme: Scheme, w: World, receipt: SignedReceipt)
    requires Inv(scheme, w) && FirstTimestamp(w.state.rav) <= Time(receipt)
    ensures Inv(scheme, w.(state := Stored(w.state, receipt), arrived := w.arrived + [receipt]))
  {
    StoreOneMore(w.state, w.arrived, receipt);
    ConserveOneMore(w.state.rav, w.arrived, w.counted, w.rejected, receipt);
    forall p | p in w.pending ensures PendingSound(scheme, w.state.rav, w.arrived + [receipt], p) {
      PendingOneMore(scheme, w.state.rav, w.arrived, p, receipt);
    }
    if scheme.IdsDetermine(w.arrived + [receipt]) {
      IdsOfFewer(scheme, w.arrived, w.arrived + [receipt]);
    }
  }

  lemma ReceiveKeeps(scheme: Scheme, sender: Option<Address>, w: World, e: Event)
    requires Inv(scheme, w) && Enabled(scheme, sender, w, e) && e.Receive?
    ensures Inv(scheme, Next(scheme, sender, w, e))
  {
    if Judge(scheme, e.checks, w.state.minTimestampNs).Outcome(e.receipt) == Pass {
      AcceptedIsLater(scheme, e.checks, w.state.minTimestampNs, e.receipt);
      ReceivedKeeps(scheme, w, e.receipt);
    }
  }

  // ---------- Requesting ----------

  lemma CountLast(receipts: seq<SignedReceipt>, x: SignedReceipt)
    requires receipts != []
    ensures multiset(receipts)[x] ==
            multiset(receipts[..|receipts| - 1])[x] + if receipts[|receipts| - 1] == x then 1 else 0
  {
    assert receipts == receipts[..|receipts| - 1] + [receipts[|receipts| - 1]];
  }

  /** Receipts under ids occur in the store as often as they arrived, if all of them are there. */
  lemma {:induction false} ValuesArrived(receipts: map<nat, SignedReceipt>, arrived: seq<SignedReceipt>,
                                         x: SignedReceipt)
    requires forall id :: id in receipts ==> id < |arrived| && receipts[id] == arrived[id]
    requires forall id :: 0 <= id < |arrived| && arrived[id] == x ==> id in receipts
    ensures Occurrences(receipts, x) == multiset(arrived)[x]
    decreases |arrived|
  {
    if arrived == [] {
      assert receipts == map[];
    } else {
      var n: nat := |arrived| - 1;
      CountLast(arrived, x);
      assert arrived[n] == x <==> n in receipts && receipts[n] == x;
      OccurrencesRemove(receipts, n, x);
      ValuesArrived(receipts - {n}, arrived[..n], x);
    }
  }

  /** No receipt left behind: whatever the limit, everything in the requested range that is no
      later than some receipt of the batch is in the batch, as often as it arrived. */
  lemma NoneLeftBehind(state: State, arrived: seq<SignedReceipt>, end: nat, limit: Option<nat>,
                       batch: seq<SignedReceipt>, x: SignedReceipt, y: SignedReceipt)
    requires StoreSound(state, arrived)
    requires IsRetrieval(state.receipts, HalfOpen(FirstTimestamp(state.rav), end), limit, batch)
    requires y in batch && FirstTimestamp(state.rav) <= Time(x) <= Time(y)
    ensures multiset(batch)[x] == multiset(arrived)[x]
  {
    var range := HalfOpen(FirstTimestamp(state.rav), end);
    RetrievedInRange(state.receipts, range, limit, batch);
    ValuesArrived(InRange(state.receipts, range), arrived, x);
    assert y in multiset(batch);
  }

  lemma RequestWithinBatch(judge: Judge, rav: Option<SignedRav>, batch: seq<SignedReceipt>)
    requires !judge.Undecided(Firsts(judge.scheme, batch))
    requires forall r :: r in batch ==> FirstTimestamp(rav) <= Time(r)
    ensures var valid, invalid := judge.Valid(batch), Receipts(judge.Invalid(batch));
            && judge.scheme.UniqueIds(valid)
            && (forall r :: r in valid ==> r in batch)
            && (forall r :: r in valid || r in invalid ==> FirstTimestamp(rav) <= Time(r))
  {
    BatchParted(judge, batch);
    FirstsUnique(judge.scheme, batch);
    FilterUnique(judge.scheme, Firsts(judge.scheme, batch), (r: SignedReceipt) => judge.Outcome(r) == Pass);
    forall r | r in judge.Valid(batch) || r in Receipts(judge.Invalid(batch)) ensures r in batch {
      assert r in multiset(judge.Valid(batch)) + multiset(Receipts(judge.Invalid(batch)));
      assert r in multiset(batch);
    }
  }

  lemma RequestCovers(judge: Judge, state: State, arrived: seq<SignedReceipt>, end: nat, limit: Option<nat>,
                      batch: seq<SignedReceipt>, x: SignedReceipt)
    requires StoreSound(state, arrived)
    requires IsRetrieval(state.receipts, HalfOpen(FirstTimestamp(state.rav), end), limit, batch)
    requires !judge.Undecided(Firsts(judge.scheme, batch))
    requires var expected := Expected(judge.Valid(batch), state.rav);
             expected.Ok? && FirstTimestamp(state.rav) <= Time(x) <= expected.value.timestampNs
    ensures multiset(arrived)[x] == multiset(judge.Valid(batch))[x] + multiset(Receipts(judge.Invalid(batch)))[x]
  {
    RetrievedInRange(state.receipts, HalfOpen(FirstTimestamp(state.rav), end), limit, batch);
    RequestWithinBatch(judge, state.rav, batch);
    var y := LatestValid(judge.Valid(batch), state.rav);
    NoneLeftBehind(state, arrived, end, limit, batch, x, y);
    BatchParted(judge, batch);
  }

  lemma RequestSound(judge: Judge, state: State, arrived: seq<SignedReceipt>, end: nat, limit: Option<nat>,
                     batch: seq<SignedReceipt>)
    requires StoreSound(state, arrived)
    requires batch in Retrievals(state.receipts, HalfOpen(FirstTimestamp(state.rav), end), limit)
    requires !judge.Undecided(Firsts(judge.scheme, batch))
    ensures PendingSound(judge.scheme, state.rav, arrived, Pending(RequestFor(judge, state.rav, batch), |arrived|))
  {
    RetrievedInRange(state.receipts, HalfOpen(FirstTimestamp(state.rav), end), limit, batch);
    RequestWithinBatch(judge, state.rav, batch);
    assert arrived[..|arrived|] == arrived;
    var expected := Expected(judge.Valid(batch), state.rav);
    if expected.Ok? {
      forall x | FirstTimestamp(state.rav) <= Time(x) <= expected.value.timestampNs
        ensures multiset(arrived)[x] == multiset(judge.Valid(batch))[x] + multiset(Receipts(judge.Invalid(batch)))[x]
      {
        RequestCovers(judge, state, arrived, end, limit, batch, x);
      }
    }
  }

  /** A RAV's timestamp is that of one of its new receipts. */
  lemma LatestValid(valid: seq<SignedReceipt>, rav: Option<SignedRav>) returns (y: SignedReceipt)
    requires Expected(valid, rav).Ok?
    requires forall r :: r in valid ==> FirstTimestamp(rav) <= Time(r)
    ensures y in valid && Time(y) == Expected(valid, rav).value.timestampNs
  {
    assert valid[0] in valid;
    LatestIsGreatest(PreviousTimestamp(rav), valid);
    var latest := Latest(PreviousTimestamp(rav), valid);
    if latest == PreviousTimestamp(rav) {
      y := valid[0];
    } else {
      y :| y in valid && Time(y) == latest;
    }
  }

  lemma OneMorePending(scheme: Scheme, w: World, p: Pending)
    requires Inv(scheme, w) && PendingSound(scheme, w.state.rav, w.arrived, p)
    ensures Inv(scheme, w.(pending := w.pending + [p]))
  {
  }

  lemma RequestKeeps(scheme: Scheme, sender: Option<Address>, w: World, e: Event)
    requires Inv(scheme, w) && Enabled(scheme, sender, w, e) && e.Request?
    ensures Inv(scheme, Next(scheme, sender, w, e))
  {
    match e
    case Request(end, limit, batch, checks) =>
      var judge := Judge(scheme, checks, w.state.minTimestampNs);
      RequestSound(judge, w.state, w.arrived, end, limit, batch);
      OneMorePending(scheme, w, Pending(RequestFor(judge, w.state.rav, batch), |w.arrived|));
  }

  /** A RAV asked for up to `end` is earlier than that. */
  lemma ExpectedBefore(judge: Judge, state: State, end: nat, limit: Option<nat>, batch: seq<SignedReceipt>)
    requires batch in Retrievals(state.receipts, HalfOpen(FirstTimestamp(state.rav), end), limit)
    requires Answer(judge, state, end, batch).Ok? && Answer(judge, state, end, batch).value.expected.Ok?
    ensures Answer(judge, state, end, batch).value.expected.value.timestampNs < end
  {
    RetrievedInRange(state.receipts, HalfOpen(FirstTimestamp(state.rav), end), limit, batch);
    RequestWithinBatch(judge, state.rav, batch);
    var y := LatestValid(judge.Valid(batch), state.rav);
  }

  /** What the buffer is for: if all that arrives after a request is no earlier than the end of
      its range, its RAV can be stored at any time. */
  lemma BufferedIsTimely(scheme: Scheme, sender: Option<Address>, w: World, e: Event, later: World, p: Pending)
    requires Enabled(scheme, sender, w, e) && e.Request?
    requires var judge := Judge(scheme, e.checks, w.state.minTimestampNs);
             p == Pending(Answer(judge, w.state, e.end, e.batch).value, |w.arrived|)
    requires p.request.expected.Ok?
    requires forall id :: p.mark <= id < |later.arrived| ==> e.end <= Time(later.arrived[id])
    ensures Timely(later, p)
  {
    ExpectedBefore(Judge(scheme, e.checks, w.state.minTimestampNs), w.state, e.end, e.limit, e.batch);
  }

  // ---------- Storing a RAV ----------

  lemma AccountsMore(base: Option<SignedRav>, rav: Option<SignedRav>, counted: seq<SignedReceipt>,
                     valid: seq<SignedReceipt>, signed: SignedRav)
    requires Accounts(base, rav, counted) && Expected(valid, rav) == Ok(signed.message)
    requires forall r :: r in valid ==> FirstTimestamp(rav) <= Time(r)
    ensures Accounts(base, Some(signed), counted + valid)
  {
    TotalConcat(counted, valid);
    LatestConcat(PreviousTimestamp(base), counted, valid);
    LatestIsGreatest(PreviousTimestamp(base), counted);
  }

  lemma PrefixCounts(arrived: seq<SignedReceipt>, mark: nat, time: nat, x: SignedReceipt)
    requires mark <= |arrived| && Time(x) <= time
    requires forall id :: mark <= id < |arrived| ==> time < Time(arrived[id])
    ensures multiset(arrived)[x] == multiset(arrived[..mark])[x]
  {
    assert arrived == arrived[..mark] + arrived[mark..];
    assert x !in arrived[mark..];
  }

  lemma ConservesMore(scheme: Scheme, w: World, p: Pending, signed: SignedRav)
    requires Conserves(w.state.rav, w.arrived, w.counted, w.rejected)
    requires PendingSound(scheme, w.state.rav, w.arrived, p) && Timely(w, p)
    requires p.request.expected == Ok(signed.message)
    ensures FirstTimestamp(w.state.rav) <= signed.message.timestampNs
    ensures Conserves(Some(signed), w.arrived, w.counted + p.request.valid,
                      w.rejected + NoLater(Receipts(p.request.invalid), signed.message.timestampNs))
  {
    var valid, invalid, time := p.request.valid, Receipts(p.request.invalid), signed.message.timestampNs;
    assert valid[0] in valid;
    LatestIsGreatest(PreviousTimestamp(w.state.rav), valid);
    forall x
      ensures multiset(w.counted + valid)[x] + multiset(w.rejected + NoLater(invalid, time))[x]
              == if Time(x) < FirstTimestamp(Some(signed)) then multiset(w.arrived)[x] else 0
    {
      FilterCounts(invalid, (r: SignedReceipt) => Time(r) <= time, x);
      if Time(x) < FirstTimestamp(w.state.rav) {
        assert x !in valid && x !in invalid;
      } else if Time(x) <= time {
        PrefixCounts(w.arrived, p.mark, time, x);
      } else {
        assert x !in valid;
      }
    }
  }

  lemma CountedArrived(w: World, r: SignedReceipt)
    requires Conserves(w.state.rav, w.arrived, w.counted, w.rejected) && r in w.counted
    ensures r in w.arrived && Time(r) < FirstTimestamp(w.state.rav)
  {
  }

  lemma ValidArrived(scheme: Scheme, w: World, p: Pending, r: SignedReceipt)
    requires PendingSound(scheme, w.state.rav, w.arrived, p) && p.request.expected.Ok? && r in p.request.valid
    ensures r in w.arrived && FirstTimestamp(w.state.rav) <= Time(r)
  {
    LatestIsGreatest(PreviousTimestamp(w.state.rav), p.request.valid);
    assert r in multiset(p.request.valid);
    assert r in multiset(w.arrived[..p.mark]);
    assert r in w.arrived[..p.mark];
  }

  /** What a RAV newly counts was not counted before: it is later than all that was. */
  lemma UniqueMore(scheme: Scheme, w: World, p: Pending)
    requires Inv(scheme, w) && PendingSound(scheme, w.state.rav, w.arrived, p) && p.request.expected.Ok?
    requires scheme.IdsDetermine(w.arrived)
    ensures scheme.UniqueIds(w.counted + p.request.valid)
  {
    var both := w.counted + p.request.valid;
    forall i, j | 0 <= i < j < |both| ensures scheme.UniqueId(both[i]) != scheme.UniqueId(both[j]) {
      if i < |w.counted| <= j {
        assert both[i] in w.counted && both[j] in p.request.valid;
        CountedArrived(w, both[i]);
        ValidArrived(scheme, w, p, both[j]);
      }
    }
  }

  lemma StoreRavKeeps(scheme: Scheme, sender: Option<Address>, w: World, e: Event)
    requires Inv(scheme, w) && Enabled(scheme, sender, w, e) && e.StoreRav?
    ensures Inv(scheme, Next(scheme, sender, w, e))
    ensures FirstTimestamp(w.state.rav) <= e.signed.message.timestampNs
  {
    var p := w.pending[e.index];
    assert p in w.pending;
    AccountsMore(w.base, w.state.rav, w.counted, p.request.valid, e.signed);
    ConservesMore(scheme, w, p, e.signed);
    if scheme.IdsDetermine(w.arrived) { UniqueMore(scheme, w, p); }
  }

  lemma CleanKeeps(scheme: Scheme, sender: Option<Address>, w: World, e: Event)
    requires Inv(scheme, w) && Enabled(scheme, sender, w, e) && e.Clean?
    ensures Inv(scheme, Next(scheme, sender, w, e))
  {
  }

  lemma LateCounts(arrived: seq<SignedReceipt>, mark: nat, id: nat)
    requires mark <= id < |arrived|
    ensures multiset(arrived)[arrived[id]] > multiset(arrived[..mark])[arrived[id]]
  {
    assert arrived == arrived[..mark] + arrived[mark..];
    assert arrived[mark..][id - mark] == arrived[id];
    assert arrived[id] in multiset(arrived[mark..]);
  }

  lemma LateUncounted(scheme: Scheme, w: World, p: Pending, signed: SignedRav, id: nat)
    requires Conserves(w.state.rav, w.arrived, w.counted, w.rejected)
    requires PendingSound(scheme, w.state.rav, w.arrived, p) && p.request.expected == Ok(signed.message)
    requires p.mark <= id < |w.arrived| && Time(w.arrived[id]) <= signed.message.timestampNs
    ensures !Conserves(Some(signed), w.arrived, w.counted + p.request.valid,
                       w.rejected + NoLater(Receipts(p.request.invalid), signed.message.timestampNs))
  {
    var x, invalid := w.arrived[id], Receipts(p.request.invalid);
    FilterCounts(invalid, (r: SignedReceipt) => Time(r) <= signed.message.timestampNs, x);
    LateCounts(w.arrived, p.mark, id);
    assert multiset(w.counted)[x] + multiset(w.rejected)[x] == 0;
    assert multiset(w.arrived[..p.mark])[x] == multiset(p.request.valid)[x] + multiset(invalid)[x];
  }

  /** Timeliness is exactly what the account needs: if a receipt that a RAV covers arrived after
      the RAV was requested, storing it leaves that receipt covered but unaccounted for. */
  lemma TimelinessNeeded(scheme: Scheme, w: World, p: Pending, signed: SignedRav)
    requires Inv(scheme, w) && p in w.pending && p.request.expected == Ok(signed.message)
    ensures Conserves(Some(signed), w.arrived, w.counted + p.request.valid,
                      w.rejected + NoLater(Receipts(p.request.invalid), signed.message.timestampNs))
            <==> Timely(w, p)
  {
    assert PendingSound(scheme, w.state.rav, w.arrived, p);
    ConservedIfTimely(scheme, w, p, signed);
  }

  lemma ConservedIfTimely(scheme: Scheme, w: World, p: Pending, signed: SignedRav)
    requires Conserves(w.state.rav, w.arrived, w.counted, w.rejected)
    requires PendingSound(scheme, w.state.rav, w.arrived, p) && p.request.expected == Ok(signed.message)
    ensures Conserves(Some(signed), w.arrived, w.counted + p.request.valid,
                      w.rejected + NoLater(Receipts(p.request.invalid), signed.message.timestampNs))
            <==> Timely(w, p)
  {
    if Timely(w, p) {
      ConservesMore(scheme, w, p, signed);
    } else {
      var id :| p.mark <= id < |w.arrived| && Time(w.arrived[id]) <= signed.message.timestampNs;
      LateUncounted(scheme, w, p, signed, id);
    }
  }
}
