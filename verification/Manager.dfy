/** The receiver's manager: storing receipts, requesting RAVs for them, and storing RAVs. */
module Manager {
  import opened Common
  import opened Messages
  import opened Truncation
  import opened Checks
  import opened Aggregation
  import opened MemoryContext

  datatype Error =
    | TimestampRangeError
    | RetryableCheck
    | CheckFailed
    | SignatureError
    | InvalidRecoveredSigner
    | InvalidReceivedRav

  datatype RavRequest = RavRequest(
    valid: seq<SignedReceipt>,
    previous: Option<SignedRav>,
    invalid: seq<FailedReceipt>,
    expected: Result<Rav, AggregationError>)

  /** How the manager judges receipts at some moment. */
  datatype Judge = Judge(scheme: Scheme, checks: seq<Check>, minTimestampNs: nat) {
    function Outcome(receipt: SignedReceipt): Outcome {
      PerformChecks(checks, minTimestampNs, receipt)
    }

    function Passing(receipts: seq<SignedReceipt>): seq<SignedReceipt> {
      Filter(receipts, (r: SignedReceipt) => Outcome(r) == Pass)
    }

    /** The receipts of a batch that are valid: first of their id, and passing every check. */
    function Valid(batch: seq<SignedReceipt>): seq<SignedReceipt> {
      Passing(Firsts(scheme, batch))
    }

    function Failing(receipts: seq<SignedReceipt>): seq<FailedReceipt> {
      if receipts == [] then []
      else
        var earlier, last := Failing(receipts[..|receipts| - 1]), receipts[|receipts| - 1];
        if Outcome(last) == Fail then earlier + [FailedReceipt(last, CheckFailure)] else earlier
    }

    function Invalid(batch: seq<SignedReceipt>): seq<FailedReceipt> {
      Repeats(scheme, batch) + Failing(Firsts(scheme, batch))
    }

    /** A check asks for a retry, so the batch cannot be judged now. */
    predicate Undecided(receipts: seq<SignedReceipt>) {
      exists r :: r in receipts && Outcome(r) == Retry
    }
  }

  function FirstTimestamp(previous: Option<SignedRav>): nat {
    if previous.Some? then previous.value.message.timestampNs + 1 else 0
  }

  function RequestFor(judge: Judge, previous: Option<SignedRav>, batch: seq<SignedReceipt>): RavRequest {
    RavRequest(judge.Valid(batch), previous, judge.Invalid(batch), Expected(judge.Valid(batch), previous))
  }

  /** What asking for a RAV up to `end` comes to when the store gives `batch`. */
  function Answer(judge: Judge, state: State, end: nat, batch: seq<SignedReceipt>): Result<RavRequest, Error> {
    if FirstTimestamp(state.rav) > end then Err(TimestampRangeError)
    else if judge.Undecided(Firsts(judge.scheme, batch)) then Err(RetryableCheck)
    else Ok(RequestFor(judge, state.rav, batch))
  }

  /** The ways in which a RAV can be refused, in the order in which they are checked. */
  function Refusal(scheme: Scheme, sender: Option<Address>, expected: Rav, signed: SignedRav): Option<Error> {
    var signer := scheme.ravSigner(signed);
    if signer.None? then Some(SignatureError)
    else if sender.None? || signer.value != sender.value then Some(InvalidRecoveredSigner)
    else if signed.message != expected then Some(InvalidReceivedRav)
    else None
  }

  lemma JudgeAppend(judge: Judge, earlier: seq<SignedReceipt>, last: SignedReceipt)
    ensures judge.Passing(earlier + [last]) ==
            if judge.Outcome(last) == Pass then judge.Passing(earlier) + [last] else judge.Passing(earlier)
    ensures judge.Failing(earlier + [last]) ==
            if judge.Outcome(last) == Fail then judge.Failing(earlier) + [FailedReceipt(last, CheckFailure)]
            else judge.Failing(earlier)
  {
    hide PerformChecks;
    assert (earlier + [last])[..|earlier|] == earlier;
  }

  /** Parted: every receipt is among the passing or the failing ones, as often as it was. */
  ghost predicate Parted(passing: seq<SignedReceipt>, failing: seq<FailedReceipt>, receipts: seq<SignedReceipt>) {
    multiset(passing) + multiset(Receipts(failing)) == multiset(receipts)
  }

  lemma OneMoreParted(passing: seq<SignedReceipt>, failing: seq<FailedReceipt>, earlier: seq<SignedReceipt>,
                      last: SignedReceipt)
    requires Parted(passing, failing, earlier)
    ensures Parted(passing + [last], failing, earlier + [last])
    ensures Parted(passing, failing + [FailedReceipt(last, CheckFailure)], earlier + [last])
  {
    ReceiptsAppend(failing, FailedReceipt(last, CheckFailure));
    ShareOneMore(passing, Receipts(failing), earlier, last);
  }

  lemma NoneJudged(judge: Judge)
    ensures Parted(judge.Passing([]), judge.Failing([]), [])
  {
  }

  lemma OneMoreJudged(judge: Judge, earlier: seq<SignedReceipt>, last: SignedReceipt)
    requires Parted(judge.Passing(earlier), judge.Failing(earlier), earlier) && judge.Outcome(last) != Retry
    ensures Parted(judge.Passing(earlier + [last]), judge.Failing(earlier + [last]), earlier + [last])
  {
    hide PerformChecks, Parted, Judge.Passing, Judge.Failing;
    JudgeAppend(judge, earlier, last);
    OneMoreParted(judge.Passing(earlier), judge.Failing(earlier), earlier, last);
  }

  /** A batch is parted into valid and invalid receipts, nothing lost, nothing twice. */
  lemma {:induction false} JudgedAll(judge: Judge, receipts: seq<SignedReceipt>)
    requires forall r :: r in receipts ==> judge.Outcome(r) != Retry
    ensures Parted(judge.Passing(receipts), judge.Failing(receipts), receipts)
  {
    hide *;
    if receipts == [] {
      NoneJudged(judge);
    } else {
      var earlier, last := receipts[..|receipts| - 1], receipts[|receipts| - 1];
      JudgedAll(judge, earlier);
      OneMoreJudged(judge, earlier, last);
      assert receipts == earlier + [last];
    }
  }

  lemma BatchParted(judge: Judge, batch: seq<SignedReceipt>)
    requires !judge.Undecided(Firsts(judge.scheme, batch))
    ensures multiset(judge.Valid(batch)) + multiset(Receipts(judge.Invalid(batch))) == multiset(batch)
  {
    var firsts := Firsts(judge.scheme, batch);
    JudgedAll(judge, firsts);
    FirstsAndRepeats(judge.scheme, batch);
    ReceiptsConcat(Repeats(judge.scheme, batch), judge.Failing(firsts));
  }

  lemma {:induction false} FilterUnique(scheme: Scheme, receipts: seq<SignedReceipt>, keep: SignedReceipt -> bool)
    requires scheme.UniqueIds(receipts)
    ensures scheme.UniqueIds(Filter(receipts, keep))
  {
    if receipts != [] {
      var n := |receipts| - 1;
      FilterUnique(scheme, receipts[..n], keep);
      var kept := Filter(receipts[..n], keep);
      forall i | 0 <= i < |kept| ensures scheme.UniqueId(kept[i]) != scheme.UniqueId(receipts[n]) {
        FilterCounts(receipts[..n], keep, kept[i]);
        assert kept[i] in kept;
      }
    }
  }

  // ---------- Valid and invalid receipts, in their own terms ----------

  ghost predicate PassesChecks(checks: seq<Check>, minTimestampNs: nat, r: SignedReceipt) {
    forall c :: c in checks ==> RunCheck(c, minTimestampNs, r) == Pass
  }

  /** A batch rightly parted: valid are exactly the firsts of their ids that pass every check;
      invalid are exactly the firsts that some check fails, all earlier ones passing, and the
      repeats of earlier ids; and together they are the batch, nothing lost and nothing twice. */
  ghost predicate Sifted(scheme: Scheme, checks: seq<Check>, minTimestampNs: nat, batch: seq<SignedReceipt>,
                         valid: seq<SignedReceipt>, invalid: seq<FailedReceipt>) {
    && (forall r :: r in valid <==> IsFirst(scheme, batch, r) && PassesChecks(checks, minTimestampNs, r))
    && (forall f :: f in invalid <==>
          || (f.error == NonUniqueReceipt && IsRepeat(scheme, batch, f.receipt))
          || (f.error == CheckFailure && IsFirst(scheme, batch, f.receipt)
              && Objects(checks, minTimestampNs, f.receipt, Fail)))
    && scheme.UniqueIds(valid)
    && multiset(valid) + multiset(Receipts(invalid)) == multiset(batch)
  }

  /** Some first of its id cannot be judged now: its first check that does not pass asks for a
      retry. */
  predicate Blocked(scheme: Scheme, checks: seq<Check>, minTimestampNs: nat, batch: seq<SignedReceipt>) {
    exists r :: r in batch && IsFirst(scheme, batch, r) && Objects(checks, minTimestampNs, r, Retry)
  }

  lemma {:induction false} FailingExactly(judge: Judge, receipts: seq<SignedReceipt>)
    ensures forall f :: f in judge.Failing(receipts) <==>
              f.error == CheckFailure && f.receipt in receipts && judge.Outcome(f.receipt) == Fail
  {
    if receipts != [] {
      var n := |receipts| - 1;
      FailingExactly(judge, receipts[..n]);
      assert forall r :: r in receipts <==> r in receipts[..n] || r == receipts[n];
    }
  }

  lemma OutcomesExactly(judge: Judge, r: SignedReceipt)
    ensures judge.Outcome(r) == Pass <==> PassesChecks(judge.checks, judge.minTimestampNs, r)
    ensures judge.Outcome(r) == Fail <==> Objects(judge.checks, judge.minTimestampNs, r, Fail)
    ensures judge.Outcome(r) == Retry <==> Objects(judge.checks, judge.minTimestampNs, r, Retry)
  {
    PassesAll(judge.checks, judge.minTimestampNs, r);
    ObjectsExactly(judge.checks, judge.minTimestampNs, r, Fail);
    ObjectsExactly(judge.checks, judge.minTimestampNs, r, Retry);
  }

  lemma BlockedExactly(judge: Judge, batch: seq<SignedReceipt>)
    ensures judge.Undecided(Firsts(judge.scheme, batch)) <==>
            Blocked(judge.scheme, judge.checks, judge.minTimestampNs, batch)
  {
    FirstsExactly(judge.scheme, batch);
    forall r ensures judge.Outcome(r) == Retry <==> Objects(judge.checks, judge.minTimestampNs, r, Retry) {
      OutcomesExactly(judge, r);
    }
  }

  lemma ValidExactly(judge: Judge, batch: seq<SignedReceipt>, r: SignedReceipt)
    ensures r in judge.Valid(batch) <==>
            IsFirst(judge.scheme, batch, r) && PassesChecks(judge.checks, judge.minTimestampNs, r)
  {
    FirstsExactly(judge.scheme, batch);
    OutcomesExactly(judge, r);
    FilterCounts(Firsts(judge.scheme, batch), (r: SignedReceipt) => judge.Outcome(r) == Pass, r);
  }

  lemma InvalidExactly(judge: Judge, batch: seq<SignedReceipt>, f: FailedReceipt)
    ensures f in judge.Invalid(batch) <==>
            || (f.error == NonUniqueReceipt && IsRepeat(judge.scheme, batch, f.receipt))
            || (f.error == CheckFailure && IsFirst(judge.scheme, batch, f.receipt)
                && Objects(judge.checks, judge.minTimestampNs, f.receipt, Fail))
  {
    FirstsExactly(judge.scheme, batch);
    FailingExactly(judge, Firsts(judge.scheme, batch));
    OutcomesExactly(judge, f.receipt);
  }

  lemma JudgeSifts(judge: Judge, batch: seq<SignedReceipt>)
    requires !judge.Undecided(Firsts(judge.scheme, batch))
    ensures Sifted(judge.scheme, judge.checks, judge.minTimestampNs, batch, judge.Valid(batch), judge.Invalid(batch))
  {
    forall r
      ensures r in judge.Valid(batch) <==>
              IsFirst(judge.scheme, batch, r) && PassesChecks(judge.checks, judge.minTimestampNs, r)
    {
      ValidExactly(judge, batch, r);
    }
    forall f
      ensures f in judge.Invalid(batch) <==>
              || (f.error == NonUniqueReceipt && IsRepeat(judge.scheme, batch, f.receipt))
              || (f.error == CheckFailure && IsFirst(judge.scheme, batch, f.receipt)
                  && Objects(judge.checks, judge.minTimestampNs, f.receipt, Fail))
    {
      InvalidExactly(judge, batch, f);
    }
    FirstsUnique(judge.scheme, batch);
    FilterUnique(judge.scheme, Firsts(judge.scheme, batch), (r: SignedReceipt) => judge.Outcome(r) == Pass);
    BatchParted(judge, batch);
  }

  /** The expected RAV is for the valid receipts on top of the previous RAV, and there is one
      exactly if there are valid receipts and the total fits. */
  ghost predicate ExpectedOf(request: RavRequest) {
    && (request.expected.Ok? <==> request.valid != [] && FullTotal(request.valid, request.previous) <= U128_MAX)
    && (request.expected.Ok? ==>
          Vouches(request.expected.value, request.valid[0].message.identity, request.valid, request.previous))
    && (request.expected == Err(NoValidReceipts) <==> request.valid == [])
  }

  /** After the last RAV and before `end`. */
  predicate Between(rav: Option<SignedRav>, t: nat, end: nat) {
    (rav.Some? ==> rav.value.message.timestampNs < t) && t < end
  }

  /** The batch holds nothing but stored receipts after the last RAV and before `end`: without a
      limit all of them, else no more than the limit and none skipped at or before a timestamp
      that it reaches. */
  ghost predicate AskedFor(receipts: map<nat, SignedReceipt>, rav: Option<SignedRav>, end: nat, limit: Option<nat>,
                           batch: seq<SignedReceipt>) {
    && (forall r :: multiset(batch)[r] <= if Between(rav, Time(r), end) then Stock(receipts, r) else 0)
    && (limit.None? ==> forall r :: Between(rav, Time(r), end) ==> multiset(batch)[r] == Stock(receipts, r))
    && (limit.Some? ==>
          && |batch| <= limit.value
          && forall x, y :: x in batch && Between(rav, Time(y), end) && Time(y) <= Time(x) ==>
               multiset(batch)[y] == Stock(receipts, y))
  }

  lemma Asked(receipts: map<nat, SignedReceipt>, rav: Option<SignedRav>, end: nat, limit: Option<nat>,
              batch: seq<SignedReceipt>)
    requires IsRetrieval(receipts, HalfOpen(FirstTimestamp(rav), end), limit, batch)
    ensures AskedFor(receipts, rav, end, limit, batch)
  {
    RetrievalExactly(receipts, HalfOpen(FirstTimestamp(rav), end), limit, batch);
    forall t ensures Between(rav, t, end) <==> HalfOpen(FirstTimestamp(rav), end).Contains(t) {}
  }

  /** What an answer means, in its own terms. */
  ghost predicate Answers(scheme: Scheme, checks: seq<Check>, state: State, end: nat, limit: Option<nat>,
                          batch: seq<SignedReceipt>, result: Result<RavRequest, Error>) {
    match result
    case Ok(request) =>
      && AskedFor(state.receipts, state.rav, end, limit, batch)
      && request.previous == state.rav
      && Sifted(scheme, checks, state.minTimestampNs, batch, request.valid, request.invalid)
      && ExpectedOf(request)
    case Err(RetryableCheck) =>
      && AskedFor(state.receipts, state.rav, end, limit, batch)
      && Blocked(scheme, checks, state.minTimestampNs, batch)
    case Err(TimestampRangeError) => state.rav.Some? && state.rav.value.message.timestampNs >= end
    case Err(_) => false
  }

  lemma ExpectedExactly(judge: Judge, rav: Option<SignedRav>, batch: seq<SignedReceipt>)
    ensures ExpectedOf(RequestFor(judge, rav, batch))
  {
    var valid := judge.Valid(batch);
    if valid != [] { AggregatedExactly(valid[0].message.identity, valid, rav); }
  }

  lemma AnswerMeans(judge: Judge, state: State, end: nat, limit: Option<nat>, batch: seq<SignedReceipt>,
                    result: Result<RavRequest, Error>)
    requires result == Answer(judge, state, end, batch) && judge.minTimestampNs == state.minTimestampNs
    requires result != Err(TimestampRangeError) ==>
               batch in Retrievals(state.receipts, HalfOpen(FirstTimestamp(state.rav), end), limit)
    ensures Answers(judge.scheme, judge.checks, state, end, limit, batch, result)
    ensures result.Ok? ==> !Blocked(judge.scheme, judge.checks, state.minTimestampNs, batch)
  {
    hide AskedFor, Sifted, ExpectedOf, Blocked, IsRetrieval;
    if FirstTimestamp(state.rav) <= end {
      Asked(state.receipts, state.rav, end, limit, batch);
      BlockedExactly(judge, batch);
      if result.Ok? {
        JudgeSifts(judge, batch);
        ExpectedExactly(judge, state.rav, batch);
      }
    }
  }

  class Manager {
    const scheme: Scheme
    const context: InMemoryContext
    const checks: seq<Check>

    constructor (scheme: Scheme, context: InMemoryContext, checks: seq<Check>)
      ensures this.scheme == scheme && this.context == context && this.checks == checks
    {
      this.scheme, this.context, this.checks := scheme, context, checks;
    }

    function CurrentJudge(): Judge
      reads context
    {
      Judge(scheme, checks, context.minTimestampNs)
    }

    method FinalizeAll(checking: seq<SignedReceipt>)
      returns (result: Result<(seq<SignedReceipt>, seq<FailedReceipt>), Error>)
      ensures var judge := CurrentJudge();
              result == if judge.Undecided(checking) then Err(RetryableCheck)
                        else Ok((judge.Passing(checking), judge.Failing(checking)))
    {
      ghost var judge := CurrentJudge();
      var checked, failed := [], [];
      for n := 0 to |checking|
        invariant !judge.Undecided(checking[..n])
        invariant checked == judge.Passing(checking[..n])
        invariant failed == judge.Failing(checking[..n])
      {
        JudgeAppend(judge, checking[..n], checking[n]);
        assert checking[..n + 1] == checking[..n] + [checking[n]];
        assert forall r :: r in checking[..n + 1] <==> r in checking[..n] || r == checking[n];
        match FinalizeReceiptChecks(checks, context.minTimestampNs, checking[n])
        case Err(_) => return Err(RetryableCheck);
        case Ok(Ok(receipt)) => checked := checked + [receipt];
        case Ok(Err(failure)) => failed := failed + [failure];
      }
      assert checking[..|checking|] == checking;
      return Ok((checked, failed));
    }

    /** `now - timestampBufferNs` is the end of the range; the batch is what the context gave. */
    method CollectReceipts(now: nat, timestampBufferNs: nat, minTimestampNs: nat, limit: Option<nat>)
      returns (result: Result<(seq<SignedReceipt>, seq<FailedReceipt>), Error>, ghost batch: seq<SignedReceipt>)
      requires timestampBufferNs <= now
      ensures minTimestampNs > now - timestampBufferNs <==> result == Err(TimestampRangeError)
      ensures minTimestampNs <= now - timestampBufferNs ==>
                && IsRetrieval(context.receiptStorage, HalfOpen(minTimestampNs, now - timestampBufferNs), limit, batch)
                && var judge := CurrentJudge();
                   result == if judge.Undecided(Firsts(scheme, batch)) then Err(RetryableCheck)
                             else Ok((judge.Valid(batch), judge.Invalid(batch)))
      // In its own terms.
      ensures result.Ok? ==>
                Sifted(scheme, checks, context.minTimestampNs, batch, result.value.0, result.value.1)
      ensures result == Err(RetryableCheck) <==>
              minTimestampNs <= now - timestampBufferNs && Blocked(scheme, checks, context.minTimestampNs, batch)
    {
      hide Sifted, Blocked, IsRetrieval, IsFirst, IsRepeat, PerformChecks, Receipts, Firsts, Repeats, Judge.Passing;
      var maxTimestampNs := now - timestampBufferNs;
      batch := [];
      if minTimestampNs > maxTimestampNs {
        return Err(TimestampRangeError), batch;
      }
      var range := HalfOpen(minTimestampNs, maxTimestampNs);
      var checking := context.RetrieveReceiptsInTimestampRange(range, limit);
      batch := checking;
      RetrievedInRange(context.receiptStorage, range, limit, batch);
      var failed, alreadyFailed := [], [];
      checking, alreadyFailed := TimestampCheck(minTimestampNs, checking);
      NoneEarly(batch, checking, alreadyFailed, minTimestampNs);
      failed := failed + alreadyFailed;
      checking, alreadyFailed := UniqueCheck(scheme, checking);
      failed := failed + alreadyFailed;
      assert failed == Repeats(scheme, batch);
      BlockedExactly(CurrentJudge(), batch);
      result := FinalizeAll(checking);
      if result.Ok? {
        JudgeSifts(CurrentJudge(), batch);
        result := Ok((result.value.0, failed + result.value.1));
      }
    }

    method CreateRavRequest(now: nat, timestampBufferNs: nat, limit: Option<nat>)
      returns (result: Result<RavRequest, Error>, ghost batch: seq<SignedReceipt>)
      requires timestampBufferNs <= now
      ensures result == Err(TimestampRangeError) <==> FirstTimestamp(context.ravStorage) > now - timestampBufferNs
      ensures result == Answer(CurrentJudge(), context.View(), now - timestampBufferNs, batch)
      ensures result != Err(TimestampRangeError) ==>
                batch in Retrievals(context.View().receipts,
                    HalfOpen(FirstTimestamp(context.View().rav), now - timestampBufferNs), limit)
      // In its own terms: what is asked about, and with what result.
      ensures Answers(scheme, checks, context.View(), now - timestampBufferNs, limit, batch, result)
      ensures result.Ok? ==> !Blocked(scheme, checks, context.minTimestampNs, batch)
    {
      hide Answers, AskedFor, Sifted, ExpectedOf, Blocked, IsRetrieval;
      var previous := context.ravStorage;
      var collected;
      collected, batch := CollectReceipts(now, timestampBufferNs, FirstTimestamp(previous), limit);
      if collected.Err? {
        result := Err(collected.error);
      } else {
        var (valid, invalid) := collected.value;
        var expected := AggregateChecked(valid, previous);
        result := Ok(RavRequest(valid, previous, invalid, expected));
      }
      AnswerMeans(CurrentJudge(), context.View(), now - timestampBufferNs, limit, batch, result);
    }

    method VerifyAndStoreRav(expected: Rav, signed: SignedRav) returns (result: Result<(), Error>)
      modifies context
      ensures var refusal := Refusal(scheme, context.senderAddress, expected, signed);
              && result == (if refusal.Some? then Err(refusal.value) else Ok(()))
              && context.View() == (if refusal.Some? then old(context.View()) else WithRav(old(context.View()), signed))
      // In its own terms: what is accepted, what each error means, and what changes.
      ensures result.Ok? <==>
              && context.senderAddress.Some? && scheme.ravSigner(signed) == context.senderAddress
              && signed.message == expected
      ensures result == Err(SignatureError) <==> scheme.ravSigner(signed).None?
      ensures result == Err(InvalidRecoveredSigner) <==>
              scheme.ravSigner(signed).Some? && scheme.ravSigner(signed) != context.senderAddress
      ensures result == Err(InvalidReceivedRav) <==>
              && scheme.ravSigner(signed).Some? && scheme.ravSigner(signed) == context.senderAddress
              && signed.message != expected
      ensures result.Ok? ==>
                && context.ravStorage == Some(signed)
                && context.minTimestampNs == signed.message.timestampNs
      ensures result.Err? ==>
                context.ravStorage == old(context.ravStorage) && context.minTimestampNs == old(context.minTimestampNs)
      ensures context.receiptStorage == old(context.receiptStorage) && context.uniqueId == old(context.uniqueId)
    {
      var signer := scheme.ravSigner(signed);
      if signer.None? { return Err(SignatureError); }
      if !context.VerifySigner(signer.value) { return Err(InvalidRecoveredSigner); }
      if signed.message != expected { return Err(InvalidReceivedRav); }
      context.UpdateLastRav(signed);
      return Ok(());
    }

    method RemoveObsoleteReceipts()
      modifies context
      ensures context.View() == Cleaned(old(context.View()))
      // In its own terms: only the receipts change, and just those later than the RAV stay.
      ensures context.ravStorage == old(context.ravStorage) && context.uniqueId == old(context.uniqueId)
      ensures context.minTimestampNs == old(context.minTimestampNs)
      ensures forall id :: id in context.receiptStorage <==>
                && id in old(context.receiptStorage)
                && (context.ravStorage.Some? ==>
                      context.ravStorage.value.message.timestampNs < Time(old(context.receiptStorage)[id]))
      ensures forall id :: id in context.receiptStorage ==>
                context.receiptStorage[id] == old(context.receiptStorage)[id]
    {
      if context.ravStorage.Some? {
        context.RemoveReceiptsInTimestampRange(UpTo(context.ravStorage.value.message.timestampNs));
      }
    }

    method VerifyAndStoreReceipt(receipt: SignedReceipt) returns (result: Result<(), Error>)
      modifies context
      ensures var outcome := old(CurrentJudge()).Outcome(receipt);
              && result == (match outcome
                            case Pass => Ok(())
                            case Fail => Err(CheckFailed)
                            case Retry => Err(RetryableCheck))
              && context.View() == if outcome == Pass then Stored(old(context.View()), receipt) else old(context.View())
      // In its own terms.
      ensures result.Ok? <==> PassesChecks(checks, old(context.minTimestampNs), receipt)
      ensures result == Err(CheckFailed) <==> Objects(checks, old(context.minTimestampNs), receipt, Fail)
      ensures result == Err(RetryableCheck) <==> Objects(checks, old(context.minTimestampNs), receipt, Retry)
      ensures context.receiptStorage ==
              if result.Ok? then old(context.receiptStorage)[old(context.uniqueId) := receipt]
              else old(context.receiptStorage)
      ensures context.uniqueId == if result.Ok? then old(context.uniqueId) + 1 else old(context.uniqueId)
      ensures context.ravStorage == old(context.ravStorage) && context.minTimestampNs == old(context.minTimestampNs)
    {
      OutcomesExactly(CurrentJudge(), receipt);
      match PerformChecks(checks, context.minTimestampNs, receipt)
      case Fail => return Err(CheckFailed);
      case Retry => return Err(RetryableCheck);
      case Pass =>
        var id := context.StoreReceipt(receipt);
        return Ok(());
    }
  }

  /** Once a RAV is stored, the timestamp check accepts exactly the receipts of a timestamp after
      the RAV's, from the very next nanosecond on: those that the next request ranges over. */
  lemma NextReceiptsPass(state: State, rav: SignedRav, r: SignedReceipt)
    ensures RunCheck(MinTimestamp, WithRav(state, rav).minTimestampNs, r) == Pass <==>
            rav.message.timestampNs < r.message.timestampNs
    ensures RunCheck(MinTimestamp, WithRav(state, rav).minTimestampNs, r) == Fail <==>
            r.message.timestampNs <= rav.message.timestampNs
    ensures rav.message.timestampNs < r.message.timestampNs <==> FirstTimestamp(Some(rav)) <= r.message.timestampNs
  {
  }

  function Cleaned(state: State): State {
    if state.rav.Some? then Removed(state, UpTo(state.rav.value.message.timestampNs)) else state
  }

  lemma RetrievedInRange(receipts: map<nat, SignedReceipt>, range: Range, limit: Option<nat>, batch: seq<SignedReceipt>)
    requires IsRetrieval(receipts, range, limit, batch)
    ensures forall r :: r in batch ==> range.Contains(Time(r))
  {
    forall r | r in batch ensures range.Contains(Time(r)) {
      assert r in multiset(batch);
      ValuesIn(InRange(receipts, range), r);
    }
  }

  lemma {:induction false} ValuesIn(receipts: map<nat, SignedReceipt>, r: SignedReceipt)
    requires r in Values(receipts)
    ensures exists id :: id in receipts && receipts[id] == r
    decreases |receipts|
  {
    var id :| id in receipts && Values(receipts) == multiset{receipts[id]} + Values(receipts - {id});
    if receipts[id] != r {
      ValuesIn(receipts - {id}, r);
    }
  }

  lemma {:induction false} FailedAmong(batch: seq<SignedReceipt>, checking: seq<SignedReceipt>,
                                       failed: seq<FailedReceipt>)
    requires multiset(checking) + multiset(Receipts(failed)) == multiset(batch)
    ensures forall f :: f in failed ==> f.receipt in batch
  {
    forall f | f in failed ensures f.receipt in batch {
      ReceiptsIn(failed, f);
      assert f.receipt in multiset(batch);
    }
  }

  lemma {:induction false} ReceiptsIn(failed: seq<FailedReceipt>, f: FailedReceipt)
    requires f in failed
    ensures f.receipt in multiset(Receipts(failed))
  {
    var n := |failed| - 1;
    if f != failed[n] { ReceiptsIn(failed[..n], f); }
  }

  /** Receipts asked for from a timestamp on all pass the check for that timestamp. */
  lemma NoneEarly(batch: seq<SignedReceipt>, checking: seq<SignedReceipt>, failed: seq<FailedReceipt>,
                  minTimestampNs: nat)
    requires forall r :: r in batch ==> minTimestampNs <= Time(r)
    requires multiset(checking) + multiset(Receipts(failed)) == multiset(batch)
    requires forall f :: f in failed ==> f.receipt.message.timestampNs < minTimestampNs
    ensures failed == []
  {
    assert |failed| == 0 || failed[0] in failed;
    FailedAmong(batch, checking, failed);
  }
}
