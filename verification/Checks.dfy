/** The checks a receipt goes through, alone and in a batch. */
module Checks {
  import opened Common
  import opened Messages

  datatype Outcome = Pass | Fail | Retry

  datatype ReceiptError = InvalidTimestamp | NonUniqueReceipt | CheckFailure

  datatype FailedReceipt = FailedReceipt(receipt: SignedReceipt, error: ReceiptError)

  /** A configured check: the stateful one compares with the least timestamp the context still
      accepts, the others are the user's own. */
  datatype Check = MinTimestamp | Custom(outcome: SignedReceipt -> Outcome)

  function RunCheck(check: Check, minTimestampNs: nat, receipt: SignedReceipt): Outcome {
    match check
    case MinTimestamp => if receipt.message.timestampNs <= minTimestampNs then Fail else Pass
    case Custom(outcome) => outcome(receipt)
  }

  /** The checks in turn, up to the first that does not pass. */
  function PerformChecks(checks: seq<Check>, minTimestampNs: nat, receipt: SignedReceipt): Outcome {
    if checks == [] then Pass
    else
      var first := RunCheck(checks[0], minTimestampNs, receipt);
      if first == Pass then PerformChecks(checks[1..], minTimestampNs, receipt) else first
  }

  /** A receipt passes when it passes every check. */
  lemma {:induction false} PassesAll(checks: seq<Check>, minTimestampNs: nat, receipt: SignedReceipt)
    ensures PerformChecks(checks, minTimestampNs, receipt) == Pass <==>
            forall c :: c in checks ==> RunCheck(c, minTimestampNs, receipt) == Pass
  {
    if checks != [] {
      PassesAll(checks[1..], minTimestampNs, receipt);
      assert forall c :: c in checks <==> c == checks[0] || c in checks[1..];
    }
  }

  /** The first check that does not pass comes to `outcome`. */
  predicate Objects(checks: seq<Check>, minTimestampNs: nat, receipt: SignedReceipt, outcome: Outcome) {
    exists k ::
      && 0 <= k < |checks| && RunCheck(checks[k], minTimestampNs, receipt) == outcome
      && forall j :: 0 <= j < k ==> RunCheck(checks[j], minTimestampNs, receipt) == Pass
  }

  /** A receipt fails, or is to be retried, by the first check that does not pass. */
  lemma {:induction false} ObjectsExactly(checks: seq<Check>, minTimestampNs: nat, receipt: SignedReceipt,
                                          outcome: Outcome)
    requires outcome != Pass
    ensures PerformChecks(checks, minTimestampNs, receipt) == outcome <==>
            Objects(checks, minTimestampNs, receipt, outcome)
  {
    if checks != [] {
      var rest := checks[1..];
      ObjectsExactly(rest, minTimestampNs, receipt, outcome);
      if RunCheck(checks[0], minTimestampNs, receipt) == Pass {
        if Objects(rest, minTimestampNs, receipt, outcome) {
          var k :| 0 <= k < |rest| && RunCheck(rest[k], minTimestampNs, receipt) == outcome
                   && forall j :: 0 <= j < k ==> RunCheck(rest[j], minTimestampNs, receipt) == Pass;
          assert RunCheck(checks[k + 1], minTimestampNs, receipt) == outcome;
          assert forall j :: 0 < j < k + 1 ==> checks[j] == rest[j - 1];
        }
        if Objects(checks, minTimestampNs, receipt, outcome) {
          var k :| 0 <= k < |checks| && RunCheck(checks[k], minTimestampNs, receipt) == outcome
                   && forall j :: 0 <= j < k ==> RunCheck(checks[j], minTimestampNs, receipt) == Pass;
          assert RunCheck(rest[k - 1], minTimestampNs, receipt) == outcome;
          assert forall j :: 0 <= j < k - 1 ==> rest[j] == checks[j + 1];
        }
      }
    }
  }

  /** `Err` when a check asks to retry, else whether the receipt is checked or failed. */
  function FinalizeReceiptChecks(checks: seq<Check>, minTimestampNs: nat,
                                 receipt: SignedReceipt): Result<Result<SignedReceipt, FailedReceipt>, ()> {
    match PerformChecks(checks, minTimestampNs, receipt)
    case Retry => Err(())
    case Fail => Ok(Err(FailedReceipt(receipt, CheckFailure)))
    case Pass => Ok(Ok(receipt))
  }

  function Receipts(failed: seq<FailedReceipt>): seq<SignedReceipt> {
    if failed == [] then [] else Receipts(failed[..|failed| - 1]) + [failed[|failed| - 1].receipt]
  }

  lemma ReceiptsAppend(failed: seq<FailedReceipt>, more: FailedReceipt)
    ensures Receipts(failed + [more]) == Receipts(failed) + [more.receipt]
  {
  }

  lemma {:induction false} ReceiptsConcat(a: seq<FailedReceipt>, b: seq<FailedReceipt>)
    ensures Receipts(a + b) == Receipts(a) + Receipts(b)
  {
    if b == [] {
      assert a + b == a;
    } else {
      var n := |b| - 1;
      ReceiptsConcat(a, b[..n]);
      assert (a + b)[..|a + b| - 1] == a + b[..n];
    }
  }

  method TimestampCheck(minTimestampNs: nat, receipts: seq<SignedReceipt>)
    returns (checking: seq<SignedReceipt>, failed: seq<FailedReceipt>)
    ensures multiset(checking) + multiset(Receipts(failed)) == multiset(receipts)
    ensures forall r :: r in checking ==> r.message.timestampNs >= minTimestampNs
    ensures forall f :: f in failed ==> f.receipt.message.timestampNs < minTimestampNs && f.error == InvalidTimestamp
    ensures failed == [] ==> checking == receipts
  {
    checking, failed := [], [];
    for n := 0 to |receipts|
      invariant multiset(checking) + multiset(Receipts(failed)) == multiset(receipts[..n])
      invariant forall r :: r in checking ==> r.message.timestampNs >= minTimestampNs
      invariant forall f :: f in failed ==>
                  f.receipt.message.timestampNs < minTimestampNs && f.error == InvalidTimestamp
      invariant failed == [] ==> checking == receipts[..n]
    {
      var receipt := receipts[n];
      assert receipts[..n + 1] == receipts[..n] + [receipt];
      ShareOneMore(checking, Receipts(failed), receipts[..n], receipt);
      if receipt.message.timestampNs >= minTimestampNs {
        checking := checking + [receipt];
      } else {
        ReceiptsAppend(failed, FailedReceipt(receipt, InvalidTimestamp));
        failed := failed + [FailedReceipt(receipt, InvalidTimestamp)];
      }
    }
    assert receipts[..|receipts|] == receipts;
  }

  predicate HasId(scheme: Scheme, receipts: seq<SignedReceipt>, id: nat) {
    exists r :: r in receipts && scheme.UniqueId(r) == id
  }

  /** The receipts whose unique id does not occur earlier in the list. */
  function Firsts(scheme: Scheme, receipts: seq<SignedReceipt>): seq<SignedReceipt> {
    if receipts == [] then []
    else
      var earlier, last := receipts[..|receipts| - 1], receipts[|receipts| - 1];
      if HasId(scheme, earlier, scheme.UniqueId(last)) then Firsts(scheme, earlier)
      else Firsts(scheme, earlier) + [last]
  }

  /** The others, failed for not being unique. */
  function Repeats(scheme: Scheme, receipts: seq<SignedReceipt>): seq<FailedReceipt> {
    if receipts == [] then []
    else
      var earlier, last := receipts[..|receipts| - 1], receipts[|receipts| - 1];
      if HasId(scheme, earlier, scheme.UniqueId(last))
      then Repeats(scheme, earlier) + [FailedReceipt(last, NonUniqueReceipt)]
      else Repeats(scheme, earlier)
  }

  lemma FirstsAppend(scheme: Scheme, receipts: seq<SignedReceipt>, more: SignedReceipt)
    ensures HasId(scheme, receipts, scheme.UniqueId(more)) ==>
              && Firsts(scheme, receipts + [more]) == Firsts(scheme, receipts)
              && Repeats(scheme, receipts + [more]) ==
                  Repeats(scheme, receipts) + [FailedReceipt(more, NonUniqueReceipt)]
    ensures !HasId(scheme, receipts, scheme.UniqueId(more)) ==>
              && Firsts(scheme, receipts + [more]) == Firsts(scheme, receipts) + [more]
              && Repeats(scheme, receipts + [more]) == Repeats(scheme, receipts)
  {
  }

  lemma {:induction false} FirstsAndRepeats(scheme: Scheme, receipts: seq<SignedReceipt>)
    ensures multiset(Firsts(scheme, receipts)) + multiset(Receipts(Repeats(scheme, receipts))) == multiset(receipts)
  {
    if receipts != [] {
      hide HasId, Receipts, Firsts, Repeats;
      var earlier, last := receipts[..|receipts| - 1], receipts[|receipts| - 1];
      FirstsAndRepeats(scheme, earlier);
      FirstsAppend(scheme, earlier, last);
      ReceiptsAppend(Repeats(scheme, earlier), FailedReceipt(last, NonUniqueReceipt));
      ShareOneMore(Firsts(scheme, earlier), Receipts(Repeats(scheme, earlier)), earlier, last);
      assert receipts == earlier + [last];
    }
  }

  lemma HasIdAppend(scheme: Scheme, receipts: seq<SignedReceipt>, more: SignedReceipt, id: nat)
    ensures HasId(scheme, receipts + [more], id) <==> HasId(scheme, receipts, id) || scheme.UniqueId(more) == id
  {
  }

  /** Firsts keep one receipt for every unique id of the list, and just one. */
  lemma {:induction false} FirstsUnique(scheme: Scheme, receipts: seq<SignedReceipt>)
    ensures scheme.UniqueIds(Firsts(scheme, receipts))
    ensures forall id :: HasId(scheme, Firsts(scheme, receipts), id) <==> HasId(scheme, receipts, id)
    ensures forall r :: r in Firsts(scheme, receipts) ==> r in receipts
  {
    if receipts != [] {
      var earlier, last := receipts[..|receipts| - 1], receipts[|receipts| - 1];
      var firsts := Firsts(scheme, earlier);
      FirstsUnique(scheme, earlier);
      assert receipts == earlier + [last];
      forall id: nat ensures HasId(scheme, Firsts(scheme, receipts), id) <==> HasId(scheme, receipts, id) {
        HasIdAppend(scheme, earlier, last, id);
        HasIdAppend(scheme, firsts, last, id);
      }
      forall i | 0 <= i < |firsts| ensures HasId(scheme, earlier, scheme.UniqueId(firsts[i])) {
        assert firsts[i] in firsts;
      }
    }
  }

  /** No receipt before position `j` has the same unique id. */
  predicate NewAt(scheme: Scheme, receipts: seq<SignedReceipt>, j: nat)
    requires j < |receipts|
  {
    forall i :: 0 <= i < j ==> scheme.UniqueId(receipts[i]) != scheme.UniqueId(receipts[j])
  }

  /** The receipt is somewhere in the list the first of its unique id. */
  predicate IsFirst(scheme: Scheme, receipts: seq<SignedReceipt>, r: SignedReceipt) {
    exists j :: 0 <= j < |receipts| && receipts[j] == r && NewAt(scheme, receipts, j)
  }

  /** The receipt is somewhere in the list after another of its unique id. */
  predicate IsRepeat(scheme: Scheme, receipts: seq<SignedReceipt>, r: SignedReceipt) {
    exists i, j :: 0 <= i < j < |receipts| && receipts[j] == r && scheme.UniqueId(receipts[i]) == scheme.UniqueId(r)
  }

  lemma AppendedFirst(scheme: Scheme, earlier: seq<SignedReceipt>, last: SignedReceipt, r: SignedReceipt)
    ensures IsFirst(scheme, earlier + [last], r) <==>
            IsFirst(scheme, earlier, r) || (r == last && !HasId(scheme, earlier, scheme.UniqueId(last)))
  {
    var all := earlier + [last];
    forall j: nat | j < |earlier| ensures NewAt(scheme, all, j) <==> NewAt(scheme, earlier, j) {
      assert forall i :: 0 <= i <= j ==> all[i] == earlier[i];
    }
    assert NewAt(scheme, all, |earlier|) <==> !HasId(scheme, earlier, scheme.UniqueId(last)) by {
      assert all[|earlier|] == last;
      assert forall i :: 0 <= i < |earlier| ==> all[i] == earlier[i] && earlier[i] in earlier;
    }
    if IsFirst(scheme, earlier, r) {
      var j :| 0 <= j < |earlier| && earlier[j] == r && NewAt(scheme, earlier, j);
      assert all[j] == r && NewAt(scheme, all, j);
    }
  }

  lemma AppendedRepeat(scheme: Scheme, earlier: seq<SignedReceipt>, last: SignedReceipt, r: SignedReceipt)
    ensures IsRepeat(scheme, earlier + [last], r) <==>
            IsRepeat(scheme, earlier, r) || (r == last && HasId(scheme, earlier, scheme.UniqueId(last)))
  {
    var all := earlier + [last];
    if IsRepeat(scheme, earlier, r) {
      var i, j :| 0 <= i < j < |earlier| && earlier[j] == r && scheme.UniqueId(earlier[i]) == scheme.UniqueId(r);
      assert all[i] == earlier[i] && all[j] == r;
    }
    if r == last && HasId(scheme, earlier, scheme.UniqueId(last)) {
      var i :| 0 <= i < |earlier| && scheme.UniqueId(earlier[i]) == scheme.UniqueId(last);
      assert all[i] == earlier[i] && all[|earlier|] == r;
    }
  }

  /** The kept receipts are those that are first of their id, the failed ones those that repeat
      an earlier one's. */
  lemma {:induction false} FirstsExactly(scheme: Scheme, receipts: seq<SignedReceipt>)
    ensures forall r :: r in Firsts(scheme, receipts) <==> IsFirst(scheme, receipts, r)
    ensures forall f :: f in Repeats(scheme, receipts) <==>
              f.error == NonUniqueReceipt && IsRepeat(scheme, receipts, f.receipt)
  {
    if receipts != [] {
      var earlier, last := receipts[..|receipts| - 1], receipts[|receipts| - 1];
      assert receipts == earlier + [last];
      FirstsExactly(scheme, earlier);
      forall r ensures r in Firsts(scheme, receipts) <==> IsFirst(scheme, receipts, r) {
        AppendedFirst(scheme, earlier, last, r);
      }
      forall f ensures f in Repeats(scheme, receipts) <==>
                       f.error == NonUniqueReceipt && IsRepeat(scheme, receipts, f.receipt) {
        AppendedRepeat(scheme, earlier, last, f.receipt);
      }
    }
  }

  method UniqueCheck(scheme: Scheme, receipts: seq<SignedReceipt>)
    returns (checking: seq<SignedReceipt>, failed: seq<FailedReceipt>)
    ensures checking == Firsts(scheme, receipts)
    ensures failed == Repeats(scheme, receipts)
    // In its own terms: the firsts of their ids, in order, and all the others.
    ensures forall r :: r in checking <==> IsFirst(scheme, receipts, r)
    ensures forall f :: f in failed <==> f.error == NonUniqueReceipt && IsRepeat(scheme, receipts, f.receipt)
    ensures scheme.UniqueIds(checking) && multiset(checking) + multiset(Receipts(failed)) == multiset(receipts)
  {
    hide IsFirst, IsRepeat;
    checking, failed := [], [];
    var signatures: set<nat> := {};
    for n := 0 to |receipts|
      invariant forall id :: id in signatures <==> HasId(scheme, receipts[..n], id)
      invariant checking == Firsts(scheme, receipts[..n])
      invariant failed == Repeats(scheme, receipts[..n])
    {
      var receipt := receipts[n];
      var id := scheme.UniqueId(receipt);
      FirstsAppend(scheme, receipts[..n], receipt);
      forall other: nat { HasIdAppend(scheme, receipts[..n], receipt, other); }
      assert receipts[..n + 1] == receipts[..n] + [receipt];
      if id !in signatures {
        signatures := signatures + {id};
        checking := checking + [receipt];
      } else {
        failed := failed + [FailedReceipt(receipt, NonUniqueReceipt)];
      }
    }
    assert receipts[..|receipts|] == receipts;
    FirstsExactly(scheme, receipts);
    FirstsUnique(scheme, receipts);
    FirstsAndRepeats(scheme, receipts);
  }
}
