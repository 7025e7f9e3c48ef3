/** Cutting a list of receipts down to a limit without splitting any timestamp. */
module Truncation {
  import opened Common
  import opened Messages

  type Bag = multiset<SignedReceipt>

  function Time(receipt: SignedReceipt): nat {
    receipt.message.timestampNs
  }

  /** `part` leaves no receipt behind that is as early as one it holds. */
  ghost predicate DownClosed(part: Bag, all: Bag) {
    && part <= all
    && forall x, y :: x in part && y in all && Time(y) <= Time(x) ==> part[y] == all[y]
  }

  /** The largest part within the limit that leaves nothing behind. */
  ghost predicate IsTruncation(part: Bag, all: Bag, limit: nat) {
    && DownClosed(part, all) && |part| <= limit
    && forall other: Bag :: DownClosed(other, all) && |other| <= limit ==> other <= part
  }

  lemma TruncationUnique(part1: Bag, part2: Bag, all: Bag, limit: nat)
    requires IsTruncation(part1, all, limit) && IsTruncation(part2, all, limit)
    ensures part1 == part2
  {
  }

  predicate Sorted(receipts: seq<SignedReceipt>) {
    forall i, j :: 0 <= i < j < |receipts| ==> Time(receipts[i]) <= Time(receipts[j])
  }

  lemma InsertSorted(sorted: seq<SignedReceipt>, i: nat, receipt: SignedReceipt)
    requires Sorted(sorted) && i <= |sorted|
    requires forall j :: 0 <= j < i ==> Time(sorted[j]) <= Time(receipt)
    requires i < |sorted| ==> Time(receipt) <= Time(sorted[i])
    ensures Sorted(sorted[..i] + [receipt] + sorted[i..])
  {
  }

  lemma InsertCounts(sorted: seq<SignedReceipt>, i: nat, receipt: SignedReceipt)
    requires i <= |sorted|
    ensures multiset(sorted[..i] + [receipt] + sorted[i..]) == multiset(sorted) + multiset{receipt}
  {
    assert sorted == sorted[..i] + sorted[i..];
  }

  method Insert(sorted: seq<SignedReceipt>, receipt: SignedReceipt) returns (more: seq<SignedReceipt>)
    requires Sorted(sorted)
    ensures Sorted(more) && multiset(more) == multiset(sorted) + multiset{receipt}
  {
    var i := 0;
    while i < |sorted| && Time(sorted[i]) < Time(receipt)
      invariant 0 <= i <= |sorted|
      invariant forall j :: 0 <= j < i ==> Time(sorted[j]) < Time(receipt)
    {
      i := i + 1;
    }
    InsertSorted(sorted, i, receipt);
    InsertCounts(sorted, i, receipt);
    more := sorted[..i] + [receipt] + sorted[i..];
  }

  /** An unstable sort by timestamp: nothing is known of the order of receipts that tie. */
  method SortUnstable(receipts: seq<SignedReceipt>) returns (sorted: seq<SignedReceipt>)
    ensures Sorted(sorted) && multiset(sorted) == multiset(receipts)
  {
    sorted := [];
    for n := 0 to |receipts|
      invariant Sorted(sorted) && multiset(sorted) == multiset(receipts[..n])
    {
      sorted := Insert(sorted, receipts[n]);
      assert receipts[..n + 1] == receipts[..n] + [receipts[n]];
    }
    assert receipts[..|receipts|] == receipts;
  }

  /** A position in a sorted list parts the earlier from the later. */
  lemma Parts(sorted: seq<SignedReceipt>, n: nat)
    requires Sorted(sorted) && n < |sorted|
    ensures forall x :: x in sorted[..n + 1] ==> Time(x) <= Time(sorted[n])
    ensures forall x :: x in sorted[n..] ==> Time(x) >= Time(sorted[n])
    ensures forall x :: multiset(sorted)[x] == multiset(sorted[..n])[x] + multiset(sorted[n..])[x]
  {
    forall x | x in sorted[n..] ensures Time(x) >= Time(sorted[n]) {
      var i :| 0 <= i < |sorted| - n && sorted[n..][i] == x;
      assert sorted[n + i] == x;
    }
    forall x | x in sorted[..n + 1] ensures Time(x) <= Time(sorted[n]) {
      var i :| 0 <= i <= n && sorted[i] == x;
    }
    assert sorted == sorted[..n] + sorted[n..];
  }

  /** The receipts before a time. */
  function Before(receipts: seq<SignedReceipt>, time: nat): seq<SignedReceipt> {
    Filter(receipts, (r: SignedReceipt) => Time(r) < time)
  }

  lemma BeforeCounts(receipts: seq<SignedReceipt>, time: nat, x: SignedReceipt)
    ensures multiset(Before(receipts, time))[x] == if Time(x) < time then multiset(receipts)[x] else 0
  {
    FilterCounts(receipts, (r: SignedReceipt) => Time(r) < time, x);
  }

  lemma SubBagSize(small: Bag, large: Bag)
    requires small <= large
    ensures |small| <= |large|
  {
    assert large == small + (large - small);
  }

  /** With the receipts sorted, those earlier than the first one past the limit are the
      truncation: a part that held more would hold every receipt up to that one. */
  lemma BeforeIsTruncation(sorted: seq<SignedReceipt>, limit: nat, part: Bag)
    requires Sorted(sorted) && limit < |sorted|
    requires part == multiset(Before(sorted, Time(sorted[limit])))
    ensures IsTruncation(part, multiset(sorted), limit)
  {
    var all, cut := multiset(sorted), Time(sorted[limit]);
    forall x ensures part[x] == if Time(x) < cut then all[x] else 0 {
      BeforeCounts(sorted, cut, x);
    }
    Parts(sorted, limit);
    forall x ensures part[x] <= multiset(sorted[..limit])[x] {
      if x in multiset(sorted[limit..]) { assert x in sorted[limit..]; }
    }
    SubBagSize(part, multiset(sorted[..limit]));
    forall other: Bag | DownClosed(other, all) && |other| <= limit ensures other <= part {
      OtherWithin(sorted, limit, other, part);
    }
  }

  /** A part that holds one receipt holds all that are no later. */
  lemma HoldsEarlier(part: Bag, all: Bag, x: SignedReceipt, early: Bag)
    requires DownClosed(part, all) && x in part && early <= all
    requires forall y :: y in early ==> Time(y) <= Time(x)
    ensures |early| <= |part|
  {
    forall y | y in early ensures early[y] <= part[y] {
      assert y in all;
    }
    SubBagSize(early, part);
  }

  /** A part that holds a receipt as late as the one at the limit holds all up to that one. */
  lemma HoldsHead(sorted: seq<SignedReceipt>, limit: nat, other: Bag, x: SignedReceipt)
    requires Sorted(sorted) && limit < |sorted|
    requires DownClosed(other, multiset(sorted))
    requires x in other && Time(x) >= Time(sorted[limit])
    ensures |other| > limit
  {
    var upTo := sorted[..limit + 1];
    Parts(sorted, limit);
    assert sorted == upTo + sorted[limit + 1..];
    forall y | y in multiset(upTo) ensures Time(y) <= Time(x) {
      assert y in upTo;
    }
    HoldsEarlier(other, multiset(sorted), x, multiset(upTo));
  }

  lemma OtherWithin(sorted: seq<SignedReceipt>, limit: nat, other: Bag, part: Bag)
    requires Sorted(sorted) && limit < |sorted|
    requires forall x :: part[x] == if Time(x) < Time(sorted[limit]) then multiset(sorted)[x] else 0
    requires DownClosed(other, multiset(sorted)) && |other| <= limit
    ensures other <= part
  {
    forall x ensures other[x] <= part[x] {
      if x in other && Time(x) >= Time(sorted[limit]) {
        HoldsHead(sorted, limit, other, x);
      }
    }
  }

  method Retain(receipts: seq<SignedReceipt>, time: nat) returns (kept: seq<SignedReceipt>)
    ensures forall x :: multiset(kept)[x] == if Time(x) != time then multiset(receipts)[x] else 0
  {
    kept := [];
    for n := 0 to |receipts|
      invariant forall x :: multiset(kept)[x] == if Time(x) != time then multiset(receipts[..n])[x] else 0
    {
      assert receipts[..n + 1] == receipts[..n] + [receipts[n]];
      if Time(receipts[n]) != time { kept := kept + [receipts[n]]; }
    }
    assert receipts[..|receipts|] == receipts;
  }

  /** Cutting at the limit, and dropping the last timestamp if the cut splits it, keeps exactly
      the receipts earlier than the first one cut off. */
  lemma CutIsBefore(sorted: seq<SignedReceipt>, limit: nat, kept: Bag)
    requires Sorted(sorted) && 0 < limit < |sorted|
    requires var last, afterLast := Time(sorted[limit - 1]), Time(sorted[limit]);
             forall x :: kept[x] == if last == afterLast && Time(x) == last then 0 else multiset(sorted[..limit])[x]
    ensures kept == multiset(Before(sorted, Time(sorted[limit])))
  {
    var afterLast := Time(sorted[limit]);
    Parts(sorted, limit - 1);
    Parts(sorted, limit);
    assert sorted[..limit - 1 + 1] == sorted[..limit];
    forall x ensures kept[x] == multiset(Before(sorted, afterLast))[x] {
      BeforeCounts(sorted, afterLast, x);
      if x in multiset(sorted[..limit]) { assert x in sorted[..limit]; }
      if x in multiset(sorted[limit..]) { assert x in sorted[limit..]; }
    }
  }

  /** The receipts at or before a time. */
  function UpToTime(receipts: seq<SignedReceipt>, time: nat): seq<SignedReceipt> {
    Filter(receipts, (r: SignedReceipt) => Time(r) <= time)
  }

  /** A truncation in closed form: a receipt is kept, as often as it is there, exactly if no more
      than the limit are at or before its timestamp. */
  lemma KeptExactly(receipts: seq<SignedReceipt>, part: Bag, limit: nat, x: SignedReceipt)
    requires IsTruncation(part, multiset(receipts), limit)
    ensures part[x] == if |UpToTime(receipts, Time(x))| <= limit then multiset(receipts)[x] else 0
  {
    var all, early := multiset(receipts), UpToTime(receipts, Time(x));
    forall y ensures multiset(early)[y] == if Time(y) <= Time(x) then all[y] else 0 {
      FilterCounts(receipts, (r: SignedReceipt) => Time(r) <= Time(x), y);
    }
    assert |multiset(early)| == |early|;
    if |early| <= limit {
      assert DownClosed(multiset(early), all);
      assert multiset(early) <= part;
    } else if x in part {
      HoldsEarlier(part, all, x, multiset(early));
    }
  }

  method SafeTruncateReceipts(receipts: seq<SignedReceipt>, limit: nat) returns (kept: seq<SignedReceipt>)
    ensures IsTruncation(multiset(kept), multiset(receipts), limit)
    ensures forall x :: multiset(kept)[x] == if |UpToTime(receipts, Time(x))| <= limit then multiset(receipts)[x] else 0
  {
    if |receipts| <= limit {
      assert forall other: Bag :: DownClosed(other, multiset(receipts)) ==> other <= multiset(receipts);
      kept := receipts;
    } else if limit == 0 {
      kept := [];
    } else {
      var sorted := SortUnstable(receipts);
      assert |sorted| == |receipts| by { assert |multiset(sorted)| == |multiset(receipts)|; }
      var last, afterLast := Time(sorted[limit - 1]), Time(sorted[limit]);
      kept := sorted[..limit];
      if last == afterLast {
        kept := Retain(kept, last);
      }
      CutIsBefore(sorted, limit, multiset(kept));
      BeforeIsTruncation(sorted, limit, multiset(kept));
    }
    forall x
      ensures multiset(kept)[x] == if |UpToTime(receipts, Time(x))| <= limit then multiset(receipts)[x] else 0
    {
      KeptExactly(receipts, multiset(kept), limit, x);
    }
  }

  /** A truncation is empty exactly when there is nothing to keep, or when the receipts of the
      earliest timestamp alone are more than the limit. */
  lemma TruncationEmpty(part: Bag, all: Bag, limit: nat, earliest: Bag, time: nat)
    requires IsTruncation(part, all, limit)
    requires forall x :: x in all ==> time <= Time(x)
    requires forall x :: earliest[x] == if Time(x) == time then all[x] else 0
    requires |all| > 0 ==> |earliest| > 0
    ensures part == multiset{} <==> all == multiset{} || |earliest| > limit
  {
    if all != multiset{} && |earliest| <= limit {
      assert DownClosed(earliest, all);
      SubBagSize(earliest, part);
    }
    if x :| x in part {
      forall y ensures earliest[y] <= part[y] {
        if y in all && Time(y) == time { assert part[y] == all[y]; }
      }
      SubBagSize(earliest, part);
    }
  }
}
