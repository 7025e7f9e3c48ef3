/** The index of recent fees: hourly buckets per indexer, in place of a log of every fee. */
module DebtIndex {
  import opened Common

  /** Times are nanoseconds since the Unix epoch; negative ones lie before it. */
  const SECOND: int := 1_000_000_000
  const HOUR: int := 3600

  datatype Update = Update(timestamp: int, indexer: Address, fee: nat)

  type Buckets = map<int, nat>

  /** The remainder that rounds the quotient towards zero. */
  function TruncatedRemainder(a: int, b: int): int
    requires b > 0
  {
    if a >= 0 then a % b else -((-a) % b)
  }

  /** The start of the hour a time falls in, in seconds; before the epoch, the end of it. */
  function HourlyTimestamp(t: int): int {
    var seconds := t / SECOND;
    seconds - TruncatedRemainder(seconds, HOUR)
  }

  /** In its own terms: the whole hour that holds the second, from its start on or, before the
      epoch, up to its end. */
  lemma HourlyExactly(t: int)
    ensures HourlyTimestamp(t) % HOUR == 0
    ensures t >= 0 ==> HourlyTimestamp(t) * SECOND <= t < (HourlyTimestamp(t) + HOUR) * SECOND
    ensures t < 0 ==> (HourlyTimestamp(t) - HOUR) * SECOND < t < (HourlyTimestamp(t) + 1) * SECOND
  {
    var seconds := t / SECOND;
    assert seconds * SECOND <= t < (seconds + 1) * SECOND;
    WholeHour(seconds);
  }

  lemma WholeHour(seconds: int)
    ensures var hour := seconds - TruncatedRemainder(seconds, HOUR);
            && hour % HOUR == 0
            && (seconds >= 0 ==> hour <= seconds < hour + HOUR)
            && (seconds < 0 ==> hour - HOUR < seconds <= hour)
  {
  }

  lemma HourlyMonotone(t1: int, t2: int)
    requires t1 <= t2
    ensures HourlyTimestamp(t1) <= HourlyTimestamp(t2)
  {
    var s1, s2 := t1 / SECOND, t2 / SECOND;
    assert s1 <= s2;
    TruncateMonotone(s1, s2);
  }

  lemma TruncateMonotone(s1: int, s2: int)
    requires s1 <= s2
    ensures s1 - TruncatedRemainder(s1, HOUR) <= s2 - TruncatedRemainder(s2, HOUR)
  {
  }

  function Get(buckets: Buckets, bucket: int): nat {
    if bucket in buckets then buckets[bucket] else 0
  }

  function Add(buckets: Buckets, bucket: int, fee: nat): Buckets {
    buckets[bucket := Get(buckets, bucket) + fee]
  }

  /** The buckets after `bound`. */
  function Above(buckets: Buckets, bound: int): Buckets {
    map t | t in buckets && t > bound :: buckets[t]
  }

  lemma AddAbove(buckets: Buckets, bucket: int, fee: nat, bound: int)
    ensures Above(Add(buckets, bucket, fee), bound) ==
            if bucket > bound then Add(Above(buckets, bound), bucket, fee) else Above(buckets, bound)
  {
  }

  /** What the buckets of an indexer after `bound` would hold if every fee were kept. */
  function Bucketed(log: seq<Update>, indexer: Address, bound: int): Buckets {
    if log == [] then map[]
    else
      var earlier, last := Bucketed(log[..|log| - 1], indexer, bound), log[|log| - 1];
      if last.indexer == indexer && HourlyTimestamp(last.timestamp) > bound
      then Add(earlier, HourlyTimestamp(last.timestamp), last.fee)
      else earlier
  }

  /** The fee counts for the indexer when only hours after `bound` do. */
  function Counted(update: Update, indexer: Address, bound: int): nat {
    if update.indexer == indexer && HourlyTimestamp(update.timestamp) > bound then update.fee else 0
  }

  /** The specification over the whole log: all fees of an indexer in hours after `bound`. */
  function RecentFees(log: seq<Update>, indexer: Address, bound: int): nat {
    SumBy(log, (update: Update) => Counted(update, indexer, bound))
  }

  ghost predicate Recent(log: seq<Update>, indexer: Address, bound: int) {
    exists update :: update in log && update.indexer == indexer && HourlyTimestamp(update.timestamp) > bound
  }

  lemma BucketedAppend(log: seq<Update>, update: Update, indexer: Address, bound: int)
    ensures Bucketed(log + [update], indexer, bound) ==
            if update.indexer == indexer && HourlyTimestamp(update.timestamp) > bound
            then Add(Bucketed(log, indexer, bound), HourlyTimestamp(update.timestamp), update.fee)
            else Bucketed(log, indexer, bound)
  {
  }

  /** Buckets dropped at an earlier bound would have been dropped at a later one anyway. */
  lemma {:induction false} BucketedAbove(log: seq<Update>, indexer: Address, bound1: int, bound2: int)
    requires bound1 <= bound2
    ensures Above(Bucketed(log, indexer, bound1), bound2) == Bucketed(log, indexer, bound2)
  {
    if log != [] {
      BucketedAbove(log[..|log| - 1], indexer, bound1, bound2);
    }
  }

  /** Summing the buckets sums the fees, and there is a bucket exactly if there is a fee. */
  lemma {:induction false} BucketedSum(log: seq<Update>, indexer: Address, bound: int)
    ensures MapSum(Bucketed(log, indexer, bound)) == RecentFees(log, indexer, bound)
    ensures Bucketed(log, indexer, bound) != map[] <==> Recent(log, indexer, bound)
  {
    if log != [] {
      var earlier, last := log[..|log| - 1], log[|log| - 1];
      BucketedSum(earlier, indexer, bound);
      MapSumUpdate(Bucketed(earlier, indexer, bound), HourlyTimestamp(last.timestamp),
                   Get(Bucketed(earlier, indexer, bound), HourlyTimestamp(last.timestamp)) + last.fee);
      assert forall update :: update in log <==> update in earlier || update == last;
      if Counted(last, indexer, bound) > 0 || (last.indexer == indexer && HourlyTimestamp(last.timestamp) > bound) {
        assert HourlyTimestamp(last.timestamp) in Bucketed(log, indexer, bound);
      }
    }
  }

  lemma HourLater(s: int)
    ensures (s + HOUR) - TruncatedRemainder(s + HOUR, HOUR) > s - TruncatedRemainder(s, HOUR) <==> !(-HOUR < s < 0)
  {
  }

  /** The edges of the window, `start` being its beginning. Nothing at or before it is counted.
      Everything from an hour after it on is, unless it falls in the hour before the epoch,
      where truncation makes two hours share a bucket. */
  lemma WindowEdges(start: int)
    ensures forall t :: t <= start ==> HourlyTimestamp(t) <= HourlyTimestamp(start)
    ensures (forall t :: t >= start + HOUR * SECOND ==> HourlyTimestamp(t) > HourlyTimestamp(start)) <==>
            !(-HOUR < start / SECOND < 0)
  {
    forall t | t <= start ensures HourlyTimestamp(t) <= HourlyTimestamp(start) {
      HourlyMonotone(t, start);
    }
    var later := start + HOUR * SECOND;
    assert later / SECOND == start / SECOND + HOUR;
    HourLater(start / SECOND);
    forall t | t >= later ensures HourlyTimestamp(t) >= HourlyTimestamp(later) {
      HourlyMonotone(later, t);
    }
  }

  /** A window that starts a second before the epoch leaves out a fee of an hour later. */
  lemma SharedBucket(indexer: Address, fee: nat)
    requires fee > 0
    ensures var start := -SECOND;
            var update := Update(start + HOUR * SECOND, indexer, fee);
            RecentFees([update], indexer, HourlyTimestamp(start)) == 0
  {
    var update := Update(-SECOND + HOUR * SECOND, indexer, fee);
    assert HourlyTimestamp(-SECOND) == 0 == HourlyTimestamp(update.timestamp);
    assert Counted(update, indexer, 0) == 0;
    SumByAppend([], update, (u: Update) => Counted(u, indexer, 0));
    assert [] + [update] == [update];
  }

  method SumValues(buckets: Buckets) returns (sum: nat)
    ensures sum == MapSum(buckets)
  {
    sum := 0;
    ghost var left := buckets;
    var rest := buckets.Keys;
    while rest != {}
      invariant rest <= buckets.Keys
      invariant left == map t | t in rest :: buckets[t]
      invariant sum + MapSum(left) == MapSum(buckets)
    {
      var t := AnyOf(rest);
      MapSumRemove(left, t);
      sum := sum + buckets[t];
      left, rest := left - {t}, rest - {t};
    }
    assert left == map[];
  }

  function Entries(data: map<Address, Buckets>, indexer: Address): Buckets {
    if indexer in data then data[indexer] else map[]
  }

  /** Sums in their own terms: those of all fees in a log whose hour is after that of `start`,
      for just the indexers that have one. */
  ghost predicate Publishes(sums: map<Address, nat>, log: seq<Update>, start: int) {
    forall i: Address ::
      && (i in sums <==>
            exists u :: u in log && u.indexer == i && HourlyTimestamp(u.timestamp) > HourlyTimestamp(start))
      && (i in sums ==> sums[i] == FeesAfter(log, i, start))
  }

  function FeesAfter(log: seq<Update>, indexer: Address, start: int): nat {
    SumBy(log, (u: Update) =>
      if u.indexer == indexer && HourlyTimestamp(u.timestamp) > HourlyTimestamp(start) then u.fee else 0)
  }

  /** Which times are after an hour, for a start at or after the epoch: all from an hour later
      on, and none up to the start. */
  lemma WindowCounts(start: int, t: int)
    requires start >= 0
    ensures t >= start + HOUR * SECOND ==> HourlyTimestamp(t) > HourlyTimestamp(start)
    ensures t <= start ==> HourlyTimestamp(t) <= HourlyTimestamp(start)
  {
    WindowEdges(start);
  }

  class DB {
    const window: nat
    var data: map<Address, Buckets>
    /** What readers of the watch channel see. */
    var published: map<Address, nat>
    var lastSnapshot: int
    /** Every update ever received, and the latest time one was processed at. */
    ghost var log: seq<Update>
    ghost var lastNow: int

    function Bound(now: int): int {
      HourlyTimestamp(now - window)
    }

    ghost predicate Valid()
      reads this
    {
      && (forall i :: i in data ==> data[i] != map[])
      && (forall i: Address :: Above(Entries(data, i), Bound(lastNow)) == Bucketed(log, i, Bound(lastNow)))
    }

    /** The data is exactly the log's buckets after the bound of `now`. */
    ghost predicate Pruned(now: int)
      reads this
    {
      forall i: Address :: Entries(data, i) == Bucketed(log, i, Bound(now))
    }

    constructor (window: nat, now: int)
      ensures Valid() && this.window == window && lastNow == lastSnapshot == now
      ensures data == map[] && published == map[] && log == []
    {
      this.window := window;
      data, published, lastSnapshot := map[], map[], now;
      log, lastNow := [], now;
    }

    lemma Advance(now: int)
      requires Valid() && lastNow <= now
      ensures forall i: Address :: Above(Entries(data, i), Bound(now)) == Bucketed(log, i, Bound(now))
    {
      HourlyMonotone(lastNow - window, now - window);
      forall i: Address ensures Above(Entries(data, i), Bound(now)) == Bucketed(log, i, Bound(now)) {
        BucketedAbove(log, i, Bound(lastNow), Bound(now));
        assert Above(Entries(data, i), Bound(now)) == Above(Above(Entries(data, i), Bound(lastNow)), Bound(now));
      }
    }

    method Record(update: Update, now: int)
      requires Valid() && lastNow <= now
      modifies this`data, this`log, this`lastNow
      ensures Valid() && log == old(log) + [update] && lastNow == now
      ensures data == if update.timestamp < now - window then old(data)
                      else old(data)[update.indexer :=
                             Add(Entries(old(data), update.indexer), HourlyTimestamp(update.timestamp), update.fee)]
      // In its own terms: a fee from the window's start on is added to the bucket of its hour.
      ensures var hour, was := HourlyTimestamp(update.timestamp), Entries(old(data), update.indexer);
              Entries(data, update.indexer) ==
              if update.timestamp < now - window then was
              else was[hour := (if hour in was then was[hour] else 0) + update.fee]
    {
      Advance(now);
      HourlyMonotone(Min(update.timestamp, now - window), now - window);
      forall i: Address {
        BucketedAppend(log, update, i, Bound(now));
      }
      AddAbove(Entries(data, update.indexer), HourlyTimestamp(update.timestamp), update.fee, Bound(now));
      log, lastNow := log + [update], now;
      if update.timestamp < now - window {
        return;
      }
      data := data[update.indexer := Add(Entries(data, update.indexer), HourlyTimestamp(update.timestamp), update.fee)];
    }

    method Prune(now: int)
      requires Valid() && lastNow <= now
      modifies this`data, this`lastNow
      ensures Valid() && Pruned(now) && lastNow == now
      // In its own terms: just the buckets of later hours than that of the start of the window.
      ensures forall i: Address, t: int :: t in Entries(data, i) <==>
                t in Entries(old(data), i) && t > HourlyTimestamp(now - window)
      ensures forall i: Address, t: int :: t in Entries(data, i) ==> Entries(data, i)[t] == Entries(old(data), i)[t]
      ensures data == map i | i in old(data) && Above(old(data)[i], Bound(now)) != map[] ::
                Above(old(data)[i], Bound(now))
    {
      Advance(now);
      data := map i | i in data && Above(data[i], Bound(now)) != map[] :: Above(data[i], Bound(now));
      lastNow := now;
      assert forall i: Address :: Above(Entries(data, i), Bound(now)) == Entries(data, i);
    }

    method Snapshot() returns (sums: map<Address, nat>)
      ensures sums == map i | i in data :: MapSum(data[i])
    {
      sums := map[];
      var rest := data.Keys;
      while rest != {}
        invariant rest <= data.Keys
        invariant sums == map i | i in data.Keys - rest :: MapSum(data[i])
      {
        var i := AnyOf(rest);
        var sum := SumValues(data[i]);
        sums := sums[i := sum];
        rest := rest - {i};
      }
    }

    /** Published sums are those of a full log: every indexer with a fee in the window, and
        only those, with the sum of all its fees there. */
    ghost predicate Exact(sums: map<Address, nat>, now: int)
      reads this
    {
      forall i: Address :: && (i in sums <==> Recent(log, i, Bound(now)))
        && (i in sums ==> sums[i] == RecentFees(log, i, Bound(now)))
    }

    lemma SnapshotExact(sums: map<Address, nat>, now: int)
      requires Pruned(now) && (forall i :: i in data ==> data[i] != map[])
      requires sums == map i | i in data :: MapSum(data[i])
      ensures Exact(sums, now)
    {
      forall i: Address
        ensures i in sums <==> Recent(log, i, Bound(now))
        ensures i in sums ==> sums[i] == RecentFees(log, i, Bound(now))
      {
        BucketedSum(log, i, Bound(now));
        assert Entries(data, i) == Bucketed(log, i, Bound(now));
      }
    }

    lemma ExactPublishes(sums: map<Address, nat>, now: int)
      requires Exact(sums, now)
      ensures Publishes(sums, log, now - window)
    {
      var start, hour := now - window, Bound(now);
      forall i: Address ensures RecentFees(log, i, hour) == FeesAfter(log, i, start) {
        SumByCongruence(log, (u: Update) => Counted(u, i, hour), (u: Update) =>
          if u.indexer == i && HourlyTimestamp(u.timestamp) > HourlyTimestamp(start) then u.fee else 0);
      }
    }

    /** One round of the loop that owns the index: record what arrived, and a second or more
        after the last snapshot, publish the next. */
    method Drain(buffer: seq<Update>, now: int)
      requires Valid() && lastNow <= now
      modifies this
      ensures Valid() && log == old(log) + buffer && lastNow >= old(lastNow)
      ensures now - old(lastSnapshot) >= SECOND ==> Exact(published, now) && lastSnapshot == now
      // In its own terms: the fees of the whole log whose hour is after that of the start of the
      // window, none of them at or before that start, and every one from an hour after it on.
      ensures now - old(lastSnapshot) >= SECOND ==> Publishes(published, log, now - window)
      ensures now - window >= 0 ==> forall u :: u in log ==>
                && (u.timestamp >= now - window + HOUR * SECOND ==>
                      HourlyTimestamp(u.timestamp) > HourlyTimestamp(now - window))
                && (u.timestamp <= now - window ==>
                      HourlyTimestamp(u.timestamp) <= HourlyTimestamp(now - window))
      ensures now - old(lastSnapshot) < SECOND ==> published == old(published) && lastSnapshot == old(lastSnapshot)
    {
      for n := 0 to |buffer|
        invariant Valid() && log == old(log) + buffer[..n] && old(lastNow) <= lastNow <= now
        invariant published == old(published) && lastSnapshot == old(lastSnapshot)
      {
        Record(buffer[n], now);
        assert buffer[..n + 1] == buffer[..n] + [buffer[n]];
      }
      assert buffer[..|buffer|] == buffer;
      if now - lastSnapshot >= SECOND {
        Prune(now);
        var sums := Snapshot();
        SnapshotExact(sums, now);
        ExactPublishes(sums, now);
        published := sums;
        lastSnapshot := now;
      }
      if now - window >= 0 {
        forall u | u in log
          ensures u.timestamp >= now - window + HOUR * SECOND ==>
                    HourlyTimestamp(u.timestamp) > HourlyTimestamp(now - window)
          ensures u.timestamp <= now - window ==>
                    HourlyTimestamp(u.timestamp) <= HourlyTimestamp(now - window)
        {
          WindowCounts(now - window, u.timestamp);
        }
      }
    }
  }
}
