/** The latency histogram and its percentiles (src/common/latency_tracer.cpp). One call is one
    atomic step. */
module LatencyTracer {
  const BUCKET_COUNT: nat := 256
  const INT64_MAX: int := 0x7FFF_FFFF_FFFF_FFFF

  type Int64 = x: int | -0x8000_0000_0000_0000 <= x <= INT64_MAX

  datatype Snapshot = Snapshot(count: nat, p50: int, p95: int, min: int, max: int)

  function Min(a: int, b: int): int { if a < b then a else b }

  /** Buckets are 500 us wide; the last of the 256 takes everything from 127.5 ms on. */
  function Bucket(duration: nat): (bucket: nat)
    ensures bucket < BUCKET_COUNT
  {
    if duration / 500 >= 256 then 255 else duration / 500
  }

  /** The upper edge of a bucket, which is what the tracer reports. */
  function Edge(bucket: nat): nat { (bucket + 1) * 500 }

  lemma BucketEdges(duration: nat)
    ensures Edge(Bucket(duration)) <= duration + 500
    ensures duration <= Edge(Bucket(duration)) <==> duration <= 128000
    ensures Edge(Bucket(duration)) <= 128000
  {}

  lemma BucketMonotone(a: nat, b: nat)
    requires a <= b
    ensures Bucket(a) <= Bucket(b)
  {}

  // ----- The samples behind the histogram -----

  /** How many samples fall into this bucket. */
  function Count(samples: seq<nat>, bucket: nat): nat {
    if samples == [] then 0
    else Count(samples[..|samples| - 1], bucket) + if Bucket(samples[|samples| - 1]) == bucket then 1 else 0
  }

  /** How many samples fall into the first `end` buckets. */
  function CountBelow(samples: seq<nat>, end: nat): nat {
    if samples == [] then 0
    else CountBelow(samples[..|samples| - 1], end) + if Bucket(samples[|samples| - 1]) < end then 1 else 0
  }

  function Largest(samples: seq<nat>): nat {
    if samples == [] then 0 else
      var rest := Largest(samples[..|samples| - 1]);
      if samples[|samples| - 1] > rest then samples[|samples| - 1] else rest
  }

  function Smallest(samples: seq<nat>): nat {
    if samples == [] then INT64_MAX else
      var rest := Smallest(samples[..|samples| - 1]);
      if samples[|samples| - 1] < rest then samples[|samples| - 1] else rest
  }

  lemma OneMoreCounted(samples: seq<nat>, d: nat, bucket: nat)
    ensures Count(samples + [d], bucket) == Count(samples, bucket) + if bucket == Bucket(d) then 1 else 0
  {
    assert (samples + [d])[..|samples|] == samples;
  }

  lemma CountsRecorded(was: seq<nat>, now: seq<nat>, samples: seq<nat>, d: nat)
    requires |was| == |now| == BUCKET_COUNT
    requires forall i :: 0 <= i < BUCKET_COUNT ==> was[i] == Count(samples, i)
    requires now == was[Bucket(d) := was[Bucket(d)] + 1]
    ensures forall i :: 0 <= i < BUCKET_COUNT ==> now[i] == Count(samples + [d], i)
  {
    forall i | 0 <= i < BUCKET_COUNT ensures now[i] == Count(samples + [d], i) {
      OneMoreCounted(samples, d, i);
    }
  }

  lemma OneMoreRanged(samples: seq<nat>, d: nat)
    ensures Largest(samples + [d]) == if d > Largest(samples) then d else Largest(samples)
    ensures Smallest(samples + [d]) == if d < Smallest(samples) then d else Smallest(samples)
  {
    assert (samples + [d])[..|samples|] == samples;
  }

  lemma {:induction false} CountsAddUp(samples: seq<nat>, end: nat)
    ensures CountBelow(samples, end + 1) == CountBelow(samples, end) + Count(samples, end)
    ensures CountBelow(samples, 0) == 0
    ensures CountBelow(samples, BUCKET_COUNT) == |samples|
  {
    if samples != [] {
      CountsAddUp(samples[..|samples| - 1], end);
    }
  }

  // ----- The same samples in order -----

  predicate IsSorted(s: seq<nat>) { forall i, j :: 0 <= i < j < |s| ==> s[i] <= s[j] }

  function Insert(x: nat, s: seq<nat>): (r: seq<nat>)
    requires IsSorted(s)
    ensures IsSorted(r) && |r| == |s| + 1
    ensures r[|s|] == (if s != [] && s[|s| - 1] > x then s[|s| - 1] else x)
    ensures r[0] == (if s != [] && s[0] < x then s[0] else x)
  {
    if s == [] || s[|s| - 1] <= x then s + [x]
    else Insert(x, s[..|s| - 1]) + [s[|s| - 1]]
  }

  function Sorted(s: seq<nat>): (r: seq<nat>)
    ensures IsSorted(r) && |r| == |s|
  {
    if s == [] then [] else Insert(s[|s| - 1], Sorted(s[..|s| - 1]))
  }

  lemma {:induction false} InsertPermutes(x: nat, s: seq<nat>)
    requires IsSorted(s)
    ensures multiset(Insert(x, s)) == multiset(s) + multiset{x}
  {
    if s == [] || s[|s| - 1] <= x {
      assert Insert(x, s) == s + [x];
    } else {
      var front, last := s[..|s| - 1], s[|s| - 1];
      InsertPermutes(x, front);
      assert Insert(x, s) == Insert(x, front) + [last];
      assert s == front + [last];
    }
  }

  /** Sorted holds the same samples. */
  lemma {:induction false} SortedPermutes(s: seq<nat>)
    ensures multiset(Sorted(s)) == multiset(s)
  {
    if s != [] {
      var front, last := s[..|s| - 1], s[|s| - 1];
      SortedPermutes(front);
      calc {
        multiset(Sorted(s));
      == { InsertPermutes(last, Sorted(front)); }
        multiset(front) + multiset{last};
      == { assert s == front + [last]; }
        multiset(s);
      }
    }
  }

  lemma {:induction false} InsertCounts(x: nat, s: seq<nat>, end: nat)
    requires IsSorted(s)
    ensures CountBelow(Insert(x, s), end) == CountBelow(s, end) + if Bucket(x) < end then 1 else 0
  {
    var r := Insert(x, s);
    if s == [] || s[|s| - 1] <= x {
      assert r[..|r| - 1] == s;
    } else {
      InsertCounts(x, s[..|s| - 1], end);
      assert r[..|r| - 1] == Insert(x, s[..|s| - 1]);
    }
  }

  lemma {:induction false} SortedCounts(s: seq<nat>, end: nat)
    ensures CountBelow(Sorted(s), end) == CountBelow(s, end)
  {
    if s != [] {
      SortedCounts(s[..|s| - 1], end);
      InsertCounts(s[|s| - 1], Sorted(s[..|s| - 1]), end);
    }
  }

  /** In sorted order, the first CountBelow samples are exactly those in the first buckets. */
  lemma {:induction false} RankByCount(s: seq<nat>, end: nat, rank: nat)
    requires IsSorted(s) && rank < |s|
    ensures CountBelow(s, end) > rank <==> Bucket(s[rank]) < end
    ensures CountBelow(s, end) <= |s|
  {
    var front := s[..|s| - 1];
    if |front| > 0 {
      RankByCount(front, end, if rank < |front| then rank else |front| - 1);
    }
    BucketMonotone(s[rank], s[|s| - 1]);
    if Bucket(s[|s| - 1]) < end {
      AllBelow(front, end, s[|s| - 1]);
    }
  }

  lemma {:induction false} AllBelow(s: seq<nat>, end: nat, bound: nat)
    requires forall i :: 0 <= i < |s| ==> s[i] <= bound
    requires Bucket(bound) < end
    ensures CountBelow(s, end) == |s|
  {
    if s != [] {
      AllBelow(s[..|s| - 1], end, bound);
      BucketMonotone(s[|s| - 1], bound);
    }
  }

  lemma {:induction false} SortedEnds(s: seq<nat>)
    requires s != []
    ensures Sorted(s)[|s| - 1] == Largest(s)
    ensures Smallest(s) == if Sorted(s)[0] < INT64_MAX then Sorted(s)[0] else INT64_MAX
  {
    if |s| > 1 {
      SortedEnds(s[..|s| - 1]);
    }
  }

  // ----- What is reported -----

  /** The snapshot of these samples, stated on their sorted sequence. */
  function Report(samples: seq<nat>): Snapshot {
    if samples == [] then Snapshot(0, 0, 0, 0, 0) else
      var s := Sorted(samples);
      var p95 := Min(Edge(Bucket(s[|s| * 95 / 100])), Largest(samples));
      Snapshot(|s|, Min(Edge(Bucket(s[|s| / 2])), p95), p95,
               if Smallest(samples) == INT64_MAX then 0 else Smallest(samples), Largest(samples))
  }

  lemma ReportOf(samples: seq<nat>, n: nat, p50: int, p95: int)
    requires |samples| == n > 0
    requires p95 == Min(Edge(Bucket(Sorted(samples)[n * 95 / 100])), Largest(samples))
    requires p50 == Min(Edge(Bucket(Sorted(samples)[n / 2])), p95)
    ensures Report(samples) == Snapshot(n, p50, p95, if Smallest(samples) == INT64_MAX then 0 else Smallest(samples),
                                        Largest(samples))
  {}

  /** Clamping the edges to the maximum keeps them fair. */
  lemma FairReadings(median: nat, high: nat, max: nat)
    requires median <= high <= max
    ensures var p95 := Min(Edge(Bucket(high)), max);
      var p50 := Min(Edge(Bucket(median)), p95);
      && (p50 >= median <==> median <= 128000) && p50 <= median + 500
      && (p95 >= high <==> high <= 128000) && p95 <= high + 500
  {
    BucketEdges(median);
    BucketEdges(high);
    BucketMonotone(median, high);
  }

  /** The ranks of the two percentiles. */
  lemma Ranks(n: nat)
    requires n > 0
    ensures 0 <= n / 2 <= n * 95 / 100 < n
  {}

  /** A percentile reads no faster than the sample at its rank, exactly as long as that sample is
      within the 128 ms the buckets resolve, and never more than a bucket slower. */
  lemma {:induction false} PercentilesAreFair(samples: seq<nat>)
    requires samples != []
    ensures var s, r := Sorted(samples), Report(samples);
      var median, high := s[|s| / 2], s[|s| * 95 / 100];
      && (r.p50 >= median <==> median <= 128000) && r.p50 <= median + 500
      && (r.p95 >= high <==> high <= 128000) && r.p95 <= high + 500
      && r.p50 <= r.p95 <= r.max == s[|s| - 1]
      && (s[0] < INT64_MAX ==> r.min == s[0]) && r.count == |samples|
  {
    var s := Sorted(samples);
    Ranks(|s|);
    var middle, upper := |s| / 2, |s| * 95 / 100;
    assert s[middle] <= s[upper] <= s[|s| - 1];
    SortedEnds(samples);
    FairReadings(s[middle], s[upper], s[|s| - 1]);
  }

  class Histogram {
    const buckets: array<nat>
    var maxUs: int
    var minUs: int
    ghost var samples: seq<nat>

    ghost predicate Valid()
      reads this, buckets
    {
      Counted(samples) && Ranged(samples)
    }

    ghost predicate Counted(all: seq<nat>)
      reads buckets
    {
      buckets.Length == BUCKET_COUNT && forall i :: 0 <= i < BUCKET_COUNT ==> buckets[i] == Count(all, i)
    }

    ghost predicate Ranged(all: seq<nat>)
      reads this`maxUs, this`minUs
    {
      maxUs == Largest(all) && minUs == Smallest(all)
    }

    constructor ()
      ensures Valid() && samples == [] && fresh(buckets)
    {
      buckets := new nat[BUCKET_COUNT](_ => 0);
      maxUs, minUs, samples := 0, INT64_MAX, [];
    }

    method Record(duration: Int64)
      requires Valid()
      modifies this, buckets
      ensures Valid() && samples == old(samples) + [if duration < 0 then 0 else duration]
    {
      var d: nat := if duration < 0 then 0 else duration;
      CountInBucket(d);
      WidenRange(d);
      samples := samples + [d];
    }

    method CountInBucket(d: nat)
      requires Counted(samples)
      modifies buckets
      ensures Counted(samples + [d])
    {
      ghost var was := buckets[..];
      buckets[Bucket(d)] := buckets[Bucket(d)] + 1;
      assert was[Bucket(d)] == Count(samples, Bucket(d));
      CountsRecorded(was, buckets[..], samples, d);
    }

    method WidenRange(d: nat)
      requires Ranged(samples)
      modifies this`maxUs, this`minUs
      ensures Ranged(samples + [d])
    {
      OneMoreRanged(samples, d);
      if d > maxUs {
        maxUs := d;
      }
      if d < minUs {
        minUs := d;
      }
    }

    /** Takes what was recorded since the last call, and starts over. */
    method TakeSnapshot() returns (snap: Snapshot)
      requires Valid()
      modifies this, buckets
      ensures Valid() && samples == [] && snap == Report(old(samples))
      ensures old(samples) == [] ==> snap == Snapshot(0, 0, 0, 0, 0)
    {
      ghost var all := samples;
      var counts, total := EmptyBuckets();
      var maximum, minimum := maxUs, minUs;
      maxUs, minUs, samples := 0, INT64_MAX, [];
      if minimum == INT64_MAX {
        minimum := 0;
      }
      if total == 0 {
        return Snapshot(0, 0, 0, minimum, maximum);
      }
      var p50, p95 := Percentiles(counts, total, all);
      p95 := Min(p95, maximum);
      p50 := Min(p50, p95);
      ReportOf(all, total, p50, p95);
      return Snapshot(total, p50, p95, minimum, maximum);
    }

    /** The loop that exchanges every bucket for zero. */
    method EmptyBuckets() returns (counts: array<nat>, total: nat)
      requires Counted(samples)
      modifies buckets
      ensures Counted([]) && total == |samples|
      ensures fresh(counts) && counts.Length == BUCKET_COUNT
      ensures forall j :: 0 <= j < BUCKET_COUNT ==> counts[j] == Count(samples, j)
    {
      counts, total := new nat[BUCKET_COUNT], 0;
      CountsAddUp(samples, 0);
      for i := 0 to BUCKET_COUNT
        modifies buckets, counts
        invariant forall j :: 0 <= j < i ==> buckets[j] == 0 && counts[j] == Count(samples, j)
        invariant forall j :: i <= j < BUCKET_COUNT ==> buckets[j] == Count(samples, j)
        invariant total == CountBelow(samples, i)
      {
        CountsAddUp(samples, i);
        counts[i] := buckets[i];
        buckets[i] := 0;
        total := total + counts[i];
      }
      CountsAddUp(samples, 0);
    }

    /** The scan over the buckets. */
    method Percentiles(counts: array<nat>, total: nat, ghost all: seq<nat>) returns (p50: int, p95: int)
      requires counts.Length == BUCKET_COUNT && total == |all| > 0
      requires forall i :: 0 <= i < BUCKET_COUNT ==> counts[i] == Count(all, i)
      ensures p50 == Edge(Bucket(Sorted(all)[total / 2]))
      ensures p95 == Edge(Bucket(Sorted(all)[total * 95 / 100]))
    {
      ghost var s := Sorted(all);
      var p50Target, p95Target := total / 2, total * 95 / 100;
      var cumulative, p50Done := 0, false;
      p50, p95 := 0, 0;
      CountsAddUp(all, 0);
      var i := 0;
      while i < BUCKET_COUNT
        invariant 0 <= i <= BUCKET_COUNT && cumulative == CountBelow(all, i)
        invariant cumulative <= p95Target
        invariant p50Done <==> Bucket(s[p50Target]) < i
        invariant p50Done ==> p50 == Edge(Bucket(s[p50Target]))
      {
        CountsAddUp(all, i);
        RankAt(all, i, p50Target);
        RankAt(all, i, p95Target);
        cumulative := cumulative + counts[i];
        if !p50Done && cumulative > p50Target {
          p50 := Edge(i);
          p50Done := true;
        }
        if cumulative > p95Target {
          p95 := Edge(i);
          return;
        }
        i := i + 1;
      }
      assert false;
    }
  }

  /** Where a rank stands when the scan has passed bucket `i`. */
  lemma RankAt(samples: seq<nat>, i: nat, rank: nat)
    requires rank < |samples|
    ensures CountBelow(samples, i) > rank <==> Bucket(Sorted(samples)[rank]) < i
    ensures CountBelow(samples, i + 1) > rank <==> Bucket(Sorted(samples)[rank]) <= i
  {
    SortedCounts(samples, i);
    SortedCounts(samples, i + 1);
    RankByCount(Sorted(samples), i, rank);
    RankByCount(Sorted(samples), i + 1, rank);
  }
}
