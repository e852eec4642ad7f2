/** The shared ring of processing latencies and its percentile report. */
module LatencyStats {

  const SAMPLES: nat := 1024

  datatype Option<T> = None | Some(value: T)

  // In milliseconds; the samples are microseconds.
  datatype Report = Report(p50: real, p99: real, avg: real)

  function Sum(s: seq<int>): int {
    if s == [] then 0 else Sum(s[..|s| - 1]) + s[|s| - 1]
  }

  lemma {:induction false} SumConcat(a: seq<int>, b: seq<int>)
    ensures Sum(a + b) == Sum(a) + Sum(b)
  {
    if b == [] {
      assert a + b == a;
    } else {
      assert (a + b)[..|a + b| - 1] == a + b[..|b| - 1];
      SumConcat(a, b[..|b| - 1]);
    }
  }

  // The sum does not depend on the order.
  lemma {:induction false} SumPermuted(a: seq<int>, b: seq<int>)
    requires multiset(a) == multiset(b)
    ensures Sum(a) == Sum(b)
    decreases |a|
  {
    if a == [] {
      assert |multiset(b)| == 0;
    } else {
      var x, init := a[|a| - 1], a[..|a| - 1];
      assert a == init + [x];
      assert x in multiset(b);
      var i :| 0 <= i < |b| && b[i] == x;
      var rest := b[..i] + b[i + 1..];
      assert b == b[..i] + [x] + b[i + 1..];
      assert multiset(rest) == multiset(b) - multiset{x} == multiset(init);
      SumPermuted(init, rest);
      SumConcat(b[..i] + [x], b[i + 1..]);
      SumConcat(b[..i], [x]);
      SumConcat(b[..i], b[i + 1..]);
      assert [x][..0] == [];
    }
  }

  // The average lies between the extremes.
  lemma {:induction false} SumBounds(s: seq<int>, lo: int, hi: int)
    requires forall i :: 0 <= i < |s| ==> lo <= s[i] <= hi
    ensures lo * |s| <= Sum(s) <= hi * |s|
  {
    if s != [] {
      SumBounds(s[..|s| - 1], lo, hi);
    }
  }

  ghost predicate Ascending(s: seq<int>) {
    AscendingTo(s, |s|)
  }

  // The first n elements are in order.
  ghost predicate AscendingTo(s: seq<int>, n: nat)
    requires n <= |s|
  {
    forall i, j :: 0 <= i < j < n ==> s[i] <= s[j]
  }

  // The most recent samples, at most as many as the ring holds.
  function Recent(all: seq<int>): seq<int> {
    if |all| <= SAMPLES then all else all[|all| - SAMPLES..]
  }

  class Ring {
    var buffer: array<int>
    var head: nat
    var count: nat
    ghost var recorded: seq<int>   // every sample ever recorded

    ghost predicate Valid()
      reads this, buffer
    {
      && buffer.Length == SAMPLES
      && count == |recorded| && head == count % SAMPLES
      && (forall i :: 0 <= i < |recorded| && |recorded| - SAMPLES <= i ==> buffer[i % SAMPLES] == recorded[i])
    }

    constructor ()
      ensures Valid() && recorded == [] && fresh(buffer)
    {
      buffer := new int[SAMPLES](_ => 0);
      head, count := 0, 0;
      recorded := [];
    }

    method RecordLatencySample(us: int)
      requires Valid()
      modifies this, buffer
      ensures Valid() && buffer == old(buffer)
      ensures recorded == old(recorded) + [us]
      ensures head == |recorded| % 1024 && count == |recorded|
    {
      buffer[head] := us;
      head := (head + 1) % SAMPLES;
      count := count + 1;
      recorded := recorded + [us];
    }

    method CopyRing(n: nat) returns (samples: array<int>)
      requires n <= buffer.Length
      ensures fresh(samples) && samples.Length == n && samples[..] == buffer[..n]
    {
      samples := new int[n](i requires 0 <= i < n && n <= buffer.Length reads this, buffer => buffer[i]);
    }

    // demux_latency_stats: sort a copy of the ring, take the percentiles and the average;
    // no report without samples.
    method Stats() returns (report: Option<Report>, ghost sorted: seq<int>)
      requires Valid()
      ensures |sorted| == (if count < 1024 then count else 1024)
      ensures Ascending(sorted) && multiset(sorted) == multiset(Recent(recorded))
      ensures report.None? <==> recorded == []
      ensures report.Some? ==>
                && |sorted| * 99 / 100 < |sorted|
                && report.value.p50 == sorted[|sorted| / 2] as real / 1000.0
                && report.value.p99 == sorted[|sorted| * 99 / 100] as real / 1000.0
                && report.value.p50 <= report.value.p99
                && report.value.avg == Sum(Recent(recorded)) as real / |sorted| as real / 1000.0
                && sorted[0] as real / 1000.0 <= report.value.avg <= sorted[|sorted| - 1] as real / 1000.0
    {
      var n := if count < SAMPLES then count else SAMPLES;
      var samples := CopyRing(n);
      RingHoldsRecent();
      if n == 0 {
        return None, samples[..];
      }
      InsertionSort(samples);
      sorted := samples[..];
      SumPermuted(sorted, Recent(recorded));
      AverageBounds(sorted);
      var r := Summarize(samples);
      report := Some(r);
    }

    // The ring, read from slot 0, is a rotation of the recent samples.
    lemma RingHoldsRecent()
      requires Valid()
      ensures multiset(buffer[..if count < SAMPLES then count else SAMPLES]) == multiset(Recent(recorded))
    {
      if count <= SAMPLES {
        assert buffer[..count] == recorded;
      } else {
        assert buffer[..SAMPLES] == buffer[..];
        forall i | |recorded| - SAMPLES <= i < |recorded|
          ensures buffer[..][i % SAMPLES] == recorded[i]
        {
        }
        Rotation(buffer[..], recorded);
      }
    }
  }

  lemma AverageBounds(s: seq<int>)
    requires s != [] && Ascending(s)
    ensures var avg := Sum(s) as real / |s| as real / 1000.0;
            s[0] as real / 1000.0 <= avg <= s[|s| - 1] as real / 1000.0
  {
    var lo, hi, n := s[0], s[|s| - 1], |s|;
    SumBounds(s, lo, hi);
    RealBounds(Sum(s), lo, hi, n);
  }

  lemma RealBounds(sum: int, lo: int, hi: int, n: nat)
    requires n > 0 && lo * n <= sum <= hi * n
    ensures lo as real / 1000.0 <= sum as real / n as real / 1000.0 <= hi as real / 1000.0
  {
    assert (lo * n) as real == lo as real * n as real && (hi * n) as real == hi as real * n as real;
    QuotientBounds(sum as real, lo as real, hi as real, n as real);
  }

  lemma QuotientBounds(x: real, lo: real, hi: real, r: real)
    requires r > 0.0 && lo * r <= x <= hi * r
    ensures lo <= x / r <= hi
  {
    var q := x / r;
    assert q * r == x;
    assert q < lo ==> q * r < lo * r;
    assert q > hi ==> q * r > hi * r;
  }

  // The percentiles and the average of sorted samples.
  method Summarize(samples: array<int>) returns (report: Report)
    requires samples.Length > 0 && Ascending(samples[..])
    ensures var s := samples[..];
            && |s| * 99 / 100 < |s|
            && report.p50 == s[|s| / 2] as real / 1000.0 && report.p99 == s[|s| * 99 / 100] as real / 1000.0
            && report.p50 <= report.p99
            && report.avg == Sum(s) as real / |s| as real / 1000.0
  {
    var n := samples.Length;
    var sum, i := 0, 0;
    while i < n
      invariant 0 <= i <= n && sum == Sum(samples[..i])
    {
      assert samples[..i + 1][..i] == samples[..i];
      sum := sum + samples[i];
      i := i + 1;
    }
    assert samples[..n] == samples[..];
    assert samples[..][n / 2] <= samples[..][n * 99 / 100];
    report := Report(samples[n / 2] as real / 1000.0, samples[n * 99 / 100] as real / 1000.0,
                     sum as real / n as real / 1000.0);
  }

  // Slot i mod 1024 of the ring holds sample i, for the recent samples.
  ghost predicate RingOf(b: seq<int>, all: seq<int>) {
    && |b| == SAMPLES < |all|
    && forall i :: |all| - SAMPLES <= i < |all| ==> b[i % SAMPLES] == all[i]
  }

  lemma Rotation(b: seq<int>, all: seq<int>)
    requires RingOf(b, all)
    ensures multiset(b) == multiset(Recent(all))
  {
    var h := |all| % SAMPLES;
    var r := Recent(all);
    forall i | 0 <= i < h
      ensures b[i] == r[SAMPLES - h + i]
    {
      NewerHalf(b, all, i);
    }
    forall i | 0 <= i < SAMPLES - h
      ensures b[h + i] == r[i]
    {
      OlderHalf(b, all, i);
    }
    SwappedHalves(b, r, h);
  }

  // The slots below head hold the newest samples,
  lemma NewerHalf(b: seq<int>, all: seq<int>, i: nat)
    requires RingOf(b, all) && i < |all| % SAMPLES
    ensures b[i] == Recent(all)[SAMPLES - |all| % SAMPLES + i]
  {
    var x := |all| - |all| % SAMPLES + i;
    SlotOf(|all|, |all| % SAMPLES, x, i);
    assert all[x] == b[x % SAMPLES];
  }

  // and the slots from head on the older ones.
  lemma OlderHalf(b: seq<int>, all: seq<int>, i: nat)
    requires RingOf(b, all) && i < SAMPLES - |all| % SAMPLES
    ensures b[|all| % SAMPLES + i] == Recent(all)[i]
  {
    var x := |all| - SAMPLES + i;
    SlotOf(|all|, |all| % SAMPLES, x, |all| % SAMPLES + i);
    assert all[x] == b[x % SAMPLES];
  }

  lemma SwappedHalves(b: seq<int>, r: seq<int>, h: nat)
    requires |b| == |r| && h <= |b|
    requires forall i :: 0 <= i < h ==> b[i] == r[|b| - h + i]
    requires forall i :: 0 <= i < |b| - h ==> b[h + i] == r[i]
    ensures multiset(b) == multiset(r)
  {
    var k := |b| - h;
    assert b[..h] == r[k..] && b[h..] == r[..k];
    assert b == b[..h] + b[h..] && r == r[..k] + r[k..];
  }

  lemma SlotOf(n: nat, h: nat, i: nat, slot: nat)
    requires n > SAMPLES && h == n % SAMPLES && slot < SAMPLES
    requires i == n - h + slot || i == n - SAMPLES - h + slot
    ensures i % SAMPLES == slot
  {
    var q := n / SAMPLES;
    assert n == q * SAMPLES + h;
  }

  // The in-place insertion sort of the report.
  method InsertionSort(a: array<int>)
    modifies a
    ensures Ascending(a[..]) && multiset(a[..]) == old(multiset(a[..]))
  {
    var i := 1;
    assert a[..] == old(a[..]);
    while i < a.Length
      invariant 1 <= i
      invariant i <= a.Length ==> AscendingTo(a[..], i)
      invariant a.Length < i ==> a.Length == 0
      invariant multiset(a[..]) == old(multiset(a[..]))
    {
      InsertOne(a, i);
      i := i + 1;
    }
  }

  // Shift the larger elements of the sorted prefix up and drop a[i] into the gap.
  method InsertOne(a: array<int>, i: nat)
    requires i < a.Length && AscendingTo(a[..], i)
    modifies a
    ensures AscendingTo(a[..], i + 1)
    ensures multiset(a[..]) == old(multiset(a[..]))
  {
    ghost var was := a[..];
    var tmp := a[i];
    var k := ShiftUp(a, i, tmp);
    ghost var now := a[..];
    a[k] := tmp;
    assert a[..] == now[k := tmp];
    GapClose(now, was, i, k);
  }

  // Move the elements of the prefix that exceed tmp up by one; k is the freed slot.
  method ShiftUp(a: array<int>, i: nat, tmp: int) returns (k: nat)
    requires i < a.Length
    modifies a
    ensures Gap(a[..], old(a[..]), i, k)
    ensures forall x :: k <= x < i ==> old(a[..])[x] > tmp
    ensures k > 0 ==> old(a[..])[k - 1] <= tmp
  {
    ghost var was := a[..];
    var j := i - 1;
    while j >= 0 && a[j] > tmp
      invariant -1 <= j < i
      invariant Gap(a[..], was, i, j + 1)
      invariant forall x :: j < x < i ==> was[x] > tmp
    {
      ghost var now := a[..];
      assert now[j] == was[j];
      a[j + 1] := a[j];
      assert a[..] == now[j + 1 := now[j]];
      GapStep(now, was, i, j + 1);
      j := j - 1;
    }
    k := j + 1;
    ghost var now := a[..];
    assert j >= 0 ==> now[j] == was[j];
  }

  // The elements from k to i moved up by one; slot k is free.
  ghost predicate Gap(now: seq<int>, was: seq<int>, i: nat, k: nat)
    requires i < |was|
  {
    && k <= i && |now| == |was|
    && (forall x {:trigger now[x]} :: 0 <= x < k ==> now[x] == was[x])
    && (forall x {:trigger now[x]} :: k < x <= i ==> now[x] == was[x - 1])
    && (forall x {:trigger now[x]} :: i < x < |was| ==> now[x] == was[x])
  }

  lemma GapStep(now: seq<int>, was: seq<int>, i: nat, k: nat)
    requires i < |was| && 0 < k && Gap(now, was, i, k)
    ensures Gap(now[k := now[k - 1]], was, i, k - 1)
  {
  }

  lemma GapClose(now: seq<int>, was: seq<int>, i: nat, k: nat)
    requires i < |was| && Gap(now, was, i, k) && AscendingTo(was, i)
    requires k > 0 ==> was[k - 1] <= was[i]
    requires forall x :: k <= x < i ==> was[x] > was[i]
    ensures AscendingTo(now[k := was[i]], i + 1)
    ensures multiset(now[k := was[i]]) == multiset(was)
  {
    var end := now[k := was[i]];
    forall x, y | 0 <= x < y <= i
      ensures end[x] <= end[y]
    {
      GapOrder(now, was, i, k, x, y);
    }
    GapPermutes(now, was, i, k);
  }

  lemma GapOrder(now: seq<int>, was: seq<int>, i: nat, k: nat, x: nat, y: nat)
    requires i < |was| && Gap(now, was, i, k) && AscendingTo(was, i) && x < y <= i
    requires k > 0 ==> was[k - 1] <= was[i]
    requires forall x :: k <= x < i ==> was[x] > was[i]
    ensures now[k := was[i]][x] <= now[k := was[i]][y]
  {
    assert x < k ==> now[x] == was[x] && was[x] <= was[k - 1];
    assert x > k ==> now[x] == was[x - 1];
    assert y < k ==> now[y] == was[y];
    assert y > k ==> now[y] == was[y - 1];
  }

  lemma GapPermutes(now: seq<int>, was: seq<int>, i: nat, k: nat)
    requires i < |was| && Gap(now, was, i, k)
    ensures multiset(now[k := was[i]]) == multiset(was)
  {
    assert now[k := was[i]] == was[..k] + [was[i]] + was[k..i] + was[i + 1..];
    assert was == was[..k] + was[k..i] + [was[i]] + was[i + 1..];
  }
}
