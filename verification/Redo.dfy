/** Crash redo of one partition: partdist_wal_redo replays WAL records straight to the
    segment files and skips what the tail-peek watermark says is already there. */
module Redo {
  import opened Header
  import opened SegmentDir
  import opened Demux

  ghost function RedoOne(d: Dir, h: Header): Dir {
    if h.partitionLsn <= TailPeek(d) then d else Append(d, h)
  }

  ghost function RedoAll(d: Dir, l: seq<Header>): Dir
    decreases |l|
  {
    if l == [] then d else RedoAll(RedoOne(d, l[0]), l[1..])
  }

  // Recovery attempts that each start over and crash after `cuts[i]` records.
  ghost function Interrupted(d: Dir, tail: seq<Header>, cuts: seq<nat>): Dir
    requires forall i :: 0 <= i < |cuts| ==> cuts[i] <= |tail|
    decreases |cuts|
  {
    if cuts == [] then d else Interrupted(RedoAll(d, tail[..cuts[0]]), tail, cuts[1..])
  }

  lemma RedoOneStep(d: Dir, acc: seq<Header>, h: Header)
    requires NonEmpty(d) == Split(acc) && Increasing(acc) && SegMonotone(acc)
    ensures h.partitionLsn <= LastLsn(acc) ==> RedoOne(d, h) == d
    ensures h.partitionLsn > LastLsn(acc) ==> NonEmpty(RedoOne(d, h)) == Split(acc + [h])
  {
    TailPeekOrdered(d, acc);
    NonEmptyAppend(d, h);
    SplitAppend(acc, h);
  }

  lemma {:induction false} RedoKnown(d: Dir, acc: seq<Header>, tail: seq<Header>)
    requires NonEmpty(d) == Split(acc) && Increasing(acc) && SegMonotone(acc)
    requires forall i :: 0 <= i < |tail| ==> tail[i].partitionLsn <= LastLsn(acc)
    ensures RedoAll(d, tail) == d
    decreases |tail|
  {
    if tail != [] {
      RedoOneStep(d, acc, tail[0]);
      RedoKnown(d, acc, tail[1..]);
    }
  }

  // Replay only appends,
  lemma {:induction false} RedoGrows(d: Dir, l: seq<Header>, s: SegNo)
    ensures |FileOf(d, s)| <= |FileOf(RedoAll(d, l), s)|
    decreases |l|
  {
    if l != [] {
      RedoGrows(RedoOne(d, l[0]), l[1..], s);
    }
  }

  /** so a replay leaves a directory alone if and only if no record of it is above the
      watermark, whatever the records and their order. */
  lemma {:induction false} NothingReplayedIff(d: Dir, l: seq<Header>)
    ensures RedoAll(d, l) == d <==> forall i :: 0 <= i < |l| ==> l[i].partitionLsn <= TailPeek(d)
    decreases |l|
  {
    if l != [] {
      if l[0].partitionLsn <= TailPeek(d) {
        NothingReplayedIff(d, l[1..]);
        assert forall i :: 1 <= i < |l| ==> l[i] == l[1..][i - 1];
      } else {
        RedoGrows(Append(d, l[0]), l[1..], SegOf(l[0]));
      }
    }
  }

  lemma {:induction false} RedoFresh(d: Dir, acc: seq<Header>, tail: seq<Header>)
    requires NonEmpty(d) == Split(acc) && Increasing(acc + tail) && SegMonotone(acc + tail)
    ensures NonEmpty(RedoAll(d, tail)) == Split(acc + tail)
    decreases |tail|
  {
    PrefixOrdered(acc, tail);
    if tail == [] {
      assert acc + tail == acc;
    } else {
      var e := acc + tail;
      assert tail[0] == e[|acc|];
      assert LastLsn(acc) < tail[0].partitionLsn by {
        if acc != [] {
          assert e[|acc| - 1] == acc[|acc| - 1];
        }
      }
      RedoOneStep(d, acc, tail[0]);
      assert (acc + [tail[0]]) + tail[1..] == acc + tail;
      RedoFresh(RedoOne(d, tail[0]), acc + [tail[0]], tail[1..]);
    }
  }

  lemma PrefixOrdered(a: seq<Header>, b: seq<Header>)
    requires Increasing(a + b) && SegMonotone(a + b)
    ensures Increasing(a) && SegMonotone(a)
  {
    var e := a + b;
    assert forall i :: 0 <= i < |a| ==> e[i] == a[i];
  }

  lemma {:induction false} RedoConcat(d: Dir, a: seq<Header>, b: seq<Header>)
    ensures RedoAll(d, a + b) == RedoAll(RedoAll(d, a), b)
    decreases |a|
  {
    if a == [] {
      assert a + b == b;
    } else {
      assert (a + b)[1..] == a[1..] + b;
      RedoConcat(RedoOne(d, a[0]), a[1..], b);
    }
  }

  lemma SubOrdered(full: seq<Header>, k: nat, j: nat)
    requires Gapless(full) && SegMonotone(full) && k <= j <= |full|
    ensures Increasing(full[..k] + full[j..]) && SegMonotone(full[..k] + full[j..])
  {
    var e := full[..k] + full[j..];
    forall i | 0 <= i < |e|
      ensures e[i] == full[if i < k then i else i - k + j]
    {
    }
  }

  lemma PrefixFacts(full: seq<Header>, k: nat)
    requires Gapless(full) && SegMonotone(full) && k <= |full|
    ensures Increasing(full[..k]) && SegMonotone(full[..k]) && LastLsn(full[..k]) == k
    ensures forall i :: 0 <= i < k ==> full[i].partitionLsn <= k
  {
    SubOrdered(full, k, |full|);
    assert full[..k] + full[|full|..] == full[..k];
  }

  // Replaying full[j..c] over a disk that holds full[..k], with j <= k.
  lemma RedoRange(d: Dir, full: seq<Header>, k: nat, j: nat, c: nat)
    requires Gapless(full) && SegMonotone(full)
    requires j <= k <= |full| && j <= c <= |full|
    requires NonEmpty(d) == Split(full[..k])
    ensures NonEmpty(RedoAll(d, full[j..c])) == Split(full[..if c > k then c else k])
    ensures c <= k ==> RedoAll(d, full[j..c]) == d
  {
    if c <= k {
      PrefixFacts(full, k);
      RedoKnown(d, full[..k], full[j..c]);
    } else {
      RedoBeyond(d, full, k, j, c);
    }
  }

  lemma RedoBeyond(d: Dir, full: seq<Header>, k: nat, j: nat, c: nat)
    requires Gapless(full) && SegMonotone(full)
    requires j <= k < c <= |full|
    requires NonEmpty(d) == Split(full[..k])
    ensures NonEmpty(RedoAll(d, full[j..c])) == Split(full[..c])
  {
    RedoConcat(d, full[j..k], full[k..c]);
    assert full[j..c] == full[j..k] + full[k..c];
    RedoOld(d, full, k, j);
    RedoNew(d, full, k, c);
  }

  lemma RedoOld(d: Dir, full: seq<Header>, k: nat, j: nat)
    requires Gapless(full) && SegMonotone(full)
    requires j <= k <= |full| && NonEmpty(d) == Split(full[..k])
    ensures RedoAll(d, full[j..k]) == d
  {
    PrefixFacts(full, k);
    RedoKnown(d, full[..k], full[j..k]);
  }

  lemma RedoNew(d: Dir, full: seq<Header>, k: nat, c: nat)
    requires Gapless(full) && SegMonotone(full)
    requires k <= c <= |full| && NonEmpty(d) == Split(full[..k])
    ensures NonEmpty(RedoAll(d, full[k..c])) == Split(full[..c])
  {
    PrefixFacts(full, c);
    assert full[..k] + full[k..c] == full[..c];
    RedoFresh(d, full[..k], full[k..c]);
  }

  lemma {:induction false} InterruptedStays(d: Dir, full: seq<Header>, k: nat, j: nat, cuts: seq<nat>) returns (m: nat)
    requires Gapless(full) && SegMonotone(full) && j <= k <= |full|
    requires NonEmpty(d) == Split(full[..k])
    requires forall i :: 0 <= i < |cuts| ==> cuts[i] <= |full[j..]|
    ensures k <= m <= |full| && NonEmpty(Interrupted(d, full[j..], cuts)) == Split(full[..m])
    decreases |cuts|
  {
    if cuts == [] {
      m := k;
    } else {
      var c := j + cuts[0];
      assert full[j..][..cuts[0]] == full[j..c];
      RedoRange(d, full, k, j, c);
      m := InterruptedStays(RedoAll(d, full[j..c]), full, if c > k then c else k, j, cuts[1..]);
    }
  }

  /** Crash convergence: a disk that holds records 1..k, replayed from any start at or
      below k+1, ends with exactly 1..n after any number of recoveries cut short by
      further crashes; one more replay changes no file. */
  lemma CrashConvergence(d: Dir, full: seq<Header>, k: nat, j: nat, cuts: seq<nat>)
    requires Gapless(full) && SegMonotone(full) && j <= k <= |full|
    requires NonEmpty(d) == Split(full[..k])
    requires forall i :: 0 <= i < |cuts| ==> cuts[i] <= |full[j..]|
    ensures var r := RedoAll(Interrupted(d, full[j..], cuts), full[j..]);
            && Log(r) == full
            && NonEmpty(r) == Split(full)
            && RedoAll(r, full[j..]) == r
  {
    var m := InterruptedStays(d, full, k, j, cuts);
    var n := |full|;
    assert full[j..n] == full[j..] && full[..n] == full;
    var e := Interrupted(d, full[j..], cuts);
    RedoRange(e, full, m, j, n);
    var r := RedoAll(e, full[j..]);
    RedoRange(r, full, n, j, n);
    LogIgnoresEmpty(r);
    LogOfSplit(full);
  }

  /** The start point is exact: replay from position j restores the whole log if and only
      if j leaves no hole after the k records on disk. */
  lemma ReplayCompleteIff(d: Dir, full: seq<Header>, k: nat, j: nat)
    requires Gapless(full) && SegMonotone(full) && k <= |full| && j <= |full|
    requires NonEmpty(d) == Split(full[..k])
    ensures Log(RedoAll(d, full[j..])) == full <==> j <= k
  {
    var r := RedoAll(d, full[j..]);
    LogIgnoresEmpty(r);
    if j <= k {
      CrashConvergence(d, full, k, j, []);
    } else {
      SubOrdered(full, k, j);
      RedoFresh(d, full[..k], full[j..]);
      LogOfSplit(full[..k] + full[j..]);
    }
  }
}
