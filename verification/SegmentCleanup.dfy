/** CleanupPartitionWAL on a log: what goes, what stays, and what becomes of the watermark. */
module SegmentCleanup {
  import opened Header
  import opened SegmentDir

  function Kept(l: seq<Header>, keepPtr: nat): seq<Header> {
    if l == [] then []
    else
      var h := l[|l| - 1];
      Kept(l[..|l| - 1], keepPtr) + (if Survives(SegOf(h), keepPtr) then [h] else [])
  }

  lemma SegmentEnd(h: Header)
    ensures h.origNodeLsn < (SegOf(h) + 1) * WAL_SEGMENT_SIZE
  {
    var w := WAL_SEGMENT_SIZE;
    var q := h.origNodeLsn / w;
    assert h.origNodeLsn < (q + 1) * w;
    assert q <= SegOf(h);
    assert (q + 1) * w <= (SegOf(h) + 1) * w;
  }

  lemma CleanedAppend(d: Dir, h: Header, keepPtr: nat)
    ensures Cleaned(Append(d, h), keepPtr)
         == if Survives(SegOf(h), keepPtr) then Append(Cleaned(d, keepPtr), h) else Cleaned(d, keepPtr)
  {
    if Survives(SegOf(h), keepPtr) {
      assert FileOf(Cleaned(d, keepPtr), SegOf(h)) == FileOf(d, SegOf(h));
    }
  }

  lemma {:induction false} CleanedSplit(l: seq<Header>, keepPtr: nat)
    ensures Cleaned(Split(l), keepPtr) == Split(Kept(l, keepPtr))
  {
    if l != [] {
      var init, h := l[..|l| - 1], l[|l| - 1];
      CleanedSplit(init, keepPtr);
      var d := Split(init);
      if Survives(SegOf(h), keepPtr) {
        SplitAppend(Kept(init, keepPtr), h);
      } else {
        assert Kept(l, keepPtr) == Kept(init, keepPtr);
      }
      CleanedAppend(d, h, keepPtr);
    }
  }

  lemma SurvivesUpwards(a: SegNo, b: SegNo, keepPtr: nat)
    requires a <= b && Survives(a, keepPtr)
    ensures Survives(b, keepPtr)
  {
    assert (a + 1) * WAL_SEGMENT_SIZE <= (b + 1) * WAL_SEGMENT_SIZE;
  }

  lemma {:induction false} KeptSuffix(l: seq<Header>, keepPtr: nat) returns (j: nat)
    requires SegMonotone(l)
    ensures j <= |l| && Kept(l, keepPtr) == l[j..]
    ensures forall i :: 0 <= i < |l| ==> (j <= i <==> Survives(SegOf(l[i]), keepPtr))
  {
    if l == [] {
      j := 0;
    } else {
      var init, h := l[..|l| - 1], l[|l| - 1];
      j := KeptSuffix(init, keepPtr);
      if Survives(SegOf(h), keepPtr) {
        assert init[j..] + [h] == l[j..];
        forall i | 0 <= i < |l|
          ensures j <= i <==> Survives(SegOf(l[i]), keepPtr)
        {
          assert i < |init| ==> init[i] == l[i];
        }
      } else {
        NoneSurvives(l, keepPtr);
        j := |l|;
        assert l[j..] == [];
      }
    }
  }

  lemma {:induction false} KeptIncreasing(l: seq<Header>, keepPtr: nat)
    requires Increasing(l)
    ensures Increasing(Kept(l, keepPtr)) && LastLsn(Kept(l, keepPtr)) <= LastLsn(l)
    ensures forall r :: r in Kept(l, keepPtr) ==> r in l
  {
    if l != [] {
      var init, h := l[..|l| - 1], l[|l| - 1];
      IncreasingInit(l);
      KeptIncreasing(init, keepPtr);
      if Survives(SegOf(h), keepPtr) {
        IncreasingExtend(Kept(init, keepPtr), h);
      } else {
        assert Kept(l, keepPtr) == Kept(init, keepPtr);
      }
    }
  }

  lemma IncreasingInit(l: seq<Header>)
    requires Increasing(l) && l != []
    ensures Increasing(l[..|l| - 1]) && LastLsn(l[..|l| - 1]) < l[|l| - 1].partitionLsn
  {
    assert |l| > 1 ==> l[..|l| - 1][|l| - 2] == l[|l| - 2];
  }

  lemma KeptMonotone(l: seq<Header>, keepPtr: nat)
    requires SegMonotone(l) && Increasing(l)
    ensures SegMonotone(Kept(l, keepPtr))
    ensures l != [] && Survives(SegOf(l[|l| - 1]), keepPtr) ==> LastLsn(Kept(l, keepPtr)) == LastLsn(l)
  {
    var j := KeptSuffix(l, keepPtr);
    SuffixOrdered(l, j);
  }

  lemma NoneSurvives(l: seq<Header>, keepPtr: nat)
    requires SegMonotone(l) && l != [] && !Survives(SegOf(l[|l| - 1]), keepPtr)
    ensures forall i :: 0 <= i < |l| ==> !Survives(SegOf(l[i]), keepPtr)
    ensures Kept(l, keepPtr) == []
  {
    forall i | 0 <= i < |l|
      ensures !Survives(SegOf(l[i]), keepPtr)
    {
      if Survives(SegOf(l[i]), keepPtr) {
        SurvivesUpwards(SegOf(l[i]), SegOf(l[|l| - 1]), keepPtr);
      }
    }
    NothingKept(l, keepPtr);
  }

  lemma {:induction false} NothingKept(l: seq<Header>, keepPtr: nat)
    requires forall i :: 0 <= i < |l| ==> !Survives(SegOf(l[i]), keepPtr)
    ensures Kept(l, keepPtr) == []
  {
    if l != [] {
      NothingKept(l[..|l| - 1], keepPtr);
    }
  }

  lemma SegmentKept(h: Header, k: SegNo, keepPtr: nat)
    requires InSegment(k, h.origNodeLsn)
    ensures Survives(SegOf(h), keepPtr) <==> (k + 1) * WAL_SEGMENT_SIZE > keepPtr
  {
    SegOfOnly(h);
  }

  /** Cleanup safety: a record is removed exactly when the byte range of its segment ends at
      or below keepPtr, hence only below keepPtr; the survivors of an ordered log are a contiguous
      suffix of it; and the watermark keeps its value if and only if the segment of the
      last record survives (or there was no record). */
  lemma CleanupSafety(d: Dir, l: seq<Header>, keepPtr: nat) returns (j: nat)
    requires NonEmpty(d) == Split(l) && SegMonotone(l) && Increasing(l)
    ensures j <= |l| && Log(Cleaned(d, keepPtr)) == l[j..]
    ensures forall i :: 0 <= i < j ==> l[i].origNodeLsn < keepPtr
    ensures forall i :: 0 <= i < |l| ==> (i < j <==> !Survives(SegOf(l[i]), keepPtr))
    ensures forall i: int, k: SegNo :: 0 <= i < |l| && InSegment(k, l[i].origNodeLsn) ==> (i < j <==> (k + 1) * WAL_SEGMENT_SIZE <= keepPtr)
    ensures TailPeek(Cleaned(d, keepPtr)) == TailPeek(d)
       <==> (l == [] || Survives(SegOf(l[|l| - 1]), keepPtr))
  {
    j := KeptSuffix(l, keepPtr);
    forall i: int, k: SegNo | 0 <= i < |l| && InSegment(k, l[i].origNodeLsn)
      ensures i < j <==> (k + 1) * WAL_SEGMENT_SIZE <= keepPtr
    {
      SegmentKept(l[i], k, keepPtr);
    }
    CleanedLog(d, l, keepPtr, j);
    CleanedWatermark(d, l, keepPtr, j);
    assert l != [] ==> (j <= |l| - 1 <==> Survives(SegOf(l[|l| - 1]), keepPtr));
    forall i | 0 <= i < j
      ensures l[i].origNodeLsn < keepPtr
    {
      SegmentEnd(l[i]);
    }
  }

  lemma SuffixOrdered(l: seq<Header>, j: nat)
    requires SegMonotone(l) && Increasing(l) && j <= |l|
    ensures SegMonotone(l[j..]) && Increasing(l[j..])
    ensures LastLsn(l[j..]) == LastLsn(l) <==> l == [] || j < |l|
  {
    assert forall i :: 0 <= i < |l[j..]| ==> l[j..][i] == l[j + i];
  }

  lemma CleanedFiles(d: Dir, l: seq<Header>, keepPtr: nat)
    requires NonEmpty(d) == Split(l)
    ensures NonEmpty(Cleaned(d, keepPtr)) == Split(Kept(l, keepPtr))
  {
    CleanedSplit(l, keepPtr);
    assert NonEmpty(Cleaned(d, keepPtr)) == Cleaned(NonEmpty(d), keepPtr);
  }

  lemma CleanedWatermark(d: Dir, l: seq<Header>, keepPtr: nat, j: nat)
    requires NonEmpty(d) == Split(l) && SegMonotone(l) && Increasing(l)
    requires j <= |l| && Kept(l, keepPtr) == l[j..]
    ensures TailPeek(Cleaned(d, keepPtr)) == TailPeek(d) <==> l == [] || j < |l|
  {
    CleanedFiles(d, l, keepPtr);
    SuffixOrdered(l, j);
    TailPeekOrdered(Cleaned(d, keepPtr), l[j..]);
    TailPeekOrdered(d, l);
  }

  lemma CleanedLog(d: Dir, l: seq<Header>, keepPtr: nat, j: nat)
    requires NonEmpty(d) == Split(l) && SegMonotone(l) && Increasing(l)
    requires j <= |l| && Kept(l, keepPtr) == l[j..]
    ensures Log(Cleaned(d, keepPtr)) == l[j..]
  {
    CleanedFiles(d, l, keepPtr);
    SuffixOrdered(l, j);
    LogIgnoresEmpty(Cleaned(d, keepPtr));
    LogOfSplit(l[j..]);
  }
}
