/** One partition whose records come in LSN order, gaps allowed: what its files and its
    buffer hold after any outcome of the flushes, after a reset, a cleanup, a restart of the
    worker, and after crash recovery.  Segment numbers may go down, until a restart. */
module InTurn {
  import opened Header
  import opened SegmentDir
  import opened WriterSpec
  import opened SegmentCleanup
  import opened Demux
  import opened InStep
  import opened Redo
  import SessionSafety

  // Files and buffer hold acc, the buffer its last records.
  ghost predicate Carried(p: Part, acc: seq<Header>) {
    && Represents(p, acc) && Touched(p.w) && p.w.last == LastLsn(acc)
    && |p.w.pending| <= |acc| && p.w.pending == acc[|acc| - |p.w.pending|..]
  }

  ghost predicate InFiles(d: Dir, acc: seq<Header>) {
    NonEmpty(d) == Split(acc) && Increasing(acc) && SegMonotone(acc)
  }

  ghost predicate Placed(v: View, acc: seq<Header>) {
    || (if v.slot.Some? then Carried(PartOf(v), acc) else InFiles(v.dir, acc))
    || (acc == [] && Emptied(v))
  }

  // A directory a reset emptied under a writer that still remembers records.
  predicate Stale(v: View) {
    v.dir == map[] && v.slot.Some? && v.slot.value.last > 0
  }

  // ---- the next record ----

  lemma PendingAfter(p: Part, h: Header, io: Io)
    requires Write(p, h, io).ok
    ensures var w := Write(p, h, io).part.w; w.pending == p.w.pending + [h] || w.pending == [h]
    ensures var w := WriteAndFlush(p, h, io).w;
            w.pending == [] || w.pending == [h] || w.pending == p.w.pending + [h]
    ensures io.flush && Write(p, h, io).part.w.fd.Open? ==> WriteAndFlush(p, h, io).w.pending == []
  {
    assert p.w.pending == [] ==> p.w.pending + [h] == [h];
  }

  lemma CarriedRecord(p: Part, acc: seq<Header>, h: Header, io: Io)
    requires Carried(p, acc) && h.partitionLsn > LastLsn(acc) && CallsSucceed(p.w, h, io)
    ensures Carried(DemuxOne(p, h, io), acc + [h])
    ensures io.flush ==> DemuxOne(p, h, io).w.pending == []
  {
    RecordJoins(p, acc, h, io);
    DemuxKeepsTouched(p, h, io);
    LastOnes(acc, p.w.pending, h, DemuxOne(p, h, io).w.pending);
  }

  lemma RecordJoins(p: Part, acc: seq<Header>, h: Header, io: Io)
    requires Represents(p, acc) && p.w.last == LastLsn(acc) < h.partitionLsn && CallsSucceed(p.w, h, io)
    ensures var r := DemuxOne(p, h, io);
            && Represents(r, acc + [h]) && r.w.last == h.partitionLsn
            && (r.w.pending == [] || r.w.pending == [h] || r.w.pending == p.w.pending + [h])
            && (io.flush ==> r.w.pending == [])
  {
    var q := p.(w := p.w.(stalled := false));
    FreshReachesWrite(p, h, io, acc);
    AcceptedIff(q, h, io);
    WriteAppendsOrRefuses(q, h, io);
    WriteAndFlushStep(q, h, io, acc);
    PendingAfter(q, h, io);
  }

  lemma LastOnes(acc: seq<Header>, before: seq<Header>, h: Header, after: seq<Header>)
    requires |before| <= |acc| && before == acc[|acc| - |before|..]
    requires after == [] || after == [h] || after == before + [h]
    ensures var l := acc + [h]; |after| <= |l| && after == l[|l| - |after|..] && LastLsn(l) == h.partitionLsn
  {
  }

  lemma EmptiedPlaced(v: View)
    requires Emptied(v) && !Stale(v)
    ensures if v.slot.Some? then Carried(PartOf(v), []) else InFiles(v.dir, [])
  {
    assert NonEmpty(v.dir) == map[];
    if v.slot.Some? {
      assert v.slot.value.fd.Closed?;
      assert Content(PartOf(v)) == map[];
    }
  }

  // Number 1 meets an emptied directory as it would a new one.
  lemma StaleRecord(v: View, acc: seq<Header>, h: Header, io: Io, pid: nat)
    requires acc == [] && Stale(v) && h.partitionLsn == 1 && Accepts(v, h, io)
    ensures var r := HandleOne(v, Rec(h, io, true), pid);
            r.slot.Some? && Carried(PartOf(r), acc + [h]) && (io.flush ==> r.slot.value.pending == [])
  {
    StaleMeetsClean(v, h, io);
    CleanCarried(acc);
    CarriedRecord(CLEAN, acc, h, io);
  }

  lemma CleanCarried(acc: seq<Header>)
    requires acc == []
    ensures Carried(CLEAN, acc)
  {
    assert Content(CLEAN) == map[];
  }

  lemma StaleMeetsClean(v: View, h: Header, io: Io)
    requires Stale(v) && h.partitionLsn == 1
    ensures DemuxOne(PartOf(v), h, io) == DemuxOne(CLEAN, h, io) && Meets(v, h) == CLEAN.w
  {
    assert TailPeek(map[]) == 0;
    assert DetectReset(PartOf(v), h) == CLEAN == DetectReset(CLEAN, h);
  }

  /** The next record, above all before it, joins files and buffer when its write is
      accepted; on a directory emptied under an old writer it must be number 1. */
  lemma PlacedRecord(v: View, acc: seq<Header>, h: Header, io: Io, pid: nat)
    requires Placed(v, acc) && h.partitionLsn > LastLsn(acc) && Accepts(v, h, io)
    requires acc == [] && Stale(v) ==> h.partitionLsn == 1
    ensures var r := HandleOne(v, Rec(h, io, true), pid);
            r.slot.Some? && Carried(PartOf(r), acc + [h]) && (io.flush ==> r.slot.value.pending == [])
  {
    if acc == [] && Emptied(v) && Stale(v) {
      StaleRecord(v, acc, h, io, pid);
    } else {
      if acc == [] && Emptied(v) {
        EmptiedPlaced(v);
      }
      var p := PartOf(WithWriter(v));
      if v.slot.None? {
        NewWriterSound(v.dir, acc);
        TailPeekOrdered(v.dir, acc);
      }
      assert Carried(p, acc) && DetectReset(p, h) == p;
      CarriedRecord(p, acc, h, io);
    }
  }

  // ---- what else happens to a partition ----

  lemma PlacedSound(v: View, acc: seq<Header>)
    requires Placed(v, acc)
    ensures SoundAt(v, acc) && Increasing(acc)
  {
  }

  lemma PlacedFlush(v: View, acc: seq<Header>, bad: set<nat>, pid: nat)
    requires Placed(v, acc)
    ensures var r := HandleOne(v, Flushes(bad), pid); Placed(r, acc) && (Stale(r) ==> Stale(v))
  {
    if v.slot.Some? && Carried(PartOf(v), acc) {
      FlushSound(PartOf(v), pid !in bad, acc);
    }
  }

  lemma PlacedReset(v: View, acc: seq<Header>)
    requires Placed(v, acc)
    ensures Emptied(ResetView(v))
  {
  }

  lemma PlacedDrop(v: View, acc: seq<Header>)
    requires Placed(v, acc) && Drained(v) && SegMonotone(acc)
    ensures Placed(v.(slot := None), acc)
  {
    if v.slot.Some? && Carried(PartOf(v), acc) {
      assert v.slot.value.pending == [];
      assert Content(PartOf(v)) == NonEmpty(v.dir);
    }
  }

  lemma {:induction false} KeptMember(l: seq<Header>, keepPtr: nat, h: Header)
    requires h in l && Survives(SegOf(h), keepPtr)
    ensures h in Kept(l, keepPtr)
  {
    if h != l[|l| - 1] {
      assert l == l[..|l| - 1] + [l[|l| - 1]];
      KeptMember(l[..|l| - 1], keepPtr, h);
    }
  }

  // Records of surviving segments at the end of a log stay at its end.
  lemma {:induction false} KeptEnd(a: seq<Header>, b: seq<Header>, keepPtr: nat)
    requires forall i :: 0 <= i < |b| ==> Survives(SegOf(b[i]), keepPtr)
    ensures Kept(a + b, keepPtr) == Kept(a, keepPtr) + b
  {
    if b == [] {
      assert a + b == a;
    } else {
      var init, h := b[..|b| - 1], b[|b| - 1];
      assert (a + b)[..|a + b| - 1] == a + init;
      KeptEnd(a, init, keepPtr);
      assert Kept(a, keepPtr) + init + [h] == Kept(a, keepPtr) + b;
    }
  }

  lemma KeptLast(acc: seq<Header>, keepPtr: nat)
    requires acc != [] ==> Survives(SegOf(acc[|acc| - 1]), keepPtr)
    ensures LastLsn(Kept(acc, keepPtr)) == LastLsn(acc)
  {
  }

  /** A cleanup that leaves the highest file, the open one, and that of the last record takes
      records from the files only. */
  lemma PlacedClean(v: View, acc: seq<Header>, keepPtr: nat)
    requires Placed(v, acc) && SessionSafety.LeavesOpen(v, keepPtr)
    requires acc != [] ==> Survives(SegOf(acc[|acc| - 1]), keepPtr)
    ensures Placed(CleanView(v, keepPtr), Kept(acc, keepPtr))
    ensures Stale(CleanView(v, keepPtr)) && Kept(acc, keepPtr) == [] ==> acc == [] && Stale(v)
  {
    KeptLast(acc, keepPtr);
    if acc == [] && Emptied(v) {
      assert Cleaned(v.dir, keepPtr) == map[];
    } else {
      PlacedSound(v, acc);
      KeptIncreasing(acc, keepPtr);
      CleanedSplit(acc, keepPtr);
      if v.slot.Some? {
        CarriedClean(PartOf(v), acc, keepPtr);
      } else {
        CleanedFiles(v.dir, acc, keepPtr);
        KeptMonotone(acc, keepPtr);
      }
    }
  }

  lemma CarriedClean(p: Part, acc: seq<Header>, keepPtr: nat)
    requires Carried(p, acc) && (p.w.fd.Open? ==> Survives(p.w.seg, keepPtr))
    requires acc != [] ==> Survives(SegOf(acc[|acc| - 1]), keepPtr)
    ensures Carried(CleanPart(p, keepPtr), Kept(acc, keepPtr))
  {
    assert CleanPart(p, keepPtr).w == p.w;
    RepresentsClean(p, acc, keepPtr);
    KeptLast(acc, keepPtr);
    KeptTail(acc, p.w.pending, keepPtr);
  }

  lemma KeptTail(acc: seq<Header>, b: seq<Header>, keepPtr: nat)
    requires |b| <= |acc| && b == acc[|acc| - |b|..]
    requires forall i :: 0 <= i < |b| ==> Survives(SegOf(b[i]), keepPtr)
    ensures var l := Kept(acc, keepPtr); |b| <= |l| && b == l[|l| - |b|..]
  {
    var a := acc[..|acc| - |b|];
    assert acc == a + b;
    KeptEnd(a, b, keepPtr);
  }

  lemma RepresentsClean(p: Part, acc: seq<Header>, keepPtr: nat)
    requires Represents(p, acc) && (p.w.fd.Open? ==> Survives(p.w.seg, keepPtr))
    ensures Represents(CleanPart(p, keepPtr), Kept(acc, keepPtr))
  {
    KeptIncreasing(acc, keepPtr);
    CleanedSplit(acc, keepPtr);
    SessionSafety.CleanedContent(p, keepPtr);
  }

  // ---- where the records are ----

  // The records that are in the files, as far as the buffer says.
  function Written(v: View, acc: seq<Header>): seq<Header> {
    if |Buffered(v)| <= |acc| then acc[..|acc| - |Buffered(v)|] else []
  }

  lemma PlacedFiles(v: View, acc: seq<Header>)
    requires Placed(v, acc)
    ensures NonEmpty(v.dir) == Split(Written(v, acc)) && acc == Written(v, acc) + Buffered(v)
  {
    if acc == [] && Emptied(v) {
      assert NonEmpty(v.dir) == map[];
    } else if Buffered(v) == [] {
      assert Written(v, acc) == acc;
      if v.slot.Some? {
        assert v.slot.value.pending == [];
        assert Content(PartOf(v)) == NonEmpty(v.dir);
      }
    } else {
      var p := PartOf(v);
      assert Credit(p) == p.dir[p.w.seg := FileOf(p.dir, p.w.seg) + p.w.pending];
      assert acc == Written(v, acc) + p.w.pending;
      CreditBack(p.dir, Written(v, acc), p.w.pending, p.w.seg);
    }
  }

  // What the files held before the buffer was credited to them.
  lemma CreditBack(d: Dir, a: seq<Header>, b: seq<Header>, s: SegNo)
    requires b != [] && forall i :: 0 <= i < |b| ==> SegOf(b[i]) == s
    requires NonEmpty(d[s := FileOf(d, s) + b]) == Split(a + b)
    ensures NonEmpty(d) == Split(a)
  {
    SplitRun(a, b, s);
    NonEmptyUpdate(d, s, FileOf(d, s) + b);
    SplitShape(a);
    UpdateBack(NonEmpty(d), Split(a), s, b);
  }

  lemma UpdateBack(x: Dir, y: Dir, s: SegNo, b: seq<Header>)
    requires x[s := FileOf(x, s) + b] == y[s := FileOf(y, s) + b]
    requires (s in x ==> x[s] != []) && (s in y ==> y[s] != [])
    ensures x == y
  {
    var u, w := x[s := FileOf(x, s) + b], y[s := FileOf(y, s) + b];
    assert u[s] == w[s];
    SameFront(FileOf(x, s), FileOf(y, s), b);
    assert forall k :: k in x && k != s ==> k in u && u[k] == x[k];
    assert forall k :: k in y && k != s ==> k in w && w[k] == y[k];
  }

  lemma SameFront(f: seq<Header>, g: seq<Header>, b: seq<Header>)
    requires f + b == g + b
    ensures f == g
  {
    assert (f + b)[..|f|] == f && (g + b)[..|g|] == g;
  }

  /** A record of the sequence is in its own file or in the buffer, and not both; any other
      record is in neither. */
  lemma PlacedOnce(v: View, acc: seq<Header>, h: Header)
    requires Placed(v, acc)
    ensures h in acc <==> (h in FileOf(v.dir, SegOf(h)) || h in Buffered(v))
    ensures !(h in FileOf(v.dir, SegOf(h)) && h in Buffered(v))
    ensures Drained(v) ==> Buffered(v) == []
  {
    PlacedFiles(v, acc);
    PlacedSound(v, acc);
    var a := Written(v, acc);
    SplitMember(a, h);
    FileOfNonEmpty(v.dir, SegOf(h));
    NotInBoth(a, Buffered(v), h);
  }

  lemma NotInBoth(a: seq<Header>, b: seq<Header>, h: Header)
    requires Increasing(a + b)
    ensures h in a + b <==> h in a || h in b
    ensures !(h in a && h in b)
  {
    forall i, j | 0 <= i < |a| && 0 <= j < |b|
      ensures a[i] != b[j]
    {
      assert (a + b)[i].partitionLsn < (a + b)[|a| + j].partitionLsn;
    }
  }

  // ---- crash recovery ----

  // Replaying `tail` over the first m records of acc meets nothing new until it comes to
  // the rest of acc, and ends with that.
  ghost predicate Resumes(tail: seq<Header>, acc: seq<Header>, m: nat) {
    && m <= |acc| && |acc| - m <= |tail|
    && tail[|tail| - (|acc| - m)..] == acc[m..]
    && forall i :: 0 <= i < |tail| - (|acc| - m) ==> tail[i].partitionLsn <= LastLsn(acc[..m])
  }

  // Recovery on its way to acc: m records are in the files, `ahead` is still to be replayed,
  // and `all` would be after another crash.
  ghost predicate Restoring(d: Dir, acc: seq<Header>, ahead: seq<Header>, all: seq<Header>, m: nat) {
    && Increasing(acc) && SegMonotone(acc) && Resumes(ahead, acc, m) && Resumes(all, acc, m)
    && NonEmpty(d) == Split(acc[..m])
  }

  lemma PrefixInFiles(d: Dir, acc: seq<Header>, m: nat)
    requires Increasing(acc) && SegMonotone(acc) && m <= |acc| && NonEmpty(d) == Split(acc[..m])
    ensures InFiles(d, acc[..m]) && TailPeek(d) == LastLsn(acc[..m])
  {
    assert acc == acc[..m] + acc[m..];
    PrefixOrdered(acc[..m], acc[m..]);
    TailPeekOrdered(d, acc[..m]);
  }

  lemma ResumesLater(tail: seq<Header>, acc: seq<Header>, m: nat)
    requires Resumes(tail, acc, m) && Increasing(acc) && m < |acc|
    ensures Resumes(tail, acc, m + 1)
  {
    var k := |tail| - (|acc| - m);
    assert tail[k..][0] == acc[m..][0] == tail[k] == acc[m];
    assert tail[k + 1..] == tail[k..][1..] == acc[m..][1..] == acc[m + 1..];
    assert LastLsn(acc[..m]) <= acc[m].partitionLsn == LastLsn(acc[..m + 1]);
  }

  lemma ResumesRest(ahead: seq<Header>, acc: seq<Header>, m: nat)
    requires Resumes(ahead, acc, m) && ahead != [] && Increasing(acc)
    ensures |ahead| > |acc| - m ==> Resumes(ahead[1..], acc, m) && ahead[0].partitionLsn <= LastLsn(acc[..m])
    ensures |ahead| == |acc| - m ==>
              && m < |acc| && ahead[0] == acc[m] && acc[m].partitionLsn > LastLsn(acc[..m])
              && Resumes(ahead[1..], acc, m + 1)
  {
    var k := |ahead| - (|acc| - m);
    if k > 0 {
      assert ahead[1..][|ahead| - 1 - (|acc| - m)..] == ahead[k..];
    } else {
      assert ahead == ahead[k..] == acc[m..];
      assert ahead[1..] == acc[m + 1..];
    }
  }

  /** One record of the partition replayed: it is skipped, or it is the next one missing. */
  lemma RestoreOne(d: Dir, acc: seq<Header>, ahead: seq<Header>, all: seq<Header>, m: nat) returns (n: nat)
    requires Restoring(d, acc, ahead, all, m) && ahead != []
    ensures Restoring(RedoOne(d, ahead[0]), acc, ahead[1..], all, n)
  {
    PrefixInFiles(d, acc, m);
    RedoOneStep(d, acc[..m], ahead[0]);
    ResumesRest(ahead, acc, m);
    n := m;
    if |ahead| == |acc| - m {
      n := m + 1;
      assert acc[..m] + [acc[m]] == acc[..m + 1];
      ResumesLater(all, acc, m);
    }
  }

  lemma Restored(d: Dir, acc: seq<Header>, all: seq<Header>, m: nat)
    requires Restoring(d, acc, [], all, m)
    ensures InFiles(d, acc)
  {
    assert m == |acc|;
    assert acc[..|acc|] == acc;
  }
}
