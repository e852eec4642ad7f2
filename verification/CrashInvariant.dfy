/** The inductive invariant of the whole machine under the hypotheses of Discipline: every
    partition follows its WAL records, buffer included, across crashes, recoveries,
    restarts and resets, and the allocator stays just ahead of the WAL. */
module CrashInvariant {
  import opened Header
  import opened SegmentDir
  import opened WriterSpec
  import opened Demux
  import opened InStep
  import opened Redo
  import opened Machine
  import opened Discipline

  // Every partition's log since its last reset is 1..n, with segments that never go down.
  ghost predicate WalGood(wal: seq<WalRec>, base: map<nat, nat>) {
    forall pid :: InOrder(Drop(PartLog(wal, pid), CountOf(base, pid)))
  }

  ghost predicate Positive(wal: seq<WalRec>) {
    forall i :: 0 <= i < |wal| && wal[i].PartRec? ==> wal[i].h.partitionLsn >= 1
  }

  // Every partition follows its records among the first n of the WAL.
  ghost predicate Reflects(wk: Worker, wal: seq<WalRec>, base: map<nat, nat>, cleaned: map<nat, nat>, n: nat)
    requires n <= |wal|
  {
    DistinctSlots(wk.slots) && forall pid :: Follows(ViewOf(wk, pid), LogUpTo(wal, base, n, pid), CountOf(cleaned, pid))
  }

  // The files of every partition hold a range of its log, from what cleanup has left on.
  ghost predicate HeldAll(disk: map<nat, Dir>, wal: seq<WalRec>, base: map<nat, nat>, cleaned: map<nat, nat>) {
    forall pid :: HeldOne(disk, wal, base, cleaned, pid)
  }

  ghost predicate HeldOne(disk: map<nat, Dir>, wal: seq<WalRec>, base: map<nat, nat>, cleaned: map<nat, nat>, pid: nat) {
    Holds(DirOf(disk, pid), LogUpTo(wal, base, |wal|, pid), CountOf(cleaned, pid))
  }

  // ---- the allocator's part ----

  ghost predicate BackendGood(s: State, k: Backend) {
    var n := |CurrentLog(s, k.pid)|;
    match k
    case Looked(pid, found) => found && pid !in s.alloc ==> n == 0
    case Scanned(pid, init) => pid !in s.alloc ==> init == n + 1
    case Holding(pid, lsn) => pid in s.alloc && n < lsn < s.alloc[pid]
    case Inserted(pid, pos) => pos < |s.wal| && s.wal[pos].PartRec? && s.wal[pos].h.partitionId == pid
    case Returned(pid, pos) =>
      pos < s.flushed && pos < |s.wal| && s.wal[pos].PartRec? && s.wal[pos].h.partitionId == pid
  }

  // The values issued are consecutive, start within or just after the log, and pass its end.
  ghost predicate EntryGood(issued: seq<nat>, next: nat, n: nat) {
    && |issued| < next && next - |issued| <= n + 1 && n < next
    && Consecutive(issued, next, next - |issued|)
  }

  ghost predicate AllocGood(s: State) {
    && s.alloc.Keys == s.issued.Keys
    && (forall pid :: pid in s.alloc ==> EntryGood(s.issued[pid], s.alloc[pid], |CurrentLog(s, pid)|))
    && (forall b :: b in s.backends ==> BackendGood(s, s.backends[b]))
    && HoldersDiffer(s.backends)
  }

  ghost predicate HoldersDiffer(backends: map<nat, Backend>) {
    forall a, b :: a in backends && b in backends && a != b
      && backends[a].Holding? && backends[b].Holding? && backends[a].pid == backends[b].pid
      ==> backends[a].lsn != backends[b].lsn
  }

  // The log of a partition nobody has allocated for is on disk as a whole.
  ghost predicate Unclaimed(s: State) {
    forall pid :: pid !in s.alloc ==> TailPeek(DirOf(s.wk.disk, pid)) == |CurrentLog(s, pid)|
  }

  ghost predicate Safe(s: State) {
    && Ordered(s)
    && WalGood(s.wal, s.base) && Positive(s.wal)
    && AllocGood(s)
    && match s.mode
       case Running =>
         && FitsAt(s.wal, s.base, s.readPos) && Reflects(s.wk, s.wal, s.base, s.cleaned, s.readPos)
         && Unclaimed(s)
       case Recovering(pos) =>
         && s.wk.slots == [] && s.alloc == map[] && s.backends == map[]
         && BasesFit(s) && HeldAll(s.wk.disk, s.wal, s.base, s.cleaned)
         && Replayable(s.wk.disk, s.wal, s.base, s.redoPtr) && Replayable(s.wk.disk, s.wal, s.base, pos)
  }

  lemma InitialSafe()
    ensures Safe(INITIAL)
  {
    assert TailPeek(map[]) == 0;
    forall pid
      ensures Follows(ViewOf(INITIAL.wk, pid), [], 0)
    {
      assert NonEmpty(DirOf(map[], pid)) == map[];
    }
  }

  lemma SafeBases(s: State)
    requires Safe(s)
    ensures BasesFit(s)
  {
    if s.mode.Running? {
      forall pid
        ensures CountOf(s.base, pid) <= |PartLog(s.wal, pid)|
      {
        BaseBelow(s, |s.wal|, pid);
        assert s.wal[..|s.wal|] == s.wal;
      }
    }
  }

  lemma BaseBelow(s: State, n: nat, pid: nat)
    requires Safe(s) && s.mode.Running? && s.readPos <= n <= |s.wal|
    ensures CountOf(s.base, pid) <= |PartLog(s.wal[..n], pid)|
  {
    FitsOne(s.wal, s.base, s.readPos, pid);
    LogGrows(s.wal, s.base, s.readPos, n, pid);
  }

  lemma FitsOne(wal: seq<WalRec>, base: map<nat, nat>, n: nat, pid: nat)
    requires n <= |wal| && FitsAt(wal, base, n)
    ensures CountOf(base, pid) <= |PartLog(wal[..n], pid)|
  {
  }

  lemma RunningFacts(s: State, pid: nat)
    requires Safe(s) && s.mode.Running?
    ensures Follows(ViewOf(s.wk, pid), LogUpTo(s.wal, s.base, s.readPos, pid), CountOf(s.cleaned, pid))
    ensures CountOf(s.base, pid) <= |PartLog(s.wal[..s.readPos], pid)|
    ensures InOrder(CurrentLog(s, pid))
  {
  }

  // ---- the number that goes into the WAL ----

  lemma IssuedBetween(issued: seq<nat>, next: nat, n: nat, v: nat)
    requires EntryGood(issued, next, n) && n < v < next
    ensures v in issued
  {
    assert issued[v - (next - |issued|)] == v;
  }

  lemma InsertedBelow(s: State, pid: nat, i: nat)
    requires WalGood(s.wal, s.base) && i < |CurrentLog(s, pid)|
    ensures CurrentLog(s, pid)[i].partitionLsn == i + 1
  {
    assert InOrder(CurrentLog(s, pid));
  }

  /** When WAL order is LSN order, an inserted number is the next one of the log if and only
      if no number below it was discarded: the allocator leaves no other way to a gap. */
  lemma NextLsnIff(s: State, b: nat)
    requires WalGood(s.wal, s.base) && AllocGood(s)
    requires b in s.backends && s.backends[b].Holding? && LowestHolder(s, b)
    ensures s.backends[b].lsn == |CurrentLog(s, s.backends[b].pid)| + 1 <==> NothingSkipped(s, b)
  {
    var pid, lsn := s.backends[b].pid, s.backends[b].lsn;
    var l := CurrentLog(s, pid);
    assert BackendGood(s, s.backends[b]);
    if lsn != |l| + 1 {
      SkippedNumber(s, b);
    } else {
      forall v: nat | v < lsn && Discarded(s, pid, v)
        ensures false
      {
        assert EntryGood(s.issued[pid], s.alloc[pid], |l|);
        var i :| 0 <= i < |s.issued[pid]| && s.issued[pid][i] == v;
        InsertedBelow(s, pid, v - 1);
      }
    }
  }

  lemma SkippedNumber(s: State, b: nat)
    requires WalGood(s.wal, s.base) && AllocGood(s)
    requires b in s.backends && s.backends[b].Holding? && LowestHolder(s, b)
    requires |CurrentLog(s, s.backends[b].pid)| + 1 < s.backends[b].lsn
    ensures Discarded(s, s.backends[b].pid, |CurrentLog(s, s.backends[b].pid)| + 1)
  {
    var pid := s.backends[b].pid;
    var l := CurrentLog(s, pid);
    var v := |l| + 1;
    assert BackendGood(s, s.backends[b]);
    IssuedBetween(s.issued[pid], s.alloc[pid], |l|, v);
    forall i | 0 <= i < |l|
      ensures l[i].partitionLsn != v
    {
      InsertedBelow(s, pid, i);
    }
  }

  // ---- the WAL grows ----

  lemma SamePrefix(wal: seq<WalRec>, r: WalRec, base: map<nat, nat>, n: nat, pid: nat)
    requires n <= |wal|
    ensures (wal + [r])[..n] == wal[..n]
    ensures LogUpTo(wal + [r], base, n, pid) == LogUpTo(wal, base, n, pid)
  {
    assert (wal + [r])[..n] == wal[..n];
  }

  lemma InsertWalGood(s: State, t: State, r: WalRec)
    requires WalGood(s.wal, s.base) && BasesFit(s) && t.wal == s.wal + [r] && t.base == s.base
    requires r.PartRec? ==> InOrder(CurrentLog(s, r.h.partitionId) + [r.h])
    ensures WalGood(t.wal, t.base)
  {
    forall pid
      ensures InOrder(Drop(PartLog(t.wal, pid), CountOf(t.base, pid)))
    {
      InsertLogGood(s, t, r, pid);
    }
  }

  lemma InsertLogGood(s: State, t: State, r: WalRec, pid: nat)
    requires WalGood(s.wal, s.base) && BasesFit(s) && t.wal == s.wal + [r] && t.base == s.base
    requires r.PartRec? ==> InOrder(CurrentLog(s, r.h.partitionId) + [r.h])
    ensures InOrder(CurrentLog(t, pid))
    ensures !(r.PartRec? && r.h.partitionId == pid) ==> CurrentLog(t, pid) == CurrentLog(s, pid)
  {
    var l := CurrentLog(s, pid);
    assert InOrder(l);
    CurrentLogInsert(s, t, r, pid);
    assert l + [] == l;
  }

  // The parts of the invariant that look at the WAL below the old end.
  lemma InsertBelow(s: State, t: State, r: WalRec)
    requires Safe(s) && s.mode.Running? && t.wal == s.wal + [r]
    requires t == s.(wal := t.wal, backends := t.backends)
    ensures FitsAt(t.wal, t.base, t.readPos)
    ensures Reflects(t.wk, t.wal, t.base, t.cleaned, t.readPos)
  {
    forall pid
      ensures CountOf(t.base, pid) <= |PartLog(t.wal[..t.readPos], pid)|
      ensures Follows(ViewOf(t.wk, pid), LogUpTo(t.wal, t.base, t.readPos, pid), CountOf(t.cleaned, pid))
    {
      RunningFacts(s, pid);
      SamePrefix(s.wal, r, s.base, s.readPos, pid);
    }
  }

  lemma InsertOtherKeeps(s: State)
    requires Safe(s) && Enabled(s, InsertOther)
    ensures Safe(Next(s, InsertOther))
  {
    var t := Next(s, InsertOther);
    SafeBases(s);
    InsertWalGood(s, t, OtherRec);
    InsertBelow(s, t, OtherRec);
    InsertOtherAlloc(s);
    InsertOtherUnclaimed(s, t);
  }

  lemma InsertOtherUnclaimed(s: State, t: State)
    requires WalGood(s.wal, s.base) && BasesFit(s) && Unclaimed(s) && t == s.(wal := s.wal + [OtherRec])
    ensures Unclaimed(t)
  {
    forall pid | pid !in t.alloc
      ensures TailPeek(DirOf(t.wk.disk, pid)) == |CurrentLog(t, pid)|
    {
      InsertLogGood(s, t, OtherRec, pid);
    }
  }

  lemma InsertOtherAlloc(s: State)
    requires AllocGood(s) && BasesFit(s) && WalGood(s.wal, s.base)
    ensures AllocGood(s.(wal := s.wal + [OtherRec]))
  {
    var t := s.(wal := s.wal + [OtherRec]);
    forall pid
      ensures CurrentLog(t, pid) == CurrentLog(s, pid)
    {
      InsertLogGood(s, t, OtherRec, pid);
    }
    forall b | b in t.backends
      ensures BackendGood(t, t.backends[b])
    {
      assert BackendGood(s, s.backends[b]);
    }
  }

  lemma InsertAllocGood(s: State, t: State, b: nat, h: Header)
    requires AllocGood(s) && BasesFit(s)
    requires b in s.backends && s.backends[b] == Holding(h.partitionId, h.partitionLsn)
    requires h.partitionLsn == |CurrentLog(s, h.partitionId)| + 1
    requires t == s.(wal := s.wal + [PartRec(h)], backends := s.backends[b := Inserted(h.partitionId, |s.wal|)])
    ensures AllocGood(t)
  {
    forall pid
      ensures |CurrentLog(t, pid)| == |CurrentLog(s, pid)| + (if pid == h.partitionId then 1 else 0)
    {
      CurrentLogInsert(s, t, PartRec(h), pid);
    }
    assert BackendGood(s, s.backends[b]);
    InsertBackends(s, t, b, h);
    forall pid | pid in t.alloc
      ensures EntryGood(t.issued[pid], t.alloc[pid], |CurrentLog(t, pid)|)
    {
      assert EntryGood(s.issued[pid], s.alloc[pid], |CurrentLog(s, pid)|);
    }
  }

  lemma InsertBackends(s: State, t: State, b: nat, h: Header)
    requires (forall x :: x in s.backends ==> BackendGood(s, s.backends[x])) && HoldersDiffer(s.backends)
    requires b in s.backends && s.backends[b] == Holding(h.partitionId, h.partitionLsn)
    requires h.partitionLsn == |CurrentLog(s, h.partitionId)| + 1
    requires t == s.(wal := s.wal + [PartRec(h)], backends := s.backends[b := Inserted(h.partitionId, |s.wal|)])
    requires forall pid :: |CurrentLog(t, pid)| == |CurrentLog(s, pid)| + (if pid == h.partitionId then 1 else 0)
    ensures (forall x :: x in t.backends ==> BackendGood(t, t.backends[x])) && HoldersDiffer(t.backends)
  {
    assert BackendGood(s, s.backends[b]);
    forall x | x in t.backends
      ensures BackendGood(t, t.backends[x])
    {
      assert x in s.backends && BackendGood(s, s.backends[x]);
    }
  }

  // The record inserted is the next one of its partition's log.
  lemma InsertNext(s: State, step: Step)
    requires Safe(s) && step.Insert? && Enabled(s, step) && Disciplined(s, step)
    ensures var h := InsertHeader(s, step.b, step.orig, step.flags);
            && InOrder(CurrentLog(s, h.partitionId) + [h])
            && h.partitionLsn == |CurrentLog(s, h.partitionId)| + 1
            && h.partitionId in s.alloc
  {
    NextLsnIff(s, step.b);
    var h := InsertHeader(s, step.b, step.orig, step.flags);
    assert BackendGood(s, s.backends[step.b]);
    InOrderNext(CurrentLog(s, h.partitionId), h);
  }

  lemma InOrderNext(l: seq<Header>, h: Header)
    requires InOrder(l) && h.partitionLsn == |l| + 1 && SegMonotone(l + [h])
    ensures InOrder(l + [h])
  {
  }

  lemma InsertUnclaimed(s: State, t: State, h: Header)
    requires Unclaimed(s) && BasesFit(s) && h.partitionId in s.alloc
    requires t.wal == s.wal + [PartRec(h)] && t.base == s.base && t.alloc == s.alloc && t.wk == s.wk
    ensures Unclaimed(t)
  {
    forall pid | pid !in t.alloc
      ensures TailPeek(DirOf(t.wk.disk, pid)) == |CurrentLog(t, pid)|
    {
      CurrentLogInsert(s, t, PartRec(h), pid);
    }
  }

  lemma InsertSafe(s: State, t: State, b: nat, h: Header)
    requires Safe(s) && s.mode.Running? && b in s.backends && s.backends[b] == Holding(h.partitionId, h.partitionLsn)
    requires InOrder(CurrentLog(s, h.partitionId) + [h])
    requires h.partitionLsn == |CurrentLog(s, h.partitionId)| + 1 && h.partitionId in s.alloc
    requires t == s.(wal := s.wal + [PartRec(h)], backends := s.backends[b := Inserted(h.partitionId, |s.wal|)])
    ensures Safe(t)
  {
    SafeBases(s);
    InsertWalGood(s, t, PartRec(h));
    InsertBelow(s, t, PartRec(h));
    InsertAllocGood(s, t, b, h);
    InsertUnclaimed(s, t, h);
    PositiveMore(s.wal, PartRec(h));
    SafeAssembled(t);
  }

  lemma PositiveMore(wal: seq<WalRec>, r: WalRec)
    requires Positive(wal) && (r.PartRec? ==> r.h.partitionLsn >= 1)
    ensures Positive(wal + [r])
  {
  }

  lemma SafeAssembled(t: State)
    requires Ordered(t) && WalGood(t.wal, t.base) && Positive(t.wal) && AllocGood(t) && t.mode.Running?
    requires FitsAt(t.wal, t.base, t.readPos) && Reflects(t.wk, t.wal, t.base, t.cleaned, t.readPos) && Unclaimed(t)
    ensures Safe(t)
  {
  }

  lemma InsertKeeps(s: State, step: Step)
    requires Safe(s) && step.Insert? && Enabled(s, step) && Disciplined(s, step)
    ensures Safe(Next(s, step))
  {
    InsertNext(s, step);
    InsertSafe(s, Next(s, step), step.b, InsertHeader(s, step.b, step.orig, step.flags));
  }

  // ---- the worker ----

  // What a step of the worker must do for each partition.
  ghost predicate Advanced(s: State, wk: Worker, n: nat, pid: nat)
    requires n <= |s.wal|
  {
    && Follows(ViewOf(wk, pid), LogUpTo(s.wal, s.base, n, pid), CountOf(s.cleaned, pid))
    && TailPeek(DirOf(s.wk.disk, pid)) <= TailPeek(DirOf(wk.disk, pid))
  }

  lemma FollowedOnDisk(s: State, wk: Worker, n: nat, pid: nat)
    requires WalGood(s.wal, s.base) && n <= |s.wal| && Follows(ViewOf(wk, pid), LogUpTo(s.wal, s.base, n, pid), CountOf(s.cleaned, pid))
    ensures TailPeek(DirOf(wk.disk, pid)) <= |LogUpTo(s.wal, s.base, n, pid)| <= |CurrentLog(s, pid)|
  {
    FollowsInOrder(ViewOf(wk, pid), LogUpTo(s.wal, s.base, n, pid), CountOf(s.cleaned, pid));
    LogGrows(s.wal, s.base, n, |s.wal|, pid);
    LogOfWhole(s.wal, s.base, pid);
  }

  lemma AdvanceKeeps(s: State, t: State)
    requires Safe(s) && s.mode.Running? && s.readPos <= t.readPos <= s.flushed
    requires t == s.(wk := t.wk, readPos := t.readPos, lastProcessed := t.lastProcessed)
    requires s.lastProcessed <= t.lastProcessed <= t.readPos && DistinctSlots(t.wk.slots)
    requires forall pid :: Advanced(s, t.wk, t.readPos, pid)
    ensures Safe(t)
  {
    forall pid
      ensures CountOf(t.base, pid) <= |PartLog(t.wal[..t.readPos], pid)|
      ensures Follows(ViewOf(t.wk, pid), LogUpTo(t.wal, t.base, t.readPos, pid), CountOf(t.cleaned, pid))
      ensures pid !in t.alloc ==> TailPeek(DirOf(t.wk.disk, pid)) == |CurrentLog(t, pid)|
    {
      assert Advanced(s, t.wk, t.readPos, pid);
      BaseBelow(s, t.readPos, pid);
      FollowedOnDisk(s, t.wk, t.readPos, pid);
    }
    forall b | b in t.backends
      ensures BackendGood(t, t.backends[b])
    {
      assert BackendGood(s, s.backends[b]);
    }
  }

  lemma ReadAdvances(s: State, io: Io, create: bool, pid: nat)
    requires Safe(s) && Enabled(s, ReadRecord(io, create)) && Regular(s, ReadRecord(io, create))
    ensures Advanced(s, Next(s, ReadRecord(io, create)).wk, s.readPos + 1, pid)
  {
    var i := s.readPos;
    assert Follows(ViewOf(s.wk, pid), LogUpTo(s.wal, s.base, i, pid), CountOf(s.cleaned, pid));
    BaseBelow(s, i, pid);
    LogAt(s.wal, s.base, i, pid);
    var l := LogUpTo(s.wal, s.base, i, pid);
    assert l + [] == l;
    if s.wal[i].PartRec? {
      var h := s.wal[i].h;
      ProcessViews(s.wk, h, io, create, pid);
      if h.partitionId == pid {
        NextRead(s, i, pid);
        FollowsRecord(ViewOf(s.wk, pid), l, CountOf(s.cleaned, pid), h, io, pid);
      }
    }
  }

  // The record at position i is the next one of its partition.
  lemma NextRead(s: State, i: nat, pid: nat)
    requires Safe(s) && s.mode.Running? && s.readPos <= i < |s.wal|
    requires s.wal[i].PartRec? && s.wal[i].h.partitionId == pid
    ensures var l := LogUpTo(s.wal, s.base, i, pid);
            && InOrder(l + [s.wal[i].h]) && s.wal[i].h.partitionLsn == |l| + 1
            && l + [s.wal[i].h] <= CurrentLog(s, pid)
  {
    BaseBelow(s, i, pid);
    LogOfWhole(s.wal, s.base, pid);
    assert InOrder(CurrentLog(s, pid));
    NextOfLog(s.wal, s.base, i, pid);
  }

  lemma NextOfLog(wal: seq<WalRec>, base: map<nat, nat>, i: nat, pid: nat)
    requires i < |wal| && CountOf(base, pid) <= |PartLog(wal[..i], pid)| && InOrder(LogUpTo(wal, base, |wal|, pid))
    requires wal[i].PartRec? && wal[i].h.partitionId == pid
    ensures var l := LogUpTo(wal, base, i, pid);
            && InOrder(l + [wal[i].h]) && wal[i].h.partitionLsn == |l| + 1
            && l + [wal[i].h] <= LogUpTo(wal, base, |wal|, pid)
  {
    LogAt(wal, base, i, pid);
    LogGrows(wal, base, i + 1, |wal|, pid);
    var l, full := LogUpTo(wal, base, i + 1, pid), LogUpTo(wal, base, |wal|, pid);
    assert l == full[..|l|];
    InOrderPrefix(full, |l|);
    assert l[|l| - 1] == wal[i].h;
  }

  lemma ReadKeeps(s: State, io: Io, create: bool)
    requires Safe(s) && Enabled(s, ReadRecord(io, create)) && Regular(s, ReadRecord(io, create))
    ensures Safe(Next(s, ReadRecord(io, create)))
  {
    AllAdvance(s, io, create);
    ReadShape(s, io, create);
    AdvanceKeeps(s, Next(s, ReadRecord(io, create)));
  }

  lemma AllAdvance(s: State, io: Io, create: bool)
    requires Safe(s) && Enabled(s, ReadRecord(io, create)) && Regular(s, ReadRecord(io, create))
    ensures var t := Next(s, ReadRecord(io, create)); forall pid :: Advanced(s, t.wk, t.readPos, pid)
  {
    var t := Next(s, ReadRecord(io, create));
    forall pid
      ensures Advanced(s, t.wk, t.readPos, pid)
    {
      ReadAdvances(s, io, create, pid);
    }
  }

  lemma ReadShape(s: State, io: Io, create: bool)
    requires Enabled(s, ReadRecord(io, create)) && Ordered(s) && DistinctSlots(s.wk.slots)
    ensures var t := Next(s, ReadRecord(io, create));
            && t == s.(wk := t.wk, readPos := t.readPos, lastProcessed := t.lastProcessed) && DistinctSlots(t.wk.slots)
            && t.readPos == s.readPos + 1 <= s.flushed && s.lastProcessed <= t.lastProcessed <= t.readPos
  {
    if s.wal[s.readPos].PartRec? {
      ProcessViews(s.wk, s.wal[s.readPos].h, io, create, 0);
    }
  }

  lemma CaughtUpKeeps(s: State, bad: set<nat>)
    requires Safe(s) && Enabled(s, CaughtUp(bad))
    ensures Safe(Next(s, CaughtUp(bad)))
  {
    var t := Next(s, CaughtUp(bad));
    forall pid
      ensures Advanced(s, t.wk, t.readPos, pid)
    {
      FlushAllViews(s.wk, bad, pid);
      FollowsFlush(ViewOf(s.wk, pid), LogUpTo(s.wal, s.base, s.readPos, pid), CountOf(s.cleaned, pid), bad, pid);
    }
    FlushAllViews(s.wk, bad, 0);
    AdvanceKeeps(s, t);
  }

  // Passing over WAL without partition records changes no log.
  lemma PassOver(wal: seq<WalRec>, base: map<nat, nat>, i: nat, j: nat, pid: nat)
    requires i <= j <= |wal| && NoPartRecords(wal[i..j])
    ensures LogUpTo(wal, base, j, pid) == LogUpTo(wal, base, i, pid)
  {
    NoPartRecordsLog(wal[i..j]);
    assert wal[..j] == wal[..i] + wal[i..j];
    PartLogConcat(wal[..i], wal[i..j], pid);
    assert PartLog(wal[i..j], pid) == [];
  }

  lemma SkipKeeps(s: State, pos: nat)
    requires Safe(s) && Enabled(s, SkipTo(pos)) && Regular(s, SkipTo(pos))
    ensures Safe(Next(s, SkipTo(pos)))
  {
    forall pid
      ensures Advanced(s, s.wk, pos, pid)
    {
      PassOver(s.wal, s.base, s.readPos, pos, pid);
      assert Follows(ViewOf(s.wk, pid), LogUpTo(s.wal, s.base, s.readPos, pid), CountOf(s.cleaned, pid));
    }
    AdvanceKeeps(s, Next(s, SkipTo(pos)));
  }

  // Dropping the writers of a drained worker.
  lemma DropAdvances(s: State, wk: Worker, n: nat, pid: nat)
    requires n <= |s.wal| && Drained(ViewOf(wk, pid)) && Advanced(s, wk, n, pid)
    ensures Advanced(s, wk.(slots := []), n, pid)
    ensures TailPeek(DirOf(wk.disk, pid)) == |LogUpTo(s.wal, s.base, n, pid)|
  {
    var v, l := ViewOf(wk, pid), LogUpTo(s.wal, s.base, n, pid);
    FollowsNoWriter(v, l, CountOf(s.cleaned, pid));
    DrainedOnDisk(v, l, CountOf(s.cleaned, pid));
    assert ViewOf(wk.(slots := []), pid) == v.(slot := None);
  }

  lemma RestartKeeps(s: State)
    requires Safe(s) && Enabled(s, RestartWorker) && Regular(s, RestartWorker)
    ensures Safe(Next(s, RestartWorker))
  {
    var t := Next(s, RestartWorker);
    forall pid
      ensures Advanced(s, t.wk, t.readPos, pid)
    {
      PassOver(s.wal, s.base, s.readPos, t.readPos, pid);
      assert Follows(ViewOf(s.wk, pid), LogUpTo(s.wal, s.base, s.readPos, pid), CountOf(s.cleaned, pid));
      assert Drained(ViewOf(s.wk, pid));
      DropAdvances(s, s.wk, t.readPos, pid);
    }
    AdvanceKeeps(s, t);
  }

  // At a clean restart everything is on disk.
  lemma CleanRestartOne(s: State, bad: set<nat>, pid: nat)
    requires Safe(s) && Enabled(s, CleanRestart(bad)) && Regular(s, CleanRestart(bad))
    ensures var t := Next(s, CleanRestart(bad));
            && Follows(ViewOf(t.wk, pid), LogUpTo(t.wal, t.base, |t.wal|, pid), CountOf(t.cleaned, pid))
            && CountOf(t.base, pid) <= |PartLog(t.wal[..|t.wal|], pid)|
            && TailPeek(DirOf(t.wk.disk, pid)) == |CurrentLog(t, pid)|
  {
    var n := |s.wal|;
    assert s.wal[s.readPos..n] == s.wal[s.readPos..];
    PassOver(s.wal, s.base, s.readPos, n, pid);
    var l := LogUpTo(s.wal, s.base, s.readPos, pid);
    assert Follows(ViewOf(s.wk, pid), l, CountOf(s.cleaned, pid));
    FlushAllViews(s.wk, bad, pid);
    FollowsFlush(ViewOf(s.wk, pid), l, CountOf(s.cleaned, pid), bad, pid);
    assert Drained(ViewOf(FlushAll(s.wk, bad), pid));
    DropAdvances(s, FlushAll(s.wk, bad), n, pid);
    BaseBelow(s, n, pid);
    LogOfWhole(s.wal, s.base, pid);
  }

  lemma CleanRestartKeeps(s: State, bad: set<nat>)
    requires Safe(s) && Enabled(s, CleanRestart(bad)) && Regular(s, CleanRestart(bad))
    ensures Safe(Next(s, CleanRestart(bad)))
  {
    var t := Next(s, CleanRestart(bad));
    forall pid
      ensures Follows(ViewOf(t.wk, pid), LogUpTo(t.wal, t.base, |t.wal|, pid), CountOf(t.cleaned, pid))
      ensures CountOf(t.base, pid) <= |PartLog(t.wal[..|t.wal|], pid)|
      ensures TailPeek(DirOf(t.wk.disk, pid)) == |CurrentLog(t, pid)|
    {
      CleanRestartOne(s, bad, pid);
    }
  }

  // ---- crash and recovery ----

  lemma CutLog(wal: seq<WalRec>, base: map<nat, nat>, keep: nat, n: nat, pid: nat)
    requires n <= keep <= |wal|
    ensures wal[..keep][..n] == wal[..n]
    ensures LogUpTo(wal[..keep], base, n, pid) == LogUpTo(wal, base, n, pid)
  {
    assert wal[..keep][..n] == wal[..n];
  }

  lemma CutOne(s: State, keep: nat, pid: nat)
    requires Safe(s) && s.flushed <= keep <= |s.wal|
    ensures var wal := s.wal[..keep];
            && InOrder(Drop(PartLog(wal, pid), CountOf(s.base, pid)))
            && CountOf(s.base, pid) <= |PartLog(wal, pid)|
            && HeldOne(s.wk.disk, wal, s.base, s.cleaned, pid)
  {
    match s.mode {
      case Running =>
        RunningFacts(s, pid);
        BaseBelow(s, keep, pid);
        CutRunning(s, keep, pid);
      case Recovering(_) =>
        assert s.wal[..keep] == s.wal;
        assert HeldOne(s.wk.disk, s.wal, s.base, s.cleaned, pid);
        assert InOrder(CurrentLog(s, pid));
    }
  }

  lemma CutRunning(s: State, keep: nat, pid: nat)
    requires s.readPos <= keep <= |s.wal| && InOrder(CurrentLog(s, pid))
    requires Follows(ViewOf(s.wk, pid), LogUpTo(s.wal, s.base, s.readPos, pid), CountOf(s.cleaned, pid))
    ensures InOrder(Drop(PartLog(s.wal[..keep], pid), CountOf(s.base, pid)))
    ensures HeldOne(s.wk.disk, s.wal[..keep], s.base, s.cleaned, pid)
  {
    var l := LogUpTo(s.wal, s.base, s.readPos, pid);
    FollowsInOrder(ViewOf(s.wk, pid), l, CountOf(s.cleaned, pid));
    LogGrows(s.wal, s.base, s.readPos, keep, pid);
    HeldLonger(DirOf(s.wk.disk, pid), l, CountOf(s.cleaned, pid), LogUpTo(s.wal, s.base, keep, pid));
    CutInOrder(s.wal, s.wal[..keep], s.base, keep, pid);
  }

  lemma CutInOrder(wal: seq<WalRec>, cut: seq<WalRec>, base: map<nat, nat>, keep: nat, pid: nat)
    requires keep <= |wal| && cut == wal[..keep] && InOrder(Drop(PartLog(wal, pid), CountOf(base, pid)))
    ensures LogUpTo(cut, base, |cut|, pid) == LogUpTo(wal, base, keep, pid) == Drop(PartLog(cut, pid), CountOf(base, pid))
    ensures InOrder(LogUpTo(wal, base, keep, pid))
  {
    assert cut[..|cut|] == cut;
    LogOfWhole(wal, base, pid);
    LogGrows(wal, base, keep, |wal|, pid);
    var l, full := LogUpTo(wal, base, keep, pid), LogUpTo(wal, base, |wal|, pid);
    assert l == full[..|l|];
    InOrderPrefix(full, |l|);
  }

  // What replay meets in the surviving WAL it would have met in the whole.
  lemma CutReplayable(disk: map<nat, Dir>, wal: seq<WalRec>, base: map<nat, nat>, n: nat, keep: nat)
    requires n <= keep <= |wal| && Replayable(disk, wal, base, n)
    ensures Replayable(disk, wal[..keep], base, n)
  {
    forall pid
      ensures OnDiskOne(disk, wal[..keep], base, n, pid) && OldCovered(disk, wal[..keep], base, n, pid)
    {
      assert OnDiskOne(disk, wal, base, n, pid) && OldCovered(disk, wal, base, n, pid);
      CutLog(wal, base, keep, n, pid);
      forall i | n <= i < keep && IsOld(wal[..keep], base, i, pid)
        ensures wal[..keep][i].h.partitionLsn <= TailPeek(DirOf(disk, pid))
      {
        CutLog(wal, base, keep, i, pid);
        assert IsOld(wal, base, i, pid);
      }
    }
  }

  lemma CrashKeeps(s: State, keep: nat)
    requires Safe(s) && Enabled(s, Crash(keep)) && Regular(s, Crash(keep))
    ensures Safe(Next(s, Crash(keep)))
  {
    var t := Next(s, Crash(keep));
    forall pid
      ensures InOrder(Drop(PartLog(t.wal, pid), CountOf(t.base, pid)))
      ensures CountOf(t.base, pid) <= |PartLog(t.wal, pid)|
      ensures HeldOne(t.wk.disk, t.wal, t.base, t.cleaned, pid)
    {
      CutOne(s, keep, pid);
    }
    CutReplayable(s.wk.disk, s.wal, s.base, s.redoPtr, keep);
  }

  // One record replayed for its partition: known ones are skipped, the next one appended.
  lemma RedoDir(d: Dir, full: seq<Header>, from: nat, k: nat)
    requires InOrder(full) && Holds(d, full, from) && k <= TailPeek(d) && k < |full|
    ensures Holds(RedoOne(d, full[k]), full, from)
    ensures k + 1 <= TailPeek(RedoOne(d, full[k])) && TailPeek(d) <= TailPeek(RedoOne(d, full[k]))
  {
    var m := TailPeek(d);
    HoldsSome(d, full, from);
    InOrderRange(full, from, m);
    assert full[k].partitionLsn == k + 1;
    RedoOneStep(d, full[from..m], full[k]);
    if k == m {
      HoldsNext(d, RedoOne(d, full[k]), full, from, m);
    }
  }

  lemma HoldsNext(d: Dir, e: Dir, full: seq<Header>, from: nat, m: nat)
    requires InOrder(full) && from <= m < |full| && NonEmpty(e) == Split(full[from..m] + [full[m]])
    ensures TailPeek(e) == m + 1 && Holds(e, full, from)
  {
    assert full[from..m] + [full[m]] == full[from..m + 1];
    InOrderRange(full, from, m + 1);
    TailPeekOrdered(e, full[from..m + 1]);
  }

  lemma RedoOther(wk: Worker, h: Header, pid: nat)
    ensures DirOf(RedoInto(wk, h).disk, pid)
         == if pid == h.partitionId then RedoOne(DirOf(wk.disk, pid), h) else DirOf(wk.disk, pid)
  {
  }

  // What replay has done for one partition when it has come to position n.
  ghost predicate Replayed(disk: map<nat, Dir>, wal: seq<WalRec>, base: map<nat, nat>, cleaned: map<nat, nat>, n: nat, pid: nat)
    requires n <= |wal|
  {
    HeldOne(disk, wal, base, cleaned, pid) && OnDiskOne(disk, wal, base, n, pid) && OldCovered(disk, wal, base, n, pid)
  }

  lemma ReplayNext(wk: Worker, wal: seq<WalRec>, base: map<nat, nat>, cleaned: map<nat, nat>, i: nat, h: Header)
    requires i < |wal| && wal[i] == PartRec(h) && Replayed(wk.disk, wal, base, cleaned, i, h.partitionId)
    requires InOrder(LogUpTo(wal, base, |wal|, h.partitionId)) && !IsOld(wal, base, i, h.partitionId)
    ensures var pid := h.partitionId;
            var disk := RedoInto(wk, h).disk;
            && Replayed(disk, wal, base, cleaned, i + 1, pid)
            && TailPeek(DirOf(wk.disk, pid)) <= TailPeek(DirOf(disk, pid))
  {
    var pid := h.partitionId;
    IndexInLog(wal, base, i, pid);
    RedoOther(wk, h, pid);
    RedoDir(DirOf(wk.disk, pid), LogUpTo(wal, base, |wal|, pid), CountOf(cleaned, pid), |LogUpTo(wal, base, i, pid)|);
    CoveredStays(wk.disk, RedoInto(wk, h).disk, wal, base, i, i + 1, pid);
  }

  lemma IndexInLog(wal: seq<WalRec>, base: map<nat, nat>, i: nat, pid: nat)
    requires i < |wal| && wal[i].PartRec? && wal[i].h.partitionId == pid && CountOf(base, pid) <= |PartLog(wal[..i], pid)|
    ensures var k, full := |LogUpTo(wal, base, i, pid)|, LogUpTo(wal, base, |wal|, pid);
            k < |full| && full[k] == wal[i].h && |LogUpTo(wal, base, i + 1, pid)| == k + 1
  {
    LogAt(wal, base, i, pid);
    LogGrows(wal, base, i + 1, |wal|, pid);
  }

  // A record from before the reset, below the watermark, is skipped.
  lemma ReplayOld(wk: Worker, wal: seq<WalRec>, base: map<nat, nat>, cleaned: map<nat, nat>, i: nat, pid: nat)
    requires IsOld(wal, base, i, pid) && Replayed(wk.disk, wal, base, cleaned, i, pid)
    ensures var disk := RedoInto(wk, wal[i].h).disk;
            Replayed(disk, wal, base, cleaned, i + 1, pid) && DirOf(disk, pid) == DirOf(wk.disk, pid)
  {
    RedoOther(wk, wal[i].h, pid);
    PartLogAt(wal, i, pid);
    CoveredStays(wk.disk, RedoInto(wk, wal[i].h).disk, wal, base, i, i + 1, pid);
  }

  lemma CoveredStays(disk: map<nat, Dir>, after: map<nat, Dir>, wal: seq<WalRec>, base: map<nat, nat>, n: nat, m: nat, pid: nat)
    requires n <= m && OldCovered(disk, wal, base, n, pid)
    requires TailPeek(DirOf(disk, pid)) <= TailPeek(DirOf(after, pid))
    ensures OldCovered(after, wal, base, m, pid)
  {
  }

  lemma ReplayOther(disk: map<nat, Dir>, after: map<nat, Dir>, wal: seq<WalRec>, base: map<nat, nat>,
                    cleaned: map<nat, nat>, i: nat, pid: nat)
    requires i < |wal| && Replayed(disk, wal, base, cleaned, i, pid) && DirOf(after, pid) == DirOf(disk, pid)
    requires !(wal[i].PartRec? && wal[i].h.partitionId == pid)
    ensures Replayed(after, wal, base, cleaned, i + 1, pid)
  {
    PartLogAt(wal, i, pid);
    CoveredStays(disk, after, wal, base, i, i + 1, pid);
  }

  lemma RecoveringFacts(s: State, pid: nat)
    requires Safe(s) && s.mode.Recovering?
    ensures s.mode.pos <= |s.wal| && Replayed(s.wk.disk, s.wal, s.base, s.cleaned, s.mode.pos, pid)
    ensures InOrder(LogUpTo(s.wal, s.base, |s.wal|, pid))
    ensures s.redoPtr <= |s.wal|
    ensures OnDiskOne(s.wk.disk, s.wal, s.base, s.redoPtr, pid) && OldCovered(s.wk.disk, s.wal, s.base, s.redoPtr, pid)
  {
    LogOfWhole(s.wal, s.base, pid);
    assert HeldOne(s.wk.disk, s.wal, s.base, s.cleaned, pid);
    assert InOrder(CurrentLog(s, pid));
    assert OnDiskOne(s.wk.disk, s.wal, s.base, s.mode.pos, pid);
  }

  lemma RedoPart(s: State, pid: nat)
    requires Safe(s) && Enabled(s, RedoRecord)
    ensures var disk := Next(s, RedoRecord).wk.disk;
            && Replayed(disk, s.wal, s.base, s.cleaned, s.mode.pos + 1, pid)
            && TailPeek(DirOf(s.wk.disk, pid)) <= TailPeek(DirOf(disk, pid))
  {
    RecoveringFacts(s, pid);
    RedoDisk(s);
    ReplayAny(s.wk, s.wal, s.base, s.cleaned, s.mode.pos, pid);
  }

  lemma RedoDisk(s: State)
    requires Enabled(s, RedoRecord)
    ensures var r := s.wal[s.mode.pos];
            Next(s, RedoRecord).wk.disk == (if r.PartRec? then RedoInto(s.wk, r.h) else s.wk).disk
  {
  }

  lemma ReplayAny(wk: Worker, wal: seq<WalRec>, base: map<nat, nat>, cleaned: map<nat, nat>, i: nat, pid: nat)
    requires i < |wal| && Replayed(wk.disk, wal, base, cleaned, i, pid) && InOrder(LogUpTo(wal, base, |wal|, pid))
    ensures var disk := (if wal[i].PartRec? then RedoInto(wk, wal[i].h) else wk).disk;
            && Replayed(disk, wal, base, cleaned, i + 1, pid)
            && TailPeek(DirOf(wk.disk, pid)) <= TailPeek(DirOf(disk, pid))
  {
    var r := wal[i];
    if IsOld(wal, base, i, pid) {
      ReplayOld(wk, wal, base, cleaned, i, pid);
    } else if r.PartRec? && r.h.partitionId == pid {
      ReplayNext(wk, wal, base, cleaned, i, r.h);
    } else if r.PartRec? {
      RedoOther(wk, r.h, pid);
      ReplayOther(wk.disk, RedoInto(wk, r.h).disk, wal, base, cleaned, i, pid);
    } else {
      ReplayOther(wk.disk, wk.disk, wal, base, cleaned, i, pid);
    }
  }

  lemma RedoAllParts(s: State)
    requires Safe(s) && Enabled(s, RedoRecord)
    ensures var disk := Next(s, RedoRecord).wk.disk;
            && HeldAll(disk, s.wal, s.base, s.cleaned) && Replayable(disk, s.wal, s.base, s.mode.pos + 1)
            && Replayable(disk, s.wal, s.base, s.redoPtr)
  {
    var disk, next := Next(s, RedoRecord).wk.disk, s.mode.pos + 1;
    forall pid
      ensures HeldOne(disk, s.wal, s.base, s.cleaned, pid)
    {
      RedoPart(s, pid);
    }
    forall pid
      ensures OnDiskOne(disk, s.wal, s.base, next, pid) && OldCovered(disk, s.wal, s.base, next, pid)
    {
      RedoPart(s, pid);
    }
    forall pid
      ensures OnDiskOne(disk, s.wal, s.base, s.redoPtr, pid) && OldCovered(disk, s.wal, s.base, s.redoPtr, pid)
    {
      RedoPart(s, pid);
      RecoveringFacts(s, pid);
      CoveredStays(s.wk.disk, disk, s.wal, s.base, s.redoPtr, s.redoPtr, pid);
    }
  }

  // Nobody allocates during recovery.
  lemma IdleAllocGood(s: State)
    requires s.alloc == map[] && s.backends == map[] && s.issued.Keys == s.alloc.Keys
    ensures AllocGood(s)
  {
  }

  lemma RedoKeeps(s: State)
    requires Safe(s) && Enabled(s, RedoRecord)
    ensures Safe(Next(s, RedoRecord))
  {
    var t := Next(s, RedoRecord);
    RedoAllParts(s);
    IdleAllocGood(t);
    assert t.wal == s.wal && t.base == s.base && t.mode == Recovering(s.mode.pos + 1);
  }

  // After the last record the disk holds every log as a whole.
  lemma RecoveredOne(s: State, pid: nat)
    requires Safe(s) && Enabled(s, FinishRecovery)
    ensures TailPeek(DirOf(s.wk.disk, pid)) == |CurrentLog(s, pid)|
    ensures Holds(DirOf(s.wk.disk, pid), CurrentLog(s, pid), CountOf(s.cleaned, pid)) && InOrder(CurrentLog(s, pid))
  {
    LogOfWhole(s.wal, s.base, pid);
    assert HeldOne(s.wk.disk, s.wal, s.base, s.cleaned, pid);
    assert OnDiskOne(s.wk.disk, s.wal, s.base, |s.wal|, pid);
  }

  lemma FinishKeeps(s: State)
    requires Safe(s) && Enabled(s, FinishRecovery)
    ensures Safe(Next(s, FinishRecovery))
  {
    var t := Next(s, FinishRecovery);
    ProgressStep(s, FinishRecovery);
    IdleAllocGood(t);
    forall pid
      ensures RunningGood(t, pid) && ClaimedOrWhole(t, pid)
    {
      FinishOne(s, pid);
    }
    SafeWhenGood(t);
  }

  lemma FinishOne(s: State, pid: nat)
    requires Safe(s) && Enabled(s, FinishRecovery)
    ensures var t := Next(s, FinishRecovery); RunningGood(t, pid) && ClaimedOrWhole(t, pid)
  {
    RecoveredOne(s, pid);
    LogOfWhole(s.wal, s.base, pid);
    assert s.wal[..|s.wal|] == s.wal;
  }

  // ---- reset ----

  // The base of a reset counts every record of the partition; the worker has read them all.
  lemma ResetBase(s: State, pid: nat, n: nat)
    requires s.readPos <= n <= |s.wal| && PartLog(s.wal[s.readPos..], pid) == []
    ensures |PartLog(s.wal[..n], pid)| == |PartLog(s.wal, pid)|
    ensures LogUpTo(s.wal, s.base[pid := |PartLog(s.wal, pid)|], n, pid) == []
  {
    PartLogPrefix(s.wal, s.readPos, pid);
    LogGrows(s.wal, s.base, s.readPos, n, pid);
    LogGrows(s.wal, s.base, n, |s.wal|, pid);
    assert s.wal[..|s.wal|] == s.wal;
  }

  // What a running server owes one partition, its share of the allocator apart.
  ghost predicate RunningGood(t: State, pid: nat) {
    && t.readPos <= |t.wal|
    && Follows(ViewOf(t.wk, pid), LogUpTo(t.wal, t.base, t.readPos, pid), CountOf(t.cleaned, pid))
    && CountOf(t.base, pid) <= |PartLog(t.wal[..t.readPos], pid)|
    && InOrder(CurrentLog(t, pid))
  }

  lemma ResetLogs(s: State, pid: nat)
    requires Safe(s) && Enabled(s, Reset(pid)) && Regular(s, Reset(pid))
    ensures var t := Next(s, Reset(pid));
            && CurrentLog(t, pid) == []
            && LogUpTo(t.wal, t.base, t.readPos, pid) == []
            && CountOf(t.base, pid) <= |PartLog(t.wal[..t.readPos], pid)|
  {
    ResetBase(s, pid, s.readPos);
    ResetBase(s, pid, |s.wal|);
    LogOfWhole(s.wal, s.base[pid := |PartLog(s.wal, pid)|], pid);
  }

  lemma ResetEmpties(v: View, l: seq<Header>, from: nat)
    requires Follows(v, l, from)
    ensures Emptied(ResetView(v))
  {
  }

  lemma ResetOwn(s: State, pid: nat)
    requires Safe(s) && Enabled(s, Reset(pid)) && Regular(s, Reset(pid))
    ensures var t := Next(s, Reset(pid));
            RunningGood(t, pid) && CurrentLog(t, pid) == [] && Emptied(ViewOf(t.wk, pid))
  {
    ResetViews(s.wk, pid, pid);
    assert Follows(ViewOf(s.wk, pid), LogUpTo(s.wal, s.base, s.readPos, pid), CountOf(s.cleaned, pid));
    ResetEmpties(ViewOf(s.wk, pid), LogUpTo(s.wal, s.base, s.readPos, pid), CountOf(s.cleaned, pid));
    ResetLogs(s, pid);
  }

  lemma ResetOther(s: State, pid: nat, other: nat)
    requires Safe(s) && Enabled(s, Reset(pid)) && other != pid
    ensures var t := Next(s, Reset(pid));
            && RunningGood(t, other) && CurrentLog(t, other) == CurrentLog(s, other)
            && DirOf(t.wk.disk, other) == DirOf(s.wk.disk, other)
  {
    RunningFacts(s, other);
    OtherGood(s, pid, other);
  }

  lemma OtherGood(s: State, pid: nat, other: nat)
    requires s.mode.Running? && DistinctSlots(s.wk.slots) && RunningGood(s, other) && other != pid
    ensures var t := Next(s, Reset(pid));
            && RunningGood(t, other) && CurrentLog(t, other) == CurrentLog(s, other)
            && DirOf(t.wk.disk, other) == DirOf(s.wk.disk, other)
  {
    ResetViews(s.wk, pid, other);
    OtherCounts(s, pid, other);
  }

  lemma OtherCounts(s: State, pid: nat, other: nat)
    requires s.mode.Running? && other != pid
    ensures var t := Next(s, Reset(pid));
            && CountOf(t.base, other) == CountOf(s.base, other) && CountOf(t.cleaned, other) == CountOf(s.cleaned, other)
            && t.wal == s.wal && t.readPos == s.readPos && t.redoPtr == s.redoPtr
  {
  }

  lemma ResetOne(s: State, pid: nat, other: nat)
    requires Safe(s) && Enabled(s, Reset(pid)) && Regular(s, Reset(pid))
    ensures var t := Next(s, Reset(pid));
            && RunningGood(t, other)
            && CurrentLog(t, other) == (if other == pid then [] else CurrentLog(s, other))
            && (other == pid ==> DirOf(t.wk.disk, pid) == map[])
            && (other != pid ==> DirOf(t.wk.disk, other) == DirOf(s.wk.disk, other))
  {
    if other == pid {
      ResetOwn(s, pid);
    } else {
      ResetOther(s, pid, other);
    }
  }

  lemma ResetAllocGood(s: State, pid: nat)
    requires Safe(s) && Enabled(s, Reset(pid)) && Regular(s, Reset(pid))
    ensures AllocGood(Next(s, Reset(pid)))
  {
    var t := Next(s, Reset(pid));
    assert t.alloc.Keys == s.alloc.Keys - {pid} && t.issued.Keys == s.issued.Keys - {pid};
    forall b | b in t.backends
      ensures BackendGood(t, t.backends[b])
    {
      assert BackendGood(s, s.backends[b]);
      ResetOne(s, pid, t.backends[b].pid);
    }
    forall p | p in t.alloc
      ensures EntryGood(t.issued[p], t.alloc[p], |CurrentLog(t, p)|)
    {
      assert EntryGood(s.issued[p], s.alloc[p], |CurrentLog(s, p)|);
      ResetOther(s, pid, p);
    }
  }

  lemma ResetKeeps(s: State, pid: nat)
    requires Safe(s) && Enabled(s, Reset(pid)) && Regular(s, Reset(pid))
    ensures Safe(Next(s, Reset(pid)))
  {
    ResetAllocGood(s, pid);
    ResetShape(s, pid);
    forall other
      ensures RunningGood(Next(s, Reset(pid)), other) && ClaimedOrWhole(Next(s, Reset(pid)), other)
    {
      ResetWhole(s, pid, other);
    }
    SafeWhenGood(Next(s, Reset(pid)));
  }

  lemma ResetShape(s: State, pid: nat)
    requires Safe(s) && Enabled(s, Reset(pid))
    ensures var t := Next(s, Reset(pid));
            Ordered(t) && t.mode.Running? && DistinctSlots(t.wk.slots) && Positive(t.wal)
  {
    ResetViews(s.wk, pid, pid);
  }

  ghost predicate ClaimedOrWhole(t: State, pid: nat) {
    pid !in t.alloc ==> TailPeek(DirOf(t.wk.disk, pid)) == |CurrentLog(t, pid)|
  }

  lemma ResetWhole(s: State, pid: nat, other: nat)
    requires Safe(s) && Enabled(s, Reset(pid)) && Regular(s, Reset(pid))
    ensures RunningGood(Next(s, Reset(pid)), other) && ClaimedOrWhole(Next(s, Reset(pid)), other)
  {
    ResetOne(s, pid, other);
    assert TailPeek(map[]) == 0;
  }

  lemma SafeWhenGood(t: State)
    requires forall pid :: RunningGood(t, pid) && ClaimedOrWhole(t, pid)
    requires Ordered(t) && t.mode.Running? && DistinctSlots(t.wk.slots) && Positive(t.wal) && AllocGood(t)
    ensures Safe(t)
  {
    LogsWhenGood(t);
    assert Reflects(t.wk, t.wal, t.base, t.cleaned, t.readPos) by {
      forall pid
        ensures Follows(ViewOf(t.wk, pid), LogUpTo(t.wal, t.base, t.readPos, pid), CountOf(t.cleaned, pid))
      {
        assert RunningGood(t, pid);
      }
    }
    assert Unclaimed(t) by {
      forall pid | pid !in t.alloc
        ensures TailPeek(DirOf(t.wk.disk, pid)) == |CurrentLog(t, pid)|
      {
        assert ClaimedOrWhole(t, pid);
      }
    }
  }

  lemma LogsWhenGood(t: State)
    requires forall pid :: RunningGood(t, pid)
    ensures t.readPos <= |t.wal| && WalGood(t.wal, t.base) && FitsAt(t.wal, t.base, t.readPos)
  {
    assert RunningGood(t, 0);
    forall pid
      ensures InOrder(Drop(PartLog(t.wal, pid), CountOf(t.base, pid)))
      ensures CountOf(t.base, pid) <= |PartLog(t.wal[..t.readPos], pid)|
    {
      assert RunningGood(t, pid);
    }
  }

  // ---- cleanup ----

  // What a step that touches one partition's files must leave for each partition.
  ghost predicate FilesGood(s: State, t: State, pid: nat) {
    && t.readPos <= |t.wal|
    && Follows(ViewOf(t.wk, pid), LogUpTo(t.wal, t.base, t.readPos, pid), CountOf(t.cleaned, pid))
    && TailPeek(DirOf(t.wk.disk, pid)) == TailPeek(DirOf(s.wk.disk, pid))
  }

  lemma CleanupOne(s: State, pid: nat, keepPtr: nat, other: nat)
    requires Safe(s) && Enabled(s, Cleanup(pid, keepPtr)) && Regular(s, Cleanup(pid, keepPtr))
    ensures FilesGood(s, Next(s, Cleanup(pid, keepPtr)), other)
  {
    RunningFacts(s, other);
    if other == pid {
      CleanupOwn(s, pid, keepPtr);
    } else {
      CleanViews(s.wk, pid, keepPtr, other);
      assert CountOf(Next(s, Cleanup(pid, keepPtr)).cleaned, other) == CountOf(s.cleaned, other);
    }
  }

  lemma CleanupOwn(s: State, pid: nat, keepPtr: nat)
    requires s.mode.Running? && DistinctSlots(s.wk.slots) && s.readPos <= |s.wal|
    requires Follows(ViewOf(s.wk, pid), LogUpTo(s.wal, s.base, s.readPos, pid), CountOf(s.cleaned, pid))
    requires CleanKeeps(ViewOf(s.wk, pid), keepPtr)
    ensures FilesGood(s, Next(s, Cleanup(pid, keepPtr)), pid)
  {
    CleanViews(s.wk, pid, keepPtr, pid);
    var v, l := ViewOf(s.wk, pid), LogUpTo(s.wal, s.base, s.readPos, pid);
    var after := FollowsClean(v, l, CountOf(s.cleaned, pid), keepPtr);
    assert CountOf(Next(s, Cleanup(pid, keepPtr)).cleaned, pid) == after;
  }

  lemma CleanupKeeps(s: State, pid: nat, keepPtr: nat)
    requires Safe(s) && Enabled(s, Cleanup(pid, keepPtr)) && Regular(s, Cleanup(pid, keepPtr))
    ensures Safe(Next(s, Cleanup(pid, keepPtr)))
  {
    forall other
      ensures FilesGood(s, Next(s, Cleanup(pid, keepPtr)), other)
    {
      CleanupOne(s, pid, keepPtr, other);
    }
    CleanViews(s.wk, pid, keepPtr, pid);
    FilesKeep(s, Next(s, Cleanup(pid, keepPtr)));
  }

  lemma FilesKeep(s: State, t: State)
    requires Safe(s) && s.mode.Running? && t == s.(wk := t.wk, cleaned := t.cleaned) && DistinctSlots(t.wk.slots)
    requires forall pid :: FilesGood(s, t, pid)
    ensures Safe(t)
  {
    forall pid
      ensures Follows(ViewOf(t.wk, pid), LogUpTo(t.wal, t.base, t.readPos, pid), CountOf(t.cleaned, pid))
      ensures pid !in t.alloc ==> TailPeek(DirOf(t.wk.disk, pid)) == |CurrentLog(t, pid)|
    {
      assert FilesGood(s, t, pid);
    }
    SameAlloc(s, t);
  }

  // The allocator's part depends on neither files nor worker.
  lemma SameAlloc(s: State, t: State)
    requires AllocGood(s) && t.wal == s.wal && t.base == s.base && t.flushed == s.flushed
    requires t.alloc == s.alloc && t.issued == s.issued && t.backends == s.backends
    ensures AllocGood(t)
  {
    forall b | b in t.backends
      ensures BackendGood(t, t.backends[b])
    {
      assert BackendGood(s, s.backends[b]);
    }
    forall pid | pid in t.alloc
      ensures EntryGood(t.issued[pid], t.alloc[pid], |CurrentLog(t, pid)|)
    {
      assert EntryGood(s.issued[pid], s.alloc[pid], |CurrentLog(s, pid)|);
    }
  }

  // ---- the allocator ----

  lemma BackendChange(s: State, b: nat, k: Backend)
    requires AllocGood(s) && !k.Holding? && BackendGood(s, k)
    ensures AllocGood(s.(backends := s.backends[b := k]))
  {
    var t := s.(backends := s.backends[b := k]);
    forall x | x in t.backends
      ensures BackendGood(t, t.backends[x])
    {
      assert x != b ==> BackendGood(s, s.backends[x]);
    }
  }

  lemma AbortGood(s: State, b: nat)
    requires AllocGood(s)
    ensures AllocGood(s.(backends := s.backends - {b}))
  {
    var t := s.(backends := s.backends - {b});
    forall x | x in t.backends
      ensures BackendGood(t, t.backends[x])
    {
      assert BackendGood(s, s.backends[x]);
    }
  }

  lemma IssueNext(issued: seq<nat>, next: nat, n: nat)
    requires EntryGood(issued, next, n)
    ensures EntryGood(issued + [next], next + 1, n)
  {
  }

  lemma EnterEntries(s: State, b: nat)
    requires AllocGood(s) && Enabled(s, Enter(b))
    ensures var t := Next(s, Enter(b));
            && t.alloc.Keys == t.issued.Keys
            && forall pid :: pid in t.alloc ==> EntryGood(t.issued[pid], t.alloc[pid], |CurrentLog(t, pid)|)
  {
    var t := Next(s, Enter(b));
    var p := s.backends[b].pid;
    assert t.alloc.Keys == s.alloc.Keys + {p} && t.issued.Keys == s.issued.Keys + {p};
    EnterOwn(s, b);
    forall pid | pid in t.alloc
      ensures EntryGood(t.issued[pid], t.alloc[pid], |CurrentLog(t, pid)|)
    {
      if pid != p {
        assert EntryGood(s.issued[pid], s.alloc[pid], |CurrentLog(s, pid)|);
        assert CurrentLog(t, pid) == CurrentLog(s, pid);
      }
    }
  }

  lemma EnterOwn(s: State, b: nat)
    requires AllocGood(s) && Enabled(s, Enter(b))
    ensures var t, p := Next(s, Enter(b)), s.backends[b].pid;
            p in t.alloc && p in t.issued && EntryGood(t.issued[p], t.alloc[p], |CurrentLog(t, p)|)
  {
    var p := s.backends[b].pid;
    assert BackendGood(s, s.backends[b]);
    assert CurrentLog(Next(s, Enter(b)), p) == CurrentLog(s, p);
    if p in s.alloc {
      IssueNext(s.issued[p], s.alloc[p], |CurrentLog(s, p)|);
    }
  }

  lemma EnterGood(s: State, b: nat)
    requires AllocGood(s) && Enabled(s, Enter(b))
    ensures AllocGood(Next(s, Enter(b)))
  {
    EnterEntries(s, b);
    EnterBackends(s, b);
  }

  lemma EnterBackends(s: State, b: nat)
    requires AllocGood(s) && Enabled(s, Enter(b))
    ensures var t := Next(s, Enter(b));
            (forall x :: x in t.backends ==> BackendGood(t, t.backends[x])) && HoldersDiffer(t.backends)
  {
    var t := Next(s, Enter(b));
    assert BackendGood(s, s.backends[b]);
    forall x | x in t.backends
      ensures BackendGood(t, t.backends[x])
      ensures x != b && t.backends[x].Holding? && t.backends[x].pid == t.backends[b].pid
        ==> t.backends[x].lsn != t.backends[b].lsn
    {
      assert CurrentLog(t, t.backends[x].pid) == CurrentLog(s, t.backends[x].pid);
      assert BackendGood(s, s.backends[x]);
    }
  }

  lemma BackendStepKeeps(s: State, step: Step)
    requires Safe(s) && Enabled(s, step)
    requires step.Look? || step.Scan? || step.Enter? || step.Return? || step.Abort?
    ensures Safe(Next(s, step))
  {
    BackendStepGood(s, step);
    BackendStepShape(s, step);
  }

  lemma BackendStepGood(s: State, step: Step)
    requires AllocGood(s) && Enabled(s, step)
    requires step.Look? || step.Scan? || step.Enter? || step.Return? || step.Abort?
    requires step.Scan? ==> TailPeek(DirOf(s.wk.disk, s.backends[step.b].pid)) == |CurrentLog(s, s.backends[step.b].pid)|
                            || s.backends[step.b].pid in s.alloc
    ensures AllocGood(Next(s, step))
  {
    if step.Enter? {
      EnterGood(s, step.b);
    } else if step.Abort? {
      AbortGood(s, step.b);
    } else {
      if !step.Look? {
        assert BackendGood(s, s.backends[step.b]);
      }
      BackendChange(s, step.b, Next(s, step).backends[step.b]);
    }
  }

  // A backend's own step leaves everything but the allocator and the backends alone.
  lemma BackendStepShape(s: State, step: Step)
    requires Enabled(s, step)
    requires step.Look? || step.Scan? || step.Enter? || step.Return? || step.Abort?
    ensures var t := Next(s, step);
            t == s.(alloc := t.alloc, issued := t.issued, backends := t.backends) && s.alloc.Keys <= t.alloc.Keys
  {
  }

  lemma PointerStepKeeps(s: State, step: Step)
    requires Safe(s) && Enabled(s, step) && Regular(s, step)
    requires step.FlushWal? || step.SaveProgress? || step.Checkpoint?
    ensures Safe(Next(s, step))
  {
    PointerStepGood(s, Next(s, step));
  }

  lemma PointerStepGood(s: State, t: State)
    requires AllocGood(s) && s.flushed <= t.flushed
    requires t.wal == s.wal && t.base == s.base && t.alloc == s.alloc && t.issued == s.issued && t.backends == s.backends
    ensures AllocGood(t)
  {
    assert forall pid :: CurrentLog(t, pid) == CurrentLog(s, pid);
    forall b | b in t.backends
      ensures BackendGood(t, t.backends[b])
    {
      assert BackendGood(s, s.backends[b]);
    }
  }

  lemma SafeStep(s: State, step: Step)
    requires Safe(s) && Enabled(s, step) && Disciplined(s, step)
    ensures Safe(Next(s, step))
  {
    if step.ReadRecord? {
      ReadKeeps(s, step.io, step.create);
    } else if step.Crash? {
      CrashKeeps(s, step.keep);
    } else if step.RedoRecord? {
      RedoKeeps(s);
    } else if step.FinishRecovery? {
      FinishKeeps(s);
    } else if step.Reset? {
      ResetKeeps(s, step.pid);
    } else if step.Cleanup? {
      CleanupKeeps(s, step.pid, step.keepPtr);
    } else if step.CaughtUp? || step.SkipTo? || step.RestartWorker? || step.CleanRestart? {
      WorkerStepKeeps(s, step);
    } else {
      ServerStepKeeps(s, step);
    }
  }

  // The steps by which the worker waits, skips or starts again.
  lemma WorkerStepKeeps(s: State, step: Step)
    requires Safe(s) && Enabled(s, step) && Disciplined(s, step)
    requires step.CaughtUp? || step.SkipTo? || step.RestartWorker? || step.CleanRestart?
    ensures Safe(Next(s, step))
  {
    match step {
      case CaughtUp(bad) => CaughtUpKeeps(s, bad);
      case SkipTo(pos) => SkipKeeps(s, pos);
      case RestartWorker => RestartKeeps(s);
      case CleanRestart(bad) => CleanRestartKeeps(s, bad);
    }
  }

  // The steps of backends and checkpoints.
  lemma ServerStepKeeps(s: State, step: Step)
    requires Safe(s) && Enabled(s, step) && Disciplined(s, step)
    requires step.Insert? || step.InsertOther? || step.FlushWal? || step.SaveProgress? || step.Checkpoint?
             || step.Look? || step.Scan? || step.Enter? || step.Return? || step.Abort?
    ensures Safe(Next(s, step))
  {
    match step {
      case Insert(_, _, _) => InsertKeeps(s, step);
      case InsertOther => InsertOtherKeeps(s);
      case FlushWal(_) => PointerStepKeeps(s, step);
      case SaveProgress => PointerStepKeeps(s, step);
      case Checkpoint(_) => PointerStepKeeps(s, step);
      case _ => BackendStepKeeps(s, step);
    }
  }

  lemma {:induction false} SafeRun(s: State, steps: seq<Step>)
    requires Safe(s) && Runs(s, steps) && DisciplinedRun(s, steps)
    ensures Safe(Run(s, steps))
    decreases |steps|
  {
    if steps != [] {
      SafeStep(s, steps[0]);
      SafeRun(Next(s, steps[0]), steps[1..]);
    }
  }
}
