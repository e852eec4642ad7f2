/** The barrier, one partition at a time: once last_processed_lsn has reached the flush point
    of demux_flush, the records written before it are in their files, whatever numbers were
    given up on the way.  All the partition needs is that its own WAL order is LSN order, and
    that its own records are read and accepted; the other partitions may suffer anything. */
module PartitionBarrier {
  import opened Header
  import opened SegmentDir
  import opened WriterSpec
  import opened SegmentCleanup
  import opened Demux
  import opened InStep
  import opened InTurn
  import opened Machine
  import SessionSafety
  import CrashSafety

  // ---- what is asked of each step ----

  predicate IsOwn(r: WalRec, pid: nat) {
    r.PartRec? && r.h.partitionId == pid
  }

  // The partition's records between two WAL positions.
  function Between(s: State, i: nat, j: nat, pid: nat): seq<Header> {
    if i <= j <= |s.wal| then PartLog(s.wal[i..j], pid) else []
  }

  function Unread(s: State, pid: nat): seq<Header> {
    Between(s, s.readPos, |s.wal|, pid)
  }

  // `acc` is what the partition's files and buffer should hold.
  ghost predicate Steady(s: State, step: Step, acc: seq<Header>, pid: nat)
    requires Enabled(s, step)
  {
    var v := ViewOf(s.wk, pid);
    match step
    // WAL order is LSN order; after a reset under an old writer numbers start at 1.
    case Insert(b, _, _) =>
      s.backends[b].pid == pid ==>
        && s.backends[b].lsn > LastLsn(acc + Unread(s, pid))
        && (acc + Unread(s, pid) == [] && Stale(v) ==> s.backends[b].lsn == 1)
    // There is a writer for the partition's record, and its write is not refused.
    case ReadRecord(io, create) =>
      IsOwn(s.wal[s.readPos], pid) ==>
        create && (v.slot.Some? || |s.wk.slots| < MAX_PARTITIONS) && Accepts(v, s.wal[s.readPos].h, io)
    // The reader passes over none of its records.
    case SkipTo(pos) => Between(s, s.readPos, pos, pid) == []
    case RestartWorker => Between(s, s.readPos, s.flushed, pid) == [] && Drained(v) && SegMonotone(acc)
    case CleanRestart(bad) => Unread(s, pid) == [] && Drained(ViewOf(FlushAll(s.wk, bad), pid)) && SegMonotone(acc)
    // Replay starts at or before the first record the files lack, and the older ones it
    // meets are covered by the watermark.
    case Crash(keep) =>
      s.mode.Running? ==>
        var all := acc + Between(s, s.readPos, keep, pid);
        SegMonotone(all) && Resumes(Between(s, s.redoPtr, keep, pid), all, |Written(v, acc)|)
    case Reset(p) => p == pid ==> Unread(s, pid) == []
    case Cleanup(p, keepPtr) =>
      p == pid ==>
        && SessionSafety.LeavesOpen(v, keepPtr)
        && (acc != [] ==> Survives(SegOf(acc[|acc| - 1]), keepPtr))
    case _ => true
  }

  ghost function AccNext(s: State, step: Step, acc: seq<Header>, pid: nat): seq<Header>
    requires Enabled(s, step)
  {
    if step.ReadRecord? && IsOwn(s.wal[s.readPos], pid) then acc + [s.wal[s.readPos].h]
    else if step.Reset? && step.pid == pid then []
    else if step.Cleanup? && step.pid == pid then Kept(acc, step.keepPtr)
    else if step.Crash? && s.mode.Running? then acc + Between(s, s.readPos, step.keep, pid)
    else acc
  }

  ghost predicate SteadyRun(s: State, steps: seq<Step>, acc: seq<Header>, pid: nat)
    requires Runs(s, steps)
    decreases |steps|
  {
    steps == [] || (Steady(s, steps[0], acc, pid)
                    && SteadyRun(Next(s, steps[0]), steps[1..], AccNext(s, steps[0], acc, pid), pid))
  }

  ghost function AccRun(s: State, steps: seq<Step>, acc: seq<Header>, pid: nat): seq<Header>
    requires Runs(s, steps)
    decreases |steps|
  {
    if steps == [] then acc else AccRun(Next(s, steps[0]), steps[1..], AccNext(s, steps[0], acc, pid), pid)
  }

  // ---- the invariant of one partition ----

  ghost predicate Coming(v: View, acc: seq<Header>, unread: seq<Header>) {
    Increasing(acc + unread) && (acc == [] && Stale(v) && unread != [] ==> unread[0].partitionLsn == 1)
  }

  ghost predicate InPlace(s: State, acc: seq<Header>, pid: nat) {
    && Ordered(s)
    && match s.mode
       case Running =>
         && DistinctSlots(s.wk.slots)
         && Placed(ViewOf(s.wk, pid), acc) && Coming(ViewOf(s.wk, pid), acc, Unread(s, pid))
       case Recovering(pos) =>
         && s.wk.slots == []
         && exists m :: Restoring(DirOf(s.wk.disk, pid), acc, Between(s, pos, |s.wal|, pid), Between(s, s.redoPtr, |s.wal|, pid), m)
  }

  lemma BootedInPlace(s: State, boot: map<nat, seq<Header>>, pid: nat)
    requires SessionSafety.Booted(s, boot)
    ensures InPlace(s, SessionSafety.LogFor(boot, pid), pid)
  {
    AllInFiles(s, SessionSafety.LogFor(boot, pid), pid);
  }

  // A server that has just come up, with nothing left to read.
  lemma AllInFiles(s: State, acc: seq<Header>, pid: nat)
    requires Ordered(s) && s.mode.Running? && s.wk.slots == [] && s.readPos == |s.wal| && InFiles(DirOf(s.wk.disk, pid), acc)
    ensures InPlace(s, acc, pid)
  {
    assert s.wal[|s.wal|..] == [];
    assert acc + [] == acc;
  }

  // ---- the WAL ----

  lemma BetweenSplit(s: State, i: nat, j: nat, k: nat, pid: nat)
    requires i <= j <= k <= |s.wal|
    ensures Between(s, i, k, pid) == Between(s, i, j, pid) + Between(s, j, k, pid)
  {
    assert s.wal[i..k] == s.wal[i..j] + s.wal[j..k];
    PartLogConcat(s.wal[i..j], s.wal[j..k], pid);
  }

  lemma BetweenOne(s: State, i: nat, k: nat, pid: nat)
    requires i < k <= |s.wal|
    ensures Between(s, i, k, pid) == (if IsOwn(s.wal[i], pid) then [s.wal[i].h] else []) + Between(s, i + 1, k, pid)
  {
    BetweenSplit(s, i, i + 1, k, pid);
    PartLogAt(s.wal[i..i + 1], 0, pid);
    assert s.wal[i..i + 1][..1] == s.wal[i..i + 1] && s.wal[i..i + 1][..0] == [];
  }

  lemma BetweenSame(s: State, t: State, i: nat, j: nat, pid: nat)
    requires i <= j <= |s.wal| && j <= |t.wal| && s.wal[..j] == t.wal[..j]
    ensures Between(t, i, j, pid) == Between(s, i, j, pid)
  {
    assert s.wal[i..j] == s.wal[..j][i..] == t.wal[..j][i..] == t.wal[i..j];
  }

  lemma InBetween(s: State, i: nat, j: nat, pos: nat, pid: nat)
    requires i <= pos < j <= |s.wal| && IsOwn(s.wal[pos], pid)
    ensures s.wal[pos].h in Between(s, i, j, pid)
  {
    PartLogMember(s.wal[i..j], pos - i);
  }

  // The next insertion joins what is still to be read.
  lemma UnreadGrows(s: State, t: State, r: WalRec, pid: nat)
    requires t.wal == s.wal + [r] && t.readPos == s.readPos <= |s.wal|
    ensures Unread(t, pid) == Unread(s, pid) + (if IsOwn(r, pid) then [r.h] else [])
  {
    BetweenSplit(t, s.readPos, |s.wal|, |t.wal|, pid);
    BetweenSame(s, t, s.readPos, |s.wal|, pid);
    BetweenOne(t, |s.wal|, |t.wal|, pid);
    assert t.wal[|t.wal|..] == [];
  }

  lemma ComingMore(v: View, acc: seq<Header>, unread: seq<Header>, h: Header)
    requires Coming(v, acc, unread) && h.partitionLsn > LastLsn(acc + unread)
    requires acc + unread == [] && Stale(v) ==> h.partitionLsn == 1
    ensures Coming(v, acc, unread + [h])
  {
    IncreasingExtend(acc + unread, h);
    assert acc + (unread + [h]) == (acc + unread) + [h];
  }

  // ---- the steps ----

  lemma InsertKeepsPlace(s: State, step: Step, acc: seq<Header>, pid: nat)
    requires Enabled(s, step) && (step.Insert? || step.InsertOther?) && Steady(s, step, acc, pid) && InPlace(s, acc, pid)
    ensures InPlace(Next(s, step), acc, pid)
  {
    var t := Next(s, step);
    ProgressStep(s, step);
    var r := t.wal[|s.wal|];
    UnreadGrows(s, t, r, pid);
    if IsOwn(r, pid) {
      ComingMore(ViewOf(s.wk, pid), acc, Unread(s, pid), r.h);
    } else {
      assert Unread(s, pid) + [] == Unread(s, pid);
    }
  }

  // What stays in place when neither worker nor WAL change.
  lemma SamePlace(s: State, t: State, acc: seq<Header>, pid: nat)
    requires InPlace(s, acc, pid) && Ordered(t) && s.mode.Running? && t.mode.Running?
    requires t.wk == s.wk && t.wal == s.wal && t.readPos == s.readPos
    ensures InPlace(t, acc, pid)
  {
  }

  lemma ComingNext(v: View, r: View, acc: seq<Header>, h: Header, rest: seq<Header>)
    requires Coming(v, acc, [h] + rest)
    ensures h.partitionLsn > LastLsn(acc) && (acc == [] && Stale(v) ==> h.partitionLsn == 1)
    ensures Coming(r, acc + [h], rest)
  {
    var l := acc + ([h] + rest);
    assert l == (acc + [h]) + rest && l[|acc|] == h;
    assert acc != [] ==> l[|acc| - 1] == acc[|acc| - 1];
  }

  lemma ReadKeepsPlace(s: State, io: Io, create: bool, acc: seq<Header>, pid: nat)
    requires Enabled(s, ReadRecord(io, create)) && Steady(s, ReadRecord(io, create), acc, pid) && InPlace(s, acc, pid)
    ensures InPlace(Next(s, ReadRecord(io, create)), AccNext(s, ReadRecord(io, create), acc, pid), pid)
  {
    var t, r := Next(s, ReadRecord(io, create)), s.wal[s.readPos];
    ReadShape(s, io, create, pid);
    if IsOwn(r, pid) {
      ReadOwn(s.wk, r.h, io, acc, Unread(t, pid), pid);
      StillRunning(t, acc + [r.h], pid);
    } else {
      StillRunning(t, acc, pid);
    }
  }

  lemma ReadShape(s: State, io: Io, create: bool, pid: nat)
    requires Enabled(s, ReadRecord(io, create)) && Ordered(s) && DistinctSlots(s.wk.slots)
    ensures var t, r := Next(s, ReadRecord(io, create)), s.wal[s.readPos];
            && Ordered(t) && t.mode.Running? && DistinctSlots(t.wk.slots)
            && (r.PartRec? ==> t.wk == Process(s.wk, r.h, io, create))
            && (!IsOwn(r, pid) ==> ViewOf(t.wk, pid) == ViewOf(s.wk, pid) && Unread(t, pid) == Unread(s, pid))
            && (IsOwn(r, pid) ==> Unread(s, pid) == [r.h] + Unread(t, pid))
  {
    var t, r := Next(s, ReadRecord(io, create)), s.wal[s.readPos];
    ProgressStep(s, ReadRecord(io, create));
    BetweenOne(s, s.readPos, |s.wal|, pid);
    BetweenSame(s, t, s.readPos + 1, |s.wal|, pid);
    if r.PartRec? {
      ProcessViews(s.wk, r.h, io, create, pid);
    }
  }

  lemma ReadOwn(wk: Worker, h: Header, io: Io, acc: seq<Header>, rest: seq<Header>, pid: nat)
    requires DistinctSlots(wk.slots) && h.partitionId == pid
    requires Placed(ViewOf(wk, pid), acc) && Coming(ViewOf(wk, pid), acc, [h] + rest)
    requires (ViewOf(wk, pid).slot.Some? || |wk.slots| < MAX_PARTITIONS) && Accepts(ViewOf(wk, pid), h, io)
    ensures var r := Process(wk, h, io, true);
            && DistinctSlots(r.slots) && Placed(ViewOf(r, pid), acc + [h]) && Coming(ViewOf(r, pid), acc + [h], rest)
            && (io.flush ==> Drained(ViewOf(r, pid)))
  {
    var v, r := ViewOf(wk, pid), Process(wk, h, io, true);
    ProcessViews(wk, h, io, true, pid);
    ComingNext(v, ViewOf(r, pid), acc, h, rest);
    PlacedRecord(v, acc, h, io, pid);
  }

  lemma FlushKeepsPlace(s: State, bad: set<nat>, acc: seq<Header>, pid: nat)
    requires Enabled(s, CaughtUp(bad)) && InPlace(s, acc, pid)
    ensures InPlace(Next(s, CaughtUp(bad)), acc, pid)
  {
    ProgressStep(s, CaughtUp(bad));
    FlushAllViews(s.wk, bad, pid);
    PlacedFlush(ViewOf(s.wk, pid), acc, bad, pid);
  }

  lemma SkipKeepsPlace(s: State, pos: nat, acc: seq<Header>, pid: nat)
    requires Enabled(s, SkipTo(pos)) && Steady(s, SkipTo(pos), acc, pid) && InPlace(s, acc, pid)
    ensures InPlace(Next(s, SkipTo(pos)), acc, pid)
  {
    ProgressStep(s, SkipTo(pos));
    BetweenSplit(s, s.readPos, pos, |s.wal|, pid);
    assert [] + Between(s, pos, |s.wal|, pid) == Between(s, pos, |s.wal|, pid);
  }

  lemma DropKeepsPlace(wk: Worker, acc: seq<Header>, pid: nat)
    requires Placed(ViewOf(wk, pid), acc) && Drained(ViewOf(wk, pid)) && SegMonotone(acc)
    ensures Placed(ViewOf(wk.(slots := []), pid), acc) && !Stale(ViewOf(wk.(slots := []), pid))
  {
    PlacedDrop(ViewOf(wk, pid), acc);
    assert ViewOf(wk.(slots := []), pid) == ViewOf(wk, pid).(slot := None);
  }

  lemma RestartKeepsPlace(s: State, acc: seq<Header>, pid: nat)
    requires Enabled(s, RestartWorker) && Steady(s, RestartWorker, acc, pid) && InPlace(s, acc, pid)
    ensures InPlace(Next(s, RestartWorker), acc, pid)
  {
    ProgressStep(s, RestartWorker);
    BetweenSplit(s, s.readPos, s.flushed, |s.wal|, pid);
    assert [] + Between(s, s.flushed, |s.wal|, pid) == Between(s, s.flushed, |s.wal|, pid);
    DropKeepsPlace(s.wk, acc, pid);
  }

  lemma CleanRestartKeepsPlace(s: State, bad: set<nat>, acc: seq<Header>, pid: nat)
    requires Enabled(s, CleanRestart(bad)) && Steady(s, CleanRestart(bad), acc, pid) && InPlace(s, acc, pid)
    ensures InPlace(Next(s, CleanRestart(bad)), acc, pid)
  {
    ProgressStep(s, CleanRestart(bad));
    FlushAllViews(s.wk, bad, pid);
    PlacedFlush(ViewOf(s.wk, pid), acc, bad, pid);
    DrainedInFiles(ViewOf(FlushAll(s.wk, bad), pid), acc);
    AllInFiles(Next(s, CleanRestart(bad)), acc, pid);
  }

  lemma DrainedInFiles(v: View, acc: seq<Header>)
    requires Placed(v, acc) && Drained(v) && SegMonotone(acc)
    ensures InFiles(v.dir, acc)
  {
    PlacedDrop(v, acc);
    assert NonEmpty(map[]) == Split([]);
  }

  lemma ResetKeepsPlace(s: State, p: nat, acc: seq<Header>, pid: nat)
    requires Enabled(s, Reset(p)) && Steady(s, Reset(p), acc, pid) && InPlace(s, acc, pid)
    ensures InPlace(Next(s, Reset(p)), AccNext(s, Reset(p), acc, pid), pid)
  {
    ProgressStep(s, Reset(p));
    ResetViews(s.wk, p, pid);
    PlacedReset(ViewOf(s.wk, pid), acc);
  }

  lemma StillRunning(t: State, acc: seq<Header>, pid: nat)
    requires Ordered(t) && t.mode.Running? && DistinctSlots(t.wk.slots)
    requires Placed(ViewOf(t.wk, pid), acc) && Coming(ViewOf(t.wk, pid), acc, Unread(t, pid))
    ensures InPlace(t, acc, pid)
  {
  }

  lemma CleanupShape(s: State, p: nat, keepPtr: nat, pid: nat)
    requires Enabled(s, Cleanup(p, keepPtr)) && Ordered(s) && DistinctSlots(s.wk.slots)
    ensures var t, v := Next(s, Cleanup(p, keepPtr)), ViewOf(s.wk, pid);
            && Ordered(t) && t.mode.Running? && DistinctSlots(t.wk.slots) && Unread(t, pid) == Unread(s, pid)
            && ViewOf(t.wk, pid) == if p == pid then CleanView(v, keepPtr) else v
  {
    ProgressStep(s, Cleanup(p, keepPtr));
    CleanViews(s.wk, p, keepPtr, pid);
  }

  lemma CleanupKeepsPlace(s: State, p: nat, keepPtr: nat, acc: seq<Header>, pid: nat)
    requires Enabled(s, Cleanup(p, keepPtr)) && Steady(s, Cleanup(p, keepPtr), acc, pid) && InPlace(s, acc, pid)
    ensures InPlace(Next(s, Cleanup(p, keepPtr)), AccNext(s, Cleanup(p, keepPtr), acc, pid), pid)
  {
    CleanupShape(s, p, keepPtr, pid);
    if p == pid {
      CleanOwn(ViewOf(s.wk, pid), acc, Unread(s, pid), keepPtr);
    }
    StillRunning(Next(s, Cleanup(p, keepPtr)), if p == pid then Kept(acc, keepPtr) else acc, pid);
  }

  lemma CleanOwn(v: View, acc: seq<Header>, unread: seq<Header>, keepPtr: nat)
    requires Placed(v, acc) && Coming(v, acc, unread) && SessionSafety.LeavesOpen(v, keepPtr)
    requires acc != [] ==> Survives(SegOf(acc[|acc| - 1]), keepPtr)
    ensures Placed(CleanView(v, keepPtr), Kept(acc, keepPtr)) && Coming(CleanView(v, keepPtr), Kept(acc, keepPtr), unread)
  {
    PlacedClean(v, acc, keepPtr);
    ComingAfterClean(v, acc, unread, keepPtr);
  }

  lemma ComingAfterClean(v: View, acc: seq<Header>, unread: seq<Header>, keepPtr: nat)
    requires Coming(v, acc, unread) && (acc != [] ==> Survives(SegOf(acc[|acc| - 1]), keepPtr))
    requires Stale(CleanView(v, keepPtr)) && Kept(acc, keepPtr) == [] ==> acc == [] && Stale(v)
    ensures Coming(CleanView(v, keepPtr), Kept(acc, keepPtr), unread)
  {
    var k := Kept(acc, keepPtr);
    IncreasingFront(acc, unread);
    KeptIncreasing(acc, keepPtr);
    KeptLast(acc, keepPtr);
    IncreasingJoin(acc, k, unread);
  }

  lemma IncreasingFront(a: seq<Header>, b: seq<Header>)
    requires Increasing(a + b)
    ensures Increasing(a)
  {
    assert forall i :: 0 <= i < |a| ==> (a + b)[i] == a[i];
  }

  // A sequence with the same end can take the place of the one before.
  lemma IncreasingJoin(a: seq<Header>, k: seq<Header>, b: seq<Header>)
    requires Increasing(a + b) && Increasing(k) && LastLsn(k) == LastLsn(a)
    ensures Increasing(k + b)
  {
    var l := k + b;
    forall i | 0 <= i < |b|
      ensures b[i].partitionLsn > LastLsn(a) && b[i].partitionLsn >= 1
      ensures forall j :: i < j < |b| ==> b[i].partitionLsn < b[j].partitionLsn
    {
      assert (a + b)[|a| + i] == b[i];
      assert a != [] ==> (a + b)[|a| - 1] == a[|a| - 1];
      assert forall j :: i < j < |b| ==> (a + b)[|a| + j] == b[j];
    }
    forall i | 0 <= i < |k|
      ensures k[i].partitionLsn <= LastLsn(k)
    {
    }
  }

  // ---- crash and recovery ----

  lemma OnItsWay(t: State, acc: seq<Header>, pid: nat, m: nat)
    requires Ordered(t) && t.mode.Recovering? && t.wk.slots == []
    requires Restoring(DirOf(t.wk.disk, pid), acc, Between(t, t.mode.pos, |t.wal|, pid), Between(t, t.redoPtr, |t.wal|, pid), m)
    ensures InPlace(t, acc, pid)
  {
  }

  lemma CrashShape(s: State, keep: nat, pid: nat)
    requires Enabled(s, Crash(keep)) && Ordered(s)
    ensures var t := Next(s, Crash(keep));
            && Ordered(t) && t.mode == Recovering(s.redoPtr) && t.redoPtr == s.redoPtr && t.wal == s.wal[..keep] && |t.wal| == keep
            && t.wk.slots == [] && DirOf(t.wk.disk, pid) == DirOf(s.wk.disk, pid)
            && Between(t, t.redoPtr, |t.wal|, pid) == Between(s, s.redoPtr, keep, pid)
  {
    ProgressStep(s, Crash(keep));
    BetweenSame(s, Next(s, Crash(keep)), s.redoPtr, keep, pid);
  }

  lemma CrashKeepsPlace(s: State, keep: nat, acc: seq<Header>, pid: nat)
    requires Enabled(s, Crash(keep)) && Steady(s, Crash(keep), acc, pid) && InPlace(s, acc, pid)
    ensures InPlace(Next(s, Crash(keep)), AccNext(s, Crash(keep), acc, pid), pid)
  {
    CrashShape(s, keep, pid);
    var t, ahead := Next(s, Crash(keep)), Between(s, s.redoPtr, keep, pid);
    if s.mode.Running? {
      var v, all := ViewOf(s.wk, pid), acc + Between(s, s.readPos, keep, pid);
      IncreasingUpTo(s, keep, acc, pid);
      StartRestoring(v, acc, all, ahead);
      OnItsWay(t, all, pid, |Written(v, acc)|);
    } else {
      assert keep == |s.wal|;
      var m := RestartsOver(s, acc, pid);
      OnItsWay(t, acc, pid, m);
    }
  }

  lemma RestartsOver(s: State, acc: seq<Header>, pid: nat) returns (m: nat)
    requires InPlace(s, acc, pid) && s.mode.Recovering?
    ensures var ahead := Between(s, s.redoPtr, |s.wal|, pid); Restoring(DirOf(s.wk.disk, pid), acc, ahead, ahead, m)
  {
    m :| Restoring(DirOf(s.wk.disk, pid), acc, Between(s, s.mode.pos, |s.wal|, pid), Between(s, s.redoPtr, |s.wal|, pid), m);
  }

  lemma IncreasingUpTo(s: State, keep: nat, acc: seq<Header>, pid: nat)
    requires s.readPos <= keep <= |s.wal| && Increasing(acc + Unread(s, pid))
    ensures Increasing(acc + Between(s, s.readPos, keep, pid))
  {
    BetweenSplit(s, s.readPos, keep, |s.wal|, pid);
    IncreasingTwo(acc, Between(s, s.readPos, keep, pid), Between(s, keep, |s.wal|, pid));
  }

  lemma IncreasingTwo(a: seq<Header>, b: seq<Header>, c: seq<Header>)
    requires Increasing(a + (b + c))
    ensures Increasing(a + b)
  {
    assert a + (b + c) == (a + b) + c;
    IncreasingFront(a + b, c);
  }

  lemma StartRestoring(v: View, acc: seq<Header>, all: seq<Header>, ahead: seq<Header>)
    requires Placed(v, acc) && acc <= all && Increasing(all) && SegMonotone(all) && Resumes(ahead, all, |Written(v, acc)|)
    ensures Restoring(v.dir, all, ahead, ahead, |Written(v, acc)|)
  {
    PlacedFiles(v, acc);
    assert all[..|Written(v, acc)|] == acc[..|Written(v, acc)|] == Written(v, acc);
  }

  lemma RedoKeepsPlace(s: State, acc: seq<Header>, pid: nat)
    requires Enabled(s, RedoRecord) && InPlace(s, acc, pid)
    ensures InPlace(Next(s, RedoRecord), acc, pid)
  {
    var pos := s.mode.pos;
    RedoShape(s, pid);
    var m := RedoRestores(s.wk, s.wal[pos], acc, Between(s, pos, |s.wal|, pid), Between(s, s.redoPtr, |s.wal|, pid),
                          Between(s, pos + 1, |s.wal|, pid), pid);
    OnItsWay(Next(s, RedoRecord), acc, pid, m);
  }

  lemma RedoShape(s: State, pid: nat)
    requires Enabled(s, RedoRecord) && Ordered(s)
    ensures var t, pos := Next(s, RedoRecord), s.mode.pos;
            && Ordered(t) && t.mode == Recovering(pos + 1) && t.wal == s.wal && t.redoPtr == s.redoPtr
            && t.wk == (if s.wal[pos].PartRec? then RedoInto(s.wk, s.wal[pos].h) else s.wk)
            && Between(t, pos + 1, |t.wal|, pid) == Between(s, pos + 1, |s.wal|, pid)
            && Between(t, t.redoPtr, |t.wal|, pid) == Between(s, s.redoPtr, |s.wal|, pid)
            && Between(s, pos, |s.wal|, pid)
               == (if IsOwn(s.wal[pos], pid) then [s.wal[pos].h] else []) + Between(s, pos + 1, |s.wal|, pid)
  {
    ProgressStep(s, RedoRecord);
    BetweenOne(s, s.mode.pos, |s.wal|, pid);
  }

  lemma RedoRestores(wk: Worker, r: WalRec, acc: seq<Header>, ahead: seq<Header>, all: seq<Header>, rest: seq<Header>, pid: nat)
    returns (n: nat)
    requires ahead == (if IsOwn(r, pid) then [r.h] else []) + rest
    requires exists m :: Restoring(DirOf(wk.disk, pid), acc, ahead, all, m)
    ensures var after := if r.PartRec? then RedoInto(wk, r.h) else wk;
            Restoring(DirOf(after.disk, pid), acc, rest, all, n)
  {
    CrashSafety.RedoStepDir(wk, r, pid);
    var d := DirOf(wk.disk, pid);
    n :| Restoring(d, acc, ahead, all, n);
    if IsOwn(r, pid) {
      assert ahead[1..] == rest;
      n := RestoreOne(d, acc, ahead, all, n);
    } else {
      assert ahead == rest;
    }
  }

  lemma FinishKeepsPlace(s: State, acc: seq<Header>, pid: nat)
    requires Enabled(s, FinishRecovery) && InPlace(s, acc, pid)
    ensures InPlace(Next(s, FinishRecovery), acc, pid)
  {
    ProgressStep(s, FinishRecovery);
    var d, all := DirOf(s.wk.disk, pid), Between(s, s.redoPtr, |s.wal|, pid);
    assert Between(s, |s.wal|, |s.wal|, pid) == [] by {
      assert s.wal[|s.wal|..|s.wal|] == [];
    }
    var m :| Restoring(d, acc, [], all, m);
    Restored(d, acc, all, m);
    AllInFiles(Next(s, FinishRecovery), acc, pid);
  }

  /** Every step keeps the partition in place: files and buffer hold exactly the sequence it
      should, or recovery is on its way there. */
  lemma PlaceStep(s: State, step: Step, acc: seq<Header>, pid: nat)
    requires Enabled(s, step) && Steady(s, step, acc, pid) && InPlace(s, acc, pid)
    ensures InPlace(Next(s, step), AccNext(s, step, acc, pid), pid)
  {
    if step.ReadRecord? {
      ReadKeepsPlace(s, step.io, step.create, acc, pid);
    } else if step.Crash? {
      CrashKeepsPlace(s, step.keep, acc, pid);
    } else if step.Reset? {
      ResetKeepsPlace(s, step.pid, acc, pid);
    } else if step.Cleanup? {
      CleanupKeepsPlace(s, step.pid, step.keepPtr, acc, pid);
    } else {
      AccStays(s, step, acc, pid);
      KeepsAcc(s, step, acc, pid);
    }
  }

  lemma AccStays(s: State, step: Step, acc: seq<Header>, pid: nat)
    requires Enabled(s, step) && !step.ReadRecord? && !step.Crash? && !step.Reset? && !step.Cleanup?
    ensures AccNext(s, step, acc, pid) == acc
  {
  }

  // The steps that leave the sequence alone.
  lemma KeepsAcc(s: State, step: Step, acc: seq<Header>, pid: nat)
    requires Enabled(s, step) && Steady(s, step, acc, pid) && InPlace(s, acc, pid)
    requires !step.ReadRecord? && !step.Crash? && !step.Reset? && !step.Cleanup?
    ensures InPlace(Next(s, step), acc, pid)
  {
    match step {
      case Insert(_, _, _) => InsertKeepsPlace(s, step, acc, pid);
      case InsertOther => InsertKeepsPlace(s, step, acc, pid);
      case CaughtUp(bad) => FlushKeepsPlace(s, bad, acc, pid);
      case SkipTo(pos) => SkipKeepsPlace(s, pos, acc, pid);
      case RestartWorker => RestartKeepsPlace(s, acc, pid);
      case CleanRestart(bad) => CleanRestartKeepsPlace(s, bad, acc, pid);
      case RedoRecord => RedoKeepsPlace(s, acc, pid);
      case FinishRecovery => FinishKeepsPlace(s, acc, pid);
      case _ => PlainKeepsPlace(s, step, acc, pid);
    }
  }

  // The steps that touch neither WAL nor directories nor writers.
  lemma PlainKeepsPlace(s: State, step: Step, acc: seq<Header>, pid: nat)
    requires Enabled(s, step) && InPlace(s, acc, pid)
    requires step.Look? || step.Scan? || step.Enter? || step.Return? || step.Abort? || step.FlushWal?
             || step.SaveProgress? || step.Checkpoint?
    ensures InPlace(Next(s, step), acc, pid)
  {
    ProgressStep(s, step);
    SamePlace(s, Next(s, step), acc, pid);
  }

  lemma {:induction false} PlaceRun(s: State, steps: seq<Step>, acc: seq<Header>, pid: nat)
    requires Runs(s, steps) && SteadyRun(s, steps, acc, pid) && InPlace(s, acc, pid)
    ensures InPlace(Run(s, steps), AccRun(s, steps, acc, pid), pid)
    decreases |steps|
  {
    if steps != [] {
      PlaceStep(s, steps[0], acc, pid);
      PlaceRun(Next(s, steps[0]), steps[1..], AccNext(s, steps[0], acc, pid), pid);
    }
  }

  // ---- one record on its way ----

  // WAL before this position has been handled.
  function Handled(s: State): nat {
    if s.mode.Running? then s.readPos else |s.wal|
  }

  // The record at WAL position pos is the partition's, from after its last reset.
  predicate Newer(s: State, pos: nat, pid: nat) {
    pos < |s.wal| && IsOwn(s.wal[pos], pid) && CountOf(s.base, pid) <= |PartLog(s.wal[..pos], pid)|
  }

  ghost predicate Arrived(s: State, acc: seq<Header>, pos: nat, pid: nat) {
    pos < Handled(s) && Newer(s, pos, pid) ==> s.wal[pos].h in acc
  }

  // A cleanup leaves the segment of the record at pos, once that has been read.
  predicate Spares(s: State, step: Step, pos: nat, pid: nat) {
    (step.Cleanup? && step.pid == pid && pos < s.readPos && pos < |s.wal| && IsOwn(s.wal[pos], pid))
      ==> Survives(SegOf(s.wal[pos].h), step.keepPtr)
  }

  ghost predicate SparesRun(s: State, steps: seq<Step>, pos: nat, pid: nat)
    requires Runs(s, steps)
    decreases |steps|
  {
    steps == [] || (Spares(s, steps[0], pos, pid) && SparesRun(Next(s, steps[0]), steps[1..], pos, pid))
  }

  // The WAL up to the position and the memory of resets are as before.
  lemma NewerSame(s: State, t: State, pos: nat, pid: nat)
    requires pos < |s.wal| && pos < |t.wal| && s.wal[..pos + 1] == t.wal[..pos + 1]
    requires CountOf(t.base, pid) == CountOf(s.base, pid)
    ensures t.wal[pos] == s.wal[pos] && (Newer(t, pos, pid) <==> Newer(s, pos, pid))
  {
    assert s.wal[..pos] == s.wal[..pos + 1][..pos] == t.wal[..pos];
    assert s.wal[pos] == s.wal[..pos + 1][pos] == t.wal[pos];
  }

  lemma SamePrefixes(a: seq<WalRec>, b: seq<WalRec>, n: nat, pos: nat)
    requires pos < n <= |a| && n <= |b| && a[..n] == b[..n]
    ensures a[..pos + 1] == b[..pos + 1]
  {
    assert a[..pos + 1] == a[..n][..pos + 1] == b[..n][..pos + 1] == b[..pos + 1];
  }

  // The steps by which no record of the partition is handled.
  lemma ArrivedStays(s: State, t: State, acc: seq<Header>, pos: nat, pid: nat)
    requires Ordered(s) && Ordered(t) && Arrived(s, acc, pos, pid) && CountOf(t.base, pid) == CountOf(s.base, pid)
    requires Handled(t) <= |s.wal| && Handled(t) <= |t.wal| && t.wal[..Handled(t)] == s.wal[..Handled(t)]
    requires Handled(s) <= Handled(t) && Between(s, Handled(s), Handled(t), pid) == []
    ensures Arrived(t, acc, pos, pid)
  {
    if pos < Handled(t) && Newer(t, pos, pid) {
      SamePrefixes(s.wal, t.wal, Handled(t), pos);
      NewerSame(s, t, pos, pid);
      if pos >= Handled(s) {
        InBetween(s, Handled(s), Handled(t), pos, pid);
      }
    }
  }

  lemma ArrivedRead(s: State, step: Step, acc: seq<Header>, pos: nat, pid: nat)
    requires Enabled(s, step) && step.ReadRecord? && Arrived(s, acc, pos, pid)
    ensures Arrived(Next(s, step), AccNext(s, step, acc, pid), pos, pid)
  {
    var t := Next(s, step);
    if pos < Handled(t) && Newer(t, pos, pid) {
      NewerSame(s, t, pos, pid);
    }
  }

  lemma ArrivedCrash(s: State, keep: nat, acc: seq<Header>, pos: nat, pid: nat)
    requires Enabled(s, Crash(keep)) && Ordered(s) && Arrived(s, acc, pos, pid)
    ensures Arrived(Next(s, Crash(keep)), AccNext(s, Crash(keep), acc, pid), pos, pid)
  {
    var t := Next(s, Crash(keep));
    if pos < keep && Newer(t, pos, pid) {
      SamePrefixes(s.wal, t.wal, keep, pos);
      NewerSame(s, t, pos, pid);
      if s.mode.Running? && pos >= s.readPos {
        InBetween(s, s.readPos, keep, pos, pid);
      }
    }
  }

  lemma ArrivedReset(s: State, p: nat, acc: seq<Header>, pos: nat, pid: nat)
    requires Enabled(s, Reset(p)) && Arrived(s, acc, pos, pid)
    ensures Arrived(Next(s, Reset(p)), AccNext(s, Reset(p), acc, pid), pos, pid)
  {
    var t := Next(s, Reset(p));
    if pos < Handled(t) && Newer(t, pos, pid) {
      if p == pid {
        CrashSafety.AtPosition(s.wal, pos, pid);
      } else {
        NewerSame(s, t, pos, pid);
      }
    }
  }

  lemma ArrivedCleanup(s: State, p: nat, keepPtr: nat, acc: seq<Header>, pos: nat, pid: nat)
    requires Enabled(s, Cleanup(p, keepPtr)) && Arrived(s, acc, pos, pid) && Spares(s, Cleanup(p, keepPtr), pos, pid)
    ensures Arrived(Next(s, Cleanup(p, keepPtr)), AccNext(s, Cleanup(p, keepPtr), acc, pid), pos, pid)
  {
    var t := Next(s, Cleanup(p, keepPtr));
    if pos < Handled(t) && Newer(t, pos, pid) {
      NewerSame(s, t, pos, pid);
      if p == pid {
        KeptMember(acc, keepPtr, s.wal[pos].h);
      }
    }
  }

  // What the remaining steps do to the WAL and to what has been handled.
  lemma HandledShape(s: State, step: Step)
    requires Enabled(s, step) && Ordered(s) && !step.ReadRecord? && !step.Crash? && !step.Reset? && !step.Cleanup?
    ensures var t := Next(s, step);
            && t.base == s.base && s.wal <= t.wal && Handled(s) <= Handled(t) <= |s.wal|
            && (step.SkipTo? ==> Handled(t) == step.pos) && (step.RestartWorker? ==> Handled(t) == s.flushed)
            && (step.CleanRestart? ==> Handled(t) == |s.wal|)
            && (step.SkipTo? || step.RestartWorker? || step.CleanRestart? ==> Handled(s) == s.readPos)
            && (!(step.SkipTo? || step.RestartWorker? || step.CleanRestart?) ==> Handled(t) == Handled(s))
  {
  }

  lemma ArrivedStep(s: State, step: Step, acc: seq<Header>, pos: nat, pid: nat)
    requires Enabled(s, step) && Steady(s, step, acc, pid) && Ordered(s)
    requires Arrived(s, acc, pos, pid) && Spares(s, step, pos, pid)
    ensures Arrived(Next(s, step), AccNext(s, step, acc, pid), pos, pid)
  {
    match step {
      case ReadRecord(_, _) => ArrivedRead(s, step, acc, pos, pid);
      case Crash(keep) => ArrivedCrash(s, keep, acc, pos, pid);
      case Reset(p) => ArrivedReset(s, p, acc, pos, pid);
      case Cleanup(p, keepPtr) => ArrivedCleanup(s, p, keepPtr, acc, pos, pid);
      case _ => ArrivedElsewhere(s, step, acc, pos, pid);
    }
  }

  lemma ArrivedElsewhere(s: State, step: Step, acc: seq<Header>, pos: nat, pid: nat)
    requires Enabled(s, step) && Steady(s, step, acc, pid) && Ordered(s) && Arrived(s, acc, pos, pid)
    requires !step.ReadRecord? && !step.Crash? && !step.Reset? && !step.Cleanup?
    ensures Arrived(Next(s, step), acc, pos, pid)
  {
    var t := Next(s, step);
    ProgressStep(s, step);
    HandledShape(s, step);
    assert s.wal[Handled(s)..Handled(s)] == [];
    ArrivedStays(s, t, acc, pos, pid);
  }

  lemma {:induction false} ArrivedRun(s: State, steps: seq<Step>, acc: seq<Header>, pos: nat, pid: nat)
    requires Runs(s, steps) && SteadyRun(s, steps, acc, pid) && Ordered(s)
    requires Arrived(s, acc, pos, pid) && SparesRun(s, steps, pos, pid)
    ensures Arrived(Run(s, steps), AccRun(s, steps, acc, pid), pos, pid)
    decreases |steps|
  {
    if steps != [] {
      ArrivedStep(s, steps[0], acc, pos, pid);
      ProgressStep(s, steps[0]);
      ArrivedRun(Next(s, steps[0]), steps[1..], AccNext(s, steps[0], acc, pid), pos, pid);
    }
  }

  lemma {:induction false} SteadyPrefix(s: State, steps: seq<Step>, acc: seq<Header>, k: nat, pos: nat, pid: nat)
    requires Runs(s, steps) && SteadyRun(s, steps, acc, pid) && SparesRun(s, steps, pos, pid) && k <= |steps|
    ensures Runs(s, steps[..k]) && SteadyRun(s, steps[..k], acc, pid) && SparesRun(s, steps[..k], pos, pid)
    decreases k
  {
    if k > 0 {
      assert steps[..k][1..] == steps[1..][..k - 1];
      SteadyPrefix(Next(s, steps[0]), steps[1..], AccNext(s, steps[0], acc, pid), k - 1, pos, pid);
    }
  }

  // ---- who has inserted what ----

  // A backend past its insertion knows where its record is, and that is in new WAL.
  ghost predicate Placements(s: State, origin: nat) {
    && origin <= s.flushed
    && (s.mode.Recovering? ==> s.lastProcessed == 0)
    && forall b :: b in s.backends && (s.backends[b].Inserted? || s.backends[b].Returned?) ==>
         var k := s.backends[b];
         && origin <= k.pos < |s.wal| && IsOwn(s.wal[k.pos], k.pid)
         && (k.Returned? ==> k.pos < s.flushed)
  }

  lemma IdleStep(s: State, step: Step)
    requires Enabled(s, step) && (s.mode.Recovering? ==> s.lastProcessed == 0)
    ensures Next(s, step).mode.Recovering? ==> Next(s, step).lastProcessed == 0
  {
  }

  lemma PlacementsStep(s: State, step: Step, origin: nat)
    requires Enabled(s, step) && Ordered(s) && Placements(s, origin)
    ensures Placements(Next(s, step), origin)
  {
    var t := Next(s, step);
    ProgressStep(s, step);
    IdleStep(s, step);
    if step.Crash? || step.CleanRestart? {
      assert t.backends == map[];
    } else {
      BackendsKnow(s, step, origin);
    }
  }

  lemma BackendsKnow(s: State, step: Step, origin: nat)
    requires Enabled(s, step) && Ordered(s) && Placements(s, origin) && !step.Crash? && !step.CleanRestart?
    ensures var t := Next(s, step);
            forall b :: b in t.backends && (t.backends[b].Inserted? || t.backends[b].Returned?) ==>
              var k := t.backends[b];
              && origin <= k.pos < |t.wal| && IsOwn(t.wal[k.pos], k.pid)
              && (k.Returned? ==> k.pos < t.flushed)
  {
    var t := Next(s, step);
    WalOnlyGrows(s, step);
    forall b | b in t.backends && (t.backends[b].Inserted? || t.backends[b].Returned?)
      ensures var k := t.backends[b];
              && origin <= k.pos < |t.wal| && IsOwn(t.wal[k.pos], k.pid)
              && (k.Returned? ==> k.pos < t.flushed)
    {
      if !(step.Insert? && step.b == b) {
        assert b in s.backends && (s.backends[b].Inserted? || s.backends[b].Returned?);
        assert t.backends[b].pos == s.backends[b].pos && t.backends[b].pid == s.backends[b].pid;
      }
    }
  }

  lemma WalOnlyGrows(s: State, step: Step)
    requires Enabled(s, step) && Ordered(s) && !step.Crash? && !step.CleanRestart?
    ensures var t := Next(s, step); s.wal <= t.wal && s.flushed <= t.flushed
  {
  }

  lemma {:induction false} PlacementsRun(s: State, steps: seq<Step>, origin: nat)
    requires Runs(s, steps) && Ordered(s) && Placements(s, origin)
    ensures Placements(Run(s, steps), origin)
    decreases |steps|
  {
    if steps != [] {
      PlacementsStep(s, steps[0], origin);
      ProgressStep(s, steps[0]);
      PlacementsRun(Next(s, steps[0]), steps[1..], origin);
    }
  }

  // ---- the barrier ----

  // The record at pos is in its own segment file or held back in its writer's buffer by a
  // failed flush, and not in both.
  ghost predicate Delivered(s: State, pos: nat)
    requires pos < |s.wal| && s.wal[pos].PartRec?
  {
    var h := s.wal[pos].h;
    var v := ViewOf(s.wk, h.partitionId);
    && (h in FileOf(v.dir, SegOf(h)) <==> h !in Buffered(v))
    && (Drained(v) ==> h in FileOf(v.dir, SegOf(h)))
  }

  /** Every record of the partition that came after the start, below last_processed_lsn and
      from after the partition's last reset, is in its file, or a failed flush keeps it in the
      buffer -- unless its segment was cleaned away.  Any numbers may be missing before it,
      and crashes and restarts may lie in between. */
  lemma EveryRecordDelivered(s: State, boot: map<nat, seq<Header>>, steps: seq<Step>, pos: nat, pid: nat)
    requires SessionSafety.Booted(s, boot) && Runs(s, steps)
    requires SteadyRun(s, steps, SessionSafety.LogFor(boot, pid), pid) && SparesRun(s, steps, pos, pid)
    requires |s.wal| <= pos < Run(s, steps).lastProcessed && Newer(Run(s, steps), pos, pid)
    ensures Delivered(Run(s, steps), pos)
  {
    BarrierStart(s, boot, steps, pos, pid);
    var t := Run(s, steps);
    PlacedOnce(ViewOf(t.wk, pid), AccRun(s, steps, SessionSafety.LogFor(boot, pid), pid), t.wal[pos].h);
  }

  // ---- sessions whose flushes succeed ----

  // No flush after the write of one of the partition's records fails.
  ghost predicate OwnFlushesSucceed(s: State, steps: seq<Step>, pid: nat)
    requires Runs(s, steps)
    decreases |steps|
  {
    steps == []
    || ((steps[0].ReadRecord? && IsOwn(s.wal[s.readPos], pid) ==> steps[0].io.flush)
        && OwnFlushesSucceed(Next(s, steps[0]), steps[1..], pid))
  }

  lemma DrainedFlush(wk: Worker, bad: set<nat>, pid: nat)
    requires DistinctSlots(wk.slots) && Drained(ViewOf(wk, pid))
    ensures Drained(ViewOf(FlushAll(wk, bad), pid))
  {
    FlushAllViews(wk, bad, pid);
  }

  lemma DrainedOther(s: State, step: Step, pid: nat)
    requires Enabled(s, step) && DistinctSlots(s.wk.slots) && Drained(ViewOf(s.wk, pid)) && !step.ReadRecord?
    ensures Drained(ViewOf(Next(s, step).wk, pid))
  {
    match step {
      case CaughtUp(bad) => DrainedFlush(s.wk, bad, pid);
      case Reset(p) => ResetViews(s.wk, p, pid);
      case Cleanup(p, keepPtr) => CleanViews(s.wk, p, keepPtr, pid);
      case ReadRecord(_, _) =>
      case CleanRestart(_) =>
      case RestartWorker =>
      case Crash(_) =>
      case RedoRecord => assert Next(s, step).wk.slots == s.wk.slots;
      case _ => assert Next(s, step).wk == s.wk;
    }
  }

  lemma DrainedStep(s: State, step: Step, acc: seq<Header>, pid: nat)
    requires Enabled(s, step) && Steady(s, step, acc, pid) && InPlace(s, acc, pid) && Drained(ViewOf(s.wk, pid))
    requires step.ReadRecord? && IsOwn(s.wal[s.readPos], pid) ==> step.io.flush
    ensures Drained(ViewOf(Next(s, step).wk, pid))
  {
    if !step.ReadRecord? {
      DrainedOther(s, step, pid);
    } else if IsOwn(s.wal[s.readPos], pid) {
      BetweenOne(s, s.readPos, |s.wal|, pid);
      ReadOwn(s.wk, s.wal[s.readPos].h, step.io, acc, Between(s, s.readPos + 1, |s.wal|, pid), pid);
    } else if s.wal[s.readPos].PartRec? {
      ProcessViews(s.wk, s.wal[s.readPos].h, step.io, step.create, pid);
    }
  }

  lemma {:induction false} DrainedRun(s: State, steps: seq<Step>, acc: seq<Header>, pid: nat)
    requires Runs(s, steps) && SteadyRun(s, steps, acc, pid) && InPlace(s, acc, pid)
    requires OwnFlushesSucceed(s, steps, pid) && Drained(ViewOf(s.wk, pid))
    ensures Drained(ViewOf(Run(s, steps).wk, pid))
    decreases |steps|
  {
    if steps != [] {
      DrainedStep(s, steps[0], acc, pid);
      PlaceStep(s, steps[0], acc, pid);
      DrainedRun(Next(s, steps[0]), steps[1..], AccNext(s, steps[0], acc, pid), pid);
    }
  }

  /** And it is in its file when no flush of the partition has failed, whatever becomes of
      the others'. */
  lemma EveryRecordOnDisk(s: State, boot: map<nat, seq<Header>>, steps: seq<Step>, pos: nat, pid: nat)
    requires SessionSafety.Booted(s, boot) && Runs(s, steps)
    requires SteadyRun(s, steps, SessionSafety.LogFor(boot, pid), pid) && SparesRun(s, steps, pos, pid)
    requires OwnFlushesSucceed(s, steps, pid)
    requires |s.wal| <= pos < Run(s, steps).lastProcessed && Newer(Run(s, steps), pos, pid)
    ensures var t := Run(s, steps); t.wal[pos].h in FileOf(DirOf(t.wk.disk, pid), SegOf(t.wal[pos].h))
  {
    BootedInPlace(s, boot, pid);
    DrainedRun(s, steps, SessionSafety.LogFor(boot, pid), pid);
    EveryRecordDelivered(s, boot, steps, pos, pid);
  }

  /** Barrier.  Take a record whose WritePartitionWALRecord call had returned when demux_flush
      took its target, and a later state in which last_processed_lsn has reached it.  The
      record is in its file, or a failed flush keeps it in the buffer -- unless its partition
      was reset or its segment cleaned away since.  Any numbers may be missing before it, and
      crashes and restarts may lie in between. */
  lemma Barrier(s: State, boot: map<nat, seq<Header>>, before: seq<Step>, after: seq<Step>, b: nat)
    requires SessionSafety.Booted(s, boot) && Runs(s, before)
    requires var m := Run(s, before);
             && b in m.backends && m.backends[b].Returned? && Runs(m, after)
             && var pid, pos := m.backends[b].pid, m.backends[b].pos;
                var l := SessionSafety.LogFor(boot, pid);
                && SteadyRun(s, before, l, pid) && SteadyRun(m, after, AccRun(s, before, l, pid), pid)
                && SparesRun(s, before, pos, pid) && SparesRun(m, after, pos, pid)
                && Run(m, after).lastProcessed >= m.flushed
    ensures var m := Run(s, before);
            var t, pos, pid := Run(m, after), m.backends[b].pos, m.backends[b].pid;
            && pos < |m.wal| && IsOwn(m.wal[pos], pid) && pos < |t.wal| && t.wal[pos] == m.wal[pos]
            && (Newer(t, pos, pid) ==> Delivered(t, pos))
  {
    var m := Run(s, before);
    var pid, pos := m.backends[b].pid, m.backends[b].pos;
    var l := SessionSafety.LogFor(boot, pid);
    BarrierStart(s, boot, before, pos, pid);
    BarrierEnd(m, after, AccRun(s, before, l, pid), pos, pid);
  }

  lemma BarrierStart(s: State, boot: map<nat, seq<Header>>, before: seq<Step>, pos: nat, pid: nat)
    requires SessionSafety.Booted(s, boot) && Runs(s, before)
    requires SteadyRun(s, before, SessionSafety.LogFor(boot, pid), pid) && SparesRun(s, before, pos, pid)
    ensures var m, acc := Run(s, before), AccRun(s, before, SessionSafety.LogFor(boot, pid), pid);
            InPlace(m, acc, pid) && Placements(m, |s.wal|) && (pos >= |s.wal| ==> Arrived(m, acc, pos, pid))
  {
    var l := SessionSafety.LogFor(boot, pid);
    BootedInPlace(s, boot, pid);
    PlaceRun(s, before, l, pid);
    PlacementsRun(s, before, |s.wal|);
    if pos >= |s.wal| {
      ArrivedRun(s, before, l, pos, pid);
    }
  }

  lemma BarrierEnd(m: State, after: seq<Step>, acc: seq<Header>, pos: nat, pid: nat)
    requires InPlace(m, acc, pid) && Placements(m, 0) && Arrived(m, acc, pos, pid) && Runs(m, after)
    requires SteadyRun(m, after, acc, pid) && SparesRun(m, after, pos, pid)
    requires pos < m.flushed && IsOwn(m.wal[pos], pid) && Run(m, after).lastProcessed >= m.flushed
    ensures var t := Run(m, after);
            pos < |t.wal| && t.wal[pos] == m.wal[pos] && (Newer(t, pos, pid) ==> Delivered(t, pos))
  {
    var t := Run(m, after);
    PlaceRun(m, after, acc, pid);
    ArrivedRun(m, after, acc, pos, pid);
    PlacementsRun(m, after, 0);
    ProgressRun(m, after);
    assert t.wal[pos] == t.wal[..m.flushed][pos] == m.wal[..m.flushed][pos] == m.wal[pos];
    if Newer(t, pos, pid) {
      PlacedOnce(ViewOf(t.wk, pid), AccRun(m, after, acc, pid), t.wal[pos].h);
    }
  }

  // ---- a run with a number missing ----

  lemma SteadyCons(s: State, step: Step, rest: seq<Step>, acc: seq<Header>, pid: nat)
    requires Enabled(s, step) && Steady(s, step, acc, pid)
    requires var t := Next(s, step); Runs(t, rest) && SteadyRun(t, rest, AccNext(s, step, acc, pid), pid)
    ensures Runs(s, [step] + rest) && SteadyRun(s, [step] + rest, acc, pid)
    ensures Run(s, [step] + rest) == Run(Next(s, step), rest)
  {
    assert ([step] + rest)[1..] == rest;
  }

  lemma TakeSteady(s: State, b: nat, lsn: nat, rest: seq<Step>)
    requires s.mode.Running? && b !in s.backends && TailPeek(DirOf(s.wk.disk, 7)) == 0
    requires if 7 in s.alloc then s.alloc[7] == lsn else lsn == 1
    requires var t := CrashSafety.AfterTaking(s, b, lsn); Runs(t, rest) && SteadyRun(t, rest, [], 7)
    ensures var steps := [Look(b, 7)] + ([Scan(b)] + ([Enter(b)] + rest));
            && Runs(s, steps) && SteadyRun(s, steps, [], 7)
            && Run(s, steps) == Run(CrashSafety.AfterTaking(s, b, lsn), rest)
  {
    CrashSafety.TakeNumber(s, b, lsn);
    var p := Next(s, Look(b, 7));
    var q := Next(p, Scan(b));
    SteadyCons(q, Enter(b), rest, [], 7);
    SteadyCons(p, Scan(b), [Enter(b)] + rest, [], 7);
    SteadyCons(s, Look(b, 7), [Scan(b)] + ([Enter(b)] + rest), [], 7);
  }

  const SECOND := Header(PARTWAL_MAGIC, 7, 1, 2, 1)

  // Record 2, the only one in the WAL, flushed and read.
  lemma SecondRead(v: State)
    requires v.mode.Running? && v.wal == [PartRec(SECOND)] && v.flushed == v.readPos == 0 && v.wk == Worker(map[], [])
    ensures var steps := [FlushWal(1)] + ([ReadRecord(ALL_OK, true)] + []);
            && Runs(v, steps) && SteadyRun(v, steps, [], 7)
            && var t := Run(v, steps); t.lastProcessed == 1 && t.wal == v.wal && t.base == v.base && t.wk == Process(v.wk, SECOND, ALL_OK, true)
  {
    var w := Next(v, FlushWal(1));
    var last: seq<Step> := [];
    assert Runs(Next(w, ReadRecord(ALL_OK, true)), last);
    SteadyCons(w, ReadRecord(ALL_OK, true), last, [], 7);
    SteadyCons(v, FlushWal(1), [ReadRecord(ALL_OK, true)] + last, [], 7);
  }

  const TAKE_SECOND := [Look(2, 7)] + ([Scan(2)] + ([Enter(2)] + ([Insert(2, 1, 1)] + (
                       [FlushWal(1)] + ([ReadRecord(ALL_OK, true)] + [])))))

  const GAPPED := [Look(1, 7)] + ([Scan(1)] + ([Enter(1)] + ([Abort(1)] + TAKE_SECOND)))

  // A server on which number 1 of the partition has been given up.
  ghost predicate FirstGone(u: State) {
    && u.mode.Running? && u.wal == [] && u.base == map[] && u.backends == map[] && u.wk == Worker(map[], [])
    && u.flushed == u.readPos == 0 && 7 in u.alloc && u.alloc[7] == 2
  }

  lemma SecondTaken(u: State)
    requires FirstGone(u)
    ensures Runs(u, TAKE_SECOND) && SteadyRun(u, TAKE_SECOND, [], 7)
    ensures var t := Run(u, TAKE_SECOND);
            && t.lastProcessed == 1 && t.wal == [PartRec(SECOND)] && t.base == map[]
            && t.wk == Process(Worker(map[], []), SECOND, ALL_OK, true)
  {
    var v := CrashSafety.AfterTaking(u, 2, 2);
    var last := [FlushWal(1)] + ([ReadRecord(ALL_OK, true)] + []);
    SecondInserted(v);
    SecondRead(Next(v, Insert(2, 1, 1)));
    SteadyCons(v, Insert(2, 1, 1), last, [], 7);
    assert TailPeek(map[]) == 0;
    TakeSteady(u, 2, 2, [Insert(2, 1, 1)] + last);
  }

  lemma SecondInserted(v: State)
    requires v.mode.Running? && v.wal == [] && v.readPos == 0 && v.wk == Worker(map[], [])
    requires 2 in v.backends && v.backends[2] == Holding(7, 2)
    ensures Enabled(v, Insert(2, 1, 1)) && Steady(v, Insert(2, 1, 1), [], 7)
    ensures var w := Next(v, Insert(2, 1, 1));
            w == v.(wal := [PartRec(SECOND)], backends := w.backends)
  {
  }

  lemma FirstTaken()
    ensures var s := CrashSafety.AfterTaking(INITIAL, 1, 1); Enabled(s, Abort(1)) && FirstGone(Next(s, Abort(1)))
  {
    assert Next(CrashSafety.AfterTaking(INITIAL, 1, 1), Abort(1)).backends == map[];
  }

  /** The barrier over a number given up: backend 1 takes number 1 and fails, backend 2 takes
      number 2, inserts it and flushes, and the worker reads it.  No disciplined run, but a
      steady one, and record 2 is in its file. */
  lemma GapIsNoObstacle()
    ensures Runs(INITIAL, GAPPED) && SteadyRun(INITIAL, GAPPED, [], 7)
    ensures var t := Run(INITIAL, GAPPED);
            && t.lastProcessed == 1 && Newer(t, 0, 7) && t.wal[0].h == SECOND
            && SECOND in FileOf(DirOf(t.wk.disk, 7), SegOf(SECOND))
  {
    var s := CrashSafety.AfterTaking(INITIAL, 1, 1);
    FirstTaken();
    SecondTaken(Next(s, Abort(1)));
    SteadyCons(s, Abort(1), TAKE_SECOND, [], 7);
    assert TailPeek(map[]) == 0;
    TakeSteady(INITIAL, 1, 1, [Abort(1)] + TAKE_SECOND);
    SecondInFile();
  }

  lemma SecondInFile()
    ensures SECOND in FileOf(DirOf(Process(Worker(map[], []), SECOND, ALL_OK, true).disk, 7), SegOf(SECOND))
  {
    var wk, none: seq<Header> := Worker(map[], []), [];
    assert NonEmpty(DirOf(wk.disk, 7)) == map[];
    assert none + ([SECOND] + none) == [SECOND];
    ReadOwn(wk, SECOND, ALL_OK, none, none, 7);
    PlacedOnce(ViewOf(Process(wk, SECOND, ALL_OK, true), 7), none + [SECOND], SECOND);
  }
}
