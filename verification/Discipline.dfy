/** The hypotheses the code itself does not enforce, step by step, and the LSNs that are
    allocated but never reach the WAL. */
module Discipline {
  import opened Header
  import opened SegmentDir
  import opened WriterSpec
  import opened Demux
  import opened InStep
  import opened Machine

  // WAL order is LSN order: no other backend holds a lower LSN of the partition.
  ghost predicate LowestHolder(s: State, b: nat)
    requires b in s.backends && s.backends[b].Holding?
  {
    forall x :: x in s.backends && x != b && s.backends[x].Holding? && s.backends[x].pid == s.backends[b].pid
      ==> s.backends[b].lsn < s.backends[x].lsn
  }

  // Issued, held by nobody and not in the WAL: it never will be.
  ghost predicate Discarded(s: State, pid: nat, lsn: nat) {
    && pid in s.issued && lsn in s.issued[pid]
    && (forall x :: x in s.backends ==> s.backends[x] != Holding(pid, lsn))
    && (forall i :: 0 <= i < |CurrentLog(s, pid)| ==> CurrentLog(s, pid)[i].partitionLsn != lsn)
  }

  ghost predicate NothingDiscarded(s: State) {
    forall pid, lsn :: !Discarded(s, pid, lsn)
  }

  // The insertion of b's record leaves no discarded LSN below it.
  ghost predicate NothingSkipped(s: State, b: nat)
    requires b in s.backends && s.backends[b].Holding?
  {
    forall lsn: nat :: lsn < s.backends[b].lsn ==> !Discarded(s, s.backends[b].pid, lsn)
  }

  // Replay from WAL position n leaves no hole and brings no old record back: every record of
  // a partition since its last reset and below n is on disk, and those from before the reset
  // at or above n are covered by the watermark.
  ghost predicate Replayable(disk: map<nat, Dir>, wal: seq<WalRec>, base: map<nat, nat>, n: nat)
    requires n <= |wal|
  {
    forall pid :: OnDiskOne(disk, wal, base, n, pid) && OldCovered(disk, wal, base, n, pid)
  }

  ghost predicate OnDiskOne(disk: map<nat, Dir>, wal: seq<WalRec>, base: map<nat, nat>, n: nat, pid: nat)
    requires n <= |wal|
  {
    |LogUpTo(wal, base, n, pid)| <= TailPeek(DirOf(disk, pid))
  }

  ghost predicate OldCovered(disk: map<nat, Dir>, wal: seq<WalRec>, base: map<nat, nat>, n: nat, pid: nat) {
    forall i :: n <= i < |wal| && IsOld(wal, base, i, pid) ==> wal[i].h.partitionLsn <= TailPeek(DirOf(disk, pid))
  }

  // The record at WAL position i is one of the partition's from before its last reset.
  predicate IsOld(wal: seq<WalRec>, base: map<nat, nat>, i: nat, pid: nat) {
    && i < |wal| && wal[i].PartRec? && wal[i].h.partitionId == pid
    && |PartLog(wal[..i], pid)| < CountOf(base, pid)
  }

  // Every reset left behind only records below WAL position n.
  ghost predicate FitsAt(wal: seq<WalRec>, base: map<nat, nat>, n: nat)
    requires n <= |wal|
  {
    forall pid :: CountOf(base, pid) <= |PartLog(wal[..n], pid)|
  }

  ghost predicate AllDrained(wk: Worker) {
    forall pid :: Drained(ViewOf(wk, pid))
  }

  // No backend is between its disk scan and its insertion for the partition.
  ghost predicate NoneInFlight(s: State, pid: nat) {
    forall b :: b in s.backends ==> !((s.backends[b].Scanned? || s.backends[b].Holding?) && s.backends[b].pid == pid)
  }

  // The worker has read every record of the partition, and no allocation is in flight.
  ghost predicate Quiet(s: State, pid: nat) {
    NoneInFlight(s, pid) && s.readPos <= |s.wal| && PartLog(s.wal[s.readPos..], pid) == []
  }

  // Everything but the fate of discarded LSNs.
  ghost predicate Regular(s: State, step: Step)
    requires Enabled(s, step)
  {
    match step
    // WAL order is LSN order, and segments never go down along it.
    case Insert(b, orig, flags) =>
      LowestHolder(s, b) && SegMonotone(CurrentLog(s, s.backends[b].pid) + [InsertHeader(s, b, orig, flags)])
    // The writer cache has room and the record is not refused; the flush may fail.
    case ReadRecord(io, create) =>
      s.wal[s.readPos].PartRec? ==>
        var h := s.wal[s.readPos].h;
        var v := ViewOf(s.wk, h.partitionId);
        create && (v.slot.Some? || |s.wk.slots| < MAX_PARTITIONS) && Accepts(v, h, io)
    // The reader passes over no partition record, and a restart loses no buffered one.
    case SkipTo(pos) => pos <= |s.wal| && NoPartRecords(s.wal[s.readPos..pos])
    case RestartWorker =>
      s.readPos <= s.flushed <= |s.wal| && NoPartRecords(s.wal[s.readPos..s.flushed]) && AllDrained(s.wk)
    case CleanRestart(bad) =>
      s.readPos <= |s.wal| && NoPartRecords(s.wal[s.readPos..]) && AllDrained(FlushAll(s.wk, bad))
    // A running server crashes where the last checkpoint lets redo restore every log.
    case Crash(_) => s.mode.Running? ==> s.redoPtr <= |s.wal| && Replayable(s.wk.disk, s.wal, s.base, s.redoPtr)
    // No allocation overlaps a reset, and the worker has read the partition's records.
    case Reset(pid) => Quiet(s, pid)
    // A cleanup leaves the highest file with records, and the file buffered records wait for.
    case Cleanup(pid, keepPtr) => CleanKeeps(ViewOf(s.wk, pid), keepPtr)
    case _ => true
  }

  ghost predicate Disciplined(s: State, step: Step)
    requires Enabled(s, step)
  {
    Regular(s, step) && (step.Insert? ==> NothingSkipped(s, step.b))
  }

  ghost predicate RegularRun(s: State, steps: seq<Step>)
    requires Runs(s, steps)
    decreases |steps|
  {
    steps == [] || (Regular(s, steps[0]) && RegularRun(Next(s, steps[0]), steps[1..]))
  }

  ghost predicate DisciplinedRun(s: State, steps: seq<Step>)
    requires Runs(s, steps)
    decreases |steps|
  {
    steps == [] || (Disciplined(s, steps[0]) && DisciplinedRun(Next(s, steps[0]), steps[1..]))
  }

  // No insertion of the run passes over a discarded LSN.
  ghost predicate SkipFreeRun(s: State, steps: seq<Step>)
    requires Runs(s, steps)
    decreases |steps|
  {
    steps == [] || ((steps[0].Insert? ==> NothingSkipped(s, steps[0].b)) && SkipFreeRun(Next(s, steps[0]), steps[1..]))
  }

  // A backend gives up a number it holds.
  predicate GivesUp(s: State, step: Step) {
    step.Abort? && step.b in s.backends && s.backends[step.b].Holding?
  }

  // ---- where discarded numbers come from ----

  ghost predicate BasesFit(s: State) {
    forall pid :: CountOf(s.base, pid) <= |PartLog(s.wal, pid)|
  }

  lemma CurrentLogInsert(s: State, t: State, r: WalRec, pid: nat)
    requires CountOf(s.base, pid) <= |PartLog(s.wal, pid)| && t.wal == s.wal + [r] && t.base == s.base
    ensures CurrentLog(t, pid) == CurrentLog(s, pid)
              + (if r.PartRec? && r.h.partitionId == pid then [r.h] else [])
    ensures |PartLog(s.wal, pid)| <= |PartLog(t.wal, pid)|
  {
    PartLogAt(t.wal, |s.wal|, pid);
    assert t.wal[..|s.wal| + 1] == t.wal && t.wal[..|s.wal|] == s.wal;
  }

  /** Only a backend that gives up an LSN it holds discards one. */
  lemma DiscardNeedsAbort(s: State, step: Step)
    requires BasesFit(s) && Enabled(s, step) && NothingDiscarded(s) && !GivesUp(s, step)
    ensures NothingDiscarded(Next(s, step))
  {
    var t := Next(s, step);
    forall pid, lsn | Discarded(t, pid, lsn)
      ensures false
    {
      DiscardedBefore(s, step, pid, lsn);
    }
  }

  lemma DiscardedBefore(s: State, step: Step, pid: nat, lsn: nat)
    requires BasesFit(s) && Enabled(s, step) && !GivesUp(s, step)
    requires Discarded(Next(s, step), pid, lsn)
    ensures Discarded(s, pid, lsn)
  {
    if step.Insert? {
      InsertedIsNotDiscarded(s, step, pid, lsn);
    } else if step.InsertOther? {
      CurrentLogInsert(s, Next(s, step), OtherRec, pid);
      assert CurrentLog(Next(s, step), pid) == CurrentLog(s, pid);
    } else if step.Enter? {
      EnteredIsNotDiscarded(s, step.b, pid, lsn);
    } else {
      DiscardedElsewhere(s, step, pid, lsn);
    }
  }

  lemma EnteredIsNotDiscarded(s: State, b: nat, pid: nat, lsn: nat)
    requires Enabled(s, Enter(b)) && Discarded(Next(s, Enter(b)), pid, lsn)
    ensures Discarded(s, pid, lsn)
  {
    var t := Next(s, Enter(b));
    assert CurrentLog(t, pid) == CurrentLog(s, pid);
    assert t.backends[b].Holding? && t.backends[b] != Holding(pid, lsn);
    assert lsn in s.issued[pid];
    assert forall x :: x in s.backends && x != b ==> t.backends[x] == s.backends[x];
  }

  // Steps that neither issue nor insert: a number discarded after them was so before.
  lemma DiscardedElsewhere(s: State, step: Step, pid: nat, lsn: nat)
    requires Enabled(s, step) && !GivesUp(s, step) && !step.Insert? && !step.InsertOther? && !step.Enter?
    requires Discarded(Next(s, step), pid, lsn)
    ensures Discarded(s, pid, lsn)
  {
    var t := Next(s, step);
    assert CurrentLog(t, pid) == CurrentLog(s, pid);
    assert lsn in s.issued[pid];
    forall x | x in s.backends
      ensures s.backends[x] != Holding(pid, lsn)
    {
      assert s.backends[x].Holding? ==> x in t.backends && t.backends[x] == s.backends[x];
    }
  }

  lemma InsertedIsNotDiscarded(s: State, step: Step, pid: nat, lsn: nat)
    requires BasesFit(s) && step.Insert? && Enabled(s, step) && Discarded(Next(s, step), pid, lsn)
    ensures Discarded(s, pid, lsn)
  {
    var t := Next(s, step);
    var h := InsertHeader(s, step.b, step.orig, step.flags);
    CurrentLogInsert(s, t, PartRec(h), pid);
    var l := CurrentLog(s, pid);
    assert forall i :: 0 <= i < |l| ==> CurrentLog(t, pid)[i] == l[i];
    assert h.partitionId == pid ==> CurrentLog(t, pid)[|l|] == h;
    forall x | x in s.backends
      ensures s.backends[x] != Holding(pid, lsn)
    {
      assert x != step.b ==> t.backends[x] == s.backends[x];
    }
  }
}
