/** The hypotheses of the whole machine imply those of the barrier: in a disciplined run every
    partition is steady, so the barrier holds of all of them, and the sequence it speaks of
    is the partition's log. */
module SteadyDiscipline {
  import opened Header
  import opened SegmentDir
  import opened WriterSpec
  import opened SegmentCleanup
  import opened Demux
  import opened InStep
  import opened InTurn
  import opened Machine
  import opened Discipline
  import opened CrashInvariant
  import opened PartitionBarrier
  import SessionSafety
  import Redo
  import CrashSafety

  // The partition's log as far as it has been handled, less what cleanup removed.
  function Due(s: State, pid: nat): seq<Header> {
    if Handled(s) <= |s.wal| then Drop(LogUpTo(s.wal, s.base, Handled(s), pid), CountOf(s.cleaned, pid)) else []
  }

  lemma RunningDue(s: State, pid: nat)
    requires Safe(s) && s.mode.Running?
    ensures var v, l, from := ViewOf(s.wk, pid), LogUpTo(s.wal, s.base, s.readPos, pid), CountOf(s.cleaned, pid);
            && from <= TailPeek(v.dir) <= |l| && Due(s, pid) == l[from..] && InOrder(l)
            && |Written(v, Due(s, pid))| == TailPeek(v.dir) - from
  {
    var v, l, from := ViewOf(s.wk, pid), LogUpTo(s.wal, s.base, s.readPos, pid), CountOf(s.cleaned, pid);
    RunningFacts(s, pid);
    FollowsInOrder(v, l, from);
    BufferedRest(v, l, from);
  }

  // With what the worker has still to read up to position n it is the log up to n.
  lemma DueUpTo(s: State, n: nat, pid: nat)
    requires Safe(s) && s.mode.Running? && s.readPos <= n <= |s.wal|
    ensures var full, from := LogUpTo(s.wal, s.base, n, pid), CountOf(s.cleaned, pid);
            && InOrder(full) && from <= |full| && Due(s, pid) + Between(s, s.readPos, n, pid) == full[from..]
  {
    OrderedUpTo(s, n, pid);
    CountsFit(s, pid);
    DropTail(s.wal, s.base, s.readPos, n, CountOf(s.cleaned, pid), pid);
  }

  // A reset and the cleanups since have left behind records the worker has read.
  lemma CountsFit(s: State, pid: nat)
    requires Safe(s) && s.mode.Running?
    ensures s.readPos <= |s.wal| && CountOf(s.base, pid) <= |PartLog(s.wal[..s.readPos], pid)|
    ensures CountOf(s.cleaned, pid) <= |LogUpTo(s.wal, s.base, s.readPos, pid)|
  {
    RunningDue(s, pid);
    BaseBelow(s, s.readPos, pid);
  }

  lemma DropTail(wal: seq<WalRec>, base: map<nat, nat>, i: nat, n: nat, from: nat, pid: nat)
    requires i <= n <= |wal| && CountOf(base, pid) <= |PartLog(wal[..i], pid)| && from <= |LogUpTo(wal, base, i, pid)|
    ensures from <= |LogUpTo(wal, base, n, pid)|
    ensures Drop(LogUpTo(wal, base, n, pid), from) == Drop(LogUpTo(wal, base, i, pid), from) + PartLog(wal[i..n], pid)
  {
    CrashSafety.TailOf(wal, base, i, n, pid);
    var l, tail := LogUpTo(wal, base, i, pid), PartLog(wal[i..n], pid);
    assert (l + tail)[from..] == l[from..] + tail;
  }

  lemma OrderedUpTo(s: State, n: nat, pid: nat)
    requires Safe(s) && n <= |s.wal|
    ensures InOrder(LogUpTo(s.wal, s.base, n, pid))
  {
    LogGrows(s.wal, s.base, n, |s.wal|, pid);
    LogOfWhole(s.wal, s.base, pid);
    var full := LogUpTo(s.wal, s.base, n, pid);
    assert InOrder(CurrentLog(s, pid)) && full == CurrentLog(s, pid)[..|full|];
    InOrderPrefix(CurrentLog(s, pid), |full|);
  }

  lemma SteadyInsert(s: State, step: Step, pid: nat)
    requires Safe(s) && step.Insert? && Enabled(s, step) && Disciplined(s, step)
    ensures Steady(s, step, Due(s, pid), pid)
  {
    if s.backends[step.b].pid == pid {
      InsertNext(s, step);
      DueUpTo(s, |s.wal|, pid);
      LogOfWhole(s.wal, s.base, pid);
      AboveEnd(CurrentLog(s, pid), CountOf(s.cleaned, pid), s.backends[step.b].lsn);
      if Stale(ViewOf(s.wk, pid)) {
        StaleUncleaned(s, pid);
      }
    }
  }

  lemma StaleUncleaned(s: State, pid: nat)
    requires Safe(s) && s.mode.Running? && Stale(ViewOf(s.wk, pid))
    ensures CountOf(s.cleaned, pid) == 0
  {
    RunningDue(s, pid);
    assert TailPeek(map[]) == 0;
  }

  lemma AboveEnd(full: seq<Header>, from: nat, lsn: nat)
    requires InOrder(full) && from <= |full| && lsn == |full| + 1
    ensures lsn > LastLsn(full[from..]) && (from == 0 && full[from..] == [] ==> lsn == 1)
  {
  }

  lemma NothingBetween(s: State, i: nat, j: nat, pid: nat)
    requires i <= j <= |s.wal| && NoPartRecords(s.wal[i..j])
    ensures Between(s, i, j, pid) == []
  {
    NoPartRecordsLog(s.wal[i..j]);
    assert PartLog(s.wal[i..j], pid) == [];
  }

  lemma DueMonotone(s: State, pid: nat)
    requires Safe(s) && s.mode.Running?
    ensures SegMonotone(Due(s, pid))
  {
    RunningDue(s, pid);
    RestMonotone(LogUpTo(s.wal, s.base, s.readPos, pid), CountOf(s.cleaned, pid));
  }

  lemma SteadyWorker(s: State, step: Step, pid: nat)
    requires Safe(s) && Enabled(s, step) && Regular(s, step)
    requires step.ReadRecord? || step.SkipTo? || step.RestartWorker? || step.CleanRestart?
    ensures Steady(s, step, Due(s, pid), pid)
  {
    DueMonotone(s, pid);
    match step {
      case ReadRecord(_, _) =>
      case SkipTo(pos) => NothingBetween(s, s.readPos, pos, pid);
      case RestartWorker =>
        NothingBetween(s, s.readPos, s.flushed, pid);
        assert Drained(ViewOf(s.wk, pid));
      case CleanRestart(bad) =>
        assert s.wal[s.readPos..|s.wal|] == s.wal[s.readPos..];
        NothingBetween(s, s.readPos, |s.wal|, pid);
        assert Drained(ViewOf(FlushAll(s.wk, bad), pid));
    }
  }

  // Replay over full[from..m] of old records and then full[j..].
  lemma ResumesAt(former: seq<Header>, full: seq<Header>, from: nat, m: nat, j: nat)
    requires InOrder(full) && from <= m <= |full| && j <= m && (m > 0 ==> from < m)
    requires forall i :: 0 <= i < |former| ==> former[i].partitionLsn <= m
    ensures Resumes(former + full[j..], full[from..], m - from)
  {
    var tail, acc := former + full[j..], full[from..];
    assert tail == (former + full[j..m]) + full[m..];
    assert acc[m - from..] == full[m..] && acc[..m - from] == full[from..m];
    InOrderRange(full, from, m);
    assert tail[|tail| - (|full| - m)..] == full[m..];
  }

  lemma SteadyCrash(s: State, keep: nat, pid: nat)
    requires Safe(s) && Enabled(s, Crash(keep)) && Regular(s, Crash(keep))
    ensures Steady(s, Crash(keep), Due(s, pid), pid)
  {
    if s.mode.Running? {
      CrashFacts(s, keep, pid);
    }
  }

  lemma CrashFacts(s: State, keep: nat, pid: nat)
    requires Safe(s) && s.mode.Running? && s.flushed <= keep <= |s.wal| && Replayable(s.wk.disk, s.wal, s.base, s.redoPtr)
    ensures var acc, all := Due(s, pid), Due(s, pid) + Between(s, s.readPos, keep, pid);
            SegMonotone(all) && Resumes(Between(s, s.redoPtr, keep, pid), all, |Written(ViewOf(s.wk, pid), acc)|)
  {
    DueMonotoneTo(s, keep, pid);
    WrittenCount(s, pid);
    CrashResumes(s, keep, pid);
  }

  lemma DueMonotoneTo(s: State, n: nat, pid: nat)
    requires Safe(s) && s.mode.Running? && s.readPos <= n <= |s.wal|
    ensures var full, from := LogUpTo(s.wal, s.base, n, pid), CountOf(s.cleaned, pid);
            from <= |full| && Due(s, pid) + Between(s, s.readPos, n, pid) == full[from..] && SegMonotone(full[from..])
  {
    DueUpTo(s, n, pid);
    RestMonotone(LogUpTo(s.wal, s.base, n, pid), CountOf(s.cleaned, pid));
  }

  lemma WrittenCount(s: State, pid: nat)
    requires Safe(s) && s.mode.Running?
    ensures |Written(ViewOf(s.wk, pid), Due(s, pid))| == TailPeek(DirOf(s.wk.disk, pid)) - CountOf(s.cleaned, pid)
  {
    RunningDue(s, pid);
  }

  lemma RestMonotone(l: seq<Header>, from: nat)
    requires InOrder(l) && from <= |l|
    ensures SegMonotone(l[from..])
  {
    InOrderRange(l, from, |l|);
    assert l[from..|l|] == l[from..];
  }

  lemma CrashResumes(s: State, keep: nat, pid: nat)
    requires Safe(s) && s.mode.Running? && s.flushed <= keep <= |s.wal| && Replayable(s.wk.disk, s.wal, s.base, s.redoPtr)
    ensures var full, from, m := LogUpTo(s.wal, s.base, keep, pid), CountOf(s.cleaned, pid), TailPeek(DirOf(s.wk.disk, pid));
            from <= m <= |full| && Resumes(Between(s, s.redoPtr, keep, pid), full[from..], m - from)
  {
    CrashSafety.CrashedLog(s, keep, pid);
    CutResumes(s.wk.disk, s.wal, s.wal[..keep], s.base, s.redoPtr, LogUpTo(s.wal, s.base, keep, pid), CountOf(s.cleaned, pid), pid);
  }

  lemma CutResumes(disk: map<nat, Dir>, wal: seq<WalRec>, cut: seq<WalRec>, base: map<nat, nat>, n: nat,
                   full: seq<Header>, from: nat, pid: nat)
    requires n <= |cut| <= |wal| && cut == wal[..|cut|]
    requires CountOf(base, pid) <= |PartLog(cut, pid)| && Replayable(disk, wal, base, n)
    requires full == LogUpTo(cut, base, |cut|, pid) && InOrder(full) && Holds(DirOf(disk, pid), full, from)
    ensures Resumes(PartLog(wal[n..|cut|], pid), full[from..], TailPeek(DirOf(disk, pid)) - from)
  {
    CutReplayable(disk, wal, base, n, |cut|);
    assert cut[n..] == wal[n..|cut|];
    ReplayResumes(disk, cut, base, n, from, pid);
  }

  lemma ReplayResumes(disk: map<nat, Dir>, wal: seq<WalRec>, base: map<nat, nat>, n: nat, from: nat, pid: nat)
    requires n <= |wal| && CountOf(base, pid) <= |PartLog(wal, pid)| && Replayable(disk, wal, base, n)
    requires var full := LogUpTo(wal, base, |wal|, pid); InOrder(full) && Holds(DirOf(disk, pid), full, from)
    ensures Resumes(PartLog(wal[n..], pid), LogUpTo(wal, base, |wal|, pid)[from..], TailPeek(DirOf(disk, pid)) - from)
  {
    var full, m := LogUpTo(wal, base, |wal|, pid), TailPeek(DirOf(disk, pid));
    CoveredTail(disk, wal, base, n, pid);
    HoldsSome(DirOf(disk, pid), full, from);
    ResumesAt(CrashSafety.OldTail(wal, base, n, pid), full, from, m, |LogUpTo(wal, base, n, pid)|);
  }

  lemma CoveredTail(disk: map<nat, Dir>, wal: seq<WalRec>, base: map<nat, nat>, n: nat, pid: nat)
    requires n <= |wal| && CountOf(base, pid) <= |PartLog(wal, pid)| && Replayable(disk, wal, base, n)
    ensures var former, full := CrashSafety.OldTail(wal, base, n, pid), LogUpTo(wal, base, |wal|, pid);
            var j := |LogUpTo(wal, base, n, pid)|;
            && j <= |full| && PartLog(wal[n..], pid) == former + full[j..] && j <= TailPeek(DirOf(disk, pid))
            && forall i :: 0 <= i < |former| ==> former[i].partitionLsn <= TailPeek(DirOf(disk, pid))
  {
    assert OnDiskOne(disk, wal, base, n, pid) && OldCovered(disk, wal, base, n, pid);
    CrashSafety.OldTailCovered(disk, wal, base, n, pid);
    CrashSafety.ReplayedTail(wal, base, n, pid);
  }

  lemma SteadyCleanup(s: State, keepPtr: nat, pid: nat)
    requires Safe(s) && Enabled(s, Cleanup(pid, keepPtr)) && Regular(s, Cleanup(pid, keepPtr))
    ensures Steady(s, Cleanup(pid, keepPtr), Due(s, pid), pid)
  {
    var l, from := LogUpTo(s.wal, s.base, s.readPos, pid), CountOf(s.cleaned, pid);
    RunningView(s, pid);
    EndSurvives(ViewOf(s.wk, pid), l, from, keepPtr);
    CleanupSteady(s, keepPtr, l[from..], pid);
  }

  lemma RunningView(s: State, pid: nat)
    requires Safe(s) && s.mode.Running?
    ensures var l, from := LogUpTo(s.wal, s.base, s.readPos, pid), CountOf(s.cleaned, pid);
            Follows(ViewOf(s.wk, pid), l, from) && from <= |l| && Due(s, pid) == l[from..]
  {
    RunningFacts(s, pid);
    RunningDue(s, pid);
  }

  lemma CleanupSteady(s: State, keepPtr: nat, acc: seq<Header>, pid: nat)
    requires Enabled(s, Cleanup(pid, keepPtr)) && SessionSafety.LeavesOpen(ViewOf(s.wk, pid), keepPtr)
    requires acc != [] ==> Survives(SegOf(acc[|acc| - 1]), keepPtr)
    ensures Steady(s, Cleanup(pid, keepPtr), acc, pid)
  {
  }

  lemma EndSurvives(v: View, l: seq<Header>, from: nat, keepPtr: nat)
    requires Follows(v, l, from) && from <= |l| && CleanKeeps(v, keepPtr)
    ensures SessionSafety.LeavesOpen(v, keepPtr)
    ensures l[from..] != [] ==> Survives(SegOf(l[from..][|l[from..]| - 1]), keepPtr)
  {
    if from < |l| {
      assert l[from..][|l| - from - 1] == l[|l| - 1];
      LastSurvives(v, l, from, keepPtr);
    } else {
      NothingHeld(v, l, from);
    }
  }

  lemma LastSurvives(v: View, l: seq<Header>, from: nat, keepPtr: nat)
    requires Follows(v, l, from) && CleanKeeps(v, keepPtr) && from < |l|
    ensures Survives(SegOf(l[|l| - 1]), keepPtr) && SessionSafety.LeavesOpen(v, keepPtr)
  {
    BufferedRest(v, l, from);
    if Buffered(v) == [] {
      TopOfHeld(v.dir, l, from);
    } else {
      var w := v.slot.value;
      assert w.pending[|w.pending| - 1] == l[|l| - 1];
    }
  }

  lemma NothingHeld(v: View, l: seq<Header>, from: nat)
    requires Follows(v, l, from) && from == |l|
    ensures l == [] && forall keepPtr :: CleanKeeps(v, keepPtr) ==> SessionSafety.LeavesOpen(v, keepPtr)
  {
    FollowsInOrder(v, l, from);
    HoldsSome(v.dir, l, from);
  }

  /** A disciplined step is steady for every partition. */
  lemma DisciplinedIsSteady(s: State, step: Step, pid: nat)
    requires Safe(s) && Enabled(s, step) && Disciplined(s, step)
    ensures Steady(s, step, Due(s, pid), pid)
  {
    match step {
      case Insert(_, _, _) => SteadyInsert(s, step, pid);
      case Crash(keep) => SteadyCrash(s, keep, pid);
      case Cleanup(p, keepPtr) =>
        if p == pid {
          SteadyCleanup(s, keepPtr, pid);
        }
      case Reset(p) => assert s.wal[s.readPos..|s.wal|] == s.wal[s.readPos..];
      case ReadRecord(_, _) => SteadyWorker(s, step, pid);
      case SkipTo(_) => SteadyWorker(s, step, pid);
      case RestartWorker => SteadyWorker(s, step, pid);
      case CleanRestart(_) => SteadyWorker(s, step, pid);
      case _ =>
    }
  }

  // ---- the sequence of the barrier is the log ----

  lemma DueRead(s: State, step: Step, pid: nat)
    requires Safe(s) && Enabled(s, step) && step.ReadRecord?
    ensures AccNext(s, step, Due(s, pid), pid) == Due(Next(s, step), pid)
  {
    CountsFit(s, pid);
    DueReadAt(s, step, pid);
  }

  lemma DueReadAt(s: State, step: Step, pid: nat)
    requires Enabled(s, step) && step.ReadRecord?
    requires CountOf(s.base, pid) <= |PartLog(s.wal[..s.readPos], pid)|
    requires CountOf(s.cleaned, pid) <= |LogUpTo(s.wal, s.base, s.readPos, pid)|
    ensures AccNext(s, step, Due(s, pid), pid) == Due(Next(s, step), pid)
  {
    DropNext(s.wal, s.base, s.readPos, CountOf(s.cleaned, pid), pid);
    ReadHandled(s, step);
  }

  lemma ReadHandled(s: State, step: Step)
    requires Enabled(s, step) && step.ReadRecord?
    ensures var t := Next(s, step);
            Handled(s) == s.readPos && Handled(t) == s.readPos + 1 && t.wal == s.wal && t.base == s.base && t.cleaned == s.cleaned
  {
  }

  lemma DropNext(wal: seq<WalRec>, base: map<nat, nat>, i: nat, from: nat, pid: nat)
    requires i < |wal| && CountOf(base, pid) <= |PartLog(wal[..i], pid)| && from <= |LogUpTo(wal, base, i, pid)|
    ensures var l := Drop(LogUpTo(wal, base, i, pid), from);
            Drop(LogUpTo(wal, base, i + 1, pid), from) == if IsOwn(wal[i], pid) then l + [wal[i].h] else l
  {
    DropTail(wal, base, i, i + 1, from, pid);
    OneRecord(wal[i], wal[i..i + 1], pid);
  }

  lemma OneRecord(r: WalRec, wal: seq<WalRec>, pid: nat)
    requires wal == [r]
    ensures PartLog(wal, pid) == if IsOwn(r, pid) then [r.h] else []
  {
    PartLogAt(wal, 0, pid);
    assert wal[..1] == wal && wal[..0] == [];
  }

  lemma DueCrash(s: State, keep: nat, pid: nat)
    requires Safe(s) && Enabled(s, Crash(keep))
    ensures AccNext(s, Crash(keep), Due(s, pid), pid) == Due(Next(s, Crash(keep)), pid)
  {
    CutLog(s.wal, s.base, keep, keep, pid);
    if s.mode.Running? {
      DueUpTo(s, keep, pid);
    } else {
      assert s.wal[..keep] == s.wal;
    }
  }

  lemma DueReset(s: State, p: nat, pid: nat)
    requires Safe(s) && Enabled(s, Reset(p)) && Regular(s, Reset(p))
    ensures AccNext(s, Reset(p), Due(s, pid), pid) == Due(Next(s, Reset(p)), pid)
  {
    if p == pid {
      ResetLogs(s, pid);
    } else {
      OtherCounts(s, p, pid);
    }
  }

  // Cleanup takes from the sequence what it takes from the log.
  lemma KeptIsRest(v: View, l: seq<Header>, from: nat, keepPtr: nat) returns (after: nat)
    requires Follows(v, l, from) && from <= |l| && CleanKeeps(v, keepPtr) && SessionSafety.LeavesOpen(v, keepPtr)
    requires Placed(v, l[from..]) && (l[from..] != [] ==> Survives(SegOf(l[from..][|l[from..]| - 1]), keepPtr))
    ensures from <= after <= |l| && Kept(l[from..], keepPtr) == l[after..]
    ensures |Log(v.dir)| - |Log(Cleaned(v.dir, keepPtr))| == after - from
  {
    after := FollowsClean(v, l, from, keepPtr);
    var r, k := CleanView(v, keepPtr), Kept(l[from..], keepPtr);
    FollowedLog(r, l, after);
    PlacedClean(v, l[from..], keepPtr);
    PlacedFiles(r, k);
    KeptOrdered(l, from, keepPtr);
    var a := Written(r, k);
    Redo.PrefixOrdered(a, Buffered(r));
    LogIgnoresEmpty(r.dir);
    LogOfSplit(a);
  }

  lemma KeptOrdered(l: seq<Header>, from: nat, keepPtr: nat)
    requires InOrder(l) && from <= |l|
    ensures Increasing(Kept(l[from..], keepPtr)) && SegMonotone(Kept(l[from..], keepPtr))
  {
    InOrderRange(l, from, |l|);
    assert l[from..|l|] == l[from..];
    KeptIncreasing(l[from..], keepPtr);
    KeptMonotone(l[from..], keepPtr);
  }

  lemma DueCleanup(s: State, p: nat, keepPtr: nat, pid: nat)
    requires Safe(s) && Enabled(s, Cleanup(p, keepPtr)) && Regular(s, Cleanup(p, keepPtr)) && InPlace(s, Due(s, pid), pid)
    ensures AccNext(s, Cleanup(p, keepPtr), Due(s, pid), pid) == Due(Next(s, Cleanup(p, keepPtr)), pid)
  {
    if p == pid {
      var after := CleanedDue(s, keepPtr, pid);
      OwnCleanup(s, keepPtr, pid, after);
    } else {
      CleanupHandled(s, p, keepPtr, pid);
    }
  }

  lemma OwnCleanup(s: State, keepPtr: nat, pid: nat, after: nat)
    requires Enabled(s, Cleanup(pid, keepPtr)) && s.readPos <= |s.wal|
    requires Kept(Due(s, pid), keepPtr) == Drop(LogUpTo(s.wal, s.base, s.readPos, pid), after)
    requires CountOf(Next(s, Cleanup(pid, keepPtr)).cleaned, pid) == after
    ensures AccNext(s, Cleanup(pid, keepPtr), Due(s, pid), pid) == Due(Next(s, Cleanup(pid, keepPtr)), pid)
  {
    CleanupHandled(s, pid, keepPtr, pid);
  }

  lemma CleanupHandled(s: State, p: nat, keepPtr: nat, pid: nat)
    requires Enabled(s, Cleanup(p, keepPtr))
    ensures var t := Next(s, Cleanup(p, keepPtr));
            && Handled(s) == s.readPos == Handled(t) && t.wal == s.wal && t.base == s.base
            && (p != pid ==> CountOf(t.cleaned, pid) == CountOf(s.cleaned, pid))
  {
  }

  lemma CleanedDue(s: State, keepPtr: nat, pid: nat) returns (after: nat)
    requires Safe(s) && Enabled(s, Cleanup(pid, keepPtr)) && Regular(s, Cleanup(pid, keepPtr)) && InPlace(s, Due(s, pid), pid)
    ensures s.readPos <= |s.wal| && Kept(Due(s, pid), keepPtr) == Drop(LogUpTo(s.wal, s.base, s.readPos, pid), after)
    ensures CountOf(Next(s, Cleanup(pid, keepPtr)).cleaned, pid) == after
  {
    CleanupFacts(s, keepPtr, pid);
    after := KeptIsRest(ViewOf(s.wk, pid), LogUpTo(s.wal, s.base, s.readPos, pid), CountOf(s.cleaned, pid), keepPtr);
    CountCleaned(s, keepPtr, pid, after);
  }

  lemma CleanupFacts(s: State, keepPtr: nat, pid: nat)
    requires Safe(s) && Enabled(s, Cleanup(pid, keepPtr)) && Regular(s, Cleanup(pid, keepPtr)) && InPlace(s, Due(s, pid), pid)
    ensures s.readPos <= |s.wal|
    ensures var v, l, from := ViewOf(s.wk, pid), LogUpTo(s.wal, s.base, s.readPos, pid), CountOf(s.cleaned, pid);
            && Follows(v, l, from) && from <= |l| && CleanKeeps(v, keepPtr) && SessionSafety.LeavesOpen(v, keepPtr)
            && Due(s, pid) == l[from..] && Placed(v, l[from..])
            && (l[from..] != [] ==> Survives(SegOf(l[from..][|l[from..]| - 1]), keepPtr))
  {
    RunningView(s, pid);
    EndSurvives(ViewOf(s.wk, pid), LogUpTo(s.wal, s.base, s.readPos, pid), CountOf(s.cleaned, pid), keepPtr);
  }

  lemma CountCleaned(s: State, keepPtr: nat, pid: nat, after: nat)
    requires Enabled(s, Cleanup(pid, keepPtr)) && CountOf(s.cleaned, pid) <= after
    requires var d := DirOf(s.wk.disk, pid); |Log(d)| - |Log(Cleaned(d, keepPtr))| == after - CountOf(s.cleaned, pid)
    ensures CountOf(Next(s, Cleanup(pid, keepPtr)).cleaned, pid) == after
  {
  }

  lemma DueElsewhere(s: State, step: Step, pid: nat)
    requires Safe(s) && Enabled(s, step) && Regular(s, step)
    requires !step.ReadRecord? && !step.Crash? && !step.Reset? && !step.Cleanup?
    ensures Due(Next(s, step), pid) == Due(s, pid)
  {
    var t := Next(s, step);
    HandledShape(s, step);
    SameCleaned(s, step);
    if step.SkipTo? || step.RestartWorker? || step.CleanRestart? {
      PassedOver(s, step);
      PassOver(s.wal, s.base, Handled(s), Handled(t), pid);
    }
    DueSame(s, t, pid);
  }

  lemma DueSame(s: State, t: State, pid: nat)
    requires t.base == s.base && t.cleaned == s.cleaned && s.wal <= t.wal && Handled(s) <= Handled(t) <= |s.wal|
    requires LogUpTo(s.wal, s.base, Handled(t), pid) == LogUpTo(s.wal, s.base, Handled(s), pid)
    ensures Due(t, pid) == Due(s, pid)
  {
    assert t.wal[..Handled(t)] == s.wal[..Handled(t)];
  }

  lemma SameCleaned(s: State, step: Step)
    requires Enabled(s, step) && !step.Reset? && !step.Cleanup?
    ensures Next(s, step).cleaned == s.cleaned
  {
  }

  lemma PassedOver(s: State, step: Step)
    requires Enabled(s, step) && Ordered(s) && Regular(s, step) && (step.SkipTo? || step.RestartWorker? || step.CleanRestart?)
    ensures var t := Next(s, step);
            t.wal == s.wal && Handled(s) <= Handled(t) <= |s.wal| && NoPartRecords(s.wal[Handled(s)..Handled(t)])
  {
    assert s.wal[s.readPos..|s.wal|] == s.wal[s.readPos..];
  }

  lemma DueNext(s: State, step: Step, pid: nat)
    requires Safe(s) && Enabled(s, step) && Disciplined(s, step) && InPlace(s, Due(s, pid), pid)
    ensures AccNext(s, step, Due(s, pid), pid) == Due(Next(s, step), pid)
  {
    if step.ReadRecord? {
      DueRead(s, step, pid);
    } else if step.Crash? {
      DueCrash(s, step.keep, pid);
    } else if step.Reset? {
      DueReset(s, step.pid, pid);
    } else if step.Cleanup? {
      DueCleanup(s, step.pid, step.keepPtr, pid);
    } else {
      AccStays(s, step, Due(s, pid), pid);
      DueElsewhere(s, step, pid);
    }
  }

  lemma {:induction false} DisciplinedRunIsSteady(s: State, steps: seq<Step>, pid: nat)
    requires Safe(s) && Runs(s, steps) && DisciplinedRun(s, steps) && InPlace(s, Due(s, pid), pid)
    ensures SteadyRun(s, steps, Due(s, pid), pid)
    ensures AccRun(s, steps, Due(s, pid), pid) == Due(Run(s, steps), pid) && InPlace(Run(s, steps), Due(Run(s, steps), pid), pid)
    decreases |steps|
  {
    if steps != [] {
      DisciplinedIsSteady(s, steps[0], pid);
      DueNext(s, steps[0], pid);
      PlaceStep(s, steps[0], Due(s, pid), pid);
      SafeStep(s, steps[0]);
      DisciplinedRunIsSteady(Next(s, steps[0]), steps[1..], pid);
    }
  }

  lemma InitialInPlace(pid: nat)
    ensures Due(INITIAL, pid) == [] && InPlace(INITIAL, [], pid)
  {
    assert NonEmpty(DirOf(map[], pid)) == map[];
    AllInFiles(INITIAL, [], pid);
  }

  // ---- the barrier of a disciplined run ----

  // No flush after the write of a record fails.
  ghost predicate FlushesSucceed(steps: seq<Step>) {
    forall i :: 0 <= i < |steps| && steps[i].ReadRecord? ==> steps[i].io.flush
  }

  // The record at WAL position pos is newer than its partition's last reset and cleanup.
  predicate Uncleaned(s: State, pos: nat, pid: nat) {
    && pos < |s.wal| && IsOwn(s.wal[pos], pid)
    && CountOf(s.base, pid) + CountOf(s.cleaned, pid) <= |PartLog(s.wal[..pos], pid)|
  }

  lemma DueHas(s: State, pos: nat, pid: nat)
    requires Safe(s) && pos < Handled(s) && Handled(s) <= |s.wal| && Uncleaned(s, pos, pid)
    ensures s.wal[pos].h in Due(s, pid)
  {
    var n, k := Handled(s), |LogUpTo(s.wal, s.base, pos, pid)|;
    LogAt(s.wal, s.base, pos, pid);
    LogGrows(s.wal, s.base, pos + 1, n, pid);
    var l, from := LogUpTo(s.wal, s.base, n, pid), CountOf(s.cleaned, pid);
    assert l[k] == s.wal[pos].h && from <= k;
    assert Drop(l, from)[k - from] == l[k];
  }

  /** In a disciplined run every record below last_processed_lsn and newer than its
      partition's last reset and cleanup is in its file, or a failed flush keeps it in the
      buffer. */
  lemma DisciplinedBarrier(steps: seq<Step>, pos: nat, pid: nat)
    requires Runs(INITIAL, steps) && DisciplinedRun(INITIAL, steps)
    requires pos < Run(INITIAL, steps).lastProcessed && Uncleaned(Run(INITIAL, steps), pos, pid)
    ensures Delivered(Run(INITIAL, steps), pos)
    ensures FlushesSucceed(steps) ==>
              var t := Run(INITIAL, steps); t.wal[pos].h in FileOf(DirOf(t.wk.disk, pid), SegOf(t.wal[pos].h))
  {
    InitialSafe();
    InitialInPlace(pid);
    DisciplinedRunIsSteady(INITIAL, steps, pid);
    SafeRun(INITIAL, steps);
    var t := Run(INITIAL, steps);
    PlacementsRun(INITIAL, steps, 0);
    DueHas(t, pos, pid);
    PlacedOnce(ViewOf(t.wk, pid), Due(t, pid), t.wal[pos].h);
    if FlushesSucceed(steps) {
      AllOwnSucceed(INITIAL, steps, pid);
      DrainedRun(INITIAL, steps, [], pid);
    }
  }

  lemma {:induction false} AllOwnSucceed(s: State, steps: seq<Step>, pid: nat)
    requires Runs(s, steps) && FlushesSucceed(steps)
    ensures OwnFlushesSucceed(s, steps, pid)
    decreases |steps|
  {
    if steps != [] {
      AllOwnSucceed(Next(s, steps[0]), steps[1..], pid);
    }
  }
}
