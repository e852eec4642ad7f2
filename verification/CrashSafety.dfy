/** Run-long theorems about the whole machine under the hypotheses of Discipline: no gaps
    and no duplicates on disk across any number of failed flushes, crashes, recoveries,
    restarts and resets, and how far each hypothesis is needed. */
module CrashSafety {
  import opened Header
  import opened SegmentDir
  import opened WriterSpec
  import opened Demux
  import opened InStep
  import opened Redo
  import opened Machine
  import opened Discipline
  import opened CrashInvariant

  // ---- what the invariant says about a disk ----

  // The partition's log on disk, in terms of its flushed records since the last reset: they
  // are there without a gap, from what cleanup has left up to the watermark.
  ghost predicate DiskRange(s: State, pid: nat) {
    && s.flushed <= |s.wal|
    && var l := LogUpTo(s.wal, s.base, s.flushed, pid);
       var from, d := CountOf(s.cleaned, pid), DirOf(s.wk.disk, pid);
       && InOrder(l)
       && from <= TailPeek(d) <= |l|
       && Log(d) == l[from..TailPeek(d)]
  }

  lemma SafeDisk(s: State, pid: nat)
    requires Safe(s)
    ensures DiskRange(s, pid)
  {
    FlushedInOrder(s, pid);
    SafeHolds(s, pid);
    HeldLog(DirOf(s.wk.disk, pid), LogUpTo(s.wal, s.base, s.flushed, pid), CountOf(s.cleaned, pid));
  }

  lemma FlushedInOrder(s: State, pid: nat)
    requires Safe(s)
    ensures s.flushed <= |s.wal| && InOrder(LogUpTo(s.wal, s.base, s.flushed, pid))
  {
    assert InOrder(CurrentLog(s, pid));
    CutInOrder(s.wal, s.wal[..s.flushed], s.base, s.flushed, pid);
  }

  lemma SafeHolds(s: State, pid: nat)
    requires Safe(s)
    ensures Holds(DirOf(s.wk.disk, pid), LogUpTo(s.wal, s.base, s.flushed, pid), CountOf(s.cleaned, pid))
  {
    match s.mode {
      case Running =>
        var from, r := CountOf(s.cleaned, pid), LogUpTo(s.wal, s.base, s.readPos, pid);
        assert Follows(ViewOf(s.wk, pid), r, from);
        FollowsInOrder(ViewOf(s.wk, pid), r, from);
        LogGrows(s.wal, s.base, s.readPos, s.flushed, pid);
        HeldLonger(DirOf(s.wk.disk, pid), r, from, LogUpTo(s.wal, s.base, s.flushed, pid));
      case Recovering(_) =>
        assert HeldOne(s.wk.disk, s.wal, s.base, s.cleaned, pid);
    }
  }

  ghost predicate NeverCleaned(steps: seq<Step>, pid: nat) {
    forall i :: 0 <= i < |steps| && steps[i].Cleanup? ==> steps[i].pid != pid
  }

  lemma {:induction false} NothingCleaned(s: State, steps: seq<Step>, pid: nat)
    requires Runs(s, steps) && NeverCleaned(steps, pid) && CountOf(s.cleaned, pid) == 0
    ensures CountOf(Run(s, steps).cleaned, pid) == 0
    decreases |steps|
  {
    if steps != [] {
      CleansNothing(s, steps[0], pid);
      NothingCleaned(Next(s, steps[0]), steps[1..], pid);
    }
  }

  lemma CleansNothing(s: State, step: Step, pid: nat)
    requires Enabled(s, step) && CountOf(s.cleaned, pid) == 0 && (step.Cleanup? ==> step.pid != pid)
    ensures CountOf(Next(s, step).cleaned, pid) == 0
  {
  }

  lemma RangeIsContiguous(l: seq<Header>, from: nat, k: nat)
    requires InOrder(l) && from <= k <= |l|
    ensures forall i :: 0 <= i < k - from ==> l[from..k][i].partitionLsn == from + i + 1
    ensures from == 0 ==> Gapless(l[from..k]) && l[from..k] <= l
  {
  }

  /** In every state reachable by a disciplined run -- with any number of failed flushes,
      crashes, interrupted recoveries, restarts, resets and cleanups -- the log on disk of
      every partition has no gap and is a range of its flushed WAL records since its last
      reset, up to the watermark; and it is exactly 1..k, a prefix of those records, for a
      partition that was never cleaned up. */
  lemma DiskIsGaplessPrefix(steps: seq<Step>, pid: nat)
    requires Runs(INITIAL, steps) && DisciplinedRun(INITIAL, steps)
    ensures var s := Run(INITIAL, steps);
            var l, from := Log(DirOf(s.wk.disk, pid)), CountOf(s.cleaned, pid);
            && DiskRange(s, pid)
            && (forall i :: 0 <= i < |l| ==> l[i].partitionLsn == from + i + 1)
            && (NeverCleaned(steps, pid) ==> Gapless(l) && l <= LogUpTo(s.wal, s.base, s.flushed, pid))
  {
    SafeReached(steps);
    var s := Run(INITIAL, steps);
    SafeDisk(s, pid);
    RangeIsContiguous(LogUpTo(s.wal, s.base, s.flushed, pid), CountOf(s.cleaned, pid), TailPeek(DirOf(s.wk.disk, pid)));
    if NeverCleaned(steps, pid) {
      NothingCleaned(INITIAL, steps, pid);
    }
  }

  lemma SafeReached(steps: seq<Step>)
    requires Runs(INITIAL, steps) && DisciplinedRun(INITIAL, steps)
    ensures Safe(Run(INITIAL, steps))
  {
    InitialSafe();
    SafeRun(INITIAL, steps);
  }

  /** While the server runs, disk plus buffer is exactly what the worker has read and cleanup
      has left: a failed flush delays records, it neither loses nor doubles them. */
  lemma DiskPlusBuffer(steps: seq<Step>, pid: nat)
    requires Runs(INITIAL, steps) && DisciplinedRun(INITIAL, steps) && Run(INITIAL, steps).mode.Running?
    ensures var s := Run(INITIAL, steps);
            && s.readPos <= |s.wal|
            && var l := LogUpTo(s.wal, s.base, s.readPos, pid);
               && CountOf(s.cleaned, pid) <= |l|
               && Log(DirOf(s.wk.disk, pid)) + Buffered(ViewOf(s.wk, pid)) == l[CountOf(s.cleaned, pid)..]
  {
    SafeReached(steps);
    var s := Run(INITIAL, steps);
    var v, l := ViewOf(s.wk, pid), LogUpTo(s.wal, s.base, s.readPos, pid);
    assert Follows(v, l, CountOf(s.cleaned, pid));
    FollowedLog(v, l, CountOf(s.cleaned, pid));
  }

  // The rest of the log since cleanup, on disk as a whole.
  ghost predicate WholeRest(s: State, pid: nat) {
    && CountOf(s.cleaned, pid) <= |CurrentLog(s, pid)| == TailPeek(DirOf(s.wk.disk, pid))
    && Log(DirOf(s.wk.disk, pid)) == CurrentLog(s, pid)[CountOf(s.cleaned, pid)..]
  }

  /** Whatever the interleaving of backends, the value that creates an allocator entry --
      the first one after a start, a recovery or a reset -- is one past the end of the log
      on disk, although the scan that found it ran without a lock. */
  lemma FirstLsnContinuesLog(steps: seq<Step>, b: nat)
    requires Runs(INITIAL, steps) && DisciplinedRun(INITIAL, steps)
    requires Enabled(Run(INITIAL, steps), Enter(b))
    requires var s := Run(INITIAL, steps); s.backends[b].pid !in s.alloc
    ensures var s := Run(INITIAL, steps);
            var pid := s.backends[b].pid;
            && Next(s, Enter(b)).backends[b] == Holding(pid, CountOf(s.cleaned, pid) + |Log(DirOf(s.wk.disk, pid))| + 1)
            && WholeRest(s, pid)
  {
    SafeReached(steps);
    FirstLsn(Run(INITIAL, steps), b);
  }

  lemma FirstLsn(s: State, b: nat)
    requires Safe(s) && Enabled(s, Enter(b)) && s.backends[b].pid !in s.alloc
    ensures var pid := s.backends[b].pid;
            && Next(s, Enter(b)).backends[b] == Holding(pid, CountOf(s.cleaned, pid) + |Log(DirOf(s.wk.disk, pid))| + 1)
            && WholeRest(s, pid)
  {
    assert BackendGood(s, s.backends[b]);
    UnclaimedLog(s, s.backends[b].pid);
  }

  lemma WholeRestOf(s: State, pid: nat)
    requires s.flushed <= |s.wal| && DiskRange(s, pid)
    requires TailPeek(DirOf(s.wk.disk, pid)) == |CurrentLog(s, pid)|
    ensures WholeRest(s, pid)
  {
    LogGrows(s.wal, s.base, s.flushed, |s.wal|, pid);
    LogOfWhole(s.wal, s.base, pid);
    var l, from := LogUpTo(s.wal, s.base, s.flushed, pid), CountOf(s.cleaned, pid);
    assert l == CurrentLog(s, pid);
    assert l[from..|l|] == l[from..];
  }

  lemma UnclaimedLog(s: State, pid: nat)
    requires Safe(s) && s.mode.Running? && pid !in s.alloc
    ensures WholeRest(s, pid)
  {
    SafeDisk(s, pid);
    WholeRestOf(s, pid);
  }

  /** Recovery restores everything: once it has finished, every partition's log is the
      whole of its surviving WAL records since its last reset, but for what cleanup removed. */
  lemma RecoveryComplete(steps: seq<Step>, pid: nat)
    requires Runs(INITIAL, steps) && DisciplinedRun(INITIAL, steps)
    requires Enabled(Run(INITIAL, steps), FinishRecovery)
    ensures WholeRest(Run(INITIAL, steps), pid)
  {
    SafeReached(steps);
    var s := Run(INITIAL, steps);
    RecoveredOne(s, pid);
    var l := CurrentLog(s, pid);
    HeldLog(DirOf(s.wk.disk, pid), l, CountOf(s.cleaned, pid));
    assert l[CountOf(s.cleaned, pid)..|l|] == l[CountOf(s.cleaned, pid)..];
  }

  // ---- which insertions leave a gap ----

  ghost predicate WalGapless(s: State) {
    forall pid :: Gapless(CurrentLog(s, pid))
  }

  ghost predicate GaplessThroughout(s: State, steps: seq<Step>)
    requires Runs(s, steps)
    decreases |steps|
  {
    WalGapless(s) && (steps == [] || GaplessThroughout(Next(s, steps[0]), steps[1..]))
  }

  lemma InsertGap(s: State, step: Step)
    requires Safe(s) && step.Insert? && Enabled(s, step) && Regular(s, step) && !NothingSkipped(s, step.b)
    ensures !WalGapless(Next(s, step))
  {
    var h := InsertHeader(s, step.b, step.orig, step.flags);
    var t := Next(s, step);
    SafeBases(s);
    NextLsnIff(s, step.b);
    CurrentLogInsert(s, t, PartRec(h), h.partitionId);
    var l := CurrentLog(s, h.partitionId);
    assert CurrentLog(t, h.partitionId)[|l|] == h;
    assert !Gapless(CurrentLog(t, h.partitionId));
  }

  lemma SafeGapless(s: State)
    requires Safe(s)
    ensures WalGapless(s)
  {
    forall pid
      ensures Gapless(CurrentLog(s, pid))
    {
      assert InOrder(Drop(PartLog(s.wal, pid), CountOf(s.base, pid)));
    }
  }

  /** The exact condition: when WAL order is LSN order, the WAL of every partition stays
      gapless through a run if and only if no insertion passes over a discarded LSN. */
  lemma {:induction false} GaplessIff(s: State, steps: seq<Step>)
    requires Safe(s) && Runs(s, steps) && RegularRun(s, steps)
    ensures GaplessThroughout(s, steps) <==> SkipFreeRun(s, steps)
    decreases |steps|
  {
    SafeGapless(s);
    if steps != [] {
      if steps[0].Insert? && !NothingSkipped(s, steps[0].b) {
        InsertGap(s, steps[0]);
      } else {
        SafeStep(s, steps[0]);
        GaplessIff(Next(s, steps[0]), steps[1..]);
      }
    }
  }

  lemma GiveUpDiscards(s: State, step: Step)
    requires Safe(s) && Enabled(s, step) && GivesUp(s, step)
    ensures Discarded(Next(s, step), s.backends[step.b].pid, s.backends[step.b].lsn)
  {
    var t, k := Next(s, step), s.backends[step.b];
    var l := CurrentLog(s, k.pid);
    assert BackendGood(s, k);
    assert CurrentLog(t, k.pid) == l;
    IssuedBetween(s.issued[k.pid], s.alloc[k.pid], |l|, k.lsn);
    forall i | 0 <= i < |l|
      ensures l[i].partitionLsn != k.lsn
    {
      InsertedBelow(s, k.pid, i);
    }
  }

  /** LSNs are discarded by one thing only: a backend that gives up the number it holds --
      an error between allocation and insertion, or an allocation made for its own sake. */
  lemma DiscardIff(s: State, step: Step)
    requires Safe(s) && Enabled(s, step) && NothingDiscarded(s)
    ensures NothingDiscarded(Next(s, step)) <==> !GivesUp(s, step)
  {
    if GivesUp(s, step) {
      GiveUpDiscards(s, step);
    } else {
      SafeBases(s);
      DiscardNeedsAbort(s, step);
    }
  }

  ghost predicate NeverGivesUp(s: State, steps: seq<Step>)
    requires Runs(s, steps)
    decreases |steps|
  {
    steps == [] || (!GivesUp(s, steps[0]) && NeverGivesUp(Next(s, steps[0]), steps[1..]))
  }

  /** As long as every backend that took a number inserts its record, WAL order being LSN
      order is all the discipline the allocator needs. */
  lemma {:induction false} OrderSuffices(s: State, steps: seq<Step>)
    requires Safe(s) && NothingDiscarded(s) && Runs(s, steps)
    requires RegularRun(s, steps) && NeverGivesUp(s, steps)
    ensures DisciplinedRun(s, steps) && SkipFreeRun(s, steps)
    decreases |steps|
  {
    if steps != [] {
      SafeStep(s, steps[0]);
      SafeBases(s);
      DiscardNeedsAbort(s, steps[0]);
      OrderSuffices(Next(s, steps[0]), steps[1..]);
    }
  }

  lemma RunCons(s: State, step: Step, rest: seq<Step>)
    requires Enabled(s, step) && Runs(Next(s, step), rest)
    ensures Runs(s, [step] + rest) && Run(s, [step] + rest) == Run(Next(s, step), rest)
    ensures Regular(s, step) && RegularRun(Next(s, step), rest) ==> RegularRun(s, [step] + rest)
  {
    assert ([step] + rest)[1..] == rest;
  }

  const GAP_RUN := [Look(1, 7), Scan(1), Enter(1), Abort(1), Look(2, 7), Scan(2), Enter(2), Insert(2, 1, 1)]

  /** A run that leaves a gap: backend 1 takes number 1 and fails, backend 2 takes number 2
      and inserts it.  WAL order is LSN order throughout. */
  lemma DiscardLeavesGap()
    ensures Runs(INITIAL, GAP_RUN) && RegularRun(INITIAL, GAP_RUN)
    ensures CurrentLog(Run(INITIAL, GAP_RUN), 7) == [Header(PARTWAL_MAGIC, 7, 1, 2, 1)]
    ensures !GaplessThroughout(INITIAL, GAP_RUN)
  {
    var last := [Look(2, 7), Scan(2), Enter(2)] + [Insert(2, 1, 1)];
    var steps := [Look(1, 7), Scan(1), Enter(1)] + ([Abort(1)] + last);
    GapRun(last, steps);
    assert GAP_RUN == steps;
    GapAtEnd(INITIAL, steps);
    NotGapless(Run(INITIAL, steps), 7);
  }

  lemma NotGapless(s: State, pid: nat)
    requires |CurrentLog(s, pid)| == 1 && CurrentLog(s, pid)[0].partitionLsn == 2
    ensures !WalGapless(s)
  {
    assert !Gapless(CurrentLog(s, pid));
  }

  lemma GapRun(last: seq<Step>, steps: seq<Step>)
    requires last == [Look(2, 7), Scan(2), Enter(2)] + [Insert(2, 1, 1)]
    requires steps == [Look(1, 7), Scan(1), Enter(1)] + ([Abort(1)] + last)
    ensures Runs(INITIAL, steps) && RegularRun(INITIAL, steps)
    ensures CurrentLog(Run(INITIAL, steps), 7) == [Header(PARTWAL_MAGIC, 7, 1, 2, 1)]
  {
    var s := AfterTaking(INITIAL, 1, 1);
    var t := Next(s, Abort(1));
    assert t.backends == map[];
    TwoAlone(t, last);
    RunCons(s, Abort(1), last);
    assert TailPeek(DirOf(INITIAL.wk.disk, 7)) == 0;
    TakeThen(INITIAL, 1, 1, [Abort(1)] + last);
  }

  lemma TwoAlone(t: State, last: seq<Step>)
    requires last == [Look(2, 7), Scan(2), Enter(2)] + [Insert(2, 1, 1)]
    requires t.mode.Running? && t.wal == [] && t.base == map[] && t.backends == map[]
    requires DirOf(t.wk.disk, 7) == map[] && 7 in t.alloc && t.alloc[7] == 2
    ensures Runs(t, last) && RegularRun(t, last)
    ensures CurrentLog(Run(t, last), 7) == [Header(PARTWAL_MAGIC, 7, 1, 2, 1)]
  {
    var u := AfterTaking(t, 2, 2);
    assert u.backends == map[2 := Holding(7, 2)];
    InsertTwo(u);
    RunCons(u, Insert(2, 1, 1), []);
    assert [Insert(2, 1, 1)] + [] == [Insert(2, 1, 1)];
    assert TailPeek(map[]) == 0;
    TakeThen(t, 2, 2, [Insert(2, 1, 1)]);
  }

  function AfterTaking(s: State, b: nat, lsn: nat): State {
    s.(alloc := s.alloc[7 := lsn + 1],
       issued := s.issued[7 := (if 7 in s.issued then s.issued[7] else []) + [lsn]],
       backends := s.backends[b := Holding(7, lsn)])
  }

  lemma TakeNumber(s: State, b: nat, lsn: nat)
    requires s.mode.Running? && b !in s.backends && TailPeek(DirOf(s.wk.disk, 7)) == 0
    requires if 7 in s.alloc then s.alloc[7] == lsn else lsn == 1
    ensures Enabled(s, Look(b, 7))
    ensures var p := Next(s, Look(b, 7));
            Enabled(p, Scan(b)) && var q := Next(p, Scan(b)); Enabled(q, Enter(b)) && Next(q, Enter(b)) == AfterTaking(s, b, lsn)
  {
    LookThenScan(s, b);
    EnterTakes(s, s.(backends := s.backends[b := Scanned(7, 1)]), b, lsn);
  }

  lemma LookThenScan(s: State, b: nat)
    requires s.mode.Running? && b !in s.backends && TailPeek(DirOf(s.wk.disk, 7)) == 0
    ensures Enabled(s, Look(b, 7))
    ensures var p := Next(s, Look(b, 7));
            Enabled(p, Scan(b)) && Next(p, Scan(b)) == s.(backends := s.backends[b := Scanned(7, 1)])
  {
  }

  lemma EnterTakes(s: State, q: State, b: nat, lsn: nat)
    requires q == s.(backends := s.backends[b := Scanned(7, 1)]) && s.mode.Running?
    requires if 7 in s.alloc then s.alloc[7] == lsn else lsn == 1
    ensures Enabled(q, Enter(b)) && Next(q, Enter(b)) == AfterTaking(s, b, lsn)
  {
  }

  lemma TakeThen(s: State, b: nat, lsn: nat, rest: seq<Step>)
    requires s.mode.Running? && b !in s.backends && TailPeek(DirOf(s.wk.disk, 7)) == 0
    requires if 7 in s.alloc then s.alloc[7] == lsn else lsn == 1
    requires Runs(AfterTaking(s, b, lsn), rest) && RegularRun(AfterTaking(s, b, lsn), rest)
    ensures var steps := [Look(b, 7), Scan(b), Enter(b)] + rest;
            Runs(s, steps) && RegularRun(s, steps) && Run(s, steps) == Run(AfterTaking(s, b, lsn), rest)
  {
    TakeNumber(s, b, lsn);
    RunThree(s, Look(b, 7), Scan(b), Enter(b), rest);
  }

  lemma RunThree(s: State, x: Step, y: Step, z: Step, rest: seq<Step>)
    requires Enabled(s, x) && Regular(s, x)
    requires var p := Next(s, x); Enabled(p, y) && Regular(p, y)
    requires var q := Next(Next(s, x), y); Enabled(q, z) && Regular(q, z)
    requires var r := Next(Next(Next(s, x), y), z); Runs(r, rest) && RegularRun(r, rest)
    ensures Runs(s, [x, y, z] + rest) && RegularRun(s, [x, y, z] + rest)
    ensures Run(s, [x, y, z] + rest) == Run(Next(Next(Next(s, x), y), z), rest)
  {
    var p := Next(s, x);
    var q := Next(p, y);
    RunCons(q, z, rest);
    RunCons(p, y, [z] + rest);
    RunCons(s, x, [y] + ([z] + rest));
    assert [x] + ([y] + ([z] + rest)) == [x, y, z] + rest;
  }

  lemma InsertTwo(u: State)
    requires u.mode.Running? && u.wal == [] && u.base == map[] && u.backends == map[2 := Holding(7, 2)]
    ensures Enabled(u, Insert(2, 1, 1)) && Regular(u, Insert(2, 1, 1))
    ensures CurrentLog(Next(u, Insert(2, 1, 1)), 7) == [Header(PARTWAL_MAGIC, 7, 1, 2, 1)]
  {
    CurrentLogInsert(u, Next(u, Insert(2, 1, 1)), PartRec(Header(PARTWAL_MAGIC, 7, 1, 2, 1)), 7);
  }

  lemma {:induction false} GapAtEnd(s: State, steps: seq<Step>)
    requires Runs(s, steps)
    ensures GaplessThroughout(s, steps) ==> WalGapless(Run(s, steps))
    decreases |steps|
  {
    if steps != [] {
      GapAtEnd(Next(s, steps[0]), steps[1..]);
    }
  }

  // ---- passing over WAL ----

  lemma SameLog(s: State, i: nat, n: nat, pid: nat)
    requires Safe(s) && s.mode.Running? && s.readPos <= i <= n <= |s.wal|
    requires |LogUpTo(s.wal, s.base, n, pid)| <= |LogUpTo(s.wal, s.base, i, pid)|
    ensures PartLog(s.wal[i..n], pid) == []
  {
    BaseBelow(s, i, pid);
    TailOf(s.wal, s.base, i, n, pid);
  }

  lemma ShorterDisk(s: State, n: nat, pid: nat)
    requires Safe(s) && s.mode.Running? && s.readPos <= n <= |s.wal|
    requires Follows(ViewOf(s.wk.(slots := []), pid), LogUpTo(s.wal, s.base, n, pid), CountOf(s.cleaned, pid))
    ensures Drained(ViewOf(s.wk, pid))
    ensures PartLog(s.wal[s.readPos..n], pid) == []
  {
    var v, w := ViewOf(s.wk, pid), ViewOf(s.wk.(slots := []), pid);
    var l, ln, from := LogUpTo(s.wal, s.base, s.readPos, pid), LogUpTo(s.wal, s.base, n, pid), CountOf(s.cleaned, pid);
    assert v.dir == w.dir && Drained(w);
    DrainedOnDisk(w, ln, from);
    assert Follows(v, l, from);
    FollowsInOrder(v, l, from);
    LogGrows(s.wal, s.base, s.readPos, n, pid);
    DrainedOnDisk(v, l, from);
    SameLog(s, s.readPos, n, pid);
  }

  // A worker that has not read as far as it stands lacks the records in between.
  lemma StandsTooFar(s: State, n: nat, pid: nat)
    requires Safe(s) && s.mode.Running? && s.readPos <= n <= |s.wal|
    requires Follows(ViewOf(s.wk, pid), LogUpTo(s.wal, s.base, n, pid), CountOf(s.cleaned, pid))
    ensures PartLog(s.wal[s.readPos..n], pid) == []
  {
    var v, from := ViewOf(s.wk, pid), CountOf(s.cleaned, pid);
    assert Follows(v, LogUpTo(s.wal, s.base, s.readPos, pid), from);
    FollowedLog(v, LogUpTo(s.wal, s.base, s.readPos, pid), from);
    FollowedLog(v, LogUpTo(s.wal, s.base, n, pid), from);
    SameLog(s, s.readPos, n, pid);
  }

  /** Moving the reader ahead as the worker does -- a skip to the flush frontier or to the
      next readable record, writers and buffers kept -- keeps disk and writers a faithful
      copy exactly when no partition record is passed over. */
  lemma SkipFaithfulIff(s: State, n: nat)
    requires Safe(s) && s.mode.Running? && s.readPos <= n <= |s.wal|
    ensures Reflects(s.wk, s.wal, s.base, s.cleaned, n) <==> NoPartRecords(s.wal[s.readPos..n])
  {
    if NoPartRecords(s.wal[s.readPos..n]) {
      forall pid
        ensures Follows(ViewOf(s.wk, pid), LogUpTo(s.wal, s.base, n, pid), CountOf(s.cleaned, pid))
      {
        PassOver(s.wal, s.base, s.readPos, n, pid);
        assert Follows(ViewOf(s.wk, pid), LogUpTo(s.wal, s.base, s.readPos, pid), CountOf(s.cleaned, pid));
      }
    } else if Reflects(s.wk, s.wal, s.base, s.cleaned, n) {
      forall pid
        ensures PartLog(s.wal[s.readPos..n], pid) == []
      {
        StandsTooFar(s, n, pid);
      }
      NoPartRecordsLog(s.wal[s.readPos..n]);
    }
  }

  /** Moving the worker ahead with fresh writers -- a worker restart, or a clean server
      restart after its last flush -- keeps the disk a faithful copy exactly when no
      partition record is passed over and no buffered record is dropped. */
  lemma RestartFaithfulIff(s: State, n: nat)
    requires Safe(s) && s.mode.Running? && s.readPos <= n <= |s.wal|
    ensures Reflects(s.wk.(slots := []), s.wal, s.base, s.cleaned, n)
       <==> NoPartRecords(s.wal[s.readPos..n]) && AllDrained(s.wk)
  {
    var wk := s.wk.(slots := []);
    if NoPartRecords(s.wal[s.readPos..n]) && AllDrained(s.wk) {
      forall pid
        ensures Follows(ViewOf(wk, pid), LogUpTo(s.wal, s.base, n, pid), CountOf(s.cleaned, pid))
      {
        assert Follows(ViewOf(s.wk, pid), LogUpTo(s.wal, s.base, s.readPos, pid), CountOf(s.cleaned, pid));
        assert Drained(ViewOf(s.wk, pid));
        PassOver(s.wal, s.base, s.readPos, n, pid);
        DropAdvances(s, s.wk, n, pid);
      }
    } else if Reflects(wk, s.wal, s.base, s.cleaned, n) {
      forall pid
        ensures Drained(ViewOf(s.wk, pid)) && PartLog(s.wal[s.readPos..n], pid) == []
      {
        ShorterDisk(s, n, pid);
      }
      NoPartRecordsLog(s.wal[s.readPos..n]);
    }
  }

  // ---- reset ----

  // The numbers issued for the partition start at 1.
  ghost predicate FromOne(s: State, pid: nat) {
    && (pid in s.alloc ==> pid in s.issued && s.alloc[pid] == |s.issued[pid]| + 1)
    && (pid !in s.alloc ==> CurrentLog(s, pid) == [])
  }

  predicate ServerGoesDown(step: Step) {
    step.Crash? || step.CleanRestart?
  }

  lemma FromOneInsert(s: State, t: State, r: WalRec, pid: nat)
    requires Safe(s) && FromOne(s, pid) && t.wal == s.wal + [r] && t.base == s.base
    requires t.alloc == s.alloc && t.issued == s.issued
    requires r.PartRec? && r.h.partitionId == pid ==> pid in s.alloc
    ensures FromOne(t, pid)
  {
    SafeBases(s);
    CurrentLogInsert(s, t, r, pid);
  }

  lemma FromOneEnter(s: State, b: nat, pid: nat)
    requires Safe(s) && FromOne(s, pid) && Enabled(s, Enter(b))
    ensures FromOne(Next(s, Enter(b)), pid)
  {
    assert BackendGood(s, s.backends[b]);
    assert CurrentLog(Next(s, Enter(b)), pid) == CurrentLog(s, pid);
  }

  lemma FromOneReset(s: State, p: nat, pid: nat)
    requires Safe(s) && FromOne(s, pid) && Enabled(s, Reset(p)) && Regular(s, Reset(p))
    ensures FromOne(Next(s, Reset(p)), pid)
  {
    ResetOne(s, p, pid);
  }

  lemma FromOneStep(s: State, step: Step, pid: nat)
    requires Safe(s) && Enabled(s, step) && Disciplined(s, step) && !ServerGoesDown(step)
    requires s.mode.Running? && FromOne(s, pid)
    ensures Next(s, step).mode.Running? && FromOne(Next(s, step), pid)
  {
    var t := Next(s, step);
    StaysUp(s, step);
    if step.Insert? {
      HoldsClaimed(s, step.b);
      FromOneInsert(s, t, PartRec(InsertHeader(s, step.b, step.orig, step.flags)), pid);
    } else if step.InsertOther? {
      FromOneInsert(s, t, OtherRec, pid);
    } else if step.Enter? {
      FromOneEnter(s, step.b, pid);
    } else if step.Reset? {
      FromOneReset(s, step.pid, pid);
    } else {
      FromOneElsewhere(s, step, pid);
    }
  }

  lemma FromOneElsewhere(s: State, step: Step, pid: nat)
    requires Enabled(s, step) && s.mode.Running? && FromOne(s, pid) && !ServerGoesDown(step)
    requires !step.Insert? && !step.InsertOther? && !step.Enter? && !step.Reset?
    ensures FromOne(Next(s, step), pid)
  {
    var t := Next(s, step);
    assert t.wal == s.wal && t.base == s.base && t.alloc == s.alloc && t.issued == s.issued;
  }

  lemma StaysUp(s: State, step: Step)
    requires Enabled(s, step) && s.mode.Running? && !ServerGoesDown(step)
    ensures Next(s, step).mode.Running?
  {
  }

  lemma HoldsClaimed(s: State, b: nat)
    requires Safe(s) && b in s.backends && s.backends[b].Holding?
    ensures s.backends[b].pid in s.alloc
  {
    assert BackendGood(s, s.backends[b]);
  }

  lemma FromOneSafe(s: State, step: Step, pid: nat)
    requires Safe(s) && Enabled(s, step) && Disciplined(s, step) && !ServerGoesDown(step)
    requires s.mode.Running? && FromOne(s, pid)
    ensures var t := Next(s, step); Safe(t) && t.mode.Running? && FromOne(t, pid)
  {
    FromOneStep(s, step, pid);
    SafeStep(s, step);
  }

  lemma {:induction false} FromOneRun(s: State, steps: seq<Step>, pid: nat)
    requires Safe(s) && Runs(s, steps) && DisciplinedRun(s, steps)
    requires forall i :: 0 <= i < |steps| ==> !ServerGoesDown(steps[i])
    requires s.mode.Running? && FromOne(s, pid)
    ensures Run(s, steps).mode.Running? && FromOne(Run(s, steps), pid)
    decreases |steps|
  {
    if steps != [] {
      FromOneSafe(s, steps[0], pid);
      FromOneRun(Next(s, steps[0]), steps[1..], pid);
    }
  }

  // Every number issued for the partition is in its log.
  lemma AllInserted(s: State, pid: nat)
    requires Safe(s) && FromOne(s, pid) && pid in s.issued
    requires forall b :: b in s.backends ==> !(s.backends[b].Holding? && s.backends[b].pid == pid)
    requires forall lsn :: !Discarded(s, pid, lsn)
    ensures |CurrentLog(s, pid)| == |s.issued[pid]|
  {
    var l := CurrentLog(s, pid);
    assert EntryGood(s.issued[pid], s.alloc[pid], |l|);
    if |l| < |s.issued[pid]| {
      var v := |l| + 1;
      IssuedBetween(s.issued[pid], s.alloc[pid], |l|, v);
      forall i | 0 <= i < |l|
        ensures l[i].partitionLsn != v
      {
        InsertedBelow(s, pid, i);
      }
      assert Discarded(s, pid, v);
    }
  }

  // Every number taken since has been inserted, read, and written out.
  ghost predicate Settled(s: State, pid: nat) {
    && (forall b :: b in s.backends ==> !(s.backends[b].Holding? && s.backends[b].pid == pid))
    && (forall lsn :: !Discarded(s, pid, lsn))
    && s.readPos == |s.wal| && Drained(ViewOf(s.wk, pid))
  }

  function IssuedOf(s: State, pid: nat): seq<nat> {
    if pid in s.issued then s.issued[pid] else []
  }

  lemma IssuedFromOne(s: State, pid: nat)
    requires Safe(s) && FromOne(s, pid)
    ensures forall i :: 0 <= i < |IssuedOf(s, pid)| ==> IssuedOf(s, pid)[i] == i + 1
  {
    if pid in s.issued {
      assert EntryGood(s.issued[pid], s.alloc[pid], |CurrentLog(s, pid)|);
    }
  }

  lemma SettledDisk(s: State, pid: nat)
    requires Safe(s) && s.mode.Running? && FromOne(s, pid) && Settled(s, pid)
    ensures WholeRest(s, pid)
    ensures |CurrentLog(s, pid)| == |IssuedOf(s, pid)|
  {
    var l, from := CurrentLog(s, pid), CountOf(s.cleaned, pid);
    LogOfWhole(s.wal, s.base, pid);
    assert Follows(ViewOf(s.wk, pid), l, from);
    DrainedOnDisk(ViewOf(s.wk, pid), l, from);
    FollowedLog(ViewOf(s.wk, pid), l, from);
    if pid in s.issued {
      AllInserted(s, pid);
    }
  }

  // What holds of a partition whose numbers start at 1.
  ghost predicate StartedOver(s: State, pid: nat) {
    && (forall i :: 0 <= i < |IssuedOf(s, pid)| ==> IssuedOf(s, pid)[i] == i + 1)
    && DiskRange(s, pid)
    && (Settled(s, pid) ==> WholeRest(s, pid) && |CurrentLog(s, pid)| == |IssuedOf(s, pid)|)
  }

  lemma AfterReset(u: State, after: seq<Step>, pid: nat)
    requires Safe(u) && u.mode.Running? && FromOne(u, pid)
    requires Runs(u, after) && DisciplinedRun(u, after)
    requires forall i :: 0 <= i < |after| ==> !ServerGoesDown(after[i])
    ensures StartedOver(Run(u, after), pid)
  {
    SafeRun(u, after);
    FromOneRun(u, after, pid);
    StartsOver(Run(u, after), pid);
  }

  lemma StartsOver(t: State, pid: nat)
    requires Safe(t) && t.mode.Running? && FromOne(t, pid)
    ensures StartedOver(t, pid)
  {
    SafeDisk(t, pid);
    IssuedFromOne(t, pid);
    if Settled(t, pid) {
      SettledDisk(t, pid);
    }
  }

  /** Reset protocol, both sides together.  Reset a partition with no allocation of it in
      flight and all its records read by the worker, and let backends and worker go on
      in any interleaving while the server stays up.  Then the numbers issued since are
      1, 2, ..., the log on disk has no gap, and once every number has been inserted and the
      worker has caught up with nothing buffered, the directory holds exactly the records
      1..n, but for what a later cleanup removed -- despite the stale watermark, buffer and
      descriptor of the old writer. */
  lemma ResetProtocol(before: seq<Step>, after: seq<Step>, pid: nat)
    requires Runs(INITIAL, before) && DisciplinedRun(INITIAL, before)
    requires var s := Run(INITIAL, before);
             && Enabled(s, Reset(pid)) && Regular(s, Reset(pid))
             && Runs(Next(s, Reset(pid)), after) && DisciplinedRun(Next(s, Reset(pid)), after)
    requires forall i :: 0 <= i < |after| ==> !ServerGoesDown(after[i])
    ensures var t := Run(Next(Run(INITIAL, before), Reset(pid)), after);
            && StartedOver(t, pid)
            && (NeverCleaned(after, pid) ==>
                  && Gapless(Log(DirOf(t.wk.disk, pid)))
                  && (Settled(t, pid) ==> Log(DirOf(t.wk.disk, pid)) == CurrentLog(t, pid)))
  {
    SafeReached(before);
    var s := Run(INITIAL, before);
    FromOneAfterReset(s, pid);
    AfterResetRun(Next(s, Reset(pid)), after, pid);
  }

  lemma FromOneAfterReset(s: State, pid: nat)
    requires Safe(s) && Enabled(s, Reset(pid)) && Regular(s, Reset(pid))
    ensures var u := Next(s, Reset(pid)); Safe(u) && u.mode.Running? && FromOne(u, pid) && CountOf(u.cleaned, pid) == 0
  {
    SafeStep(s, Reset(pid));
    ResetOwn(s, pid);
  }

  lemma AfterResetRun(u: State, after: seq<Step>, pid: nat)
    requires Safe(u) && u.mode.Running? && FromOne(u, pid) && CountOf(u.cleaned, pid) == 0
    requires Runs(u, after) && DisciplinedRun(u, after)
    requires forall i :: 0 <= i < |after| ==> !ServerGoesDown(after[i])
    ensures var t := Run(u, after);
            && StartedOver(t, pid)
            && (NeverCleaned(after, pid) ==>
                  && Gapless(Log(DirOf(t.wk.disk, pid)))
                  && (Settled(t, pid) ==> Log(DirOf(t.wk.disk, pid)) == CurrentLog(t, pid)))
  {
    AfterReset(u, after, pid);
    if NeverCleaned(after, pid) {
      NothingCleaned(u, after, pid);
      UncleanedDisk(Run(u, after), pid);
    }
  }

  lemma UncleanedDisk(t: State, pid: nat)
    requires CountOf(t.cleaned, pid) == 0 && DiskRange(t, pid)
    ensures Gapless(Log(DirOf(t.wk.disk, pid)))
    ensures WholeRest(t, pid) ==> Log(DirOf(t.wk.disk, pid)) == CurrentLog(t, pid)
  {
    RangeIsContiguous(LogUpTo(t.wal, t.base, t.flushed, pid), 0, TailPeek(DirOf(t.wk.disk, pid)));
  }

  // ---- a crash soon after a reset ----

  lemma ReplayIntoEmpty(l: seq<Header>)
    requires Increasing(l) && SegMonotone(l)
    ensures Log(RedoAll(map[], l)) == l
  {
    assert [] + l == l;
    assert NonEmpty(map[]) == Split([]);
    RedoFresh(map[], [], l);
    LogIgnoresEmpty(RedoAll(map[], l));
    LogOfSplit(l);
  }

  function RedoSteps(n: nat): (r: seq<Step>)
    ensures |r| == n && forall i :: 0 <= i < n ==> r[i].RedoRecord?
  {
    if n == 0 then [] else [RedoRecord] + RedoSteps(n - 1)
  }

  // A whole replay hands each partition its own records.
  lemma {:induction false} ReplayRun(s: State, n: nat, pid: nat)
    requires s.mode.Recovering? && s.mode.pos + n == |s.wal|
    ensures Runs(s, RedoSteps(n))
    ensures var t := Run(s, RedoSteps(n));
            && t.mode == Recovering(|s.wal|) && t.wal == s.wal
            && DirOf(t.wk.disk, pid) == RedoAll(DirOf(s.wk.disk, pid), PartLog(s.wal[s.mode.pos..], pid))
    decreases n
  {
    if n == 0 {
      assert s.wal[s.mode.pos..] == [];
    } else {
      ReplayStep(s, pid);
      ReplayRun(Next(s, RedoRecord), n - 1, pid);
      RunCons(s, RedoRecord, RedoSteps(n - 1));
    }
  }

  lemma ReplayStep(s: State, pid: nat)
    requires s.mode.Recovering? && s.mode.pos < |s.wal|
    ensures var t := Next(s, RedoRecord);
            && t.mode == Recovering(s.mode.pos + 1) && t.wal == s.wal
            && RedoAll(DirOf(s.wk.disk, pid), PartLog(s.wal[s.mode.pos..], pid))
               == RedoAll(DirOf(t.wk.disk, pid), PartLog(t.wal[t.mode.pos..], pid))
  {
    var i, r := s.mode.pos, s.wal[s.mode.pos];
    PartLogHead(s.wal, i, pid);
    RedoStepDir(s.wk, r, pid);
    ReplayFirst(DirOf(s.wk.disk, pid), r, PartLog(s.wal[i + 1..], pid), pid);
  }

  // What one record holds for partition pid.
  function Own(r: WalRec, pid: nat): seq<Header> {
    if r.PartRec? && r.h.partitionId == pid then [r.h] else []
  }

  lemma PartLogHead(wal: seq<WalRec>, i: nat, pid: nat)
    requires i < |wal|
    ensures PartLog(wal[i..], pid) == Own(wal[i], pid) + PartLog(wal[i + 1..], pid)
  {
    assert wal[i..] == [wal[i]] + wal[i + 1..];
    PartLogConcat([wal[i]], wal[i + 1..], pid);
    PartLogAt([wal[i]], 0, pid);
    assert [wal[i]][..1] == [wal[i]];
  }

  lemma RedoStepDir(wk: Worker, r: WalRec, pid: nat)
    ensures var after := if r.PartRec? then RedoInto(wk, r.h) else wk;
            DirOf(after.disk, pid)
            == if Own(r, pid) == [] then DirOf(wk.disk, pid) else RedoOne(DirOf(wk.disk, pid), Own(r, pid)[0])
  {
    if r.PartRec? {
      RedoOther(wk, r.h, pid);
    }
  }

  lemma ReplayFirst(d: Dir, r: WalRec, rest: seq<Header>, pid: nat)
    ensures var own := Own(r, pid);
            RedoAll(d, own + rest) == RedoAll(if own == [] then d else RedoOne(d, own[0]), rest)
  {
    var own := Own(r, pid);
    RedoConcat(d, own, rest);
    assert own != [] ==> own[1..] == [];
  }

  lemma TailOf(wal: seq<WalRec>, base: map<nat, nat>, i: nat, j: nat, pid: nat)
    requires i <= j <= |wal| && CountOf(base, pid) <= |PartLog(wal[..i], pid)|
    ensures LogUpTo(wal, base, j, pid) == LogUpTo(wal, base, i, pid) + PartLog(wal[i..j], pid)
  {
    assert wal[..j] == wal[..i] + wal[i..j];
    PartLogConcat(wal[..i], wal[i..j], pid);
  }

  lemma MiddleInOrder(full: seq<Header>, a: seq<Header>, b: seq<Header>)
    requires InOrder(full) && a + b <= full
    ensures Increasing(b) && SegMonotone(b)
  {
    assert full[|a|..|a| + |b|] == b;
    InOrderRange(full, |a|, |a| + |b|);
  }

  lemma TailInOrder(s: State, keep: nat, pid: nat)
    requires Safe(s) && s.mode.Running? && s.redoPtr <= keep <= |s.wal|
    requires CountOf(s.base, pid) <= |PartLog(s.wal[..s.redoPtr], pid)|
    ensures Increasing(PartLog(s.wal[s.redoPtr..keep], pid)) && SegMonotone(PartLog(s.wal[s.redoPtr..keep], pid))
  {
    RunningFacts(s, pid);
    TailOf(s.wal, s.base, s.redoPtr, keep, pid);
    LogGrows(s.wal, s.base, keep, |s.wal|, pid);
    LogOfWhole(s.wal, s.base, pid);
    MiddleInOrder(CurrentLog(s, pid), LogUpTo(s.wal, s.base, s.redoPtr, pid), PartLog(s.wal[s.redoPtr..keep], pid));
  }

  /** Why the redo pointer matters: reset a partition at any time, crash, and let recovery
      replay the surviving WAL.  Its directory is then still empty if and only if the
      partition has no record at or above the redo pointer; and when those are all from one
      generation, the directory holds exactly them. */
  lemma ResetSurvivesCrashIff(s: State, pid: nat, keep: nat)
    requires Safe(s) && s.mode.Running? && s.flushed <= keep <= |s.wal|
    ensures var t := Next(Next(s, Reset(pid)), Crash(keep));
            var steps := RedoSteps(keep - s.redoPtr);
            && Runs(t, steps) && Enabled(Run(t, steps), FinishRecovery)
            && var log := Log(DirOf(Run(t, steps).wk.disk, pid));
               && (log == [] <==> forall i :: s.redoPtr <= i < keep && s.wal[i].PartRec? ==> s.wal[i].h.partitionId != pid)
               && (CountOf(s.base, pid) <= |PartLog(s.wal[..s.redoPtr], pid)| ==> log == PartLog(s.wal[s.redoPtr..keep], pid))
  {
    ReplayAfterReset(s, pid, keep);
    PositiveLog(s.wal[s.redoPtr..keep], pid);
    ReplaySome(PartLog(s.wal[s.redoPtr..keep], pid));
    NoneBetween(s.wal, s.redoPtr, keep, pid);
    if CountOf(s.base, pid) <= |PartLog(s.wal[..s.redoPtr], pid)| {
      TailInOrder(s, keep, pid);
      ReplayIntoEmpty(PartLog(s.wal[s.redoPtr..keep], pid));
    }
  }

  lemma ReplayAfterReset(s: State, pid: nat, keep: nat)
    requires s.mode.Running? && s.redoPtr <= s.flushed <= keep <= |s.wal|
    ensures var t := Next(Next(s, Reset(pid)), Crash(keep));
            var steps := RedoSteps(keep - s.redoPtr);
            && Runs(t, steps) && Enabled(Run(t, steps), FinishRecovery)
            && DirOf(Run(t, steps).wk.disk, pid) == RedoAll(map[], PartLog(s.wal[s.redoPtr..keep], pid))
  {
    ResetLeaves(s, pid);
    ReplayAfterCrash(Next(s, Reset(pid)), pid, keep);
  }

  lemma ResetLeaves(s: State, pid: nat)
    requires s.mode.Running?
    ensures var u := Next(s, Reset(pid));
            && u.wal == s.wal && u.redoPtr == s.redoPtr && u.flushed == s.flushed && u.mode.Running?
            && DirOf(u.wk.disk, pid) == map[]
  {
    ResetEmptiesDir(s.wk, pid);
  }

  lemma ReplayAfterCrash(u: State, pid: nat, keep: nat)
    requires Enabled(u, Crash(keep)) && u.redoPtr <= keep
    ensures var t := Next(u, Crash(keep));
            var steps := RedoSteps(keep - u.redoPtr);
            && Runs(t, steps) && Enabled(Run(t, steps), FinishRecovery)
            && DirOf(Run(t, steps).wk.disk, pid) == RedoAll(DirOf(u.wk.disk, pid), PartLog(u.wal[u.redoPtr..keep], pid))
  {
    var t := Next(u, Crash(keep));
    assert t.wal[u.redoPtr..] == u.wal[u.redoPtr..keep];
    ReplayRun(t, keep - u.redoPtr, pid);
  }

  lemma {:induction false} PositiveLog(wal: seq<WalRec>, pid: nat)
    requires Positive(wal)
    ensures forall i :: 0 <= i < |PartLog(wal, pid)| ==> PartLog(wal, pid)[i].partitionLsn >= 1
  {
    if wal != [] {
      PositiveLog(wal[..|wal| - 1], pid);
    }
  }

  // The first record of a replay into an empty directory stays.
  lemma ReplaySome(l: seq<Header>)
    requires forall i :: 0 <= i < |l| ==> l[i].partitionLsn >= 1
    ensures Log(RedoAll(map[], l)) == [] <==> l == []
  {
    if l != [] {
      var d := RedoAll(map[], l);
      assert TailPeek(map[]) == 0;
      RedoGrows(Append(map[], l[0]), l[1..], SegOf(l[0]));
      assert FileOf(d, SegOf(l[0])) != [];
      LogIgnoresEmpty(d);
      assert SegOf(l[0]) in NonEmpty(d);
    }
  }

  lemma NoneBetween(wal: seq<WalRec>, i: nat, j: nat, pid: nat)
    requires i <= j <= |wal|
    ensures PartLog(wal[i..j], pid) == [] <==>
              forall k :: i <= k < j && wal[k].PartRec? ==> wal[k].h.partitionId != pid
  {
    NoneOf(wal[i..j], pid);
    assert forall k :: i <= k < j ==> wal[i..j][k - i] == wal[k];
  }

  lemma ResetEmptiesDir(wk: Worker, pid: nat)
    ensures DirOf(ResetDir(wk, pid).disk, pid) == map[]
  {
  }

  lemma {:induction false} NoneOf(wal: seq<WalRec>, pid: nat)
    ensures PartLog(wal, pid) == [] <==>
              forall i :: 0 <= i < |wal| && wal[i].PartRec? ==> wal[i].h.partitionId != pid
  {
    if wal != [] {
      NoneOf(wal[..|wal| - 1], pid);
    }
  }

  // ---- which crashes recovery makes good ----

  // The partition's records at or above position n that its last reset left behind.
  function OldTail(wal: seq<WalRec>, base: map<nat, nat>, n: nat, pid: nat): seq<Header>
    requires n <= |wal|
  {
    var a, b, l := |PartLog(wal[..n], pid)|, CountOf(base, pid), PartLog(wal, pid);
    if a <= b <= |l| then l[a..b] else []
  }

  lemma {:induction false} PositionOf(wal: seq<WalRec>, k: nat, pid: nat) returns (i: nat)
    requires k < |PartLog(wal, pid)|
    ensures i < |wal| && wal[i].PartRec? && wal[i].h.partitionId == pid && |PartLog(wal[..i], pid)| == k
    ensures PartLog(wal, pid)[k] == wal[i].h
  {
    var n := |wal| - 1;
    var init := wal[..n];
    if k < |PartLog(init, pid)| {
      i := PositionOf(init, k, pid);
      assert init[..i] == wal[..i];
    } else {
      i := n;
    }
  }

  lemma AtPosition(wal: seq<WalRec>, i: nat, pid: nat)
    requires i < |wal| && wal[i].PartRec? && wal[i].h.partitionId == pid
    ensures var k := |PartLog(wal[..i], pid)|; k < |PartLog(wal, pid)| && PartLog(wal, pid)[k] == wal[i].h
  {
    PartLogAt(wal, i, pid);
    PartLogPrefix(wal, i + 1, pid);
  }

  lemma CountsGrow(wal: seq<WalRec>, i: nat, j: nat, pid: nat)
    requires i <= j <= |wal|
    ensures |PartLog(wal[..i], pid)| <= |PartLog(wal[..j], pid)|
  {
    LogGrows(wal, map[], i, j, pid);
  }

  lemma OldTailCovered(disk: map<nat, Dir>, wal: seq<WalRec>, base: map<nat, nat>, n: nat, pid: nat)
    requires n <= |wal| && CountOf(base, pid) <= |PartLog(wal, pid)|
    ensures OldCovered(disk, wal, base, n, pid)
       <==> forall k :: 0 <= k < |OldTail(wal, base, n, pid)| ==>
              OldTail(wal, base, n, pid)[k].partitionLsn <= TailPeek(DirOf(disk, pid))
  {
    if OldCovered(disk, wal, base, n, pid) {
      forall k | 0 <= k < |OldTail(wal, base, n, pid)|
        ensures OldTail(wal, base, n, pid)[k].partitionLsn <= TailPeek(DirOf(disk, pid))
      {
        var i := OldTailIsOld(wal, base, n, pid, k);
      }
    } else {
      var i :| n <= i < |wal| && IsOld(wal, base, i, pid) && wal[i].h.partitionLsn > TailPeek(DirOf(disk, pid));
      OldIsInTail(wal, base, n, pid, i);
    }
  }

  lemma OldTailIsOld(wal: seq<WalRec>, base: map<nat, nat>, n: nat, pid: nat, k: nat) returns (i: nat)
    requires n <= |wal| && k < |OldTail(wal, base, n, pid)|
    ensures n <= i < |wal| && IsOld(wal, base, i, pid) && OldTail(wal, base, n, pid)[k] == wal[i].h
  {
    i := PositionOf(wal, |PartLog(wal[..n], pid)| + k, pid);
    if i < n {
      PartLogAt(wal, i, pid);
      CountsGrow(wal, i + 1, n, pid);
    }
  }

  lemma OldIsInTail(wal: seq<WalRec>, base: map<nat, nat>, n: nat, pid: nat, i: nat)
    requires n <= i < |wal| && IsOld(wal, base, i, pid) && CountOf(base, pid) <= |PartLog(wal, pid)|
    ensures var k := |PartLog(wal[..i], pid)| - |PartLog(wal[..n], pid)|;
            0 <= k < |OldTail(wal, base, n, pid)| && OldTail(wal, base, n, pid)[k] == wal[i].h
  {
    CountsGrow(wal, n, i, pid);
    AtPosition(wal, i, pid);
  }

  // What replay from position n meets: old records, then the end of the log.
  lemma ReplayedTail(wal: seq<WalRec>, base: map<nat, nat>, n: nat, pid: nat)
    requires n <= |wal| && CountOf(base, pid) <= |PartLog(wal, pid)|
    ensures var full := LogUpTo(wal, base, |wal|, pid);
            var j := |LogUpTo(wal, base, n, pid)|;
            j <= |full| && PartLog(wal[n..], pid) == OldTail(wal, base, n, pid) + full[j..]
  {
    PartLogPrefix(wal, n, pid);
    LogOfWhole(wal, base, pid);
    TailInTwo(PartLog(wal, pid), PartLog(wal[..n], pid), PartLog(wal[n..], pid), CountOf(base, pid));
  }

  lemma TailInTwo(l: seq<Header>, front: seq<Header>, tail: seq<Header>, b: nat)
    requires l == front + tail && b <= |l|
    ensures |Drop(front, b)| <= |Drop(l, b)|
    ensures tail == (if |front| <= b then l[|front|..b] else []) + Drop(l, b)[|Drop(front, b)|..]
  {
    assert tail == l[|front|..];
  }

  // Replaying full[j..] over a directory that holds full[from..m].
  lemma ReplayEnd(d: Dir, full: seq<Header>, from: nat, j: nat)
    requires InOrder(full) && Holds(d, full, from) && j <= |full|
    ensures var r := RedoAll(d, full[j..]);
            (TailPeek(r) == |full| && Log(r) == full[from..]) <==> j <= TailPeek(d)
  {
    if j <= TailPeek(d) {
      ReplayNoHole(d, full, from, j);
    } else {
      var m := TailPeek(d);
      JumpOrdered(full, from, m, j);
      RedoFresh(d, full[from..m], full[j..]);
      LogIgnoresEmpty(RedoAll(d, full[j..]));
      LogOfSplit(full[from..m] + full[j..]);
    }
  }

  lemma JumpOrdered(full: seq<Header>, from: nat, m: nat, j: nat)
    requires InOrder(full) && from <= m <= j <= |full|
    ensures Increasing(full[from..m] + full[j..]) && SegMonotone(full[from..m] + full[j..])
  {
    var l := full[from..m] + full[j..];
    assert forall i :: 0 <= i < |l| ==> l[i] == full[if i < m - from then from + i else i - (m - from) + j];
  }

  lemma ReplayNoHole(d: Dir, full: seq<Header>, from: nat, j: nat)
    requires InOrder(full) && Holds(d, full, from) && j <= TailPeek(d)
    ensures var r := RedoAll(d, full[j..]); TailPeek(r) == |full| && Log(r) == full[from..]
  {
    var m, n := TailPeek(d), |full|;
    HoldsSome(d, full, from);
    KnownAndNew(full, from, j, m);
    RedoConcat(d, full[j..m], full[m..]);
    RedoKnown(d, full[from..m], full[j..m]);
    RedoFresh(d, full[from..m], full[m..]);
    var r := RedoAll(d, full[j..]);
    TailPeekOrdered(r, full[from..]);
    LogIgnoresEmpty(r);
    LogOfSplit(full[from..]);
  }

  lemma KnownAndNew(full: seq<Header>, from: nat, j: nat, m: nat)
    requires InOrder(full) && from <= m <= |full| && j <= m && (m > 0 ==> from < m)
    ensures full[j..] == full[j..m] + full[m..] && full[from..m] + full[m..] == full[from..]
    ensures Increasing(full[from..]) && SegMonotone(full[from..]) && LastLsn(full[from..]) == |full|
    ensures Increasing(full[from..m]) && SegMonotone(full[from..m])
    ensures forall i :: 0 <= i < m - j ==> full[j..m][i].partitionLsn <= LastLsn(full[from..m])
  {
    SliceInTwo(full, j, m);
    SliceInTwo(full, from, m);
    RestOrdered(full, from);
    InOrderRange(full, from, m);
    RangeBelow(full, j, m);
  }

  lemma SliceInTwo(l: seq<Header>, i: nat, m: nat)
    requires i <= m <= |l|
    ensures l[i..] == l[i..m] + l[m..]
  {
  }

  lemma RestOrdered(full: seq<Header>, from: nat)
    requires InOrder(full) && from <= |full|
    ensures Increasing(full[from..]) && SegMonotone(full[from..])
    ensures LastLsn(full[from..]) == if from < |full| then |full| else 0
  {
    InOrderRange(full, from, |full|);
    assert full[from..|full|] == full[from..];
  }

  lemma RangeBelow(full: seq<Header>, j: nat, m: nat)
    requires InOrder(full) && j <= m <= |full|
    ensures forall i :: 0 <= i < m - j ==> full[j..m][i].partitionLsn <= m
  {
  }

  // The surviving WAL and the directory, for one partition.
  lemma CrashedLog(s: State, keep: nat, pid: nat)
    requires Safe(s) && s.mode.Running? && s.flushed <= keep <= |s.wal|
    ensures s.redoPtr <= keep
    ensures var wal := s.wal[..keep];
            var full := LogUpTo(wal, s.base, |wal|, pid);
            && CountOf(s.base, pid) <= |PartLog(wal, pid)| && InOrder(full) && full == LogUpTo(s.wal, s.base, keep, pid)
            && Holds(DirOf(s.wk.disk, pid), full, CountOf(s.cleaned, pid))
  {
    CutOne(s, keep, pid);
    LogOfWhole(s.wal[..keep], s.base, pid);
    assert s.wal[..keep][..keep] == s.wal[..keep];
  }

  lemma CrashGives(s: State, keep: nat)
    requires s.mode.Running? && s.flushed <= keep <= |s.wal|
    ensures var t := Next(s, Crash(keep));
            && t.mode == Recovering(s.redoPtr) && t.wal == s.wal[..keep] && |t.wal| == keep
            && t.wk.disk == s.wk.disk && t.base == s.base && t.cleaned == s.cleaned
  {
  }

  // What recovery finds of one partition: the files hold a range of its log.
  ghost predicate ReadyToReplay(t: State, pid: nat) {
    && t.mode.Recovering? && t.mode.pos <= |t.wal| && CountOf(t.base, pid) <= |PartLog(t.wal, pid)|
    && var full := LogUpTo(t.wal, t.base, |t.wal|, pid);
       InOrder(full) && Holds(DirOf(t.wk.disk, pid), full, CountOf(t.cleaned, pid))
  }

  /** A running server that crashes leaves every partition so, and the two conditions of
      Discipline read the same on the WAL that survives. */
  lemma CrashReady(s: State, keep: nat, pid: nat)
    requires Safe(s) && s.mode.Running? && s.flushed <= keep <= |s.wal|
    ensures var t := Next(s, Crash(keep));
            ReadyToReplay(t, pid) && t.mode == Recovering(s.redoPtr) && s.redoPtr <= keep == |t.wal|
    ensures var t := Next(s, Crash(keep));
            && (OldCovered(t.wk.disk, t.wal, t.base, s.redoPtr, pid) <==> OldCovered(s.wk.disk, s.wal, s.base, s.redoPtr, pid))
            && (OnDiskOne(t.wk.disk, t.wal, t.base, s.redoPtr, pid) <==> OnDiskOne(s.wk.disk, s.wal, s.base, s.redoPtr, pid))
  {
    CrashedLog(s, keep, pid);
    CrashGives(s, keep);
    CutConditions(s, keep, pid);
  }

  /** The condition on a crash is exact, in both parts.  Replay brings back no record from
      before the partition's last reset if and only if those at or above the redo pointer
      are covered by the watermark; and when it brings back none, recovery restores the whole
      log if and only if every record of it below the redo pointer was on disk. */
  lemma CrashRecoversIff(t: State, n: nat, pid: nat)
    requires ReadyToReplay(t, pid) && t.mode.pos + n == |t.wal|
    ensures var steps, d := RedoSteps(n), DirOf(t.wk.disk, pid);
            var covered := OldCovered(t.wk.disk, t.wal, t.base, t.mode.pos, pid);
            && (RedoAll(d, OldTail(t.wal, t.base, t.mode.pos, pid)) == d <==> covered)
            && Runs(t, steps) && Enabled(Run(t, steps), FinishRecovery)
            && (covered ==> (WholeRest(Run(t, steps), pid) <==> OnDiskOne(t.wk.disk, t.wal, t.base, t.mode.pos, pid)))
  {
    NoneComesBackIff(t.wk.disk, t.wal, t.base, t.mode.pos, pid);
    ReplayedFrom(t, n, pid);
  }

  lemma NoneComesBackIff(disk: map<nat, Dir>, wal: seq<WalRec>, base: map<nat, nat>, n: nat, pid: nat)
    requires n <= |wal| && CountOf(base, pid) <= |PartLog(wal, pid)|
    ensures var d := DirOf(disk, pid); RedoAll(d, OldTail(wal, base, n, pid)) == d <==> OldCovered(disk, wal, base, n, pid)
  {
    OldTailCovered(disk, wal, base, n, pid);
    NothingReplayedIff(DirOf(disk, pid), OldTail(wal, base, n, pid));
  }

  // Neither condition looks at WAL that a crash could lose.
  lemma CutConditions(s: State, keep: nat, pid: nat)
    requires Safe(s) && s.mode.Running? && s.flushed <= keep <= |s.wal|
    ensures s.redoPtr <= keep
    ensures var wal := s.wal[..keep];
            && (OldCovered(s.wk.disk, wal, s.base, s.redoPtr, pid) <==> OldCovered(s.wk.disk, s.wal, s.base, s.redoPtr, pid))
            && (OnDiskOne(s.wk.disk, wal, s.base, s.redoPtr, pid) <==> OnDiskOne(s.wk.disk, s.wal, s.base, s.redoPtr, pid))
  {
    CutLog(s.wal, s.base, keep, s.redoPtr, pid);
    forall i | 0 <= i < |s.wal|
      ensures IsOld(s.wal, s.base, i, pid) <==> i < keep && IsOld(s.wal[..keep], s.base, i, pid)
    {
      if i < keep {
        CutLog(s.wal, s.base, keep, i, pid);
      } else {
        BaseBelow(s, i, pid);
      }
    }
  }

  lemma ReplayedFrom(t: State, n: nat, pid: nat)
    requires ReadyToReplay(t, pid) && t.mode.pos + n == |t.wal|
    ensures Runs(t, RedoSteps(n)) && Enabled(Run(t, RedoSteps(n)), FinishRecovery)
    ensures OldCovered(t.wk.disk, t.wal, t.base, t.mode.pos, pid) ==>
              (WholeRest(Run(t, RedoSteps(n)), pid) <==> OnDiskOne(t.wk.disk, t.wal, t.base, t.mode.pos, pid))
  {
    ReplayRun(t, n, pid);
    ReplayHistory(t, RedoSteps(n));
    ReplayedWhole(t, Run(t, RedoSteps(n)), pid);
  }

  lemma ReplayedWhole(t: State, u: State, pid: nat)
    requires ReadyToReplay(t, pid)
    requires u.wal == t.wal && u.base == t.base && u.cleaned == t.cleaned
    requires DirOf(u.wk.disk, pid) == RedoAll(DirOf(t.wk.disk, pid), PartLog(t.wal[t.mode.pos..], pid))
    ensures OldCovered(t.wk.disk, t.wal, t.base, t.mode.pos, pid) ==>
              (WholeRest(u, pid) <==> OnDiskOne(t.wk.disk, t.wal, t.base, t.mode.pos, pid))
  {
    var d, former := DirOf(t.wk.disk, pid), OldTail(t.wal, t.base, t.mode.pos, pid);
    var full, j := LogUpTo(t.wal, t.base, |t.wal|, pid), |LogUpTo(t.wal, t.base, t.mode.pos, pid)|;
    NoneComesBackIff(t.wk.disk, t.wal, t.base, t.mode.pos, pid);
    ReplayedTail(t.wal, t.base, t.mode.pos, pid);
    RedoConcat(d, former, full[j..]);
    LogOfWhole(t.wal, t.base, pid);
    ReplayEnd(d, full, CountOf(t.cleaned, pid), j);
  }

  // Replay changes neither the resets remembered nor the cleanups.
  lemma {:induction false} ReplayHistory(s: State, steps: seq<Step>)
    requires Runs(s, steps) && forall i :: 0 <= i < |steps| ==> steps[i].RedoRecord?
    ensures Run(s, steps).base == s.base && Run(s, steps).cleaned == s.cleaned
    decreases |steps|
  {
    if steps != [] {
      ReplayHistory(Next(s, steps[0]), steps[1..]);
    }
  }
}
