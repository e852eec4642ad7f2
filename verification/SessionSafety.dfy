/** Safety of one worker session with no hypothesis on WAL order, on segment order of the
    new records, or on I/O faults; and race-freedom of the LSN allocator for any number
    of backends. */
module SessionSafety {
  import opened Header
  import opened SegmentDir
  import opened WriterSpec
  import opened Demux
  import opened InStep
  import opened Machine
  import opened Discipline
  import opened SegmentCleanup

  // Cleanup leaves the highest file with records and the file the worker has open.
  ghost predicate LeavesOpen(v: View, keepPtr: nat) {
    && (v.slot.Some? && v.slot.value.fd == Open(true) ==> Survives(v.slot.value.seg, keepPtr))
    && (NonEmpty(v.dir) == map[] || Survives(MaxKey(NonEmpty(v.dir).Keys), keepPtr))
  }

  // The server keeps running, the worker is not replaced, resets find things quiet and
  // cleanups leave what is in use.
  ghost predicate SessionStep(s: State, step: Step) {
    && !(step.Crash? || step.RestartWorker? || step.CleanRestart? || step.RedoRecord? || step.FinishRecovery?)
    && (step.Reset? ==> Quiet(s, step.pid))
    && (step.Cleanup? ==> LeavesOpen(ViewOf(s.wk, step.pid), step.keepPtr))
  }

  ghost predicate SessionRun(s: State, steps: seq<Step>)
    requires Runs(s, steps)
    decreases |steps|
  {
    steps == [] || (SessionStep(s, steps[0]) && SessionRun(Next(s, steps[0]), steps[1..]))
  }

  function LogFor(m: map<nat, seq<Header>>, pid: nat): seq<Header> {
    if pid in m then m[pid] else []
  }

  // A just-started server whose directories hold the ordered logs `boot`.
  ghost predicate Booted(s: State, boot: map<nat, seq<Header>>) {
    && Ordered(s) && s.mode.Running?
    && s.readPos == |s.wal|
    && s.wk.slots == [] && s.alloc == map[] && s.issued == map[] && s.backends == map[]
    && forall pid ::
         var l := LogFor(boot, pid);
         NonEmpty(DirOf(s.wk.disk, pid)) == Split(l) && Increasing(l) && SegMonotone(l)
  }

  ghost predicate BackendFair(s: State, boot: map<nat, seq<Header>>, k: Backend) {
    match k
    case Looked(pid, found) => found && pid !in s.alloc ==> LogFor(boot, pid) == []
    case Scanned(pid, init) => pid !in s.alloc ==> init == LastLsn(LogFor(boot, pid)) + 1
    case Holding(pid, lsn) => pid in s.alloc && lsn < s.alloc[pid]
    case _ => true
  }

  ghost predicate Traced(alloc: map<nat, nat>, issued: map<nat, seq<nat>>, boot: map<nat, seq<Header>>) {
    forall pid :: pid in issued ==>
      pid in alloc && Consecutive(issued[pid], alloc[pid], LastLsn(LogFor(boot, pid)) + 1)
  }

  // AllocPartitionLSN has returned L+1, L+2, ... where L is the end of the log at start.
  ghost predicate FairAlloc(s: State, boot: map<nat, seq<Header>>) {
    && s.alloc.Keys == s.issued.Keys
    && Traced(s.alloc, s.issued, boot)
    && (forall b :: b in s.backends ==> BackendFair(s, boot, s.backends[b]))
    && (forall a, b :: a in s.backends && b in s.backends && a != b
          && s.backends[a].Holding? && s.backends[b].Holding? && s.backends[a].pid == s.backends[b].pid
          ==> s.backends[a].lsn != s.backends[b].lsn)
  }

  // A partition nobody has allocated for is as it was at the start, or at its last reset.
  ghost predicate Untouched(wk: Worker, unread: seq<WalRec>, pids: set<nat>,
                            boot: map<nat, seq<Header>>, acc: map<nat, seq<Header>>)
  {
    forall pid :: pid !in pids ==> UntouchedOne(wk, unread, boot, acc, pid)
  }

  ghost predicate UntouchedOne(wk: Worker, unread: seq<WalRec>, boot: map<nat, seq<Header>>,
                               acc: map<nat, seq<Header>>, pid: nat)
  {
    var v, l := ViewOf(wk, pid), LogFor(boot, pid);
    && (v.slot.None? || Emptied(v))
    && NonEmpty(v.dir) == Split(l) && Increasing(l) && SegMonotone(l)
    && LogFor(acc, pid) == l
    && PartLog(unread, pid) == []
  }

  ghost predicate FromWal(wal: seq<WalRec>, boot: map<nat, seq<Header>>, acc: map<nat, seq<Header>>) {
    forall pid, r :: r in LogFor(acc, pid) ==> r in LogFor(boot, pid) || PartRec(r) in wal
  }

  ghost predicate AllSound(wk: Worker, acc: map<nat, seq<Header>>) {
    DistinctSlots(wk.slots) && forall pid :: SoundAt(ViewOf(wk, pid), LogFor(acc, pid))
  }

  ghost predicate SessionInv(s: State, boot: map<nat, seq<Header>>, acc: map<nat, seq<Header>>) {
    && Ordered(s) && s.mode.Running?
    && AllSound(s.wk, acc)
    && FromWal(s.wal, boot, acc)
    && Untouched(s.wk, s.wal[s.readPos..], s.alloc.Keys, boot, acc)
    && FairAlloc(s, boot)
  }

  ghost function AccRead(wk: Worker, h: Header, io: Io, create: bool, acc: map<nat, seq<Header>>): map<nat, seq<Header>> {
    var v := ViewOf(wk, h.partitionId);
    if v.slot.None? && |wk.slots| >= MAX_PARTITIONS then acc
    else
      var pid := h.partitionId;
      acc[pid := SoundAtAfter(v, Rec(h, io, create), LogFor(acc, pid), pid)]
  }

  ghost function AccAfter(s: State, step: Step, acc: map<nat, seq<Header>>): map<nat, seq<Header>>
    requires Enabled(s, step)
  {
    if step.ReadRecord? && s.wal[s.readPos].PartRec? then
      AccRead(s.wk, s.wal[s.readPos].h, step.io, step.create, acc)
    else if step.Reset? then acc[step.pid := []]
    else if step.Cleanup? then acc[step.pid := Kept(LogFor(acc, step.pid), step.keepPtr)]
    else acc
  }

  // A reset starts the partition over; a cleanup removes the start of what it started from.
  function BootAfter(s: State, step: Step, boot: map<nat, seq<Header>>): map<nat, seq<Header>> {
    if step.Reset? then boot[step.pid := []]
    else if step.Cleanup? && step.pid !in s.alloc then boot[step.pid := Kept(LogFor(boot, step.pid), step.keepPtr)]
    else boot
  }

  lemma BootedInv(s: State, boot: map<nat, seq<Header>>)
    requires Booted(s, boot)
    ensures SessionInv(s, boot, boot)
  {
    assert s.wal[s.readPos..] == [];
  }

  // ---- the worker ----

  lemma ReadSound(wk: Worker, h: Header, io: Io, create: bool, acc: map<nat, seq<Header>>)
    requires AllSound(wk, acc)
    ensures AllSound(Process(wk, h, io, create), AccRead(wk, h, io, create, acc))
  {
    var acc' := AccRead(wk, h, io, create, acc);
    var r := Process(wk, h, io, create);
    var v := ViewOf(wk, h.partitionId);
    assert SoundAt(v, LogFor(acc, h.partitionId));
    SoundAtStep(v, Rec(h, io, create), LogFor(acc, h.partitionId), h.partitionId);
    ProcessViews(wk, h, io, create, h.partitionId);
    forall pid
      ensures SoundAt(ViewOf(r, pid), LogFor(acc', pid))
    {
      ProcessViews(wk, h, io, create, pid);
      assert SoundAt(ViewOf(wk, pid), LogFor(acc, pid));
    }
  }

  lemma ReadFromWal(wk: Worker, h: Header, io: Io, create: bool, acc: map<nat, seq<Header>>, pid: nat, r: Header)
    requires AllSound(wk, acc) && r in LogFor(AccRead(wk, h, io, create, acc), pid)
    ensures r in LogFor(acc, pid) || r == h
  {
    var v := ViewOf(wk, h.partitionId);
    assert SoundAt(v, LogFor(acc, h.partitionId));
    SoundAtStep(v, Rec(h, io, create), LogFor(acc, h.partitionId), h.partitionId);
  }

  lemma ReadUntouched(s: State, step: Step, boot: map<nat, seq<Header>>, acc: map<nat, seq<Header>>, pid: nat)
    requires step.ReadRecord? && Enabled(s, step) && DistinctSlots(s.wk.slots)
    requires UntouchedOne(s.wk, s.wal[s.readPos..], boot, acc, pid)
    ensures UntouchedOne(Next(s, step).wk, s.wal[s.readPos + 1..], boot, AccAfter(s, step, acc), pid)
  {
    NothingUnread(s.wal, s.readPos, pid);
    if s.wal[s.readPos].PartRec? {
      ProcessViews(s.wk, s.wal[s.readPos].h, step.io, step.create, pid);
    }
  }

  lemma NothingUnread(wal: seq<WalRec>, c: nat, pid: nat)
    requires c < |wal| && PartLog(wal[c..], pid) == []
    ensures PartLog(wal[c + 1..], pid) == []
    ensures wal[c].PartRec? ==> wal[c].h.partitionId != pid
  {
    assert wal[c..] == [wal[c]] + wal[c + 1..];
    PartLogConcat([wal[c]], wal[c + 1..], pid);
    PartLogAt([wal[c]], 0, pid);
    assert [wal[c]][..1] == [wal[c]];
  }

  lemma ReadKeepsSession(s: State, step: Step, boot: map<nat, seq<Header>>, acc: map<nat, seq<Header>>)
    requires step.ReadRecord? && Enabled(s, step) && SessionInv(s, boot, acc)
    ensures SessionInv(Next(s, step), boot, AccAfter(s, step, acc))
  {
    var t := Next(s, step);
    var rec := s.wal[s.readPos];
    if rec.PartRec? {
      ReadSound(s.wk, rec.h, step.io, step.create, acc);
    }
    forall pid | pid !in t.alloc
      ensures UntouchedOne(t.wk, t.wal[t.readPos..], boot, AccAfter(s, step, acc), pid)
    {
      assert UntouchedOne(s.wk, s.wal[s.readPos..], boot, acc, pid);
      ReadUntouched(s, step, boot, acc, pid);
    }
    forall pid, r | r in LogFor(AccAfter(s, step, acc), pid)
      ensures r in LogFor(boot, pid) || PartRec(r) in t.wal
    {
      if rec.PartRec? {
        ReadFromWal(s.wk, rec.h, step.io, step.create, acc, pid, r);
        assert rec in s.wal;
      }
    }
    forall b | b in t.backends
      ensures BackendFair(t, boot, t.backends[b])
    {
      assert BackendFair(s, boot, s.backends[b]);
    }
  }

  lemma FlushViewKeeps(wk: Worker, bad: set<nat>, unread: seq<WalRec>,
                       boot: map<nat, seq<Header>>, acc: map<nat, seq<Header>>, pid: nat)
    requires AllSound(wk, acc)
    ensures DistinctSlots(FlushAll(wk, bad).slots)
    ensures SoundAt(ViewOf(FlushAll(wk, bad), pid), LogFor(acc, pid))
    ensures UntouchedOne(wk, unread, boot, acc, pid) ==> UntouchedOne(FlushAll(wk, bad), unread, boot, acc, pid)
  {
    FlushAllViews(wk, bad, pid);
    assert SoundAt(ViewOf(wk, pid), LogFor(acc, pid));
    SoundAtStep(ViewOf(wk, pid), Flushes(bad), LogFor(acc, pid), pid);
  }

  lemma FlushKeepsSession(s: State, bad: set<nat>, boot: map<nat, seq<Header>>, acc: map<nat, seq<Header>>)
    requires Enabled(s, CaughtUp(bad)) && SessionInv(s, boot, acc)
    ensures SessionInv(Next(s, CaughtUp(bad)), boot, acc)
  {
    var t := Next(s, CaughtUp(bad));
    forall pid
      ensures DistinctSlots(t.wk.slots)
      ensures SoundAt(ViewOf(t.wk, pid), LogFor(acc, pid))
      ensures pid !in s.alloc ==> UntouchedOne(t.wk, t.wal[t.readPos..], boot, acc, pid)
    {
      assert pid !in s.alloc ==> UntouchedOne(s.wk, s.wal[s.readPos..], boot, acc, pid);
      FlushViewKeeps(s.wk, bad, s.wal[s.readPos..], boot, acc, pid);
    }
    FlushViewKeeps(s.wk, bad, s.wal[s.readPos..], boot, acc, 0);
    forall b | b in t.backends
      ensures BackendFair(t, boot, t.backends[b])
    {
      assert BackendFair(s, boot, s.backends[b]);
    }
  }

  // ---- the WAL and the pointers ----

  lemma TailLog(wal: seq<WalRec>, added: seq<WalRec>, from: nat, from': nat, pid: nat)
    requires from <= from' <= |wal| && |added| <= 1
    requires PartLog(wal[from..], pid) == []
    requires added == [] || added[0].OtherRec? || added[0].h.partitionId != pid
    ensures PartLog((wal + added)[from'..], pid) == []
  {
    UnreadSuffix(wal, from, from', pid);
    assert (wal + added)[from'..] == wal[from'..] + added;
    PartLogConcat(wal[from'..], added, pid);
    if added != [] {
      PartLogAt(added, 0, pid);
      assert added[..1] == added;
    }
  }

  lemma UnreadSuffix(wal: seq<WalRec>, from: nat, from': nat, pid: nat)
    requires from <= from' <= |wal| && PartLog(wal[from..], pid) == []
    ensures PartLog(wal[from'..], pid) == []
  {
    assert wal[from..] == wal[from..from'] + wal[from'..];
    PartLogConcat(wal[from..from'], wal[from'..], pid);
  }

  lemma WalStepFair(s: State, step: Step, boot: map<nat, seq<Header>>)
    requires Enabled(s, step) && FairAlloc(s, boot)
    requires step.Insert? || step.InsertOther? || step.FlushWal? || step.SkipTo? || step.SaveProgress? || step.Checkpoint?
    ensures FairAlloc(Next(s, step), boot)
  {
    var t := Next(s, step);
    forall b | b in t.backends
      ensures BackendFair(t, boot, t.backends[b])
    {
      assert b in s.backends && BackendFair(s, boot, s.backends[b]);
    }
  }

  lemma WalStepKeepsSession(s: State, step: Step, boot: map<nat, seq<Header>>, acc: map<nat, seq<Header>>)
    requires Enabled(s, step) && SessionInv(s, boot, acc)
    requires step.Insert? || step.InsertOther? || step.FlushWal? || step.SkipTo? || step.SaveProgress? || step.Checkpoint?
    ensures SessionInv(Next(s, step), boot, acc)
  {
    var t := Next(s, step);
    WalStepFair(s, step, boot);
    WalStepShape(s, step);
    if step.Insert? {
      assert BackendFair(s, boot, s.backends[step.b]);
    }
    ProgressStep(s, step);
    WalUntouched(s, t, boot, acc);
    assert FromWal(t.wal, boot, acc) by {
      assert forall r :: r in s.wal ==> r in t.wal;
    }
  }

  // These steps leave the worker alone and add at most one record to the WAL.
  lemma WalStepShape(s: State, step: Step)
    requires Enabled(s, step) && Ordered(s)
    requires step.Insert? || step.InsertOther? || step.FlushWal? || step.SkipTo? || step.SaveProgress? || step.Checkpoint?
    ensures var t := Next(s, step);
            && t.wk == s.wk && t.alloc == s.alloc && t.mode == s.mode && s.readPos <= t.readPos <= |s.wal| && s.wal <= t.wal
            && |t.wal| <= |s.wal| + 1
            && (|t.wal| > |s.wal| && t.wal[|s.wal|].PartRec? ==>
                  step.Insert? && t.wal[|s.wal|].h.partitionId == s.backends[step.b].pid)
  {
  }

  lemma WalUntouched(s: State, t: State, boot: map<nat, seq<Header>>, acc: map<nat, seq<Header>>)
    requires t.wk == s.wk && t.alloc == s.alloc && s.readPos <= t.readPos <= |s.wal| && s.wal <= t.wal
    requires Untouched(s.wk, s.wal[s.readPos..], s.alloc.Keys, boot, acc)
    requires |t.wal| <= |s.wal| + 1
    requires |t.wal| > |s.wal| && t.wal[|s.wal|].PartRec? ==> t.wal[|s.wal|].h.partitionId in s.alloc
    ensures Untouched(t.wk, t.wal[t.readPos..], t.alloc.Keys, boot, acc)
  {
    var added := t.wal[|s.wal|..];
    assert t.wal == s.wal + added;
    LaterUntouched(s.wk, s.wal, added, s.readPos, t.readPos, s.alloc.Keys, boot, acc);
  }

  lemma LaterUntouched(wk: Worker, wal: seq<WalRec>, added: seq<WalRec>, from: nat, from': nat, pids: set<nat>,
                       boot: map<nat, seq<Header>>, acc: map<nat, seq<Header>>)
    requires from <= from' <= |wal| && |added| <= 1 && Untouched(wk, wal[from..], pids, boot, acc)
    requires added != [] && added[0].PartRec? ==> added[0].h.partitionId in pids
    ensures Untouched(wk, (wal + added)[from'..], pids, boot, acc)
  {
    forall pid | pid !in pids
      ensures UntouchedOne(wk, (wal + added)[from'..], boot, acc, pid)
    {
      assert UntouchedOne(wk, wal[from..], boot, acc, pid);
      TailLog(wal, added, from, from', pid);
    }
  }

  // ---- the allocator ----

  lemma ScanFair(s: State, boot: map<nat, seq<Header>>, acc: map<nat, seq<Header>>, pid: nat)
    requires SessionInv(s, boot, acc) && pid !in s.alloc
    ensures TailPeek(DirOf(s.wk.disk, pid)) == LastLsn(LogFor(boot, pid))
  {
    assert UntouchedOne(s.wk, s.wal[s.readPos..], boot, acc, pid);
    TailPeekOrdered(DirOf(s.wk.disk, pid), LogFor(boot, pid));
  }

  lemma BackendChange(s: State, b: nat, k: Backend, boot: map<nat, seq<Header>>, acc: map<nat, seq<Header>>)
    requires SessionInv(s, boot, acc) && !k.Holding? && BackendFair(s, boot, k)
    ensures SessionInv(s.(backends := s.backends[b := k]), boot, acc)
  {
    BackendChangeFair(s, b, k, boot);
  }

  lemma BackendChangeFair(s: State, b: nat, k: Backend, boot: map<nat, seq<Header>>)
    requires FairAlloc(s, boot) && !k.Holding? && BackendFair(s, boot, k)
    ensures FairAlloc(s.(backends := s.backends[b := k]), boot)
  {
    var t := s.(backends := s.backends[b := k]);
    forall x | x in t.backends
      ensures BackendFair(t, boot, t.backends[x])
    {
      assert x != b ==> BackendFair(s, boot, s.backends[x]);
    }
  }

  lemma AbortKeepsSession(s: State, b: nat, boot: map<nat, seq<Header>>, acc: map<nat, seq<Header>>)
    requires SessionInv(s, boot, acc)
    ensures SessionInv(s.(backends := s.backends - {b}), boot, acc)
  {
    var t := s.(backends := s.backends - {b});
    forall x | x in t.backends
      ensures BackendFair(t, boot, t.backends[x])
    {
      assert BackendFair(s, boot, s.backends[x]);
    }
  }

  lemma LookScanKeepsSession(s: State, step: Step, boot: map<nat, seq<Header>>, acc: map<nat, seq<Header>>)
    requires Enabled(s, step) && SessionInv(s, boot, acc)
    requires step.Look? || step.Scan? || step.Return?
    ensures SessionInv(Next(s, step), boot, acc)
  {
    var k := Next(s, step).backends[step.b];
    if step.Scan? {
      assert BackendFair(s, boot, s.backends[step.b]);
      if s.backends[step.b].pid !in s.alloc {
        ScanFair(s, boot, acc, s.backends[step.b].pid);
      }
    }
    BackendChange(s, step.b, k, boot, acc);
  }

  lemma EnterKeepsSession(s: State, b: nat, boot: map<nat, seq<Header>>, acc: map<nat, seq<Header>>)
    requires Enabled(s, Enter(b)) && SessionInv(s, boot, acc)
    ensures SessionInv(Next(s, Enter(b)), boot, acc)
  {
    EnterFair(s, b, boot);
    var t := Next(s, Enter(b));
    assert t.wk == s.wk && t.wal == s.wal && t.readPos == s.readPos;
    forall pid | pid !in t.alloc.Keys
      ensures UntouchedOne(t.wk, t.wal[t.readPos..], boot, acc, pid)
    {
      assert pid !in s.alloc.Keys;
    }
  }

  lemma EnterFair(s: State, b: nat, boot: map<nat, seq<Header>>)
    requires Enabled(s, Enter(b)) && FairAlloc(s, boot)
    ensures FairAlloc(Next(s, Enter(b)), boot)
  {
    EnterTrace(s, b, boot);
    EnterBackends(s, b, boot);
    var pid := s.backends[b].pid;
    var t := Next(s, Enter(b));
    assert t.alloc.Keys == s.alloc.Keys + {pid} && t.issued.Keys == s.issued.Keys + {pid};
  }

  lemma EnterBackends(s: State, b: nat, boot: map<nat, seq<Header>>)
    requires Enabled(s, Enter(b)) && FairAlloc(s, boot)
    ensures var t := Next(s, Enter(b));
            && (forall x :: x in t.backends ==> BackendFair(t, boot, t.backends[x]))
            && (forall x, y :: x in t.backends && y in t.backends && x != y
                  && t.backends[x].Holding? && t.backends[y].Holding? && t.backends[x].pid == t.backends[y].pid
                  ==> t.backends[x].lsn != t.backends[y].lsn)
  {
    var t := Next(s, Enter(b));
    assert BackendFair(s, boot, s.backends[b]);
    forall x | x in t.backends
      ensures BackendFair(t, boot, t.backends[x])
      ensures x != b && t.backends[x].Holding? && t.backends[x].pid == t.backends[b].pid
        ==> t.backends[x].lsn != t.backends[b].lsn
    {
      assert BackendFair(s, boot, s.backends[x]);
    }
  }

  lemma EnterTrace(s: State, b: nat, boot: map<nat, seq<Header>>)
    requires Enabled(s, Enter(b)) && FairAlloc(s, boot)
    ensures var t := Next(s, Enter(b)); Traced(t.alloc, t.issued, boot)
  {
    var p, k := s.backends[b].pid, s.backends[b];
    assert BackendFair(s, boot, k);
    var next := if p in s.alloc then s.alloc[p] else k.init;
    var t := Next(s, Enter(b));
    assert t.alloc == s.alloc[p := next + 1];
    IssueNext(s.alloc, s.issued, boot, p, next);
  }

  lemma IssueNext(alloc: map<nat, nat>, issued: map<nat, seq<nat>>, boot: map<nat, seq<Header>>, p: nat, next: nat)
    requires Traced(alloc, issued, boot) && alloc.Keys == issued.Keys
    requires next == if p in alloc then alloc[p] else LastLsn(LogFor(boot, p)) + 1
    ensures Traced(alloc[p := next + 1], issued[p := (if p in issued then issued[p] else []) + [next]], boot)
  {
    var was := if p in issued then issued[p] else [];
    assert Consecutive(was + [next], next + 1, LastLsn(LogFor(boot, p)) + 1);
  }

  // ---- reset ----

  lemma ResetSound(s: State, pid: nat, acc: map<nat, seq<Header>>, other: nat)
    requires AllSound(s.wk, acc)
    ensures SoundAt(ViewOf(ResetDir(s.wk, pid), other), LogFor(acc[pid := []], other))
    ensures DistinctSlots(ResetDir(s.wk, pid).slots)
    ensures other == pid ==> Emptied(ViewOf(ResetDir(s.wk, pid), pid))
  {
    ResetViews(s.wk, pid, other);
    assert SoundAt(ViewOf(s.wk, other), LogFor(acc, other));
  }

  lemma ResetFair(s: State, pid: nat, boot: map<nat, seq<Header>>)
    requires FairAlloc(s, boot) && Enabled(s, Reset(pid)) && NoneInFlight(s, pid)
    ensures FairAlloc(Next(s, Reset(pid)), boot[pid := []])
  {
    var t := Next(s, Reset(pid));
    FewerTraced(s.alloc, s.issued, boot, pid);
    forall b | b in t.backends
      ensures BackendFair(t, boot[pid := []], t.backends[b])
    {
      assert BackendFair(s, boot, s.backends[b]);
    }
  }

  lemma FewerTraced(alloc: map<nat, nat>, issued: map<nat, seq<nat>>, boot: map<nat, seq<Header>>, pid: nat)
    requires Traced(alloc, issued, boot) && alloc.Keys == issued.Keys
    ensures Traced(alloc - {pid}, issued - {pid}, boot[pid := []])
    ensures (alloc - {pid}).Keys == alloc.Keys - {pid} && (issued - {pid}).Keys == issued.Keys - {pid}
  {
  }

  // An unclaimed partition stays one over a change that does not concern it.
  lemma UntouchedOther(wk: Worker, after: Worker, unread: seq<WalRec>, boot: map<nat, seq<Header>>, acc: map<nat, seq<Header>>,
                       boot': map<nat, seq<Header>>, acc': map<nat, seq<Header>>, pid: nat)
    requires UntouchedOne(wk, unread, boot, acc, pid) && ViewOf(after, pid) == ViewOf(wk, pid)
    requires LogFor(boot', pid) == LogFor(boot, pid) && LogFor(acc', pid) == LogFor(acc, pid)
    ensures UntouchedOne(after, unread, boot', acc', pid)
  {
  }

  lemma EmptiedUntouched(wk: Worker, unread: seq<WalRec>, boot: map<nat, seq<Header>>, acc: map<nat, seq<Header>>, pid: nat)
    requires Emptied(ViewOf(wk, pid)) && LogFor(boot, pid) == [] && LogFor(acc, pid) == [] && PartLog(unread, pid) == []
    ensures UntouchedOne(wk, unread, boot, acc, pid)
  {
    assert NonEmpty(map[]) == Split([]);
  }

  lemma ResetAllSound(s: State, pid: nat, acc: map<nat, seq<Header>>)
    requires AllSound(s.wk, acc)
    ensures AllSound(ResetDir(s.wk, pid), acc[pid := []])
  {
    ResetViews(s.wk, pid, pid);
    forall other
      ensures SoundAt(ViewOf(ResetDir(s.wk, pid), other), LogFor(acc[pid := []], other))
    {
      ResetSound(s, pid, acc, other);
    }
  }

  lemma ResetAllUntouched(s: State, pid: nat, boot: map<nat, seq<Header>>, acc: map<nat, seq<Header>>)
    requires Enabled(s, Reset(pid)) && Quiet(s, pid) && SessionInv(s, boot, acc)
    ensures Untouched(ResetDir(s.wk, pid), s.wal[s.readPos..], s.alloc.Keys - {pid}, boot[pid := []], acc[pid := []])
  {
    ResetSound(s, pid, acc, pid);
    UntouchedButReset(s.wk, s.wal[s.readPos..], s.alloc.Keys, boot, acc, pid);
  }

  lemma UntouchedButReset(wk: Worker, unread: seq<WalRec>, pids: set<nat>, boot: map<nat, seq<Header>>,
                          acc: map<nat, seq<Header>>, pid: nat)
    requires DistinctSlots(wk.slots) && Untouched(wk, unread, pids, boot, acc)
    requires Emptied(ViewOf(ResetDir(wk, pid), pid)) && PartLog(unread, pid) == []
    ensures Untouched(ResetDir(wk, pid), unread, pids - {pid}, boot[pid := []], acc[pid := []])
  {
    var boot', acc', wk' := boot[pid := []], acc[pid := []], ResetDir(wk, pid);
    forall other | other !in pids - {pid}
      ensures UntouchedOne(wk', unread, boot', acc', other)
    {
      if other == pid {
        EmptiedUntouched(wk', unread, boot', acc', pid);
      } else {
        ResetViews(wk, pid, other);
        UntouchedOther(wk, wk', unread, boot, acc, boot', acc', other);
      }
    }
  }

  lemma ResetFromWal(wal: seq<WalRec>, boot: map<nat, seq<Header>>, acc: map<nat, seq<Header>>, pid: nat)
    requires FromWal(wal, boot, acc)
    ensures FromWal(wal, boot[pid := []], acc[pid := []])
  {
    var boot', acc' := boot[pid := []], acc[pid := []];
    forall p, r | r in LogFor(acc', p)
      ensures r in LogFor(boot', p) || PartRec(r) in wal
    {
      assert p != pid && r in LogFor(acc, p);
    }
  }

  lemma ResetKeepsSession(s: State, pid: nat, boot: map<nat, seq<Header>>, acc: map<nat, seq<Header>>)
    requires Enabled(s, Reset(pid)) && Quiet(s, pid) && SessionInv(s, boot, acc)
    ensures SessionInv(Next(s, Reset(pid)), boot[pid := []], acc[pid := []])
  {
    ResetFair(s, pid, boot);
    ResetAllSound(s, pid, acc);
    ResetAllUntouched(s, pid, boot, acc);
    ResetFromWal(s.wal, boot, acc, pid);
    assert Next(s, Reset(pid)).alloc.Keys == s.alloc.Keys - {pid};
  }

  // ---- cleanup ----

  lemma CleanedContent(p: Part, keepPtr: nat)
    requires WriterOk(p.w) && Linked(p.w) && (p.w.fd.Open? ==> Survives(p.w.seg, keepPtr))
    ensures Content(CleanPart(p, keepPtr)) == Cleaned(Content(p), keepPtr)
  {
    if p.w.pending != [] {
      assert FileOf(Cleaned(p.dir, keepPtr), p.w.seg) == FileOf(p.dir, p.w.seg);
      assert Credit(CleanPart(p, keepPtr)) == Cleaned(Credit(p), keepPtr);
    }
  }

  lemma SoundAtClean(v: View, acc: seq<Header>, keepPtr: nat)
    requires SoundAt(v, acc) && LeavesOpen(v, keepPtr)
    ensures SoundAt(CleanView(v, keepPtr), Kept(acc, keepPtr))
  {
    if Sound(v, acc) {
      KeptIncreasing(acc, keepPtr);
      CleanedSplit(acc, keepPtr);
      if v.slot.Some? {
        CleanedContent(PartOf(v), keepPtr);
      } else {
        CleanedFiles(v.dir, acc, keepPtr);
        KeptMonotone(acc, keepPtr);
      }
    } else {
      assert Cleaned(v.dir, keepPtr) == map[];
    }
  }

  // The log an unclaimed partition started from loses its start, not its end.
  lemma UntouchedClean(wk: Worker, unread: seq<WalRec>, boot: map<nat, seq<Header>>, acc: map<nat, seq<Header>>,
                       pid: nat, keepPtr: nat)
    requires DistinctSlots(wk.slots) && UntouchedOne(wk, unread, boot, acc, pid) && LeavesOpen(ViewOf(wk, pid), keepPtr)
    ensures var l := Kept(LogFor(boot, pid), keepPtr);
            && UntouchedOne(CleanDir(wk, pid, keepPtr), unread, boot[pid := l], acc[pid := l], pid)
            && LastLsn(l) == LastLsn(LogFor(boot, pid))
            && (forall r :: r in l ==> r in LogFor(boot, pid))
  {
    var v, l := ViewOf(wk, pid), LogFor(boot, pid);
    CleanViews(wk, pid, keepPtr, pid);
    CleanedFiles(v.dir, l, keepPtr);
    KeptIncreasing(l, keepPtr);
    KeptMonotone(l, keepPtr);
    if l != [] {
      SplitShape(l);
      TopOfSplit(l);
    }
  }

  lemma CleanAllSound(wk: Worker, acc: map<nat, seq<Header>>, pid: nat, keepPtr: nat)
    requires AllSound(wk, acc) && LeavesOpen(ViewOf(wk, pid), keepPtr)
    ensures AllSound(CleanDir(wk, pid, keepPtr), acc[pid := Kept(LogFor(acc, pid), keepPtr)])
  {
    CleanViews(wk, pid, keepPtr, pid);
    var acc' := acc[pid := Kept(LogFor(acc, pid), keepPtr)];
    forall other
      ensures SoundAt(ViewOf(CleanDir(wk, pid, keepPtr), other), LogFor(acc', other))
    {
      CleanViews(wk, pid, keepPtr, other);
      assert SoundAt(ViewOf(wk, other), LogFor(acc, other));
      if other == pid {
        SoundAtClean(ViewOf(wk, pid), LogFor(acc, pid), keepPtr);
      }
    }
  }

  lemma SoundIsIncreasing(v: View, acc: seq<Header>)
    requires SoundAt(v, acc)
    ensures Increasing(acc)
  {
  }

  // What BootAfter does to the allocator's hypothesis.
  lemma CleanBoot(s: State, boot: map<nat, seq<Header>>, acc: map<nat, seq<Header>>, pid: nat, keepPtr: nat)
    requires SessionInv(s, boot, acc) && LeavesOpen(ViewOf(s.wk, pid), keepPtr)
    ensures var b := BootAfter(s, Cleanup(pid, keepPtr), boot);
            && SameEnd(boot, b, pid) && (b == boot || b == boot[pid := LogFor(b, pid)])
            && (forall r :: r in LogFor(b, pid) ==> r in LogFor(boot, pid))
  {
    if pid !in s.alloc {
      assert pid !in s.alloc.Keys;
      assert UntouchedOne(s.wk, s.wal[s.readPos..], boot, acc, pid);
      UntouchedClean(s.wk, s.wal[s.readPos..], boot, acc, pid, keepPtr);
    }
  }

  // What the allocator asks of a start log: its last number, and whether it is empty.
  ghost predicate SameEnd(boot: map<nat, seq<Header>>, boot': map<nat, seq<Header>>, pid: nat) {
    && LastLsn(LogFor(boot', pid)) == LastLsn(LogFor(boot, pid))
    && (LogFor(boot, pid) == [] ==> LogFor(boot', pid) == [])
  }

  lemma CleanFair(s: State, t: State, boot: map<nat, seq<Header>>, b: map<nat, seq<Header>>)
    requires FairAlloc(s, boot) && t.alloc == s.alloc && t.issued == s.issued && t.backends == s.backends
    requires forall pid :: SameEnd(boot, b, pid)
    ensures FairAlloc(t, b)
  {
    forall x | x in t.backends
      ensures BackendFair(t, b, t.backends[x])
    {
      assert BackendFair(s, boot, s.backends[x]);
      assert t.backends[x].Looked? || t.backends[x].Scanned? ==> SameEnd(boot, b, t.backends[x].pid);
    }
    SameTrace(s.alloc, s.issued, boot, b);
  }

  lemma SameTrace(alloc: map<nat, nat>, issued: map<nat, seq<nat>>, boot: map<nat, seq<Header>>, b: map<nat, seq<Header>>)
    requires Traced(alloc, issued, boot) && forall pid :: SameEnd(boot, b, pid)
    ensures Traced(alloc, issued, b)
  {
    forall pid | pid in issued
      ensures pid in alloc && Consecutive(issued[pid], alloc[pid], LastLsn(LogFor(b, pid)) + 1)
    {
      assert SameEnd(boot, b, pid);
    }
  }

  lemma CleanFromWal(s: State, boot: map<nat, seq<Header>>, acc: map<nat, seq<Header>>, pid: nat, keepPtr: nat)
    requires SessionInv(s, boot, acc) && LeavesOpen(ViewOf(s.wk, pid), keepPtr)
    ensures FromWal(s.wal, BootAfter(s, Cleanup(pid, keepPtr), boot), acc[pid := Kept(LogFor(acc, pid), keepPtr)])
  {
    var b := BootAfter(s, Cleanup(pid, keepPtr), boot);
    assert SoundAt(ViewOf(s.wk, pid), LogFor(acc, pid));
    SoundIsIncreasing(ViewOf(s.wk, pid), LogFor(acc, pid));
    if pid !in s.alloc.Keys {
      assert UntouchedOne(s.wk, s.wal[s.readPos..], boot, acc, pid);
    }
    KeptFromWal(s.wal, boot, acc, pid, keepPtr, b);
  }

  lemma KeptFromWal(wal: seq<WalRec>, boot: map<nat, seq<Header>>, acc: map<nat, seq<Header>>, pid: nat, keepPtr: nat,
                    b: map<nat, seq<Header>>)
    requires FromWal(wal, boot, acc) && Increasing(LogFor(acc, pid))
    requires b == boot || (LogFor(acc, pid) == LogFor(boot, pid) && b == boot[pid := Kept(LogFor(boot, pid), keepPtr)])
    ensures FromWal(wal, b, acc[pid := Kept(LogFor(acc, pid), keepPtr)])
  {
    var acc' := acc[pid := Kept(LogFor(acc, pid), keepPtr)];
    KeptIncreasing(LogFor(acc, pid), keepPtr);
    forall p, r | r in LogFor(acc', p)
      ensures r in LogFor(b, p) || PartRec(r) in wal
    {
      assert r in LogFor(acc, p);
    }
  }

  lemma CleanUntouched(wk: Worker, unread: seq<WalRec>, pids: set<nat>, boot: map<nat, seq<Header>>,
                       acc: map<nat, seq<Header>>, pid: nat, keepPtr: nat, boot': map<nat, seq<Header>>)
    requires DistinctSlots(wk.slots) && Untouched(wk, unread, pids, boot, acc) && LeavesOpen(ViewOf(wk, pid), keepPtr)
    requires boot' == if pid in pids then boot else boot[pid := Kept(LogFor(boot, pid), keepPtr)]
    ensures Untouched(CleanDir(wk, pid, keepPtr), unread, pids, boot', acc[pid := Kept(LogFor(acc, pid), keepPtr)])
  {
    var acc' := acc[pid := Kept(LogFor(acc, pid), keepPtr)];
    var wk' := CleanDir(wk, pid, keepPtr);
    forall other | other !in pids
      ensures UntouchedOne(wk', unread, boot', acc', other)
    {
      if other == pid {
        UntouchedClean(wk, unread, boot, acc, pid, keepPtr);
      } else {
        CleanViews(wk, pid, keepPtr, other);
        UntouchedOther(wk, wk', unread, boot, acc, boot', acc', other);
      }
    }
  }

  lemma CleanAlloc(s: State, t: State, boot: map<nat, seq<Header>>, pid: nat, boot': map<nat, seq<Header>>)
    requires FairAlloc(s, boot) && t.alloc == s.alloc && t.issued == s.issued && t.backends == s.backends
    requires SameEnd(boot, boot', pid) && (boot' == boot || boot' == boot[pid := LogFor(boot', pid)])
    ensures FairAlloc(t, boot')
  {
    SameEnds(boot, boot', pid);
    CleanFair(s, t, boot, boot');
  }

  lemma SameEnds(boot: map<nat, seq<Header>>, b: map<nat, seq<Header>>, pid: nat)
    requires SameEnd(boot, b, pid) && (b == boot || b == boot[pid := LogFor(b, pid)])
    ensures forall p :: SameEnd(boot, b, p)
  {
  }

  lemma CleanedInv(s: State, t: State, boot: map<nat, seq<Header>>, acc: map<nat, seq<Header>>, pid: nat, keepPtr: nat,
                   boot': map<nat, seq<Header>>, acc': map<nat, seq<Header>>)
    requires SessionInv(s, boot, acc) && LeavesOpen(ViewOf(s.wk, pid), keepPtr)
    requires t == s.(wk := CleanDir(s.wk, pid, keepPtr), cleaned := t.cleaned)
    requires boot' == BootAfter(s, Cleanup(pid, keepPtr), boot) && acc' == acc[pid := Kept(LogFor(acc, pid), keepPtr)]
    ensures SessionInv(t, boot', acc')
  {
    assert FairAlloc(t, boot') by {
      CleanBoot(s, boot, acc, pid, keepPtr);
      CleanAlloc(s, t, boot, pid, boot');
    }
    assert AllSound(t.wk, acc') && Untouched(t.wk, t.wal[t.readPos..], t.alloc.Keys, boot', acc') by {
      CleanedWorker(s.wk, s.wal[s.readPos..], s.alloc.Keys, boot, acc, pid, keepPtr, boot');
    }
    assert FromWal(t.wal, boot', acc') by {
      CleanFromWal(s, boot, acc, pid, keepPtr);
    }
  }

  lemma CleanedWorker(wk: Worker, unread: seq<WalRec>, pids: set<nat>, boot: map<nat, seq<Header>>,
                      acc: map<nat, seq<Header>>, pid: nat, keepPtr: nat, boot': map<nat, seq<Header>>)
    requires AllSound(wk, acc) && Untouched(wk, unread, pids, boot, acc) && LeavesOpen(ViewOf(wk, pid), keepPtr)
    requires boot' == if pid in pids then boot else boot[pid := Kept(LogFor(boot, pid), keepPtr)]
    ensures var acc' := acc[pid := Kept(LogFor(acc, pid), keepPtr)];
            AllSound(CleanDir(wk, pid, keepPtr), acc') && Untouched(CleanDir(wk, pid, keepPtr), unread, pids, boot', acc')
  {
    CleanAllSound(wk, acc, pid, keepPtr);
    CleanUntouched(wk, unread, pids, boot, acc, pid, keepPtr, boot');
  }

  lemma CleanKeepsSession(s: State, pid: nat, keepPtr: nat, boot: map<nat, seq<Header>>, acc: map<nat, seq<Header>>)
    requires Enabled(s, Cleanup(pid, keepPtr)) && SessionInv(s, boot, acc) && LeavesOpen(ViewOf(s.wk, pid), keepPtr)
    ensures SessionInv(Next(s, Cleanup(pid, keepPtr)), BootAfter(s, Cleanup(pid, keepPtr), boot),
                       acc[pid := Kept(LogFor(acc, pid), keepPtr)])
  {
    CleanedInv(s, Next(s, Cleanup(pid, keepPtr)), boot, acc, pid, keepPtr,
               BootAfter(s, Cleanup(pid, keepPtr), boot), acc[pid := Kept(LogFor(acc, pid), keepPtr)]);
  }

  lemma SessionStepKeeps(s: State, step: Step, boot: map<nat, seq<Header>>, acc: map<nat, seq<Header>>)
    requires Enabled(s, step) && SessionStep(s, step) && SessionInv(s, boot, acc)
    ensures SessionInv(Next(s, step), BootAfter(s, step, boot), AccAfter(s, step, acc))
  {
    if step.ReadRecord? {
      ReadKeepsSession(s, step, boot, acc);
    } else if step.Reset? {
      ResetKeepsSession(s, step.pid, boot, acc);
    } else if step.Cleanup? {
      CleanKeepsSession(s, step.pid, step.keepPtr, boot, acc);
    } else {
      PlainStepKeeps(s, step, boot, acc);
    }
  }

  // The steps that start no log over and accept no record.
  lemma PlainStepKeeps(s: State, step: Step, boot: map<nat, seq<Header>>, acc: map<nat, seq<Header>>)
    requires Enabled(s, step) && SessionStep(s, step) && SessionInv(s, boot, acc)
    requires !step.ReadRecord? && !step.Reset? && !step.Cleanup?
    ensures SessionInv(Next(s, step), boot, acc)
  {
    match step {
      case CaughtUp(bad) => FlushKeepsSession(s, bad, boot, acc);
      case Enter(b) => EnterKeepsSession(s, b, boot, acc);
      case Look(_, _) => LookScanKeepsSession(s, step, boot, acc);
      case Scan(_) => LookScanKeepsSession(s, step, boot, acc);
      case Return(_) => LookScanKeepsSession(s, step, boot, acc);
      case Abort(b) => AbortKeepsSession(s, b, boot, acc);
      case _ => WalStepKeepsSession(s, step, boot, acc);
    }
  }

  // The log a partition started from: at the server start, or empty after a reset.
  ghost function StartOf(boot: map<nat, seq<Header>>, steps: seq<Step>, pid: nat): seq<Header> {
    if Reset(pid) in steps then [] else LogFor(boot, pid)
  }

  ghost predicate NeverCleaned(steps: seq<Step>, pid: nat) {
    forall i :: 0 <= i < |steps| && steps[i].Cleanup? ==> steps[i].pid != pid
  }

  // What is left of the log a partition started from: it ends where that ended.
  ghost predicate RestOf(rest: seq<Header>, start: seq<Header>) {
    && LastLsn(rest) == LastLsn(start)
    && (start == [] ==> rest == [])
    && (forall r :: r in rest ==> r in start)
  }

  lemma BootRest(s: State, boot: map<nat, seq<Header>>, acc: map<nat, seq<Header>>, step: Step, pid: nat)
    requires SessionInv(s, boot, acc) && Enabled(s, step) && SessionStep(s, step) && step != Reset(pid)
    ensures RestOf(LogFor(BootAfter(s, step, boot), pid), LogFor(boot, pid))
    ensures !(step.Cleanup? && step.pid == pid) ==> LogFor(BootAfter(s, step, boot), pid) == LogFor(boot, pid)
  {
    if step.Cleanup? {
      CleanBoot(s, boot, acc, step.pid, step.keepPtr);
    }
  }

  lemma StartOfTail(s: State, boot: map<nat, seq<Header>>, acc: map<nat, seq<Header>>, steps: seq<Step>, pid: nat)
    requires steps != [] && SessionInv(s, boot, acc) && Enabled(s, steps[0]) && SessionStep(s, steps[0])
    ensures RestOf(StartOf(BootAfter(s, steps[0], boot), steps[1..], pid), StartOf(boot, steps, pid))
    ensures NeverCleaned(steps, pid) ==> StartOf(BootAfter(s, steps[0], boot), steps[1..], pid) == StartOf(boot, steps, pid)
  {
    InTail(steps, Reset(pid));
    if steps[0] != Reset(pid) {
      BootRest(s, boot, acc, steps[0], pid);
    }
  }

  lemma InTail(steps: seq<Step>, x: Step)
    requires steps != []
    ensures x in steps <==> x == steps[0] || x in steps[1..]
  {
    assert steps == [steps[0]] + steps[1..];
  }

  lemma {:induction false} SessionKeeps(s: State, steps: seq<Step>, boot: map<nat, seq<Header>>, acc: map<nat, seq<Header>>)
    returns (boot': map<nat, seq<Header>>, acc': map<nat, seq<Header>>)
    requires SessionInv(s, boot, acc) && Runs(s, steps) && SessionRun(s, steps)
    ensures SessionInv(Run(s, steps), boot', acc')
    ensures forall pid :: RestOf(LogFor(boot', pid), StartOf(boot, steps, pid))
    ensures forall pid :: NeverCleaned(steps, pid) ==> LogFor(boot', pid) == StartOf(boot, steps, pid)
    decreases |steps|
  {
    boot', acc' := boot, acc;
    if steps != [] {
      SessionStepKeeps(s, steps[0], boot, acc);
      var rest := steps[1..];
      boot', acc' := SessionKeeps(Next(s, steps[0]), rest, BootAfter(s, steps[0], boot), AccAfter(s, steps[0], acc));
      forall pid
        ensures RestOf(LogFor(boot', pid), StartOf(boot, steps, pid))
        ensures NeverCleaned(steps, pid) ==> LogFor(boot', pid) == StartOf(boot, steps, pid)
      {
        StartOfTail(s, boot, acc, steps, pid);
        assert RestOf(LogFor(boot', pid), StartOf(BootAfter(s, steps[0], boot), rest, pid));
        assert NeverCleaned(steps, pid) ==> NeverCleaned(rest, pid);
      }
    }
  }

  // ---- what the invariant says ----

  ghost predicate StrictFiles(d: Dir) {
    && (forall k :: k in d ==> Increasing(d[k]))
    && (forall k, k', i, i' :: k in d && k' in d && 0 <= i < |d[k]| && 0 <= i' < |d[k']|
          && d[k][i].partitionLsn == d[k'][i'].partitionLsn
          ==> k == k' && i == i')
  }

  // A file on disk is a prefix of its share of the accepted sequence.
  lemma FilePrefix(v: View, acc: seq<Header>, k: SegNo)
    requires Sound(v, acc) && k in v.dir && v.dir[k] != []
    ensures k in Split(acc) && v.dir[k] <= Split(acc)[k]
  {
    if v.slot.Some? {
      var p := PartOf(v);
      assert k in Credit(p) && p.dir[k] <= Credit(p)[k];
      assert k in Content(p);
    } else {
      assert k in NonEmpty(v.dir);
    }
  }

  lemma FileMember(v: View, acc: seq<Header>, k: SegNo, i: nat)
    requires Sound(v, acc) && k in v.dir && i < |v.dir[k]|
    ensures v.dir[k][i] in acc && SegOf(v.dir[k][i]) == k
    ensures Increasing(v.dir[k])
  {
    FilePrefix(v, acc, k);
    SoundIncreasing(v, acc);
    SplitIncreasing(acc);
    SplitShape(acc);
    assert v.dir[k][i] == Split(acc)[k][i];
    SplitMember(acc, v.dir[k][i]);
  }

  lemma SoundIncreasing(v: View, acc: seq<Header>)
    requires Sound(v, acc)
    ensures Increasing(acc)
  {
  }

  lemma SoundFiles(v: View, acc: seq<Header>)
    requires Sound(v, acc)
    ensures StrictFiles(v.dir)
    ensures forall k, i :: k in v.dir && 0 <= i < |v.dir[k]| ==> v.dir[k][i] in acc
  {
    forall k, i | k in v.dir && 0 <= i < |v.dir[k]|
      ensures v.dir[k][i] in acc
    {
      FileMember(v, acc, k, i);
    }
    forall k, k', i, i' | k in v.dir && k' in v.dir && 0 <= i < |v.dir[k]| && 0 <= i' < |v.dir[k']|
      && v.dir[k][i].partitionLsn == v.dir[k'][i'].partitionLsn
      ensures k == k' && i == i'
    {
      FileMember(v, acc, k, i);
      FileMember(v, acc, k', i');
      SoundIncreasing(v, acc);
      SameLsnSameRecord(acc, v.dir[k][i], v.dir[k'][i']);
    }
    forall k | k in v.dir
      ensures Increasing(v.dir[k])
    {
      if v.dir[k] != [] {
        FileMember(v, acc, k, 0);
      }
    }
  }

  lemma SoundAtFiles(v: View, acc: seq<Header>)
    requires SoundAt(v, acc)
    ensures StrictFiles(v.dir)
    ensures forall k, i :: k in v.dir && 0 <= i < |v.dir[k]| ==> v.dir[k][i] in acc
  {
    if Sound(v, acc) {
      SoundFiles(v, acc);
    }
  }

  lemma SameLsnSameRecord(acc: seq<Header>, a: Header, b: Header)
    requires Increasing(acc) && a in acc && b in acc && a.partitionLsn == b.partitionLsn
    ensures a == b
  {
    var i :| 0 <= i < |acc| && acc[i] == a;
    var j :| 0 <= j < |acc| && acc[j] == b;
  }

  /** For every interleaving of any number of backends with one worker session, in any WAL
      order, under any I/O faults, with any number of quiet resets and of cleanups that leave
      what is in use: no LSN is on disk twice, every segment file is strictly increasing, and
      every record was there at the start or came from the WAL. */
  lemma SessionDisk(s: State, boot: map<nat, seq<Header>>, steps: seq<Step>, pid: nat)
    requires Booted(s, boot) && Runs(s, steps) && SessionRun(s, steps)
    ensures var t := Run(s, steps);
            var d := DirOf(t.wk.disk, pid);
            && StrictFiles(d)
            && forall k, i :: k in d && 0 <= i < |d[k]| ==> d[k][i] in LogFor(boot, pid) || PartRec(d[k][i]) in t.wal
  {
    BootedInv(s, boot);
    var boot', acc := SessionKeeps(s, steps, boot, boot);
    var t := Run(s, steps);
    assert SoundAt(ViewOf(t.wk, pid), LogFor(acc, pid));
    SoundAtFiles(ViewOf(t.wk, pid), LogFor(acc, pid));
    assert RestOf(LogFor(boot', pid), StartOf(boot, steps, pid));
  }

  /** Allocator race-freedom: whatever the interleaving of lock sections and unlocked disk
      scans, the values AllocPartitionLSN returned for a partition are L+1, L+2, ..., in
      order, where L is the highest LSN that was on disk at the start, or 0 after a reset;
      so they are distinct, consecutive, and above everything on disk. */
  lemma AllocatorRaceFree(s: State, boot: map<nat, seq<Header>>, steps: seq<Step>, pid: nat)
    requires Booted(s, boot) && Runs(s, steps) && SessionRun(s, steps)
    ensures var t := Run(s, steps);
            pid in t.issued ==>
              forall i :: 0 <= i < |t.issued[pid]| ==> t.issued[pid][i] == LastLsn(StartOf(boot, steps, pid)) + 1 + i
    ensures var d := DirOf(s.wk.disk, pid);
            forall k, i :: k in d && 0 <= i < |d[k]| ==> d[k][i].partitionLsn <= LastLsn(LogFor(boot, pid))
    ensures var t := Run(s, steps);
            pid !in t.issued ==>
              && TailPeek(DirOf(t.wk.disk, pid)) == LastLsn(StartOf(boot, steps, pid))
              && (StartOf(boot, steps, pid) == [] || NeverCleaned(steps, pid) ==>
                    NonEmpty(DirOf(t.wk.disk, pid)) == Split(StartOf(boot, steps, pid)))
  {
    BootedInv(s, boot);
    BootBound(s, boot, pid);
    var boot', acc := SessionKeeps(s, steps, boot, boot);
    var t := Run(s, steps);
    assert RestOf(LogFor(boot', pid), StartOf(boot, steps, pid));
    if pid in t.issued {
      assert Consecutive(t.issued[pid], t.alloc[pid], LastLsn(LogFor(boot', pid)) + 1);
    } else {
      assert pid !in t.alloc.Keys;
      assert UntouchedOne(t.wk, t.wal[t.readPos..], boot', acc, pid);
      TailPeekOrdered(DirOf(t.wk.disk, pid), LogFor(boot', pid));
    }
  }

  lemma BootBound(s: State, boot: map<nat, seq<Header>>, pid: nat)
    requires Booted(s, boot)
    ensures var d := DirOf(s.wk.disk, pid);
            forall k, i :: k in d && 0 <= i < |d[k]| ==> d[k][i].partitionLsn <= LastLsn(LogFor(boot, pid))
  {
    var l := LogFor(boot, pid);
    assert Sound(ViewOf(s.wk, pid), l);
    SoundFiles(ViewOf(s.wk, pid), l);
    forall i | 0 <= i < |l|
      ensures l[i].partitionLsn <= LastLsn(l)
    {
    }
  }

  /** Reset protocol, allocator side, for every interleaving of any number of backends with
      the worker, in any WAL order and with any faults: the numbers issued for a partition
      since a quiet reset are exactly 1, 2, ..., n. */
  lemma ResetAllocatesFromOne(s: State, boot: map<nat, seq<Header>>, steps: seq<Step>, pid: nat)
    requires Booted(s, boot) && Runs(s, steps) && SessionRun(s, steps) && Reset(pid) in steps
    ensures var t := Run(s, steps);
            pid in t.issued ==> t.issued[pid] == seq(|t.issued[pid]|, i => i + 1)
    ensures pid !in Run(s, steps).issued ==> NonEmpty(DirOf(Run(s, steps).wk.disk, pid)) == map[]
  {
    AllocatorRaceFree(s, boot, steps, pid);
  }
}
