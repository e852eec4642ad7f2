/** The whole system as a transition machine: backends that allocate LSNs and insert WAL
    records, the demux worker, crashes, redo, checkpoints and restarts.  WAL positions are
    record indices; the flush point and every LSN pointer of the source is such an index. */
module Machine {
  import opened Header
  import opened SegmentDir
  import opened WriterSpec
  import opened Demux
  import opened Redo

  // A WAL record is either one of ours (right resource manager, length and magic) or not.
  datatype WalRec = PartRec(h: Header) | OtherRec

  // One call of WritePartitionWALRecord, between its atomic sections.
  datatype Backend =
    | Looked(pid: nat, found: bool)    // after the shared-lock probe
    | Scanned(pid: nat, init: nat)     // after the unlocked disk scan
    | Holding(pid: nat, lsn: nat)      // after the exclusive-lock section
    | Inserted(pid: nat, pos: nat)     // after XLogInsert
    | Returned(pid: nat, pos: nat)     // after XLogFlush

  datatype Mode = Running | Recovering(pos: nat)

  datatype State = State(
    wal: seq<WalRec>,
    flushed: nat,
    redoPtr: nat,                 // where crash recovery would start
    mode: Mode,
    wk: Worker,
    readPos: nat,                 // reader->EndRecPtr
    lastProcessed: nat,           // DemuxState->last_processed_lsn
    saved: nat,                   // the progress file
    alloc: map<nat, nat>,         // PartWALLSNHash: partition -> next_lsn
    issued: map<nat, seq<nat>>,   // values AllocPartitionLSN returned since the server started,
                                  // or since the partition's last reset
    base: map<nat, nat>,          // how many of a partition's WAL records its last reset left behind
    cleaned: map<nat, nat>,       // how many of those since then cleanup has removed
    backends: map<nat, Backend>)

  datatype Step =
    | Look(b: nat, pid: nat)
    | Scan(b: nat)
    | Enter(b: nat)
    | Insert(b: nat, orig: nat, flags: nat)
    | Return(b: nat)
    | Abort(b: nat)
    | InsertOther
    | FlushWal(upto: nat)
    | ReadRecord(io: Io, create: bool)
    | CaughtUp(bad: set<nat>)
    | SkipTo(pos: nat)
    | RestartWorker
    | SaveProgress
    | Checkpoint(ptr: nat)
    | CleanRestart(bad: set<nat>)
    | Crash(keep: nat)
    | RedoRecord
    | FinishRecovery
    | Reset(pid: nat)
    | Cleanup(pid: nat, keepPtr: nat)

  function InsertHeader(s: State, b: nat, orig: nat, flags: nat): Header
    requires b in s.backends && s.backends[b].Holding?
  {
    Header(PARTWAL_MAGIC, s.backends[b].pid, orig, s.backends[b].lsn, flags)
  }

  predicate Enabled(s: State, step: Step) {
    match step
    case Look(b, pid) => s.mode.Running? && (b in s.backends ==> s.backends[b].Returned?)
    case Scan(b) => s.mode.Running? && b in s.backends && s.backends[b].Looked?
    case Enter(b) => s.mode.Running? && b in s.backends && s.backends[b].Scanned?
    case Insert(b, _, _) => s.mode.Running? && b in s.backends && s.backends[b].Holding?
    case Return(b) =>
      s.mode.Running? && b in s.backends && s.backends[b].Inserted? && s.backends[b].pos < s.flushed
    case Abort(b) => s.mode.Running?
    case InsertOther => s.mode.Running?
    case FlushWal(upto) => s.mode.Running? && s.flushed <= upto <= |s.wal|
    case ReadRecord(_, _) => s.mode.Running? && s.readPos < s.flushed && s.readPos < |s.wal|
    case CaughtUp(_) => s.mode.Running? && s.readPos >= s.flushed
    case SkipTo(pos) => s.mode.Running? && s.readPos <= pos <= s.flushed
    case RestartWorker => s.mode.Running?
    case SaveProgress => s.mode.Running?
    case Checkpoint(ptr) => s.mode.Running? && s.redoPtr <= ptr <= s.flushed
    case CleanRestart(_) => s.mode.Running?
    case Crash(keep) => s.flushed <= keep <= |s.wal|
    case RedoRecord => s.mode.Recovering? && s.mode.pos < |s.wal|
    case FinishRecovery => s.mode.Recovering? && s.mode.pos == |s.wal|
    case Reset(_) => s.mode.Running?
    case Cleanup(_, _) => s.mode.Running?
  }

  // The exclusive-lock section of AllocPartitionLSN.
  function EnterSection(s: State, b: nat, pid: nat, init: nat): State {
    var next := if pid in s.alloc then s.alloc[pid] else init;
    s.(alloc := s.alloc[pid := next + 1],
       issued := s.issued[pid := (if pid in s.issued then s.issued[pid] else []) + [next]],
       backends := s.backends[b := Holding(pid, next)])
  }

  ghost function Next(s: State, step: Step): State
    requires Enabled(s, step)
  {
    match step
    case Look(b, pid) => s.(backends := s.backends[b := Looked(pid, pid in s.alloc)])
    case Scan(b) =>
      var pid := s.backends[b].pid;
      var init := if s.backends[b].found then 1 else TailPeek(DirOf(s.wk.disk, pid)) + 1;
      s.(backends := s.backends[b := Scanned(pid, init)])
    case Enter(b) => EnterSection(s, b, s.backends[b].pid, s.backends[b].init)
    case Insert(b, orig, flags) =>
      s.(wal := s.wal + [PartRec(InsertHeader(s, b, orig, flags))],
         backends := s.backends[b := Inserted(s.backends[b].pid, |s.wal|)])
    case Return(b) => s.(backends := s.backends[b := Returned(s.backends[b].pid, s.backends[b].pos)])
    case Abort(b) => s.(backends := s.backends - {b})
    case InsertOther => s.(wal := s.wal + [OtherRec])
    case FlushWal(upto) => s.(flushed := upto)
    case ReadRecord(io, create) =>
      var r := s.wal[s.readPos];
      s.(wk := if r.PartRec? then Process(s.wk, r.h, io, create) else s.wk,
         readPos := s.readPos + 1,
         lastProcessed := s.readPos + 1)
    case CaughtUp(bad) =>
      s.(wk := FlushAll(s.wk, bad),
         lastProcessed := if s.lastProcessed < s.flushed then s.flushed else s.lastProcessed)
    case SkipTo(pos) => s.(readPos := pos)
    case RestartWorker => s.(wk := s.wk.(slots := []), readPos := s.flushed)
    case SaveProgress => s.(saved := if s.readPos > s.flushed then s.flushed else s.readPos)
    case Checkpoint(ptr) => s.(redoPtr := ptr)
    case CleanRestart(bad) =>
      var n := |s.wal|;
      State(s.wal, n, n, Running, FlushAll(s.wk, bad).(slots := []), n, 0, s.saved, map[], map[], s.base, s.cleaned, map[])
    case Crash(keep) =>
      State(s.wal[..keep], keep, s.redoPtr, Recovering(s.redoPtr), s.wk.(slots := []), 0, 0, s.saved,
            map[], map[], s.base, s.cleaned, map[])
    case RedoRecord =>
      var r := s.wal[s.mode.pos];
      s.(wk := if r.PartRec? then RedoInto(s.wk, r.h) else s.wk, mode := Recovering(s.mode.pos + 1))
    case FinishRecovery => s.(mode := Running, readPos := s.flushed)
    case Reset(pid) =>
      s.(wk := ResetDir(s.wk, pid), alloc := s.alloc - {pid}, issued := s.issued - {pid},
         base := s.base[pid := |PartLog(s.wal, pid)|], cleaned := s.cleaned[pid := 0])
    case Cleanup(pid, keepPtr) =>
      var d := DirOf(s.wk.disk, pid);
      s.(wk := CleanDir(s.wk, pid, keepPtr),
         cleaned := s.cleaned[pid := CountOf(s.cleaned, pid) + Removed(d, keepPtr)])
  }

  ghost function RedoInto(wk: Worker, h: Header): Worker {
    wk.(disk := wk.disk[h.partitionId := RedoOne(DirOf(wk.disk, h.partitionId), h)])
  }

  // How many records of a directory a cleanup removes.
  ghost function Removed(d: Dir, keepPtr: nat): nat {
    if |Log(Cleaned(d, keepPtr))| <= |Log(d)| then |Log(d)| - |Log(Cleaned(d, keepPtr))| else 0
  }

  /** The record a backend inserts: its partition and number, and the caller's orig_node_lsn
      and flags. */
  lemma InsertedRecord(s: State, b: nat, orig: nat, flags: nat)
    requires Enabled(s, Insert(b, orig, flags))
    ensures var t, k := Next(s, Insert(b, orig, flags)), s.backends[b];
            && t.wal == s.wal + [PartRec(Header(0x50415254, k.pid, orig, k.lsn, flags))]
            && t.wal[|s.wal|].h.origNodeLsn == orig && t.wal[|s.wal|].h.flags == flags
            && t.backends[b] == Inserted(k.pid, |s.wal|)
  {
  }

  /** A caught-up worker brings last_processed_lsn to the flush point. */
  lemma CaughtUpAtFlush(s: State, bad: set<nat>)
    requires Enabled(s, CaughtUp(bad))
    ensures var t := Next(s, CaughtUp(bad));
            t.lastProcessed >= s.flushed && (t.lastProcessed == s.flushed || t.lastProcessed == s.lastProcessed)
  {
  }

  // ---- runs ----

  ghost predicate Runs(s: State, steps: seq<Step>)
    decreases |steps|
  {
    steps == [] || (Enabled(s, steps[0]) && Runs(Next(s, steps[0]), steps[1..]))
  }

  ghost function Run(s: State, steps: seq<Step>): State
    requires Runs(s, steps)
    decreases |steps|
  {
    if steps == [] then s else Run(Next(s, steps[0]), steps[1..])
  }

  lemma {:induction false} RunsConcat(s: State, a: seq<Step>, b: seq<Step>)
    requires Runs(s, a) && Runs(Run(s, a), b)
    ensures Runs(s, a + b) && Run(s, a + b) == Run(Run(s, a), b)
    decreases |a|
  {
    if a == [] {
      assert a + b == b;
    } else {
      assert (a + b)[1..] == a[1..] + b;
      RunsConcat(Next(s, a[0]), a[1..], b);
    }
  }

  const INITIAL := State([], 0, 0, Running, Worker(map[], []), 0, 0, 0, map[], map[], map[], map[], map[])

  // ---- a partition's share of the WAL ----

  function PartLog(wal: seq<WalRec>, pid: nat): seq<Header> {
    if wal == [] then []
    else
      var last := wal[|wal| - 1];
      PartLog(wal[..|wal| - 1], pid) + (if last.PartRec? && last.h.partitionId == pid then [last.h] else [])
  }

  lemma {:induction false} PartLogConcat(a: seq<WalRec>, b: seq<WalRec>, pid: nat)
    ensures PartLog(a + b, pid) == PartLog(a, pid) + PartLog(b, pid)
  {
    if b == [] {
      assert a + b == a;
    } else {
      assert (a + b)[..|a + b| - 1] == a + b[..|b| - 1];
      PartLogConcat(a, b[..|b| - 1], pid);
    }
  }

  lemma PartLogAt(wal: seq<WalRec>, i: nat, pid: nat)
    requires i < |wal|
    ensures PartLog(wal[..i + 1], pid) == PartLog(wal[..i], pid)
              + (if wal[i].PartRec? && wal[i].h.partitionId == pid then [wal[i].h] else [])
  {
    assert wal[..i + 1][..i] == wal[..i];
  }

  // ---- a partition's log since its last reset ----

  function CountOf(base: map<nat, nat>, pid: nat): nat {
    if pid in base then base[pid] else 0
  }

  function Drop(l: seq<Header>, k: nat): seq<Header> {
    if k <= |l| then l[k..] else []
  }

  // Its records among the first n of the WAL,
  function LogUpTo(wal: seq<WalRec>, base: map<nat, nat>, n: nat, pid: nat): seq<Header>
    requires n <= |wal|
  {
    Drop(PartLog(wal[..n], pid), CountOf(base, pid))
  }

  // and all of them.
  function CurrentLog(s: State, pid: nat): seq<Header> {
    Drop(PartLog(s.wal, pid), CountOf(s.base, pid))
  }

  lemma LogGrows(wal: seq<WalRec>, base: map<nat, nat>, i: nat, j: nat, pid: nat)
    requires i <= j <= |wal|
    ensures |PartLog(wal[..i], pid)| <= |PartLog(wal[..j], pid)|
    ensures LogUpTo(wal, base, i, pid) <= LogUpTo(wal, base, j, pid)
  {
    assert wal[..j][..i] == wal[..i];
    PartLogPrefix(wal[..j], i, pid);
  }

  lemma LogAt(wal: seq<WalRec>, base: map<nat, nat>, i: nat, pid: nat)
    requires i < |wal| && CountOf(base, pid) <= |PartLog(wal[..i], pid)|
    ensures LogUpTo(wal, base, i + 1, pid) == LogUpTo(wal, base, i, pid)
              + (if wal[i].PartRec? && wal[i].h.partitionId == pid then [wal[i].h] else [])
  {
    PartLogAt(wal, i, pid);
  }

  lemma LogOfWhole(wal: seq<WalRec>, base: map<nat, nat>, pid: nat)
    ensures LogUpTo(wal, base, |wal|, pid) == Drop(PartLog(wal, pid), CountOf(base, pid))
  {
    assert wal[..|wal|] == wal;
  }

  // The values are base, base + 1, ..., and next is the one to come.
  ghost predicate Consecutive(values: seq<nat>, next: nat, base: nat) {
    && values != [] && next == base + |values|
    && forall i :: 0 <= i < |values| ==> values[i] == base + i
  }

  lemma PartLogPrefix(wal: seq<WalRec>, i: nat, pid: nat)
    requires i <= |wal|
    ensures PartLog(wal[..i], pid) <= PartLog(wal, pid)
    ensures PartLog(wal, pid) == PartLog(wal[..i], pid) + PartLog(wal[i..], pid)
  {
    assert wal == wal[..i] + wal[i..];
    PartLogConcat(wal[..i], wal[i..], pid);
  }

  ghost predicate NoPartRecords(wal: seq<WalRec>) {
    forall i :: 0 <= i < |wal| ==> wal[i].OtherRec?
  }

  lemma {:induction false} NoPartRecordsLog(wal: seq<WalRec>)
    ensures NoPartRecords(wal) <==> forall pid :: PartLog(wal, pid) == []
  {
    if wal != [] {
      var init := wal[..|wal| - 1];
      NoPartRecordsLog(init);
      if NoPartRecords(wal) {
        forall pid
          ensures PartLog(wal, pid) == []
        {
          assert PartLog(init, pid) == [];
        }
      } else if wal[|wal| - 1].PartRec? {
        assert PartLog(wal, wal[|wal| - 1].h.partitionId) != [];
      } else {
        var pid :| PartLog(init, pid) != [];
        assert PartLog(wal, pid) != [];
      }
    }
  }

  lemma {:induction false} PartLogMember(wal: seq<WalRec>, i: nat)
    requires i < |wal| && wal[i].PartRec?
    ensures wal[i].h in PartLog(wal, wal[i].h.partitionId)
  {
    if i < |wal| - 1 {
      PartLogMember(wal[..|wal| - 1], i);
    }
  }

  // ---- facts of every run, with no hypothesis on order or faults ----

  ghost predicate Ordered(s: State) {
    && s.redoPtr <= s.flushed <= |s.wal|
    && s.saved <= s.flushed
    && s.lastProcessed <= s.readPos <= s.flushed
    && (s.mode.Recovering? ==> s.redoPtr <= s.mode.pos <= |s.wal| && s.flushed == |s.wal|)
  }

  /** Progress: in every step, flushed WAL is never rewritten, the saved progress never
      exceeds the flush point, and unless the server goes down last_processed_lsn never
      goes back -- including skips to the frontier and worker restarts. */
  lemma ProgressStep(s: State, step: Step)
    requires Ordered(s) && Enabled(s, step)
    ensures var t := Next(s, step);
            && Ordered(t)
            && s.flushed <= t.flushed && t.wal[..s.flushed] == s.wal[..s.flushed]
            && (step.Crash? || step.CleanRestart? || s.lastProcessed <= t.lastProcessed)
  {
    OrderedStep(s, step);
    FlushedStays(s, step);
  }

  lemma OrderedStep(s: State, step: Step)
    requires Ordered(s) && Enabled(s, step)
    ensures Ordered(Next(s, step))
    ensures step.Crash? || step.CleanRestart? || s.lastProcessed <= Next(s, step).lastProcessed
  {
    if step.Crash? || step.CleanRestart? || step.RedoRecord? || step.FinishRecovery? {
      OrderedDown(s, step);
    } else {
      OrderedUp(s, step);
    }
  }

  // The steps of a server going down and coming up.
  lemma OrderedDown(s: State, step: Step)
    requires Ordered(s) && Enabled(s, step)
    requires step.Crash? || step.CleanRestart? || step.RedoRecord? || step.FinishRecovery?
    ensures Ordered(Next(s, step))
    ensures step.Crash? || step.CleanRestart? || s.lastProcessed <= Next(s, step).lastProcessed
  {
  }

  lemma OrderedUp(s: State, step: Step)
    requires Ordered(s) && Enabled(s, step)
    requires !(step.Crash? || step.CleanRestart? || step.RedoRecord? || step.FinishRecovery?)
    ensures Ordered(Next(s, step)) && s.lastProcessed <= Next(s, step).lastProcessed
  {
  }

  lemma FlushedStays(s: State, step: Step)
    requires Ordered(s) && Enabled(s, step)
    ensures var t := Next(s, step);
            s.flushed <= t.flushed <= |t.wal| && t.wal[..s.flushed] == s.wal[..s.flushed]
  {
    match step {
      case Insert(_, _, _) =>
      case InsertOther =>
      case Crash(_) =>
      case CleanRestart(_) =>
      case _ => assert Next(s, step).wal == s.wal;
    }
  }

  lemma {:induction false} ProgressRun(s: State, steps: seq<Step>)
    requires Ordered(s) && Runs(s, steps)
    ensures var t := Run(s, steps);
            && Ordered(t)
            && s.flushed <= t.flushed && t.wal[..s.flushed] == s.wal[..s.flushed]
            && ((forall i :: 0 <= i < |steps| ==> !steps[i].Crash? && !steps[i].CleanRestart?) ==>
                  s.lastProcessed <= t.lastProcessed)
    decreases |steps|
  {
    if steps != [] {
      var m := Next(s, steps[0]);
      ProgressStep(s, steps[0]);
      ProgressRun(m, steps[1..]);
      var t := Run(s, steps);
      assert t.wal[..s.flushed] == t.wal[..m.flushed][..s.flushed];
      assert m.wal[..s.flushed] == m.wal[..m.flushed][..s.flushed];
    }
  }
}
