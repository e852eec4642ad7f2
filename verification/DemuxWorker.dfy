/** The demux background worker's main loop: its writer cache, its reader position and
    the counters it updates, proved against Demux and tied to the steps of Machine. */
module DemuxWorker {
  import opened Header
  import opened SegmentDir
  import opened WriterSpec
  import opened Demux
  import opened Machine
  import opened Discipline
  import opened CrashInvariant
  import CrashSafety
  import InStep
  import Redo
  import SessionSafety
  import opened PartitionBarrier

  const SAVE_EVERY: nat := 16
  const NULL_LIMIT: nat := 3

  // What XLogReadRecord does in one iteration.
  datatype ReadOutcome =
    | GotRecord
    | SegmentMissing             // opening the WAL segment raised an error
    | NoRecord(next: Option<nat>)  // NULL; what XLogFindNextRecord would answer

  // What another process does to a partition's directory.
  datatype Outside = ResetOf(pid: nat) | CleanupOf(pid: nat, keepPtr: nat)

  // The environment's part in one iteration: what happened to the directories since the last
  // one, the flush point sampled at its top, the later sample taken when it skips or saves,
  // the reader's answer, and the outcome of the I/O.
  datatype Tick = Tick(outside: seq<Outside>, flush: nat, flushNow: nat, read: ReadOutcome,
                       io: Io, create: bool, bad: set<nat>)

  datatype Session = Session(
    wk: Worker, readPos: nat, lastProcessed: nat, saved: nat, nullStreak: nat, saveCounter: nat)

  // Flush points are WAL positions; the reader is at or before them and finds a next record
  // only ahead of itself and within flushed WAL.
  ghost predicate Plausible(s: Session, wal: seq<WalRec>, t: Tick) {
    && s.readPos <= t.flush <= t.flushNow <= |wal|
    && (t.read.NoRecord? && t.read.next.Some? ==> s.readPos <= t.read.next.value <= t.flush)
  }

  function Min(a: nat, b: nat): nat {
    if a > b then b else a
  }

  function TouchOne(wk: Worker, o: Outside): Worker {
    match o
    case ResetOf(pid) => ResetDir(wk, pid)
    case CleanupOf(pid, keepPtr) => CleanDir(wk, pid, keepPtr)
  }

  function Touch(wk: Worker, os: seq<Outside>): Worker
    decreases |os|
  {
    if os == [] then wk else Touch(TouchOne(wk, os[0]), os[1..])
  }

  // One turn of the main loop: what others did in the meantime, then the iteration.
  function Iterate(s: Session, wal: seq<WalRec>, t: Tick): Session
    requires t.flush <= |wal|
  {
    IterateOn(s.(wk := Touch(s.wk, t.outside)), wal, t)
  }

  // One iteration of the main loop.
  function IterateOn(s: Session, wal: seq<WalRec>, t: Tick): Session
    requires t.flush <= |wal|
  {
    if s.readPos >= t.flush then
      s.(wk := FlushAll(s.wk, t.bad),
         lastProcessed := if s.lastProcessed < t.flush then t.flush else s.lastProcessed)
    else
      match t.read
      case SegmentMissing => s.(readPos := t.flushNow)
      case NoRecord(next) =>
        if s.nullStreak + 1 > NULL_LIMIT then
          s.(nullStreak := 0, readPos := if next.Some? then next.value else s.readPos)
        else s.(nullStreak := s.nullStreak + 1)
      case GotRecord =>
        var r := wal[s.readPos];
        var pos := s.readPos + 1;
        var save := s.saveCounter + 1 >= SAVE_EVERY;
        Session(
          if r.PartRec? then Process(s.wk, r.h, t.io, t.create) else s.wk,
          pos, pos,
          if save then Min(pos, t.flushNow) else s.saved,
          0,
          if save then 0 else s.saveCounter + 1)
  }

  // The last flush point an iteration sampled.
  function Sampled(s: Session, t: Tick): nat {
    if s.readPos >= t.flush then t.flush
    else
      match t.read
      case SegmentMissing => t.flushNow
      case NoRecord(_) => t.flush
      case GotRecord => if s.saveCounter + 1 >= SAVE_EVERY then t.flushNow else t.flush
  }

  // Flush points do not go back either: each is at or above `seen`, the last one sampled.
  ghost predicate PlausibleRun(s: Session, wal: seq<WalRec>, ts: seq<Tick>, seen: nat)
    decreases |ts|
  {
    ts == []
    || (seen <= ts[0].flush && Plausible(s, wal, ts[0])
        && PlausibleRun(Iterate(s, wal, ts[0]), wal, ts[1..], Sampled(s, ts[0])))
  }

  ghost function IterateAll(s: Session, wal: seq<WalRec>, ts: seq<Tick>, seen: nat): Session
    requires PlausibleRun(s, wal, ts, seen)
    decreases |ts|
  {
    if ts == [] then s else IterateAll(Iterate(s, wal, ts[0]), wal, ts[1..], Sampled(s, ts[0]))
  }

  // ---- what an iteration does, branch by branch ----

  /** Caught up: last_processed_lsn comes to the flush point, so that demux_flush can return,
      and the reader stays. */
  lemma CaughtUpReaches(s: Session, wal: seq<WalRec>, t: Tick)
    requires t.flush <= |wal| && s.readPos >= t.flush
    ensures var e := Iterate(s, wal, t);
            && e.lastProcessed >= t.flush && e.lastProcessed >= s.lastProcessed
            && (e.lastProcessed == t.flush || e.lastProcessed == s.lastProcessed)
            && e.readPos == s.readPos && e.saved == s.saved
            && e.nullStreak == s.nullStreak && e.saveCounter == s.saveCounter
  {
  }

  /** A missing segment: the reader skips to the flush point sampled then, and nothing else
      happens. */
  lemma MissingSegmentSkips(s: Session, wal: seq<WalRec>, t: Tick)
    requires t.flush <= |wal| && s.readPos < t.flush && t.read.SegmentMissing?
    ensures var e := Iterate(s, wal, t);
            e.readPos == t.flushNow && e == s.(wk := Touch(s.wk, t.outside), readPos := t.flushNow)
  {
  }

  // Every tick of the run finds unread WAL and no record in it.
  ghost predicate AllNull(s: Session, ts: seq<Tick>) {
    forall i :: 0 <= i < |ts| ==> s.readPos < ts[i].flush && ts[i].read.NoRecord?
  }

  /** Up to three NULL records in a row change nothing but the count of them. */
  lemma {:induction false} NullsCount(s: Session, wal: seq<WalRec>, ts: seq<Tick>, seen: nat)
    requires PlausibleRun(s, wal, ts, seen) && AllNull(s, ts) && s.nullStreak + |ts| <= 3
    ensures var e := IterateAll(s, wal, ts, seen);
            && e.readPos == s.readPos && e.nullStreak == s.nullStreak + |ts|
            && e.lastProcessed == s.lastProcessed && e.saved == s.saved && e.saveCounter == s.saveCounter
    decreases |ts|
  {
    if ts != [] {
      var n := Iterate(s, wal, ts[0]);
      assert AllNull(n, ts[1..]);
      NullsCount(n, wal, ts[1..], Sampled(s, ts[0]));
    }
  }

  /** And the fourth one lets the reader go on from the next valid record, wherever that is
      found, or stay; either way the count starts again. */
  lemma FourthNullSkips(s: Session, wal: seq<WalRec>, ts: seq<Tick>, seen: nat)
    requires PlausibleRun(s, wal, ts, seen) && AllNull(s, ts) && s.nullStreak == 0 && |ts| == 4
    ensures var e := IterateAll(s, wal, ts, seen);
            && e.readPos == (if ts[3].read.next.Some? then ts[3].read.next.value else s.readPos)
            && e.nullStreak == 0
            && e.lastProcessed == s.lastProcessed && e.saved == s.saved && e.saveCounter == s.saveCounter
    ensures forall k :: 0 <= k < 4 ==>
              && PlausibleRun(s, wal, ts[..k], seen)
              && IterateAll(s, wal, ts[..k], seen).readPos == s.readPos
              && IterateAll(s, wal, ts[..k], seen).nullStreak == k
  {
    forall k | 0 <= k < 4
      ensures PlausibleRun(s, wal, ts[..k], seen)
      ensures var e := IterateAll(s, wal, ts[..k], seen); e.readPos == s.readPos && e.nullStreak == k
    {
      RunSplit(s, wal, ts, seen, k);
      NullsCount(s, wal, ts[..k], seen);
    }
    RunSplit(s, wal, ts, seen, 3);
    NullsCount(s, wal, ts[..3], seen);
    assert ts[3..] == [ts[3]] && ts[3..][1..] == [];
  }

  // The flush point sampled last over a run.
  ghost function SampledAll(s: Session, wal: seq<WalRec>, ts: seq<Tick>, seen: nat): nat
    requires PlausibleRun(s, wal, ts, seen)
    decreases |ts|
  {
    if ts == [] then seen else SampledAll(Iterate(s, wal, ts[0]), wal, ts[1..], Sampled(s, ts[0]))
  }

  lemma {:induction false} RunSplit(s: Session, wal: seq<WalRec>, ts: seq<Tick>, seen: nat, k: nat)
    requires PlausibleRun(s, wal, ts, seen) && k <= |ts|
    ensures PlausibleRun(s, wal, ts[..k], seen)
    ensures var m, at := IterateAll(s, wal, ts[..k], seen), SampledAll(s, wal, ts[..k], seen);
            PlausibleRun(m, wal, ts[k..], at) && IterateAll(s, wal, ts, seen) == IterateAll(m, wal, ts[k..], at)
    decreases k
  {
    if k > 0 {
      RunSplit(Iterate(s, wal, ts[0]), wal, ts[1..], Sampled(s, ts[0]), k - 1);
      assert ts[..k][1..] == ts[1..][..k - 1] && ts[1..][k - 1..] == ts[k..];
    }
  }

  /** A record: the reader and last_processed_lsn move past it, the count of NULL records
      starts again, and it is handed to its partition if it is one of ours. */
  lemma RecordRead(s: Session, wal: seq<WalRec>, t: Tick)
    requires t.flush <= |wal| && s.readPos < t.flush && t.read.GotRecord?
    ensures var e, r, wk := Iterate(s, wal, t), wal[s.readPos], Touch(s.wk, t.outside);
            && e.readPos == e.lastProcessed == s.readPos + 1 && e.nullStreak == 0
            && e.wk == (if r.PartRec? then Process(wk, r.h, t.io, t.create) else wk)
  {
  }

  /** So a record between two runs of NULLs keeps the reader from skipping. */
  lemma RecordBetweenNulls(s: Session, wal: seq<WalRec>, t: Tick, ts: seq<Tick>, seen: nat)
    requires PlausibleRun(s, wal, [t] + ts, seen) && s.readPos < t.flush && t.read.GotRecord?
    requires AllNull(Iterate(s, wal, t), ts) && |ts| == 3
    ensures var e := IterateAll(s, wal, [t] + ts, seen); e.readPos == s.readPos + 1 && e.nullStreak == 3
  {
    assert ([t] + ts)[1..] == ts;
    RecordRead(s, wal, t);
    NullsCount(Iterate(s, wal, t), wal, ts, Sampled(s, t));
  }

  // Every tick of the run reads a record.
  ghost predicate AllRead(s: Session, ts: seq<Tick>) {
    forall i :: 0 <= i < |ts| ==> s.readPos + i < ts[i].flush && ts[i].read.GotRecord?
  }

  /** Progress is saved at every sixteenth record, and not before: what is saved is the
      position behind it, or the flush point if that is lower. */
  lemma SixteenthSaves(s: Session, wal: seq<WalRec>, ts: seq<Tick>, seen: nat)
    requires PlausibleRun(s, wal, ts, seen) && AllRead(s, ts) && s.saveCounter == 0 && |ts| == 16
    ensures var e := IterateAll(s, wal, ts, seen);
            && e.readPos == s.readPos + 16 && e.saveCounter == 0
            && e.saved == (if e.readPos > ts[15].flushNow then ts[15].flushNow else e.readPos)
    ensures forall k :: 0 <= k < 16 ==>
              PlausibleRun(s, wal, ts[..k], seen) && IterateAll(s, wal, ts[..k], seen).saved == s.saved
  {
    forall k | 0 <= k < 16
      ensures PlausibleRun(s, wal, ts[..k], seen) && IterateAll(s, wal, ts[..k], seen).saved == s.saved
    {
      RunSplit(s, wal, ts, seen, k);
      RecordsCount(s, wal, ts[..k], seen);
    }
    RunSplit(s, wal, ts, seen, 15);
    RecordsCount(s, wal, ts[..15], seen);
    assert ts[15..] == [ts[15]] && ts[15..][1..] == [];
  }

  lemma {:induction false} RecordsCount(s: Session, wal: seq<WalRec>, ts: seq<Tick>, seen: nat)
    requires PlausibleRun(s, wal, ts, seen) && AllRead(s, ts) && s.saveCounter + |ts| <= 15
    ensures var e := IterateAll(s, wal, ts, seen);
            e.readPos == s.readPos + |ts| && e.saveCounter == s.saveCounter + |ts| && e.saved == s.saved
    decreases |ts|
  {
    if ts != [] {
      var n := Iterate(s, wal, ts[0]);
      assert AllRead(n, ts[1..]);
      RecordsCount(n, wal, ts[1..], Sampled(s, ts[0]));
    }
  }

  // The machine steps one iteration amounts to.
  function StepsOf(s: Session, t: Tick): seq<Step> {
    if s.readPos >= t.flush then [CaughtUp(t.bad)]
    else
      match t.read
      case SegmentMissing => [FlushWal(t.flushNow), SkipTo(t.flushNow)]
      case NoRecord(next) => if s.nullStreak + 1 > NULL_LIMIT && next.Some? then [SkipTo(next.value)] else []
      case GotRecord =>
        [ReadRecord(t.io, t.create)]
        + (if s.saveCounter + 1 >= SAVE_EVERY then [FlushWal(t.flushNow), SaveProgress] else [])
  }

  ghost predicate Matches(s: Session, m: State) {
    && m.mode.Running?
    && s.wk == m.wk && s.readPos == m.readPos && s.lastProcessed == m.lastProcessed && s.saved == m.saved
  }

  /** One iteration refines the machine: it is a (possibly empty) sequence of machine steps
      with the same effect on disk, writers, position and progress. */
  lemma IterationIsSteps(s: Session, m: State, t: Tick)
    requires Matches(s, m) && Ordered(m) && t.flush == m.flushed && Plausible(s, m.wal, t)
    ensures Runs(m, StepsOf(s, t))
    ensures Matches(IterateOn(s, m.wal, t), Run(m, StepsOf(s, t)))
    ensures Ordered(Run(m, StepsOf(s, t)))
  {
    if s.readPos >= t.flush {
      OneStep(m, CaughtUp(t.bad));
    } else {
      match t.read {
        case SegmentMissing => FlushThen(m, t.flushNow, SkipTo(t.flushNow));
        case NoRecord(next) =>
          if s.nullStreak + 1 > NULL_LIMIT && next.Some? {
            OneStep(m, SkipTo(next.value));
          }
        case GotRecord => ReadIsSteps(s, m, t);
      }
    }
  }

  /** A worker that starts -- replaced, or with its server -- stands at the flush point with no
      writers, wherever the last one was and whatever it saved. */
  lemma StartsAtFlush(m: State, step: Step)
    requires Enabled(m, step) && Ordered(m) && (step.RestartWorker? || step.CleanRestart? || step.FinishRecovery?)
    requires m.mode.Recovering? ==> m.wk.slots == []
    ensures var n := Next(m, step);
            Matches(Session(Worker(n.wk.disk, []), n.flushed, n.lastProcessed, n.saved, 0, 0), n)
    ensures step.RestartWorker? ==> Next(m, step).lastProcessed == m.lastProcessed
    ensures Next(m, step).saved == m.saved
  {
  }

  lemma ReadIsSteps(s: Session, m: State, t: Tick)
    requires Matches(s, m) && Ordered(m) && t.flush == m.flushed && Plausible(s, m.wal, t)
    requires s.readPos < t.flush && t.read.GotRecord?
    ensures Runs(m, StepsOf(s, t))
    ensures Matches(IterateOn(s, m.wal, t), Run(m, StepsOf(s, t)))
    ensures Ordered(Run(m, StepsOf(s, t)))
  {
    var read := ReadRecord(t.io, t.create);
    OneStep(m, read);
    var n := Next(m, read);
    if s.saveCounter + 1 >= SAVE_EVERY {
      FlushThen(n, t.flushNow, SaveProgress);
      var later := [FlushWal(t.flushNow), SaveProgress];
      assert StepsOf(s, t) == [read] + later;
      Prepend(m, read, later);
    } else {
      assert StepsOf(s, t) == [read];
    }
  }

  lemma Prepend(m: State, step: Step, later: seq<Step>)
    requires Enabled(m, step) && Runs(Next(m, step), later)
    ensures Runs(m, [step] + later) && Run(m, [step] + later) == Run(Next(m, step), later)
  {
    assert ([step] + later)[1..] == later;
  }

  // Backends have moved the flush point on before the worker's next step.
  lemma FlushThen(m: State, upto: nat, step: Step)
    requires Ordered(m) && Enabled(m, FlushWal(upto)) && Enabled(m.(flushed := upto), step)
    ensures Runs(m, [FlushWal(upto), step])
    ensures Run(m, [FlushWal(upto), step]) == Next(m.(flushed := upto), step)
    ensures Ordered(Next(m.(flushed := upto), step))
  {
    OneStep(m, FlushWal(upto));
    OneStep(m.(flushed := upto), step);
    assert [FlushWal(upto), step][1..] == [step];
  }

  lemma OneStep(m: State, step: Step)
    requires Enabled(m, step) && Ordered(m)
    ensures Runs(m, [step]) && Run(m, [step]) == Next(m, step)
    ensures Ordered(Next(m, step))
  {
    ProgressStep(m, step);
    assert [step][1..] == [];
  }

  // ---- the whole loop among the backends ----

  // A step the rest of the server takes between two iterations.
  predicate ServerStep(step: Step) {
    || step.Look? || step.Scan? || step.Enter? || step.Insert? || step.Return? || step.Abort?
    || step.InsertOther? || step.FlushWal? || step.Checkpoint? || step.Reset? || step.Cleanup?
  }

  // What server steps do to the directories under the worker.
  function OutsideOf(steps: seq<Step>): seq<Outside> {
    if steps == [] then [] else OutsideOne(steps[0]) + OutsideOf(steps[1..])
  }

  function OutsideOne(step: Step): seq<Outside> {
    match step
    case Reset(pid) => [ResetOf(pid)]
    case Cleanup(pid, keepPtr) => [CleanupOf(pid, keepPtr)]
    case _ => []
  }

  ghost predicate ServerSteps(steps: seq<Step>) {
    forall i :: 0 <= i < |steps| ==> ServerStep(steps[i])
  }

  // The loop's iterations woven with what the server does before each of them, resets and
  // cleanups included; an iteration samples the flush point the server has reached.
  ghost predicate Woven(s: Session, m: State, ts: seq<Tick>, env: seq<seq<Step>>)
    decreases |ts|
  {
    && |env| == |ts| && Matches(s, m) && Ordered(m)
    && (ts == []
        || (ServerSteps(env[0]) && Runs(m, env[0])
            && var n := Run(m, env[0]);
               && ts[0].flush == n.flushed && ts[0].outside == OutsideOf(env[0]) && Plausible(s, n.wal, ts[0])
               && Runs(n, StepsOf(s, ts[0]))
               && Woven(Iterate(s, n.wal, ts[0]), Run(n, StepsOf(s, ts[0])), ts[1..], env[1..])))
  }

  ghost function WovenSteps(s: Session, m: State, ts: seq<Tick>, env: seq<seq<Step>>): seq<Step>
    requires Woven(s, m, ts, env)
    decreases |ts|
  {
    if ts == [] then []
    else
      var n := Run(m, env[0]);
      (env[0] + StepsOf(s, ts[0]))
      + WovenSteps(Iterate(s, n.wal, ts[0]), Run(n, StepsOf(s, ts[0])), ts[1..], env[1..])
  }

  // Server steps touch the worker's directories only, and only add to the WAL.
  lemma {:induction false} ServerRun(s: Session, m: State, steps: seq<Step>)
    requires Matches(s, m) && Ordered(m) && Runs(m, steps) && ServerSteps(steps)
    ensures var n := Run(m, steps);
            && Matches(s.(wk := Touch(s.wk, OutsideOf(steps))), n) && Ordered(n)
            && m.wal <= n.wal && m.flushed <= n.flushed
    decreases |steps|
  {
    if steps != [] {
      ServerOne(s, m, steps[0]);
      OutsideFirst(s.wk, steps);
      ServerRun(s.(wk := Next(m, steps[0]).wk), Next(m, steps[0]), steps[1..]);
    }
  }

  lemma OutsideFirst(wk: Worker, steps: seq<Step>)
    requires steps != []
    ensures Touch(wk, OutsideOf(steps)) == Touch(Touch(wk, OutsideOne(steps[0])), OutsideOf(steps[1..]))
  {
    var first, rest := OutsideOne(steps[0]), OutsideOf(steps[1..]);
    if first != [] {
      assert (first + rest)[1..] == rest && first[1..] == [];
    } else {
      assert first + rest == rest;
    }
  }

  lemma ServerOne(s: Session, m: State, step: Step)
    requires Matches(s, m) && Ordered(m) && Enabled(m, step) && ServerStep(step)
    ensures var n := Next(m, step);
            && Matches(s.(wk := n.wk), n) && Ordered(n) && m.wal <= n.wal && m.flushed <= n.flushed
            && n.wk == Touch(s.wk, OutsideOne(step))
  {
    ProgressStep(m, step);
    var os := OutsideOne(step);
    if os != [] {
      assert os[1..] == [];
    }
  }

  // Weaving needs nothing beyond plausible iterations: the steps are always enabled.
  lemma WeaveOne(s: Session, m: State, t: Tick, before: seq<Step>)
    requires Matches(s, m) && Ordered(m) && ServerSteps(before) && Runs(m, before)
    requires var n := Run(m, before); t.flush == n.flushed && t.outside == OutsideOf(before) && Plausible(s, n.wal, t)
    ensures var n := Run(m, before);
            && Runs(n, StepsOf(s, t))
            && Matches(Iterate(s, n.wal, t), Run(n, StepsOf(s, t))) && Ordered(Run(n, StepsOf(s, t)))
            && m.flushed <= t.flush && m.wal <= n.wal
            && Run(n, StepsOf(s, t)).wal == n.wal && Run(n, StepsOf(s, t)).flushed == Sampled(s, t)
  {
    ServerRun(s, m, before);
    var n, u := Run(m, before), s.(wk := Touch(s.wk, t.outside));
    IterationIsSteps(u, n, t);
    IterationWal(u, n, t);
    assert StepsOf(u, t) == StepsOf(s, t);
  }

  // Worker steps leave the WAL alone; the flush point is what the iteration sampled last.
  lemma IterationWal(s: Session, m: State, t: Tick)
    requires Matches(s, m) && Ordered(m) && t.flush == m.flushed && Plausible(s, m.wal, t)
    requires Runs(m, StepsOf(s, t))
    ensures var n := Run(m, StepsOf(s, t)); n.wal == m.wal && n.flushed == Sampled(s, t)
  {
    if s.readPos < t.flush {
      match t.read {
        case SegmentMissing => FlushThen(m, t.flushNow, SkipTo(t.flushNow));
        case NoRecord(next) =>
          if s.nullStreak + 1 > NULL_LIMIT && next.Some? {
            OneStep(m, SkipTo(next.value));
          }
        case GotRecord => ReadSamples(s, m, t);
      }
    } else {
      OneStep(m, CaughtUp(t.bad));
    }
  }

  lemma ReadSamples(s: Session, m: State, t: Tick)
    requires Matches(s, m) && Ordered(m) && t.flush == m.flushed && Plausible(s, m.wal, t)
    requires s.readPos < t.flush && t.read.GotRecord?
    ensures Runs(m, StepsOf(s, t))
    ensures var n := Run(m, StepsOf(s, t)); n.wal == m.wal && n.flushed == Sampled(s, t)
  {
    var read := ReadRecord(t.io, t.create);
    OneStep(m, read);
    if s.saveCounter + 1 >= SAVE_EVERY {
      FlushThen(Next(m, read), t.flushNow, SaveProgress);
      var later := [FlushWal(t.flushNow), SaveProgress];
      assert StepsOf(s, t) == [read] + later;
      Prepend(m, read, later);
    } else {
      assert StepsOf(s, t) == [read];
    }
  }

  // An iteration looks only at flushed WAL, so it does not matter what comes later.
  lemma SameIteration(s: Session, wal: seq<WalRec>, wal': seq<WalRec>, t: Tick)
    requires Plausible(s, wal, t) && wal <= wal'
    ensures Plausible(s, wal', t) && Iterate(s, wal', t) == Iterate(s, wal, t)
  {
    if s.readPos < t.flush {
      assert wal[s.readPos] == wal'[s.readPos];
    }
  }

  /** The main loop is a run of the machine: for every interleaving of its iterations with
      what the rest of the server does, the loop over the WAL as finally written ends in the
      state the machine reaches by those steps.  So every run-long theorem about the
      machine holds of the loop. */
  lemma {:induction false} LoopIsRun(s: Session, m: State, ts: seq<Tick>, env: seq<seq<Step>>, wal: seq<WalRec>)
    requires Woven(s, m, ts, env)
    requires var steps := WovenSteps(s, m, ts, env); Runs(m, steps) ==> Run(m, steps).wal <= wal
    ensures var steps := WovenSteps(s, m, ts, env);
            && Runs(m, steps) && m.wal <= Run(m, steps).wal
            && PlausibleRun(s, wal, ts, m.flushed)
            && Matches(IterateAll(s, wal, ts, m.flushed), Run(m, steps))
    decreases |ts|
  {
    if ts != [] {
      var t := ts[0];
      WeaveOne(s, m, t, env[0]);
      var n := Run(m, env[0]);
      var first := env[0] + StepsOf(s, t);
      RunsConcat(m, env[0], StepsOf(s, t));
      var m', s' := Run(n, StepsOf(s, t)), Iterate(s, n.wal, t);
      var rest := WovenSteps(s', m', ts[1..], env[1..]);
      WovenRuns(s', m', ts[1..], env[1..]);
      RunsConcat(m, first, rest);
      LoopIsRun(s', m', ts[1..], env[1..], wal);
      SameIteration(s, n.wal, wal, t);
    }
  }

  lemma {:induction false} WovenRuns(s: Session, m: State, ts: seq<Tick>, env: seq<seq<Step>>)
    requires Woven(s, m, ts, env)
    ensures Runs(m, WovenSteps(s, m, ts, env)) && m.wal <= Run(m, WovenSteps(s, m, ts, env)).wal
    decreases |ts|
  {
    if ts != [] {
      WeaveOne(s, m, ts[0], env[0]);
      var n := Run(m, env[0]);
      RunsConcat(m, env[0], StepsOf(s, ts[0]));
      var m', s' := Run(n, StepsOf(s, ts[0])), Iterate(s, n.wal, ts[0]);
      WovenRuns(s', m', ts[1..], env[1..]);
      RunsConcat(m, env[0] + StepsOf(s, ts[0]), WovenSteps(s', m', ts[1..], env[1..]));
    }
  }

  /** Disk safety of the loop in any WAL order and with any faults: started with the server,
      among any backends, with quiet resets and cleanups that leave what is in use, it leaves
      no LSN on disk twice and every segment file strictly increasing; and the numbers issued
      for a partition since a reset are 1, 2, ... */
  lemma LoopSession(s: Session, m: State, ts: seq<Tick>, env: seq<seq<Step>>, wal: seq<WalRec>,
                    boot: map<nat, seq<Header>>, pid: nat)
    requires Woven(s, m, ts, env) && SessionSafety.Booted(m, boot)
    requires var steps := WovenSteps(s, m, ts, env);
             Runs(m, steps) ==> Run(m, steps).wal == wal && SessionSafety.SessionRun(m, steps)
    ensures PlausibleRun(s, wal, ts, m.flushed)
    ensures var d := DirOf(IterateAll(s, wal, ts, m.flushed).wk.disk, pid);
            && SessionSafety.StrictFiles(d)
            && forall k, i :: k in d && 0 <= i < |d[k]| ==>
                 d[k][i] in SessionSafety.LogFor(boot, pid) || PartRec(d[k][i]) in wal
    ensures var steps := WovenSteps(s, m, ts, env);
            Reset(pid) in steps && Runs(m, steps) ==>
              var t := Run(m, steps); pid in t.issued ==> t.issued[pid] == seq(|t.issued[pid]|, i => i + 1)
  {
    var steps := WovenSteps(s, m, ts, env);
    WovenRuns(s, m, ts, env);
    LoopIsRun(s, m, ts, env, wal);
    SessionSafety.SessionDisk(m, boot, steps, pid);
    if Reset(pid) in steps {
      SessionSafety.ResetAllocatesFromOne(m, boot, steps, pid);
    }
  }

  /** And under the hypotheses: as long as the woven steps are disciplined, every partition's
      log on disk has no gap, and with the buffer it is exactly what the loop has read since
      the partition's last reset and cleanup has left. */
  lemma LoopGapless(s: Session, m: State, ts: seq<Tick>, env: seq<seq<Step>>, wal: seq<WalRec>, pid: nat)
    requires Woven(s, m, ts, env) && Safe(m)
    requires var steps := WovenSteps(s, m, ts, env);
             Runs(m, steps) ==> Run(m, steps).wal == wal && DisciplinedRun(m, steps)
    ensures Runs(m, WovenSteps(s, m, ts, env)) && PlausibleRun(s, wal, ts, m.flushed)
    ensures var e, t := IterateAll(s, wal, ts, m.flushed), Run(m, WovenSteps(s, m, ts, env));
            && CrashSafety.DiskRange(t, pid) && e.wk == t.wk
            && e.readPos <= |wal|
            && var l := LogUpTo(wal, t.base, e.readPos, pid);
               && CountOf(t.cleaned, pid) <= |l|
               && Log(DirOf(e.wk.disk, pid)) + InStep.Buffered(ViewOf(e.wk, pid)) == l[CountOf(t.cleaned, pid)..]
  {
    var steps := WovenSteps(s, m, ts, env);
    WovenRuns(s, m, ts, env);
    LoopIsRun(s, m, ts, env, wal);
    SafeRun(m, steps);
    var t := Run(m, steps);
    CrashSafety.SafeDisk(t, pid);
    LoopRest(t, pid);
  }

  lemma LoopRest(t: State, pid: nat)
    requires Safe(t) && t.mode.Running?
    ensures t.readPos <= |t.wal|
    ensures var l := LogUpTo(t.wal, t.base, t.readPos, pid);
            && CountOf(t.cleaned, pid) <= |l|
            && Log(DirOf(t.wk.disk, pid)) + InStep.Buffered(ViewOf(t.wk, pid)) == l[CountOf(t.cleaned, pid)..]
  {
    var v, l := ViewOf(t.wk, pid), LogUpTo(t.wal, t.base, t.readPos, pid);
    assert InStep.Follows(v, l, CountOf(t.cleaned, pid));
    InStep.FollowedLog(v, l, CountOf(t.cleaned, pid));
  }

  ghost function Zip(pids: seq<nat>, ws: seq<Writer>): (r: seq<Slot>)
    requires |pids| == |ws|
    ensures |r| == |pids| && forall i :: 0 <= i < |r| ==> r[i] == Slot(pids[i], ws[i])
  {
    seq(|pids|, i requires 0 <= i < |pids| => Slot(pids[i], ws[i]))
  }

  class Demultiplexer {
    // pg_parwal/
    var disk: map<nat, Dir>
    // the parallel arrays writer_pids / active_writers, first num_writers entries
    var writerPids: seq<nat>
    var activeWriters: seq<Writer>
    // reader and counters
    var readPos: nat
    var lastProcessed: nat
    var saved: nat
    var nullStreak: nat
    var saveCounter: nat

    ghost predicate Valid()
      reads this
    {
      |writerPids| == |activeWriters|
    }

    ghost function Wk(): Worker
      reads this
      requires Valid()
    {
      Worker(disk, Zip(writerPids, activeWriters))
    }

    ghost function Abs(): Session
      reads this
      requires Valid()
    {
      Session(Wk(), readPos, lastProcessed, saved, nullStreak, saveCounter)
    }

    // Worker start: at the current flush point, with an empty cache.
    constructor (disk: map<nat, Dir>, flush: nat, lastProcessed: nat, saved: nat)
      ensures Valid()
      ensures Abs() == Session(Worker(disk, []), flush, lastProcessed, saved, 0, 0)
    {
      this.disk := disk;
      writerPids, activeWriters := [], [];
      readPos := flush;
      this.lastProcessed := lastProcessed;
      this.saved := saved;
      nullStreak, saveCounter := 0, 0;
    }

    // GetOrCreateWriter; -1 stands for NULL.
    method GetOrCreateWriter(pid: nat, create: bool) returns (i: int)
      requires Valid()
      modifies this`writerPids, this`activeWriters
      ensures Valid()
      ensures GetOrCreate(old(Wk()), pid, create) == (Wk(), if i < 0 then None else Some(i))
      ensures i < 0 <==> pid !in old(writerPids) && (|old(writerPids)| >= 512 || !create)
      ensures i >= 0 ==> i < |writerPids| && writerPids[i] == pid && pid !in writerPids[..i]
    {
      ghost var wk := Wk();
      i := 0;
      while i < |writerPids| && writerPids[i] != pid
        invariant 0 <= i <= |writerPids|
        invariant forall j :: 0 <= j < i ==> wk.slots[j].pid != pid
        invariant Valid() && Wk() == wk
      {
        i := i + 1;
      }
      FirstIndex(wk.slots, pid, i);
      if i == |writerPids| {
        if |writerPids| >= MAX_PARTITIONS || !create {
          i := -1;
        } else {
          activeWriters := activeWriters + [NewWriter(DirOf(disk, pid))];
          writerPids := writerPids + [pid];
          assert Wk().slots == wk.slots + [Slot(pid, NewWriter(DirOf(disk, pid)))];
        }
      }
    }

    // Replace one partition's directory and writer.
    method StoreSlot(i: nat, part: Part)
      requires Valid() && i < |writerPids|
      modifies this`disk, this`activeWriters
      ensures Valid() && writerPids == old(writerPids)
      ensures Wk() == StepSlot(old(Wk()), i, part)
    {
      ghost var wk := Wk();
      disk := disk[writerPids[i] := part.dir];
      activeWriters := activeWriters[i := part.w];
      assert Wk().slots == StepSlot(wk, i, part).slots;
    }

    // The loop body for one of our records.
    method ProcessRecord(h: Header, io: Io, create: bool)
      requires Valid()
      modifies this`disk, this`writerPids, this`activeWriters
      ensures Valid() && Wk() == Process(old(Wk()), h, io, create)
    {
      var i := GetOrCreateWriter(h.partitionId, create);
      if i >= 0 {
        StoreSlot(i, DemuxOne(Part(DirOf(disk, writerPids[i]), activeWriters[i]), h, io));
      }
    }

    method FlushAllWriters(bad: set<nat>)
      requires Valid()
      modifies this`disk, this`activeWriters
      ensures Valid() && writerPids == old(writerPids)
      ensures Wk() == FlushAll(old(Wk()), bad)
    {
      ghost var wk := Wk();
      var i := 0;
      while i < |writerPids|
        invariant Valid() && writerPids == old(writerPids) && 0 <= i <= |writerPids|
        invariant Wk() == FlushFirst(wk, bad, i)
      {
        StoreSlot(i, FlushCatch(Part(DirOf(disk, writerPids[i]), activeWriters[i]), writerPids[i] !in bad));
        i := i + 1;
      }
    }

    // Another process unlinks all or some of a partition's files.
    method OtherProcess(o: Outside)
      requires Valid()
      modifies this`disk, this`activeWriters
      ensures Valid() && writerPids == old(writerPids) && Wk() == TouchOne(old(Wk()), o)
    {
      ghost var wk := Wk();
      var i := 0;
      while i < |writerPids| && writerPids[i] != o.pid
        invariant 0 <= i <= |writerPids|
        invariant forall j :: 0 <= j < i ==> wk.slots[j].pid != o.pid
        invariant Valid() && Wk() == wk
      {
        i := i + 1;
      }
      FirstIndex(wk.slots, o.pid, i);
      var part := match o
        case ResetOf(pid) => Part(map[], NewWriter(map[]))
        case CleanupOf(pid, keepPtr) => Part(Cleaned(DirOf(disk, pid), keepPtr), NewWriter(map[]));
      if i < |writerPids| {
        var w := activeWriters[i];
        StoreSlot(i, part.(w := if o.CleanupOf? && Survives(w.seg, o.keepPtr) then w else Unlinked(w)));
      } else {
        disk := disk[o.pid := part.dir];
      }
    }

    method OtherProcesses(os: seq<Outside>)
      requires Valid()
      modifies this`disk, this`activeWriters
      ensures Valid() && writerPids == old(writerPids) && Wk() == Touch(old(Wk()), os)
    {
      var i := 0;
      while i < |os|
        invariant 0 <= i <= |os| && Valid() && writerPids == old(writerPids)
        invariant Touch(Wk(), os[i..]) == Touch(old(Wk()), os)
      {
        assert os[i..][0] == os[i] && os[i..][1..] == os[i + 1..];
        OtherProcess(os[i]);
        i := i + 1;
      }
    }

    // One iteration of the main loop.
    method Iteration(wal: seq<WalRec>, t: Tick)
      requires Valid() && t.flush <= |wal|
      modifies this
      ensures Valid() && Abs() == IterateOn(old(Abs()), wal, t)
    {
      if readPos >= t.flush {
        FlushAllWriters(t.bad);
        if lastProcessed < t.flush {
          lastProcessed := t.flush;
        }
        return;
      }
      match t.read {
        case SegmentMissing =>
          readPos := t.flushNow;
        case NoRecord(next) =>
          nullStreak := nullStreak + 1;
          if nullStreak > NULL_LIMIT {
            nullStreak := 0;
            if next.Some? {
              readPos := next.value;
            }
          }
        case GotRecord =>
          nullStreak := 0;
          var r := wal[readPos];
          readPos := readPos + 1;
          if r.PartRec? {
            ProcessRecord(r.h, t.io, t.create);
          }
          lastProcessed := readPos;
          saveCounter := saveCounter + 1;
          if saveCounter >= SAVE_EVERY {
            saved := Min(readPos, t.flushNow);
            saveCounter := 0;
          }
      }
    }

    // DemuxWorkerMain from worker start to SIGTERM.  `wal` is the WAL as finally written;
    // each tick sees it up to its flush point.  When the ticks are woven with what the rest
    // of the server did, the loop ends where the machine does.
    method MainLoop(wal: seq<WalRec>, ts: seq<Tick>, seen: nat, ghost m: State, ghost env: seq<seq<Step>>)
      requires Valid() && PlausibleRun(Abs(), wal, ts, seen)
      modifies this
      ensures Valid() && Abs() == IterateAll(old(Abs()), wal, ts, seen)
      ensures Woven(old(Abs()), m, ts, env) && m.flushed == seen
              && (var steps := WovenSteps(old(Abs()), m, ts, env); Runs(m, steps) ==> Run(m, steps).wal <= wal)
              ==> var steps := WovenSteps(old(Abs()), m, ts, env); Runs(m, steps) && Matches(Abs(), Run(m, steps))
    {
      ghost var s := Abs();
      var i := 0;
      ghost var sample := seen;
      while i < |ts|
        invariant Valid() && 0 <= i <= |ts|
        invariant PlausibleRun(Abs(), wal, ts[i..], sample)
        invariant IterateAll(Abs(), wal, ts[i..], sample) == IterateAll(s, wal, ts, seen)
      {
        assert ts[i..][0] == ts[i] && ts[i..][1..] == ts[i + 1..];
        sample := Sampled(Abs(), ts[i]);
        OtherProcesses(ts[i].outside);
        Iteration(wal, ts[i]);
        i := i + 1;
      }
      if Woven(s, m, ts, env) && m.flushed == seen {
        var steps := WovenSteps(s, m, ts, env);
        if Runs(m, steps) ==> Run(m, steps).wal <= wal {
          LoopIsRun(s, m, ts, env, wal);
        }
      }
    }
  }

  const FLUSH_POLLS: nat := 1500  // 30 s in steps of 20 ms

  // demux_flush: poll last_processed_lsn until it reaches the target or time is up.
  // `observed` are the values successive polls would read.
  method DemuxFlush(target: nat, observed: seq<nat>) returns (reached: bool)
    requires |observed| >= 1500
    ensures reached <==> exists i :: 0 <= i < 1500 && observed[i] != 0 && observed[i] >= target
  {
    var polls := 0;
    while polls < FLUSH_POLLS
      invariant 0 <= polls <= FLUSH_POLLS
      invariant forall i :: 0 <= i < polls ==> observed[i] == 0 || observed[i] < target
    {
      if observed[polls] != 0 && observed[polls] >= target {
        return true;
      }
      polls := polls + 1;
    }
    return false;
  }

  // The states of a run that the polls of demux_flush look at.
  ghost predicate Polled(s: State, after: seq<Step>, observed: seq<nat>, cuts: seq<nat>)
    requires Runs(s, after)
  {
    && |observed| == |cuts|
    && forall i :: 0 <= i < |cuts| ==>
         && cuts[i] <= |after| && Runs(s, after[..cuts[i]])
         && observed[i] == Run(s, after[..cuts[i]]).lastProcessed
  }

  /** The barrier as a caller sees it: b's record was written before demux_flush was called,
      the polls read last_processed_lsn along the run, and demux_flush returned in time.
      Then at the poll that let it return the record is in its file, unless a failed flush
      still holds it in the buffer, or it has been reset or cleaned away since.  The run need
      only be steady for the record's own partition, with any numbers missing. */
  lemma ReachedMeansDelivered(s: State, boot: map<nat, seq<Header>>, before: seq<Step>, after: seq<Step>, b: nat,
                              observed: seq<nat>, cuts: seq<nat>)
    returns (poll: nat)
    requires SessionSafety.Booted(s, boot) && Runs(s, before)
    requires var m := Run(s, before);
             && b in m.backends && m.backends[b].Returned? && Runs(m, after)
             && Polled(m, after, observed, cuts) && |observed| >= FLUSH_POLLS
             && (exists i :: 0 <= i < FLUSH_POLLS && observed[i] != 0 && observed[i] >= m.flushed)
             && var pid, pos := m.backends[b].pid, m.backends[b].pos;
                var l := SessionSafety.LogFor(boot, pid);
                && SteadyRun(s, before, l, pid) && SteadyRun(m, after, AccRun(s, before, l, pid), pid)
                && SparesRun(s, before, pos, pid) && SparesRun(m, after, pos, pid)
    ensures var m := Run(s, before);
            && poll < FLUSH_POLLS && cuts[poll] <= |after| && Runs(m, after[..cuts[poll]])
            && var t, pos, pid := Run(m, after[..cuts[poll]]), m.backends[b].pos, m.backends[b].pid;
               && t.lastProcessed >= m.flushed
               && pos < |m.wal| && IsOwn(m.wal[pos], pid) && pos < |t.wal| && t.wal[pos] == m.wal[pos]
               && (Newer(t, pos, pid) ==> Delivered(t, pos))
  {
    var m := Run(s, before);
    var pid, pos := m.backends[b].pid, m.backends[b].pos;
    poll :| 0 <= poll < FLUSH_POLLS && observed[poll] != 0 && observed[poll] >= m.flushed;
    SteadyPrefix(m, after, AccRun(s, before, SessionSafety.LogFor(boot, pid), pid), cuts[poll], pos, pid);
    Barrier(s, boot, before, after[..cuts[poll]], b);
  }

  lemma {:induction false} FirstIndex(slots: seq<Slot>, pid: nat, i: nat)
    requires i <= |slots| && (forall j :: 0 <= j < i ==> slots[j].pid != pid)
    requires i < |slots| ==> slots[i].pid == pid
    ensures IndexOf(slots, pid) == i
  {
  }

  /** Within a session, through skips, read errors and NULL streaks, last_processed_lsn
      never goes back and neither it nor the saved progress passes the flush point. */
  lemma {:induction false} SessionProgress(s: Session, wal: seq<WalRec>, ts: seq<Tick>, seen: nat, flush: nat)
    requires PlausibleRun(s, wal, ts, seen)
    requires forall i :: 0 <= i < |ts| ==> ts[i].flushNow <= flush
    requires s.lastProcessed <= s.readPos && s.saved <= flush && s.readPos <= flush
    ensures var e := IterateAll(s, wal, ts, seen);
            && s.lastProcessed <= e.lastProcessed <= e.readPos <= flush
            && s.readPos <= e.readPos
            && e.saved <= flush
    decreases |ts|
  {
    if ts != [] {
      SessionProgress(Iterate(s, wal, ts[0]), wal, ts[1..], Sampled(s, ts[0]), flush);
    }
  }
}
