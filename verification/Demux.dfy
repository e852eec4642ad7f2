/** The demux worker's writer cache and per-record routing over all partitions, crash
    redo, and the per-partition invariants the whole-system machine is built from. */
module Demux {
  import opened Header
  import opened SegmentDir
  import opened WriterSpec

  const MAX_PARTITIONS: nat := 512

  datatype Option<T> = None | Some(value: T)

  datatype Slot = Slot(pid: nat, w: Writer)

  // pg_parwal/ and the process-local arrays writer_pids / active_writers.
  datatype Worker = Worker(disk: map<nat, Dir>, slots: seq<Slot>)

  function DirOf(disk: map<nat, Dir>, pid: nat): Dir {
    if pid in disk then disk[pid] else map[]
  }

  // Position of the partition's slot; |slots| when it has none.
  function IndexOf(slots: seq<Slot>, pid: nat): (i: nat)
    ensures i <= |slots|
    ensures i < |slots| ==> slots[i].pid == pid
    ensures forall j :: 0 <= j < i ==> slots[j].pid != pid
  {
    if slots == [] then 0
    else if slots[0].pid == pid then 0
    else 1 + IndexOf(slots[1..], pid)
  }

  ghost predicate DistinctSlots(slots: seq<Slot>) {
    forall i, j :: 0 <= i < j < |slots| ==> slots[i].pid != slots[j].pid
  }

  // GetOrCreateWriter; no slot is handed out when the cache is full or creation fails.
  function GetOrCreate(wk: Worker, pid: nat, create: bool): (r: (Worker, Option<nat>))
    ensures r.1.Some? ==> r.1.value < |r.0.slots| && r.0.slots[r.1.value].pid == pid
  {
    var i := IndexOf(wk.slots, pid);
    if i < |wk.slots| then (wk, Some(i))
    else if |wk.slots| >= MAX_PARTITIONS || !create then (wk, None)
    else (wk.(slots := wk.slots + [Slot(pid, NewWriter(DirOf(wk.disk, pid)))]), Some(i))
  }

  function StepSlot(wk: Worker, i: nat, part: Part): Worker
    requires i < |wk.slots|
  {
    var pid := wk.slots[i].pid;
    Worker(wk.disk[pid := part.dir], wk.slots[i := Slot(pid, part.w)])
  }

  function PartAt(wk: Worker, i: nat): Part
    requires i < |wk.slots|
  {
    Part(DirOf(wk.disk, wk.slots[i].pid), wk.slots[i].w)
  }

  // One partition record read from the global WAL.
  function Process(wk: Worker, h: Header, io: Io, create: bool): Worker {
    var (k, slot) := GetOrCreate(wk, h.partitionId, create);
    if slot.None? then k else StepSlot(k, slot.value, DemuxOne(PartAt(k, slot.value), h, io))
  }

  // FlushAllWriters after its first n writers; flushes of the partitions in `bad` fail.
  function FlushFirst(wk: Worker, bad: set<nat>, n: nat): (r: Worker)
    requires n <= |wk.slots|
    ensures |r.slots| == |wk.slots|
    ensures forall i :: 0 <= i < |wk.slots| ==> r.slots[i].pid == wk.slots[i].pid
  {
    if n == 0 then wk
    else
      var k := FlushFirst(wk, bad, n - 1);
      StepSlot(k, n - 1, FlushCatch(PartAt(k, n - 1), k.slots[n - 1].pid !in bad))
  }

  function FlushAll(wk: Worker, bad: set<nat>): Worker {
    FlushFirst(wk, bad, |wk.slots|)
  }

  // A file unlinked under an open descriptor is no longer a file of the directory.
  function Unlinked(w: Writer): Writer {
    if w.fd.Open? then w.(fd := Open(false)) else w
  }

  // The unlink loop of ResetPartitionWALState, under a running worker.
  function ResetDir(wk: Worker, pid: nat): Worker {
    var i := IndexOf(wk.slots, pid);
    if i < |wk.slots| then StepSlot(wk, i, Part(map[], Unlinked(wk.slots[i].w)))
    else wk.(disk := wk.disk[pid := map[]])
  }

  // The unlink loop of CleanupPartitionWAL, as one partition and its writer see it,
  function CleanPart(p: Part, keepPtr: nat): Part {
    Part(Cleaned(p.dir, keepPtr), if Survives(p.w.seg, keepPtr) then p.w else Unlinked(p.w))
  }

  // and under a running worker.
  function CleanDir(wk: Worker, pid: nat, keepPtr: nat): Worker {
    var i := IndexOf(wk.slots, pid);
    if i < |wk.slots| then StepSlot(wk, i, CleanPart(PartAt(wk, i), keepPtr))
    else wk.(disk := wk.disk[pid := Cleaned(DirOf(wk.disk, pid), keepPtr)])
  }

  datatype Event = Rec(h: Header, io: Io, create: bool) | Flushes(bad: set<nat>)

  function Handle(wk: Worker, e: Event): Worker {
    match e
    case Rec(h, io, create) => Process(wk, h, io, create)
    case Flushes(bad) => FlushAll(wk, bad)
  }

  function RunAll(wk: Worker, es: seq<Event>): Worker
    decreases |es|
  {
    if es == [] then wk else RunAll(Handle(wk, es[0]), es[1..])
  }

  // ---- one partition's view of the worker ----

  datatype View = View(dir: Dir, slot: Option<Writer>)

  function ViewOf(wk: Worker, pid: nat): View {
    var i := IndexOf(wk.slots, pid);
    View(DirOf(wk.disk, pid), if i < |wk.slots| then Some(wk.slots[i].w) else None)
  }

  function PartOf(v: View): Part
    requires v.slot.Some?
  {
    Part(v.dir, v.slot.value)
  }

  function ViewOfPart(p: Part): View {
    View(p.dir, Some(p.w))
  }

  function WithWriter(v: View): View {
    if v.slot.Some? then v else v.(slot := Some(NewWriter(v.dir)))
  }

  // The demux run on this partition's records alone, with a writer slot available.
  function HandleOne(v: View, e: Event, pid: nat): View {
    match e
    case Rec(h, io, create) =>
      if v.slot.None? && !create then v
      else ViewOfPart(DemuxOne(PartOf(WithWriter(v)), h, io))
    case Flushes(bad) =>
      if v.slot.None? then v else ViewOfPart(FlushCatch(PartOf(v), pid !in bad))
  }

  function RunOne(v: View, es: seq<Event>, pid: nat): View
    decreases |es|
  {
    if es == [] then v else RunOne(HandleOne(v, es[0], pid), es[1..], pid)
  }

  function ResetView(v: View): View {
    View(map[], if v.slot.Some? then Some(Unlinked(v.slot.value)) else None)
  }

  function CleanView(v: View, keepPtr: nat): View {
    if v.slot.Some? then ViewOfPart(CleanPart(PartOf(v), keepPtr)) else View(Cleaned(v.dir, keepPtr), None)
  }

  // The events that concern one partition.
  function Project(es: seq<Event>, pid: nat): seq<Event> {
    if es == [] then []
    else (if es[0].Rec? && es[0].h.partitionId != pid then [] else [es[0]]) + Project(es[1..], pid)
  }

  lemma {:induction false} IndexUnique(slots: seq<Slot>, pid: nat, i: nat)
    requires DistinctSlots(slots) && i < |slots| && slots[i].pid == pid
    ensures IndexOf(slots, pid) == i
  {
  }

  lemma StepSlotViews(wk: Worker, i: nat, part: Part, pid: nat)
    requires DistinctSlots(wk.slots) && i < |wk.slots|
    ensures DistinctSlots(StepSlot(wk, i, part).slots)
    ensures ViewOf(StepSlot(wk, i, part), pid)
         == if pid == wk.slots[i].pid then ViewOfPart(part) else ViewOf(wk, pid)
  {
    var r := StepSlot(wk, i, part);
    if pid == wk.slots[i].pid {
      IndexUnique(r.slots, pid, i);
    } else {
      var a := IndexOf(wk.slots, pid);
      if a < |wk.slots| {
        IndexUnique(r.slots, pid, a);
      }
    }
  }

  // A record touches only its own partition.
  lemma ProcessViews(wk: Worker, h: Header, io: Io, create: bool, pid: nat)
    requires DistinctSlots(wk.slots)
    ensures var r := Process(wk, h, io, create);
            && DistinctSlots(r.slots)
            && (pid != h.partitionId ==> ViewOf(r, pid) == ViewOf(wk, pid))
            && (pid == h.partitionId ==>
                  if ViewOf(wk, pid).slot.None? && |wk.slots| >= MAX_PARTITIONS then r == wk
                  else ViewOf(r, pid) == HandleOne(ViewOf(wk, pid), Rec(h, io, create), pid))
  {
    var (k, slot) := GetOrCreate(wk, h.partitionId, create);
    var i := IndexOf(wk.slots, h.partitionId);
    if i == |wk.slots| && slot.Some? {
      assert k.slots == wk.slots + [Slot(h.partitionId, NewWriter(DirOf(wk.disk, h.partitionId)))];
      IndexUnique(k.slots, h.partitionId, i);
      if pid != h.partitionId {
        AppendSlotKeepsOthers(wk, k, pid);
      }
    }
    if slot.Some? {
      StepSlotViews(k, slot.value, DemuxOne(PartAt(k, slot.value), h, io), pid);
    }
  }

  lemma ResetViews(wk: Worker, pid: nat, other: nat)
    requires DistinctSlots(wk.slots)
    ensures DistinctSlots(ResetDir(wk, pid).slots)
    ensures ViewOf(ResetDir(wk, pid), other)
         == if other == pid then ResetView(ViewOf(wk, pid)) else ViewOf(wk, other)
  {
    var i := IndexOf(wk.slots, pid);
    if i < |wk.slots| {
      StepSlotViews(wk, i, Part(map[], Unlinked(wk.slots[i].w)), other);
    }
  }

  lemma CleanViews(wk: Worker, pid: nat, keepPtr: nat, other: nat)
    requires DistinctSlots(wk.slots)
    ensures DistinctSlots(CleanDir(wk, pid, keepPtr).slots)
    ensures ViewOf(CleanDir(wk, pid, keepPtr), other)
         == if other == pid then CleanView(ViewOf(wk, pid), keepPtr) else ViewOf(wk, other)
  {
    var i := IndexOf(wk.slots, pid);
    if i < |wk.slots| {
      StepSlotViews(wk, i, CleanPart(PartAt(wk, i), keepPtr), other);
    }
  }

  lemma AppendSlotKeepsOthers(wk: Worker, k: Worker, pid: nat)
    requires k.disk == wk.disk && |k.slots| == |wk.slots| + 1 && k.slots[..|wk.slots|] == wk.slots
    requires DistinctSlots(k.slots) && DistinctSlots(wk.slots) && k.slots[|wk.slots|].pid != pid
    ensures ViewOf(k, pid) == ViewOf(wk, pid)
  {
    var a := IndexOf(wk.slots, pid);
    if a < |wk.slots| {
      IndexUnique(k.slots, pid, a);
    }
  }

  // After n writers, the first n partitions have been flushed once each.
  lemma {:induction false} FlushFirstPart(wk: Worker, bad: set<nat>, n: nat, i: nat)
    requires DistinctSlots(wk.slots) && n <= |wk.slots| && i < |wk.slots|
    ensures PartAt(FlushFirst(wk, bad, n), i)
         == if i < n then FlushCatch(PartAt(wk, i), wk.slots[i].pid !in bad) else PartAt(wk, i)
  {
    if n > 0 {
      FlushFirstPart(wk, bad, n - 1, i);
      assert i != n - 1 ==> wk.slots[i].pid != wk.slots[n - 1].pid;
    }
  }

  lemma {:induction false} FlushFirstOther(wk: Worker, bad: set<nat>, n: nat, pid: nat)
    requires n <= |wk.slots| && forall i :: 0 <= i < |wk.slots| ==> wk.slots[i].pid != pid
    ensures DirOf(FlushFirst(wk, bad, n).disk, pid) == DirOf(wk.disk, pid)
  {
    if n > 0 {
      FlushFirstOther(wk, bad, n - 1, pid);
    }
  }

  // FlushAllWriters flushes every partition with a writer exactly once, and no other.
  lemma FlushAllViews(wk: Worker, bad: set<nat>, pid: nat)
    requires DistinctSlots(wk.slots)
    ensures DistinctSlots(FlushAll(wk, bad).slots)
    ensures ViewOf(FlushAll(wk, bad), pid) == HandleOne(ViewOf(wk, pid), Flushes(bad), pid)
  {
    var i, r := IndexOf(wk.slots, pid), FlushFirst(wk, bad, |wk.slots|);
    if i < |wk.slots| {
      FlushFirstPart(wk, bad, |wk.slots|, i);
      IndexUnique(r.slots, pid, i);
    } else {
      FlushFirstOther(wk, bad, |wk.slots|, pid);
    }
  }

  lemma HandleGrows(wk: Worker, e: Event, pid: nat)
    requires DistinctSlots(wk.slots)
    ensures var r := Handle(wk, e);
            && DistinctSlots(r.slots)
            && |wk.slots| <= |r.slots| && (|wk.slots| <= MAX_PARTITIONS ==> |r.slots| <= MAX_PARTITIONS)
            && (ViewOf(wk, pid).slot.Some? ==> ViewOf(r, pid).slot.Some?)
            && (ViewOf(wk, pid).slot.None? && |wk.slots| >= MAX_PARTITIONS ==> ViewOf(r, pid) == ViewOf(wk, pid))
  {
    match e {
      case Rec(h, io, create) => ProcessViews(wk, h, io, create, pid);
      case Flushes(bad) => FlushAllViews(wk, bad, pid);
    }
  }

  lemma {:induction false} RunAllGrows(wk: Worker, es: seq<Event>, pid: nat)
    requires DistinctSlots(wk.slots)
    ensures var r := RunAll(wk, es);
            && DistinctSlots(r.slots)
            && |wk.slots| <= |r.slots| && (|wk.slots| <= MAX_PARTITIONS ==> |r.slots| <= MAX_PARTITIONS)
            && (ViewOf(wk, pid).slot.None? && |wk.slots| >= MAX_PARTITIONS ==> ViewOf(r, pid) == ViewOf(wk, pid))
    decreases |es|
  {
    if es != [] {
      HandleGrows(wk, es[0], pid);
      RunAllGrows(Handle(wk, es[0]), es[1..], pid);
    }
  }

  /** Partition isolation: over any interleaved stream, with any faults, a partition that
      holds a writer slot at the end -- and every partition, while the cache never fills --
      ends with the directory and writer it would have had on its own records alone; a
      partition without a slot has an untouched directory. */
  lemma {:induction false} Isolation(wk: Worker, es: seq<Event>, pid: nat)
    requires DistinctSlots(wk.slots)
    ensures var r := RunAll(wk, es);
            && DistinctSlots(r.slots)
            && (ViewOf(r, pid).slot.Some? || |r.slots| < MAX_PARTITIONS ==>
                  ViewOf(r, pid) == RunOne(ViewOf(wk, pid), Project(es, pid), pid))
            && (ViewOf(r, pid).slot.None? ==> ViewOf(r, pid) == ViewOf(wk, pid))
    decreases |es|
  {
    if es != [] {
      var k := Handle(wk, es[0]);
      HandleGrows(wk, es[0], pid);
      Isolation(k, es[1..], pid);
      RunAllGrows(k, es[1..], pid);
      var rest := Project(es[1..], pid);
      var concerns := !(es[0].Rec? && es[0].h.partitionId != pid);
      if es[0].Rec? {
        ProcessViews(wk, es[0].h, es[0].io, es[0].create, pid);
      } else {
        FlushAllViews(wk, es[0].bad, pid);
      }
      if concerns {
        assert Project(es, pid)[1..] == rest;
      } else {
        assert Project(es, pid) == rest;
      }
    }
  }

  // ---- the invariant that needs no hypothesis ----

  // Any order, any faults: accepted records form a strictly increasing sequence.
  ghost predicate Sound(v: View, acc: seq<Header>) {
    if v.slot.Some? then Represents(PartOf(v), acc)
    else NonEmpty(v.dir) == Split(acc) && Increasing(acc) && SegMonotone(acc)
  }

  ghost function SoundAfter(v: View, e: Event, acc: seq<Header>): seq<Header> {
    if e.Flushes? || (v.slot.None? && !e.create) then acc
    else AcceptedAfter(PartOf(WithWriter(v)), e.h, e.io, acc)
  }

  lemma FlushSound(p: Part, ok: bool, acc: seq<Header>)
    requires Represents(p, acc)
    ensures Represents(FlushCatch(p, ok), acc)
  {
    FlushKeepsContent(p, ok);
    FlagIrrelevant(Flush(p, ok).part, true);
  }

  lemma NewWriterSound(d: Dir, acc: seq<Header>)
    requires NonEmpty(d) == Split(acc) && Increasing(acc) && SegMonotone(acc)
    ensures Represents(Part(d, NewWriter(d)), acc)
  {
    TailPeekOrdered(d, acc);
    assert Content(Part(d, NewWriter(d))) == NonEmpty(d);
  }

  lemma SoundStep(v: View, e: Event, acc: seq<Header>, pid: nat)
    requires Sound(v, acc)
    ensures Sound(HandleOne(v, e, pid), SoundAfter(v, e, acc))
    ensures forall r :: r in SoundAfter(v, e, acc) ==> r in acc || (e.Rec? && r == e.h)
  {
    match e {
      case Rec(h, io, create) =>
        if v.slot.Some? || create {
          if v.slot.None? {
            NewWriterSound(v.dir, acc);
          }
          DemuxOneSafe(PartOf(WithWriter(v)), h, io, acc);
        }
      case Flushes(bad) =>
        if v.slot.Some? {
          FlushSound(PartOf(v), pid !in bad, acc);
        }
    }
  }
}
