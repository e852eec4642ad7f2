/** The buffered writer of one partition at the level of records, and what the demux
    worker does with one record of that partition.  `PartitionWriter` keeps the same
    steps on bytes; `Demux` runs them for many partitions. */
module WriterSpec {
  import opened Header
  import opened SegmentDir

  const BUFFER_RECORDS: nat := 8192  // 256 KB of 32-byte records

  // The descriptor of the current segment file.  `linked` turns false when the file is
  // unlinked under the writer: further writes then reach no file of the directory.
  datatype Fd = Closed | Open(linked: bool)

  datatype Writer = Writer(fd: Fd, seg: SegNo, pending: seq<Header>, last: nat, stalled: bool)

  datatype Part = Part(dir: Dir, w: Writer)

  // Whether each system call of one write attempt succeeds; a failing flush writes nothing.
  datatype Io = Io(switchFlush: bool, open: bool, fullFlush: bool, flush: bool)

  const ALL_OK := Io(true, true, true, true)

  datatype Outcome = Outcome(part: Part, ok: bool)

  // CreatePartitionWALWriter.
  function NewWriter(d: Dir): Writer {
    Writer(Closed, 0, [], TailPeek(d), false)
  }

  // FlushPartitionWALWriter.
  function Flush(p: Part, ok: bool): Outcome {
    if p.w.pending == [] || p.w.fd.Closed? then Outcome(p, true)
    else if !ok then Outcome(p, false)
    else
      var d := if p.w.fd.linked then p.dir[p.w.seg := FileOf(p.dir, p.w.seg) + p.w.pending] else p.dir;
      Outcome(Part(d, p.w.(pending := [])), true)
  }

  // OpenWriterSegment: close the old file, create or open the new one.
  function OpenSegment(p: Part, s: SegNo, ok: bool): Outcome {
    if !ok then Outcome(p.(w := p.w.(fd := Closed)), false)
    else Outcome(Part(p.dir[s := FileOf(p.dir, s)], p.w.(fd := Open(true), seg := s, stalled := false)), true)
  }

  // WritePartitionWAL up to the buffer: switch the segment file when needed.
  function Position(p: Part, s: SegNo, io: Io): Outcome {
    if p.w.seg != 0 && s != p.w.seg then
      var f := Flush(p, io.switchFlush);
      if !f.ok then f else OpenSegment(f.part, s, io.open)
    else if p.w.fd.Closed? then OpenSegment(p, s, io.open)
    else Outcome(p, true)
  }

  // WritePartitionWAL.
  function Write(p: Part, h: Header, io: Io): Outcome {
    var a := Position(p, SegOf(h), io);
    if !a.ok then a
    else
      var b := if |a.part.w.pending| + 1 > BUFFER_RECORDS then Flush(a.part, io.fullFlush) else a;
      if !b.ok then b
      else Outcome(b.part.(w := b.part.w.(pending := b.part.w.pending + [h], last := h.partitionLsn)), true)
  }

  const CLEAN_WRITER := Writer(Closed, 0, [], 0, false)

  // Reset detection and the un-stall test, given the disk watermark they read.
  function DetectResetAt(p: Part, h: Header, mark: nat): Part {
    if h.partitionLsn == 1 && p.w.last > 0 && mark == 0 then p.(w := CLEAN_WRITER) else p
  }

  function UnstallAt(p: Part, h: Header, mark: nat): Part {
    if p.w.stalled && mark < h.partitionLsn then p.(w := p.w.(stalled := false)) else p
  }

  // The directory was emptied under a writer that still remembers old records.
  predicate ResetSeen(p: Part, h: Header) {
    h.partitionLsn == 1 && p.w.last > 0 && TailPeek(p.dir) == 0
  }

  function DetectReset(p: Part, h: Header): Part {
    DetectResetAt(p, h, TailPeek(p.dir))
  }

  function Unstall(p: Part, h: Header): Part {
    UnstallAt(p, h, TailPeek(p.dir))
  }

  function WriteAndFlush(p: Part, h: Header, io: Io): Part {
    var a := Write(p, h, io);
    if !a.ok then a.part.(w := a.part.w.(stalled := true))
    else
      var b := Flush(a.part, io.flush);
      if !b.ok then b.part.(w := b.part.w.(stalled := true)) else b.part
  }

  // The body of the demux loop for one record, given the disk watermark.
  function DemuxAt(p: Part, h: Header, io: Io, mark: nat): Part {
    var q := UnstallAt(DetectResetAt(p, h, mark), h, mark);
    if !q.w.stalled && h.partitionLsn > q.w.last then WriteAndFlush(q, h, io) else q
  }

  // The body of the demux loop for one record of this partition.
  function DemuxOne(p: Part, h: Header, io: Io): Part {
    DemuxAt(p, h, io, TailPeek(p.dir))
  }

  // One writer's share of FlushAllWriters.
  function FlushCatch(p: Part, ok: bool): Part {
    var a := Flush(p, ok);
    if a.ok then a.part else a.part.(w := a.part.w.(stalled := true))
  }

  // ---- what the writer holds ----

  // The directory with the buffer credited to the current segment.
  function Credit(p: Part): Dir {
    if p.w.pending == [] then p.dir
    else p.dir[p.w.seg := FileOf(p.dir, p.w.seg) + p.w.pending]
  }

  function Content(p: Part): Dir {
    NonEmpty(Credit(p))
  }

  ghost predicate WriterOk(w: Writer) {
    && |w.pending| <= BUFFER_RECORDS
    && (w.pending != [] ==> w.fd.Open?)
    && (w.fd.Open? ==> w.seg != 0)
    && forall i :: 0 <= i < |w.pending| ==> SegOf(w.pending[i]) == w.seg
  }

  // The open file, if any, is a file of the directory.
  ghost predicate Linked(w: Writer) {
    w.fd.Open? ==> w.fd.linked
  }

  lemma FlushKeepsContent(p: Part, ok: bool)
    requires WriterOk(p.w) && Linked(p.w)
    ensures var a := Flush(p, ok);
            && WriterOk(a.part.w) && Linked(a.part.w)
            && Content(a.part) == Content(p)
            && a.part.w.last == p.w.last && a.part.w.seg == p.w.seg && a.part.w.fd == p.w.fd
            && (a.ok ==> a.part.w.pending == [])
            && (ok ==> a.ok)
            && (!a.ok ==> a.part == p)
  {
  }

  lemma PositionKeepsContent(p: Part, s: SegNo, io: Io)
    requires WriterOk(p.w) && Linked(p.w) && s != 0
    ensures var a := Position(p, s, io);
            && WriterOk(a.part.w) && Linked(a.part.w)
            && Content(a.part) == Content(p)
            && a.part.w.last == p.w.last
            && (a.ok ==> a.part.w.fd.Open? && a.part.w.seg == s)
            && (io == ALL_OK ==> a.ok)
  {
    if p.w.seg != 0 && s != p.w.seg {
      FlushKeepsContent(p, io.switchFlush);
      var f := Flush(p, io.switchFlush);
      if f.ok {
        assert Content(f.part) == NonEmpty(f.part.dir);
        OpenKeepsContent(f.part, s, io.open);
      }
    } else if p.w.fd.Closed? {
      OpenKeepsContent(p, s, io.open);
    }
  }

  lemma OpenKeepsContent(p: Part, s: SegNo, ok: bool)
    requires WriterOk(p.w) && p.w.pending == [] && s != 0
    ensures var a := OpenSegment(p, s, ok);
            && WriterOk(a.part.w) && Linked(a.part.w)
            && Content(a.part) == Content(p)
            && a.part.w.last == p.w.last
            && a.ok == ok
            && (a.ok ==> a.part.w.fd.Open? && a.part.w.seg == s)
  {
    assert NonEmpty(p.dir[s := FileOf(p.dir, s)]) == NonEmpty(p.dir);
  }

  /** Fault tolerance of one write, for every pattern of failures: it either returns
      normally having added exactly this record to disk-plus-buffer, or raises an error
      having added nothing; it never loses a record accepted before. */
  lemma WriteAppendsOrRefuses(p: Part, h: Header, io: Io)
    requires WriterOk(p.w) && Linked(p.w)
    ensures var a := Write(p, h, io);
            && WriterOk(a.part.w) && Linked(a.part.w)
            && Content(a.part) == (if a.ok then Append(Content(p), h) else Content(p))
            && a.part.w.last == (if a.ok then h.partitionLsn else p.w.last)
            && (a.ok ==> a.part.w.fd.Open?)
            && (io == ALL_OK ==> a.ok)
  {
    SegOfPositive(h);
    PositionKeepsContent(p, SegOf(h), io);
    var a := Position(p, SegOf(h), io);
    if a.ok {
      FlushKeepsContent(a.part, io.fullFlush);
      var b := if |a.part.w.pending| + 1 > BUFFER_RECORDS then Flush(a.part, io.fullFlush) else a;
      if b.ok {
        BufferAppends(b.part, h);
      }
    }
  }

  lemma BufferAppends(p: Part, h: Header)
    requires p.w.seg == SegOf(h)
    ensures var r := p.(w := p.w.(pending := p.w.pending + [h], last := h.partitionLsn));
            Content(r) == Append(Content(p), h)
  {
    var f, pend := FileOf(p.dir, SegOf(h)), p.w.pending;
    var r := p.(w := p.w.(pending := pend + [h], last := h.partitionLsn));
    assert f + (pend + [h]) == (f + pend) + [h];
    assert FileOf(Credit(p), SegOf(h)) == f + pend;
    assert Credit(r) == Append(Credit(p), h);
    NonEmptyAppend(Credit(p), h);
  }

  lemma SegOfPositive(h: Header)
    ensures SegOf(h) >= 1
  {
  }

  // ---- a whole run of the buffered path ----

  datatype WriterEvent = Put(h: Header, io: Io) | FlushNow(ok: bool)

  function Apply(p: Part, e: WriterEvent): Outcome {
    match e
    case Put(h, io) => Write(p, h, io)
    case FlushNow(ok) => Flush(p, ok)
  }

  function RunWriter(p: Part, es: seq<WriterEvent>): Part
    decreases |es|
  {
    if es == [] then p else RunWriter(Apply(p, es[0]).part, es[1..])
  }

  // The records whose WritePartitionWAL call returned normally, in order.
  function Accepted(p: Part, es: seq<WriterEvent>): seq<Header>
    decreases |es|
  {
    if es == [] then []
    else
      var a := Apply(p, es[0]);
      (if es[0].Put? && a.ok then [es[0].h] else []) + Accepted(a.part, es[1..])
  }

  // WriteHeaderToFile for each record of a log: the direct path used by redo.
  function AppendAll(d: Dir, l: seq<Header>): Dir
    decreases |l|
  {
    if l == [] then d else AppendAll(Append(d, l[0]), l[1..])
  }

  /** The buffered path refines the direct path: for every stream, every placement of
      flushes and every pattern of write-nothing failures, disk plus buffer is what
      direct appends of the accepted records would have left, and the buffer is empty
      whenever no file is open. */
  lemma {:induction false} BufferedRefinesDirect(p: Part, es: seq<WriterEvent>)
    requires WriterOk(p.w) && Linked(p.w)
    ensures Content(RunWriter(p, es)) == AppendAll(Content(p), Accepted(p, es))
    ensures WriterOk(RunWriter(p, es).w) && Linked(RunWriter(p, es).w)
    decreases |es|
  {
    if es != [] {
      var a := Apply(p, es[0]);
      match es[0] {
        case Put(h, io) => WriteAppendsOrRefuses(p, h, io);
        case FlushNow(ok) => FlushKeepsContent(p, ok);
      }
      BufferedRefinesDirect(a.part, es[1..]);
      var rest := Accepted(a.part, es[1..]);
      if es[0].Put? && a.ok {
        assert ([es[0].h] + rest)[1..] == rest;
      } else {
        assert [] + rest == rest;
      }
    }
  }

  /** Without failures nothing is refused. */
  lemma {:induction false} AllAccepted(p: Part, es: seq<WriterEvent>)
    requires WriterOk(p.w) && Linked(p.w)
    requires forall i :: 0 <= i < |es| ==> (if es[i].Put? then es[i].io == ALL_OK else es[i].ok)
    ensures Accepted(p, es) == Puts(es)
    decreases |es|
  {
    if es != [] {
      match es[0] {
        case Put(h, io) => WriteAppendsOrRefuses(p, h, io);
        case FlushNow(ok) => FlushKeepsContent(p, ok);
      }
      AllAccepted(Apply(p, es[0]).part, es[1..]);
    }
  }

  function Puts(es: seq<WriterEvent>): seq<Header> {
    if es == [] then [] else (if es[0].Put? then [es[0].h] else []) + Puts(es[1..])
  }

  // ---- one record through the demux loop ----

  // disk plus buffer is the split of a strictly increasing accepted sequence `acc`,
  // and the in-memory watermark is at least its end.
  ghost predicate Represents(p: Part, acc: seq<Header>) {
    && WriterOk(p.w) && Linked(p.w)
    && Content(p) == Split(acc)
    && Increasing(acc)
    && LastLsn(acc) <= p.w.last
  }

  // The disk watermark never exceeds the writer's.
  lemma DiskBelowWriter(p: Part, acc: seq<Header>)
    requires Represents(p, acc)
    ensures Numbered(p.dir)
    ensures TailPeek(p.dir) <= p.w.last
  {
    SplitIncreasing(acc);
    forall k, i | k in p.dir && 0 <= i < |p.dir[k]|
      ensures p.dir[k][i].partitionLsn >= 1 && p.dir[k][i].partitionLsn <= p.w.last
    {
      assert k in Credit(p) && Credit(p)[k][i] == p.dir[k][i];
      assert k in Content(p);
      assert Split(acc)[k][i] == p.dir[k][i];
      assert Split(acc)[k][i].partitionLsn <= LastLsn(Split(acc)[k]);
    }
    TailPeekMember(p.dir);
  }

  lemma WriteAndFlushStep(p: Part, h: Header, io: Io, acc: seq<Header>)
    requires Represents(p, acc) && h.partitionLsn > p.w.last
    ensures var q := WriteAndFlush(p, h, io);
            var ok := Write(p, h, io).ok;
            && Represents(q, if ok then acc + [h] else acc)
            && (io == ALL_OK ==> ok && q.w.pending == [])
            && q.w.last == (if ok then h.partitionLsn else p.w.last)
  {
    WriteAppendsOrRefuses(p, h, io);
    var a := Write(p, h, io);
    if a.ok {
      SplitAppend(acc, h);
      IncreasingExtend(acc, h);
      FlushKeepsContent(a.part, io.flush);
    }
    FlagIrrelevant(a.part, true);
    FlagIrrelevant(Flush(a.part, io.flush).part, true);
  }

  lemma FlagIrrelevant(p: Part, b: bool)
    ensures Content(p.(w := p.w.(stalled := b))) == Content(p)
  {
  }

  /** The stall flag is never why a fresh record is dropped: a record above the writer's
      watermark clears the stall before the write test. */
  lemma StallNeverDropsFresh(p: Part, h: Header, acc: seq<Header>)
    requires Represents(p, acc) && h.partitionLsn > p.w.last
    ensures var q := Unstall(DetectReset(p, h), h);
            !q.w.stalled && h.partitionLsn > q.w.last
  {
    DiskBelowWriter(p, acc);
  }

  // The accepted sequence after one demux step.
  ghost function AcceptedAfter(p: Part, h: Header, io: Io, acc: seq<Header>): seq<Header> {
    var base := if ResetSeen(p, h) then [] else acc;
    var q := Unstall(DetectReset(p, h), h);
    if h.partitionLsn > q.w.last && Write(q, h, io).ok then base + [h] else base
  }

  lemma ResetRepresents(p: Part, h: Header, acc: seq<Header>)
    requires Represents(p, acc)
    ensures Represents(DetectReset(p, h), if ResetSeen(p, h) then [] else acc)
  {
    if ResetSeen(p, h) {
      DiskBelowWriter(p, acc);
      TailPeekZero(p.dir);
      assert Content(DetectReset(p, h)) == NonEmpty(p.dir);
    }
  }

  /** Safety of one demux step under every fault pattern and for any incoming LSN. */
  lemma DemuxOneSafe(p: Part, h: Header, io: Io, acc: seq<Header>)
    requires Represents(p, acc)
    ensures Represents(DemuxOne(p, h, io), AcceptedAfter(p, h, io, acc))
  {
    var base := if ResetSeen(p, h) then [] else acc;
    ResetRepresents(p, h, acc);
    var r := DetectReset(p, h);
    UnstallRepresents(r, h, base);
    var q := Unstall(r, h);
    if h.partitionLsn > q.w.last {
      StallNeverDropsFresh(r, h, base);
      WriteAndFlushStep(q, h, io, base);
    }
  }

  lemma UnstallRepresents(p: Part, h: Header, acc: seq<Header>)
    requires Represents(p, acc)
    ensures Represents(Unstall(p, h), acc)
  {
    FlagIrrelevant(p, false);
  }

  // A record above the watermark reaches the write, with nothing reset and no stall.
  lemma FreshReachesWrite(p: Part, h: Header, io: Io, acc: seq<Header>)
    requires Represents(p, acc) && h.partitionLsn > p.w.last
    ensures var q := p.(w := p.w.(stalled := false));
            && Represents(q, acc)
            && DemuxOne(p, h, io) == WriteAndFlush(q, h, io)
            && AcceptedAfter(p, h, io, acc) == if Write(q, h, io).ok then acc + [h] else acc
  {
    StallNeverDropsFresh(p, h, acc);
    FlagIrrelevant(p, false);
    assert !ResetSeen(p, h);
    assert Unstall(DetectReset(p, h), h) == p.(w := p.w.(stalled := false));
  }

  // Without faults a record above the watermark is appended and reaches the disk.
  lemma DemuxFresh(p: Part, h: Header, acc: seq<Header>)
    requires Represents(p, acc) && h.partitionLsn > p.w.last
    ensures AcceptedAfter(p, h, ALL_OK, acc) == acc + [h]
    ensures var r := DemuxOne(p, h, ALL_OK);
            Represents(r, acc + [h]) && r.w.pending == [] && r.w.last == h.partitionLsn
  {
    FreshReachesWrite(p, h, ALL_OK, acc);
    WriteAndFlushStep(p.(w := p.w.(stalled := false)), h, ALL_OK, acc);
  }

  /** Without faults the dedup test is exact: a record is added if and only if it is above
      the writer's watermark or restarts an emptied directory.  A lower LSN that arrives
      late is dropped for good. */
  lemma AddedIff(p: Part, h: Header, acc: seq<Header>)
    requires Represents(p, acc)
    ensures h.partitionLsn > p.w.last || ResetSeen(p, h) <==>
            AcceptedAfter(p, h, ALL_OK, acc) == (if ResetSeen(p, h) then [] else acc) + [h]
    ensures !(h.partitionLsn > p.w.last || ResetSeen(p, h)) ==> Content(DemuxOne(p, h, ALL_OK)) == Content(p)
  {
    DemuxOneSafe(p, h, ALL_OK, acc);
    var q := Unstall(DetectReset(p, h), h);
    if h.partitionLsn > p.w.last {
      DemuxFresh(p, h, acc);
    } else if ResetSeen(p, h) {
      WriteAppendsOrRefuses(q, h, ALL_OK);
    } else {
      FlagIrrelevant(p, false);
    }
  }

  /** Records accepted earlier survive a demux step exactly when the reset test does not
      fire on a writer whose records are all still in its buffer -- or fires for the very
      record the buffer holds, which is then written again.  The failing family: every
      flush so far failed, and a late record with LSN 1 arrives. */
  lemma AcceptedKeptIff(p: Part, h: Header, io: Io, acc: seq<Header>)
    requires Represents(p, acc)
    ensures acc <= AcceptedAfter(p, h, io, acc)
       <==> (!(h.partitionLsn == 1 && p.w.last > 0 && NonEmpty(p.dir) == map[] && p.w.pending != [])
             || (p.w.pending == [h] && io.open))
  {
    DiskBelowWriter(p, acc);
    TailPeekZero(p.dir);
    if ResetSeen(p, h) {
      AllPending(p, acc);
      RestartedWrite(p, h, io);
    }
  }

  // With nothing on disk everything accepted is in the buffer.
  lemma AllPending(p: Part, acc: seq<Header>)
    requires Represents(p, acc) && NonEmpty(p.dir) == map[]
    ensures acc == p.w.pending
  {
    if p.w.pending == [] {
      if acc != [] {
        SplitShape(acc);
      }
    } else {
      EmptyFiles(p.dir);
      assert Credit(p)[p.w.seg] == p.w.pending;
      assert Content(p) == map[p.w.seg := p.w.pending];
      SplitSingle(acc, p.w.seg, p.w.pending);
    }
  }

  lemma EmptyFiles(d: Dir)
    requires NonEmpty(d) == map[]
    ensures forall k :: k in d ==> d[k] == []
  {
    forall k | k in d
      ensures d[k] == []
    {
      assert d[k] != [] ==> k in NonEmpty(d);
    }
  }

  lemma RestartedWrite(p: Part, h: Header, io: Io)
    requires ResetSeen(p, h)
    ensures Write(Unstall(DetectReset(p, h), h), h, io).ok <==> io.open
  {
    SegOfPositive(h);
  }

  /** Such a run exists: record 2 arrives first, its flush fails, then record 1 arrives. */
  lemma LateFirstRecordLosesSecond()
    ensures var one := Header(PARTWAL_MAGIC, 7, 1, 1, 1);
            var two := Header(PARTWAL_MAGIC, 7, 2, 2, 1);
            var start := Part(map[], NewWriter(map[]));
            var p := DemuxOne(start, two, ALL_OK.(flush := false));
            && Represents(start, [])
            && Represents(p, [two])
            && AcceptedAfter(p, one, ALL_OK, [two]) == [one]
  {
    var one := Header(PARTWAL_MAGIC, 7, 1, 1, 1);
    var two := Header(PARTWAL_MAGIC, 7, 2, 2, 1);
    UnflushedSecond(two);
    FirstAfterSecond(one, two);
  }

  function Unflushed(h: Header): Part {
    Part(map[SegOf(h) := []], Writer(Open(true), SegOf(h), [h], h.partitionLsn, true))
  }

  lemma UnflushedSecond(two: Header)
    requires two.partitionLsn == 2
    ensures var start := Part(map[], NewWriter(map[]));
            && Represents(start, [])
            && DemuxOne(start, two, ALL_OK.(flush := false)) == Unflushed(two)
            && Represents(Unflushed(two), [two])
  {
    var start := Part(map[], NewWriter(map[]));
    assert TailPeek(map[]) == 0;
    assert Content(start) == map[];
    SegOfPositive(two);
    DemuxOneSafe(start, two, ALL_OK.(flush := false), []);
    assert [] + [two] == [two];
  }

  lemma FirstAfterSecond(one: Header, two: Header)
    requires one.partitionLsn == 1 && two.partitionLsn == 2
    ensures AcceptedAfter(Unflushed(two), one, ALL_OK, [two]) == [one]
  {
    var p := Unflushed(two);
    assert NonEmpty(p.dir) == map[];
    TailPeekZero(p.dir);
    var q := DetectReset(p, one);
    WriteAppendsOrRefuses(q, one, ALL_OK);
    assert [] + [one] == [one];
  }
}
