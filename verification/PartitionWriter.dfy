/** The buffered writer on bytes: a 256 KB array, a descriptor, and the partition's segment
    files.  What every method does to the bytes is stated for all directories; on files of
    whole records, and with flushes that fail without having written, it is the
    record-level step of WriterSpec. */
module PartitionWriter {
  import opened Header
  import opened SegmentDir
  import opened SegmentFiles
  import opened WriterSpec
  import opened PartitionDirectory
  import Demux
  import InStep
  import SessionSafety

  const BUFFER_SIZE: nat := 256 * 1024

  // What one write(2) call does; when the list runs out the next call writes everything.
  datatype WriteCall = Wrote(n: nat) | Interrupted | Failed

  datatype FlushResult = FlushResult(ok: bool, written: nat)

  function FlushCalls(io: seq<WriteCall>, remaining: nat): (r: FlushResult)
    ensures r.written <= remaining
    ensures r.ok ==> r.written == remaining
  {
    if remaining == 0 then FlushResult(true, 0)
    else if io == [] then FlushResult(true, remaining)
    else
      match io[0]
      case Interrupted => FlushCalls(io[1..], remaining)
      case Failed => FlushResult(false, 0)
      case Wrote(n) =>
        var m := if n < remaining then n else remaining;
        var r := FlushCalls(io[1..], remaining - m);
        FlushResult(r.ok, m + r.written)
  }

  // The bytes a list of calls says it has written.
  function Amount(io: seq<WriteCall>): nat {
    if io == [] then 0 else Amount(io[..|io| - 1]) + (if io[|io| - 1].Wrote? then io[|io| - 1].n else 0)
  }

  // The first k calls go through, and the next one, if there is one, fails for good.
  ghost predicate FailsAt(io: seq<WriteCall>, k: nat) {
    k <= |io| && (forall i :: 0 <= i < k ==> !io[i].Failed?) && (k < |io| ==> io[k].Failed?)
  }

  lemma {:induction false} AmountOfTail(io: seq<WriteCall>)
    requires io != []
    ensures Amount(io) == (if io[0].Wrote? then io[0].n else 0) + Amount(io[1..])
  {
    if |io| == 1 {
      assert io[..0] == io[1..] == [];
    } else {
      var init := io[..|io| - 1];
      AmountOfTail(init);
      assert init[1..] == io[1..][..|io| - 2];
    }
  }

  /** A flush succeeds if and only if no call fails for good before the bytes are out; then
      all are written, and otherwise what the calls before the failure say.  A call that a
      signal interrupts writes nothing and stops nothing. */
  lemma {:induction false} FlushCallsIff(io: seq<WriteCall>, n: nat, k: nat)
    requires FailsAt(io, k)
    ensures var r := FlushCalls(io, n);
            && (r.ok <==> k == |io| || Amount(io[..k]) >= n)
            && r.written == if r.ok then n else Amount(io[..k])
    decreases |io|
  {
    if k > 0 {
      assert io[..k][1..] == io[1..][..k - 1];
      AmountOfTail(io[..k]);
      if n > 0 {
        var m := if io[0].Wrote? then (if io[0].n < n then io[0].n else n) else 0;
        FlushCallsIff(io[1..], n - m, k - 1);
      }
    }
  }

  lemma {:induction false} FailureExists(io: seq<WriteCall>) returns (k: nat)
    ensures FailsAt(io, k)
  {
    if io == [] || io[0].Failed? {
      k := 0;
    } else {
      k := FailureExists(io[1..]);
      assert forall i :: 1 <= i < |io| ==> io[i] == io[1..][i - 1];
      k := k + 1;
    }
  }

  // The write-nothing fault model: a flush that fails has not written anything before.
  ghost predicate WritesNothing(io: seq<WriteCall>) {
    forall n: nat :: var r := FlushCalls(io, n); r.ok || r.written == 0
  }

  ghost predicate Aligned(files: Files) {
    forall k :: k in files ==> |files[k]| % RECORD_SIZE == 0
  }

  // No file is removed, and none loses a byte.
  ghost predicate Grown(files: Files, after: Files) {
    forall k :: k in files ==> k in after && files[k] <= after[k]
  }

  // open(O_CREAT | O_APPEND) and a write of these bytes.
  function Appended(files: Files, s: SegNo, bytes: seq<byte>): Files {
    files[s := (if s in files then files[s] else []) + bytes]
  }

  function NonEmptyFiles(files: Files): Files {
    map k | k in files && files[k] != [] :: files[k]
  }

  // The files with the buffer credited to the open one, when that has its name.
  function Owed(files: Files, open: bool, seg: SegNo, bytes: seq<byte>): Files {
    NonEmptyFiles(if open && seg in files then files[seg := files[seg] + bytes] else files)
  }

  // Every record the directory or the buffer holds is the partition's own.
  ghost predicate OwnFiles(files: Files, pid: nat) {
    forall k, i :: k in files && 0 <= i < |Frames(files[k])| ==> IsRecordOf(Frames(files[k])[i], pid)
  }

  ghost predicate OwnRecords(l: seq<Header>, pid: nat) {
    forall i :: 0 <= i < |l| ==> IsRecordOf(l[i], pid)
  }

  // What the capped listing shows the watermark is all it needs to see.
  ghost predicate CapHarmless(names: seq<SegNo>, files: Files, pid: nat) {
    Watermark(Listed(names, files), pid) == Watermark(files, pid)
  }

  // Appending whole records to a file of whole records.
  lemma AppendBytes(files: Files, s: SegNo, b: seq<byte>)
    requires Aligned(files) && s in files && |b| % RECORD_SIZE == 0
    ensures Aligned(files[s := files[s] + b])
    ensures Decoded(files[s := files[s] + b]) == Decoded(files)[s := FileOf(Decoded(files), s) + Frames(b)]
  {
    FramesConcat(files[s], b);
    AlignedSum(files[s], b);
  }

  lemma AlignedSum(a: seq<byte>, b: seq<byte>)
    requires |a| % RECORD_SIZE == 0 && |b| % RECORD_SIZE == 0
    ensures |a + b| % RECORD_SIZE == 0
  {
  }

  // The system calls one record may need: the flush of a segment switch, the open, the
  // flush of a full buffer, and the demux worker's flush after the write.
  datatype IoCalls = IoCalls(switchFlush: seq<WriteCall>, openOk: bool, fullFlush: seq<WriteCall>, flush: seq<WriteCall>)

  ghost predicate WriteNothingFaults(io: IoCalls) {
    WritesNothing(io.switchFlush) && WritesNothing(io.fullFlush) && WritesNothing(io.flush)
  }

  ghost predicate NoFaults(io: IoCalls) {
    && io.openOk
    && forall n: nat :: FlushCalls(io.switchFlush, n).ok && FlushCalls(io.fullFlush, n).ok && FlushCalls(io.flush, n).ok
  }

  // No flush fails, whatever it has to write, if and only if no call does,
  lemma NeverFailsIff(io: seq<WriteCall>)
    ensures (forall n: nat :: FlushCalls(io, n).ok) <==> forall i :: 0 <= i < |io| ==> !io[i].Failed?
  {
    var k := FailureExists(io);
    forall n: nat
      ensures FlushCalls(io, n).ok <==> k == |io| || Amount(io[..k]) >= n
    {
      FlushCallsIff(io, n, k);
    }
    assert k < |io| ==> !FlushCalls(io, Amount(io[..k]) + 1).ok;
  }

  // and every flush that fails has written nothing if and only if nothing is written before
  // the first call that fails.
  lemma WritesNothingIff(io: seq<WriteCall>, k: nat)
    requires FailsAt(io, k)
    ensures WritesNothing(io) <==> k == |io| || Amount(io[..k]) == 0
  {
    forall n: nat
      ensures var r := FlushCalls(io, n);
              (r.ok <==> k == |io| || Amount(io[..k]) >= n) && r.written == if r.ok then n else Amount(io[..k])
    {
      FlushCallsIff(io, n, k);
    }
    if k < |io| && Amount(io[..k]) > 0 {
      var r := FlushCalls(io, Amount(io[..k]) + 1);
      assert !r.ok && r.written != 0;
    }
  }

  class Writer {
    const dir: Directory
    var fd: int
    var linked: bool  // whether the open file still has its name; only the file system knows
    var currentSegno: SegNo
    const buffer: array<byte>
    var bufUsed: nat
    var lastPartitionLsn: nat
    var enospcStalled: bool

    ghost predicate Valid()
      reads this, buffer, dir
    {
      && buffer.Length == BUFFER_SIZE
      && bufUsed <= BUFFER_SIZE && bufUsed % RECORD_SIZE == 0
      && (bufUsed > 0 ==> fd >= 0)
      && (fd >= 0 ==> currentSegno != 0 && (linked ==> currentSegno in dir.files))
    }

    ghost function Pending(): seq<Header>
      reads this, buffer
      requires bufUsed <= buffer.Length
    {
      Frames(buffer[..bufUsed])
    }

    // What the directory's files come to once the buffer is written out, byte for byte.
    ghost function OwedBytes(): Files
      reads this, buffer, dir
      requires bufUsed <= buffer.Length
    {
      Owed(dir.files, fd >= 0 && linked, currentSegno, buffer[..bufUsed])
    }

    // Nothing buffered is lost to an unlinked file.
    ghost predicate Reaches()
      reads this
    {
      fd >= 0 ==> linked
    }

    // The record-level state this object stands for.
    ghost function Abs(): Part
      reads this, buffer, dir
      requires bufUsed <= buffer.Length
    {
      Part(Decoded(dir.files),
           WriterSpec.Writer(if fd >= 0 then Open(linked) else Closed, currentSegno, Pending(),
                             lastPartitionLsn, enospcStalled))
    }

    // CreatePartitionWALWriter.
    constructor (dir: Directory, names: seq<SegNo>)
      requires Listing(names, dir.files)
      ensures Valid() && fresh(buffer) && this.dir == dir
      ensures Abs() == Part(Decoded(dir.files),
                            WriterSpec.Writer(Closed, 0, [], Watermark(Listed(names, dir.files), dir.pid), false))
      ensures OwnIncreasing(dir.files, dir.pid) && CapHarmless(names, dir.files, dir.pid) ==>
                Abs() == Part(Decoded(dir.files), NewWriter(Decoded(dir.files)))
    {
      this.dir := dir;
      fd := -1;
      linked := false;
      currentSegno := 0;
      buffer := new byte[BUFFER_SIZE](_ => 0);
      bufUsed := 0;
      enospcStalled := false;
      lastPartitionLsn := 0;
      new;
      lastPartitionLsn := dir.GetLastWrittenPartitionLSN(names);
      if OwnIncreasing(dir.files, dir.pid) {
        WatermarkIsTailPeek(dir.files, dir.pid);
      }
    }

    // The unlink loop of another process's ResetPartitionWALState: an open descriptor stays
    // open, but its file has lost its name.
    method ResetDirectory(names: seq<SegNo>)
      requires Valid() && Listing(names, dir.files)
      modifies this`linked, dir`files
      ensures Valid() && dir.files == map[]
      ensures Demux.ViewOfPart(Abs()) == Demux.ResetView(Demux.ViewOfPart(old(Abs())))
    {
      dir.UnlinkAll(names);
      linked := false;
      assert Decoded(dir.files) == map[];
    }

    // The same for another process's CleanupPartitionWAL.
    method CleanupDirectory(names: seq<SegNo>, keepPtr: nat)
      requires Valid() && Listing(names, dir.files)
      modifies this`linked, dir`files
      ensures Valid()
      ensures Demux.ViewOfPart(Abs()) == Demux.CleanView(Demux.ViewOfPart(old(Abs())), keepPtr)
    {
      dir.CleanupPartitionWAL(names, keepPtr);
      linked := linked && Survives(currentSegno, keepPtr);
    }

    // The write(2) loop of a flush.  Bytes written to an unlinked file reach no file of
    // the directory.
    method WriteOut(io: seq<WriteCall>, n: nat) returns (ok: bool, done: nat)
      requires n <= buffer.Length && (linked ==> currentSegno in dir.files)
      modifies dir`files
      ensures FlushCalls(io, n) == FlushResult(ok, done)
      ensures forall k: nat :: FailsAt(io, k) ==>
                (ok <==> k == |io| || Amount(io[..k]) >= n) && done == if ok then n else Amount(io[..k])
      ensures dir.files == if linked then old(dir.files)[currentSegno := old(dir.files)[currentSegno] + buffer[..done]]
                           else old(dir.files)
    {
      ok, done := true, 0;
      ghost var was := if linked then dir.files[currentSegno] else [];
      assert was + buffer[..0] == was;
      var calls := io;
      while done < n && ok
        invariant 0 <= done <= n
        invariant ok ==> FlushCalls(io, n) == FlushResult(FlushCalls(calls, n - done).ok,
                                                          done + FlushCalls(calls, n - done).written)
        invariant !ok ==> FlushCalls(io, n) == FlushResult(false, done)
        invariant dir.files == if linked then old(dir.files)[currentSegno := was + buffer[..done]] else old(dir.files)
        decreases ok, n - done + |calls|
      {
        if calls == [] {
          AppendToOpen(done, n, was);
          done := n;
        } else {
          match calls[0] {
            case Interrupted =>
            case Failed => ok := false;
            case Wrote(k) =>
              var m := if k < n - done then k else n - done;
              AppendToOpen(done, done + m, was);
              done := done + m;
          }
          calls := calls[1..];
        }
      }
      forall k: nat | FailsAt(io, k)
        ensures (ok <==> k == |io| || Amount(io[..k]) >= n) && done == if ok then n else Amount(io[..k])
      {
        FlushCallsIff(io, n, k);
      }
    }

    // The effect of one successful write(2) of buffer[from..to].
    method AppendToOpen(from: nat, to: nat, ghost was: seq<byte>)
      requires from <= to <= buffer.Length && (linked ==> currentSegno in dir.files)
      requires linked ==> dir.files[currentSegno] == was + buffer[..from]
      modifies dir`files
      ensures dir.files == if linked then old(dir.files)[currentSegno := was + buffer[..to]] else old(dir.files)
    {
      if linked {
        dir.files := dir.files[currentSegno := dir.files[currentSegno] + buffer[from..to]];
        assert was + buffer[..from] + buffer[from..to] == was + buffer[..to];
      }
    }

    // FlushPartitionWALWriter.  A failure after a partial write leaves the whole buffer
    // pending, so the bytes already written will be written again: disk-plus-buffer is
    // intact exactly when the flush succeeds or had written nothing.
    method FlushBuffer(io: seq<WriteCall>) returns (ok: bool)
      requires Valid()
      modifies this`bufUsed, dir`files
      ensures Valid() && Grown(old(dir.files), dir.files)
      ensures var r := FlushCalls(io, old(bufUsed));
              && ok == r.ok
              && bufUsed == (if ok then 0 else old(bufUsed))
              && dir.files == (if old(bufUsed) == 0 || !linked then old(dir.files)
                               else old(dir.files)[currentSegno := old(dir.files)[currentSegno] + buffer[..r.written]])
      ensures forall k: nat :: FailsAt(io, k) ==> (ok <==> k == |io| || Amount(io[..k]) >= old(bufUsed))
      ensures old(bufUsed) > 0 && linked ==>
                (dir.files[currentSegno] + buffer[..bufUsed] == old(dir.files[currentSegno] + buffer[..bufUsed])
                 <==> ok || FlushCalls(io, old(bufUsed)).written == 0)
      ensures (Aligned(old(dir.files)) || !linked) && (ok || FlushCalls(io, old(bufUsed)).written == 0) ==>
                WriterSpec.Flush(old(Abs()), ok) == Outcome(Abs(), ok)
      ensures Aligned(old(dir.files)) && (ok || FlushCalls(io, old(bufUsed)).written == 0) ==> Aligned(dir.files)
      ensures Reaches() && (ok || FlushCalls(io, old(bufUsed)).written == 0) ==> OwedBytes() == old(OwedBytes())
    {
      ok := true;
      assert buffer[..0] == [];
      FramesCount(buffer[..bufUsed]);
      if bufUsed > 0 {
        ghost var files0 := dir.files;
        var done;
        ok, done := WriteOut(io, bufUsed);
        if linked {
          FlushedFile(files0, currentSegno, buffer[..], bufUsed, done);
          FlushedBytes(files0, currentSegno, buffer[..bufUsed]);
        }
        if ok {
          bufUsed := 0;
        }
      }
    }

    // OpenWriterSegment.
    method OpenWriterSegment(segno: SegNo, openOk: bool) returns (ok: bool)
      requires Valid() && bufUsed == 0 && segno != 0
      modifies this`fd, this`linked, this`currentSegno, this`enospcStalled, dir`files
      ensures Valid() && Grown(old(dir.files), dir.files)
      ensures OpenSegment(old(Abs()), segno, openOk) == Outcome(Abs(), ok)
      ensures ok ==> fd >= 0 && linked && currentSegno == segno && segno in dir.files && !enospcStalled
      ensures !ok ==> fd < 0 && currentSegno == old(currentSegno) && dir.files == old(dir.files)
      ensures Reaches() && OwedBytes() == NonEmptyFiles(old(dir.files))
      ensures Aligned(old(dir.files)) ==> Aligned(dir.files)
    {
      fd := -1;
      ok := openOk;
      assert buffer[..0] == [];
      ghost var files0 := dir.files;
      if openOk {
        if segno !in dir.files {
          dir.files := dir.files[segno := []];
        }
        fd := segno;
        linked := true;
        currentSegno := segno;
        enospcStalled := false;
        OpenedFile(files0, segno);
      }
      OwedNothing(dir.files, fd >= 0 && linked, currentSegno);
    }

    // Store one record behind the buffered ones.
    method Store(h: Header)
      requires Valid() && Fits(h) && fd >= 0 && bufUsed + RECORD_SIZE <= BUFFER_SIZE
      modifies this`bufUsed, this`lastPartitionLsn, buffer
      ensures Valid()
      ensures Abs() == old(Abs()).(w := old(Abs()).w.(pending := old(Pending()) + [h], last := h.partitionLsn))
      ensures Reaches() ==> OwedBytes() == Appended(old(OwedBytes()), currentSegno, Encode(h))
      ensures bufUsed == old(bufUsed) + 32 && buffer[bufUsed - 32..bufUsed] == Encode(h)
    {
      ghost var before := buffer[..bufUsed];
      var bytes := Encode(h);
      forall i | 0 <= i < RECORD_SIZE {
        buffer[bufUsed + i] := bytes[i];
      }
      assert buffer[..bufUsed + RECORD_SIZE] == before + bytes;
      FramesConcat(before, bytes);
      FramesOfEncode(h);
      if linked {
        CreditedBytes(dir.files, currentSegno, before, bytes);
      }
      bufUsed := bufUsed + RECORD_SIZE;
      lastPartitionLsn := h.partitionLsn;
    }

    // The first half of WritePartitionWAL: have the right segment file open.
    // `seen` records which calls succeeded.
    method SwitchSegment(segno: SegNo, io: IoCalls) returns (ok: bool, seen: Io)
      requires Valid() && segno != 0
      modifies this`fd, this`linked, this`currentSegno, this`enospcStalled, this`bufUsed, dir`files
      ensures Valid() && Grown(old(dir.files), dir.files) && (ok ==> fd >= 0 && currentSegno == segno)
      ensures Aligned(old(dir.files)) && WriteNothingFaults(io) ==>
                Position(old(Abs()), segno, seen) == Outcome(Abs(), ok) && Aligned(dir.files)
      ensures old(Reaches()) && WriteNothingFaults(io) ==> Reaches() && OwedBytes() == old(OwedBytes())
      ensures seen.fullFlush && seen.flush && (NoFaults(io) ==> seen == ALL_OK && ok)
    {
      ok, seen := true, ALL_OK;
      FramesCount(buffer[..bufUsed]);
      assert buffer[..0] == [];
      if currentSegno != 0 && segno != currentSegno {
        ok := FlushBuffer(io.switchFlush);
        seen := ALL_OK.(switchFlush := ok);
        OwedNothing(dir.files, fd >= 0 && linked, currentSegno);
        if ok {
          ok := OpenWriterSegment(segno, io.openOk);
          seen := ALL_OK.(open := io.openOk);
        }
      } else if fd < 0 {
        OwedNothing(dir.files, false, currentSegno);
        ok := OpenWriterSegment(segno, io.openOk);
        seen := ALL_OK.(open := io.openOk);
      }
    }

    // WritePartitionWAL.
    method WritePartitionWAL(h: Header, io: IoCalls) returns (ok: bool, seen: Io)
      requires Valid() && Fits(h)
      modifies this, buffer, dir`files
      ensures Valid() && Grown(old(dir.files), dir.files)
      ensures Aligned(old(dir.files)) && WriteNothingFaults(io) ==>
                WriterSpec.Write(old(Abs()), h, seen) == Outcome(Abs(), ok) && Aligned(dir.files)
      ensures old(Reaches()) && WriteNothingFaults(io) ==>
                && Reaches()
                && OwedBytes() == if ok then Appended(old(OwedBytes()), SegOf(h), Encode(h)) else old(OwedBytes())
      ensures ok ==> fd >= 0 && InSegment(currentSegno, h.origNodeLsn)
                     && bufUsed >= 32 && buffer[bufUsed - 32..bufUsed] == Encode(h)
      ensures old(Reaches()) && WriteNothingFaults(io) && ok ==>
                forall k: SegNo :: InSegment(k, h.origNodeLsn) ==> OwedBytes() == Appended(old(OwedBytes()), k, Encode(h))
      ensures seen.flush && (NoFaults(io) ==> seen == ALL_OK && ok) && (ok ==> lastPartitionLsn == h.partitionLsn)
    {
      SegOfPositive(h);
      SegOfOnly(h);
      ghost var p := Abs();
      ok, seen := SwitchSegment(SegOf(h), io);
      if ok {
        ghost var positioned, files1 := Abs(), dir.files;
        ok := Put(h, io.fullFlush);
        seen := seen.(fullFlush := ok);
        WriteFrom(p, h, seen, positioned, Outcome(Abs(), ok));
        GrownTwice(old(dir.files), files1, dir.files);
      }
    }

    // Make room for one more record: a buffer that is full is flushed.
    method MakeRoom(io: seq<WriteCall>) returns (ok: bool)
      requires Valid()
      modifies this`bufUsed, dir`files
      ensures Valid() && Grown(old(dir.files), dir.files)
      ensures old(bufUsed) < 262144 ==> ok && bufUsed == old(bufUsed) && dir.files == old(dir.files)
      ensures old(bufUsed) == 262144 && ok ==> bufUsed == 0
      ensures bufUsed <= old(bufUsed) && (ok ==> bufUsed + 32 <= BUFFER_SIZE)
      ensures Aligned(old(dir.files)) && WritesNothing(io) ==>
                (if |old(Pending())| + 1 > BUFFER_RECORDS then WriterSpec.Flush(old(Abs()), ok) else Outcome(old(Abs()), true))
                == Outcome(Abs(), ok) && Aligned(dir.files)
      ensures old(Reaches()) && WritesNothing(io) ==> Reaches() && OwedBytes() == old(OwedBytes())
      ensures (forall n: nat :: FlushCalls(io, n).ok) ==> ok
    {
      ok := true;
      FramesCount(buffer[..bufUsed]);
      if bufUsed + RECORD_SIZE > BUFFER_SIZE {
        ok := FlushBuffer(io);
      }
    }

    // The second half: make room when the buffer is full, and store the record.
    method Put(h: Header, io: seq<WriteCall>) returns (ok: bool)
      requires Valid() && Fits(h) && fd >= 0
      modifies this`bufUsed, this`lastPartitionLsn, buffer, dir`files
      ensures Valid() && Grown(old(dir.files), dir.files)
      ensures Aligned(old(dir.files)) && WritesNothing(io) ==>
                PutAfter(old(Abs()), h, ok) == Outcome(Abs(), ok) && Aligned(dir.files)
      ensures old(Reaches()) && WritesNothing(io) ==>
                && Reaches()
                && OwedBytes() == if ok then Appended(old(OwedBytes()), currentSegno, Encode(h)) else old(OwedBytes())
      ensures (forall n: nat :: FlushCalls(io, n).ok) ==> ok
      ensures old(bufUsed) < 262144 ==> ok && bufUsed == old(bufUsed) + 32 && dir.files == old(dir.files)
      ensures old(bufUsed) == 262144 && ok ==> bufUsed == 32
      ensures ok ==> lastPartitionLsn == h.partitionLsn
      ensures ok ==> bufUsed >= 32 && buffer[bufUsed - 32..bufUsed] == Encode(h)
    {
      ok := MakeRoom(io);
      if ok {
        Store(h);
      }
    }

    // The demux loop's reset detection, whatever the directory looks like.
    method RestartIfReset(h: Header, names: seq<SegNo>)
      requires Valid() && Listing(names, dir.files)
      modifies this
      ensures Valid()
      ensures Abs() == DetectResetAt(old(Abs()), h, Watermark(Listed(names, dir.files), dir.pid))
      ensures var reset := ResetShown(h, old(lastPartitionLsn), Watermark(Listed(names, dir.files), dir.pid));
              && (reset ==> fd < 0 && currentSegno == 0 && bufUsed == 0)
              && lastPartitionLsn == (if reset then 0 else old(lastPartitionLsn))
              && enospcStalled == (if reset then false else old(enospcStalled))
              && OwedBytes() == (if reset then NonEmptyFiles(dir.files) else old(OwedBytes()))
              && (old(Reaches()) ==> Reaches())
    {
      OwedNothing(dir.files, false, currentSegno);
      if h.partitionLsn == 1 && lastPartitionLsn > 0 {
        var diskLsn := dir.GetLastWrittenPartitionLSN(names);
        if diskLsn == 0 {
          fd := -1;
          currentSegno := 0;
          bufUsed := 0;
          lastPartitionLsn := 0;
          enospcStalled := false;
          assert buffer[..0] == [];
        }
      }
    }

    // The demux loop's un-stall test.
    method ClearStall(h: Header, names: seq<SegNo>)
      requires Valid() && Listing(names, dir.files)
      modifies this`enospcStalled
      ensures Valid()
      ensures Abs() == UnstallAt(old(Abs()), h, Watermark(Listed(names, dir.files), dir.pid))
    {
      if enospcStalled {
        var diskLsn := dir.GetLastWrittenPartitionLSN(names);
        if diskLsn < h.partitionLsn {
          enospcStalled := false;
        }
      }
    }

    // The handler of a failed write or flush.
    method Stall()
      requires Valid()
      modifies this`enospcStalled
      ensures Valid() && enospcStalled
      ensures Abs() == old(Abs()).(w := old(Abs()).w.(stalled := true))
      ensures Reaches() == old(Reaches()) && OwedBytes() == old(OwedBytes())
    {
      enospcStalled := true;
    }

    // The demux loop's write, flush and error handler.
    method WriteOrStall(h: Header, io: IoCalls) returns (seen: Io, wrote: bool)
      requires Valid() && Fits(h)
      modifies this, buffer, dir`files
      ensures Valid() && Grown(old(dir.files), dir.files)
      ensures wrote ==> lastPartitionLsn == h.partitionLsn
      ensures old(Reaches()) && WriteNothingFaults(io) ==>
                && Reaches()
                && OwedBytes() == if wrote then Appended(old(OwedBytes()), SegOf(h), Encode(h)) else old(OwedBytes())
      ensures Aligned(old(dir.files)) && WriteNothingFaults(io) ==>
                Abs() == WriteAndFlush(old(Abs()), h, seen) && Aligned(dir.files)
      ensures NoFaults(io) ==> seen == ALL_OK && wrote
    {
      var ok;
      ghost var was := Abs();
      ok, seen := WritePartitionWAL(h, io);
      wrote := ok;
      if ok {
        ghost var files1, written := dir.files, Abs();
        ok := FlushBuffer(io.flush);
        GrownTwice(old(dir.files), files1, dir.files);
        WriteThenFlush(was, h, seen, written, Outcome(Abs(), ok));
        seen := seen.(flush := ok);
      }
      if !ok {
        Stall();
      }
    }

    // What the demux loop does with one record of this partition: the record-level step
    // for the watermark the listing shows, and byte for byte: what the files come to once
    // the buffer is written out gains exactly the record's bytes, or nothing.
    method DemuxStep(h: Header, names: seq<SegNo>, io: IoCalls) returns (seen: Io, wrote: bool)
      requires Valid() && Fits(h) && Listing(names, dir.files)
      modifies this, buffer, dir`files
      ensures Valid() && Grown(old(dir.files), dir.files)
      ensures Aligned(old(dir.files)) && WriteNothingFaults(io) ==>
                && Abs() == DemuxAt(old(Abs()), h, seen, Watermark(Listed(names, old(dir.files)), dir.pid))
                && Aligned(dir.files)
      ensures var mark := Watermark(Listed(names, old(dir.files)), dir.pid);
              && (wrote ==> Due(h, old(lastPartitionLsn), old(enospcStalled), mark))
              && (Due(h, old(lastPartitionLsn), old(enospcStalled), mark) && NoFaults(io) ==> wrote)
      ensures old(Reaches()) && WriteNothingFaults(io) ==>
                var reset := ResetShown(h, old(lastPartitionLsn), Watermark(Listed(names, old(dir.files)), dir.pid));
                var kept := if reset then NonEmptyFiles(old(dir.files)) else old(OwedBytes());
                Reaches() && OwedBytes() == if wrote then Appended(kept, SegOf(h), Encode(h)) else kept
      ensures NoFaults(io) ==> seen == ALL_OK
    {
      RestartIfReset(h, names);
      seen, wrote := ALL_OK, false;
      ClearStall(h, names);
      if !enospcStalled && h.partitionLsn > lastPartitionLsn {
        seen, wrote := WriteOrStall(h, io);
      }
    }

    // The same for a writer that stands for the accepted sequence `acc`: the next accepted
    // sequence is strictly increasing and the partition's own.
    method DemuxRecord(h: Header, names: seq<SegNo>, io: IoCalls, ghost acc: seq<Header>) returns (seen: Io, wrote: bool)
      requires Valid() && Fits(h) && Listing(names, dir.files)
      modifies this, buffer, dir`files
      ensures Valid() && Grown(old(dir.files), dir.files)
      ensures Aligned(old(dir.files)) && WriteNothingFaults(io) ==>
                && Abs() == DemuxAt(old(Abs()), h, seen, Watermark(Listed(names, old(dir.files)), dir.pid))
                && Aligned(dir.files)
      ensures var mark := Watermark(Listed(names, old(dir.files)), dir.pid);
              && (wrote ==> Due(h, old(lastPartitionLsn), old(enospcStalled), mark))
              && (Due(h, old(lastPartitionLsn), old(enospcStalled), mark) && NoFaults(io) ==> wrote)
      ensures old(Reaches()) && WriteNothingFaults(io) ==>
                var reset := ResetShown(h, old(lastPartitionLsn), Watermark(Listed(names, old(dir.files)), dir.pid));
                var kept := if reset then NonEmptyFiles(old(dir.files)) else old(OwedBytes());
                Reaches() && OwedBytes() == if wrote then Appended(kept, SegOf(h), Encode(h)) else kept
      ensures Aligned(old(dir.files)) && WriteNothingFaults(io)
              && CapHarmless(names, old(dir.files), dir.pid) && IsRecordOf(h, dir.pid)
              && InStep.SoundAt(Demux.ViewOfPart(old(Abs())), acc) && OwnRecords(acc, dir.pid)
              ==> Abs() == DemuxOne(old(Abs()), h, seen)
                  && var acc' := AcceptedBy(old(Abs()), h, seen, acc, dir.pid);
                     InStep.SoundAt(Demux.ViewOfPart(Abs()), acc') && OwnRecords(acc', dir.pid)
      ensures NoFaults(io) ==> seen == ALL_OK
    {
      ghost var p := Abs();
      ghost var files0 := dir.files;
      seen, wrote := DemuxStep(h, names, io);
      if CapHarmless(names, files0, dir.pid) && IsRecordOf(h, dir.pid)
         && InStep.SoundAt(Demux.ViewOfPart(p), acc) && OwnRecords(acc, dir.pid) {
        SoundRecord(p, files0, h, seen, acc, dir.pid);
      }
    }
  }

  // The reset test, and the test whether a record is written, on what the loop sees.
  predicate ResetShown(h: Header, last: nat, mark: nat) {
    h.partitionLsn == 1 && last > 0 && mark == 0
  }

  predicate Due(h: Header, last: nat, stalled: bool, mark: nat) {
    ResetShown(h, last, mark) || (h.partitionLsn > last && (stalled ==> mark < h.partitionLsn))
  }

  // ---- lemmas about one flush ----

  // O_CREAT adds at most an empty file.
  lemma OpenedFile(files: Files, s: SegNo)
    ensures var made := if s in files then files else files[s := []];
            && Decoded(made) == Decoded(files)[s := FileOf(Decoded(files), s)]
            && NonEmpty(Decoded(made)) == NonEmpty(Decoded(files))
            && NonEmptyFiles(made) == NonEmptyFiles(files) && Grown(files, made)
            && (Aligned(files) ==> Aligned(made))
  {
    if s in files {
      assert Decoded(files)[s := FileOf(Decoded(files), s)] == Decoded(files);
    } else {
      CreatedFile(files, s);
      EmptyFileInvisible(Decoded(files), s);
    }
  }

  lemma CreatedFile(files: Files, s: SegNo)
    ensures Decoded(files[s := []]) == Decoded(files)[s := []]
    ensures Aligned(files) ==> Aligned(files[s := []])
  {
    assert Frames([]) == [];
  }

  lemma EmptyFileInvisible(d: Dir, s: SegNo)
    requires s !in d
    ensures NonEmpty(d[s := []]) == NonEmpty(d)
  {
  }

  lemma OwedNothing(files: Files, open: bool, s: SegNo)
    ensures Owed(files, open, s, []) == NonEmptyFiles(files)
  {
    if open && s in files {
      assert files[s] + [] == files[s];
      assert files[s := files[s] + []] == files;
    }
  }

  lemma FlushedFile(files: Files, s: SegNo, b: seq<byte>, used: nat, done: nat)
    requires s in files && done <= used <= |b| && used % RECORD_SIZE == 0
    ensures done == 0 ==> files[s := files[s] + b[..done]] == files
    ensures Aligned(files) && done == used ==>
              && Aligned(files[s := files[s] + b[..done]])
              && Decoded(files[s := files[s] + b[..done]])
                 == Decoded(files)[s := FileOf(Decoded(files), s) + Frames(b[..used])]
  {
    if Aligned(files) && done == used {
      AppendBytes(files, s, b[..used]);
    }
    if done == 0 {
      assert files[s] + b[..0] == files[s];
    }
  }

  lemma FlushedBytes(files: Files, s: SegNo, bytes: seq<byte>)
    requires s in files
    ensures Owed(files[s := files[s] + bytes], true, s, []) == Owed(files, true, s, bytes)
  {
    assert files[s] + bytes + [] == files[s] + bytes;
    assert files[s := files[s] + bytes][s := files[s] + bytes + []] == files[s := files[s] + bytes];
  }

  lemma CreditedBytes(files: Files, s: SegNo, before: seq<byte>, bytes: seq<byte>)
    requires s in files && bytes != []
    ensures Owed(files, true, s, before + bytes) == Appended(Owed(files, true, s, before), s, bytes)
  {
    assert files[s] + (before + bytes) == files[s] + before + bytes;
  }

  lemma GrownTwice(a: Files, b: Files, c: Files)
    requires Grown(a, b) && Grown(b, c)
    ensures Grown(a, c)
  {
  }

  // A positioned writer makes room when its buffer is full, and stores the record.
  function PutAfter(p: Part, h: Header, flushOk: bool): Outcome {
    var b := if |p.w.pending| + 1 > BUFFER_RECORDS then WriterSpec.Flush(p, flushOk) else Outcome(p, true);
    if !b.ok then b
    else Outcome(b.part.(w := b.part.w.(pending := b.part.w.pending + [h], last := h.partitionLsn)), true)
  }

  // A write is its positioning and then the put.
  lemma WriteFrom(p: Part, h: Header, io: Io, positioned: Part, b: Outcome)
    ensures Position(p, SegOf(h), io.(fullFlush := true)) == Outcome(positioned, true)
            && b == PutAfter(positioned, h, io.fullFlush)
            ==> WriterSpec.Write(p, h, io) == b
  {
    assert Position(p, SegOf(h), io) == Position(p, SegOf(h), io.(fullFlush := true));
  }

  // The outcome of the flush after a write decides nothing about the write.
  lemma WriteThenFlush(p: Part, h: Header, io: Io, written: Part, flushed: Outcome)
    ensures WriterSpec.Write(p, h, io) == Outcome(written, true)
            && WriterSpec.Flush(written, flushed.ok) == flushed
            ==> WriteAndFlush(p, h, io.(flush := flushed.ok))
                == if flushed.ok then flushed.part else flushed.part.(w := flushed.part.w.(stalled := true))
  {
    assert WriterSpec.Write(p, h, io.(flush := flushed.ok)) == WriterSpec.Write(p, h, io);
  }

  // ---- what the accepted records say about the files ----

  ghost function AcceptedBy(p: Part, h: Header, io: Io, acc: seq<Header>, pid: nat): seq<Header> {
    InStep.SoundAtAfter(Demux.ViewOfPart(p), Demux.Rec(h, io, true), acc, pid)
  }

  lemma SoundRecord(p: Part, files: Files, h: Header, io: Io, acc: seq<Header>, pid: nat)
    requires p.dir == Decoded(files) && IsRecordOf(h, pid)
    requires InStep.SoundAt(Demux.ViewOfPart(p), acc) && OwnRecords(acc, pid)
    ensures Watermark(files, pid) == TailPeek(p.dir)
    ensures InStep.SoundAt(Demux.ViewOfPart(DemuxOne(p, h, io)), AcceptedBy(p, h, io, acc, pid))
    ensures OwnRecords(AcceptedBy(p, h, io, acc, pid), pid)
  {
    var v, e := Demux.ViewOfPart(p), Demux.Rec(h, io, true);
    OwnFromAccepted(p, files, acc, pid);
    WatermarkIsTailPeek(files, pid);
    InStep.SoundAtStep(v, e, acc, pid);
    assert Demux.HandleOne(v, e, pid) == Demux.ViewOfPart(DemuxOne(p, h, io));
    forall i | 0 <= i < |AcceptedBy(p, h, io, acc, pid)|
      ensures IsRecordOf(AcceptedBy(p, h, io, acc, pid)[i], pid)
    {
      assert AcceptedBy(p, h, io, acc, pid)[i] in InStep.SoundAtAfter(v, e, acc, pid);
    }
  }

  lemma OwnFromAccepted(p: Part, files: Files, acc: seq<Header>, pid: nat)
    requires InStep.SoundAt(Demux.ViewOfPart(p), acc) && OwnRecords(acc, pid) && p.dir == Decoded(files)
    ensures OwnIncreasing(files, pid)
  {
    SessionSafety.SoundAtFiles(Demux.ViewOfPart(p), acc);
    forall k, i | k in files && 0 <= i < |Frames(files[k])|
      ensures IsRecordOf(Frames(files[k])[i], pid)
    {
      assert p.dir[k][i] in acc;
    }
    OwnIsValid(files, pid);
    assert forall k :: k in files ==> p.dir[k] == Frames(files[k]);
  }

  lemma OwnIsValid(files: Files, pid: nat)
    requires OwnFiles(files, pid)
    ensures forall k :: k in files ==> SegmentFiles.Valid(Frames(files[k]), pid) == Frames(files[k])
  {
    forall k | k in files
      ensures SegmentFiles.Valid(Frames(files[k]), pid) == Frames(files[k])
    {
      ValidAll(Frames(files[k]), pid);
    }
  }
}
