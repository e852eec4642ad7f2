/** The parts of partition_wal.c that act on real state: the direct append used by redo,
    the redo callback on raw WAL data, and the allocator's shared hash. */
module DirectPath {
  import opened Header
  import opened SegmentDir
  import opened SegmentFiles
  import opened PartitionDirectory
  import opened Redo
  import WriterSpec
  import PartitionWriter
  import Machine

  // WriteHeaderToFile.  `written` is what the single write(2) call returns, capped by the
  // record size; anything short of a record is an error.
  method WriteHeaderToFile(dir: Directory, h: Header, openOk: bool, written: nat) returns (ok: bool)
    requires Fits(h)
    modifies dir`files
    ensures ok <==> openOk && written >= RECORD_SIZE
    ensures forall k: SegNo :: InSegment(k, h.origNodeLsn) && openOk ==>
              dir.files == PartitionWriter.Appended(old(dir.files), k, Encode(h)[..if written < 32 then written else 32])
    ensures dir.files == if !openOk then old(dir.files)
                         else PartitionWriter.Appended(old(dir.files), SegOf(h), if written < RECORD_SIZE then Encode(h)[..written] else Encode(h))
    ensures PartitionWriter.Aligned(old(dir.files)) && ok ==>
              Decoded(dir.files) == Append(Decoded(old(dir.files)), h) && PartitionWriter.Aligned(dir.files)
    ensures PartitionWriter.Aligned(old(dir.files)) && !ok ==>
              NonEmpty(Decoded(dir.files)) == NonEmpty(Decoded(old(dir.files)))
  {
    var segno := SegOf(h);
    SegOfOnly(h);
    if !openOk {
      return false;
    }
    ghost var files0 := dir.files;
    if segno !in dir.files {
      dir.files := dir.files[segno := []];
    }
    ghost var files1 := dir.files;
    var n := if written < RECORD_SIZE then written else RECORD_SIZE;
    var bytes := Encode(h)[..n];
    dir.files := dir.files[segno := dir.files[segno] + bytes];
    ok := n == RECORD_SIZE;
    PartitionWriter.OpenedFile(files0, segno);
    assert written >= RECORD_SIZE ==> bytes == Encode(h);
    assert (if segno in files0 then files0[segno] else []) + bytes == files1[segno] + bytes;
    if PartitionWriter.Aligned(files0) {
      if ok {
        FullWrite(files0, files1, h);
      } else {
        ShortWrite(files1, segno, bytes);
      }
    }
  }

  lemma FullWrite(files: Files, ready: Files, h: Header)
    requires Fits(h) && SegOf(h) in ready && PartitionWriter.Aligned(ready)
    requires Decoded(ready) == Decoded(files)[SegOf(h) := FileOf(Decoded(files), SegOf(h))]
    ensures var written := ready[SegOf(h) := ready[SegOf(h)] + Encode(h)];
            Decoded(written) == Append(Decoded(files), h) && PartitionWriter.Aligned(written)
  {
    PartitionWriter.AppendBytes(ready, SegOf(h), Encode(h));
    FramesOfEncode(h);
  }

  // A torn record adds no record.
  lemma ShortWrite(files: Files, s: SegNo, bytes: seq<byte>)
    requires s in files && |files[s]| % RECORD_SIZE == 0 && |bytes| < RECORD_SIZE
    ensures Decoded(files[s := files[s] + bytes]) == Decoded(files)
  {
    FramesConcat(files[s], bytes);
    assert Frames(bytes) == [];
    assert Frames(files[s] + bytes) == Frames(files[s]);
  }

  // What redo needs of a directory to be the record-level step: whole records of its own
  // partition, each file increasing, and a listing the watermark can trust.
  ghost predicate Sane(files: Files, pid: nat, names: seq<SegNo>) {
    && PartitionWriter.Aligned(files) && OwnIncreasing(files, pid)
    && PartitionWriter.CapHarmless(names, files, pid)
  }

  // A WAL record redo acts on: long enough, and with our magic.
  predicate Acceptable(data: seq<byte>) {
    |data| >= RECORD_SIZE && Decode(data[..RECORD_SIZE]).magic == PARTWAL_MAGIC
  }

  // Failed stands for the error that ends recovery.
  datatype RedoOutcome = Ignored | Replayed | Failed

  // Replay's own watermark decides as the redo of one record does.
  lemma RedoOf(files: Files, pid: nat, names: seq<SegNo>, h: Header)
    requires Listing(names, files) && Sane(files, pid, names)
    ensures RedoOne(Decoded(files), h)
         == if h.partitionLsn <= Watermark(Listed(names, files), pid) then Decoded(files) else Append(Decoded(files), h)
    ensures PartitionWriter.Aligned(files)
  {
    WatermarkIsTailPeek(files, pid);
  }

  // What the fields of raw WAL data are, and the bytes a record of it is written as.
  lemma RawRecord(data: seq<byte>)
    requires |data| >= 32
    ensures var h := Decode(data[..32]);
            && (h.magic == PARTWAL_MAGIC <==> data[..4] == [0x54, 0x52, 0x41, 0x50])
            && h.origNodeLsn == Value(data[8..16])
            && (data[25..32] == [0, 0, 0, 0, 0, 0, 0] ==> Encode(h) == data[..32])
  {
    var s := data[..32];
    assert s[..4] == data[..4] && s[8..16] == data[8..16] && s[25..] == data[25..32];
    MagicIff(s);
    DecodeLayout(s);
    if s[25..] == [0, 0, 0, 0, 0, 0, 0] {
      EncodeDecode(s);
    }
  }

  // The raw bytes, if their padding is clean, are behind the file their orig_node_lsn names.
  ghost predicate AppendsRaw(before: Files, after: Files, data: seq<byte>) {
    |data| >= 32 && data[25..32] == [0, 0, 0, 0, 0, 0, 0] ==>
      forall k: SegNo :: InSegment(k, Value(data[8..16])) ==>
        after == PartitionWriter.Appended(before, k, data[..32])
  }

  lemma ReplayedBytes(before: Files, after: Files, data: seq<byte>)
    requires |data| >= 32
    requires var h := Decode(data[..32]); after == PartitionWriter.Appended(before, SegOf(h), Encode(h))
    ensures AppendsRaw(before, after, data)
  {
    RawRecord(data);
    SegOfOnly(Decode(data[..32]));
  }

  /** partdist_wal_redo on the raw WAL record data, for every directory: it ignores what is
      not ours, skips what the watermark of the listing covers, and otherwise appends the
      record's bytes or fails.  On a sane directory success is exactly the record-level redo
      step whose convergence is proved in Redo, and failure leaves the same records. */
  method RedoRecord(dir: Directory, data: seq<byte>, names: seq<SegNo>, openOk: bool, written: nat)
    returns (outcome: RedoOutcome)
    requires Listing(names, dir.files)
    requires Acceptable(data) ==> Decode(data[..RECORD_SIZE]).partitionId == dir.pid
    modifies dir`files
    ensures outcome == (
              if !Acceptable(data)
                 || Decode(data[..RECORD_SIZE]).partitionLsn <= Watermark(Listed(names, old(dir.files)), dir.pid)
              then Ignored
              else if openOk && written >= RECORD_SIZE then Replayed
              else Failed)
    ensures |data| < 32 || data[..4] != [0x54, 0x52, 0x41, 0x50] ==> outcome.Ignored?
    ensures outcome.Ignored? ==> dir.files == old(dir.files)
    ensures outcome.Replayed? ==>
              var h := Decode(data[..RECORD_SIZE]); dir.files == PartitionWriter.Appended(old(dir.files), SegOf(h), Encode(h))
    ensures outcome.Replayed? ==> AppendsRaw(old(dir.files), dir.files, data)
    ensures outcome.Failed? ==>
              dir.files == if !openOk then old(dir.files)
                           else var h := Decode(data[..RECORD_SIZE]);
                                PartitionWriter.Appended(old(dir.files), SegOf(h), Encode(h)[..written])
    ensures Acceptable(data) && Sane(old(dir.files), dir.pid, names) ==>
              if outcome.Failed? then NonEmpty(Decoded(dir.files)) == NonEmpty(Decoded(old(dir.files)))
              else Decoded(dir.files) == RedoOne(Decoded(old(dir.files)), Decode(data[..RECORD_SIZE]))
  {
    if |data| < RECORD_SIZE {
      return Ignored;
    }
    var h := Decode(data[..RECORD_SIZE]);
    RawRecord(data);
    if h.magic != PARTWAL_MAGIC {
      return Ignored;
    }
    var last := dir.GetLastWrittenPartitionLSN(names);
    if Sane(dir.files, dir.pid, names) {
      RedoOf(dir.files, dir.pid, names, h);
    }
    if h.partitionLsn <= last {
      return Ignored;
    }
    DecodeFits(data[..RECORD_SIZE]);
    ghost var before := dir.files;
    var ok := WriteHeaderToFile(dir, h, openOk, written);
    outcome := if ok then Replayed else Failed;
    if ok {
      ReplayedBytes(before, dir.files, data);
    }
  }

  lemma {:induction false} ValueBound(s: seq<byte>)
    ensures Value(s) < Pow256(|s|)
  {
    if s != [] {
      ValueBound(s[1..]);
    }
  }

  lemma DecodeFits(s: seq<byte>)
    requires |s| == RECORD_SIZE
    ensures Fits(Decode(s))
  {
    ValueBound(s[..4]);
    ValueBound(s[4..8]);
    ValueBound(s[8..16]);
    ValueBound(s[16..24]);
    ValueBound(s[24..25]);
  }

  // ---- the allocator ----

  ghost predicate InSequence(next: map<nat, nat>, issued: map<nat, seq<nat>>) {
    && next.Keys == issued.Keys
    && forall p :: p in next ==>
         && issued[p] != []
         && forall i :: 0 <= i < |issued[p]| ==> issued[p][i] == next[p] - |issued[p]| + i
  }

  lemma ContinuesIssue(next: map<nat, nat>, issued: map<nat, seq<nat>>, pid: nat, init: nat)
    requires InSequence(next, issued)
    ensures var lsn := if pid in next then next[pid] else init;
            var was := if pid in issued then issued[pid] else [];
            InSequence(next[pid := lsn + 1], issued[pid := was + [lsn]])
  {
  }

  lemma MachineEnters(s: Machine.State, b: nat, pid: nat, init: nat)
    ensures var t := Machine.EnterSection(s, b, pid, init);
            var lsn := if pid in s.alloc then s.alloc[pid] else init;
            && t.alloc == s.alloc[pid := lsn + 1]
            && t.issued == s.issued[pid := (if pid in s.issued then s.issued[pid] else []) + [lsn]]
            && t.backends == s.backends[b := Machine.Holding(pid, lsn)]
  {
  }

  class LsnAllocator {
    var next: map<nat, nat>          // PartWALLSNHash
    ghost var issued: map<nat, seq<nat>>

    // Every partition's values so far are consecutive and end just below next.
    ghost predicate Valid()
      reads this
    {
      InSequence(next, issued)
    }

    constructor ()
      ensures Valid() && next == map[]
    {
      next := map[];
      issued := map[];
    }

    // The section under the shared lock.
    method Probe(pid: nat) returns (found: bool)
      ensures found <==> pid in next
    {
      found := pid in next;
    }

    // The disk read between the sections.
    method ScanDisk(dir: Directory, names: seq<SegNo>) returns (init: nat)
      requires Listing(names, dir.files)
      ensures init == Watermark(Listed(names, dir.files), dir.pid) + 1
    {
      init := 1;
      var last := dir.GetLastWrittenPartitionLSN(names);
      if last > 0 {
        init := last + 1;
      }
    }

    // The section under the exclusive lock: the machine's allocator step.
    method EnterSection(pid: nat, init: nat, ghost b: nat, ghost s: Machine.State) returns (lsn: nat)
      requires Valid()
      requires s.alloc == next && s.issued == issued
      modifies this
      ensures Valid()
      ensures lsn == if pid in old(next) then old(next)[pid] else init
      ensures issued == old(issued)[pid := (if pid in old(issued) then old(issued)[pid] else []) + [lsn]]
      ensures var t := Machine.EnterSection(s, b, pid, init);
              t.alloc == next && t.issued == issued && t.backends == s.backends[b := Machine.Holding(pid, lsn)]
    {
      ghost var was := if pid in issued then issued[pid] else [];
      MachineEnters(s, b, pid, init);
      ContinuesIssue(next, issued, pid, init);
      if pid !in next {
        next := next[pid := init];
      }
      lsn := next[pid];
      next := next[pid := lsn + 1];
      issued := issued[pid := was + [lsn]];
    }
  }
}
