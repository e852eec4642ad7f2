/** The code that interprets and maintains one partition's directory: the watermark, the
    verify / check / count / read-all readers, cleanup and reset. */
module PartitionDirectory {
  import opened Header
  import opened SegmentDir
  import opened SegmentFiles

  // ---- walking a sorted listing ----

  ghost predicate Highest(m: SegNo, ks: set<SegNo>) {
    m in ks && forall k :: k in ks ==> k <= m
  }

  lemma DescendingStep(files: Files, order: seq<SegNo>, i: nat, pid: nat)
    requires Sorted(order, true) && SetOf(order) <= files.Keys && i < |order|
    ensures order[i] in files
    ensures Watermark(Restrict(files, SetOf(order[i..])), pid)
         == if ByteMark(files[order[i]], pid) > 0 then ByteMark(files[order[i]], pid)
            else Watermark(Restrict(files, SetOf(order[i + 1..])), pid)
  {
    assert order[i] in SetOf(order);
    DescendingHead(order, i);
    var f := Restrict(files, SetOf(order[i..]));
    assert f - {order[i]} == Restrict(files, SetOf(order[i + 1..]));
    WatermarkTop(f, order[i], pid);
  }

  lemma WatermarkTop(files: Files, m: SegNo, pid: nat)
    requires m in files && forall k :: k in files ==> k <= m
    ensures Watermark(files, pid)
         == if ByteMark(files[m], pid) > 0 then ByteMark(files[m], pid) else Watermark(files - {m}, pid)
  {
    assert MaxKey(files.Keys) == m;
  }

  // In a descending listing the first name is the highest, and listed once.
  lemma DescendingHead(order: seq<SegNo>, i: nat)
    requires Sorted(order, true) && i < |order|
    ensures Highest(order[i], SetOf(order[i..]))
    ensures SetOf(order[i + 1..]) == SetOf(order[i..]) - {order[i]}
  {
    var here, later := order[i..], order[i + 1..];
    assert here == [order[i]] + later;
    forall k | k in later
      ensures k < order[i]
    {
      var x :| 0 <= x < |later| && later[x] == k;
      assert Before(order[i], order[i + 1 + x], true);
    }
  }

  ghost function Prefix(files: Files, order: seq<SegNo>, i: nat): seq<Header>
    requires i <= |order|
  {
    AllRecords(Restrict(files, SetOf(order[..i])))
  }

  lemma AscendingStep(files: Files, order: seq<SegNo>, i: nat)
    requires Sorted(order, false) && SetOf(order) <= files.Keys && i < |order|
    ensures order[i] in files
    ensures Prefix(files, order, i + 1) == Prefix(files, order, i) + Frames(files[order[i]])
  {
    assert order[i] in SetOf(order);
    AscendingHead(order, i);
    var d := Decoded(Restrict(files, SetOf(order[..i + 1])));
    assert d - {order[i]} == Decoded(Restrict(files, SetOf(order[..i])));
    LogTop(d, order[i]);
  }

  // In an ascending listing the last name so far is the highest, and listed once.
  lemma AscendingHead(order: seq<SegNo>, i: nat)
    requires Sorted(order, false) && i < |order|
    ensures Highest(order[i], SetOf(order[..i + 1]))
    ensures SetOf(order[..i]) == SetOf(order[..i + 1]) - {order[i]}
  {
    var here, earlier := order[..i + 1], order[..i];
    assert here == earlier + [order[i]];
    forall k | k in earlier
      ensures k < order[i]
    {
      var x :| 0 <= x < |earlier| && earlier[x] == k;
      assert Before(order[x], order[i], false);
    }
  }

  lemma LogTop(d: Dir, m: SegNo)
    requires m in d && forall k :: k in d ==> k <= m
    ensures Log(d) == Log(d - {m}) + d[m]
  {
    assert MaxKey(d.Keys) == m;
  }

  lemma {:induction false} PrefixGrows(files: Files, order: seq<SegNo>, i: nat, j: nat)
    requires Sorted(order, false) && SetOf(order) <= files.Keys && i <= j <= |order|
    ensures Prefix(files, order, i) <= Prefix(files, order, j)
    decreases j - i
  {
    if i < j {
      AscendingStep(files, order, i);
      PrefixGrows(files, order, i + 1, j);
    }
  }

  lemma ExactPrefix(a: seq<Header>, b: seq<Header>, pid: nat)
    requires a <= b
    ensures Exact(b, pid) ==> Exact(a, pid)
  {
  }

  lemma PrefixEnds(files: Files, order: seq<SegNo>)
    ensures Prefix(files, order, 0) == []
    ensures Prefix(files, order, |order|) == AllRecords(Restrict(files, SetOf(order)))
  {
    assert Decoded(Restrict(files, SetOf(order[..0]))) == map[];
    assert order[..|order|] == order;
  }

  // ---- one file ----

  // The record a read of sizeof(PartWALHeader) bytes yields at record index k.
  lemma FrameAt(f: seq<byte>, k: nat)
    requires RECORD_SIZE * (k + 1) <= |f|
    ensures k < |Frames(f)|
    ensures Frames(f)[..k + 1] == Frames(f)[..k] + [Decode(f[RECORD_SIZE * k..RECORD_SIZE * (k + 1)])]
  {
    FramesAt(f, k);
  }

  lemma AllFramesRead(f: seq<byte>, k: nat)
    requires RECORD_SIZE * k <= |f| < RECORD_SIZE * (k + 1)
    ensures k <= |Frames(f)| && Frames(f)[..k] == Frames(f)
  {
    FramesCount(f);
  }

  // The sequential scan of one file for the highest LSN.
  method ScanFile(f: seq<byte>, pid: nat) returns (maxLsn: nat)
    ensures maxLsn == MaxLsn(Valid(Frames(f), pid))
    ensures forall h :: HoldsOwn(f, pid, h) ==> h.partitionLsn <= maxLsn
    ensures maxLsn > 0 ==> exists h :: HoldsOwn(f, pid, h) && h.partitionLsn == maxLsn
  {
    maxLsn := 0;
    var k := 0;
    FramesCount(f);
    while RECORD_SIZE * (k + 1) <= |f|
      invariant RECORD_SIZE * k <= |f| && k <= |Frames(f)|
      invariant maxLsn == MaxLsn(Valid(Frames(f)[..k], pid))
    {
      var h := Decode(f[RECORD_SIZE * k..RECORD_SIZE * (k + 1)]);
      FrameAt(f, k);
      ValidConcat(Frames(f)[..k], [h], pid);
      MaxLsnConcat(Valid(Frames(f)[..k], pid), Valid([h], pid));
      assert [h][..0] == [];
      if IsRecordOf(h, pid) && h.partitionLsn > maxLsn {
        maxLsn := h.partitionLsn;
      }
      k := k + 1;
    }
    AllFramesRead(f, k);
    HighestOwn(f, pid);
  }

  // The tail-peek of one file, then the scan when it gave nothing.
  method PeekFile(f: seq<byte>, pid: nat) returns (maxLsn: nat)
    ensures maxLsn == ByteMark(f, pid)
    ensures forall h :: EndsWith(f, h) && h.magic == 0x50415254 && h.partitionId == pid && h.partitionLsn > 0 ==>
              maxLsn == h.partitionLsn
    ensures (forall h :: EndsWith(f, h) ==> h.magic != 0x50415254 || h.partitionId != pid || h.partitionLsn == 0) ==>
              && (forall h :: HoldsOwn(f, pid, h) ==> h.partitionLsn <= maxLsn)
              && (maxLsn > 0 ==> exists h :: HoldsOwn(f, pid, h) && h.partitionLsn == maxLsn)
  {
    maxLsn := 0;
    var sz := |f|;
    if sz >= RECORD_SIZE {
      var back := if sz % RECORD_SIZE == 0 then RECORD_SIZE else sz % RECORD_SIZE;
      if back == RECORD_SIZE {  // otherwise the read comes back short
        var h := Decode(f[sz - back..]);
        if IsRecordOf(h, pid) {
          maxLsn := h.partitionLsn;
        }
      }
      if maxLsn == 0 {
        maxLsn := ScanFile(f, pid);
      }
    }
    assert maxLsn == ByteMark(f, pid);
    MarkOfFile(f, pid);
  }

  // The valid records of one file.
  method ReadFile(f: seq<byte>, pid: nat) returns (rows: seq<Header>)
    ensures rows == Valid(Frames(f), pid)
    ensures forall h :: h in rows <==> HoldsOwn(f, pid, h)
  {
    forall h
      ensures h in Valid(Frames(f), pid) <==> HoldsOwn(f, pid, h)
    {
      ValidMember(Frames(f), pid, h);
    }
    rows := [];
    var k := 0;
    FramesCount(f);
    while RECORD_SIZE * (k + 1) <= |f|
      invariant RECORD_SIZE * k <= |f| && k <= |Frames(f)|
      invariant rows == Valid(Frames(f)[..k], pid)
    {
      var h := Decode(f[RECORD_SIZE * k..RECORD_SIZE * (k + 1)]);
      FrameAt(f, k);
      ValidConcat(Frames(f)[..k], [h], pid);
      assert [h][..0] == [];
      if IsRecordOf(h, pid) {
        rows := rows + [h];
      }
      k := k + 1;
    }
    AllFramesRead(f, k);
  }

  class Directory {
    const pid: nat
    var files: Files

    constructor (pid: nat, files: Files)
      ensures this.pid == pid && this.files == files
    {
      this.pid := pid;
      this.files := files;
    }

    // `names` is the order in which readdir lists the directory.

    method GetLastWrittenPartitionLSN(names: seq<SegNo>) returns (maxLsn: nat)
      requires Listing(names, files)
      ensures maxLsn == Watermark(Listed(names, files), pid)
    {
      var order := ListSegments(names, true);
      assert Restrict(files, SetOf(order[0..])) == Listed(names, files);
      maxLsn := 0;
      var i := 0;
      while i < |order| && maxLsn == 0
        invariant 0 <= i <= |order|
        invariant if maxLsn == 0 then Watermark(Restrict(files, SetOf(order[i..])), pid) == Watermark(Listed(names, files), pid)
                  else maxLsn == Watermark(Listed(names, files), pid)
      {
        DescendingStep(files, order, i, pid);
        maxLsn := PeekFile(files[order[i]], pid);
        i := i + 1;
      }
      if maxLsn == 0 {
        assert Restrict(files, SetOf(order[|order|..])) == map[];
      }
    }

    // verify_partition_wal: true exactly when the complete records, in segment order,
    // are this partition's and numbered 1, 2, 3, ...
    method VerifyPartitionWAL(names: seq<SegNo>) returns (valid: bool)
      requires Listing(names, files)
      ensures valid <==> Exact(AllRecords(Listed(names, files)), pid)
    {
      var order := ListSegments(names, false);
      ghost var all := AllRecords(Listed(names, files));
      assert Restrict(files, SetOf(order)) == Listed(names, files);
      PrefixEnds(files, order);
      var expected := 1;
      valid := true;
      var i := 0;
      while i < |order| && valid
        invariant 0 <= i <= |order|
        invariant valid ==> Exact(Prefix(files, order, i), pid) && expected == |Prefix(files, order, i)| + 1
        invariant !valid ==> !Exact(all, pid)
      {
        AscendingStep(files, order, i);
        PrefixGrows(files, order, i + 1, |order|);
        ExactPrefix(Prefix(files, order, i + 1), all, pid);
        valid, expected := VerifyFile(files[order[i]], expected, Prefix(files, order, i));
        i := i + 1;
      }
    }

    // One file of verify; `before` are the records of the files already read.
    method VerifyFile(f: seq<byte>, first: nat, ghost before: seq<Header>) returns (valid: bool, expected: nat)
      requires Exact(before, pid) && first == |before| + 1
      ensures valid <==> Exact(before + Frames(f), pid)
      ensures valid ==> expected == |before + Frames(f)| + 1
    {
      expected := first;
      valid := true;
      var k := 0;
      FramesCount(f);
      while valid && RECORD_SIZE * (k + 1) <= |f|
        invariant RECORD_SIZE * k <= |f| && k <= |Frames(f)|
        invariant valid ==> Exact(before + Frames(f)[..k], pid) && expected == first + k
        invariant !valid ==> !Exact(before + Frames(f), pid)
      {
        var h := Decode(f[RECORD_SIZE * k..RECORD_SIZE * (k + 1)]);
        FrameAt(f, k);
        assert (before + Frames(f))[|before| + k] == h;
        assert before + Frames(f)[..k + 1] == (before + Frames(f)[..k]) + [h];
        if !IsRecordOf(h, pid) {
          valid := false;
        } else if h.partitionLsn != expected {
          valid := false;
        } else {
          expected := expected + 1;
          k := k + 1;
        }
      }
      if valid {
        AllFramesRead(f, k);
      }
    }

    // count_parwal_records: sizes only, no sorting, no cap.
    method CountRecords(names: seq<SegNo>) returns (total: nat)
      requires Listing(names, files)
      ensures total == |AllRecords(files)|
    {
      total := 0;
      var i := 0;
      CountEnds(files, names);
      while i < |names|
        invariant 0 <= i <= |names|
        invariant total == Counted(files, names, i)
      {
        CountStep(files, names, i);
        total := total + |files[names[i]]| / RECORD_SIZE;
        i := i + 1;
      }
    }

    // read_all_headers: the valid records, in segment order.
    method ReadAllHeaders(names: seq<SegNo>) returns (rows: seq<Header>)
      requires Listing(names, files)
      ensures rows == Valid(AllRecords(Listed(names, files)), pid)
    {
      var order := ListSegments(names, false);
      assert Restrict(files, SetOf(order)) == Listed(names, files);
      PrefixEnds(files, order);
      rows := [];
      var i := 0;
      while i < |order|
        invariant 0 <= i <= |order|
        invariant rows == Valid(Prefix(files, order, i), pid)
      {
        AscendingStep(files, order, i);
        var f := files[order[i]];
        ValidConcat(Prefix(files, order, i), Frames(f), pid);
        var more := ReadFile(f, pid);
        rows := rows + more;
        i := i + 1;
      }
    }

    // CleanupPartitionWAL: unlink every segment that ends at or below keepPtr.
    method CleanupPartitionWAL(names: seq<SegNo>, keepPtr: nat)
      requires Listing(names, files)
      modifies this`files
      ensures forall k :: k in old(files) ==> (k in files <==> (k + 1) * WAL_SEGMENT_SIZE > keepPtr)
      ensures forall k :: k in files ==> k in old(files) && files[k] == old(files)[k]
      ensures files == map k | k in old(files) && Survives(k, keepPtr) :: old(files)[k]
      ensures Decoded(files) == Cleaned(Decoded(old(files)), keepPtr)
    {
      var i := 0;
      while i < |names|
        invariant 0 <= i <= |names|
        invariant files == map k | k in old(files) && (k !in names[..i] || Survives(k, keepPtr)) :: old(files)[k]
      {
        var segno := names[i];
        if (segno + 1) * WAL_SEGMENT_SIZE <= keepPtr {
          files := files - {segno};
        }
        assert names[..i + 1] == names[..i] + [segno];
        i := i + 1;
      }
      assert names[..|names|] == names;
      assert forall k :: k in old(files) ==> k in SetOf(names);
      CleanedDecoded(old(files), files, keepPtr);
    }

    // The file half of ResetPartitionWALState.
    method UnlinkAll(names: seq<SegNo>)
      requires Listing(names, files)
      modifies this`files
      ensures files == map[]
    {
      var i := 0;
      while i < |names|
        invariant 0 <= i <= |names|
        invariant files == map k | k in old(files) && k !in names[..i] :: old(files)[k]
      {
        files := files - {names[i]};
        assert names[..i + 1] == names[..i] + [names[i]];
        i := i + 1;
      }
      assert names[..|names|] == names;
      assert forall k :: k in old(files) ==> k in SetOf(names);
    }
  }

  lemma CleanedDecoded(files: Files, kept: Files, keepPtr: nat)
    requires kept == map k | k in files && Survives(k, keepPtr) :: files[k]
    ensures Decoded(kept) == Cleaned(Decoded(files), keepPtr)
  {
  }

  // The records of the first i listed files.
  ghost function Counted(files: Files, names: seq<SegNo>, i: nat): nat
    requires i <= |names|
  {
    |AllRecords(Restrict(files, SetOf(names[..i])))|
  }

  lemma CountEnds(files: Files, names: seq<SegNo>)
    requires Listing(names, files)
    ensures Counted(files, names, 0) == 0
    ensures Counted(files, names, |names|) == |AllRecords(files)|
  {
    assert Decoded(Restrict(files, SetOf(names[..0]))) == map[];
    assert names[..|names|] == names && Restrict(files, SetOf(names)) == files;
  }

  lemma CountStep(files: Files, names: seq<SegNo>, i: nat)
    requires Listing(names, files) && i < |names|
    ensures names[i] in files
    ensures Counted(files, names, i + 1) == Counted(files, names, i) + |files[names[i]]| / RECORD_SIZE
  {
    var x := names[i];
    assert x in SetOf(names);
    assert names[..i + 1] == names[..i] + [x];
    assert x !in names[..i];
    var d := Decoded(Restrict(files, SetOf(names[..i])));
    assert Decoded(Restrict(files, SetOf(names[..i + 1]))) == d[x := Frames(files[x])];
    LogSizeAdd(d, x, Frames(files[x]));
    FramesCount(files[x]);
  }

  lemma {:induction false} LogSizeAdd(d: Dir, x: SegNo, l: seq<Header>)
    requires x !in d
    ensures |Log(d[x := l])| == |Log(d)| + |l|
    decreases |d|
  {
    var e := d[x := l];
    assert x in e;
    var m := MaxKey(e.Keys);
    if m == x {
      assert e - {m} == d;
    } else {
      MaxKeyIs(d, m, e);
      assert e - {m} == (d - {m})[x := l];
      LogSizeAdd(d - {m}, x, l);
    }
  }
}
