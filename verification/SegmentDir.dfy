/** One partition's directory pg_parwal/<partition_id>/ at the level of records:
    segment number -> records in write order.  Segment numbers stand for file names;
    on one timeline the name order the source sorts by is the segment order. */
module SegmentDir {
  import opened Header

  type SegmentSize = n: nat | 0 < n witness 1

  // wal_segment_size, fixed when the cluster is created: any positive value.
  const WAL_SEGMENT_SIZE: SegmentSize

  type SegNo = nat
  type Dir = map<SegNo, seq<Header>>

  // XLByteToSeg with the two fall-backs to segment 1.
  function SegOf(h: Header): (r: SegNo)
  {
    if h.origNodeLsn == 0 then 1
    else
      var s := h.origNodeLsn / WAL_SEGMENT_SIZE;
      if s == 0 then 1 else s
  }

  /** A record goes to the segment whose byte range holds its orig_node_lsn, and to segment 1
      when that would be segment 0. */
  lemma SegOfRange(h: Header)
    ensures h.origNodeLsn < WAL_SEGMENT_SIZE ==> SegOf(h) == 1
    ensures h.origNodeLsn >= WAL_SEGMENT_SIZE ==>
              SegOf(h) * WAL_SEGMENT_SIZE <= h.origNodeLsn < (SegOf(h) + 1) * WAL_SEGMENT_SIZE
  {
    var w, q := WAL_SEGMENT_SIZE, h.origNodeLsn / WAL_SEGMENT_SIZE;
    assert q * w <= h.origNodeLsn < (q + 1) * w;
    if h.origNodeLsn >= w && q < 1 {
      RangeOfZero(q, w, h.origNodeLsn);
    }
  }

  lemma RangeOfZero(q: nat, w: nat, lsn: nat)
    requires q * w <= lsn < (q + 1) * w && lsn >= w
    ensures q >= 1
  {
  }

  // The segment a WAL position belongs to,
  predicate InSegment(k: SegNo, lsn: nat) {
    if lsn < WAL_SEGMENT_SIZE then k == 1 else k * WAL_SEGMENT_SIZE <= lsn < (k + 1) * WAL_SEGMENT_SIZE
  }

  // of which there is one.
  lemma OneSegment(k: SegNo, j: SegNo, lsn: nat)
    requires InSegment(k, lsn) && InSegment(j, lsn)
    ensures k == j
  {
  }

  lemma SegOfOnly(h: Header)
    ensures forall k: SegNo :: InSegment(k, h.origNodeLsn) <==> k == SegOf(h)
  {
    SegOfRange(h);
    forall k: SegNo | InSegment(k, h.origNodeLsn)
      ensures k == SegOf(h)
    {
      OneSegment(k, SegOf(h), h.origNodeLsn);
    }
  }

  function FileOf(d: Dir, s: SegNo): seq<Header> {
    if s in d then d[s] else []
  }

  // Append one record to the file of its segment, creating it when absent.
  function Append(d: Dir, h: Header): Dir {
    d[SegOf(h) := FileOf(d, SegOf(h)) + [h]]
  }

  // The directory that holds a log when every record was appended in order.
  function Split(l: seq<Header>): Dir {
    if l == [] then map[] else Append(Split(l[..|l| - 1]), l[|l| - 1])
  }

  // Files that hold no record are invisible to every reader.
  function NonEmpty(d: Dir): Dir {
    map k | k in d && d[k] != [] :: d[k]
  }

  // ---- cleanup ----

  // The segment ends above keepPtr.
  predicate Survives(k: SegNo, keepPtr: nat) {
    (k + 1) * WAL_SEGMENT_SIZE > keepPtr
  }

  function Cleaned(d: Dir, keepPtr: nat): Dir {
    map k | k in d && Survives(k, keepPtr) :: d[k]
  }

  // ---- orders on logs ----

  ghost predicate SegMonotone(l: seq<Header>) {
    forall i, j :: 0 <= i < j < |l| ==> SegOf(l[i]) <= SegOf(l[j])
  }

  ghost predicate Increasing(l: seq<Header>) {
    && (forall i :: 0 <= i < |l| ==> l[i].partitionLsn >= 1)
    && (forall i, j :: 0 <= i < j < |l| ==> l[i].partitionLsn < l[j].partitionLsn)
  }

  // The log is exactly 1..n.
  ghost predicate Gapless(l: seq<Header>) {
    forall i :: 0 <= i < |l| ==> l[i].partitionLsn == i + 1
  }

  function LastLsn(l: seq<Header>): nat {
    if l == [] then 0 else l[|l| - 1].partitionLsn
  }

  // Every record is in the file its orig_node_lsn names.
  ghost predicate WellPlaced(d: Dir) {
    forall k, i :: k in d && 0 <= i < |d[k]| ==> SegOf(d[k][i]) == k
  }

  ghost predicate Numbered(d: Dir) {
    forall k, i :: k in d && 0 <= i < |d[k]| ==> d[k][i].partitionLsn >= 1
  }

  // ---- reading a directory ----

  function MaxKey(ks: set<SegNo>): (m: SegNo)
    requires ks != {}
    ensures m in ks
    ensures forall k :: k in ks ==> k <= m
  {
    MaxExists(ks);
    var m :| m in ks && forall k :: k in ks ==> k <= m;
    m
  }

  lemma MaxExists(ks: set<SegNo>)
    requires ks != {}
    ensures exists m :: m in ks && forall k :: k in ks ==> k <= m
  {
    var m := FindMax(ks);
  }

  lemma {:induction false} FindMax(ks: set<SegNo>) returns (m: SegNo)
    requires ks != {}
    ensures m in ks && forall k :: k in ks ==> k <= m
    decreases |ks|
  {
    var x :| x in ks;
    var rest := ks - {x};
    m := x;
    if rest != {} {
      var y := FindMax(rest);
      m := if x > y then x else y;
    }
    forall k | k in ks
      ensures k <= m
    {
      assert k == x || k in rest;
    }
  }

  // All records, files in ascending segment order.
  ghost function Log(d: Dir): seq<Header>
    decreases |d|
  {
    if d == map[] then []
    else
      var m := MaxKey(d.Keys);
      Log(d - {m}) + d[m]
  }

  function MaxLsn(l: seq<Header>): nat {
    if l == [] then 0
    else
      var r := MaxLsn(l[1..]);
      if l[0].partitionLsn > r then l[0].partitionLsn else r
  }

  // One file's contribution to the watermark: its last record, or a scan when that gives 0.
  function FileMark(l: seq<Header>): nat {
    if l == [] then 0
    else if LastLsn(l) > 0 then LastLsn(l)
    else MaxLsn(l)
  }

  // GetLastWrittenPartitionLSN: descending files, first non-zero mark.
  function TailPeek(d: Dir): nat
    decreases |d|
  {
    if d == map[] then 0
    else
      var m := MaxKey(d.Keys);
      if FileMark(d[m]) > 0 then FileMark(d[m]) else TailPeek(d - {m})
  }

  // ---- Split ----

  lemma SplitAppend(l: seq<Header>, h: Header)
    ensures Split(l + [h]) == Append(Split(l), h)
  {
    assert (l + [h])[..|l|] == l;
  }

  lemma NonEmptyAppend(d: Dir, h: Header)
    ensures NonEmpty(Append(d, h)) == Append(NonEmpty(d), h)
  {
    assert FileOf(NonEmpty(d), SegOf(h)) == FileOf(d, SegOf(h));
  }

  lemma {:induction false} SplitShape(l: seq<Header>)
    ensures NonEmpty(Split(l)) == Split(l)
    ensures WellPlaced(Split(l))
    ensures forall k :: k in Split(l) ==> exists i :: 0 <= i < |l| && SegOf(l[i]) == k
    ensures l != [] ==> SegOf(l[|l| - 1]) in Split(l)
  {
    if l != [] {
      SplitShape(l[..|l| - 1]);
    }
  }

  // The highest file of an ordered log is that of its last record.
  lemma TopOfSplit(l: seq<Header>)
    requires l != [] && SegMonotone(l)
    ensures Split(l) != map[] && MaxKey(Split(l).Keys) == SegOf(l[|l| - 1])
  {
    SplitShape(l);
  }

  lemma {:induction false} SplitMember(l: seq<Header>, h: Header)
    ensures h in l <==> h in FileOf(Split(l), SegOf(h))
    ensures forall k :: k in Split(l) && k != SegOf(h) ==> h !in Split(l)[k]
  {
    if l != [] {
      var init := l[..|l| - 1];
      SplitMember(init, h);
      assert l == init + [l[|l| - 1]];
    }
  }

  // Files of a split log inherit its order.
  lemma {:induction false} SplitIncreasing(l: seq<Header>)
    requires Increasing(l)
    ensures forall k :: k in Split(l) ==> Increasing(Split(l)[k]) && LastLsn(Split(l)[k]) <= LastLsn(l)
    ensures Numbered(Split(l))
  {
    if l != [] {
      var init, h := l[..|l| - 1], l[|l| - 1];
      SplitIncreasing(init);
      assert LastLsn(init) < h.partitionLsn;
      assert init != [] ==> init[|init| - 1] == l[|l| - 2];
      forall k | k in Split(l)
        ensures Increasing(Split(l)[k]) && LastLsn(Split(l)[k]) <= LastLsn(l)
      {
        if k == SegOf(h) {
          IncreasingExtend(FileOf(Split(init), k), h);
        }
      }
    }
  }

  lemma IncreasingExtend(f: seq<Header>, h: Header)
    requires Increasing(f) && LastLsn(f) < h.partitionLsn
    ensures Increasing(f + [h]) && LastLsn(f + [h]) == h.partitionLsn
  {
    forall i | 0 <= i < |f|
      ensures f[i].partitionLsn < h.partitionLsn
    {
      assert f[i].partitionLsn <= LastLsn(f);
    }
  }

  // Records of one segment behind a log land behind that segment's file.
  lemma {:induction false} SplitRun(a: seq<Header>, b: seq<Header>, s: SegNo)
    requires b != [] && forall i :: 0 <= i < |b| ==> SegOf(b[i]) == s
    ensures Split(a + b) == Split(a)[s := FileOf(Split(a), s) + b]
  {
    var init, h := b[..|b| - 1], b[|b| - 1];
    assert b == init + [h];
    if init == [] {
      assert b == [h];
      SplitAppend(a, h);
    } else {
      SplitRun(a, init, s);
      RunStep(a, init, h, s);
    }
  }

  lemma RunStep(a: seq<Header>, init: seq<Header>, h: Header, s: SegNo)
    requires Split(a + init) == Split(a)[s := FileOf(Split(a), s) + init] && SegOf(h) == s
    ensures Split(a + (init + [h])) == Split(a)[s := FileOf(Split(a), s) + (init + [h])]
  {
    assert a + (init + [h]) == (a + init) + [h];
    SplitAppend(a + init, h);
    AppendRun(Split(a), s, init, h);
  }

  lemma AppendRun(d: Dir, s: SegNo, init: seq<Header>, h: Header)
    requires SegOf(h) == s
    ensures Append(d[s := FileOf(d, s) + init], h) == d[s := FileOf(d, s) + (init + [h])]
  {
    assert (FileOf(d, s) + init) + [h] == FileOf(d, s) + (init + [h]);
  }

  // A log that fills a single file is that file.
  lemma SplitSingle(l: seq<Header>, s: SegNo, f: seq<Header>)
    requires Split(l) == map[s := f]
    ensures l == f
  {
    forall i | 0 <= i < |l|
      ensures SegOf(l[i]) == s
    {
      SplitMember(l, l[i]);
      assert SegOf(l[i]) in Split(l);
    }
    assert s in Split(l);
    SplitRun([], l, s);
    assert [] + l == l;
    assert Split(l)[s] == l;
  }

  // ---- the watermark ----

  lemma {:induction false} TailPeekMember(d: Dir)
    ensures TailPeek(d) > 0 ==>
      exists k, i :: k in d && 0 <= i < |d[k]| && d[k][i].partitionLsn == TailPeek(d)
    decreases |d|
  {
    if d != map[] {
      var m := MaxKey(d.Keys);
      if FileMark(d[m]) > 0 {
        MaxLsnMember(d[m]);
      } else {
        TailPeekMember(d - {m});
      }
    }
  }

  lemma {:induction false} MaxLsnMember(l: seq<Header>)
    ensures MaxLsn(l) > 0 ==> exists i :: 0 <= i < |l| && l[i].partitionLsn == MaxLsn(l)
    ensures forall i :: 0 <= i < |l| ==> l[i].partitionLsn <= MaxLsn(l)
  {
    if l != [] {
      MaxLsnMember(l[1..]);
      forall i | 0 <= i < |l|
        ensures l[i].partitionLsn <= MaxLsn(l)
      {
        if i > 0 {
          assert l[i] == l[1..][i - 1];
        }
      }
    }
  }

  // The watermark is zero exactly on a directory without records.
  lemma {:induction false} TailPeekZero(d: Dir)
    requires Numbered(d)
    ensures TailPeek(d) == 0 <==> NonEmpty(d) == map[]
    decreases |d|
  {
    if d != map[] {
      var m := MaxKey(d.Keys);
      if d[m] == [] {
        TailPeekZero(d - {m});
        assert NonEmpty(d - {m}) == NonEmpty(d);
      } else {
        assert d[m][|d[m]| - 1].partitionLsn >= 1;
        assert m in NonEmpty(d);
      }
    }
  }

  /** The peek in plain words, for any directory at all: one file gives the LSN of its last
      record, or its highest when that is 0; */
  lemma MarkOfRecords(l: seq<Header>)
    ensures l == [] ==> FileMark(l) == 0
    ensures l != [] && l[|l| - 1].partitionLsn > 0 ==> FileMark(l) == l[|l| - 1].partitionLsn
    ensures l != [] && l[|l| - 1].partitionLsn == 0 ==>
              && (forall i :: 0 <= i < |l| ==> l[i].partitionLsn <= FileMark(l))
              && exists i :: 0 <= i < |l| && l[i].partitionLsn == FileMark(l)
  {
    MaxLsnMember(l);
    if l != [] && l[|l| - 1].partitionLsn == 0 {
      assert FileMark(l) == MaxLsn(l);
      assert MaxLsn(l) == 0 ==> l[|l| - 1].partitionLsn == MaxLsn(l);
    }
  }

  /** and a directory what its highest file gives that gives anything. */
  lemma {:induction false} TailPeekOfHighest(d: Dir, k: SegNo)
    requires k in d && FileMark(d[k]) > 0
    requires forall j :: j in d && j > k ==> FileMark(d[j]) == 0
    ensures TailPeek(d) == FileMark(d[k])
    decreases |d|
  {
    var m := MaxKey(d.Keys);
    if m != k {
      TailPeekOfHighest(d - {m}, k);
    }
  }

  lemma {:induction false} TailPeekIgnoresEmpty(d: Dir)
    requires Numbered(d)
    ensures TailPeek(d) == TailPeek(NonEmpty(d))
    decreases |d|
  {
    if d != map[] {
      var m := MaxKey(d.Keys);
      if d[m] == [] {
        TailPeekIgnoresEmpty(d - {m});
        assert NonEmpty(d - {m}) == NonEmpty(d);
      } else {
        assert d[m][|d[m]| - 1].partitionLsn >= 1;
        assert m in NonEmpty(d);
        assert MaxKey(NonEmpty(d).Keys) == m;
      }
    }
  }

  /** On an ordered log the tail-peek finds the last LSN of the whole log. */
  lemma TailPeekOrdered(d: Dir, l: seq<Header>)
    requires NonEmpty(d) == Split(l)
    requires SegMonotone(l) && Increasing(l)
    ensures Numbered(d)
    ensures TailPeek(d) == LastLsn(l)
  {
    SplitIncreasing(l);
    forall k, i | k in d && 0 <= i < |d[k]|
      ensures d[k][i].partitionLsn >= 1
    {
      assert k in NonEmpty(d);
      assert d[k][i] == Split(l)[k][i];
    }
    TailPeekIgnoresEmpty(d);
    if l != [] {
      SplitShape(l);
      var top := SegOf(l[|l| - 1]);
      assert MaxKey(Split(l).Keys) == top;
      assert LastLsn(Split(l)[top]) == LastLsn(l);
    }
  }

  // The files of some segments.
  function Only(d: Dir, ks: set<SegNo>): Dir {
    map k | k in d && k in ks :: d[k]
  }

  // A file that ends in a record, with nothing but empty files above it, gives the watermark.
  lemma {:induction false} TailPeekAtTop(d: Dir, top: SegNo)
    requires top in d && LastLsn(d[top]) > 0
    requires forall k :: k in d && k > top ==> d[k] == []
    ensures TailPeek(d) == LastLsn(d[top])
    decreases |d|
  {
    var m := MaxKey(d.Keys);
    if m > top {
      TailPeekAtTop(d - {m}, top);
    }
  }

  /** Looking at some of the files only finds the same watermark if and only if the file of
      the last record is among them. */
  lemma TailPeekOfSomeIff(d: Dir, l: seq<Header>, ks: set<SegNo>)
    requires NonEmpty(d) == Split(l)
    requires SegMonotone(l) && Increasing(l)
    ensures TailPeek(Only(d, ks)) == TailPeek(d) <==> l == [] || SegOf(l[|l| - 1]) in ks
  {
    TailPeekOrdered(d, l);
    if l == [] {
      NothingToPeek(d, ks);
    } else {
      TopFile(d, l);
      var top := SegOf(l[|l| - 1]);
      if top in ks {
        TailPeekAtTop(Only(d, ks), top);
      } else if TailPeek(Only(d, ks)) == TailPeek(d) {
        TailPeekMember(Only(d, ks));
        var k, i :| k in Only(d, ks) && 0 <= i < |d[k]| && d[k][i].partitionLsn == LastLsn(l);
        LastLsnIsTop(d, l, k, i);
      }
    }
  }

  lemma NothingToPeek(d: Dir, ks: set<SegNo>)
    requires NonEmpty(d) == map[]
    ensures TailPeek(Only(d, ks)) == 0 == TailPeek(d)
  {
    forall k | k in d
      ensures d[k] == []
    {
      assert d[k] != [] ==> k in NonEmpty(d);
    }
    TailPeekZero(d);
    TailPeekZero(Only(d, ks));
    assert NonEmpty(Only(d, ks)) == map[];
  }

  // The last record is at the end of the highest non-empty file.
  lemma TopFile(d: Dir, l: seq<Header>)
    requires NonEmpty(d) == Split(l) && SegMonotone(l) && Increasing(l) && l != []
    ensures var top := SegOf(l[|l| - 1]);
            && top in d && LastLsn(d[top]) == LastLsn(l) > 0
            && forall k :: k in d && k > top ==> d[k] == []
  {
    var top := SegOf(l[|l| - 1]);
    SplitShape(l);
    assert top in NonEmpty(d) && d[top] == Split(l)[top];
    assert LastLsn(Split(l)[top]) == LastLsn(l);
    forall k | k in d && k > top
      ensures d[k] == []
    {
      assert d[k] != [] ==> k in NonEmpty(d);
    }
  }

  lemma LastLsnIsTop(d: Dir, l: seq<Header>, k: SegNo, i: nat)
    requires NonEmpty(d) == Split(l) && Increasing(l) && l != []
    requires k in d && i < |d[k]| && d[k][i].partitionLsn == LastLsn(l)
    ensures k == SegOf(l[|l| - 1])
  {
    SplitShape(l);
    assert k in NonEmpty(d) && d[k] == Split(l)[k];
    var h := d[k][i];
    SplitMember(l, h);
    var j :| 0 <= j < |l| && l[j] == h;
    assert j == |l| - 1;
  }

  // ---- the log of a directory ----

  lemma MaxKeyIs(d: Dir, m: SegNo, e: Dir)
    requires m in d && d.Keys <= e.Keys && m == MaxKey(e.Keys)
    ensures MaxKey(d.Keys) == m
  {
    assert MaxKey(d.Keys) in e.Keys;
  }

  lemma {:induction false} LogAppend(d: Dir, h: Header)
    requires forall k :: k in d && k > SegOf(h) ==> d[k] == []
    ensures Log(Append(d, h)) == Log(d) + [h]
    decreases |d|
  {
    var e := Append(d, h);
    var m := MaxKey(e.Keys);
    var s := SegOf(h);
    assert s in e.Keys;
    if m == s {
      assert e - {m} == d - {m};
      if m in d {
        MaxKeyIs(d, m, e);
      } else {
        assert d - {m} == d;
      }
    } else {
      MaxKeyIs(d, m, e);
      assert d[m] == [];
      assert e - {m} == Append(d - {m}, h);
      LogAppend(d - {m}, h);
    }
  }

  lemma {:induction false} LogSegments(d: Dir)
    requires WellPlaced(d)
    ensures SegMonotone(Log(d))
    ensures forall i :: 0 <= i < |Log(d)| ==> SegOf(Log(d)[i]) in d
    decreases |d|
  {
    if d != map[] {
      var m := MaxKey(d.Keys);
      LogSegments(d - {m});
    }
  }

  lemma SegmentsBelow(l: seq<Header>, h: Header)
    requires SegMonotone(l + [h])
    ensures SegMonotone(l)
    ensures forall k :: k in Split(l) ==> k <= SegOf(h)
  {
    var e := l + [h];
    forall i, j | 0 <= i < j < |l|
      ensures SegOf(l[i]) <= SegOf(l[j])
    {
      assert SegOf(e[i]) <= SegOf(e[j]);
    }
    SplitShape(l);
    forall k | k in Split(l)
      ensures k <= SegOf(h)
    {
      var i :| 0 <= i < |l| && SegOf(l[i]) == k;
      assert SegOf(e[i]) <= SegOf(e[|l|]);
    }
  }

  lemma {:induction false} LogOfOrderedSplit(l: seq<Header>)
    requires SegMonotone(l)
    ensures Log(Split(l)) == l
  {
    if l != [] {
      var init := l[..|l| - 1];
      var h := l[|l| - 1];
      assert l == init + [h];
      LogOfOrderedSplit(init);
      SegmentsBelow(init, h);
      LogAppend(Split(init), h);
      SplitAppend(init, h);
    }
  }

  /** Reading the segments back in name order restores the log exactly when the
      segment numbers never go down along it: the precise ordering hypothesis. */
  lemma LogOfSplit(l: seq<Header>)
    ensures Log(Split(l)) == l <==> SegMonotone(l)
  {
    if SegMonotone(l) {
      LogOfOrderedSplit(l);
    } else {
      SplitShape(l);
      LogSegments(Split(l));
    }
  }

  lemma {:induction false} LogIgnoresEmpty(d: Dir)
    ensures Log(d) == Log(NonEmpty(d))
    decreases |d|
  {
    if d != map[] {
      var m := MaxKey(d.Keys);
      LogIgnoresEmpty(d - {m});
      if d[m] == [] {
        assert NonEmpty(d - {m}) == NonEmpty(d);
      } else {
        assert m in NonEmpty(d);
        assert MaxKey(NonEmpty(d).Keys) == m;
        assert NonEmpty(d - {m}) == NonEmpty(d) - {m};
      }
    }
  }
}
