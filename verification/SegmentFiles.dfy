/** One partition's directory at the level of bytes: what the watermark and the SQL
    readers make of its segment files, torn tails and foreign records included. */
module SegmentFiles {
  import opened Header
  import opened SegmentDir

  type Files = map<SegNo, seq<byte>>

  function Decoded(files: Files): Dir {
    map k | k in files :: Frames(files[k])
  }

  // The records that pass the magic and partition test.
  function Valid(l: seq<Header>, pid: nat): seq<Header> {
    if l == [] then []
    else
      var h := l[|l| - 1];
      Valid(l[..|l| - 1], pid) + (if IsRecordOf(h, pid) then [h] else [])
  }

  function ValidDir(files: Files, pid: nat): Dir {
    map k | k in files :: Valid(Frames(files[k]), pid)
  }

  // The tail-peek of one file: its last record when the size is a whole number of
  // records, a scan otherwise or when the last record does not count.
  function TailRecordLsn(f: seq<byte>, pid: nat): nat {
    if |f| < RECORD_SIZE || |f| % RECORD_SIZE != 0 then 0
    else
      var h := Decode(f[|f| - RECORD_SIZE..]);
      if IsRecordOf(h, pid) then h.partitionLsn else 0
  }

  function ByteMark(f: seq<byte>, pid: nat): nat {
    if TailRecordLsn(f, pid) > 0 then TailRecordLsn(f, pid) else MaxLsn(Valid(Frames(f), pid))
  }

  ghost function Watermark(files: Files, pid: nat): nat
    decreases |files|
  {
    if files == map[] then 0
    else
      var m := MaxKey(files.Keys);
      if ByteMark(files[m], pid) > 0 then ByteMark(files[m], pid) else Watermark(files - {m}, pid)
  }

  ghost predicate NonDecreasing(l: seq<Header>) {
    forall i, j :: 0 <= i < j < |l| ==> l[i].partitionLsn <= l[j].partitionLsn
  }

  // Over all files in segment order, the partition's own records never go down in LSN.
  ghost predicate OrderedFiles(files: Files, pid: nat) {
    NonDecreasing(Log(ValidDir(files, pid)))
  }

  // ---- one file ----

  lemma {:induction false} MaxLsnConcat(a: seq<Header>, b: seq<Header>)
    ensures MaxLsn(a + b) == if MaxLsn(a) > MaxLsn(b) then MaxLsn(a) else MaxLsn(b)
  {
    if a == [] {
      assert a + b == b;
    } else {
      assert (a + b)[1..] == a[1..] + b;
      MaxLsnConcat(a[1..], b);
    }
  }

  lemma MaxLsnLast(l: seq<Header>)
    requires NonDecreasing(l)
    ensures MaxLsn(l) == LastLsn(l)
  {
    MaxLsnMember(l);
    if l != [] {
      assert l[|l| - 1].partitionLsn <= MaxLsn(l);
    }
  }

  lemma LastFrameAt(f: seq<byte>, i: nat)
    requires RECORD_SIZE * (i + 1) == |f|
    ensures i < |Frames(f)| && Frames(f)[i] == Decode(f[|f| - RECORD_SIZE..])
  {
    FramesAt(f, i);
    assert f[RECORD_SIZE * i..RECORD_SIZE * (i + 1)] == f[|f| - RECORD_SIZE..];
  }

  lemma LastFrame(f: seq<byte>)
    requires |f| >= RECORD_SIZE && |f| % RECORD_SIZE == 0
    ensures Frames(f) != []
    ensures Frames(f)[|Frames(f)| - 1] == Decode(f[|f| - RECORD_SIZE..])
  {
    FramesCount(f);
    LastFrameAt(f, |f| / RECORD_SIZE - 1);
  }

  // ---- the watermark in plain words ----

  // A record of the partition in a file.
  predicate HoldsOwn(f: seq<byte>, pid: nat, h: Header) {
    h in Frames(f) && h.magic == 0x50415254 && h.partitionId == pid
  }

  // The last whole record of a file without a torn tail.
  predicate EndsWith(f: seq<byte>, h: Header) {
    |f| >= 32 && |f| % 32 == 0 && h == Decode(f[|f| - 32..])
  }

  lemma {:induction false} ValidMember(l: seq<Header>, pid: nat, h: Header)
    ensures h in Valid(l, pid) <==> h in l && h.magic == 0x50415254 && h.partitionId == pid
  {
    if l != [] {
      ValidMember(l[..|l| - 1], pid, h);
      assert l == l[..|l| - 1] + [l[|l| - 1]];
    }
  }

  /** What the peek at one file gives: the LSN of its last record when that is whole, the
      partition's own and not zero; otherwise the highest LSN of the partition's records. */
  lemma MarkOfFile(f: seq<byte>, pid: nat)
    ensures forall h :: EndsWith(f, h) && h.magic == 0x50415254 && h.partitionId == pid && h.partitionLsn > 0 ==>
              ByteMark(f, pid) == h.partitionLsn
    ensures (forall h :: EndsWith(f, h) ==> h.magic != 0x50415254 || h.partitionId != pid || h.partitionLsn == 0) ==>
              && (forall h :: HoldsOwn(f, pid, h) ==> h.partitionLsn <= ByteMark(f, pid))
              && (ByteMark(f, pid) > 0 ==> exists h :: HoldsOwn(f, pid, h) && h.partitionLsn == ByteMark(f, pid))
  {
    if forall h :: EndsWith(f, h) ==> h.magic != 0x50415254 || h.partitionId != pid || h.partitionLsn == 0 {
      assert TailRecordLsn(f, pid) == 0 by {
        if |f| >= 32 && |f| % 32 == 0 {
          assert EndsWith(f, Decode(f[|f| - 32..]));
        }
      }
      HighestOwn(f, pid);
    }
  }

  lemma HighestOwn(f: seq<byte>, pid: nat)
    ensures var m := MaxLsn(Valid(Frames(f), pid));
            && (forall h :: HoldsOwn(f, pid, h) ==> h.partitionLsn <= m)
            && (m > 0 ==> exists h :: HoldsOwn(f, pid, h) && h.partitionLsn == m)
  {
    var l := Valid(Frames(f), pid);
    MaxLsnMember(l);
    forall h | HoldsOwn(f, pid, h)
      ensures h.partitionLsn <= MaxLsn(l)
    {
      ValidMember(Frames(f), pid, h);
    }
    if MaxLsn(l) > 0 {
      var i :| 0 <= i < |l| && l[i].partitionLsn == MaxLsn(l);
      ValidMember(Frames(f), pid, l[i]);
      assert HoldsOwn(f, pid, l[i]);
    }
  }

  /** And of a directory: that of the highest file whose peek gives anything, */
  lemma {:induction false} WatermarkOfHighest(files: Files, pid: nat, k: SegNo)
    requires k in files && ByteMark(files[k], pid) > 0
    requires forall j :: j in files && j > k ==> ByteMark(files[j], pid) == 0
    ensures Watermark(files, pid) == ByteMark(files[k], pid)
    decreases |files|
  {
    var m := MaxKey(files.Keys);
    if m != k {
      WatermarkOfHighest(files - {m}, pid, k);
    }
  }

  /** or 0. */
  lemma {:induction false} WatermarkOfNone(files: Files, pid: nat)
    requires forall k :: k in files ==> ByteMark(files[k], pid) == 0
    ensures Watermark(files, pid) == 0
    decreases |files|
  {
    if files != map[] {
      WatermarkOfNone(files - {MaxKey(files.Keys)}, pid);
    }
  }

  lemma MarkIsMax(f: seq<byte>, pid: nat)
    requires NonDecreasing(Valid(Frames(f), pid))
    ensures ByteMark(f, pid) == MaxLsn(Valid(Frames(f), pid))
  {
    MaxLsnLast(Valid(Frames(f), pid));
    if |f| >= RECORD_SIZE && |f| % RECORD_SIZE == 0 {
      LastFrame(f);
    }
  }

  lemma SplitNonDecreasing(a: seq<Header>, b: seq<Header>)
    requires NonDecreasing(a + b)
    ensures NonDecreasing(a) && NonDecreasing(b)
    ensures b != [] ==> LastLsn(a) <= LastLsn(b)
  {
    var e := a + b;
    assert a == e[..|a|];
    forall i, j | 0 <= i < j < |b|
      ensures b[i].partitionLsn <= b[j].partitionLsn
    {
      assert e[|a| + i].partitionLsn <= e[|a| + j].partitionLsn;
    }
    if a != [] && b != [] {
      assert e[|a| - 1].partitionLsn <= e[|a| + |b| - 1].partitionLsn;
    }
  }

  /** The fast watermark equals a full scan: on every ordered directory, with any mix of
      empty files, torn tails and foreign records, peeking at file tails from the highest
      segment down finds the maximum LSN over all complete records of the partition. */
  lemma {:induction false} WatermarkIsMax(files: Files, pid: nat)
    requires OrderedFiles(files, pid)
    ensures Watermark(files, pid) == MaxLsn(Log(ValidDir(files, pid)))
    decreases |files|
  {
    var d := ValidDir(files, pid);
    if files == map[] {
      assert d == map[];
    } else {
      assert d.Keys == files.Keys;
      var m := MaxKey(files.Keys);
      var rest := files - {m};
      assert ValidDir(rest, pid) == d - {m};
      var a, b := Log(d - {m}), d[m];
      SplitNonDecreasing(a, b);
      MarkIsMax(files[m], pid);
      MaxLsnConcat(a, b);
      MaxLsnLast(a);
      MaxLsnLast(b);
      WatermarkIsMax(rest, pid);
    }
  }

  /** On the files a writer produces -- own records only, increasing in each file -- the
      byte-level watermark is the record-level one. */
  lemma {:induction false} WatermarkIsTailPeek(files: Files, pid: nat)
    requires forall k :: k in files ==>
      Increasing(Frames(files[k])) && Valid(Frames(files[k]), pid) == Frames(files[k])
    ensures Watermark(files, pid) == TailPeek(Decoded(files))
    decreases |files|
  {
    var d := Decoded(files);
    if files == map[] {
      assert d == map[];
    } else {
      assert d.Keys == files.Keys;
      var m := MaxKey(files.Keys);
      var rest := files - {m};
      assert Decoded(rest) == d - {m};
      WatermarkIsTailPeek(rest, pid);
      MarkIsMax(files[m], pid);
      MaxLsnLast(d[m]);
    }
  }

  // ---- the readers ----

  ghost function AllRecords(files: Files): seq<Header> {
    Log(Decoded(files))
  }

  // What verify_partition_wal asks of the records in segment order.
  ghost predicate Exact(l: seq<Header>, pid: nat) {
    forall i :: 0 <= i < |l| ==> IsRecordOf(l[i], pid) && l[i].partitionLsn == i + 1
  }

  lemma ExactIff(l: seq<Header>, pid: nat)
    ensures Exact(l, pid) <==>
              forall i :: 0 <= i < |l| ==> l[i].magic == 0x50415254 && l[i].partitionId == pid && l[i].partitionLsn == i + 1
  {
  }

  lemma {:induction false} ValidConcat(a: seq<Header>, b: seq<Header>, pid: nat)
    ensures Valid(a + b, pid) == Valid(a, pid) + Valid(b, pid)
  {
    if b == [] {
      assert a + b == a;
    } else {
      assert (a + b)[..|a + b| - 1] == a + b[..|b| - 1];
      ValidConcat(a, b[..|b| - 1], pid);
    }
  }

  lemma {:induction false} ValidLog(files: Files, pid: nat)
    ensures Log(ValidDir(files, pid)) == Valid(AllRecords(files), pid)
    decreases |files|
  {
    if files == map[] {
      assert ValidDir(files, pid) == map[] && Decoded(files) == map[];
    } else {
      assert ValidDir(files, pid).Keys == files.Keys && Decoded(files).Keys == files.Keys;
      var m := MaxKey(files.Keys);
      var rest := files - {m};
      assert ValidDir(rest, pid) == ValidDir(files, pid) - {m};
      assert Decoded(rest) == Decoded(files) - {m};
      ValidLog(rest, pid);
      ValidConcat(AllRecords(rest), Frames(files[m]), pid);
    }
  }

  lemma {:induction false} ValidAll(l: seq<Header>, pid: nat)
    requires forall i :: 0 <= i < |l| ==> IsRecordOf(l[i], pid)
    ensures Valid(l, pid) == l
  {
    if l != [] {
      ValidAll(l[..|l| - 1], pid);
    }
  }

  /** The readers agree: when the records are exactly 1..n, the record count, the length
      of the read-all result and the watermark are all n. */
  lemma ReadersAgree(files: Files, pid: nat)
    requires Exact(AllRecords(files), pid)
    ensures Valid(AllRecords(files), pid) == AllRecords(files)
    ensures Watermark(files, pid) == |AllRecords(files)|
  {
    var l := AllRecords(files);
    ValidAll(l, pid);
    ValidLog(files, pid);
    WatermarkIsMax(files, pid);
    MaxLsnLast(l);
  }

  // ---- listings ----

  const MAX_LISTED: nat := 256

  function SetOf(s: seq<SegNo>): set<SegNo> {
    set x | x in s
  }

  ghost predicate Distinct(s: seq<SegNo>) {
    forall i, j :: 0 <= i < j < |s| ==> s[i] != s[j]
  }

  // `names` is what readdir yields, in whatever order.
  ghost predicate Listing(names: seq<SegNo>, files: Files) {
    Distinct(names) && SetOf(names) == files.Keys
  }

  function Restrict(files: Files, ks: set<SegNo>): Files {
    map k | k in files && k in ks :: files[k]
  }

  // The files a capped reader looks at: the first 256 names of the listing.
  function Listed(names: seq<SegNo>, files: Files): Files {
    Restrict(files, SetOf(if |names| <= MAX_LISTED then names else names[..MAX_LISTED]))
  }

  lemma {:induction false} DistinctSize(s: seq<SegNo>)
    requires Distinct(s)
    ensures |SetOf(s)| == |s|
  {
    if s != [] {
      var init, x := s[..|s| - 1], s[|s| - 1];
      DistinctSize(init);
      assert SetOf(s) == SetOf(init) + {x};
      assert x !in SetOf(init);
    }
  }

  /** The cap is harmless up to 256 segment files. */
  lemma ListedAll(names: seq<SegNo>, files: Files)
    requires Listing(names, files) && |files| <= MAX_LISTED
    ensures Listed(names, files) == files
  {
    DistinctSize(names);
    assert |files.Keys| == |files|;
  }

  /** What the capped readers see: the files among the first 256 names. */
  lemma ListedFirst(names: seq<SegNo>, files: Files, k: SegNo)
    requires Listing(names, files)
    ensures k in Listed(names, files) <==> k in (if |names| <= 256 then names else names[..256])
    ensures k in Listed(names, files) ==> k in files && Listed(names, files)[k] == files[k]
  {
    assert k in names ==> k in SetOf(names);
  }

  lemma {:induction false} ValidFewer(l: seq<Header>, pid: nat)
    ensures |Valid(l, pid)| <= |l|
    ensures |Valid(l, pid)| == |l| ==> forall i :: 0 <= i < |l| ==> IsRecordOf(l[i], pid)
  {
    if l != [] {
      ValidFewer(l[..|l| - 1], pid);
    }
  }

  /** The four readers agree.  With at most 256 files, torn tails and foreign records included,
      verification succeeds on what it lists if and only if reading all gives as many rows as
      there are records on disk, numbered 1, 2, ...; and then count, number of rows and
      watermark are the same n, and the rows are all the records. */
  lemma AllReadersAgree(names: seq<SegNo>, files: Files, pid: nat)
    requires Listing(names, files) && |files| <= 256
    ensures var listed, n := AllRecords(Listed(names, files)), |AllRecords(files)|;
            var rows := Valid(listed, pid);
            && (Exact(listed, pid) <==> |rows| == n && Gapless(rows))
            && (Exact(listed, pid) ==> rows == AllRecords(files) && Watermark(Listed(names, files), pid) == n)
  {
    ListedAll(names, files);
    var l := AllRecords(files);
    ValidFewer(l, pid);
    if |Valid(l, pid)| == |l| {
      ValidAll(l, pid);
    }
    if Exact(l, pid) {
      ReadersAgree(files, pid);
    }
  }

  /** Beyond 256 files the cap is harmless for the watermark if and only if the segment of
      the last record is among the 256 names readdir yields first. */
  lemma CapHarmlessIff(names: seq<SegNo>, files: Files, pid: nat, l: seq<Header>)
    requires Listing(names, files) && |names| > MAX_LISTED
    requires forall k :: k in files ==> Valid(Frames(files[k]), pid) == Frames(files[k])
    requires NonEmpty(Decoded(files)) == Split(l) && SegMonotone(l) && Increasing(l)
    ensures Watermark(Listed(names, files), pid) == Watermark(files, pid)
       <==> l == [] || SegOf(l[|l| - 1]) in names[..MAX_LISTED]
  {
    OrderedFrames(files, l);
    var ks := SetOf(names[..MAX_LISTED]);
    OwnWatermark(files, pid);
    OwnWatermark(Restrict(files, ks), pid);
    assert Decoded(Restrict(files, ks)) == Only(Decoded(files), ks);
    TailPeekOfSomeIff(Decoded(files), l, ks);
    assert forall k :: k in ks <==> k in names[..MAX_LISTED];
  }

  ghost predicate OwnIncreasing(files: Files, pid: nat) {
    forall k :: k in files ==>
      Increasing(Frames(files[k])) && Valid(Frames(files[k]), pid) == Frames(files[k])
  }

  lemma OwnWatermark(files: Files, pid: nat)
    requires OwnIncreasing(files, pid)
    ensures Watermark(files, pid) == TailPeek(Decoded(files))
  {
    WatermarkIsTailPeek(files, pid);
  }

  lemma OrderedFrames(files: Files, l: seq<Header>)
    requires NonEmpty(Decoded(files)) == Split(l) && Increasing(l)
    ensures forall k :: k in files ==> Increasing(Frames(files[k]))
  {
    SplitIncreasing(l);
    forall k | k in files
      ensures Increasing(Frames(files[k]))
    {
      if Frames(files[k]) != [] {
        assert k in NonEmpty(Decoded(files));
      }
    }
  }

  ghost predicate Before(x: SegNo, y: SegNo, descending: bool) {
    if descending then x > y else x < y
  }

  ghost predicate Sorted(s: seq<SegNo>, descending: bool) {
    forall i, j :: 0 <= i < j < |s| ==> Before(s[i], s[j], descending)
  }

  // The first i elements are final.
  ghost predicate Placed(s: seq<SegNo>, i: nat, descending: bool) {
    forall x, y :: 0 <= x < i && x < y < |s| ==> Before(s[x], s[y], descending)
  }

  // Element i comes before the elements up to j.
  ghost predicate Selected(s: seq<SegNo>, i: nat, j: nat, descending: bool) {
    i < |s| && forall y :: i < y < j && y < |s| ==> Before(s[i], s[y], descending)
  }

  // The in-place exchange sort all readers use on the collected names.
  method SortSegments(a: array<SegNo>, n: nat, descending: bool)
    requires n <= a.Length && Distinct(a[..n])
    modifies a
    ensures Sorted(a[..n], descending)
    ensures multiset(a[..n]) == old(multiset(a[..n]))
  {
    var i := 0;
    while i < n
      invariant 0 <= i <= n
      invariant Distinct(a[..n]) && Placed(a[..n], i, descending)
      invariant multiset(a[..n]) == old(multiset(a[..n]))
    {
      SelectInto(a, n, i, descending);
      i := i + 1;
    }
  }

  // The inner loop: compare a[i] with every later name and exchange when out of order.
  method SelectInto(a: array<SegNo>, n: nat, i: nat, descending: bool)
    requires i < n <= a.Length && Distinct(a[..n]) && Placed(a[..n], i, descending)
    modifies a
    ensures Distinct(a[..n]) && Placed(a[..n], i + 1, descending)
    ensures multiset(a[..n]) == old(multiset(a[..n]))
  {
    var j := i + 1;
    while j < n
      invariant i < j <= n
      invariant Distinct(a[..n]) && Placed(a[..n], i, descending) && Selected(a[..n], i, j, descending)
      invariant multiset(a[..n]) == old(multiset(a[..n]))
    {
      ghost var was := a[..n];
      assert was[i] == a[i] && was[j] == a[j];
      if (descending && a[i] < a[j]) || (!descending && a[i] > a[j]) {
        a[i], a[j] := a[j], a[i];
        assert a[..n] == was[i := was[j]][j := was[i]];
        SwapKeeps(was, i, j);
        SwapSelects(was, i, j, descending);
      }
      j := j + 1;
    }
  }

  lemma SwapSelects(s: seq<SegNo>, i: nat, j: nat, descending: bool)
    requires i < j < |s| && Placed(s, i, descending) && Selected(s, i, j, descending)
    requires Before(s[j], s[i], descending)
    ensures var t := s[i := s[j]][j := s[i]];
            Placed(t, i, descending) && Selected(t, i, j + 1, descending)
  {
  }

  lemma SwapKeeps(s: seq<SegNo>, i: nat, j: nat)
    requires i < j < |s| && Distinct(s)
    ensures var t := s[i := s[j]][j := s[i]]; Distinct(t) && multiset(t) == multiset(s)
  {
    SwapDistinct(s, i, j);
    SwapPermutes(s, i, j);
  }

  lemma SwapDistinct(s: seq<SegNo>, i: nat, j: nat)
    requires i < j < |s| && Distinct(s)
    ensures Distinct(s[i := s[j]][j := s[i]])
  {
    var t := s[i := s[j]][j := s[i]];
    forall x, y | 0 <= x < y < |t|
      ensures t[x] != t[y]
    {
      assert t[x] == s[if x == i then j else if x == j then i else x];
      assert t[y] == s[if y == i then j else if y == j then i else y];
    }
  }

  lemma SwapPermutes(s: seq<SegNo>, i: nat, j: nat)
    requires i < j < |s|
    ensures multiset(s[i := s[j]][j := s[i]]) == multiset(s)
  {
    var t := s[i := s[j]];
    assert multiset(t) == multiset(s) - multiset{s[i]} + multiset{s[j]};
    assert multiset(t[j := s[i]]) == multiset(t) - multiset{t[j]} + multiset{s[i]};
  }

  lemma SameElements(s: seq<SegNo>, t: seq<SegNo>)
    requires multiset(s) == multiset(t)
    ensures SetOf(s) == SetOf(t)
  {
    forall x
      ensures x in s <==> x in t
    {
      assert x in s <==> x in multiset(s);
      assert x in t <==> x in multiset(t);
    }
  }

  // Collect at most 256 names, then sort them.
  method ListSegments(names: seq<SegNo>, descending: bool) returns (order: seq<SegNo>)
    requires Distinct(names)
    ensures Sorted(order, descending)
    ensures SetOf(order) == SetOf(if |names| <= MAX_LISTED then names else names[..MAX_LISTED])
  {
    var segfiles := new SegNo[MAX_LISTED];
    var nfiles := 0;
    while nfiles < |names| && nfiles < MAX_LISTED
      invariant 0 <= nfiles <= |names| && nfiles <= MAX_LISTED
      invariant segfiles[..nfiles] == names[..nfiles]
    {
      segfiles[nfiles] := names[nfiles];
      nfiles := nfiles + 1;
    }
    ghost var taken := segfiles[..nfiles];
    assert taken == if |names| <= MAX_LISTED then names else names[..MAX_LISTED];
    SortSegments(segfiles, nfiles, descending);
    order := segfiles[..nfiles];
    SameElements(order, taken);
  }
}
