/** The on-disk record of a partition log: PartWALHeader, a 32-byte structure
    (magic 4, partition_id 4, orig_node_lsn 8, partition_lsn 8, flags 1, padding 7),
    and the framing of a segment file into such records. */
module Header {

  type byte = b: int | 0 <= b < 256

  const RECORD_SIZE: nat := 32
  const PARTWAL_MAGIC: nat := 0x50415254

  datatype Header = Header(
    magic: nat,
    partitionId: nat,
    origNodeLsn: nat,
    partitionLsn: nat,
    flags: nat)

  function Pow256(k: nat): (r: nat)
    ensures r > 0
  {
    if k == 0 then 1 else 256 * Pow256(k - 1)
  }

  // The values a PartWALHeader can hold: uint32, uint32, uint64, uint64, uint8.
  predicate Fits(h: Header) {
    && h.magic < Pow256(4) && h.partitionId < Pow256(4)
    && h.origNodeLsn < Pow256(8) && h.partitionLsn < Pow256(8)
    && h.flags < Pow256(1)
  }

  // The test every reader applies before it trusts a record.
  predicate IsRecordOf(h: Header, pid: nat) {
    h.magic == PARTWAL_MAGIC && h.partitionId == pid
  }

  // ---- little-endian integers ----

  function LittleEndian(n: nat, k: nat): (r: seq<byte>)
    ensures |r| == k
  {
    if k == 0 then [] else [n % 256] + LittleEndian(n / 256, k - 1)
  }

  function Value(s: seq<byte>): nat {
    if s == [] then 0 else s[0] + 256 * Value(s[1..])
  }

  lemma {:induction false} ValueOfLittleEndian(n: nat, k: nat)
    requires n < Pow256(k)
    ensures Value(LittleEndian(n, k)) == n
  {
    if k > 0 {
      ValueOfLittleEndian(n / 256, k - 1);
      assert LittleEndian(n, k)[1..] == LittleEndian(n / 256, k - 1);
    }
  }

  // ---- one record ----

  function Encode(h: Header): (r: seq<byte>)
    ensures |r| == RECORD_SIZE
  {
    LittleEndian(h.magic, 4) + LittleEndian(h.partitionId, 4) + LittleEndian(h.origNodeLsn, 8)
    + LittleEndian(h.partitionLsn, 8) + LittleEndian(h.flags, 1) + [0, 0, 0, 0, 0, 0, 0]
  }

  function Decode(s: seq<byte>): Header
    requires |s| == RECORD_SIZE
  {
    Header(Value(s[..4]), Value(s[4..8]), Value(s[8..16]), Value(s[16..24]), Value(s[24..25]))
  }

  lemma FieldSlices(a: seq<byte>, b: seq<byte>, c: seq<byte>, d: seq<byte>, e: seq<byte>, f: seq<byte>)
    requires |a| == 4 && |b| == 4 && |c| == 8 && |d| == 8 && |e| == 1
    ensures var s := a + b + c + d + e + f;
            s[..4] == a && s[4..8] == b && s[8..16] == c && s[16..24] == d && s[24..25] == e
  {
  }

  /** What the writer lays down, a reader gets back, field by field. */
  lemma DecodeEncode(h: Header)
    requires Fits(h)
    ensures Decode(Encode(h)) == h
  {
    ValueOfLittleEndian(h.magic, 4);
    ValueOfLittleEndian(h.partitionId, 4);
    ValueOfLittleEndian(h.origNodeLsn, 8);
    ValueOfLittleEndian(h.partitionLsn, 8);
    ValueOfLittleEndian(h.flags, 1);
    FieldSlices(LittleEndian(h.magic, 4), LittleEndian(h.partitionId, 4), LittleEndian(h.origNodeLsn, 8),
                LittleEndian(h.partitionLsn, 8), LittleEndian(h.flags, 1), [0, 0, 0, 0, 0, 0, 0]);
  }

  // ---- the layout, byte by byte ----

  // Four bytes, least significant first,
  lemma ValueOfFour(s: seq<byte>)
    requires |s| == 4
    ensures Value(s) == s[0] + 0x100 * (s[1] as int) + 0x1_0000 * (s[2] as int) + 0x100_0000 * (s[3] as int)
  {
    var a, b, c := s[1..], s[2..], s[3..];
    assert a[1..] == b && b[1..] == c && c[1..] == [];
    assert Value(c) == c[0] + 256 * Value([]);
    assert Value(b) == b[0] + 256 * Value(c);
    assert Value(a) == a[0] + 256 * Value(b);
    assert Value(s) == s[0] + 256 * Value(a);
  }

  // and eight.
  lemma ValueOfEight(s: seq<byte>)
    requires |s| == 8
    ensures Value(s) == Value(s[..4]) + 0x1_0000_0000 * Value(s[4..])
  {
    ValueOfFour(s[..4]);
    var a, b, c, d := s[1..], s[2..], s[3..], s[4..];
    assert a[1..] == b && b[1..] == c && c[1..] == d;
    assert Value(c) == c[0] + 256 * Value(d);
    assert Value(b) == b[0] + 256 * Value(c);
    assert Value(a) == a[0] + 256 * Value(b);
    assert Value(s) == s[0] + 256 * Value(a);
  }

  lemma FieldWidths(h: Header)
    ensures Fits(h) <==>
              && h.magic < 0x1_0000_0000 && h.partitionId < 0x1_0000_0000
              && h.origNodeLsn < 0x1_0000_0000_0000_0000 && h.partitionLsn < 0x1_0000_0000_0000_0000
              && h.flags < 0x100
  {
    assert Pow256(1) == 0x100 && Pow256(2) == 0x1_0000 && Pow256(3) == 0x100_0000 && Pow256(4) == 0x1_0000_0000;
    assert Pow256(5) == 0x100_0000_0000 && Pow256(6) == 0x1_0000_0000_0000 && Pow256(7) == 0x100_0000_0000_0000;
  }

  /** PartWALHeader in memory: which bytes hold which field. */
  lemma EncodeLayout(h: Header)
    requires Fits(h)
    ensures var s := Encode(h);
            && |s| == 32
            && Value(s[0..4]) == h.magic && Value(s[4..8]) == h.partitionId
            && Value(s[8..16]) == h.origNodeLsn && Value(s[16..24]) == h.partitionLsn
            && s[24] == h.flags && s[25..] == [0, 0, 0, 0, 0, 0, 0]
    ensures h.magic == PARTWAL_MAGIC ==> Encode(h)[..4] == [0x54, 0x52, 0x41, 0x50]
  {
    var a, b := LittleEndian(h.magic, 4), LittleEndian(h.partitionId, 4);
    var c, d := LittleEndian(h.origNodeLsn, 8), LittleEndian(h.partitionLsn, 8);
    ValueOfLittleEndian(h.magic, 4);
    ValueOfLittleEndian(h.partitionId, 4);
    ValueOfLittleEndian(h.origNodeLsn, 8);
    ValueOfLittleEndian(h.partitionLsn, 8);
    FieldWidths(h);
    FieldSlices(a, b, c, d, LittleEndian(h.flags, 1), [0, 0, 0, 0, 0, 0, 0]);
    assert Encode(h)[0..4] == Encode(h)[..4] == a;
    if h.magic == PARTWAL_MAGIC {
      MagicBytes();
    }
  }

  // "PART", least significant byte first.
  lemma MagicBytes()
    ensures LittleEndian(PARTWAL_MAGIC, 4) == [0x54, 0x52, 0x41, 0x50]
  {
    assert LittleEndian(0x50415254, 4) == [0x54] + LittleEndian(0x504152, 3);
    assert LittleEndian(0x504152, 3) == [0x52] + LittleEndian(0x5041, 2);
    assert LittleEndian(0x5041, 2) == [0x41] + LittleEndian(0x50, 1);
    assert LittleEndian(0x50, 1) == [0x50] + LittleEndian(0, 0);
  }

  /** And what any 32 bytes are read as. */
  lemma DecodeLayout(s: seq<byte>)
    requires |s| == 32
    ensures var h := Decode(s);
            && h.magic == Value(s[0..4]) && h.partitionId == Value(s[4..8])
            && h.origNodeLsn == Value(s[8..16]) && h.partitionLsn == Value(s[16..24])
            && h.flags == s[24]
  {
    assert s[..4] == s[0..4];
    var f := s[24..25];
    assert f[1..] == [] && Value(f) == f[0] + 256 * Value(f[1..]);
  }

  lemma {:induction false} LittleEndianOfValue(s: seq<byte>)
    ensures LittleEndian(Value(s), |s|) == s
  {
    if s != [] {
      LittleEndianOfValue(s[1..]);
      assert Value(s) == s[0] + 256 * Value(s[1..]);
      assert Value(s) % 256 == s[0] && Value(s) / 256 == Value(s[1..]);
    }
  }

  /** The magic test looks at the first four bytes. */
  lemma MagicIff(s: seq<byte>)
    requires |s| == 32
    ensures Decode(s).magic == PARTWAL_MAGIC <==> s[..4] == [0x54, 0x52, 0x41, 0x50]
  {
    MagicBytes();
    LittleEndianOfValue(s[..4]);
    ValueOfLittleEndian(PARTWAL_MAGIC, 4);
  }

  /** Bytes with clean padding are written back as they were read. */
  lemma EncodeDecode(s: seq<byte>)
    requires |s| == 32 && s[25..] == [0, 0, 0, 0, 0, 0, 0]
    ensures Encode(Decode(s)) == s
  {
    LittleEndianOfValue(s[..4]);
    LittleEndianOfValue(s[4..8]);
    LittleEndianOfValue(s[8..16]);
    LittleEndianOfValue(s[16..24]);
    LittleEndianOfValue(s[24..25]);
    assert s == s[..4] + s[4..8] + s[8..16] + s[16..24] + s[24..25] + s[25..];
  }

  // ---- a file of records ----

  // The complete records of a file; a tail shorter than one record is ignored,
  // as in every `while (read(...) == sizeof(PartWALHeader))` loop of the source.
  function Frames(s: seq<byte>): (r: seq<Header>)
  {
    if |s| < RECORD_SIZE then [] else [Decode(s[..RECORD_SIZE])] + Frames(s[RECORD_SIZE..])
  }

  function EncodeAll(hs: seq<Header>): (r: seq<byte>)
    ensures |r| == RECORD_SIZE * |hs|
  {
    if hs == [] then [] else Encode(hs[0]) + EncodeAll(hs[1..])
  }

  lemma {:induction false} FramesCount(s: seq<byte>)
    ensures |Frames(s)| == |s| / RECORD_SIZE
  {
    if |s| >= RECORD_SIZE {
      FramesCount(s[RECORD_SIZE..]);
    }
  }

  lemma {:induction false} FramesAt(s: seq<byte>, i: nat)
    requires RECORD_SIZE * (i + 1) <= |s|
    ensures i < |Frames(s)|
    ensures Frames(s)[i] == Decode(s[RECORD_SIZE * i..RECORD_SIZE * (i + 1)])
  {
    FramesCount(s);
    if i > 0 {
      var t := s[RECORD_SIZE..];
      FramesAt(t, i - 1);
      assert t[RECORD_SIZE * (i - 1)..RECORD_SIZE * i] == s[RECORD_SIZE * i..RECORD_SIZE * (i + 1)];
    }
  }

  /** Appending to a file that ends on a record boundary appends to its records. */
  lemma {:induction false} FramesConcat(s: seq<byte>, t: seq<byte>)
    requires |s| % RECORD_SIZE == 0
    ensures Frames(s + t) == Frames(s) + Frames(t)
  {
    if s == [] {
      assert s + t == t;
    } else {
      FramesConcat(s[RECORD_SIZE..], t);
      FirstFrame(s, t);
      assert [Decode(s[..RECORD_SIZE])] + Frames(s[RECORD_SIZE..]) + Frames(t)
          == [Decode(s[..RECORD_SIZE])] + (Frames(s[RECORD_SIZE..]) + Frames(t));
    }
  }

  lemma FirstFrame(s: seq<byte>, t: seq<byte>)
    requires |s| >= RECORD_SIZE
    ensures Frames(s + t) == [Decode(s[..RECORD_SIZE])] + Frames(s[RECORD_SIZE..] + t)
  {
    assert (s + t)[..RECORD_SIZE] == s[..RECORD_SIZE];
    assert (s + t)[RECORD_SIZE..] == s[RECORD_SIZE..] + t;
  }

  // A record written behind a torn tail is read as one that starts with the tail.
  lemma FrameAcrossTail(s: seq<byte>, h: Header)
    requires |s| % RECORD_SIZE != 0
    ensures var q := |s| / RECORD_SIZE;
            |Frames(s + Encode(h))| == q + 1 && Frames(s + Encode(h))[q].magic % 256 == s[RECORD_SIZE * q]
  {
    var q, f := |s| / RECORD_SIZE, s + Encode(h);
    FramesCount(f);
    FramesAt(f, q);
    FirstByte(f[RECORD_SIZE * q..RECORD_SIZE * (q + 1)]);
  }

  lemma FirstByte(frame: seq<byte>)
    requires |frame| == RECORD_SIZE
    ensures Decode(frame).magic % 256 == frame[0]
  {
    var m := frame[..4];
    assert Value(m) == m[0] + 256 * Value(m[1..]);
  }

  /** The exact condition for an append: every record written to a file is read back behind
      the records before it if and only if the file ended on a record boundary.  Behind a
      torn tail a record is misread unless its first byte happens to be the tail's. */
  lemma FramesAppendIff(s: seq<byte>)
    ensures (forall h :: Fits(h) ==> Frames(s + Encode(h)) == Frames(s) + [h]) <==> |s| % RECORD_SIZE == 0
  {
    if |s| % RECORD_SIZE == 0 {
      forall h | Fits(h)
        ensures Frames(s + Encode(h)) == Frames(s) + [h]
      {
        FramesConcat(s, Encode(h));
        FramesOfEncode(h);
      }
    } else {
      var q := |s| / RECORD_SIZE;
      var h := Header(if s[RECORD_SIZE * q] == 0 then 1 else 0, 0, 0, 0, 0);
      FrameAcrossTail(s, h);
      FramesCount(s);
      assert Fits(h) && Frames(s + Encode(h)) != Frames(s) + [h];
    }
  }

  lemma FramesOfEncode(h: Header)
    requires Fits(h)
    ensures Frames(Encode(h)) == [h]
  {
    DecodeEncode(h);
    assert Encode(h)[..RECORD_SIZE] == Encode(h);
  }

  /** Round trip of a whole file, under any torn tail shorter than a record. */
  lemma {:induction false} FramesOfEncodeAll(hs: seq<Header>, torn: seq<byte>)
    requires forall i :: 0 <= i < |hs| ==> Fits(hs[i])
    requires |torn| < RECORD_SIZE
    ensures Frames(EncodeAll(hs) + torn) == hs
  {
    if hs == [] {
      assert EncodeAll(hs) + torn == torn;
    } else {
      FramesOfEncodeAll(hs[1..], torn);
      FramesOfEncode(hs[0]);
      assert EncodeAll(hs) + torn == Encode(hs[0]) + (EncodeAll(hs[1..]) + torn);
      FramesConcat(Encode(hs[0]), EncodeAll(hs[1..]) + torn);
    }
  }
}
