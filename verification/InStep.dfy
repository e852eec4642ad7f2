/** One partition in step with the log it should hold: the files hold the first records,
    the buffer the rest.  A record keeps it in step exactly when its write is accepted,
    whatever becomes of the flush after it. */
module InStep {
  import opened Header
  import opened SegmentDir
  import opened WriterSpec
  import opened Demux
  import opened SegmentCleanup

  // ---- the calls one write depends on ----

  predicate CallsSucceed(w: Writer, h: Header, io: Io) {
    if w.seg != 0 && SegOf(h) != w.seg then (w.pending != [] ==> io.switchFlush) && io.open
    else (w.fd.Closed? ==> io.open) && (|w.pending| == BUFFER_RECORDS ==> io.fullFlush)
  }

  /** A write is refused exactly when a call it needs fails: the flush of pending records
      and the open at a segment switch, the open of a closed file, the flush of a full
      buffer.  The flush after the write is not among them. */
  lemma AcceptedIff(p: Part, h: Header, io: Io)
    requires WriterOk(p.w)
    ensures Write(p, h, io).ok <==> CallsSucceed(p.w, h, io)
  {
    SegOfPositive(h);
  }

  /** When a partition is stalled after a record: a stall from before stays while the disk
      watermark has reached the record; otherwise it is stalled exactly when the record is
      due and a call its write or the flush behind it needs fails. */
  lemma StalledIff(p: Part, h: Header, io: Io)
    requires WriterOk(p.w)
    ensures var w := DetectReset(p, h).w;
            DemuxOne(p, h, io).w.stalled
            <==> (w.stalled && h.partitionLsn <= TailPeek(p.dir))
                 || (h.partitionLsn > w.last && !(CallsSucceed(w, h, io) && io.flush))
  {
    var q := Unstall(DetectReset(p, h), h);
    if !q.w.stalled && h.partitionLsn > q.w.last {
      AcceptedIff(q, h, io);
      PendingWrite(q, h, io);
    }
  }

  lemma PendingWrite(p: Part, h: Header, io: Io)
    requires WriterOk(p.w) && !p.w.stalled
    ensures var a := Write(p, h, io); (a.ok ==> a.part.w.pending != [] && a.part.w.fd.Open?) && !a.part.w.stalled
  {
  }

  /** And after a flush: stalled as before, or by this flush. */
  lemma StalledByFlush(p: Part, ok: bool)
    ensures FlushCatch(p, ok).w.stalled <==> p.w.stalled || (p.w.pending != [] && p.w.fd.Open? && !ok)
  {
  }

  // ---- a writer that carries a log ----

  ghost predicate InOrder(l: seq<Header>) {
    Gapless(l) && SegMonotone(l)
  }

  // The files hold exactly the records of l from number `from` on (cleanup has removed
  // those before) up to what the watermark says.
  ghost predicate Holds(d: Dir, l: seq<Header>, from: nat) {
    from <= TailPeek(d) <= |l| && NonEmpty(d) == Split(l[from..TailPeek(d)])
  }

  // A descriptor is open only after a record went through it.
  ghost predicate Touched(w: Writer) {
    w.fd.Open? ==> w.last > 0
  }

  // The open file is the one the last record went to.
  ghost predicate OpenAtEnd(w: Writer, l: seq<Header>) {
    w.fd.Open? ==> l != [] && w.seg == SegOf(l[|l| - 1])
  }

  ghost predicate Carries(p: Part, l: seq<Header>, from: nat) {
    && WriterOk(p.w) && Linked(p.w) && OpenAtEnd(p.w, l)
    && Holds(p.dir, l, from)
    && p.w.pending == l[TailPeek(p.dir)..]
    && p.w.last == |l|
  }

  lemma InOrderPrefix(l: seq<Header>, k: nat)
    requires InOrder(l) && k <= |l|
    ensures InOrder(l[..k])
  {
  }

  lemma InOrderRange(l: seq<Header>, from: nat, k: nat)
    requires InOrder(l) && from <= k <= |l|
    ensures Increasing(l[from..k]) && SegMonotone(l[from..k])
    ensures LastLsn(l[from..k]) == if from < k then k else 0
  {
    assert forall i :: 0 <= i < k - from ==> l[from..k][i] == l[from + i];
  }

  // Crediting records of one segment to a directory that holds the log before them.
  lemma CreditRun(d: Dir, a: seq<Header>, b: seq<Header>, s: SegNo)
    requires NonEmpty(d) == Split(a) && b != []
    requires forall i :: 0 <= i < |b| ==> SegOf(b[i]) == s
    ensures NonEmpty(d[s := FileOf(d, s) + b]) == Split(a + b)
  {
    SplitRun(a, b, s);
    FileOfNonEmpty(d, s);
    NonEmptyUpdate(d, s, FileOf(d, s) + b);
  }

  lemma FileOfNonEmpty(d: Dir, s: SegNo)
    ensures FileOf(NonEmpty(d), s) == FileOf(d, s)
  {
  }

  lemma NonEmptyUpdate(d: Dir, s: SegNo, f: seq<Header>)
    requires f != []
    ensures NonEmpty(d[s := f]) == NonEmpty(d)[s := f]
  {
  }

  // Something is left of a log that has been written.
  lemma HoldsSome(d: Dir, l: seq<Header>, from: nat)
    requires Holds(d, l, from)
    ensures TailPeek(d) > 0 ==> from < TailPeek(d)
  {
    if from == TailPeek(d) {
      assert l[from..from] == [];
      EmptyFiles(d);
      TailPeekZero(d);
    }
  }

  lemma CarriedContent(p: Part, l: seq<Header>, from: nat)
    requires Carries(p, l, from)
    ensures Content(p) == Split(l[from..])
  {
    var m := TailPeek(p.dir);
    assert l[from..] == l[from..m] + l[m..];
    if p.w.pending != [] {
      CreditRun(p.dir, l[from..m], p.w.pending, p.w.seg);
    } else {
      assert l[from..m] == l[from..];
    }
  }

  lemma CarriedRepresents(p: Part, l: seq<Header>, from: nat)
    requires Carries(p, l, from) && InOrder(l)
    ensures Represents(p, l[from..])
  {
    CarriedContent(p, l, from);
    InOrderRange(l, from, |l|);
    assert l[from..|l|] == l[from..];
  }

  // Files that hold the whole rest of the log.
  lemma RestOnDisk(d: Dir, l: seq<Header>, from: nat)
    requires (from < |l| || (from == 0 && l == [])) && NonEmpty(d) == Split(l[from..]) && InOrder(l)
    ensures TailPeek(d) == |l| && Holds(d, l, from)
  {
    assert l[from..|l|] == l[from..];
    InOrderRange(l, from, |l|);
    TailPeekOrdered(d, l[from..]);
  }

  // A new empty file is invisible.
  lemma HeldSame(d: Dir, e: Dir, l: seq<Header>, from: nat)
    requires Holds(d, l, from) && InOrder(l) && NonEmpty(e) == NonEmpty(d)
    ensures TailPeek(e) == TailPeek(d) && Holds(e, l, from)
  {
    var m := TailPeek(d);
    InOrderRange(l, from, m);
    TailPeekOrdered(d, l[from..m]);
    TailPeekOrdered(e, l[from..m]);
  }

  lemma FlushCarries(p: Part, ok: bool, l: seq<Header>, from: nat)
    requires Carries(p, l, from) && InOrder(l)
    ensures var r := Flush(p, ok).part;
            && Carries(r, l, from)
            && TailPeek(p.dir) <= TailPeek(r.dir)
            && (ok ==> TailPeek(r.dir) == |l|)
  {
    if ok {
      CarriedContent(p, l, from);
      FlushKeepsContent(p, ok);
      var r := Flush(p, ok).part;
      assert Content(r) == NonEmpty(r.dir);
      HoldsSome(p.dir, l, from);
      RestOnDisk(r.dir, l, from);
      assert l[|l|..] == [];
    }
  }

  lemma OpenCarries(p: Part, s: SegNo, l: seq<Header>, from: nat)
    requires Carries(p, l, from) && InOrder(l) && p.w.pending == [] && s != 0
    ensures var r := OpenSegment(p, s, true).part;
            && WriterOk(r.w) && Linked(r.w) && r.w.last == |l| && r.w.pending == []
            && Holds(r.dir, l, from) && TailPeek(r.dir) == TailPeek(p.dir) == |l|
            && r.w.fd.Open? && r.w.seg == s
  {
    var r := OpenSegment(p, s, true).part;
    assert NonEmpty(r.dir) == NonEmpty(p.dir);
    HeldSame(p.dir, r.dir, l, from);
  }

  // The writer is positioned on segment s and has room for one more record.
  ghost predicate Positioned(p: Part, l: seq<Header>, from: nat, s: SegNo) {
    && WriterOk(p.w) && Linked(p.w) && p.w.fd.Open? && p.w.seg == s
    && Holds(p.dir, l, from) && p.w.pending == l[TailPeek(p.dir)..]
  }

  lemma PositionCarries(p: Part, h: Header, io: Io, l: seq<Header>, from: nat)
    requires Carries(p, l, from) && InOrder(l) && CallsSucceed(p.w, h, io)
    ensures var a := Position(p, SegOf(h), io);
            && a.ok && Positioned(a.part, l, from, SegOf(h))
            && TailPeek(p.dir) <= TailPeek(a.part.dir)
            && (|a.part.w.pending| == BUFFER_RECORDS ==> io.fullFlush)
  {
    var s := SegOf(h);
    SegOfPositive(h);
    if p.w.seg != 0 && s != p.w.seg {
      FlushCarries(p, io.switchFlush, l, from);
      var f := Flush(p, io.switchFlush);
      assert f.part.w.pending == [];
      OpenCarries(f.part, s, l, from);
      assert l[|l|..] == [];
    } else if p.w.fd.Closed? {
      OpenCarries(p, s, l, from);
      assert l[|l|..] == [];
    }
  }

  lemma FullFlushCarries(p: Part, s: SegNo, io: Io, l: seq<Header>, from: nat)
    requires Positioned(p, l, from, s) && InOrder(l) && (|p.w.pending| == BUFFER_RECORDS ==> io.fullFlush)
    ensures var b := if |p.w.pending| + 1 > BUFFER_RECORDS then Flush(p, io.fullFlush) else Outcome(p, true);
            && b.ok && Positioned(b.part, l, from, s) && |b.part.w.pending| < BUFFER_RECORDS
            && TailPeek(p.dir) <= TailPeek(b.part.dir)
  {
    if |p.w.pending| + 1 > BUFFER_RECORDS {
      var q := p.(w := p.w.(last := |l|));
      assert q.w.pending != [] && l != [];
      assert q.w.pending[|q.w.pending| - 1] == l[|l| - 1];
      FlushCarries(q, true, l, from);
      assert Flush(p, true).part.dir == Flush(q, true).part.dir;
      assert l[|l|..] == [];
    }
  }

  lemma PutCarries(p: Part, h: Header, l: seq<Header>, from: nat)
    requires Positioned(p, l, from, SegOf(h)) && |p.w.pending| < BUFFER_RECORDS && h.partitionLsn == |l| + 1
    ensures Carries(p.(w := p.w.(pending := p.w.pending + [h], last := h.partitionLsn)), l + [h], from)
  {
    var m := TailPeek(p.dir);
    assert (l + [h])[from..m] == l[from..m] && (l + [h])[m..] == l[m..] + [h];
  }

  lemma WriteCarries(p: Part, h: Header, io: Io, l: seq<Header>, from: nat)
    requires Carries(p, l, from) && InOrder(l) && CallsSucceed(p.w, h, io) && h.partitionLsn == |l| + 1
    ensures var a := Write(p, h, io);
            && a.ok && Carries(a.part, l + [h], from) && TailPeek(p.dir) <= TailPeek(a.part.dir)
  {
    PositionCarries(p, h, io, l, from);
    var a := Position(p, SegOf(h), io).part;
    FullFlushCarries(a, SegOf(h), io, l, from);
    var b := if |a.w.pending| + 1 > BUFFER_RECORDS then Flush(a, io.fullFlush).part else a;
    PutCarries(b, h, l, from);
  }

  /** The next record keeps the partition in step for every outcome of the flush after the
      write, as long as its write is accepted; what is on disk only grows. */
  lemma DemuxCarries(p: Part, h: Header, io: Io, l: seq<Header>, from: nat)
    requires Carries(p, l, from) && InOrder(l + [h]) && h.partitionLsn == |l| + 1
    requires CallsSucceed(p.w, h, io)
    ensures var r := DemuxOne(p, h, io);
            && Carries(r, l + [h], from) && TailPeek(p.dir) <= TailPeek(r.dir)
            && (io.flush ==> r.w.pending == [])
  {
    InOrderPrefix(l + [h], |l|);
    assert (l + [h])[..|l|] == l;
    CarriedRepresents(p, l, from);
    FreshReachesWrite(p, h, io, l[from..]);
    WriteAndFlushCarries(p.(w := p.w.(stalled := false)), h, io, l, from);
  }

  lemma FlagCarries(p: Part, b: bool, l: seq<Header>, from: nat)
    requires Carries(p, l, from)
    ensures Carries(p.(w := p.w.(stalled := b)), l, from)
  {
  }

  lemma WriteAndFlushCarries(p: Part, h: Header, io: Io, l: seq<Header>, from: nat)
    requires Carries(p, l, from) && InOrder(l + [h]) && InOrder(l) && h.partitionLsn == |l| + 1
    requires CallsSucceed(p.w, h, io)
    ensures var r := WriteAndFlush(p, h, io);
            && Carries(r, l + [h], from) && TailPeek(p.dir) <= TailPeek(r.dir)
            && (io.flush ==> r.w.pending == [])
  {
    WriteCarries(p, h, io, l, from);
    var a := Write(p, h, io).part;
    FlushCarries(a, io.flush, l + [h], from);
    FlushKeepsContent(a, io.flush);
    FlagCarries(Flush(a, io.flush).part, true, l + [h], from);
  }

  /** The exact condition: an in-order record joins disk plus buffer if and only if every
      call its write needs succeeds. */
  lemma InStepIff(p: Part, h: Header, io: Io, l: seq<Header>, from: nat)
    requires Carries(p, l, from) && InOrder(l + [h]) && h.partitionLsn == |l| + 1
    ensures Content(DemuxOne(p, h, io)) == Split(l[from..] + [h]) <==> CallsSucceed(p.w, h, io)
    ensures !CallsSucceed(p.w, h, io) ==> Represents(DemuxOne(p, h, io), l[from..])
  {
    if CallsSucceed(p.w, h, io) {
      AcceptedContent(p, h, io, l, from);
    } else {
      InOrderPrefix(l + [h], |l|);
      assert (l + [h])[..|l|] == l;
      RefusedContent(p, h, io, l, from);
      OneMore(l, h, from);
    }
  }

  lemma AcceptedContent(p: Part, h: Header, io: Io, l: seq<Header>, from: nat)
    requires Carries(p, l, from) && InOrder(l + [h]) && h.partitionLsn == |l| + 1 && CallsSucceed(p.w, h, io)
    ensures Content(DemuxOne(p, h, io)) == Split(l[from..] + [h])
  {
    DemuxCarries(p, h, io, l, from);
    ContentWithNext(DemuxOne(p, h, io), l, h, from);
  }

  lemma ContentWithNext(p: Part, l: seq<Header>, h: Header, from: nat)
    requires Carries(p, l + [h], from) && from <= |l|
    ensures Content(p) == Split(l[from..] + [h])
  {
    CarriedContent(p, l + [h], from);
    SuffixOfNext(l, h, from);
  }

  lemma SuffixOfNext(l: seq<Header>, h: Header, from: nat)
    requires from <= |l|
    ensures (l + [h])[from..] == l[from..] + [h]
  {
  }

  lemma RefusedContent(p: Part, h: Header, io: Io, l: seq<Header>, from: nat)
    requires Carries(p, l, from) && InOrder(l) && h.partitionLsn == |l| + 1 && !CallsSucceed(p.w, h, io)
    ensures Represents(DemuxOne(p, h, io), l[from..])
  {
    CarriedRepresents(p, l, from);
    FreshReachesWrite(p, h, io, l[from..]);
    AcceptedIff(p.(w := p.w.(stalled := false)), h, io);
    DemuxOneSafe(p, h, io, l[from..]);
  }

  lemma OneMore(l: seq<Header>, h: Header, from: nat)
    requires InOrder(l + [h]) && from <= |l|
    ensures Split(l[from..] + [h]) != Split(l[from..])
  {
    assert (l + [h])[from..|l| + 1] == l[from..] + [h] && (l + [h])[from..|l|] == l[from..];
    InOrderRange(l + [h], from, |l| + 1);
    InOrderRange(l + [h], from, |l|);
    LogOfSplit(l[from..]);
    LogOfSplit(l[from..] + [h]);
  }

  /** A refused record is lost for good: the next one of the partition is accepted over
      the hole, and the refused one, should it come again, is below the watermark. */
  lemma RefusedLeavesHole(p: Part, h: Header, io: Io, next: Header, l: seq<Header>, from: nat)
    requires Carries(p, l, from) && InOrder(l + [h]) && h.partitionLsn == |l| + 1
    requires !CallsSucceed(p.w, h, io) && next.partitionLsn == |l| + 2
    ensures var q := DemuxOne(p, h, io);
            var r := DemuxOne(q, next, ALL_OK);
            && Represents(r, l[from..] + [next]) && !Gapless(l + [next])
            && Content(DemuxOne(r, h, ALL_OK)) == Content(r)
  {
    InStepIff(p, h, io, l, from);
    LastOfRefused(p, h, io, l, from);
    assert (l + [next])[|l|].partitionLsn == |l| + 2;
    HoleStays(DemuxOne(p, h, io), h, next, |l|, l[from..]);
  }

  lemma HoleStays(q: Part, h: Header, next: Header, n: nat, acc: seq<Header>)
    requires Represents(q, acc) && q.w.last == n
    requires h.partitionLsn == n + 1 && next.partitionLsn == n + 2
    ensures var r := DemuxOne(q, next, ALL_OK);
            Represents(r, acc + [next]) && Content(DemuxOne(r, h, ALL_OK)) == Content(r)
  {
    DemuxFresh(q, next, acc);
    var r := DemuxOne(q, next, ALL_OK);
    NotResetAfter(r, acc + [next]);
    AddedIff(r, h, acc + [next]);
  }

  lemma LastOfRefused(p: Part, h: Header, io: Io, l: seq<Header>, from: nat)
    requires Carries(p, l, from) && InOrder(l + [h]) && h.partitionLsn == |l| + 1 && !CallsSucceed(p.w, h, io)
    ensures DemuxOne(p, h, io).w.last == |l|
  {
    InOrderPrefix(l + [h], |l|);
    assert (l + [h])[..|l|] == l;
    CarriedRepresents(p, l, from);
    FreshReachesWrite(p, h, io, l[from..]);
    var q := p.(w := p.w.(stalled := false));
    AcceptedIff(q, h, io);
    WriteAppendsOrRefuses(q, h, io);
  }

  lemma NotResetAfter(r: Part, acc: seq<Header>)
    requires Represents(r, acc) && acc != [] && r.w.pending == []
    ensures TailPeek(r.dir) > 0
  {
    DiskBelowWriter(r, acc);
    TailPeekZero(r.dir);
    SplitShape(acc);
  }

  // ---- one partition's view ----

  // In step with l from number `from` on: with a writer the buffer holds what the files
  // lack; without one the files hold everything.
  ghost predicate Synced(v: View, l: seq<Header>, from: nat) {
    && InOrder(l)
    && if v.slot.Some? then Carries(PartOf(v), l, from)
       else Holds(v.dir, l, from) && TailPeek(v.dir) == |l|
  }

  // After a reset, before the first new record: nothing on disk, and nothing a stale
  // writer still holds can get there.
  ghost predicate Emptied(v: View) {
    && v.dir == map[]
    && (v.slot.Some? ==>
          var w := v.slot.value;
          WriterOk(w) && Touched(w) && (w.fd.Open? ==> !w.fd.linked))
  }

  ghost predicate Follows(v: View, l: seq<Header>, from: nat) {
    Synced(v, l, from) || (l == [] && from == 0 && Emptied(v))
  }

  // The writer that meets the write of record h, and whether it accepts it.
  function Meets(v: View, h: Header): Writer {
    DetectReset(PartOf(WithWriter(v)), h).w
  }

  predicate Accepts(v: View, h: Header, io: Io) {
    CallsSucceed(Meets(v, h), h, io)
  }

  // Nothing a restart of the worker could lose.
  ghost predicate Drained(v: View) {
    v.slot.Some? && v.slot.value.pending != [] ==> v.slot.value.fd == Open(false)
  }

  lemma FollowsInOrder(v: View, l: seq<Header>, from: nat)
    requires Follows(v, l, from)
    ensures InOrder(l) && Holds(v.dir, l, from)
  {
    if !Synced(v, l, from) {
      assert TailPeek(map[]) == 0;
      assert NonEmpty(v.dir) == map[];
    }
  }

  lemma DrainedOnDisk(v: View, l: seq<Header>, from: nat)
    requires Follows(v, l, from)
    ensures Drained(v) <==> TailPeek(v.dir) == |l|
  {
    if !Synced(v, l, from) {
      assert TailPeek(map[]) == 0;
    }
  }

  lemma SyncedRecord(v: View, l: seq<Header>, from: nat, h: Header, io: Io, pid: nat)
    requires Synced(v, l, from) && InOrder(l + [h]) && h.partitionLsn == |l| + 1 && Accepts(v, h, io)
    ensures var r := HandleOne(v, Rec(h, io, true), pid);
            && Synced(r, l + [h], from) && TailPeek(v.dir) <= TailPeek(r.dir)
            && (io.flush ==> Drained(r))
  {
    var p := PartOf(WithWriter(v));
    assert Carries(p, l, from);
    assert DetectReset(p, h) == p;
    DemuxCarries(p, h, io, l, from);
  }

  const CLEAN := Part(map[], CLEAN_WRITER)

  // An emptied directory meets record 1 like a new one, whatever writer is left.
  lemma EmptiedStart(v: View, h: Header, io: Io, pid: nat)
    requires Emptied(v) && h.partitionLsn == 1
    ensures exists u ::
      && Synced(u, [], 0) && Meets(u, h) == Meets(v, h)
      && HandleOne(u, Rec(h, io, true), pid) == HandleOne(v, Rec(h, io, true), pid)
  {
    assert TailPeek(map[]) == 0;
    assert NonEmpty(v.dir) == map[];
    var none: seq<Header> := [];
    assert none[0..0] == none[0..] == [];
    if v.slot.Some? && v.slot.value.last > 0 {
      var u := ViewOfPart(CLEAN);
      assert DetectReset(PartOf(v), h) == CLEAN == DetectReset(CLEAN, h);
      assert Synced(u, none, 0);
    } else {
      assert Synced(v, none, 0);
    }
  }

  /** The next record keeps a partition in step: any flush outcome, first record after a
      reset included. */
  lemma FollowsRecord(v: View, l: seq<Header>, from: nat, h: Header, io: Io, pid: nat)
    requires Follows(v, l, from) && InOrder(l + [h]) && h.partitionLsn == |l| + 1 && Accepts(v, h, io)
    ensures var r := HandleOne(v, Rec(h, io, true), pid);
            && Synced(r, l + [h], from) && TailPeek(v.dir) <= TailPeek(r.dir)
            && (io.flush ==> Drained(r))
  {
    if Synced(v, l, from) {
      SyncedRecord(v, l, from, h, io, pid);
    } else {
      EmptiedStart(v, h, io, pid);
      var u :| && Synced(u, [], 0) && Meets(u, h) == Meets(v, h)
               && HandleOne(u, Rec(h, io, true), pid) == HandleOne(v, Rec(h, io, true), pid);
      SyncedRecord(u, [], 0, h, io, pid);
      assert TailPeek(map[]) == 0;
    }
  }

  // ---- a writer whose file is gone ----

  lemma WriteKeepsTouched(p: Part, h: Header, io: Io)
    requires WriterOk(p.w) && Touched(p.w) && h.partitionLsn >= 1
    ensures Touched(Write(p, h, io).part.w)
  {
  }

  /** A writer has a file open only after a record went through it, which is why reset
      detection never overlooks a dangling descriptor. */
  lemma DemuxKeepsTouched(p: Part, h: Header, io: Io)
    requires WriterOk(p.w) && Touched(p.w)
    ensures Touched(DemuxOne(p, h, io).w)
  {
    var q := Unstall(DetectReset(p, h), h);
    if h.partitionLsn > q.w.last {
      WriteKeepsTouched(q, h, io);
    }
  }

  ghost predicate SoundAt(v: View, acc: seq<Header>) {
    (Sound(v, acc) && (v.slot.Some? ==> Touched(v.slot.value))) || (acc == [] && Emptied(v))
  }

  // Not Emptied means a new file was opened, for this record.
  ghost function Restarted(v: View, h: Header): seq<Header> {
    if SoundAt(v, []) then [] else [h]
  }

  // Writing on in the old segment reaches no file of the directory.
  lemma DanglingSameSegment(p: Part, h: Header, io: Io)
    requires Emptied(ViewOfPart(p)) && p.w.fd == Open(false) && SegOf(h) == p.w.seg && h.partitionLsn > p.w.last
    ensures Emptied(ViewOfPart(WriteAndFlush(p, h, io)))
  {
  }

  // A new segment gets a new file, and with it a fresh start.
  lemma DanglingNewSegment(p: Part, h: Header, io: Io)
    requires Emptied(ViewOfPart(p)) && p.w.fd == Open(false) && SegOf(h) != p.w.seg && h.partitionLsn > p.w.last
    ensures var r := ViewOfPart(WriteAndFlush(p, h, io)); Emptied(r) || Sound(r, [h])
  {
    SegOfPositive(h);
    var f := Flush(p, io.switchFlush);
    if f.ok && io.open {
      var q := OpenSegment(f.part, SegOf(h), true).part;
      FreshFile(p, SegOf(h), io);
      FreshFileWrite(p, h, io);
      WriteAndFlushStep(q, h, io, []);
      AcceptedIff(q, h, io);
      assert [] + [h] == [h];
    }
  }

  lemma FreshFile(p: Part, s: SegNo, io: Io)
    requires Emptied(ViewOfPart(p)) && p.w.fd == Open(false) && s != 0 && Flush(p, io.switchFlush).ok
    ensures var q := OpenSegment(Flush(p, io.switchFlush).part, s, true).part;
            Represents(q, []) && q.w.pending == [] && q.w.fd == Open(true) && q.w.seg == s && q.w.last == p.w.last
  {
    var q := OpenSegment(Flush(p, io.switchFlush).part, s, true).part;
    assert q.dir == map[s := []];
    assert Content(q) == map[];
  }

  lemma FreshFileWrite(p: Part, h: Header, io: Io)
    requires p.w.seg != 0 && SegOf(h) != p.w.seg && Flush(p, io.switchFlush).ok && io.open
    requires OpenSegment(Flush(p, io.switchFlush).part, SegOf(h), true).part.w.pending == []
    ensures var q := OpenSegment(Flush(p, io.switchFlush).part, SegOf(h), true).part;
            WriteAndFlush(p, h, io) == WriteAndFlush(q, h, io)
  {
    var q := OpenSegment(Flush(p, io.switchFlush).part, SegOf(h), true).part;
    assert Position(p, SegOf(h), io) == Outcome(q, true) == Position(q, SegOf(h), io);
  }

  // Record 1 makes the loop start the writer from scratch.
  lemma DanglingFirst(p: Part, h: Header, io: Io)
    requires p.dir == map[] && p.w.last > 0 && h.partitionLsn == 1
    ensures var r := ViewOfPart(DemuxOne(p, h, io)); Sound(r, []) || Sound(r, [h])
  {
    assert TailPeek(map[]) == 0;
    assert DetectReset(p, h) == CLEAN == DetectReset(CLEAN, h);
    assert Content(CLEAN) == map[];
    DemuxOneSafe(CLEAN, h, io, []);
    assert [] + [h] == [h];
  }

  /** Whatever arrives at a writer whose file was unlinked, in any order and with any faults,
      the directory ends up empty or with exactly the accepted record. */
  lemma DanglingRecord(v: View, h: Header, io: Io, pid: nat)
    requires Emptied(v) && v.slot.Some? && v.slot.value.fd == Open(false)
    ensures var r := HandleOne(v, Rec(h, io, true), pid); SoundAt(r, Restarted(r, h))
  {
    var p := PartOf(v);
    assert TailPeek(map[]) == 0;
    DemuxKeepsTouched(p, h, io);
    if h.partitionLsn == 1 {
      DanglingFirst(p, h, io);
    } else {
      var q := Unstall(p, h);
      if h.partitionLsn > q.w.last {
        if SegOf(h) == q.w.seg {
          DanglingSameSegment(q, h, io);
        } else {
          DanglingNewSegment(q, h, io);
        }
      } else {
        assert HandleOne(v, Rec(h, io, true), pid) == ViewOfPart(q);
      }
    }
  }

  // The accepted sequence after an event, resets included.
  ghost function SoundAtAfter(v: View, e: Event, acc: seq<Header>, pid: nat): seq<Header> {
    if Sound(v, acc) then SoundAfter(v, e, acc)
    else if e.Rec? then Restarted(HandleOne(v, e, pid), e.h)
    else []
  }

  lemma SoundAtStep(v: View, e: Event, acc: seq<Header>, pid: nat)
    requires SoundAt(v, acc)
    ensures SoundAt(HandleOne(v, e, pid), SoundAtAfter(v, e, acc, pid))
    ensures forall r :: r in SoundAtAfter(v, e, acc, pid) ==> r in acc || (e.Rec? && r == e.h)
  {
    if Sound(v, acc) {
      SoundStep(v, e, acc, pid);
      TouchedStep(v, e, acc, pid);
    } else {
      EmptiedUnsound(v);
      match e {
        case Rec(h, io, create) => DanglingRecord(v, h, io, pid);
        case Flushes(_) =>
      }
    }
  }

  lemma TouchedStep(v: View, e: Event, acc: seq<Header>, pid: nat)
    requires SoundAt(v, acc) && Sound(v, acc)
    ensures var r := HandleOne(v, e, pid); r.slot.Some? ==> Touched(r.slot.value)
  {
    if e.Rec? && (v.slot.Some? || e.create) {
      if v.slot.Some? {
        DemuxKeepsTouched(PartOf(v), e.h, e.io);
      } else {
        DemuxKeepsTouched(PartOf(WithWriter(v)), e.h, e.io);
      }
    }
  }

  // Only a dangling descriptor stands between an emptied directory and the empty log.
  lemma EmptiedUnsound(v: View)
    requires Emptied(v) && !Sound(v, [])
    ensures v.slot.Some? && v.slot.value.fd == Open(false)
  {
    assert NonEmpty(v.dir) == map[];
    assert v.slot.Some? && v.slot.value.fd.Closed? ==> Content(PartOf(v)) == map[];
  }

  lemma FollowsFlush(v: View, l: seq<Header>, from: nat, bad: set<nat>, pid: nat)
    requires Follows(v, l, from)
    ensures var r := HandleOne(v, Flushes(bad), pid);
            && Follows(r, l, from) && TailPeek(v.dir) <= TailPeek(r.dir)
            && (pid !in bad ==> Drained(r))
            && (TailPeek(v.dir) == |l| ==> TailPeek(r.dir) == |l|)
  {
    if v.slot.Some? && Synced(v, l, from) {
      FlushCarries(PartOf(v), pid !in bad, l, from);
    }
  }

  lemma FollowsNoWriter(v: View, l: seq<Header>, from: nat)
    requires Follows(v, l, from) && Drained(v)
    ensures Synced(v.(slot := None), l, from)
  {
    FollowsInOrder(v, l, from);
    DrainedOnDisk(v, l, from);
  }

  // ---- cleanup ----

  // The highest file with records survives, and so does a file buffered records wait for.
  ghost predicate CleanKeeps(v: View, keepPtr: nat) {
    && (NonEmpty(v.dir) == map[] || Survives(MaxKey(NonEmpty(v.dir).Keys), keepPtr))
    && (Buffered(v) != [] ==> Survives(v.slot.value.seg, keepPtr))
  }

  // What the worker holds for a partition and can still write to its directory.
  function Buffered(v: View): seq<Header> {
    if v.slot.Some? && v.slot.value.fd == Open(true) then v.slot.value.pending else []
  }

  lemma TopOfHeld(d: Dir, l: seq<Header>, from: nat)
    requires Holds(d, l, from) && InOrder(l) && TailPeek(d) > 0
    ensures NonEmpty(d) != map[] && MaxKey(NonEmpty(d).Keys) == SegOf(l[TailPeek(d) - 1])
  {
    HoldsSome(d, l, from);
    var m := TailPeek(d);
    InOrderRange(l, from, m);
    LastOfRange(l, from, m);
    TopOfSplit(l[from..m]);
  }

  lemma LastOfRange(l: seq<Header>, from: nat, m: nat)
    requires from < m <= |l|
    ensures l[from..m] != [] && l[from..m][|l[from..m]| - 1] == l[m - 1]
  {
  }

  // Cleanup below the last record on disk: the rest of the log stays, with its watermark.
  lemma HoldsCleaned(d: Dir, l: seq<Header>, from: nat, keepPtr: nat) returns (after: nat)
    requires Holds(d, l, from) && InOrder(l)
    requires NonEmpty(d) == map[] || Survives(MaxKey(NonEmpty(d).Keys), keepPtr)
    ensures TailPeek(Cleaned(d, keepPtr)) == TailPeek(d) && Holds(Cleaned(d, keepPtr), l, after)
    ensures from <= after && |Log(d)| == TailPeek(d) - from && |Log(Cleaned(d, keepPtr))| == TailPeek(d) - after
  {
    var m := TailPeek(d);
    InOrderRange(l, from, m);
    LastHeldSurvives(d, l, from, keepPtr);
    var j := CleanedRange(d, l[from..m], keepPtr);
    after := from + j;
    assert l[from..m][j..] == l[after..m];
  }

  lemma LastHeldSurvives(d: Dir, l: seq<Header>, from: nat, keepPtr: nat)
    requires Holds(d, l, from) && InOrder(l)
    requires NonEmpty(d) == map[] || Survives(MaxKey(NonEmpty(d).Keys), keepPtr)
    ensures from < TailPeek(d) ==> Survives(SegOf(l[from..TailPeek(d)][TailPeek(d) - from - 1]), keepPtr)
  {
    if from < TailPeek(d) {
      TopOfHeld(d, l, from);
      LastOfRange(l, from, TailPeek(d));
    }
  }

  lemma CleanedRange(d: Dir, a: seq<Header>, keepPtr: nat) returns (j: nat)
    requires NonEmpty(d) == Split(a) && SegMonotone(a) && Increasing(a)
    requires a != [] ==> Survives(SegOf(a[|a| - 1]), keepPtr)
    ensures j <= |a| && TailPeek(Cleaned(d, keepPtr)) == TailPeek(d) && NonEmpty(Cleaned(d, keepPtr)) == Split(a[j..])
    ensures |Log(d)| == |a| && |Log(Cleaned(d, keepPtr))| == |a| - j
  {
    j := CleanupSafety(d, a, keepPtr);
    CleanedHeld(d, a, keepPtr, j);
    LogIgnoresEmpty(d);
    LogOfSplit(a);
  }

  lemma CleanedHeld(d: Dir, a: seq<Header>, keepPtr: nat, j: nat)
    requires NonEmpty(d) == Split(a) && SegMonotone(a) && Increasing(a) && j <= |a|
    requires Log(Cleaned(d, keepPtr)) == a[j..]
    ensures NonEmpty(Cleaned(d, keepPtr)) == Split(a[j..])
  {
    CleanedFiles(d, a, keepPtr);
    var i := KeptSuffix(a, keepPtr);
    SuffixOrdered(a, i);
    LogIgnoresEmpty(Cleaned(d, keepPtr));
    LogOfSplit(a[i..]);
  }

  lemma OpenFileSurvives(v: View, l: seq<Header>, from: nat, keepPtr: nat)
    requires Synced(v, l, from) && v.slot.Some? && v.slot.value.fd.Open? && CleanKeeps(v, keepPtr)
    ensures Survives(v.slot.value.seg, keepPtr)
  {
    if Buffered(v) == [] {
      TopOfHeld(v.dir, l, from);
    }
  }

  // A cleanup that removes neither the highest file with records nor a file that buffered
  // records wait for: watermark and writer go on as if nothing had happened.
  lemma FollowsClean(v: View, l: seq<Header>, from: nat, keepPtr: nat) returns (after: nat)
    requires Follows(v, l, from) && CleanKeeps(v, keepPtr)
    ensures Follows(CleanView(v, keepPtr), l, after) && TailPeek(Cleaned(v.dir, keepPtr)) == TailPeek(v.dir)
    ensures from <= after && |Log(v.dir)| - |Log(Cleaned(v.dir, keepPtr))| == after - from
  {
    FollowsInOrder(v, l, from);
    after := HoldsCleaned(v.dir, l, from, keepPtr);
    if Synced(v, l, from) {
      if v.slot.Some? && v.slot.value.fd.Open? {
        OpenFileSurvives(v, l, from, keepPtr);
      }
    } else {
      assert Cleaned(v.dir, keepPtr) == map[];
    }
  }

  /** Cleanup keeps a partition in step exactly when it removes neither the highest file
      with records nor a file that buffered records wait for. */
  lemma CleanKeepsIff(v: View, l: seq<Header>, from: nat, keepPtr: nat)
    requires Follows(v, l, from)
    ensures (exists after :: Follows(CleanView(v, keepPtr), l, after)) <==> CleanKeeps(v, keepPtr)
  {
    if CleanKeeps(v, keepPtr) {
      var after := FollowsClean(v, l, from, keepPtr);
    } else if exists after :: Follows(CleanView(v, keepPtr), l, after) {
      var after :| Follows(CleanView(v, keepPtr), l, after);
      CleanedTooFar(v, l, from, keepPtr, after);
    }
  }

  lemma CleanedTooFar(v: View, l: seq<Header>, from: nat, keepPtr: nat, after: nat)
    requires Follows(v, l, from) && Follows(CleanView(v, keepPtr), l, after)
    ensures CleanKeeps(v, keepPtr)
  {
    FollowsInOrder(v, l, from);
    SameWatermark(v, l, from, keepPtr, after);
    TopSurvives(v.dir, l, from, keepPtr);
    if l == [] {
      BufferedRest(v, l, from);
    }
  }

  lemma SameWatermark(v: View, l: seq<Header>, from: nat, keepPtr: nat, after: nat)
    requires Follows(v, l, from) && Follows(CleanView(v, keepPtr), l, after)
    ensures TailPeek(Cleaned(v.dir, keepPtr)) == TailPeek(v.dir)
  {
    FollowsInOrder(v, l, from);
    FollowsInOrder(CleanView(v, keepPtr), l, after);
  }

  // The watermark stays only if the highest file with records does.
  lemma TopSurvives(d: Dir, l: seq<Header>, from: nat, keepPtr: nat)
    requires Holds(d, l, from) && InOrder(l) && TailPeek(Cleaned(d, keepPtr)) == TailPeek(d)
    ensures NonEmpty(d) == map[] || Survives(MaxKey(NonEmpty(d).Keys), keepPtr)
  {
    var m := TailPeek(d);
    InOrderRange(l, from, m);
    var j := CleanupSafety(d, l[from..m], keepPtr);
    if m > 0 {
      TopOfHeld(d, l, from);
      HoldsSome(d, l, from);
      LastOfRange(l, from, m);
    } else {
      assert l[from..m] == [];
    }
  }

  // ---- what is on disk ----

  lemma HeldLog(d: Dir, l: seq<Header>, from: nat)
    requires Holds(d, l, from) && InOrder(l)
    ensures Log(d) == l[from..TailPeek(d)]
  {
    InOrderRange(l, from, TailPeek(d));
    LogIgnoresEmpty(d);
    LogOfSplit(l[from..TailPeek(d)]);
  }

  lemma FollowedLog(v: View, l: seq<Header>, from: nat)
    requires Follows(v, l, from)
    ensures from <= |l| && Log(v.dir) + Buffered(v) == l[from..]
    ensures Drained(v) ==> Log(v.dir) == l[from..]
  {
    FollowsInOrder(v, l, from);
    HeldLog(v.dir, l, from);
    DrainedOnDisk(v, l, from);
    BufferedRest(v, l, from);
    RangeParts(l, from, TailPeek(v.dir));
  }

  lemma RangeParts(l: seq<Header>, from: nat, m: nat)
    requires from <= m <= |l|
    ensures l[from..m] + l[m..] == l[from..] && (m == |l| ==> l[from..m] == l[from..])
  {
  }

  lemma BufferedRest(v: View, l: seq<Header>, from: nat)
    requires Follows(v, l, from)
    ensures TailPeek(v.dir) <= |l| && Buffered(v) == l[TailPeek(v.dir)..]
  {
    if !Synced(v, l, from) {
      assert TailPeek(map[]) == 0;
    }
  }

  lemma HeldLonger(d: Dir, l: seq<Header>, from: nat, full: seq<Header>)
    requires Holds(d, l, from) && l <= full
    ensures Holds(d, full, from)
  {
    assert full[from..TailPeek(d)] == l[from..TailPeek(d)];
  }
}
