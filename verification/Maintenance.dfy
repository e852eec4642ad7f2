/** ResetPartitionWALState as one partition of the worker sees it. */
module Maintenance {
  import opened Header
  import opened SegmentDir
  import opened WriterSpec
  import opened Demux
  import opened InStep

  // ---- reset, worker side ----

  function RecordsOf(es: seq<Event>): seq<Header> {
    if es == [] then [] else (if es[0].Rec? then [es[0].h] else []) + RecordsOf(es[1..])
  }

  // Every record finds a writer slot and has its write accepted; flushes may fail.
  ghost predicate AcceptedRun(v: View, es: seq<Event>, pid: nat)
    decreases |es|
  {
    es == []
    || ((es[0].Rec? ==> es[0].create && Accepts(v, es[0].h, es[0].io))
        && AcceptedRun(HandleOne(v, es[0], pid), es[1..], pid))
  }

  ghost predicate NoFlushFails(es: seq<Event>) {
    forall i :: 0 <= i < |es| && es[i].Rec? ==> es[i].io.flush
  }

  lemma NextOf(l: seq<Header>, h: Header, rest: seq<Header>)
    requires InOrder(l + ([h] + rest))
    ensures l + ([h] + rest) == (l + [h]) + rest
    ensures h.partitionLsn == |l| + 1 && InOrder(l + [h])
  {
    var full := l + ([h] + rest);
    assert full == (l + [h]) + rest;
    assert full[..|l| + 1] == l + [h] && full[|l|] == h;
    InOrderPrefix(full, |l| + 1);
  }

  lemma {:induction false} FollowsRun(v: View, l: seq<Header>, from: nat, es: seq<Event>, pid: nat)
    requires Follows(v, l, from) && AcceptedRun(v, es, pid) && InOrder(l + RecordsOf(es))
    ensures Follows(RunOne(v, es, pid), l + RecordsOf(es), from)
    ensures Drained(v) && NoFlushFails(es) ==> Drained(RunOne(v, es, pid))
    decreases |es|
  {
    if es == [] {
      assert l + RecordsOf(es) == l;
    } else {
      var w := HandleOne(v, es[0], pid);
      var rest := RecordsOf(es[1..]);
      match es[0] {
        case Rec(h, io, _) =>
          assert RecordsOf(es) == [h] + rest;
          NextOf(l, h, rest);
          FollowsRecord(v, l, from, h, io, pid);
          FollowsRun(w, l + [h], from, es[1..], pid);
        case Flushes(bad) =>
          assert RecordsOf(es) == rest;
          FollowsFlush(v, l, from, bad, pid);
          DrainedOnDisk(v, l, from);
          DrainedOnDisk(w, l, from);
          FollowsRun(w, l, from, es[1..], pid);
      }
    }
  }

  /** Reset protocol, worker side: when the worker had consumed every earlier record, then
      after a reset and any n new in-order records, with flushes of any outcome in between,
      directory plus buffer hold exactly those n records -- despite the stale watermark,
      stale buffer and dangling descriptor of the old writer -- and the directory alone
      does unless a failed flush still holds some back. */
  lemma ResetThenExactly(v: View, es: seq<Event>, pid: nat)
    requires v.slot.Some? ==> WriterOk(v.slot.value) && Touched(v.slot.value)
    requires AcceptedRun(ResetView(v), es, pid) && InOrder(RecordsOf(es))
    ensures var r := RunOne(ResetView(v), es, pid);
            && Log(r.dir) + Buffered(r) == RecordsOf(es)
            && (Drained(r) || NoFlushFails(es) ==> Log(r.dir) == RecordsOf(es))
  {
    assert [] + RecordsOf(es) == RecordsOf(es);
    FollowsRun(ResetView(v), [], 0, es, pid);
    FollowedLog(RunOne(ResetView(v), es, pid), RecordsOf(es), 0);
  }

  // ---- an old record read after the reset ----

  // The leftover finds no writer, restarts one, or gets a new file.
  ghost predicate Harmful(v: View, h: Header) {
    || v.slot.None?
    || h.partitionLsn == 1
    || (h.partitionLsn > v.slot.value.last && (v.slot.value.fd.Closed? || SegOf(h) != v.slot.value.seg))
  }

  lemma HarmlessStaysEmptied(v: View, h: Header, pid: nat)
    requires Emptied(v) && h.partitionLsn >= 1 && !Harmful(v, h)
    ensures Emptied(HandleOne(v, Rec(h, ALL_OK, true), pid))
  {
    var p := PartOf(v);
    assert TailPeek(map[]) == 0;
    var q := Unstall(p, h);
    if h.partitionLsn > q.w.last {
      DanglingSameSegment(q, h, ALL_OK);
    }
  }

  lemma HarmfulTakesOver(v: View, h: Header, pid: nat)
    requires Emptied(v) && h.partitionLsn >= 1 && Harmful(v, h)
    ensures var r := HandleOne(v, Rec(h, ALL_OK, true), pid);
            && r.slot.Some? && Represents(PartOf(r), [h])
            && r.slot.value.pending == [] && r.slot.value.last == h.partitionLsn
  {
    assert [] + [h] == [h];
    assert TailPeek(map[]) == 0 && NonEmpty(v.dir) == map[];
    if v.slot.None? {
      assert Represents(PartOf(WithWriter(v)), []) by {
        assert Content(PartOf(WithWriter(v))) == map[];
      }
      DemuxFresh(PartOf(WithWriter(v)), h, []);
    } else {
      HarmfulWriter(PartOf(v), h);
    }
  }

  lemma HarmfulWriter(p: Part, h: Header)
    requires Emptied(ViewOfPart(p)) && h.partitionLsn >= 1 && Harmful(ViewOfPart(p), h)
    ensures var r := DemuxOne(p, h, ALL_OK);
            Represents(r, [h]) && r.w.pending == [] && r.w.last == h.partitionLsn
  {
    assert [] + [h] == [h];
    assert TailPeek(map[]) == 0 && NonEmpty(p.dir) == map[];
    if h.partitionLsn == 1 && p.w.last > 0 {
      assert DetectReset(p, h) == CLEAN == DetectReset(CLEAN, h);
      assert Content(CLEAN) == map[];
      DemuxFresh(CLEAN, h, []);
    } else if p.w.fd.Closed? {
      assert Content(p) == map[];
      DemuxFresh(p, h, []);
    } else {
      HarmfulNewFile(p, h);
    }
  }

  lemma HarmfulNewFile(p: Part, h: Header)
    requires Emptied(ViewOfPart(p)) && p.w.fd == Open(false)
    requires h.partitionLsn > p.w.last && SegOf(h) != p.w.seg && h.partitionLsn != 1
    ensures var r := DemuxOne(p, h, ALL_OK);
            Represents(r, [h]) && r.w.pending == [] && r.w.last == h.partitionLsn
  {
    assert [] + [h] == [h];
    assert TailPeek(map[]) == 0;
    SegOfPositive(h);
    var q := Unstall(p, h);
    FreshFile(q, SegOf(h), ALL_OK);
    FreshFileWrite(q, h, ALL_OK);
    WriteAndFlushStep(OpenSegment(Flush(q, true).part, SegOf(h), true).part, h, ALL_OK, []);
  }

  /** The exact condition: without faults, an old record read after the reset leaves the
      directory empty if and only if a writer is left and the record is neither LSN 1 nor
      one above the watermark that gets a file of its own. */
  lemma LeftoverIff(v: View, h: Header, pid: nat)
    requires Emptied(v) && h.partitionLsn >= 1
    ensures NonEmpty(HandleOne(v, Rec(h, ALL_OK, true), pid).dir) == map[] <==> !Harmful(v, h)
  {
    if Harmful(v, h) {
      HarmfulTakesOver(v, h, pid);
      var r := HandleOne(v, Rec(h, ALL_OK, true), pid);
      assert Content(PartOf(r)) == NonEmpty(r.dir);
      SplitShape([h]);
    } else {
      HarmlessStaysEmptied(v, h, pid);
    }
  }

  /** And the new record 1 that follows makes the directory exactly itself in just those
      cases -- or when it is the old record over again. */
  lemma FirstAfterLeftoverIff(v: View, h: Header, one: Header, pid: nat)
    requires Emptied(v) && h.partitionLsn >= 1 && one.partitionLsn == 1
    ensures var r := RunOne(v, [Rec(h, ALL_OK, true), Rec(one, ALL_OK, true)], pid);
            NonEmpty(r.dir) == Split([one]) <==> !Harmful(v, h) || h == one
  {
    var es := [Rec(h, ALL_OK, true), Rec(one, ALL_OK, true)];
    var r := HandleOne(v, es[0], pid);
    assert es[1..] == [es[1]] && es[1..][1..] == [];
    assert RunOne(v, es, pid) == RunOne(r, es[1..], pid) == HandleOne(r, es[1], pid);
    if Harmful(v, h) {
      HarmfulTakesOver(v, h, pid);
      DroppedOne(PartOf(r), h, one);
      LogOfSplit([h]);
      LogOfSplit([one]);
    } else {
      HarmlessStaysEmptied(v, h, pid);
      FirstAccepted(r, one, pid);
    }
  }

  lemma DroppedOne(p: Part, h: Header, one: Header)
    requires Represents(p, [h]) && p.w.pending == [] && p.w.last == h.partitionLsn >= 1 && one.partitionLsn == 1
    ensures NonEmpty(DemuxOne(p, one, ALL_OK).dir) == Split([h])
  {
    NotResetAfter(p, [h]);
    AddedIff(p, one, [h]);
    NoPendingAfterDrop(p, one);
    assert Content(p) == NonEmpty(p.dir);
  }

  lemma FirstAccepted(v: View, one: Header, pid: nat)
    requires Emptied(v) && one.partitionLsn == 1
    ensures NonEmpty(HandleOne(v, Rec(one, ALL_OK, true), pid).dir) == Split([one])
  {
    assert [] + [one] == [one];
    FollowsRecord(v, [], 0, one, ALL_OK, pid);
    var r := HandleOne(v, Rec(one, ALL_OK, true), pid);
    DrainedOnDisk(r, [one], 0);
    assert [one][0..1] == [one];
  }

  /** The hypothesis matters: an old record read after the reset makes the worker drop the
      new record 1. */
  lemma LeftoverDefeatsReset()
    ensures var old6 := Header(PARTWAL_MAGIC, 7, 1, 6, 1);
            var new1 := Header(PARTWAL_MAGIC, 7, 1, 1, 1);
            var v := View(map[], Some(Writer(Closed, 0, [], 5, false)));
            Emptied(v)
            && var r := RunOne(v, [Rec(old6, ALL_OK, true), Rec(new1, ALL_OK, true)], 7);
               NonEmpty(r.dir) == Split([old6])
  {
    var old6 := Header(PARTWAL_MAGIC, 7, 1, 6, 1);
    var new1 := Header(PARTWAL_MAGIC, 7, 1, 1, 1);
    var v := View(map[], Some(Writer(Closed, 0, [], 5, false)));
    var es := [Rec(old6, ALL_OK, true), Rec(new1, ALL_OK, true)];
    var p := PartOf(v);
    assert Content(p) == map[];
    DemuxFresh(p, old6, []);
    assert [] + [old6] == [old6];
    var q := DemuxOne(p, old6, ALL_OK);
    assert Content(q) == NonEmpty(q.dir);
    TailPeekOrdered(q.dir, [old6]);
    AddedIff(q, new1, [old6]);
    var r := HandleOne(v, es[0], 7);
    assert r == ViewOfPart(q);
    NoPendingAfterDrop(q, new1);
    assert es[1..] == [es[1]] && es[1..][1..] == [];
    assert RunOne(v, es, 7) == RunOne(r, es[1..], 7) == HandleOne(r, es[1], 7);
  }

  lemma NoPendingAfterDrop(p: Part, h: Header)
    requires p.w.pending == [] && h.partitionLsn <= p.w.last && !ResetSeen(p, h)
    ensures var r := DemuxOne(p, h, ALL_OK); r.dir == p.dir && r.w.pending == []
  {
  }
}
