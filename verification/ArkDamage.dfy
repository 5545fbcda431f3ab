/** Rot: sectors of the log that no longer pass their checks.  Mount resynchronises past
    damaged headers and shows the last commit that is still intact; a read returns the
    bytes that were written or an error. */
module ArkDamage {
  import opened Wrappers
  import opened ArkFormat
  import opened ArkLog
  import opened ArkCrash
  import opened ArkLibrary
  import opened ArkCompaction
  import opened ArkHistory

  /** The resync assumption in full: no payload sector of the log decodes as a header of
      this epoch. */
  ghost predicate Resyncs(f: Format, m: Media, e: nat, start: nat, recs: seq<Rec>) {
    forall i, q {:trigger Pos(start, recs, i), HdrAt(f, m, q)} ::
      0 <= i < |recs| && Pos(start, recs, i) < q < Pos(start, recs, i) + Span(recs[i]) && q < |m| ==>
        HdrAt(f, m, q).None? || HdrAt(f, m, q).value.epoch != e
  }

  /** No sector that begins with a chunk of this payload decodes as a header of epoch e. */
  ghost predicate Unlike(f: Format, e: nat, p: Bytes) {
    forall i, d :: 0 <= i < Sectors(|p|) && Take(d, |Chunk(p, i)|) == Chunk(p, i) ==> f.decHdr(d).None? || f.decHdr(d).value.epoch != e
  }

  /** The resync assumption from the payloads alone. */
  lemma {:induction false} LaidResyncs(f: Format, m: Media, e: nat, start: nat, recs: seq<Rec>)
    requires Laid(f, m, e, start, recs) && forall i :: 0 <= i < |recs| ==> Unlike(f, e, recs[i].payload)
    ensures Resyncs(f, m, e, start, recs)
  {
    hide Spans, Gather, Unlike, Pos;
    forall i, q {:trigger Pos(start, recs, i), HdrAt(f, m, q)} | 0 <= i < |recs| && Pos(start, recs, i) < q < Pos(start, recs, i) + Span(recs[i]) && q < |m|
      ensures HdrAt(f, m, q).None? || HdrAt(f, m, q).value.epoch != e
    {
      assert RecAt(f, m, e, Pos(start, recs, i), recs[i]);
      InsideUnlike(f, m, e, Pos(start, recs, i), recs[i], q);
    }
  }

  lemma {:induction false} InsideUnlike(f: Format, m: Media, e: nat, pos: nat, r: Rec, q: nat)
    requires RecAt(f, m, e, pos, r) && Unlike(f, e, r.payload) && pos < q < pos + Span(r)
    ensures q < |m| && (HdrAt(f, m, q).None? || HdrAt(f, m, q).value.epoch != e)
  {
    var body, j := pos + 1, q - pos - 1;
    GatherIsHolds(m, body, r.payload);
    assert ChunkAt(m, body, r.payload, j);
  }

  /** m' is m after damage to any sectors: superblock copies, dead front, log, free space.  A
      damaged sector of the log [start, head) is no longer a header that verifies, and behind
      the log the damage has not forged a commit of epoch e. */
  ghost predicate Damaged(f: Format, m: Media, m': Media, e: nat, start: nat, head: nat) {
    && |m'| == |m|
    && (forall q :: start <= q < head && q < |m| && m'[q] != m[q] ==> HdrAt(f, m', q).None?)
    && (forall q :: head <= q < End(m) ==> !ValidCommit(f, m', e, q))
  }

  /** Record i still reads back. */
  ghost predicate Good(f: Format, m: Media, e: nat, start: nat, recs: seq<Rec>, i: nat)
    requires i < |recs|
  {
    RecAt(f, m, e, Pos(start, recs, i), recs[i])
  }

  /** How many records of the first i reach up to the last intact commit. */
  ghost function LastGood(f: Format, m: Media, e: nat, start: nat, recs: seq<Rec>, i: nat): (k: nat)
    requires i <= |recs|
    ensures k <= i
  {
    if i == 0 then 0
    else if recs[i - 1].kind == REC_COMMIT && Good(f, m, e, start, recs, i - 1) then i
    else LastGood(f, m, e, start, recs, i - 1)
  }

  lemma {:induction false} LastGoodIs(f: Format, m: Media, e: nat, start: nat, recs: seq<Rec>, i: nat)
    requires i <= |recs|
    ensures var k := LastGood(f, m, e, start, recs, i);
            && (k > 0 ==> recs[k - 1].kind == REC_COMMIT && Good(f, m, e, start, recs, k - 1))
            && forall j :: k <= j < i && recs[j].kind == REC_COMMIT ==> !Good(f, m, e, start, recs, j)
    decreases i
  {
    hide Good;
    if i > 0 { LastGoodIs(f, m, e, start, recs, i - 1); }
  }

  // ---------------------------------------------------------------- one record under damage

  /** Reading at a record's position after damage: intact, or its header with a payload that
      fails, or nothing. */
  lemma {:induction false} DamagedRead(f: Format, m: Media, m': Media, e: nat, pos: nat, r: Rec, start: nat, head: nat)
    requires f.Injective() && RecAt(f, m, e, pos, r) && Damaged(f, m, m', e, start, head) && start <= pos < head
    ensures var rd := ReadRec(f, m', e, pos);
            || (RecAt(f, m', e, pos, r) && rd == GoodRead(f, e, r))
            || (!RecAt(f, m', e, pos, r) && rd.Record? && rd.h == HdrOf(f, e, r) && !rd.ok)
            || (!RecAt(f, m', e, pos, r) && rd.NoRecord?)
  {
    if m'[pos] == m[pos] {
      assert HdrAt(f, m', pos) == Some(HdrOf(f, e, r));
    } else {
      assert HdrAt(f, m', pos).None?;
    }
  }

  /** Inside a record the scan finds no header, damaged or not. */
  lemma {:induction false} DamagedInside(f: Format, m: Media, m': Media, e: nat, start: nat, recs: seq<Rec>, head: nat, i: nat, q: nat)
    requires Resyncs(f, m, e, start, recs) && Damaged(f, m, m', e, start, head)
    requires i < |recs| && start <= Pos(start, recs, i) < q < Pos(start, recs, i) + Span(recs[i]) && q < |m| && q < head
    ensures ReadRec(f, m', e, q).NoRecord?
  {
    hide Spans, Pos;
    if m'[q] == m[q] {
      assert HdrAt(f, m', q) == HdrAt(f, m, q);
      var p := Pos(start, recs, i);
    } else {
      assert HdrAt(f, m', q).None?;
    }
  }

  lemma {:induction false} SkipNone(rd: View, end: int, a: nat, b: nat, acc: nat)
    requires a <= b <= end && forall q :: a <= q < b ==> rd(q).NoRecord?
    ensures LastCommitEnd(rd, end, a, acc) == LastCommitEnd(rd, end, b, acc)
    decreases b - a
  {
    if a < b { SkipNone(rd, end, a + 1, b, acc); }
  }

  lemma {:induction false} SkipReplay(f: Format, rd: View, cap: nat, stop: nat, a: nat, b: nat, c: Core)
    requires a <= b <= stop && forall q :: a <= q < b ==> rd(q).NoRecord?
    ensures Replay(f, rd, cap, stop, a, c) == Replay(f, rd, cap, stop, b, c)
    decreases b - a
  {
    if a < b { SkipReplay(f, rd, cap, stop, a + 1, b, c); }
  }

  /** What the scan of the damaged medium meets for record i: three cases over the view. */
  ghost predicate Meets(f: Format, rd: View, e: nat, pos: nat, r: Rec, good: bool) {
    || (good && rd(pos) == GoodRead(f, e, r))
    || (!good && rd(pos).Record? && rd(pos).h == HdrOf(f, e, r) && rd(pos).ps == Sectors(|r.payload|) && !rd(pos).ok)
    || (!good && forall q :: pos <= q < pos + Span(r) ==> rd(q).NoRecord?)
  }

  lemma {:induction false} MeetsRecord(f: Format, m: Media, m': Media, e: nat, start: nat, recs: seq<Rec>, i: nat)
    requires f.Injective() && LogInv(f, m, e, start, recs) && Resyncs(f, m, e, start, recs)
    requires Damaged(f, m, m', e, start, start + Spans(recs)) && i < |recs|
    ensures Meets(f, ViewOf(f, m', e), e, Pos(start, recs, i), recs[i], Good(f, m', e, start, recs, i))
  {
    hide Resyncs, Damaged, Spans, ReadRec, CommitHdrAt, ValidCommit, Format.Injective, Pos;
    var pos, r := Pos(start, recs, i), recs[i];
    PosZero(start, recs);
    PosMono(start, recs, 0, i);
    PosMono(start, recs, i, |recs|);
    PosEnd(start, recs);
    assert RecAt(f, m, e, pos, r);
    DamagedRead(f, m, m', e, pos, r, start, start + Spans(recs));
    forall q | pos < q < pos + Span(r) ensures ReadRec(f, m', e, q).NoRecord? {
      DamagedInside(f, m, m', e, start, recs, start + Spans(recs), i, q);
    }
  }

  // ---------------------------------------------------------------- the scan under damage

  lemma {:induction false} ScanMeets(f: Format, rd: View, e: nat, end: int, pos: nat, r: Rec, good: bool, acc: nat)
    requires Meets(f, rd, e, pos, r, good) && pos + Span(r) <= end
    ensures LastCommitEnd(rd, end, pos, acc)
         == LastCommitEnd(rd, end, pos + Span(r), if good && r.kind == REC_COMMIT then pos + Span(r) else acc)
  {
    if rd(pos).NoRecord? { SkipNone(rd, end, pos, pos + Span(r), acc); }
  }

  lemma {:induction false} ScanDamaged(f: Format, m: Media, m': Media, e: nat, start: nat, recs: seq<Rec>, i: nat)
    requires f.Injective() && LogInv(f, m, e, start, recs) && Resyncs(f, m, e, start, recs)
    requires Damaged(f, m, m', e, start, start + Spans(recs)) && i <= |recs|
    ensures LastCommitEnd(ViewOf(f, m', e), End(m), start, start)
         == LastCommitEnd(ViewOf(f, m', e), End(m), Pos(start, recs, i), Pos(start, recs, LastGood(f, m', e, start, recs, i)))
  {
    hide Resyncs, Damaged, LogInv, Format.Injective, LastCommitEnd, Meets, Good, ViewOf, Spans, Pos;
    PosZero(start, recs);
    if i > 0 {
      var rd, j := ViewOf(f, m', e), i - 1;
      ScanDamaged(f, m, m', e, start, recs, j);
      MeetsRecord(f, m, m', e, start, recs, j);
      PosNext(start, recs, j);
      LogBounds(f, m, e, start, recs);
      PosMono(start, recs, i, |recs|);
      PosEnd(start, recs);
      ScanMeets(f, rd, e, End(m), Pos(start, recs, j), recs[j], Good(f, m', e, start, recs, j),
                Pos(start, recs, LastGood(f, m', e, start, recs, j)));
    }
  }

  /** The state replay has rebuilt after i records, when only intact commits count. */
  ghost predicate Rebuilt(f: Format, m: Media, e: nat, start: nat, recs: seq<Rec>, i: nat, c: Core)
    requires i <= |recs|
  {
    var k := LastGood(f, m, e, start, recs, i);
    if k == 0 then c.live == [] && c.mroot == f.zero
    else
      && c.live == TableOf(f, recs[k - 1].payload)
      && (f.decCommit(recs[k - 1].payload).Some? ==> c.mroot == f.decCommit(recs[k - 1].payload).value.mroot)
  }

  lemma {:induction false} ReplayMeets(f: Format, rd: View, e: nat, cap: nat, stop: nat, pos: nat, r: Rec, good: bool, c: Core) returns (d: Core)
    requires Meets(f, rd, e, pos, r, good) && pos + Span(r) <= stop
    ensures Replay(f, rd, cap, stop, pos, c) == Replay(f, rd, cap, stop, pos + Span(r), d)
    ensures if good && r.kind == REC_COMMIT
            then d.live == TableOf(f, r.payload) && (f.decCommit(r.payload).Some? ==> d.mroot == f.decCommit(r.payload).value.mroot)
            else d.live == c.live && d.mroot == c.mroot
  {
    if rd(pos).NoRecord? {
      SkipReplay(f, rd, cap, stop, pos, pos + Span(r), c);
      d := c;
    } else {
      d := StepCore(f, cap, c, r.kind, r.sq, f.sha(r.payload), rd(pos).payload, rd(pos).ok, pos);
    }
  }

  lemma {:induction false} ReplayDamaged(f: Format, m: Media, m': Media, e: nat, cap: nat, stop: nat, start: nat, recs: seq<Rec>, i: nat) returns (c: Core)
    requires f.Injective() && LogInv(f, m, e, start, recs) && Resyncs(f, m, e, start, recs)
    requires Damaged(f, m, m', e, start, start + Spans(recs)) && i <= |recs| && Pos(start, recs, i) <= stop
    ensures Replay(f, ViewOf(f, m', e), cap, stop, start, EmptyCore(f)) == Replay(f, ViewOf(f, m', e), cap, stop, Pos(start, recs, i), c)
    ensures Rebuilt(f, m', e, start, recs, i, c)
  {
    hide Resyncs, Damaged, LogInv, Format.Injective, Replay, Meets, Good, ViewOf, Spans, Pos;
    PosZero(start, recs);
    if i == 0 {
      c := EmptyCore(f);
    } else {
      var j := i - 1;
      PosNext(start, recs, j);
      var b := ReplayDamaged(f, m, m', e, cap, stop, start, recs, j);
      MeetsRecord(f, m, m', e, start, recs, j);
      c := ReplayMeets(f, ViewOf(f, m', e), e, cap, stop, Pos(start, recs, j), recs[j], Good(f, m', e, start, recs, j), b);
    }
  }

  /** Mounting a damaged medium shows the last commit that is still intact. */
  lemma {:induction false} DamagedMount(f: Format, s: Shot, m': Media)
    requires f.Injective() && Recoverable(f, s) && Resyncs(f, s.media, s.epoch, s.start, s.recs)
    requires Damaged(f, s.media, m', s.epoch, s.start, s.start + Spans(s.recs)) && SuperOf(f, m') == SuperOf(f, s.media)
    ensures var u := MountOf(f, m'); var k := LastGood(f, m', s.epoch, s.start, s.recs, |s.recs|);
            u.Up? && u.head == Pos(s.start, s.recs, k) && Rebuilt(f, m', s.epoch, s.start, s.recs, |s.recs|, u.core)
  {
    hide Resyncs, Damaged, Format.Injective, Replay, LastCommitEnd, Good, Spans, Pos, SuperOf, LastGood;
    var m, e, start, recs := s.media, s.epoch, s.start, s.recs;
    var rd := ViewOf(f, m', e);
    var k := LastGood(f, m', e, start, recs, |recs|);
    ScanDamaged(f, m, m', e, start, recs, |recs|);
    PosEnd(start, recs);
    DamageLocal(f, m, m', e, start, start + Spans(recs));
    forall q | start + Spans(recs) <= q < End(m) ensures !CommitIn(rd, q) { assert !ValidCommit(f, m', e, q); }
    NoCommitFrom(rd, End(m), start + Spans(recs), Pos(start, recs, k));
    var c := ReplayDamaged(f, m, m', e, CapOf(|m|), Pos(start, recs, k), start, recs, k);
    ReplayStops(f, rd, CapOf(|m|), Pos(start, recs, k), c);
    LastGoodTwice(f, m', e, start, recs, |recs|);
  }

  lemma {:induction false} ReplayStops(f: Format, rd: View, cap: nat, stop: nat, c: Core)
    ensures Replay(f, rd, cap, stop, stop, c) == c
  {
  }

  lemma {:induction false} LastGoodTwice(f: Format, m: Media, e: nat, start: nat, recs: seq<Rec>, i: nat)
    requires i <= |recs|
    ensures var k := LastGood(f, m, e, start, recs, i); LastGood(f, m, e, start, recs, k) == k
    decreases i
  {
    hide Good;
    if i > 0 && LastGood(f, m, e, start, recs, i) != i { LastGoodTwice(f, m, e, start, recs, i - 1); }
  }

  lemma {:induction false} DamageLocal(f: Format, m: Media, m': Media, e: nat, start: nat, head: nat)
    requires Damaged(f, m, m', e, start, head)
    ensures |m'| == |m| && forall q :: head <= q < End(m) ==> !ValidCommit(f, m', e, q)
  {
  }

  /** Damage to one superblock copy, or to none: the other copy is enough. */
  lemma {:induction false} OneSuperSuffices(f: Format, m: Media, m': Media, sb: Super)
    requires |m'| == |m| >= 2 && SuperIn(f, m[0]) == Some(sb) && SuperIn(f, m[|m| - 1]) == Some(sb)
    requires m'[0] == m[0] || (SuperIn(f, m'[0]).None? && m'[|m| - 1] == m[|m| - 1])
    ensures SuperOf(f, m') == SuperOf(f, m) == Some(sb)
  {
  }

  /** Commits are written twice: damage that spares one copy of the last commit leaves the
      mounted table and root as they were. */
  lemma {:induction false} OneCopySuffices(f: Format, s: Shot, m': Media, base: seq<Rec>, c1: Rec, c2: Rec, c: Commit)
    requires f.Sound() && f.Injective() && Recoverable(f, s) && Resyncs(f, s.media, s.epoch, s.start, s.recs)
    requires Damaged(f, s.media, m', s.epoch, s.start, s.start + Spans(s.recs)) && SuperOf(f, m') == SuperOf(f, s.media)
    requires Committed(s.recs) == base + [c1, c2] && f.CommitOk(c) && c1.payload == c2.payload == f.encCommit(c)
    requires c1.kind == c2.kind == REC_COMMIT
    requires Good(f, m', s.epoch, s.start, s.recs, |base|) || Good(f, m', s.epoch, s.start, s.recs, |base| + 1)
    ensures var u, v := MountOf(f, s.media), MountOf(f, m');
            u.Up? && v.Up? && v.core.live == u.core.live == c.table && v.core.mroot == u.core.mroot == c.mroot
  {
    hide Resyncs, Damaged, Format.Injective, Recoverable, Good, Spans, Pos, SuperOf, MountOf, CoreOf, LastGood, Committed;
    DamagedMount(f, s, m');
    RemountYields(f, s);
    var d := Committed(s.recs);
    assert d == (base + [c1]) + [c2];
    CommitEffect(f, CapOf(|s.media|), s.start, base + [c1], c2, c);
    CommittedSnocIs(base + [c1], c2);
    var k := LastGood(f, m', s.epoch, s.start, s.recs, |s.recs|);
    assert s.recs[|base|] == d[|base|] == c1 && s.recs[|base| + 1] == d[|base| + 1] == c2;
    LastGoodIs(f, m', s.epoch, s.start, s.recs, |s.recs|);
    assert k >= |base| + 1;
  }

  // ---------------------------------------------------------------- reads

  /** A block that reads through this index is the bytes of its id. */
  ghost predicate Genuine(f: Format, m: Media, e: nat, idx: map<Id, nat>) {
    forall id :: BlockGet(f, m, e, idx, id).Got? ==> f.sha(BlockGet(f, m, e, idx, id).value) == id
  }

  /** Whatever is on the medium, blocks read through the mounted index are genuine. */
  lemma {:induction false} MountGenuine(f: Format, m: Media)
    requires MountOf(f, m).Up?
    ensures Genuine(f, m, MountOf(f, m).epoch, MountOf(f, m).core.idx)
  {
    hide MountOf, BlockGet, Indexed;
    var u := MountOf(f, m);
    MountIndexed(f, m);
    forall id | BlockGet(f, m, u.epoch, u.core.idx, id).Got? ensures f.sha(BlockGet(f, m, u.epoch, u.core.idx, id).value) == id {
      ReadsOwnId(f, m, u.epoch, u.start, u.head, u.core.idx, id);
    }
  }

  /** So are blocks read through an index built before the damage. */
  lemma {:induction false} DecayGenuine(f: Format, m: Media, m': Media, e: nat, cap: nat, start: nat, recs: seq<Rec>, all: seq<Rec>)
    requires LogInv(f, m, e, start, all) && recs <= all && Damaged(f, m, m', e, start, start + Spans(all))
    ensures Genuine(f, m', e, CoreOf(f, cap, start, recs).idx)
  {
    hide CoreOf, Spans, CommitHdrAt, ValidCommit, Gather;
    var idx := CoreOf(f, cap, start, recs).idx;
    forall id | BlockGet(f, m', e, idx, id).Got? ensures f.sha(BlockGet(f, m', e, idx, id).value) == id {
      IndexPoints(f, cap, start, recs, id);
      var i :| 0 <= i < |recs| && recs[i].kind == REC_BLOCK && f.sha(recs[i].payload) == id && Pos(start, recs, i) == idx[id];
      assert recs[..i] == all[..i];
      PosZero(start, all);
      PosMono(start, all, 0, i);
      PosMono(start, all, i, |all|);
      PosEnd(start, all);
      assert RecAt(f, m, e, Pos(start, all, i), all[i]);
    }
  }

  lemma {:induction false} GenuineBlocks(f: Format, m: Media, e: nat, idx: map<Id, nat>, buf: Bytes, k: nat)
    requires f.Injective() && Genuine(f, m, e, idx) && k <= Blocks(|buf|)
    ensures var r := ReadBlocks(f, m, e, idx, FileIds(f, buf, k)); r.Err? || r == Got(buf[..Min(4096 * k, |buf|)])
  {
    hide BlockGet;
    if k > 0 {
      GenuineBlocks(f, m, e, idx, buf, k - 1);
      var ids := FileIds(f, buf, k);
      assert ids[..k - 1] == FileIds(f, buf, k - 1);
      assert buf[..Min(4096 * k, |buf|)] == buf[..4096 * (k - 1)] + FileChunk(buf, k - 1);
    }
  }

  /** A row that names the blocks of some bytes reads as those bytes or as an error. */
  lemma {:induction false} GenuineRow(f: Format, m: Media, e: nat, idx: map<Id, nat>, d: Dent, w: map<nat, Bytes>)
    requires f.Injective() && Genuine(f, m, e, idx) && RowSource(f, d, w)
    ensures ReadDent(f, m, e, idx, d).Err? || ReadDent(f, m, e, idx, d) == Got(w[d.version])
  {
    hide ReadBlocks, Genuine;
    var buf := w[d.version];
    GenuineBlocks(f, m, e, idx, buf, Blocks(|buf|));
    assert buf[..Min(4096 * Blocks(|buf|), |buf|)] == buf;
  }

  /** Every table met has, for this path, the row of a version in w or none. */
  ghost predicate Sourced(f: Format, ts: seq<Entry>, path: Bytes, w: map<nat, Bytes>) {
    forall j :: 0 <= j < |ts| ==> TableSource(f, ts[j].table, path, w)
  }

  ghost predicate TableSource(f: Format, t: seq<Dent>, path: Bytes, w: map<nat, Bytes>) {
    UniqueNames(t) && (Row(t, path).Some? ==> RowSource(f, Row(t, path).value, w))
  }

  lemma {:induction false} FirstSourced(f: Format, ts: seq<Entry>, path: Bytes, w: map<nat, Bytes>, v: nat)
    requires Sourced(f, ts, path, w)
    ensures var d := FirstVersion(ts, path, v); d.Some? ==> d.value.version == v && RowSource(f, d.value, w)
  {
    hide Row, UniqueNames, RowSource, RowAt;
    if ts != [] {
      assert TableSource(f, ts[0].table, path, w);
      RowAtIs(ts[0].table, path, v);
      assert forall j :: 0 <= j < |ts[1..]| ==> ts[1..][j] == ts[j + 1];
      FirstSourced(f, ts[1..], path, w, v);
    }
  }

  /** Reading by version: the bytes that minted it, or an error. */
  ghost predicate GenuineAnswers(f: Format, m: Media, e: nat, idx: map<Id, nat>, ts: seq<Entry>, live: seq<Dent>, path: Bytes, w: map<nat, Bytes>) {
    && (forall v :: var r := VersionRead(f, m, e, idx, ts, path, v); r.Err? || (v in w && r == Got(w[v])))
    && (Row(live, path).Some? ==> forall r :: LatestGood(f, m, e, idx, ts, Row(live, path).value, r) ==>
          r.Err? || exists v :: v in w && v <= Row(live, path).value.version && r == Got(w[v]))
  }

  lemma {:induction false} AnswersGenuine(f: Format, m: Media, e: nat, idx: map<Id, nat>, ts: seq<Entry>, live: seq<Dent>, path: Bytes, w: map<nat, Bytes>)
    requires f.Injective() && Genuine(f, m, e, idx) && Sourced(f, ts, path, w) && TableSource(f, live, path, w)
    ensures GenuineAnswers(f, m, e, idx, ts, live, path, w)
  {
    hide Genuine, Sourced, Row, UniqueNames, ReadDent, FirstVersion, RowSource, Format.Injective;
    forall v ensures var r := VersionRead(f, m, e, idx, ts, path, v); r.Err? || (v in w && r == Got(w[v])) {
      FirstSourced(f, ts, path, w, v);
      if FirstVersion(ts, path, v).Some? {
        GenuineRow(f, m, e, idx, FirstVersion(ts, path, v).value, w);
        VersionIn(f, FirstVersion(ts, path, v).value, w);
      }
    }
    if Row(live, path).Some? {
      var d := Row(live, path).value;
      RowName(live, path);
      GenuineRow(f, m, e, idx, d, w);
      VersionIn(f, d, w);
      forall r | LatestGood(f, m, e, idx, ts, d, r) ensures r.Err? || exists v :: v in w && v <= d.version && r == Got(w[v]) {}
    }
  }

  lemma {:induction false} VersionIn(f: Format, d: Dent, w: map<nat, Bytes>)
    requires RowSource(f, d, w)
    ensures d.version in w
  {
  }

  lemma {:induction false} RowName(t: seq<Dent>, path: Bytes)
    requires Row(t, path).Some?
    ensures Row(t, path).value.name == path
  {
  }

  // ---------------------------------------------------------------- the version scan under damage

  lemma {:induction false} SkipCommits(f: Format, rd: View, stop: nat, a: nat, b: nat)
    requires a <= b <= stop && forall q :: a <= q < b ==> rd(q).NoRecord?
    ensures Commits(f, rd, stop, a) == Commits(f, rd, stop, b)
    decreases b - a
  {
    if a < b { SkipCommits(f, rd, stop, a + 1, b); }
  }

  lemma {:induction false} CommitsMeet(f: Format, rd: View, e: nat, stop: nat, pos: nat, r: Rec, good: bool)
    requires Meets(f, rd, e, pos, r, good) && pos + Span(r) <= stop
    ensures Commits(f, rd, stop, pos) == (if good then EntryOf(f, r.kind, r.sq, r.payload) else []) + Commits(f, rd, stop, pos + Span(r))
  {
    if rd(pos).NoRecord? {
      SkipCommits(f, rd, stop, pos, pos + Span(r));
    }
  }

  lemma {:induction false} EntryIn(f: Format, recs: seq<Rec>, i: nat)
    requires i < |recs| && recs[i].kind == REC_COMMIT
    ensures Entry(recs[i].sq, TableOf(f, recs[i].payload)) in CommitsOf(f, recs)
  {
    if i < |recs| - 1 { EntryIn(f, recs[..|recs| - 1], i); }
  }

  /** The scan of a damaged log, from record i to record k, meets only commits of the log. */
  lemma {:induction false} CommitsDamaged(f: Format, m: Media, m': Media, e: nat, start: nat, recs: seq<Rec>, k: nat, i: nat)
    requires f.Injective() && LogInv(f, m, e, start, recs) && Resyncs(f, m, e, start, recs)
    requires Damaged(f, m, m', e, start, start + Spans(recs)) && i <= k <= |recs|
    ensures forall t :: t in Commits(f, ViewOf(f, m', e), Pos(start, recs, k), Pos(start, recs, i)) ==> t in CommitsOf(f, recs)
    decreases k - i
  {
    hide Resyncs, Damaged, LogInv, Format.Injective, Commits, Meets, Good, ViewOf, Spans, Pos, CommitsOf;
    var rd, stop := ViewOf(f, m', e), Pos(start, recs, k);
    if i == k {
      CommitsEnd(f, rd, stop);
    } else {
      CommitsDamaged(f, m, m', e, start, recs, k, i + 1);
      MeetsRecord(f, m, m', e, start, recs, i);
      PosNext(start, recs, i);
      PosMono(start, recs, i + 1, k);
      CommitsMeet(f, rd, e, stop, Pos(start, recs, i), recs[i], Good(f, m', e, start, recs, i));
      if recs[i].kind == REC_COMMIT { EntryIn(f, recs, i); }
    }
  }

  /** All tables of the log itself are sourced by its chronicle. */
  lemma {:induction false} LogSourced(f: Format, cap: nat, start: nat, recs: seq<Rec>, path: Bytes, w: map<nat, Bytes>, ts: seq<Entry>)
    requires Archive(f, cap, start, recs, path, w) && Hist(path, CommitsOf(f, recs)) && forall t :: t in ts ==> t in CommitsOf(f, recs)
    ensures Sourced(f, ts, path, w)
  {
    hide CommitsOf, Row, UniqueNames, RowSource, Archive;
    forall j | 0 <= j < |ts| ensures TableSource(f, ts[j].table, path, w) {
      assert ts[j] in ts;
      EntrySourced(f, cap, start, recs, path, w, ts[j]);
    }
  }

  lemma {:induction false} EntrySourced(f: Format, cap: nat, start: nat, recs: seq<Rec>, path: Bytes, w: map<nat, Bytes>, t: Entry)
    requires Archive(f, cap, start, recs, path, w) && Hist(path, CommitsOf(f, recs)) && t in CommitsOf(f, recs)
    ensures TableSource(f, t.table, path, w)
  {
    hide CommitsOf, Row, UniqueNames, RowSource, Archive;
    var k :| 0 <= k < |CommitsOf(f, recs)| && CommitsOf(f, recs)[k] == t;
    assert Follows(path, t.table, t.table);
    if Row(t.table, path).Some? { EntryKept(f, cap, start, recs, path, w, k); }
  }

  /** A damaged medium, mounted: every read of the path, by version or through the fallback of
      ark_read_file, returns bytes that were written under the path, or an error. */
  lemma {:induction false} DamagedReads(f: Format, s: Shot, m': Media, cap: nat, path: Bytes, w: map<nat, Bytes>)
    requires f.Injective() && Recoverable(f, s) && Resyncs(f, s.media, s.epoch, s.start, s.recs)
    requires Damaged(f, s.media, m', s.epoch, s.start, s.start + Spans(s.recs)) && SuperOf(f, m') == SuperOf(f, s.media)
    requires Archive(f, cap, s.start, s.recs, path, w) && Hist(path, CommitsOf(f, s.recs))
    ensures var u := MountOf(f, m');
            u.Up? && GenuineAnswers(f, m', u.epoch, u.core.idx, Commits(f, ViewOf(f, m', u.epoch), u.head, u.start), u.core.live, path, w)
  {
    hide Resyncs, Damaged, LogInv, Format.Injective, Commits, CommitsOf, ViewOf, Spans, Pos, LastGood, Archive, Hist, GenuineAnswers, SuperOf, Genuine,
         Sourced, Replay, LastCommitEnd, RowSource, Row, UniqueNames, Good;
    var u, k := MountOf(f, m'), LastGood(f, m', s.epoch, s.start, s.recs, |s.recs|);
    DamagedMount(f, s, m');
    MountGenuine(f, m');
    PosZero(s.start, s.recs);
    CommitsDamaged(f, s.media, m', s.epoch, s.start, s.recs, k, 0);
    var ts := Commits(f, ViewOf(f, m', u.epoch), u.head, u.start);
    LogSourced(f, cap, s.start, s.recs, path, w, ts);
    if k == 0 {
      EmptyReaches(f, path);
      RowNone([], path);
    } else {
      LastGoodIs(f, m', s.epoch, s.start, s.recs, |s.recs|);
      EntryIn(f, s.recs, k - 1);
      EntrySourced(f, cap, s.start, s.recs, path, w, Entry(s.recs[k - 1].sq, TableOf(f, s.recs[k - 1].payload)));
    }
    AnswersGenuine(f, m', u.epoch, u.core.idx, ts, u.core.live, path, w);
  }

  /** Damage under a mounted volume: memory is as it was, and the reads keep the promise. */
  lemma {:induction false} DecayedReads(f: Format, l: LogState, lib: Library, m': Media, path: Bytes, w: map<nat, Bytes>)
    requires VolOk(f, l, lib) && Resyncs(f, l.media, l.epoch, l.logStart, l.landed)
    requires Damaged(f, l.media, m', l.epoch, l.logStart, l.logStart + Spans(l.landed))
    requires Archive(f, l.cap, l.logStart, l.landed, path, w) && Hist(path, CommitsOf(f, l.landed)) && TableSource(f, lib.live, path, w)
    ensures GenuineAnswers(f, m', l.epoch, lib.idx, Commits(f, ViewOf(f, m', l.epoch), l.head, l.logStart), lib.live, path, w)
  {
    hide Resyncs, Damaged, LogInv, Commits, CommitsOf, ViewOf, Spans, Pos, Archive, Hist, GenuineAnswers, SuperOf, Genuine, Sourced,
         RowSource, Row, UniqueNames, ShotsOk, LogBase, LibOk, CoreOf, Format.Sound, Format.Injective;
    DecayGenuine(f, l.media, m', l.epoch, l.cap, l.logStart, l.recs, l.landed);
    PosZero(l.logStart, l.landed);
    var k := |l.recs|;
    HeadIs(l.logStart, l.recs, l.landed);
    CommitsDamaged(f, l.media, m', l.epoch, l.logStart, l.landed, k, 0);
    var ts := Commits(f, ViewOf(f, m', l.epoch), l.head, l.logStart);
    LogSourced(f, l.cap, l.logStart, l.landed, path, w, ts);
    AnswersGenuine(f, m', l.epoch, lib.idx, ts, lib.live, path, w);
  }

  lemma {:induction false} HeadIs(start: nat, recs: seq<Rec>, all: seq<Rec>)
    requires recs <= all
    ensures Pos(start, all, |recs|) == start + Spans(recs)
  {
    assert all[..|recs|] == recs;
  }

  // ---------------------------------------------------------------- one rotten sector

  /** Every block record is indexed while the cap is not reached. */
  lemma {:induction false} AllIndexed(f: Format, cap: nat, start: nat, recs: seq<Rec>, i: nat)
    requires |recs| <= cap
    ensures |CoreOf(f, cap, start, recs).idx| <= |recs|
    ensures i < |recs| && recs[i].kind == REC_BLOCK ==> f.sha(recs[i].payload) in CoreOf(f, cap, start, recs).idx
    decreases |recs|
  {
    if recs != [] { AllIndexed(f, cap, start, recs[..|recs| - 1], if i < |recs| - 1 then i else 0); }
  }

  /** One payload sector of block k changed: every other block reads as before, block k fails. */
  lemma {:induction false} RotSpares(f: Format, m: Media, m': Media, e: nat, cap: nat, start: nat, recs: seq<Rec>, k: nat, sec: nat, id: Id)
    requires f.Injective() && LogInv(f, m, e, start, recs) && k < |recs| && recs[k].kind == REC_BLOCK
    requires Pos(start, recs, k) < sec < Pos(start, recs, k) + Span(recs[k]) <= End(m) && |m'| == |m| && forall q :: 0 <= q < |m| && q != sec ==> m'[q] == m[q]
    requires id in CoreOf(f, cap, start, recs).idx
    ensures id != f.sha(recs[k].payload) ==> BlockGet(f, m', e, CoreOf(f, cap, start, recs).idx, id).Got?
    ensures id == f.sha(recs[k].payload) && (forall i :: 0 <= i < |recs| && i != k && recs[i].kind == REC_BLOCK ==> recs[i].payload != recs[k].payload)
              && Gather(m', Pos(start, recs, k) + 1, |recs[k].payload|) != Some(recs[k].payload) ==>
            BlockGet(f, m', e, CoreOf(f, cap, start, recs).idx, id) == Err(CORRUPT)
  {
    hide CoreOf, Spans, CommitHdrAt, ValidCommit, Gather, Pos;
    var idx := CoreOf(f, cap, start, recs).idx;
    IndexPoints(f, cap, start, recs, id);
    var i :| 0 <= i < |recs| && recs[i].kind == REC_BLOCK && f.sha(recs[i].payload) == id && Pos(start, recs, i) == idx[id];
    assert RecAt(f, m, e, Pos(start, recs, i), recs[i]);
    if i != k {
      if i < k { PosMono(start, recs, i, k); } else { PosMono(start, recs, k, i); }
      RecAtFrame(f, m, m', e, Pos(start, recs, i), recs[i]);
      RecReads(f, m', e, Pos(start, recs, i), recs[i]);
    }
  }
}
