/** The append-only record log of arkfs.c: how a record is laid down sector by sector,
    how it is read back, how mount scans the medium, and what survives when only a
    prefix of the sector writes landed. */
module ArkLog {
  import opened Wrappers
  import opened ArkFormat

  datatype Rec = Rec(kind: nat, sq: nat, payload: Bytes)

  // ---------------------------------------------------------------- reading

  /** Log sectors are [.., End): the last sector holds the superblock replica. */
  function End(m: Media): int { |m| - 1 }

  function HdrAt(f: Format, m: Media, q: nat): Option<Hdr>
    requires q < |m|
  {
    if m[q].Sec? then f.decHdr(m[q].data) else None
  }

  /** The len payload bytes stored from sector pos on. */
  function Gather(m: Media, pos: nat, len: nat): (r: Option<Bytes>)
    requires pos + Sectors(len) <= |m|
    ensures r.Some? ==> |r.value| == len
    decreases len
  {
    if len == 0 then Some([])
    else if m[pos].Unreadable? then None
    else
      var n := Min(len, 512);
      match Gather(m, pos + 1, len - n)
      case None => None
      case Some(rest) => Some(Take(m[pos].data, n) + rest)
  }

  datatype Read = NoRecord | Record(ps: nat, h: Hdr, payload: Bytes, ok: bool)

  /** read_record: a header that verifies in this epoch, its footprint, and whether the
      payload passes both its checksum and its content address. */
  function ReadRec(f: Format, m: Media, e: nat, sec: nat): (r: Read)
    ensures r.Record? ==> r.ps == Sectors(r.h.len) && sec + 1 + r.ps <= End(m) && HdrAt(f, m, sec) == Some(r.h)
    ensures r.Record? ==> r.h.epoch == e && r.h.len <= COMMIT_MAX
    ensures r.Record? && r.ok ==> Gather(m, sec + 1, r.h.len) == Some(r.payload) && f.sha(r.payload) == r.h.id
  {
    if sec >= End(m) then NoRecord
    else
      match HdrAt(f, m, sec)
      case None => NoRecord
      case Some(h) =>
        if h.epoch != e || h.len > COMMIT_MAX || sec + 1 + Sectors(h.len) > End(m) then NoRecord
        else
          match Gather(m, sec + 1, h.len)
          case None => Record(Sectors(h.len), h, [], false)
          case Some(p) => Record(Sectors(h.len), h, p, f.crc(p) == h.pcrc && f.sha(p) == h.id)
  }

  /** What read_record accepts: a header of this epoch that verifies, whose payload fits the
      buffer and lies before the replica; and when it calls the payload good. */
  lemma {:induction false} ReadRecIff(f: Format, m: Media, e: nat, sec: nat, h: Hdr)
    requires sec < |m| && HdrAt(f, m, sec) == Some(h)
    ensures var r := ReadRec(f, m, e, sec);
            && (r.Record? <==> sec < End(m) && h.epoch == e && h.len <= 19456 && sec + 1 + Sectors(h.len) <= End(m))
            && (r.Record? ==> (r.ok <==> exists p :: Gather(m, sec + 1, h.len) == Some(p) && f.crc(p) == h.pcrc && f.sha(p) == h.id))
  {
    var r := ReadRec(f, m, e, sec);
    if r.Record? && r.ok { assert Gather(m, sec + 1, h.len) == Some(r.payload); }
  }

  predicate ValidCommit(f: Format, m: Media, e: nat, q: nat) {
    var r := ReadRec(f, m, e, q);
    r.Record? && r.h.kind == REC_COMMIT && r.ok
  }

  /** A sector that decodes as a commit header of epoch e. */
  predicate CommitHdr(f: Format, e: nat, d: Bytes) {
    var h := f.decHdr(d);
    h.Some? && h.value.epoch == e && h.value.kind == REC_COMMIT
  }

  predicate CommitHdrAt(f: Format, m: Media, e: nat, q: nat)
    requires q < |m|
  {
    m[q].Sec? && CommitHdr(f, e, m[q].data)
  }

  // ---------------------------------------------------------------- layout

  function Span(r: Rec): nat { 1 + Sectors(|r.payload|) }

  function Spans(recs: seq<Rec>): nat {
    if recs == [] then 0 else Spans(recs[..|recs| - 1]) + Span(recs[|recs| - 1])
  }

  /** First sector of record i of a log that begins at start. */
  function Pos(start: nat, recs: seq<Rec>, i: nat): nat
    requires i <= |recs|
  {
    start + Spans(recs[..i])
  }

  function HdrOf(f: Format, e: nat, r: Rec): Hdr {
    Hdr(r.kind, r.sq, e, |r.payload|, f.sha(r.payload), f.crc(r.payload))
  }

  /** Record r reads back at sector pos. */
  predicate RecAt(f: Format, m: Media, e: nat, pos: nat, r: Rec) {
    && pos + Span(r) <= End(m)
    && |r.payload| <= COMMIT_MAX
    && HdrAt(f, m, pos) == Some(HdrOf(f, e, r))
    && Gather(m, pos + 1, |r.payload|) == Some(r.payload)
  }

  /** The records lie one after another from sector start on. */
  ghost predicate Laid(f: Format, m: Media, e: nat, start: nat, recs: seq<Rec>) {
    forall i {:trigger RecAt(f, m, e, Pos(start, recs, i), recs[i])} ::
      0 <= i < |recs| ==> RecAt(f, m, e, Pos(start, recs, i), recs[i])
  }

  /** The medium holds exactly the log `recs` for epoch e from sector start on: every
      record reads back, no sector behind the last commit passes for a commit header,
      and beyond the log no commit of this epoch verifies. */
  ghost predicate LogInv(f: Format, m: Media, e: nat, start: nat, recs: seq<Rec>) {
    && 1 <= start
    && start + Spans(recs) <= End(m)
    && Laid(f, m, e, start, recs)
    && (forall q :: start + Spans(Committed(recs)) <= q < start + Spans(recs) ==> !CommitHdrAt(f, m, e, q))
    && (forall q :: start + Spans(recs) <= q < End(m) ==> !ValidCommit(f, m, e, q))
  }

  // ---------------------------------------------------------------- chunks and frames

  function Chunk(p: Bytes, i: nat): (c: Bytes)
    requires i < Sectors(|p|)
    ensures 0 < |c| <= 512
  {
    p[512 * i..Min(512 * (i + 1), |p|)]
  }

  predicate ChunkAt(m: Media, pos: nat, p: Bytes, i: nat)
    requires i < Sectors(|p|) && pos + i < |m|
  {
    m[pos + i].Sec? && Take(m[pos + i].data, |Chunk(p, i)|) == Chunk(p, i)
  }

  /** The sectors hold the chunks of p, whatever follows the last chunk. */
  predicate Holds(m: Media, pos: nat, p: Bytes)
    requires pos + Sectors(|p|) <= |m|
  {
    forall i :: 0 <= i < Sectors(|p|) ==> ChunkAt(m, pos, p, i)
  }

  lemma {:induction false} ChunkTail(p: Bytes, i: nat)
    requires 0 < i < Sectors(|p|)
    ensures i - 1 < Sectors(|p[512..]|) && Chunk(p[512..], i - 1) == Chunk(p, i)
  {
    assert |p| > 512;
    var t, lo, hi := p[512..], 512 * (i - 1), Min(512 * i, |p| - 512);
    assert t[lo..hi] == p[512 + lo..512 + hi];
    assert Chunk(t, i - 1) == t[lo..hi];
    assert Chunk(p, i) == p[512 + lo..512 + hi];
  }

  lemma {:induction false} HoldsTail(m: Media, pos: nat, p: Bytes)
    requires 0 < |p| && pos + Sectors(|p|) <= |m|
    ensures Holds(m, pos, p)
       <==> (m[pos].Sec? && Take(m[pos].data, Min(|p|, 512)) == p[..Min(|p|, 512)]
             && pos + 1 + Sectors(|p[Min(|p|, 512)..]|) <= |m| && Holds(m, pos + 1, p[Min(|p|, 512)..]))
  {
    var n := Min(|p|, 512);
    var t := p[n..];
    assert Sectors(|t|) == Sectors(|p|) - 1;
    assert Chunk(p, 0) == p[..n];
    forall i | 0 < i < Sectors(|p|)
      ensures i - 1 < Sectors(|t|) && Chunk(t, i - 1) == Chunk(p, i)
    {
      ChunkTail(p, i);
    }
    if Holds(m, pos, p) {
      assert ChunkAt(m, pos, p, 0);
      var next := pos + 1;
      forall j | 0 <= j < Sectors(|t|) ensures ChunkAt(m, next, t, j) {
        assert ChunkAt(m, pos, p, j + 1) && Chunk(t, j) == Chunk(p, j + 1);
      }
    }
    if m[pos].Sec? && Take(m[pos].data, n) == p[..n] && Holds(m, pos + 1, t) {
      forall i | 0 <= i < Sectors(|p|) ensures ChunkAt(m, pos, p, i) {
        if i > 0 {
          assert ChunkAt(m, pos + 1, t, i - 1) && Chunk(t, i - 1) == Chunk(p, i);
        }
      }
    }
  }

  /** Reading the payload back is exactly finding its chunks in the sectors. */
  lemma {:induction false} GatherIsHolds(m: Media, pos: nat, p: Bytes)
    requires pos + Sectors(|p|) <= |m|
    ensures Gather(m, pos, |p|) == Some(p) <==> Holds(m, pos, p)
    decreases |p|
  {
    if |p| == 0 {
      assert p == [];
    } else {
      var n := Min(|p|, 512);
      var t := p[n..];
      assert p == p[..n] + t;
      HoldsTail(m, pos, p);
      GatherIsHolds(m, pos + 1, t);
      if Gather(m, pos, |p|) == Some(p) {
        var rest := Gather(m, pos + 1, |t|).value;
        var hd := Take(m[pos].data, n);
        assert hd + rest == p;
        assert hd == (hd + rest)[..n] && rest == (hd + rest)[n..];
      }
    }
  }

  predicate Agree(m: Media, m': Media, lo: nat, hi: nat) {
    |m| == |m'| && forall q {:trigger m[q]} {:trigger m'[q]} :: lo <= q < hi && q < |m| ==> m[q] == m'[q]
  }

  lemma {:induction false} GatherFrame(m: Media, m': Media, pos: nat, len: nat)
    requires pos + Sectors(len) <= |m| && Agree(m, m', pos, pos + Sectors(len))
    ensures Gather(m, pos, len) == Gather(m', pos, len)
    decreases len
  {
    if len > 0 {
      GatherFrame(m, m', pos + 1, len - Min(len, 512));
    }
  }

  lemma {:induction false} RecAtFrame(f: Format, m: Media, m': Media, e: nat, pos: nat, r: Rec)
    requires RecAt(f, m, e, pos, r) && Agree(m, m', pos, pos + Span(r))
    ensures RecAt(f, m', e, pos, r)
  {
    GatherFrame(m, m', pos + 1, |r.payload|);
  }

  lemma {:induction false} ReadRecFrame(f: Format, m: Media, m': Media, e: nat, q: nat)
    requires |m| == |m'| && (q < End(m) ==> Agree(m, m', q, End(m)))
    ensures ReadRec(f, m, e, q) == ReadRec(f, m', e, q)
  {
    if q < End(m) && HdrAt(f, m, q).Some? {
      var h := HdrAt(f, m, q).value;
      assert HdrAt(f, m', q) == Some(h);
      if q + 1 + Sectors(h.len) <= End(m) {
        GatherFrame(m, m', q + 1, h.len);
      }
    }
  }

  // ---------------------------------------------------------------- positions

  lemma {:induction false} PosNext(start: nat, recs: seq<Rec>, i: nat)
    requires i < |recs|
    ensures Pos(start, recs, i + 1) == Pos(start, recs, i) + Span(recs[i])
  {
    assert recs[..i + 1][..i] == recs[..i];
  }

  lemma {:induction false} PosMono(start: nat, recs: seq<Rec>, i: nat, j: nat)
    requires i <= j <= |recs|
    ensures Pos(start, recs, i) <= Pos(start, recs, j)
    ensures i < j ==> Pos(start, recs, i) + Span(recs[i]) <= Pos(start, recs, j)
    decreases j - i
  {
    if i < j {
      PosNext(start, recs, i);
      PosMono(start, recs, i + 1, j);
    }
  }

  lemma {:induction false} PosEnd(start: nat, recs: seq<Rec>)
    ensures Pos(start, recs, |recs|) == start + Spans(recs)
  {
    assert recs[..|recs|] == recs;
  }

  lemma {:induction false} PosPrefix(start: nat, recs: seq<Rec>, more: seq<Rec>, i: nat)
    requires i <= |recs|
    ensures Pos(start, recs + more, i) == Pos(start, recs, i)
  {
    assert (recs + more)[..i] == recs[..i];
  }

  // ---------------------------------------------------------------- what mount sees

  /** The log up to its last commit: what a mount keeps. */
  function Committed(recs: seq<Rec>): (c: seq<Rec>)
    ensures c <= recs
    ensures c == [] || c[|c| - 1].kind == REC_COMMIT
    ensures forall i :: |c| <= i < |recs| ==> recs[i].kind != REC_COMMIT
  {
    if recs == [] then []
    else if recs[|recs| - 1].kind == REC_COMMIT then recs
    else Committed(recs[..|recs| - 1])
  }

  /** idx_add: the first location wins, and a full index takes nothing more. */
  function IdxAdd(idx: map<Id, nat>, cap: nat, id: Id, sec: nat): map<Id, nat> {
    if id in idx || |idx| >= cap then idx else idx[id := sec]
  }

  /** What replay builds: last commit's sequence number, table and root, and the index. */
  datatype Core = Core(sq: nat, live: seq<Dent>, mroot: Id, idx: map<Id, nat>)

  function EmptyCore(f: Format): Core { Core(0, [], f.zero, map[]) }

  /** Pass 2 of mount on one record with a valid header. */
  function StepCore(f: Format, cap: nat, c: Core, kind: nat, sq: nat, id: Id, payload: Bytes, ok: bool, sec: nat): Core {
    if kind == REC_BLOCK then c.(idx := IdxAdd(c.idx, cap, id, sec))
    else if kind == REC_COMMIT && ok then
      match f.decCommit(payload)
      case None => c.(sq := sq, live := [])
      case Some(v) => c.(sq := sq, live := v.table, mroot := v.mroot)
    else c
  }

  /** What read_record reports at each sector. */
  type View = nat -> Read

  function ViewOf(f: Format, m: Media, e: nat): View { (q: nat) => ReadRec(f, m, e, q) }

  predicate CommitIn(rd: View, q: nat) {
    rd(q).Record? && rd(q).h.kind == REC_COMMIT && rd(q).ok
  }

  /** Pass 1: the sector just past the last commit that verifies. */
  function LastCommitEnd(rd: View, end: int, sec: nat, acc: nat): nat
    decreases end - sec
  {
    if sec >= end then acc
    else
      match rd(sec)
      case NoRecord => LastCommitEnd(rd, end, sec + 1, acc)
      case Record(ps, _, _, _) =>
        LastCommitEnd(rd, end, sec + 1 + ps, if CommitIn(rd, sec) then sec + 1 + ps else acc)
  }

  /** Pass 2: index the blocks and apply the commits of [sec, stop). */
  function Replay(f: Format, rd: View, cap: nat, stop: nat, sec: nat, c: Core): Core
    decreases stop - sec
  {
    if sec >= stop then c
    else
      match rd(sec)
      case NoRecord => Replay(f, rd, cap, stop, sec + 1, c)
      case Record(ps, h, p, ok) =>
        Replay(f, rd, cap, stop, sec + 1 + ps, StepCore(f, cap, c, h.kind, h.sq, h.id, p, ok, sec))
  }

  /** The same fold over the log itself: the reference for pass 2. */
  function CoreOf(f: Format, cap: nat, start: nat, recs: seq<Rec>): Core {
    if recs == [] then EmptyCore(f)
    else
      var k := |recs| - 1;
      var r := recs[k];
      StepCore(f, cap, CoreOf(f, cap, start, recs[..k]), r.kind, r.sq, f.sha(r.payload), r.payload, true,
               start + Spans(recs[..k]))
  }

  function GoodRead(f: Format, e: nat, r: Rec): Read {
    Record(Sectors(|r.payload|), HdrOf(f, e, r), r.payload, true)
  }

  /** Scanning this view finds the records one after another from sector start on. */
  ghost predicate Shows(f: Format, rd: View, e: nat, start: nat, recs: seq<Rec>) {
    forall i {:trigger Pos(start, recs, i)} :: 0 <= i < |recs| ==> rd(Pos(start, recs, i)) == GoodRead(f, e, recs[i])
  }

  lemma {:induction false} LaidShows(f: Format, m: Media, e: nat, start: nat, recs: seq<Rec>)
    requires Laid(f, m, e, start, recs)
    ensures Shows(f, ViewOf(f, m, e), e, start, recs)
  {
    forall i {:trigger Pos(start, recs, i)} | 0 <= i < |recs|
      ensures ViewOf(f, m, e)(Pos(start, recs, i)) == GoodRead(f, e, recs[i])
    {
      assert RecAt(f, m, e, Pos(start, recs, i), recs[i]);
    }
  }

  lemma {:induction false} NoCommitFrom(rd: View, end: int, sec: nat, acc: nat)
    requires forall q :: sec <= q < end ==> !CommitIn(rd, q)
    ensures LastCommitEnd(rd, end, sec, acc) == acc
    decreases end - sec
  {
    if sec < end {
      match rd(sec)
      case NoRecord => NoCommitFrom(rd, end, sec + 1, acc);
      case Record(ps, _, _, _) => NoCommitFrom(rd, end, sec + 1 + ps, acc);
    }
  }

  lemma {:induction false} ScanStep(f: Format, rd: View, e: nat, end: int, pos: nat, r: Rec, acc: nat)
    requires rd(pos) == GoodRead(f, e, r) && pos < end
    ensures LastCommitEnd(rd, end, pos, acc)
         == LastCommitEnd(rd, end, pos + Span(r), if r.kind == REC_COMMIT then pos + Span(r) else acc)
  {
  }

  lemma {:induction false} CommittedSnoc(start: nat, recs: seq<Rec>, i: nat)
    requires i < |recs|
    ensures start + Spans(Committed(recs[..i + 1]))
         == if recs[i].kind == REC_COMMIT then Pos(start, recs, i + 1) else start + Spans(Committed(recs[..i]))
  {
    assert recs[..i + 1][..i] == recs[..i];
  }

  lemma {:induction false} PosZero(start: nat, recs: seq<Rec>)
    ensures Pos(start, recs, 0) == start && Spans(Committed(recs[..0])) == 0
  {
    assert recs[..0] == [];
  }

  /** Pass 1 walks the log record by record. */
  lemma {:induction false} ScanLog(f: Format, rd: View, e: nat, end: int, start: nat, recs: seq<Rec>, i: nat)
    requires start + Spans(recs) <= end && Shows(f, rd, e, start, recs)
    requires i <= |recs|
    ensures LastCommitEnd(rd, end, start, start)
         == LastCommitEnd(rd, end, Pos(start, recs, i), start + Spans(Committed(recs[..i])))
  {
    hide LastCommitEnd, Committed, Spans, Pos;
    if i == 0 {
      PosZero(start, recs);
    } else {
      var j := i - 1;
      var pos, acc := Pos(start, recs, j), start + Spans(Committed(recs[..j]));
      PosNext(start, recs, j);
      assert pos < end by {
        PosMono(start, recs, i, |recs|);
        PosEnd(start, recs);
      }
      calc {
        LastCommitEnd(rd, end, start, start);
      == { ScanLog(f, rd, e, end, start, recs, j); }
        LastCommitEnd(rd, end, pos, acc);
      == { ScanStep(f, rd, e, end, pos, recs[j], acc); }
        LastCommitEnd(rd, end, Pos(start, recs, i), if recs[j].kind == REC_COMMIT then Pos(start, recs, i) else acc);
      == { CommittedSnoc(start, recs, j); }
        LastCommitEnd(rd, end, Pos(start, recs, i), start + Spans(Committed(recs[..i])));
      }
    }
  }

  function StepRec(f: Format, cap: nat, c: Core, r: Rec, sec: nat): Core {
    StepCore(f, cap, c, r.kind, r.sq, f.sha(r.payload), r.payload, true, sec)
  }

  lemma {:induction false} ReplayStep(f: Format, rd: View, e: nat, cap: nat, stop: nat, pos: nat, r: Rec, c: Core)
    requires rd(pos) == GoodRead(f, e, r) && pos < stop
    ensures Replay(f, rd, cap, stop, pos, c) == Replay(f, rd, cap, stop, pos + Span(r), StepRec(f, cap, c, r, pos))
  {
  }

  lemma {:induction false} CoreNone(f: Format, cap: nat, start: nat)
    ensures CoreOf(f, cap, start, []) == EmptyCore(f) && Spans([]) == 0
  {
  }

  lemma {:induction false} CoreSnoc(f: Format, cap: nat, start: nat, recs: seq<Rec>, i: nat)
    requires 0 < i <= |recs|
    ensures CoreOf(f, cap, start, recs[..i])
         == StepRec(f, cap, CoreOf(f, cap, start, recs[..i - 1]), recs[i - 1], Pos(start, recs, i - 1))
  {
    assert recs[..i][..i - 1] == recs[..i - 1];
  }

  /** Pass 2 walks the same records and rebuilds the fold. */
  lemma {:induction false} ReplayLog(f: Format, rd: View, e: nat, cap: nat, stop: nat, start: nat, recs: seq<Rec>, i: nat)
    requires Shows(f, rd, e, start, recs)
    requires i <= |recs| && Pos(start, recs, i) <= stop
    ensures Replay(f, rd, cap, stop, start, EmptyCore(f))
         == Replay(f, rd, cap, stop, Pos(start, recs, i), CoreOf(f, cap, start, recs[..i]))
  {
    hide Replay, CoreOf, Spans, StepRec;
    if i == 0 {
      assert recs[..0] == [];
      CoreNone(f, cap, start);
    } else {
      var c := CoreOf(f, cap, start, recs[..i - 1]);
      var pos := Pos(start, recs, i - 1);
      PosNext(start, recs, i - 1);
      calc {
        Replay(f, rd, cap, stop, start, EmptyCore(f));
      == { ReplayLog(f, rd, e, cap, stop, start, recs, i - 1); }
        Replay(f, rd, cap, stop, pos, c);
      == { ReplayStep(f, rd, e, cap, stop, pos, recs[i - 1], c); }
        Replay(f, rd, cap, stop, Pos(start, recs, i), StepRec(f, cap, c, recs[i - 1], pos));
      == { CoreSnoc(f, cap, start, recs, i); }
        Replay(f, rd, cap, stop, Pos(start, recs, i), CoreOf(f, cap, start, recs[..i]));
      }
    }
  }

  lemma {:induction false} ScanAll(f: Format, rd: View, e: nat, end: int, start: nat, recs: seq<Rec>)
    requires start + Spans(recs) <= end && Shows(f, rd, e, start, recs)
    ensures LastCommitEnd(rd, end, start, start)
         == LastCommitEnd(rd, end, start + Spans(recs), start + Spans(Committed(recs)))
  {
    ScanLog(f, rd, e, end, start, recs, |recs|);
    PosEnd(start, recs);
    assert recs[..|recs|] == recs;
  }

  lemma {:induction false} ReplayAll(f: Format, rd: View, e: nat, cap: nat, start: nat, recs: seq<Rec>, c: seq<Rec>)
    requires Shows(f, rd, e, start, recs) && c <= recs
    ensures Replay(f, rd, cap, start + Spans(c), start, EmptyCore(f)) == CoreOf(f, cap, start, c)
  {
    assert recs[..|c|] == c;
    ReplayLog(f, rd, e, cap, start + Spans(c), start, recs, |c|);
  }

  lemma {:induction false} PrefixSpans(recs: seq<Rec>, c: seq<Rec>)
    requires c <= recs
    ensures Spans(c) <= Spans(recs)
  {
    assert recs[..|c|] == c;
    PosMono(0, recs, |c|, |recs|);
    PosEnd(0, recs);
  }

  lemma {:induction false} ScanEnds(f: Format, rd: View, e: nat, end: int, start: nat, recs: seq<Rec>)
    requires start + Spans(recs) <= end && Shows(f, rd, e, start, recs)
    requires forall q :: start + Spans(recs) <= q < end ==> !CommitIn(rd, q)
    ensures LastCommitEnd(rd, end, start, start) == start + Spans(Committed(recs))
  {
    ScanAll(f, rd, e, end, start, recs);
    NoCommitFrom(rd, end, start + Spans(recs), start + Spans(Committed(recs)));
  }

  /** On a sound log both passes of mount yield the log up to its last commit. */
  lemma {:induction false} MountFinds(f: Format, m: Media, e: nat, cap: nat, start: nat, recs: seq<Rec>)
    requires LogInv(f, m, e, start, recs)
    ensures LastCommitEnd(ViewOf(f, m, e), End(m), start, start) == start + Spans(Committed(recs)) <= End(m)
    ensures Replay(f, ViewOf(f, m, e), cap, start + Spans(Committed(recs)), start, EmptyCore(f))
         == CoreOf(f, cap, start, Committed(recs))
  {
    hide LastCommitEnd, Replay, CoreOf, Laid, Spans, ReadRec, CommitHdrAt, Committed;
    var rd := ViewOf(f, m, e);
    LaidShows(f, m, e, start, recs);
    assert LastCommitEnd(rd, End(m), start, start) == start + Spans(Committed(recs)) by {
      forall q | start + Spans(recs) <= q < End(m) ensures !CommitIn(rd, q) {
        assert !ValidCommit(f, m, e, q);
      }
      ScanEnds(f, rd, e, End(m), start, recs);
    }
    PrefixSpans(recs, Committed(recs));
    ReplayAll(f, rd, e, cap, start, recs, Committed(recs));
  }

  lemma {:induction false} LaidPrefix(f: Format, m: Media, e: nat, start: nat, recs: seq<Rec>, c: seq<Rec>)
    requires Laid(f, m, e, start, recs) && c <= recs
    ensures Laid(f, m, e, start, c)
  {
    forall i {:trigger RecAt(f, m, e, Pos(start, c, i), c[i])} | 0 <= i < |c|
      ensures RecAt(f, m, e, Pos(start, c, i), c[i])
    {
      assert c[..i] == recs[..i];
      assert RecAt(f, m, e, Pos(start, recs, i), recs[i]);
    }
  }

  lemma {:induction false} NoHdrNoCommit(f: Format, m: Media, e: nat, q: nat)
    requires q < |m| && !CommitHdrAt(f, m, e, q)
    ensures !ValidCommit(f, m, e, q)
  {
  }

  lemma {:induction false} CommittedTwice(recs: seq<Rec>)
    ensures Committed(Committed(recs)) == Committed(recs)
  {
  }

  /** What a mount keeps is again a sound log. */
  lemma {:induction false} CommittedInv(f: Format, m: Media, e: nat, start: nat, recs: seq<Rec>)
    requires LogInv(f, m, e, start, recs)
    ensures LogInv(f, m, e, start, Committed(recs))
  {
    hide CommitHdrAt, ValidCommit, Laid;
    var c := Committed(recs);
    PrefixSpans(recs, c);
    LaidPrefix(f, m, e, start, recs, c);
    CommittedTwice(recs);
    forall q | start + Spans(c) <= q < End(m) ensures !ValidCommit(f, m, e, q) {
      if q < start + Spans(recs) { NoHdrNoCommit(f, m, e, q); }
    }
  }
}
