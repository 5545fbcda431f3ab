/** Why ark_compact is safe: a mount depends only on the sectors its scan visits, so
    writing outside the live log moves nothing; and the rewritten log, fenced by its
    epoch, indexes exactly the blocks that were still readable. */
module ArkCompaction {
  import opened Wrappers
  import opened ArkFormat
  import opened ArkLog
  import opened ArkCrash
  import opened ArkLibrary

  // ---------------------------------------------------------------- what a mount depends on

  function NextSec(rd: View, sec: nat): nat {
    sec + 1 + if rd(sec).Record? then rd(sec).ps else 0
  }

  /** The scan from sec stops exactly at h on its way. */
  predicate Path(rd: View, sec: nat, h: nat)
    decreases h - sec
  {
    sec == h || (sec < h && Path(rd, NextSec(rd, sec), h))
  }

  lemma {:induction false} ScanPath(rd: View, end: int, sec: nat, acc: nat)
    ensures var h := LastCommitEnd(rd, end, sec, acc); h == acc || (sec < h && Path(rd, sec, h))
    decreases end - sec
  {
    if sec < end {
      match rd(sec)
      case NoRecord => ScanPath(rd, end, sec + 1, acc);
      case Record(ps, _, _, _) =>
        ScanPath(rd, end, sec + 1 + ps, if CommitIn(rd, sec) then sec + 1 + ps else acc);
    }
  }

  /** The two views agree on every record that ends by h. */
  ghost predicate SameUpTo(rd: View, rd': View, lo: nat, h: nat) {
    forall q :: lo <= q && NextSec(rd, q) <= h ==> rd'(q) == rd(q)
  }

  lemma {:induction false} PathStep(rd: View, sec: nat, h: nat)
    requires sec < h && Path(rd, sec, h)
    ensures NextSec(rd, sec) <= h && Path(rd, NextSec(rd, sec), h)
  {
  }

  lemma {:induction false} SameScan(rd: View, rd': View, end: int, sec: nat, acc: nat, h: nat)
    requires Path(rd, sec, h) && h <= end && SameUpTo(rd, rd', sec, h) && LastCommitEnd(rd, end, sec, acc) == h
    requires forall q :: h <= q < end ==> !CommitIn(rd', q)
    ensures LastCommitEnd(rd', end, sec, acc) == h
    decreases h - sec
  {
    if sec < h {
      PathStep(rd, sec, h);
      assert rd'(sec) == rd(sec);
      match rd(sec)
      case NoRecord => SameScan(rd, rd', end, sec + 1, acc, h);
      case Record(ps, _, _, _) =>
        SameScan(rd, rd', end, sec + 1 + ps, if CommitIn(rd, sec) then sec + 1 + ps else acc, h);
    } else {
      ScanPath(rd, end, sec, acc);
      NoCommitFrom(rd', end, sec, acc);
    }
  }

  lemma {:induction false} SameReplay(f: Format, rd: View, rd': View, cap: nat, sec: nat, h: nat, c: Core)
    requires Path(rd, sec, h) && SameUpTo(rd, rd', sec, h)
    ensures Replay(f, rd', cap, h, sec, c) == Replay(f, rd, cap, h, sec, c)
    decreases h - sec
  {
    hide StepCore;
    if sec < h {
      PathStep(rd, sec, h);
      assert rd'(sec) == rd(sec);
      match rd(sec)
      case NoRecord => SameReplay(f, rd, rd', cap, sec + 1, h, c);
      case Record(ps, hd, p, ok) =>
        SameReplay(f, rd, rd', cap, sec + 1 + ps, h, StepCore(f, cap, c, hd.kind, hd.sq, hd.id, p, ok, sec));
    }
  }

  /** A record depends on its own sectors only. */
  lemma {:induction false} ReadRecLocal(f: Format, m: Media, m': Media, e: nat, q: nat)
    requires |m| == |m'| && q < |m| && m[q] == m'[q]
    requires ReadRec(f, m, e, q).Record? ==> Agree(m, m', q, q + 1 + ReadRec(f, m, e, q).ps)
    ensures ReadRec(f, m', e, q) == ReadRec(f, m, e, q)
  {
    assert HdrAt(f, m, q) == HdrAt(f, m', q);
    if ReadRec(f, m, e, q).Record? {
      GatherFrame(m, m', q + 1, ReadRec(f, m, e, q).h.len);
    }
  }

  /** Sectors outside the accepted log can be rewritten freely, as long as no commit of
      this epoch verifies behind it: the mount result does not move.  No soundness of the
      log is assumed, so this holds on damaged media too. */
  lemma {:induction false} MountUnmoved(f: Format, m: Media, m': Media)
    requires SuperOf(f, m') == SuperOf(f, m) && |m'| == |m|
    requires MountOf(f, m).Up? && MountOf(f, m).head <= End(m) && Agree(m, m', MountOf(f, m).start, MountOf(f, m).head)
    requires forall q :: MountOf(f, m).head <= q < End(m) ==> !ValidCommit(f, m', MountOf(f, m).epoch, q)
    ensures MountOf(f, m') == MountOf(f, m)
  {
    hide SuperOf, LastCommitEnd, Replay, ReadRec, Path;
    var u := MountOf(f, m);
    var rd, rd' := ViewOf(f, m, u.epoch), ViewOf(f, m', u.epoch);
    ScanPath(rd, End(m), u.start, u.start);
    assert Path(rd, u.start, u.head) by { PathHere(rd, u.start); }
    forall q | u.start <= q && NextSec(rd, q) <= u.head
      ensures rd'(q) == rd(q)
    {
      ReadRecLocal(f, m, m', u.epoch, q);
    }
    forall q | u.head <= q < End(m) ensures !CommitIn(rd', q) {
      assert !ValidCommit(f, m', u.epoch, q);
    }
    SameScan(rd, rd', End(m), u.start, u.start, u.head);
    SameReplay(f, rd, rd', u.cap, u.start, u.head, EmptyCore(f));
  }

  lemma {:induction false} PathHere(rd: View, sec: nat)
    ensures Path(rd, sec, sec)
  {
  }

  // ---------------------------------------------------------------- the index of any mount

  /** The index points at headers that carry the id, inside the accepted log. */
  ghost predicate Indexed(f: Format, m: Media, e: nat, start: nat, head: nat, idx: map<Id, nat>) {
    forall id :: id in idx ==>
      && start <= idx[id] < head
      && (ReadRec(f, m, e, idx[id]).Record? ==>
            ReadRec(f, m, e, idx[id]).h.id == id && idx[id] + 1 + ReadRec(f, m, e, idx[id]).ps <= head)
  }

  lemma {:induction false} StepIndexed(f: Format, m: Media, e: nat, cap: nat, start: nat, head: nat, sec: nat, c: Core, r: Read)
    requires start <= sec < head && r == ReadRec(f, m, e, sec) && r.Record? && sec + 1 + r.ps <= head
    requires Indexed(f, m, e, start, head, c.idx) && |c.idx| <= cap
    ensures var d := StepCore(f, cap, c, r.h.kind, r.h.sq, r.h.id, r.payload, r.ok, sec);
            Indexed(f, m, e, start, head, d.idx) && |d.idx| <= cap
  {
    hide ReadRec;
  }

  lemma {:induction false} ReplayOne(f: Format, rd: View, cap: nat, stop: nat, sec: nat, c: Core)
    ensures Replay(f, rd, cap, stop, sec, c) ==
      if sec >= stop then c
      else match rd(sec)
           case NoRecord => Replay(f, rd, cap, stop, sec + 1, c)
           case Record(ps, h, p, ok) => Replay(f, rd, cap, stop, sec + 1 + ps, StepCore(f, cap, c, h.kind, h.sq, h.id, p, ok, sec))
  {
  }

  lemma {:induction false} ReplayIndexed(f: Format, m: Media, e: nat, cap: nat, start: nat, head: nat, sec: nat, c: Core)
    requires start <= sec && Path(ViewOf(f, m, e), sec, head) && Indexed(f, m, e, start, head, c.idx) && |c.idx| <= cap
    ensures var r := Replay(f, ViewOf(f, m, e), cap, head, sec, c); Indexed(f, m, e, start, head, r.idx) && |r.idx| <= cap
    decreases head - sec
  {
    hide ReadRec, Indexed, Path, StepCore, Replay;
    var rd := ViewOf(f, m, e);
    ReplayOne(f, rd, cap, head, sec, c);
    if sec < head {
      PathStep(rd, sec, head);
      match rd(sec)
      case NoRecord => ReplayIndexed(f, m, e, cap, start, head, sec + 1, c);
      case Record(ps, hd, p, ok) =>
        StepIndexed(f, m, e, cap, start, head, sec, c, rd(sec));
        ReplayIndexed(f, m, e, cap, start, head, sec + 1 + ps, StepCore(f, cap, c, hd.kind, hd.sq, hd.id, p, ok, sec));
    } else {
      PathEnds(rd, sec, head);
    }
  }

  lemma {:induction false} PathEnds(rd: View, sec: nat, h: nat)
    requires Path(rd, sec, h)
    ensures sec <= h
  {
  }

  /** Whatever is on the medium, a successful mount leaves such an index. */
  lemma {:induction false} MountIndexed(f: Format, m: Media)
    requires MountOf(f, m).Up?
    ensures var u := MountOf(f, m); Indexed(f, m, u.epoch, u.start, u.head, u.core.idx) && |u.core.idx| <= u.cap
  {
    var u := MountOf(f, m);
    var rd := ViewOf(f, m, u.epoch);
    ScanPath(rd, End(m), u.start, u.start);
    ReplayIndexed(f, m, u.epoch, u.cap, u.start, u.head, u.start, EmptyCore(f));
  }

  // ---------------------------------------------------------------- the rewritten log

  /** m is m0 with the records `recs` of epoch e' laid down from sector s0 on, invisible
      to epoch e. */
  ghost predicate Rewritten(f: Format, m0: Media, m: Media, e: nat, e': nat, s0: nat, recs: seq<Rec>) {
    LogInv(f, m, e', s0, recs) && Overlaid(f, m0, m, e, s0, s0 + Spans(recs))
  }

  lemma {:induction false} OtherEpoch(f: Format, e: nat, e': nat, r: Rec, i: nat)
    requires f.Sound() && f.HdrOk(HdrOf(f, e', r)) && e != e' && Quiet(f, e, r.payload) && i < Span(r)
    ensures !CommitHdr(f, e, Image(f, e', r)[i])
  {
    if i > 0 { ImageQuiet(f, e, e', r, i); }
  }

  lemma {:induction false} OverlayGrows(f: Format, m0: Media, m: Media, m': Media, e: nat, e': nat, s0: nat, hi: nat, r: Rec, k: nat)
    requires f.Sound() && f.HdrOk(HdrOf(f, e', r)) && e != e' && Quiet(f, e, r.payload)
    requires s0 <= hi && Overlaid(f, m0, m, e, s0, hi) && Landed(m, m', hi, Image(f, e', r), k)
    ensures Overlaid(f, m0, m', e, s0, hi + k)
  {
    hide Quiet, Image, Format.Sound, CommitHdr;
    forall q | 0 <= q < |m0|
      ensures if s0 <= q < hi + k then !CommitHdrAt(f, m', e, q) else m'[q] == m0[q]
    {
      if hi <= q < hi + k {
        OtherEpoch(f, e, e', r, q - hi);
      } else if s0 <= q < hi {
        assert m'[q] == m[q] && !CommitHdrAt(f, m, e, q);
      }
    }
  }

  /** Each sector of a rewritten record stays invisible to the old epoch; a complete record
      joins the new log. */
  lemma {:induction false} RewriteStep(f: Format, m0: Media, m: Media, m': Media, e: nat, e': nat, s0: nat, recs: seq<Rec>, r: Rec, k: nat)
    requires f.Sound() && f.Injective() && f.HdrOk(HdrOf(f, e', r)) && |r.payload| <= COMMIT_MAX && e != e'
    requires Quiet(f, e, r.payload) && Quiet(f, e', r.payload)
    requires Rewritten(f, m0, m, e, e', s0, recs) && s0 + Spans(recs) + Span(r) <= End(m)
    requires Landed(m, m', s0 + Spans(recs), Image(f, e', r), k) && 1 <= k
    ensures Overlaid(f, m0, m', e, s0, s0 + Spans(recs) + k)
    ensures LogInv(f, m', e', s0, LandedRecs(f, m', e', s0, recs, r, k))
    ensures k == Span(r) ==> Rewritten(f, m0, m', e, e', s0, recs + [r])
  {
    hide LogInv, Overlaid, Landed, Quiet, Image, Format.Sound, Format.Injective, Format.HdrOk, Spans, RecAt, LogBase;
    OverlayGrows(f, m0, m, m', e, e', s0, s0 + Spans(recs), r, k);
    InvIsBase(f, m, e', s0, recs);
    EmitStep(f, m, m', e', s0, recs, r, k);
    SpansSnoc(recs, r);
  }

  // ---------------------------------------------------------------- before the switch

  /** Behind the accepted log no commit of this epoch waits: none verifies past the append
      point, and what was appended since the last commit holds no commit header. */
  ghost predicate TailClear(f: Format, m: Media, e: nat, h: nat, head: nat) {
    && (forall q :: h <= q < head && q < End(m) ==> !CommitHdrAt(f, m, e, q))
    && (forall q :: head <= q < End(m) ==> !ValidCommit(f, m, e, q))
  }

  /** What has been rewritten so far, behind the log or in front of it, moves no mount. */
  lemma {:induction false} RewriteUnmoved(f: Format, m: Media, m': Media, head: nat, lo: nat, hi: nat)
    requires |m| >= 2 && MountOf(f, m).Up? && MountOf(f, m).head <= head <= End(m)
    requires TailClear(f, m, MountOf(f, m).epoch, MountOf(f, m).head, head)
    requires Overlaid(f, m, m', MountOf(f, m).epoch, lo, hi)
    requires 1 <= lo && hi <= End(m) && (lo == head || hi <= MountOf(f, m).start)
    ensures MountOf(f, m') == MountOf(f, m)
  {
    hide MountOf, CommitHdrAt, ValidCommit;
    var u := MountOf(f, m);
    var e := u.epoch;
    MountHeads(f, m);
    assert SuperOf(f, m') == SuperOf(f, m) by { SuperFrame(f, m, m'); }
    forall q | u.head <= q < End(m) ensures !ValidCommit(f, m', e, q) {
      if q >= hi {
        if q >= head {
          ReadRecFrame(f, m, m', e, q);
          SameCommit(f, m, m', e, q);
        } else {
          CommitHdrFrame(f, m, m', e, q);
          NoHdrNoCommit(f, m', e, q);
        }
      } else if q < lo {
        CommitHdrFrame(f, m, m', e, q);
        NoHdrNoCommit(f, m', e, q);
      } else {
        NoHdrNoCommit(f, m', e, q);
      }
    }
    MountUnmoved(f, m, m');
  }

  lemma {:induction false} CommitHdrFrame(f: Format, m: Media, m': Media, e: nat, q: nat)
    requires |m| == |m'| && q < |m| && m[q] == m'[q]
    ensures CommitHdrAt(f, m, e, q) == CommitHdrAt(f, m', e, q)
  {
  }

  lemma {:induction false} MountHeads(f: Format, m: Media)
    requires MountOf(f, m).Up?
    ensures MountOf(f, m).start <= MountOf(f, m).head
  {
    var u := MountOf(f, m);
    ScanPath(ViewOf(f, m, u.epoch), End(m), u.start, u.start);
  }

  // ---------------------------------------------------------------- what the new log holds

  /** Rewriting one more readable block extends the new index by exactly its id. */
  lemma {:induction false} RewriteIndex(f: Format, cap: nat, s0: nat, recs: seq<Rec>, r: Rec, done: set<Id>, all: set<Id>)
    requires r.kind == REC_BLOCK && f.sha(r.payload) !in done && done + {f.sha(r.payload)} <= all && |all| <= cap
    requires CoreOf(f, cap, s0, recs).idx.Keys == done
    ensures CoreOf(f, cap, s0, recs + [r]).idx.Keys == done + {f.sha(r.payload)}
  {
    hide CoreOf;
    BlockEffect(f, cap, s0, recs, r);
    var id := f.sha(r.payload);
    var idx := CoreOf(f, cap, s0, recs).idx;
    assert |done + {id}| == |done| + 1;
    FewerKeys(done + {id}, all);
    assert |idx| == |idx.Keys|;
    assert idx[id := s0 + Spans(recs)].Keys == done + {id};
  }

  /** The new superblock makes the complete new log the mounted one. */
  lemma {:induction false} Switched(f: Format, m: Media, sec: nat, sb: Super, recs: seq<Rec>, lib: Library)
    requires f.Sound() && f.SuperOk(sb) && 2 <= |m| < U32 && (sec == 0 || (sec == |m| - 1 && SuperIn(f, m[0]) == Some(sb)))
    requires sb == Super(FMT_VERSION, SECTOR, sb.logStart, |m|, sb.epoch)
    requires LogInv(f, m, sb.epoch, sb.logStart, recs)
    requires LibOk(f, lib) && lib == LibOf(CoreOf(f, CapOf(|m|), sb.logStart, Committed(recs)))
    ensures var s := Shot(m[sec := Sec(f.encSuper(sb))], sb.epoch, sb.logStart, recs); ShotOk(f, s) && Shown(f, s) == lib
  {
    hide LogInv, LibOk, CoreOf;
    var m' := m[sec := Sec(f.encSuper(sb))];
    LogBounds(f, m, sb.epoch, sb.logStart, recs);
    assert f.decSuper(f.encSuper(sb)) == Some(sb);
    OutsideInv(f, m, m', sb.epoch, sb.logStart, recs);
  }

  // ---------------------------------------------------------------- the state compaction starts from

  /** A mounted volume, possibly on a damaged medium: blocks may have become unreadable. */
  ghost predicate MountedOk(f: Format, m: Media, e: nat, start: nat, head: nat, cap: nat, lib: Library) {
    && FormatOk(f) && 2 <= |m| < U32 && e < U32 && 1 <= start <= head <= End(m)
    && SuperOf(f, m) == Some(Super(FMT_VERSION, SECTOR, start, |m|, e))
    && cap == CapOf(|m|) && |lib.idx| <= cap && Indexed(f, m, e, start, head, lib.idx)
    && RowsOk(f, lib.live, lib.mroot)
    && MountOf(f, m).head <= head && TailClear(f, m, e, MountOf(f, m).head, head)
  }

  /** Every block that still reads is quiet for both epochs. */
  ghost predicate BlocksQuiet(f: Format, m: Media, e: nat, e': nat, idx: map<Id, nat>) {
    forall id :: id in idx && BlockGet(f, m, e, idx, id).Got? ==>
      Quiet(f, e, BlockGet(f, m, e, idx, id).value) && Quiet(f, e', BlockGet(f, m, e, idx, id).value)
  }

  /** What the new log will hold is quiet for both epochs: the blocks that still read, and the
      commit behind them. */
  ghost predicate CompactQuiet(f: Format, m: Media, e: nat, lib: Library) {
    && BlocksQuiet(f, m, e, Bump(e), lib.idx)
    && RowsQuiet(f, e, 0, |lib.idx|, lib.live, lib.mroot) && RowsQuiet(f, Bump(e), 0, |lib.idx|, lib.live, lib.mroot)
  }

  /** The free region the new log goes to: behind the log, or in front of it. */
  predicate FreeRegion(m: Media, start: nat, head: nat, s0: nat, lim: nat) {
    1 <= s0 <= lim <= End(m) && (s0 == head || (s0 == 1 && lim <= start))
  }

  /** The old blocks still read the same while the new log grows. */
  lemma {:induction false} ReadsStill(f: Format, m: Media, m': Media, e: nat, start: nat, head: nat, idx: map<Id, nat>, s0: nat, hi: nat, id: Id)
    requires Indexed(f, m, e, start, head, idx) && Overlaid(f, m, m', e, s0, hi) && head <= End(m)
    requires s0 >= head || hi <= start
    ensures BlockGet(f, m', e, idx, id) == BlockGet(f, m, e, idx, id)
    ensures id in idx ==> ReadFault(f, m', e, idx[id]) == ReadFault(f, m, e, idx[id])
  {
    hide ReadRec;
    if id in idx {
      var r := ReadRec(f, m, e, idx[id]);
      ReadRecLocal(f, m, m', e, idx[id]);
      if r.Record? { GatherFrame(m, m', idx[id] + 1, r.h.len); }
    }
  }

  /** A block that reads through the index hashes to its id. */
  lemma {:induction false} ReadsOwnId(f: Format, m: Media, e: nat, start: nat, head: nat, idx: map<Id, nat>, id: Id)
    requires Indexed(f, m, e, start, head, idx) && BlockGet(f, m, e, idx, id).Got?
    ensures f.sha(BlockGet(f, m, e, idx, id).value) == id && |BlockGet(f, m, e, idx, id).value| <= COMMIT_MAX
  {
  }

  /** Media passed during the write pass, with how far each got. */
  ghost predicate OverTrail(f: Format, m0: Media, trail: seq<Media>, ends: seq<nat>, e: nat, s0: nat, lim: nat) {
    |ends| == |trail| && forall i :: 0 <= i < |trail| ==> ends[i] <= lim && Overlaid(f, m0, trail[i], e, s0, ends[i])
  }

  lemma {:induction false} OverTrailGrows(f: Format, m0: Media, trail: seq<Media>, ends: seq<nat>, e: nat, s0: nat, lim: nat,
                                          t: seq<Media>, m: Media, e': nat, hi: nat, r: Rec)
    requires OverTrail(f, m0, trail, ends, e, s0, lim) && s0 <= hi && hi + |t| <= lim
    requires f.Sound() && f.HdrOk(HdrOf(f, e', r)) && e != e' && Quiet(f, e, r.payload) && Overlaid(f, m0, m, e, s0, hi)
    requires forall i :: 0 <= i < |t| ==> Landed(m, t[i], hi, Image(f, e', r), i + 1)
    ensures OverTrail(f, m0, trail + t, ends + seq(|t|, i => hi + i + 1), e, s0, lim)
  {
    hide Overlaid, Landed, Quiet, Image, Format.Sound;
    var more := seq(|t|, i => hi + i + 1);
    forall i | 0 <= i < |trail + t|
      ensures (ends + more)[i] <= lim && Overlaid(f, m0, (trail + t)[i], e, s0, (ends + more)[i])
    {
      if i >= |trail| {
        var j := i - |trail|;
        OverlayGrows(f, m0, m, t[j], e, e', s0, hi, r, j + 1);
        assert (trail + t)[i] == t[j] && (ends + more)[i] == hi + (j + 1);
      }
    }
  }

  lemma {:induction false} TrailUnmoved(f: Format, m0: Media, trail: seq<Media>, ends: seq<nat>, e: nat, start: nat, head: nat, cap: nat, lib: Library, s0: nat, lim: nat)
    requires MountedOk(f, m0, e, start, head, cap, lib) && FreeRegion(m0, start, head, s0, lim)
    requires OverTrail(f, m0, trail, ends, e, s0, lim)
    ensures forall i :: 0 <= i < |trail| ==> MountOf(f, trail[i]) == MountOf(f, m0)
  {
    hide Overlaid, TailClear, FormatOk, Indexed, RowsOk, LastCommitEnd, Replay;
    forall i | 0 <= i < |trail| ensures MountOf(f, trail[i]) == MountOf(f, m0) {
      RewriteUnmoved(f, m0, trail[i], head, s0, ends[i]);
    }
  }

  lemma {:induction false} TrailShapes(f: Format, m0: Media, trail: seq<Media>, ends: seq<nat>, e: nat, s0: nat, lim: nat)
    requires OverTrail(f, m0, trail, ends, e, s0, lim) && 1 <= s0
    ensures forall i :: 0 <= i < |trail| ==> SameShape(m0, trail[i])
  {
  }

  // ---------------------------------------------------------------- the write pass

  /** The write pass so far: where it started, what the new log holds, the media passed. */
  datatype Pass = Pass(m0: Media, e: nat, s0: nat, lim: nat, recs: seq<Rec>, trail: seq<Media>, ends: seq<nat>)

  ghost predicate SamePass(w: Pass, w': Pass) {
    w'.m0 == w.m0 && w'.e == w.e && w'.s0 == w.s0 && w'.lim == w.lim
  }

  /** The medium is the last one passed. */
  ghost predicate LastMedia(w: Pass, m: Media) {
    |m| == |w.m0| && m == if w.trail == [] then w.m0 else w.trail[|w.trail| - 1]
  }

  ghost predicate PassOk(f: Format, w: Pass, m: Media, head: nat, e': nat) {
    && Rewritten(f, w.m0, m, w.e, e', w.s0, w.recs)
    && head == w.s0 + Spans(w.recs) <= w.lim <= End(m) && 1 <= w.lim
    && OverTrail(f, w.m0, w.trail, w.ends, w.e, w.s0, w.lim)
    && |m| == |w.m0| && e' != w.e
  }

  ghost function PassAfter(f: Format, w: Pass, e': nat, r: Rec, t: seq<Media>): Pass {
    var hi := w.s0 + Spans(w.recs);
    w.(recs := if t == [] then w.recs else LandedRecs(f, t[|t| - 1], e', w.s0, w.recs, r, |t|),
       trail := w.trail + t, ends := w.ends + seq(|t|, i => hi + i + 1))
  }

  lemma {:induction false} PassEmits(f: Format, w: Pass, m: Media, head: nat, e': nat, r: Rec, t: seq<Media>)
    requires f.Sound() && f.Injective() && f.HdrOk(HdrOf(f, e', r)) && |r.payload| <= COMMIT_MAX
    requires Quiet(f, w.e, r.payload) && Quiet(f, e', r.payload)
    requires PassOk(f, w, m, head, e') && |t| <= Span(r) && (t == [] || head + Span(r) <= w.lim)
    requires forall i :: 0 <= i < |t| ==> Landed(m, t[i], head, Image(f, e', r), i + 1)
    ensures var w' := PassAfter(f, w, e', r, t); var m' := if t == [] then m else t[|t| - 1];
            && OverTrail(f, w'.m0, w'.trail, w'.ends, w'.e, w'.s0, w'.lim)
            && LogInv(f, m', e', w.s0, w'.recs) && |m'| == |m|
            && (|t| == Span(r) ==> PassOk(f, w', m', head + Span(r), e') && w'.recs == w.recs + [r])
  {
    hide Format.Sound, Format.Injective, Format.HdrOk, Quiet, Overlaid, LogInv, Spans, Image, RecAt;
    if t == [] {
      assert w.trail + t == w.trail && w.ends + seq(|t|, i => w.s0 + Spans(w.recs) + i + 1) == w.ends;
    } else {
      RewriteStep(f, w.m0, m, t[|t| - 1], w.e, e', w.s0, w.recs, r, |t|);
      OverTrailGrows(f, w.m0, w.trail, w.ends, w.e, w.s0, w.lim, t, m, e', head, r);
      SpansSnoc(w.recs, r);
    }
  }

  /** The empty new log is sound exactly because no commit of its epoch lies ahead. */
  lemma {:induction false} PassStarts(f: Format, m: Media, e: nat, e': nat, s0: nat, lim: nat)
    requires 1 <= s0 <= lim <= End(m) && e != e' && forall q :: s0 <= q < End(m) ==> !ValidCommit(f, m, e', q)
    ensures PassOk(f, Pass(m, e, s0, lim, [], [], []), m, s0, e')
  {
  }

  lemma {:induction false} BlockFacts(f: Format, m: Media, e: nat, e': nat, start: nat, head: nat, cap: nat, lib: Library, id: Id)
    requires MountedOk(f, m, e, start, head, cap, lib) && BlocksQuiet(f, m, e, e', lib.idx) && e' < U32
    requires BlockGet(f, m, e, lib.idx, id).Got?
    ensures var p := BlockGet(f, m, e, lib.idx, id).value;
            f.sha(p) == id && |p| <= COMMIT_MAX && Quiet(f, e, p) && Quiet(f, e', p) && id in lib.idx
    ensures f.Sound() && f.Injective()
    ensures forall n: nat :: n < U32 ==> f.HdrOk(HdrOf(f, e', Rec(REC_BLOCK, n, BlockGet(f, m, e, lib.idx, id).value)))
  {
    hide Quiet, TailClear, SuperOf, MountOf, RowsOk, ReadRec, Format.Injective;
    ReadsOwnId(f, m, e, start, head, lib.idx, id);
  }

  lemma {:induction false} CommitRecFacts(f: Format, e': nat, c: Commit, n: nat)
    requires FormatOk(f) && c.sq < U32 && RowsOk(f, c.table, c.mroot) && e' < U32 && n < U32
    ensures f.Sound() && f.Injective() && f.CommitOk(c) && |f.encCommit(c)| <= COMMIT_MAX
    ensures f.HdrOk(HdrOf(f, e', Rec(REC_COMMIT, n, f.encCommit(c))))
  {
    hide Format.Injective, RowsOk;
    CommitFacts(f, c);
  }

  /** All media passed so far, and the current one, are young for the new epoch. */
  ghost predicate YoungPass(f: Format, w: Pass, m: Media, e': nat) {
    Young(f, m, e') && forall i :: 0 <= i < |w.trail| ==> Young(f, w.trail[i], e')
  }

  lemma {:induction false} PassYoung(f: Format, w: Pass, m: Media, head: nat, e': nat, r: Rec, t: seq<Media>)
    requires f.Sound() && f.HdrOk(HdrOf(f, e', r)) && QuietLater(f, e', r.payload) && YoungPass(f, w, m, e')
    requires forall i :: 0 <= i < |t| ==> Landed(m, t[i], head, Image(f, e', r), i + 1)
    ensures YoungPass(f, PassAfter(f, w, e', r, t), if t == [] then m else t[|t| - 1], e')
  {
    hide Young, Landed, Image, QuietLater, Format.Sound, Format.HdrOk, LandedRecs;
    forall i | 0 <= i < |t| ensures Young(f, t[i], e') { YoungLands(f, m, t[i], e', head, e', r, i + 1); }
  }

  /** All media of a young pass are young, and so are those of the switch after it. */
  lemma {:induction false} YoungTrail(f: Format, w: Pass, m: Media, e': nat, t: seq<Media>)
    requires Young(f, m, e') ==> forall i :: 0 <= i < |t| ==> Young(f, t[i], e')
    ensures YoungPass(f, w, m, e') ==> forall i :: 0 <= i < |w.trail + t| ==> Young(f, (w.trail + t)[i], e')
    ensures YoungPass(f, w, m, e') ==> forall i :: 0 <= i < |w.trail| ==> Young(f, w.trail[i], e')
  {
    hide Young;
  }

  lemma {:induction false} YoungStart(f: Format, w: Pass, m: Media, e': nat)
    requires w.trail == [] && Young(f, m, e')
    ensures YoungPass(f, w, m, e')
  {
  }

  /** What the new log will hold imitates no commit of an epoch after the new one. */
  ghost predicate CompactLater(f: Format, m: Media, e: nat, lib: Library) {
    && (forall id :: id in lib.idx && BlockGet(f, m, e, lib.idx, id).Got? ==> QuietLater(f, Bump(e), BlockGet(f, m, e, lib.idx, id).value))
    && RowsLater(f, Bump(e), 0, |lib.idx|, lib.live, lib.mroot)
  }

  /** The blocks of the index that still read. */
  ghost function Readable(f: Format, m: Media, e: nat, idx: map<Id, nat>): set<Id> {
    set id | id in idx && BlockGet(f, m, e, idx, id).Got?
  }

  /** Part of the index is worked off: `done` are the blocks of it that read. */
  ghost predicate Sifted(f: Format, m: Media, e: nat, idx: map<Id, nat>, rest: set<Id>, done: set<Id>) {
    && rest <= idx.Keys && done <= idx.Keys && done !! rest
    && forall id :: id in idx && id !in rest ==> (id in done <==> BlockGet(f, m, e, idx, id).Got?)
  }

  lemma SiftStarts(f: Format, m: Media, e: nat, idx: map<Id, nat>)
    ensures Sifted(f, m, e, idx, idx.Keys, {})
  {}

  lemma SiftStep(f: Format, m: Media, e: nat, idx: map<Id, nat>, rest: set<Id>, done: set<Id>, id: Id)
    requires Sifted(f, m, e, idx, rest, done) && id in rest
    ensures id in idx && id !in done && done <= idx.Keys && |done + {id}| == |done| + 1
    ensures BlockGet(f, m, e, idx, id).Got? ==> Sifted(f, m, e, idx, rest - {id}, done + {id})
    ensures BlockGet(f, m, e, idx, id).Err? ==> Sifted(f, m, e, idx, rest - {id}, done)
  {
    hide BlockGet;
  }

  lemma SiftEnds(f: Format, m: Media, e: nat, idx: map<Id, nat>, done: set<Id>)
    requires Sifted(f, m, e, idx, {}, done)
    ensures done == Readable(f, m, e, idx) && |done| <= |idx|
  {
    hide BlockGet;
    FewerKeys(done, idx.Keys);
    assert |idx| == |idx.Keys|;
  }

  /** The write pass in the middle of its block loop: `done` is copied, `n` sequence numbers
      are spent. */
  ghost predicate Copying(f: Format, cap: nat, lib: Library, w0: Pass, w: Pass, m: Media, head: nat, rest: set<Id>, done: set<Id>, sq0: nat, sq: nat) {
    && Sifted(f, w0.m0, w0.e, lib.idx, rest, done)
    && PassGoes(f, w0, w, m)
    && PassOk(f, w, m, head, Bump(w0.e))
    && CoreOf(f, cap, w0.s0, w.recs).idx.Keys == done && BlocksOnly(w.recs)
    && sq == BumpBy(sq0, |done|)
  }

  /** The same pass, with every medium so far invisible to the old log. */
  ghost predicate PassGoes(f: Format, w0: Pass, w: Pass, m: Media) {
    SamePass(w0, w) && LastMedia(w, m) && OverTrail(f, w.m0, w.trail, w.ends, w.e, w.s0, w.lim)
  }

  lemma {:induction false} CopyStarts(f: Format, cap: nat, lib: Library, w: Pass, m: Media, head: nat, sq: nat)
    requires PassOk(f, w, m, head, Bump(w.e)) && LastMedia(w, m) && w.recs == []
    ensures Copying(f, cap, lib, w, w, m, head, lib.idx.Keys, {}, sq, sq)
  {
    hide PassOk, OverTrail, LastMedia, BlocksOnly, CoreOf;
    SiftStarts(f, w.m0, w.e, lib.idx);
    CoreNone(f, cap, w.s0);
    PassTrail(f, w, m, head, Bump(w.e));
    NoBlocks();
  }

  lemma {:induction false} CopyOpens(f: Format, cap: nat, lib: Library, w0: Pass, w: Pass, m: Media, head: nat, rest: set<Id>, done: set<Id>, sq0: nat, sq: nat, id: Id)
    requires Copying(f, cap, lib, w0, w, m, head, rest, done, sq0, sq) && id in rest
    ensures PassGoes(f, w0, w, m) && PassOk(f, w, m, head, Bump(w0.e))
    ensures id in lib.idx && id !in done && done <= lib.idx.Keys && CoreOf(f, cap, w0.s0, w.recs).idx.Keys == done && BlocksOnly(w.recs)
  {
    hide PassOk, OverTrail, LastMedia, BlocksOnly, CoreOf, PassGoes;
  }

  lemma {:induction false} CopySifts(f: Format, cap: nat, lib: Library, w0: Pass, w: Pass, m: Media, head: nat, rest: set<Id>, done: set<Id>, sq0: nat, sq: nat)
    requires Copying(f, cap, lib, w0, w, m, head, rest, done, sq0, sq)
    ensures Sifted(f, w0.m0, w0.e, lib.idx, rest, done)
  {
    hide PassOk, OverTrail, LastMedia, BlocksOnly, CoreOf, PassGoes, Sifted;
  }

  lemma {:induction false} CopyGoes(f: Format, cap: nat, lib: Library, w0: Pass, w: Pass, w': Pass, m: Media, m': Media, head: nat, head': nat,
                                    rest: set<Id>, done: set<Id>, sq0: nat, sq: nat, sq': nat, id: Id, kept: bool)
    requires Copying(f, cap, lib, w0, w, m, head, rest, done, sq0, sq) && id in rest
    requires PassGoes(f, w, w', m') && PassOk(f, w', m', head', Bump(w0.e)) && kept == BlockGet(f, w0.m0, w0.e, lib.idx, id).Got?
    requires CoreOf(f, cap, w0.s0, w'.recs).idx.Keys == (if kept then done + {id} else done) && BlocksOnly(w'.recs)
    requires sq' == if kept then Bump(sq) else sq
    ensures Copying(f, cap, lib, w0, w', m', head', rest - {id}, if kept then done + {id} else done, sq0, sq')
  {
    hide PassOk, OverTrail, LastMedia, BlocksOnly, CoreOf, BlockGet, Sifted;
    SiftStep(f, w0.m0, w0.e, lib.idx, rest, done, id);
  }

  lemma {:induction false} CopyEnds(f: Format, cap: nat, lib: Library, w0: Pass, w: Pass, m: Media, head: nat, done: set<Id>, sq0: nat, sq: nat)
    requires Copying(f, cap, lib, w0, w, m, head, {}, done, sq0, sq)
    ensures PassGoes(f, w0, w, m) && PassOk(f, w, m, head, Bump(w0.e)) && BlocksOnly(w.recs)
    ensures done == Readable(f, w0.m0, w0.e, lib.idx) && |done| <= |lib.idx|
    ensures CoreOf(f, cap, w0.s0, w.recs).idx.Keys == done && sq == BumpBy(sq0, |done|)
  {
    hide PassOk, OverTrail, LastMedia, BlocksOnly, CoreOf, BlockGet, Sifted, PassGoes;
    SiftEnds(f, w0.m0, w0.e, lib.idx, done);
  }

  lemma {:induction false} FewerKeys(a: set<Id>, b: set<Id>)
    requires a <= b
    ensures |a| <= |b|
  {
    assert b == a + (b - a);
  }

  /** The first j blocks a row names. */
  ghost function RowNames(d: Dent, j: nat): set<Id> { set k | 0 <= k < j && k < d.nblk && k < |d.blk| :: d.blk[k] }

  lemma {:induction false} NamedNext(live: seq<Dent>, i: nat, j: nat)
    requires i < |live|
    ensures RowNames(live[i], 0) == {}
    ensures j < live[i].nblk && j < |live[i].blk| ==> RowNames(live[i], j + 1) == RowNames(live[i], j) + {live[i].blk[j]}
  {
  }

  lemma {:induction false} NamedRow(live: seq<Dent>, i: nat)
    requires i < |live| && live[i].nblk <= |live[i].blk|
    ensures Named(live[..i + 1]) == Named(live[..i]) + RowNames(live[i], live[i].nblk)
  {
    var a, b := live[..i], live[..i + 1];
    assert forall k :: 0 <= k < i ==> a[k] == b[k];
    assert b[i] == live[i];
    forall id | id in Named(b) ensures id in Named(a) + RowNames(live[i], live[i].nblk) {
      var x, y :| 0 <= x < |b| && 0 <= y < b[x].nblk && y < |b[x].blk| && b[x].blk[y] == id;
      if x < i { assert a[x].blk[y] == id; }
    }
    forall id | id in Named(a) ensures id in Named(b) {
      var x, y :| 0 <= x < |a| && 0 <= y < a[x].nblk && y < |a[x].blk| && a[x].blk[y] == id;
      assert b[x].blk[y] == id;
    }
    forall id | id in RowNames(live[i], live[i].nblk) ensures id in Named(b) {
      var y :| 0 <= y < live[i].nblk && y < |live[i].blk| && live[i].blk[y] == id;
      assert b[i].blk[y] == id;
    }
  }

  /** Sectors the record of this block takes in a log, if it reads. */
  ghost function BlockFoot(f: Format, m: Media, e: nat, idx: map<Id, nat>, id: Id): nat {
    match BlockGet(f, m, e, idx, id)
    case Err(_) => 0
    case Got(p) => 1 + Sectors(|p|)
  }

  /** The same for all of these ids. */
  ghost function FootOf(f: Format, m: Media, e: nat, idx: map<Id, nat>, ids: seq<Id>): nat {
    if ids == [] then 0 else FootOf(f, m, e, idx, ids[..|ids| - 1]) + BlockFoot(f, m, e, idx, ids[|ids| - 1])
  }

  lemma {:induction false} FootMore(f: Format, m: Media, e: nat, idx: map<Id, nat>, ids: seq<Id>, id: Id)
    ensures FootOf(f, m, e, idx, ids + [id]) == FootOf(f, m, e, idx, ids) + BlockFoot(f, m, e, idx, id)
  {
    hide BlockFoot;
    assert (ids + [id])[..|ids|] == ids;
  }

  /** The footprint without the block at place k. */
  lemma {:induction false} FootWithout(f: Format, m: Media, e: nat, idx: map<Id, nat>, ids: seq<Id>, k: nat)
    requires k < |ids|
    ensures FootOf(f, m, e, idx, ids) == FootOf(f, m, e, idx, ids[..k] + ids[k + 1..]) + BlockFoot(f, m, e, idx, ids[k])
    decreases |ids|
  {
    hide BlockFoot;
    var n := |ids| - 1;
    if k == n {
      assert ids[..k] + ids[k + 1..] == ids[..n];
    } else {
      var front, less := ids[..n], ids[..k] + ids[k + 1..];
      FootWithout(f, m, e, idx, front, k);
      assert less[..n - 1] == front[..k] + front[k + 1..];
      assert less[n - 1] == ids[n];
    }
  }

  /** Fewer blocks take fewer sectors, in whatever order they are listed. */
  lemma {:induction false} FootMono(f: Format, m: Media, e: nat, idx: map<Id, nat>, a: seq<Id>, some: set<Id>, b: seq<Id>, all: set<Id>)
    requires Lists(a, some) && Lists(b, all) && some <= all
    ensures FootOf(f, m, e, idx, a) <= FootOf(f, m, e, idx, b)
    decreases |a|
  {
    hide BlockFoot;
    if a != [] {
      var n := |a| - 1;
      var id := a[n];
      assert id in a;
      var k :| 0 <= k < |b| && b[k] == id;
      FootWithout(f, m, e, idx, b, k);
      ListsLess(a, some, n);
      ListsLess(b, all, k);
      assert a[..n] + a[n + 1..] == a[..n];
      FootMono(f, m, e, idx, a[..n], some - {id}, b[..k] + b[k + 1..], all - {id});
    }
  }

  lemma {:induction false} FootSame(f: Format, m: Media, e: nat, idx: map<Id, nat>, a: seq<Id>, b: seq<Id>, all: set<Id>)
    requires Lists(a, all) && Lists(b, all)
    ensures FootOf(f, m, e, idx, a) == FootOf(f, m, e, idx, b)
  {
    FootMono(f, m, e, idx, a, all, b, all);
    FootMono(f, m, e, idx, b, all, a, all);
  }

  lemma {:induction false} ListsLess(ids: seq<Id>, all: set<Id>, k: nat)
    requires Lists(ids, all) && k < |ids|
    ensures Lists(ids[..k] + ids[k + 1..], all - {ids[k]})
  {
    var less := ids[..k] + ids[k + 1..];
    forall i | 0 <= i < |less| ensures less[i] == ids[if i < k then i else i + 1] {}
    forall id | id in all - {ids[k]} ensures id in less {
      var i :| 0 <= i < |ids| && ids[i] == id;
      assert less[if i < k then i else i - 1] == id;
    }
    forall id | id in less ensures id in all - {ids[k]} {
      var i :| 0 <= i < |less| && less[i] == id;
      assert ids[if i < k then i else i + 1] in ids;
    }
  }

  /** These ids, each once. */
  ghost predicate Lists(ids: seq<Id>, all: set<Id>) {
    (forall i, j :: 0 <= i < j < |ids| ==> ids[i] != ids[j]) && forall id :: id in ids <==> id in all
  }

  lemma {:induction false} ListsNone(f: Format, m: Media, e: nat, idx: map<Id, nat>)
    ensures Lists([], {}) && FootOf(f, m, e, idx, []) == 0
  {
  }

  lemma {:induction false} ListsMore(ids: seq<Id>, all: set<Id>, id: Id)
    requires Lists(ids, all) && id !in all
    ensures Lists(ids + [id], all + {id})
  {
    assert forall i :: 0 <= i < |ids| ==> ids[i] in ids;
  }

  /** What is copied so far takes the sectors of the new log up to head. */
  ghost predicate Counted(f: Format, w0: Pass, lib: Library, head: nat, done: set<Id>, ids: seq<Id>) {
    Lists(ids, done) && head == w0.s0 + FootOf(f, w0.m0, w0.e, lib.idx, ids)
  }

  lemma {:induction false} CountStarts(f: Format, w0: Pass, lib: Library, m: Media, head: nat)
    requires PassOk(f, w0, m, head, Bump(w0.e)) && w0.recs == []
    ensures Counted(f, w0, lib, head, {}, [])
  {
    hide OverTrail, Overlaid, BlockFoot, LogInv;
    ListsNone(f, w0.m0, w0.e, lib.idx);
  }

  lemma {:induction false} CountNext(f: Format, w0: Pass, lib: Library, head: nat, done: set<Id>, ids: seq<Id>, id: Id, kept: bool)
    requires Counted(f, w0, lib, head, done, ids) && id !in done && kept == BlockGet(f, w0.m0, w0.e, lib.idx, id).Got?
    ensures Counted(f, w0, lib, head + BlockFoot(f, w0.m0, w0.e, lib.idx, id), if kept then done + {id} else done, if kept then ids + [id] else ids)
  {
    hide BlockGet, FootOf, Lists;
    FootMore(f, w0.m0, w0.e, lib.idx, ids, id);
    ListsMore(ids, done, id);
  }

  /** A block that does not fit behind those copied is the sign that not all fit. */
  lemma {:induction false} CountOverflows(f: Format, w0: Pass, lib: Library, head: nat, rest: set<Id>, done: set<Id>, ids: seq<Id>, id: Id, all: seq<Id>)
    requires Counted(f, w0, lib, head, done, ids) && Sifted(f, w0.m0, w0.e, lib.idx, rest, done) && id in rest
    requires Lists(all, Readable(f, w0.m0, w0.e, lib.idx)) && BlockGet(f, w0.m0, w0.e, lib.idx, id).Got?
    ensures head + BlockFoot(f, w0.m0, w0.e, lib.idx, id) <= w0.s0 + FootOf(f, w0.m0, w0.e, lib.idx, all)
  {
    hide BlockGet, FootOf, Lists, BlockFoot;
    CountNext(f, w0, lib, head, done, ids, id, true);
    FootMono(f, w0.m0, w0.e, lib.idx, ids + [id], done + {id}, all, Readable(f, w0.m0, w0.e, lib.idx));
  }

  lemma {:induction false} CountEnds(f: Format, w0: Pass, lib: Library, head: nat, ids: seq<Id>, all: seq<Id>)
    requires Counted(f, w0, lib, head, Readable(f, w0.m0, w0.e, lib.idx), ids) && Lists(all, Readable(f, w0.m0, w0.e, lib.idx))
    ensures head == w0.s0 + FootOf(f, w0.m0, w0.e, lib.idx, all)
  {
    hide BlockGet, FootOf, Lists, Readable;
    FootSame(f, w0.m0, w0.e, lib.idx, ids, all, Readable(f, w0.m0, w0.e, lib.idx));
  }

  /** g_rr_ioerr: the device could not read a sector of the record at sec. */
  predicate ReadFault(f: Format, m: Media, e: nat, sec: nat) {
    sec < End(m) && (m[sec].Unreadable? ||
      (ReadRec(f, m, e, sec).Record? && Gather(m, sec + 1, ReadRec(f, m, e, sec).h.len).None?))
  }

  lemma {:induction false} GatherIff(m: Media, pos: nat, len: nat)
    requires pos + Sectors(len) <= |m|
    ensures Gather(m, pos, len).None? <==> exists q :: pos <= q < pos + Sectors(len) && m[q].Unreadable?
    decreases len
  {
    if len > 0 && m[pos].Sec? {
      var n := Min(len, 512);
      assert Sectors(len) == 1 + Sectors(len - n);
      GatherIff(m, pos + 1, len - n);
    }
  }

  /** A read fault is a sector of the record the device does not return: its header, or, behind a
      good header, one of its payload. */
  lemma {:induction false} FaultIff(f: Format, m: Media, e: nat, sec: nat)
    ensures ReadFault(f, m, e, sec) <==>
              sec < End(m) && (m[sec].Unreadable?
                || (ReadRec(f, m, e, sec).Record? && exists q :: sec < q <= sec + ReadRec(f, m, e, sec).ps && m[q].Unreadable?))
  {
    if sec < End(m) && ReadRec(f, m, e, sec).Record? { GatherIff(m, sec + 1, ReadRec(f, m, e, sec).h.len); }
  }

  lemma {:induction false} GotNoFault(f: Format, m: Media, e: nat, idx: map<Id, nat>, id: Id)
    requires BlockGet(f, m, e, idx, id).Got?
    ensures !ReadFault(f, m, e, idx[id])
  {
  }

  lemma {:induction false} NoBlocks()
    ensures BlocksOnly([])
  {
  }

  predicate BlocksOnly(recs: seq<Rec>) { forall i :: 0 <= i < |recs| ==> recs[i].kind == REC_BLOCK }

  /** Every commit of the new log shows this table, this root and these blocks. */
  ghost predicate Resealed(f: Format, cap: nat, s0: nat, recs: seq<Rec>, lib: Library, keep: set<Id>) {
    && Committed(recs) == recs && recs != []
    && forall k :: 0 < k <= |recs| && recs[k - 1].kind == REC_COMMIT ==> SameButIndex(LibOf(CoreOf(f, cap, s0, recs[..k])), lib, keep)
  }

  predicate SameButIndex(a: Library, lib: Library, keep: set<Id>) { a.live == lib.live && a.mroot == lib.mroot && a.idx.Keys == keep }

  lemma {:induction false} ResealedAll(f: Format, cap: nat, s0: nat, recs: seq<Rec>, lib: Library, keep: set<Id>)
    requires Resealed(f, cap, s0, recs, lib, keep)
    ensures Committed(recs) == recs
  {
    hide CoreOf;
  }

  lemma {:induction false} SealOne(f: Format, cap: nat, s0: nat, recs: seq<Rec>, r: Rec, c: Commit, lib: Library, keep: set<Id>)
    requires f.Sound() && f.CommitOk(c) && r.kind == REC_COMMIT && r.payload == f.encCommit(c) && c.table == lib.live && c.mroot == lib.mroot
    requires CoreOf(f, cap, s0, recs).idx.Keys == keep && (BlocksOnly(recs) || Resealed(f, cap, s0, recs, lib, keep))
    ensures Resealed(f, cap, s0, recs + [r], lib, keep) && CoreOf(f, cap, s0, recs + [r]).idx.Keys == keep
  {
    hide CoreOf, Format.Sound;
    var all := recs + [r];
    CommitEffect(f, cap, s0, recs, r, c);
    CommittedSnocIs(recs, r);
    forall k | 0 < k <= |all| && all[k - 1].kind == REC_COMMIT ensures SameButIndex(LibOf(CoreOf(f, cap, s0, all[..k])), lib, keep) {
      if k <= |recs| {
        assert all[..k] == recs[..k] && all[k - 1] == recs[k - 1];
      } else {
        assert all[..k] == all;
      }
    }
  }

  lemma {:induction false} ResealedShows(f: Format, cap: nat, s0: nat, recs: seq<Rec>, lib: Library, keep: set<Id>)
    requires Resealed(f, cap, s0, recs, lib, keep)
    ensures SameButIndex(LibOf(CoreOf(f, cap, s0, Committed(recs))), lib, keep)
  {
    hide CoreOf;
    var n := |recs|;
    assert recs[..n] == recs && recs[n - 1].kind == REC_COMMIT;
  }

  /** A sound volume whose last append succeeded is a state compaction starts from. */
  lemma {:induction false} VolMounted(f: Format, l: LogState, lib: Library)
    requires VolOk(f, l, lib) && l.landed == l.recs
    ensures MountedOk(f, l.media, l.epoch, l.logStart, l.head, l.cap, lib)
  {
    hide CoreOf, FormatOk, ShotsOk, Named, Committed, Replay, LastCommitEnd, SuperOf, ReadRec, Laid;
    var s := NowOf(l);
    LogFacts(f, l);
    RemountYields(f, s);
    PrefixSpans(l.recs, Committed(l.recs));
    LogBounds(f, l.media, l.epoch, l.logStart, l.recs);
    forall id | id in lib.idx
      ensures l.logStart <= lib.idx[id] < l.head
      ensures var r := ReadRec(f, l.media, l.epoch, lib.idx[id]); r.Record? ==> r.h.id == id && lib.idx[id] + 1 + r.ps <= l.head
    {
      IndexedRec(f, l.media, l.epoch, l.cap, l.logStart, l.recs, id);
    }
    IndexSize(f, l.cap, l.logStart, l.recs);
  }

  lemma {:induction false} IndexedRec(f: Format, m: Media, e: nat, cap: nat, start: nat, recs: seq<Rec>, id: Id)
    requires LogInv(f, m, e, start, recs) && id in CoreOf(f, cap, start, recs).idx
    ensures var q := CoreOf(f, cap, start, recs).idx[id]; var r := ReadRec(f, m, e, q);
            start <= q < start + Spans(recs) && r.Record? && r.h.id == id && q + 1 + r.ps <= start + Spans(recs)
  {
    var idx := CoreOf(f, cap, start, recs).idx;
    IndexPoints(f, cap, start, recs, id);
    var i :| 0 <= i < |recs| && recs[i].kind == REC_BLOCK && f.sha(recs[i].payload) == id && Pos(start, recs, i) == idx[id];
    assert RecAt(f, m, e, Pos(start, recs, i), recs[i]);
    PosMono(start, recs, i, |recs|);
    PosMono(start, recs, 0, i);
    PosEnd(start, recs);
  }

  lemma {:induction false} IndexSize(f: Format, cap: nat, start: nat, recs: seq<Rec>)
    ensures |CoreOf(f, cap, start, recs).idx| <= cap
    decreases |recs|
  {
    if recs != [] { IndexSize(f, cap, start, recs[..|recs| - 1]); }
  }

  lemma {:induction false} VolSize(f: Format, l: LogState, lib: Library)
    requires VolOk(f, l, lib)
    ensures |lib.idx| <= l.cap && 2 <= |l.media| && l.head <= End(l.media)
  {
    hide LogOk, LibOk, CoreOf;
    IndexSize(f, l.cap, l.logStart, l.recs);
    LogFacts(f, l);
  }

  lemma {:induction false} PassBounds(f: Format, w: Pass, m: Media, head: nat, e': nat)
    requires PassOk(f, w, m, head, e')
    ensures |m| >= 2 && head == w.s0 + Spans(w.recs) <= w.lim <= End(m) && 1 <= w.lim
  {
    hide OverTrail, Overlaid;
  }

  lemma {:induction false} MountedFacts(f: Format, m: Media, e: nat, start: nat, head: nat, cap: nat, lib: Library)
    requires MountedOk(f, m, e, start, head, cap, lib)
    ensures FormatOk(f) && RowsOk(f, lib.live, lib.mroot) && e < U32 && |lib.idx| <= cap && cap == CapOf(|m|)
    ensures 2 <= |m| < U32 && Bump(e) != e
  {
    hide FormatOk, RowsOk, SuperOf, MountOf, TailClear, Indexed;
  }

  lemma {:induction false} PassReads(f: Format, w: Pass, m: Media, head: nat, e': nat, start: nat, h0: nat, cap: nat, lib: Library, id: Id)
    requires PassOk(f, w, m, head, e') && MountedOk(f, w.m0, w.e, start, h0, cap, lib) && FreeRegion(w.m0, start, h0, w.s0, w.lim)
    ensures BlockGet(f, m, w.e, lib.idx, id) == BlockGet(f, w.m0, w.e, lib.idx, id)
    ensures id in lib.idx ==> ReadFault(f, m, w.e, lib.idx[id]) == ReadFault(f, w.m0, w.e, lib.idx[id])
  {
    hide ReadFault, FormatOk, RowsOk, SuperOf, MountOf, TailClear, Indexed, BlockGet, LogInv, OverTrail, Overlaid;
    ReadsStill(f, w.m0, m, w.e, start, h0, lib.idx, w.s0, w.s0 + Spans(w.recs), id);
  }

  lemma {:induction false} PassTrail(f: Format, w: Pass, m: Media, head: nat, e': nat)
    requires PassOk(f, w, m, head, e')
    ensures OverTrail(f, w.m0, w.trail, w.ends, w.e, w.s0, w.lim) && |m| == |w.m0| && w.lim >= 1
  {
    hide OverTrail, Overlaid;
  }

  // ---------------------------------------------------------------- before and after the switch

  /** Mounting m shows the same directory, root and readable blocks as the volume
      (m0, e, lib): the complete compacted library. */
  ghost predicate ShowsCompacted(f: Format, m: Media, m0: Media, e: nat, lib: Library) {
    var u := MountOf(f, m);
    && u.Up? && u.core.live == lib.live && u.core.mroot == lib.mroot
    && u.core.idx.Keys == Readable(f, m0, e, lib.idx)
    && forall id :: id in u.core.idx ==> BlockGet(f, m, u.epoch, u.core.idx, id) == BlockGet(f, m0, e, lib.idx, id)
  }

  lemma {:induction false} CompactedShows(f: Format, s: Shot, m0: Media, e: nat, start: nat, head: nat, cap: nat, lib: Library)
    requires MountedOk(f, m0, e, start, head, cap, lib) && ShotOk(f, s)
    requires Shown(f, s).live == lib.live && Shown(f, s).mroot == lib.mroot && Shown(f, s).idx.Keys == Readable(f, m0, e, lib.idx)
    ensures ShowsCompacted(f, s.media, m0, e, lib)
  {
    hide ShotOk, Shown, SuperOf, TailClear, BlockGet, RowsOk, Format.Sound, Indexed, MountOf;
    CrashRecovery(f, s);
    var u := MountOf(f, s.media);
    forall id | id in u.core.idx
      ensures BlockGet(f, s.media, u.epoch, u.core.idx, id) == BlockGet(f, m0, e, lib.idx, id)
    {
      assert id in Readable(f, m0, e, lib.idx);
      ReadsOwnId(f, m0, e, start, head, lib.idx, id);
    }
  }

  /** On a sound volume every medium of the write pass is recoverable and shows what it did. */
  lemma {:induction false} ForeignShot(f: Format, l: LogState, lib: Library, m': Media, s0: nat, lim: nat, hi: nat)
    requires VolOk(f, l, lib) && l.landed == l.recs && FreeRegion(l.media, l.logStart, l.head, s0, lim)
    requires hi <= lim && Overlaid(f, l.media, m', l.epoch, s0, hi)
    ensures ShotOk(f, Shot(m', l.epoch, l.logStart, l.landed)) && Shown(f, Shot(m', l.epoch, l.logStart, l.landed)) == LibWith(f, l, l.recs)
  {
    hide CoreOf, FormatOk, ShotsOk, LibOk, Committed, SuperOf, LogInv, CommitHdrAt;
    LogFacts(f, l);
    assert LogInv(f, l.media, l.epoch, l.logStart, l.recs);
    LogBounds(f, l.media, l.epoch, l.logStart, l.recs);
    assert SuperOf(f, m') == SuperOf(f, l.media) by { SuperFrame(f, l.media, m'); }
    ForeignInv(f, l.media, m', l.epoch, l.logStart, l.recs, s0, hi);
  }

  ghost function PreShots(l: LogState, trail: seq<Media>): seq<Shot> {
    seq(|trail|, i requires 0 <= i < |trail| => Shot(trail[i], l.epoch, l.logStart, l.landed))
  }

  lemma {:induction false} PreShotsOk(f: Format, l: LogState, lib: Library, trail: seq<Media>, ends: seq<nat>, s0: nat, lim: nat)
    requires VolOk(f, l, lib) && l.landed == l.recs && FreeRegion(l.media, l.logStart, l.head, s0, lim)
    requires OverTrail(f, l.media, trail, ends, l.epoch, s0, lim)
    ensures ShotsOk(f, PreShots(l, trail))
    ensures forall i :: 0 <= i < |trail| ==> Shown(f, PreShots(l, trail)[i]) == LibWith(f, l, l.recs)
  {
    hide VolOk, Overlaid, ShotOk, Shown, LibWith, FreeRegion;
    var pre := PreShots(l, trail);
    forall i | 0 <= i < |pre| ensures ShotOk(f, pre[i]) && Shown(f, pre[i]) == LibWith(f, l, l.recs) {
      ForeignShot(f, l, lib, trail[i], s0, lim, ends[i]);
    }
  }

  /** A failed compaction leaves a sound volume sound. */
  lemma {:induction false} AbortKeeps(f: Format, l: LogState, lib: Library, w: Pass, m: Media)
    requires VolOk(f, l, lib) && l.landed == l.recs && FreeRegion(l.media, l.logStart, l.head, w.s0, w.lim)
    requires OverTrail(f, l.media, w.trail, w.ends, l.epoch, w.s0, w.lim) && w.m0 == l.media && LastMedia(w, m)
    ensures VolOk(f, l.(media := m, shots := l.shots + PreShots(l, w.trail)), lib)
  {
    hide FormatOk, CoreOf, LibOk, Overlaid, Recoverable, Committed, LogBase;
    PreShotsOk(f, l, lib, w.trail, w.ends, w.s0, w.lim);
    var pre := PreShots(l, w.trail);
    ShotsConcat(f, l.shots, pre);
    if w.trail == [] {
      assert l.shots + pre == l.shots;
    } else {
      assert pre[|pre| - 1] == Shot(m, l.epoch, l.logStart, l.landed);
      assert ShotOk(f, pre[|pre| - 1]);
      ShotBase(f, pre[|pre| - 1]);
    }
  }

  // ---------------------------------------------------------------- steps of ark_compact

  lemma {:induction false} CompactFacts(f: Format, m: Media, e: nat, start: nat, head: nat, cap: nat, lib: Library)
    requires MountedOk(f, m, e, start, head, cap, lib)
    ensures 2 <= |m| && 1 <= start <= head <= End(m)
    ensures forall i :: 0 <= i < |lib.live| ==> lib.live[i].nblk <= |lib.live[i].blk|
  {
    hide FormatOk, SuperOf, MountOf, TailClear, Indexed;
  }

  ghost function PreShotsIf(l: LogState, w: Pass, sound: bool): seq<Shot> {
    if sound then PreShots(l, w.trail) else []
  }

  /** What the media of the write pass show, and what still reads on the last one. */
  ghost predicate Wrote(f: Format, l: LogState, lib: Library, w: Pass, m: Media, sound: bool) {
    && (sound <==> VolOk(f, l, lib) && l.landed == l.recs)
    && w.m0 == l.media && w.e == l.epoch && LastMedia(w, m)
    && (forall i :: 0 <= i < |w.trail| ==> MountOf(f, w.trail[i]) == MountOf(f, l.media) && SameShape(l.media, w.trail[i]))
    && MountOf(f, m) == MountOf(f, l.media)
    && (forall id :: BlockGet(f, m, l.epoch, lib.idx, id) == BlockGet(f, l.media, l.epoch, lib.idx, id))
    && (sound ==> VolOk(f, l.(media := m, shots := l.shots + PreShots(l, w.trail)), lib))
    && ShotsOk(f, l.shots + PreShotsIf(l, w, sound))
  }

  lemma {:induction false} WriteTrail(f: Format, w: Pass, m: Media, l: LogState, lib: Library, start: nat, head: nat, cap: nat, sound: bool)
    requires MountedOk(f, w.m0, w.e, start, head, cap, lib) && FreeRegion(w.m0, start, head, w.s0, w.lim)
    requires OverTrail(f, w.m0, w.trail, w.ends, w.e, w.s0, w.lim) && LastMedia(w, m)
    requires l.media == w.m0 && l.epoch == w.e && l.logStart == start && l.head == head && ShotsOk(f, l.shots)
    requires sound <==> VolOk(f, l, lib) && l.landed == l.recs
    ensures Wrote(f, l, lib, w, m, sound)
  {
    hide MountOf, VolOk, Overlaid, ShotsOk, BlockGet, FormatOk, TailClear, SuperOf, RowsOk, Indexed;
    TrailUnmoved(f, w.m0, w.trail, w.ends, w.e, start, head, cap, lib, w.s0, w.lim);
    TrailShapes(f, w.m0, w.trail, w.ends, w.e, w.s0, w.lim);
    forall id ensures BlockGet(f, m, w.e, lib.idx, id) == BlockGet(f, w.m0, w.e, lib.idx, id) {
      if w.trail != [] {
        ReadsStill(f, w.m0, m, w.e, start, head, lib.idx, w.s0, w.ends[|w.ends| - 1], id);
      }
    }
    if sound {
      AbortKeeps(f, l, lib, w, m);
      PreShotsOk(f, l, lib, w.trail, w.ends, w.s0, w.lim);
      ShotsConcat(f, l.shots, PreShots(l, w.trail));
    } else {
      assert l.shots + [] == l.shots;
    }
  }

  lemma {:induction false} SuperBack(f: Format, m: Media, sb: Super)
    requires f.Sound() && f.SuperOk(sb) && |m| > 0
    ensures Primary(f, m[0 := Sec(f.encSuper(sb))], sb.epoch)
  {
  }

  /** Writing the primary superblock switches to the complete new log. */
  lemma {:induction false} SwitchFacts(f: Format, m0: Media, m: Media, e: nat, start: nat, head: nat, cap: nat, lib: Library, sb: Super, recs: seq<Rec>, nlib: Library)
    requires MountedOk(f, m0, e, start, head, cap, lib) && |m| == |m0| && 1 <= sb.logStart <= End(m)
    requires sb == Super(FMT_VERSION, SECTOR, sb.logStart, |m|, Bump(e)) && LogInv(f, m, Bump(e), sb.logStart, recs)
    requires nlib == LibOf(CoreOf(f, cap, sb.logStart, Committed(recs)))
    requires nlib.live == lib.live && nlib.mroot == lib.mroot && nlib.idx.Keys == Readable(f, m0, e, lib.idx)
    requires forall id :: id in Named(lib.live) ==> BlockGet(f, m0, e, lib.idx, id).Got?
    ensures 2 <= |m| && f.Sound() && f.SuperOk(sb) && LibOk(f, nlib)
    ensures var s := Shot(m[0 := Sec(f.encSuper(sb))], Bump(e), sb.logStart, recs);
            ShotOk(f, s) && Shown(f, s) == nlib && Primary(f, s.media, Bump(e))
  {
    hide SuperOf, MountOf, TailClear, Indexed, LogInv, CoreOf, Committed, Format.Sound, Format.Injective, ShotOk, Shown;
    assert Named(nlib.live) <= nlib.idx.Keys by {
      forall id | id in Named(nlib.live) ensures id in nlib.idx {
        assert BlockGet(f, m0, e, lib.idx, id).Got?;
        assert id in lib.idx;
      }
    }
    assert Primary(f, m[0 := Sec(f.encSuper(sb))], Bump(e)) by { SuperBack(f, m, sb); }
    Switched(f, m, 0, sb, recs, nlib);
  }

  /** Writing the replica as well changes nothing users see. */
  lemma {:induction false} SwitchFacts2(f: Format, m: Media, m1: Media, sb: Super, recs: seq<Rec>, nlib: Library)
    requires 2 <= |m| < U32 && f.Sound() && f.SuperOk(sb) && m1 == m[0 := Sec(f.encSuper(sb))]
    requires sb == Super(FMT_VERSION, SECTOR, sb.logStart, |m|, sb.epoch) && LogInv(f, m, sb.epoch, sb.logStart, recs)
    requires LibOk(f, nlib) && nlib == LibOf(CoreOf(f, CapOf(|m|), sb.logStart, Committed(recs)))
    ensures var s := Shot(m1[|m1| - 1 := Sec(f.encSuper(sb))], sb.epoch, sb.logStart, recs);
            ShotOk(f, s) && Shown(f, s) == nlib && Primary(f, s.media, sb.epoch)
  {
    hide LogInv, LibOk, CoreOf, Committed, ShotOk, Shown;
    assert f.decSuper(f.encSuper(sb)) == Some(sb);
    LogBounds(f, m, sb.epoch, sb.logStart, recs);
    OutsideInv(f, m, m1, sb.epoch, sb.logStart, recs);
    Switched(f, m1, |m1| - 1, sb, recs, nlib);
  }

  lemma {:induction false} AddShot(f: Format, shots: seq<Shot>, s: Shot)
    requires ShotsOk(f, shots) && ShotOk(f, s)
    ensures ShotsOk(f, shots + [s])
  {
    hide ShotOk;
    assert ShotsOk(f, [s]);
    ShotsConcat(f, shots, [s]);
  }

  /** Taking down the present medium changes nothing else. */
  lemma {:induction false} Observed(f: Format, l: LogState, lib: Library)
    requires VolOk(f, l, lib)
    ensures var l' := l.(shots := l.shots + [NowOf(l)]); VolOk(f, l', lib) && LibWith(f, l', l.recs) == LibWith(f, l, l.recs)
  {
    hide ShotsOk, ShotOk, LogBase, LibOk, FormatOk, CoreOf;
    AddShot(f, l.shots, NowOf(l));
  }

  lemma {:induction false} GoodShot(f: Format, s: Shot, shots: seq<Shot>, m: Media, e: nat, start: nat, head: nat, cap: nat, lib: Library)
    requires MountedOk(f, m, e, start, head, cap, lib) && ShotOk(f, s) && ShotsOk(f, shots)
    ensures GoodLog(f, s, shots)
  {
    hide SuperOf, MountOf, TailClear, Indexed, ShotOk, FormatOk, RowsOk;
  }

  /** What ark_compact passed: the media in order, how many of them before the primary
      superblock was rewritten, and where the new log starts and what it holds. */
  datatype Passage = Passage(trail: seq<Media>, pre: nat, start: nat, recs: seq<Rec>)

  ghost predicate Sound(f: Format, l: LogState, lib: Library) { VolOk(f, l, lib) && l.landed == l.recs }

  /** What a call of ark_compact has done, in terms of the volume before (l, lib) and after
      (l', lib') and the media passed. */
  ghost predicate CompactOutcome(f: Format, l: LogState, lib: Library, l': LogState, lib': Library, ok: bool, p: Passage) {
    var switched := p.pre < |p.trail|;
    && p.pre <= |p.trail|
    // before the switch every medium mounts as it did, after it as the complete compacted library
    && (forall i :: 0 <= i < p.pre ==> MountOf(f, p.trail[i]) == MountOf(f, l.media) && SameShape(l.media, p.trail[i]))
    && (forall i :: p.pre <= i < |p.trail| ==>
          ShowsCompacted(f, p.trail[i], l.media, l.epoch, lib) && Primary(f, p.trail[i], Bump(l.epoch)) && |p.trail[i]| == |l.media|)
    && l'.media == (if p.trail == [] then l.media else p.trail[|p.trail| - 1])
    // success: a sound volume with the same directory, root and readable blocks
    && (ok ==> switched && VolOk(f, l', lib') && lib' == LibWith(f, l', l'.recs) && l'.epoch == Bump(l.epoch)
               && lib'.live == lib.live && lib'.mroot == lib.mroot && ShowsCompacted(f, l'.media, l.media, l.epoch, lib)
               && l'.landed == l'.recs == p.recs && l'.logStart == p.start && l'.cap == l.cap)
    // failure: memory is as it was
    && (!ok ==> lib' == lib && l' == l.(media := l'.media, shots := l'.shots))
    // before the switch the medium still means what it did
    && (!switched ==> (!ok && MountOf(f, l'.media) == MountOf(f, l.media)
          && forall id :: BlockGet(f, l'.media, l.epoch, lib.idx, id) == BlockGet(f, l.media, l.epoch, lib.idx, id)))
    // after a failure a sound volume is sound exactly if the primary superblock was not rewritten
    && (!ok && Sound(f, l, lib) ==> (VolOk(f, l', lib') <==> !switched))
    // the account of media stays recoverable and, for a sound volume, complete
    && ShotsOk(f, l'.shots) && l.shots <= l'.shots
    && (Sound(f, l, lib) ==>
          l'.shots == l.shots + PreShots(l, p.trail[..p.pre]) + SwitchedShots(p.trail[p.pre..], Bump(l.epoch), p.start, p.recs))
    && (switched ==> Resealed(f, l.cap, p.start, p.recs, lib, Readable(f, l.media, l.epoch, lib.idx)))
  }

  /** The device cannot read some sector of an indexed record. */
  ghost predicate AnyFault(f: Format, m: Media, e: nat, idx: map<Id, nat>) { exists id :: id in idx && ReadFault(f, m, e, idx[id]) }

  /** These blocks and the first commit of the new log do not fit between s0 and lim. */
  ghost predicate PassFull(f: Format, l: LogState, lib: Library, s0: nat, lim: nat, all: seq<Id>) {
    s0 + FootOf(f, l.media, l.epoch, lib.idx, all) + 1
      + Sectors(|f.encCommit(Commit(Bump(BumpBy(0, |Readable(f, l.media, l.epoch, lib.idx)|)), lib.live, lib.mroot))|) > lim
  }

  /** Commits of one table and one root take the same number of bytes whatever their number. */
  ghost predicate EvenCommits(f: Format, rows: seq<Dent>, root: Id) {
    forall a, b :: |f.encCommit(Commit(a, rows, root))| == |f.encCommit(Commit(b, rows, root))|
  }

  lemma {:induction false} NothingDone(f: Format, l: LogState, lib: Library)
    requires ShotsOk(f, l.shots)
    ensures CompactOutcome(f, l, lib, l, lib, false, Passage([], 0, 0, []))
  {
    hide ShotsOk, MountOf, BlockGet, VolOk;
  }

  ghost predicate SwitchShots(f: Format, t: seq<Media>, sb: Super, recs: seq<Rec>, m0: Media, e: nat, lib: Library) {
    forall i :: 0 <= i < |t| ==>
      && ShotOk(f, Shot(t[i], sb.epoch, sb.logStart, recs)) && ShowsCompacted(f, t[i], m0, e, lib)
      && Primary(f, t[i], sb.epoch) && |t[i]| == |m0|
      && Shown(f, Shot(t[i], sb.epoch, sb.logStart, recs)).live == lib.live
      && Shown(f, Shot(t[i], sb.epoch, sb.logStart, recs)).mroot == lib.mroot
  }

  ghost function SwitchedShots(t: seq<Media>, e: nat, s0: nat, recs: seq<Rec>): seq<Shot> {
    seq(|t|, i requires 0 <= i < |t| => Shot(t[i], e, s0, recs))
  }

  lemma {:induction false} RegionFacts(w: Pass, m0: Media, m: Media, start: nat, head: nat, s0: nat, lim: nat)
    requires w.m0 == m0 && w.s0 == s0 && w.lim == lim && FreeRegion(m0, start, head, s0, lim) && LastMedia(w, m)
    ensures |m| == |m0| && 1 <= s0 <= End(m) && FreeRegion(w.m0, start, head, w.s0, w.lim)
  {
  }

  lemma {:induction false} Aborted(f: Format, l: LogState, lib: Library, w: Pass, m: Media, l': LogState, sound: bool)
    requires Wrote(f, l, lib, w, m, sound) && l' == l.(media := m, shots := l.shots + PreShotsIf(l, w, sound))
    ensures CompactOutcome(f, l, lib, l', lib, false, Passage(w.trail, |w.trail|, 0, []))
  {
    hide ShotsOk, MountOf, BlockGet, VolOk, PreShots;
    assert w.trail[..|w.trail|] == w.trail && w.trail[|w.trail|..] == [];
    NoneSwitched(Bump(l.epoch));
  }

  lemma {:induction false} NoneSwitched(e: nat)
    ensures SwitchedShots([], e, 0, []) == []
  {
  }

  ghost function ShotsAfter(l: LogState, w: Pass, t: seq<Media>, sb: Super, sound: bool): seq<Shot> {
    l.shots + PreShotsIf(l, w, sound) + SwitchedShots(t, sb.epoch, sb.logStart, w.recs)
  }

  lemma {:induction false} ShotsAfterOk(f: Format, l: LogState, lib: Library, w: Pass, m: Media, t: seq<Media>, sb: Super, sound: bool)
    requires Wrote(f, l, lib, w, m, sound) && SwitchShots(f, t, sb, w.recs, l.media, l.epoch, lib)
    ensures ShotsOk(f, ShotsAfter(l, w, t, sb, sound)) && l.shots <= ShotsAfter(l, w, t, sb, sound)
    ensures var trail, n := w.trail + t, |w.trail|; trail[..n] == w.trail && trail[n..] == t
    ensures sound ==> ShotsAfter(l, w, t, sb, sound) == l.shots + PreShots(l, w.trail) + SwitchedShots(t, sb.epoch, sb.logStart, w.recs)
  {
    hide MountOf, BlockGet, VolOk, ShowsCompacted, ShotOk, Shown;
    var post := SwitchedShots(t, sb.epoch, sb.logStart, w.recs);
    assert ShotsOk(f, post);
    ShotsConcat(f, l.shots + PreShotsIf(l, w, sound), post);
  }

  lemma {:induction false} TrailShows(f: Format, l: LogState, lib: Library, w: Pass, m: Media, t: seq<Media>, sb: Super, sound: bool)
    requires Wrote(f, l, lib, w, m, sound) && SwitchShots(f, t, sb, w.recs, l.media, l.epoch, lib)
    ensures forall i :: 0 <= i < |w.trail| ==> MountOf(f, (w.trail + t)[i]) == MountOf(f, l.media) && SameShape(l.media, (w.trail + t)[i])
    ensures forall i :: |w.trail| <= i < |w.trail + t| ==>
              ShowsCompacted(f, (w.trail + t)[i], l.media, l.epoch, lib) && Primary(f, (w.trail + t)[i], sb.epoch) && |(w.trail + t)[i]| == |l.media|
  {
    hide MountOf, BlockGet, VolOk, ShowsCompacted, ShotOk, Shown;
    forall i | |w.trail| <= i < |w.trail + t|
      ensures ShowsCompacted(f, (w.trail + t)[i], l.media, l.epoch, lib) && Primary(f, (w.trail + t)[i], sb.epoch) && |(w.trail + t)[i]| == |l.media|
    {
      var j := i - |w.trail|;
      assert (w.trail + t)[i] == t[j];
    }
  }

  /** Once the primary superblock names the new epoch, the old memory no longer fits. */
  lemma {:induction false} SwitchedAway(f: Format, l: LogState, lib: Library, s: Shot)
    requires ShotOk(f, s) && l.media == s.media && l.epoch != s.epoch
    ensures !VolOk(f, l, lib)
  {
    hide LogInv, LogBase, SuperOf, LibOk, FormatOk, CoreOf;
  }

  lemma {:induction false} HalfSwitched(f: Format, l: LogState, lib: Library, w: Pass, m: Media, t: seq<Media>, sb: Super, l': LogState, sound: bool)
    requires Wrote(f, l, lib, w, m, sound) && SwitchShots(f, t, sb, w.recs, l.media, l.epoch, lib) && t != []
    requires sb.epoch == Bump(l.epoch) != l.epoch && Resealed(f, l.cap, sb.logStart, w.recs, lib, Readable(f, l.media, l.epoch, lib.idx))
    requires l' == l.(media := t[|t| - 1], shots := ShotsAfter(l, w, t, sb, sound))
    ensures CompactOutcome(f, l, lib, l', lib, false, Passage(w.trail + t, |w.trail|, sb.logStart, w.recs))
  {
    hide MountOf, BlockGet, VolOk, ShowsCompacted, ShotsOk, Shown, ShotOk, SwitchedShots, PreShots, Resealed, Readable;
    TrailShows(f, l, lib, w, m, t, sb, sound);
    ShotsAfterOk(f, l, lib, w, m, t, sb, sound);
    SwitchedAway(f, l', lib, Shot(t[|t| - 1], sb.epoch, sb.logStart, w.recs));
    hide ShotsAfter;
  }

  lemma {:induction false} FullySwitched(f: Format, l: LogState, lib: Library, w: Pass, m: Media, t: seq<Media>, sb: Super, l': LogState, lib': Library, sound: bool)
    requires Wrote(f, l, lib, w, m, sound) && SwitchShots(f, t, sb, w.recs, l.media, l.epoch, lib) && t != []
    requires sb.epoch == Bump(l.epoch) && Resealed(f, l.cap, sb.logStart, w.recs, lib, Readable(f, l.media, l.epoch, lib.idx))
    requires l'.media == t[|t| - 1] && l'.shots == ShotsAfter(l, w, t, sb, sound) && l'.epoch == Bump(l.epoch)
    requires l'.recs == l'.landed == Committed(w.recs) && l'.logStart == sb.logStart && l'.cap == l.cap
    requires VolOk(f, l', lib') && lib' == LibWith(f, l', l'.recs)
    requires lib' == Shown(f, Shot(t[|t| - 1], sb.epoch, sb.logStart, w.recs))
    ensures CompactOutcome(f, l, lib, l', lib', true, Passage(w.trail + t, |w.trail|, sb.logStart, w.recs))
  {
    hide MountOf, BlockGet, VolOk, ShowsCompacted, ShotsOk, Shown, ShotOk, SwitchedShots, PreShots, LibWith, Readable, CoreOf;
    TrailShows(f, l, lib, w, m, t, sb, sound);
    ShotsAfterOk(f, l, lib, w, m, t, sb, sound);
    hide ShotsAfter;
  }

  lemma {:induction false} LastShot(f: Format, l: LogState, lib: Library, w: Pass, m: Media, t: seq<Media>, sb: Super, sound: bool)
    requires Wrote(f, l, lib, w, m, sound) && SwitchShots(f, t, sb, w.recs, l.media, l.epoch, lib) && t != []
    ensures var s := ShotsAfter(l, w, t, sb, sound); var b := Shot(t[|t| - 1], sb.epoch, sb.logStart, w.recs);
            ShotsOk(f, s) && ShotOk(f, b)
  {
    hide MountOf, BlockGet, VolOk, ShowsCompacted, ShotOk, Shown;
    ShotsAfterOk(f, l, lib, w, m, t, sb, sound);
  }
}
