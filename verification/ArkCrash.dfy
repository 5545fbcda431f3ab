/** What a power loss leaves behind: the log invariant after every single sector write
    of a record, of a rewrite elsewhere on the medium, and of a superblock switch. */
module ArkCrash {
  import opened Wrappers
  import opened ArkFormat
  import opened ArkLog

  /** The sectors emit_record writes for r, in order: header, then zero-padded payload. */
  function Image(f: Format, e: nat, r: Rec): (img: seq<Bytes>)
    ensures |img| == Span(r)
  {
    [f.encHdr(HdrOf(f, e, r))] + seq(Sectors(|r.payload|), i requires 0 <= i < Sectors(|r.payload|) => Take(Chunk(r.payload, i), 512))
  }

  /** m' is m after the first k sectors of img were written at pos. */
  predicate Landed(m: Media, m': Media, pos: nat, img: seq<Bytes>, k: nat) {
    && |m'| == |m| && k <= |img| && pos + |img| <= |m|
    && forall q :: 0 <= q < |m| ==> m'[q] == if pos <= q < pos + k then Sec(img[q - pos]) else m[q]
  }

  /** The resync assumption of mount (arkfs.c): no sector written for this payload decodes as
      a commit header of epoch e. */
  predicate Quiet(f: Format, e: nat, p: Bytes) {
    forall i :: 0 <= i < Sectors(|p|) ==> !CommitHdr(f, e, Take(Chunk(p, i), 512))
  }

  /** The records the medium holds after k sectors of r were written behind recs.  A commit
      counts as soon as it reads back, even if stale sectors supply its end; a block counts
      when it is completely written. */
  ghost function LandedRecs(f: Format, m: Media, e: nat, start: nat, recs: seq<Rec>, r: Rec, k: nat): seq<Rec> {
    if k == Span(r) || (r.kind == REC_COMMIT && RecAt(f, m, e, start + Spans(recs), r)) then recs + [r] else recs
  }

  /** As LogInv, but the sector at the head may already hold a commit. */
  ghost predicate LogBase(f: Format, m: Media, e: nat, start: nat, recs: seq<Rec>) {
    && 1 <= start
    && start + Spans(recs) <= End(m)
    && Laid(f, m, e, start, recs)
    && (forall q :: start + Spans(Committed(recs)) <= q < start + Spans(recs) ==> !CommitHdrAt(f, m, e, q))
    && (forall q :: start + Spans(recs) < q < End(m) ==> !ValidCommit(f, m, e, q))
  }

  lemma {:induction false} InvIsBase(f: Format, m: Media, e: nat, start: nat, recs: seq<Rec>)
    requires LogInv(f, m, e, start, recs)
    ensures LogBase(f, m, e, start, recs)
  {
  }

  lemma {:induction false} SpansSnoc(recs: seq<Rec>, r: Rec)
    ensures Spans(recs + [r]) == Spans(recs) + Span(r)
  {
    assert (recs + [r])[..|recs|] == recs;
  }

  lemma {:induction false} LaidFrame(f: Format, m: Media, m': Media, e: nat, start: nat, recs: seq<Rec>)
    requires Laid(f, m, e, start, recs) && Agree(m, m', start, start + Spans(recs))
    ensures Laid(f, m', e, start, recs)
  {
    forall i {:trigger RecAt(f, m', e, Pos(start, recs, i), recs[i])} | 0 <= i < |recs|
      ensures RecAt(f, m', e, Pos(start, recs, i), recs[i])
    {
      assert RecAt(f, m, e, Pos(start, recs, i), recs[i]);
      PosMono(start, recs, i, |recs|);
      PosMono(start, recs, 0, i);
      PosEnd(start, recs);
      RecAtFrame(f, m, m', e, Pos(start, recs, i), recs[i]);
    }
  }

  lemma {:induction false} LaidSnoc(f: Format, m: Media, e: nat, start: nat, recs: seq<Rec>, r: Rec)
    requires Laid(f, m, e, start, recs) && RecAt(f, m, e, start + Spans(recs), r)
    ensures Laid(f, m, e, start, recs + [r])
  {
    var all := recs + [r];
    forall i {:trigger RecAt(f, m, e, Pos(start, all, i), all[i])} | 0 <= i < |all|
      ensures RecAt(f, m, e, Pos(start, all, i), all[i])
    {
      PosPrefix(start, recs, [r], i);
      if i < |recs| {
        assert RecAt(f, m, e, Pos(start, recs, i), recs[i]);
      } else {
        PosEnd(start, recs);
      }
    }
  }

  lemma {:induction false} ReadsBack(f: Format, m: Media, e: nat, pos: nat, r: Rec)
    requires f.Injective() && ValidCommit(f, m, e, pos) && HdrAt(f, m, pos) == Some(HdrOf(f, e, r))
    ensures RecAt(f, m, e, pos, r)
  {
  }

  lemma {:induction false} TakePad(c: Bytes)
    requires |c| <= 512
    ensures Take(Take(c, 512), |c|) == c
  {
  }

  lemma {:induction false} ImageQuiet(f: Format, e: nat, e': nat, r: Rec, i: nat)
    requires Quiet(f, e, r.payload) && 0 < i < Span(r)
    ensures !CommitHdr(f, e, Image(f, e', r)[i])
  {
    var j := i - 1;
    ImageChunk(f, e', r, j);
  }

  /** All sectors of a record landed: it reads back. */
  lemma {:induction false} LandedWhole(f: Format, m: Media, m': Media, e: nat, pos: nat, r: Rec)
    requires f.Sound() && f.HdrOk(HdrOf(f, e, r)) && |r.payload| <= COMMIT_MAX
    requires pos + Span(r) <= End(m) && Landed(m, m', pos, Image(f, e, r), Span(r))
    ensures RecAt(f, m', e, pos, r)
  {
    hide Gather, Format.Sound;
    HeaderLands(f, m, m', e, pos, r, Span(r));
    var img, body := Image(f, e, r), pos + 1;
    forall i | 0 <= i < Sectors(|r.payload|) ensures ChunkAt(m', body, r.payload, i) {
      ImageChunk(f, e, r, i);
      assert m'[body + i] == Sec(img[i + 1]);
      TakePad(Chunk(r.payload, i));
    }
    GatherIsHolds(m', pos + 1, r.payload);
  }

  lemma {:induction false} ImageChunk(f: Format, e: nat, r: Rec, i: nat)
    requires i < Sectors(|r.payload|)
    ensures Image(f, e, r)[i + 1] == Take(Chunk(r.payload, i), 512)
  {
  }

  /** Sector by sector: after any k writes of a new record the medium holds a sound log,
      the old one or the old one with the record appended, whatever stale data lay there. */
  lemma {:induction false} EmitStep(f: Format, m: Media, m': Media, e: nat, start: nat, recs: seq<Rec>, r: Rec, k: nat)
    requires f.Sound() && f.Injective() && f.HdrOk(HdrOf(f, e, r)) && |r.payload| <= COMMIT_MAX
    requires LogBase(f, m, e, start, recs)
    requires start + Spans(recs) + Span(r) <= End(m)
    requires Landed(m, m', start + Spans(recs), Image(f, e, r), k) && 1 <= k
    requires Quiet(f, e, r.payload)
    ensures LogInv(f, m', e, start, LandedRecs(f, m', e, start, recs, r, k)) && LogBase(f, m', e, start, recs)
    ensures k == Span(r) ==> RecAt(f, m', e, start + Spans(recs), r)
  {
    hide RecAt, Laid, ValidCommit, CommitHdrAt, Quiet, Spans, Image, Format.Sound, Format.Injective, Committed;
    var head := start + Spans(recs);
    assert Agree(m, m', start, head);
    HeaderLands(f, m, m', e, head, r, k);
    LaidFrame(f, m, m', e, start, recs);
    if k == Span(r) {
      LandedWhole(f, m, m', e, head, r);
    }
    OldTail(f, m, m', e, start, recs, r, k);
    BeyondHead(f, m, m', e, start, recs, r, k);
    assert LogBase(f, m', e, start, recs);
    if k == Span(r) || (r.kind == REC_COMMIT && RecAt(f, m', e, head, r)) {
      SpansSnoc(recs, r);
      LaidSnoc(f, m', e, start, recs, r);
      NewTail(f, m, m', e, start, recs, r, k);
    } else if r.kind != REC_COMMIT {
      BlockHeader(f, m', e, head, r);
      NoHdrNoCommit(f, m', e, head);
    } else if ValidCommit(f, m', e, head) {
      ReadsBack(f, m', e, head, r);
    }
  }

  lemma {:induction false} HeaderLands(f: Format, m: Media, m': Media, e: nat, pos: nat, r: Rec, k: nat)
    requires f.Sound() && f.HdrOk(HdrOf(f, e, r)) && Landed(m, m', pos, Image(f, e, r), k) && 1 <= k
    ensures pos < |m'| && HdrAt(f, m', pos) == Some(HdrOf(f, e, r))
  {
    assert m'[pos] == Sec(Image(f, e, r)[0]);
  }

  lemma {:induction false} OldTail(f: Format, m: Media, m': Media, e: nat, start: nat, recs: seq<Rec>, r: Rec, k: nat)
    requires LogBase(f, m, e, start, recs) && Landed(m, m', start + Spans(recs), Image(f, e, r), k)
    ensures forall q :: start + Spans(Committed(recs)) <= q < start + Spans(recs) ==> !CommitHdrAt(f, m', e, q)
  {
    hide Committed, Spans, Image, Laid;
    forall q | start + Spans(Committed(recs)) <= q < start + Spans(recs) ensures !CommitHdrAt(f, m', e, q) {
      assert m'[q] == m[q] && !CommitHdrAt(f, m, e, q);
    }
  }

  lemma {:induction false} CommittedSnocIs(recs: seq<Rec>, r: Rec)
    ensures Committed(recs + [r]) == if r.kind == REC_COMMIT then recs + [r] else Committed(recs)
  {
    assert (recs + [r])[..|recs|] == recs;
  }

  /** Behind the last commit of the longer log there is still no commit header. */
  lemma {:induction false} NewTail(f: Format, m: Media, m': Media, e: nat, start: nat, recs: seq<Rec>, r: Rec, k: nat)
    requires f.Sound() && f.HdrOk(HdrOf(f, e, r)) && Quiet(f, e, r.payload) && start + Spans(recs) + Span(r) <= End(m)
    requires LogBase(f, m', e, start, recs) && Landed(m, m', start + Spans(recs), Image(f, e, r), k) && 1 <= k
    requires k == Span(r) || r.kind == REC_COMMIT
    ensures forall q :: start + Spans(Committed(recs + [r])) <= q < start + Spans(recs + [r]) ==> !CommitHdrAt(f, m', e, q)
  {
    hide Committed, Spans, Laid, Quiet, Image, Format.Sound, CommitHdr;
    var head := start + Spans(recs);
    SpansSnoc(recs, r);
    CommittedSnocIs(recs, r);
    if r.kind != REC_COMMIT {
      forall q | start + Spans(Committed(recs)) <= q < head + Span(r) ensures !CommitHdrAt(f, m', e, q) {
        if q == head {
          HeaderLands(f, m, m', e, head, r, k);
          BlockHeader(f, m', e, head, r);
        } else if head < q {
          assert m'[q] == Sec(Image(f, e, r)[q - head]);
          ImageQuiet(f, e, e, r, q - head);
        }
      }
    }
  }

  lemma {:induction false} BlockHeader(f: Format, m: Media, e: nat, pos: nat, r: Rec)
    requires pos < |m| && HdrAt(f, m, pos) == Some(HdrOf(f, e, r)) && r.kind != REC_COMMIT
    ensures !CommitHdrAt(f, m, e, pos)
  {
  }

  lemma {:induction false} BeyondHead(f: Format, m: Media, m': Media, e: nat, start: nat, recs: seq<Rec>, r: Rec, k: nat)
    requires LogBase(f, m, e, start, recs) && Landed(m, m', start + Spans(recs), Image(f, e, r), k) && 1 <= k
    requires Quiet(f, e, r.payload)
    ensures forall q :: start + Spans(recs) < q < End(m) ==> !ValidCommit(f, m', e, q)
  {
    var head := start + Spans(recs);
    forall q | head < q < End(m)
      ensures !ValidCommit(f, m', e, q)
    {
      if q < head + k {
        assert m'[q] == Sec(Image(f, e, r)[q - head]);
        ImageQuiet(f, e, e, r, q - head);
      } else {
        ReadRecFrame(f, m, m', e, q);
        assert !ValidCommit(f, m, e, q);
      }
    }
  }

  // ---------------------------------------------------------------- later epochs

  /** A sector that decodes as a commit header of an epoch after e. */
  predicate LateHdr(f: Format, e: nat, d: Bytes) {
    var h := f.decHdr(d);
    h.Some? && h.value.kind == REC_COMMIT && h.value.epoch > e
  }

  /** No sector of the log area carries a commit of an epoch after e. */
  ghost predicate Young(f: Format, m: Media, e: nat) {
    forall q :: 1 <= q < End(m) && m[q].Sec? ==> !LateHdr(f, e, m[q].data)
  }

  /** No sector written for this payload imitates a commit header of an epoch after e. */
  predicate QuietLater(f: Format, e: nat, p: Bytes) {
    forall i :: 0 <= i < Sectors(|p|) ==> !LateHdr(f, e, Take(Chunk(p, i), 512))
  }

  /** On a young medium the next epoch is free, as ark_format and ark_compact need it. */
  lemma {:induction false} YoungIsFree(f: Format, m: Media, e: nat, e': nat)
    requires Young(f, m, e) && e < e'
    ensures forall q :: 1 <= q < End(m) ==> !ValidCommit(f, m, e', q)
  {
    forall q | 1 <= q < End(m) ensures !ValidCommit(f, m, e', q) {
      assert m[q].Sec? ==> !LateHdr(f, e, m[q].data);
    }
  }

  /** Records of the epoch itself, or of an earlier one, leave the medium young. */
  lemma {:induction false} YoungLands(f: Format, m: Media, m': Media, e: nat, pos: nat, e': nat, r: Rec, k: nat)
    requires f.Sound() && f.HdrOk(HdrOf(f, e', r)) && e' <= e && QuietLater(f, e, r.payload)
    requires Young(f, m, e) && Landed(m, m', pos, Image(f, e', r), k)
    ensures Young(f, m', e)
  {
    hide Format.Sound, LateHdr;
    forall q | 1 <= q < End(m') && m'[q].Sec? ensures !LateHdr(f, e, m'[q].data) {
      if pos <= q < pos + k {
        var i := q - pos;
        assert m'[q] == Sec(Image(f, e', r)[i]);
        if i == 0 {
          OwnHdr(f, e', r, e);
        } else {
          var j := i - 1;
          ImageChunk(f, e', r, j);
        }
      } else {
        assert m'[q] == m[q];
      }
    }
  }

  lemma {:induction false} OwnHdr(f: Format, e': nat, r: Rec, e: nat)
    requires f.Sound() && f.HdrOk(HdrOf(f, e', r)) && e' <= e
    ensures !LateHdr(f, e, Image(f, e', r)[0])
  {
  }

  lemma {:induction false} YoungOutside(f: Format, m: Media, m': Media, e: nat)
    requires Young(f, m, e) && |m| >= 1 && Agree(m, m', 1, End(m))
    ensures Young(f, m', e)
  {
    forall q | 1 <= q < End(m') && m'[q].Sec? ensures !LateHdr(f, e, m'[q].data) { assert m'[q] == m[q]; }
  }

  lemma {:induction false} YoungLonger(f: Format, m: Media, e: nat, e': nat)
    requires Young(f, m, e) && e <= e'
    ensures Young(f, m, e')
  {
  }

  // ---------------------------------------------------------------- writes elsewhere

  /** m' is m with sectors [lo, hi) replaced by sectors that are no commit header of e. */
  predicate Overlaid(f: Format, m: Media, m': Media, e: nat, lo: nat, hi: nat) {
    && |m'| == |m|
    && forall q :: 0 <= q < |m| ==> if lo <= q < hi then !CommitHdrAt(f, m', e, q) else m'[q] == m[q]
  }

  /** Records of another epoch, written behind the log or in front of it, leave it alone. */
  lemma {:induction false} ForeignInv(f: Format, m: Media, m': Media, e: nat, start: nat, recs: seq<Rec>, lo: nat, hi: nat)
    requires LogInv(f, m, e, start, recs) && Overlaid(f, m, m', e, lo, hi)
    requires lo == start + Spans(recs) || hi <= start
    ensures LogInv(f, m', e, start, recs)
  {
    var head := start + Spans(recs);
    LaidFrame(f, m, m', e, start, recs);
    forall q | start + Spans(Committed(recs)) <= q < head ensures !CommitHdrAt(f, m', e, q) {
      assert m'[q] == m[q] && !CommitHdrAt(f, m, e, q);
    }
    forall q | head <= q < End(m)
      ensures !ValidCommit(f, m', e, q)
    {
      if q >= hi {
        ReadRecFrame(f, m, m', e, q);
        assert !ValidCommit(f, m, e, q);
      } else {
        assert !CommitHdrAt(f, m', e, q);
      }
    }
  }

  /** Sectors outside [start, End) do not matter to the log. */
  lemma {:induction false} OutsideInv(f: Format, m: Media, m': Media, e: nat, start: nat, recs: seq<Rec>)
    requires LogInv(f, m, e, start, recs) && Agree(m, m', start, End(m))
    ensures LogInv(f, m', e, start, recs)
  {
    LaidFrame(f, m, m', e, start, recs);
    forall q | start + Spans(Committed(recs)) <= q < start + Spans(recs) ensures !CommitHdrAt(f, m', e, q) {
      assert m'[q] == m[q] && !CommitHdrAt(f, m, e, q);
    }
    forall q | start + Spans(recs) <= q < End(m)
      ensures !ValidCommit(f, m', e, q)
    {
      ReadRecFrame(f, m, m', e, q);
      assert !ValidCommit(f, m, e, q);
    }
  }

  // ---------------------------------------------------------------- superblock and mount

  /** super_valid on one copy. */
  function SuperIn(f: Format, c: Cell): Option<Super> {
    if c.Unreadable? then None
    else
      match f.decSuper(c.data)
      case None => None
      case Some(s) => if s.version == FMT_VERSION && s.sectorSize == SECTOR then Some(s) else None
  }

  /** The primary copy, else the replica in the last sector. */
  function SuperOf(f: Format, m: Media): Option<Super> {
    if |m| == 0 then None
    else if SuperIn(f, m[0]).Some? then SuperIn(f, m[0])
    else SuperIn(f, m[|m| - 1])
  }

  /** idx_set_cap: 75% of the 16384 slots, or the medium if that is smaller. */
  function CapOf(total: nat): nat { Min(total, 12288) }

  /** A copy that decodes, of version 3, for sectors of 512 bytes. */
  predicate Serves(f: Format, c: Cell, s: Super) {
    c.Sec? && f.decSuper(c.data) == Some(s) && s.version == 3 && s.sectorSize == 512
  }

  /** The superblock found is the primary copy if that serves, else the replica if that does. */
  lemma {:induction false} SuperIff(f: Format, m: Media, s: Super)
    requires |m| > 0
    ensures SuperOf(f, m) == Some(s) <==>
              Serves(f, m[0], s) || ((forall t :: !Serves(f, m[0], t)) && Serves(f, m[|m| - 1], s))
  {
    if SuperIn(f, m[0]).Some? { assert Serves(f, m[0], SuperIn(f, m[0]).value); }
  }

  datatype Mount = BadSuper | Up(epoch: nat, start: nat, head: nat, cap: nat, core: Core)

  /** ark_mount as a function of the medium. */
  function MountOf(f: Format, m: Media): Mount {
    match SuperOf(f, m)
    case None => BadSuper
    case Some(sb) =>
      var rd := ViewOf(f, m, sb.epoch);
      var head := LastCommitEnd(rd, End(m), sb.logStart, sb.logStart);
      var cap := CapOf(sb.total);
      Up(sb.epoch, sb.logStart, head, cap, Replay(f, rd, cap, head, sb.logStart, EmptyCore(f)))
  }

  /** A medium a power loss may leave, with the log it then holds. */
  datatype Shot = Shot(media: Media, epoch: nat, start: nat, recs: seq<Rec>)

  ghost predicate Recoverable(f: Format, s: Shot) {
    && 2 <= |s.media| < U32
    && SuperOf(f, s.media) == Some(Super(FMT_VERSION, SECTOR, s.start, |s.media|, s.epoch))
    && s.epoch < U32
    && LogInv(f, s.media, s.epoch, s.start, s.recs)
  }

  /** Remounting after a power loss yields exactly the log up to its last landed commit. */
  lemma {:induction false} RemountYields(f: Format, s: Shot)
    requires Recoverable(f, s)
    ensures var c := Committed(s.recs); var cap := CapOf(|s.media|);
            MountOf(f, s.media) == Up(s.epoch, s.start, s.start + Spans(c), cap, CoreOf(f, cap, s.start, c))
    ensures Recoverable(f, s.(recs := Committed(s.recs)))
  {
    hide LogInv, SuperOf, CoreOf, Committed, Replay, LastCommitEnd, Spans;
    MountFinds(f, s.media, s.epoch, CapOf(|s.media|), s.start, s.recs);
    CommittedInv(f, s.media, s.epoch, s.start, s.recs);
  }
}
