/** Where the promises of ARK stop: exactly when a log written under a new epoch, by a compaction
    or a format, is what mount shows. */
module ArkLimits {
  import opened Wrappers
  import opened ArkFormat
  import opened ArkLog
  import opened ArkCrash
  import opened ArkLibrary
  import opened ArkCompaction

  /** Scanning from sec on meets a commit that verifies. */
  predicate FindsCommit(rd: View, end: int, sec: nat)
    decreases end - sec
  {
    sec < end && (CommitIn(rd, sec) || FindsCommit(rd, end, sec + 1 + if rd(sec).Record? then rd(sec).ps else 0))
  }

  lemma {:induction false} FindsMoves(rd: View, end: int, sec: nat, acc: nat)
    requires acc <= sec
    ensures LastCommitEnd(rd, end, sec, acc) >= acc
    ensures LastCommitEnd(rd, end, sec, acc) == acc <==> !FindsCommit(rd, end, sec)
    decreases end - sec
  {
    if sec < end {
      match rd(sec)
      case NoRecord => FindsMoves(rd, end, sec + 1, acc);
      case Record(ps, _, _, _) =>
        FindsMoves(rd, end, sec + 1 + ps, if CommitIn(rd, sec) then sec + 1 + ps else acc);
    }
  }

  lemma {:induction false} FindsFrame(f: Format, m: Media, m': Media, e: nat, sec: nat)
    requires |m| == |m'| && (sec < End(m) ==> Agree(m, m', sec, End(m)))
    ensures FindsCommit(ViewOf(f, m, e), End(m), sec) == FindsCommit(ViewOf(f, m', e), End(m), sec)
    decreases End(m) - sec
  {
    hide ReadRec;
    if sec < End(m) {
      ReadRecFrame(f, m, m', e, sec);
      var rd := ViewOf(f, m, e);
      FindsFrame(f, m, m', e, sec + 1 + if rd(sec).Record? then rd(sec).ps else 0);
    }
  }

  /** A log written under a new epoch (by ark_format or ark_compact) is what mount shows if
      and only if scanning the space behind it, as it was before the call, meets no
      commit of that epoch.  ark_compact always stamps epoch + 1, so an attempt that was
      interrupted before its switch can leave such a commit behind. */
  lemma {:induction false} SwitchShownIff(f: Format, m0: Media, m: Media, e: nat, start: nat, recs: seq<Rec>)
    requires Laid(f, m, e, start, recs) && start + Spans(recs) <= End(m)
    requires recs != [] && recs[|recs| - 1].kind == REC_COMMIT
    requires Agree(m0, m, start + Spans(recs), End(m))
    ensures LastCommitEnd(ViewOf(f, m, e), End(m), start, start) == start + Spans(recs)
       <==> !FindsCommit(ViewOf(f, m0, e), End(m0), start + Spans(recs))
  {
    hide LastCommitEnd, FindsCommit, Laid, Spans, ReadRec, Shows;
    var rd, head := ViewOf(f, m, e), start + Spans(recs);
    LaidShows(f, m, e, start, recs);
    ScanAll(f, rd, e, End(m), start, recs);
    assert Committed(recs) == recs;
    FindsMoves(rd, End(m), head, head);
    FindsFrame(f, m0, m, e, head);
  }

  // ---------------------------------------------------------------- writing records

  /** The medium after all sectors of an image were written. */
  function Written(m: Media, pos: nat, img: seq<Bytes>): (r: Media)
    ensures |r| == |m| && forall q :: 0 <= q < |m| ==> r[q] == if pos <= q < pos + |img| then Sec(img[q - pos]) else m[q]
  {
    seq(|m|, q requires 0 <= q < |m| => if pos <= q < pos + |img| then Sec(img[q - pos]) else m[q])
  }

  /** Records appended one after another by emit_record. */
  function WriteAll(f: Format, e: nat, m: Media, pos: nat, recs: seq<Rec>): (r: Media)
    ensures |r| == |m| && forall q :: 0 <= q < |m| && !(pos <= q < pos + Spans(recs)) ==> r[q] == m[q]
    decreases |recs|
  {
    if recs == [] then m
    else
      var k := |recs| - 1;
      Written(WriteAll(f, e, m, pos, recs[..k]), pos + Spans(recs[..k]), Image(f, e, recs[k]))
  }

  lemma {:induction false} WriteAllElse(f: Format, e: nat, m: Media, pos: nat, recs: seq<Rec>, lo: nat, hi: nat)
    requires hi <= pos || pos + Spans(recs) <= lo
    ensures Agree(m, WriteAll(f, e, m, pos, recs), lo, hi)
  {
    hide Spans, Image;
  }

  lemma {:induction false} AgreeTrans(a: Media, b: Media, c: Media, lo: nat, hi: nat)
    requires Agree(a, b, lo, hi) && Agree(b, c, lo, hi)
    ensures Agree(a, c, lo, hi)
  {
  }

  /** Records that fit their fields and are quiet for epoch e. */
  ghost predicate QuietRecs(f: Format, e: nat, recs: seq<Rec>) {
    forall i :: 0 <= i < |recs| ==> recs[i].kind < U32 && recs[i].sq < U32 && |recs[i].payload| <= COMMIT_MAX && Quiet(f, e, recs[i].payload)
  }

  lemma {:induction false} QuietFront(f: Format, e: nat, recs: seq<Rec>)
    requires QuietRecs(f, e, recs) && recs != []
    ensures QuietRecs(f, e, recs[..|recs| - 1]) && recs == recs[..|recs| - 1] + [recs[|recs| - 1]]
    ensures Spans(recs) == Spans(recs[..|recs| - 1]) + Span(recs[|recs| - 1])
  {
  }

  /** Records that fit their fields. */
  predicate FitRecs(recs: seq<Rec>) {
    forall i :: 0 <= i < |recs| ==> recs[i].kind < U32 && recs[i].sq < U32 && |recs[i].payload| <= COMMIT_MAX
  }

  /** All of them read back. */
  lemma {:induction false} WriteAllFit(f: Format, e: nat, m: Media, pos: nat, recs: seq<Rec>)
    requires f.Sound() && e < U32 && FitRecs(recs) && pos + Spans(recs) <= End(m)
    ensures Laid(f, WriteAll(f, e, m, pos, recs), e, pos, recs)
    decreases |recs|
  {
    hide Format.Sound, Spans, RecAt, Image;
    if recs != [] {
      var k := |recs| - 1;
      assert recs == recs[..k] + [recs[k]];
      SpansSnoc(recs[..k], recs[k]);
      WriteAllFit(f, e, m, pos, recs[..k]);
      var a, b := WriteAll(f, e, m, pos, recs[..k]), WriteAll(f, e, m, pos, recs);
      HdrFits(f, e, recs[k]);
      LandedWhole(f, a, b, e, pos + Spans(recs[..k]), recs[k]);
      LaidFrame(f, a, b, e, pos, recs[..k]);
      LaidSnoc(f, b, e, pos, recs[..k], recs[k]);
    }
  }

  lemma {:induction false} WriteAllLaid(f: Format, e: nat, m: Media, pos: nat, recs: seq<Rec>)
    requires f.Sound() && e < U32 && QuietRecs(f, e, recs) && pos + Spans(recs) <= End(m)
    ensures Laid(f, WriteAll(f, e, m, pos, recs), e, pos, recs)
  {
    hide Format.Sound, Spans, Quiet, Laid, WriteAll;
    WriteAllFit(f, e, m, pos, recs);
  }

  /** Appending to a sound log. */
  lemma {:induction false} WriteAllInv(f: Format, e: nat, m: Media, start: nat, base: seq<Rec>, recs: seq<Rec>)
    requires FormatOk(f) && e < U32 && QuietRecs(f, e, recs) && LogInv(f, m, e, start, base) && start + Spans(base) + Spans(recs) <= End(m)
    ensures LogInv(f, WriteAll(f, e, m, start + Spans(base), recs), e, start, base + recs) && Spans(base + recs) == Spans(base) + Spans(recs)
    decreases |recs|
  {
    hide LogInv, Spans, Image, Quiet, RecAt;
    var pos := start + Spans(base);
    if recs == [] {
      assert base + recs == base;
      CoreNone(f, 0, 0);
    } else {
      var k := |recs| - 1;
      QuietFront(f, e, recs);
      var front, r := recs[..k], recs[k];
      WriteAllInv(f, e, m, start, base, front);
      var a, b := WriteAll(f, e, m, pos, front), WriteAll(f, e, m, pos, recs);
      HdrFits(f, e, r);
      InvIsBase(f, a, e, start, base + front);
      SpansSnoc(base + front, r);
      assert base + recs == (base + front) + [r];
      EmitStep(f, a, b, e, start, base + front, r, Span(r));
    }
  }

  /** Records of another epoch, behind the log or in front of it, leave it alone. */
  lemma {:induction false} WriteAllForeign(f: Format, e: nat, e': nat, m: Media, start: nat, base: seq<Rec>, pos: nat, recs: seq<Rec>)
    requires FormatOk(f) && e' < U32 && e != e' && QuietRecs(f, e, recs) && LogInv(f, m, e, start, base) && pos + Spans(recs) <= End(m)
    requires pos == start + Spans(base) || pos + Spans(recs) <= start
    ensures LogInv(f, WriteAll(f, e', m, pos, recs), e, start, base)
  {
    hide LogInv, Spans, QuietRecs;
    WriteAllOver(f, e, e', m, pos, recs);
    ForeignInv(f, m, WriteAll(f, e', m, pos, recs), e, start, base, pos, pos + Spans(recs));
  }

  lemma {:induction false} WriteAllOver(f: Format, e: nat, e': nat, m: Media, pos: nat, recs: seq<Rec>)
    requires FormatOk(f) && e' < U32 && e != e' && QuietRecs(f, e, recs) && pos + Spans(recs) <= |m|
    ensures Overlaid(f, m, WriteAll(f, e', m, pos, recs), e, pos, pos + Spans(recs))
    decreases |recs|
  {
    hide Spans, Image, Quiet, CommitHdrAt;
    if recs == [] {
      CoreNone(f, 0, 0);
    } else {
      var k := |recs| - 1;
      QuietFront(f, e, recs);
      WriteAllOver(f, e, e', m, pos, recs[..k]);
      HdrFits(f, e', recs[k]);
      OverlayGrows(f, m, WriteAll(f, e', m, pos, recs[..k]), WriteAll(f, e', m, pos, recs), e, e', pos, pos + Spans(recs[..k]), recs[k], Span(recs[k]));
    }
  }

  lemma {:induction false} LaidJoin(f: Format, m: Media, e: nat, start: nat, a: seq<Rec>, b: seq<Rec>)
    requires Laid(f, m, e, start, a) && Laid(f, m, e, start + Spans(a), b)
    ensures Laid(f, m, e, start, a + b) && Spans(a + b) == Spans(a) + Spans(b)
    decreases |b|
  {
    hide RecAt;
    if b == [] {
      assert a + b == a;
    } else {
      var k := |b| - 1;
      LaidPrefix(f, m, e, start + Spans(a), b, b[..k]);
      LaidJoin(f, m, e, start, a, b[..k]);
      assert RecAt(f, m, e, Pos(start + Spans(a), b, k), b[k]);
      LaidSnoc(f, m, e, start, a + b[..k], b[k]);
      SpansSnoc(a + b[..k], b[k]);
      assert a + b == (a + b[..k]) + [b[k]];
    }
  }

  /** The end of a run of records is a run of records. */
  lemma {:induction false} LaidRest(f: Format, m: Media, e: nat, start: nat, a: seq<Rec>, b: seq<Rec>)
    requires Laid(f, m, e, start, a + b)
    ensures Laid(f, m, e, start + Spans(a), b)
    decreases |b|
  {
    hide RecAt;
    if b != [] {
      var k := |b| - 1;
      assert a + b == (a + b[..k]) + [b[k]];
      LaidPrefix(f, m, e, start, a + b, a + b[..k]);
      LaidRest(f, m, e, start, a, b[..k]);
      assert RecAt(f, m, e, Pos(start, a + b, |a| + k), (a + b)[|a| + k]);
      assert (a + b)[..|a| + k] == a + b[..k];
      SpansJoin(a, b[..k]);
      LaidSnoc(f, m, e, start + Spans(a), b[..k], b[k]);
      assert b == b[..k] + [b[k]];
    }
  }

  lemma {:induction false} SpansJoin(a: seq<Rec>, b: seq<Rec>)
    ensures Spans(a + b) == Spans(a) + Spans(b)
  {
    if b == [] {
      assert a + b == a;
    } else {
      var k := |b| - 1;
      SpansJoin(a, b[..k]);
      assert (a + b)[..|a| + k] == a + b[..k];
    }
  }

  /** The last record of the log in space is the end of the world: it fills the medium. */
  lemma {:induction false} FullInv(f: Format, m: Media, e: nat, start: nat, recs: seq<Rec>)
    requires Laid(f, m, e, start, recs) && 1 <= start && start + Spans(recs) == End(m)
    requires recs != [] && recs[|recs| - 1].kind == REC_COMMIT
    ensures LogInv(f, m, e, start, recs)
  {
  }

  // ---------------------------------------------------------------- superblocks

  /** The primary copy only. */
  function Primaried(f: Format, m: Media, start: nat, e: nat): (r: Media)
    ensures |r| == |m|
  {
    if m == [] then m else m[0 := Sec(f.encSuper(Super(FMT_VERSION, SECTOR, start, |m|, e)))]
  }

  /** write_super_both. */
  function Supered(f: Format, m: Media, start: nat, e: nat): (r: Media)
    ensures |r| == |m|
  {
    if m == [] then m
    else Primaried(f, m, start, e)[|m| - 1 := Sec(f.encSuper(Super(FMT_VERSION, SECTOR, start, |m|, e)))]
  }

  /** A medium with this superblock and this log mounts as the log says. */
  lemma {:induction false} MountsAs(f: Format, m: Media, e: nat, start: nat, recs: seq<Rec>)
    requires f.Sound() && 2 <= |m| < U32 && e < U32 && LogInv(f, m, e, start, recs)
    requires m[0] == Sec(f.encSuper(Super(FMT_VERSION, SECTOR, start, |m|, e)))
    ensures var c := Committed(recs); var cap := CapOf(|m|);
            MountOf(f, m) == Up(e, start, start + Spans(c), cap, CoreOf(f, cap, start, c))
  {
    hide LogInv, CoreOf, Committed, MountOf, Spans;
    LogBounds(f, m, e, start, recs);
    assert f.SuperOk(Super(FMT_VERSION, SECTOR, start, |m|, e));
    RemountYields(f, Shot(m, e, start, recs));
  }

  // ---------------------------------------------------------------- when a format is shown

  /** The first commit of a new epoch. */
  function FirstRec(f: Format): Rec { Rec(REC_COMMIT, 1, f.encCommit(Commit(1, [], f.zero))) }

  /** What a successful ark_format leaves on m. */
  function AfterFormat(f: Format, m: Media): (r: Media)
    ensures |r| == |m|
  {
    WriteAll(f, NextEpoch(f, m), Supered(f, m, 1, NextEpoch(f, m)), 1, [FirstRec(f)])
  }

  /** The log a mount accepts after a successful ark_format is the new empty one if and only if
      scanning the space behind it, as it was before the call, meets no commit of the epoch
      the call stamped; if it meets none, the library shown is empty. */
  lemma {:induction false} FormatShownIff(f: Format, m: Media)
    requires FormatOk(f) && 4 <= |m| < U32 && 1 + Span(FirstRec(f)) <= End(m)
    ensures var e, head := NextEpoch(f, m), 1 + Span(FirstRec(f)); var u := MountOf(f, AfterFormat(f, m));
            && u.Up? && u.epoch == e && u.start == 1
            && (u.head == head <==> !FindsCommit(ViewOf(f, m, e), End(m), head))
            && (!FindsCommit(ViewOf(f, m, e), End(m), head) ==> LibOf(u.core) == EmptyLibrary(f))
  {
    hide NextEpoch, FindsCommit, LastCommitEnd, Replay, Format.Sound, Format.Injective, Image, CoreOf, ReadRec, EmptyLibrary, Spans;
    var e, r := NextEpoch(f, m), FirstRec(f);
    EpochFits(f, m);
    var m1, m2 := Supered(f, m, 1, e), AfterFormat(f, m);
    var sb := Super(FMT_VERSION, SECTOR, 1, |m|, e);
    FirstFacts(f);
    HdrFits(f, e, r);
    OneLands(f, e, m1, 1, r);
    LandedWhole(f, m1, m2, e, 1, r);
    var recs := [r];
    assert [r][..0] == [] && [r][..1] == [r];
    OneRec(f, m2, e, 1, r);
    SwitchShownIff(f, m, m2, e, 1, recs);
    assert SuperOf(f, m2) == Some(sb) by { SuperThere(f, m1, m2, sb); }
    if !FindsCommit(ViewOf(f, m, e), End(m), 1 + Span(r)) {
      LaidShows(f, m2, e, 1, recs);
      ReplayAll(f, ViewOf(f, m2, e), e, CapOf(|m|), 1, recs, recs);
      FirstCore(f, CapOf(|m|));
    }
  }

  lemma {:induction false} OneLands(f: Format, e: nat, m: Media, pos: nat, r: Rec)
    requires pos + Span(r) <= |m|
    ensures Landed(m, WriteAll(f, e, m, pos, [r]), pos, Image(f, e, r), Span(r)) && Spans([r]) == Span(r)
  {
    hide Image;
    assert [r][..0] == [];
    assert WriteAll(f, e, m, pos, []) == m;
  }

  lemma {:induction false} OneRec(f: Format, m: Media, e: nat, start: nat, r: Rec)
    requires RecAt(f, m, e, start, r)
    ensures Laid(f, m, e, start, [r]) && Spans([r]) == Span(r)
  {
    assert [r][..0] == [];
  }

  lemma {:induction false} SuperThere(f: Format, m: Media, m': Media, sb: Super)
    requires f.Sound() && f.SuperOk(sb) && |m| >= 1 && |m'| == |m| && m'[0] == m[0] == Sec(f.encSuper(sb))
    requires sb.version == FMT_VERSION && sb.sectorSize == SECTOR
    ensures SuperOf(f, m') == Some(sb)
  {
  }

  lemma {:induction false} FirstFacts(f: Format)
    requires f.Sound()
    ensures f.CommitOk(Commit(1, [], f.zero)) && |FirstRec(f).payload| <= COMMIT_MAX
  {
  }

  lemma {:induction false} FirstCore(f: Format, cap: nat)
    requires f.Sound()
    ensures LibOf(CoreOf(f, cap, 1, [FirstRec(f)])) == EmptyLibrary(f)
  {
    hide Format.Sound;
    FirstFacts(f);
    CoreNone(f, cap, 1);
    CommitEffect(f, cap, 1, [], FirstRec(f), Commit(1, [], f.zero));
    assert [] + [FirstRec(f)] == [FirstRec(f)];
  }
}
