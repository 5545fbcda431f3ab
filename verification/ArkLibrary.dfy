/** What a medium means to its users: the library its last commit names, the media a
    power loss may leave, and how one appended record changes both. */
module ArkLibrary {
  import opened Wrappers
  import opened ArkFormat
  import opened ArkLog
  import opened ArkCrash

  datatype Status = OK | INVAL | NOTFOUND | TOOBIG | FULL | IO | CORRUPT | NOTMOUNTED

  datatype Result<+T> = Got(value: T) | Err(status: Status)

  /** What users see of a mounted medium: directory rows, tree root, block index. */
  datatype Library = Library(live: seq<Dent>, mroot: Id, idx: map<Id, nat>)

  function LibOf(c: Core): Library { Library(c.live, c.mroot, c.idx) }

  /** Every block some directory row names. */
  ghost function Named(live: seq<Dent>): set<Id> {
    set i, j | 0 <= i < |live| && 0 <= j < live[i].nblk && j < |live[i].blk| :: live[i].blk[j]
  }

  ghost predicate RowsOk(f: Format, live: seq<Dent>, mroot: Id) {
    |live| <= MAX_FILES && f.idOk(mroot) && forall i :: 0 <= i < |live| ==> f.DentOk(live[i])
  }

  ghost predicate LibOk(f: Format, l: Library) {
    RowsOk(f, l.live, l.mroot) && Named(l.live) <= l.idx.Keys
  }

  /** The library a mount of this medium shows. */
  ghost function Shown(f: Format, s: Shot): Library {
    LibOf(CoreOf(f, CapOf(|s.media|), s.start, Committed(s.recs)))
  }

  ghost predicate ShotOk(f: Format, s: Shot) {
    Recoverable(f, s) && LibOk(f, Shown(f, s))
  }

  /** What the theorems ask of a format: decoding undoes encoding and the hash is free of
      collisions. */
  ghost predicate FormatOk(f: Format) {
    f.Sound() && f.Injective()
  }

  // ---------------------------------------------------------------- reading blocks

  /** ark_block_get. */
  function BlockGet(f: Format, m: Media, e: nat, idx: map<Id, nat>, id: Id): Result<Bytes> {
    if id !in idx then Err(NOTFOUND)
    else
      match ReadRec(f, m, e, idx[id])
      case NoRecord => Err(CORRUPT)
      case Record(_, h, p, ok) => if h.kind != REC_BLOCK || !ok then Err(CORRUPT) else Got(p)
  }

  /** When ark_block_get answers: the id is indexed, and where the index points there is a block
      record whose payload passes both tests. */
  lemma {:induction false} BlockGetIff(f: Format, m: Media, e: nat, idx: map<Id, nat>, id: Id, p: Bytes)
    ensures BlockGet(f, m, e, idx, id) == Got(p) <==>
              id in idx && var r := ReadRec(f, m, e, idx[id]); r.Record? && r.h.kind == REC_BLOCK && r.ok && r.payload == p
    ensures BlockGet(f, m, e, idx, id) == Err(NOTFOUND) <==> id !in idx
    ensures BlockGet(f, m, e, idx, id).Err? && id in idx ==> BlockGet(f, m, e, idx, id) == Err(CORRUPT)
  {
  }

  /** Every indexed block is a record of the log whose contents hash to its id. */
  lemma {:induction false} IndexPoints(f: Format, cap: nat, start: nat, recs: seq<Rec>, id: Id)
    requires id in CoreOf(f, cap, start, recs).idx
    ensures exists i :: 0 <= i < |recs| && recs[i].kind == REC_BLOCK && f.sha(recs[i].payload) == id
                        && Pos(start, recs, i) == CoreOf(f, cap, start, recs).idx[id]
    decreases |recs|
  {
    if recs != [] {
      var k := |recs| - 1;
      var front := recs[..k];
      assert recs == front + [recs[k]];
      var was := CoreOf(f, cap, start, front).idx;
      if id in was {
        IndexPoints(f, cap, start, front, id);
        var i :| 0 <= i < |front| && front[i].kind == REC_BLOCK && f.sha(front[i].payload) == id
                 && Pos(start, front, i) == was[id];
        PosPrefix(start, front, [recs[k]], i);
        assert recs[i].kind == REC_BLOCK && Pos(start, recs, i) == was[id];
      } else {
        assert recs[k].kind == REC_BLOCK && Pos(start, recs, k) == start + Spans(front);
      }
    }
  }

  lemma {:induction false} RecReads(f: Format, m: Media, e: nat, pos: nat, r: Rec)
    requires RecAt(f, m, e, pos, r)
    ensures ReadRec(f, m, e, pos) == GoodRead(f, e, r)
  {
  }

  /** Reading an indexed block of a sound log succeeds and returns the hashed bytes. */
  lemma {:induction false} BlockReads(f: Format, m: Media, e: nat, cap: nat, start: nat, recs: seq<Rec>, all: seq<Rec>, id: Id)
    requires LogInv(f, m, e, start, all) && recs <= all
    requires id in CoreOf(f, cap, start, recs).idx
    ensures var g := BlockGet(f, m, e, CoreOf(f, cap, start, recs).idx, id); g.Got? && f.sha(g.value) == id
  {
    hide CoreOf, Spans, RecAt, ReadRec, CommitHdrAt, ValidCommit;
    var idx := CoreOf(f, cap, start, recs).idx;
    IndexPoints(f, cap, start, recs, id);
    var i :| 0 <= i < |recs| && recs[i].kind == REC_BLOCK && f.sha(recs[i].payload) == id && Pos(start, recs, i) == idx[id];
    assert recs[..i] == all[..i];
    RecReads(f, m, e, Pos(start, all, i), all[i]);
  }

  /** Crash atomicity on one medium: remounting succeeds, shows exactly the library of
      the last commit that landed, and every block that library names reads back. */
  lemma {:induction false} CrashRecovery(f: Format, s: Shot)
    requires ShotOk(f, s)
    ensures var u := MountOf(f, s.media);
            u.Up? && LibOf(u.core) == Shown(f, s)
            && forall id :: id in u.core.idx ==>
                 BlockGet(f, s.media, u.epoch, u.core.idx, id).Got? && f.sha(BlockGet(f, s.media, u.epoch, u.core.idx, id).value) == id
    ensures Named(Shown(f, s).live) <= Shown(f, s).idx.Keys
  {
    RemountYields(f, s);
    var c := Committed(s.recs);
    var idx := CoreOf(f, CapOf(|s.media|), s.start, c).idx;
    forall id | id in idx
      ensures BlockGet(f, s.media, s.epoch, idx, id).Got? && f.sha(BlockGet(f, s.media, s.epoch, idx, id).value) == id
    {
      BlockReads(f, s.media, s.epoch, CapOf(|s.media|), s.start, c, s.recs, id);
    }
  }

  // ---------------------------------------------------------------- one write of one record

  lemma {:induction false} SuperFrame(f: Format, m: Media, m': Media)
    requires |m| == |m'| && |m| >= 2 && m[0] == m'[0] && m[|m| - 1] == m'[|m| - 1]
    ensures SuperOf(f, m) == SuperOf(f, m')
  {
  }

  lemma {:induction false} AppendRecoverable(f: Format, s: Shot, m': Media, recs: seq<Rec>, r: Rec, k: nat)
    requires f.Sound() && f.Injective() && Recoverable(f, s) && LogBase(f, s.media, s.epoch, s.start, recs)
    requires r.kind < U32 && r.sq < U32 && |r.payload| <= COMMIT_MAX && Quiet(f, s.epoch, r.payload)
    requires s.start + Spans(recs) + Span(r) <= End(s.media)
    requires Landed(s.media, m', s.start + Spans(recs), Image(f, s.epoch, r), k) && 1 <= k
    ensures Recoverable(f, Shot(m', s.epoch, s.start, LandedRecs(f, m', s.epoch, s.start, recs, r, k)))
    ensures LogBase(f, m', s.epoch, s.start, recs)
  {
    hide LogInv, LogBase, Quiet, Format.Injective, Spans, Image, SuperOf, RecAt;
    LogBounds(f, s.media, s.epoch, s.start, s.recs);
    BaseBounds(f, s.media, s.epoch, s.start, recs);
    assert f.HdrOk(HdrOf(f, s.epoch, r));
    EmitStep(f, s.media, m', s.epoch, s.start, recs, r, k);
    assert SuperOf(f, m') == SuperOf(f, s.media) by {
      SuperFrame(f, s.media, m');
    }
  }

  lemma {:induction false} BaseBounds(f: Format, m: Media, e: nat, start: nat, recs: seq<Rec>)
    requires LogBase(f, m, e, start, recs)
    ensures 1 <= start <= start + Spans(recs) <= End(m)
  {
  }

  /** After any k sectors of a record the medium is recoverable and shows the library
      of the log without it or the library of the log with it. */
  lemma {:induction false} AppendShot(f: Format, s: Shot, m': Media, recs: seq<Rec>, r: Rec, k: nat, a: Library, b: Library)
    requires f.Sound() && f.Injective() && Recoverable(f, s) && LogBase(f, s.media, s.epoch, s.start, recs)
    requires r.kind < U32 && r.sq < U32 && |r.payload| <= COMMIT_MAX && Quiet(f, s.epoch, r.payload)
    requires s.start + Spans(recs) + Span(r) <= End(s.media)
    requires Landed(s.media, m', s.start + Spans(recs), Image(f, s.epoch, r), k) && 1 <= k
    requires LibOk(f, a) && a == Shown(f, s.(recs := recs))
    requires LibOk(f, b) && b == Shown(f, s.(recs := recs + [r]))
    ensures var t := Shot(m', s.epoch, s.start, LandedRecs(f, m', s.epoch, s.start, recs, r, k));
            ShotOk(f, t) && (Shown(f, t) == a || Shown(f, t) == b)
    ensures LogBase(f, m', s.epoch, s.start, recs)
  {
    hide Format.Sound, Format.Injective, Recoverable, CoreOf, Committed, LibOk, Quiet, Landed, Image, Spans, RecAt, LogBase;
    AppendSize(f, s.media, m', s.start + Spans(recs), s.epoch, r, k);
    AppendRecoverable(f, s, m', recs, r, k);
  }

  lemma {:induction false} AppendSize(f: Format, m: Media, m': Media, pos: nat, e: nat, r: Rec, k: nat)
    requires Landed(m, m', pos, Image(f, e, r), k)
    ensures |m'| == |m|
  {
  }

  /** Same size, same primary superblock. */
  ghost predicate SameShape(m: Media, m': Media) { |m'| == |m| && (|m| > 0 ==> m'[0] == m[0]) }

  /** The primary superblock can be read and names this epoch. */
  ghost predicate Primary(f: Format, m: Media, e: nat) {
    |m| > 0 && m[0].Sec? && f.decSuper(m[0].data).Some? && f.decSuper(m[0].data).value.epoch == e
  }

  /** All media passed while a record is written. */
  ghost function TrailShots(f: Format, s: Shot, recs: seq<Rec>, r: Rec, trail: seq<Media>): seq<Shot> {
    seq(|trail|, i requires 0 <= i < |trail| =>
      Shot(trail[i], s.epoch, s.start, LandedRecs(f, trail[i], s.epoch, s.start, recs, r, i + 1)))
  }

  ghost predicate ShotsBetween(f: Format, more: seq<Shot>, s: Shot, recs: seq<Rec>, a: Library, b: Library) {
    forall i :: 0 <= i < |more| ==>
      && ShotOk(f, more[i]) && (Shown(f, more[i]) == a || Shown(f, more[i]) == b)
      && |more[i].media| == |s.media| && more[i].epoch == s.epoch && more[i].start == s.start
      && recs <= more[i].recs && |more[i].recs| <= |recs| + 1
  }

  lemma {:induction false} TrailOk(f: Format, s: Shot, recs: seq<Rec>, r: Rec, trail: seq<Media>, a: Library, b: Library)
    requires f.Sound() && f.Injective() && Recoverable(f, s) && LogBase(f, s.media, s.epoch, s.start, recs)
    requires r.kind < U32 && r.sq < U32 && |r.payload| <= COMMIT_MAX && Quiet(f, s.epoch, r.payload)
    requires trail == [] || s.start + Spans(recs) + Span(r) <= End(s.media)
    requires forall i :: 0 <= i < |trail| ==> Landed(s.media, trail[i], s.start + Spans(recs), Image(f, s.epoch, r), i + 1)
    requires LibOk(f, a) && a == Shown(f, s.(recs := recs))
    requires LibOk(f, b) && b == Shown(f, s.(recs := recs + [r]))
    ensures ShotsBetween(f, TrailShots(f, s, recs, r, trail), s, recs, a, b)
    ensures forall i :: 0 <= i < |trail| ==> LogBase(f, trail[i], s.epoch, s.start, recs)
    ensures |trail| == Span(r) ==> TrailShots(f, s, recs, r, trail)[|trail| - 1].recs == recs + [r]
  {
    hide Format.Sound, Format.Injective, Recoverable, CoreOf, Committed, LibOk, Quiet, Landed, Image, Spans, RecAt, ShotOk, Shown, LogBase;
    var more := TrailShots(f, s, recs, r, trail);
    forall i | 0 <= i < |more|
      ensures |more[i].media| == |s.media| && recs <= more[i].recs && |more[i].recs| <= |recs| + 1
      ensures ShotOk(f, more[i]) && (Shown(f, more[i]) == a || Shown(f, more[i]) == b)
      ensures LogBase(f, trail[i], s.epoch, s.start, recs)
      ensures i + 1 == Span(r) ==> more[i].recs == recs + [r]
    {
      AppendSize(f, s.media, trail[i], s.start + Spans(recs), s.epoch, r, i + 1);
      AppendShot(f, s, trail[i], recs, r, i + 1, a, b);
    }
  }

  // ---------------------------------------------------------------- the mounted state

  /** The log as memory knows it (recs, up to head) and as the medium holds it (landed),
      with the medium after every sector write so far (shots). */
  datatype LogState = LogState(media: Media, epoch: nat, logStart: nat, head: nat, sq: nat, cap: nat,
                               recs: seq<Rec>, landed: seq<Rec>, shots: seq<Shot>)

  ghost function NowOf(l: LogState): Shot { Shot(l.media, l.epoch, l.logStart, l.landed) }

  /** The library of the last commit of a log with these records. */
  ghost function LibWith(f: Format, l: LogState, recs: seq<Rec>): Library {
    LibOf(CoreOf(f, l.cap, l.logStart, Committed(recs)))
  }

  ghost predicate ShotsOk(f: Format, shots: seq<Shot>) {
    forall i :: 0 <= i < |shots| ==> ShotOk(f, shots[i])
  }

  /** The log in memory and the log on the medium agree, up to one record that landed
      although its write was reported as failed; every medium passed is recoverable. */
  ghost predicate LogOk(f: Format, l: LogState) {
    && FormatOk(f)
    && ShotOk(f, NowOf(l)) && ShotsOk(f, l.shots)
    && l.recs <= l.landed && |l.landed| <= |l.recs| + 1
    && LogBase(f, l.media, l.epoch, l.logStart, l.recs)
    && l.head == l.logStart + Spans(l.recs)
    && l.cap == CapOf(|l.media|)
    && LibOk(f, LibWith(f, l, l.recs))
  }

  /** The state after `trail` was written for record r, completely or not. */
  ghost function AfterTrail(f: Format, l: LogState, r: Rec, trail: seq<Media>): LogState {
    var more := TrailShots(f, NowOf(l), l.recs, r, trail);
    LogState(
      if trail == [] then l.media else trail[|trail| - 1], l.epoch, l.logStart,
      if |trail| == Span(r) then l.head + Span(r) else l.head,
      if |trail| == Span(r) then Bump(l.sq) else l.sq,
      l.cap,
      if |trail| == Span(r) then l.recs + [r] else l.recs,
      if trail == [] then l.landed else more[|more| - 1].recs,
      l.shots + more)
  }

  lemma {:induction false} ShotsConcat(f: Format, a: seq<Shot>, b: seq<Shot>)
    requires ShotsOk(f, a) && ShotsOk(f, b)
    ensures ShotsOk(f, a + b)
  {
    forall i | 0 <= i < |a + b| ensures ShotOk(f, (a + b)[i]) {
      if i < |a| { assert (a + b)[i] == a[i]; } else { assert (a + b)[i] == b[i - |a|]; }
    }
  }

  /** The media passed while a record is written behind a sound log are sound. */
  lemma {:induction false} AppendTrail(f: Format, l: LogState, r: Rec, trail: seq<Media>)
    requires LogOk(f, l)
    requires r.kind < U32 && r.sq < U32 && |r.payload| <= COMMIT_MAX && Quiet(f, l.epoch, r.payload)
    requires |trail| <= Span(r) && (trail == [] || l.head + Span(r) <= End(l.media))
    requires forall i :: 0 <= i < |trail| ==> Landed(l.media, trail[i], l.head, Image(f, l.epoch, r), i + 1)
    requires LibOk(f, LibWith(f, l, l.recs + [r]))
    ensures var more := TrailShots(f, NowOf(l), l.recs, r, trail);
            ShotsBetween(f, more, NowOf(l), l.recs, LibWith(f, l, l.recs), LibWith(f, l, l.recs + [r]))
            && (|trail| == Span(r) ==> more[|more| - 1].recs == l.recs + [r])
    ensures forall i :: 0 <= i < |trail| ==> LogBase(f, trail[i], l.epoch, l.logStart, l.recs)
  {
    hide LibOk, CoreOf, Committed, Landed, Quiet, Spans, LogInv, SuperOf, Image, ShotsBetween, ShotsOk, LogBase;
    TrailOk(f, NowOf(l), l.recs, r, trail, LibWith(f, l, l.recs), LibWith(f, l, l.recs + [r]));
  }

  lemma {:induction false} AfterNothing(f: Format, l: LogState, r: Rec)
    ensures AfterTrail(f, l, r, []) == l
  {
    assert l.shots + [] == l.shots;
  }

  lemma {:induction false} AfterLast(f: Format, l: LogState, r: Rec, trail: seq<Media>)
    requires trail != []
    ensures var more := TrailShots(f, NowOf(l), l.recs, r, trail);
            |more| == |trail| && NowOf(AfterTrail(f, l, r, trail)) == more[|more| - 1]
  {
  }

  lemma {:induction false} BetweenOk(f: Format, more: seq<Shot>, s: Shot, recs: seq<Rec>, a: Library, b: Library)
    requires ShotsBetween(f, more, s, recs, a, b)
    ensures ShotsOk(f, more)
  {
    hide ShotOk, Shown;
  }

  lemma {:induction false} ShotBase(f: Format, s: Shot)
    requires ShotOk(f, s)
    ensures LogBase(f, s.media, s.epoch, s.start, s.recs)
  {
    hide LogInv, LogBase, SuperOf, LibOk;
    InvIsBase(f, s.media, s.epoch, s.start, s.recs);
  }

  /** Writing one record keeps the invariant at every sector. */
  lemma {:induction false} AppendKeeps(f: Format, l: LogState, r: Rec, trail: seq<Media>)
    requires LogOk(f, l)
    requires r.kind < U32 && r.sq < U32 && |r.payload| <= COMMIT_MAX && Quiet(f, l.epoch, r.payload)
    requires |trail| <= Span(r) && (trail == [] || l.head + Span(r) <= End(l.media))
    requires forall i :: 0 <= i < |trail| ==> Landed(l.media, trail[i], l.head, Image(f, l.epoch, r), i + 1)
    requires LibOk(f, LibWith(f, l, l.recs + [r]))
    ensures LogOk(f, AfterTrail(f, l, r, trail))
    ensures |trail| == Span(r) ==> AfterTrail(f, l, r, trail).landed == l.recs + [r]
    ensures |AfterTrail(f, l, r, trail).media| == |l.media|
  {
    hide Landed, Quiet, CoreOf, Spans, ShotOk, Image, LibOk, FormatOk, TrailShots, Committed, Shown, LogBase;
    var more := TrailShots(f, NowOf(l), l.recs, r, trail);
    if trail == [] {
      AfterNothing(f, l, r);
    } else {
      AppendTrail(f, l, r, trail);
      AfterLast(f, l, r, trail);
      SpansSnoc(l.recs, r);
      ShotBase(f, more[|more| - 1]);
      BetweenOk(f, more, NowOf(l), l.recs, LibWith(f, l, l.recs), LibWith(f, l, l.recs + [r]));
      ShotsConcat(f, l.shots, more);
    }
  }

  /** Young media stay young, in memory and at every sector. */
  ghost predicate StaysYoung(f: Format, l: LogState, l': LogState) {
    && l'.epoch == l.epoch && l.shots <= l'.shots
    && (Young(f, l.media, l.epoch) ==>
          Young(f, l'.media, l.epoch) && forall i :: |l.shots| <= i < |l'.shots| ==> Young(f, l'.shots[i].media, l.epoch))
  }

  lemma {:induction false} YoungNothing(f: Format, l: LogState)
    ensures StaysYoung(f, l, l)
  {
  }

  lemma {:induction false} YoungTrans(f: Format, a: LogState, b: LogState, c: LogState)
    requires StaysYoung(f, a, b) && StaysYoung(f, b, c)
    ensures StaysYoung(f, a, c)
  {
    hide Young;
    if Young(f, a.media, a.epoch) {
      forall i | |a.shots| <= i < |c.shots| ensures Young(f, c.shots[i].media, a.epoch) {
        if i < |b.shots| { assert c.shots[i] == b.shots[i]; }
      }
    }
  }

  lemma {:induction false} TrailSizes(f: Format, l: LogState, r: Rec, trail: seq<Media>)
    requires 1 <= l.head && forall i :: 0 <= i < |trail| ==> Landed(l.media, trail[i], l.head, Image(f, l.epoch, r), i + 1)
    ensures forall i :: 0 <= i < |trail| ==> |trail[i]| == |l.media| && (|l.media| > 0 ==> trail[i][0] == l.media[0])
  {
    hide Image;
  }

  lemma {:induction false} TrailYoung(f: Format, l: LogState, r: Rec, trail: seq<Media>)
    requires f.Sound() && l.epoch < U32 && r.kind < U32 && r.sq < U32 && |r.payload| <= COMMIT_MAX && QuietLater(f, l.epoch, r.payload)
    requires forall i :: 0 <= i < |trail| ==> Landed(l.media, trail[i], l.head, Image(f, l.epoch, r), i + 1)
    ensures StaysYoung(f, l, AfterTrail(f, l, r, trail))
  {
    hide Format.Sound, Young, Landed, Image, QuietLater, LandedRecs;
    assert f.HdrOk(HdrOf(f, l.epoch, r)) by { HdrFits(f, l.epoch, r); }
    if Young(f, l.media, l.epoch) {
      forall i | 0 <= i < |trail| ensures Young(f, trail[i], l.epoch) {
        YoungLands(f, l.media, trail[i], l.epoch, l.head, l.epoch, r, i + 1);
      }
    }
  }

  lemma {:induction false} HdrFits(f: Format, e: nat, r: Rec)
    requires f.Sound() && e < U32 && r.kind < U32 && r.sq < U32 && |r.payload| <= COMMIT_MAX
    ensures f.HdrOk(HdrOf(f, e, r))
  {
  }

  // ---------------------------------------------------------------- what one record changes

  lemma {:induction false} LogFacts(f: Format, l: LogState)
    requires LogOk(f, l)
    ensures FormatOk(f) && f.Sound() && 2 <= |l.media| && l.epoch < U32 && l.cap == CapOf(|l.media|)
    ensures 1 <= l.logStart <= l.head == l.logStart + Spans(l.recs) <= End(l.media)
    ensures LibOk(f, LibWith(f, l, l.recs))
  {
    hide Format.Sound, Format.Injective, LogInv, LibOk, SuperOf, CoreOf, ShotsOk, LogBase;
    assert LogInv(f, l.media, l.epoch, l.logStart, l.landed);
    LogBounds(f, l.media, l.epoch, l.logStart, l.landed);
    PrefixSpans(l.landed, l.recs);
  }

  lemma {:induction false} LogBounds(f: Format, m: Media, e: nat, start: nat, recs: seq<Rec>)
    requires LogInv(f, m, e, start, recs)
    ensures 1 <= start <= start + Spans(recs) <= End(m)
  {
  }

  /** A block leaves the committed library alone and enters the index. */
  lemma {:induction false} BlockEffect(f: Format, cap: nat, start: nat, recs: seq<Rec>, r: Rec)
    requires r.kind == REC_BLOCK
    ensures Committed(recs + [r]) == Committed(recs)
    ensures CoreOf(f, cap, start, recs + [r]).idx
         == IdxAdd(CoreOf(f, cap, start, recs).idx, cap, f.sha(r.payload), start + Spans(recs))
  {
    assert (recs + [r])[..|recs|] == recs;
  }

  /** A commit makes its table and root the committed ones, over the index of the log. */
  lemma {:induction false} CommitEffect(f: Format, cap: nat, start: nat, recs: seq<Rec>, r: Rec, c: Commit)
    requires f.Sound() && f.CommitOk(c) && r.kind == REC_COMMIT && r.payload == f.encCommit(c)
    ensures LibOf(CoreOf(f, cap, start, Committed(recs + [r]))) == Library(c.table, c.mroot, CoreOf(f, cap, start, recs).idx)
    ensures CoreOf(f, cap, start, recs + [r]).idx == CoreOf(f, cap, start, recs).idx
  {
    assert (recs + [r])[..|recs|] == recs;
    assert Committed(recs + [r]) == recs + [r];
  }

  ghost predicate VolOk(f: Format, l: LogState, lib: Library) {
    && LogOk(f, l)
    && lib.idx == CoreOf(f, l.cap, l.logStart, l.recs).idx
    && LibOk(f, lib)
  }

  lemma {:induction false} LibGrows(f: Format, lib: Library, idx: map<Id, nat>)
    requires LibOk(f, lib) && lib.idx.Keys <= idx.Keys
    ensures LibOk(f, lib.(idx := idx))
  {
  }

  /** A block written behind a sound volume and added to its index keeps it sound. */
  lemma {:induction false} BlockKeeps(f: Format, l: LogState, l': LogState, lib: Library, r: Rec)
    requires VolOk(f, l, lib) && LogOk(f, l') && r.kind == REC_BLOCK
    requires l'.recs == l.recs + [r] && l'.cap == l.cap && l'.logStart == l.logStart
    ensures VolOk(f, l', lib.(idx := IdxAdd(lib.idx, l.cap, f.sha(r.payload), l.head)))
  {
    hide LogOk, LibOk, CoreOf, Spans;
    LogFacts(f, l);
    BlockEffect(f, l.cap, l.logStart, l.recs, r);
    LibGrows(f, lib, IdxAdd(lib.idx, l.cap, f.sha(r.payload), l.head));
  }

  lemma {:induction false} CommitFacts(f: Format, c: Commit)
    requires FormatOk(f) && c.sq < U32 && RowsOk(f, c.table, c.mroot)
    ensures f.Sound() && f.Injective() && f.CommitOk(c) && |f.encCommit(c)| <= COMMIT_MAX
  {
  }

  /** The sequence number after n more records. */
  function BumpBy(sq: nat, n: nat): nat {
    if n == 0 then sq else Bump(BumpBy(sq, n - 1))
  }

  lemma BumpNext(sq: nat, n: nat)
    ensures BumpBy(sq, 0) == sq && BumpBy(sq, n + 1) == Bump(BumpBy(sq, n))
  {}

  /** The commit of these rows and this root is quiet, if at most n records go before it. */
  predicate RowsQuiet(f: Format, e: nat, sq: nat, n: nat, rows: seq<Dent>, root: Id) {
    forall j :: 0 <= j <= n ==> Quiet(f, e, f.encCommit(Commit(Bump(BumpBy(sq, j)), rows, root)))
  }

  /** And it imitates no commit of a later epoch. */
  predicate RowsLater(f: Format, e: nat, sq: nat, n: nat, rows: seq<Dent>, root: Id) {
    forall j :: 0 <= j <= n ==> QuietLater(f, e, f.encCommit(Commit(Bump(BumpBy(sq, j)), rows, root)))
  }

  lemma {:induction false} RowsHere(f: Format, e: nat, sq: nat, rows: seq<Dent>, root: Id)
    ensures RowsQuiet(f, e, sq, 0, rows, root) <==> Quiet(f, e, f.encCommit(Commit(Bump(sq), rows, root)))
    ensures RowsLater(f, e, sq, 0, rows, root) <==> QuietLater(f, e, f.encCommit(Commit(Bump(sq), rows, root)))
  {
    hide Quiet, QuietLater;
    assert BumpBy(sq, 0) == sq;
  }

  lemma {:induction false} RowsAfter(f: Format, e: nat, sq: nat, n: nat, rows: seq<Dent>, root: Id, k: nat)
    requires k <= n
    ensures RowsQuiet(f, e, sq, n, rows, root) ==> RowsQuiet(f, e, BumpBy(sq, k), 0, rows, root)
    ensures RowsLater(f, e, sq, n, rows, root) ==> RowsLater(f, e, BumpBy(sq, k), 0, rows, root)
  {
    hide Quiet, QuietLater;
    assert BumpBy(BumpBy(sq, k), 0) == BumpBy(sq, k);
  }

  /** Anything that leaves records or appends a commit keeps a sound volume sound. */
  lemma {:induction false} CommitKeeps(f: Format, l: LogState, l': LogState, lib: Library, r: Rec, c: Commit)
    requires VolOk(f, l, lib) && LogOk(f, l')
    requires l'.cap == l.cap && l'.logStart == l.logStart
    requires r.kind == REC_COMMIT && f.CommitOk(c) && r.payload == f.encCommit(c)
    requires l'.recs == l.recs || l'.recs == l.recs + [r]
    ensures VolOk(f, l', lib)
  {
    CommitEffect(f, l.cap, l.logStart, l.recs, r, c);
  }

  /** An indexed block of a mounted volume reads back as the bytes that were put. */
  lemma {:induction false} VolumeReads(f: Format, l: LogState, idx: map<Id, nat>, p: Bytes)
    requires LogOk(f, l) && idx == CoreOf(f, l.cap, l.logStart, l.recs).idx && f.sha(p) in idx
    ensures BlockGet(f, l.media, l.epoch, idx, f.sha(p)) == Got(p)
  {
    BlockReads(f, l.media, l.epoch, l.cap, l.logStart, l.recs, l.landed, f.sha(p));
  }

  // ---------------------------------------------------------------- files

  function Blocks(n: nat): nat { (n + 4095) / 4096 }

  /** Block i of a file's contents. */
  function FileChunk(buf: Bytes, i: nat): (c: Bytes)
    requires i < Blocks(|buf|)
    ensures 0 < |c| <= BLOCK_MAX
  {
    buf[4096 * i..Min(4096 * (i + 1), |buf|)]
  }

  /** The ids of the first k blocks. */
  function FileIds(f: Format, buf: Bytes, k: nat): seq<Id>
    requires k <= Blocks(|buf|)
  {
    seq(k, i requires 0 <= i < k => f.sha(FileChunk(buf, i)))
  }

  /** What a NUL-terminated argument can hold. */
  predicate CString(path: Bytes) {
    forall i :: 0 <= i < |path| ==> path[i].B? && 0 < path[i].v < 256
  }

  /** live_find: the first row with this name, or -1. */
  function FindRow(live: seq<Dent>, path: Bytes): (e: int)
    ensures -1 <= e < |live|
    ensures e >= 0 ==> live[e].name == path
    ensures forall i :: 0 <= i < (if e < 0 then |live| else e) ==> live[i].name != path
  {
    if live == [] then -1
    else if live[0].name == path then 0
    else var e := FindRow(live[1..], path); if e < 0 then -1 else e + 1
  }

  /** The table after a write: a new row at version 1, or the row one version up. */
  function PutRow(f: Format, live: seq<Dent>, path: Bytes, buf: Bytes): seq<Dent>
    requires Blocks(|buf|) <= MAX_BLK && forall i :: 0 <= i < |live| ==> |live[i].blk| == MAX_BLK
  {
    var n := Blocks(|buf|);
    var ids := FileIds(f, buf, n);
    var e := FindRow(live, path);
    if e < 0 then live + [Dent(path, false, 1, |buf|, n, ids + seq(MAX_BLK - n, _ => f.zero))]
    else
      var d := live[e];
      live[e := Dent(path, false, Bump(d.version), |buf|, n, ids + d.blk[n..])]
  }

  /** What ark_write_file writes is quiet: the chunks, and the commit of the new table. */
  predicate FileQuiet(f: Format, e: nat, sq: nat, live: seq<Dent>, mroot: Id, path: Bytes, buf: Bytes) {
    && (forall i :: 0 <= i < Blocks(|buf|) ==> Quiet(f, e, FileChunk(buf, i)))
    && (Blocks(|buf|) <= MAX_BLK && (forall i :: 0 <= i < |live| ==> |live[i].blk| == MAX_BLK) ==>
          RowsQuiet(f, e, sq, Blocks(|buf|), PutRow(f, live, path, buf), mroot))
  }

  predicate FileLater(f: Format, e: nat, sq: nat, live: seq<Dent>, mroot: Id, path: Bytes, buf: Bytes) {
    && (forall i :: 0 <= i < Blocks(|buf|) ==> QuietLater(f, e, FileChunk(buf, i)))
    && (Blocks(|buf|) <= MAX_BLK && (forall i :: 0 <= i < |live| ==> |live[i].blk| == MAX_BLK) ==>
          RowsLater(f, e, sq, Blocks(|buf|), PutRow(f, live, path, buf), mroot))
  }

  /** The table has the row of this file replaced or added, and its blocks are indexed. */
  ghost predicate FilePut(f: Format, lib: Library, lib': Library, path: Bytes, buf: Bytes) {
    && Blocks(|buf|) <= MAX_BLK && RowsOk(f, lib.live, lib.mroot) && lib'.live == PutRow(f, lib.live, path, buf)
    && forall i :: 0 <= i < Blocks(|buf|) ==> f.sha(FileChunk(buf, i)) in lib'.idx
  }

  /** A file whose blocks are indexed may be put in the table. */
  lemma {:induction false} PutReady(f: Format, lib: Library, idx: map<Id, nat>, e: nat, sq: nat, n: nat, path: Bytes, buf: Bytes, parts: seq<Bytes>)
    requires f.Sound() && LibOk(f, lib.(idx := idx)) && Blocks(|buf|) <= MAX_BLK && PathOk(path) && n <= |parts|
    requires FindRow(lib.live, path) < 0 ==> |lib.live| < MAX_FILES
    requires parts == Parts(buf) && forall i :: 0 <= i < |parts| ==> f.sha(parts[i]) in idx
    ensures forall i :: 0 <= i < |lib.live| ==> |lib.live[i].blk| == MAX_BLK
    ensures var rows := PutRow(f, lib.live, path, buf);
            && LibOk(f, Library(rows, lib.mroot, idx)) && FilePut(f, lib, Library(rows, lib.mroot, idx), path, buf)
            && (FileQuiet(f, e, sq, lib.live, lib.mroot, path, buf) ==> RowsQuiet(f, e, BumpBy(sq, n), 0, rows, lib.mroot))
            && (FileLater(f, e, sq, lib.live, lib.mroot, path, buf) ==> RowsLater(f, e, BumpBy(sq, n), 0, rows, lib.mroot))
  {
    hide RowsQuiet, RowsLater, Format.Sound, Quiet, QuietLater, FileChunk, Blocks;
    forall i | 0 <= i < Blocks(|buf|) ensures f.sha(FileChunk(buf, i)) in idx { assert parts[i] == FileChunk(buf, i); }
    PutRowOk(f, lib.(idx := idx), path, buf);
    RowsAfter(f, e, sq, Blocks(|buf|), PutRow(f, lib.live, path, buf), lib.mroot, n);
  }

  /** None of these payloads imitates a commit of a later epoch. */
  predicate AllLater(f: Format, e: nat, parts: seq<Bytes>) { forall i :: 0 <= i < |parts| ==> QuietLater(f, e, parts[i]) }

  lemma {:induction false} PartsLater(f: Format, e: nat, sq: nat, live: seq<Dent>, mroot: Id, path: Bytes, buf: Bytes)
    ensures FileLater(f, e, sq, live, mroot, path, buf) ==> AllLater(f, e, Parts(buf))
  {
    hide QuietLater, RowsLater;
  }

  /** The content blocks of a file. */
  function Parts(buf: Bytes): (r: seq<Bytes>)
    ensures |r| == Blocks(|buf|) && forall i :: 0 <= i < |r| ==> r[i] == FileChunk(buf, i)
  {
    seq(Blocks(|buf|), i requires 0 <= i < Blocks(|buf|) => FileChunk(buf, i))
  }

  /** The row ark_mkdir adds. */
  function NewDir(f: Format, path: Bytes): Dent { Dent(path, true, 1, 0, 0, seq(MAX_BLK, _ => f.zero)) }

  /** The table without the row of this path. */
  function Removed(live: seq<Dent>, path: Bytes): seq<Dent> {
    var e := FindRow(live, path);
    if e < 0 then live else live[..e] + live[e + 1..]
  }

  lemma {:induction false} PutRowOk(f: Format, lib: Library, path: Bytes, buf: Bytes)
    requires f.Sound() && LibOk(f, lib) && Blocks(|buf|) <= MAX_BLK && PathOk(path)
    requires FindRow(lib.live, path) < 0 ==> |lib.live| < MAX_FILES
    requires forall i :: 0 <= i < Blocks(|buf|) ==> f.sha(FileChunk(buf, i)) in lib.idx
    ensures LibOk(f, lib.(live := PutRow(f, lib.live, path, buf)))
    ensures var e := FindRow(lib.live, path); var k := if e < 0 then |lib.live| else e;
            var rows := PutRow(f, lib.live, path, buf);
            k < |rows| && rows[k].blk[..rows[k].nblk] == FileIds(f, buf, Blocks(|buf|)) && rows[k].name == path
            && !rows[k].isDir && rows[k].size == |buf| && |rows| == (if e < 0 then |lib.live| + 1 else |lib.live|)
            && forall i :: 0 <= i < |lib.live| && i != k ==> rows[i] == lib.live[i]
  {
    var n := Blocks(|buf|);
    var e := FindRow(lib.live, path);
    var rows := PutRow(f, lib.live, path, buf);
    var k := if e < 0 then |lib.live| else e;
    var ids := FileIds(f, buf, n);
    assert rows[k].blk[..n] == ids;
    forall id | id in Named(rows) ensures id in lib.idx {
      var i, j :| 0 <= i < |rows| && 0 <= j < rows[i].nblk && j < |rows[i].blk| && rows[i].blk[j] == id;
      if i == k {
        assert id == ids[j];
      } else {
        assert rows[i] == lib.live[i];
        assert id in Named(lib.live);
      }
    }
  }

  /** read_dent_blocks on a list of block ids. */
  function ReadBlocks(f: Format, m: Media, e: nat, idx: map<Id, nat>, ids: seq<Id>): Result<Bytes> {
    if ids == [] then Got([])
    else
      match ReadBlocks(f, m, e, idx, ids[..|ids| - 1])
      case Err(s) => Err(s)
      case Got(front) =>
        match BlockGet(f, m, e, idx, ids[|ids| - 1])
        case Err(s) => Err(s)
        case Got(last) => Got(front + last)
  }

  lemma {:induction false} FileReads(f: Format, m: Media, e: nat, idx: map<Id, nat>, buf: Bytes, k: nat)
    requires k <= Blocks(|buf|)
    requires forall i :: 0 <= i < k ==> BlockGet(f, m, e, idx, f.sha(FileChunk(buf, i))) == Got(FileChunk(buf, i))
    ensures ReadBlocks(f, m, e, idx, FileIds(f, buf, k)) == Got(buf[..Min(4096 * k, |buf|)])
  {
    hide BlockGet;
    if k > 0 {
      FileReads(f, m, e, idx, buf, k - 1);
      var ids := FileIds(f, buf, k);
      assert ids[..k - 1] == FileIds(f, buf, k - 1);
      assert buf[..Min(4096 * k, |buf|)] == buf[..4096 * (k - 1)] + FileChunk(buf, k - 1);
    }
  }

  /** A mounted volume returns the bytes of a file whose blocks are indexed. */
  lemma {:induction false} VolumeFile(f: Format, l: LogState, idx: map<Id, nat>, buf: Bytes)
    requires LogOk(f, l) && idx == CoreOf(f, l.cap, l.logStart, l.recs).idx
    requires forall i :: 0 <= i < Blocks(|buf|) ==> f.sha(FileChunk(buf, i)) in idx
    ensures ReadBlocks(f, l.media, l.epoch, idx, FileIds(f, buf, Blocks(|buf|))) == Got(buf)
  {
    hide LogOk, CoreOf, BlockGet, ReadBlocks;
    forall i | 0 <= i < Blocks(|buf|)
      ensures BlockGet(f, l.media, l.epoch, idx, f.sha(FileChunk(buf, i))) == Got(FileChunk(buf, i))
    {
      VolumeReads(f, l, idx, FileChunk(buf, i));
    }
    FileReads(f, l.media, l.epoch, idx, buf, Blocks(|buf|));
    assert buf[..Min(4096 * Blocks(|buf|), |buf|)] == buf;
  }

  lemma {:induction false} PutReads(f: Format, l: LogState, lib: Library, lib': Library, path: Bytes, buf: Bytes)
    requires VolOk(f, l, lib') && FilePut(f, lib, lib', path, buf)
    ensures ReadBlocks(f, l.media, l.epoch, lib'.idx, FileIds(f, buf, Blocks(|buf|))) == Got(buf)
  {
    hide LogOk, CoreOf, LibOk, ReadBlocks;
    VolumeFile(f, l, lib'.idx, buf);
  }

  lemma {:induction false} MkdirOk(f: Format, lib: Library, path: Bytes)
    requires f.Sound() && LibOk(f, lib) && PathOk(path) && |lib.live| < MAX_FILES
    ensures LibOk(f, lib.(live := lib.live + [NewDir(f, path)]))
  {
    var rows := lib.live + [NewDir(f, path)];
    forall id | id in Named(rows) ensures id in lib.idx {
      var i, j :| 0 <= i < |rows| && 0 <= j < rows[i].nblk && j < |rows[i].blk| && rows[i].blk[j] == id;
      assert rows[i] == lib.live[i];
      assert id in Named(lib.live);
    }
  }

  lemma {:induction false} UnlinkOk(f: Format, lib: Library, e: nat)
    requires LibOk(f, lib) && e < |lib.live|
    ensures LibOk(f, lib.(live := lib.live[..e] + lib.live[e + 1..]))
  {
    var rows := lib.live[..e] + lib.live[e + 1..];
    forall id | id in Named(rows) ensures id in lib.idx {
      var i, j :| 0 <= i < |rows| && 0 <= j < rows[i].nblk && j < |rows[i].blk| && rows[i].blk[j] == id;
      assert rows[i] == if i < e then lib.live[i] else lib.live[i + 1];
      assert id in Named(lib.live);
    }
  }

  ghost predicate GoodLog(f: Format, log: Shot, shots: seq<Shot>) {
    FormatOk(f) && ShotOk(f, log) && ShotsOk(f, shots)
  }

  /** The log state a mount sets up. */
  ghost function MountState(u: Mount, log: Shot, shots: seq<Shot>): LogState
    requires u.Up?
  {
    var c := Committed(log.recs);
    LogState(log.media, u.epoch, u.start, u.head, u.core.sq, u.cap, c, c, shots)
  }

  /** What a mount of a recoverable medium establishes. */
  lemma {:induction false} MountGood(f: Format, log: Shot, shots: seq<Shot>)
    requires GoodLog(f, log, shots)
    ensures var u := MountOf(f, log.media);
            u.Up? && LibOf(u.core) == Shown(f, log) && VolOk(f, MountState(u, log, shots), LibOf(u.core))
            && LibWith(f, MountState(u, log, shots), Committed(log.recs)) == Shown(f, log)
  {
    hide FormatOk, LogInv, LogBase, SuperOf, CoreOf, LibOk, Spans, MountOf;
    RemountYields(f, log);
    CommittedTwice(log.recs);
    InvIsBase(f, log.media, log.epoch, log.start, Committed(log.recs));
  }

  lemma {:induction false} MountKeeps(f: Format, log: Shot, shots: seq<Shot>)
    requires GoodLog(f, log, shots)
    ensures var u := MountOf(f, log.media); u.Up? && u.epoch == log.epoch && u.start == log.start && u.cap == CapOf(|log.media|)
  {
    RemountYields(f, log);
  }

  lemma {:induction false} ShotsPrefix(f: Format, shots: seq<Shot>, k: nat)
    requires FormatOk(f) && ShotsOk(f, shots) && k < |shots|
    ensures GoodLog(f, shots[k], shots[..k + 1])
  {
    hide FormatOk, ShotOk;
  }

  // ---------------------------------------------------------------- format

  /** ark_format: one past the epoch the primary superblock carries, if its crc verifies. */
  function NextEpoch(f: Format, m: Media): nat {
    Bump(if |m| > 0 && m[0].Sec? && f.decSuper(m[0].data).Some? then f.decSuper(m[0].data).value.epoch else 0)
  }

  function EmptyLibrary(f: Format): Library { Library([], f.zero, map[]) }

  lemma {:induction false} EmptyIs(f: Format)
    ensures EmptyLibrary(f).live == [] && EmptyLibrary(f).mroot == f.zero && EmptyLibrary(f).idx == map[]
  {
  }

  /** The state reset_state leaves on a medium whose superblock is written. */
  ghost function FreshLog(m: Media, e: nat, shots: seq<Shot>): LogState {
    LogState(m, e, 1, 1, 0, CapOf(|m|), [], [], shots)
  }

  lemma {:induction false} EpochFits(f: Format, m: Media)
    ensures NextEpoch(f, m) < U32
  {
  }

  lemma {:induction false} FormatShot(f: Format, m: Media, sec: nat, sb: Super)
    requires FormatOk(f) && 4 <= |m| < U32 && (sec == 0 || (sec == |m| - 1 && SuperIn(f, m[0]) == Some(sb)))
    requires sb == Super(FMT_VERSION, SECTOR, 1, |m|, sb.epoch) && sb.epoch < U32
    requires forall q :: 1 <= q < End(m) ==> !ValidCommit(f, m, sb.epoch, q)
    ensures var m' := m[sec := Sec(f.encSuper(sb))]; var s := Shot(m', sb.epoch, 1, []);
            && ShotOk(f, s) && Shown(f, s) == EmptyLibrary(f) && SuperIn(f, m'[0]) == Some(sb) && Primary(f, m', sb.epoch)
            && forall q :: 1 <= q < End(m') ==> !ValidCommit(f, m', sb.epoch, q)
  {
    hide ValidCommit, Format.Injective;
    var m' := m[sec := Sec(f.encSuper(sb))];
    assert f.decSuper(f.encSuper(sb)) == Some(sb);
    forall q | 1 <= q < End(m') ensures !ValidCommit(f, m', sb.epoch, q) {
      ReadRecFrame(f, m, m', sb.epoch, q);
      SameCommit(f, m, m', sb.epoch, q);
    }
  }

  lemma {:induction false} SameCommit(f: Format, m: Media, m': Media, e: nat, q: nat)
    requires ReadRec(f, m, e, q) == ReadRec(f, m', e, q)
    ensures ValidCommit(f, m, e, q) == ValidCommit(f, m', e, q)
  {
  }

  lemma {:induction false} FormatState(f: Format, s: Shot, shots: seq<Shot>, l: LogState)
    requires FormatOk(f) && ShotOk(f, s) && ShotsOk(f, shots) && s.recs == [] && s.start == 1
    requires l == FreshLog(s.media, s.epoch, shots)
    ensures VolOk(f, l, EmptyLibrary(f)) && LibWith(f, l, []) == EmptyLibrary(f)
  {
    hide FormatOk, Recoverable, LogBase;
    ShotBase(f, s);
  }

  lemma {:induction false} FormatKept(f: Format, l: LogState, lib: Library)
    requires VolOk(f, l, lib)
    ensures ShotsOk(f, l.shots)
  {
    hide FormatOk, ShotOk, LibOk;
  }
}
