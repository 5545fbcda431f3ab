/** Runs: calls, compactions, formats and power losses in any order.  What every state and
    every medium of a run keeps, and which library each medium shows. */
module ArkRuns {
  import opened ArkFormat
  import opened ArkLog
  import opened ArkCrash
  import opened ArkLibrary
  import opened ArkCompaction
  import opened ArkHistory
  import opened ArkTree
  import opened ArkMerkle
  import opened ArkFresh
  import opened Ark
  import opened ArkSession

  /** The volume in memory (l, lib), whether it still fits the medium (up), and for every medium
      so far whether it is free of commits of later epochs as far as the run can tell. */
  datatype Snap = Snap(l: LogState, lib: Library, up: bool, free: seq<bool>)

  datatype Event =
    | Did(op: Op, rc: Status)
    | Packed(rc: Status, p: Passage)
    | Formatted(rc: Status)
    | Lost(k: nat)

  function Last(free: seq<bool>): bool { free != [] && free[|free| - 1] }

  // ---------------------------------------------------------------- steps

  ghost predicate DidStep(f: Format, c: Codec, s: Snap, op: Op, rc: Status, t: Snap) {
    && s.up && OpOk(f, c, s.l, s.lib, op) && t.up
    && OpDone(f, c, s.l, s.lib, op, rc, t.l, t.lib)
    && |s.l.shots| <= |t.l.shots|
    && t.free == s.free + seq(|t.l.shots| - |s.l.shots|, _ => Last(s.free) && OpLater(f, c, s.l, s.lib, op))
  }

  /** ark_compact asks for a free next epoch: see PremisesMet. */
  ghost predicate PackOk(f: Format, s: Snap) {
    && s.up && s.l.landed == s.l.recs && CompactQuiet(f, s.l.media, s.l.epoch, s.lib)
    && forall q :: 1 <= q < End(s.l.media) ==> !ValidCommit(f, s.l.media, Bump(s.l.epoch), q)
  }

  ghost predicate PackedStep(f: Format, s: Snap, rc: Status, p: Passage, t: Snap) {
    && PackOk(f, s) && p.pre <= |p.trail|
    && CompactOutcome(f, s.l, s.lib, t.l, t.lib, rc == OK, p)
    && (CompactLater(f, s.l.media, s.l.epoch, s.lib) && Young(f, s.l.media, Bump(s.l.epoch)) ==>
          forall i :: 0 <= i < |p.trail| ==> Young(f, p.trail[i], Bump(s.l.epoch)))
    && t.up == (rc == OK || p.pre == |p.trail|)
    && t.free == s.free + seq(p.pre, _ => false)
                 + seq(|p.trail| - p.pre, _ => Last(s.free) && s.l.epoch + 1 < U32 && CompactLater(f, s.l.media, s.l.epoch, s.lib))
  }

  /** ark_format asks for a free next epoch as well. */
  ghost predicate FormatReady(f: Format, m: Media) {
    |m| < U32 && RowsQuiet(f, NextEpoch(f, m), 0, 0, [], f.zero) && EpochFree(f, m, NextEpoch(f, m))
  }

  ghost predicate FormattedStep(f: Format, s: Snap, rc: Status, t: Snap) {
    var e := NextEpoch(f, s.l.media);
    && FormatReady(f, s.l.media) && FormatOutcome(f, s.l, t.l, t.lib, rc) && |s.l.shots| <= |t.l.shots|
    && t.up == (rc == OK || (rc == INVAL && s.up)) && (rc == INVAL ==> t.l == s.l && t.lib == s.lib)
    && t.free == s.free + seq(|t.l.shots| - |s.l.shots|, _ => Young(f, s.l.media, e) && RowsLater(f, e, 0, 0, [], f.zero))
  }

  /** The power fails at medium k and the machine mounts it. */
  ghost predicate LostStep(f: Format, s: Snap, k: nat, t: Snap) {
    && k < |s.l.shots| && k < |s.free| && t.up && Mounts(f, s.l.shots[k], t)
    && t.l.shots == s.l.shots[..k + 1] + [NowOf(t.l)]
    && t.free == s.free[..k + 1] + [s.free[k]]
  }

  /** The volume just mounted from medium b. */
  ghost predicate Mounts(f: Format, b: Shot, t: Snap) {
    && t.l.media == b.media && t.l.epoch == b.epoch && t.l.logStart == b.start && t.l.cap == CapOf(|b.media|)
    && t.l.recs == t.l.landed == Committed(b.recs)
    && VolOk(f, t.l, t.lib) && t.lib == LibWith(f, t.l, t.l.recs) == Shown(f, b)
  }

  ghost predicate Step(f: Format, c: Codec, s: Snap, ev: Event, t: Snap) {
    match ev
    case Did(op, rc) => DidStep(f, c, s, op, rc, t)
    case Packed(rc, p) => PackedStep(f, s, rc, p, t)
    case Formatted(rc) => FormattedStep(f, s, rc, t)
    case Lost(k) => LostStep(f, s, k, t)
  }

  ghost predicate Run(f: Format, c: Codec, ss: seq<Snap>, evs: seq<Event>) {
    |ss| == |evs| + 1 && forall i :: 0 <= i < |evs| ==> Step(f, c, ss[i], evs[i], ss[i + 1])
  }

  // ---------------------------------------------------------------- the invariant

  /** No commit of a later epoch, and the primary superblock names the epoch. */
  ghost predicate Clean(f: Format, b: Shot) { Young(f, b.media, b.epoch) && Primary(f, b.media, b.epoch) }

  ghost predicate MediaOk(f: Format, c: Codec, s: Snap) {
    && |s.free| == |s.l.shots| && ShotsOk(f, s.l.shots)
    && (forall i :: 0 <= i < |s.l.shots| ==> HasTree(f, c, Shown(f, s.l.shots[i])))
    && (forall i :: 0 <= i < |s.free| && s.free[i] ==> Clean(f, s.l.shots[i]))
    && (s.l.shots != [] ==> s.l.shots[|s.l.shots| - 1].media == s.l.media)
  }

  ghost predicate MemoryOk(f: Format, c: Codec, s: Snap) {
    && VolOk(f, s.l, s.lib) && HasTree(f, c, s.lib) && HasTree(f, c, LibWith(f, s.l, s.l.recs))
    && s.l.shots != [] && s.l.shots[|s.l.shots| - 1] == NowOf(s.l)
  }

  /** What every state of a run keeps: every medium so far remounts, shows the library of its
      last landed commit and the root of a stored tree; a mounted volume is sound, and its
      medium is the last of the account. */
  ghost predicate Inv(f: Format, c: Codec, s: Snap) {
    FormatOk(f) && NodeOk(f, c) && MediaOk(f, c, s) && (s.up ==> MemoryOk(f, c, s))
  }

  /** A device nothing is known about. */
  ghost predicate Blank(s: Snap) { !s.up && s.l.shots == [] && s.free == [] }

  lemma {:induction false} BlankOk(f: Format, c: Codec, s: Snap)
    requires FormatOk(f) && NodeOk(f, c) && Blank(s)
    ensures Inv(f, c, s)
  {
    hide FormatOk, NodeOk;
  }

  /** More media, each recoverable with a tree, and clean where it is said to be. */
  ghost predicate MoreOk(f: Format, c: Codec, shots: seq<Shot>, from: nat, flag: bool) {
    forall i :: from <= i < |shots| ==> HasTree(f, c, Shown(f, shots[i])) && (flag ==> Clean(f, shots[i]))
  }

  lemma {:induction false} MediaGrow(f: Format, c: Codec, s: Snap, t: Snap, flag: bool)
    requires MediaOk(f, c, s) && s.l.shots <= t.l.shots && ShotsOk(f, t.l.shots) && MoreOk(f, c, t.l.shots, |s.l.shots|, flag)
    requires t.free == s.free + seq(|t.l.shots| - |s.l.shots|, _ => flag)
    requires t.l.shots != [] ==> t.l.shots[|t.l.shots| - 1].media == t.l.media
    ensures MediaOk(f, c, t)
  {
    hide HasTree, Shown, Clean, ShotsOk;
    forall i | 0 <= i < |t.l.shots| ensures HasTree(f, c, Shown(f, t.l.shots[i])) && (t.free[i] ==> Clean(f, t.l.shots[i])) {
      if i < |s.l.shots| { assert t.l.shots[i] == s.l.shots[i]; }
    }
  }

  lemma {:induction false} PrimaryKept(f: Format, m: Media, m': Media, e: nat)
    requires Primary(f, m, e) && SameShape(m, m')
    ensures Primary(f, m', e)
  {
  }

  // ---------------------------------------------------------------- calls

  lemma {:induction false} DidMore(f: Format, c: Codec, s: Snap, op: Op, rc: Status, t: Snap)
    requires MediaOk(f, c, s) && MemoryOk(f, c, s) && DidStep(f, c, s, op, rc, t)
    ensures MoreOk(f, c, t.l.shots, |s.l.shots|, Last(s.free) && OpLater(f, c, s.l, s.lib, op)) && s.l.shots <= t.l.shots
    ensures t.l.shots != [] && t.l.shots[|t.l.shots| - 1] == NowOf(t.l)
  {
    hide VolOk, HasTree, Shown, LibWith, OpLater, OpOk, Young, ShotsOk, Grown, Effect, LiveAfter, Primary;
    if Last(s.free) && OpLater(f, c, s.l, s.lib, op) {
      assert Clean(f, s.l.shots[|s.l.shots| - 1]);
      forall i | |s.l.shots| <= i < |t.l.shots| ensures Clean(f, t.l.shots[i]) {
        assert SamePlace(s.l, t.l.shots[i]);
        PrimaryKept(f, s.l.media, t.l.shots[i].media, s.l.epoch);
      }
    }
  }

  lemma {:induction false} DidKeeps(f: Format, c: Codec, s: Snap, op: Op, rc: Status, t: Snap)
    requires Inv(f, c, s) && DidStep(f, c, s, op, rc, t)
    ensures Inv(f, c, t)
  {
    hide VolOk, HasTree, Shown, LibWith, OpLater, OpOk, ShotsOk, Effect, LiveAfter, FormatOk, NodeOk, Between, MoreOk;
    DidMore(f, c, s, op, rc, t);
    ShotsOf(f, t.l, t.lib);
    MediaGrow(f, c, s, t, Last(s.free) && OpLater(f, c, s.l, s.lib, op));
  }

  lemma {:induction false} ShotsOf(f: Format, l: LogState, lib: Library)
    requires VolOk(f, l, lib)
    ensures ShotsOk(f, l.shots)
  {
  }

  // ---------------------------------------------------------------- compactions

  /** On a sound volume every indexed block reads. */
  lemma {:induction false} AllReadable(f: Format, l: LogState, lib: Library)
    requires VolOk(f, l, lib)
    ensures Readable(f, l.media, l.epoch, lib.idx) == lib.idx.Keys
  {
    hide CoreOf, LogInv, LogBase, LibOk, ShotsOk, FormatOk, SuperOf, BlockGet;
    forall id | id in lib.idx ensures BlockGet(f, l.media, l.epoch, lib.idx, id).Got? {
      BlockReads(f, l.media, l.epoch, l.cap, l.logStart, l.recs, l.landed, id);
    }
  }

  /** What the two kinds of media of a compaction show. */
  lemma {:induction false} PackedShows(f: Format, c: Codec, s: Snap, rc: Status, p: Passage, t: Snap)
    requires MemoryOk(f, c, s) && PackedStep(f, s, rc, p, t)
    ensures forall i :: 0 <= i < p.pre ==> Shown(f, Shot(p.trail[i], s.l.epoch, s.l.logStart, s.l.landed)) == LibWith(f, s.l, s.l.recs)
    ensures forall i :: p.pre <= i < |p.trail| ==>
              SameButIndex(Shown(f, Shot(p.trail[i], Bump(s.l.epoch), p.start, p.recs)), s.lib, s.lib.idx.Keys)
  {
    hide VolOk, HasTree, CoreOf, Committed, ShotsOk, CompactLater, Young, MountOf, ShowsCompacted, Resealed, CompactQuiet, ValidCommit, Readable, BlockGet,
         SwitchedShots, PreShots, CapOf;
    VolFacts(f, s.l, s.lib);
    AllReadable(f, s.l, s.lib);
    if p.pre < |p.trail| { ResealedShows(f, s.l.cap, p.start, p.recs, s.lib, s.lib.idx.Keys); }
  }

  /** The account of a compaction, medium by medium. */
  lemma {:induction false} PackedShots(f: Format, c: Codec, s: Snap, rc: Status, p: Passage, t: Snap)
    requires MemoryOk(f, c, s) && PackedStep(f, s, rc, p, t)
    ensures var n := |s.l.shots|;
            && |t.l.shots| == n + |p.trail| && s.l.shots <= t.l.shots && ShotsOk(f, t.l.shots)
            && (forall i :: n <= i < n + p.pre ==> t.l.shots[i] == Shot(p.trail[i - n], s.l.epoch, s.l.logStart, s.l.landed))
            && (forall i :: n + p.pre <= i < |t.l.shots| ==> t.l.shots[i] == Shot(p.trail[i - n], Bump(s.l.epoch), p.start, p.recs))
  {
    hide VolOk, HasTree, LibWith, ShotsOk, CompactLater, Young, MountOf, ShowsCompacted, Resealed, CompactQuiet, ValidCommit, Readable, BlockGet;
  }

  lemma {:induction false} PackedKeeps(f: Format, c: Codec, s: Snap, rc: Status, p: Passage, t: Snap)
    requires Inv(f, c, s) && PackedStep(f, s, rc, p, t)
    ensures Inv(f, c, t)
  {
    hide FormatOk, NodeOk, HasTree, Shown, LibWith, VolOk, Clean, ShotsOk, CompactOutcome, PackOk, CompactLater, Young;
    var n := |s.l.shots|;
    assert s.up by { PackedUp(f, s, rc, p, t); }
    PackedShots(f, c, s, rc, p, t);
    PackedShows(f, c, s, rc, p, t);
    PackedClean(f, c, s, rc, p, t);
    PackedEnds(f, c, s, rc, p, t);
    forall i | 0 <= i < |t.l.shots| ensures HasTree(f, c, Shown(f, t.l.shots[i])) && (t.free[i] ==> Clean(f, t.l.shots[i])) {
      if i < n {
        assert t.l.shots[i] == s.l.shots[i];
      } else if i >= n + p.pre {
        TreeGrows(f, c, s.lib, Shown(f, t.l.shots[i]));
      }
    }
  }

  lemma {:induction false} PackedUp(f: Format, s: Snap, rc: Status, p: Passage, t: Snap)
    requires PackedStep(f, s, rc, p, t)
    ensures s.up
  {
    hide CompactOutcome, CompactQuiet, ValidCommit, CompactLater, Young;
  }

  lemma {:induction false} PackedClean(f: Format, c: Codec, s: Snap, rc: Status, p: Passage, t: Snap)
    requires MediaOk(f, c, s) && MemoryOk(f, c, s) && PackedStep(f, s, rc, p, t)
    ensures Last(s.free) && s.l.epoch + 1 < U32 && CompactLater(f, s.l.media, s.l.epoch, s.lib) ==>
              forall i :: p.pre <= i < |p.trail| ==> Clean(f, Shot(p.trail[i], Bump(s.l.epoch), p.start, p.recs))
  {
    hide VolOk, HasTree, LibWith, ShotsOk, CompactLater, Young, MountOf, ShowsCompacted, Resealed, CompactQuiet, ValidCommit, Readable, BlockGet, Primary, Shown;
    if Last(s.free) && s.l.epoch + 1 < U32 && CompactLater(f, s.l.media, s.l.epoch, s.lib) {
      assert Clean(f, s.l.shots[|s.l.shots| - 1]);
      YoungLonger(f, s.l.media, s.l.epoch, Bump(s.l.epoch));
    }
  }

  /** Where a compaction leaves the volume. */
  lemma {:induction false} PackedEnds(f: Format, c: Codec, s: Snap, rc: Status, p: Passage, t: Snap)
    requires MemoryOk(f, c, s) && PackedStep(f, s, rc, p, t)
    ensures t.l.shots != [] && t.l.shots[|t.l.shots| - 1].media == t.l.media
    ensures t.up ==> MemoryOk(f, c, t)
  {
    hide VolOk, HasTree, ShotsOk, CompactLater, Young, MountOf, ShowsCompacted, Resealed, CompactQuiet, ValidCommit, Readable, BlockGet, Primary, Shown,
         CoreOf, Committed;
    VolFacts(f, s.l, s.lib);
    AllReadable(f, s.l, s.lib);
    if rc == OK {
      assert Resealed(f, s.l.cap, p.start, p.recs, s.lib, s.lib.idx.Keys);
      ResealedShows(f, s.l.cap, p.start, p.recs, s.lib, s.lib.idx.Keys);
      TreeGrows(f, c, s.lib, t.lib);
    }
  }

  // ---------------------------------------------------------------- formats and power losses

  /** A fresh filesystem starts with the empty tree. */
  lemma {:induction false} FreshTree(f: Format, c: Codec)
    ensures HasTree(f, c, EmptyLibrary(f))
  {
    assert TreeIn(f, c, EmptyLibrary(f), Dir([]));
  }

  lemma {:induction false} FormattedKeeps(f: Format, c: Codec, s: Snap, rc: Status, t: Snap)
    requires Inv(f, c, s) && FormattedStep(f, s, rc, t)
    ensures Inv(f, c, t)
  {
    hide FormatOk, NodeOk, HasTree, Shown, LibWith, VolOk, ShotsOk, EpochFree, RowsQuiet, RowsLater, Young, EmptyLibrary, Grown, NextEpoch, Primary;
    FreshTree(f, c);
    MediaGrow(f, c, s, t, Young(f, s.l.media, NextEpoch(f, s.l.media)) && RowsLater(f, NextEpoch(f, s.l.media), 0, 0, [], f.zero));
  }

  lemma {:induction false} ShownAgain(f: Format, l: LogState, b: Shot)
    requires l.recs == l.landed == Committed(b.recs) && l.logStart == b.start && l.media == b.media && l.epoch == b.epoch
    ensures Shown(f, NowOf(l)) == Shown(f, b)
  {
    hide CoreOf, Committed;
    CommittedTwice(b.recs);
  }

  lemma {:induction false} LostKeeps(f: Format, c: Codec, s: Snap, k: nat, t: Snap)
    requires Inv(f, c, s) && LostStep(f, s, k, t)
    ensures Inv(f, c, t)
  {
    hide FormatOk, NodeOk, HasTree, Shown, LibWith, VolOk, ShotsOk, Young, Primary, Committed;
    ShownAgain(f, t.l, s.l.shots[k]);
    ShotsOf(f, t.l, t.lib);
    var n := k + 1;
    forall i | 0 <= i < |t.l.shots| ensures HasTree(f, c, Shown(f, t.l.shots[i])) && (t.free[i] ==> Clean(f, t.l.shots[i])) {
      if i < n { assert t.l.shots[i] == s.l.shots[i] && t.free[i] == s.free[i]; }
    }
  }

  /** Every step keeps the invariant. */
  lemma {:induction false} StepKeeps(f: Format, c: Codec, s: Snap, ev: Event, t: Snap)
    requires Inv(f, c, s) && Step(f, c, s, ev, t)
    ensures Inv(f, c, t)
  {
    hide Inv, DidStep, PackedStep, FormattedStep, LostStep;
    match ev
    case Did(op, rc) => DidKeeps(f, c, s, op, rc, t);
    case Packed(rc, p) => PackedKeeps(f, c, s, rc, p, t);
    case Formatted(rc) => FormattedKeeps(f, c, s, rc, t);
    case Lost(k) => LostKeeps(f, c, s, k, t);
  }

  /** Safety of whole runs: whatever calls, compactions, formats and power losses follow each
      other, every state of the run satisfies the invariant. */
  lemma {:induction false} RunKeeps(f: Format, c: Codec, ss: seq<Snap>, evs: seq<Event>, n: nat)
    requires Run(f, c, ss, evs) && Inv(f, c, ss[0]) && n <= |evs|
    ensures Inv(f, c, ss[n])
  {
    hide Inv, Step;
    if n > 0 {
      RunKeeps(f, c, ss, evs, n - 1);
      var m := n - 1;
      StepKeeps(f, c, ss[m], evs[m], ss[m + 1]);
    }
  }

  /** Where the run says so, the next epoch is free: the premises of ark_compact and of
      ark_format are met. */
  lemma {:induction false} PremisesMet(f: Format, c: Codec, s: Snap)
    requires Inv(f, c, s) && Last(s.free) && s.l.shots[|s.l.shots| - 1].epoch + 1 < U32
    ensures s.up ==> forall q :: 1 <= q < End(s.l.media) ==> !ValidCommit(f, s.l.media, Bump(s.l.epoch), q)
    ensures EpochFree(f, s.l.media, NextEpoch(f, s.l.media)) && Young(f, s.l.media, NextEpoch(f, s.l.media))
  {
    hide FormatOk, NodeOk, HasTree, Shown, LibWith, VolOk, ShotsOk, ValidCommit, Young;
    var b := s.l.shots[|s.l.shots| - 1];
    assert Clean(f, b);
    YoungIsFree(f, b.media, b.epoch, b.epoch + 1);
    YoungLonger(f, b.media, b.epoch, b.epoch + 1);
  }

  // ---------------------------------------------------------------- crash atomicity over runs

  /** The same table, the same root, the same blocks. */
  ghost predicate Same(a: Library, b: Library) { a.live == b.live && a.mroot == b.mroot && a.idx.Keys == b.idx.Keys }

  /** The library handed to the last acknowledged commit: that of the last successful call that
      commits, compaction or format, or the one mounted since at a power loss. */
  ghost function DurableAt(f: Format, ss: seq<Snap>, evs: seq<Event>, n: nat): Library
    requires |ss| == |evs| + 1 && n <= |evs|
  {
    if n == 0 then EmptyLibrary(f)
    else
      match evs[n - 1]
      case Did(op, rc) => if rc == OK && Seals(op) then ss[n].lib else DurableAt(f, ss, evs, n - 1)
      case Packed(rc, _) => if rc == OK then ss[n].lib else DurableAt(f, ss, evs, n - 1)
      case Formatted(rc) => if rc == INVAL then DurableAt(f, ss, evs, n - 1) else EmptyLibrary(f)
      case Lost(_) => ss[n].lib
  }

  /** What a medium may show: one of two libraries. */
  datatype Bounds = Bounds(before: Library, after: Library)

  /** The media of one event.  A call passes media that show the durable library before it or the
      library it commits, and returns from a success with one that shows the latter; a
      compaction shows the durable library before the switch and its own after it; a format
      shows the empty library; a power loss keeps the media up to it. */
  ghost function Extended(f: Format, s: Snap, ev: Event, t: Snap, durable: Library, bs: seq<Bounds>): seq<Bounds> {
    var n := if |s.l.shots| <= |t.l.shots| then |t.l.shots| - |s.l.shots| else 0;
    match ev
    case Did(op, rc) =>
      bs + seq(n, i => if i == n - 1 && rc == OK && Seals(op) then Bounds(t.lib, t.lib) else Bounds(durable, t.lib))
    case Packed(_, p) => bs + seq(n, i => if i < p.pre then Bounds(durable, durable) else Bounds(s.lib, s.lib))
    case Formatted(_) => bs + seq(n, _ => Bounds(EmptyLibrary(f), EmptyLibrary(f)))
    case Lost(k) => if k < |bs| then bs[..k + 1] + [Bounds(t.lib, t.lib)] else bs
  }

  ghost function BoundsAt(f: Format, ss: seq<Snap>, evs: seq<Event>, n: nat): seq<Bounds>
    requires |ss| == |evs| + 1 && n <= |evs|
  {
    if n == 0 then []
    else Extended(f, ss[n - 1], evs[n - 1], ss[n], DurableAt(f, ss, evs, n - 1), BoundsAt(f, ss, evs, n - 1))
  }

  ghost predicate ShowsOneOf(f: Format, b: Shot, x: Bounds) { Same(Shown(f, b), x.before) || Same(Shown(f, b), x.after) }

  /** Every medium shows one of its two libraries, and the log in memory the durable one. */
  ghost predicate Framed(f: Format, s: Snap, durable: Library, bs: seq<Bounds>) {
    && |bs| == |s.l.shots| && (forall i :: 0 <= i < |bs| ==> ShowsOneOf(f, s.l.shots[i], bs[i]))
    && (s.up ==> LibWith(f, s.l, s.l.recs) == durable)
  }

  lemma {:induction false} CommittedMono(a: seq<Rec>, b: seq<Rec>)
    requires a <= b
    ensures Committed(a) <= Committed(b)
    decreases |b|
  {
    if |a| == |b| {
      assert a == b;
    } else if b[|b| - 1].kind != REC_COMMIT {
      CommittedMono(a, b[..|b| - 1]);
    }
  }

  lemma {:induction false} StillShown(f: Format, cap: nat, start: nat, base: seq<Rec>, recs: seq<Rec>, all: seq<Rec>, lib: Library)
    requires base <= recs <= all && Grown(f, cap, start, base, all, lib) && LibOf(CoreOf(f, cap, start, Committed(recs))) == lib
    ensures LibOf(CoreOf(f, cap, start, Committed(all))) == lib
  {
    hide CoreOf, Committed, Grown;
    GrownShows(f, cap, start, base, all, lib);
    CommittedMono(base, recs);
    CommittedMono(recs, all);
    if Committed(all) == Committed(base) {
      assert |Committed(recs)| == |Committed(all)|;
      assert Committed(recs) == Committed(all);
    }
  }

  /** A power loss after an acknowledged commit, while the volume is idle, shows its library. */
  lemma {:induction false} AckedShown(f: Format, c: Codec, s: Snap, op: Op, rc: Status, t: Snap)
    requires MediaOk(f, c, s) && MemoryOk(f, c, s) && DidStep(f, c, s, op, rc, t) && rc == OK && Seals(op)
    ensures |s.l.shots| < |t.l.shots| && Shown(f, t.l.shots[|t.l.shots| - 1]) == t.lib
  {
    hide VolOk, HasTree, CoreOf, OpLater, OpOk, StaysYoung, LiveAfter, Effect, Committed, MediaOk, Grown, CapOf, ShotsOk, ShotOk, LogOk, FormatOk;
    VolFacts(f, s.l, s.lib);
    VolFacts(f, t.l, t.lib);
    DidMore(f, c, s, op, rc, t);
    var last := t.l.shots[|t.l.shots| - 1];
    assert SamePlace(s.l, last);
    GrownBase(f, s.l, t.l, t.lib);
    StillShown(f, s.l.cap, s.l.logStart, s.l.recs, t.l.recs, last.recs, t.lib);
  }

  lemma {:induction false} GrownBase(f: Format, l: LogState, l': LogState, lib: Library)
    requires Adds(f, l, l', lib)
    ensures l.recs <= l'.recs
  {
    hide CoreOf;
  }

  lemma {:induction false} DidFramed(f: Format, c: Codec, s: Snap, op: Op, rc: Status, t: Snap, durable: Library, bs: seq<Bounds>)
    requires Inv(f, c, s) && DidStep(f, c, s, op, rc, t) && Framed(f, s, durable, bs)
    ensures Framed(f, t, if rc == OK && Seals(op) then t.lib else durable, Extended(f, s, Did(op, rc), t, durable, bs))
  {
    hide VolOk, HasTree, Shown, LibWith, OpLater, OpOk, Adds, StaysYoung, LiveAfter, Effect, FormatOk, NodeOk, MediaOk, MemoryOk;
    BetweenIs(f, s.l, t.l, t.lib, OpLater(f, c, s.l, s.lib, op));
    var all := Extended(f, s, Did(op, rc), t, durable, bs);
    if rc == OK && Seals(op) { AckedShown(f, c, s, op, rc, t); }
    forall i | 0 <= i < |all| ensures ShowsOneOf(f, t.l.shots[i], all[i]) {
      if i < |s.l.shots| { assert t.l.shots[i] == s.l.shots[i] && all[i] == bs[i]; }
    }
  }

  lemma {:induction false} PackedFramed(f: Format, c: Codec, s: Snap, rc: Status, p: Passage, t: Snap, durable: Library, bs: seq<Bounds>)
    requires Inv(f, c, s) && PackedStep(f, s, rc, p, t) && Framed(f, s, durable, bs)
    ensures Framed(f, t, if rc == OK then t.lib else durable, Extended(f, s, Packed(rc, p), t, durable, bs))
  {
    hide FormatOk, NodeOk, HasTree, Shown, LibWith, VolOk, ShotsOk, PackedStep, MediaOk, MemoryOk;
    PackedUp(f, s, rc, p, t);
    PackedShots(f, c, s, rc, p, t);
    PackedShows(f, c, s, rc, p, t);
    if t.up { PackedLib(f, c, s, rc, p, t); }
    var all := Extended(f, s, Packed(rc, p), t, durable, bs);
    forall i | 0 <= i < |all| ensures ShowsOneOf(f, t.l.shots[i], all[i]) {
      if i < |s.l.shots| { assert t.l.shots[i] == s.l.shots[i] && all[i] == bs[i]; }
    }
  }

  lemma {:induction false} PackedLib(f: Format, c: Codec, s: Snap, rc: Status, p: Passage, t: Snap)
    requires MemoryOk(f, c, s) && PackedStep(f, s, rc, p, t) && t.up
    ensures LibWith(f, t.l, t.l.recs) == if rc == OK then t.lib else LibWith(f, s.l, s.l.recs)
  {
    hide VolOk, HasTree, ShotsOk, CompactLater, Young, MountOf, ShowsCompacted, Resealed, CompactQuiet, ValidCommit, Readable, BlockGet, Primary, Shown,
         CoreOf, Committed;
  }

  lemma {:induction false} FormattedFramed(f: Format, s: Snap, rc: Status, t: Snap, durable: Library, bs: seq<Bounds>)
    requires FormattedStep(f, s, rc, t) && Framed(f, s, durable, bs)
    ensures Framed(f, t, if rc == INVAL then durable else EmptyLibrary(f), Extended(f, s, Formatted(rc), t, durable, bs))
  {
    hide Shown, LibWith, VolOk, ShotsOk, FormatReady, FreshShots, Young, RowsLater, NextEpoch, Grown, EmptyLibrary;
    var all := Extended(f, s, Formatted(rc), t, durable, bs);
    forall i | 0 <= i < |all| ensures ShowsOneOf(f, t.l.shots[i], all[i]) {
      if i < |s.l.shots| { assert t.l.shots[i] == s.l.shots[i] && all[i] == bs[i]; }
    }
  }

  lemma {:induction false} LostFramed(f: Format, s: Snap, k: nat, t: Snap, durable: Library, bs: seq<Bounds>)
    requires LostStep(f, s, k, t) && Framed(f, s, durable, bs)
    ensures Framed(f, t, t.lib, Extended(f, s, Lost(k), t, durable, bs))
  {
    hide Shown, LibWith, VolOk, Committed;
    ShownAgain(f, t.l, s.l.shots[k]);
    var all := Extended(f, s, Lost(k), t, durable, bs);
    forall i | 0 <= i < |all| ensures ShowsOneOf(f, t.l.shots[i], all[i]) {
      if i < k + 1 { assert t.l.shots[i] == s.l.shots[i] && all[i] == bs[i]; }
    }
  }

  lemma {:induction false} RunFramed(f: Format, c: Codec, ss: seq<Snap>, evs: seq<Event>, n: nat)
    requires Run(f, c, ss, evs) && FormatOk(f) && NodeOk(f, c) && Blank(ss[0]) && n <= |evs|
    ensures Framed(f, ss[n], DurableAt(f, ss, evs, n), BoundsAt(f, ss, evs, n))
  {
    hide FormatOk, NodeOk, Inv, Framed, DidStep, PackedStep, FormattedStep, LostStep, Extended;
    if n == 0 {
      BlankFramed(f, ss[0], EmptyLibrary(f));
    } else {
      var m := n - 1;
      RunFramed(f, c, ss, evs, m);
      BlankOk(f, c, ss[0]);
      RunKeeps(f, c, ss, evs, m);
      var s, t, d, bs := ss[m], ss[m + 1], DurableAt(f, ss, evs, m), BoundsAt(f, ss, evs, m);
      match evs[m]
      case Did(op, rc) => DidFramed(f, c, s, op, rc, t, d, bs);
      case Packed(rc, p) => PackedFramed(f, c, s, rc, p, t, d, bs);
      case Formatted(rc) => FormattedFramed(f, s, rc, t, d, bs);
      case Lost(k) => LostFramed(f, s, k, t, d, bs);
    }
  }

  lemma {:induction false} BlankFramed(f: Format, s: Snap, durable: Library)
    requires Blank(s)
    ensures Framed(f, s, durable, [])
  {
  }

  /** Crash atomicity over runs: whatever sector the power fails at, in whatever call of whatever
      run, the medium mounts; it shows exactly the library of the last acknowledged commit or
      the one being committed, after an acknowledgement the latter only, the empty library
      only from a format; every block its table names reads back; and the durable library of
      a mounted state is that of the last acknowledged commit. */
  lemma {:induction false} RunAtomic(f: Format, c: Codec, ss: seq<Snap>, evs: seq<Event>, n: nat)
    requires Run(f, c, ss, evs) && FormatOk(f) && NodeOk(f, c) && Blank(ss[0]) && n <= |evs|
    ensures Framed(f, ss[n], DurableAt(f, ss, evs, n), BoundsAt(f, ss, evs, n))
    ensures forall i :: 0 <= i < |ss[n].l.shots| ==>
              var b := ss[n].l.shots[i]; var u := MountOf(f, b.media);
              && u.Up? && LibOf(u.core) == Shown(f, b)
              && forall id :: id in Named(u.core.live) ==>
                   BlockGet(f, b.media, u.epoch, u.core.idx, id).Got? && f.sha(BlockGet(f, b.media, u.epoch, u.core.idx, id).value) == id
  {
    hide FormatOk, NodeOk, Step, Inv, Framed, MountOf, BlockGet, Shown, ShotOk, Named;
    RunFramed(f, c, ss, evs, n);
    BlankOk(f, c, ss[0]);
    RunKeeps(f, c, ss, evs, n);
    InvShots(f, c, ss[n]);
    forall i | 0 <= i < |ss[n].l.shots|
      ensures var b := ss[n].l.shots[i]; var u := MountOf(f, b.media);
              && u.Up? && LibOf(u.core) == Shown(f, b)
              && forall id :: id in Named(u.core.live) ==>
                   BlockGet(f, b.media, u.epoch, u.core.idx, id).Got? && f.sha(BlockGet(f, b.media, u.epoch, u.core.idx, id).value) == id
    {
      CrashRecovery(f, ss[n].l.shots[i]);
    }
  }

  lemma {:induction false} InvShots(f: Format, c: Codec, s: Snap)
    requires Inv(f, c, s)
    ensures ShotsOk(f, s.l.shots)
  {
  }

  /** On every medium of a run the shown tree reads: the root node loads as its entries. */
  lemma {:induction false} ShownTreeLoads(f: Format, c: Codec, s: Shot, t: Tree)
    requires FormatOk(f) && NodeOk(f, c) && ShotOk(f, s) && TreeIn(f, c, Shown(f, s), t)
    ensures var u := MountOf(f, s.media);
            u.Up? && Load(f, c, s.media, u.epoch, u.core.idx, u.core.mroot) == Got(Ments(f, c, t.kids))
  {
    hide NodeOk, TreeOk, LogOk, VolOk, Load, Ments, NodeId, Stored, FormatOk, MountOf, ShotOk;
    MountGood(f, s, []);
    var u := MountOf(f, s.media);
    var l := MountState(u, s, []);
    VolFacts(f, l, LibOf(u.core));
    LoadReads(f, c, l, u.core.idx, t);
  }

  // ---------------------------------------------------------------- the calls make these steps

  ghost predicate Matches(v: Volume, s: Snap) reads v {
    v.Log() == s.l && v.Current() == s.lib && (s.up ==> v.up && v.limit == 0)
  }

  /** Any file, block or tree call on a mounted volume. */
  method DoCall(v: Volume, c: Codec, op: Op, ghost s: Snap) returns (rc: Status, ghost t: Snap)
    requires Matches(v, s) && Inv(v.f, c, s) && s.up && OpOk(v.f, c, s.l, s.lib, op)
    modifies v
    ensures Matches(v, t) && Step(v.f, c, s, Did(op, rc), t) && Inv(v.f, c, t)
  {
    hide VolOk, HasTree, OpOk, OpLater, Between, LiveAfter, Effect, LibWith, MediaOk, FormatOk, NodeOk;
    rc := Call(v, c, op);
    BetweenGrows(v.f, s.l, v.Log(), v.Current(), OpLater(v.f, c, s.l, s.lib, op));
    t := Snap(v.Log(), v.Current(), true, s.free + seq(|v.shots| - |s.l.shots|, _ => Last(s.free) && OpLater(v.f, c, s.l, s.lib, op)));
    DidKeeps(v.f, c, s, op, rc, t);
  }

  lemma {:induction false} BetweenGrows(f: Format, l: LogState, l': LogState, lib: Library, young: bool)
    requires Between(f, l, l', lib, young)
    ensures |l.shots| <= |l'.shots|
  {
    hide Shown, LibWith, StaysYoung, Grown;
  }

  /** ark_compact on a mounted volume whose next epoch is free. */
  method DoCompact(v: Volume, c: Codec, ghost s: Snap) returns (rc: Status, ghost p: Passage, ghost t: Snap)
    requires Matches(v, s) && Inv(v.f, c, s) && PackOk(v.f, s)
    modifies v
    ensures Matches(v, t) && Step(v.f, c, s, Packed(rc, p), t) && Inv(v.f, c, t)
  {
    hide VolOk, HasTree, LibWith, MediaOk, FormatOk, NodeOk, CompactQuiet, ValidCommit, CompactOutcome, CompactLater, Young, MountedOk, ShotsOk;
    VolFacts(v.f, s.l, s.lib);
    VolMounted(v.f, s.l, s.lib);
    rc, p := v.Compact(c, Dir([]));
    OutcomePre(v.f, s.l, s.lib, v.Log(), v.Current(), rc == OK, p);
    t := Snap(v.Log(), v.Current(), rc == OK || p.pre == |p.trail|,
              s.free + seq(p.pre, _ => false)
              + seq(|p.trail| - p.pre, _ => Last(s.free) && s.l.epoch + 1 < U32 && CompactLater(v.f, s.l.media, s.l.epoch, s.lib)));
    PackedKeeps(v.f, c, s, rc, p, t);
  }

  lemma {:induction false} OutcomePre(f: Format, l: LogState, lib: Library, l': LogState, lib': Library, ok: bool, p: Passage)
    requires CompactOutcome(f, l, lib, l', lib', ok, p)
    ensures p.pre <= |p.trail|
  {
    hide MountOf, ShowsCompacted, VolOk, LibWith, BlockGet, ShotsOk, PreShots, SwitchedShots, Resealed, Readable, Primary;
  }

  /** ark_format, on any device with a free next epoch. */
  method DoFormat(v: Volume, c: Codec, ghost s: Snap) returns (rc: Status, ghost t: Snap)
    requires Matches(v, s) && Inv(v.f, c, s) && FormatReady(v.f, v.media)
    modifies v
    ensures Matches(v, t) && Step(v.f, c, s, Formatted(rc), t) && Inv(v.f, c, t)
  {
    hide VolOk, HasTree, LibWith, FormatOk, NodeOk, EpochFree, Young, ShotsOk, RowsQuiet, RowsLater, NextEpoch, EmptyLibrary, FormatOutcome;
    ghost var e := NextEpoch(v.f, s.l.media);
    rc := v.FormatDisk();
    FormatGrows(v.f, s.l, v.Log(), v.Current(), rc);
    t := Snap(v.Log(), v.Current(), rc == OK || (rc == INVAL && s.up),
              s.free + seq(|v.shots| - |s.l.shots|, _ => Young(v.f, s.l.media, e) && RowsLater(v.f, e, 0, 0, [], v.f.zero)));
    FormattedKeeps(v.f, c, s, rc, t);
  }

  lemma {:induction false} FormatGrows(f: Format, l: LogState, l': LogState, lib': Library, rc: Status)
    requires FormatOutcome(f, l, l', lib', rc)
    ensures |l.shots| <= |l'.shots|
  {
    hide ShotsOk, FreshShots, Shown, VolOk, LibWith, Young, RowsLater, Grown;
  }

  /** Power fails after the write that produced medium k, at any point of the run; the machine
      starts again and mounts. */
  method DoPowerLoss(v: Volume, c: Codec, m: Media, ghost k: nat, ghost s: Snap) returns (rc: Status, ghost t: Snap)
    requires Matches(v, s) && Inv(v.f, c, s) && k < |s.l.shots| && m == s.l.shots[k].media
    modifies v
    ensures rc == OK && Matches(v, t) && Step(v.f, c, s, Lost(k), t) && Inv(v.f, c, t)
  {
    hide VolOk, HasTree, LibWith, FormatOk, NodeOk, ShotsOk, Shown, Committed, Clean, MemoryOk;
    rc := v.PowerCut(m, k);
    t := Snap(v.Log(), v.Current(), true, s.free[..k + 1] + [s.free[k]]);
    LostKeeps(v.f, c, s, k, t);
  }
}
