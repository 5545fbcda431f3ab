/** A new filesystem: what ark_format writes, and that from its first sector on every medium
    shows the empty library, provided no commit of the new epoch lies on the medium. */
module ArkFresh {
  import opened ArkFormat
  import opened ArkLog
  import opened ArkCrash
  import opened ArkLibrary
  import opened ArkCompaction
  import opened ArkHistory
  import opened ArkLimits

  /** No commit of epoch e lies in the log area. */
  ghost predicate EpochFree(f: Format, m: Media, e: nat) {
    forall q :: 1 <= q < End(m) ==> !ValidCommit(f, m, e, q)
  }

  /** Media written by ark_format under epoch e, from number `from` on: nothing but empty
      commits. */
  ghost predicate FreshShots(f: Format, shots: seq<Shot>, from: nat, e: nat) {
    forall i :: from <= i < |shots| ==>
      && shots[i].start == 1 && shots[i].epoch == e && Primary(f, shots[i].media, e)
      && Grown(f, CapOf(|shots[i].media|), 1, [], shots[i].recs, EmptyLibrary(f))
  }

  lemma {:induction false} FreshAdds(f: Format, l: LogState, l': LogState, from: nat, young: bool)
    requires l.recs == [] && l.logStart == 1 && l.cap == CapOf(|l.media|) && FreshShots(f, l.shots, from, l.epoch) && from <= |l.shots|
    requires Between(f, l, l', EmptyLibrary(f), young) && Primary(f, l.media, l.epoch) && l.shots != [] && l.shots[|l.shots| - 1] == NowOf(l)
    ensures young ==> StaysYoung(f, l, l')
    ensures FreshShots(f, l'.shots, from, l.epoch) && Grown(f, l.cap, 1, [], l'.recs, EmptyLibrary(f)) && l'.cap == l.cap && l'.logStart == 1
    ensures |l'.media| == |l.media| && l'.shots != [] && l'.shots[|l'.shots| - 1] == NowOf(l')
  {
    hide Grown, CapOf, Shown, LibWith, StaysYoung;
    forall i | from <= i < |l'.shots|
      ensures l'.shots[i].start == 1 && l'.shots[i].epoch == l.epoch && Primary(f, l'.shots[i].media, l.epoch)
      ensures Grown(f, CapOf(|l'.shots[i].media|), 1, [], l'.shots[i].recs, EmptyLibrary(f))
    {
      if i < |l.shots| { assert l'.shots[i] == l.shots[i]; }
    }
  }

  lemma {:induction false} YoungFresh(f: Format, l: LogState, l': LogState, from: nat)
    requires StaysYoung(f, l, l') && Young(f, l.media, l.epoch) && from <= |l.shots|
    requires forall i :: from <= i < |l.shots| ==> Young(f, l.shots[i].media, l.epoch)
    ensures Young(f, l'.media, l.epoch) && forall i :: from <= i < |l'.shots| ==> Young(f, l'.shots[i].media, l.epoch)
  {
    hide Young;
    forall i | from <= i < |l'.shots| ensures Young(f, l'.shots[i].media, l.epoch) {
      if i < |l.shots| { assert l'.shots[i] == l.shots[i]; }
    }
  }

  // ---------------------------------------------------------------- the superblocks

  /** The medium after n of the two superblock copies. */
  ghost function SuperMedia(f: Format, m: Media, e: nat, n: nat): Media {
    if n == 0 then m else if n == 1 then Primaried(f, m, 1, e) else Supered(f, m, 1, e)
  }

  ghost function SuperShots(f: Format, m: Media, e: nat, n: nat): seq<Shot> {
    if n == 0 then []
    else if n == 1 then [Shot(Primaried(f, m, 1, e), e, 1, [])]
    else [Shot(Primaried(f, m, 1, e), e, 1, []), Shot(Supered(f, m, 1, e), e, 1, [])]
  }

  /** Each copy written leaves an empty library and a free epoch. */
  lemma {:induction false} SuperOne(f: Format, m: Media, e: nat)
    requires FormatOk(f) && 4 <= |m| < U32 && e < U32 && EpochFree(f, m, e)
    ensures var s, t := Shot(Primaried(f, m, 1, e), e, 1, []), Shot(Supered(f, m, 1, e), e, 1, []);
            && ShotOk(f, s) && Shown(f, s) == EmptyLibrary(f) && Primary(f, s.media, e)
            && ShotOk(f, t) && Shown(f, t) == EmptyLibrary(f) && Primary(f, t.media, e)
  {
    hide FormatOk, ShotOk, Shown, ValidCommit, SuperIn, EmptyLibrary, Primary;
    var sb := Super(FMT_VERSION, SECTOR, 1, |m|, e);
    FormatShot(f, m, 0, sb);
    FormatShot(f, Primaried(f, m, 1, e), |m| - 1, sb);
  }

  lemma {:induction false} SuperYoung(f: Format, m: Media, e: nat)
    requires 4 <= |m| && Young(f, m, e)
    ensures Young(f, Primaried(f, m, 1, e), e) && Young(f, Supered(f, m, 1, e), e)
  {
    hide Young;
    YoungOutside(f, m, Primaried(f, m, 1, e), e);
    YoungOutside(f, m, Supered(f, m, 1, e), e);
  }

  lemma {:induction false} SupersOk(f: Format, m: Media, e: nat, was: seq<Shot>, n: nat)
    requires FormatOk(f) && 4 <= |m| < U32 && e < U32 && EpochFree(f, m, e) && ShotsOk(f, was) && n <= 2
    ensures var now := was + SuperShots(f, m, e, n);
            && ShotsOk(f, now) && FreshShots(f, now, |was|, e)
            && (forall i :: |was| <= i < |now| ==> Shown(f, now[i]) == EmptyLibrary(f))
            && (Young(f, m, e) ==> forall i :: |was| <= i < |now| ==> Young(f, now[i].media, e))
  {
    hide FormatOk, ShotOk, Shown, EmptyLibrary, Primary, Young, EpochFree, CoreOf, Primaried, Supered;
    SuperOne(f, m, e);
    if Young(f, m, e) { SuperYoung(f, m, e); }
    ShotsConcat(f, was, SuperShots(f, m, e, n));
    var now := was + SuperShots(f, m, e, n);
    forall i | |was| <= i < |now| ensures now[i] in SuperShots(f, m, e, n) { assert now[i] == SuperShots(f, m, e, n)[i - |was|]; }
  }

  // ---------------------------------------------------------------- the whole call

  /** What ark_format has done, from volume l to volume l' with library lib'. */
  ghost predicate FormatOutcome(f: Format, l: LogState, l': LogState, lib': Library, rc: Status) {
    var e := NextEpoch(f, l.media);
    && l.shots <= l'.shots && ShotsOk(f, l'.shots) && FreshShots(f, l'.shots, |l.shots|, e)
    // every medium passed mounts as the empty library
    && (forall i :: |l.shots| <= i < |l'.shots| ==> Shown(f, l'.shots[i]) == EmptyLibrary(f))
    && ((l'.shots == l.shots && l'.media == l.media) || (l'.shots != [] && l'.shots[|l'.shots| - 1].media == l'.media))
    // success: an empty, sound volume in the new epoch
    && (rc == OK ==>
          && VolOk(f, l', lib') && lib' == LibWith(f, l', l'.recs) == EmptyLibrary(f) && l'.epoch == e && l'.cap == CapOf(|l'.media|)
          && l'.logStart == 1 && Grown(f, l'.cap, 1, [], l'.recs, EmptyLibrary(f))
          && |l.shots| < |l'.shots| && l'.shots[|l'.shots| - 1] == NowOf(l'))
    // later epochs stay free
    && (Young(f, l.media, e) && RowsLater(f, e, 0, 0, [], f.zero) ==>
          forall i :: |l.shots| <= i < |l'.shots| ==> Young(f, l'.shots[i].media, e))
  }

  /** One commit of the live table behind a sound volume. */
  lemma {:induction false} CommitTrail(f: Format, l: LogState, lib: Library, r: Rec, trail: seq<Media>)
    requires VolOk(f, l, lib) && RowsQuiet(f, l.epoch, l.sq, 0, lib.live, lib.mroot)
    requires r == Rec(REC_COMMIT, Bump(l.sq), f.encCommit(Commit(Bump(l.sq), lib.live, lib.mroot)))
    requires |trail| <= Span(r) && (trail == [] || l.head + Span(r) <= End(l.media))
    requires forall i :: 0 <= i < |trail| ==> Landed(l.media, trail[i], l.head, Image(f, l.epoch, r), i + 1)
    ensures var l' := AfterTrail(f, l, r, trail);
            && VolOk(f, l', lib) && Between(f, l, l', lib, RowsLater(f, l.epoch, l.sq, 0, lib.live, lib.mroot))
            && LibWith(f, l', l'.recs) == (if |trail| == Span(r) then lib else LibWith(f, l, l.recs))
  {
    hide LogOk, Named, Quiet, CoreOf, Committed, RowsOk, QuietLater, Between, RowsQuiet, RowsLater, Landed, Image, TrailShots, Format.Sound, Format.Injective;
    var c := Commit(Bump(l.sq), lib.live, lib.mroot);
    LogFacts(f, l);
    CommitFacts(f, c);
    RowsHere(f, l.epoch, l.sq, lib.live, lib.mroot);
    CommitEffect(f, l.cap, l.logStart, l.recs, r, c);
    AppendKeeps(f, l, r, trail);
    Appended(f, l, r, trail);
    CommitKeeps(f, l, AfterTrail(f, l, r, trail), lib, r, c);
  }

  /** The initial commit makes the format complete. */
  lemma {:induction false} FormatDone(f: Format, l: LogState, trail: seq<Media>)
    requires FormatOk(f) && 4 <= |l.media| < U32 && ShotsOk(f, l.shots)
    requires EpochFree(f, l.media, NextEpoch(f, l.media)) && RowsQuiet(f, NextEpoch(f, l.media), 0, 0, [], f.zero)
    requires var e := NextEpoch(f, l.media); var m := Supered(f, l.media, 1, e);
             && |trail| <= Span(FirstRec(f)) && (trail == [] || 1 + Span(FirstRec(f)) <= End(m))
             && forall i :: 0 <= i < |trail| ==> Landed(m, trail[i], 1, Image(f, e, FirstRec(f)), i + 1)
    ensures var e := NextEpoch(f, l.media);
            var l0 := FreshLog(Supered(f, l.media, 1, e), e, l.shots + SuperShots(f, l.media, e, 2));
            FormatOutcome(f, l, AfterTrail(f, l0, FirstRec(f), trail), EmptyLibrary(f), if |trail| == Span(FirstRec(f)) then OK else IO)
  {
    hide FormatOk, ShotOk, ShotsOk, VolOk, Shown, LibWith, NextEpoch, EmptyLibrary, Grown, RowsQuiet, RowsLater, Young, Primary, EpochFree, Landed, Image,
         TrailShots, Supered, Primaried, AfterTrail, Adds, StaysYoung, FreshShots;
    var e := NextEpoch(f, l.media);
    var m, r := Supered(f, l.media, 1, e), FirstRec(f);
    var l0 := FreshLog(m, e, l.shots + SuperShots(f, l.media, e, 2));
    var l' := AfterTrail(f, l0, r, trail);
    EpochFits(f, l.media);
    SupersOk(f, l.media, e, l.shots, 2);
    SuperOne(f, l.media, e);
    FormatState(f, Shot(m, e, 1, []), l0.shots, l0);
    EmptyIs(f);
    CommitTrail(f, l0, EmptyLibrary(f), r, trail);
    var young := RowsLater(f, e, 0, 0, [], f.zero);
    FreshAdds(f, l0, l', |l.shots|, young);
    BetweenIs(f, l0, l', EmptyLibrary(f), young);
    FormatKept(f, l', EmptyLibrary(f));
    AfterEpoch(f, l0, r, trail);
    if Young(f, l.media, e) && young {
      SuperYoung(f, l.media, e);
      YoungFresh(f, l0, l', |l.shots|);
    }
    forall i | |l.shots| <= i < |l'.shots| ensures Shown(f, l'.shots[i]) == EmptyLibrary(f) {
      if i < |l0.shots| { assert l'.shots[i] == l0.shots[i]; }
    }
  }

  lemma {:induction false} AfterEpoch(f: Format, l: LogState, r: Rec, trail: seq<Media>)
    ensures AfterTrail(f, l, r, trail).epoch == l.epoch && l.shots <= AfterTrail(f, l, r, trail).shots
  {
  }

  /** The superblocks alone: a format that stops there. */
  lemma {:induction false} FormatStops(f: Format, l: LogState, n: nat, l': LogState, lib': Library)
    requires FormatOk(f) && 4 <= |l.media| < U32 && ShotsOk(f, l.shots) && EpochFree(f, l.media, NextEpoch(f, l.media)) && n <= 2
    requires l'.media == SuperMedia(f, l.media, NextEpoch(f, l.media), n) && l'.shots == l.shots + SuperShots(f, l.media, NextEpoch(f, l.media), n)
    ensures FormatOutcome(f, l, l', lib', IO)
  {
    hide FormatOk, ShotOk, ShotsOk, VolOk, Shown, LibWith, NextEpoch, EmptyLibrary, Grown, RowsLater, Young, EpochFree, Supered, Primaried, FreshShots;
    EpochFits(f, l.media);
    SupersOk(f, l.media, NextEpoch(f, l.media), l.shots, n);
  }

  lemma {:induction false} FormatRefused(f: Format, l: LogState, lib: Library)
    requires ShotsOk(f, l.shots)
    ensures FormatOutcome(f, l, l, lib, INVAL)
  {
    hide ShotsOk;
  }

  lemma {:induction false} SupersDone(f: Format, m: Media, e: nat)
    ensures SuperMedia(f, m, e, 2) == Supered(f, m, 1, e)
  {
  }

  /** What went wrong does not matter to the outcome. */
  lemma {:induction false} FormatFailed(f: Format, l: LogState, l': LogState, lib': Library)
    requires FormatOutcome(f, l, l', lib', IO)
    ensures FormatOutcome(f, l, l', lib', FULL)
  {
    hide ShotsOk, FreshShots, Shown, Young, VolOk, LibWith;
  }

  /** All sectors of the first commit written: the medium and the epoch. */
  lemma {:induction false} FormatMedium(f: Format, l: LogState, trail: seq<Media>)
    requires |trail| <= Span(FirstRec(f)) && l.head == 1
    requires forall i :: 0 <= i < |trail| ==> Landed(l.media, trail[i], 1, Image(f, l.epoch, FirstRec(f)), i + 1)
    ensures var l' := AfterTrail(f, l, FirstRec(f), trail);
            l'.epoch == l.epoch && (|trail| == Span(FirstRec(f)) ==> l'.media == WriteAll(f, l.epoch, l.media, 1, [FirstRec(f)]))
  {
    hide Image, TrailShots;
    var r := FirstRec(f);
    if |trail| == Span(r) {
      var t := trail[|trail| - 1];
      assert Landed(l.media, t, 1, Image(f, l.epoch, r), Span(r));
      OneLands(f, l.epoch, l.media, 1, r);
      assert t == WriteAll(f, l.epoch, l.media, 1, [r]);
    }
  }
}
