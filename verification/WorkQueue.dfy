/** The fork/join work queue of arch/aarch64/mc2_smp.c: one primary, any number of
    helpers, interleaved one access and one row at a time, over any number of dispatches. */
module WorkQueue {

  const SMP_MAX_CPUS: nat := 4
  const PARALLEL_MIN_ROWS: nat := 64
  const U64: nat := 0x1_0000_0000_0000_0000

  // ---------------------------------------------------------------- the partition

  datatype Slice = Slice(lo: nat, hi: nat)

  /** pk_slice_bm. */
  function SliceOf(out: nat, nw: nat, s: nat): Slice
    requires s < nw
  {
    var q := out / nw;
    Slice(s * q, if s == nw - 1 then out else s * q + q)
  }

  lemma {:induction false} Monotone(a: nat, b: nat, q: nat)
    requires a <= b
    ensures a * q <= b * q
  {
    assert b * q == a * q + (b - a) * q;
  }

  lemma {:induction false} SliceBounds(out: nat, nw: nat, s: nat)
    requires s < nw
    ensures var c := SliceOf(out, nw, s); c.lo <= c.hi <= out
  {
    var q := out / nw;
    Monotone(s + 1, nw, q);
    assert (s + 1) * q == s * q + q;
    assert nw * q <= out;
  }

  /** Slices do not overlap: the earlier one ends where the later begins or before. */
  lemma {:induction false} SlicesDisjoint(out: nat, nw: nat, s: nat, t: nat)
    requires s < t < nw
    ensures SliceOf(out, nw, s).hi <= SliceOf(out, nw, t).lo
  {
    var q := out / nw;
    Monotone(s + 1, t, q);
    assert (s + 1) * q == s * q + q;
  }

  /** Every row lies in a slice. */
  lemma {:induction false} SlicesCover(out: nat, nw: nat, r: nat, s: nat) returns (t: nat)
    requires s < nw && r < out && SliceOf(out, nw, s).lo <= r
    ensures t < nw && SliceOf(out, nw, t).lo <= r < SliceOf(out, nw, t).hi
    decreases nw - s
  {
    if r < SliceOf(out, nw, s).hi {
      t := s;
    } else {
      var q := out / nw;
      assert (s + 1) * q == s * q + q;
      t := SlicesCover(out, nw, r, s + 1);
    }
  }

  predicate InSlice(out: nat, nw: nat, s: nat, r: nat)
    requires s < nw
  {
    SliceOf(out, nw, s).lo <= r < SliceOf(out, nw, s).hi
  }

  /** The partition is exact. */
  lemma {:induction false} Partition(out: nat, nw: nat, r: nat)
    requires nw >= 1 && r < out
    ensures exists s :: 0 <= s < nw && InSlice(out, nw, s, r)
    ensures forall s, t :: 0 <= s < nw && 0 <= t < nw && InSlice(out, nw, s, r) && InSlice(out, nw, t, r) ==> s == t
  {
    var s := SlicesCover(out, nw, r, 0);
    assert InSlice(out, nw, s, r);
    forall s, t | 0 <= s < nw && 0 <= t < nw && InSlice(out, nw, s, r) && InSlice(out, nw, t, r) ensures s == t {
      if s < t { SlicesDisjoint(out, nw, s, t); }
      if t < s { SlicesDisjoint(out, nw, t, s); }
    }
  }

  // ---------------------------------------------------------------- the machine

  /** What a call works on: the row body gives each row its value. */
  datatype Job = Job(out: nat, nw: nat, row: nat -> int)

  datatype Helper =
    | Sleep(seen: nat)                 // wfe while gen == seen
    | Woken(seen: nat)                 // gen advanced, job not yet read
    | Rows(seen: nat, i: nat, hi: nat) // in the row body
    | Report(seen: nat)                // done++ still to come

  datatype Primary =
    | Ready                            // between calls
    | Inline(i: nat)                   // serial fallback
    | Fill | Reset | Publish           // under the lock
    | Own(i: nat, hi: nat)             // slice 0
    | Join

  /** g_wq, the CPUs, the caller's output now and at the call, and how often each row was
      computed since. */
  datatype World = World(gen: nat, job: Job, done: nat, primary: Primary, helpers: seq<Helper>,
                         cur: Job, y: seq<int>, cnt: seq<nat>, y0: seq<int>)

  function Compute(w: World, row: nat -> int, i: nat): World
    requires i < |w.y| && i < |w.cnt|
  {
    w.(y := w.y[i := row(i)], cnt := w.cnt[i := w.cnt[i] + 1])
  }

  function NextGen(g: nat): nat { (g + 1) % 0x1_0000_0000_0000_0000 }

  /** A call of pk_parallel_rows with any output buffer and any forced width. */
  ghost predicate Call(w: World, w': World) {
    && w.primary.Ready?
    && w'.cur.nw <= SMP_MAX_CPUS && |w'.y| == w'.cur.out
    && w' == w.(cur := w'.cur, y := w'.y, y0 := w'.y, cnt := seq(w'.cur.out, _ => 0),
                primary := if w'.cur.nw <= 1 || w'.cur.out < PARALLEL_MIN_ROWS then Inline(0) else Fill)
  }

  /** One step of the primary inside a call. */
  ghost predicate PrimaryStep(w: World, w': World) {
    match w.primary
    case Ready => false
    case Inline(i) =>
      if i < w.cur.out then i < |w.y| && i < |w.cnt| && w' == Compute(w, w.cur.row, i).(primary := Inline(i + 1))
      else w' == w.(primary := Ready)
    case Fill => w' == w.(job := w.cur, primary := Reset)
    case Reset => w' == w.(done := 0, primary := Publish)
    case Publish =>
      w.cur.nw > 0 && w' == w.(gen := NextGen(w.gen), primary := Own(0, SliceOf(w.cur.out, w.cur.nw, 0).hi))
    case Own(i, hi) =>
      if i < hi then i < |w.y| && i < |w.cnt| && w' == Compute(w, w.cur.row, i).(primary := Own(i + 1, hi))
      else w' == w.(primary := Join)
    case Join => w.done >= |w.helpers| && w' == w.(primary := Ready)
  }

  /** One step of the helper in slot k + 1. */
  ghost predicate HelperStep(w: World, w': World, k: nat) {
    k < |w.helpers| &&
    match w.helpers[k]
    case Sleep(seen) => w.gen != seen && w' == w.(helpers := w.helpers[k := Woken(w.gen)])
    case Woken(seen) =>
      w' == w.(helpers := w.helpers[k :=
        if k + 1 < w.job.nw then Rows(seen, SliceOf(w.job.out, w.job.nw, k + 1).lo, SliceOf(w.job.out, w.job.nw, k + 1).hi) else Report(seen)])
    case Rows(seen, i, hi) =>
      if i < hi then i < |w.y| && i < |w.cnt| && w' == Compute(w, w.job.row, i).(helpers := w.helpers[k := Rows(seen, i + 1, hi)])
      else w' == w.(helpers := w.helpers[k := Report(seen)])
    case Report(seen) => w' == w.(done := w.done + 1, helpers := w.helpers[k := Sleep(seen)])
  }

  ghost predicate Next(w: World, w': World) {
    Call(w, w') || PrimaryStep(w, w') || exists k :: HelperStep(w, w', k)
  }

  // ---------------------------------------------------------------- the invariant

  /** Helpers that reported for this generation. */
  function Finished(hs: seq<Helper>, gen: nat): nat {
    if hs == [] then 0 else Finished(hs[..|hs| - 1], gen) + if hs[|hs| - 1] == Sleep(gen) then 1 else 0
  }

  lemma {:induction false} FinishedMax(hs: seq<Helper>, gen: nat)
    ensures Finished(hs, gen) <= |hs|
    ensures Finished(hs, gen) == |hs| <==> forall k :: 0 <= k < |hs| ==> hs[k] == Sleep(gen)
  {
    if hs != [] {
      var front := hs[..|hs| - 1];
      FinishedMax(front, gen);
      assert forall k :: 0 <= k < |front| ==> front[k] == hs[k];
      assert hs[|hs| - 1] in hs;
      if forall k :: 0 <= k < |front| ==> front[k] == Sleep(gen) {
        assert forall k :: 0 <= k < |hs| ==> hs[k] == if k < |front| then front[k] else hs[|hs| - 1];
      }
    }
  }

  lemma {:induction false} FinishedSet(hs: seq<Helper>, gen: nat, k: nat, h: Helper)
    requires k < |hs|
    ensures Finished(hs[k := h], gen) == Finished(hs, gen) - (if hs[k] == Sleep(gen) then 1 else 0) + (if h == Sleep(gen) then 1 else 0)
  {
    var n := |hs| - 1;
    if k == n {
      assert hs[k := h][..n] == hs[..n];
    } else {
      assert hs[k := h][..n] == hs[..n][k := h];
      FinishedSet(hs[..n], gen, k, h);
    }
  }

  /** Up to which row slot s has come in the current call; a slot without a CPU never starts. */
  function Upto(w: World, s: nat): nat
    requires s < w.cur.nw
  {
    var c := SliceOf(w.cur.out, w.cur.nw, s);
    if s == 0 then (match w.primary case Own(i, _) => i case _ => c.hi)
    else if s > |w.helpers| then c.lo
    else
      match w.helpers[s - 1]
      case Sleep(g) => if g == w.gen then c.hi else c.lo
      case Woken(_) => c.lo
      case Rows(_, i, _) => i
      case Report(_) => c.hi
  }

  function Progress(w: World): seq<nat> { seq(w.cur.nw, s requires 0 <= s < w.cur.nw => Upto(w, s)) }

  /** Rows below the progress of their slice were computed once and hold their value; the
      others are untouched. */
  ghost predicate RowsOk(job: Job, y: seq<int>, cnt: seq<nat>, y0: seq<int>, ups: seq<nat>) {
    && |y| == |cnt| == |y0| == job.out && |ups| == job.nw
    && forall s, r :: 0 <= s < job.nw && 0 <= r < job.out && InSlice(job.out, job.nw, s, r) ==>
         && cnt[r] == (if r < ups[s] then 1 else 0)
         && y[r] == (if r < ups[s] then job.row(r) else y0[r])
  }

  lemma {:induction false} RowComputed(job: Job, y: seq<int>, cnt: seq<nat>, y0: seq<int>, ups: seq<nat>, s: nat)
    requires RowsOk(job, y, cnt, y0, ups) && s < job.nw && ups[s] < job.out && InSlice(job.out, job.nw, s, ups[s])
    ensures var i := ups[s]; RowsOk(job, y[i := job.row(i)], cnt[i := cnt[i] + 1], y0, ups[s := i + 1])
  {
    hide InSlice;
    var i := ups[s];
    Partition(job.out, job.nw, i);
  }

  predicate HelperOk(w: World, k: nat)
    requires k < |w.helpers|
  {
    match w.helpers[k]
    case Sleep(g) => g == w.gen || NextGen(g) == w.gen
    case Woken(g) => g == w.gen
    case Rows(g, i, hi) =>
      && g == w.gen && k + 1 < w.cur.nw && hi == SliceOf(w.cur.out, w.cur.nw, k + 1).hi
      && SliceOf(w.cur.out, w.cur.nw, k + 1).lo <= i <= hi
    case Report(g) => g == w.gen
  }

  ghost predicate Resting(w: World) { forall k :: 0 <= k < |w.helpers| ==> w.helpers[k] == Sleep(w.gen) }

  ghost predicate Parallel(w: World) {
    && w.job == w.cur && 1 < w.cur.nw && w.done == Finished(w.helpers, w.gen)
    && (forall k :: 0 <= k < |w.helpers| ==> HelperOk(w, k))
    && (w.primary.Own? ==> w.primary.i <= w.primary.hi == SliceOf(w.cur.out, w.cur.nw, 0).hi)
    && RowsOk(w.cur, w.y, w.cnt, w.y0, Progress(w))
  }

  ghost predicate Untouched(w: World) {
    |w.y| == |w.cnt| == w.cur.out && w.y == w.y0 && forall r :: 0 <= r < w.cur.out ==> w.cnt[r] == 0
  }

  ghost predicate Serial(w: World, i: nat) {
    && |w.y| == |w.cnt| == |w.y0| == w.cur.out && i <= w.cur.out
    && (forall r :: 0 <= r < i ==> w.cnt[r] == 1 && w.y[r] == w.cur.row(r))
    && (forall r :: i <= r < w.cur.out ==> w.cnt[r] == 0 && w.y[r] == w.y0[r])
  }

  ghost predicate Inv(w: World) {
    match w.primary
    case Ready => Resting(w)
    case Inline(i) => Resting(w) && Serial(w, i)
    case Fill => Resting(w) && Untouched(w) && 1 < w.cur.nw
    case Reset => Resting(w) && Untouched(w) && 1 < w.cur.nw && w.job == w.cur
    case Publish => Resting(w) && Untouched(w) && 1 < w.cur.nw && w.job == w.cur && w.done == 0
    case Own(_, _) => Parallel(w)
    case Join => Parallel(w)
  }

  // ---------------------------------------------------------------- steps

  lemma {:induction false} NewGen(g: nat)
    ensures NextGen(g) != g
  {
  }

  lemma {:induction false} PublishInv(w: World, w': World)
    requires Inv(w) && w.primary.Publish? && PrimaryStep(w, w')
    ensures Inv(w')
  {
    NewGen(w.gen);
    assert w'.done == Finished(w'.helpers, w'.gen) by { NoneFinished(w'.helpers, w'.gen); }
    forall s, r | 0 <= s < w.cur.nw && 0 <= r < w.cur.out && InSlice(w.cur.out, w.cur.nw, s, r)
      ensures r >= Progress(w')[s]
    {
      assert Progress(w')[s] == SliceOf(w.cur.out, w.cur.nw, s).lo;
    }
    SliceBounds(w.cur.out, w.cur.nw, 0);
  }

  lemma {:induction false} NoneFinished(hs: seq<Helper>, gen: nat)
    requires forall k :: 0 <= k < |hs| ==> hs[k] != Sleep(gen)
    ensures Finished(hs, gen) == 0
  {
    if hs != [] { NoneFinished(hs[..|hs| - 1], gen); }
  }

  lemma {:induction false} OwnInv(w: World, w': World)
    requires Inv(w) && w.primary.Own? && PrimaryStep(w, w')
    ensures Inv(w')
  {
    hide Finished, SliceOf, RowsOk, HelperOk;
    SliceZero(w.cur.out, w.cur.nw);
    forall k | 0 <= k < |w'.helpers| ensures HelperOk(w', k) { assert HelperOk(w, k); SameHelper(w, w', k); }
    var ups := Progress(w);
    var i := w.primary.i;
    if i < w.primary.hi {
      InSliceIs(w.cur.out, w.cur.nw, 0, i);
      assert RowsOk(w.cur, w.y, w.cnt, w.y0, ups) && ups[0] == i;
      RowComputed(w.cur, w.y, w.cnt, w.y0, ups, 0);
      assert Progress(w') == ups[0 := i + 1];
    } else {
      assert Progress(w') == ups;
    }
  }

  lemma {:induction false} SliceZero(out: nat, nw: nat)
    requires nw > 0
    ensures SliceOf(out, nw, 0).lo == 0 && SliceOf(out, nw, 0).hi <= out
  {
    SliceBounds(out, nw, 0);
  }

  lemma {:induction false} InSliceIs(out: nat, nw: nat, s: nat, r: nat)
    requires s < nw && SliceOf(out, nw, s).lo <= r < SliceOf(out, nw, s).hi
    ensures InSlice(out, nw, s, r) && r < out
  {
    SliceBounds(out, nw, s);
  }

  lemma {:induction false} SameHelper(w: World, w': World, k: nat)
    requires k < |w.helpers| && |w'.helpers| == |w.helpers| && w'.helpers[k] == w.helpers[k] && w'.gen == w.gen && w'.cur == w.cur && HelperOk(w, k)
    ensures HelperOk(w', k)
  {
  }

  lemma {:induction false} InlineInv(w: World, w': World)
    requires Inv(w) && w.primary.Inline? && PrimaryStep(w, w')
    ensures Inv(w')
  {
  }

  lemma {:induction false} JoinInv(w: World, w': World)
    requires Inv(w) && w.primary.Join? && PrimaryStep(w, w')
    ensures Inv(w')
  {
    FinishedMax(w.helpers, w.gen);
  }

  lemma {:induction false} CallInv(w: World, w': World)
    requires Inv(w) && Call(w, w')
    ensures Inv(w')
  {
  }

  lemma {:induction false} PrimaryInv(w: World, w': World)
    requires Inv(w) && PrimaryStep(w, w')
    ensures Inv(w')
  {
    match w.primary
    case Ready =>
    case Inline(_) => InlineInv(w, w');
    case Fill =>
    case Reset =>
    case Publish => PublishInv(w, w');
    case Own(_, _) => OwnInv(w, w');
    case Join => JoinInv(w, w');
  }

  /** While the primary rests, so do the helpers. */
  lemma {:induction false} HelpersRest(w: World, w': World, k: nat)
    requires Resting(w)
    ensures !HelperStep(w, w', k)
  {
  }

  lemma {:induction false} HelperRuns(w: World, w': World, k: nat)
    requires Parallel(w) && HelperStep(w, w', k)
    ensures Parallel(w')
  {
    hide Finished, SliceOf, RowsOk;
    FinishedSet(w.helpers, w.gen, k, w'.helpers[k]);
    forall j | 0 <= j < |w'.helpers| ensures HelperOk(w', j) {
      assert HelperOk(w, j);
      if j == k { if k + 1 < w.cur.nw { SliceBounds(w.cur.out, w.cur.nw, k + 1); } }
    }
    var ups := Progress(w);
    var s := k + 1;
    assert HelperOk(w, k);
    assert RowsOk(w.cur, w.y, w.cnt, w.y0, ups);
    if w.helpers[k].Rows? && w.helpers[k].i < w.helpers[k].hi {
      var i := w.helpers[k].i;
      InSliceIs(w.cur.out, w.cur.nw, s, i);
      assert ups[s] == i;
      RowComputed(w.cur, w.y, w.cnt, w.y0, ups, s);
      assert Progress(w') == ups[s := i + 1];
    } else {
      assert Progress(w') == ups;
    }
  }

  /** Every step of every interleaving keeps the invariant. */
  lemma {:induction false} NextInv(w: World, w': World)
    requires Inv(w) && Next(w, w')
    ensures Inv(w')
  {
    hide Call, PrimaryStep, Resting, Parallel, Serial, Untouched, HelperStep;
    if Call(w, w') {
      CallInv(w, w');
    } else if PrimaryStep(w, w') {
      PrimaryInv(w, w');
    } else {
      var k :| HelperStep(w, w', k);
      HelperKeeps(w, w', k);
      if w.primary.Own? || w.primary.Join? {
        HelperRuns(w, w', k);
      } else {
        HelpersRest(w, w', k);
      }
    }
  }

  lemma {:induction false} HelperKeeps(w: World, w': World, k: nat)
    requires HelperStep(w, w', k)
    ensures w'.primary == w.primary
  {
  }

  // ---------------------------------------------------------------- runs

  /** Released secondaries wait for the first generation. */
  ghost predicate Init(w: World) { w.primary.Ready? && w.gen == 0 && Resting(w) }

  ghost predicate Run(ws: seq<World>) {
    ws != [] && Init(ws[0]) && forall i, j :: 0 <= i && j == i + 1 < |ws| ==> Next(ws[i], ws[j])
  }

  lemma {:induction false} RunInv(ws: seq<World>, i: nat)
    requires Run(ws) && i < |ws|
    ensures Inv(ws[i])
  {
    hide Next;
    if i > 0 {
      RunInv(ws, i - 1);
      NextInv(ws[i - 1], ws[i]);
    }
  }

  /** The call that is about to return. */
  ghost predicate Returns(w: World) {
    (w.primary.Join? && w.done >= |w.helpers|) || (w.primary.Inline? && w.primary.i == w.cur.out)
  }

  /** What any return leaves: every row of a slice that has a CPU was computed exactly once,
      every other row not at all. */
  lemma {:induction false} ReturnRows(ws: seq<World>, i: nat, s: nat, r: nat)
    requires Run(ws) && i < |ws| && ws[i].primary.Join? && ws[i].done >= |ws[i].helpers|
    requires s < ws[i].cur.nw && r < ws[i].cur.out && InSlice(ws[i].cur.out, ws[i].cur.nw, s, r)
    ensures var w := ws[i];
            && |w.y| == |w.cnt| == |w.y0| == w.cur.out
            && w.cnt[r] == (if s <= |w.helpers| then 1 else 0) && w.y[r] == (if s <= |w.helpers| then w.cur.row(r) else w.y0[r])
  {
    var w := ws[i];
    RunInv(ws, i);
    FinishedMax(w.helpers, w.gen);
    assert Progress(w)[s] == Upto(w, s);
  }

  /** Parallel equals serial: with a CPU for every slice each row is computed exactly once
      and the buffer is what the serial loop leaves. */
  lemma {:induction false} ParallelEqualsSerial(ws: seq<World>, i: nat)
    requires Run(ws) && i < |ws| && Returns(ws[i]) && ws[i].cur.nw <= |ws[i].helpers| + 1
    ensures var w := ws[i]; w.y == seq(w.cur.out, r requires 0 <= r < w.cur.out => w.cur.row(r)) && w.cnt == seq(w.cur.out, _ => 1)
  {
    hide Run, InSlice;
    var w := ws[i];
    RunInv(ws, i);
    if w.primary.Join? {
      forall r | 0 <= r < w.cur.out ensures |w.y| == |w.cnt| == w.cur.out && w.cnt[r] == 1 && w.y[r] == w.cur.row(r) {
        Partition(w.cur.out, w.cur.nw, r);
        var s :| 0 <= s < w.cur.nw && InSlice(w.cur.out, w.cur.nw, s, r);
        ReturnRows(ws, i, s, r);
      }
    }
  }

  /** The width must not exceed the CPUs: otherwise the last slice, which is never empty in a
      parallel call, is not computed at all. */
  lemma {:induction false} TooWideLosesRows(ws: seq<World>, i: nat)
    requires Run(ws) && i < |ws| && ws[i].primary.Join? && ws[i].done >= |ws[i].helpers| && ws[i].cur.nw > |ws[i].helpers| + 1
    requires ws[i].cur.out > 0
    ensures var w := ws[i]; |w.cnt| == w.cur.out && w.cnt[w.cur.out - 1] == 0
  {
    hide Run;
    var w := ws[i];
    var s, r := w.cur.nw - 1, w.cur.out - 1;
    LastRow(w.cur.out, w.cur.nw);
    ReturnRows(ws, i, s, r);
  }

  lemma {:induction false} LastRow(out: nat, nw: nat)
    requires nw >= 2 && out > 0
    ensures InSlice(out, nw, nw - 1, out - 1)
  {
    var q := out / nw;
    assert nw * q <= out;
    assert (nw - 1) * q == nw * q - q;
    if q == 0 { assert (nw - 1) * q == 0; }
  }

  /** After a return no helper is still at work, so nothing changes the buffer any more. */
  lemma {:induction false} QuietAfterReturn(ws: seq<World>, i: nat)
    requires Run(ws) && i < |ws| && ws[i].primary.Ready?
    ensures forall k, w' :: !HelperStep(ws[i], w', k)
  {
    hide Run, HelperStep;
    RunInv(ws, i);
    forall k, w' ensures !HelperStep(ws[i], w', k) {
      HelpersRest(ws[i], w', k);
    }
  }

  // ---------------------------------------------------------------- every call returns

  function Least(n: int): nat { if n < 0 then 0 else n }

  /** Steps a helper still has to make before it rests, at most. */
  function HelperLeft(h: Helper, gen: nat, out: nat): nat {
    match h
    case Sleep(seen) => if seen == gen then 0 else out + 5
    case Woken(_) => out + 4
    case Rows(_, i, hi) => Least(hi - i) + 2
    case Report(_) => 1
  }

  function HelpersLeft(hs: seq<Helper>, gen: nat, out: nat): nat {
    if hs == [] then 0 else HelpersLeft(hs[..|hs| - 1], gen, out) + HelperLeft(hs[|hs| - 1], gen, out)
  }

  function PrimaryLeft(w: World): nat {
    var wake := w.cur.out + 3 + |w.helpers| * (w.cur.out + 5);
    match w.primary
    case Ready => 0
    case Inline(i) => Least(w.cur.out - i) + 1
    case Join => 1
    case Own(i, hi) => Least(hi - i) + 2
    case Publish => wake
    case Reset => wake + 1
    case Fill => wake + 2
  }

  /** Steps until the call returns, at most. */
  function Left(w: World): nat { PrimaryLeft(w) + HelpersLeft(w.helpers, w.gen, w.cur.out) }

  lemma {:induction false} LeftSet(hs: seq<Helper>, gen: nat, out: nat, k: nat, h: Helper)
    requires k < |hs|
    ensures HelpersLeft(hs[k := h], gen, out) + HelperLeft(hs[k], gen, out) == HelpersLeft(hs, gen, out) + HelperLeft(h, gen, out)
  {
    hide HelperLeft;
    var n := |hs| - 1;
    if k == n {
      assert hs[k := h][..n] == hs[..n];
    } else {
      assert hs[k := h][..n] == hs[..n][k := h];
      LeftSet(hs[..n], gen, out, k, h);
    }
  }

  lemma {:induction false} LeftAsleep(hs: seq<Helper>, old_: nat, gen: nat, out: nat)
    requires forall k :: 0 <= k < |hs| ==> hs[k] == Sleep(old_)
    ensures HelpersLeft(hs, gen, out) == if old_ == gen then 0 else |hs| * (out + 5)
  {
    if hs != [] { LeftAsleep(hs[..|hs| - 1], old_, gen, out); }
  }

  lemma {:induction false} PrimaryShrinks(w: World, w': World)
    requires Inv(w) && PrimaryStep(w, w')
    ensures Left(w') < Left(w)
  {
    hide RowsOk, Finished, HelperLeft;
    match w.primary
    case Inline(_) =>
    case Fill =>
    case Reset =>
    case Publish =>
      NewGen(w.gen);
      LeftAsleep(w.helpers, w.gen, w.gen, w.cur.out);
      LeftAsleep(w.helpers, w.gen, NextGen(w.gen), w.cur.out);
      SliceZero(w.cur.out, w.cur.nw);
    case Own(_, _) =>
    case Join =>
  }

  lemma {:induction false} HelperShrinks(w: World, w': World, k: nat)
    requires Inv(w) && HelperStep(w, w', k)
    ensures Left(w') < Left(w)
  {
    hide RowsOk, Finished, HelpersLeft, SliceOf;
    if Resting(w) { HelpersRest(w, w', k); }
    assert Parallel(w) && HelperOk(w, k);
    LeftSet(w.helpers, w.gen, w.cur.out, k, w'.helpers[k]);
    if k + 1 < w.cur.nw { SliceBounds(w.cur.out, w.cur.nw, k + 1); }
  }

  /** Inside a call every step, whoever makes it, brings the return nearer. */
  lemma {:induction false} StepShrinks(ws: seq<World>, i: nat, w': World)
    requires Run(ws) && i < |ws| && !ws[i].primary.Ready? && Next(ws[i], w')
    ensures Left(w') < Left(ws[i])
  {
    hide Run, Inv, PrimaryStep, HelperStep, Left;
    var w := ws[i];
    RunInv(ws, i);
    if PrimaryStep(w, w') {
      PrimaryShrinks(w, w');
    } else {
      var k :| HelperStep(w, w', k);
      HelperShrinks(w, w', k);
    }
  }

  /** So in any interleaving a call returns: at most Left steps pass without the primary being back. */
  lemma {:induction false} CallReturns(ws: seq<World>, i: nat, j: nat)
    requires Run(ws) && i <= j < |ws| && forall m :: i <= m <= j ==> !ws[m].primary.Ready?
    ensures j - i + Left(ws[j]) <= Left(ws[i])
    decreases j - i
  {
    hide Left;
    if i < j {
      CallReturns(ws, i, j - 1);
      var m := j - 1;
      assert Next(ws[m], ws[j]);
      StepShrinks(ws, m, ws[j]);
    }
  }

  /** And it never gets stuck: inside a call the primary or some helper can step. */
  lemma {:induction false} NeverStuck(ws: seq<World>, i: nat) returns (w': World)
    requires Run(ws) && i < |ws| && !ws[i].primary.Ready?
    ensures Next(ws[i], w')
  {
    hide Run, RowsOk, SliceOf;
    var w := ws[i];
    RunInv(ws, i);
    match w.primary
    case Inline(k) =>
      w' := if k < w.cur.out then Compute(w, w.cur.row, k).(primary := Inline(k + 1)) else w.(primary := Ready);
      assert PrimaryStep(w, w');
    case Fill =>
      w' := w.(job := w.cur, primary := Reset);
      assert PrimaryStep(w, w');
    case Reset =>
      w' := w.(done := 0, primary := Publish);
      assert PrimaryStep(w, w');
    case Publish =>
      w' := w.(gen := NextGen(w.gen), primary := Own(0, SliceOf(w.cur.out, w.cur.nw, 0).hi));
      assert PrimaryStep(w, w');
    case Own(k, hi) =>
      OwnRoom(w);
      w' := if k < hi then Compute(w, w.cur.row, k).(primary := Own(k + 1, hi)) else w.(primary := Join);
      assert PrimaryStep(w, w');
    case Join =>
      FinishedMax(w.helpers, w.gen);
      if w.done >= |w.helpers| {
        w' := w.(primary := Ready);
        assert PrimaryStep(w, w');
      } else {
        var k: nat :| k < |w.helpers| && w.helpers[k] != Sleep(w.gen);
        w' := HelperGoes(w, k);
      }
  }

  lemma {:induction false} OwnRoom(w: World)
    requires Parallel(w)
    ensures |w.y| == |w.cnt| == w.cur.out && SliceOf(w.cur.out, w.cur.nw, 0).hi <= w.cur.out
  {
    SliceZero(w.cur.out, w.cur.nw);
  }

  lemma {:induction false} HelperGoes(w: World, k: nat) returns (w': World)
    requires Parallel(w) && k < |w.helpers| && w.helpers[k] != Sleep(w.gen)
    ensures HelperStep(w, w', k)
  {
    hide SliceOf, Finished;
    OwnRoom(w);
    assert HelperOk(w, k);
    match w.helpers[k]
    case Sleep(seen) => w' := w.(helpers := w.helpers[k := Woken(w.gen)]);
    case Woken(seen) =>
      w' := w.(helpers := w.helpers[k :=
        if k + 1 < w.job.nw then Rows(seen, SliceOf(w.job.out, w.job.nw, k + 1).lo, SliceOf(w.job.out, w.job.nw, k + 1).hi) else Report(seen)]);
    case Rows(seen, i, hi) =>
      SliceBounds(w.cur.out, w.cur.nw, k + 1);
      w' := if i < hi then Compute(w, w.job.row, i).(helpers := w.helpers[k := Rows(seen, i + 1, hi)])
            else w.(helpers := w.helpers[k := Report(seen)]);
    case Report(seen) => w' := w.(done := w.done + 1, helpers := w.helpers[k := Sleep(seen)]);
  }

  /** Who computes: the caller alone for a width of one or fewer than 64 rows, else the slices. */
  lemma {:induction false} SerialIffSmall(ws: seq<World>, i: nat)
    requires Run(ws) && i < |ws| && !ws[i].primary.Ready?
    ensures ws[i].primary.Inline? <==> ws[i].cur.nw <= 1 || ws[i].cur.out < 64
  {
    hide Inv, HelperStep;
    if i > 0 {
      var w := ws[i - 1];
      assert Next(w, ws[i]);
      if !Call(w, ws[i]) {
        if PrimaryStep(w, ws[i]) {
          if !w.primary.Ready? { SerialIffSmall(ws, i - 1); }
        } else {
          var k :| HelperStep(w, ws[i], k);
          HelperKeeps(w, ws[i], k);
          HelperSameJob(w, ws[i], k);
          SerialIffSmall(ws, i - 1);
        }
      }
    }
  }

  lemma {:induction false} HelperSameJob(w: World, w': World, k: nat)
    requires HelperStep(w, w', k)
    ensures w'.cur == w.cur
  {
  }
}
