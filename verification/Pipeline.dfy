/** The sensor pipeline of arch/common/pipeline.c: a ring of 16 frames between any number
    of producers and consumers, interleaved one semaphore call or memory access at a time. */
module Pipeline {
  import opened Wrappers

  const DEPTH: nat := 16

  type Frame = int

  /** The next access of a thread. */
  datatype Thread =
    | Idle
    | PushLock(f: Frame) | PushWrite(f: Frame) | PushHead | PushUnlock | PushData
    | PopLock | PopRead | PopTail(got: Frame) | PopUnlock(got: Frame) | PopSpace(got: Frame)

  /** Ring, positions and the three semaphore counts; the frames pushed and popped so far in
      the order of their critical sections; who is inside one. */
  datatype World = World(ring: seq<Frame>, head: nat, tail: nat, data: nat, space: nat, lock: nat,
                         threads: seq<Thread>, pushed: seq<Frame>, popped: seq<Frame>, inside: Option<nat>)

  datatype Act = Push(f: Frame) | Pop | Go

  /** One step of thread t: None where it blocks or has nothing to do.  A push that finds no
      space and a pop that times out return without a trace and are no steps. */
  function Step(w: World, t: nat, a: Act): Option<World>
    requires t < |w.threads|
  {
    var to := (x: Thread) => w.threads[t := x];
    match w.threads[t]
    case Idle =>
      (match a
       case Push(f) => if w.space > 0 then Some(w.(space := w.space - 1, threads := to(PushLock(f)))) else None
       case Pop => if w.data > 0 then Some(w.(data := w.data - 1, threads := to(PopLock))) else None
       case Go => None)
    case PushLock(f) => if w.lock > 0 then Some(w.(lock := w.lock - 1, inside := Some(t), threads := to(PushWrite(f)))) else None
    case PushWrite(f) =>
      if w.head < |w.ring| then Some(w.(ring := w.ring[w.head := f], pushed := w.pushed + [f], threads := to(PushHead))) else None
    case PushHead => Some(w.(head := (w.head + 1) % DEPTH, threads := to(PushUnlock)))
    case PushUnlock => Some(w.(lock := w.lock + 1, inside := None, threads := to(PushData)))
    case PushData => Some(w.(data := w.data + 1, threads := to(Idle)))
    case PopLock => if w.lock > 0 then Some(w.(lock := w.lock - 1, inside := Some(t), threads := to(PopRead))) else None
    case PopRead =>
      if w.tail < |w.ring| then Some(w.(popped := w.popped + [w.ring[w.tail]], threads := to(PopTail(w.ring[w.tail])))) else None
    case PopTail(g) => Some(w.(tail := (w.tail + 1) % DEPTH, threads := to(PopUnlock(g))))
    case PopUnlock(g) => Some(w.(lock := w.lock + 1, inside := None, threads := to(PopSpace(g))))
    case PopSpace(g) => Some(w.(space := w.space + 1, threads := to(Idle)))
  }

  // ---------------------------------------------------------------- counting threads

  /** Holding a slot: to be written, written, to be read, read. */
  datatype Stage = Away | ToWrite | Written | ToRead | Taken

  function StageOf(x: Thread): Stage {
    match x
    case Idle => Away
    case PushLock(_) => ToWrite
    case PushWrite(_) => ToWrite
    case PushHead => Written
    case PushUnlock => Written
    case PushData => Written
    case PopLock => ToRead
    case PopRead => ToRead
    case PopTail(_) => Taken
    case PopUnlock(_) => Taken
    case PopSpace(_) => Taken
  }

  predicate Critical(x: Thread) {
    x.PushWrite? || x.PushHead? || x.PushUnlock? || x.PopRead? || x.PopTail? || x.PopUnlock?
  }

  function Count(ts: seq<Thread>, g: Stage): nat {
    if ts == [] then 0 else Count(ts[..|ts| - 1], g) + if StageOf(ts[|ts| - 1]) == g then 1 else 0
  }

  lemma {:induction false} CountSet(ts: seq<Thread>, t: nat, x: Thread, g: Stage)
    requires t < |ts|
    ensures Count(ts[t := x], g) + (if StageOf(ts[t]) == g then 1 else 0) == Count(ts, g) + (if StageOf(x) == g then 1 else 0)
  {
    var n := |ts| - 1;
    if t == n {
      assert ts[t := x][..n] == ts[..n];
    } else {
      assert ts[t := x][..n] == ts[..n][t := x];
      CountSet(ts[..n], t, x, g);
    }
  }

  lemma {:induction false} CountHas(ts: seq<Thread>, t: nat)
    requires t < |ts|
    ensures Count(ts, StageOf(ts[t])) >= 1
  {
    if t < |ts| - 1 { CountHas(ts[..|ts| - 1], t); }
  }

  // ---------------------------------------------------------------- the invariant

  /** Every slot is free, filled, or in the hands of one thread. */
  predicate Slots(w: World) {
    && |w.popped| <= |w.pushed|
    && |w.pushed| - |w.popped| == w.data + Count(w.threads, Written) + Count(w.threads, ToRead)
    && DEPTH - (|w.pushed| - |w.popped|) == w.space + Count(w.threads, ToWrite) + Count(w.threads, Taken)
  }

  /** At most one thread is in a critical section. */
  predicate Locks(w: World) {
    && w.lock == (if w.inside.None? then 1 else 0)
    && forall t :: 0 <= t < |w.threads| ==> (Critical(w.threads[t]) <==> w.inside == Some(t))
  }

  predicate Moving(w: World, pushing: bool) {
    w.inside.Some? && w.inside.value < |w.threads|
    && if pushing then w.threads[w.inside.value].PushHead? else w.threads[w.inside.value].PopTail?
  }

  /** Positions follow the counts, unread frames lie in the ring, popped ones were pushed in
      this order. */
  predicate Order(w: World) {
    && |w.ring| == DEPTH && |w.popped| <= |w.pushed| <= |w.popped| + DEPTH
    && w.head < DEPTH && w.tail < DEPTH
    && (if Moving(w, true) then |w.pushed| > 0 && w.head == (|w.pushed| - 1) % DEPTH else w.head == |w.pushed| % DEPTH)
    && (if Moving(w, false) then |w.popped| > 0 && w.tail == (|w.popped| - 1) % DEPTH else w.tail == |w.popped| % DEPTH)
    && (forall i :: |w.popped| <= i < |w.pushed| ==> w.ring[i % DEPTH] == w.pushed[i])
    && w.popped <= w.pushed
  }

  predicate Inv(w: World) { Slots(w) && Locks(w) && Order(w) }

  lemma {:induction false} SlotsKept(w: World, t: nat, a: Act)
    requires Slots(w) && t < |w.threads| && Step(w, t, a).Some?
    ensures Slots(Step(w, t, a).value)
  {
    hide Count;
    CountHas(w.threads, t);
    var x := Step(w, t, a).value.threads[t];
    CountSet(w.threads, t, x, ToWrite);
    CountSet(w.threads, t, x, Written);
    CountSet(w.threads, t, x, ToRead);
    CountSet(w.threads, t, x, Taken);
  }

  lemma {:induction false} LocksKept(w: World, t: nat, a: Act)
    requires Locks(w) && t < |w.threads| && Step(w, t, a).Some?
    ensures Locks(Step(w, t, a).value)
  {
  }

  lemma {:induction false} SlotNotUnread(p: nat, c: nat, i: nat)
    requires c <= i < p < c + DEPTH
    ensures i % DEPTH != p % DEPTH
  {
  }

  /** A thread about to write has a free slot, one about to read a filled one. */
  lemma {:induction false} Room(w: World, t: nat)
    requires Inv(w) && t < |w.threads|
    ensures w.threads[t].PushWrite? ==> |w.pushed| - |w.popped| < DEPTH
    ensures w.threads[t].PopRead? ==> |w.pushed| > |w.popped|
  {
    hide Count;
    CountHas(w.threads, t);
  }

  lemma {:induction false} WriteKeeps(w: World, t: nat, a: Act)
    requires Inv(w) && t < |w.threads| && w.threads[t].PushWrite? && Step(w, t, a).Some?
    ensures Order(Step(w, t, a).value)
  {
    hide Count, Slots;
    Room(w, t);
    var w' := Step(w, t, a).value;
    assert !Moving(w, true) && !Moving(w, false) && Moving(w', true) && !Moving(w', false);
    forall i | |w.popped| <= i < |w.pushed| ensures i % DEPTH != |w.pushed| % DEPTH { SlotNotUnread(|w.pushed|, |w.popped|, i); }
  }

  lemma {:induction false} ReadKeeps(w: World, t: nat, a: Act)
    requires Inv(w) && t < |w.threads| && w.threads[t].PopRead? && Step(w, t, a).Some?
    ensures Order(Step(w, t, a).value)
  {
    hide Count, Slots;
    Room(w, t);
    var w' := Step(w, t, a).value;
    assert !Moving(w, true) && !Moving(w, false) && !Moving(w', true) && Moving(w', false);
  }

  lemma {:induction false} NextSlot(n: nat)
    requires n > 0
    ensures ((n - 1) % DEPTH + 1) % DEPTH == n % DEPTH
  {
  }

  lemma {:induction false} MoveKeeps(w: World, t: nat, a: Act)
    requires Inv(w) && t < |w.threads| && (w.threads[t].PushHead? || w.threads[t].PopTail?) && Step(w, t, a).Some?
    ensures Order(Step(w, t, a).value)
  {
    hide Count, Slots;
    var w' := Step(w, t, a).value;
    assert !Moving(w', true) && !Moving(w', false);
    if w.threads[t].PushHead? {
      assert Moving(w, true) && !Moving(w, false);
      NextSlot(|w.pushed|);
    } else {
      assert Moving(w, false) && !Moving(w, true);
      NextSlot(|w.popped|);
    }
  }

  lemma {:induction false} SameMoving(w: World, t: nat, a: Act, pushing: bool)
    requires Locks(w) && t < |w.threads| && Step(w, t, a).Some?
    requires !w.threads[t].PushWrite? && !w.threads[t].PopRead? && !w.threads[t].PushHead? && !w.threads[t].PopTail?
    ensures Moving(Step(w, t, a).value, pushing) == Moving(w, pushing)
  {
    var w' := Step(w, t, a).value;
    LocksKept(w, t, a);
    if w.inside.Some? && w.inside.value != t && w.inside.value < |w.threads| {
      assert w'.threads[w.inside.value] == w.threads[w.inside.value];
    }
  }

  lemma {:induction false} SameFrames(w: World, t: nat, a: Act)
    requires t < |w.threads| && Step(w, t, a).Some?
    requires !w.threads[t].PushWrite? && !w.threads[t].PopRead? && !w.threads[t].PushHead? && !w.threads[t].PopTail?
    ensures var w' := Step(w, t, a).value;
            w'.ring == w.ring && w'.head == w.head && w'.tail == w.tail && w'.pushed == w.pushed && w'.popped == w.popped
  {
  }

  lemma {:induction false} OrderKept(w: World, t: nat, a: Act)
    requires Inv(w) && t < |w.threads| && Step(w, t, a).Some?
    ensures Order(Step(w, t, a).value)
  {
    hide Slots, Locks, Step, Moving;
    if w.threads[t].PushWrite? {
      WriteKeeps(w, t, a);
    } else if w.threads[t].PopRead? {
      ReadKeeps(w, t, a);
    } else if w.threads[t].PushHead? || w.threads[t].PopTail? {
      MoveKeeps(w, t, a);
    } else {
      SameFrames(w, t, a);
      SameMoving(w, t, a, true);
      SameMoving(w, t, a, false);
    }
  }

  // ---------------------------------------------------------------- runs

  /** pipeline_init, any number of threads. */
  predicate Init(w: World) {
    && |w.ring| == DEPTH && w.head == 0 && w.tail == 0 && w.data == 0 && w.space == DEPTH && w.lock == 1
    && w.pushed == [] && w.popped == [] && w.inside == None
    && forall t :: 0 <= t < |w.threads| ==> w.threads[t] == Idle
  }

  ghost predicate Next(w: World, w': World) {
    exists t: nat, a :: t < |w.threads| && Step(w, t, a) == Some(w')
  }

  ghost predicate Run(ws: seq<World>) {
    ws != [] && Init(ws[0]) && forall i, j :: 0 <= i && j == i + 1 < |ws| ==> Next(ws[i], ws[j])
  }

  lemma {:induction false} NoneAway(ts: seq<Thread>, g: Stage)
    requires g != Away && forall t :: 0 <= t < |ts| ==> ts[t] == Idle
    ensures Count(ts, g) == 0
  {
    if ts != [] { NoneAway(ts[..|ts| - 1], g); }
  }

  lemma {:induction false} InitInv(w: World)
    requires Init(w)
    ensures Inv(w)
  {
    hide Count;
    NoneAway(w.threads, ToWrite);
    NoneAway(w.threads, Written);
    NoneAway(w.threads, ToRead);
    NoneAway(w.threads, Taken);
  }

  /** Every interleaving keeps the invariant. */
  lemma {:induction false} RunInv(ws: seq<World>, i: nat)
    requires Run(ws) && i < |ws|
    ensures Inv(ws[i])
  {
    hide Init, Step, Slots, Locks, Order;
    if i == 0 {
      InitInv(ws[0]);
    } else {
      var w := ws[i - 1];
      RunInv(ws, i - 1);
      assert Next(w, ws[i]);
      var t: nat, a :| t < |w.threads| && Step(w, t, a) == Some(ws[i]);
      SlotsKept(w, t, a);
      LocksKept(w, t, a);
      OrderKept(w, t, a);
    }
  }

  // ---------------------------------------------------------------- what follows

  /** First in, first out, across all producers and consumers. */
  lemma {:induction false} PoppedIsPrefix(ws: seq<World>, i: nat)
    requires Run(ws) && i < |ws|
    ensures ws[i].popped <= ws[i].pushed && |ws[i].pushed| - |ws[i].popped| <= DEPTH
  {
    hide Run, Slots, Locks;
    RunInv(ws, i);
  }

  /** No unread slot is overwritten: the slot a producer is about to write holds no frame that
      is still to be popped. */
  lemma {:induction false} NoOverwrite(ws: seq<World>, i: nat, t: nat, k: nat)
    requires Run(ws) && i < |ws| && t < |ws[i].threads| && ws[i].threads[t].PushWrite?
    requires |ws[i].popped| <= k < |ws[i].pushed|
    ensures ws[i].head != k % DEPTH
  {
    hide Run, Slots;
    RunInv(ws, i);
    Room(ws[i], t);
    assert !Moving(ws[i], true);
    SlotNotUnread(|ws[i].pushed|, |ws[i].popped|, k);
  }

  /** No empty slot is read: a consumer about to read gets the oldest unread frame. */
  lemma {:induction false} NoEmptyRead(ws: seq<World>, i: nat, t: nat)
    requires Run(ws) && i < |ws| && t < |ws[i].threads| && ws[i].threads[t].PopRead?
    ensures var w := ws[i]; |w.popped| < |w.pushed| && w.tail < |w.ring| && w.ring[w.tail] == w.pushed[|w.popped|]
  {
    hide Run, Slots;
    RunInv(ws, i);
    Room(ws[i], t);
    assert !Moving(ws[i], false);
  }

  /** No semaphore passes its maximum, so every signal succeeds; and one thread at a time is
      in a critical section. */
  lemma {:induction false} SemaphoreBounds(ws: seq<World>, i: nat)
    requires Run(ws) && i < |ws|
    ensures ws[i].data <= DEPTH && ws[i].space <= DEPTH && ws[i].lock <= 1
    ensures forall t, u :: 0 <= t < |ws[i].threads| && 0 <= u < |ws[i].threads| && Critical(ws[i].threads[t]) && Critical(ws[i].threads[u]) ==> t == u
  {
    hide Run, Count;
    RunInv(ws, i);
  }

  /** A frame is never lost or made up: once nobody is under way, what was pushed is what was
      popped followed by what the data semaphore counts. */
  lemma {:induction false} Conservation(ws: seq<World>, i: nat)
    requires Run(ws) && i < |ws| && forall t :: 0 <= t < |ws[i].threads| ==> ws[i].threads[t] == Idle
    ensures var w := ws[i]; |w.pushed| == |w.popped| + w.data && w.data + w.space == DEPTH
  {
    hide Run, Count;
    RunInv(ws, i);
    NoneAway(ws[i].threads, ToWrite);
    NoneAway(ws[i].threads, Written);
    NoneAway(ws[i].threads, ToRead);
    NoneAway(ws[i].threads, Taken);
  }

  /** The only wait inside a call is for the lock. */
  lemma {:induction false} OnlyLockWaits(ws: seq<World>, i: nat, t: nat)
    requires Run(ws) && i < |ws| && t < |ws[i].threads| && !ws[i].threads[t].Idle?
    ensures var w := ws[i]; Step(w, t, Go).None? <==> (w.threads[t].PushLock? || w.threads[t].PopLock?) && w.inside.Some?
  {
    hide Run, Slots;
    RunInv(ws, i);
    Positions(ws[i]);
  }

  lemma {:induction false} Positions(w: World)
    requires Order(w)
    ensures w.head < |w.ring| && w.tail < |w.ring|
  {
  }

  /** No deadlock: while some thread is under way, some thread can step. */
  lemma {:induction false} NeverStuck(ws: seq<World>, i: nat, t: nat) returns (u: nat)
    requires Run(ws) && i < |ws| && t < |ws[i].threads| && !ws[i].threads[t].Idle?
    ensures u < |ws[i].threads| && Step(ws[i], u, Go).Some?
  {
    hide Run, Slots, Order, Step;
    RunInv(ws, i);
    var w := ws[i];
    u := if w.inside.Some? && w.inside.value < |w.threads| && !Critical(w.threads[t]) then w.inside.value else t;
    if w.inside.Some? && w.inside.value < |w.threads| { assert Critical(w.threads[w.inside.value]); }
    if w.inside.Some? { SomeoneInside(ws, i); }
    OnlyLockWaits(ws, i, u);
  }

  lemma {:induction false} SomeoneInside(ws: seq<World>, i: nat)
    requires Run(ws) && i < |ws| && ws[i].inside.Some?
    ensures ws[i].inside.value < |ws[i].threads|
  {
    hide Init, Slots, Order, Critical;
    if i > 0 {
      var w := ws[i - 1];
      assert Next(w, ws[i]);
      var t: nat, a :| t < |w.threads| && Step(w, t, a) == Some(ws[i]);
      if w.inside.Some? { SomeoneInside(ws, i - 1); }
    } else {
      NobodyAtStart(ws[0]);
    }
  }

  lemma {:induction false} NobodyAtStart(w: World)
    requires Init(w)
    ensures w.inside.None?
  {
  }

  /** With nobody under way a push finds space exactly if fewer than 16 frames are unread, a pop
      finds data exactly if one is. */
  lemma {:induction false} FindsRoom(ws: seq<World>, i: nat, t: nat, f: Frame)
    requires Run(ws) && i < |ws| && t < |ws[i].threads| && forall u :: 0 <= u < |ws[i].threads| ==> ws[i].threads[u] == Idle
    ensures Step(ws[i], t, Push(f)).Some? <==> |ws[i].pushed| < |ws[i].popped| + DEPTH
    ensures Step(ws[i], t, Pop).Some? <==> |ws[i].popped| < |ws[i].pushed|
  {
    hide Run;
    Conservation(ws, i);
  }

  /** The frame a call has in its hands. */
  function Carried(x: Thread): Option<Frame> {
    match x
    case PushLock(f) => Some(f)
    case PushWrite(f) => Some(f)
    case PopTail(g) => Some(g)
    case PopUnlock(g) => Some(g)
    case PopSpace(g) => Some(g)
    case _ => None
  }

  /** A push puts in the frame it was called with; a pop returns the frame it took out. */
  lemma {:induction false} FramesKept(w: World, t: nat, a: Act)
    requires t < |w.threads| && Step(w, t, a).Some?
    ensures var w' := Step(w, t, a).value; var x, y := w.threads[t], w'.threads[t];
            && (x.Idle? && a.Push? ==> Carried(y) == Some(a.f))
            && (Carried(x).Some? && Carried(y).Some? ==> Carried(y) == Carried(x))
            && (x.PopTail? || x.PopUnlock? ==> Carried(y).Some?) && (x.PushLock? ==> y.PushWrite?)
            && w'.pushed == w.pushed + (if x.PushWrite? then [Carried(x).value] else [])
            && (if x.PopRead? then Carried(y).Some? && w'.popped == w.popped + [Carried(y).value] else w'.popped == w.popped)
  {
  }
}
