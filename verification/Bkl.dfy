/** The Big Kernel Lock of arch/aarch64/smp.c and the decision to switch tasks on the way
    out of an interrupt: any number of CPUs, interleaved one load or store at a time. */
module Bkl {
  import opened Wrappers

  const U32: nat := 0x1_0000_0000
  const U64: nat := 0x1_0000_0000_0000_0000
  const MAX_READY: nat := 8

  /** Where a CPU stands: the next access it makes. */
  datatype Pc =
    | Out                                                             // outside the lock
    | AcqTest | AcqMask | AcqSpin | AcqOwner | AcqDepth | AcqRestore  // bkl_acquire
    | NestLoad | NestStore                                            // g_bkl_depth++
    | In                                                              // inside, between calls
    | IncWrite                                                        // smp_counter_inc, value read
    | PullTest | PullClaim | PullHead                                 // smp_ready_pull
    | RelTest | RelMask | RelOwner | RelUnlock | RelDepth | RelRestore // bkl_release
    | LessLoad | LessStore                                            // g_bkl_depth--
    | DropTest | DropSave | DropOne                                   // smp_idle_bkl_drop
    | Wait                                                            // wfe
    | ReTest | ReDepth | ReZero                                       // smp_idle_bkl_reacquire

  datatype Mode = Normal | Idling | Waking

  datatype Cpu = Cpu(pc: Pc, mode: Mode, masked: bool, daif: bool, inIrq: bool, pending: bool,
                     tmp: nat, k: nat, saved: nat,
                     nest: nat)          // calls to bkl_acquire not yet released

  /** Shared words, and for the proofs who took the raw lock (holder), how many increments
      and pulls completed, whether a late store of 0 hit the depth (hit), and whether the
      holder left without freeing the lock (lost).  With `atomic` the three stores of
      smp.c:592-594 are one step, and nesting and idling inside the lock are allowed. */
  datatype Shared = Shared(
    atomic: bool, lock: bool, owner: int, depth: nat, counter: nat,
    ready: seq<nat>, hd: nat, claimed: set<nat>,
    holder: Option<nat>, incs: nat, pulled: seq<nat>, hit: bool, lost: bool)

  datatype World = World(sh: Shared, cpus: seq<Cpu>)

  /** What a CPU does next where the code leaves a choice. */
  datatype Act =
    | Go | Acquire | Release | Inc | Pull | Push(task: nat) | Mask(on: bool) | Idle
    | IrqIn(sgi: bool)
    | IrqOut(ctx: nat, sched: nat, disabled: bool, indp: int, resume: Pc)

  /** smp_irq_need_resched. */
  predicate Decide(sh: Shared, c: nat, x: Cpu, a: Act)
    requires a.IrqOut?
  {
    x.pending && sh.owner != c && a.indp <= 0 && !a.disabled && a.sched != 0 && a.ctx != a.sched && a.ctx != 0
  }

  function Task(sh: Shared, k: nat): nat
    requires k < |sh.ready|
  {
    sh.ready[(sh.hd + k) % |sh.ready|]
  }

  datatype Moved = Moved(sh: Shared, x: Cpu)

  /** bkl_acquire, one access. */
  function AcqStep(sh: Shared, c: nat, x: Cpu): Option<Moved> {
    match x.pc
    case AcqTest => Some(Moved(sh, x.(pc := if sh.owner == c then NestLoad else AcqMask)))
    case NestLoad => Some(Moved(sh, x.(tmp := sh.depth, pc := NestStore)))
    case NestStore =>
      Some(Moved(sh.(depth := (x.tmp + 1) % 0x1_0000_0000),
                 if x.mode.Waking? then x.(pc := ReDepth) else x.(nest := x.nest + 1, pc := In)))
    case AcqMask => Some(Moved(sh, x.(daif := x.masked, masked := true, pc := AcqSpin)))
    case AcqSpin => if sh.lock then None else Some(Moved(sh.(lock := true, holder := Some(c), lost := false), x.(pc := AcqOwner)))
    case AcqOwner => Some(Moved(sh.(owner := c), x.(pc := AcqDepth)))
    case AcqDepth => Some(Moved(sh.(depth := 1, hit := false), x.(pc := AcqRestore)))
    case AcqRestore =>
      Some(Moved(sh, if x.mode.Waking? then x.(masked := x.daif, pc := ReDepth) else x.(masked := x.daif, nest := x.nest + 1, pc := In)))
    case _ => None
  }

  /** smp_counter_inc and smp_ready_pull inside the lock, one access. */
  function WorkStep(sh: Shared, x: Cpu): Option<Moved> {
    match x.pc
    case IncWrite => Some(Moved(sh.(counter := (x.tmp + 1) % 0x1_0000_0000_0000_0000, incs := sh.incs + 1), x.(pc := In)))
    case PullTest =>
      if x.k >= |sh.ready| then Some(Moved(sh, x.(pc := In)))                    // returns NULL
      else if Task(sh, x.k) != 0 && Task(sh, x.k) !in sh.claimed then Some(Moved(sh, x.(pc := PullClaim)))
      else Some(Moved(sh, x.(k := x.k + 1)))
    case PullClaim =>
      if x.k >= |sh.ready| then None
      else Some(Moved(sh.(claimed := sh.claimed + {Task(sh, x.k)}, pulled := sh.pulled + [Task(sh, x.k)]), x.(pc := PullHead)))
    case PullHead =>
      if sh.ready == [] then None else Some(Moved(sh.(hd := ((sh.hd + x.k) % |sh.ready| + 1) % |sh.ready|), x.(pc := In)))
    case _ => None
  }

  /** bkl_release, one access. */
  function RelStep(sh: Shared, c: nat, x: Cpu): Option<Moved> {
    match x.pc
    case RelTest => Some(Moved(sh, x.(pc := if sh.depth == 1 then RelMask else LessLoad)))
    case RelMask => Some(Moved(sh, x.(daif := x.masked, masked := true, pc := RelOwner)))
    case RelOwner =>
      if sh.atomic then Some(Moved(sh.(owner := -1, lock := false, holder := None, depth := 0), x.(pc := RelRestore)))
      else Some(Moved(sh.(owner := -1), x.(pc := RelUnlock)))
    case RelUnlock => Some(Moved(sh.(lock := false, holder := None), x.(pc := RelDepth)))
    case RelDepth => Some(Moved(sh.(depth := 0, hit := true), x.(pc := RelRestore)))
    case RelRestore =>
      Some(Moved(sh, if x.mode.Idling? then x.(masked := x.daif, pc := Wait)
                     else x.(masked := x.daif, nest := if x.nest > 0 then x.nest - 1 else 0, pc := Out)))
    case LessLoad => Some(Moved(sh, x.(tmp := sh.depth, pc := LessStore)))
    case LessStore =>
      var rest := if x.nest > 0 then x.nest - 1 else 0;
      Some(Moved(sh.(depth := (x.tmp + 0xFFFF_FFFF) % 0x1_0000_0000, lost := sh.lost || rest == 0),
                 x.(nest := rest, pc := if rest > 0 then In else Out)))
    case _ => None
  }

  /** smp_idle_bkl_drop and smp_idle_bkl_reacquire, one access. */
  function IdleStep(sh: Shared, c: nat, x: Cpu): Option<Moved> {
    match x.pc
    case DropTest => Some(Moved(sh, if sh.owner == c then x.(pc := DropSave) else x.(saved := 0, pc := Wait)))
    case DropSave => Some(Moved(sh, x.(saved := sh.depth, pc := DropOne)))
    case DropOne => Some(Moved(sh.(depth := 1), x.(pc := RelTest)))
    case Wait => Some(Moved(sh, x.(pending := false, mode := Waking, pc := ReTest)))
    case ReTest =>
      Some(Moved(sh, if x.saved == 0 then x.(mode := Normal, pc := if x.nest > 0 then In else Out) else x.(pc := AcqTest)))
    case ReDepth => Some(Moved(sh.(depth := x.saved), x.(pc := ReZero)))
    case ReZero => Some(Moved(sh, x.(saved := 0, mode := Normal, pc := In)))
    case _ => None
  }

  /** One access of CPU c standing at x. */
  function Step(sh: Shared, c: nat, x: Cpu): Option<Moved> {
    if AcqStep(sh, c, x).Some? then AcqStep(sh, c, x)
    else if WorkStep(sh, x).Some? then WorkStep(sh, x)
    else if RelStep(sh, c, x).Some? then RelStep(sh, c, x)
    else IdleStep(sh, c, x)
  }

  /** One action of CPU c; None where it is not possible. */
  function Do(sh: Shared, c: nat, x: Cpu, a: Act): Option<Moved> {
    if x.inIrq then
      if !a.IrqOut? || (!x.mode.Normal? && a.ctx != 0) then None
      else if Decide(sh, c, x, a) then
        if a.resume == Out || a.resume == AcqTest || a.resume == AcqMask
        then Some(Moved(sh, x.(inIrq := false, pending := false, pc := a.resume))) else None
      else Some(Moved(sh, x.(inIrq := false)))
    else
      match a
      case Go => Step(sh, c, x)
      case Acquire =>
        if x.mode.Normal? && (x.pc.Out? || (x.pc.In? && sh.atomic && x.nest + 1 < U32)) then Some(Moved(sh, x.(pc := AcqTest))) else None
      case Release => if x.pc.In? then Some(Moved(sh, x.(pc := RelTest))) else None
      case Inc => if x.pc.In? then Some(Moved(sh, x.(tmp := sh.counter, pc := IncWrite))) else None
      case Pull => if x.pc.In? then Some(Moved(sh, x.(k := 0, pc := PullTest))) else None
      case Push(t) =>
        if x.pc.In? then Some(Moved(if |sh.ready| < MAX_READY then sh.(ready := sh.ready + [t]) else sh, x)) else None
      case Mask(on) => if x.pc.Out? || x.pc.In? || x.pc.Wait? then Some(Moved(sh, x.(masked := on))) else None
      case Idle =>
        if x.masked && ((x.pc.Out? && (sh.atomic || sh.owner != c)) || (x.pc.In? && sh.atomic))
        then Some(Moved(sh, x.(mode := Idling, pc := DropTest))) else None
      case IrqIn(sgi) => if x.masked then None else Some(Moved(sh, x.(inIrq := true, pending := x.pending || sgi)))
      case IrqOut(_, _, _, _, _) => None
  }

  // ---------------------------------------------------------------- the invariant

  /** Here the CPU has taken the raw lock and not freed it. */
  predicate Locked(pc: Pc) {
    (pc.AcqOwner? || pc.AcqDepth? || pc.AcqRestore? || pc.NestLoad? || pc.NestStore? || pc.In? || pc.IncWrite? || pc.PullTest? || pc.PullClaim? || pc.PullHead? || pc.RelTest? || pc.RelMask? || pc.RelOwner? || pc.RelUnlock? || pc.LessLoad? || pc.LessStore? || pc.DropSave? || pc.DropOne? || pc.ReDepth? || pc.ReZero?)
  }

  predicate Unlocked(pc: Pc) { (pc.AcqMask? || pc.AcqSpin? || pc.RelDepth? || pc.RelRestore? || pc.Wait? || pc.ReTest?) }

  /** Here interrupts are masked by the lock code itself. */
  predicate Shielded(pc: Pc) { (pc.AcqSpin? || pc.AcqOwner? || pc.AcqDepth? || pc.AcqRestore? || pc.RelOwner? || pc.RelUnlock? || pc.RelDepth? || pc.RelRestore?) }

  predicate Working(pc: Pc) { (pc.In? || pc.IncWrite? || pc.PullTest? || pc.PullClaim? || pc.PullHead?) }

  /** The lock is taken or freed, but the owner word does not say so yet. */
  predicate Unpublished(pc: Pc) { (pc.AcqOwner? || pc.RelUnlock?) }

  predicate Quiet(sh: Shared, t: nat) { t == 0 || t in sh.claimed }

  predicate WorkOk(sh: Shared, x: Cpu) {
    && (x.pc.IncWrite? ==> x.tmp == sh.counter)
    && (x.pc.PullTest? ==> x.k <= |sh.ready| && forall j :: 0 <= j < x.k ==> Quiet(sh, Task(sh, j)))
    && (x.pc.PullClaim? ==> x.k < |sh.ready| && !Quiet(sh, Task(sh, x.k)))
    && (x.pc.PullHead? ==> x.k < |sh.ready|)
  }

  /** Who holds the raw lock, who the owner word names, and whose interrupts are masked. */
  predicate LockOk(sh: Shared, c: nat, x: Cpu) {
    var mine := sh.holder == Some(c);
    && (Locked(x.pc) ==> mine)
    && (Unlocked(x.pc) || (x.mode.Waking? && x.pc.AcqTest?) ==> !mine)
    && (sh.owner == c <==> mine && !Unpublished(x.pc))
    && (Shielded(x.pc) ==> x.masked && !x.inIrq)
    && (x.inIrq ==> !Shielded(x.pc))
  }

  predicate ModeOk(sh: Shared, x: Cpu) {
    && (x.mode.Idling? ==> (x.pc.DropTest? || x.pc.Wait?) || (sh.atomic && (x.pc.DropSave? || x.pc.DropOne? || x.pc.RelTest? || x.pc.RelMask? || x.pc.RelOwner? || x.pc.RelRestore?)))
    && (x.mode.Waking? ==> x.pc.ReTest?
                             || (sh.atomic && (x.pc.AcqTest? || x.pc.AcqMask? || x.pc.AcqSpin? || x.pc.AcqOwner? || x.pc.AcqDepth? || x.pc.AcqRestore? || x.pc.ReDepth? || x.pc.ReZero?)))
    && (x.mode.Normal? ==> (!x.pc.DropTest? && !x.pc.DropSave? && !x.pc.DropOne? && !x.pc.Wait? && !x.pc.ReTest? && !x.pc.ReDepth? && !x.pc.ReZero?))
  }

  /** With the release atomic: the depth word is the nesting of the holder, and idling
      carries it through. */
  predicate NestedOk(sh: Shared, c: nat, x: Cpu) {
    var mine := sh.holder == Some(c);
    && x.nest < U32 && (!x.pc.RelUnlock? && !x.pc.RelDepth?)
    && (x.mode.Normal? ==>
          && x.saved == 0
          && (!mine ==> x.nest == if x.pc.RelRestore? then 1 else 0)
          && (mine ==> !x.pc.Out?)
          && ((x.pc.AcqOwner? || x.pc.AcqDepth? || x.pc.AcqRestore?) ==> x.nest == 0)
          && (x.pc.AcqRestore? ==> sh.depth == 1)
          && (mine && (!x.pc.AcqOwner? && !x.pc.AcqDepth? && !x.pc.AcqRestore?) ==> sh.depth == x.nest >= 1)
          && ((x.pc.NestStore? || x.pc.LessStore?) ==> x.tmp == x.nest)
          && (mine && (x.pc.AcqTest? || x.pc.NestLoad? || x.pc.NestStore?) ==> x.nest + 1 < U32)
          && ((x.pc.RelMask? || x.pc.RelOwner?) ==> sh.depth == 1)
          && ((x.pc.LessLoad? || x.pc.LessStore?) ==> x.nest >= 2))
    && (x.mode.Idling? ==>
          && (x.pc.DropTest? ==> x.saved == 0 && if mine then sh.depth == x.nest >= 1 else x.nest == 0)
          && (x.pc.DropSave? ==> sh.depth == x.nest >= 1)
          && (x.pc.DropOne? ==> x.saved == x.nest >= 1)
          && ((x.pc.RelTest? || x.pc.RelMask? || x.pc.RelOwner?) ==> sh.depth == 1 && x.saved == x.nest >= 1)
          && ((x.pc.RelRestore? || x.pc.Wait?) ==> x.saved == x.nest))
    && (x.mode.Waking? ==>
          && x.saved == x.nest
          && (!x.pc.ReTest? ==> x.nest >= 1)
          && ((x.pc.AcqRestore? || x.pc.ReDepth?) ==> sh.depth == 1)
          && (x.pc.ReZero? ==> sh.depth == x.nest))
  }

  /** With single stores and no nesting: the depth word is right unless a late store of 0
      hit it, and only then does a release leave the lock taken. */
  predicate FlatOk(sh: Shared, c: nat, x: Cpu) {
    var mine := sh.holder == Some(c);
    && x.saved == 0
    && x.nest == (if Working(x.pc) || (x.pc.RelTest? || x.pc.RelMask? || x.pc.RelOwner? || x.pc.RelUnlock? || x.pc.RelDepth? || x.pc.RelRestore? || x.pc.LessLoad? || x.pc.LessStore?) then 1 else 0)
    && (mine && (x.pc.Out? || x.pc.AcqTest? || x.pc.NestLoad? || x.pc.NestStore?) ==> sh.lost)
    && (x.pc.DropTest? ==> !mine)
    && (mine && !sh.lost && (Working(x.pc) || (x.pc.AcqRestore? || x.pc.RelTest?)) ==> sh.depth == if sh.hit then 0 else 1)
  }

  predicate CpuOk(sh: Shared, c: nat, x: Cpu) {
    && LockOk(sh, c, x) && ModeOk(sh, x) && WorkOk(sh, x)
    && (if sh.atomic then NestedOk(sh, c, x) else FlatOk(sh, c, x))
  }

  predicate NoDup(s: seq<nat>) { forall i, j :: 0 <= i < j < |s| ==> s[i] != s[j] }

  predicate SharedOk(sh: Shared) {
    && (sh.lock <==> sh.holder.Some?)
    && (sh.owner == -1 || sh.holder == Some(sh.owner))
    && sh.counter == sh.incs % 0x1_0000_0000_0000_0000
    && |sh.ready| <= MAX_READY
    && NoDup(sh.pulled) && (forall t :: t in sh.pulled ==> t in sh.claimed)
  }

  ghost predicate Inv(w: World) {
    SharedOk(w.sh) && forall c :: 0 <= c < |w.cpus| ==> CpuOk(w.sh, c, w.cpus[c])
  }

  // ---------------------------------------------------------------- one step

  /** What CPU d relies on is as before: whether it holds the lock, and if so the words the
      lock protects, up to a late store of 0 to the depth. */
  predicate SameFor(sh: Shared, sh': Shared, d: nat) {
    && sh'.atomic == sh.atomic
    && (sh'.holder == Some(d) <==> sh.holder == Some(d)) && (sh'.owner == d <==> sh.owner == d)
    && (sh.holder == Some(d) ==>
          && sh'.counter == sh.counter && sh'.ready == sh.ready && sh'.hd == sh.hd && sh'.claimed == sh.claimed && sh'.lost == sh.lost
          && ((sh'.depth == sh.depth && sh'.hit == sh.hit) || (!sh.atomic && sh'.depth == 0 && sh'.hit)))
  }

  lemma {:induction false} FrameWork(sh: Shared, sh': Shared, d: nat, y: Cpu)
    requires SameFor(sh, sh', d) && LockOk(sh, d, y) && WorkOk(sh, y)
    ensures WorkOk(sh', y)
  {
    if sh.holder == Some(d) && y.pc.PullTest? {
      forall j | 0 <= j < y.k ensures Quiet(sh', Task(sh', j)) { assert Quiet(sh, Task(sh, j)); }
    }
  }

  lemma {:induction false} FrameNested(sh: Shared, sh': Shared, d: nat, y: Cpu)
    requires SameFor(sh, sh', d) && LockOk(sh, d, y) && sh.atomic && NestedOk(sh, d, y)
    ensures NestedOk(sh', d, y)
  {
  }

  lemma {:induction false} FrameFlat(sh: Shared, sh': Shared, d: nat, y: Cpu)
    requires SameFor(sh, sh', d) && LockOk(sh, d, y) && !sh.atomic && FlatOk(sh, d, y)
    ensures FlatOk(sh', d, y)
  {
  }

  lemma {:induction false} Frame(sh: Shared, sh': Shared, d: nat, y: Cpu)
    requires SameFor(sh, sh', d) && CpuOk(sh, d, y)
    ensures CpuOk(sh', d, y)
  {
    hide WorkOk, NestedOk, FlatOk;
    FrameWork(sh, sh', d, y);
    if sh.atomic { FrameNested(sh, sh', d, y); } else { FrameFlat(sh, sh', d, y); }
  }

  lemma {:induction false} AcqShared(sh: Shared, c: nat, x: Cpu)
    requires SharedOk(sh) && CpuOk(sh, c, x) && !x.inIrq && AcqStep(sh, c, x).Some?
    ensures SharedOk(AcqStep(sh, c, x).value.sh)
    ensures forall d: nat :: d != c ==> SameFor(sh, AcqStep(sh, c, x).value.sh, d)
  {
    hide ModeOk, NestedOk, FlatOk, WorkOk;
    match x.pc {
      case AcqTest =>
      case NestLoad =>
      case NestStore =>
      case AcqMask =>
      case AcqSpin =>
      case AcqOwner =>
      case AcqDepth =>
      case AcqRestore =>
    }
  }

  lemma {:induction false} AcqLock(sh: Shared, c: nat, x: Cpu)
    requires SharedOk(sh) && CpuOk(sh, c, x) && !x.inIrq && AcqStep(sh, c, x).Some?
    ensures var m := AcqStep(sh, c, x).value; LockOk(m.sh, c, m.x)
  {
    hide WorkOk, ModeOk, NestedOk, FlatOk;
    match x.pc {
      case AcqTest =>
      case NestLoad =>
      case NestStore =>
      case AcqMask =>
      case AcqSpin =>
      case AcqOwner =>
      case AcqDepth =>
      case AcqRestore =>
    }
  }

  lemma {:induction false} AcqMode(sh: Shared, c: nat, x: Cpu)
    requires SharedOk(sh) && CpuOk(sh, c, x) && !x.inIrq && AcqStep(sh, c, x).Some?
    ensures var m := AcqStep(sh, c, x).value; ModeOk(m.sh, m.x) && WorkOk(m.sh, m.x)
  {
    hide NestedOk, FlatOk, Task;
    match x.pc {
      case AcqTest =>
      case NestLoad =>
      case NestStore =>
      case AcqMask =>
      case AcqSpin =>
      case AcqOwner =>
      case AcqDepth =>
      case AcqRestore =>
    }
  }

  lemma {:induction false} AcqNested(sh: Shared, c: nat, x: Cpu)
    requires SharedOk(sh) && CpuOk(sh, c, x) && !x.inIrq && AcqStep(sh, c, x).Some? && sh.atomic
    ensures var m := AcqStep(sh, c, x).value; NestedOk(m.sh, c, m.x)
  {
    hide FlatOk, WorkOk, Task;
    match x.pc {
      case AcqTest =>
      case NestLoad =>
      case NestStore =>
      case AcqMask =>
      case AcqSpin =>
      case AcqOwner =>
      case AcqDepth =>
      case AcqRestore =>
    }
  }

  lemma {:induction false} AcqFlat(sh: Shared, c: nat, x: Cpu)
    requires SharedOk(sh) && CpuOk(sh, c, x) && !x.inIrq && AcqStep(sh, c, x).Some? && !sh.atomic
    ensures var m := AcqStep(sh, c, x).value; FlatOk(m.sh, c, m.x)
  {
    hide NestedOk, WorkOk, Task;
    match x.pc {
      case AcqTest =>
      case NestLoad =>
      case NestStore =>
      case AcqMask =>
      case AcqSpin =>
      case AcqOwner =>
      case AcqDepth =>
      case AcqRestore =>
    }
  }

  lemma {:induction false} WorkShared(sh: Shared, c: nat, x: Cpu)
    requires SharedOk(sh) && CpuOk(sh, c, x) && !x.inIrq && WorkStep(sh, x).Some?
    ensures SharedOk(WorkStep(sh, x).value.sh)
    ensures forall d: nat :: d != c ==> SameFor(sh, WorkStep(sh, x).value.sh, d)
  {
    hide ModeOk, NestedOk, FlatOk, Task;
    match x.pc {
      case IncWrite =>
      case PullTest =>
      case PullClaim =>
      case PullHead =>
    }
  }

  lemma {:induction false} WorkLock(sh: Shared, c: nat, x: Cpu)
    requires SharedOk(sh) && CpuOk(sh, c, x) && !x.inIrq && WorkStep(sh, x).Some?
    ensures var m := WorkStep(sh, x).value; LockOk(m.sh, c, m.x)
  {
    hide WorkOk, ModeOk, NestedOk, FlatOk;
    match x.pc {
      case IncWrite =>
      case PullTest =>
      case PullClaim =>
      case PullHead =>
    }
  }

  lemma {:induction false} WorkMode(sh: Shared, c: nat, x: Cpu)
    requires SharedOk(sh) && CpuOk(sh, c, x) && !x.inIrq && WorkStep(sh, x).Some?
    ensures var m := WorkStep(sh, x).value; ModeOk(m.sh, m.x) && WorkOk(m.sh, m.x)
  {
    hide NestedOk, FlatOk, Task;
    match x.pc {
      case IncWrite =>
      case PullTest =>
      case PullClaim =>
      case PullHead =>
    }
  }

  lemma {:induction false} WorkNested(sh: Shared, c: nat, x: Cpu)
    requires SharedOk(sh) && CpuOk(sh, c, x) && !x.inIrq && WorkStep(sh, x).Some? && sh.atomic
    ensures var m := WorkStep(sh, x).value; NestedOk(m.sh, c, m.x)
  {
    hide FlatOk, WorkOk, Task;
    match x.pc {
      case IncWrite =>
      case PullTest =>
      case PullClaim =>
      case PullHead =>
    }
  }

  lemma {:induction false} WorkFlat(sh: Shared, c: nat, x: Cpu)
    requires SharedOk(sh) && CpuOk(sh, c, x) && !x.inIrq && WorkStep(sh, x).Some? && !sh.atomic
    ensures var m := WorkStep(sh, x).value; FlatOk(m.sh, c, m.x)
  {
    hide NestedOk, WorkOk, Task;
    match x.pc {
      case IncWrite =>
      case PullTest =>
      case PullClaim =>
      case PullHead =>
    }
  }

  lemma {:induction false} RelShared(sh: Shared, c: nat, x: Cpu)
    requires SharedOk(sh) && CpuOk(sh, c, x) && !x.inIrq && RelStep(sh, c, x).Some?
    ensures SharedOk(RelStep(sh, c, x).value.sh)
    ensures forall d: nat :: d != c ==> SameFor(sh, RelStep(sh, c, x).value.sh, d)
  {
    hide ModeOk, FlatOk, WorkOk;
    match x.pc {
      case RelTest =>
      case RelMask =>
      case RelOwner =>
      case RelUnlock =>
      case RelDepth =>
      case RelRestore =>
      case LessLoad =>
      case LessStore =>
    }
  }

  lemma {:induction false} RelLock(sh: Shared, c: nat, x: Cpu)
    requires SharedOk(sh) && CpuOk(sh, c, x) && !x.inIrq && RelStep(sh, c, x).Some?
    ensures var m := RelStep(sh, c, x).value; LockOk(m.sh, c, m.x)
  {
    hide WorkOk, ModeOk, NestedOk, FlatOk;
    match x.pc {
      case RelTest =>
      case RelMask =>
      case RelOwner =>
      case RelUnlock =>
      case RelDepth =>
      case RelRestore =>
      case LessLoad =>
      case LessStore =>
    }
  }

  lemma {:induction false} RelMode(sh: Shared, c: nat, x: Cpu)
    requires SharedOk(sh) && CpuOk(sh, c, x) && !x.inIrq && RelStep(sh, c, x).Some?
    ensures var m := RelStep(sh, c, x).value; ModeOk(m.sh, m.x) && WorkOk(m.sh, m.x)
  {
    hide FlatOk, Task;
    match x.pc {
      case RelTest =>
      case RelMask =>
      case RelOwner =>
      case RelUnlock =>
      case RelDepth =>
      case RelRestore =>
      case LessLoad =>
      case LessStore =>
    }
  }

  lemma {:induction false} RelNested(sh: Shared, c: nat, x: Cpu)
    requires SharedOk(sh) && CpuOk(sh, c, x) && !x.inIrq && RelStep(sh, c, x).Some? && sh.atomic
    ensures var m := RelStep(sh, c, x).value; NestedOk(m.sh, c, m.x)
  {
    hide FlatOk, WorkOk, Task;
    match x.pc {
      case RelTest =>
      case RelMask =>
      case RelOwner =>
      case RelUnlock =>
      case RelDepth =>
      case RelRestore =>
      case LessLoad =>
      case LessStore =>
    }
  }

  lemma {:induction false} RelFlat(sh: Shared, c: nat, x: Cpu)
    requires SharedOk(sh) && CpuOk(sh, c, x) && !x.inIrq && RelStep(sh, c, x).Some? && !sh.atomic
    ensures var m := RelStep(sh, c, x).value; FlatOk(m.sh, c, m.x)
  {
    hide NestedOk, WorkOk, Task;
    match x.pc {
      case RelTest =>
      case RelMask =>
      case RelOwner =>
      case RelUnlock =>
      case RelDepth =>
      case RelRestore =>
      case LessLoad =>
      case LessStore =>
    }
  }

  lemma {:induction false} IdleShared(sh: Shared, c: nat, x: Cpu)
    requires SharedOk(sh) && CpuOk(sh, c, x) && !x.inIrq && IdleStep(sh, c, x).Some?
    ensures SharedOk(IdleStep(sh, c, x).value.sh)
    ensures forall d: nat :: d != c ==> SameFor(sh, IdleStep(sh, c, x).value.sh, d)
  {
    hide ModeOk, NestedOk, FlatOk, WorkOk;
    match x.pc {
      case DropTest =>
      case DropSave =>
      case DropOne =>
      case Wait =>
      case ReTest =>
      case ReDepth =>
      case ReZero =>
    }
  }

  lemma {:induction false} IdleLock(sh: Shared, c: nat, x: Cpu)
    requires SharedOk(sh) && CpuOk(sh, c, x) && !x.inIrq && IdleStep(sh, c, x).Some?
    ensures var m := IdleStep(sh, c, x).value; LockOk(m.sh, c, m.x)
  {
    hide WorkOk;
    match x.pc {
      case DropTest =>
      case DropSave =>
      case DropOne =>
      case Wait =>
      case ReTest =>
      case ReDepth =>
      case ReZero =>
    }
  }

  lemma {:induction false} IdleMode(sh: Shared, c: nat, x: Cpu)
    requires SharedOk(sh) && CpuOk(sh, c, x) && !x.inIrq && IdleStep(sh, c, x).Some?
    ensures var m := IdleStep(sh, c, x).value; ModeOk(m.sh, m.x) && WorkOk(m.sh, m.x)
  {
    hide Task;
    match x.pc {
      case DropTest =>
      case DropSave =>
      case DropOne =>
      case Wait =>
      case ReTest =>
      case ReDepth =>
      case ReZero =>
    }
  }

  lemma {:induction false} IdleNested(sh: Shared, c: nat, x: Cpu)
    requires SharedOk(sh) && CpuOk(sh, c, x) && !x.inIrq && IdleStep(sh, c, x).Some? && sh.atomic
    ensures var m := IdleStep(sh, c, x).value; NestedOk(m.sh, c, m.x)
  {
    hide FlatOk, WorkOk, Task;
    match x.pc {
      case DropTest =>
      case DropSave =>
      case DropOne =>
      case Wait =>
      case ReTest =>
      case ReDepth =>
      case ReZero =>
    }
  }

  lemma {:induction false} IdleFlat(sh: Shared, c: nat, x: Cpu)
    requires SharedOk(sh) && CpuOk(sh, c, x) && !x.inIrq && IdleStep(sh, c, x).Some? && !sh.atomic
    ensures var m := IdleStep(sh, c, x).value; FlatOk(m.sh, c, m.x)
  {
    hide NestedOk, WorkOk, Task;
    match x.pc {
      case DropTest =>
      case DropSave =>
      case DropOne =>
      case Wait =>
      case ReTest =>
      case ReDepth =>
      case ReZero =>
    }
  }

  /** What a step of c keeps: the shared invariant, its own, and what the others rely on. */
  ghost predicate Keeps(sh: Shared, c: nat, m: Moved) {
    SharedOk(m.sh) && CpuOk(m.sh, c, m.x) && forall d: nat :: d != c ==> SameFor(sh, m.sh, d)
  }

  lemma {:induction false} StepAtomic(sh: Shared, c: nat, x: Cpu)
    ensures Step(sh, c, x).Some? ==> Step(sh, c, x).value.sh.atomic == sh.atomic
  {
    hide Task;
  }

  lemma {:induction false} StepKeeps(sh: Shared, c: nat, x: Cpu)
    requires SharedOk(sh) && CpuOk(sh, c, x) && !x.inIrq && Step(sh, c, x).Some?
    ensures Keeps(sh, c, Step(sh, c, x).value)
  {
    hide SharedOk, LockOk, ModeOk, WorkOk, NestedOk, FlatOk, AcqStep, WorkStep, RelStep, IdleStep, SameFor;
    StepAtomic(sh, c, x);
    if AcqStep(sh, c, x).Some? {
      AcqShared(sh, c, x);
      AcqLock(sh, c, x);
      AcqMode(sh, c, x);
      if sh.atomic { AcqNested(sh, c, x); } else { AcqFlat(sh, c, x); }
    } else if WorkStep(sh, x).Some? {
      WorkShared(sh, c, x);
      WorkLock(sh, c, x);
      WorkMode(sh, c, x);
      if sh.atomic { WorkNested(sh, c, x); } else { WorkFlat(sh, c, x); }
    } else if RelStep(sh, c, x).Some? {
      RelShared(sh, c, x);
      RelLock(sh, c, x);
      RelMode(sh, c, x);
      if sh.atomic { RelNested(sh, c, x); } else { RelFlat(sh, c, x); }
    } else {
      IdleShared(sh, c, x);
      IdleLock(sh, c, x);
      IdleMode(sh, c, x);
      if sh.atomic { IdleNested(sh, c, x); } else { IdleFlat(sh, c, x); }
    }
  }

  lemma {:induction false} ActShared(sh: Shared, c: nat, x: Cpu, a: Act)
    requires SharedOk(sh) && CpuOk(sh, c, x) && !a.Go? && Do(sh, c, x, a).Some?
    ensures SharedOk(Do(sh, c, x, a).value.sh) && Do(sh, c, x, a).value.sh.atomic == sh.atomic
    ensures forall d: nat :: d != c ==> SameFor(sh, Do(sh, c, x, a).value.sh, d)
  {
    hide ModeOk, NestedOk, FlatOk, WorkOk, Step;
  }

  lemma {:induction false} ActLock(sh: Shared, c: nat, x: Cpu, a: Act)
    requires SharedOk(sh) && CpuOk(sh, c, x) && !a.Go? && Do(sh, c, x, a).Some?
    ensures var m := Do(sh, c, x, a).value; LockOk(m.sh, c, m.x)
  {
    hide NestedOk, FlatOk, WorkOk, Step;
    match a {
      case Acquire =>
      case Release =>
      case Inc =>
      case Pull =>
      case Push(_) =>
      case Mask(_) =>
      case Idle =>
      case IrqIn(_) =>
      case IrqOut(_, _, _, _, _) =>
    }
  }

  lemma {:induction false} ActMode(sh: Shared, c: nat, x: Cpu, a: Act)
    requires SharedOk(sh) && CpuOk(sh, c, x) && !a.Go? && Do(sh, c, x, a).Some?
    ensures var m := Do(sh, c, x, a).value; ModeOk(m.sh, m.x) && WorkOk(m.sh, m.x)
  {
    hide NestedOk, FlatOk, Step, Task;
    match a {
      case Acquire =>
      case Release =>
      case Inc =>
      case Pull =>
      case Push(_) =>
      case Mask(_) =>
      case Idle =>
      case IrqIn(_) =>
      case IrqOut(_, _, _, _, _) =>
    }
  }

  lemma {:induction false} ActNested(sh: Shared, c: nat, x: Cpu, a: Act)
    requires SharedOk(sh) && CpuOk(sh, c, x) && !a.Go? && Do(sh, c, x, a).Some? && sh.atomic
    ensures var m := Do(sh, c, x, a).value; NestedOk(m.sh, c, m.x)
  {
    hide FlatOk, WorkOk, Step;
    match a {
      case Acquire =>
      case Release =>
      case Inc =>
      case Pull =>
      case Push(_) =>
      case Mask(_) =>
      case Idle =>
      case IrqIn(_) =>
      case IrqOut(_, _, _, _, _) =>
    }
  }

  lemma {:induction false} ActFlat(sh: Shared, c: nat, x: Cpu, a: Act)
    requires SharedOk(sh) && CpuOk(sh, c, x) && !a.Go? && Do(sh, c, x, a).Some? && !sh.atomic
    ensures var m := Do(sh, c, x, a).value; FlatOk(m.sh, c, m.x)
  {
    hide NestedOk, WorkOk, Step;
    match a {
      case Acquire =>
      case Release =>
      case Inc =>
      case Pull =>
      case Push(_) =>
      case Mask(_) =>
      case Idle =>
      case IrqIn(_) =>
      case IrqOut(_, _, _, _, _) =>
    }
  }

  lemma {:induction false} DoKeeps(sh: Shared, c: nat, x: Cpu, a: Act)
    requires SharedOk(sh) && CpuOk(sh, c, x) && Do(sh, c, x, a).Some?
    ensures Keeps(sh, c, Do(sh, c, x, a).value)
  {
    hide SharedOk, LockOk, ModeOk, WorkOk, NestedOk, FlatOk, Step, SameFor;
    if a.Go? {
      StepKeeps(sh, c, x);
    } else {
      hide Do;
      ActShared(sh, c, x, a);
      ActLock(sh, c, x, a);
      ActMode(sh, c, x, a);
      if sh.atomic { ActNested(sh, c, x, a); } else { ActFlat(sh, c, x, a); }
    }
  }

  // ---------------------------------------------------------------- runs

  /** w' follows w by one action of one CPU. */
  ghost predicate Next(w: World, w': World, c: nat, a: Act) {
    c < |w.cpus| && var r := Do(w.sh, c, w.cpus[c], a); r.Some? && w' == World(r.value.sh, w.cpus[c := r.value.x])
  }

  lemma {:induction false} NextInv(w: World, w': World, c: nat, a: Act)
    requires Inv(w) && Next(w, w', c, a)
    ensures Inv(w')
  {
    hide Do, SharedOk, CpuOk, SameFor;
    DoKeeps(w.sh, c, w.cpus[c], a);
    forall d | 0 <= d < |w'.cpus| ensures CpuOk(w'.sh, d, w'.cpus[d]) {
      if d != c { Frame(w.sh, w'.sh, d, w.cpus[d]); }
    }
  }

  /** Boot: nobody inside, nothing pending, any tasks ready, some perhaps claimed already. */
  predicate Init(w: World) {
    && w.sh == Shared(w.sh.atomic, false, -1, 0, 0, w.sh.ready, 0, w.sh.claimed, None, 0, [], false, false)
    && |w.sh.ready| <= MAX_READY
    && forall c :: 0 <= c < |w.cpus| ==> w.cpus[c] == Cpu(Out, Normal, w.cpus[c].masked, false, false, false, 0, 0, 0, 0)
  }

  ghost predicate Linked(w: World, w': World) { exists c, a :: Next(w, w', c, a) }

  /** Any finite interleaving from boot. */
  ghost predicate Run(ws: seq<World>) {
    ws != [] && Init(ws[0]) && forall i, j :: 0 <= i && j == i + 1 < |ws| ==> Linked(ws[i], ws[j])
  }

  lemma {:induction false} InitInv(w: World)
    requires Init(w)
    ensures Inv(w)
  {
  }

  /** Every state of every interleaving satisfies the invariant. */
  lemma {:induction false} RunInv(ws: seq<World>, i: nat)
    requires Run(ws) && i < |ws|
    ensures Inv(ws[i])
  {
    hide Inv, Next, Init;
    if i == 0 {
      InitInv(ws[0]);
    } else {
      var j := i - 1;
      RunInv(ws, j);
      assert Linked(ws[j], ws[i]);
      var c, a :| Next(ws[j], ws[i], c, a);
      NextInv(ws[j], ws[i], c, a);
    }
  }

  // ---------------------------------------------------------------- what follows

  /** No two CPUs are ever inside the lock. */
  lemma {:induction false} MutualExclusion(ws: seq<World>, i: nat, c: nat, d: nat)
    requires Run(ws) && i < |ws| && c < |ws[i].cpus| && d < |ws[i].cpus|
    requires Locked(ws[i].cpus[c].pc) && Locked(ws[i].cpus[d].pc)
    ensures c == d
  {
    hide NestedOk, FlatOk, ModeOk, WorkOk, SharedOk, Run;
    RunInv(ws, i);
    assert CpuOk(ws[i].sh, c, ws[i].cpus[c]) && CpuOk(ws[i].sh, d, ws[i].cpus[d]);
  }

  /** Wherever a CPU can take an interrupt it holds the raw lock exactly when the owner word
      names it. */
  lemma {:induction false} OwnerTellsTruth(ws: seq<World>, i: nat, c: nat)
    requires Run(ws) && i < |ws| && c < |ws[i].cpus| && (!ws[i].cpus[c].masked || ws[i].cpus[c].inIrq)
    ensures ws[i].sh.holder == Some(c) <==> ws[i].sh.owner == c
  {
    hide NestedOk, FlatOk, ModeOk, WorkOk, SharedOk, Run;
    RunInv(ws, i);
    assert CpuOk(ws[i].sh, c, ws[i].cpus[c]);
  }

  /** A switch of CPU c is due: a request is pending, c does not hold the raw lock, and a
      different, existing task is to run on a busy CPU with dispatching allowed. */
  predicate Due(w: World, c: nat, a: Act)
    requires c < |w.cpus| && a.IrqOut?
  {
    && w.cpus[c].pending && w.sh.holder != Some(c)
    && a.indp <= 0 && !a.disabled && a.sched != 0 && a.ctx != 0 && a.ctx != a.sched
  }

  /** The way out of an interrupt: a due switch is made and uses up the request; otherwise the
      CPU goes on where it was and the request stays.  Nothing else changes. */
  lemma {:induction false} SwitchesIffDue(ws: seq<World>, i: nat, w': World, c: nat, a: Act)
    requires Run(ws) && i < |ws| && Next(ws[i], w', c, a) && ws[i].cpus[c].inIrq
    ensures a.IrqOut? && w'.sh == ws[i].sh && (Due(ws[i], c, a) ==> !Locked(ws[i].cpus[c].pc))
    ensures var x := ws[i].cpus[c];
            w'.cpus == ws[i].cpus[c := if Due(ws[i], c, a) then x.(inIrq := false, pending := false, pc := a.resume) else x.(inIrq := false)]
  {
    hide NestedOk, FlatOk, ModeOk, WorkOk, SharedOk, Run, Step;
    RunInv(ws, i);
    assert CpuOk(ws[i].sh, c, ws[i].cpus[c]);
  }

  /** And it is always possible: to the middle of nothing, or to a place before the lock. */
  lemma {:induction false} IrqReturns(ws: seq<World>, i: nat, c: nat, a: Act) returns (w': World)
    requires Run(ws) && i < |ws| && c < |ws[i].cpus| && ws[i].cpus[c].inIrq && a.IrqOut?
    requires a.resume.Out? || a.resume.AcqTest? || a.resume.AcqMask?
    requires !ws[i].cpus[c].mode.Normal? ==> a.ctx == 0
    ensures Next(ws[i], w', c, a)
  {
    hide Run, Inv;
    var m := Do(ws[i].sh, c, ws[i].cpus[c], a).value;
    w' := World(m.sh, ws[i].cpus[c := m.x]);
  }

  lemma {:induction false} StepPending(sh: Shared, c: nat, x: Cpu)
    requires Step(sh, c, x).Some?
    ensures Step(sh, c, x).value.x.pending <==> x.pending && !x.pc.Wait?
  {
    hide Task;
  }

  /** When a request comes and goes: a resched interrupt sets it; a due switch of that CPU and
      its way out of idling use it up; nothing else touches it. */
  lemma {:induction false} PendingExact(ws: seq<World>, i: nat, w': World, c: nat, a: Act, d: nat)
    requires Run(ws) && i < |ws| && Next(ws[i], w', c, a) && d < |ws[i].cpus|
    ensures var x := ws[i].cpus[d];
            w'.cpus[d].pending ==
              if d != c then x.pending
              else if x.inIrq then x.pending && !(a.IrqOut? && Due(ws[i], d, a))
              else if a.IrqIn? then x.pending || a.sgi
              else x.pending && !(a.Go? && x.pc.Wait?)
  {
    hide Run, Decide, Step;
    if d == c && ws[i].cpus[c].inIrq { SwitchesIffDue(ws, i, w', c, a); }
    if d == c && Step(ws[i].sh, c, ws[i].cpus[c]).Some? { StepPending(ws[i].sh, c, ws[i].cpus[c]); }
  }

  /** The only wait is for the raw lock: between calls a CPU outside an interrupt can always make
      its next access, but for the test-and-set while another CPU holds the lock. */
  lemma {:induction false} OnlySpinWaits(ws: seq<World>, i: nat, c: nat)
    requires Run(ws) && i < |ws| && c < |ws[i].cpus| && !ws[i].cpus[c].inIrq && !ws[i].cpus[c].pc.Out? && !ws[i].cpus[c].pc.In?
    ensures Do(ws[i].sh, c, ws[i].cpus[c], Go).None? <==> ws[i].cpus[c].pc.AcqSpin? && ws[i].sh.holder.Some?
    ensures ws[i].cpus[c].pc.AcqSpin? ==> ws[i].sh.holder != Some(c)
  {
    hide NestedOk, FlatOk, ModeOk, Run, Task;
    RunInv(ws, i);
    assert CpuOk(ws[i].sh, c, ws[i].cpus[c]);
  }

  /** From x to y the lock code saves the mask and masks, leaves both alone, or restores. */
  predicate Masks(x: Cpu, y: Cpu) {
    && (Shielded(y.pc) && !Shielded(x.pc) ==> y.daif == x.masked && y.masked)
    && (Shielded(x.pc) && Shielded(y.pc) ==> y.daif == x.daif && x.masked && y.masked)
    && (Shielded(x.pc) && !Shielded(y.pc) ==> y.masked == x.daif)
  }

  lemma {:induction false} AcqMasks(sh: Shared, c: nat, x: Cpu)
    requires LockOk(sh, c, x) && AcqStep(sh, c, x).Some?
    ensures Masks(x, AcqStep(sh, c, x).value.x)
  {
  }

  lemma {:induction false} RelMasks(sh: Shared, c: nat, x: Cpu)
    requires LockOk(sh, c, x) && RelStep(sh, c, x).Some?
    ensures Masks(x, RelStep(sh, c, x).value.x)
  {
  }

  lemma {:induction false} OtherMasks(sh: Shared, c: nat, x: Cpu)
    requires LockOk(sh, c, x)
    ensures WorkStep(sh, x).Some? ==> Masks(x, WorkStep(sh, x).value.x)
    ensures IdleStep(sh, c, x).Some? ==> Masks(x, IdleStep(sh, c, x).value.x)
  {
    hide Task;
  }

  lemma {:induction false} StepMasks(sh: Shared, c: nat, x: Cpu)
    requires LockOk(sh, c, x) && Step(sh, c, x).Some?
    ensures Masks(x, Step(sh, c, x).value.x)
  {
    hide AcqStep, RelStep, WorkStep, IdleStep, LockOk, Masks;
    OtherMasks(sh, c, x);
    if AcqStep(sh, c, x).Some? { AcqMasks(sh, c, x); } else if RelStep(sh, c, x).Some? { RelMasks(sh, c, x); }
  }

  /** The lock code gives interrupts back as it found them: on the way into its masked part it
      saves the mask, on the way out it restores what it saved. */
  lemma {:induction false} MaskRestored(ws: seq<World>, i: nat, w': World, c: nat, a: Act)
    requires Run(ws) && i < |ws| && Next(ws[i], w', c, a)
    ensures Masks(ws[i].cpus[c], w'.cpus[c])
  {
    hide ModeOk, WorkOk, NestedOk, FlatOk, Run, Task, Decide, SharedOk, Step;
    RunInv(ws, i);
    assert CpuOk(ws[i].sh, c, ws[i].cpus[c]);
    if Step(ws[i].sh, c, ws[i].cpus[c]).Some? { StepMasks(ws[i].sh, c, ws[i].cpus[c]); }
  }

  /** The list of ready tasks: a push puts its task at the end while there is room; nothing else
      changes the list. */
  lemma {:induction false} ReadyGrows(w: World, w': World, c: nat, a: Act)
    requires Next(w, w', c, a)
    ensures w'.sh.ready == if a.Push? && |w.sh.ready| < MAX_READY then w.sh.ready + [a.task] else w.sh.ready
    ensures a.Push? ==> w.cpus[c].pc.In?
  {
    hide Task;
  }

  lemma {:induction false} PullIsWork(sh: Shared, c: nat, x: Cpu)
    requires x.pc.PullClaim? || x.pc.PullHead?
    ensures Step(sh, c, x) == WorkStep(sh, x)
  {
    hide WorkStep;
  }

  /** A pull hands out the task it stands at and moves the head behind it, so the next pull comes
      to that place last. */
  lemma {:induction false} PullRotates(sh: Shared, c: nat, x: Cpu)
    requires x.pc.PullClaim? && x.k < |sh.ready|
    ensures Step(sh, c, x).Some?
    ensures var m := Step(sh, c, x).value; var t := Task(sh, x.k);
            && m.sh.pulled == sh.pulled + [t] && m.sh.claimed == sh.claimed + {t} && Step(m.sh, c, m.x).Some?
            && var e := Step(m.sh, c, m.x).value;
               e.x.pc.In? && e.sh == m.sh.(hd := e.sh.hd) && Task(e.sh, |sh.ready| - 1) == t
  {
    hide Step;
    var n := |sh.ready|;
    LastPlace(n, sh.hd, x.k);
    PullIsWork(sh, c, x);
    var m := WorkStep(sh, x).value;
    PullIsWork(m.sh, c, m.x);
  }

  lemma {:induction false} LastPlace(n: nat, hd: nat, k: nat)
    requires n > 0
    ensures (((hd + k) % n + 1) % n + (n - 1)) % n == (hd + k) % n
  {
    var r := (hd + k) % n;
    if r + 1 == n {
      assert (r + 1) % n == 0;
      assert (0 + (n - 1)) % n == n - 1;
    } else {
      assert (r + 1) % n == r + 1;
      assert r + 1 + (n - 1) == 1 * n + r;
      ModIs(n, 1, r);
    }
  }

  /** No task is handed out twice. */
  lemma {:induction false} PulledOnce(ws: seq<World>, i: nat)
    requires Run(ws) && i < |ws|
    ensures NoDup(ws[i].sh.pulled)
  {
    hide Run, CpuOk;
    RunInv(ws, i);
  }

  /** The shared counter is the number of completed increments. */
  lemma {:induction false} CounterExact(ws: seq<World>, i: nat)
    requires Run(ws) && i < |ws|
    ensures ws[i].sh.counter == ws[i].sh.incs % U64
  {
    hide Run, CpuOk;
    RunInv(ws, i);
  }

  lemma {:induction false} Around(n: nat, hd: nat, i: nat) returns (j: nat)
    requires i < n
    ensures j < n && (hd + j) % n == i
  {
    var r := hd % n;
    var q := hd / n;
    assert hd == q * n + r;
    j := if r <= i then i - r else i + n - r;
    if r <= i {
      assert hd + j == q * n + i;
      ModIs(n, q, i);
    } else {
      assert hd + j == (q + 1) * n + i;
      ModIs(n, q + 1, i);
    }
  }

  lemma {:induction false} AtLeast(a: int, n: int)
    requires n >= 0
    ensures a >= 1 ==> a * n >= n
    ensures a <= -1 ==> a * n <= -n
  {
    assert a * n == n + (a - 1) * n;
    assert a * n == -n + (a + 1) * n;
  }

  lemma {:induction false} ModIs(n: nat, q: nat, i: nat)
    requires i < n
    ensures (q * n + i) % n == i
  {
    var x: int := q * n + i;
    var d: int, m: int := x / n, x % n;
    assert x == d * n + m;
    assert (q - d) * n == m - i;
    AtLeast(q - d, n);
  }

  /** A pull gives up only when every task on the list is claimed. */
  lemma {:induction false} NullMeansClaimed(ws: seq<World>, i: nat, w': World, c: nat, t: nat)
    requires Run(ws) && i < |ws| && Next(ws[i], w', c, Go) && ws[i].cpus[c].pc.PullTest? && w'.cpus[c].pc.In?
    requires t in ws[i].sh.ready && t != 0
    ensures t in ws[i].sh.claimed
  {
    hide Run, LockOk, NestedOk, FlatOk, ModeOk, SharedOk;
    RunInv(ws, i);
    var sh := ws[i].sh;
    assert CpuOk(sh, c, ws[i].cpus[c]);
    var k :| 0 <= k < |sh.ready| && sh.ready[k] == t;
    var j := Around(|sh.ready|, sh.hd, k);
    assert Quiet(sh, Task(sh, j));
  }

  /** With the release in one step the depth word is the nesting of the CPU inside. */
  lemma {:induction false} DepthIsNesting(ws: seq<World>, i: nat, c: nat)
    requires Run(ws) && i < |ws| && c < |ws[i].cpus| && ws[i].sh.atomic && ws[i].cpus[c].pc.In?
    ensures ws[i].sh.owner == c && ws[i].sh.depth == ws[i].cpus[c].nest >= 1
  {
    hide Run, SharedOk, WorkOk;
    RunInv(ws, i);
    assert CpuOk(ws[i].sh, c, ws[i].cpus[c]);
  }

  /** Idling hands the lock over completely and takes it back to the same depth: while the
      CPU waits it does not hold the lock, its nesting is kept aside, and when it is back
      inside (DepthIsNesting) the depth is that nesting again. */
  lemma {:induction false} IdleKeepsNesting(ws: seq<World>, i: nat, c: nat)
    requires Run(ws) && i < |ws| && c < |ws[i].cpus| && ws[i].sh.atomic && ws[i].cpus[c].pc.Wait?
    ensures ws[i].sh.holder != Some(c) && ws[i].sh.owner != c && ws[i].cpus[c].saved == ws[i].cpus[c].nest
  {
    hide Run, SharedOk, WorkOk;
    RunInv(ws, i);
    assert CpuOk(ws[i].sh, c, ws[i].cpus[c]);
  }

  lemma {:induction false} AcqNest(sh: Shared, c: nat, x: Cpu)
    requires ModeOk(sh, x) && !x.mode.Normal? && AcqStep(sh, c, x).Some?
    ensures AcqStep(sh, c, x).value.x.nest == x.nest
  {
  }

  lemma {:induction false} RelNest(sh: Shared, c: nat, x: Cpu)
    requires ModeOk(sh, x) && !x.mode.Normal? && RelStep(sh, c, x).Some?
    ensures RelStep(sh, c, x).value.x.nest == x.nest
  {
  }

  lemma {:induction false} OtherNest(sh: Shared, c: nat, x: Cpu)
    ensures WorkStep(sh, x).Some? ==> WorkStep(sh, x).value.x.nest == x.nest
    ensures IdleStep(sh, c, x).Some? ==> IdleStep(sh, c, x).value.x.nest == x.nest
  {
    hide Task;
  }

  lemma {:induction false} StepNest(sh: Shared, c: nat, x: Cpu)
    requires ModeOk(sh, x) && !x.mode.Normal? && Step(sh, c, x).Some?
    ensures Step(sh, c, x).value.x.nest == x.nest
  {
    hide AcqStep, WorkStep, RelStep, IdleStep, ModeOk;
    if AcqStep(sh, c, x).Some? { AcqNest(sh, c, x); }
    if RelStep(sh, c, x).Some? { RelNest(sh, c, x); }
    OtherNest(sh, c, x);
  }

  lemma {:induction false} NestStays(sh: Shared, c: nat, x: Cpu, a: Act)
    requires ModeOk(sh, x) && !x.mode.Normal? && Do(sh, c, x, a).Some?
    ensures Do(sh, c, x, a).value.x.nest == x.nest
  {
    hide Step, Decide, ModeOk;
    if a.Go? && !x.inIrq { StepNest(sh, c, x); }
  }

  /** A sleeping or waking CPU never loses its nesting. */
  lemma {:induction false} NestUnmoved(w: World, w': World, c: nat, a: Act, d: nat)
    requires Next(w, w', c, a) && d < |w.cpus| && !w.cpus[d].mode.Normal? && Inv(w) && w.sh.atomic
    ensures w'.cpus[d].nest == w.cpus[d].nest
  {
    hide Do, SharedOk, WorkOk, LockOk, FlatOk, NestedOk, ModeOk;
    assert CpuOk(w.sh, d, w.cpus[d]);
    if d == c { NestStays(w.sh, c, w.cpus[c], a); }
  }

  /** With single stores and no nesting, a release frees the lock exactly when no late store
      of 0 hit the depth since the lock was taken. */
  lemma {:induction false} ReleaseFreesIff(ws: seq<World>, i: nat, c: nat)
    requires Run(ws) && i < |ws| && c < |ws[i].cpus| && !ws[i].sh.atomic && !ws[i].sh.lost
    requires ws[i].cpus[c].pc.RelTest? && !ws[i].cpus[c].inIrq
    ensures Step(ws[i].sh, c, ws[i].cpus[c]).value.x.pc.RelMask? <==> !ws[i].sh.hit
    ensures ws[i].sh.depth == if ws[i].sh.hit then 0 else 1
  {
    hide Run, SharedOk, WorkOk, NestedOk, ModeOk;
    RunInv(ws, i);
    assert CpuOk(ws[i].sh, c, ws[i].cpus[c]);
  }

  // ---------------------------------------------------------------- the late store

  /** w' is reached from w in n steps. */
  ghost predicate Path(w: World, w': World, n: nat)
    decreases n
  {
    if n == 0 then w == w' else exists v :: Path(w, v, n - 1) && Linked(v, w')
  }

  /** A path from boot is a run. */
  lemma {:induction false} PathRun(w: World, w': World, n: nat) returns (ws: seq<World>)
    requires Init(w) && Path(w, w', n)
    ensures Run(ws) && ws[|ws| - 1] == w' && ws[0] == w
    decreases n
  {
    hide Init, Linked;
    if n == 0 {
      ws := [w];
    } else {
      var v :| Path(w, v, n - 1) && Linked(v, w');
      var front := PathRun(w, v, n - 1);
      ws := front + [w'];
    }
  }

  /** One more action on a path. */
  lemma {:induction false} Then(w0: World, n: nat, w: World, c: nat, a: Act) returns (w': World)
    requires Path(w0, w, n) && c < |w.cpus| && Do(w.sh, c, w.cpus[c], a).Some?
    ensures Path(w0, w', n + 1) && w' == World(Do(w.sh, c, w.cpus[c], a).value.sh, w.cpus[c := Do(w.sh, c, w.cpus[c], a).value.x])
  {
    hide Do;
    w' := World(Do(w.sh, c, w.cpus[c], a).value.sh, w.cpus[c := Do(w.sh, c, w.cpus[c], a).value.x]);
    assert Next(w, w', c, a);
    assert Linked(w, w');
  }

  const Fresh: Cpu := Cpu(Out, Normal, false, false, false, false, 0, 0, 0, 0)
  const Inside: Cpu := Cpu(In, Normal, false, false, false, false, 0, 0, 0, 1)
  const Late: Cpu := Cpu(RelDepth, Normal, true, false, false, false, 0, 0, 0, 1)

  /** Single stores, an empty ready list, and this state of the lock. */
  function Words(holder: Option<nat>, depth: nat, hit: bool, lost: bool): Shared {
    Shared(false, holder.Some?, if holder.Some? then holder.value else -1, depth, 0, [], 0, {}, holder, 0, [], hit, lost)
  }

  lemma {:induction false} AcquireAlone(w0: World, n: nat, w: World, c: nat) returns (w': World)
    requires Path(w0, w, n) && c < |w.cpus| && w.cpus[c] == Fresh && exists d, hit, lost :: w.sh == Words(None, d, hit, lost)
    ensures Path(w0, w', n + 7) && w' == World(Words(Some(c), 1, false, false), w.cpus[c := Inside])
  {
    hide Path;
    var v := Then(w0, n, w, c, Acquire);
    v := Then(w0, n + 1, v, c, Go);
    v := Then(w0, n + 2, v, c, Go);
    v := Then(w0, n + 3, v, c, Go);
    v := Then(w0, n + 4, v, c, Go);
    v := Then(w0, n + 5, v, c, Go);
    w' := Then(w0, n + 6, v, c, Go);
  }

  lemma {:induction false} AlmostReleased(w0: World, n: nat, w: World, c: nat) returns (w': World)
    requires Path(w0, w, n) && c < |w.cpus| && w.cpus[c] == Inside && w.sh == Words(Some(c), 1, false, false)
    ensures Path(w0, w', n + 5) && w' == World(Words(None, 1, false, false), w.cpus[c := Late])
  {
    hide Path;
    var v := Then(w0, n, w, c, Release);
    v := Then(w0, n + 1, v, c, Go);
    v := Then(w0, n + 2, v, c, Go);
    v := Then(w0, n + 3, v, c, Go);
    w' := Then(w0, n + 4, v, c, Go);
  }

  lemma {:induction false} StoresLate(w0: World, n: nat, w: World, c: nat, d: nat) returns (w': World)
    requires Path(w0, w, n) && c < |w.cpus| && w.cpus[c] == Late && w.sh == Words(Some(d), 1, false, false)
    ensures Path(w0, w', n + 2) && w' == World(Words(Some(d), 0, true, false), w.cpus[c := Fresh])
  {
    hide Path;
    var v := Then(w0, n, w, c, Go);
    w' := Then(w0, n + 1, v, c, Go);
  }

  lemma {:induction false} ReleasesNothing(w0: World, n: nat, w: World, c: nat) returns (w': World)
    requires Path(w0, w, n) && c < |w.cpus| && w.cpus[c] == Inside && w.sh == Words(Some(c), 0, true, false)
    ensures Path(w0, w', n + 4) && w' == World(Words(Some(c), 0xFFFF_FFFF, true, true), w.cpus[c := Fresh])
  {
    hide Path;
    var v := Then(w0, n, w, c, Release);
    v := Then(w0, n + 1, v, c, Go);
    v := Then(w0, n + 2, v, c, Go);
    w' := Then(w0, n + 3, v, c, Go);
  }

  /** With single stores the property "depth is nesting" fails, and with it the release: CPU
      0 has freed the lock but not yet cleared the depth, CPU 1 takes the lock, CPU 0's store
      of 0 lands, and CPU 1's release only decrements.  Both CPUs are outside, nothing is in
      flight, and the lock is taken. */
  lemma {:induction false} LateStoreStrandsLock() returns (ws: seq<World>)
    ensures Run(ws) && !ws[0].sh.atomic
    ensures var w := ws[|ws| - 1]; w.cpus == [Fresh, Fresh] && w.sh.lock && w.sh.owner == 1 && w.sh.depth == 0xFFFF_FFFF && Stranded(w, 1)
  {
    hide Run, Path;
    var w0 := World(Words(None, 0, false, false), [Fresh, Fresh]);
    assert Path(w0, w0, 0) by { PathNone(w0); }
    var w := AcquireAlone(w0, 0, w0, 0);
    w := AlmostReleased(w0, 7, w, 0);
    w := AcquireAlone(w0, 12, w, 1);
    w := StoresLate(w0, 19, w, 0, 1);
    w := ReleasesNothing(w0, 21, w, 1);
    assert w.cpus == [Fresh, Fresh];
    ws := PathRun(w0, w, 25);
  }

  // ---------------------------------------------------------------- stranded for good

  /** CPU c holds the lock it thinks it released, with single stores and no nesting: the depth
      is one below zero outside and zero inside, and no late store is on its way. */
  predicate Stranded(w: World, c: nat) {
    && !w.sh.atomic && w.sh.holder == Some(c) && w.sh.lost && c < |w.cpus|
    && (forall d :: 0 <= d < |w.cpus| ==> !w.cpus[d].pc.RelDepth?)
    && OneShort(w.sh, w.cpus[c])
  }

  predicate OneShort(sh: Shared, x: Cpu) {
    || ((x.pc.Out? || x.pc.AcqTest? || x.pc.NestLoad?) && sh.depth == 0xFFFF_FFFF)
    || (x.pc.NestStore? && x.tmp == 0xFFFF_FFFF)
    || ((Working(x.pc) || x.pc.RelTest? || x.pc.LessLoad?) && sh.depth == 0)
    || (x.pc.LessStore? && x.tmp == 0)
  }

  /** What another CPU does cannot free the lock or touch the depth. */
  lemma {:induction false} OthersSpin(sh: Shared, c: nat, d: nat, x: Cpu, a: Act)
    requires SharedOk(sh) && !sh.atomic && sh.holder == Some(c) && d != c && CpuOk(sh, d, x) && !x.pc.RelDepth? && Do(sh, d, x, a).Some?
    ensures var m := Do(sh, d, x, a).value; m.sh == sh && !m.x.pc.RelDepth?
  {
    hide WorkOk, NestedOk, FlatOk, ModeOk, Decide, Task;
  }

  /** What the stranded CPU does itself cannot either: its next acquire nests, and the release
      of that undoes it. */
  lemma {:induction false} HolderStays(sh: Shared, c: nat, x: Cpu, a: Act)
    requires SharedOk(sh) && CpuOk(sh, c, x) && !sh.atomic && sh.holder == Some(c) && sh.lost && OneShort(sh, x) && Do(sh, c, x, a).Some?
    ensures var m := Do(sh, c, x, a).value;
            !m.sh.atomic && m.sh.holder == Some(c) && m.sh.lost && OneShort(m.sh, m.x) && !m.x.pc.RelDepth?
  {
    hide NestedOk, WorkOk, Task;
  }

  lemma {:induction false} StrandedStep(w: World, w': World, c: nat, d: nat, a: Act)
    requires Inv(w) && Stranded(w, c) && Next(w, w', d, a)
    ensures Stranded(w', c)
  {
    hide Do, SharedOk, CpuOk, OneShort;
    assert CpuOk(w.sh, d, w.cpus[d]);
    if d == c {
      HolderStays(w.sh, c, w.cpus[c], a);
    } else {
      OthersSpin(w.sh, c, d, w.cpus[d], a);
    }
  }

  /** In every continuation of a run the stranded lock stays taken, by the same CPU. */
  lemma {:induction false} StrandedForever(ws: seq<World>, i: nat, j: nat, c: nat)
    requires Run(ws) && i <= j < |ws| && Stranded(ws[i], c)
    ensures Stranded(ws[j], c) && ws[j].sh.lock && ws[j].sh.holder == Some(c)
    decreases j - i
  {
    hide Stranded, Init, Next, CpuOk;
    RunInv(ws, j);
    if j > i {
      var k := j - 1;
      StrandedForever(ws, i, k, c);
      RunInv(ws, k);
      assert Linked(ws[k], ws[k + 1]);
      var d, a :| Next(ws[k], ws[k + 1], d, a);
      StrandedStep(ws[k], ws[k + 1], c, d, a);
    }
    StrandedHolds(ws[j], c);
  }

  lemma {:induction false} StrandedHolds(w: World, c: nat)
    requires Stranded(w, c)
    ensures w.sh.holder == Some(c)
  {
  }

  lemma {:induction false} PathNone(w: World)
    ensures Path(w, w, 0)
  {
  }
}
