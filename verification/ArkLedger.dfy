/** The versions of one path over whole runs: which of them the calls have acknowledged, which
    a power loss or a compaction takes back, and that every other one reads back as written. */
module ArkLedger {
  import opened Wrappers
  import opened ArkFormat
  import opened ArkLog
  import opened ArkCrash
  import opened ArkLibrary
  import opened ArkCompaction
  import opened ArkHistory
  import opened ArkDamage
  import opened ArkTree
  import opened ArkMerkle
  import opened ArkFresh
  import opened Ark
  import opened ArkSession
  import opened ArkRuns

  /** What is known of a path: the bytes of every version any call tried to write, and the
      versions whose write was acknowledged and must still be there. */
  datatype Book = Book(w: map<nat, Bytes>, held: map<nat, Bytes>)

  /** One book for memory and one for every medium of the account. */
  datatype Ledger = Ledger(now: Book, media: seq<Book>)

  const EMPTY_BOOK := Book(map[], map[])

  /** The bytes this call puts under the path, if it does. */
  function Puts(op: Op, path: Bytes): Option<Bytes> {
    match op
    case WriteFile(p, buf) => if p == path then Some(buf) else None
    case MakeDir(p) => if p == path then Some([]) else None
    case _ => None
  }

  ghost function Tried(op: Op, live: seq<Dent>, live': seq<Dent>, path: Bytes, w: map<nat, Bytes>): map<nat, Bytes> {
    if Puts(op, path).Some? && live' != live then w[NextVersion(live, path) := Puts(op, path).value] else w
  }

  ghost function Acked(op: Op, rc: Status, live: seq<Dent>, path: Bytes, held: map<nat, Bytes>): map<nat, Bytes> {
    if Puts(op, path).Some? && rc == OK then held[NextVersion(live, path) := Puts(op, path).value] else held
  }

  /** A compaction keeps the live version only. */
  ghost function Kept1(live: seq<Dent>, path: Bytes, held: map<nat, Bytes>): map<nat, Bytes> {
    if Row(live, path).Some? && Row(live, path).value.version in held
    then map[Row(live, path).value.version := held[Row(live, path).value.version]] else map[]
  }

  /** How a step changes the ledger.  A call's own media hold what was acknowledged before it;
      the medium it returns with holds its own version as well. */
  ghost function Entered(path: Bytes, s: Snap, ev: Event, t: Snap, g: Ledger): Ledger {
    var n := if |s.l.shots| <= |t.l.shots| then |t.l.shots| - |s.l.shots| else 0;
    match ev
    case Did(op, rc) =>
      var w := Tried(op, s.lib.live, t.lib.live, path, g.now.w);
      var now := Book(w, Acked(op, rc, s.lib.live, path, g.now.held));
      Ledger(now, g.media + seq(n, i => if i == n - 1 then now else Book(w, g.now.held)))
    case Packed(rc, p) =>
      var packed := Book(g.now.w, Kept1(s.lib.live, path, g.now.held));
      Ledger(if p.pre < |p.trail| then packed else g.now, g.media + seq(n, i => if i < p.pre then g.now else packed))
    case Formatted(rc) => Ledger(if rc == INVAL then g.now else EMPTY_BOOK, g.media + seq(n, _ => EMPTY_BOOK))
    case Lost(k) =>
      if k < |g.media| then Ledger(g.media[k], g.media[..k + 1] + [g.media[k]]) else g
  }

  /** The ledger after n events. */
  ghost function LedgerAt(path: Bytes, ss: seq<Snap>, evs: seq<Event>, n: nat): Ledger
    requires |ss| == |evs| + 1 && n <= |evs|
  {
    if n == 0 then Ledger(EMPTY_BOOK, [])
    else Entered(path, ss[n - 1], evs[n - 1], ss[n], LedgerAt(path, ss, evs, n - 1))
  }

  // ---------------------------------------------------------------- the invariant

  ghost predicate Promised(f: Format, recs: seq<Rec>, path: Bytes, b: Book) {
    && 0 !in b.w
    && forall v :: v in b.held ==> v in b.w && b.w[v] == b.held[v] && InLog(f, recs, path, v)
  }

  /** The book is true of a medium: after a mount the path has these versions. */
  ghost predicate BookOk(f: Format, b: Shot, path: Bytes, book: Book) {
    ShotKeeps(f, b, path, book.w) && Promised(f, b.recs, path, book)
  }

  ghost predicate NowOk(f: Format, l: LogState, lib: Library, path: Bytes, book: Book) {
    Chronicle(f, l.cap, l.logStart, l.recs, lib, path, book.w) && Promised(f, l.recs, path, book)
  }

  ghost predicate LedgerOk(f: Format, s: Snap, path: Bytes, g: Ledger) {
    && |g.media| == |s.l.shots|
    && (forall i :: 0 <= i < |g.media| ==> BookOk(f, s.l.shots[i], path, g.media[i]))
    && (s.up ==> NowOk(f, s.l, s.lib, path, g.now) && g.media != [] && g.media[|g.media| - 1].held == g.now.held)
  }

  /** The path is not unlinked and its version counter does not wrap. */
  ghost predicate EventOk(path: Bytes, s: Snap, ev: Event) {
    ev.Did? ==>
      && !(ev.op.RemoveFile? && ev.op.path == path)
      && (ev.op.WriteFile? ==> NextVersion(s.lib.live, ev.op.path) < U32)
  }

  // ---------------------------------------------------------------- calls

  /** One call keeps the chronicle, in memory and on each medium passed. */
  lemma {:induction false} OpKeepsVersions(f: Format, l: LogState, l': LogState, lib: Library, lib': Library, op: Op, path: Bytes, w: map<nat, Bytes>)
    requires Chronicle(f, l.cap, l.logStart, l.recs, lib, path, w) && Adds(f, l, l', lib') && l.cap == CapOf(|l.media|)
    requires LiveAfter(f, op, lib, lib') && !(op.RemoveFile? && op.path == path) && (op.WriteFile? ==> NextVersion(lib.live, op.path) < U32)
    ensures CallKeeps(f, l, l', lib', path, Tried(op, lib.live, lib'.live, path, w))
  {
    hide Archive, Hist, Row, PutRow, Adds, CallKeeps, RowKept, FilePut, CommitsOf, NewDir, Follows, NextVersion;
    assert UniqueNames(lib.live);
    if lib'.live == lib.live {
      FollowsSelf(path, lib.live);
      OthersKeepVersions(f, l, l', lib, lib', path, w);
    } else if op.WriteFile? {
      OpWrites(f, lib, lib', op.path, op.buf, path, w);
      if op.path == path {
        MintKeepsVersions(f, l, l', lib, lib', path, op.buf, w);
      } else {
        OthersKeepVersions(f, l, l', lib, lib', path, w);
      }
    } else if op.MakeDir? {
      if op.path == path {
        MkdirMints(f, lib, lib', path, w);
        MintKeepsVersions(f, l, l', lib, lib', path, [], w);
      } else {
        NewDirName(f, op.path);
        AppendFollows(lib.live, NewDir(f, op.path), path);
        OthersKeepVersions(f, l, l', lib, lib', path, w);
      }
    } else {
      UnlinkFollows(lib.live, FindRow(lib.live, op.path), path);
      OthersKeepVersions(f, l, l', lib, lib', path, w);
    }
  }

  lemma {:induction false} NewDirName(f: Format, path: Bytes)
    ensures NewDir(f, path).name == path
  {
  }

  lemma {:induction false} OpWrites(f: Format, lib: Library, lib': Library, p: Bytes, buf: Bytes, path: Bytes, w: map<nat, Bytes>)
    requires FilePut(f, lib, lib', p, buf) && UniqueNames(lib.live) && NextVersion(lib.live, p) < U32
    ensures Follows(path, lib.live, lib'.live)
    ensures p == path ==> RowKept(f, lib'.live, path, w[NextVersion(lib.live, path) := buf], lib'.idx)
    ensures p != path ==> Row(lib'.live, path) == Row(lib.live, path)
  {
    hide Row, UniqueNames, PutRow, RowKept, FileIds, Blocks, FileChunk, Follows, NextVersion;
    if p == path { WriteMints(f, lib, lib', path, buf, w); }
    WriteFollows(f, lib.live, p, buf, path);
  }

  /** What was promised stays promised: the log only grows, and a new version is a new key. */
  lemma {:induction false} PromiseStays(f: Format, l: LogState, lib: Library, lib': Library, op: Op, path: Bytes, b: Book, recs: seq<Rec>)
    requires NowOk(f, l, lib, path, b) && l.recs <= recs
    ensures Promised(f, recs, path, Book(Tried(op, lib.live, lib'.live, path, b.w), b.held))
  {
    hide Chronicle, InLog, NextVersion;
    NextIsNew(lib.live, path);
    forall v | v in b.held ensures v < NextVersion(lib.live, path) && InLog(f, recs, path, v) {
      HeldIsOld(f, l.cap, l.logStart, l.recs, lib, path, b.w, v);
      HoldsMore(f, l.recs, recs, path, v);
    }
  }

  lemma {:induction false} NextIsNew(live: seq<Dent>, path: Bytes)
    ensures NextVersion(live, path) > 0
  {
  }

  /** An acknowledged write is in a commit. */
  lemma {:induction false} AckHolds(f: Format, c: Codec, l: LogState, l': LogState, lib: Library, lib': Library, op: Op, path: Bytes, w: map<nat, Bytes>)
    requires Chronicle(f, l.cap, l.logStart, l.recs, lib, path, w) && OpDone(f, c, l, lib, op, OK, l', lib') && Puts(op, path).Some?
    requires op.WriteFile? ==> NextVersion(lib.live, op.path) < U32
    ensures lib'.live != lib.live && InLog(f, l'.recs, path, NextVersion(lib.live, path))
  {
    hide VolOk, HasTree, Between, Archive, Hist, CommitsOf, RowKept, FilePut, CoreOf, Committed, NextVersion, InLog, NewDir, Row, LiveAfter, Follows;
    assert UniqueNames(lib.live);
    RowIsNext(f, lib, lib', op, path);
    HoldsShown(f, l'.cap, l'.logStart, l'.recs, path);
  }

  lemma {:induction false} RowIsNext(f: Format, lib: Library, lib': Library, op: Op, path: Bytes)
    requires UniqueNames(lib.live) && Puts(op, path).Some? && (op.WriteFile? ==> NextVersion(lib.live, op.path) < U32)
    requires if op.WriteFile? then FilePut(f, lib, lib', op.path, op.buf) else FindRow(lib.live, path) < 0 && lib'.live == lib.live + [NewDir(f, path)]
    ensures Row(lib'.live, path).Some? && Row(lib'.live, path).value.version == NextVersion(lib.live, path) && lib'.live != lib.live
  {
    hide UniqueNames, PutRow, FileIds, Blocks, FileChunk, Follows, Row;
    RowFind(lib.live, path);
    if op.WriteFile? {
      WriteFollows(f, lib.live, path, op.buf, path);
    } else {
      AppendFollows(lib.live, NewDir(f, path), path);
    }
  }

  /** What a call enters in the ledger. */
  lemma {:induction false} DidEntries(path: Bytes, s: Snap, op: Op, rc: Status, t: Snap, g: Ledger)
    requires |g.media| == |s.l.shots| <= |t.l.shots|
    ensures var g' := Entered(path, s, Did(op, rc), t, g); var n := |t.l.shots|;
            && g'.now == Book(Tried(op, s.lib.live, t.lib.live, path, g.now.w), Acked(op, rc, s.lib.live, path, g.now.held))
            && |g'.media| == n && g.media <= g'.media
            && (|g.media| < n ==> g'.media[n - 1] == g'.now)
            && forall i :: |g.media| <= i < n - 1 ==> g'.media[i] == Book(g'.now.w, g.now.held)
  {
    hide Tried, Acked;
  }

  lemma {:induction false} DidFacts(f: Format, c: Codec, s: Snap, op: Op, rc: Status, t: Snap)
    requires MemoryOk(f, c, s) && MediaOk(f, c, s) && DidStep(f, c, s, op, rc, t)
    ensures t.up && OpDone(f, c, s.l, s.lib, op, rc, t.l, t.lib) && s.l.shots <= t.l.shots && s.l.cap == CapOf(|s.l.media|)
    ensures Adds(f, s.l, t.l, t.lib) && LiveAfter(f, op, s.lib, t.lib) && s.l.recs <= t.l.recs <= t.l.landed
    ensures forall i :: |s.l.shots| <= i < |t.l.shots| ==> s.l.recs <= t.l.shots[i].recs
    ensures t.l.shots != [] && t.l.shots[|t.l.shots| - 1].recs == t.l.landed
  {
    hide HasTree, Shown, LibWith, OpOk, OpLater, LiveAfter, Effect, StaysYoung, VolOk, CoreOf, MediaOk;
    VolFacts(f, s.l, s.lib);
    VolFacts(f, t.l, t.lib);
    DidMore(f, c, s, op, rc, t);
  }

  lemma {:induction false} DidBooks(f: Format, c: Codec, s: Snap, op: Op, rc: Status, t: Snap, path: Bytes, g: Ledger)
    requires MemoryOk(f, c, s) && MediaOk(f, c, s) && DidStep(f, c, s, op, rc, t) && LedgerOk(f, s, path, g) && EventOk(path, s, Did(op, rc)) && s.up
    ensures LedgerOk(f, t, path, Entered(path, s, Did(op, rc), t, g))
  {
    hide MemoryOk, MediaOk, DidStep, OpDone, LiveAfter, Chronicle, Tried, Acked, ShotKeeps, Promised, NextVersion, Adds, Entered;
    var n, m, g' := |s.l.shots|, |t.l.shots|, Entered(path, s, Did(op, rc), t, g);
    DidFacts(f, c, s, op, rc, t);
    DidEntries(path, s, op, rc, t, g);
    OpKeepsVersions(f, s.l, t.l, s.lib, t.lib, op, path, g.now.w);
    DidPromise(f, c, s, op, rc, t, path, g);
    forall i | n <= i < m ensures BookOk(f, t.l.shots[i], path, g'.media[i]) {
      PromiseStays(f, s.l, s.lib, t.lib, op, path, g.now, t.l.shots[i].recs);
    }
    forall i | 0 <= i < n ensures BookOk(f, t.l.shots[i], path, g'.media[i]) { assert t.l.shots[i] == s.l.shots[i]; }
    if n == m { AckGrows(f, c, s, op, rc, t, path, g); }
  }

  /** The book a call returns with is true of memory and of the present medium. */
  lemma {:induction false} DidPromise(f: Format, c: Codec, s: Snap, op: Op, rc: Status, t: Snap, path: Bytes, g: Ledger)
    requires MemoryOk(f, c, s) && MediaOk(f, c, s) && DidStep(f, c, s, op, rc, t) && LedgerOk(f, s, path, g) && EventOk(path, s, Did(op, rc)) && s.up
    ensures var now := Entered(path, s, Did(op, rc), t, g).now; Promised(f, t.l.recs, path, now) && Promised(f, t.l.landed, path, now)
  {
    hide MemoryOk, MediaOk, DidStep, OpDone, LiveAfter, Chronicle, InLog, BookOk, NextVersion, Adds, Entered;
    DidFacts(f, c, s, op, rc, t);
    DidEntries(path, s, op, rc, t, g);
    PromiseStays(f, s.l, s.lib, t.lib, op, path, g.now, t.l.recs);
    PromiseStays(f, s.l, s.lib, t.lib, op, path, g.now, t.l.landed);
    if Puts(op, path).Some? && rc == OK {
      AckHolds(f, c, s.l, t.l, s.lib, t.lib, op, path, g.now.w);
      HoldsMore(f, t.l.recs, t.l.landed, path, NextVersion(s.lib.live, path));
    }
  }

  lemma {:induction false} AckGrows(f: Format, c: Codec, s: Snap, op: Op, rc: Status, t: Snap, path: Bytes, g: Ledger)
    requires DidStep(f, c, s, op, rc, t) && |s.l.shots| == |t.l.shots|
    ensures Entered(path, s, Did(op, rc), t, g).now.held == g.now.held
  {
    hide HasTree, VolOk, Between, LiveAfter, Effect, OpOk, OpLater, LibWith;
  }

  // ---------------------------------------------------------------- compactions

  /** The compacted log holds the live row and no other version. */
  lemma {:induction false} ResealedChronicle(f: Format, cap: nat, start: nat, recs: seq<Rec>, lib: Library, path: Bytes, w: map<nat, Bytes>)
    requires Resealed(f, cap, start, recs, lib, lib.idx.Keys) && UniqueNames(lib.live) && RowKept(f, lib.live, path, w, lib.idx)
    ensures Chronicle(f, cap, start, recs, LibOf(CoreOf(f, cap, start, recs)), path, w) && Committed(recs) == recs
    ensures Row(lib.live, path).Some? ==> InLog(f, recs, path, Row(lib.live, path).value.version)
  {
    hide CoreOf, Row, UniqueNames, CommitsOf, RowKept, Committed;
    var ts := CommitsOf(f, recs);
    assert recs[..|recs|] == recs;
    ResealedShows(f, cap, start, recs, lib, lib.idx.Keys);
    forall j | 0 <= j < |ts| ensures ts[j].table == lib.live { var k := CommitOfEntry(f, cap, start, recs, j); }
    FollowsSelf(path, lib.live);
    assert Hist(path, ts);
    forall k | 0 < k <= |recs| && recs[k - 1].kind == REC_COMMIT
      ensures var d := CoreOf(f, cap, start, recs[..k]); RowKept(f, d.live, path, w, d.idx)
    {
      KeptIndex(f, lib.live, path, w, lib.idx, CoreOf(f, cap, start, recs[..k]).idx);
    }
    KeptIndex(f, lib.live, path, w, lib.idx, CoreOf(f, cap, start, recs).idx);
    if Row(lib.live, path).Some? { HoldsShown(f, cap, start, recs, path); }
  }

  lemma {:induction false} PackedEntries(path: Bytes, s: Snap, rc: Status, p: Passage, t: Snap, g: Ledger)
    requires |g.media| == |s.l.shots| && |t.l.shots| == |s.l.shots| + |p.trail| && p.pre <= |p.trail|
    ensures var g' := Entered(path, s, Packed(rc, p), t, g); var packed := Book(g.now.w, Kept1(s.lib.live, path, g.now.held)); var n := |g.media|;
            && |g'.media| == |t.l.shots| && g.media <= g'.media
            && g'.now == (if p.pre < |p.trail| then packed else g.now)
            && (forall i :: n <= i < n + p.pre ==> g'.media[i] == g.now)
            && (forall i :: n + p.pre <= i < |t.l.shots| ==> g'.media[i] == packed)
  {
    hide Kept1;
  }

  /** What a compaction still promises. */
  lemma {:induction false} PackedPromise(f: Format, s: Snap, recs: seq<Rec>, path: Bytes, b: Book)
    requires Promised(f, s.l.recs, path, b)
    requires Row(s.lib.live, path).Some? ==> InLog(f, recs, path, Row(s.lib.live, path).value.version)
    ensures Promised(f, recs, path, Book(b.w, Kept1(s.lib.live, path, b.held)))
  {
    hide InLog, Row;
  }

  lemma {:induction false} PackedFacts(f: Format, c: Codec, s: Snap, rc: Status, p: Passage, t: Snap)
    requires MemoryOk(f, c, s) && PackedStep(f, s, rc, p, t)
    ensures s.l.landed == s.l.recs && s.l.cap == CapOf(|s.l.media|) && p.pre <= |p.trail|
    ensures forall i :: 0 <= i < |p.trail| ==> |p.trail[i]| == |s.l.media|
    ensures p.pre < |p.trail| ==> Resealed(f, s.l.cap, p.start, p.recs, s.lib, s.lib.idx.Keys)
    ensures rc == OK ==> p.pre < |p.trail| && t.l.recs == p.recs && t.l.logStart == p.start && t.l.cap == s.l.cap
                         && t.lib == LibOf(CoreOf(f, s.l.cap, p.start, Committed(p.recs)))
    ensures rc != OK ==> t.l == s.l.(media := t.l.media, shots := t.l.shots) && t.lib == s.lib
    ensures t.up == (rc == OK || p.pre == |p.trail|)
  {
    hide VolOk, HasTree, ShotsOk, CompactLater, Young, MountOf, ShowsCompacted, Resealed, CompactQuiet, ValidCommit, Readable, BlockGet, Primary, Shown,
         CoreOf, Committed;
    VolFacts(f, s.l, s.lib);
    AllReadable(f, s.l, s.lib);
  }

  lemma {:induction false} PackedBooks(f: Format, c: Codec, s: Snap, rc: Status, p: Passage, t: Snap, path: Bytes, g: Ledger)
    requires MemoryOk(f, c, s) && s.up && PackedStep(f, s, rc, p, t) && LedgerOk(f, s, path, g)
    ensures LedgerOk(f, t, path, Entered(path, s, Packed(rc, p), t, g))
  {
    hide MemoryOk, PackedStep, Resealed, Promised, Entered, Kept1, CoreOf, Committed, Archive, Hist, Reaches, RowKept, CapOf, ShotsOk;
    var n, g' := |s.l.shots|, Entered(path, s, Packed(rc, p), t, g);
    PackedFacts(f, c, s, rc, p, t);
    PackedShots(f, c, s, rc, p, t);
    PackedEntries(path, s, rc, p, t, g);
    UniqueLive(f, s.l, s.lib, path, g.now.w);
    if p.pre < |p.trail| {
      ResealedChronicle(f, s.l.cap, p.start, p.recs, s.lib, path, g.now.w);
      PackedPromise(f, s, p.recs, path, g.now);
    }
    RemountChronicle(f, s.l.cap, s.l.logStart, s.l.recs, s.lib, path, g.now.w);
    forall i | 0 <= i < |t.l.shots| ensures BookOk(f, t.l.shots[i], path, g'.media[i]) {
      if i < n { assert t.l.shots[i] == s.l.shots[i]; }
    }
  }

  lemma {:induction false} UniqueLive(f: Format, l: LogState, lib: Library, path: Bytes, w: map<nat, Bytes>)
    requires Chronicle(f, l.cap, l.logStart, l.recs, lib, path, w)
    ensures UniqueNames(lib.live)
  {
  }

  // ---------------------------------------------------------------- formats and power losses

  lemma {:induction false} FormattedEntries(path: Bytes, s: Snap, rc: Status, t: Snap, g: Ledger)
    requires |g.media| == |s.l.shots| <= |t.l.shots|
    ensures var g' := Entered(path, s, Formatted(rc), t, g);
            && g'.now == (if rc == INVAL then g.now else EMPTY_BOOK) && |g'.media| == |t.l.shots| && g.media <= g'.media
            && forall i :: |g.media| <= i < |t.l.shots| ==> g'.media[i] == EMPTY_BOOK
  {
  }

  lemma {:induction false} FormattedFacts(f: Format, s: Snap, rc: Status, t: Snap)
    requires FormattedStep(f, s, rc, t)
    ensures s.l.shots <= t.l.shots && t.up == (rc == OK || (rc == INVAL && s.up)) && (rc == INVAL ==> t.l == s.l && t.lib == s.lib)
    ensures forall i :: |s.l.shots| <= i < |t.l.shots| ==>
              t.l.shots[i].start == 1 && Grown(f, CapOf(|t.l.shots[i].media|), 1, [], t.l.shots[i].recs, EmptyLibrary(f))
    ensures rc == OK ==> t.lib == EmptyLibrary(f) && t.l.logStart == 1 && Grown(f, t.l.cap, 1, [], t.l.recs, EmptyLibrary(f))
    ensures rc == OK ==> |s.l.shots| < |t.l.shots| && t.l.shots[|t.l.shots| - 1] == NowOf(t.l)
  {
    hide FormatReady, ShotsOk, Shown, VolOk, LibWith, Young, RowsLater, EmptyLibrary, Grown, NextEpoch, Primary;
  }

  lemma {:induction false} FormattedBooks(f: Format, s: Snap, rc: Status, t: Snap, path: Bytes, g: Ledger)
    requires FormattedStep(f, s, rc, t) && LedgerOk(f, s, path, g)
    ensures LedgerOk(f, t, path, Entered(path, s, Formatted(rc), t, g))
  {
    hide FormattedStep, Entered, Grown, EmptyLibrary, Chronicle, CoreOf, Committed, InLog, CapOf;
    var n, g' := |s.l.shots|, Entered(path, s, Formatted(rc), t, g);
    FormattedFacts(f, s, rc, t);
    FormattedEntries(path, s, rc, t, g);
    forall i | 0 <= i < |t.l.shots| ensures BookOk(f, t.l.shots[i], path, g'.media[i]) {
      if i < n {
        assert t.l.shots[i] == s.l.shots[i];
      } else {
        var b := t.l.shots[i];
        EmptyChronicle(f, CapOf(|b.media|), 1, b.recs, path);
        RemountChronicle(f, CapOf(|b.media|), 1, b.recs, EmptyLibrary(f), path, map[]);
      }
    }
    if rc == OK { EmptyChronicle(f, t.l.cap, 1, t.l.recs, path); }
  }

  lemma {:induction false} LostBooks(f: Format, s: Snap, k: nat, t: Snap, path: Bytes, g: Ledger)
    requires LostStep(f, s, k, t) && LedgerOk(f, s, path, g)
    ensures LedgerOk(f, t, path, Entered(path, s, Lost(k), t, g))
  {
    hide VolOk, Chronicle, CoreOf, Committed, InLog, CapOf;
    var b, book, g' := s.l.shots[k], g.media[k], Entered(path, s, Lost(k), t, g);
    assert BookOk(f, b, path, book);
    CommittedTwice(b.recs);
    forall v | v in book.held ensures InLog(f, t.l.recs, path, v) { HoldsMore(f, b.recs, b.recs, path, v); }
    forall i | 0 <= i < |t.l.shots| ensures BookOk(f, t.l.shots[i], path, g'.media[i]) {
      if i <= k { assert t.l.shots[i] == s.l.shots[i] && g'.media[i] == g.media[i]; }
    }
  }

  // ---------------------------------------------------------------- whole runs

  lemma {:induction false} StepBooks(f: Format, c: Codec, s: Snap, ev: Event, t: Snap, path: Bytes, g: Ledger)
    requires Inv(f, c, s) && Step(f, c, s, ev, t) && LedgerOk(f, s, path, g) && EventOk(path, s, ev)
    ensures LedgerOk(f, t, path, Entered(path, s, ev, t, g))
  {
    hide DidStep, PackedStep, FormattedStep, LostStep, LedgerOk, Entered, FormatOk, NodeOk, MediaOk, MemoryOk, EventOk;
    match ev
    case Did(op, rc) =>
      DidUp(f, c, s, op, rc, t);
      DidBooks(f, c, s, op, rc, t, path, g);
    case Packed(rc, p) =>
      PackedUp(f, s, rc, p, t);
      PackedBooks(f, c, s, rc, p, t, path, g);
    case Formatted(rc) =>
      FormattedBooks(f, s, rc, t, path, g);
    case Lost(k) =>
      LostBooks(f, s, k, t, path, g);
  }

  lemma {:induction false} DidUp(f: Format, c: Codec, s: Snap, op: Op, rc: Status, t: Snap)
    requires DidStep(f, c, s, op, rc, t)
    ensures s.up
  {
    hide OpDone, OpOk, OpLater;
  }

  /** The books are true in every state of every run in which the path is not unlinked and its
      version counter does not wrap. */
  lemma {:induction false} RunBooks(f: Format, c: Codec, ss: seq<Snap>, evs: seq<Event>, path: Bytes, n: nat)
    requires Run(f, c, ss, evs) && FormatOk(f) && NodeOk(f, c) && Blank(ss[0]) && n <= |evs|
    requires forall i :: 0 <= i < n ==> EventOk(path, ss[i], evs[i])
    ensures LedgerOk(f, ss[n], path, LedgerAt(path, ss, evs, n))
  {
    hide FormatOk, NodeOk, Step, Inv, Entered, EventOk, BookOk, NowOk;
    if n > 0 {
      var m := n - 1;
      RunBooks(f, c, ss, evs, path, m);
      BlankOk(f, c, ss[0]);
      RunKeeps(f, c, ss, evs, m);
      StepBooks(f, c, ss[m], evs[m], ss[m + 1], path, LedgerAt(path, ss, evs, m));
    }
  }

  /** Version history over runs, for every path that is not unlinked: in every mounted state
      ark_read_version returns, for each version whose write was acknowledged and that no power
      loss or compaction has taken back, exactly the bytes written; ark_history lists it; and
      whatever else it lists is a version some call tried to write, with its size. */
  lemma {:induction false} RunVersions(f: Format, c: Codec, ss: seq<Snap>, evs: seq<Event>, path: Bytes, n: nat)
    requires Run(f, c, ss, evs) && FormatOk(f) && NodeOk(f, c) && Blank(ss[0]) && n <= |evs| && ss[n].up
    requires forall i :: 0 <= i < n ==> EventOk(path, ss[i], evs[i])
    ensures var l, lib, b := ss[n].l, ss[n].lib, LedgerAt(path, ss, evs, n).now;
            var past := Commits(f, ViewOf(f, l.media, l.epoch), l.head, l.logStart);
            var rows := Listing(past, path, 0);
            && (forall v :: v in b.held ==> VersionRead(f, l.media, l.epoch, lib.idx, past, path, v) == Got(b.held[v]))
            && Increasing(rows, 0)
            && (forall v :: v in b.held ==> exists i :: 0 <= i < |rows| && rows[i].version == v)
            && (forall i :: 0 <= i < |rows| ==> rows[i].version in b.w && rows[i].size == |b.w[rows[i].version]|)
            && (forall r :: Row(lib.live, path).Some? && LatestGood(f, l.media, l.epoch, lib.idx, past, Row(lib.live, path).value, r) ==>
                  Row(lib.live, path).value.version in b.w && r == Got(b.w[Row(lib.live, path).value.version]))
  {
    hide FormatOk, NodeOk, Step, VolOk, Chronicle, Commits, ViewOf, Listing, VersionRead, LatestGood, Row, InLog, MediaOk, BookOk, Increasing, HasTree, LibWith,
         EventOk, LedgerAt;
    var s, l, lib, b := ss[n], ss[n].l, ss[n].lib, LedgerAt(path, ss, evs, n).now;
    var past := Commits(f, ViewOf(f, l.media, l.epoch), l.head, l.logStart);
    BlankOk(f, c, ss[0]);
    RunKeeps(f, c, ss, evs, n);
    RunBooks(f, c, ss, evs, path, n);
    forall v | v in b.held
      ensures VersionRead(f, l.media, l.epoch, lib.idx, past, path, v) == Got(b.held[v])
    {
      HeldReads(f, l, lib, path, b.w, v);
    }
    HistoryHolds(f, l, lib, path, b.w);
    forall r | Row(lib.live, path).Some? && LatestGood(f, l.media, l.epoch, lib.idx, past, Row(lib.live, path).value, r)
      ensures Row(lib.live, path).value.version in b.w && r == Got(b.w[Row(lib.live, path).value.version])
    {
      SoundRead(f, l, lib, path, b.w, past, r);
    }
  }

  /** No call on the path failed after it had changed the table, the power failed only while
      the volume was idle, and nothing was compacted. */
  ghost predicate Smooth(path: Bytes, s: Snap, ev: Event, t: Snap) {
    match ev
    case Did(op, rc) => Puts(op, path).Some? && t.lib.live != s.lib.live ==> rc == OK
    case Packed(_, _) => false
    case Formatted(_) => true
    case Lost(k) => k + 1 == |s.l.shots|
  }

  /** Then every version tried is a version held. */
  ghost predicate Level(g: Ledger) {
    g.now.w == g.now.held && (g.media != [] ==> g.media[|g.media| - 1].w == g.media[|g.media| - 1].held)
  }

  lemma {:induction false} StepLevel(f: Format, c: Codec, s: Snap, ev: Event, t: Snap, path: Bytes, g: Ledger)
    requires Inv(f, c, s) && Step(f, c, s, ev, t) && LedgerOk(f, s, path, g) && EventOk(path, s, ev)
    requires Level(g) && Smooth(path, s, ev, t)
    ensures Level(Entered(path, s, ev, t, g))
  {
    hide Entered, FormatOk, NodeOk, MediaOk, MemoryOk, OpDone, OpOk, OpLater, BookOk, Chronicle, Promised, NextVersion, FormattedStep;
    match ev
    case Did(op, rc) =>
      DidEntries(path, s, op, rc, t, g);
      if Puts(op, path).Some? && rc == OK { AckHolds(f, c, s.l, t.l, s.lib, t.lib, op, path, g.now.w); }
    case Formatted(rc) =>
      FormattedFacts(f, s, rc, t);
      FormattedEntries(path, s, rc, t, g);
    case Lost(k) =>
      LostEntries(path, s, k, t, g);
  }

  lemma {:induction false} LostEntries(path: Bytes, s: Snap, k: nat, t: Snap, g: Ledger)
    requires k < |g.media|
    ensures var g' := Entered(path, s, Lost(k), t, g); g'.now == g.media[k] && g'.media != [] && g'.media[|g'.media| - 1] == g.media[k]
  {
  }

  /** Then ark_history lists exactly the acknowledged versions. */
  lemma {:induction false} RunHistoryExact(f: Format, c: Codec, ss: seq<Snap>, evs: seq<Event>, path: Bytes, n: nat)
    requires Run(f, c, ss, evs) && FormatOk(f) && NodeOk(f, c) && Blank(ss[0]) && n <= |evs| && ss[n].up
    requires forall i :: 0 <= i < n ==> EventOk(path, ss[i], evs[i]) && Smooth(path, ss[i], evs[i], ss[i + 1])
    ensures var l, b := ss[n].l, LedgerAt(path, ss, evs, n).now;
            var rows := Listing(Commits(f, ViewOf(f, l.media, l.epoch), l.head, l.logStart), path, 0);
            && Increasing(rows, 0)
            && (forall v :: v in b.held <==> exists i :: 0 <= i < |rows| && rows[i].version == v)
            && (forall i :: 0 <= i < |rows| ==> rows[i].version in b.held && rows[i].size == |b.held[rows[i].version]|)
  {
    hide FormatOk, NodeOk, Step, Commits, ViewOf, Listing, VersionRead, LatestGood, Row, Increasing, EventOk, LedgerAt, Smooth;
    RunVersions(f, c, ss, evs, path, n);
    RunLevel(f, c, ss, evs, path, n);
  }

  lemma {:induction false} RunLevel(f: Format, c: Codec, ss: seq<Snap>, evs: seq<Event>, path: Bytes, n: nat)
    requires Run(f, c, ss, evs) && FormatOk(f) && NodeOk(f, c) && Blank(ss[0]) && n <= |evs|
    requires forall i :: 0 <= i < n ==> EventOk(path, ss[i], evs[i]) && Smooth(path, ss[i], evs[i], ss[i + 1])
    ensures Level(LedgerAt(path, ss, evs, n))
  {
    hide FormatOk, NodeOk, Step, Inv, Entered, EventOk, BookOk, NowOk, Smooth, LedgerOk;
    if n > 0 {
      var m := n - 1;
      RunLevel(f, c, ss, evs, path, m);
      RunBooks(f, c, ss, evs, path, m);
      BlankOk(f, c, ss[0]);
      RunKeeps(f, c, ss, evs, m);
      StepLevel(f, c, ss[m], evs[m], ss[m + 1], path, LedgerAt(path, ss, evs, m));
    }
  }

  /** ark_read_version at any mounted state of a run: the bytes of an acknowledged write. */
  method ReadHeld(v: Volume, path: Bytes, version: nat, ghost c: Codec, ghost ss: seq<Snap>, ghost evs: seq<Event>) returns (r: Result<Bytes>)
    requires Run(v.f, c, ss, evs) && FormatOk(v.f) && NodeOk(v.f, c) && Blank(ss[0])
    requires ss[|evs|].up && Matches(v, ss[|evs|]) && forall i :: 0 <= i < |evs| ==> EventOk(path, ss[i], evs[i])
    requires version in LedgerAt(path, ss, evs, |evs|).now.held
    ensures r == Got(LedgerAt(path, ss, evs, |evs|).now.held[version])
  {
    hide FormatOk, NodeOk, Step, Commits, ViewOf, Listing, VersionRead, LatestGood, Row, Increasing, EventOk, LedgerAt;
    RunVersions(v.f, c, ss, evs, path, |evs|);
    r := v.ReadVersion(path, version);
  }

  // ---------------------------------------------------------------- damage

  lemma {:induction false} ArchiveAll(f: Format, cap: nat, start: nat, recs: seq<Rec>, path: Bytes, w: map<nat, Bytes>)
    requires Archive(f, cap, start, Committed(recs), path, w)
    ensures Archive(f, cap, start, recs, path, w)
  {
    hide CoreOf, RowKept;
    var c := Committed(recs);
    forall k | 0 < k <= |recs| && recs[k - 1].kind == REC_COMMIT
      ensures var d := CoreOf(f, cap, start, recs[..k]); RowKept(f, d.live, path, w, d.idx)
    {
      assert k <= |c| && recs[..k] == c[..k] && recs[k - 1] == c[k - 1];
    }
  }

  /** Damage after any power loss of any run: if no payload on the medium imitates a header, then
      with any sectors damaged, as long as the superblock is still found, mount succeeds and every
      read of the path returns bytes some call of the run wrote under it, by version the bytes of that
      version, or an error. */
  lemma {:induction false} RunDamage(f: Format, c: Codec, ss: seq<Snap>, evs: seq<Event>, path: Bytes, n: nat, i: nat, m': Media)
    requires Run(f, c, ss, evs) && FormatOk(f) && NodeOk(f, c) && Blank(ss[0]) && n <= |evs| && i < |ss[n].l.shots|
    requires forall k :: 0 <= k < n ==> EventOk(path, ss[k], evs[k])
    requires var b := ss[n].l.shots[i];
             && (forall k :: 0 <= k < |b.recs| ==> Unlike(f, b.epoch, b.recs[k].payload))
             && Damaged(f, b.media, m', b.epoch, b.start, b.start + Spans(b.recs)) && SuperOf(f, m') == SuperOf(f, b.media)
    ensures |LedgerAt(path, ss, evs, n).media| == |ss[n].l.shots|
    ensures var u := MountOf(f, m');
            u.Up? && GenuineAnswers(f, m', u.epoch, u.core.idx, Commits(f, ViewOf(f, m', u.epoch), u.head, u.start), u.core.live, path,
                                    LedgerAt(path, ss, evs, n).media[i].w)
  {
    hide NodeOk, Step, Inv, EventOk, LedgerAt, Unlike, Damaged, SuperOf, MountOf, GenuineAnswers, Commits, ViewOf, Spans, LogInv, LibOk, Format.Sound,
         Format.Injective, Promised, NowOk, Archive, Hist, Reaches, RowKept, CommitsOf, Committed, Resyncs, Shown;
    var b, w := ss[n].l.shots[i], LedgerAt(path, ss, evs, n).media;
    BlankOk(f, c, ss[0]);
    RunKeeps(f, c, ss, evs, n);
    InvShots(f, c, ss[n]);
    RunBooks(f, c, ss, evs, path, n);
    assert ShotOk(f, b) && BookOk(f, b, path, w[i]);
    ArchiveAll(f, CapOf(|b.media|), b.start, b.recs, path, w[i].w);
    CommittedCommits(f, b.recs);
    LaidOf(f, b.media, b.epoch, b.start, b.recs);
    LaidResyncs(f, b.media, b.epoch, b.start, b.recs);
    DamagedReads(f, b, m', CapOf(|b.media|), path, w[i].w);
  }

  lemma {:induction false} LaidOf(f: Format, m: Media, e: nat, start: nat, recs: seq<Rec>)
    requires LogInv(f, m, e, start, recs)
    ensures Laid(f, m, e, start, recs)
  {
  }
}
