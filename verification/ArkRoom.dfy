/** Which calls fit: the result code of every call on a volume whose device writes without
    error. */
module ArkRoom {
  import opened ArkFormat
  import opened ArkLog
  import opened ArkCrash
  import opened ArkLibrary
  import opened ArkHistory
  import opened ArkCompaction
  import opened ArkTree
  import opened ArkMerkle
  import opened ArkSweep

  /** The code is v, unless the device refused a write: then it may be IO. */
  predicate Verdict(rc: Status, v: Status, errs: nat, errs': nat) { rc == v || (rc == IO && errs < errs') }

  /** The ids of these payloads. */
  ghost function IdsOf(f: Format, parts: seq<Bytes>): set<Id> {
    set i | 0 <= i < |parts| :: f.sha(parts[i])
  }

  /** Sectors taken by those of these blocks that are not stored yet, each once. */
  ghost function NewFoot(f: Format, known: set<Id>, parts: seq<Bytes>): nat {
    if parts == [] then 0
    else
      var k := |parts| - 1;
      NewFoot(f, known, parts[..k]) + if f.sha(parts[k]) in known + IdsOf(f, parts[..k]) then 0 else 1 + Sectors(|parts[k]|)
  }

  /** The log has sectors and the index has rows for those of these blocks that are new. */
  ghost predicate BlocksFit(f: Format, l: LogState, known: set<Id>, parts: seq<Bytes>) {
    l.head + NewFoot(f, known, parts) <= End(l.media) && |known + IdsOf(f, parts)| <= l.cap
  }

  /** The commit of these rows and this root fits at this head. */
  predicate CommitFits(f: Format, head: nat, end: int, sq: nat, rows: seq<Dent>, root: Id) {
    head + 1 + Sectors(|f.encCommit(Commit(Bump(sq), rows, root))|) <= end
  }

  function Fits(b: bool): Status { if b then OK else FULL }

  /** ark_block_put. */
  ghost function BlockVerdict(f: Format, l: LogState, known: set<Id>, buf: Bytes): Status {
    if |buf| > BLOCK_MAX then TOOBIG else Fits(f.sha(buf) in known || (l.head + 1 + Sectors(|buf|) <= End(l.media) && |known| < l.cap))
  }

  /** What ark_block_put did to head and index. */
  ghost predicate BlockDone(f: Format, a: LogState, la: Library, buf: Bytes, rc: Status, b: LogState, lb: Library, n: nat) {
    && |b.media| == |a.media| && b.cap == a.cap && n <= 1
    && a.head <= b.head <= a.head + 1 + Sectors(|buf|) && |lb.idx| <= |la.idx| + 1
    && (rc == OK ==> lb.idx.Keys == la.idx.Keys + {f.sha(buf)} && n == |lb.idx| - |la.idx|
                     && b.head == if f.sha(buf) in la.idx then a.head else a.head + 1 + Sectors(|buf|))
  }

  /** All these blocks are stored: where the head is and how many records that took. */
  ghost predicate BlocksStored(f: Format, l: LogState, lib: Library, parts: seq<Bytes>, head: nat, n: nat, idx: map<Id, nat>) {
    && BlocksFit(f, l, lib.idx.Keys, parts) && head == l.head + NewFoot(f, lib.idx.Keys, parts) && n == |IdsOf(f, parts) - lib.idx.Keys|
    && n <= |parts| && forall i :: 0 <= i < |parts| ==> f.sha(parts[i]) in idx
  }

  lemma {:induction false} StoredAll(f: Format, l: LogState, lib: Library, parts: seq<Bytes>, head: nat, n: nat, idx: map<Id, nat>)
    requires BlocksStored(f, l, lib, parts, head, n, idx)
    ensures n <= |parts| && forall i :: 0 <= i < |parts| ==> f.sha(parts[i]) in idx
  {
  }

  /** ark_write_file. */
  ghost function WriteVerdict(f: Format, l: LogState, lib: Library, path: Bytes, buf: Bytes): Status {
    if |path| >= NAME_MAX then INVAL
    else if Blocks(|buf|) > MAX_BLK then TOOBIG
    else
      var known, parts := lib.idx.Keys, Parts(buf);
      Fits(BlocksFit(f, l, known, parts)
           && (FindRow(lib.live, path) < 0 ==> |lib.live| < MAX_FILES)
           && ((forall i :: 0 <= i < |lib.live| ==> |lib.live[i].blk| == MAX_BLK) ==>
                 CommitFits(f, l.head + NewFoot(f, known, parts), End(l.media), BumpBy(l.sq, |IdsOf(f, parts) - known|),
                            PutRow(f, lib.live, path, buf), lib.mroot)))
  }

  /** The log ends with two copies of its last commit, or the second did not fit before `end`. */
  ghost predicate TwoCopies(start: nat, recs: seq<Rec>, end: int) {
    var n := |recs|;
    && n > 0 && recs[n - 1].kind == REC_COMMIT
    && ((n > 1 && recs[n - 2].kind == REC_COMMIT && recs[n - 2].payload == recs[n - 1].payload)
        || start + Spans(recs) + Span(recs[n - 1]) > end)
  }

  lemma {:induction false} OneCopy(start: nat, recs: seq<Rec>, r: Rec, end: int)
    requires r.kind == REC_COMMIT && start + Spans(recs) + Span(r) + Span(r) > end
    ensures TwoCopies(start, recs + [r], end)
  {
    SpansSnoc(recs, r);
  }

  lemma {:induction false} BothCopies(start: nat, recs: seq<Rec>, r: Rec, r2: Rec, end: int)
    requires r.kind == r2.kind == REC_COMMIT && r.payload == r2.payload
    ensures TwoCopies(start, recs + [r] + [r2], end)
  {
  }

  // ---------------------------------------------------------------- block by block

  /** After i of the blocks: which ids are stored, where the head is, how many records were written. */
  ghost predicate Filled(f: Format, l: LogState, known: set<Id>, parts: seq<Bytes>, i: nat, keys: set<Id>, head: nat, n: nat)
    requires i <= |parts|
  {
    && keys == known + IdsOf(f, parts[..i]) && n == |keys| - |known|
    && head == l.head + NewFoot(f, known, parts[..i]) && head <= End(l.media) && |keys| <= l.cap
  }

  lemma {:induction false} FillStarts(f: Format, l: LogState, known: set<Id>, parts: seq<Bytes>)
    requires l.head <= End(l.media) && |known| <= l.cap
    ensures Filled(f, l, known, parts, 0, known, l.head, 0)
  {
    assert known + IdsOf(f, parts[..0]) == known;
  }

  lemma {:induction false} NewNext(f: Format, known: set<Id>, parts: seq<Bytes>, i: nat)
    requires i < |parts|
    ensures known + IdsOf(f, parts[..i + 1]) == known + IdsOf(f, parts[..i]) + {f.sha(parts[i])}
    ensures NewFoot(f, known, parts[..i + 1])
         == NewFoot(f, known, parts[..i]) + if f.sha(parts[i]) in known + IdsOf(f, parts[..i]) then 0 else 1 + Sectors(|parts[i]|)
  {
    hide Sectors;
    var a, b := parts[..i], parts[..i + 1];
    assert b[..i] == a && b[i] == parts[i];
    assert forall j :: 0 <= j < i ==> a[j] == b[j];
  }

  /** What does not fit so far does not fit in all. */
  lemma {:induction false} NewMore(f: Format, known: set<Id>, parts: seq<Bytes>, i: nat)
    requires i <= |parts|
    ensures NewFoot(f, known, parts[..i]) <= NewFoot(f, known, parts) && |known + IdsOf(f, parts[..i])| <= |known + IdsOf(f, parts)|
    decreases |parts| - i
  {
    hide NewFoot, Sectors;
    if i == |parts| {
      assert parts[..i] == parts;
    } else {
      NewNext(f, known, parts, i);
      NewMore(f, known, parts, i + 1);
      var a, id := known + IdsOf(f, parts[..i]), f.sha(parts[i]);
      if id in a { assert a + {id} == a; }
    }
  }

  /** One more block: stored, or the sign that not all of them fit. */
  lemma {:induction false} FillNext(f: Format, l: LogState, known: set<Id>, parts: seq<Bytes>, i: nat, keys: set<Id>, n: nat,
                                    now: LogState, keys': set<Id>, head': nat, k: nat)
    requires i < |parts| && Filled(f, l, known, parts, i, keys, now.head, n) && |now.media| == |l.media| && now.cap == l.cap
    requires |parts[i]| <= BLOCK_MAX
    ensures var v := BlockVerdict(f, now, keys, parts[i]);
            && (v == OK || v == FULL) && (v == FULL ==> !BlocksFit(f, l, known, parts))
            && (v == OK && keys' == keys + {f.sha(parts[i])} && k == |keys'| - |keys|
                && head' == now.head + (if f.sha(parts[i]) in keys then 0 else 1 + Sectors(|parts[i]|)) ==>
                  Filled(f, l, known, parts, i + 1, keys', head', n + k))
  {
    hide NewFoot, IdsOf, Sectors;
    NewNext(f, known, parts, i);
    NewMore(f, known, parts, i + 1);
    var id := f.sha(parts[i]);
    if id in keys { assert keys + {id} == keys; }
  }

  lemma {:induction false} FillEnds(f: Format, l: LogState, known: set<Id>, parts: seq<Bytes>, keys: set<Id>, head: nat, n: nat)
    requires Filled(f, l, known, parts, |parts|, keys, head, n)
    ensures BlocksFit(f, l, known, parts) && head == l.head + NewFoot(f, known, parts) && n == |IdsOf(f, parts) - known|
    ensures forall i :: 0 <= i < |parts| ==> f.sha(parts[i]) in keys
  {
    hide NewFoot;
    assert parts[..|parts|] == parts;
    var ids := IdsOf(f, parts);
    assert known + ids == known + (ids - known);
  }

  /** The same with what the records written so far did to the volume. */
  ghost predicate Filling(f: Format, l: LogState, lib: Library, parts: seq<Bytes>, i: nat, now: LogState, nib: Library, n: nat)
    requires i <= |parts|
  {
    && Filled(f, l, lib.idx.Keys, parts, i, nib.idx.Keys, now.head, n) && |now.media| == |l.media| && now.cap == l.cap
    && n <= i && Grew(f, l, lib, now, nib, n, AllLater(f, l.epoch, parts))
  }

  lemma {:induction false} FillingStarts(f: Format, l: LogState, lib: Library, parts: seq<Bytes>)
    requires VolOk(f, l, lib) && |lib.idx| <= l.cap && l.head <= End(l.media)
    ensures Filling(f, l, lib, parts, 0, l, lib, 0)
  {
    hide VolOk, Grew, Filled, AllLater;
    assert |lib.idx.Keys| == |lib.idx|;
    FillStarts(f, l, lib.idx.Keys, parts);
    GrewNothing(f, l, lib, AllLater(f, l.epoch, parts));
  }

  lemma {:induction false} FillingNext(f: Format, l: LogState, lib: Library, parts: seq<Bytes>, i: nat, a: LogState, la: Library, n: nat,
                                       rc: Status, errs: nat, errs': nat, b: LogState, lb: Library, k: nat)
    requires i < |parts| && Filling(f, l, lib, parts, i, a, la, n) && |parts[i]| <= BLOCK_MAX
    requires Grew(f, a, la, b, lb, k, QuietLater(f, l.epoch, parts[i])) && BlockDone(f, a, la, parts[i], rc, b, lb, k)
    requires Verdict(rc, BlockVerdict(f, a, la.idx.Keys, parts[i]), errs, errs')
    ensures n + k <= i + 1 && |b.media| == |l.media| && Grew(f, l, lib, b, lb, n + k, AllLater(f, l.epoch, parts))
    ensures rc == OK ==> Filling(f, l, lib, parts, i + 1, b, lb, n + k)
    ensures rc != OK ==> Verdict(rc, Fits(BlocksFit(f, l, lib.idx.Keys, parts)), errs, errs')
  {
    hide Grew, Filled, BlocksFit, BlockVerdict, QuietLater, Sectors;
    assert |la.idx.Keys| == |la.idx| && |lb.idx.Keys| == |lb.idx|;
    FillNext(f, l, lib.idx.Keys, parts, i, la.idx.Keys, n, a, lb.idx.Keys, b.head, k);
    GrewTrans(f, l, lib, a, la, b, lb, n, k, AllLater(f, l.epoch, parts), QuietLater(f, l.epoch, parts[i]), AllLater(f, l.epoch, parts));
  }

  lemma {:induction false} FillingEnds(f: Format, l: LogState, lib: Library, parts: seq<Bytes>, now: LogState, nib: Library, n: nat, errs: nat)
    requires Filling(f, l, lib, parts, |parts|, now, nib, n)
    ensures Verdict(OK, Fits(BlocksFit(f, l, lib.idx.Keys, parts)), errs, errs) && BlocksStored(f, l, lib, parts, now.head, n, nib.idx)
    ensures |now.media| == |l.media| && n <= |parts| && Grew(f, l, lib, now, nib, n, AllLater(f, l.epoch, parts))
  {
    hide Grew, Filled, AllLater, BlocksFit;
    FillEnds(f, l, lib.idx.Keys, parts, nib.idx.Keys, now.head, n);
  }

  // ---------------------------------------------------------------- ark_write_file

  lemma {:induction false} WriteRefused(f: Format, l: LogState, lib: Library, path: Bytes, buf: Bytes, errs: nat)
    ensures |path| >= NAME_MAX ==> Verdict(INVAL, WriteVerdict(f, l, lib, path, buf), errs, errs)
    ensures |path| < NAME_MAX && Blocks(|buf|) > MAX_BLK ==> Verdict(TOOBIG, WriteVerdict(f, l, lib, path, buf), errs, errs)
    ensures |path| < NAME_MAX && Blocks(|buf|) <= MAX_BLK && FindRow(lib.live, path) < 0 && |lib.live| >= MAX_FILES ==>
              Verdict(FULL, WriteVerdict(f, l, lib, path, buf), errs, errs)
    ensures forall rc, v, e: nat :: Verdict(rc, v, e, e) ==> rc == v
  {
    hide BlocksFit, CommitFits, PutRow, Blocks, BumpBy, NewFoot, IdsOf;
  }

  lemma {:induction false} WriteStops(f: Format, l: LogState, lib: Library, path: Bytes, buf: Bytes, rc: Status, errs: nat, errs': nat)
    requires |path| < NAME_MAX && Blocks(|buf|) <= MAX_BLK && rc != OK
    requires Verdict(rc, Fits(BlocksFit(f, l, lib.idx.Keys, Parts(buf))), errs, errs')
    ensures Verdict(rc, WriteVerdict(f, l, lib, path, buf), errs, errs') && (rc == OK || rc == FULL || rc == IO)
  {
    hide BlocksFit, CommitFits, PutRow, Blocks;
  }

  lemma {:induction false} WriteEnds(f: Format, l: LogState, lib: Library, path: Bytes, buf: Bytes, now: LogState, idx: map<Id, nat>, n: nat,
                                     rc: Status, errs: nat, errs': nat)
    requires |path| < NAME_MAX && Blocks(|buf|) <= MAX_BLK && BlocksStored(f, l, lib, Parts(buf), now.head, n, idx)
    requires (FindRow(lib.live, path) < 0 ==> |lib.live| < MAX_FILES) && forall i :: 0 <= i < |lib.live| ==> |lib.live[i].blk| == MAX_BLK
    requires now.sq == BumpBy(l.sq, n) && |now.media| == |l.media|
    requires Verdict(rc, Fits(CommitFits(f, now.head, End(now.media), now.sq, PutRow(f, lib.live, path, buf), lib.mroot)), errs, errs')
    ensures Verdict(rc, WriteVerdict(f, l, lib, path, buf), errs, errs') && (rc == OK || rc == FULL || rc == IO)
  {
    hide BlocksFit, CommitFits, PutRow, Blocks, BumpBy, NewFoot, IdsOf;
  }

  // ---------------------------------------------------------------- ark_mtree_put

  /** k more blocks of any size fit. */
  predicate Slack(a: LogState, la: Library, k: nat) { a.head + 9 * k <= End(a.media) && |la.idx| + k <= a.cap }

  /** At most n records of a block each were written. */
  predicate Spent(a: LogState, la: Library, b: LogState, lb: Library, n: nat) {
    |b.media| == |a.media| && b.cap == a.cap && b.head <= a.head + 9 * n && |lb.idx| <= |la.idx| + n
  }

  /** One node of a tree put. */
  lemma {:induction false} SpendOne(f: Format, a: LogState, la: Library, buf: Bytes, rc: Status, errs: nat, errs': nat, b: LogState, lb: Library, n: nat,
                                    young: bool)
    requires |buf| <= BLOCK_MAX && BlockDone(f, a, la, buf, rc, b, lb, n) && Verdict(rc, BlockVerdict(f, a, la.idx.Keys, buf), errs, errs')
    requires Grew(f, a, la, b, lb, n, young)
    ensures NodesPut(f, a, la, b, lb, n, 1, young)
    ensures (rc == OK || rc == FULL || (rc == IO && errs < errs')) && (rc == FULL ==> !Slack(a, la, 1))
  {
    hide Grew;
    assert |la.idx.Keys| == |la.idx|;
  }

  /** ark_mtree_put where there is room for every node of the path and any commit. */
  function TreeVerdict(r: PutResult, buf: Bytes): Status {
    if |buf| > BLOCK_MAX then TOOBIG else match r case Done(_) => OK case Blocked => INVAL case Full => FULL
  }

  /** Room for the content, a node for each component and a commit of any size. */
  predicate Roomy(l: LogState, lib: Library, depth: nat) { Slack(l, lib, depth + 1) && l.head + 9 * (depth + 1) + 39 <= End(l.media) }

  /** At most d records of a block each were written, n of them completely. */
  ghost predicate NodesPut(f: Format, a: LogState, la: Library, b: LogState, lb: Library, n: nat, d: nat, young: bool) {
    n <= d && Spent(a, la, b, lb, d) && Grew(f, a, la, b, lb, n, young)
  }

  lemma {:induction false} NodesNone(f: Format, a: LogState, la: Library, d: nat, young: bool)
    requires VolOk(f, a, la)
    ensures NodesPut(f, a, la, a, la, 0, d, young)
  {
    hide VolOk, Grew;
    GrewNothing(f, a, la, young);
  }

  lemma {:induction false} NodesMore(f: Format, a: LogState, la: Library, b: LogState, lb: Library, c: LogState, lc: Library,
                                     n: nat, d: nat, y: bool, m: nat, k: nat, z: bool, all: nat, young: bool)
    requires NodesPut(f, a, la, b, lb, n, d, y) && NodesPut(f, b, lb, c, lc, m, k, z) && (young ==> y && z)
    ensures NodesPut(f, a, la, c, lc, n + m, d + k, young) && (d + k <= all ==> NodesPut(f, a, la, c, lc, n + m, all, young))
    ensures d + k <= all && Slack(a, la, all) ==> Slack(b, lb, k)
  {
    hide Grew;
    GrewTrans(f, a, la, b, lb, c, lc, n, m, y, z, young);
  }

  lemma {:induction false} NodesGrew(f: Format, a: LogState, la: Library, b: LogState, lb: Library, n: nat, d: nat, young: bool)
    requires NodesPut(f, a, la, b, lb, n, d, young)
    ensures n <= d && Grew(f, a, la, b, lb, n, young) && la.idx.Keys <= lb.idx.Keys
  {
    hide Grew;
    GrewIndex(f, a, la, b, lb, n, young);
  }

  /** The code of a tree put, or of a part of it that has failed; `room` if all its records fit. */
  predicate PutCode(rc: Status, r: PutResult, room: bool, errs: nat, errs': nat) {
    || (rc == OK && r.Done?) || (rc == INVAL && r == Blocked) || (rc == FULL && (r == Full || !room)) || (rc == IO && errs < errs')
  }

  /** The content block of a tree put. */
  lemma {:induction false} ContentPut(f: Format, a: LogState, la: Library, buf: Bytes, rc: Status, errs: nat, errs': nat, b: LogState, lb: Library, n: nat,
                                      r: PutResult, k: nat, young: bool)
    requires BlockDone(f, a, la, buf, rc, b, lb, n) && Verdict(rc, BlockVerdict(f, a, la.idx.Keys, buf), errs, errs') && |buf| <= BLOCK_MAX
    requires Grew(f, a, la, b, lb, n, young)
    ensures NodesPut(f, a, la, b, lb, n, 1, young)
    ensures rc != OK ==> PutCode(rc, r, Slack(a, la, k + 1), errs, errs')
  {
    hide Grew;
    assert |la.idx.Keys| == |la.idx|;
  }

  lemma {:induction false} NodesLess(f: Format, a: LogState, la: Library, b: LogState, lb: Library, n: nat, d: nat, young: bool, less: bool)
    requires NodesPut(f, a, la, b, lb, n, 1, young) && 1 <= d && (less ==> young)
    ensures NodesPut(f, a, la, b, lb, n, d, less) && la.idx.Keys <= lb.idx.Keys && lb.live == la.live && lb.mroot == la.mroot
  {
    hide VolOk, LibWith, BumpBy, Stacks;
    GrewLess(f, a, la, b, lb, n, young, less);
  }

  lemma {:induction false} RoomyCommit(f: Format, a: LogState, la: Library, b: LogState, lb: Library, n: nat, depth: nat, young: bool, root: Id)
    requires Roomy(a, la, depth) && NodesPut(f, a, la, b, lb, n, depth + 1, young) && FormatOk(f) && LibOk(f, lb.(mroot := root))
    ensures CommitFits(f, b.head, End(b.media), b.sq, lb.live, root)
  {
    hide FormatOk, RowsOk, Grew;
    CommitFacts(f, Commit(Bump(b.sq), lb.live, root));
  }

  lemma {:induction false} RoomySlack(l: LogState, lib: Library, depth: nat, rc: Status, r: PutResult, buf: Bytes, errs: nat, errs': nat)
    requires |buf| <= BLOCK_MAX && PutCode(rc, r, Slack(l, lib, depth + 1), errs, errs')
    ensures Roomy(l, lib, depth) ==> Verdict(rc, TreeVerdict(r, buf), errs, errs')
    ensures (rc == OK ==> r.Done?) && (rc == INVAL ==> r == Blocked) && rc != TOOBIG
  {
  }

  lemma {:induction false} PublishEnds(r: PutResult, buf: Bytes, fits: bool, rc: Status, errs: nat, mid: nat, errs': nat)
    requires r.Done? && |buf| <= BLOCK_MAX && errs <= mid && Verdict(rc, Fits(fits), mid, errs')
    ensures fits ==> Verdict(rc, TreeVerdict(r, buf), errs, errs')
    ensures rc == OK || rc == FULL || rc == IO
  {
  }

  // ---------------------------------------------------------------- ark_compact

  ghost predicate AllRead(f: Format, l: LogState, lib: Library) {
    forall id :: id in Named(lib.live) ==> BlockGet(f, l.media, l.epoch, lib.idx, id).Got?
  }

  /** Sectors the new log takes by the dry pass: the blocks listed and one commit. */
  ghost function DryFoot(f: Format, l: LogState, lib: Library, all: seq<Id>): nat {
    FootOf(f, l.media, l.epoch, lib.idx, all) + 1 + Sectors(|f.encCommit(Commit(Bump(l.sq), lib.live, lib.mroot))|)
  }

  ghost predicate RegionFits(l: LogState, foot: nat) { l.head + foot <= End(l.media) || 1 + foot <= l.logStart }

  /** ark_compact, `all` listing the blocks that read: CORRUPT and FULL as its checks say, IO if
      a record cannot be read, FULL if neither free region holds the new log. */
  ghost function CompactVerdict(f: Format, c: Codec, l: LogState, lib: Library, all: seq<Id>): Status {
    if !AllRead(f, l, lib) then CORRUPT
    else
      var walk := WalkTree(f, c, l.media, l.epoch, lib.idx, lib.mroot, Named(lib.live)).rc;
      if walk != OK then walk
      else if AnyFault(f, l.media, l.epoch, lib.idx) then IO
      else Fits(RegionFits(l, DryFoot(f, l, lib, all)))
  }

  /** The code of ark_compact, however the blocks that read are listed. */
  ghost predicate CompactCode(f: Format, c: Codec, l: LogState, lib: Library, rc: Status, errs: nat, errs': nat) {
    EvenCommits(f, lib.live, lib.mroot) ==>
      forall all :: Lists(all, Readable(f, l.media, l.epoch, lib.idx)) ==> Verdict(rc, CompactVerdict(f, c, l, lib, all), errs, errs')
  }

  /** A compaction refused by its dry passes. */
  lemma {:induction false} CodeEarly(f: Format, c: Codec, l: LogState, lib: Library, errs: nat)
    ensures !AllRead(f, l, lib) ==> CompactCode(f, c, l, lib, CORRUPT, errs, errs)
    ensures var walk := WalkTree(f, c, l.media, l.epoch, lib.idx, lib.mroot, Named(lib.live)).rc;
            && (AllRead(f, l, lib) && walk != OK ==> CompactCode(f, c, l, lib, walk, errs, errs))
            && (AllRead(f, l, lib) && walk == OK && AnyFault(f, l.media, l.epoch, lib.idx) ==> CompactCode(f, c, l, lib, IO, errs, errs))
  {
    hide AllRead, WalkTree, AnyFault, Readable, DryFoot, RegionFits, EvenCommits, Lists, Named;
  }

  lemma {:induction false} FootAny(f: Format, l: LogState, lib: Library, ids: seq<Id>)
    requires Lists(ids, Readable(f, l.media, l.epoch, lib.idx))
    ensures forall all :: Lists(all, Readable(f, l.media, l.epoch, lib.idx)) ==> DryFoot(f, l, lib, all) == DryFoot(f, l, lib, ids)
  {
    hide Lists, Readable, FootOf;
    forall all | Lists(all, Readable(f, l.media, l.epoch, lib.idx)) ensures DryFoot(f, l, lib, all) == DryFoot(f, l, lib, ids) {
      FootSame(f, l.media, l.epoch, lib.idx, all, ids, Readable(f, l.media, l.epoch, lib.idx));
    }
  }

  /** One that found no room, and one that ran. */
  lemma {:induction false} CodeLate(f: Format, c: Codec, l: LogState, lib: Library, ids: seq<Id>, rc: Status, errs: nat, errs': nat)
    requires AllRead(f, l, lib) && WalkTree(f, c, l.media, l.epoch, lib.idx, lib.mroot, Named(lib.live)).rc == OK
    requires !AnyFault(f, l.media, l.epoch, lib.idx) && Lists(ids, Readable(f, l.media, l.epoch, lib.idx))
    requires EvenCommits(f, lib.live, lib.mroot) ==> Verdict(rc, Fits(RegionFits(l, DryFoot(f, l, lib, ids))), errs, errs')
    ensures CompactCode(f, c, l, lib, rc, errs, errs')
  {
    hide AllRead, WalkTree, AnyFault, Readable, DryFoot, RegionFits, EvenCommits, Lists, Named, Verdict;
    FootAny(f, l, lib, ids);
  }

  /** The write pass fits where the dry pass said so. */
  lemma {:induction false} PassFits(f: Format, l: LogState, lib: Library, s0: nat, lim: nat, ids: seq<Id>)
    requires EvenCommits(f, lib.live, lib.mroot) && s0 + DryFoot(f, l, lib, ids) <= lim
    ensures !PassFull(f, l, lib, s0, lim, ids)
  {
    hide FootOf, Readable, Bump, BumpBy;
  }
}
