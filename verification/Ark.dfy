/** The mounted filesystem of arkfs.c: its file-static state as a class, the operations
    that append to the log, and the invariant that every medium a power loss could leave,
    after every single sector write, remounts to the library of the last landed commit. */
module Ark {
  import opened Wrappers
  import opened ArkFormat
  import opened ArkLog
  import opened ArkCrash
  import opened ArkLibrary
  import opened ArkCompaction
  import opened ArkHistory
  import opened ArkTree
  import opened ArkMerkle
  import opened ArkFresh
  import opened ArkSweep
  import opened ArkRoom
  import ArkLimits

  class Volume {
    const f: Format
    var media: Media
    var up: bool
    var logStart: nat
    var head: nat
    var sq: nat
    var epoch: nat
    var limit: nat                 // g_log_end_override; 0 = the usable end
    var live: seq<Dent>
    var mroot: Id
    var idx: map<Id, nat>
    var cap: nat
    ghost var errs: nat            // sector writes the device has refused
    ghost var recs: seq<Rec>       // the records of [logStart, head)
    ghost var landed: seq<Rec>     // the records the medium holds
    ghost var shots: seq<Shot>     // the medium after every sector write so far

    ghost function Log(): LogState reads this {
      LogState(media, epoch, logStart, head, sq, cap, recs, landed, shots)
    }

    ghost predicate Logged() reads this { up && limit == 0 && LogOk(f, Log()) }

    ghost function Current(): Library reads this { Library(live, mroot, idx) }

    ghost predicate Valid() reads this { up && limit == 0 && VolOk(f, Log(), Current()) }

    /** The library of the last commit in the log known to memory. */
    ghost function Durable(): Library reads this { LibWith(f, Log(), recs) }

    /** The library once r is behind the log. */
    ghost function With(r: Rec): Library reads this { LibWith(f, Log(), recs + [r]) }

    /** dev_write: the device may report an error and leave the sector alone. */
    method DevWrite(q: nat, d: Bytes) returns (ok: bool)
      requires q < |media|
      modifies `media, `errs
      ensures media == if ok then old(media)[q := Sec(d)] else old(media)
      ensures errs == if ok then old(errs) else old(errs) + 1
    {
      ok := *;
      if ok { media := media[q := Sec(d)]; } else { errs := errs + 1; }
    }

    /** The write loop of emit_record. */
    method WriteSectors(pos: nat, img: seq<Bytes>) returns (ok: bool, ghost trail: seq<Media>)
      requires pos + |img| <= |media|
      modifies `media, `errs
      ensures |trail| <= |img| && (ok <==> |trail| == |img|)
      ensures errs == if ok then old(errs) else old(errs) + 1
      ensures forall i :: 0 <= i < |trail| ==> Landed(old(media), trail[i], pos, img, i + 1)
      ensures media == if trail == [] then old(media) else trail[|trail| - 1]
    {
      trail := [];
      ok := true;
      var k := 0;
      while k < |img|
        invariant k <= |img| && |trail| == k && errs == old(errs)
        invariant Landed(old(media), media, pos, img, k)
        invariant forall i :: 0 <= i < k ==> Landed(old(media), trail[i], pos, img, i + 1)
        invariant media == if trail == [] then old(media) else trail[|trail| - 1]
      {
        ok := DevWrite(pos + k, img[k]);
        if !ok { return; }
        k := k + 1;
        trail := trail + [media];
      }
    }

    /** emit_record: header first, then the payload sectors, then the head moves. */
    method Emit(r: Rec) returns (rc: Status, ghost trail: seq<Media>)
      requires |media| >= 2 && limit <= |media| - 1
      modifies `media, `errs, `head, `sq
      ensures rc == OK || rc == FULL || rc == IO
      ensures rc == FULL <==> old(head) + Span(r) > (if limit != 0 then limit else |old(media)| - 1)
      ensures rc == FULL ==> trail == []
      ensures errs == if rc == IO then old(errs) + 1 else old(errs)
      ensures |trail| <= Span(r) && (rc == OK <==> |trail| == Span(r))
      ensures head == if |trail| == Span(r) then old(head) + Span(r) else old(head)
      ensures sq == if |trail| == Span(r) then Bump(old(sq)) else old(sq)
      ensures forall i :: 0 <= i < |trail| ==> Landed(old(media), trail[i], old(head), Image(f, epoch, r), i + 1)
      ensures media == if trail == [] then old(media) else trail[|trail| - 1]
    {
      trail := [];
      var lim := if limit != 0 then limit else |media| - 1;
      if head + Span(r) > lim { return FULL, []; }
      var ok;
      ok, trail := WriteSectors(head, Image(f, epoch, r));
      if !ok { return IO, trail; }
      sq := Bump(sq);
      head := head + Span(r);
      rc := OK;
    }

    /** emit_record on the live log, with the ghost account of what the medium then holds. */
    method EmitLive(r: Rec) returns (rc: Status, ghost trail: seq<Media>)
      requires |media| >= 2 && limit == 0
      modifies `media, `errs, `head, `sq, `recs, `landed, `shots
      ensures rc == OK || rc == FULL || rc == IO
      ensures |trail| <= Span(r) && (rc == OK <==> |trail| == Span(r))
      ensures rc == FULL <==> old(head) + Span(r) > End(old(media))
      ensures trail == [] || old(head) + Span(r) <= End(old(media))
      ensures errs == if rc == IO then old(errs) + 1 else old(errs)
      ensures forall i :: 0 <= i < |trail| ==> Landed(old(media), trail[i], old(head), Image(f, epoch, r), i + 1)
      ensures Log() == AfterTrail(f, old(Log()), r, trail)
    {
      ghost var l := Log();
      rc, trail := Emit(r);
      ghost var l' := AfterTrail(f, l, r, trail);
      recs, landed, shots := l'.recs, l'.landed, l'.shots;
    }

    /** The record the next append of this payload writes. */
    ghost function Next(kind: nat, payload: Bytes): Rec reads this { Rec(kind, Bump(sq), payload) }

    /** emit_record on the live log: every sector written leaves a recoverable medium. */
    method Append(kind: nat, payload: Bytes) returns (rc: Status)
      requires Logged() && kind < U32 && |payload| <= COMMIT_MAX && Quiet(f, epoch, payload)
      requires LibOk(f, With(Next(kind, payload)))
      modifies `media, `errs, `head, `sq, `recs, `landed, `shots
      ensures Logged() && |media| == |old(media)|
      ensures rc == OK || rc == FULL || rc == IO
      ensures recs == if rc == OK then old(recs) + [old(Next(kind, payload))] else old(recs)
      ensures rc == OK ==> landed == recs
      ensures sq == if rc == OK then Bump(old(sq)) else old(sq)
      ensures head == if rc == OK then old(head) + 1 + Sectors(|payload|) else old(head)
      ensures rc == FULL <==> old(head) + 1 + Sectors(|payload|) > End(old(media))
      ensures errs == if rc == IO then old(errs) + 1 else old(errs)
      ensures kind != REC_COMMIT ==> Stacks(f, old(Log()), Log(), QuietLater(f, epoch, payload))
      ensures kind == REC_COMMIT ==> Between(f, old(Log()), Log(), old(With(Next(kind, payload))), QuietLater(f, epoch, payload))
      ensures |old(shots)| <= |shots| && (rc == OK ==> |old(shots)| < |shots|)
    {
      hide LogOk, LibOk, LibWith, Quiet, Landed, Image, TrailShots, Adds, AddsBlocks, QuietLater, StaysYoung, Between, Stacks;
      var r := Rec(kind, Bump(sq), payload);
      ghost var l := Log();
      LogFacts(f, l);
      ghost var trail;
      rc, trail := EmitLive(r);
      AppendKeeps(f, l, r, trail);
      Appended(f, l, r, trail);
    }

    /** The part of ark_block_put for a block that is not stored yet. */
    method StoreNew(buf: Bytes) returns (rc: Status, ghost n: nat)
      requires Valid() && Quiet(f, epoch, buf) && |buf| <= BLOCK_MAX && f.sha(buf) !in idx
      modifies `media, `errs, `head, `sq, `recs, `landed, `shots, `idx
      ensures Valid() && n <= 1 && |media| == |old(media)|
      ensures Verdict(rc, Fits(old(head) + 1 + Sectors(|buf|) <= End(old(media)) && |old(idx)| < cap), old(errs), errs)
      ensures old(errs) <= errs && (rc != IO ==> errs == old(errs))
      ensures (forall id :: id in old(idx) ==> id in idx && idx[id] == old(idx)[id]) && |idx| <= |old(idx)| + 1
      ensures rc == OK ==> idx.Keys == old(idx).Keys + {f.sha(buf)} && |idx| == |old(idx)| + 1 && n == 1
      ensures head == if n == 1 then old(head) + 1 + Sectors(|buf|) else old(head)
      ensures Grew(f, old(Log()), old(Current()), Log(), Current(), n, QuietLater(f, epoch, buf))
    {
      hide LogOk, LibOk, Quiet, CoreOf, Committed, QuietLater, Stacks, Between, BumpBy, Grew;
      LogFacts(f, Log());
      n := 0;
      ghost var l, r := Log(), Next(REC_BLOCK, buf);
      var start := head;
      BlockEffect(f, cap, logStart, recs, r);
      rc := Append(REC_BLOCK, buf);
      if rc == OK {
        n := 1;
        BlockKeeps(f, l, Log(), Current(), r);
        if |idx| >= cap { rc := FULL; }
        idx := IdxAdd(idx, cap, f.sha(buf), start);
      }
      GrewOne(f, l, old(Current()), Log(), Current(), n, QuietLater(f, epoch, buf));
    }

    /** ark_block_put: content-addressed, deduplicated, not yet committed. */
    method BlockPut(buf: Bytes) returns (rc: Status, ghost n: nat)
      requires Valid() && Quiet(f, epoch, buf)
      modifies `media, `errs, `head, `sq, `recs, `landed, `shots, `idx
      ensures Valid() && Durable() == old(Durable())
      ensures rc == TOOBIG <==> |buf| > BLOCK_MAX
      ensures Verdict(rc, BlockVerdict(f, old(Log()), old(idx).Keys, buf), old(errs), errs)
      ensures old(errs) <= errs && (rc != IO ==> errs == old(errs))
      ensures BlockDone(f, old(Log()), old(Current()), buf, rc, Log(), Current(), n) && (rc == OK ==> f.sha(buf) in idx)
      ensures forall id :: id in old(idx) ==> id in idx && idx[id] == old(idx)[id]
      ensures n <= 1 && Grew(f, old(Log()), old(Current()), Log(), Current(), n, QuietLater(f, epoch, buf))
    {
      hide VolOk, Quiet, QuietLater, Grew, LibWith;
      GrewNothing(f, Log(), Current(), QuietLater(f, epoch, buf));
      n := 0;
      if |buf| > BLOCK_MAX { return TOOBIG, n; }
      if f.sha(buf) in idx { return OK, n; }
      ghost var l, lib := Log(), Current();
      rc, n := StoreNew(buf);
      GrewDurable(f, l, lib, Log(), Current(), n, QuietLater(f, epoch, buf));
    }

    /** commit_live_ex: the first copy is the visibility point, the second is best effort. */
    method CommitLive(replicate: bool) returns (rc: Status)
      requires Valid() && RowsQuiet(f, epoch, sq, 0, live, mroot)
      modifies `media, `errs, `head, `sq, `recs, `landed, `shots
      ensures Valid() && |media| == |old(media)|
      ensures Verdict(rc, Fits(CommitFits(f, old(head), End(old(media)), old(sq), live, mroot)), old(errs), errs) && old(errs) <= errs
      ensures Durable() == if rc == OK then Current() else old(Durable())
      ensures rc == OK && replicate && errs == old(errs) ==> TwoCopies(logStart, recs, End(media))
      ensures Between(f, old(Log()), Log(), Current(), RowsLater(f, epoch, old(sq), 0, live, mroot))
      ensures |old(shots)| <= |shots| && (rc == OK ==> |old(shots)| < |shots|)
    {
      hide TwoCopies, Spans, LogOk, Named, Quiet, CoreOf, Committed, FormatOk, RowsOk, QuietLater, Between, Stacks, RowsQuiet, RowsLater;
      var c := Commit(Bump(sq), live, mroot);
      var pay := f.encCommit(c);
      LogFacts(f, Log());
      CommitFacts(f, c);
      RowsHere(f, epoch, sq, live, mroot);
      ghost var l, r := Log(), Next(REC_COMMIT, pay);
      CommitEffect(f, cap, logStart, recs, r, c);
      ghost var was, end := recs, End(media);
      LogFacts(f, l);
      rc := Append(REC_COMMIT, pay);
      CommitKeeps(f, l, Log(), Current(), r, c);
      if rc != OK { return; }
      if replicate {
        l, r := Log(), Next(REC_COMMIT, pay);
        CommitEffect(f, cap, logStart, recs, r, c);
        var ignored := Append(REC_COMMIT, pay);
        CommitKeeps(f, l, Log(), Current(), r, c);
        if ignored == OK { BothCopies(logStart, was, Rec(REC_COMMIT, l.sq, pay), r, end); }
        if ignored == FULL { OneCopy(logStart, was, Rec(REC_COMMIT, l.sq, pay), end); }
        BetweenTrans(f, old(Log()), l, Log(), Current(), QuietLater(f, epoch, pay));
      }
    }

    /** ark_checkpoint. */
    method Checkpoint() returns (rc: Status)
      requires Valid() && RowsQuiet(f, epoch, sq, 0, live, mroot)
      modifies `media, `errs, `head, `sq, `recs, `landed, `shots
      ensures Verdict(rc, Fits(CommitFits(f, old(head), End(old(media)), old(sq), live, mroot)), old(errs), errs) && old(errs) <= errs
      ensures Valid() && Durable() == if rc == OK then Current() else old(Durable())
      ensures rc == OK && errs == old(errs) ==> TwoCopies(logStart, recs, End(media))
      ensures Between(f, old(Log()), Log(), Current(), RowsLater(f, epoch, old(sq), 0, live, mroot))
      ensures |old(shots)| <= |shots| && (rc == OK ==> |old(shots)| < |shots|)
    {
      hide TwoCopies, VolOk, Verdict, CommitFits, Between, RowsQuiet, RowsLater, LibWith;
      rc := CommitLive(true);
    }

    /** Content blocks in order; nothing of this is visible before a commit. */
    method PutBlocks(parts: seq<Bytes>) returns (rc: Status, ghost n: nat)
      requires Valid() && forall i :: 0 <= i < |parts| ==> |parts[i]| <= BLOCK_MAX && Quiet(f, epoch, parts[i])
      modifies `media, `errs, `head, `sq, `recs, `landed, `shots, `idx
      ensures Valid() && Verdict(rc, Fits(BlocksFit(f, old(Log()), old(idx).Keys, parts)), old(errs), errs)
      ensures old(errs) <= errs && (rc != IO ==> errs == old(errs)) && |media| == |old(media)|
      ensures n <= |parts| && (rc == OK ==> BlocksStored(f, old(Log()), old(Current()), parts, head, n, idx))
      ensures Grew(f, old(Log()), old(Current()), Log(), Current(), n, AllLater(f, epoch, parts))
    {
      hide BlockDone, Verdict, VolOk, Quiet, LibWith, QuietLater, Grew, AllLater, BlocksFit, Filling, BlockVerdict, BlocksStored;
      ghost var l0, lib0 := Log(), Current();
      var i := 0;
      n := 0;
      VolSize(f, l0, lib0);
      FillingStarts(f, l0, lib0, parts);
      GrewNothing(f, l0, lib0, AllLater(f, epoch, parts));
      while i < |parts|
        invariant i <= |parts| && Valid() && errs == old(errs)
        invariant Filling(f, l0, lib0, parts, i, Log(), Current(), n)
      {
        ghost var l, lib := Log(), Current();
        ghost var k;
        rc, k := BlockPut(parts[i]);
        FillingNext(f, l0, lib0, parts, i, l, lib, n, rc, old(errs), errs, Log(), Current(), k);
        n := n + k;
        if rc != OK { return; }
        i := i + 1;
      }
      rc := OK;
      FillingEnds(f, l0, lib0, parts, Log(), Current(), n, errs);
    }

    /** Make a new table live: the common end of every mutation. */
    method Publish(rows: seq<Dent>, root: Id) returns (rc: Status)
      requires Valid() && LibOk(f, Library(rows, root, idx)) && RowsQuiet(f, epoch, sq, 0, rows, root)
      modifies `media, `errs, `head, `sq, `recs, `landed, `shots, `live, `mroot
      ensures Valid() && live == rows && mroot == root
      ensures Verdict(rc, Fits(CommitFits(f, old(head), End(old(media)), old(sq), rows, root)), old(errs), errs) && old(errs) <= errs
      ensures Durable() == if rc == OK then Current() else old(Durable())
      ensures rc == OK && errs == old(errs) ==> TwoCopies(logStart, recs, End(media))
      ensures Between(f, old(Log()), Log(), Current(), RowsLater(f, epoch, old(sq), 0, rows, root))
      ensures |old(shots)| <= |shots| && (rc == OK ==> |old(shots)| < |shots|)
    {
      hide TwoCopies, Verdict, CommitFits, LogOk, LibOk, CoreOf, LibWith, RowsQuiet, RowsLater, Between;
      live, mroot := rows, root;
      rc := CommitLive(true);
    }

    /** The first half of ark_write_file: the checks, the content blocks, a row for the path. */
    method WriteBlocks(path: Bytes, buf: Bytes) returns (rc: Status, ghost used: nat)
      requires Valid() && CString(path) && FileQuiet(f, epoch, sq, live, mroot, path, buf)
      modifies `media, `errs, `head, `sq, `recs, `landed, `shots, `idx
      ensures Valid() && old(errs) <= errs && |media| == |old(media)| && (|path| + 1 > NAME_MAX <==> rc == INVAL)
      ensures rc != OK ==> Verdict(rc, WriteVerdict(f, old(Log()), old(Current()), path, buf), old(errs), errs)
      ensures rc == OK ==> Blocks(|buf|) <= MAX_BLK && (FindRow(live, path) < 0 ==> |live| < MAX_FILES) && errs == old(errs)
      ensures rc == OK ==> BlocksStored(f, old(Log()), old(Current()), Parts(buf), head, used, idx)
      ensures Grew(f, old(Log()), old(Current()), Log(), Current(), used, AllLater(f, epoch, Parts(buf)))
    {
      hide BlocksFit, BlocksStored, WriteVerdict, VolOk, Quiet, LibWith, QuietLater, AllLater, Grew, FileChunk, CString, RowsQuiet;
      used := 0;
      ghost var l0, lib0 := Log(), Current();
      GrewNothing(f, l0, lib0, AllLater(f, epoch, Parts(buf)));
      WriteRefused(f, l0, lib0, path, buf, errs);
      if |path| + 1 > NAME_MAX { return INVAL, used; }
      if Blocks(|buf|) > MAX_BLK { return TOOBIG, used; }
      rc, used := PutBlocks(Parts(buf));
      if rc != OK {
        WriteStops(f, l0, lib0, path, buf, rc, old(errs), errs);
        return;
      }
      if FindRow(live, path) < 0 && |live| >= MAX_FILES { rc := FULL; }
    }

    /** ark_write_file: content blocks, then the row, then the commit.  Whatever sector the
        power fails at, a remount shows the library before the call or the one after it. */
    method WriteFile(path: Bytes, buf: Bytes) returns (rc: Status)
      requires Valid() && CString(path) && FileQuiet(f, epoch, sq, live, mroot, path, buf)
      modifies `media, `errs, `head, `sq, `recs, `landed, `shots, `idx, `live, `mroot
      ensures Valid() && mroot == old(mroot)
      ensures Verdict(rc, WriteVerdict(f, old(Log()), old(Current()), path, buf), old(errs), errs) && old(errs) <= errs
      ensures |path| + 1 > NAME_MAX <==> rc == INVAL
      ensures Durable() == if rc == OK then Current() else old(Durable())
      ensures rc == OK ==> FilePut(f, old(Current()), Current(), path, buf)
      ensures rc == OK ==> ReadBlocks(f, media, epoch, idx, FileIds(f, buf, Blocks(|buf|))) == Got(buf)
      ensures live == old(live) || FilePut(f, old(Current()), Current(), path, buf)
      ensures old(idx).Keys <= idx.Keys
      ensures rc == OK && errs == old(errs) ==> TwoCopies(logStart, recs, End(media))
      ensures Between(f, old(Log()), Log(), Current(), FileLater(f, epoch, old(sq), old(live), mroot, path, buf))
      ensures |old(shots)| <= |shots| && (rc == OK ==> |old(shots)| < |shots|)
    {
      hide TwoCopies, Verdict, BlocksStored, CommitFits, WriteVerdict, LogOk, Quiet, LibWith, CoreOf, FormatOk, ReadBlocks, Format.Sound, RowsQuiet, RowsLater, QuietLater,
           Between, BumpBy, FilePut, LibOk, Grew, AllLater;
      ghost var l0, lib0 := Log(), Current();
      ghost var young := FileLater(f, epoch, sq, live, mroot, path, buf);
      LogFacts(f, Log());
      ghost var used;
      rc, used := WriteBlocks(path, buf);
      ghost var l, lib := Log(), Current();
      ghost var hush := AllLater(f, epoch, Parts(buf));
      PartsLater(f, epoch, old(sq), live, mroot, path, buf);
      GrewBetween(f, l0, lib0, l, lib, used, hush, young);
      if rc != OK { return; }
      LogFacts(f, Log());
      StoredAll(f, l0, lib0, Parts(buf), head, used, idx);
      PutReady(f, lib0, idx, epoch, old(sq), used, path, buf, Parts(buf));
      var rows := PutRow(f, live, path, buf);
      ghost var later := RowsLater(f, epoch, sq, 0, rows, mroot);
      rc := Publish(rows, mroot);
      WriteEnds(f, l0, lib0, path, buf, l, lib.idx, used, rc, old(errs), errs);
      GrewThen(f, l0, lib0, l, lib, Log(), Current(), used, hush, later, young);
      if rc == OK { PutReads(f, Log(), lib0, Current(), path, buf); }
    }

    // ------------------------------------------------------------ the directory tree

    /** mnode_emit: sort, serialise, store. */
    method MnodeEmit(c: Codec, es: seq<Ment>) returns (rc: Status, id: Id, ghost n: nat)
      requires Valid() && |c.enc(Sorted(es))| <= BLOCK_MAX && Quiet(f, epoch, c.enc(Sorted(es)))
      modifies `media, `errs, `head, `sq, `recs, `landed, `shots, `idx
      ensures Valid() && old(errs) <= errs
      ensures (rc == OK || rc == FULL || (rc == IO && old(errs) < errs)) && (rc == FULL ==> !Slack(old(Log()), old(Current()), 1))
      ensures id == f.sha(c.enc(Sorted(es))) && (rc == OK ==> id in idx)
      ensures NodesPut(f, old(Log()), old(Current()), Log(), Current(), n, 1, QuietLater(f, epoch, c.enc(Sorted(es))))
    {
      hide NodesPut, Spent, Slack, BlockDone, BlockVerdict, VolOk, Quiet, LibWith, QuietLater, Grew;
      var m := new Ment[|es|](i requires 0 <= i < |es| => es[i]);
      assert m[..] == es;
      MentSort(m);
      var node := c.enc(m[..]);
      id := f.sha(node);
      ghost var l, lib := Log(), Current();
      rc, n := BlockPut(node);
      SpendOne(f, l, lib, node, rc, old(errs), errs, Log(), Current(), n, QuietLater(f, epoch, node));
    }

    /** The way down of ark_mtree_put: the entries of every directory on the path. */
    method Descend(c: Codec, path: seq<Name>, ghost t: Tree) returns (rc: Status, stack: seq<seq<Ment>>)
      requires Valid() && NodeOk(f, c) && TreeIn(f, c, Current(), t) && PathNamesOk(path)
      ensures rc == OK || rc == INVAL
      ensures rc == OK ==> |stack| == |path|
      ensures rc == OK ==> forall i :: 0 <= i < |path| ==> Subs(t, path, i).Some? && stack[i] == Ments(f, c, Subs(t, path, i).value.kids)
      ensures rc == INVAL ==> forall b :: Put(t, path, b) == Blocked
    {
      hide LogOk, LibOk, CoreOf, NodeOk, Subs, Below, Put, Ments, Stored, TreeOk, Load, NodeId, NameOk, FormatOk;
      var cur := mroot;
      stack := [];
      var i := 0;
      SubsZero(t, path);
      LogFacts(f, Log());
      while i < |path|
        invariant i <= |path| && |stack| == i
        invariant i < |path| ==> Subs(t, path, i).Some? && cur == NodeId(f, c, Subs(t, path, i).value)
        invariant forall j :: 0 <= j < i ==> Subs(t, path, j).Some? && stack[j] == Ments(f, c, Subs(t, path, j).value.kids)
      {
        ghost var s := Subs(t, path, i).value;
        SubsOk(f, c, idx, t, path, i);
        LoadReads(f, c, Log(), idx, s);
        var node := Load(f, c, media, epoch, idx, cur);
        if node.Err? { return CORRUPT, stack; }
        stack := stack + [node.value];
        if i < |path| - 1 {
          var e := IndexOf(MNames(node.value), path[i]);
          EntryFacts(f, c, t, path, i);
          if e >= 0 && node.value[e].kind == MENT_DIR {
            cur := node.value[e].child;
          } else if e >= 0 {
            forall b ensures Put(t, path, b) == Blocked { PutBlocked(t, path, b, i); }
            return INVAL, stack;
          } else {
            cur := f.zero;
          }
        }
        i := i + 1;
      }
      rc := OK;
    }

    /** One level of the way up: set the entry, write the node. */
    method AscendOne(c: Codec, path: seq<Name>, es0: seq<Ment>, i: nat, kind: nat, size: nat, child: Id,
                     ghost buf: Bytes, ghost t: Tree, ghost u: Tree, ghost idx0: map<Id, nat>) returns (rc: Status, id: Id, ghost k: nat)
      requires Valid() && NodeOk(f, c) && RootOk(t) && Stored(f, c, idx0, t) && idx0.Keys <= idx.Keys
      requires PathNamesOk(path) && PathQuiet(f, c, epoch, t, path, buf) && |buf| <= BLOCK_MAX && i < |path|
      requires Subs(t, path, i).Some? && es0 == Ments(f, c, Subs(t, path, i).value.kids) && Rising(f, c, idx, t, path, buf, i + 1, kind, size, child, u)
      modifies `media, `errs, `head, `sq, `recs, `landed, `shots, `idx
      ensures Valid() && old(errs) <= errs
      ensures rc != OK ==> PutCode(rc, Put(t, path, buf), Slack(old(Log()), old(Current()), 1), old(errs), errs)
      ensures rc == OK ==> Put(Subs(t, path, i).value, path[i..], buf).Done?
                           && Rising(f, c, idx, t, path, buf, i, MENT_DIR, 0, id, Put(Subs(t, path, i).value, path[i..], buf).tree)
      ensures NodesPut(f, old(Log()), old(Current()), Log(), Current(), k, 1, PathLater(f, c, epoch, t, path, buf))
    {
      hide VolOk, NodeOk, Subs, Below, Put, Ments, Stored, TreeOk, NodeId, NameOk, Quiet, FormatOk, Sorted, SetMent,
           LibWith, QuietLater, PathQuiet, PathLater, Rising, NodesPut, Slack;
      var e := IndexOf(MNames(es0), path[i]);
      VolSound(f, Log(), Current());
      RiseFacts(f, c, idx0, idx, t, path, buf, i, kind, size, child, u);
      RiseQuiet(f, c, epoch, t, path, buf, i);
      k := 0;
      NodesNone(f, Log(), Current(), 1, PathLater(f, c, epoch, t, path, buf));
      if e >= 0 && es0[e].kind != kind { return INVAL, child, k; }
      var es := SetMent(es0, Ment(kind, size, child, path[i]));
      if es.None? { return FULL, child, k; }
      ghost var later := QuietLater(f, epoch, c.enc(Sorted(es.value)));
      rc, id, k := MnodeEmit(c, es.value);
      NodesLess(f, old(Log()), old(Current()), Log(), Current(), k, 1, later, PathLater(f, c, epoch, t, path, buf));
      if rc == OK { RiseStep(f, c, idx0, old(idx), idx, t, path, buf, i, kind, size, child, u); }
    }

    /** The way up: level by level, the id of each node goes to its parent. */
    method Ascend(c: Codec, path: seq<Name>, stack: seq<seq<Ment>>, buf: Bytes, ghost t: Tree) returns (rc: Status, id: Id, ghost n: nat)
      requires Valid() && NodeOk(f, c) && TreeIn(f, c, Current(), t) && PathNamesOk(path) && PathQuiet(f, c, epoch, t, path, buf)
      requires |buf| <= BLOCK_MAX && f.sha(buf) in idx && |stack| == |path|
      requires forall i :: 0 <= i < |path| ==> Subs(t, path, i).Some? && stack[i] == Ments(f, c, Subs(t, path, i).value.kids)
      modifies `media, `errs, `head, `sq, `recs, `landed, `shots, `idx
      ensures Valid() && old(errs) <= errs
      ensures PutCode(rc, Put(t, path, buf), Slack(old(Log()), old(Current()), |path|), old(errs), errs)
      ensures rc == OK ==> TreeIn(f, c, Library(live, id, idx), Put(t, path, buf).tree)
      ensures NodesPut(f, old(Log()), old(Current()), Log(), Current(), n, |path|, PathLater(f, c, epoch, t, path, buf))
    {
      hide NodesPut, Slack, VolOk, NodeOk, Subs, Below, Put, Ments, Stored, TreeOk, NodeId, NameOk, PathQuiet, PathLater, Rising, Grew;
      var i := |path|;
      n := 0;
      ghost var young, l0, lib0 := PathLater(f, c, epoch, t, path, buf), Log(), Current();
      NodesNone(f, l0, lib0, 0, young);
      id := f.sha(buf);
      var kind: nat, size: nat := MENT_FILE, |buf|;
      ghost var u := File(buf);
      RiseStarts(f, c, idx, t, path, buf);
      while i > 0
        invariant 0 <= i <= |path| && Valid() && old(errs) <= errs
        invariant Rising(f, c, idx, t, path, buf, i, kind, size, id, u)
        invariant NodesPut(f, l0, lib0, Log(), Current(), n, |path| - i, young)
      {
        i := i - 1;
        ghost var l, lib, e := Log(), Current(), errs;
        ghost var k;
        NodesGrew(f, l0, lib0, l, lib, n, |path| - i - 1, young);
        rc, id, k := AscendOne(c, path, stack[i], i, kind, size, id, buf, t, u, old(idx));
        NodesMore(f, l0, lib0, l, lib, Log(), Current(), n, |path| - i - 1, young, k, 1, young, |path|, young);
        n := n + k;
        if rc != OK { return; }
        kind, size, u := MENT_DIR, 0, Put(Subs(t, path, i).value, path[i..], buf).tree;
      }
      rc := OK;
      RiseDone(f, c, idx, live, t, path, buf, kind, size, id, u);
    }

    /** The nodes of a tree put whose content is stored: way down, way up. */
    method StoreNodes(c: Codec, path: seq<Name>, buf: Bytes, ghost t: Tree) returns (rc: Status, id: Id, ghost n: nat)
      requires Valid() && NodeOk(f, c) && TreeIn(f, c, Current(), t) && PathNamesOk(path) && PathQuiet(f, c, epoch, t, path, buf)
      requires |buf| <= BLOCK_MAX && f.sha(buf) in idx
      modifies `media, `errs, `head, `sq, `recs, `landed, `shots, `idx
      ensures Valid() && old(errs) <= errs
      ensures PutCode(rc, Put(t, path, buf), Slack(old(Log()), old(Current()), |path|), old(errs), errs)
      ensures rc == OK ==> TreeIn(f, c, Library(live, id, idx), Put(t, path, buf).tree)
      ensures NodesPut(f, old(Log()), old(Current()), Log(), Current(), n, |path|, PathLater(f, c, epoch, t, path, buf))
    {
      hide VolOk, NodeOk, Subs, Put, Ments, Stored, TreeOk, NodeId, NameOk, LibWith, NodesPut, PathQuiet, PathLater, Slack;
      n := 0;
      id := f.zero;
      NodesNone(f, Log(), Current(), |path|, PathLater(f, c, epoch, t, path, buf));
      var stack;
      rc, stack := Descend(c, path, t);
      if rc != OK { return; }
      rc, id, n := Ascend(c, path, stack, buf, t);
    }

    /** The blocks of a tree put: content, way down, way up. */
    method MtreeStore(c: Codec, path: seq<Name>, buf: Bytes, ghost t: Tree) returns (rc: Status, id: Id, ghost n: nat)
      requires Valid() && NodeOk(f, c) && TreeIn(f, c, Current(), t) && PathNamesOk(path) && PathQuiet(f, c, epoch, t, path, buf) && Quiet(f, epoch, buf)
      requires |buf| <= BLOCK_MAX
      modifies `media, `errs, `head, `sq, `recs, `landed, `shots, `idx
      ensures Valid() && old(errs) <= errs
      ensures PutCode(rc, Put(t, path, buf), Slack(old(Log()), old(Current()), |path| + 1), old(errs), errs)
      ensures rc == OK ==> TreeIn(f, c, Library(live, id, idx), Put(t, path, buf).tree)
      ensures NodesPut(f, old(Log()), old(Current()), Log(), Current(), n, |path| + 1,
                       QuietLater(f, epoch, buf) && PathLater(f, c, epoch, t, path, buf))
    {
      hide VolOk, NodeOk, Subs, Put, Ments, Stored, TreeOk, NodeId, NameOk, Quiet, LibWith, Grew, NodesPut, PathQuiet, PathLater, QuietLater, Slack, BlockDone,
           BlockVerdict;
      ghost var l, lib := Log(), Current();
      ghost var hush, later := QuietLater(f, epoch, buf), PathLater(f, c, epoch, t, path, buf);
      rc, n := BlockPut(buf);
      id := f.sha(buf);
      ghost var l1, lib1 := Log(), Current();
      ContentPut(f, l, lib, buf, rc, old(errs), errs, l1, lib1, n, Put(t, path, buf), |path|, hush);
      NodesLess(f, l, lib, l1, lib1, n, |path| + 1, hush, hush && later);
      if rc != OK { return; }
      TreeKept(f, c, lib, lib1, t);
      ghost var used;
      rc, id, used := StoreNodes(c, path, buf, t);
      NodesMore(f, l, lib, l1, lib1, Log(), Current(), n, 1, hush, used, |path|, later, |path| + 1, hush && later);
      n := n + used;
    }

    /** ark_mtree_put: content, way down, way up, new root, commit.  On success the volume
        holds the tree with this one path changed; whatever sector the power fails at, a
        remount shows the old root or the new one. */
    method MtreePut(c: Codec, path: seq<Name>, buf: Bytes, ghost t: Tree) returns (rc: Status, ghost t': Tree)
      requires Valid() && NodeOk(f, c) && TreeIn(f, c, Current(), t) && PathNamesOk(path) && TreeQuiet(f, c, epoch, sq, live, t, path, buf)
      modifies `media, `errs, `head, `sq, `recs, `landed, `shots, `idx, `live, `mroot
      ensures Valid() && live == old(live) && old(idx).Keys <= idx.Keys
      ensures rc == TOOBIG <==> |buf| > BLOCK_MAX
      ensures old(errs) <= errs && (Roomy(old(Log()), old(Current()), |path|) ==> Verdict(rc, TreeVerdict(Put(t, path, buf), buf), old(errs), errs))
      ensures rc == INVAL ==> Put(t, path, buf) == Blocked
      ensures TreeIn(f, c, Current(), t') && (Put(t, path, buf) == Done(t') || (rc != OK && t' == t))
      ensures Durable() == if rc == OK then Current() else old(Durable())
      ensures rc == OK && errs == old(errs) ==> TwoCopies(logStart, recs, End(media))
      ensures Between(f, old(Log()), Log(), Current(), TreeLater(f, c, epoch, old(sq), live, t, path, buf))
      ensures |old(shots)| <= |shots| && (rc == OK ==> |old(shots)| < |shots|)
    {
      hide TwoCopies, TreeIn, NodesPut, Slack, Roomy, CommitFits, LogOk, LibOk, CoreOf, NodeOk, Subs, Put, Ments, Stored, TreeOk, NodeId, NameOk, Quiet, FormatOk, LibWith, Between, Grew,
           PathQuiet, PathLater, RowsQuiet, RowsLater, QuietLater, BumpBy;
      ghost var l, lib := Log(), Current();
      LogFacts(f, l);
      TreeIsDir(f, c, lib, t);
      ghost var young := TreeLater(f, c, epoch, sq, live, t, path, buf);
      ghost var hush := QuietLater(f, epoch, buf) && PathLater(f, c, epoch, t, path, buf);
      t' := t;
      BetweenNothing(f, l, lib, young);
      if |buf| > BLOCK_MAX { return TOOBIG, t; }
      var id; ghost var n;
      rc, id, n := MtreeStore(c, path, buf, t);
      ghost var l1, lib1 := Log(), Current();
      NodesGrew(f, l, lib, l1, lib1, n, |path| + 1, hush);
      GrewBetween(f, l, lib, l1, lib1, n, hush, young);
      TreeKept(f, c, lib, lib1, t);
      RoomySlack(l, lib, |path|, rc, Put(t, path, buf), buf, old(errs), errs);
      if rc != OK { return; }
      LogFacts(f, l1);
      t' := Put(t, path, buf).tree;
      RootLib(f, c, Current(), id, t');
      RowsAfter(f, epoch, l.sq, 1 + |path|, live, id, n);
      ghost var rows := RowsLater(f, epoch, sq, 0, live, id);
      if Roomy(l, lib, |path|) { RoomyCommit(f, l, lib, l1, lib1, n, |path|, hush, id); }
      ghost var mid, fits := errs, CommitFits(f, head, End(media), sq, live, id);
      rc := Publish(live, id);
      PublishEnds(Put(t, path, buf), buf, fits, rc, old(errs), mid, errs);
      GrewThen(f, l, lib, l1, lib1, Log(), Current(), n, hush, rows, young);
    }

    /** ark_mtree_get. */
    method MtreeGet(c: Codec, path: seq<Name>, ghost t: Tree) returns (r: Result<Bytes>)
      requires Valid() && NodeOk(f, c) && TreeIn(f, c, Current(), t) && path != []
      ensures r == match Lookup(t, path) case None => Err(NOTFOUND) case Some(b) => Got(b)
    {
      hide LogOk, LibOk, CoreOf, NodeOk, Ments, Stored, Load, NodeId, FormatOk, Lookup, BlockGet, TreeOk;
      LogFacts(f, Log());
      if mroot == f.zero {
        ZeroRoot(f, c, t, path);
        return Err(NOTFOUND);
      }
      var cur := mroot;
      ghost var s := t;
      var i := 0;
      assert path[0..] == path;
      while i < |path|
        invariant i <= |path| && (i == |path| ==> Lookup(t, path) == None)
        invariant i < |path| ==> RootOk(s) && s.Dir? && Stored(f, c, idx, s) && cur == NodeId(f, c, s) && Lookup(t, path) == Lookup(s, path[i..])
      {
        LoadReads(f, c, Log(), idx, s);
        var node := Load(f, c, media, epoch, idx, cur);
        match node {
          case Err(status) => return Err(status);
          case Got(_) =>
        }
        var e := IndexOf(MNames(node.value), path[i]);
        StepDown(f, c, idx, s, path, i);
        if e < 0 { return Err(NOTFOUND); }
        if i < |path| - 1 {
          if node.value[e].kind != MENT_DIR { return Err(NOTFOUND); }
          cur := node.value[e].child;
          s := s.kids[e].sub;
        } else {
          if node.value[e].kind != MENT_FILE { return Err(NOTFOUND); }
          VolumeReads(f, Log(), idx, s.kids[e].sub.content);
          return BlockGet(f, media, epoch, idx, node.value[e].child);
        }
        i := i + 1;
      }
      r := Err(NOTFOUND);
    }

    /** ark_mkdir. */
    method Mkdir(path: Bytes) returns (rc: Status)
      requires Valid() && CString(path) && RowsQuiet(f, epoch, sq, 0, live + [NewDir(f, path)], mroot)
      modifies `media, `errs, `head, `sq, `recs, `landed, `shots, `live, `mroot
      ensures Valid() && mroot == old(mroot)
      ensures rc == INVAL <==> |path| + 1 > NAME_MAX || FindRow(old(live), path) >= 0
      ensures rc != INVAL ==>
                Verdict(rc, Fits(|old(live)| < MAX_FILES && CommitFits(f, old(head), End(old(media)), old(sq), old(live) + [NewDir(f, path)], mroot)), old(errs), errs)
      ensures old(errs) <= errs
      ensures Durable() == if rc == OK then Current() else old(Durable())
      ensures rc == OK ==> live == old(live) + [NewDir(f, path)]
      ensures live == old(live) || (FindRow(old(live), path) < 0 && live == old(live) + [NewDir(f, path)])
      ensures rc == OK && errs == old(errs) ==> TwoCopies(logStart, recs, End(media))
      ensures Between(f, old(Log()), Log(), Current(), RowsLater(f, epoch, old(sq), 0, old(live) + [NewDir(f, path)], mroot))
      ensures |old(shots)| <= |shots| && (rc == OK ==> |old(shots)| < |shots|)
    {
      hide TwoCopies, CommitFits, LogOk, LibWith, CoreOf, FormatOk, RowsQuiet, RowsLater, NewDir, Between;
      BetweenNothing(f, Log(), Current(), RowsLater(f, epoch, sq, 0, live + [NewDir(f, path)], mroot));
      if |path| + 1 > NAME_MAX || FindRow(live, path) >= 0 { return INVAL; }
      if |live| >= MAX_FILES { return FULL; }
      LogFacts(f, Log());
      MkdirOk(f, Current(), path);
      rc := Publish(live + [NewDir(f, path)], mroot);
    }

    /** ark_unlink: the row leaves the live table; the log keeps its history. */
    method Unlink(path: Bytes) returns (rc: Status)
      requires Valid() && RowsQuiet(f, epoch, sq, 0, Removed(live, path), mroot)
      modifies `media, `errs, `head, `sq, `recs, `landed, `shots, `live, `mroot
      ensures Valid() && mroot == old(mroot)
      ensures rc == NOTFOUND <==> FindRow(old(live), path) < 0
      ensures rc != NOTFOUND ==> Verdict(rc, Fits(CommitFits(f, old(head), End(old(media)), old(sq), Removed(old(live), path), mroot)), old(errs), errs)
      ensures old(errs) <= errs
      ensures rc == OK ==> live == Removed(old(live), path) && OneOut(old(live), live, path)
      ensures rc == OK && UniqueNames(old(live)) ==> FindRow(live, path) < 0
      ensures live == old(live) || (FindRow(old(live), path) >= 0 && live == Removed(old(live), path))
      ensures Durable() == if rc == OK then Current() else old(Durable())
      ensures rc == OK && errs == old(errs) ==> TwoCopies(logStart, recs, End(media))
      ensures Between(f, old(Log()), Log(), Current(), RowsLater(f, epoch, old(sq), 0, Removed(old(live), path), mroot))
      ensures |old(shots)| <= |shots| && (rc == OK ==> |old(shots)| < |shots|)
    {
      hide TwoCopies, CommitFits, LogOk, LibWith, CoreOf, FormatOk, RowsQuiet, RowsLater, Between, OneOut, UniqueNames;
      BetweenNothing(f, Log(), Current(), RowsLater(f, epoch, sq, 0, Removed(live, path), mroot));
      var e := FindRow(live, path);
      if e < 0 { return NOTFOUND; }
      RemovedRow(live, path);
      UnlinkOk(f, Current(), e);
      rc := Publish(Removed(live, path), mroot);
    }

    /** ark_mount: the superblock or its replica, then the two replay passes. */
    method Mount() returns (rc: Status)
      modifies `up, `limit, `logStart, `head, `sq, `epoch, `live, `mroot, `idx, `cap
      ensures rc == if MountOf(f, media).Up? then OK else CORRUPT
      ensures rc == OK ==> up && limit == 0 && MountOf(f, media) == Up(epoch, logStart, head, cap, Core(sq, live, mroot, idx))
    {
      hide LastCommitEnd, Replay, SuperOf, ViewOf;
      var s := SuperOf(f, media);
      if s.None? { return CORRUPT; }
      var sb := s.value;
      up, limit, logStart, epoch, cap := true, 0, sb.logStart, sb.epoch, CapOf(sb.total);
      var rd := ViewOf(f, media, epoch);
      head := Pass1(rd, End(media), logStart);
      var c := Pass2(rd, head, logStart, cap);
      sq, live, mroot, idx := c.sq, c.live, c.mroot, c.idx;
      rc := OK;
    }

    /** A mount of a recoverable medium: the volume is sound again and shows exactly the
        library of the last commit that landed. */
    method Remount(ghost log: Shot) returns (rc: Status)
      requires log.media == media && GoodLog(f, log, shots)
      modifies `up, `limit, `logStart, `head, `sq, `epoch, `live, `mroot, `idx, `cap, `recs, `landed
      ensures rc == OK && Valid() && Current() == Durable() == Shown(f, log)
      ensures recs == landed == Committed(log.recs) && epoch == log.epoch && logStart == log.start && cap == CapOf(|media|)
    {
      hide GoodLog, VolOk, Shown, MountOf, Committed, LibWith;
      rc := Mount();
      MountGood(f, log, shots);
      recs := Committed(log.recs);
      landed := recs;
      assert Log() == MountState(MountOf(f, media), log, shots);
      MountKeeps(f, log, shots);
    }

    /** First replay pass: where the last verified commit ends. */
    method Pass1(rd: View, end: int, start: nat) returns (h: nat)
      ensures h == LastCommitEnd(rd, end, start, start)
    {
      h := start;
      var sec := start;
      while sec < end
        invariant LastCommitEnd(rd, end, sec, h) == LastCommitEnd(rd, end, start, start)
        decreases end - sec
      {
        match rd(sec)
        case NoRecord => sec := sec + 1;
        case Record(ps, hd, _, ok) =>
          if hd.kind == REC_COMMIT && ok { h := sec + 1 + ps; }
          sec := sec + 1 + ps;
      }
    }

    /** Second replay pass: the index and the live state of the accepted region. */
    method Pass2(rd: View, stop: nat, start: nat, limitIdx: nat) returns (c: Core)
      ensures c == Replay(f, rd, limitIdx, stop, start, EmptyCore(f))
    {
      c := EmptyCore(f);
      var sec := start;
      while sec < stop
        invariant Replay(f, rd, limitIdx, stop, sec, c) == Replay(f, rd, limitIdx, stop, start, EmptyCore(f))
        decreases stop - sec
      {
        match rd(sec)
        case NoRecord => sec := sec + 1;
        case Record(ps, hd, p, ok) =>
          c := StepCore(f, limitIdx, c, hd.kind, hd.sq, hd.id, p, ok, sec);
          sec := sec + 1 + ps;
      }
    }

    /** Power fails after the write that produced shot k: later writes are lost, the machine
        restarts and mounts. */
    method PowerCut(m: Media, ghost k: nat) returns (rc: Status)
      requires FormatOk(f) && ShotsOk(f, shots) && k < |shots| && m == shots[k].media
      modifies this
      ensures rc == OK && Valid() && media == m && shots == old(shots)[..k + 1] + [NowOf(Log())]
      ensures Current() == Durable() == Shown(f, old(shots)[k])
      ensures recs == landed == Committed(old(shots)[k].recs) && epoch == old(shots)[k].epoch && logStart == old(shots)[k].start && cap == CapOf(|media|)
    {
      hide ShotOk, Shown, VolOk, FormatOk, Committed;
      ShotsPrefix(f, shots, k);
      media := m;
      shots := shots[..k + 1];
      rc := Remount(shots[k]);
      ghost var l := Log();
      shots := shots + [NowOf(l)];
      Observed(f, l, Current());
    }

    // ------------------------------------------------------------ reading files and versions

    /** What the version scans see of the log. */
    function Past(): seq<Entry> reads this { Commits(f, ViewOf(f, media, epoch), head, logStart) }

    /** read_dent_blocks: the blocks in order, or the first failure. */
    method ReadDentBlocks(d: Dent) returns (r: Result<Bytes>)
      ensures r == ReadDent(f, media, epoch, idx, d)
    {
      var ids := d.blk[..Min(d.nblk, |d.blk|)];
      var done: Bytes := [];
      var i := 0;
      while i < |ids|
        invariant i <= |ids| && ReadBlocks(f, media, epoch, idx, ids[..i]) == Got(done)
      {
        var b := BlockGet(f, media, epoch, idx, ids[i]);
        ReadBlocksStep(f, media, epoch, idx, ids, i);
        if b.Err? {
          ReadBlocksStops(f, media, epoch, idx, ids, i + 1);
          return b;
        }
        done := done + b.value;
        i := i + 1;
      }
      assert ids[..i] == ids;
      r := Got(done);
    }

    /** ark_read_version: the first commit that holds this version of the path. */
    method ReadVersion(path: Bytes, v: nat) returns (r: Result<Bytes>)
      ensures r == VersionRead(f, media, epoch, idx, Past(), path, v)
    {
      hide ViewOf, ReadDent, RowAt, Commits, FirstVersion;
      var rd := ViewOf(f, media, epoch);
      var sec := logStart;
      while sec < head
        invariant FirstVersion(Past(), path, v) == FirstVersion(Commits(f, rd, head, sec), path, v)
        decreases head - sec
      {
        CommitsNext(f, rd, head, sec, path, v);
        match rd(sec)
        case NoRecord => sec := sec + 1;
        case Record(ps, h, p, ok) =>
          if h.kind == REC_COMMIT && ok {
            var d := RowAt(TableOf(f, p), path, v);
            if d.Some? {
              r := ReadDentBlocks(d.value);
              return;
            }
          }
          sec := sec + 1 + ps;
      }
      CommitsNone(f, rd, head, sec, path, v);
      r := Err(NOTFOUND);
    }

    /** ark_history: the first max rows of the listing. */
    method History(path: Bytes, max: nat) returns (out: seq<HistRow>)
      ensures out == Listing(Past(), path, 0)[..Min(max, |Listing(Past(), path, 0)|)]
    {
      hide ViewOf, RowNot, Commits, Listing;
      var rd := ViewOf(f, media, epoch);
      ghost var all := Listing(Past(), path, 0);
      var sec, last := logStart, 0;
      out := [];
      while sec < head && |out| < max
        invariant |out| <= max && all == out + Listing(Commits(f, rd, head, sec), path, last)
        decreases head - sec
      {
        ListingNext(f, rd, head, sec, path, last);
        match rd(sec)
        case NoRecord => sec := sec + 1;
        case Record(ps, h, p, ok) =>
          if h.kind == REC_COMMIT && ok {
            var d := RowNot(TableOf(f, p), path, last);
            if d.Some? {
              out := out + [HistRow(d.value.version, h.sq, d.value.size)];
              last := d.value.version;
            }
          }
          sec := sec + 1 + ps;
      }
      if sec >= head { ListingDone(f, rd, head, sec, path, last); }
    }

    /** ark_read_file: the current version, else the newest older one that reads back. */
    method ReadFile(path: Bytes) returns (r: Result<Bytes>)
      ensures FileAnswer(f, media, epoch, idx, Past(), live, path, r)
    {
      hide Commits, ViewOf, VersionRead, ReadDent;
      var e := FindRow(live, path);
      if e < 0 || live[e].isDir { return Err(NOTFOUND); }
      r := ReadDentBlocks(live[e]);
      if r.Got? { return; }
      var v: nat := live[e].version;
      while v > 1
        invariant forall u :: v <= u < live[e].version ==> VersionRead(f, media, epoch, idx, Past(), path, u).Err?
      {
        v := v - 1;
        var older := ReadVersion(path, v);
        if older.Got? { return older; }
      }
    }

    // ------------------------------------------------------------ format

    /** write_super_both for a new, empty log. */
    method FormatSupers(e: nat) returns (ok: bool, ghost n: nat)
      requires 4 <= |media|
      modifies `media, `errs, `shots
      ensures n <= 2 && (ok <==> n == 2) && errs == (if ok then old(errs) else old(errs) + 1)
      ensures media == SuperMedia(f, old(media), e, n) && shots == old(shots) + SuperShots(f, old(media), e, n)
    {
      var sb := Super(FMT_VERSION, SECTOR, 1, |media|, e);
      n := 0;
      ok := DevWrite(0, f.encSuper(sb));
      if !ok { return; }
      shots := shots + [Shot(media, e, 1, [])];
      n := 1;
      ok := DevWrite(|media| - 1, f.encSuper(sb));
      if !ok { return; }
      shots := shots + [Shot(media, e, 1, [])];
      n := 2;
    }

    /** The part of reset_state that forgets files, tree and index. */
    method ResetTables()
      modifies `live, `mroot, `idx, `recs, `landed
      ensures Current() == EmptyLibrary(f) && recs == [] && landed == []
    {
      live, mroot, idx := [], f.zero, map[];
      recs, landed := [], [];
    }

    /** reset_state. */
    method ResetState(e: nat)
      modifies this
      ensures media == old(media) && shots == old(shots) && errs == old(errs)
      ensures up && limit == 0 && Current() == EmptyLibrary(f)
      ensures Log() == LogState(media, e, 1, 1, 0, CapOf(|media|), [], [], shots)
    {
      hide EmptyLibrary, CapOf;
      up, limit, logStart, head := true, 0, 1, 1;
      sq, epoch, cap := 0, e, CapOf(|media|);
      ResetTables();
    }

    /** The initial, empty commit of a new epoch: one copy. */
    method FirstCommit(e: nat) returns (rc: Status, ghost trail: seq<Media>)
      requires |media| >= 2 && up && limit == 0 && Log() == FreshLog(media, e, shots) && Current() == EmptyLibrary(f)
      modifies `media, `errs, `head, `sq, `recs, `landed, `shots
      ensures Verdict(rc, Fits(CommitFits(f, 1, End(old(media)), 0, [], f.zero)), old(errs), errs) && old(errs) <= errs
      ensures up && limit == 0 && Current() == EmptyLibrary(f)
      ensures var r := ArkLimits.FirstRec(f);
              && |trail| <= Span(r) && (rc == OK <==> |trail| == Span(r)) && (trail == [] || 1 + Span(r) <= End(old(media)))
              && (forall i :: 0 <= i < |trail| ==> Landed(old(media), trail[i], 1, Image(f, e, r), i + 1))
              && Log() == AfterTrail(f, FreshLog(old(media), e, old(shots)), r, trail)
    {
      hide EmptyLibrary, CapOf, Landed, Image, TrailShots;
      rc, trail := EmitLive(Rec(REC_COMMIT, Bump(sq), f.encCommit(Commit(Bump(sq), [], f.zero))));
    }

    /** ark_format: a new epoch, both superblock copies, one empty commit.  If no commit of the
        new epoch lies on the medium, every medium from the first sector on mounts as the empty
        library; ArkLimits says exactly what is shown if there is one. */
    method FormatDisk() returns (rc: Status)
      requires FormatOk(f) && |media| < U32
      modifies this
      ensures rc == INVAL <==> |old(media)| < 4
      ensures rc != INVAL ==> Verdict(rc, Fits(CommitFits(f, 1, End(old(media)), 0, [], f.zero)), old(errs), errs)
      ensures rc == INVAL ==> Log() == old(Log()) && Current() == old(Current()) && up == old(up) && limit == old(limit)
      ensures rc == OK ==> media == ArkLimits.AfterFormat(f, old(media)) && epoch == NextEpoch(f, old(media))
      ensures rc == OK ==> up && limit == 0 && Current() == EmptyLibrary(f)
      ensures EpochFree(f, old(media), NextEpoch(f, old(media))) && RowsQuiet(f, NextEpoch(f, old(media)), 0, 0, [], f.zero) && ShotsOk(f, old(shots)) ==>
                FormatOutcome(f, old(Log()), Log(), Current(), rc)
    {
      hide CommitFits, FormatOk, ShotsOk, NextEpoch, EmptyLibrary, RowsQuiet, EpochFree, FormatOutcome, SuperMedia, SuperShots, AfterTrail, Landed, Image;
      ghost var l, e0 := Log(), NextEpoch(f, media);
      ghost var free := EpochFree(f, media, e0) && RowsQuiet(f, e0, 0, 0, [], f.zero) && ShotsOk(f, shots);
      if |media| < 4 {
        if ShotsOk(f, shots) { FormatRefused(f, l, Current()); }
        return INVAL;
      }
      var e := NextEpoch(f, media);
      ResetState(e);
      var ok; ghost var n;
      ok, n := FormatSupers(e);
      if !ok {
        if free { FormatStops(f, l, n, Log(), Current()); }
        return IO;
      }
      SupersDone(f, l.media, e);
      ghost var m := media;
      assert |m| == |l.media|;
      ghost var trail;
      rc, trail := FirstCommit(e);
      if free { FormatDone(f, l, trail); }
      if free && rc == FULL { FormatFailed(f, l, Log(), Current()); }
      FormatMedium(f, FreshLog(m, e, l.shots + SuperShots(f, l.media, e, 2)), trail);
    }

    // ------------------------------------------------------------ compaction

    ghost predicate Mounted() reads this {
      up && limit == 0 && MountedOk(f, media, epoch, logStart, head, cap, Current())
    }

    /** First dry pass of ark_compact: do all blocks the directory names still read? */
    method LiveReadable() returns (ok: bool, seen: set<Id>)
      requires forall i :: 0 <= i < |live| ==> live[i].nblk <= |live[i].blk|
      ensures ok <==> forall id :: id in Named(live) ==> BlockGet(f, media, epoch, idx, id).Got?
      ensures ok ==> seen == Named(live)
    {
      hide BlockGet;
      seen := {};
      var i := 0;
      while i < |live|
        invariant i <= |live| && seen == Named(live[..i])
        invariant forall id :: id in seen ==> BlockGet(f, media, epoch, idx, id).Got?
      {
        var j := 0;
        NamedNext(live, i, 0);
        while j < live[i].nblk
          invariant j <= live[i].nblk && seen == Named(live[..i]) + RowNames(live[i], j)
          invariant forall id :: id in seen ==> BlockGet(f, media, epoch, idx, id).Got?
        {
          NamedNext(live, i, j);
          if BlockGet(f, media, epoch, idx, live[i].blk[j]).Err? {
            assert live[i].blk[j] in Named(live);
            return false, seen;
          }
          seen := seen + {live[i].blk[j]};
          j := j + 1;
        }
        NamedRow(live, i);
        i := i + 1;
      }
      assert live[..i] == live;
      ok := true;
    }

    /** Second dry pass: every block that still reads, and the sectors they take. */
    method Survey() returns (rc: Status, foot: nat, nkeep: nat, ghost kept: seq<Id>)
      ensures rc == OK || rc == IO
      ensures rc == OK ==> nkeep == |Readable(f, media, epoch, idx)|
      ensures rc == OK ==> Lists(kept, Readable(f, media, epoch, idx)) && foot == FootOf(f, media, epoch, idx, kept)
      ensures rc == IO <==> AnyFault(f, media, epoch, idx)
    {
      hide BlockGet, ReadRec, ReadFault, Sifted, Lists, FootOf, Readable;
      rc, foot, nkeep, kept := OK, 0, 0, [];
      var rest := idx.Keys;
      ghost var done: set<Id> := {};
      SiftStarts(f, media, epoch, idx);
      ListsNone(f, media, epoch, idx);
      while rest != {}
        invariant Sifted(f, media, epoch, idx, rest, done) && nkeep == |done|
        invariant forall id :: id in idx && id !in rest ==> !ReadFault(f, media, epoch, idx[id])
        invariant Lists(kept, done) && foot == FootOf(f, media, epoch, idx, kept)
        decreases rest
      {
        var id :| id in rest;
        SiftStep(f, media, epoch, idx, rest, done, id);
        rest := rest - {id};
        match BlockGet(f, media, epoch, idx, id)
        case Err(_) =>
          if ReadFault(f, media, epoch, idx[id]) { rc := IO; return; }
        case Got(p) =>
          GotNoFault(f, media, epoch, idx, id);
          FootMore(f, media, epoch, idx, kept, id);
          ListsMore(kept, done, id);
          foot := foot + 1 + Sectors(|p|);
          nkeep := nkeep + 1;
          kept := kept + [id];
          done := done + {id};
      }
      SiftEnds(f, media, epoch, idx, done);
    }

    /** One record of the new log, in the free region, under the new epoch. */
    method EmitNew(r: Rec, ghost w: Pass) returns (rc: Status, ghost w': Pass)
      requires f.Sound() && f.Injective() && f.HdrOk(HdrOf(f, epoch, r)) && |r.payload| <= COMMIT_MAX
      requires Quiet(f, w.e, r.payload) && Quiet(f, epoch, r.payload)
      requires PassOk(f, w, media, head, epoch) && limit == w.lim
      modifies `media, `errs, `head, `sq
      ensures (rc == OK || rc == FULL || rc == IO) && (rc == FULL <==> old(head) + Span(r) > w.lim)
      ensures errs == if rc == IO then old(errs) + 1 else old(errs)
      ensures rc == OK ==> head == old(head) + Span(r)
      ensures SamePass(w, w') && (LastMedia(w, old(media)) ==> LastMedia(w', media))
      ensures OverTrail(f, w'.m0, w'.trail, w'.ends, w'.e, w'.s0, w'.lim)
      ensures LogInv(f, media, epoch, w.s0, w'.recs) && |media| == |old(media)|
      ensures w'.recs == w.recs || (rc != FULL && w'.recs == w.recs + [r])
      ensures rc == OK ==> PassOk(f, w', media, head, epoch) && w'.recs == w.recs + [r] && sq == Bump(old(sq))
      ensures QuietLater(f, epoch, r.payload) && YoungPass(f, w, old(media), epoch) ==> YoungPass(f, w', media, epoch)
    {
      hide PassOk, OverTrail, LogInv, Quiet, Image, Landed, Format.Sound, Format.Injective, Format.HdrOk, RecAt, QuietLater, YoungPass;
      PassBounds(f, w, media, head, epoch);
      ghost var t;
      rc, t := Emit(r);
      PassEmits(f, w, old(media), old(head), epoch, r, t);
      w' := PassAfter(f, w, epoch, r, t);
      if QuietLater(f, epoch, r.payload) && YoungPass(f, w, old(media), epoch) { PassYoung(f, w, old(media), old(head), epoch, r, t); }
    }

    /** One turn of the block loop: copy the block if it still reads. */
    method CopyOne(id: Id, ghost w0: Pass, ghost h0: nat, e: nat, ghost done: set<Id>) returns (rc: Status, kept: bool, ghost w: Pass)
      requires MountedOk(f, w0.m0, e, logStart, h0, cap, Current()) && FreeRegion(w0.m0, logStart, h0, w0.s0, w0.lim)
      requires BlocksQuiet(f, w0.m0, e, Bump(e), idx) && w0.e == e
      requires PassOk(f, w0, media, head, Bump(e)) && limit == w0.lim && LastMedia(w0, media)
      requires id in idx && id !in done && done <= idx.Keys && CoreOf(f, cap, w0.s0, w0.recs).idx.Keys == done && BlocksOnly(w0.recs)
      modifies `media, `errs, `head, `sq, `epoch
      ensures rc == OK || (rc == FULL && BlockGet(f, w0.m0, e, idx, id).Got?) || (rc == IO && (old(errs) < errs || ReadFault(f, w0.m0, e, idx[id])))
      ensures old(errs) <= errs && (rc == OK ==> head == old(head) + BlockFoot(f, w0.m0, e, idx, id))
      ensures rc == FULL ==> old(head) + BlockFoot(f, w0.m0, e, idx, id) > w0.lim
      ensures SamePass(w0, w) && LastMedia(w, media) && OverTrail(f, w.m0, w.trail, w.ends, e, w.s0, w.lim)
      ensures rc == OK ==> PassOk(f, w, media, head, Bump(e)) && kept == BlockGet(f, w0.m0, e, idx, id).Got?
      ensures rc == OK ==> CoreOf(f, cap, w.s0, w.recs).idx.Keys == (if kept then done + {id} else done) && BlocksOnly(w.recs)
      ensures rc == OK ==> sq == if kept then Bump(old(sq)) else old(sq)
      ensures CompactLater(f, w0.m0, e, Current()) && YoungPass(f, w0, old(media), Bump(e)) ==> YoungPass(f, w, media, Bump(e))
    {
      hide PassOk, OverTrail, LogInv, Quiet, Format.Sound, Format.Injective, Format.HdrOk, CoreOf, BlockGet,
           MountedOk, BlocksQuiet, FormatOk, RowsOk, ReadFault, QuietLater, YoungPass, RowsLater;
      w, kept, rc := w0, false, OK;
      ghost var lib := Current();
      epoch := e;
      PassTrail(f, w, media, head, Bump(e));
      PassReads(f, w, media, head, Bump(e), logStart, h0, cap, lib, id);
      match BlockGet(f, media, e, idx, id)
      case Err(_) =>
        if ReadFault(f, media, e, idx[id]) { rc := IO; }
      case Got(p) =>
        MountedFacts(f, w0.m0, e, logStart, h0, cap, lib);
        BlockFacts(f, w0.m0, e, Bump(e), logStart, h0, cap, lib, id);
        epoch := Bump(e);
        var r := Rec(REC_BLOCK, Bump(sq), p);
        rc, w := EmitNew(r, w);
        kept := true;
        if rc == OK { RewriteIndex(f, cap, w0.s0, w0.recs, r, done, idx.Keys); }
    }

    /** The same turn, with the account of what is copied so far. */
    method CopyTurn(id: Id, ghost w0: Pass, ghost w1: Pass, ghost h0: nat, e: nat, ghost rest: set<Id>, ghost done: set<Id>, ghost sq0: nat)
      returns (rc: Status, kept: bool, ghost w: Pass)
      requires MountedOk(f, w0.m0, e, logStart, h0, cap, Current()) && FreeRegion(w0.m0, logStart, h0, w0.s0, w0.lim)
      requires BlocksQuiet(f, w0.m0, e, Bump(e), idx) && w0.e == e && limit == w0.lim
      requires id in rest && Copying(f, cap, Current(), w0, w1, media, head, rest, done, sq0, sq)
      modifies `media, `errs, `head, `sq, `epoch
      ensures rc == OK || (rc == FULL && BlockGet(f, w0.m0, e, idx, id).Got?) || (rc == IO && (old(errs) < errs || ReadFault(f, w0.m0, e, idx[id])))
      ensures old(errs) <= errs && (rc == OK ==> head == old(head) + BlockFoot(f, w0.m0, e, idx, id))
      ensures rc == OK ==> kept == BlockGet(f, w0.m0, e, idx, id).Got?
      ensures rc == FULL ==> old(head) + BlockFoot(f, w0.m0, e, idx, id) > w0.lim
      ensures PassGoes(f, w0, w, media)
      ensures rc == OK ==> Copying(f, cap, Current(), w0, w, media, head, rest - {id}, if kept then done + {id} else done, sq0, sq)
      ensures CompactLater(f, w0.m0, e, Current()) && YoungPass(f, w1, old(media), Bump(e)) ==> YoungPass(f, w, media, Bump(e))
    {
      hide ReadFault, BlockFoot, PassOk, OverTrail, CoreOf, BlockGet, MountedOk, BlocksQuiet, FreeRegion, LastMedia, YoungPass, CompactLater, BlocksOnly, Copying;
      CopyOpens(f, cap, Current(), w0, w1, media, head, rest, done, sq0, sq, id);
      rc, kept, w := CopyOne(id, w1, h0, e, done);
      if rc == OK {
        CopyGoes(f, cap, Current(), w0, w1, w, old(media), media, old(head), head, rest, done, sq0, old(sq), sq, id, kept);
      }
    }

    /** The block loop of the write pass: every block that still reads, once. */
    method CopyBlocks(ghost w0: Pass, ghost h0: nat, e: nat, ghost all: seq<Id>) returns (rc: Status, nemit: nat, ghost w: Pass)
      requires MountedOk(f, w0.m0, e, logStart, h0, cap, Current()) && FreeRegion(w0.m0, logStart, h0, w0.s0, w0.lim)
      requires BlocksQuiet(f, w0.m0, e, Bump(e), idx) && w0.e == e && w0.recs == []
      requires PassOk(f, w0, media, head, Bump(e)) && limit == w0.lim && LastMedia(w0, media)
      requires Lists(all, Readable(f, w0.m0, e, idx))
      modifies `media, `errs, `head, `sq, `epoch
      ensures rc == OK || rc == FULL || (rc == IO && (old(errs) < errs || AnyFault(f, w0.m0, e, idx)))
      ensures old(errs) <= errs && (rc == OK ==> head == w0.s0 + FootOf(f, w0.m0, e, idx, all))
      ensures rc == FULL ==> w0.s0 + FootOf(f, w0.m0, e, idx, all) > w0.lim
      ensures PassGoes(f, w0, w, media)
      ensures rc == OK ==> PassOk(f, w, media, head, Bump(e)) && BlocksOnly(w.recs)
      ensures rc == OK ==> CoreOf(f, cap, w0.s0, w.recs).idx.Keys == Readable(f, w0.m0, e, idx)
      ensures rc == OK ==> sq == BumpBy(old(sq), nemit) && nemit == |Readable(f, w0.m0, e, idx)| <= |idx|
      ensures CompactLater(f, w0.m0, e, Current()) && YoungPass(f, w0, old(media), Bump(e)) ==> YoungPass(f, w, media, Bump(e))
    {
      hide ReadFault, BlockGet, BlockFoot, FootOf, Lists, Sifted, Counted, PassOk, CoreOf, MountedOk, BlocksQuiet, FreeRegion, LastMedia, YoungPass, CompactLater, BlocksOnly, Readable, Copying, PassGoes, BumpBy;
      w, rc, nemit := w0, OK, 0;
      ghost var young := CompactLater(f, w0.m0, e, Current()) && YoungPass(f, w0, media, Bump(e));
      var rest := idx.Keys;
      ghost var done: set<Id> := {};
      CopyStarts(f, cap, Current(), w, media, head, sq);
      CountStarts(f, w0, Current(), media, head);
      ghost var ids: seq<Id> := [];
      while rest != {}
        invariant Copying(f, cap, Current(), w0, w, media, head, rest, done, old(sq), sq) && nemit == |done|
        invariant Counted(f, w0, Current(), head, done, ids) && old(errs) <= errs
        invariant young ==> YoungPass(f, w, media, Bump(e))
        decreases rest
      {
        var id :| id in rest;
        var kept;
        CopyOpens(f, cap, Current(), w0, w, media, head, rest, done, old(sq), sq, id);
        ghost var h := head;
        CopySifts(f, cap, Current(), w0, w, media, head, rest, done, old(sq), sq);
        rc, kept, w := CopyTurn(id, w0, w, h0, e, rest, done, old(sq));
        if rc == FULL { CountOverflows(f, w0, Current(), h, rest, done, ids, id, all); }
        if rc != OK { return; }
        CountNext(f, w0, Current(), h, done, ids, id, kept);
        rest := rest - {id};
        if kept {
          ids := ids + [id];
          done := done + {id};
          nemit := nemit + 1;
        }
      }
      rc := OK;
      CopyEnds(f, cap, Current(), w0, w, media, head, done, old(sq), sq);
      CountEnds(f, w0, Current(), head, ids, all);
    }

    /** The trailing commit of the new log: one copy must land, the second is best effort. */
    method SealNew(ghost w0: Pass) returns (rc: Status, ghost w: Pass)
      requires FormatOk(f) && RowsOk(f, live, mroot) && epoch < U32 && BlocksOnly(w0.recs)
      requires RowsQuiet(f, w0.e, sq, 0, live, mroot) && RowsQuiet(f, epoch, sq, 0, live, mroot)
      requires PassOk(f, w0, media, head, epoch) && limit == w0.lim && LastMedia(w0, media)
      modifies `media, `errs, `head, `sq
      ensures rc == OK || rc == FULL || (rc == IO && old(errs) < errs)
      ensures old(errs) <= errs && (rc == FULL ==> old(head) + 1 + Sectors(|f.encCommit(Commit(Bump(old(sq)), live, mroot))|) > w0.lim)
      ensures SamePass(w0, w) && LastMedia(w, media) && OverTrail(f, w.m0, w.trail, w.ends, w.e, w.s0, w.lim)
      ensures rc == OK && errs == old(errs) ==> TwoCopies(w.s0, w.recs, w.lim)
      ensures rc == OK ==> LogInv(f, media, epoch, w.s0, w.recs)
      ensures rc == OK ==> Resealed(f, cap, w.s0, w.recs, Current(), CoreOf(f, cap, w.s0, w0.recs).idx.Keys)
      ensures RowsLater(f, epoch, old(sq), 0, live, mroot) && YoungPass(f, w0, old(media), epoch) ==> YoungPass(f, w, media, epoch)
    {
      hide Spans, TwoCopies, PassOk, OverTrail, LogInv, Quiet, Format.Sound, Format.Injective, Format.HdrOk, CoreOf, Committed, FormatOk, RowsOk, QuietLater, YoungPass,
           Resealed;
      var c := Commit(Bump(sq), live, mroot);
      var pay := f.encCommit(c);
      ghost var keep := CoreOf(f, cap, w0.s0, w0.recs).idx.Keys;
      assert BumpBy(sq, 0) == sq;
      CommitRecFacts(f, epoch, c, Bump(sq));
      var r := Rec(REC_COMMIT, Bump(sq), pay);
      ghost var h := head;
      PassBounds(f, w0, media, head, epoch);
      rc, w := EmitNew(r, w0);
      if rc != OK { return; }
      SealOne(f, cap, w.s0, w0.recs, r, c, Current(), keep);
      CommitRecFacts(f, epoch, c, Bump(sq));
      ghost var one := w.recs;
      var r2 := Rec(REC_COMMIT, Bump(sq), pay);
      var ignored;
      ignored, w := EmitNew(r2, w);
      if ignored == OK { BothCopies(w.s0, w0.recs, r, r2, w.lim); }
      if ignored == FULL { OneCopy(w.s0, w0.recs, r, w.lim); }
      SealOne(f, cap, w.s0, one, r2, c, Current(), keep);
    }

    /** The write pass of ark_compact: every block that still reads, then the commit twice. */
    method WritePass(s0: nat, lim: nat, nkeep: nat, ghost all: seq<Id>) returns (rc: Status, ghost w: Pass)
      requires Mounted() && FreeRegion(media, logStart, head, s0, lim)
      requires forall q :: s0 <= q < End(media) ==> !ValidCommit(f, media, Bump(epoch), q)
      requires CompactQuiet(f, media, epoch, Current())
      requires Lists(all, Readable(f, media, epoch, idx))
      modifies `media, `errs, `head, `sq, `epoch, `limit
      ensures rc == OK || rc == FULL || (rc == CORRUPT && nkeep != |Readable(f, old(media), old(epoch), idx)|)
              || (rc == IO && (old(errs) < errs || AnyFault(f, old(media), old(epoch), idx)))
      ensures old(errs) <= errs && (rc == FULL ==> PassFull(f, old(Log()), Current(), s0, lim, all))
      ensures w.m0 == old(media) && w.e == old(epoch) && w.s0 == s0 && w.lim == lim
      ensures LastMedia(w, media) && OverTrail(f, w.m0, w.trail, w.ends, w.e, s0, lim)
      ensures rc == OK && errs == old(errs) ==> TwoCopies(s0, w.recs, lim)
      ensures rc == OK ==> LogInv(f, media, Bump(old(epoch)), s0, w.recs)
      ensures rc == OK ==> Resealed(f, cap, s0, w.recs, Current(), Readable(f, old(media), old(epoch), idx))
      ensures CompactLater(f, old(media), old(epoch), Current()) && Young(f, old(media), Bump(old(epoch))) ==> YoungPass(f, w, media, Bump(old(epoch)))
    {
      hide TwoCopies, ReadFault, FootOf, Lists, BlockFoot, PassOk, OverTrail, LogInv, Quiet, CoreOf, Committed, MountedOk, BlocksQuiet, ValidCommit, FormatOk, RowsOk, Readable, YoungPass, Young,
           RowsQuiet, RowsLater, Resealed, QuietLater, BlockGet;
      var e := epoch;
      ghost var h0 := head;
      MountedFacts(f, media, e, logStart, h0, cap, Current());
      PassStarts(f, media, e, Bump(e), s0, lim);
      w := Pass(media, e, s0, lim, [], [], []);
      PassTrail(f, w, media, s0, Bump(e));
      if Young(f, media, Bump(e)) { YoungStart(f, w, media, Bump(e)); }
      limit, head, sq := lim, s0, 0;
      var nemit;
      rc, nemit, w := CopyBlocks(w, h0, e, all);
      if rc != OK { return; }
      if nemit != nkeep { rc := CORRUPT; return; }
      epoch := Bump(e);
      RowsAfter(f, e, 0, |idx|, live, mroot, nemit);
      RowsAfter(f, epoch, 0, |idx|, live, mroot, nemit);
      rc, w := SealNew(w);
    }

    /** write_super_both: the primary copy is the atomic switch to the new log. */
    method Switch(sb: Super, ghost m0: Media, ghost e: nat, ghost start: nat, ghost h0: nat, ghost lib: Library, ghost w: Pass)
      returns (ok: bool, ghost t: seq<Media>)
      requires MountedOk(f, m0, e, start, h0, cap, lib) && |media| == |m0| && 1 <= sb.logStart <= End(media)
      requires sb == Super(FMT_VERSION, SECTOR, sb.logStart, |media|, Bump(e)) && LogInv(f, media, Bump(e), sb.logStart, w.recs)
      requires Resealed(f, cap, sb.logStart, w.recs, lib, Readable(f, m0, e, lib.idx))
      requires forall id :: id in Named(lib.live) ==> BlockGet(f, m0, e, lib.idx, id).Got?
      modifies `media, `errs
      ensures |t| <= 2 && (ok <==> |t| == 2) && media == (if t == [] then old(media) else t[|t| - 1]) && |media| == |old(media)|
      ensures errs == if ok then old(errs) else old(errs) + 1
      ensures SwitchShots(f, t, sb, w.recs, m0, e, lib)
      ensures Young(f, old(media), Bump(e)) ==> forall i :: 0 <= i < |t| ==> Young(f, t[i], Bump(e))
    {
      hide MountedOk, BlockGet, Readable, LogInv, CoreOf, Committed, LibOk, Named, ShotOk, Shown, ShowsCompacted, FormatOk, RowsOk, Young, Resealed;
      ResealedShows(f, cap, sb.logStart, w.recs, lib, Readable(f, m0, e, lib.idx));
      ghost var nlib := LibOf(CoreOf(f, cap, sb.logStart, Committed(w.recs)));
      ghost var m1 := media;
      t := [];
      MountedFacts(f, m0, e, start, h0, cap, lib);
      SwitchFacts(f, m0, media, e, start, h0, cap, lib, sb, w.recs, nlib);
      ok := DevWrite(0, f.encSuper(sb));
      if !ok { return; }
      if Young(f, m1, Bump(e)) { YoungOutside(f, m1, media, Bump(e)); }
      ghost var m2 := media;
      t := [media];
      CompactedShows(f, Shot(media, sb.epoch, sb.logStart, w.recs), m0, e, start, h0, cap, lib);
      SwitchFacts2(f, m1, media, sb, w.recs, nlib);
      ok := DevWrite(|media| - 1, f.encSuper(sb));
      if !ok { return; }
      if Young(f, m2, Bump(e)) { YoungOutside(f, m2, media, Bump(e)); }
      t := t + [media];
      CompactedShows(f, Shot(media, sb.epoch, sb.logStart, w.recs), m0, e, start, h0, cap, lib);
    }

    /** The end of ark_compact: the superblock switch, then the restored state or the remount. */
    method SwitchOver(e: nat, h: nat, q: nat, s0: nat, ghost l: LogState, ghost lib: Library, ghost w: Pass, ghost sound: bool)
      returns (rc: Status, ghost p: Passage)
      requires up && limit == 0 && Log() == l.(media := media, epoch := epoch, head := head, sq := sq) && Current() == lib
      requires MountedOk(f, l.media, e, l.logStart, h, cap, lib) && ShotsOk(f, shots) && l.epoch == e && l.head == h && l.sq == q
      requires |media| == |l.media| && 1 <= s0 <= End(media) && LogInv(f, media, Bump(e), s0, w.recs) && Wrote(f, l, lib, w, media, sound)
      requires Resealed(f, cap, s0, w.recs, lib, Readable(f, l.media, e, lib.idx))
      requires forall id :: id in Named(lib.live) ==> BlockGet(f, l.media, e, lib.idx, id).Got?
      modifies this
      ensures (rc == OK || (rc == IO && old(errs) < errs)) && old(errs) <= errs
      ensures rc == OK ==> recs == w.recs && logStart == s0
      ensures up && limit == 0 && CompactOutcome(f, l, lib, Log(), Current(), rc == OK, p)
      ensures YoungPass(f, w, old(media), Bump(e)) ==> forall i :: 0 <= i < |p.trail| ==> Young(f, p.trail[i], Bump(e))
    {
      hide MountedOk, ShotsOk, VolOk, BlockGet, Readable, Resealed, LogInv, CoreOf, Committed, Named, CompactOutcome, SwitchShots, Shown, GoodLog, ShotOk,
           Wrote, ShotsAfter, PreShotsIf, Young, YoungPass;
      MountedFacts(f, l.media, e, l.logStart, h, cap, lib);
      ghost var m := media;
      var sb := Super(FMT_VERSION, SECTOR, s0, |media|, Bump(e));
      var ok; ghost var t;
      ok, t := Switch(sb, l.media, e, logStart, h, lib, w);
      YoungTrail(f, w, m, Bump(e), t);
      if !ok {
        rc, epoch, head, sq := IO, e, h, q;
        if t == [] {
          shots := shots + PreShotsIf(l, w, sound);
          p := Passage(w.trail, |w.trail|, 0, []);
          Aborted(f, l, lib, w, media, Log(), sound);
        } else {
          shots := ShotsAfter(l, w, t, sb, sound);
          p := Passage(w.trail + t, |w.trail|, s0, w.recs);
          HalfSwitched(f, l, lib, w, m, t, sb, Log(), sound);
        }
        return;
      }
      shots := ShotsAfter(l, w, t, sb, sound);
      p := Passage(w.trail + t, |w.trail|, s0, w.recs);
      LastShot(f, l, lib, w, m, t, sb, sound);
      ghost var b := Shot(media, Bump(e), s0, w.recs);
      GoodShot(f, b, shots, l.media, e, l.logStart, h, cap, lib);
      ResealedAll(f, cap, s0, w.recs, lib, Readable(f, l.media, e, lib.idx));
      rc := Remount(b);
      FullySwitched(f, l, lib, w, m, t, sb, Log(), Current(), sound);
    }

    /** The write pass into a chosen free region and the superblock switch. */
    method CompactInto(s0: nat, lim: nat, nkeep: nat, ghost all: seq<Id>) returns (rc: Status, ghost p: Passage)
      requires Mounted() && ShotsOk(f, shots) && FreeRegion(media, logStart, head, s0, lim)
      requires forall q :: 1 <= q < End(media) ==> !ValidCommit(f, media, Bump(epoch), q)
      requires CompactQuiet(f, media, epoch, Current())
      requires forall id :: id in Named(live) ==> BlockGet(f, media, epoch, idx, id).Got?
      requires Lists(all, Readable(f, media, epoch, idx))
      modifies this
      ensures rc == OK || (rc == FULL && PassFull(f, old(Log()), old(Current()), s0, lim, all))
              || (rc == CORRUPT && nkeep != |Readable(f, old(media), old(epoch), old(idx))|)
              || (rc == IO && (old(errs) < errs || AnyFault(f, old(media), old(epoch), old(idx))))
      ensures old(errs) <= errs
      ensures rc == OK && errs == old(errs) ==> TwoCopies(logStart, recs, lim)
      ensures up && limit == 0 && CompactOutcome(f, old(Log()), old(Current()), Log(), Current(), rc == OK, p)
      ensures CompactLater(f, old(media), old(epoch), old(Current())) && Young(f, old(media), Bump(old(epoch))) ==>
                forall i :: 0 <= i < |p.trail| ==> Young(f, p.trail[i], Bump(old(epoch)))
    {
      hide TwoCopies, AnyFault, PassFull, Lists, MountedOk, ShotsOk, ValidCommit, CompactQuiet, VolOk, BlockGet, Readable, OverTrail, LastMedia, Resealed,
           LogInv, CoreOf, Named, CompactOutcome, Wrote, PreShotsIf, Young, CompactLater, YoungPass;
      CompactFacts(f, media, epoch, logStart, head, cap, Current());
      ghost var l, lib := Log(), Current();
      var e, h, q := epoch, head, sq;
      ghost var w;
      rc, w := WritePass(s0, lim, nkeep, all);
      limit := 0;
      RegionFacts(w, l.media, media, logStart, h, s0, lim);
      ghost var sound := VolOk(f, l, lib) && l.landed == l.recs;
      WriteTrail(f, w, media, l, lib, logStart, h, cap, sound);
      if rc != OK {
        p := Passage(w.trail, |w.trail|, 0, []);
        YoungTrail(f, w, media, Bump(e), []);
        epoch, head, sq := e, h, q;
        shots := shots + PreShotsIf(l, w, sound);
        Aborted(f, l, lib, w, media, Log(), sound);
        return;
      }
      rc, p := SwitchOver(e, h, q, s0, l, lib, w, sound);
    }

    /** ark_compact.  Whatever sector the power fails at, the medium mounts as before or as the
        complete compacted library; a failure before the switch restores the volume.  t may be
        any tree the root stands for: if the tree check covers it, a success keeps all of it. */
    method Compact(c: Codec, ghost t: Tree) returns (rc: Status, ghost p: Passage)
      requires Mounted() && ShotsOk(f, shots)
      requires forall q :: 1 <= q < End(media) ==> !ValidCommit(f, media, Bump(epoch), q)
      requires CompactQuiet(f, media, epoch, Current())
      modifies this
      ensures CompactCode(f, c, old(Log()), old(Current()), rc, old(errs), errs)
      ensures rc == OK && errs == old(errs) ==> TwoCopies(logStart, recs, End(old(media))) || TwoCopies(logStart, recs, old(logStart))
      ensures up && limit == 0 && CompactOutcome(f, old(Log()), old(Current()), Log(), Current(), rc == OK, p)
      ensures CompactLater(f, old(media), old(epoch), old(Current())) && Young(f, old(media), Bump(old(epoch))) ==>
                forall i :: 0 <= i < |p.trail| ==> Young(f, p.trail[i], Bump(old(epoch)))
      ensures rc == OK && Stands(f, c, old(media), old(epoch), old(idx), old(mroot), t) && Covered(f, c, t, Plan(f, c, t, Named(old(live)))) ==>
                TreeIn(f, c, Current(), t)
    {
      hide TwoCopies, AnyFault, PassFull, Lists, FootOf, CompactCode, MountedOk, ShotsOk, ValidCommit, CompactQuiet, BlockGet, Readable, CompactOutcome, Young, CompactLater, Stands, Covered, Plan, Intact, Named, TreeIn, WalkTree;
      ghost var l, lib := Log(), Current();
      p := Passage([], 0, 0, []);
      CompactFacts(f, media, epoch, logStart, head, cap, Current());
      NothingDone(f, Log(), Current());
      CodeEarly(f, c, l, lib, errs);
      var readable, seen := LiveReadable();
      if !readable { return CORRUPT, p; }
      rc, seen := SweepTree(f, c, media, epoch, idx, mroot, seen);
      WalkVerdicts(f, c, media, epoch, idx, mroot, Named(live));
      if rc != OK { return; }
      ghost var kept := Stands(f, c, media, epoch, idx, mroot, t) && Covered(f, c, t, Plan(f, c, t, Named(live)));
      if kept { CoveredIntact(f, c, media, epoch, idx, mroot, t, Named(live)); }
      var foot, nkeep; ghost var ids;
      rc, foot, nkeep, ids := Survey();
      if rc != OK { return; }
      foot := foot + 1 + Sectors(|f.encCommit(Commit(Bump(sq), live, mroot))|);
      var s0, lim;
      if head + foot <= |media| - 1 { s0, lim := head, |media| - 1; }
      else if 1 + foot <= logStart { s0, lim := 1, logStart; }
      else {
        CodeLate(f, c, l, lib, ids, FULL, errs, errs);
        return FULL, p;
      }
      if EvenCommits(f, live, mroot) { PassFits(f, l, lib, s0, lim, ids); }
      rc, p := CompactInto(s0, lim, nkeep, ids);
      CodeLate(f, c, l, lib, ids, rc, old(errs), errs);
      if rc == OK && kept {
        StandsFor(f, c, l.media, l.epoch, lib.idx, lib.mroot, t);
        TreeSurvives(f, c, l, lib, Log(), Current(), p, t);
      }
    }
  }
}
