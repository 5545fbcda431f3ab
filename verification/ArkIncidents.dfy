/** Histories on the byte layout of arkfs.c in which ARK does not keep its promises, each
    derived record by record from the calls named: a stale compaction, a format, a half
    switch, and a block that imitates a commit.  The hash is collision free and the checksum
    is any 32-bit one. */
module ArkIncidents {
  import opened Wrappers
  import opened ArkFormat
  import opened ArkLog
  import opened ArkCrash
  import opened ArkLibrary
  import opened ArkTree
  import opened ArkMerkle
  import opened ArkLayout
  import opened ArkLimits
  import opened ArkSweep
  import opened ArkDamage

  function Disk(crc: Bytes -> nat): Format { Layout(WholeHash, crc) }

  ghost predicate Crc(crc: Bytes -> nat) { forall p :: crc(p) < U32 }

  /** A device full of zeros. */
  function BlankDisk(n: nat): Media { seq(n, _ => Sec(Zeros(512))) }

  // ---------------------------------------------------------------- records

  /** A commit of the empty table with this tree root. */
  function Seal(sq: nat, n: nat, root: Id): Rec { Rec(REC_COMMIT, sq, EncCommit(Commit(n, [], root))) }

  function Data(sq: nat, p: Bytes): Rec { Rec(REC_BLOCK, sq, p) }

  /** The root node of a tree with the one file "a". */
  function NodeOf(p: Bytes): Bytes { EncNode([Ment(MENT_FILE, |p|, WholeHash(p), [B(0x61)])]) }

  function RootOf(p: Bytes): Id { WholeHash(NodeOf(p)) }

  /** What ark_mtree_put("a", p) appends when sq records were written before: content, node and
      the commit twice.  ark_compact rewrites the same library as these records from 0, if its walk
      over the index meets the content before the node (the other order takes as many sectors). */
  function PutRecs(sq: nat, p: Bytes): seq<Rec> {
    [Data(sq + 1, p), Data(sq + 2, NodeOf(p)), Seal(sq + 3, sq + 3, RootOf(p)), Seal(sq + 4, sq + 3, RootOf(p))]
  }

  function First(): Rec { Seal(1, 1, Zeros(32)) }

  lemma {:induction false} DiskOk(crc: Bytes -> nat)
    requires Crc(crc)
    ensures FormatOk(Disk(crc)) && Disk(crc).Sound() && FirstRec(Disk(crc)) == First()
  {
    hide Format.Sound, Format.Injective;
    WholeLayoutOk(crc);
  }

  lemma {:induction false} SealIs(crc: Bytes -> nat, e: nat, sq: nat, n: nat, root: Id)
    requires Crc(crc) && IdOk(root) && n < U32
    ensures Quiet(Disk(crc), e, Seal(sq, n, root).payload) && |Seal(sq, n, root).payload| == 44 && Span(Seal(sq, n, root)) == 2
    ensures Disk(crc).CommitOk(Commit(n, [], root))
  {
    hide EncCommit, DecCommit, Quiet, QuietLater;
    EmptyCommitQuiet(WholeHash, crc, e, n, root);
    CommitRoundTrip(Commit(n, [], root));
  }

  lemma {:induction false} DataIs(crc: Bytes -> nat, e: nat, sq: nat, p: Bytes)
    requires 0 < |p| <= 512 && p[0] != B(0x41)
    ensures Quiet(Disk(crc), e, p) && Span(Data(sq, p)) == 2
  {
    hide Quiet, QuietLater;
    assert Sectors(|p|) == 1 && Chunk(p, 0) == p;
    assert Take(p, 4)[0] == p[0];
    PlainQuiet(WholeHash, crc, e, p);
  }

  lemma {:induction false} NodeIs(p: Bytes)
    requires |p| < U32
    ensures |NodeOf(p)| == 96 && NodeOf(p)[0] == B(0x44) && IdOk(RootOf(p)) && RootOf(p) != Zeros(32)
  {
    hide Cat, DecNode, Put4;
    var m := Ment(MENT_FILE, |p|, WholeHash(p), [B(0x61)]);
    assert MentFits(m) by { NameIs(); }
    NodeRoundTrip([m]);
    NodeTag([m]);
    assert RootOf(p)[0] != Zeros(32)[0];
  }

  lemma {:induction false} NameIs()
    ensures NameOk([B(0x61)])
  {
  }

  lemma {:induction false} NodeTag(es: seq<Ment>)
    ensures |EncNode(es)| > 0 && EncNode(es)[0] == B(0x44)
  {
    hide Cat;
    assert Put4(MNODE_MAGIC)[0] == B(0x44);
  }

  /** A tree put takes eight sectors, all of them quiet. */
  lemma {:induction false} PutIs(crc: Bytes -> nat, e: nat, sq: nat, p: Bytes)
    requires Crc(crc) && 0 < |p| <= 512 && p[0] != B(0x41) && sq < 1000
    ensures QuietRecs(Disk(crc), e, PutRecs(sq, p)) && Spans(PutRecs(sq, p)) == 8
    ensures Disk(crc).CommitOk(Commit(sq + 3, [], RootOf(p)))
  {
    hide Quiet, NodeOf, RootOf, EncCommit, Disk;
    NodeIs(p);
    DataIs(crc, e, sq + 1, p);
    DataIs(crc, e, sq + 2, NodeOf(p));
    SealIs(crc, e, sq + 3, sq + 3, RootOf(p));
    SealIs(crc, e, sq + 4, sq + 3, RootOf(p));
    FourSpans(Data(sq + 1, p), Data(sq + 2, NodeOf(p)), Seal(sq + 3, sq + 3, RootOf(p)), Seal(sq + 4, sq + 3, RootOf(p)));
  }

  lemma {:induction false} FourSpans(a: Rec, b: Rec, c: Rec, d: Rec)
    ensures Spans([a, b, c, d]) == Span(a) + Span(b) + Span(c) + Span(d)
  {
    hide Span;
    assert [a, b, c, d] == [a] + [b] + [c] + [d];
    SpansSnoc([a] + [b] + [c], d);
    SpansSnoc([a] + [b], c);
    SpansSnoc([a], b);
    OneSpan(a);
  }

  lemma {:induction false} OneSpan(a: Rec)
    ensures Spans([a]) == Span(a) && Spans([]) == 0
  {
    assert [a][..0] == [];
  }

  lemma {:induction false} FirstIs(crc: Bytes -> nat, e: nat)
    requires Crc(crc)
    ensures QuietRecs(Disk(crc), e, [First()]) && Spans([First()]) == 2
  {
    hide Quiet, EncCommit, Disk;
    SealIs(crc, e, 1, 1, Zeros(32));
    OneSpan(First());
  }

  /** A log that ends with a seal shows its root and no files. */
  lemma {:induction false} EndsWith(crc: Bytes -> nat, cap: nat, start: nat, recs: seq<Rec>, sq: nat, n: nat, root: Id)
    requires Crc(crc) && IdOk(root) && n < U32 && recs != [] && recs[|recs| - 1] == Seal(sq, n, root)
    ensures Committed(recs) == recs
    ensures var c := CoreOf(Disk(crc), cap, start, recs); c.mroot == root && c.live == []
  {
    hide CoreOf, EncCommit, Disk;
    var k := |recs| - 1;
    DiskOk(crc);
    SealIs(crc, 0, sq, n, root);
    DiskEnc(crc);
    CommitEffect(Disk(crc), cap, start, recs[..k], recs[k], Commit(n, [], root));
    assert recs == recs[..k] + [recs[k]];
  }

  lemma {:induction false} DiskEnc(crc: Bytes -> nat)
    ensures Disk(crc).encCommit == EncCommit && Disk(crc).zero == Zeros(32)
  {
  }

  // ---------------------------------------------------------------- the common beginning

  /** A blank device holds no header at all. */
  lemma {:induction false} BlankHeader(crc: Bytes -> nat, m: Media, q: nat, e: nat)
    requires q < |m| && m[q] == Sec(Zeros(512))
    ensures !CommitHdrAt(Disk(crc), m, e, q)
  {
    assert Zeros(512)[..4][0] == B(0);
    NoMagic(WholeHash, crc, e, Zeros(512));
  }

  lemma {:induction false} BlankInv(crc: Bytes -> nat, n: nat, e: nat, start: nat, e0: nat)
    requires 2 <= n && 1 <= start <= n - 1
    ensures LogInv(Disk(crc), Supered(Disk(crc), BlankDisk(n), 1, e0), e, start, [])
  {
    hide Disk, CommitHdrAt, ValidCommit;
    var f, m := Disk(crc), Supered(Disk(crc), BlankDisk(n), 1, e0);
    forall q | start <= q < End(m) ensures !ValidCommit(f, m, e, q) {
      BlankHeader(crc, m, q, e);
      NoHdrNoCommit(f, m, e, q);
    }
  }

  /** ark_format on a blank device of n sectors. */
  function Fresh(crc: Bytes -> nat, n: nat): Media
    requires n >= 4
  {
    WriteAll(Disk(crc), 1, Supered(Disk(crc), BlankDisk(n), 1, 1), 1, [First()])
  }

  lemma {:induction false} FreshInv(crc: Bytes -> nat, n: nat)
    requires Crc(crc) && 4 <= n
    ensures LogInv(Disk(crc), Fresh(crc, n), 1, 1, [First()]) && |Fresh(crc, n)| == n
  {
    hide LogInv, Disk, Spans, QuietRecs, WriteAll, FormatOk, First, Supered, BlankDisk, Format.Sound;
    var f := Disk(crc);
    DiskOk(crc);
    BlankInv(crc, n, 1, 1, 1);
    FirstIs(crc, 1);
    OneSpan(First());
    BlankSize(crc, n);
    WriteAllInv(f, 1, Supered(f, BlankDisk(n), 1, 1), 1, [], [First()]);
    assert [] + [First()] == [First()];
  }

  lemma {:induction false} BlankSize(crc: Bytes -> nat, n: nat)
    requires n > 0
    ensures |BlankDisk(n)| == n && |Supered(Disk(crc), BlankDisk(n), 1, 1)| == n
  {
  }

  /** ark_format, then ark_mtree_put("a", p): eleven sectors. */
  function Started(crc: Bytes -> nat, n: nat, p: Bytes): Media
    requires n >= 4
  {
    WriteAll(Disk(crc), 1, Fresh(crc, n), 3, PutRecs(1, p))
  }

  function StartRecs(p: Bytes): seq<Rec> { [First()] + PutRecs(1, p) }

  /** Contents of one sector that do not begin like a record. */
  predicate Small(p: Bytes) { 0 < |p| <= 512 && p[0] != B(0x41) }

  lemma {:induction false} StartedInv(crc: Bytes -> nat, n: nat, p: Bytes)
    requires Crc(crc) && 12 <= n && Small(p)
    ensures LogInv(Disk(crc), Started(crc, n, p), 1, 1, StartRecs(p)) && Spans(StartRecs(p)) == 10 && |Started(crc, n, p)| == n
  {
    hide LogInv, Disk, Spans, QuietRecs, WriteAll, FormatOk, First, PutRecs, Fresh, Format.Sound;
    DiskOk(crc);
    FreshInv(crc, n);
    FirstIs(crc, 1);
    PutIs(crc, 1, 1, p);
    WriteAllInv(Disk(crc), 1, Fresh(crc, n), 1, [First()], PutRecs(1, p));
  }

  lemma {:induction false} LastSeal(sq: nat, p: Bytes)
    ensures |PutRecs(sq, p)| == 4 && PutRecs(sq, p)[3] == Seal(sq + 4, sq + 3, RootOf(p))
  {
  }

  /** A log that ends with a tree put of p shows its root. */
  lemma {:induction false} PutShows(crc: Bytes -> nat, cap: nat, start: nat, base: seq<Rec>, sq: nat, p: Bytes)
    requires Crc(crc) && Small(p) && sq < 1000
    ensures Committed(base + PutRecs(sq, p)) == base + PutRecs(sq, p)
    ensures CoreOf(Disk(crc), cap, start, base + PutRecs(sq, p)).mroot == RootOf(p) != Zeros(32)
  {
    hide CoreOf, Disk, PutRecs, RootOf, Seal, Committed;
    NodeIs(p);
    LastSeal(sq, p);
    EndsWith(crc, cap, start, base + PutRecs(sq, p), sq + 4, sq + 3, RootOf(p));
  }

  // ---------------------------------------------------------------- a stale compaction

  /** A block of seven sectors that no commit ever names. */
  function Scratch(): Bytes { Zeros(3584) }

  /** What the interrupted compaction writes: the block and the commit of the empty library. */
  function StaleRecs(): seq<Rec> { [Data(1, Scratch()), Seal(2, 2, Zeros(32)), Seal(3, 2, Zeros(32))] }

  lemma {:induction false} ScratchIs(crc: Bytes -> nat, e: nat, sq: nat)
    ensures Quiet(Disk(crc), e, Scratch()) && |Scratch()| == 3584 && Span(Data(sq, Scratch())) == 8
  {
    hide Quiet, QuietLater;
    var p := Scratch();
    forall i | 0 <= i < Sectors(|p|) ensures Take(Chunk(p, i), 4) != REC_MAGIC {
      assert Chunk(p, i)[0] == B(0);
      assert Take(Chunk(p, i), 4)[0] == B(0);
    }
    PlainQuiet(WholeHash, crc, e, p);
  }

  lemma {:induction false} StaleIs(crc: Bytes -> nat, e: nat)
    requires Crc(crc)
    ensures QuietRecs(Disk(crc), e, StaleRecs()) && Spans(StaleRecs()) == 12
    ensures StaleRecs() == [Data(1, Scratch())] + [Seal(2, 2, Zeros(32)), Seal(3, 2, Zeros(32))] && Spans([Data(1, Scratch())]) == 8
    ensures QuietRecs(Disk(crc), e, [Data(2, Scratch())]) && Spans([Data(2, Scratch())]) == 8
  {
    hide Quiet, Scratch, EncCommit, Disk;
    ScratchIs(crc, e, 1);
    ScratchIs(crc, e, 2);
    SealIs(crc, e, 2, 2, Zeros(32));
    SealIs(crc, e, 3, 2, Zeros(32));
    var a, b, c := Data(1, Scratch()), Seal(2, 2, Zeros(32)), Seal(3, 2, Zeros(32));
    assert StaleRecs() == [a] + [b] + [c];
    SpansSnoc([a] + [b], c);
    SpansSnoc([a], b);
    OneSpan(a);
    OneSpan(Data(2, Scratch()));
  }

  /** ark_format; ark_block_put without a commit; ark_compact, cut before its superblock. */
  function CutCompaction(crc: Bytes -> nat): Media {
    WriteAll(Disk(crc), 2, WriteAll(Disk(crc), 1, Fresh(crc, 24), 3, [Data(2, Scratch())]), 11, StaleRecs())
  }

  lemma {:induction false} CutInv(crc: Bytes -> nat)
    requires Crc(crc)
    ensures LogInv(Disk(crc), CutCompaction(crc), 1, 1, [First()]) && |CutCompaction(crc)| == 24
    ensures Laid(Disk(crc), CutCompaction(crc), 2, 19, [Seal(2, 2, Zeros(32)), Seal(3, 2, Zeros(32))])
  {
    hide LogInv, Disk, Spans, QuietRecs, WriteAll, FormatOk, First, StaleRecs, Fresh, Scratch, Seal, Laid, Format.Sound, Committed;
    var f, x := Disk(crc), [Data(2, Scratch())];
    var m := WriteAll(f, 1, Fresh(crc, 24), 3, x);
    DiskOk(crc);
    FreshInv(crc, 24);
    FirstIs(crc, 1);
    StaleIs(crc, 1);
    StaleIs(crc, 2);
    WriteAllInv(f, 1, Fresh(crc, 24), 1, [First()], x);
    WriteAllForeign(f, 1, 2, m, 1, [First()] + x, 11, StaleRecs());
    FirstCommitted(x[0]);
    CommittedInv(f, CutCompaction(crc), 1, 1, [First()] + x);
    WriteAllLaid(f, 2, m, 11, StaleRecs());
    LaidRest(f, CutCompaction(crc), 2, 11, [Data(1, Scratch())], [Seal(2, 2, Zeros(32)), Seal(3, 2, Zeros(32))]);
  }

  lemma {:induction false} FirstCommitted(x: Rec)
    requires x.kind != REC_COMMIT
    ensures Committed([First()] + [x]) == [First()]
  {
    hide First;
    CommittedSnocIs([First()], x);
    assert First().kind == REC_COMMIT by { FirstKind(); }
  }

  lemma {:induction false} FirstSeal()
    ensures First() == Seal(1, 1, Zeros(32))
  {
  }

  lemma {:induction false} FirstKind()
    ensures First().kind == REC_COMMIT
  {
  }

  /** After the power loss: mount, then ark_mtree_put("a", p). */
  function CutThenPut(crc: Bytes -> nat, p: Bytes): Media { WriteAll(Disk(crc), 1, CutCompaction(crc), 3, PutRecs(1, p)) }

  /** Then ark_compact again, this time to its end. */
  function Recompacted(crc: Bytes -> nat, p: Bytes): Media {
    Supered(Disk(crc), WriteAll(Disk(crc), 2, CutThenPut(crc, p), 11, PutRecs(0, p)), 11, 2)
  }

  lemma {:induction false} SuperAt(crc: Bytes -> nat, m: Media, start: nat, e: nat)
    requires |m| > 0
    ensures Supered(Disk(crc), m, start, e)[0] == Primaried(Disk(crc), m, start, e)[0] || |m| == 1
    ensures Primaried(Disk(crc), m, start, e)[0] == Sec(Disk(crc).encSuper(Super(FMT_VERSION, SECTOR, start, |m|, e)))
    ensures Agree(m, Supered(Disk(crc), m, start, e), 1, End(m)) && Agree(m, Primaried(Disk(crc), m, start, e), 1, |m|)
  {
    hide Disk;
  }

  /** Stale epoch: format, an uncommitted block, a compaction cut before its switch, a remount, a
      tree put and a second compaction that succeeds.  Before the switch the medium shows the
      tree that was put; after it, mount shows the empty tree of the interrupted attempt. */
  lemma {:induction false} StaleCompactionWins(crc: Bytes -> nat, p: Bytes)
    requires Crc(crc) && Small(p)
    ensures var f := Disk(crc);
            var cut, u, v := MountOf(f, CutCompaction(crc)), MountOf(f, CutThenPut(crc, p)), MountOf(f, Recompacted(crc, p));
            && cut.Up? && cut.epoch == 1 && cut.head == 3
            && u.Up? && u.head == 11 && u.core.mroot == RootOf(p) != f.zero
            && v.Up? && v.epoch == 2 && v.start == 11 && v.core.mroot == f.zero
  {
    hide LogInv, Disk, Spans, QuietRecs, WriteAll, FormatOk, First, PutRecs, Fresh, Seal, Laid, Format.Sound, Committed, CutCompaction, RootOf, Supered,
         MountOf, CoreOf, Agree;
    var f, m0, m1 := Disk(crc), CutCompaction(crc), CutThenPut(crc, p);
    var stale := [Seal(2, 2, Zeros(32)), Seal(3, 2, Zeros(32))];
    DiskOk(crc);
    DiskEnc(crc);
    CutInv(crc);
    FirstIs(crc, 1);
    PutIs(crc, 1, 1, p);
    PutIs(crc, 2, 0, p);
    WriteAllInv(f, 1, m0, 1, [First()], PutRecs(1, p));
    CutSuper(crc, p);
    MountsAs(f, m0, 1, 1, [First()]);
    FirstSeal();
    EndsWith(crc, CapOf(24), 1, [First()], 1, 1, Zeros(32));
    MountsAs(f, m1, 1, 1, [First()] + PutRecs(1, p));
    PutShows(crc, CapOf(24), 1, [First()], 1, p);
    var m2 := WriteAll(f, 2, m1, 11, PutRecs(0, p));
    WriteAllLaid(f, 2, m1, 11, PutRecs(0, p));
    var m3 := Recompacted(crc, p);
    SuperAt(crc, m2, 11, 2);
    WriteAllElse(f, 1, m0, 3, PutRecs(1, p), 19, 23);
    WriteAllElse(f, 2, m1, 11, PutRecs(0, p), 19, 23);
    AgreeTrans(m0, m1, m2, 19, 23);
    RecompactedLog(crc, p, m0, m2, m3, stale);
    MountsAs(f, m3, 2, 11, PutRecs(0, p) + stale);
    EndsWith(crc, CapOf(24), 11, PutRecs(0, p) + stale, 3, 2, Zeros(32));
  }

  lemma {:induction false} CutSuper(crc: Bytes -> nat, p: Bytes)
    requires Crc(crc) && Small(p)
    ensures |CutThenPut(crc, p)| == |CutCompaction(crc)| == 24 && CutThenPut(crc, p)[0] == CutCompaction(crc)[0] == Sec(Disk(crc).encSuper(Super(FMT_VERSION, SECTOR, 1, 24, 1)))
  {
    hide Disk, Spans, PutRecs, First, StaleRecs;
    BlankSize(crc, 24);
    SuperAt(crc, BlankDisk(24), 1, 1);
  }

  lemma {:induction false} RecompactedLog(crc: Bytes -> nat, p: Bytes, m0: Media, m2: Media, m3: Media, stale: seq<Rec>)
    requires Crc(crc) && Small(p) && |m0| == |m2| == |m3| == 24 && stale == [Seal(2, 2, Zeros(32)), Seal(3, 2, Zeros(32))]
    requires Laid(Disk(crc), m0, 2, 19, stale) && Agree(m0, m2, 19, 23) && Agree(m2, m3, 1, 23)
    requires Laid(Disk(crc), m2, 2, 11, PutRecs(0, p))
    ensures LogInv(Disk(crc), m3, 2, 11, PutRecs(0, p) + stale)
  {
    hide Disk, Laid, LogInv, PutRecs, Seal, QuietRecs;
    var f := Disk(crc);
    PutIs(crc, 2, 0, p);
    SealIs(crc, 2, 2, 2, Zeros(32));
    SealIs(crc, 2, 3, 2, Zeros(32));
    TwoSpans(stale[0], stale[1]);
    LaidFrame(f, m2, m3, 2, 11, PutRecs(0, p));
    LaidFrame(f, m0, m3, 2, 19, stale);
    LaidJoin(f, m3, 2, 11, PutRecs(0, p), stale);
    SealKind(3, 2, Zeros(32));
    FullInv(f, m3, 2, 11, PutRecs(0, p) + stale);
  }

  lemma {:induction false} SealKind(sq: nat, n: nat, root: Id)
    ensures Seal(sq, n, root).kind == REC_COMMIT
  {
  }

  lemma {:induction false} TwoSpans(a: Rec, b: Rec)
    ensures Spans([a, b]) == Span(a) + Span(b)
  {
    hide Span;
    assert [a, b] == [a] + [b];
    SpansSnoc([a], b);
    OneSpan(a);
  }

  // ---------------------------------------------------------------- formats that show the old library

  lemma {:induction false} NextIs(crc: Bytes -> nat, m: Media, start: nat, e: nat)
    requires Crc(crc) && 1 < |m| < U32 && start < U32 && e + 1 < U32 && m[0] == Sec(Disk(crc).encSuper(Super(FMT_VERSION, SECTOR, start, |m|, e)))
    ensures NextEpoch(Disk(crc), m) == e + 1
  {
    hide Disk;
    DiskOk(crc);
    assert Disk(crc).SuperOk(Super(FMT_VERSION, SECTOR, start, |m|, e));
  }

  /** Unreadable primary: on a volume of epoch 1 sector 0 can no longer be read, while the
      replica still mounts.  ark_format stamps epoch 1 again and writes, sector for sector, the
      medium of the old library: mount shows the old tree. */
  lemma {:induction false} FormatRestoresOld(crc: Bytes -> nat, p: Bytes)
    requires Crc(crc) && Small(p)
    ensures var f, m := Disk(crc), Started(crc, 16, p); var bad := m[0 := Unreadable];
            && SuperOf(f, bad).Some? && SuperOf(f, bad).value.epoch == 1 && NextEpoch(f, bad) == 1
            && AfterFormat(f, bad) == m && MountOf(f, m).Up? && MountOf(f, m).core.mroot == RootOf(p) != f.zero
  {
    hide LogInv, Disk, Spans, QuietRecs, FormatOk, PutRecs, First, Seal, Format.Sound, Committed, RootOf, MountOf, CoreOf, WriteAll, Image, Supered;
    var f, m := Disk(crc), Started(crc, 16, p);
    var bad := m[0 := Unreadable];
    DiskOk(crc);
    DiskEnc(crc);
    StartedInv(crc, 16, p);
    StartedSupers(crc, 16, p);
    MountsAs(f, m, 1, 1, StartRecs(p));
    PutShows(crc, CapOf(16), 1, [First()], 1, p);
    assert f.SuperOk(Super(FMT_VERSION, SECTOR, 1, 16, 1));
    assert SuperIn(f, bad[15]) == Some(Super(FMT_VERSION, SECTOR, 1, 16, 1)) by { ReplicaReads(f, bad[15], 16); }
    FormatAgain(crc, p, m, bad);
  }

  lemma {:induction false} ReplicaReads(f: Format, c: Cell, n: nat)
    requires f.Sound() && n < U32 && c == Sec(f.encSuper(Super(FMT_VERSION, SECTOR, 1, n, 1)))
    ensures SuperIn(f, c) == Some(Super(FMT_VERSION, SECTOR, 1, n, 1))
  {
    assert f.SuperOk(Super(FMT_VERSION, SECTOR, 1, n, 1));
  }

  lemma {:induction false} StartedSupers(crc: Bytes -> nat, n: nat, p: Bytes)
    requires Crc(crc) && 12 <= n && Small(p)
    ensures |Started(crc, n, p)| == n
    ensures var sb := Sec(Disk(crc).encSuper(Super(FMT_VERSION, SECTOR, 1, n, 1))); Started(crc, n, p)[0] == sb && Started(crc, n, p)[n - 1] == sb
    ensures Agree(Fresh(crc, n), Started(crc, n, p), 0, 3)
  {
    hide Disk, Spans, PutRecs, First;
    FirstIs(crc, 1);
    PutIs(crc, 1, 1, p);
    BlankSize(crc, n);
  }

  /** Formatting with the same epoch writes what is there already. */
  lemma {:induction false} FormatAgain(crc: Bytes -> nat, p: Bytes, m: Media, bad: Media)
    requires Crc(crc) && Small(p) && m == Started(crc, 16, p) && |m| == 16 && bad == m[0 := Unreadable] && Agree(Fresh(crc, 16), m, 0, 3)
    requires var sb := Sec(Disk(crc).encSuper(Super(FMT_VERSION, SECTOR, 1, 16, 1))); m[0] == sb && m[15] == sb
    ensures NextEpoch(Disk(crc), bad) == 1 && AfterFormat(Disk(crc), bad) == m
  {
    hide Disk, Spans, Image, PutRecs, Started;
    var f := Disk(crc);
    DiskOk(crc);
    FirstIs(crc, 1);
    var a, b := Supered(f, bad, 1, 1), Supered(f, BlankDisk(16), 1, 1);
    OneSpan(First());
    OneLands(f, 1, a, 1, First());
    OneLands(f, 1, b, 1, First());
    var r := AfterFormat(f, bad);
    forall q | 0 <= q < 16 ensures r[q] == m[q] {
      assert q < 3 ==> Fresh(crc, 16)[q] == m[q];
    }
  }

  /** No commit header of epoch e lies in [lo, hi). */
  ghost predicate Bare(f: Format, m: Media, e: nat, lo: nat, hi: nat) {
    hi <= |m| && forall q :: lo <= q < hi ==> !CommitHdrAt(f, m, e, q)
  }

  lemma {:induction false} BareWrites(f: Format, e: nat, e': nat, m: Media, pos: nat, recs: seq<Rec>, lo: nat, hi: nat)
    requires FormatOk(f) && e' < U32 && e != e' && QuietRecs(f, e, recs) && pos + Spans(recs) <= |m| && Bare(f, m, e, lo, hi)
    ensures Bare(f, WriteAll(f, e', m, pos, recs), e, lo, hi)
  {
    hide Spans, Image, QuietRecs, FormatOk, CommitHdr, WriteAll;
    WriteAllOver(f, e, e', m, pos, recs);
    var r := WriteAll(f, e', m, pos, recs);
    forall q | lo <= q < hi ensures !CommitHdrAt(f, r, e, q) {
      assert !CommitHdrAt(f, m, e, q);
      if !(pos <= q < pos + Spans(recs)) { assert r[q] == m[q]; }
    }
  }

  lemma {:induction false} BareAgree(f: Format, m: Media, m': Media, e: nat, lo: nat, hi: nat)
    requires Bare(f, m, e, lo, hi) && Agree(m, m', lo, hi)
    ensures Bare(f, m', e, lo, hi)
  {
    hide CommitHdr;
    forall q | lo <= q < hi ensures !CommitHdrAt(f, m', e, q) { assert m'[q] == m[q] && !CommitHdrAt(f, m, e, q); }
  }

  /** ark_format, ark_mtree_put("a", p), ark_compact into the tail. */
  function Compacted(crc: Bytes -> nat, p: Bytes): Media {
    Supered(Disk(crc), WriteAll(Disk(crc), 2, Started(crc, 20, p), 11, PutRecs(0, p)), 11, 2)
  }

  /** Then ark_compact into the dead front, cut before its superblock. */
  function FrontCut(crc: Bytes -> nat, p: Bytes): Media { WriteAll(Disk(crc), 3, Compacted(crc, p), 1, PutRecs(0, p)) }

  lemma {:induction false} StartedBare(crc: Bytes -> nat, n: nat, p: Bytes, e: nat)
    requires Crc(crc) && 12 <= n && Small(p) && e != 1
    ensures Bare(Disk(crc), Started(crc, n, p), e, 1, n - 1)
  {
    hide Disk, Spans, PutRecs, First, WriteAll, QuietRecs, FormatOk, Format.Sound, CommitHdrAt;
    var f := Disk(crc);
    DiskOk(crc);
    FirstIs(crc, e);
    PutIs(crc, e, 1, p);
    BlankSize(crc, n);
    var m := Supered(f, BlankDisk(n), 1, 1);
    forall q | 1 <= q < n - 1 ensures !CommitHdrAt(f, m, e, q) { BlankHeader(crc, m, q, e); }
    BareWrites(f, e, 1, m, 1, [First()], 1, n - 1);
    BareWrites(f, e, 1, Fresh(crc, n), 3, PutRecs(1, p), 1, n - 1);
  }

  lemma {:induction false} CompactedInv(crc: Bytes -> nat, p: Bytes)
    requires Crc(crc) && Small(p)
    ensures var f, m := Disk(crc), Compacted(crc, p);
            && |m| == 20 && LogInv(f, m, 2, 11, PutRecs(0, p)) && Bare(f, m, 3, 1, 19)
            && m[0] == Sec(f.encSuper(Super(FMT_VERSION, SECTOR, 11, 20, 2)))
  {
    hide LogInv, Disk, Spans, PutRecs, WriteAll, QuietRecs, FormatOk, Format.Sound, Started, Bare, Laid, Supered, Agree;
    var f, a := Disk(crc), Started(crc, 20, p);
    var b := WriteAll(f, 2, a, 11, PutRecs(0, p));
    DiskOk(crc);
    PutIs(crc, 2, 0, p);
    PutIs(crc, 3, 0, p);
    StartedInv(crc, 20, p);
    StartedBare(crc, 20, p, 3);
    WriteAllLaid(f, 2, a, 11, PutRecs(0, p));
    BareWrites(f, 3, 2, a, 11, PutRecs(0, p), 1, 19);
    SuperAt(crc, b, 11, 2);
    BareAgree(f, b, Compacted(crc, p), 3, 1, 19);
    AgreePart(b, Compacted(crc, p), 1, 19, 11, 19);
    LaidFrame(f, b, Compacted(crc, p), 2, 11, PutRecs(0, p));
    LastSeal(0, p);
    SealKind(4, 3, RootOf(p));
    FullInv(f, Compacted(crc, p), 2, 11, PutRecs(0, p));
  }

  lemma {:induction false} AgreePart(a: Media, b: Media, lo: nat, hi: nat, lo': nat, hi': nat)
    requires Agree(a, b, lo, hi) && lo <= lo' && hi' <= hi
    ensures Agree(a, b, lo', hi')
  {
  }

  /** Interrupted compaction, then format: the format stamps the epoch of the interrupted
      attempt, whose records follow its own commit, and mount shows the old tree. */
  lemma {:induction false} FormatShowsStale(crc: Bytes -> nat, p: Bytes)
    requires Crc(crc) && Small(p)
    ensures var f, m := Disk(crc), FrontCut(crc, p); var u, v := MountOf(f, m), MountOf(f, AfterFormat(f, m));
            && u.Up? && u.epoch == 2 && u.core.mroot == RootOf(p) && NextEpoch(f, m) == 3
            && v.Up? && v.epoch == 3 && v.core.mroot == RootOf(p) != f.zero
  {
    hide LogInv, Disk, Spans, PutRecs, WriteAll, QuietRecs, FormatOk, Format.Sound, Compacted, Bare, Supered, Agree, MountOf, CoreOf, Committed,
         First, RootOf, AfterFormat, NextEpoch, Laid;
    var f, m := Disk(crc), FrontCut(crc, p);
    DiskOk(crc);
    DiskEnc(crc);
    CompactedInv(crc, p);
    PutIs(crc, 2, 0, p);
    PutIs(crc, 3, 0, p);
    WriteAllForeign(f, 2, 3, Compacted(crc, p), 11, PutRecs(0, p), 1, PutRecs(0, p));
    MountsAs(f, m, 2, 11, PutRecs(0, p));
    assert [] + PutRecs(0, p) == PutRecs(0, p);
    PutShows(crc, CapOf(20), 11, [], 0, p);
    NextIs(crc, m, 11, 2);
    WriteAllLaid(f, 3, Compacted(crc, p), 1, PutRecs(0, p));
    WriteAllElse(f, 3, Compacted(crc, p), 1, PutRecs(0, p), 9, 19);
    BarePart(f, Compacted(crc, p), 3, 1, 19, 9);
    BareAgree(f, Compacted(crc, p), m, 3, 9, 19);
    StaleFormat(crc, p, m);
  }

  lemma {:induction false} BarePart(f: Format, m: Media, e: nat, lo: nat, hi: nat, lo': nat)
    requires Bare(f, m, e, lo, hi) && lo <= lo'
    ensures Bare(f, m, e, lo', hi)
  {
  }

  /** The records of the interrupted attempt behind its first one. */
  function LeftRecs(p: Bytes): seq<Rec> { PutRecs(0, p)[1..] }

  lemma {:induction false} StaleFormat(crc: Bytes -> nat, p: Bytes, m: Media)
    requires Crc(crc) && Small(p) && |m| == 20 && NextEpoch(Disk(crc), m) == 3
    requires Laid(Disk(crc), m, 3, 1, PutRecs(0, p)) && Bare(Disk(crc), m, 3, 9, 19)
    ensures var f := Disk(crc); var v := MountOf(f, AfterFormat(f, m)); v.Up? && v.epoch == 3 && v.core.mroot == RootOf(p) != f.zero
  {
    hide LogInv, Disk, Spans, WriteAll, QuietRecs, FormatOk, Format.Sound, Bare, Supered, MountOf, CoreOf, Committed, First, RootOf,
         NextEpoch, Laid, Data, Seal;
    var f, r := Disk(crc), AfterFormat(Disk(crc), m);
    var s := Supered(f, m, 1, 3);
    DiskOk(crc);
    DiskEnc(crc);
    FirstIs(crc, 3);
    PutIs(crc, 3, 0, p);
    NodeIs(p);
    LeftIs(crc, p);
    SuperAt(crc, m, 1, 3);
    WriteAllLaid(f, 3, s, 1, [First()]);
    WriteAllElse(f, 3, s, 1, [First()], 3, 19);
    WriteAllElse(f, 3, s, 1, [First()], 0, 1);
    AgreePart(m, s, 1, 19, 3, 19);
    AgreeTrans(m, s, r, 3, 19);
    LaidRest(f, m, 3, 1, [Data(1, p)], LeftRecs(p));
    LaidFrame(f, m, r, 3, 3, LeftRecs(p));
    LaidJoin(f, r, 3, 1, [First()], LeftRecs(p));
    AgreePart(m, r, 3, 19, 9, 19);
    BareAgree(f, m, r, 3, 9, 19);
    var recs := [First()] + LeftRecs(p);
    EndsWith(crc, CapOf(20), 1, recs, 4, 3, RootOf(p));
    BareInv(f, r, 3, 1, recs);
    MountsAs(f, r, 3, 1, recs);
  }

  lemma {:induction false} LeftIs(crc: Bytes -> nat, p: Bytes)
    requires Crc(crc) && Small(p)
    ensures |LeftRecs(p)| == 3 && LeftRecs(p)[2] == Seal(4, 3, RootOf(p)) && PutRecs(0, p) == [Data(1, p)] + LeftRecs(p)
    ensures Spans([Data(1, p)]) == 2 && Spans(LeftRecs(p)) == 6
  {
    hide Spans, Seal, RootOf, NodeOf, QuietRecs;
    PutIs(crc, 0, 0, p);
    DataIs(crc, 0, 1, p);
    OneSpan(Data(1, p));
    assert PutRecs(0, p) == [Data(1, p)] + LeftRecs(p);
    SpansJoin([Data(1, p)], LeftRecs(p));
  }

  lemma {:induction false} BareInv(f: Format, m: Media, e: nat, start: nat, recs: seq<Rec>)
    requires 1 <= start && start + Spans(recs) <= End(m) && Laid(f, m, e, start, recs) && Committed(recs) == recs
    requires Bare(f, m, e, start + Spans(recs), |m| - 1)
    ensures LogInv(f, m, e, start, recs)
  {
    hide Spans, Laid, CommitHdrAt, ValidCommit, Committed;
    forall q | start + Spans(recs) <= q < End(m) ensures !ValidCommit(f, m, e, q) { NoHdrNoCommit(f, m, e, q); }
  }

  // ---------------------------------------------------------------- a half switch

  /** ark_format, ark_mtree_put("a", p), ark_compact whose replica superblock cannot be written. */
  function HalfSwitched(crc: Bytes -> nat, p: Bytes): Media {
    Primaried(Disk(crc), WriteAll(Disk(crc), 2, Started(crc, 20, p), 11, PutRecs(0, p)), 11, 2)
  }

  /** Half switch: ark_compact fails on the replica and puts memory back to the old epoch and
      the old head, which is where the new log begins.  The next tree put, of contents
      not stored yet, is acknowledged and overwrites that log; after a restart neither its tree
      nor the old one is there. */
  lemma {:induction false} HalfSwitchLosesAll(crc: Bytes -> nat, p: Bytes, p': Bytes)
    requires Crc(crc) && Small(p) && Small(p') && p' != p && p' != NodeOf(p) && NodeOf(p') != p
    ensures var f, m := Disk(crc), HalfSwitched(crc, p); var m' := WriteAll(f, 1, m, 11, PutRecs(5, p')); var u, v := MountOf(f, m), MountOf(f, m');
            && u.Up? && u.epoch == 2 && u.start == 11 && u.core.mroot == RootOf(p) != f.zero
            && Laid(f, m', 1, 11, PutRecs(5, p'))
            && v.Up? && v.epoch == 2 && v.start == v.head == 11 && LibOf(v.core) == EmptyLibrary(f)
  {
    hide LogInv, Disk, Spans, PutRecs, WriteAll, QuietRecs, FormatOk, Format.Sound, Bare, Primaried, Agree, MountOf, CoreOf, Committed, RootOf, Laid, Started;
    var f, m, a := Disk(crc), HalfSwitched(crc, p), Started(crc, 20, p);
    var b, m' := WriteAll(f, 2, a, 11, PutRecs(0, p)), WriteAll(f, 1, m, 11, PutRecs(5, p'));
    DiskOk(crc);
    DiskEnc(crc);
    PutIs(crc, 2, 0, p);
    PutIs(crc, 1, 5, p');
    PutIs(crc, 2, 5, p');
    StartedInv(crc, 20, p);
    SuperAt(crc, b, 11, 2);
    WriteAllLaid(f, 2, a, 11, PutRecs(0, p));
    AgreePart(b, m, 1, 20, 11, 19);
    LaidFrame(f, b, m, 2, 11, PutRecs(0, p));
    LastSeal(0, p);
    SealKind(4, 3, RootOf(p));
    FullInv(f, m, 2, 11, PutRecs(0, p));
    MountsAs(f, m, 2, 11, PutRecs(0, p));
    assert [] + PutRecs(0, p) == PutRecs(0, p);
    PutShows(crc, CapOf(20), 11, [], 0, p);
    WriteAllLaid(f, 1, m, 11, PutRecs(5, p'));
    WriteAllOver(f, 2, 1, m, 11, PutRecs(5, p'));
    NothingLeft(f, m, m', 2, 11);
    MountsAs(f, m', 2, 11, []);
    CoreNone(f, CapOf(20), 11);
    CommittedNone();
    EmptyIs(f);
  }

  lemma {:induction false} CommittedNone()
    ensures Committed([]) == []
  {
  }

  lemma {:induction false} NothingLeft(f: Format, m: Media, m': Media, e: nat, start: nat)
    requires 1 <= start <= End(m) && Overlaid(f, m, m', e, start, |m| - 1)
    ensures LogInv(f, m', e, start, [])
  {
    hide CommitHdrAt, ValidCommit;
    forall q | start <= q < End(m') ensures !ValidCommit(f, m', e, q) { NoHdrNoCommit(f, m', e, q); }
  }

  // ---------------------------------------------------------------- a block that imitates a commit

  /** A block whose fourth and fifth sectors are a commit record with root y. */
  function Disguised(crc: Bytes -> nat, y: Id): Bytes {
    Zeros(1536) + EncHdr(crc, HdrOf(Disk(crc), 1, Seal(4, 4, y))) + EncCommit(Commit(4, [], y))
  }

  /** ark_format; ark_block_put of the disguised block. */
  function PutDisguised(crc: Bytes -> nat, y: Id): Media { WriteAll(Disk(crc), 1, Fresh(crc, 10), 3, [Data(2, Disguised(crc, y))]) }

  /** Then a power loss, a mount, and ark_checkpoint. */
  function Imitated(crc: Bytes -> nat, y: Id): Media {
    WriteAll(Disk(crc), 1, PutDisguised(crc, y), 3, [Seal(2, 2, Zeros(32)), Seal(3, 2, Zeros(32))])
  }

  /** The mount after the power loss goes back to the commit of the format. */
  lemma {:induction false} RolledBack(crc: Bytes -> nat, y: Id)
    requires Crc(crc) && IdOk(y)
    ensures var u := MountOf(Disk(crc), PutDisguised(crc, y)); u.Up? && u.head == 3
  {
    hide Disk, Spans, WriteAll, FormatOk, Format.Sound, Laid, Fresh, Disguised, Image, RecAt, Seal, First, LogInv, LastCommitEnd, Replay, Committed, CommitIn;
    var f, x, m := Disk(crc), Data(2, Disguised(crc, y)), PutDisguised(crc, y);
    DiskOk(crc);
    FreshInv(crc, 10);
    FirstIs(crc, 1);
    DisguisedIs(crc, y);
    OneLands(f, 1, Fresh(crc, 10), 3, x);
    HdrFits(f, 1, x);
    LandedWhole(f, Fresh(crc, 10), m, 1, 3, x);
    WriteAllElse(f, 1, Fresh(crc, 10), 3, [x], 1, 3);
    InvLaid(f, Fresh(crc, 10), 1, 1, [First()]);
    LaidFrame(f, Fresh(crc, 10), m, 1, 1, [First()]);
    LaidSnoc(f, m, 1, 1, [First()], x);
    SpansSnoc([First()], x);
    LaidShows(f, m, 1, 1, [First()] + [x]);
    FirstCommitted(x);
    ScanEnds(f, ViewOf(f, m, 1), 1, End(m), 1, [First()] + [x]);
    ImitatedSuper(crc, y);
    assert SuperOf(f, m) == Some(Super(FMT_VERSION, SECTOR, 1, 10, 1)) by { SuperThere(f, m, m, Super(FMT_VERSION, SECTOR, 1, 10, 1)); }
  }

  lemma {:induction false} InvLaid(f: Format, m: Media, e: nat, start: nat, recs: seq<Rec>)
    requires LogInv(f, m, e, start, recs)
    ensures Laid(f, m, e, start, recs)
  {
  }

  lemma {:induction false} DisguisedIs(crc: Bytes -> nat, y: Id)
    requires Crc(crc) && IdOk(y)
    ensures var x := Disguised(crc, y); var img := Image(Disk(crc), 1, Data(2, x)); var fake := Image(Disk(crc), 1, Seal(4, 4, y));
            |x| == 2092 && |img| == 6 && |fake| == 2 && img[4] == fake[0] && img[5] == fake[1]
  {
    hide EncHdr, EncCommit, Disk;
    var f, x, c := Disk(crc), Disguised(crc, y), EncCommit(Commit(4, [], y));
    var h := EncHdr(crc, HdrOf(f, 1, Seal(4, 4, y)));
    SealIs(crc, 1, 4, 4, y);
    HashSize(crc, Seal(4, 4, y));
    HdrSize(crc, HdrOf(f, 1, Seal(4, 4, y)));
    ImageChunk(f, 1, Data(2, x), 3);
    ImageChunk(f, 1, Data(2, x), 4);
    assert Chunk(x, 3) == h;
    assert Chunk(x, 4) == c;
    ImageChunk(f, 1, Seal(4, 4, y), 0);
    assert Chunk(c, 0) == c;
    DiskHdr(crc, HdrOf(f, 1, Seal(4, 4, y)));
  }

  lemma {:induction false} HashSize(crc: Bytes -> nat, r: Rec)
    ensures IdOk(HdrOf(Disk(crc), 1, r).id)
  {
  }

  lemma {:induction false} DiskHdr(crc: Bytes -> nat, h: Hdr)
    ensures Disk(crc).encHdr(h) == EncHdr(crc, h)
  {
  }

  lemma {:induction false} HdrSize(crc: Bytes -> nat, h: Hdr)
    requires IdOk(h.id)
    ensures |EncHdr(crc, h)| == 512
  {
    hide Cat, Put4;
    HdrFields(h);
  }

  /** Resync: the uncommitted block is rolled back by the power loss, the checkpoint overwrites
      its first four sectors, and mount goes on inside its payload: it shows the tree root the
      block spelled, which no call ever committed.  The block is not quiet. */
  lemma {:induction false} ResyncAssumptionNeeded(crc: Bytes -> nat, y: Id)
    requires Crc(crc) && IdOk(y)
    ensures var f := Disk(crc); var u := MountOf(f, Imitated(crc, y));
            && u.Up? && u.head == 9 && u.core.mroot == y && !Quiet(f, 1, Disguised(crc, y))
            && MountOf(f, PutDisguised(crc, y)).Up? && MountOf(f, PutDisguised(crc, y)).head == 3
  {
    hide LogInv, Disk, Spans, WriteAll, QuietRecs, FormatOk, Format.Sound, MountOf, CoreOf, Committed, Laid, Fresh, Disguised, Image, RecAt, Seal;
    var f, m := Disk(crc), Imitated(crc, y);
    var x, k := Data(2, Disguised(crc, y)), [Seal(2, 2, Zeros(32)), Seal(3, 2, Zeros(32))];
    DiskOk(crc);
    FreshInv(crc, 10);
    FirstIs(crc, 1);
    SealIs(crc, 1, 2, 2, Zeros(32));
    SealIs(crc, 1, 3, 2, Zeros(32));
    SealIs(crc, 1, 4, 4, y);
    TwoSpans(k[0], k[1]);
    SealsQuiet(crc);
    var m1 := PutDisguised(crc, y);
    ImitatedLaid(crc, y, m1, m, x, k);
    var recs := [First()] + k + [Seal(4, 4, y)];
    SealKind(4, 4, y);
    FullInv(f, m, 1, 1, recs);
    ImitatedSuper(crc, y);
    MountsAs(f, m, 1, 1, recs);
    EndsWith(crc, CapOf(10), 1, recs, 4, 4, y);
    LoudBlock(crc, y);
    RolledBack(crc, y);
  }

  lemma {:induction false} SealsQuiet(crc: Bytes -> nat)
    requires Crc(crc)
    ensures QuietRecs(Disk(crc), 1, [Seal(2, 2, Zeros(32)), Seal(3, 2, Zeros(32))])
  {
    hide Quiet, Disk, EncCommit;
    SealIs(crc, 1, 2, 2, Zeros(32));
    SealIs(crc, 1, 3, 2, Zeros(32));
  }

  lemma {:induction false} ImitatedSuper(crc: Bytes -> nat, y: Id)
    ensures |Imitated(crc, y)| == |PutDisguised(crc, y)| == 10 && Imitated(crc, y)[0] == PutDisguised(crc, y)[0] == Sec(Disk(crc).encSuper(Super(FMT_VERSION, SECTOR, 1, 10, 1)))
  {
    hide Disk, Spans, Seal, Disguised;
    BlankSize(crc, 10);
  }

  lemma {:induction false} ImitatedLaid(crc: Bytes -> nat, y: Id, m1: Media, m: Media, x: Rec, k: seq<Rec>)
    requires Crc(crc) && IdOk(y) && x == Data(2, Disguised(crc, y)) && k == [Seal(2, 2, Zeros(32)), Seal(3, 2, Zeros(32))]
    requires m1 == WriteAll(Disk(crc), 1, Fresh(crc, 10), 3, [x]) && m == WriteAll(Disk(crc), 1, m1, 3, k) && Spans(k) == 4
    requires LogInv(Disk(crc), Fresh(crc, 10), 1, 1, [First()]) && |Fresh(crc, 10)| == 10 && QuietRecs(Disk(crc), 1, k) && Spans([First()]) == 2
    ensures Laid(Disk(crc), m, 1, 1, [First()] + k + [Seal(4, 4, y)]) && Spans([First()] + k + [Seal(4, 4, y)]) == 8
  {
    hide Disk, Spans, WriteAll, QuietRecs, FormatOk, Format.Sound, Laid, Fresh, Disguised, Image, RecAt, Seal, First, CommitHdrAt, ValidCommit;
    var f, s := Disk(crc), Seal(4, 4, y);
    DiskOk(crc);
    DisguisedIs(crc, y);
    SealIs(crc, 1, 4, 4, y);
    OneLands(f, 1, Fresh(crc, 10), 3, x);
    WriteAllElse(f, 1, Fresh(crc, 10), 3, [x], 0, 3);
    WriteAllElse(f, 1, m1, 3, k, 0, 3);
    WriteAllElse(f, 1, m1, 3, k, 7, 9);
    AgreeTrans(Fresh(crc, 10), m1, m, 0, 3);
    AgreePart(Fresh(crc, 10), m, 0, 3, 1, 3);
    LaidFrame(f, Fresh(crc, 10), m, 1, 1, [First()]);
    WriteAllLaid(f, 1, m1, 3, k);
    LaidJoin(f, m, 1, 1, [First()], k);
    assert m[7] == m1[7] && m[8] == m1[8];
    SealSmall(4, 4, y);
    HdrFits(f, 1, s);
    LandedWhole(f, m, m, 1, 7, s);
    LaidSnoc(f, m, 1, 1, [First()] + k, s);
    SpansSnoc([First()] + k, s);
  }

  lemma {:induction false} SealSmall(sq: nat, n: nat, root: Id)
    ensures Seal(sq, n, root).kind < U32 && Seal(sq, n, root).sq == sq
  {
  }

  lemma {:induction false} HdrBack(f: Format, h: Hdr)
    requires f.Sound() && f.HdrOk(h)
    ensures f.decHdr(f.encHdr(h)) == Some(h)
  {
  }

  lemma {:induction false} LoudBlock(crc: Bytes -> nat, y: Id)
    requires Crc(crc) && IdOk(y)
    ensures !Quiet(Disk(crc), 1, Disguised(crc, y))
  {
    hide Disk, Disguised, Seal, EncCommit, Format.Sound;
    var f, s, x := Disk(crc), Seal(4, 4, y), Disguised(crc, y);
    DiskOk(crc);
    DisguisedIs(crc, y);
    SealIs(crc, 1, 4, 4, y);
    SealSmall(4, 4, y);
    SealKind(4, 4, y);
    HdrFits(f, 1, s);
    ImageChunk(f, 1, Data(2, x), 3);
    HdrBack(f, HdrOf(f, 1, s));
    assert CommitHdr(f, 1, Take(Chunk(x, 3), 512));
  }

  // ---------------------------------------------------------------- a tree check that looks away

  /** The root node of the tree {"a": the bytes of the node of b, "b": {"a": x}}. */
  function TwinNode(x: Bytes): Bytes {
    EncNode([Ment(MENT_FILE, |NodeOf(x)|, WholeHash(NodeOf(x)), [B(0x61)]), Ment(MENT_DIR, 0, WholeHash(NodeOf(x)), [B(0x62)])])
  }

  /** What ark_mtree_put("b/a", x) appends behind ark_mtree_put("a", NodeOf(x)): content and root
      node; the node of b has the id of the file a and is not stored again. */
  function TwinRecs(x: Bytes): seq<Rec> {
    [Data(6, x), Data(7, TwinNode(x)), Seal(8, 8, WholeHash(TwinNode(x))), Seal(9, 8, WholeHash(TwinNode(x)))]
  }

  /** ark_format, ark_mtree_put("a", NodeOf(x)), ark_mtree_put("b/a", x). */
  function Twinned(crc: Bytes -> nat, x: Bytes): Media { WriteAll(Disk(crc), 1, Started(crc, 20, NodeOf(x)), 11, TwinRecs(x)) }

  function TwinLog(x: Bytes): seq<Rec> { StartRecs(NodeOf(x)) + TwinRecs(x) }

  lemma {:induction false} TwinNodeIs(x: Bytes)
    requires |x| < U32
    ensures |TwinNode(x)| == 184 && TwinNode(x)[0] == B(0x44) && IdOk(WholeHash(TwinNode(x)))
  {
    hide Cat, DecNode, Put4, NodeOf;
    NodeIs(x);
    var es := [Ment(MENT_FILE, |NodeOf(x)|, WholeHash(NodeOf(x)), [B(0x61)]), Ment(MENT_DIR, 0, WholeHash(NodeOf(x)), [B(0x62)])];
    assert MentFits(es[0]) && MentFits(es[1]) by {
      NameIs();
      NameBIs();
    }
    NodeRoundTrip(es);
    NodeTag(es);
  }

  lemma {:induction false} NameBIs()
    ensures NameOk([B(0x62)])
  {
  }

  lemma {:induction false} TwinRecsIs(crc: Bytes -> nat, e: nat, x: Bytes)
    requires Crc(crc) && Small(x)
    ensures QuietRecs(Disk(crc), e, TwinRecs(x)) && Spans(TwinRecs(x)) == 8
  {
    hide Quiet, TwinNode, EncCommit, Disk, WholeHash;
    TwinNodeIs(x);
    DataIs(crc, e, 6, x);
    DataIs(crc, e, 7, TwinNode(x));
    SealIs(crc, e, 8, 8, WholeHash(TwinNode(x)));
    SealIs(crc, e, 9, 8, WholeHash(TwinNode(x)));
    FourSpans(Data(6, x), Data(7, TwinNode(x)), Seal(8, 8, WholeHash(TwinNode(x))), Seal(9, 8, WholeHash(TwinNode(x))));
  }

  lemma {:induction false} NodeSmall(x: Bytes)
    requires Small(x)
    ensures Small(NodeOf(x))
  {
    hide NodeOf;
    NodeIs(x);
  }

  lemma {:induction false} TwinnedInv(crc: Bytes -> nat, x: Bytes)
    requires Crc(crc) && Small(x)
    ensures LogInv(Disk(crc), Twinned(crc, x), 1, 1, TwinLog(x)) && |Twinned(crc, x)| == 20
    ensures Twinned(crc, x)[0] == Sec(Disk(crc).encSuper(Super(FMT_VERSION, SECTOR, 1, 20, 1)))
    ensures |TwinLog(x)| == 9 && Pos(1, TwinLog(x), 5) == 11 && Spans(TwinLog(x)) == 18
  {
    hide LogInv, Disk, Spans, QuietRecs, WriteAll, FormatOk, TwinRecs, Started, NodeOf, Format.Sound, First, PutRecs;
    var p := NodeOf(x);
    DiskOk(crc);
    NodeSmall(x);
    StartedInv(crc, 20, p);
    StartedSupers(crc, 20, p);
    TwinRecsIs(crc, 1, x);
    WriteAllInv(Disk(crc), 1, Started(crc, 20, p), 1, StartRecs(p), TwinRecs(x));
    WriteAllElse(Disk(crc), 1, Started(crc, 20, p), 11, TwinRecs(x), 0, 1);
    LastSeal(1, p);
    assert |TwinRecs(x)| == 4 by { FourRecs(x); }
    assert TwinLog(x)[..5] == StartRecs(p);
  }

  lemma {:induction false} FourRecs(x: Bytes)
    ensures |TwinRecs(x)| == 4 && TwinRecs(x)[0] == Data(6, x) && TwinRecs(x)[1] == Data(7, TwinNode(x))
    ensures TwinRecs(x)[3] == Seal(9, 8, WholeHash(TwinNode(x)))
  {
  }

  /** The blocks of the log, by number. */
  lemma {:induction false} TwinBlocks(x: Bytes)
    requires Small(x) && |x| < 96
    ensures var recs := TwinLog(x);
            && |recs| == 9 && recs[5] == Data(6, x) && recs[1] == Data(2, NodeOf(x)) && recs[6] == Data(7, TwinNode(x))
            && recs[8] == Seal(9, 8, WholeHash(TwinNode(x)))
            && forall i :: 0 <= i < 9 && i != 5 && recs[i].kind == REC_BLOCK ==> |recs[i].payload| >= 96
  {
    hide NodeOf, TwinNode, EncCommit;
    NodeSmall(x);
    NodeIs(x);
    NodeIs(NodeOf(x));
    TwinNodeIs(x);
    FourRecs(x);
    var recs := TwinLog(x);
    assert recs[0] == First() && recs[1] == Data(2, NodeOf(x)) && recs[2] == Data(3, NodeOf(NodeOf(x)));
    assert recs[3].kind == REC_COMMIT && recs[4].kind == REC_COMMIT && recs[7].kind == REC_COMMIT;
  }

  /** The tree of the second put, as its nodes say. */
  lemma {:induction false} TwinTree(crc: Bytes -> nat, x: Bytes)
    requires |x| <= BLOCK_MAX
    ensures var t := Twins(Disk(crc), Nodes(), x);
            NodeId(Disk(crc), Nodes(), t) == WholeHash(TwinNode(x)) && NodeId(Disk(crc), Nodes(), t.kids[1].sub) == WholeHash(NodeOf(x))
  {
    hide EncNode, WholeHash;
    var f, c := Disk(crc), Nodes();
    var t := Twins(f, c, x);
    DiskHash(crc);
    var inner := t.kids[1].sub.kids;
    MentAt(f, c, inner, 0);
    assert Ments(f, c, inner) == [Ment(MENT_FILE, |x|, WholeHash(x), [B(0x61)])];
    assert c.enc(Ments(f, c, inner)) == NodeOf(x);
    MentAt(f, c, t.kids, 0);
    MentAt(f, c, t.kids, 1);
    assert Ments(f, c, t.kids) == [Ment(MENT_FILE, |NodeOf(x)|, WholeHash(NodeOf(x)), [B(0x61)]), Ment(MENT_DIR, 0, WholeHash(NodeOf(x)), [B(0x62)])];
  }

  lemma {:induction false} DiskHash(crc: Bytes -> nat)
    ensures Disk(crc).sha == WholeHash
  {
  }

  /** A sector that begins like no record and no longer holds x. */
  predicate Rotten(junk: Bytes, x: Bytes) { Take(junk, 4) != REC_MAGIC && Take(junk, |x|) != x }

  lemma {:induction false} RotHits(crc: Bytes -> nat, x: Bytes, junk: Bytes)
    requires Crc(crc) && Small(x) && |x| < 96 && Rotten(junk, x)
    ensures var f, m, recs := Disk(crc), Twinned(crc, x), TwinLog(x); var idx := CoreOf(f, CapOf(20), 1, recs).idx;
            && |m| == 20
            && var m' := m[12 := Sec(junk)];
               && BlockGet(f, m', 1, idx, WholeHash(x)) == Err(CORRUPT)
               && BlockGet(f, m', 1, idx, WholeHash(NodeOf(x))).Got? && BlockGet(f, m', 1, idx, WholeHash(TwinNode(x))).Got?
  {
    hide LogInv, Disk, CoreOf, NodeOf, TwinNode, Spans, BlockGet, Twinned, TwinLog, FormatOk, Format.Sound, Format.Injective, WholeHash;
    var f, m, recs := Disk(crc), Twinned(crc, x), TwinLog(x);
    DiskOk(crc);
    SoundFormat(f);
    DiskHash(crc);
    TwinnedInv(crc, x);
    TwinBlocks(x);
    NodeIs(x);
    TwinNodeIs(x);
    var m' := m[12 := Sec(junk)];
    AllIndexed(f, CapOf(20), 1, recs, 5);
    AllIndexed(f, CapOf(20), 1, recs, 1);
    AllIndexed(f, CapOf(20), 1, recs, 6);
    HashApart(crc, NodeOf(x), x);
    HashApart(crc, TwinNode(x), x);
    JunkGathers(m', junk, x);
    RotSpares(f, m, m', 1, CapOf(20), 1, recs, 5, 12, WholeHash(x));
    RotSpares(f, m, m', 1, CapOf(20), 1, recs, 5, 12, WholeHash(NodeOf(x)));
    RotSpares(f, m, m', 1, CapOf(20), 1, recs, 5, 12, WholeHash(TwinNode(x)));
  }

  lemma {:induction false} HashApart(crc: Bytes -> nat, a: Bytes, b: Bytes)
    requires |a| != |b|
    ensures WholeHash(a) != WholeHash(b)
  {
    assert WholeHash(a)[0] == Digest(a) && WholeHash(b)[0] == Digest(b);
  }

  lemma {:induction false} JunkGathers(m: Media, junk: Bytes, x: Bytes)
    requires |m| == 20 && m[12] == Sec(junk) && 0 < |x| <= 512 && Take(junk, |x|) != x
    ensures Gather(m, 12, |x|) != Some(x)
  {
    assert Gather(m, 13, 0) == Some([]);
    assert Take(junk, |x|) + [] == Take(junk, |x|);
  }

  /** Twins: format, put "a", put "b/a", and the block of b/a rots under the mounted volume.  The
      root stands for the tree, b/a does not read, and the tree check says OK: it took the
      directory b for the file a it had met before. */
  lemma {:induction false} SweepLooksAway(crc: Bytes -> nat, x: Bytes, junk: Bytes)
    requires Crc(crc) && Small(x) && |x| < 96 && Rotten(junk, x)
    ensures var f, m := Disk(crc), Twinned(crc, x); var u, t := MountOf(f, m), Twins(f, Nodes(), x);
            && |m| == 20 && u.Up? && u.epoch == 1 && u.core.live == [] && NodeId(f, Nodes(), t) == u.core.mroot && Lookup(t, [[B(0x62)], [B(0x61)]]) == Some(x)
            && var m' := m[12 := Sec(junk)];
               && WalkTree(f, Nodes(), m', 1, u.core.idx, u.core.mroot, {}).rc == OK
               && BlockGet(f, m', 1, u.core.idx, f.sha(x)) == Err(CORRUPT) && !Intact(f, Nodes(), m', 1, u.core.idx, t)
  {
    hide LogInv, Disk, CoreOf, NodeOf, TwinNode, Spans, BlockGet, Twinned, TwinLog, FormatOk, Format.Sound, Format.Injective, WholeHash, MountOf, WalkTree,
         Plan, Intact, NodeId, NodeOk, Committed, Stands, RootOk, Twins;
    var f, c, m, recs := Disk(crc), Nodes(), Twinned(crc, x), TwinLog(x);
    TwinnedInv(crc, x);
    var t, m', idx := Twins(f, c, x), m[12 := Sec(junk)], CoreOf(f, CapOf(20), 1, recs).idx;
    TwinReads(f, c, m', 1, idx, x);
    DiskOk(crc);
    DiskHash(crc);
    DiskIs(crc);
    WholeLayoutOk(crc);
    TwinBlocks(x);
    TwinNodeIs(x);
    EndsWith(crc, CapOf(20), 1, recs, 9, 8, WholeHash(TwinNode(x)));
    MountsAs(f, m, 1, 1, recs);
    RotHits(crc, x, junk);
    TwinTree(crc, x);
    TwinStands(crc, x, junk);
    TwinPlan(f, c, x);
    PairRead(f, m', 1, idx, NodeId(f, c, t), NodeId(f, c, t.kids[1].sub));
    SweepOkIff(f, c, m', 1, idx, t, {});
  }

  lemma {:induction false} PairRead(f: Format, m: Media, e: nat, idx: map<Id, nat>, a: Id, b: Id)
    requires BlockGet(f, m, e, idx, a).Got? && BlockGet(f, m, e, idx, b).Got?
    ensures AllRead(f, m, e, idx, {a, b}) && AllRead(f, m, e, idx, {})
  {
    hide BlockGet;
  }

  lemma {:induction false} TwinReads(f: Format, c: Codec, m: Media, e: nat, idx: map<Id, nat>, x: Bytes)
    ensures Lookup(Twins(f, c, x), [[B(0x62)], [B(0x61)]]) == Some(x) && Twins(f, c, x).Dir? && |Twins(f, c, x).kids| == 2
    ensures BlockGet(f, m, e, idx, f.sha(x)).Err? ==> !Intact(f, c, m, e, idx, Twins(f, c, x))
  {
    hide BlockGet;
    var t := Twins(f, c, x);
    var inner := t.kids[1].sub;
    assert Within(inner.kids[0].sub, File(x));
    assert Within(inner, File(x));
    assert Within(t, File(x));
    var path: seq<Name> := [[B(0x62)], [B(0x61)]];
    assert path[1..] == [[B(0x61)]];
    assert IndexOf(Names(t.kids), path[0]) == 1 by { assert Names(t.kids)[0] == [B(0x61)] && Names(t.kids)[1] == [B(0x62)]; }
    assert IndexOf(Names(inner.kids), path[1]) == 0 by { assert Names(inner.kids)[0] == [B(0x61)]; }
    assert Lookup(inner, path[1..]) == Some(x);
  }

  lemma {:induction false} TwinStands(crc: Bytes -> nat, x: Bytes, junk: Bytes)
    requires Crc(crc) && Small(x) && |x| < 96 && Rotten(junk, x) && |Twinned(crc, x)| == 20
    ensures var f := Disk(crc); var t := Twins(f, Nodes(), x);
            Stands(f, Nodes(), Twinned(crc, x)[12 := Sec(junk)], 1, CoreOf(f, CapOf(20), 1, TwinLog(x)).idx, NodeId(f, Nodes(), t), t)
  {
    hide LogInv, CoreOf, NodeOf, TwinNode, Spans, BlockGet, Twinned, TwinLog, FormatOk, WholeHash, NodeId, NodeOk, RootOk, Twins, Disk, Damaged, Genuine, Stands;
    var f, m := Disk(crc), Twinned(crc, x);
    WholeLayoutOk(crc);
    DiskOk(crc);
    DiskIs(crc);
    TwinnedInv(crc, x);
    TwinsOk(f, Nodes(), x);
    var m' := m[12 := Sec(junk)];
    JunkDamages(crc, m, m', junk);
    DecayGenuine(f, m, m', 1, CapOf(20), 1, TwinLog(x), TwinLog(x));
    GenuineStands(f, Nodes(), m', 1, CoreOf(f, CapOf(20), 1, TwinLog(x)).idx, Twins(f, Nodes(), x));
  }

  lemma {:induction false} GenuineStands(f: Format, c: Codec, m: Media, e: nat, idx: map<Id, nat>, t: Tree)
    requires FormatOk(f) && NodeOk(f, c) && RootOk(t) && Genuine(f, m, e, idx)
    ensures Stands(f, c, m, e, idx, NodeId(f, c, t), t)
  {
    hide BlockGet, FormatOk, NodeOk, RootOk, NodeId;
  }

  lemma {:induction false} DiskIs(crc: Bytes -> nat)
    ensures Disk(crc) == Layout(WholeHash, crc)
  {
  }

  lemma {:induction false} JunkDamages(crc: Bytes -> nat, m: Media, m': Media, junk: Bytes)
    requires |m| == 20 && m' == m[12 := Sec(junk)] && Take(junk, 4) != REC_MAGIC
    ensures Damaged(Disk(crc), m, m', 1, 1, 19)
  {
    if |junk| >= 4 { assert junk[..4] == Take(junk, 4); }
  }
}
