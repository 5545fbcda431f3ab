/** The byte layouts of arkfs.c: superblock, record header, directory row, commit and tree
    node, little-endian and packed as the static asserts of the source demand.  Decoding
    undoes encoding, so the layout is a sound format for any hash and any checksum. */
module ArkLayout {
  import opened Wrappers
  import opened ArkFormat
  import opened ArkLog
  import opened ArkCrash
  import opened ArkLibrary
  import opened ArkCompaction
  import opened ArkTree
  import opened ArkMerkle
  import opened ArkDamage

  // ---------------------------------------------------------------- fields

  function Byte(u: Unit): nat { if u.B? then u.v else 0 }

  function Put4(v: nat): (d: Bytes)
    ensures |d| == 4
  {
    var a := v / 256;
    var b := a / 256;
    var c := b / 256;
    [B(v % 256), B(a % 256), B(b % 256), B(c % 256)]
  }

  function Get4(d: Bytes): nat
    requires |d| == 4
  {
    Byte(d[0]) + 256 * Byte(d[1]) + 65536 * Byte(d[2]) + 16777216 * Byte(d[3])
  }

  lemma {:induction false} Get4Put4(v: nat)
    requires v < 0x1_0000_0000
    ensures Get4(Put4(v)) == v
  {
  }

  lemma {:induction false} LowByte(a: nat, q: nat)
    requires a < 256
    ensures (a + 256 * q) % 256 == a && (a + 256 * q) / 256 == q
  {
  }

  /** Numbers lie lowest byte first. */
  lemma {:induction false} LowestFirst(a: nat, b: nat, c: nat, d: nat)
    requires a < 256 && b < 256 && c < 256 && d < 256
    ensures Put4(a + 256 * (b + 256 * (c + 256 * d))) == [B(a), B(b), B(c), B(d)]
  {
    LowByte(a, b + 256 * (c + 256 * d));
    LowByte(b, c + 256 * d);
    LowByte(c, d);
  }

  function Zeros(n: nat): (d: Bytes)
    ensures |d| == n
  {
    seq(n, _ => B(0))
  }

  /** A NUL-terminated name in a fixed field. */
  function PutName(name: Bytes, n: nat): (d: Bytes)
    ensures |d| == n
  {
    Take(name, n)
  }

  function GetName(d: Bytes): Bytes {
    if d == [] || d[0] == B(0) then [] else [d[0]] + GetName(d[1..])
  }

  lemma {:induction false} GetPutName(name: Bytes, n: nat)
    requires |name| < n && forall i :: 0 <= i < |name| ==> name[i] != B(0)
    ensures GetName(PutName(name, n)) == name
  {
    var d := PutName(name, n);
    if name != [] {
      assert d[1..] == PutName(name[1..], n - 1);
      GetPutName(name[1..], n - 1);
    }
  }

  // ---------------------------------------------------------------- packed structures

  /** Fields one after another. */
  function Cat(ps: seq<Bytes>): Bytes {
    if ps == [] then [] else Cat(ps[..|ps| - 1]) + ps[|ps| - 1]
  }

  /** Where field i begins. */
  function Off(ps: seq<Bytes>, i: nat): nat
    requires i <= |ps|
  {
    if i == 0 then 0 else Off(ps, i - 1) + |ps[i - 1]|
  }

  lemma {:induction false} OffPrefix(ps: seq<Bytes>, k: nat, i: nat)
    requires i <= k <= |ps|
    ensures Off(ps[..k], i) == Off(ps, i)
  {
    if i > 0 { OffPrefix(ps, k, i - 1); }
  }

  lemma {:induction false} CatLen(ps: seq<Bytes>)
    ensures |Cat(ps)| == Off(ps, |ps|)
  {
    if ps != [] {
      CatLen(ps[..|ps| - 1]);
      OffPrefix(ps, |ps| - 1, |ps| - 1);
    }
  }

  /** Each field is found at its offset. */
  lemma {:induction false} CatAt(ps: seq<Bytes>, i: nat)
    requires i < |ps|
    ensures Off(ps, i) + |ps[i]| <= |Cat(ps)| && Cat(ps)[Off(ps, i)..Off(ps, i) + |ps[i]|] == ps[i]
    decreases |ps|
  {
    var n := |ps| - 1;
    var front := ps[..n];
    CatLen(front);
    OffPrefix(ps, n, n);
    if i < n {
      CatAt(front, i);
      OffPrefix(ps, n, i);
    }
  }

  /** Fields of one width. */
  lemma {:induction false} OffEven(ps: seq<Bytes>, w: nat, i: nat)
    requires i <= |ps| && forall k :: 0 <= k < |ps| ==> |ps[k]| == w
    ensures Off(ps, i) == i * w
  {
    if i > 0 {
      OffEven(ps, w, i - 1);
      assert (i - 1) * w + w == i * w;
    }
  }

  // ---------------------------------------------------------------- record header and superblock

  const REC_MAGIC: Bytes := [B(0x41), B(0x52), B(0x4B), B(0x52)]                                   // "ARKR"
  const SB_MAGIC: Bytes := [B(0x41), B(0x52), B(0x4B), B(0x4C), B(0x4F), B(0x47), B(0x30), B(0x33)] // "ARKLOG03"

  predicate IdOk(id: Id) { |id| == 32 }

  function HdrBody(h: Hdr): seq<Bytes> {
    [REC_MAGIC, Put4(h.kind), Put4(h.sq), Put4(h.epoch), Put4(h.len), h.id, Put4(h.pcrc)]
  }

  /** A whole header sector: 56 bytes, their checksum, zeros. */
  function EncHdr(crc: Bytes -> nat, h: Hdr): Bytes {
    var body := Cat(HdrBody(h));
    body + Put4(crc(body)) + Zeros(452)
  }

  function DecHdr(crc: Bytes -> nat, d: Bytes): Option<Hdr> {
    if |d| < 60 || d[..4] != REC_MAGIC || crc(d[..56]) != Get4(d[56..60]) then None
    else Some(Hdr(Get4(d[4..8]), Get4(d[8..12]), Get4(d[12..16]), Get4(d[16..20]), d[20..52], Get4(d[52..56])))
  }

  /** A sector is taken for a record header exactly if it begins with the magic and its checksum
      holds over the 56 bytes in front of it. */
  lemma {:induction false} HdrIff(crc: Bytes -> nat, d: Bytes)
    requires |d| >= 60
    ensures DecHdr(crc, d).Some? <==> d[..4] == [B(0x41), B(0x52), B(0x4B), B(0x52)] && Get4(d[56..60]) == crc(d[..56])
  {
    hide Get4;
  }

  lemma {:induction false} HdrOffsets(h: Hdr)
    requires IdOk(h.id)
    ensures var ps := HdrBody(h);
            && |Cat(ps)| == 56
            && Off(ps, 0) == 0 && Off(ps, 1) == 4 && Off(ps, 2) == 8 && Off(ps, 3) == 12 && Off(ps, 4) == 16 && Off(ps, 5) == 20 && Off(ps, 6) == 52
  {
    hide Cat;
    var ps := HdrBody(h);
    CatLen(ps);
    assert Off(ps, 1) == 4;
    assert Off(ps, 2) == 8;
    assert Off(ps, 3) == 12;
    assert Off(ps, 4) == 16;
    assert Off(ps, 5) == 20;
    assert Off(ps, 6) == 52;
    assert Off(ps, 7) == 56;
  }

  lemma {:induction false} HdrFields(h: Hdr)
    requires IdOk(h.id)
    ensures var b := Cat(HdrBody(h));
            && |b| == 56 && b[..4] == REC_MAGIC && b[4..8] == Put4(h.kind) && b[8..12] == Put4(h.sq) && b[12..16] == Put4(h.epoch)
            && b[16..20] == Put4(h.len) && b[20..52] == h.id && b[52..56] == Put4(h.pcrc)
  {
    hide Cat, Off, Put4;
    var ps := HdrBody(h);
    HdrOffsets(h);
    CatAt(ps, 0);
    CatAt(ps, 1);
    CatAt(ps, 2);
    CatAt(ps, 3);
    CatAt(ps, 4);
    CatAt(ps, 5);
    CatAt(ps, 6);
  }

  /** Reading a longer buffer at the same offsets. */
  lemma {:induction false} Behind(b: Bytes, more: Bytes, i: nat, j: nat)
    requires i <= j <= |b|
    ensures (b + more)[i..j] == b[i..j]
  {
  }

  lemma {:induction false} HdrRoundTrip(crc: Bytes -> nat, h: Hdr)
    requires (forall p :: crc(p) < U32) && IdOk(h.id)
    requires h.kind < U32 && h.sq < U32 && h.epoch < U32 && h.len < U32 && h.pcrc < U32
    ensures DecHdr(crc, EncHdr(crc, h)) == Some(h)
  {
    hide Cat, Put4, Get4, HdrBody;
    var b := Cat(HdrBody(h));
    var more := Put4(crc(b)) + Zeros(452);
    HdrFields(h);
    var d := b + more;
    assert EncHdr(crc, h) == d;
    Behind(b, more, 0, 4);
    Behind(b, more, 4, 8);
    Behind(b, more, 8, 12);
    Behind(b, more, 12, 16);
    Behind(b, more, 16, 20);
    Behind(b, more, 20, 52);
    Behind(b, more, 52, 56);
    assert d[..56] == b;
    assert d[56..60] == Put4(crc(b));
    Get4Put4(h.kind);
    Get4Put4(h.sq);
    Get4Put4(h.epoch);
    Get4Put4(h.len);
    Get4Put4(h.pcrc);
    Get4Put4(crc(b));
  }

  function SuperBody(s: Super): seq<Bytes> {
    [SB_MAGIC, Put4(s.version), Put4(s.sectorSize), Put4(s.logStart), Put4(s.total), Put4(s.epoch)]
  }

  function EncSuper(crc: Bytes -> nat, s: Super): Bytes {
    var body := Cat(SuperBody(s));
    body + Put4(crc(body)) + Zeros(480)
  }

  function DecSuper(crc: Bytes -> nat, d: Bytes): Option<Super> {
    if |d| < 32 || d[..8] != SB_MAGIC || crc(d[..28]) != Get4(d[28..32]) then None
    else Some(Super(Get4(d[8..12]), Get4(d[12..16]), Get4(d[16..20]), Get4(d[20..24]), Get4(d[24..28])))
  }

  /** The same for a superblock copy, with 28 bytes under the checksum. */
  lemma {:induction false} SuperCopyIff(crc: Bytes -> nat, d: Bytes)
    requires |d| >= 32
    ensures DecSuper(crc, d).Some? <==>
              d[..8] == [B(0x41), B(0x52), B(0x4B), B(0x4C), B(0x4F), B(0x47), B(0x30), B(0x33)] && Get4(d[28..32]) == crc(d[..28])
  {
    hide Get4;
  }

  lemma {:induction false} SuperFields(s: Super)
    ensures var b := Cat(SuperBody(s));
            && |b| == 28 && b[..8] == SB_MAGIC && b[8..12] == Put4(s.version) && b[12..16] == Put4(s.sectorSize)
            && b[16..20] == Put4(s.logStart) && b[20..24] == Put4(s.total) && b[24..28] == Put4(s.epoch)
  {
    hide Cat, Put4;
    var ps := SuperBody(s);
    CatLen(ps);
    assert Off(ps, 1) == 8;
    assert Off(ps, 2) == 12;
    assert Off(ps, 3) == 16;
    assert Off(ps, 4) == 20;
    assert Off(ps, 5) == 24;
    assert Off(ps, 6) == 28;
    CatAt(ps, 0);
    CatAt(ps, 1);
    CatAt(ps, 2);
    CatAt(ps, 3);
    CatAt(ps, 4);
    CatAt(ps, 5);
  }

  lemma {:induction false} SuperRoundTrip(crc: Bytes -> nat, s: Super)
    requires (forall p :: crc(p) < U32)
    requires s.version < U32 && s.sectorSize < U32 && s.logStart < U32 && s.total < U32 && s.epoch < U32
    ensures DecSuper(crc, EncSuper(crc, s)) == Some(s)
  {
    hide Cat, Put4, Get4, SuperBody;
    var b := Cat(SuperBody(s));
    var more := Put4(crc(b)) + Zeros(480);
    SuperFields(s);
    var d := b + more;
    assert EncSuper(crc, s) == d;
    Behind(b, more, 0, 8);
    Behind(b, more, 8, 12);
    Behind(b, more, 12, 16);
    Behind(b, more, 16, 20);
    Behind(b, more, 20, 24);
    Behind(b, more, 24, 28);
    assert d[..28] == b;
    assert d[28..32] == Put4(crc(b));
    Get4Put4(s.version);
    Get4Put4(s.sectorSize);
    Get4Put4(s.logStart);
    Get4Put4(s.total);
    Get4Put4(s.epoch);
    Get4Put4(crc(b));
  }

  // ---------------------------------------------------------------- directory rows and commits

  predicate DentFits(d: Dent) {
    && PathOk(d.name) && d.version < U32 && d.size < U32 && d.nblk <= MAX_BLK && |d.blk| == MAX_BLK
    && forall i :: 0 <= i < |d.blk| ==> IdOk(d.blk[i])
  }

  function DentParts(d: Dent): seq<Bytes> {
    [PutName(d.name, 64), [B(if d.isDir then 1 else 0)] + Zeros(3), Put4(d.version), Put4(d.size), Put4(d.nblk), Cat(d.blk)]
  }

  function DecDent(d: Bytes): Dent
    requires |d| == 592
  {
    Dent(GetName(d[..64]), d[64] != B(0), Get4(d[68..72]), Get4(d[72..76]), Get4(d[76..80]),
         seq(16, i requires 0 <= i < 16 => d[80..][32 * i..32 * i + 32]))
  }

  lemma {:induction false} BlkField(blk: seq<Id>)
    requires |blk| == 16 && forall i :: 0 <= i < 16 ==> IdOk(blk[i])
    ensures |Cat(blk)| == 512 && seq(16, i requires 0 <= i < 16 => Cat(blk)[32 * i..32 * i + 32]) == blk
  {
    hide Cat, Off;
    CatLen(blk);
    OffEven(blk, 32, 16);
    forall i | 0 <= i < 16 ensures Cat(blk)[32 * i..32 * i + 32] == blk[i] {
      OffEven(blk, 32, i);
      CatAt(blk, i);
    }
  }

  lemma {:induction false} DentFields(d: Dent)
    requires DentFits(d)
    ensures var b := Cat(DentParts(d));
            && |b| == 592 && b[..64] == PutName(d.name, 64) && b[64..68] == [B(if d.isDir then 1 else 0)] + Zeros(3)
            && b[68..72] == Put4(d.version) && b[72..76] == Put4(d.size) && b[76..80] == Put4(d.nblk) && b[80..592] == Cat(d.blk)
  {
    BlkField(d.blk);
    DentOffsets(d);
    hide Cat, Put4, PutName, Off, PathOk;
    var ps := DentParts(d);
    CatLen(ps);
    CatAt(ps, 0);
    CatAt(ps, 1);
    CatAt(ps, 2);
    CatAt(ps, 3);
    CatAt(ps, 4);
    CatAt(ps, 5);
  }

  lemma {:induction false} DentOffsets(d: Dent)
    requires |Cat(d.blk)| == 512
    ensures var ps := DentParts(d);
            && Off(ps, 0) == 0 && Off(ps, 1) == 64 && Off(ps, 2) == 68 && Off(ps, 3) == 72 && Off(ps, 4) == 76
            && Off(ps, 5) == 80 && Off(ps, 6) == 592
  {
    hide Cat, Put4, PutName;
    var ps := DentParts(d);
    assert Off(ps, 1) == 64;
    assert Off(ps, 2) == 68;
    assert Off(ps, 3) == 72;
    assert Off(ps, 4) == 76;
    assert Off(ps, 5) == 80;
  }

  lemma {:induction false} DentRoundTrip(d: Dent)
    requires DentFits(d)
    ensures |Cat(DentParts(d))| == 592 && DecDent(Cat(DentParts(d))) == d
  {
    hide Cat, Put4, Get4, PutName, GetName, DentParts;
    var b := Cat(DentParts(d));
    DentFields(d);
    BlkField(d.blk);
    assert b[80..] == b[80..592];
    assert b[64] == b[64..68][0];
    GetPutName(d.name, 64);
    Get4Put4(d.version);
    Get4Put4(d.size);
    Get4Put4(d.nblk);
  }

  function Rows(table: seq<Dent>): seq<Bytes> {
    seq(|table|, i requires 0 <= i < |table| => Cat(DentParts(table[i])))
  }

  function CommitHead(c: Commit): seq<Bytes> { [Put4(c.sq), Put4(|c.table|), c.mroot, Put4(0)] }

  /** serialize_live. */
  function EncCommit(c: Commit): Bytes { Cat(CommitHead(c)) + Cat(Rows(c.table)) }

  /** parse_commit: at most as many rows as are declared, fit the table and are there. */
  function DecCommit(d: Bytes): Option<Commit> {
    if |d| < 44 then None
    else
      var n := Min(Min(Get4(d[4..8]), MAX_FILES), (|d| - 44) / 592);
      Some(Commit(Get4(d[..4]), seq(n, i requires 0 <= i < n => DecDent(d[44..][592 * i..592 * i + 592])), d[8..40]))
  }

  /** However many rows a payload declares, those parsed are at most 32 and lie in it whole. */
  lemma {:induction false} RowsParsed(d: Bytes)
    requires |d| >= 44
    ensures DecCommit(d).Some? && var n := |DecCommit(d).value.table|;
            n <= 32 && n <= Get4(d[4..8]) && 44 + 592 * n <= |d| && (n < 32 && n < Get4(d[4..8]) ==> 44 + 592 * (n + 1) > |d|)
  {
    hide Get4, DecDent;
  }

  lemma {:induction false} RowsField(table: seq<Dent>)
    requires forall i :: 0 <= i < |table| ==> DentFits(table[i])
    ensures |Cat(Rows(table))| == 592 * |table|
    ensures forall i :: 0 <= i < |table| ==> Cat(Rows(table))[592 * i..592 * i + 592] == Cat(DentParts(table[i]))
  {
    hide Cat, Off, DentParts, DecDent;
    var ps := Rows(table);
    forall k | 0 <= k < |ps| ensures |ps[k]| == 592 { DentRoundTrip(table[k]); }
    CatLen(ps);
    OffEven(ps, 592, |ps|);
    forall i | 0 <= i < |table| ensures Cat(ps)[592 * i..592 * i + 592] == Cat(DentParts(table[i])) {
      OffEven(ps, 592, i);
      CatAt(ps, i);
    }
  }

  lemma {:induction false} CommitFields(c: Commit)
    requires IdOk(c.mroot)
    ensures var b := Cat(CommitHead(c)); |b| == 44 && b[..4] == Put4(c.sq) && b[4..8] == Put4(|c.table|) && b[8..40] == c.mroot
  {
    hide Cat, Put4;
    var ps := CommitHead(c);
    CatLen(ps);
    assert Off(ps, 1) == 4;
    assert Off(ps, 2) == 8;
    assert Off(ps, 3) == 40;
    CatAt(ps, 0);
    CatAt(ps, 1);
    CatAt(ps, 2);
  }

  predicate CommitFits(c: Commit) {
    c.sq < U32 && |c.table| <= MAX_FILES && IdOk(c.mroot) && forall i :: 0 <= i < |c.table| ==> DentFits(c.table[i])
  }

  lemma {:induction false} CommitRoundTrip(c: Commit)
    requires CommitFits(c)
    ensures DecCommit(EncCommit(c)) == Some(c) && |EncCommit(c)| == 44 + 592 * |c.table|
  {
    hide Cat, Put4, Get4, CommitHead, DentParts, DecDent, DentFits;
    var b, rows := Cat(CommitHead(c)), Cat(Rows(c.table));
    CommitFields(c);
    RowsField(c.table);
    var d := b + rows;
    Behind(b, rows, 0, 4);
    Behind(b, rows, 4, 8);
    Behind(b, rows, 8, 40);
    assert d[44..] == rows;
    Get4Put4(c.sq);
    Get4Put4(|c.table|);
    forall i | 0 <= i < |c.table| ensures |rows[592 * i..592 * i + 592]| == 592 && DecDent(rows[592 * i..592 * i + 592]) == c.table[i] {
      DentRoundTrip(c.table[i]);
    }
    assert (592 * |c.table|) / 592 == |c.table|;
    assert EncCommit(c) == d;
    var n := Min(Min(Get4(d[4..8]), MAX_FILES), (|d| - 44) / 592);
    assert n == |c.table|;
    assert seq(n, i requires 0 <= i < n => DecDent(d[44..][592 * i..592 * i + 592])) == c.table;
  }

  // ---------------------------------------------------------------- the format

  function Layout(sha: Bytes -> Id, crc: Bytes -> nat): Format {
    Format(Zeros(32), IdOk, sha, crc,
           (h: Hdr) => EncHdr(crc, h), (d: Bytes) => DecHdr(crc, d),
           (s: Super) => EncSuper(crc, s), (d: Bytes) => DecSuper(crc, d),
           EncCommit, DecCommit)
  }

  /** The layout is sound for every 32-byte hash and every 32-bit checksum. */
  lemma {:induction false} LayoutSound(sha: Bytes -> Id, crc: Bytes -> nat)
    requires forall p :: |sha(p)| == 32 && crc(p) < U32
    ensures Layout(sha, crc).Sound()
  {
    hide EncHdr, DecHdr, EncSuper, DecSuper, EncCommit, DecCommit, PathOk;
    var f := Layout(sha, crc);
    forall h | f.HdrOk(h) ensures f.decHdr(f.encHdr(h)) == Some(h) { HdrRoundTrip(crc, h); }
    forall s | f.SuperOk(s) ensures f.decSuper(f.encSuper(s)) == Some(s) { SuperRoundTrip(crc, s); }
    forall c | f.CommitOk(c) ensures f.decCommit(f.encCommit(c)) == Some(c) && |f.encCommit(c)| <= COMMIT_MAX {
      forall i | 0 <= i < |c.table| ensures DentFits(c.table[i]) { assert f.DentOk(c.table[i]); }
      CommitRoundTrip(c);
    }
  }

  /** The size of a commit does not depend on its sequence number. */
  lemma {:induction false} LayoutEven(sha: Bytes -> Id, crc: Bytes -> nat, rows: seq<Dent>, root: Id)
    ensures EvenCommits(Layout(sha, crc), rows, root)
  {
    hide Cat, Rows;
    var f := Layout(sha, crc);
    forall a, b ensures |f.encCommit(Commit(a, rows, root))| == |f.encCommit(Commit(b, rows, root))| {
      HeadLen(Commit(a, rows, root));
      HeadLen(Commit(b, rows, root));
    }
  }

  lemma {:induction false} HeadLen(c: Commit)
    ensures |Cat(CommitHead(c))| == 12 + |c.mroot|
  {
    hide Cat, Put4;
    var ps := CommitHead(c);
    CatLen(ps);
    assert Off(ps, 1) == 4;
    assert Off(ps, 2) == 8;
    assert Off(ps, 3) == 8 + |c.mroot|;
  }

  // ---------------------------------------------------------------- tree nodes

  const MNODE_MAGIC: nat := 0x314d4e44

  predicate MentFits(m: Ment) { m.kind < 256 && m.size < U32 && IdOk(m.child) && NameOk(m.name) }

  function MentParts(m: Ment): seq<Bytes> {
    [[B(m.kind)] + Zeros(3), Put4(m.size), m.child, PutName(m.name, 48)]
  }

  function DecMent(d: Bytes): Ment
    requires |d| == 88
  {
    Ment(Byte(d[0]), Get4(d[4..8]), d[8..40], GetName(d[40..88]))
  }

  lemma {:induction false} MentRoundTrip(m: Ment)
    requires MentFits(m)
    ensures |Cat(MentParts(m))| == 88 && DecMent(Cat(MentParts(m))) == m
  {
    hide Cat, Put4, Get4, PutName, GetName;
    var ps := MentParts(m);
    CatLen(ps);
    assert Off(ps, 1) == 4;
    assert Off(ps, 2) == 8;
    assert Off(ps, 3) == 40;
    assert Off(ps, 4) == 88;
    CatAt(ps, 0);
    CatAt(ps, 1);
    CatAt(ps, 2);
    CatAt(ps, 3);
    var b := Cat(ps);
    assert b[0] == b[0..4][0] == B(m.kind);
    Get4Put4(m.size);
    GetPutName(m.name, 48);
  }

  function Entries(es: seq<Ment>): seq<Bytes> {
    seq(|es|, i requires 0 <= i < |es| => Cat(MentParts(es[i])))
  }

  /** mnode_emit. */
  function EncNode(es: seq<Ment>): Bytes { (Put4(MNODE_MAGIC) + Put4(|es|)) + Cat(Entries(es)) }

  /** mnode_load. */
  function DecNode(d: Bytes): Option<seq<Ment>> {
    if |d| < 8 || Get4(d[..4]) != MNODE_MAGIC then None
    else
      var n := Get4(d[4..8]);
      if n > MNODE_MAXENT || 8 + 88 * n > |d| then None
      else Some(seq(n, i requires 0 <= i < n => DecMent(d[8..][88 * i..88 * i + 88])))
  }

  /** A node declares at most 46 entries, and all of them lie in its block. */
  lemma {:induction false} NodeIff(d: Bytes)
    requires |d| >= 8
    ensures DecNode(d).Some? <==> Get4(d[..4]) == 0x314d4e44 && Get4(d[4..8]) <= 46 && 8 + 88 * Get4(d[4..8]) <= |d|
    ensures DecNode(d).Some? ==> |DecNode(d).value| == Get4(d[4..8])
  {
    hide Get4, DecMent;
  }

  lemma {:induction false} EntriesField(es: seq<Ment>)
    requires forall i :: 0 <= i < |es| ==> MentFits(es[i])
    ensures |Cat(Entries(es))| == 88 * |es|
    ensures forall i :: 0 <= i < |es| ==> Cat(Entries(es))[88 * i..88 * i + 88] == Cat(MentParts(es[i]))
  {
    hide Cat, Off, MentParts, DecMent;
    var ps := Entries(es);
    forall k | 0 <= k < |ps| ensures |ps[k]| == 88 { MentRoundTrip(es[k]); }
    CatLen(ps);
    OffEven(ps, 88, |ps|);
    forall i | 0 <= i < |es| ensures Cat(ps)[88 * i..88 * i + 88] == Cat(MentParts(es[i])) {
      OffEven(ps, 88, i);
      CatAt(ps, i);
    }
  }

  /** A node of up to 46 entries fits a block and reads back. */
  lemma {:induction false} NodeRoundTrip(es: seq<Ment>)
    requires |es| <= MNODE_MAXENT && forall i :: 0 <= i < |es| ==> MentFits(es[i])
    ensures DecNode(EncNode(es)) == Some(es) && |EncNode(es)| == 8 + 88 * |es| <= BLOCK_MAX
  {
    hide Cat, Put4, Get4, MentParts, DecMent;
    var b, body := Put4(MNODE_MAGIC) + Put4(|es|), Cat(Entries(es));
    EntriesField(es);
    var d := b + body;
    assert EncNode(es) == d;
    Behind(b, body, 0, 4);
    Behind(b, body, 4, 8);
    assert b[0..4] == Put4(MNODE_MAGIC) && b[4..8] == Put4(|es|);
    assert d[8..] == body;
    Get4Put4(MNODE_MAGIC);
    Get4Put4(|es|);
    forall i | 0 <= i < |es| ensures |body[88 * i..88 * i + 88]| == 88 && DecMent(body[88 * i..88 * i + 88]) == es[i] {
      MentRoundTrip(es[i]);
    }
    var n := Get4(d[4..8]);
    assert seq(n, i requires 0 <= i < n => DecMent(d[8..][88 * i..88 * i + 88])) == es;
  }

  // ---------------------------------------------------------------- what the ARK theorems assume

  function Nodes(): Codec { Codec(EncNode, DecNode) }

  /** With a collision-free 32-unit hash that never yields the zero id, the layout of
      arkfs.c meets every assumption made of a format and of a node codec. */
  lemma {:induction false} LayoutOk(sha: Bytes -> Id, crc: Bytes -> nat)
    requires forall p :: |sha(p)| == 32 && crc(p) < U32 && sha(p) != Zeros(32)
    requires forall a, b :: sha(a) == sha(b) ==> a == b
    ensures FormatOk(Layout(sha, crc)) && NodeOk(Layout(sha, crc), Nodes())
  {
    hide EncNode, DecNode, NameOk, Format.Sound;
    var f, c := Layout(sha, crc), Nodes();
    LayoutSound(sha, crc);
    forall es | |es| <= MNODE_MAXENT && (forall i :: 0 <= i < |es| ==> MentOk(f, es[i]))
      ensures c.dec(c.enc(es)) == Some(es) && |c.enc(es)| <= BLOCK_MAX
    {
      NodeRoundTrip(es);
    }
  }

  /** A hash as LayoutOk asks for it: the digest kept whole in the first of 32 units. */
  function WholeHash(p: Bytes): Id { [Digest(p)] + Zeros(31) }

  lemma {:induction false} WholeLayoutOk(crc: Bytes -> nat)
    requires forall p :: crc(p) < U32
    ensures FormatOk(Layout(WholeHash, crc)) && NodeOk(Layout(WholeHash, crc), Nodes())
  {
    hide FormatOk, NodeOk;
    forall a, b | WholeHash(a) == WholeHash(b) ensures a == b { assert WholeHash(a)[0] == WholeHash(b)[0]; }
    forall p ensures WholeHash(p) != Zeros(32) { assert WholeHash(p)[0] != Zeros(32)[0]; }
    LayoutOk(WholeHash, crc);
  }

  // ---------------------------------------------------------------- which payloads are quiet

  /** A sector that does not begin with the record magic is nobody's header. */
  lemma {:induction false} NoMagic(sha: Bytes -> Id, crc: Bytes -> nat, e: nat, d: Bytes)
    requires |d| < 4 || d[..4] != REC_MAGIC
    ensures !CommitHdr(Layout(sha, crc), e, d) && !LateHdr(Layout(sha, crc), e, d)
  {
  }

  /** Contents are quiet unless one of their sectors begins with the record magic. */
  lemma {:induction false} PlainQuiet(sha: Bytes -> Id, crc: Bytes -> nat, e: nat, p: Bytes)
    requires forall i :: 0 <= i < Sectors(|p|) ==> Take(Chunk(p, i), 4) != REC_MAGIC
    ensures Quiet(Layout(sha, crc), e, p) && QuietLater(Layout(sha, crc), e, p)
  {
    hide CommitHdr, LateHdr, Layout, Take;
    forall i | 0 <= i < Sectors(|p|)
      ensures !CommitHdr(Layout(sha, crc), e, Take(Chunk(p, i), 512)) && !LateHdr(Layout(sha, crc), e, Take(Chunk(p, i), 512))
    {
      TakeFront(Chunk(p, i), 4, 512);
      NoMagic(sha, crc, e, Take(Chunk(p, i), 512));
    }
  }

  /** Contents whose sectors all begin with another byte than the record magic imitate no
      header, however the sector goes on. */
  lemma {:induction false} PlainUnlike(sha: Bytes -> Id, crc: Bytes -> nat, e: nat, p: Bytes)
    requires forall i :: 0 <= i < Sectors(|p|) ==> Chunk(p, i)[0] != REC_MAGIC[0]
    ensures Unlike(Layout(sha, crc), e, p)
  {
    forall i, d | 0 <= i < Sectors(|p|) && Take(d, |Chunk(p, i)|) == Chunk(p, i)
      ensures Layout(sha, crc).decHdr(d).None?
    {
      assert Take(d, |Chunk(p, i)|)[0] == Chunk(p, i)[0];
      if |d| >= 4 { assert d[..4][0] == d[0]; }
    }
  }

  lemma {:induction false} TakeFront(d: Bytes, a: nat, b: nat)
    requires a <= b
    ensures Take(d, b)[..a] == Take(d, a)
  {
  }

  /** The commit of an empty table is quiet whatever its root and number: the field where a
      header has its kind holds the row count. */
  lemma {:induction false} EmptyTableQuiet(sha: Bytes -> Id, crc: Bytes -> nat, e: nat, sq: nat, n: nat, root: Id)
    requires IdOk(root)
    ensures RowsQuiet(Layout(sha, crc), e, sq, n, [], root) && RowsLater(Layout(sha, crc), e, sq, n, [], root)
  {
    hide BumpBy;
    forall j | 0 <= j <= n
      ensures var p := EncCommit(Commit(Bump(BumpBy(sq, j)), [], root)); Quiet(Layout(sha, crc), e, p) && QuietLater(Layout(sha, crc), e, p)
    {
      EmptyCommitQuiet(sha, crc, e, Bump(BumpBy(sq, j)), root);
    }
  }

  lemma {:induction false} EmptyCommitQuiet(sha: Bytes -> Id, crc: Bytes -> nat, e: nat, sq: nat, root: Id)
    requires IdOk(root)
    ensures var p := EncCommit(Commit(sq, [], root)); Quiet(Layout(sha, crc), e, p) && QuietLater(Layout(sha, crc), e, p)
  {
    hide Cat, Put4, Get4;
    var c := Commit(sq, [], root);
    var p := EncCommit(c);
    CommitFields(c);
    RowsField([]);
    assert p == Cat(CommitHead(c));
    var d := Take(Chunk(p, 0), 512);
    assert Chunk(p, 0) == p;
    TakeFront(p, 44, 512);
    assert d[4..8] == d[..44][4..8] == Put4(0);
    Get4Put4(0);
  }
}
