/** The on-disk vocabulary of ARK (arch/common/arkfs.c): sectors, record headers,
    superblocks, directory rows and commits, and what the rest of the model needs to
    know about their encodings.  A `Format` bundles the hash, the checksum and the
    encoders as function values, so every theorem of the log holds for every sound
    format; module ArkLayout shows that the byte layout of arkfs.c is one. */
module ArkFormat {
  import opened Wrappers

  /** One unit of storage: a byte, or a digest kept whole.  Real media hold bytes only; the
      second form lets a collision-free hash exist (ArkLayout.WholeLayoutOk), which no function
      into 32 bytes can be. */
  datatype Unit = B(v: nat) | Digest(of: Bytes)
  type Bytes = seq<Unit>
  type Id = Bytes

  const SECTOR: nat := 512
  const BLOCK_MAX: nat := 4096
  const MAX_FILES: nat := 32
  const MAX_BLK: nat := 16
  const NAME_MAX: nat := 64
  // ARK_SECT_UP(sizeof(ark_commit_hdr) + ARK_MAX_FILES * sizeof(ark_dent))
  const COMMIT_MAX: nat := 19456
  const U32: nat := 0x1_0000_0000

  const REC_BLOCK: nat := 1
  const REC_COMMIT: nat := 2
  const FMT_VERSION: nat := 3

  datatype Hdr = Hdr(kind: nat, sq: nat, epoch: nat, len: nat, id: Id, pcrc: nat)

  datatype Super = Super(version: nat, sectorSize: nat, logStart: nat, total: nat, epoch: nat)

  datatype Dent = Dent(name: Bytes, isDir: bool, version: nat, size: nat, nblk: nat, blk: seq<Id>)

  datatype Commit = Commit(sq: nat, table: seq<Dent>, mroot: Id)

  /** A path that fits its field: under 64 bytes, none of them NUL. */
  predicate PathOk(path: Bytes) {
    |path| < NAME_MAX && forall i :: 0 <= i < |path| ==> path[i].B? && 0 < path[i].v < 256
  }

  datatype Format = Format(
    zero: Id,
    idOk: Id -> bool,
    sha: Bytes -> Id,
    crc: Bytes -> nat,
    encHdr: Hdr -> Bytes,
    decHdr: Bytes -> Option<Hdr>,
    encSuper: Super -> Bytes,
    decSuper: Bytes -> Option<Super>,
    encCommit: Commit -> Bytes,
    decCommit: Bytes -> Option<Commit>)
  {
    predicate HdrOk(h: Hdr) {
      h.kind < U32 && h.sq < U32 && h.epoch < U32 && h.len < U32 && h.pcrc < U32 && idOk(h.id)
    }

    predicate SuperOk(s: Super) {
      s.version < U32 && s.sectorSize < U32 && s.logStart < U32 && s.total < U32 && s.epoch < U32
    }

    predicate DentOk(d: Dent) {
      && PathOk(d.name)
      && d.version < U32 && d.size < U32 && d.nblk <= MAX_BLK && |d.blk| == MAX_BLK
      && forall i :: 0 <= i < |d.blk| ==> idOk(d.blk[i])
    }

    predicate CommitOk(c: Commit) {
      && c.sq < U32 && |c.table| <= MAX_FILES && idOk(c.mroot)
      && forall i :: 0 <= i < |c.table| ==> DentOk(c.table[i])
    }

    /** Decoding undoes encoding, commits fit their scratch buffer, hashes are ids. */
    ghost predicate Sound() {
      && idOk(zero)
      && (forall p :: idOk(sha(p)) && crc(p) < U32)
      && (forall h :: HdrOk(h) ==> decHdr(encHdr(h)) == Some(h))
      && (forall s :: SuperOk(s) ==> decSuper(encSuper(s)) == Some(s))
      && (forall c :: CommitOk(c) ==> decCommit(encCommit(c)) == Some(c) && |encCommit(c)| <= COMMIT_MAX)
    }

    /** sha256 taken as collision free. */
    ghost predicate Injective() {
      forall a, b :: sha(a) == sha(b) ==> a == b
    }
  }

  /** One sector of the medium: its contents, or a sector the device cannot read. */
  datatype Cell = Sec(data: Bytes) | Unreadable

  type Media = seq<Cell>

  /** The first n bytes of a sector, zero-filled if it is short. */
  function Take(d: Bytes, n: nat): (r: Bytes)
    ensures |r| == n
  {
    if n <= |d| then d[..n] else d + seq(n - |d|, _ => B(0))
  }

  /** Increment of an unsigned 32-bit counter. */
  function Bump(x: nat): (y: nat)
    ensures y < U32
  {
     if x + 1 >= 0x1_0000_0000 then 0 else x + 1
  }

  lemma {:induction false} BumpWraps(x: nat)
    requires x < U32
    ensures Bump(x) == (x + 1) % 0x1_0000_0000
  {
  }

  function Min(a: nat, b: nat): nat { if a < b then a else b }

  /** Payload sectors a payload of n bytes occupies. */
  function Sectors(n: nat): nat { (n + 511) / 512 }

  /** As many as hold the payload and no more. */
  lemma {:induction false} SectorsLeast(n: nat)
    ensures n <= 512 * Sectors(n) && (n > 0 ==> 512 * (Sectors(n) - 1) < n) && Sectors(0) == 0
  {
  }
}
