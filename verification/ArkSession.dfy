/** One call on a mounted volume, of any kind: what it demands of what it writes, what it does to
    table, tree and index, and what every medium it passes shows. */
module ArkSession {
  import opened ArkFormat
  import opened ArkLog
  import opened ArkCrash
  import opened ArkLibrary
  import opened ArkCompaction
  import opened ArkHistory
  import opened ArkTree
  import opened ArkMerkle
  import opened ArkRoom
  import opened Ark

  datatype Op =
    | WriteFile(path: Bytes, buf: Bytes)
    | MakeDir(path: Bytes)
    | RemoveFile(path: Bytes)
    | PutBlock(buf: Bytes)
    | Sync
    | PutTree(names: seq<Name>, buf: Bytes)

  // ---------------------------------------------------------------- what a run demands of its calls

  /** The resync assumption for what this call writes, and what C strings are. */
  ghost predicate OpOk(f: Format, c: Codec, l: LogState, lib: Library, op: Op) {
    match op
    case WriteFile(path, buf) => CString(path) && FileQuiet(f, l.epoch, l.sq, lib.live, lib.mroot, path, buf)
    case MakeDir(path) => CString(path) && RowsQuiet(f, l.epoch, l.sq, 0, lib.live + [NewDir(f, path)], lib.mroot)
    case RemoveFile(path) => RowsQuiet(f, l.epoch, l.sq, 0, Removed(lib.live, path), lib.mroot)
    case PutBlock(buf) => Quiet(f, l.epoch, buf)
    case Sync => RowsQuiet(f, l.epoch, l.sq, 0, lib.live, lib.mroot)
    case PutTree(names, buf) => PathNamesOk(names) && forall t :: TreeIn(f, c, lib, t) ==> TreeQuiet(f, c, l.epoch, l.sq, lib.live, t, names, buf)
  }

  /** The same for later epochs: needed only if a compaction or a format is to follow. */
  ghost predicate OpLater(f: Format, c: Codec, l: LogState, lib: Library, op: Op) {
    match op
    case WriteFile(path, buf) => FileLater(f, l.epoch, l.sq, lib.live, lib.mroot, path, buf)
    case MakeDir(path) => RowsLater(f, l.epoch, l.sq, 0, lib.live + [NewDir(f, path)], lib.mroot)
    case RemoveFile(path) => RowsLater(f, l.epoch, l.sq, 0, Removed(lib.live, path), lib.mroot)
    case PutBlock(buf) => QuietLater(f, l.epoch, buf)
    case Sync => RowsLater(f, l.epoch, l.sq, 0, lib.live, lib.mroot)
    case PutTree(names, buf) => forall t :: TreeIn(f, c, lib, t) ==> TreeLater(f, c, l.epoch, l.sq, lib.live, t, names, buf)
  }

  // ---------------------------------------------------------------- one call

  /** The root of this library stands for some tree, all of it in the store. */
  ghost predicate HasTree(f: Format, c: Codec, lib: Library) { exists t :: TreeIn(f, c, lib, t) }

  lemma {:induction false} AnyTree(f: Format, c: Codec, lib: Library) returns (t: Tree)
    requires HasTree(f, c, lib)
    ensures TreeIn(f, c, lib, t)
  {
    t :| TreeIn(f, c, lib, t);
  }

  lemma {:induction false} ThisTree(f: Format, c: Codec, lib: Library, t: Tree)
    requires TreeIn(f, c, lib, t)
    ensures HasTree(f, c, lib)
  {
  }

  lemma {:induction false} TreeGrows(f: Format, c: Codec, a: Library, b: Library)
    requires HasTree(f, c, a) && b.mroot == a.mroot && a.idx.Keys <= b.idx.Keys
    ensures HasTree(f, c, b)
  {
    hide TreeOk, Stored;
    var t :| TreeIn(f, c, a, t);
    StoredMore(f, c, a.idx, b.idx, t);
    assert TreeIn(f, c, b, t);
  }

  /** What a call may do to the live table and the root. */
  ghost predicate LiveAfter(f: Format, op: Op, lib: Library, lib': Library) {
    && lib.idx.Keys <= lib'.idx.Keys
    && (op.PutTree? || lib'.mroot == lib.mroot)
    && (|| lib'.live == lib.live
        || (op.WriteFile? && FilePut(f, lib, lib', op.path, op.buf))
        || (op.MakeDir? && FindRow(lib.live, op.path) < 0 && lib'.live == lib.live + [NewDir(f, op.path)])
        || (op.RemoveFile? && FindRow(lib.live, op.path) >= 0 && lib'.live == Removed(lib.live, op.path)))
  }

  /** A successful call has done what it was asked to do. */
  ghost predicate Effect(f: Format, c: Codec, op: Op, lib: Library, lib': Library) {
    match op
    case WriteFile(path, buf) => FilePut(f, lib, lib', path, buf)
    case MakeDir(path) => FindRow(lib.live, path) < 0 && lib'.live == lib.live + [NewDir(f, path)]
    case RemoveFile(path) => FindRow(lib.live, path) >= 0 && lib'.live == Removed(lib.live, path)
    case PutBlock(buf) => lib'.live == lib.live && f.sha(buf) in lib'.idx
    case Sync => lib'.live == lib.live
    case PutTree(names, buf) =>
      names != [] && forall t :: TreeIn(f, c, lib, t) ==> Put(t, names, buf).Done? && TreeIn(f, c, lib', Put(t, names, buf).tree)
  }

  /** Calls that end in a commit. */
  predicate Seals(op: Op) { !op.PutBlock? }

  /** One call, from volume (l, lib) to (l', lib'): it stays sound; every medium passed shows the
      library before the call or the one after it; success makes the change durable. */
  ghost predicate OpDone(f: Format, c: Codec, l: LogState, lib: Library, op: Op, rc: Status, l': LogState, lib': Library) {
    && VolOk(f, l', lib') && HasTree(f, c, lib')
    && Between(f, l, l', lib', OpLater(f, c, l, lib, op))
    && LiveAfter(f, op, lib, lib')
    && (rc == OK ==> Effect(f, c, op, lib, lib'))
    && LibWith(f, l', l'.recs) == (if rc == OK && Seals(op) then lib' else LibWith(f, l, l.recs))
    && (rc == OK && Seals(op) ==> |l.shots| < |l'.shots|)
  }

  lemma {:induction false} TreePutEffect(f: Format, c: Codec, lib: Library, lib': Library, names: seq<Name>, buf: Bytes, t: Tree)
    requires f.Sound() && f.Injective() && NodeOk(f, c) && TreeIn(f, c, lib, t)
    requires names != [] && Put(t, names, buf).Done? && TreeIn(f, c, lib', Put(t, names, buf).tree)
    ensures Effect(f, c, PutTree(names, buf), lib, lib')
  {
    hide NodeOk, Format.Sound, Format.Injective, Put, Stored, TreeOk;
    forall u | TreeIn(f, c, lib, u) ensures u == t { RootInjective(f, c, u, t); }
  }

  /** The calls themselves. */
  method Call(v: Volume, c: Codec, op: Op) returns (rc: Status)
    requires v.Valid() && NodeOk(v.f, c) && HasTree(v.f, c, v.Current()) && OpOk(v.f, c, v.Log(), v.Current(), op)
    modifies v
    ensures v.up && v.limit == 0 && OpDone(v.f, c, old(v.Log()), old(v.Current()), op, rc, v.Log(), v.Current())
  {
    hide VolOk, NodeOk, HasTree, OpDone, OpOk;
    match op
    case WriteFile(_, _) => rc := CallRow(v, c, op);
    case MakeDir(_) => rc := CallRow(v, c, op);
    case RemoveFile(_) => rc := CallRow(v, c, op);
    case PutBlock(_) => rc := CallStore(v, c, op);
    case Sync => rc := CallStore(v, c, op);
    case PutTree(names, buf) => rc := CallTree(v, c, names, buf);
  }

  /** The calls that change the file table. */
  method CallRow(v: Volume, c: Codec, op: Op) returns (rc: Status)
    requires v.Valid() && HasTree(v.f, c, v.Current()) && OpOk(v.f, c, v.Log(), v.Current(), op)
    requires op.WriteFile? || op.MakeDir? || op.RemoveFile?
    modifies v
    ensures v.up && v.limit == 0 && OpDone(v.f, c, old(v.Log()), old(v.Current()), op, rc, v.Log(), v.Current())
  {
    hide WriteVerdict, Verdict, CommitFits, OneOut, UniqueNames, VolOk, LibWith, Quiet, QuietLater, RowsQuiet, RowsLater, HasTree, Between, PutRow, RowsOk, FilePut, FileQuiet, FileLater;
    ghost var a := v.Current();
    match op {
      case WriteFile(path, buf) => rc := v.WriteFile(path, buf);
      case MakeDir(path) => rc := v.Mkdir(path);
      case RemoveFile(path) => rc := v.Unlink(path);
    }
    TreeGrows(v.f, c, a, v.Current());
  }

  /** ark_block_put and ark_checkpoint. */
  method CallStore(v: Volume, c: Codec, op: Op) returns (rc: Status)
    requires v.Valid() && HasTree(v.f, c, v.Current()) && OpOk(v.f, c, v.Log(), v.Current(), op) && (op.PutBlock? || op.Sync?)
    modifies v
    ensures v.up && v.limit == 0 && OpDone(v.f, c, old(v.Log()), old(v.Current()), op, rc, v.Log(), v.Current())
  {
    hide BlockDone, BlockVerdict, Verdict, CommitFits, VolOk, LibWith, Quiet, QuietLater, RowsQuiet, RowsLater, HasTree, Between, Grew;
    ghost var a, l := v.Current(), v.Log();
    match op {
      case PutBlock(buf) =>
        VolFacts(v.f, l, a);
        ghost var n;
        rc, n := v.BlockPut(buf);
        GrewBetween(v.f, l, a, v.Log(), v.Current(), n, QuietLater(v.f, l.epoch, buf), QuietLater(v.f, l.epoch, buf));
      case Sync => rc := v.Checkpoint();
    }
    TreeGrows(v.f, c, a, v.Current());
  }

  method CallTree(v: Volume, c: Codec, names: seq<Name>, buf: Bytes) returns (rc: Status)
    requires v.Valid() && NodeOk(v.f, c) && HasTree(v.f, c, v.Current()) && OpOk(v.f, c, v.Log(), v.Current(), PutTree(names, buf))
    modifies v
    ensures v.up && v.limit == 0 && OpDone(v.f, c, old(v.Log()), old(v.Current()), PutTree(names, buf), rc, v.Log(), v.Current())
  {
    hide Roomy, Verdict, TreeVerdict, VolOk, NodeOk, TreeIn, LibWith, PathNamesOk, HasTree, Between, TreeQuiet, TreeLater, Put, LogOk, CoreOf, ShotsOk, ShotOk, FormatOk;
    ghost var a, l := v.Current(), v.Log();
    VolFacts(v.f, l, a);
    ghost var t := AnyTree(v.f, c, a);
    ghost var t';
    NamesThere(names);
    rc, t' := v.MtreePut(c, names, buf, t);
    ThisTree(v.f, c, v.Current(), t');
    LaterHere(v.f, c, l, a, names, buf, t, v.Log(), v.Current());
    TreeIsDir(v.f, c, a, t);
    if rc == OK { TreePutEffect(v.f, c, a, v.Current(), names, buf, t); }
  }

  lemma {:induction false} NamesThere(names: seq<Name>)
    ensures PathNamesOk(names) ==> names != []
  {
  }

  lemma {:induction false} LaterHere(f: Format, c: Codec, l: LogState, lib: Library, names: seq<Name>, buf: Bytes, t: Tree, l': LogState, lib': Library)
    requires TreeIn(f, c, lib, t) && Between(f, l, l', lib', TreeLater(f, c, l.epoch, l.sq, lib.live, t, names, buf))
    ensures Between(f, l, l', lib', OpLater(f, c, l, lib, PutTree(names, buf)))
  {
    hide TreeIn, TreeLater, Adds, StaysYoung, Shown, LibWith;
  }

  lemma {:induction false} VolFacts(f: Format, l: LogState, lib: Library)
    requires VolOk(f, l, lib)
    ensures LogOk(f, l) && lib.idx == CoreOf(f, l.cap, l.logStart, l.recs).idx && FormatOk(f) && f.Sound() && f.Injective()
    ensures l.cap == CapOf(|l.media|) && ShotsOk(f, l.shots) && ShotOk(f, NowOf(l)) && l.recs <= l.landed
  {
  }
}
