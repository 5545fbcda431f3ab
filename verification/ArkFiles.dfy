/** What users see of the file table: a map from paths to files and directories.  Every call,
    compaction, format and power loss of a run against that map, and ark_read_file answered
    by it. */
module ArkFiles {
  import opened ArkFormat
  import opened ArkLog
  import opened ArkCrash
  import opened ArkLibrary
  import opened ArkCompaction
  import opened ArkHistory
  import opened ArkTree
  import opened ArkMerkle
  import opened ArkFresh
  import opened Ark
  import opened ArkSession
  import opened ArkRuns
  import opened ArkLedger

  datatype What = Folder | Contents(bytes: Bytes)
  type Files = map<Bytes, What>

  /** What a successful call does to the files. */
  function After(op: Op, fs: Files): Files {
    match op
    case WriteFile(path, buf) => fs[path := Contents(buf)]
    case MakeDir(path) => fs[path := Folder]
    case RemoveFile(path) => fs - {path}
    case PutBlock(_) => fs
    case Sync => fs
    case PutTree(_, _) => fs
  }

  /** What ark_read_file is to answer. */
  function Answer(fs: Files, path: Bytes): Result<Bytes> {
    if path in fs && fs[path].Contents? then Got(fs[path].bytes) else Err(NOTFOUND)
  }

  // ---------------------------------------------------------------- tables and files

  ghost predicate RowShows(f: Format, d: Dent, x: What) {
    match x
    case Folder => d.isDir && d.size == 0
    case Contents(b) => !d.isDir && d.size == |b| && d.nblk == Blocks(|b|) <= |d.blk| && d.blk[..d.nblk] == FileIds(f, b, Blocks(|b|))
  }

  /** The table holds exactly these files, each in one row. */
  ghost predicate Represents(f: Format, live: seq<Dent>, fs: Files) {
    && UniqueNames(live)
    && (forall p :: p in fs ==> FindRow(live, p) >= 0)
    && forall i :: 0 <= i < |live| ==> live[i].name in fs && RowShows(f, live[i], fs[live[i].name])
  }

  lemma {:induction false} NothingShown(f: Format)
    ensures Represents(f, EmptyLibrary(f).live, map[])
  {
  }

  lemma {:induction false} PutShows(f: Format, live: seq<Dent>, path: Bytes, buf: Bytes, fs: Files)
    requires Blocks(|buf|) <= MAX_BLK && forall i :: 0 <= i < |live| ==> |live[i].blk| == MAX_BLK
    requires Represents(f, live, fs)
    ensures Represents(f, PutRow(f, live, path, buf), fs[path := Contents(buf)])
  {
    hide FileChunk, FindRow;
    var rows, fs' := PutRow(f, live, path, buf), fs[path := Contents(buf)];
    var e := FindRow(live, path);
    var k := if e < 0 then |live| else e;
    assert rows[k].name == path && rows[k].blk[..Blocks(|buf|)] == FileIds(f, buf, Blocks(|buf|));
    assert forall i :: 0 <= i < |live| && i != k ==> rows[i] == live[i];
    forall p | p in fs' ensures FindRow(rows, p) >= 0 {
      var i := if p == path then k else FindRow(live, p);
      assert rows[i].name == p;
    }
  }

  lemma {:induction false} NewDirShows(f: Format, live: seq<Dent>, path: Bytes, fs: Files)
    requires Represents(f, live, fs) && FindRow(live, path) < 0
    ensures path !in fs && Represents(f, live + [NewDir(f, path)], fs[path := Folder])
  {
    hide FindRow;
    var rows, fs' := live + [NewDir(f, path)], fs[path := Folder];
    assert rows[|live|] == NewDir(f, path);
    forall p | p in fs' ensures FindRow(rows, p) >= 0 {
      var i := if p == path then |live| else FindRow(live, p);
      assert rows[i].name == p;
    }
  }

  lemma {:induction false} RemovedShows(f: Format, live: seq<Dent>, path: Bytes, fs: Files)
    requires Represents(f, live, fs) && FindRow(live, path) >= 0
    ensures path in fs && Represents(f, Removed(live, path), fs - {path})
  {
    hide RowShows, Removed, FindRow, UniqueNames;
    RemovedRow(live, path);
    var a: seq<Dent>, d: Dent, b: seq<Dent> :| live == a + [d] + b && d.name == path && Removed(live, path) == a + b;
    WithoutRow(a, d, b);
    var rows, fs' := a + b, fs - {path};
    forall p | p in fs' ensures FindRow(rows, p) >= 0 {
      var i := FindRow(live, p);
      assert live[|a|] == d;
      var j := if i < |a| then i else i - 1;
      assert rows[j].name == p;
    }
  }

  /** One call: success does to the table what it does to the files, failure does that or
      nothing. */
  lemma {:induction false} OpShows(f: Format, c: Codec, lib: Library, lib': Library, op: Op, fs: Files)
    requires Represents(f, lib.live, fs) && LiveAfter(f, op, lib, lib')
    ensures Represents(f, lib'.live, if lib'.live == lib.live then fs else After(op, fs))
    ensures Effect(f, c, op, lib, lib') ==> Represents(f, lib'.live, After(op, fs))
  {
    hide Represents, PutRow, Removed, NewDir, TreeIn, Put;
    match op
    case WriteFile(path, buf) =>
      if FilePut(f, lib, lib', path, buf) { PutShows(f, lib.live, path, buf, fs); }
    case MakeDir(path) =>
      if FindRow(lib.live, path) < 0 { NewDirShows(f, lib.live, path, fs); }
    case RemoveFile(path) =>
      if FindRow(lib.live, path) >= 0 { RemovedShows(f, lib.live, path, fs); }
    case PutBlock(_) =>
    case Sync =>
    case PutTree(_, _) =>
  }

  // ---------------------------------------------------------------- a table represents one map

  lemma {:induction false} SameChunks(f: Format, a: Bytes, b: Bytes)
    requires f.Injective() && |a| == |b| && FileIds(f, a, Blocks(|a|)) == FileIds(f, b, Blocks(|b|))
    ensures a == b
  {
    forall i | 0 <= i < |a| ensures a[i] == b[i] {
      var k := i / 4096;
      assert FileIds(f, a, Blocks(|a|))[k] == f.sha(FileChunk(a, k)) && FileIds(f, b, Blocks(|b|))[k] == f.sha(FileChunk(b, k));
      assert FileChunk(a, k)[i - 4096 * k] == a[i] && FileChunk(b, k)[i - 4096 * k] == b[i];
    }
  }

  lemma {:induction false} RepresentsOne(f: Format, live: seq<Dent>, a: Files, b: Files)
    requires f.Injective() && Represents(f, live, a) && Represents(f, live, b)
    ensures a == b
  {
    hide Format.Injective, FileIds, UniqueNames;
    forall p ensures p in a <==> p in b {}
    forall p | p in a && p in b ensures a[p] == b[p] {
      var d := live[FindRow(live, p)];
      assert RowShows(f, d, a[p]) && RowShows(f, d, b[p]);
      if a[p].Contents? { SameChunks(f, a[p].bytes, b[p].bytes); }
    }
  }

  // ---------------------------------------------------------------- reading

  /** On a sound volume ark_read_file answers by the files. */
  lemma {:induction false} ReadsFiles(f: Format, l: LogState, lib: Library, fs: Files, ts: seq<Entry>, path: Bytes, r: Result<Bytes>)
    requires VolOk(f, l, lib) && Represents(f, lib.live, fs) && FileAnswer(f, l.media, l.epoch, lib.idx, ts, lib.live, path, r)
    ensures r == Answer(fs, path)
  {
    hide LogOk, CoreOf, UniqueNames, ReadBlocks, BlockGet, VersionRead, FormatOk, RowsOk, FileIds, FileChunk, Blocks;
    var e := FindRow(lib.live, path);
    if e >= 0 && !lib.live[e].isDir {
      var d, buf := lib.live[e], fs[path].bytes;
      assert RowShows(f, d, fs[path]);
      RowIndexed(f, lib, e, buf);
      VolumeFile(f, l, lib.idx, buf);
    }
  }

  lemma {:induction false} RowIndexed(f: Format, lib: Library, e: nat, buf: Bytes)
    requires LibOk(f, lib) && e < |lib.live| && RowShows(f, lib.live[e], Contents(buf))
    ensures forall i :: 0 <= i < Blocks(|buf|) ==> f.sha(FileChunk(buf, i)) in lib.idx
  {
    hide FileChunk, RowsOk, Blocks;
    var d := lib.live[e];
    forall i | 0 <= i < Blocks(|buf|) ensures f.sha(FileChunk(buf, i)) in lib.idx {
      assert d.blk[..d.nblk][i] == f.sha(FileChunk(buf, i));
      assert d.blk[i] in Named(lib.live);
    }
  }

  // ---------------------------------------------------------------- runs

  /** The files a medium may show. */
  datatype Pair = Pair(before: Files, after: Files)

  /** The files in memory, those of the last acknowledged commit, and those of every medium. */
  datatype Catalog = Catalog(now: Files, durable: Files, media: seq<Pair>)

  ghost function Recorded(f: Format, s: Snap, ev: Event, t: Snap, g: Catalog): Catalog {
    var n := if |s.l.shots| <= |t.l.shots| then |t.l.shots| - |s.l.shots| else 0;
    match ev
    case Did(op, rc) =>
      var now := if rc == OK || t.lib.live != s.lib.live then After(op, g.now) else g.now;
      var sealed := rc == OK && Seals(op);
      Catalog(now, if sealed then now else g.durable,
              g.media + seq(n, i => Pair(if i == n - 1 && sealed then now else g.durable, now)))
    case Packed(rc, p) =>
      Catalog(g.now, if rc == OK then g.now else g.durable,
              g.media + seq(n, i => if i < p.pre then Pair(g.durable, g.durable) else Pair(g.now, g.now)))
    case Formatted(rc) =>
      Catalog(if rc == INVAL then g.now else map[], if rc == INVAL then g.durable else map[], g.media + seq(n, _ => Pair(map[], map[])))
    case Lost(k) =>
      if k < |g.media| then
        var now := if Represents(f, t.lib.live, g.media[k].before) then g.media[k].before else g.media[k].after;
        Catalog(now, now, g.media[..k + 1] + [Pair(now, now)])
      else g
  }

  /** The files after n events. */
  ghost function CatalogAt(f: Format, ss: seq<Snap>, evs: seq<Event>, n: nat): Catalog
    requires |ss| == |evs| + 1 && n <= |evs|
  {
    if n == 0 then Catalog(map[], map[], [])
    else Recorded(f, ss[n - 1], evs[n - 1], ss[n], CatalogAt(f, ss, evs, n - 1))
  }

  ghost predicate PairOk(f: Format, b: Bounds, x: Pair) {
    Represents(f, b.before.live, x.before) && Represents(f, b.after.live, x.after)
  }

  ghost predicate CatalogOk(f: Format, s: Snap, durable: Library, bs: seq<Bounds>, g: Catalog) {
    && (s.up ==> Represents(f, s.lib.live, g.now)) && Represents(f, durable.live, g.durable)
    && |g.media| == |bs| && forall i :: 0 <= i < |bs| ==> PairOk(f, bs[i], g.media[i])
  }

  lemma {:induction false} DidFiles(f: Format, c: Codec, s: Snap, op: Op, rc: Status, t: Snap, durable: Library, bs: seq<Bounds>, g: Catalog)
    requires DidStep(f, c, s, op, rc, t) && CatalogOk(f, s, durable, bs, g)
    ensures CatalogOk(f, t, if rc == OK && Seals(op) then t.lib else durable, Extended(f, s, Did(op, rc), t, durable, bs),
                      Recorded(f, s, Did(op, rc), t, g))
  {
    hide Represents, VolOk, HasTree, OpLater, OpOk, Between, LibWith, Effect, LiveAfter, After;
    OpShows(f, c, s.lib, t.lib, op, g.now);
    var bs', g' := Extended(f, s, Did(op, rc), t, durable, bs), Recorded(f, s, Did(op, rc), t, g);
    forall i | 0 <= i < |bs'| ensures PairOk(f, bs'[i], g'.media[i]) {
      if i < |bs| { assert bs'[i] == bs[i] && g'.media[i] == g.media[i]; }
    }
  }

  lemma {:induction false} PackedLive(f: Format, s: Snap, rc: Status, p: Passage, t: Snap)
    requires PackedStep(f, s, rc, p, t)
    ensures s.up && t.lib.live == s.lib.live
  {
    hide VolOk, LibWith, ShotsOk, CompactLater, Young, MountOf, ShowsCompacted, Resealed, CompactQuiet, ValidCommit, Readable, BlockGet, Primary;
  }

  lemma {:induction false} PackedFiles(f: Format, s: Snap, rc: Status, p: Passage, t: Snap, durable: Library, bs: seq<Bounds>, g: Catalog)
    requires PackedStep(f, s, rc, p, t) && CatalogOk(f, s, durable, bs, g)
    ensures CatalogOk(f, t, if rc == OK then t.lib else durable, Extended(f, s, Packed(rc, p), t, durable, bs), Recorded(f, s, Packed(rc, p), t, g))
  {
    hide Represents, PackedStep;
    PackedLive(f, s, rc, p, t);
    var bs', g' := Extended(f, s, Packed(rc, p), t, durable, bs), Recorded(f, s, Packed(rc, p), t, g);
    forall i | 0 <= i < |bs'| ensures PairOk(f, bs'[i], g'.media[i]) {
      if i < |bs| { assert bs'[i] == bs[i] && g'.media[i] == g.media[i]; }
    }
    assert Represents(f, t.lib.live, g.now) by { assert t.lib.live == s.lib.live; }
  }

  lemma {:induction false} FormattedFiles(f: Format, s: Snap, rc: Status, t: Snap, durable: Library, bs: seq<Bounds>, g: Catalog)
    requires FormattedStep(f, s, rc, t) && CatalogOk(f, s, durable, bs, g)
    ensures CatalogOk(f, t, if rc == INVAL then durable else EmptyLibrary(f), Extended(f, s, Formatted(rc), t, durable, bs),
                      Recorded(f, s, Formatted(rc), t, g))
  {
    hide Represents, FormattedStep, EmptyLibrary, CapOf, Grown;
    FormattedFacts(f, s, rc, t);
    NothingShown(f);
    var bs', g' := Extended(f, s, Formatted(rc), t, durable, bs), Recorded(f, s, Formatted(rc), t, g);
    forall i | 0 <= i < |bs'| ensures PairOk(f, bs'[i], g'.media[i]) {
      if i < |bs| { assert bs'[i] == bs[i] && g'.media[i] == g.media[i]; }
    }
  }

  lemma {:induction false} LostFiles(f: Format, s: Snap, k: nat, t: Snap, durable: Library, bs: seq<Bounds>, g: Catalog)
    requires LostStep(f, s, k, t) && CatalogOk(f, s, durable, bs, g) && Framed(f, s, durable, bs)
    ensures CatalogOk(f, t, t.lib, Extended(f, s, Lost(k), t, durable, bs), Recorded(f, s, Lost(k), t, g))
    ensures var now := Recorded(f, s, Lost(k), t, g).now; k < |g.media| && (now == g.media[k].before || now == g.media[k].after)
  {
    hide Represents, VolOk, LibWith, Shown, Committed;
    assert ShowsOneOf(f, s.l.shots[k], bs[k]) && PairOk(f, bs[k], g.media[k]);
    var bs', g' := Extended(f, s, Lost(k), t, durable, bs), Recorded(f, s, Lost(k), t, g);
    assert Represents(f, t.lib.live, g'.now);
    forall i | 0 <= i < |bs'| ensures PairOk(f, bs'[i], g'.media[i]) {
      if i <= k { assert bs'[i] == bs[i] && g'.media[i] == g.media[i]; }
    }
  }

  lemma {:induction false} RunCatalog(f: Format, c: Codec, ss: seq<Snap>, evs: seq<Event>, n: nat)
    requires Run(f, c, ss, evs) && FormatOk(f) && NodeOk(f, c) && Blank(ss[0]) && n <= |evs|
    ensures CatalogOk(f, ss[n], DurableAt(f, ss, evs, n), BoundsAt(f, ss, evs, n), CatalogAt(f, ss, evs, n))
  {
    hide FormatOk, NodeOk, Framed, CatalogOk, DidStep, PackedStep, FormattedStep, LostStep, Extended, Recorded;
    if n == 0 {
      BlankCatalog(f, ss[0]);
    } else {
      var m := n - 1;
      RunCatalog(f, c, ss, evs, m);
      RunFramed(f, c, ss, evs, m);
      var s, t, d, bs, g := ss[m], ss[m + 1], DurableAt(f, ss, evs, m), BoundsAt(f, ss, evs, m), CatalogAt(f, ss, evs, m);
      match evs[m]
      case Did(op, rc) => DidFiles(f, c, s, op, rc, t, d, bs, g);
      case Packed(rc, p) => PackedFiles(f, s, rc, p, t, d, bs, g);
      case Formatted(rc) => FormattedFiles(f, s, rc, t, d, bs, g);
      case Lost(k) => LostFiles(f, s, k, t, d, bs, g);
    }
  }

  lemma {:induction false} BlankCatalog(f: Format, s: Snap)
    requires Blank(s)
    ensures CatalogOk(f, s, EmptyLibrary(f), [], Catalog(map[], map[], []))
  {
    NothingShown(f);
  }

  /** Files over runs.  The files after n events are a map computed event by event: a
      successful write sets the path to its bytes, a mkdir to a directory, an unlink takes it
      out, a format empties the map, a compaction leaves it, and a power loss leaves one of the
      two maps of the medium it stopped at: for an idle volume the map of the last acknowledged
      commit.  In every mounted state of every run ark_read_file answers each path by that map. */
  lemma {:induction false} RunFiles(f: Format, c: Codec, ss: seq<Snap>, evs: seq<Event>, n: nat)
    requires Run(f, c, ss, evs) && FormatOk(f) && NodeOk(f, c) && Blank(ss[0]) && n <= |evs|
    ensures ss[n].up ==>
              var l, lib, fs := ss[n].l, ss[n].lib, CatalogAt(f, ss, evs, n).now;
              && Represents(f, lib.live, fs)
              && forall path, r, ts :: FileAnswer(f, l.media, l.epoch, lib.idx, ts, lib.live, path, r) ==> r == Answer(fs, path)
    ensures |CatalogAt(f, ss, evs, n).media| == |ss[n].l.shots|
    ensures forall i :: 0 <= i < |ss[n].l.shots| ==>
              var x, live := CatalogAt(f, ss, evs, n).media[i], Shown(f, ss[n].l.shots[i]).live;
              Represents(f, live, x.before) || Represents(f, live, x.after)
  {
    hide FormatOk, NodeOk, Step, Represents, VolOk, HasTree, FileAnswer, Answer, LibWith, Shown, MediaOk, CatalogAt, BoundsAt, DurableAt;
    var l, lib, g, bs := ss[n].l, ss[n].lib, CatalogAt(f, ss, evs, n), BoundsAt(f, ss, evs, n);
    RunCatalog(f, c, ss, evs, n);
    RunFramed(f, c, ss, evs, n);
    BlankOk(f, c, ss[0]);
    RunKeeps(f, c, ss, evs, n);
    if ss[n].up {
      forall path, r, ts | FileAnswer(f, l.media, l.epoch, lib.idx, ts, lib.live, path, r) ensures r == Answer(g.now, path) {
        ReadsFiles(f, l, lib, g.now, ts, path, r);
      }
    }
    forall i | 0 <= i < |ss[n].l.shots|
      ensures Represents(f, Shown(f, ss[n].l.shots[i]).live, g.media[i].before) || Represents(f, Shown(f, ss[n].l.shots[i]).live, g.media[i].after)
    {
      assert ShowsOneOf(f, ss[n].l.shots[i], bs[i]) && PairOk(f, bs[i], g.media[i]);
    }
  }

  // ---------------------------------------------------------------- calls in sequence

  /** ark_read_file at any mounted state of a run. */
  method ReadNow(v: Volume, path: Bytes, ghost c: Codec, ghost ss: seq<Snap>, ghost evs: seq<Event>) returns (r: Result<Bytes>)
    requires Run(v.f, c, ss, evs) && FormatOk(v.f) && NodeOk(v.f, c) && Blank(ss[0]) && ss[|evs|].up && Matches(v, ss[|evs|])
    ensures r == Answer(CatalogAt(v.f, ss, evs, |evs|).now, path)
  {
    hide FormatOk, NodeOk, Step, Represents, FileAnswer, Answer, Shown, CatalogAt, Blank;
    RunFiles(v.f, c, ss, evs, |evs|);
    r := v.ReadFile(path);
  }

  /** A call and then ark_read_file, of the same path or any other. */
  method CallThenRead(v: Volume, c: Codec, op: Op, path: Bytes, ghost fs: Files) returns (rc: Status, r: Result<Bytes>)
    requires v.Valid() && NodeOk(v.f, c) && HasTree(v.f, c, v.Current()) && OpOk(v.f, c, v.Log(), v.Current(), op)
    requires Represents(v.f, v.live, fs)
    modifies v
    ensures rc == OK ==> r == Answer(After(op, fs), path)
    ensures rc != OK ==> r == Answer(fs, path) || r == Answer(After(op, fs), path)
  {
    hide NodeOk, Represents, VolOk, HasTree, OpOk, OpLater, Between, LiveAfter, Effect, LibWith, FileAnswer, Answer, After;
    ghost var lib := v.Current();
    rc := Call(v, c, op);
    OpShows(v.f, c, lib, v.Current(), op, fs);
    r := v.ReadFile(path);
    ghost var fs' := if rc == OK || v.live != lib.live then After(op, fs) else fs;
    ReadsFiles(v.f, v.Log(), v.Current(), fs', v.Past(), path, r);
  }
}
