/** Old versions: the tables of all commits in the log, what ark_read_version and
    ark_history find in them, and why a version keeps its bytes for as long as the path is
    not unlinked. */
module ArkHistory {
  import opened Wrappers
  import opened ArkFormat
  import opened ArkLog
  import opened ArkCrash
  import opened ArkLibrary

  /** A commit the scan met: the sequence number of its header and its table. */
  datatype Entry = Entry(sq: nat, table: seq<Dent>)

  function TableOf(f: Format, payload: Bytes): seq<Dent> {
    match f.decCommit(payload)
    case None => []
    case Some(c) => c.table
  }

  function EntryOf(f: Format, kind: nat, sq: nat, payload: Bytes): seq<Entry> {
    if kind == REC_COMMIT then [Entry(sq, TableOf(f, payload))] else []
  }

  /** The commits the version scan meets in [sec, stop), oldest first. */
  function Commits(f: Format, rd: View, stop: nat, sec: nat): seq<Entry>
    decreases stop - sec
  {
    if sec >= stop then []
    else
      match rd(sec)
      case NoRecord => Commits(f, rd, stop, sec + 1)
      case Record(ps, h, p, ok) => (if ok then EntryOf(f, h.kind, h.sq, p) else []) + Commits(f, rd, stop, sec + 1 + ps)
  }

  /** The commits of the log itself. */
  function CommitsOf(f: Format, recs: seq<Rec>): seq<Entry> {
    if recs == [] then []
    else
      var r := recs[|recs| - 1];
      CommitsOf(f, recs[..|recs| - 1]) + EntryOf(f, r.kind, r.sq, r.payload)
  }

  lemma {:induction false} CommitsStep(f: Format, rd: View, e: nat, stop: nat, pos: nat, r: Rec)
    requires rd(pos) == GoodRead(f, e, r) && pos < stop
    ensures Commits(f, rd, stop, pos) == EntryOf(f, r.kind, r.sq, r.payload) + Commits(f, rd, stop, pos + Span(r))
  {
  }

  lemma {:induction false} CommitsWalk(f: Format, rd: View, e: nat, start: nat, recs: seq<Rec>, i: nat)
    requires Shows(f, rd, e, start, recs) && i <= |recs|
    ensures var stop := start + Spans(recs);
            Commits(f, rd, stop, start) == CommitsOf(f, recs[..i]) + Commits(f, rd, stop, Pos(start, recs, i))
  {
    hide Commits, Spans, Pos;
    var stop := start + Spans(recs);
    PosZero(start, recs);
    if i == 0 {
      assert recs[..0] == [];
    } else {
      var j := i - 1;
      CommitsWalk(f, rd, e, start, recs, j);
      PosNext(start, recs, j);
      PosMono(start, recs, i, |recs|);
      PosEnd(start, recs);
      CommitsStep(f, rd, e, stop, Pos(start, recs, j), recs[j]);
      assert recs[..i][..j] == recs[..j];
    }
  }

  lemma {:induction false} CommitsEnd(f: Format, rd: View, stop: nat)
    ensures Commits(f, rd, stop, stop) == []
  {
  }

  /** On a sound log the scan meets exactly its commits. */
  lemma {:induction false} CommitsFound(f: Format, m: Media, e: nat, start: nat, recs: seq<Rec>, all: seq<Rec>)
    requires LogInv(f, m, e, start, all) && recs <= all
    ensures Commits(f, ViewOf(f, m, e), start + Spans(recs), start) == CommitsOf(f, recs)
  {
    hide Commits, Spans, ViewOf, CommitsOf;
    LaidPrefix(f, m, e, start, all, recs);
    LaidShows(f, m, e, start, recs);
    CommitsWalk(f, ViewOf(f, m, e), e, start, recs, |recs|);
    PosEnd(start, recs);
    assert recs[..|recs|] == recs;
    CommitsEnd(f, ViewOf(f, m, e), start + Spans(recs));
  }

  // ---------------------------------------------------------------- what a scan answers

  /** The first row of this name and version in a table. */
  function RowAt(t: seq<Dent>, path: Bytes, v: nat): Option<Dent> {
    if t == [] then None
    else if t[0].name == path && t[0].version == v then Some(t[0])
    else RowAt(t[1..], path, v)
  }

  /** ark_read_version looks through the commits oldest first. */
  function FirstVersion(ts: seq<Entry>, path: Bytes, v: nat): Option<Dent> {
    if ts == [] then None
    else
      match RowAt(ts[0].table, path, v)
      case Some(d) => Some(d)
      case None => FirstVersion(ts[1..], path, v)
  }

  function ReadDent(f: Format, m: Media, e: nat, idx: map<Id, nat>, d: Dent): Result<Bytes> {
    ReadBlocks(f, m, e, idx, d.blk[..Min(d.nblk, |d.blk|)])
  }

  /** ark_read_version. */
  function VersionRead(f: Format, m: Media, e: nat, idx: map<Id, nat>, ts: seq<Entry>, path: Bytes, v: nat): Result<Bytes> {
    match FirstVersion(ts, path, v)
    case None => Err(NOTFOUND)
    case Some(d) => ReadDent(f, m, e, idx, d)
  }

  /** What ark_read_file promises for a live row: its own bytes; if they do not read, the bytes
      of the newest older version that does; if none does, the error of the row itself. */
  ghost predicate LatestGood(f: Format, m: Media, e: nat, idx: map<Id, nat>, ts: seq<Entry>, d: Dent, r: Result<Bytes>) {
    var own := ReadDent(f, m, e, idx, d);
    if own.Got? then r == own
    else if r.Got? then
      exists v :: 1 <= v < d.version && VersionRead(f, m, e, idx, ts, d.name, v) == r
                  && forall u :: v < u < d.version ==> VersionRead(f, m, e, idx, ts, d.name, u).Err?
    else r == own && forall u :: 1 <= u < d.version ==> VersionRead(f, m, e, idx, ts, d.name, u).Err?
  }

  /** What ark_read_file promises: directories and unknown paths are not found. */
  ghost predicate FileAnswer(f: Format, m: Media, e: nat, idx: map<Id, nat>, ts: seq<Entry>, live: seq<Dent>, path: Bytes, r: Result<Bytes>) {
    var e0 := FindRow(live, path);
    if e0 < 0 || live[e0].isDir then r == Err(NOTFOUND) else LatestGood(f, m, e, idx, ts, live[e0], r)
  }

  lemma {:induction false} ReadBlocksStep(f: Format, m: Media, e: nat, idx: map<Id, nat>, ids: seq<Id>, i: nat)
    requires i < |ids|
    ensures ReadBlocks(f, m, e, idx, ids[..i + 1])
         == match ReadBlocks(f, m, e, idx, ids[..i])
            case Err(s) => Err(s)
            case Got(front) =>
              match BlockGet(f, m, e, idx, ids[i])
              case Err(s) => Err(s)
              case Got(last) => Got(front + last)
  {
    hide BlockGet;
    assert ids[..i + 1][..i] == ids[..i];
  }

  /** The first failure is the answer. */
  lemma {:induction false} ReadBlocksStops(f: Format, m: Media, e: nat, idx: map<Id, nat>, ids: seq<Id>, i: nat)
    requires i <= |ids| && ReadBlocks(f, m, e, idx, ids[..i]).Err?
    ensures ReadBlocks(f, m, e, idx, ids) == ReadBlocks(f, m, e, idx, ids[..i])
    decreases |ids| - i
  {
    hide ReadBlocks;
    if i < |ids| {
      ReadBlocksStep(f, m, e, idx, ids, i);
      ReadBlocksStops(f, m, e, idx, ids, i + 1);
    } else {
      assert ids[..i] == ids;
    }
  }

  lemma {:induction false} CommitsNext(f: Format, rd: View, stop: nat, sec: nat, path: Bytes, v: nat)
    requires sec < stop
    ensures FirstVersion(Commits(f, rd, stop, sec), path, v)
         == match rd(sec)
            case NoRecord => FirstVersion(Commits(f, rd, stop, sec + 1), path, v)
            case Record(ps, h, p, ok) =>
              if h.kind == REC_COMMIT && ok && RowAt(TableOf(f, p), path, v).Some? then RowAt(TableOf(f, p), path, v)
              else FirstVersion(Commits(f, rd, stop, sec + 1 + ps), path, v)
  {
    hide RowAt;
    match rd(sec)
    case NoRecord =>
    case Record(ps, h, p, ok) =>
      var rest := Commits(f, rd, stop, sec + 1 + ps);
      if ok && h.kind == REC_COMMIT {
        assert ([Entry(h.sq, TableOf(f, p))] + rest)[1..] == rest;
      } else {
        assert [] + rest == rest;
      }
  }

  lemma {:induction false} CommitsNone(f: Format, rd: View, stop: nat, sec: nat, path: Bytes, v: nat)
    requires sec >= stop
    ensures FirstVersion(Commits(f, rd, stop, sec), path, v) == None
  {
  }

  datatype HistRow = HistRow(version: nat, sq: nat, size: nat)

  /** The first row of this name whose version is not the last one listed. */
  function RowNot(t: seq<Dent>, path: Bytes, last: nat): Option<Dent> {
    if t == [] then None
    else if t[0].name == path && t[0].version != last then Some(t[0])
    else RowNot(t[1..], path, last)
  }

  /** ark_history, without a bound on the rows returned. */
  function Listing(ts: seq<Entry>, path: Bytes, last: nat): seq<HistRow> {
    if ts == [] then []
    else
      match RowNot(ts[0].table, path, last)
      case Some(d) => [HistRow(d.version, ts[0].sq, d.size)] + Listing(ts[1..], path, d.version)
      case None => Listing(ts[1..], path, last)
  }

  lemma {:induction false} ListingNext(f: Format, rd: View, stop: nat, sec: nat, path: Bytes, last: nat)
    requires sec < stop
    ensures Listing(Commits(f, rd, stop, sec), path, last)
         == match rd(sec)
            case NoRecord => Listing(Commits(f, rd, stop, sec + 1), path, last)
            case Record(ps, h, p, ok) =>
              var rest := Commits(f, rd, stop, sec + 1 + ps);
              if h.kind == REC_COMMIT && ok && RowNot(TableOf(f, p), path, last).Some? then
                var d := RowNot(TableOf(f, p), path, last).value;
                [HistRow(d.version, h.sq, d.size)] + Listing(rest, path, d.version)
              else Listing(rest, path, last)
  {
    hide RowNot;
    match rd(sec)
    case NoRecord =>
    case Record(ps, h, p, ok) =>
      var rest := Commits(f, rd, stop, sec + 1 + ps);
      if ok && h.kind == REC_COMMIT {
        assert ([Entry(h.sq, TableOf(f, p))] + rest)[1..] == rest;
      } else {
        assert [] + rest == rest;
      }
  }

  lemma {:induction false} ListingDone(f: Format, rd: View, stop: nat, sec: nat, path: Bytes, last: nat)
    requires sec >= stop
    ensures Listing(Commits(f, rd, stop, sec), path, last) == []
  {
  }

  // ---------------------------------------------------------------- one path through the tables

  function Row(table: seq<Dent>, path: Bytes): Option<Dent> {
    var e := FindRow(table, path);
    if e < 0 then None else Some(table[e])
  }

  predicate UniqueNames(t: seq<Dent>) {
    forall i, j :: 0 <= i < j < |t| ==> t[i].name != t[j].name
  }

  lemma {:induction false} RowIs(t: seq<Dent>, p: Bytes, i: nat)
    requires UniqueNames(t) && i < |t| && t[i].name == p
    ensures Row(t, p) == Some(t[i])
  {
  }

  lemma {:induction false} RowNone(t: seq<Dent>, p: Bytes)
    requires forall i :: 0 <= i < |t| ==> t[i].name != p
    ensures Row(t, p) == None
  {
  }

  lemma {:induction false} RowTail(t: seq<Dent>, path: Bytes)
    requires t != [] && UniqueNames(t)
    ensures UniqueNames(t[1..])
    ensures t[0].name == path ==> Row(t, path) == Some(t[0]) && Row(t[1..], path) == None
    ensures t[0].name != path ==> Row(t, path) == Row(t[1..], path)
  {
    RowOfTail(t, path);
    if t[0].name == path { RowNone(t[1..], path); }
  }

  lemma {:induction false} RowOfTail(t: seq<Dent>, path: Bytes)
    requires t != []
    ensures t[0].name != path ==> Row(t, path) == Row(t[1..], path)
  {
  }

  lemma {:induction false} RowAtIs(t: seq<Dent>, path: Bytes, v: nat)
    requires UniqueNames(t)
    ensures RowAt(t, path, v) == if Row(t, path).Some? && Row(t, path).value.version == v then Row(t, path) else None
  {
    hide Row, UniqueNames;
    if t != [] {
      RowTail(t, path);
      RowAtIs(t[1..], path, v);
    } else {
      RowNone(t, path);
    }
  }

  lemma {:induction false} RowNotIs(t: seq<Dent>, path: Bytes, last: nat)
    requires UniqueNames(t)
    ensures RowNot(t, path, last) == if Row(t, path).Some? && Row(t, path).value.version != last then Row(t, path) else None
  {
    hide Row, UniqueNames;
    if t != [] {
      RowTail(t, path);
      RowNotIs(t[1..], path, last);
    } else {
      RowNone(t, path);
    }
  }

  /** From table a to a later table b the path stays, its version does not fall, and the
      same version is the same row. */
  predicate Follows(path: Bytes, a: seq<Dent>, b: seq<Dent>) {
    && UniqueNames(a) && UniqueNames(b)
    && (Row(a, path).Some? ==>
          && Row(b, path).Some? && Row(a, path).value.version <= Row(b, path).value.version
          && (Row(a, path).value.version == Row(b, path).value.version ==> Row(a, path) == Row(b, path)))
  }

  predicate Hist(path: Bytes, ts: seq<Entry>) {
    forall i, j :: 0 <= i <= j < |ts| ==> Follows(path, ts[i].table, ts[j].table)
  }

  predicate Reaches(path: Bytes, ts: seq<Entry>, live: seq<Dent>) {
    UniqueNames(live) && (ts == [] || Follows(path, ts[|ts| - 1].table, live))
  }

  lemma {:induction false} FollowsTrans(path: Bytes, a: seq<Dent>, b: seq<Dent>, c: seq<Dent>)
    requires Follows(path, a, b) && Follows(path, b, c)
    ensures Follows(path, a, c)
  {
    hide Row, UniqueNames;
  }

  lemma {:induction false} FollowsSelf(path: Bytes, a: seq<Dent>)
    requires UniqueNames(a)
    ensures Follows(path, a, a)
  {
  }

  lemma {:induction false} HistSnoc(path: Bytes, ts: seq<Entry>, t: Entry)
    requires Hist(path, ts) && Reaches(path, ts, t.table)
    ensures Hist(path, ts + [t])
  {
    hide Row, UniqueNames, Follows;
    var us := ts + [t];
    forall i, j | 0 <= i <= j < |us| ensures Follows(path, us[i].table, us[j].table) {
      if j == |ts| {
        if i < |ts| {
          FollowsTrans(path, ts[i].table, ts[|ts| - 1].table, t.table);
        } else {
          FollowsSelf(path, t.table);
        }
      }
    }
  }

  // ---------------------------------------------------------------- what the calls do to a path

  /** ark_write_file, on this path or another, lets the path's history go on, unless the
      version counter of the row wraps; the written row is one version up. */
  lemma {:induction false} WriteFollows(f: Format, live: seq<Dent>, path: Bytes, buf: Bytes, p: Bytes)
    requires Blocks(|buf|) <= MAX_BLK && forall i :: 0 <= i < |live| ==> |live[i].blk| == MAX_BLK
    requires UniqueNames(live) && NextVersion(live, path) < U32
    ensures var rows := PutRow(f, live, path, buf);
            && Follows(p, live, rows)
            && (p != path ==> Row(rows, p) == Row(live, p))
            && Row(rows, path).Some? && Row(rows, path).value.version == NextVersion(live, path)
            && Row(rows, path).value.nblk == Blocks(|buf|) <= |Row(rows, path).value.blk| && Row(rows, path).value.size == |buf|
            && Row(rows, path).value.blk[..Blocks(|buf|)] == FileIds(f, buf, Blocks(|buf|))
  {
    hide Row, FileChunk;
    var rows := PutRow(f, live, path, buf);
    var e := FindRow(live, path);
    var k := if e < 0 then |live| else e;
    assert rows[k].name == path && rows[k].blk[..Blocks(|buf|)] == FileIds(f, buf, Blocks(|buf|));
    assert forall i :: 0 <= i < |live| && i != k ==> rows[i] == live[i];
    assert UniqueNames(rows);
    assert Row(live, path) == (if e < 0 then None else Some(live[e])) by { RowFind(live, path); }
    RowIs(rows, path, k);
    if p != path {
      OtherRow(live, rows, k, p);
    }
  }

  lemma {:induction false} RowFind(t: seq<Dent>, p: Bytes)
    ensures var e := FindRow(t, p); Row(t, p) == if e < 0 then None else Some(t[e])
  {
  }

  /** The version the next write of the path mints. */
  function NextVersion(live: seq<Dent>, path: Bytes): nat {
    if Row(live, path).Some? then Row(live, path).value.version + 1 else 1
  }

  lemma {:induction false} OtherRow(live: seq<Dent>, rows: seq<Dent>, k: nat, p: Bytes)
    requires UniqueNames(live) && UniqueNames(rows) && |live| <= |rows| <= |live| + 1 && k < |rows| && (|rows| > |live| ==> k == |live|)
    requires forall i :: 0 <= i < |live| && i != k ==> rows[i] == live[i]
    requires rows[k].name != p && (k < |live| ==> live[k].name != p)
    ensures Row(rows, p) == Row(live, p)
  {
    hide Row;
    RowFind(live, p);
    var e := FindRow(live, p);
    if e >= 0 {
      RowIs(rows, p, e);
    } else {
      RowNone(rows, p);
    }
  }

  /** ark_mkdir. */
  lemma {:induction false} AppendFollows(live: seq<Dent>, d: Dent, p: Bytes)
    requires UniqueNames(live) && FindRow(live, d.name) < 0
    ensures Follows(p, live, live + [d]) && (p != d.name ==> Row(live + [d], p) == Row(live, p)) && Row(live + [d], d.name) == Some(d)
  {
    hide Row;
    RowIs(live + [d], d.name, |live|);
    if p != d.name {
      OtherRow(live, live + [d], |live|, p);
    } else {
      RowFind(live, p);
    }
  }

  /** One row of the table is gone, a row of this path; the others stay in their order. */
  ghost predicate OneOut(live: seq<Dent>, rows: seq<Dent>, path: Bytes) {
    exists a: seq<Dent>, d: Dent, b: seq<Dent> :: live == a + [d] + b && d.name == path && rows == a + b
  }

  lemma {:induction false} WithoutRow(a: seq<Dent>, d: Dent, b: seq<Dent>)
    requires UniqueNames(a + [d] + b)
    ensures UniqueNames(a + b) && forall i :: 0 <= i < |a + b| ==> (a + b)[i].name != d.name
    ensures forall i :: 0 <= i < |a + b| ==> (a + b)[i] == (a + [d] + b)[if i < |a| then i else i + 1]
  {
    var live := a + [d] + b;
    assert live[|a|] == d;
    forall i | 0 <= i < |a + b| ensures (a + b)[i] == live[if i < |a| then i else i + 1] {}
  }

  /** ark_unlink takes out one row, the path's, and leaves the others in their order. */
  lemma {:induction false} RemovedRow(live: seq<Dent>, path: Bytes)
    requires FindRow(live, path) >= 0
    ensures OneOut(live, Removed(live, path), path)
    ensures UniqueNames(live) ==> FindRow(Removed(live, path), path) < 0
  {
    var e := FindRow(live, path);
    assert live == live[..e] + [live[e]] + live[e + 1..];
    if UniqueNames(live) { WithoutRow(live[..e], live[e], live[e + 1..]); }
  }

  /** ark_unlink of another path. */
  lemma {:induction false} UnlinkFollows(live: seq<Dent>, e: nat, p: Bytes)
    requires UniqueNames(live) && e < |live| && live[e].name != p
    ensures var t := live[..e] + live[e + 1..]; Follows(p, live, t) && Row(t, p) == Row(live, p)
  {
    hide Row;
    var t := live[..e] + live[e + 1..];
    assert forall j :: 0 <= j < |t| ==> t[j] == if j < e then live[j] else live[j + 1];
    RowFind(live, p);
    var i := FindRow(live, p);
    if i >= 0 {
      RowIs(t, p, if i < e then i else i - 1);
    } else {
      RowNone(t, p);
    }
  }

  // ---------------------------------------------------------------- listing the versions

  predicate Increasing(rows: seq<HistRow>, last: nat) {
    && (forall i :: 0 <= i < |rows| ==> rows[i].version > last)
    && (forall i, j :: 0 <= i < j < |rows| ==> rows[i].version < rows[j].version)
  }

  predicate Listed(rows: seq<HistRow>, d: Dent) {
    exists i :: 0 <= i < |rows| && rows[i].version == d.version && rows[i].size == d.size
  }

  /** Some commit holds this version of the path, and its header this sequence number. */
  predicate Came(ts: seq<Entry>, path: Bytes, r: HistRow) {
    exists k :: 0 <= k < |ts| && ts[k].sq == r.sq && Row(ts[k].table, path).Some?
                && Row(ts[k].table, path).value.version == r.version && Row(ts[k].table, path).value.size == r.size
  }

  lemma {:induction false} HistTail(path: Bytes, ts: seq<Entry>)
    requires Hist(path, ts) && ts != []
    ensures Hist(path, ts[1..])
  {
    hide Follows;
    var us := ts[1..];
    forall i, j | 0 <= i <= j < |us| ensures Follows(path, us[i].table, us[j].table) {
      assert us[i] == ts[i + 1] && us[j] == ts[j + 1];
    }
  }

  /** No commit holds a version under `last`. */
  predicate From(path: Bytes, ts: seq<Entry>, last: nat) {
    forall i :: 0 <= i < |ts| && Row(ts[i].table, path).Some? ==> Row(ts[i].table, path).value.version >= last
  }

  lemma {:induction false} FromTail(path: Bytes, ts: seq<Entry>, last: nat)
    requires Hist(path, ts) && From(path, ts, last) && ts != []
    ensures var d := RowNot(ts[0].table, path, last); From(path, ts[1..], if d.Some? then d.value.version else last)
    ensures var d := RowNot(ts[0].table, path, last); d.Some? ==> Row(ts[0].table, path) == d && d.value.version > last
    ensures RowNot(ts[0].table, path, last).None? && Row(ts[0].table, path).Some? ==> Row(ts[0].table, path).value.version == last
  {
    hide Row, UniqueNames;
    var us := ts[1..];
    assert Follows(path, ts[0].table, ts[0].table);
    RowNotIs(ts[0].table, path, last);
    forall i | 0 <= i < |us| && Row(us[i].table, path).Some?
      ensures var d := RowNot(ts[0].table, path, last); Row(us[i].table, path).value.version >= if d.Some? then d.value.version else last
    {
      assert us[i] == ts[i + 1];
      assert Follows(path, ts[0].table, ts[i + 1].table);
    }
  }

  lemma {:induction false} ListingStep(ts: seq<Entry>, path: Bytes, last: nat)
    requires ts != []
    ensures var d := RowNot(ts[0].table, path, last);
            Listing(ts, path, last) == if d.None? then Listing(ts[1..], path, last)
              else [HistRow(d.value.version, ts[0].sq, d.value.size)] + Listing(ts[1..], path, d.value.version)
  {
  }

  /** The listing is strictly increasing, so no version twice. */
  lemma {:induction false} ListingIncreases(ts: seq<Entry>, path: Bytes, last: nat)
    requires Hist(path, ts) && From(path, ts, last)
    ensures Increasing(Listing(ts, path, last), last)
  {
    hide Row, Hist, From, RowNot;
    if ts != [] {
      HistTail(path, ts);
      FromTail(path, ts, last);
      ListingStep(ts, path, last);
      var d := RowNot(ts[0].table, path, last);
      ListingIncreases(ts[1..], path, if d.Some? then d.value.version else last);
    }
  }

  /** Every version some commit holds is listed, with its size. */
  lemma {:induction false} ListingComplete(ts: seq<Entry>, path: Bytes, last: nat, k: nat)
    requires Hist(path, ts) && From(path, ts, last) && k < |ts|
    requires Row(ts[k].table, path).Some? && Row(ts[k].table, path).value.version != last
    ensures Listed(Listing(ts, path, last), Row(ts[k].table, path).value)
  {
    hide Row, From, RowNot, Listing, UniqueNames;
    FromTail(path, ts, last);
    ListingStep(ts, path, last);
    var d := RowNot(ts[0].table, path, last);
    var all := Listing(ts, path, last);
    var row := Row(ts[k].table, path).value;
    if d.Some? && row.version == d.value.version {
      assert Follows(path, ts[0].table, ts[k].table);
      assert all[0].version == row.version && all[0].size == row.size;
    } else {
      assert k > 0 && ts[1..][k - 1] == ts[k];
      HistTail(path, ts);
      var next := if d.Some? then d.value.version else last;
      ListingComplete(ts[1..], path, next, k - 1);
      ListedMore(all, Listing(ts[1..], path, next), row);
    }
  }

  lemma {:induction false} ListedMore(all: seq<HistRow>, rows: seq<HistRow>, d: Dent)
    requires Listed(rows, d) && (all == rows || (all != [] && all[1..] == rows))
    ensures Listed(all, d)
  {
    var i :| 0 <= i < |rows| && rows[i].version == d.version && rows[i].size == d.size;
    if all != rows { assert all[i + 1] == rows[i]; }
  }

  /** Nothing else is listed. */
  lemma {:induction false} ListingSound(ts: seq<Entry>, path: Bytes, last: nat, r: HistRow)
    requires Hist(path, ts) && From(path, ts, last) && r in Listing(ts, path, last)
    ensures Came(ts, path, r)
  {
    hide Row, From, RowNot, Listing, UniqueNames, Hist;
    if ts == [] {
      ListingNone(path, last);
    } else {
      FromTail(path, ts, last);
      ListingStep(ts, path, last);
      HistTail(path, ts);
      var us := ts[1..];
      var d := RowNot(ts[0].table, path, last);
      var next := if d.Some? then d.value.version else last;
      if r in Listing(us, path, next) {
        ListingSound(us, path, next, r);
        var k :| 0 <= k < |us| && us[k].sq == r.sq && Row(us[k].table, path).Some?
                 && Row(us[k].table, path).value.version == r.version && Row(us[k].table, path).value.size == r.size;
        assert us[k] == ts[k + 1];
      } else {
        assert ts[0].sq == r.sq && Row(ts[0].table, path) == d;
      }
    }
  }

  lemma {:induction false} ListingNone(path: Bytes, last: nat)
    ensures Listing([], path, last) == []
  {
  }

  // ---------------------------------------------------------------- what a call adds to the log

  /** recs is base plus blocks and commits of library lib. */
  ghost predicate Grown(f: Format, cap: nat, start: nat, base: seq<Rec>, recs: seq<Rec>, lib: Library) {
    base <= recs && forall k :: |base| < k <= |recs| && recs[k - 1].kind == REC_COMMIT ==> LibOf(CoreOf(f, cap, start, recs[..k])) == lib
  }

  /** From log l to log l' only blocks and commits of lib were added, in memory and on every
      medium passed. */
  ghost predicate Adds(f: Format, l: LogState, l': LogState, lib: Library) {
    && l'.cap == l.cap && l'.logStart == l.logStart && l'.epoch == l.epoch && l.shots <= l'.shots
    && Grown(f, l.cap, l.logStart, l.recs, l'.recs, lib) && SameShape(l.media, l'.media) && Tip(l, l')
    && forall i :: |l.shots| <= i < |l'.shots| ==> Grown(f, l.cap, l.logStart, l.recs, l'.shots[i].recs, lib) && SamePlace(l, l'.shots[i])
  }

  /** The medium belongs to the same log. */
  ghost predicate SamePlace(l: LogState, s: Shot) { s.start == l.logStart && s.epoch == l.epoch && SameShape(l.media, s.media) }

  /** The last medium in the account is the present one, if any sector was written. */
  ghost predicate Tip(l: LogState, l': LogState) {
    || (l'.shots == l.shots && NowOf(l') == NowOf(l))
    || (l'.shots != [] && l'.shots[|l'.shots| - 1] == NowOf(l'))
  }

  ghost predicate NoCommits(base: seq<Rec>, recs: seq<Rec>) {
    base <= recs && forall k :: |base| <= k < |recs| ==> recs[k].kind != REC_COMMIT
  }

  /** From l to l' only blocks were added. */
  ghost predicate AddsBlocks(l: LogState, l': LogState) {
    && l'.cap == l.cap && l'.logStart == l.logStart && l'.epoch == l.epoch && l.shots <= l'.shots
    && NoCommits(l.recs, l'.recs) && SameShape(l.media, l'.media) && Tip(l, l')
    && forall i :: |l.shots| <= i < |l'.shots| ==> NoCommits(l.recs, l'.shots[i].recs) && SamePlace(l, l'.shots[i])
  }

  lemma {:induction false} AddsNothing(l: LogState)
    ensures AddsBlocks(l, l)
  {
  }

  lemma {:induction false} TrailGives(f: Format, l: LogState, r: Rec, trail: seq<Media>)
    requires |trail| <= Span(r) && forall i :: 0 <= i < |trail| ==> SameShape(l.media, trail[i])
    ensures var l' := AfterTrail(f, l, r, trail);
            && l'.cap == l.cap && l'.logStart == l.logStart && l'.epoch == l.epoch && l.shots <= l'.shots && SameShape(l.media, l'.media) && Tip(l, l')
            && (l'.recs == l.recs || l'.recs == l.recs + [r])
            && forall i :: |l.shots| <= i < |l'.shots| ==>
                 (l'.shots[i].recs == l.recs || l'.shots[i].recs == l.recs + [r]) && SamePlace(l, l'.shots[i])
  {
    hide RecAt, Spans;
    if trail == [] { AfterNothing(f, l, r); } else { AfterLast(f, l, r, trail); }
  }

  lemma {:induction false} BlockAdds(f: Format, l: LogState, r: Rec, trail: seq<Media>)
    requires |trail| <= Span(r) && r.kind != REC_COMMIT && forall i :: 0 <= i < |trail| ==> SameShape(l.media, trail[i])
    ensures AddsBlocks(l, AfterTrail(f, l, r, trail))
  {
    hide AfterTrail;
    TrailGives(f, l, r, trail);
  }

  lemma {:induction false} GrownOne(f: Format, cap: nat, start: nat, base: seq<Rec>, recs: seq<Rec>, r: Rec, lib: Library)
    requires Grown(f, cap, start, base, recs, lib) && (r.kind == REC_COMMIT ==> LibOf(CoreOf(f, cap, start, recs + [r])) == lib)
    ensures Grown(f, cap, start, base, recs + [r], lib)
  {
    hide CoreOf;
    var all := recs + [r];
    forall k | |base| < k <= |all| && all[k - 1].kind == REC_COMMIT
      ensures LibOf(CoreOf(f, cap, start, all[..k])) == lib
    {
      if k <= |recs| {
        assert all[..k] == recs[..k] && all[k - 1] == recs[k - 1];
      } else {
        assert all[..k] == all;
      }
    }
  }

  lemma {:induction false} GrownNone(f: Format, cap: nat, start: nat, base: seq<Rec>, recs: seq<Rec>, lib: Library)
    requires NoCommits(base, recs)
    ensures Grown(f, cap, start, base, recs, lib)
  {
    hide CoreOf;
  }

  lemma {:induction false} CommitAdds(f: Format, l: LogState, r: Rec, trail: seq<Media>)
    requires |trail| <= Span(r) && r.kind == REC_COMMIT && forall i :: 0 <= i < |trail| ==> SameShape(l.media, trail[i])
    ensures Adds(f, l, AfterTrail(f, l, r, trail), LibWith(f, l, l.recs + [r]))
  {
    hide AfterTrail, CoreOf, Grown;
    var lib := LibWith(f, l, l.recs + [r]);
    assert Committed(l.recs + [r]) == l.recs + [r];
    TrailGives(f, l, r, trail);
    GrownNone(f, l.cap, l.logStart, l.recs, l.recs, lib);
    GrownOne(f, l.cap, l.logStart, l.recs, l.recs, r, lib);
  }

  lemma {:induction false} GrownTrans(f: Format, cap: nat, start: nat, a: seq<Rec>, b: seq<Rec>, c: seq<Rec>, lib: Library)
    requires Grown(f, cap, start, a, b, lib) && Grown(f, cap, start, b, c, lib)
    ensures Grown(f, cap, start, a, c, lib)
  {
    hide CoreOf;
    forall k | |a| < k <= |c| && c[k - 1].kind == REC_COMMIT
      ensures LibOf(CoreOf(f, cap, start, c[..k])) == lib
    {
      if k <= |b| { assert c[..k] == b[..k] && c[k - 1] == b[k - 1]; }
    }
  }

  lemma {:induction false} AddsTrans(f: Format, a: LogState, b: LogState, c: LogState, lib: Library)
    requires Adds(f, a, b, lib) && Adds(f, b, c, lib)
    ensures Adds(f, a, c, lib)
  {
    hide Grown;
    GrownTrans(f, a.cap, a.logStart, a.recs, b.recs, c.recs, lib);
    forall i | |a.shots| <= i < |c.shots| ensures Grown(f, a.cap, a.logStart, a.recs, c.shots[i].recs, lib) && SamePlace(a, c.shots[i]) {
      if i < |b.shots| {
        assert c.shots[i] == b.shots[i];
      } else {
        GrownTrans(f, a.cap, a.logStart, a.recs, b.recs, c.shots[i].recs, lib);
      }
    }
  }

  lemma {:induction false} BlocksAdd(f: Format, l: LogState, l': LogState, lib: Library)
    requires AddsBlocks(l, l')
    ensures Adds(f, l, l', lib)
  {
    hide Grown, NoCommits;
    GrownNone(f, l.cap, l.logStart, l.recs, l'.recs, lib);
    forall i | |l.shots| <= i < |l'.shots| ensures Grown(f, l.cap, l.logStart, l.recs, l'.shots[i].recs, lib) && SamePlace(l, l'.shots[i]) {
      GrownNone(f, l.cap, l.logStart, l.recs, l'.shots[i].recs, lib);
    }
  }

  lemma {:induction false} AddsNone(f: Format, l: LogState, lib: Library)
    ensures Adds(f, l, l, lib)
  {
    AddsNothing(l);
    BlocksAdd(f, l, l, lib);
  }

  lemma {:induction false} AddsAfter(f: Format, a: LogState, b: LogState, c: LogState, lib: Library)
    requires AddsBlocks(a, b) && Adds(f, b, c, lib)
    ensures Adds(f, a, c, lib)
  {
    hide AddsBlocks, Adds;
    BlocksAdd(f, a, b, lib);
    AddsTrans(f, a, b, c, lib);
  }

  lemma {:induction false} NoCommitsTrans(a: seq<Rec>, b: seq<Rec>, c: seq<Rec>)
    requires NoCommits(a, b) && NoCommits(b, c)
    ensures NoCommits(a, c)
  {
  }

  lemma {:induction false} BlocksTrans(a: LogState, b: LogState, c: LogState)
    requires AddsBlocks(a, b) && AddsBlocks(b, c)
    ensures AddsBlocks(a, c)
  {
    hide NoCommits;
    NoCommitsTrans(a.recs, b.recs, c.recs);
    forall i | |a.shots| <= i < |c.shots| ensures NoCommits(a.recs, c.shots[i].recs) && SamePlace(a, c.shots[i]) {
      if i < |b.shots| {
        assert c.shots[i] == b.shots[i];
      } else {
        NoCommitsTrans(a.recs, b.recs, c.shots[i].recs);
      }
    }
  }

  lemma {:induction false} TrailCounts(f: Format, l: LogState, r: Rec, trail: seq<Media>)
    ensures |AfterTrail(f, l, r, trail).shots| == |l.shots| + |trail|
  {
  }

  /** One record written behind the log, completely or not. */
  lemma {:induction false} Appended(f: Format, l: LogState, r: Rec, trail: seq<Media>)
    requires f.Sound() && l.epoch < U32 && 1 <= l.head && l.cap == CapOf(|l.media|) && r.kind < U32 && r.sq < U32 && |r.payload| <= COMMIT_MAX && |trail| <= Span(r)
    requires forall i :: 0 <= i < |trail| ==> Landed(l.media, trail[i], l.head, Image(f, l.epoch, r), i + 1)
    ensures |AfterTrail(f, l, r, trail).shots| == |l.shots| + |trail|
    ensures r.kind != REC_COMMIT ==> Stacks(f, l, AfterTrail(f, l, r, trail), QuietLater(f, l.epoch, r.payload))
    ensures r.kind == REC_COMMIT ==> Between(f, l, AfterTrail(f, l, r, trail), LibWith(f, l, l.recs + [r]), QuietLater(f, l.epoch, r.payload))
  {
    hide Format.Sound, AfterTrail, Landed, Image, QuietLater, AddsBlocks, Adds, StaysYoung, LibWith, Between;
    TrailCounts(f, l, r, trail);
    TrailSizes(f, l, r, trail);
    if QuietLater(f, l.epoch, r.payload) { TrailYoung(f, l, r, trail); }
    if r.kind == REC_COMMIT {
      CommitAdds(f, l, r, trail);
      AddsBetween(f, l, AfterTrail(f, l, r, trail), LibWith(f, l, l.recs + [r]), QuietLater(f, l.epoch, r.payload));
    } else {
      BlockAdds(f, l, r, trail);
    }
  }

  /** A log grown by blocks and commits of lib shows what it showed, or lib. */
  lemma {:induction false} GrownShows(f: Format, cap: nat, start: nat, base: seq<Rec>, recs: seq<Rec>, lib: Library)
    requires Grown(f, cap, start, base, recs, lib)
    ensures var c := Committed(recs); c == Committed(base) || LibOf(CoreOf(f, cap, start, c)) == lib
    decreases |recs|
  {
    hide CoreOf;
    if |recs| == |base| {
      assert recs == base;
    } else {
      var n := |recs|;
      assert recs[..n] == recs;
      if recs[n - 1].kind != REC_COMMIT {
        GrownFront(f, cap, start, base, recs, lib);
        GrownShows(f, cap, start, base, recs[..n - 1], lib);
      }
    }
  }

  /** Only blocks were added; with `young` set, young media stayed young. */
  ghost predicate Stacks(f: Format, l: LogState, l': LogState, young: bool) {
    AddsBlocks(l, l') && (young ==> StaysYoung(f, l, l'))
  }

  /** What a call did, crash by crash: from log l to log l' only blocks and commits of lib were
      added, and every medium passed shows the library before the call or lib; with `young`
      set, young media stayed young. */
  ghost predicate Between(f: Format, l: LogState, l': LogState, lib: Library, young: bool) {
    && Adds(f, l, l', lib) && (young ==> StaysYoung(f, l, l'))
    && forall i :: |l.shots| <= i < |l'.shots| ==> Shown(f, l'.shots[i]) == LibWith(f, l, l.recs) || Shown(f, l'.shots[i]) == lib
  }

  lemma {:induction false} AddsBetween(f: Format, l: LogState, l': LogState, lib: Library, young: bool)
    requires Adds(f, l, l', lib) && (young ==> StaysYoung(f, l, l')) && l.cap == CapOf(|l.media|)
    ensures Between(f, l, l', lib, young)
  {
    hide Grown, CoreOf, StaysYoung, Committed;
    forall i | |l.shots| <= i < |l'.shots| ensures Shown(f, l'.shots[i]) == LibWith(f, l, l.recs) || Shown(f, l'.shots[i]) == lib {
      GrownShows(f, l.cap, l.logStart, l.recs, l'.shots[i].recs, lib);
    }
  }

  lemma {:induction false} BetweenIs(f: Format, l: LogState, l': LogState, lib: Library, young: bool)
    requires Between(f, l, l', lib, young)
    ensures l.shots <= l'.shots && forall i :: |l.shots| <= i < |l'.shots| ==> Shown(f, l'.shots[i]) == LibWith(f, l, l.recs) || Shown(f, l'.shots[i]) == lib
  {
    hide Shown, LibWith, StaysYoung;
  }

  lemma {:induction false} StackNothing(f: Format, l: LogState, young: bool)
    ensures Stacks(f, l, l, young)
  {
    AddsNothing(l);
    YoungNothing(f, l);
  }

  lemma {:induction false} StackTrans(f: Format, a: LogState, b: LogState, c: LogState, y: bool, z: bool, young: bool)
    requires Stacks(f, a, b, y) && Stacks(f, b, c, z) && (young ==> y && z)
    ensures Stacks(f, a, c, young)
  {
    hide AddsBlocks, StaysYoung;
    BlocksTrans(a, b, c);
    if young { YoungTrans(f, a, b, c); }
  }

  lemma {:induction false} StackBetween(f: Format, l: LogState, l': LogState, lib: Library, y: bool, young: bool)
    requires Stacks(f, l, l', y) && l.cap == CapOf(|l.media|) && (young ==> y)
    ensures Between(f, l, l', lib, young)
  {
    hide AddsBlocks, StaysYoung, Adds, Between;
    BlocksAdd(f, l, l', lib);
    AddsBetween(f, l, l', lib, young);
  }

  lemma {:induction false} BetweenAfter(f: Format, a: LogState, b: LogState, c: LogState, lib: Library, y: bool, z: bool, young: bool)
    requires Stacks(f, a, b, y) && Between(f, b, c, lib, z) && a.cap == CapOf(|a.media|) && (young ==> y && z)
    ensures Between(f, a, c, lib, young)
  {
    hide AddsBlocks, StaysYoung, Adds, Shown, LibWith;
    AddsAfter(f, a, b, c, lib);
    if young { YoungTrans(f, a, b, c); }
    AddsBetween(f, a, c, lib, young);
  }

  lemma {:induction false} BetweenTrans(f: Format, a: LogState, b: LogState, c: LogState, lib: Library, young: bool)
    requires Between(f, a, b, lib, young) && Between(f, b, c, lib, young) && a.cap == CapOf(|a.media|)
    ensures Between(f, a, c, lib, young)
  {
    hide StaysYoung, Adds, Shown, LibWith;
    AddsTrans(f, a, b, c, lib);
    if young { YoungTrans(f, a, b, c); }
    AddsBetween(f, a, c, lib, young);
  }

  lemma {:induction false} BetweenNothing(f: Format, l: LogState, lib: Library, young: bool)
    ensures Between(f, l, l, lib, young)
  {
    AddsNone(f, l, lib);
    YoungNothing(f, l);
  }

  // ---------------------------------------------------------------- blocks behind a sound volume

  /** From volume (l, lib) to (l', lib') only blocks were stored, at most n of them new; nothing
      of it is visible before a commit. */
  ghost predicate Grew(f: Format, l: LogState, lib: Library, l': LogState, lib': Library, n: nat, young: bool) {
    && VolOk(f, l', lib') && Stacks(f, l, l', young)
    && lib'.live == lib.live && lib'.mroot == lib.mroot && lib.idx.Keys <= lib'.idx.Keys
    && LibWith(f, l', l'.recs) == LibWith(f, l, l.recs)
    && l'.sq == BumpBy(l.sq, n) && |l.shots| <= |l'.shots|
  }

  lemma {:induction false} GrewNothing(f: Format, l: LogState, lib: Library, young: bool)
    requires VolOk(f, l, lib)
    ensures Grew(f, l, lib, l, lib, 0, young)
  {
    hide VolOk, Stacks, LibWith;
    StackNothing(f, l, young);
    BumpNext(l.sq, 0);
  }

  lemma {:induction false} GrewOne(f: Format, l: LogState, lib: Library, l': LogState, lib': Library, n: nat, young: bool)
    requires VolOk(f, l', lib') && Stacks(f, l, l', young) && lib'.live == lib.live && lib'.mroot == lib.mroot && lib.idx.Keys <= lib'.idx.Keys
    requires LibWith(f, l', l'.recs) == LibWith(f, l, l.recs) && n <= 1 && l'.sq == (if n == 1 then Bump(l.sq) else l.sq) && |l.shots| <= |l'.shots|
    ensures Grew(f, l, lib, l', lib', n, young)
  {
    hide VolOk, Stacks, LibWith;
    BumpNext(l.sq, 0);
  }

  lemma {:induction false} GrewLess(f: Format, l: LogState, lib: Library, l': LogState, lib': Library, n: nat, young: bool, less: bool)
    requires Grew(f, l, lib, l', lib', n, young) && (less ==> young)
    ensures Grew(f, l, lib, l', lib', n, less)
  {
    hide VolOk, LibWith, BumpBy, StaysYoung, AddsBlocks;
  }

  lemma {:induction false} GrewIndex(f: Format, l: LogState, lib: Library, l': LogState, lib': Library, n: nat, young: bool)
    requires Grew(f, l, lib, l', lib', n, young)
    ensures lib.idx.Keys <= lib'.idx.Keys
  {
    hide VolOk, Stacks, LibWith, BumpBy;
  }

  lemma {:induction false} GrewDurable(f: Format, l: LogState, lib: Library, l': LogState, lib': Library, n: nat, young: bool)
    requires Grew(f, l, lib, l', lib', n, young)
    ensures LibWith(f, l', l'.recs) == LibWith(f, l, l.recs)
  {
    hide VolOk, LibWith, Stacks;
  }

  lemma {:induction false} VolSound(f: Format, l: LogState, lib: Library)
    requires VolOk(f, l, lib)
    ensures f.Sound() && FormatOk(f)
  {
    hide Format.Sound, Format.Injective;
  }

  lemma {:induction false} BumpAdd(sq: nat, n: nat, k: nat)
    ensures BumpBy(BumpBy(sq, n), k) == BumpBy(sq, n + k)
  {
    if k > 0 { BumpAdd(sq, n, k - 1); }
  }

  lemma {:induction false} GrewTrans(f: Format, a: LogState, la: Library, b: LogState, lb: Library, c: LogState, lc: Library,
                                     n: nat, k: nat, y: bool, z: bool, young: bool)
    requires Grew(f, a, la, b, lb, n, y) && Grew(f, b, lb, c, lc, k, z) && (young ==> y && z)
    ensures Grew(f, a, la, c, lc, n + k, young)
  {
    hide VolOk, Stacks, LibWith, BumpBy;
    StackTrans(f, a, b, c, y, z, young);
    BumpAdd(a.sq, n, k);
  }

  lemma {:induction false} GrewBetween(f: Format, l: LogState, lib: Library, l': LogState, lib': Library, n: nat, y: bool, young: bool)
    requires Grew(f, l, lib, l', lib', n, y) && l.cap == CapOf(|l.media|) && (young ==> y)
    ensures VolOk(f, l', lib') && lib'.live == lib.live && lib'.mroot == lib.mroot && lib.idx.Keys <= lib'.idx.Keys
    ensures LibWith(f, l', l'.recs) == LibWith(f, l, l.recs) && l'.sq == BumpBy(l.sq, n) && |l.shots| <= |l'.shots|
    ensures Between(f, l, l', lib', young)
  {
    hide VolOk, Stacks, LibWith, BumpBy, Between;
    StackBetween(f, l, l', lib', y, young);
  }

  lemma {:induction false} GrewThen(f: Format, a: LogState, la: Library, b: LogState, lb: Library, c: LogState, lib: Library, n: nat, y: bool, z: bool, young: bool)
    requires Grew(f, a, la, b, lb, n, y) && Between(f, b, c, lib, z) && a.cap == CapOf(|a.media|) && (young ==> y && z)
    ensures Between(f, a, c, lib, young)
  {
    hide VolOk, Stacks, LibWith, BumpBy, Between;
    BetweenAfter(f, a, b, c, lib, y, z, young);
  }

  // ---------------------------------------------------------------- the chronicle of a path

  /** This row names the blocks of the bytes w holds for its version. */
  ghost predicate RowSource(f: Format, d: Dent, w: map<nat, Bytes>) {
    && d.version in w && d.nblk == Blocks(|w[d.version]|) <= |d.blk| && d.size == |w[d.version]|
    && d.blk[..d.nblk] == FileIds(f, w[d.version], Blocks(|w[d.version]|))
  }

  /** This row is the file w holds for its version, and its blocks are indexed. */
  ghost predicate Kept(f: Format, d: Dent, w: map<nat, Bytes>, idx: map<Id, nat>) {
    && RowSource(f, d, w)
    && forall i :: 0 <= i < Blocks(|w[d.version]|) ==> f.sha(FileChunk(w[d.version], i)) in idx
  }

  ghost predicate RowKept(f: Format, t: seq<Dent>, path: Bytes, w: map<nat, Bytes>, idx: map<Id, nat>) {
    Row(t, path).Some? ==> Kept(f, Row(t, path).value, w, idx)
  }

  ghost predicate Archive(f: Format, cap: nat, start: nat, recs: seq<Rec>, path: Bytes, w: map<nat, Bytes>) {
    forall k :: 0 < k <= |recs| && recs[k - 1].kind == REC_COMMIT ==>
      var c := CoreOf(f, cap, start, recs[..k]); RowKept(f, c.live, path, w, c.idx)
  }

  /** w holds, for every version of the path that the log or the live table knows, the bytes
      of the write that minted it. */
  ghost predicate Chronicle(f: Format, cap: nat, start: nat, recs: seq<Rec>, lib: Library, path: Bytes, w: map<nat, Bytes>) {
    && Archive(f, cap, start, recs, path, w)
    && Hist(path, CommitsOf(f, recs)) && Reaches(path, CommitsOf(f, recs), lib.live)
    && RowKept(f, lib.live, path, w, lib.idx)
  }

  lemma {:induction false} CommitsSnoc(f: Format, recs: seq<Rec>, r: Rec)
    ensures CommitsOf(f, recs + [r]) == CommitsOf(f, recs) + EntryOf(f, r.kind, r.sq, r.payload)
  {
    assert (recs + [r])[..|recs|] == recs;
  }

  lemma {:induction false} TableSnoc(f: Format, cap: nat, start: nat, recs: seq<Rec>, r: Rec)
    requires r.kind == REC_COMMIT
    ensures CoreOf(f, cap, start, recs + [r]).live == TableOf(f, r.payload)
  {
    assert (recs + [r])[..|recs|] == recs;
  }

  lemma {:induction false} Snoc(recs: seq<Rec>)
    requires recs != []
    ensures recs == recs[..|recs| - 1] + [recs[|recs| - 1]]
  {
  }

  /** Whatever follows the last table of a history can be committed any number of times. */
  lemma {:induction false} HistGrows(f: Format, cap: nat, start: nat, base: seq<Rec>, recs: seq<Rec>, lib: Library, path: Bytes)
    requires Hist(path, CommitsOf(f, base)) && Reaches(path, CommitsOf(f, base), lib.live) && Grown(f, cap, start, base, recs, lib)
    ensures Hist(path, CommitsOf(f, recs)) && Reaches(path, CommitsOf(f, recs), lib.live)
    decreases |recs|
  {
    hide Hist, CommitsOf, CoreOf, UniqueNames;
    if |recs| == |base| {
      assert recs == base;
    } else {
      var front, r := recs[..|recs| - 1], recs[|recs| - 1];
      Snoc(recs);
      GrownFront(f, cap, start, base, recs, lib);
      HistGrows(f, cap, start, base, front, lib, path);
      CommitsSnoc(f, front, r);
      if r.kind == REC_COMMIT {
        TableSnoc(f, cap, start, front, r);
        assert recs[..|recs|] == recs;
        HistSnoc(path, CommitsOf(f, front), Entry(r.sq, TableOf(f, r.payload)));
        FollowsSelf(path, lib.live);
      } else {
        assert CommitsOf(f, front) + [] == CommitsOf(f, front);
      }
    }
  }

  lemma {:induction false} GrownFront(f: Format, cap: nat, start: nat, base: seq<Rec>, recs: seq<Rec>, lib: Library)
    requires Grown(f, cap, start, base, recs, lib) && |base| < |recs|
    ensures Grown(f, cap, start, base, recs[..|recs| - 1], lib)
  {
    hide CoreOf;
    var front := recs[..|recs| - 1];
    forall k | |base| < k <= |front| && front[k - 1].kind == REC_COMMIT ensures LibOf(CoreOf(f, cap, start, front[..k])) == lib {
      assert front[..k] == recs[..k] && front[k - 1] == recs[k - 1];
    }
  }

  lemma {:induction false} ArchiveGrows(f: Format, cap: nat, start: nat, base: seq<Rec>, recs: seq<Rec>, lib: Library, path: Bytes, w: map<nat, Bytes>)
    requires Archive(f, cap, start, base, path, w) && RowKept(f, lib.live, path, w, lib.idx) && Grown(f, cap, start, base, recs, lib)
    ensures Archive(f, cap, start, recs, path, w)
  {
    hide CoreOf, RowKept;
    forall k | 0 < k <= |recs| && recs[k - 1].kind == REC_COMMIT
      ensures var c := CoreOf(f, cap, start, recs[..k]); RowKept(f, c.live, path, w, c.idx)
    {
      if k <= |base| { assert recs[..k] == base[..k] && recs[k - 1] == base[k - 1]; }
    }
  }

  /** Each commit of the log is an entry of its history. */
  lemma {:induction false} EntryOfCommit(f: Format, cap: nat, start: nat, recs: seq<Rec>, k: nat) returns (j: nat)
    requires 0 < k <= |recs| && recs[k - 1].kind == REC_COMMIT
    ensures j < |CommitsOf(f, recs)| && CommitsOf(f, recs)[j].table == CoreOf(f, cap, start, recs[..k]).live
    decreases |recs|
  {
    hide CommitsOf, CoreOf;
    var n := |recs| - 1;
    Snoc(recs);
    CommitsSnoc(f, recs[..n], recs[n]);
    if k == |recs| {
      TableSnoc(f, cap, start, recs[..n], recs[n]);
      assert recs[..k] == recs;
      j := |CommitsOf(f, recs[..n])|;
    } else {
      assert recs[..n][..k] == recs[..k];
      j := EntryOfCommit(f, cap, start, recs[..n], k);
    }
  }

  /** Each entry of the history is a commit of the log. */
  lemma {:induction false} CommitOfEntry(f: Format, cap: nat, start: nat, recs: seq<Rec>, j: nat) returns (k: nat)
    requires j < |CommitsOf(f, recs)|
    ensures 0 < k <= |recs| && recs[k - 1].kind == REC_COMMIT && CommitsOf(f, recs)[j].table == CoreOf(f, cap, start, recs[..k]).live
    decreases |recs|
  {
    hide CoreOf;
    var n := |recs| - 1;
    Snoc(recs);
    CommitsSnoc(f, recs[..n], recs[n]);
    if j == |CommitsOf(f, recs[..n])| {
      TableSnoc(f, cap, start, recs[..n], recs[n]);
      k := |recs|;
      assert recs[..k] == recs;
    } else {
      k := CommitOfEntry(f, cap, start, recs[..n], j);
      assert recs[..n][..k] == recs[..k];
    }
  }

  lemma {:induction false} AllFollow(path: Bytes, ts: seq<Entry>, live: seq<Dent>, j: nat)
    requires Hist(path, ts) && Reaches(path, ts, live) && j < |ts|
    ensures Follows(path, ts[j].table, live)
  {
    hide Follows;
    FollowsTrans(path, ts[j].table, ts[|ts| - 1].table, live);
  }

  lemma {:induction false} KeptMore(f: Format, d: Dent, w: map<nat, Bytes>, idx: map<Id, nat>, v: nat, buf: Bytes)
    requires Kept(f, d, w, idx) && d.version != v
    ensures Kept(f, d, w[v := buf], idx)
  {
    hide Blocks, FileIds, FileChunk;
  }

  /** A version newer than the live one is in no commit yet. */
  lemma {:induction false} ArchiveMints(f: Format, cap: nat, start: nat, recs: seq<Rec>, lib: Library, path: Bytes, w: map<nat, Bytes>, buf: Bytes)
    requires Chronicle(f, cap, start, recs, lib, path, w)
    ensures Archive(f, cap, start, recs, path, w[NextVersion(lib.live, path) := buf])
  {
    hide CoreOf, Kept, Hist, Reaches, Row, UniqueNames;
    var v := NextVersion(lib.live, path);
    forall k | 0 < k <= |recs| && recs[k - 1].kind == REC_COMMIT
      ensures var c := CoreOf(f, cap, start, recs[..k]); RowKept(f, c.live, path, w[v := buf], c.idx)
    {
      var c := CoreOf(f, cap, start, recs[..k]);
      assert RowKept(f, c.live, path, w, c.idx);
      var j := EntryOfCommit(f, cap, start, recs, k);
      AllFollow(path, CommitsOf(f, recs), lib.live, j);
      if Row(c.live, path).Some? {
        KeptMore(f, Row(c.live, path).value, w, c.idx, v, buf);
      }
    }
  }

  lemma {:induction false} HistReaches(path: Bytes, ts: seq<Entry>, live: seq<Dent>, rows: seq<Dent>)
    requires Reaches(path, ts, live) && Follows(path, live, rows)
    ensures Reaches(path, ts, rows)
  {
    hide Row, UniqueNames;
    if ts != [] { FollowsTrans(path, ts[|ts| - 1].table, live, rows); }
  }

  lemma {:induction false} KeptIndex(f: Format, t: seq<Dent>, path: Bytes, w: map<nat, Bytes>, idx: map<Id, nat>, idx': map<Id, nat>)
    requires RowKept(f, t, path, w, idx) && idx.Keys <= idx'.Keys
    ensures RowKept(f, t, path, w, idx')
  {
    hide Row, Blocks, FileIds, FileChunk;
  }

  /** Putting a row of the next version for the path adds one version to the chronicle and
      changes none. */
  lemma {:induction false} MintChronicle(f: Format, cap: nat, start: nat, base: seq<Rec>, recs: seq<Rec>, lib: Library, lib': Library,
                                         path: Bytes, buf: Bytes, w: map<nat, Bytes>)
    requires Chronicle(f, cap, start, base, lib, path, w) && Grown(f, cap, start, base, recs, lib')
    requires Follows(path, lib.live, lib'.live) && RowKept(f, lib'.live, path, w[NextVersion(lib.live, path) := buf], lib'.idx)
    ensures Chronicle(f, cap, start, recs, lib', path, w[NextVersion(lib.live, path) := buf])
  {
    hide CoreOf, Hist, Row, UniqueNames, Archive, CommitsOf, Grown, RowKept, NextVersion;
    var w' := w[NextVersion(lib.live, path) := buf];
    ArchiveMints(f, cap, start, base, lib, path, w, buf);
    ArchiveGrows(f, cap, start, base, recs, lib', path, w');
    HistReaches(path, CommitsOf(f, base), lib.live, lib'.live);
    HistGrows(f, cap, start, base, recs, lib', path);
  }

  /** The row ark_write_file puts is the next version, with the bytes written. */
  lemma {:induction false} WriteMints(f: Format, lib: Library, lib': Library, path: Bytes, buf: Bytes, w: map<nat, Bytes>)
    requires FilePut(f, lib, lib', path, buf) && UniqueNames(lib.live) && NextVersion(lib.live, path) < U32
    ensures Follows(path, lib.live, lib'.live) && RowKept(f, lib'.live, path, w[NextVersion(lib.live, path) := buf], lib'.idx)
  {
    hide Row, UniqueNames, PutRow, FileIds, Blocks, FileChunk;
    WriteFollows(f, lib.live, path, buf, path);
  }

  /** So is the row ark_mkdir puts, with no bytes. */
  lemma {:induction false} MkdirMints(f: Format, lib: Library, lib': Library, path: Bytes, w: map<nat, Bytes>)
    requires UniqueNames(lib.live) && FindRow(lib.live, path) < 0 && lib'.live == lib.live + [NewDir(f, path)]
    ensures Follows(path, lib.live, lib'.live) && RowKept(f, lib'.live, path, w[NextVersion(lib.live, path) := []], lib'.idx)
  {
    hide UniqueNames, FindRow;
    var d := NewDir(f, path);
    RowFind(lib.live, path);
    AppendFollows(lib.live, d, path);
    assert FileIds(f, [], 0) == [] == d.blk[..0];
  }

  /** Any call that leaves the path's row alone leaves its chronicle alone: writes and
      unlinks of other paths, mkdir, tree updates, blocks, checkpoints. */
  lemma {:induction false} OtherChronicle(f: Format, cap: nat, start: nat, base: seq<Rec>, recs: seq<Rec>, lib: Library, lib': Library,
                                          path: Bytes, w: map<nat, Bytes>)
    requires Chronicle(f, cap, start, base, lib, path, w) && Grown(f, cap, start, base, recs, lib')
    requires Follows(path, lib.live, lib'.live) && Row(lib'.live, path) == Row(lib.live, path) && lib.idx.Keys <= lib'.idx.Keys
    ensures Chronicle(f, cap, start, recs, lib', path, w)
  {
    hide CoreOf, Hist, Row, UniqueNames, Archive, CommitsOf, Grown, Kept, Follows;
    KeptIndex(f, lib.live, path, w, lib.idx, lib'.idx);
    ArchiveGrows(f, cap, start, base, recs, lib', path, w);
    HistReaches(path, CommitsOf(f, base), lib.live, lib'.live);
    HistGrows(f, cap, start, base, recs, lib', path);
  }

  lemma {:induction false} CommittedCommits(f: Format, recs: seq<Rec>)
    ensures CommitsOf(f, Committed(recs)) == CommitsOf(f, recs)
  {
    if recs != [] && recs[|recs| - 1].kind != REC_COMMIT {
      CommittedCommits(f, recs[..|recs| - 1]);
      assert CommitsOf(f, recs[..|recs| - 1]) + [] == CommitsOf(f, recs[..|recs| - 1]);
    }
  }

  lemma {:induction false} ArchivePrefix(f: Format, cap: nat, start: nat, recs: seq<Rec>, c: seq<Rec>, path: Bytes, w: map<nat, Bytes>)
    requires Archive(f, cap, start, recs, path, w) && c <= recs
    ensures Archive(f, cap, start, c, path, w)
  {
    hide CoreOf, RowKept;
    forall k | 0 < k <= |c| && c[k - 1].kind == REC_COMMIT
      ensures var d := CoreOf(f, cap, start, c[..k]); RowKept(f, d.live, path, w, d.idx)
    {
      assert recs[..k] == c[..k] && recs[k - 1] == c[k - 1];
    }
  }

  /** A remount loses nothing of a chronicle: what was not committed was in no version. */
  lemma {:induction false} RemountChronicle(f: Format, cap: nat, start: nat, recs: seq<Rec>, lib: Library, path: Bytes, w: map<nat, Bytes>)
    requires Chronicle(f, cap, start, recs, lib, path, w)
    ensures Chronicle(f, cap, start, Committed(recs), LibOf(CoreOf(f, cap, start, Committed(recs))), path, w)
  {
    hide Row, UniqueNames, Archive, CommitsOf, Kept, CoreOf, Committed, Hist;
    var c := Committed(recs);
    CommittedCommits(f, recs);
    ArchivePrefix(f, cap, start, recs, c, path, w);
    if c == [] {
      CoreNone(f, cap, start);
      RowNone([], path);
      EmptyReaches(f, path);
    } else {
      var n := |c| - 1;
      Snoc(c);
      CommitsSnoc(f, c[..n], c[n]);
      TableSnoc(f, cap, start, c[..n], c[n]);
      assert c[..|c|] == c;
      ArchiveLast(f, cap, start, c, path, w);
      AllFollow(path, CommitsOf(f, recs), lib.live, |CommitsOf(f, recs)| - 1);
      FollowsSelf(path, CoreOf(f, cap, start, c).live);
    }
  }

  lemma {:induction false} ArchiveLast(f: Format, cap: nat, start: nat, c: seq<Rec>, path: Bytes, w: map<nat, Bytes>)
    requires Archive(f, cap, start, c, path, w) && c != [] && c[|c| - 1].kind == REC_COMMIT
    ensures RowKept(f, CoreOf(f, cap, start, c).live, path, w, CoreOf(f, cap, start, c).idx)
  {
    hide CoreOf, RowKept;
    assert c[..|c|] == c;
  }

  lemma {:induction false} EmptyReaches(f: Format, path: Bytes)
    ensures CommitsOf(f, []) == [] && UniqueNames([])
  {
  }

  lemma {:induction false} IndexGrows(f: Format, cap: nat, start: nat, recs: seq<Rec>, k: nat)
    requires k <= |recs|
    ensures CoreOf(f, cap, start, recs[..k]).idx.Keys <= CoreOf(f, cap, start, recs).idx.Keys
    decreases |recs|
  {
    if k == |recs| {
      assert recs[..k] == recs;
    } else {
      var front := recs[..|recs| - 1];
      IndexGrows(f, cap, start, front, k);
      assert front[..k] == recs[..k];
    }
  }

  /** Whichever commit holds version v of the path, the scan answers with that row. */
  lemma {:induction false} VersionFound(ts: seq<Entry>, path: Bytes, v: nat, k: nat)
    requires Hist(path, ts)
    requires k < |ts| && Row(ts[k].table, path).Some? && Row(ts[k].table, path).value.version == v
    ensures FirstVersion(ts, path, v) == Row(ts[k].table, path)
  {
    hide Row, UniqueNames, RowAt;
    assert Follows(path, ts[0].table, ts[0].table);
    RowAtIs(ts[0].table, path, v);
    assert Follows(path, ts[0].table, ts[k].table);
    if RowAt(ts[0].table, path, v).None? {
      assert k > 0 && ts[1..][k - 1] == ts[k];
      HistTail(path, ts);
      VersionFound(ts[1..], path, v, k - 1);
    }
  }

  /** ark_read_version returns the bytes of the write that minted the version, for every
      version of the path that any commit of the log holds. */
  lemma {:induction false} VersionReadsBack(f: Format, l: LogState, lib: Library, path: Bytes, w: map<nat, Bytes>, j: nat)
    requires VolOk(f, l, lib) && Chronicle(f, l.cap, l.logStart, l.recs, lib, path, w)
    requires j < |CommitsOf(f, l.recs)| && Row(CommitsOf(f, l.recs)[j].table, path).Some?
    ensures var v := Row(CommitsOf(f, l.recs)[j].table, path).value.version;
            v in w && VersionRead(f, l.media, l.epoch, lib.idx, Commits(f, ViewOf(f, l.media, l.epoch), l.head, l.logStart), path, v) == Got(w[v])
  {
    hide LogOk, Row, UniqueNames, CommitsOf, Commits, CoreOf, Hist, ViewOf, FirstVersion, Blocks, ReadBlocks, LibOk, FileChunk, FileIds;
    var ts := CommitsOf(f, l.recs);
    var d := Row(ts[j].table, path).value;
    VersionFound(ts, path, d.version, j);
    var k := CommitOfEntry(f, l.cap, l.logStart, l.recs, j);
    assert RowKept(f, CoreOf(f, l.cap, l.logStart, l.recs[..k]).live, path, w, CoreOf(f, l.cap, l.logStart, l.recs[..k]).idx);
    IndexGrows(f, l.cap, l.logStart, l.recs, k);
    VolumeFile(f, l, lib.idx, w[d.version]);
    ScanIsLog(f, l);
  }

  lemma {:induction false} ScanIsLog(f: Format, l: LogState)
    requires LogOk(f, l)
    ensures Commits(f, ViewOf(f, l.media, l.epoch), l.head, l.logStart) == CommitsOf(f, l.recs)
  {
    hide Commits, ViewOf, CommitsOf, FormatOk, LogInv, LibOk, ShotsOk, SuperOf;
    CommitsFound(f, l.media, l.epoch, l.logStart, l.recs, l.landed);
  }

  lemma {:induction false} VersionsFromOne(f: Format, cap: nat, start: nat, recs: seq<Rec>, path: Bytes, w: map<nat, Bytes>)
    requires Archive(f, cap, start, recs, path, w) && 0 !in w
    ensures From(path, CommitsOf(f, recs), 1) && From(path, CommitsOf(f, recs), 0)
  {
    hide CoreOf, Row, CommitsOf;
    var ts := CommitsOf(f, recs);
    forall j | 0 <= j < |ts| && Row(ts[j].table, path).Some? ensures Row(ts[j].table, path).value.version >= 1 {
      var k := CommitOfEntry(f, cap, start, recs, j);
      var c := CoreOf(f, cap, start, recs[..k]);
      assert RowKept(f, c.live, path, w, c.idx);
    }
  }

  /** ark_history lists each version of the path that a commit holds exactly once, in
      increasing order, and nothing else. */
  lemma {:induction false} HistoryExact(f: Format, l: LogState, lib: Library, path: Bytes, w: map<nat, Bytes>)
    requires VolOk(f, l, lib) && Chronicle(f, l.cap, l.logStart, l.recs, lib, path, w)
    requires 0 !in w
    ensures var ts := CommitsOf(f, l.recs); var rows := Listing(Commits(f, ViewOf(f, l.media, l.epoch), l.head, l.logStart), path, 0);
            && Increasing(rows, 0)
            && (forall r :: r in rows ==> Came(ts, path, r))
            && (forall k :: 0 <= k < |ts| && Row(ts[k].table, path).Some? ==> Listed(rows, Row(ts[k].table, path).value))
  {
    hide LogOk, Row, CommitsOf, Commits, CoreOf, Hist, ViewOf, Listing, LibOk, Archive, Reaches, RowKept, Came, Listed, Increasing;
    var ts := CommitsOf(f, l.recs);
    ScanIsLog(f, l);
    VersionsFromOne(f, l.cap, l.logStart, l.recs, path, w);
    ListingIncreases(ts, path, 0);
    forall r | r in Listing(ts, path, 0) ensures Came(ts, path, r) { ListingSound(ts, path, 0, r); }
    forall k | 0 <= k < |ts| && Row(ts[k].table, path).Some? ensures Listed(Listing(ts, path, 0), Row(ts[k].table, path).value) {
      ListingComplete(ts, path, 0, k);
    }
  }

  // ---------------------------------------------------------------- whole calls

  /** After the power failed at shot s and the volume was mounted again, the path has this
      chronicle. */
  ghost predicate ShotKeeps(f: Format, s: Shot, path: Bytes, w: map<nat, Bytes>) {
    Chronicle(f, CapOf(|s.media|), s.start, Committed(s.recs), Shown(f, s), path, w)
  }

  /** In memory and after a power loss at any sector of the call, the path has chronicle w. */
  ghost predicate CallKeeps(f: Format, l: LogState, l': LogState, lib': Library, path: Bytes, w: map<nat, Bytes>) {
    && Chronicle(f, l'.cap, l'.logStart, l'.recs, lib', path, w)
    && forall i :: |l.shots| <= i < |l'.shots| ==> ShotKeeps(f, l'.shots[i], path, w)
  }

  /** WriteFile or Mkdir on the path: one version more, all others as they were. */
  lemma {:induction false} MintKeepsVersions(f: Format, l: LogState, l': LogState, lib: Library, lib': Library, path: Bytes, buf: Bytes, w: map<nat, Bytes>)
    requires Chronicle(f, l.cap, l.logStart, l.recs, lib, path, w) && Adds(f, l, l', lib') && l.cap == CapOf(|l.media|)
    requires Follows(path, lib.live, lib'.live) && RowKept(f, lib'.live, path, w[NextVersion(lib.live, path) := buf], lib'.idx)
    ensures CallKeeps(f, l, l', lib', path, w[NextVersion(lib.live, path) := buf])
  {
    hide Chronicle, Grown, CoreOf, Committed, Follows, RowKept, NextVersion;
    var w' := w[NextVersion(lib.live, path) := buf];
    MintChronicle(f, l.cap, l.logStart, l.recs, l'.recs, lib, lib', path, buf, w);
    forall i | |l.shots| <= i < |l'.shots| ensures ShotKeeps(f, l'.shots[i], path, w') {
      MintChronicle(f, l.cap, l.logStart, l.recs, l'.shots[i].recs, lib, lib', path, buf, w);
      RemountChronicle(f, l.cap, l.logStart, l'.shots[i].recs, lib', path, w');
    }
  }

  /** Every other call: the chronicle as it was. */
  lemma {:induction false} OthersKeepVersions(f: Format, l: LogState, l': LogState, lib: Library, lib': Library, path: Bytes, w: map<nat, Bytes>)
    requires Chronicle(f, l.cap, l.logStart, l.recs, lib, path, w) && Adds(f, l, l', lib') && l.cap == CapOf(|l.media|)
    requires Follows(path, lib.live, lib'.live) && Row(lib'.live, path) == Row(lib.live, path) && lib.idx.Keys <= lib'.idx.Keys
    ensures CallKeeps(f, l, l', lib', path, w)
  {
    hide Chronicle, Grown, CoreOf, Committed, Row;
    OtherChronicle(f, l.cap, l.logStart, l.recs, l'.recs, lib, lib', path, w);
    forall i | |l.shots| <= i < |l'.shots| ensures ShotKeeps(f, l'.shots[i], path, w) {
      OtherChronicle(f, l.cap, l.logStart, l.recs, l'.shots[i].recs, lib, lib', path, w);
      RemountChronicle(f, l.cap, l.logStart, l'.shots[i].recs, lib', path, w);
    }
  }

  // ---------------------------------------------------------------- versions a commit holds

  /** Some commit of the log holds version v of the path. */
  ghost predicate InLog(f: Format, recs: seq<Rec>, path: Bytes, v: nat) {
    exists j :: 0 <= j < |CommitsOf(f, recs)| && Row(CommitsOf(f, recs)[j].table, path).Some?
                && Row(CommitsOf(f, recs)[j].table, path).value.version == v
  }

  lemma {:induction false} CommitsPrefix(f: Format, base: seq<Rec>, recs: seq<Rec>)
    requires base <= recs
    ensures CommitsOf(f, base) <= CommitsOf(f, recs)
    decreases |recs|
  {
    if |base| == |recs| {
      assert base == recs;
    } else {
      CommitsPrefix(f, base, recs[..|recs| - 1]);
    }
  }

  /** A longer log holds what a shorter one held; what is cut off behind the last commit held
      nothing. */
  lemma {:induction false} HoldsMore(f: Format, base: seq<Rec>, recs: seq<Rec>, path: Bytes, v: nat)
    requires base <= recs && InLog(f, base, path, v)
    ensures InLog(f, recs, path, v) && InLog(f, Committed(recs), path, v)
  {
    hide CommitsOf, Row, Committed;
    CommitsPrefix(f, base, recs);
    CommittedCommits(f, recs);
    var j :| 0 <= j < |CommitsOf(f, base)| && Row(CommitsOf(f, base)[j].table, path).Some? && Row(CommitsOf(f, base)[j].table, path).value.version == v;
    assert CommitsOf(f, recs)[j] == CommitsOf(f, base)[j];
  }

  /** The version of the committed table is held. */
  lemma {:induction false} HoldsShown(f: Format, cap: nat, start: nat, recs: seq<Rec>, path: Bytes)
    requires Row(CoreOf(f, cap, start, Committed(recs)).live, path).Some?
    ensures InLog(f, recs, path, Row(CoreOf(f, cap, start, Committed(recs)).live, path).value.version)
  {
    hide CommitsOf, Row, Committed, CoreOf;
    var c := Committed(recs);
    CommittedCommits(f, recs);
    if c == [] {
      CoreNone(f, cap, start);
      RowNone([], path);
      assert false;
    } else {
      assert c[..|c|] == c;
      var j := EntryOfCommit(f, cap, start, c, |c|);
    }
  }

  /** What is held is older than what the next write mints. */
  lemma {:induction false} HeldIsOld(f: Format, cap: nat, start: nat, recs: seq<Rec>, lib: Library, path: Bytes, w: map<nat, Bytes>, v: nat)
    requires Chronicle(f, cap, start, recs, lib, path, w) && InLog(f, recs, path, v)
    ensures v < NextVersion(lib.live, path)
  {
    hide CommitsOf, Row, Archive, RowKept, Hist, UniqueNames, Reaches;
    var ts := CommitsOf(f, recs);
    var j :| 0 <= j < |ts| && Row(ts[j].table, path).Some? && Row(ts[j].table, path).value.version == v;
    AllFollow(path, ts, lib.live, j);
  }

  /** ark_read_version returns the bytes of the write that minted the version, for every
      version some commit of the log holds. */
  lemma {:induction false} HeldReads(f: Format, l: LogState, lib: Library, path: Bytes, w: map<nat, Bytes>, v: nat)
    requires VolOk(f, l, lib) && Chronicle(f, l.cap, l.logStart, l.recs, lib, path, w) && InLog(f, l.recs, path, v)
    ensures v in w && VersionRead(f, l.media, l.epoch, lib.idx, Commits(f, ViewOf(f, l.media, l.epoch), l.head, l.logStart), path, v) == Got(w[v])
  {
    hide VolOk, Chronicle, CommitsOf, Row, Commits, ViewOf, VersionRead;
    var ts := CommitsOf(f, l.recs);
    var j :| 0 <= j < |ts| && Row(ts[j].table, path).Some? && Row(ts[j].table, path).value.version == v;
    VersionReadsBack(f, l, lib, path, w, j);
  }

  /** On a sound volume ark_read_file returns the bytes of the write that minted the version
      of the live row. */
  lemma {:induction false} SoundRead(f: Format, l: LogState, lib: Library, path: Bytes, w: map<nat, Bytes>, ts: seq<Entry>, r: Result<Bytes>)
    requires VolOk(f, l, lib) && Chronicle(f, l.cap, l.logStart, l.recs, lib, path, w) && Row(lib.live, path).Some?
    requires LatestGood(f, l.media, l.epoch, lib.idx, ts, Row(lib.live, path).value, r)
    ensures var v := Row(lib.live, path).value.version; v in w && r == Got(w[v])
  {
    hide LogOk, Row, Archive, CoreOf, Hist, Reaches, Blocks, ReadBlocks, LibOk, FileChunk, FileIds, VersionRead;
    VolumeFile(f, l, lib.idx, w[Row(lib.live, path).value.version]);
  }

  /** ark_history lists exactly the versions some commit holds, each once, in increasing
      order, with the size of the bytes that minted it. */
  lemma {:induction false} HistoryHolds(f: Format, l: LogState, lib: Library, path: Bytes, w: map<nat, Bytes>)
    requires VolOk(f, l, lib) && Chronicle(f, l.cap, l.logStart, l.recs, lib, path, w) && 0 !in w
    ensures var rows := Listing(Commits(f, ViewOf(f, l.media, l.epoch), l.head, l.logStart), path, 0);
            && Increasing(rows, 0)
            && (forall v :: InLog(f, l.recs, path, v) <==> exists i :: 0 <= i < |rows| && rows[i].version == v)
            && (forall i :: 0 <= i < |rows| ==> rows[i].version in w && rows[i].size == |w[rows[i].version]|)
  {
    hide VolOk, CommitsOf, Commits, ViewOf, Row, Listing, Increasing, Archive, Hist, Reaches, RowKept;
    var ts, rows := CommitsOf(f, l.recs), Listing(Commits(f, ViewOf(f, l.media, l.epoch), l.head, l.logStart), path, 0);
    HistoryExact(f, l, lib, path, w);
    forall i | 0 <= i < |rows| ensures InLog(f, l.recs, path, rows[i].version) && rows[i].version in w && rows[i].size == |w[rows[i].version]| {
      assert rows[i] in rows;
      var k :| 0 <= k < |ts| && ts[k].sq == rows[i].sq && Row(ts[k].table, path).Some?
               && Row(ts[k].table, path).value.version == rows[i].version && Row(ts[k].table, path).value.size == rows[i].size;
      EntryKept(f, l.cap, l.logStart, l.recs, path, w, k);
    }
    forall v | InLog(f, l.recs, path, v) ensures exists i :: 0 <= i < |rows| && rows[i].version == v {
      var j :| 0 <= j < |ts| && Row(ts[j].table, path).Some? && Row(ts[j].table, path).value.version == v;
      assert Listed(rows, Row(ts[j].table, path).value);
    }
  }

  /** Every commit of the log has the row w has bytes for. */
  lemma {:induction false} EntryKept(f: Format, cap: nat, start: nat, recs: seq<Rec>, path: Bytes, w: map<nat, Bytes>, j: nat)
    requires Archive(f, cap, start, recs, path, w) && j < |CommitsOf(f, recs)| && Row(CommitsOf(f, recs)[j].table, path).Some?
    ensures RowSource(f, Row(CommitsOf(f, recs)[j].table, path).value, w)
  {
    hide CommitsOf, Row, CoreOf, FileIds, Blocks;
    var k := CommitOfEntry(f, cap, start, recs, j);
    var c := CoreOf(f, cap, start, recs[..k]);
    assert RowKept(f, c.live, path, w, c.idx);
  }

  /** A new filesystem: nothing written yet. */
  lemma {:induction false} EmptyChronicle(f: Format, cap: nat, start: nat, recs: seq<Rec>, path: Bytes)
    requires Grown(f, cap, start, [], recs, EmptyLibrary(f))
    ensures Chronicle(f, cap, start, recs, EmptyLibrary(f), path, map[])
  {
    hide CoreOf, Hist, CommitsOf, Archive, Grown;
    EmptyReaches(f, path);
    RowNone([], path);
    assert Archive(f, cap, start, [], path, map[]) by { EmptyArchive(f, cap, start, path); }
    assert Hist(path, []) by { EmptyHist(path); }
    ArchiveGrows(f, cap, start, [], recs, EmptyLibrary(f), path, map[]);
    HistGrows(f, cap, start, [], recs, EmptyLibrary(f), path);
  }

  lemma {:induction false} EmptyArchive(f: Format, cap: nat, start: nat, path: Bytes)
    ensures Archive(f, cap, start, [], path, map[])
  {
  }

  lemma {:induction false} EmptyHist(path: Bytes)
    ensures Hist(path, [])
  {
  }
}
