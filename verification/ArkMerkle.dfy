/** The Merkle form of the directory tree: every directory is a block that lists its
    entries with the ids of their blocks, so one root id stands for the whole tree. */
module ArkMerkle {
  import opened Wrappers
  import opened ArkFormat
  import opened ArkLog
  import opened ArkCrash
  import opened ArkLibrary
  import opened ArkTree

  const MENT_FILE: nat := 1
  const MENT_DIR: nat := 2

  datatype Ment = Ment(kind: nat, size: nat, child: Id, name: Name)

  /** The node layout: entries to block bytes and back. */
  datatype Codec = Codec(enc: seq<Ment> -> Bytes, dec: Bytes -> Option<seq<Ment>>)

  predicate MentOk(f: Format, m: Ment) {
    m.kind < 256 && m.size < U32 && f.idOk(m.child) && NameOk(m.name)
  }

  /** Nodes read back and fit a block; no digest is all zero. */
  ghost predicate NodeOk(f: Format, c: Codec) {
    && (forall es :: |es| <= MNODE_MAXENT && (forall i :: 0 <= i < |es| ==> MentOk(f, es[i])) ==>
          c.dec(c.enc(es)) == Some(es) && |c.enc(es)| <= BLOCK_MAX)
    && (forall p :: f.sha(p) != f.zero)
  }

  // ---------------------------------------------------------------- ids

  function KindOf(t: Tree): nat { if t.File? then MENT_FILE else MENT_DIR }

  function SizeOf(t: Tree): nat { if t.File? then |t.content| else 0 }

  /** The id of a file's block or of a directory's node; zero is the empty tree. */
  function NodeId(f: Format, c: Codec, t: Tree): Id
    decreases t
  {
    match t
    case File(b) => f.sha(b)
    case Dir(kids) => if kids == [] then f.zero else f.sha(c.enc(Ments(f, c, kids)))
  }

  function Ments(f: Format, c: Codec, kids: seq<Kid>): (es: seq<Ment>)
    ensures |es| == |kids|
    decreases kids
  {
    seq(|kids|, i requires 0 <= i < |kids| =>
      Ment(KindOf(kids[i].sub), SizeOf(kids[i].sub), NodeId(f, c, kids[i].sub), kids[i].name))
  }

  function MentOf(f: Format, c: Codec, k: Kid): (m: Ment)
    ensures m.name == k.name
  {
     Ment(KindOf(k.sub), SizeOf(k.sub), NodeId(f, c, k.sub), k.name)
  }

  lemma {:induction false} MentAt(f: Format, c: Codec, kids: seq<Kid>, i: nat)
    requires i < |kids|
    ensures Ments(f, c, kids)[i] == MentOf(f, c, kids[i])
  {
  }

  lemma {:induction false} MentsOk(f: Format, c: Codec, t: Tree)
    requires f.Sound() && RootOk(t)
    ensures |Ments(f, c, t.kids)| <= MNODE_MAXENT && forall i :: 0 <= i < |t.kids| ==> MentOk(f, Ments(f, c, t.kids)[i])
  {
    hide NameOk, Ascending;
    forall i | 0 <= i < |t.kids| ensures MentOk(f, Ments(f, c, t.kids)[i]) {
      MentAt(f, c, t.kids, i);
      assert TreeOk(t.kids[i].sub);
    }
  }

  /** The root id determines the tree. */
  lemma {:induction false} RootInjective(f: Format, c: Codec, a: Tree, b: Tree)
    requires f.Sound() && f.Injective() && NodeOk(f, c) && RootOk(a) && RootOk(b) && NodeId(f, c, a) == NodeId(f, c, b)
    ensures a == b
    decreases a
  {
    hide KidsOk, MentOk, Format.Sound;
    if a != Dir([]) && b != Dir([]) {
      var ea, eb := Ments(f, c, a.kids), Ments(f, c, b.kids);
      assert c.enc(ea) == c.enc(eb);
      MentsOk(f, c, a);
      MentsOk(f, c, b);
      assert c.dec(c.enc(ea)) == Some(ea) && c.dec(c.enc(eb)) == Some(eb);
      forall i | 0 <= i < |a.kids| ensures a.kids[i] == b.kids[i] {
        MentAt(f, c, a.kids, i);
        MentAt(f, c, b.kids, i);
        assert ea[i] == eb[i];
        if a.kids[i].sub.Dir? { RootInjective(f, c, a.kids[i].sub, b.kids[i].sub); }
      }
    }
  }

  /** Equal roots are equal contents: the root id is a function of what the tree holds,
      whatever order it was built in, and different contents have different roots. */
  lemma {:induction false} RootIsContents(f: Format, c: Codec, a: Tree, b: Tree)
    requires f.Sound() && f.Injective() && NodeOk(f, c) && RootOk(a) && RootOk(b)
    ensures NodeId(f, c, a) == NodeId(f, c, b) <==> SameLookups(a, b)
  {
    hide NodeOk, Format.Sound, Format.Injective, Lookup, NodeId;
    if NodeId(f, c, a) == NodeId(f, c, b) {
      RootInjective(f, c, a, b);
    }
    if SameLookups(a, b) {
      if a == Dir([]) {
        EmptyOnly(b, a);
      } else if b == Dir([]) {
        EmptyOnly(a, b);
      } else {
        SameTree(a, b);
      }
    }
  }

  lemma {:induction false} EmptyOnly(a: Tree, b: Tree)
    requires RootOk(a) && b == Dir([]) && forall q :: Lookup(a, q) == Lookup(b, q)
    ensures a == b
  {
    if a != b {
      var q := SomeFile(a, 0);
    }
  }

  // ---------------------------------------------------------------- the tree in the store

  /** Every block of the tree is indexed. */
  ghost predicate Stored(f: Format, c: Codec, idx: map<Id, nat>, t: Tree) {
    match t
    case File(b) => f.sha(b) in idx
    case Dir(kids) =>
      && (kids != [] ==> NodeId(f, c, t) in idx)
      && forall i :: 0 <= i < |kids| ==> Stored(f, c, idx, kids[i].sub)
  }

  lemma {:induction false} StoredMore(f: Format, c: Codec, idx: map<Id, nat>, idx': map<Id, nat>, t: Tree)
    requires Stored(f, c, idx, t) && idx.Keys <= idx'.Keys
    ensures Stored(f, c, idx', t)
    decreases t
  {
    if t.Dir? {
      forall i | 0 <= i < |t.kids| ensures Stored(f, c, idx', t.kids[i].sub) { StoredMore(f, c, idx, idx', t.kids[i].sub); }
    }
  }

  /** The committed or live root of the volume stands for this tree. */
  ghost predicate TreeIn(f: Format, c: Codec, lib: Library, t: Tree) {
    RootOk(t) && lib.mroot == NodeId(f, c, t) && Stored(f, c, lib.idx, t)
  }

  lemma {:induction false} TreeIsDir(f: Format, c: Codec, lib: Library, t: Tree)
    requires TreeIn(f, c, lib, t)
    ensures t.Dir?
  {
  }

  lemma {:induction false} TreeKept(f: Format, c: Codec, a: Library, b: Library, t: Tree)
    requires TreeIn(f, c, a, t) && b.mroot == a.mroot && a.idx.Keys <= b.idx.Keys
    ensures TreeIn(f, c, b, t)
  {
    hide Stored, TreeOk, NodeId;
    StoredMore(f, c, a.idx, b.idx, t);
  }

  /** mnode_load. */
  function Load(f: Format, c: Codec, m: Media, e: nat, idx: map<Id, nat>, id: Id): Result<seq<Ment>> {
    if id == f.zero then Got([])
    else
      match BlockGet(f, m, e, idx, id)
      case Err(s) => Err(if s == NOTFOUND then NOTFOUND else CORRUPT)
      case Got(p) =>
        match c.dec(p)
        case None => Err(CORRUPT)
        case Some(es) => if |es| > MNODE_MAXENT then Err(CORRUPT) else Got(es)
  }

  /** When mnode_load answers: the empty directory for the zero id, else the entries of a block
      that reads and decodes to at most 46; NOTFOUND exactly for ids not stored. */
  lemma {:induction false} LoadIff(f: Format, c: Codec, m: Media, e: nat, idx: map<Id, nat>, id: Id, es: seq<Ment>)
    ensures Load(f, c, m, e, idx, id) == Got(es) <==>
              if id == f.zero then es == []
              else exists p :: BlockGet(f, m, e, idx, id) == Got(p) && c.dec(p) == Some(es) && |es| <= 46
    ensures Load(f, c, m, e, idx, id) == Err(NOTFOUND) <==> id != f.zero && id !in idx
    ensures Load(f, c, m, e, idx, id).Err? && id in idx ==> Load(f, c, m, e, idx, id) == Err(CORRUPT)
  {
    hide ReadRec;
  }

  /** On a sound volume every node of a stored tree loads as its entries. */
  lemma {:induction false} LoadReads(f: Format, c: Codec, l: LogState, idx: map<Id, nat>, t: Tree)
    requires LogOk(f, l) && idx == CoreOf(f, l.cap, l.logStart, l.recs).idx && f.Sound() && NodeOk(f, c)
    requires RootOk(t) && Stored(f, c, idx, t)
    ensures Load(f, c, l.media, l.epoch, idx, NodeId(f, c, t)) == Got(Ments(f, c, t.kids))
  {
    hide LogOk, CoreOf, TreeOk, KidsOk, MentOk, Format.Sound, BlockGet;
    if t != Dir([]) {
      var es := Ments(f, c, t.kids);
      VolumeReads(f, l, idx, c.enc(es));
      MentsOk(f, c, t);
      assert c.dec(c.enc(es)) == Some(es);
    }
  }

  // ---------------------------------------------------------------- one node rewritten

  function MNames(es: seq<Ment>): seq<Name> { seq(|es|, i requires 0 <= i < |es| => es[i].name) }

  lemma {:induction false} SameMNames(f: Format, c: Codec, kids: seq<Kid>)
    ensures MNames(Ments(f, c, kids)) == Names(kids)
  {
  }

  /** Replace the entry of this name or append a new one. */
  function SetMent(es: seq<Ment>, m: Ment): Option<seq<Ment>> {
    var e := IndexOf(MNames(es), m.name);
    if e >= 0 then Some(es[e := m])
    else if |es| >= MNODE_MAXENT then None
    else Some(es + [m])
  }

  /** ment_sort as a function: each entry goes left of all greater names. */
  function Sorted(es: seq<Ment>): (r: seq<Ment>)
    ensures |r| == |es|
  {
    if es == [] then []
    else
      var front := Sorted(es[..|es| - 1]);
      var x := es[|es| - 1];
      InsertAt(front, Place(MNames(front), x.name), x)
  }

  /** The inner loop of ment_sort: shift the greater entries right, drop the key in. */
  method Sink(m: array<Ment>, i: nat)
    requires i < m.Length
    modifies m
    ensures m[..i + 1] == InsertAt(old(m[..i]), Place(MNames(old(m[..i])), old(m[i]).name), old(m[i]))
    ensures m[i + 1..] == old(m[i + 1..])
  {
    hide Less;
    var key := m[i];
    ghost var s := m[..i];
    ghost var names := MNames(s);
    var p := i;
    assert names[..i] == names;
    while p > 0 && Less(key.name, m[p - 1].name)
      invariant p <= i && Place(names, key.name) == Place(names[..p], key.name)
      invariant m[..p] == s[..p] && m[p + 1..i + 1] == s[p..] && m[i + 1..] == old(m[i + 1..])
    {
      ghost var was := m[..];
      assert m[p - 1] == m[..p][p - 1] == s[p - 1];
      assert names[..p][..p - 1] == names[..p - 1];
      m[p] := m[p - 1];
      p := p - 1;
      Shifted(was, m[..], p, i);
    }
    if p > 0 { assert m[p - 1] == m[..p][p - 1] == s[p - 1]; }
    ghost var was := m[..];
    m[p] := key;
    Dropped(was, m[..], s, p, i, key);
  }

  lemma {:induction false} Shifted(a: seq<Ment>, b: seq<Ment>, p: nat, i: nat)
    requires p < i < |a| && b == a[p + 1 := a[p]]
    ensures b[..p] == a[..p + 1][..p] && b[p + 1..i + 1] == [a[p]] + a[p + 2..i + 1] && b[i + 1..] == a[i + 1..]
  {
  }

  lemma {:induction false} Dropped(a: seq<Ment>, b: seq<Ment>, s: seq<Ment>, p: nat, i: nat, key: Ment)
    requires p <= i < |a| && |s| == i && b == a[p := key] && a[..p] == s[..p] && a[p + 1..i + 1] == s[p..]
    ensures b[..i + 1] == InsertAt(s, p, key) && b[i + 1..] == a[i + 1..]
  {
    assert b[..i + 1] == b[..p] + [b[p]] + b[p + 1..i + 1];
  }

  /** ment_sort, in place. */
  method MentSort(m: array<Ment>)
    modifies m
    ensures m[..] == Sorted(old(m[..]))
  {
    hide Place, InsertAt, MNames;
    ghost var was := m[..];
    var i := 0;
    assert m[..0] == [] == Sorted(was[..0]);
    while i < m.Length
      invariant i <= m.Length && m[..i] == Sorted(was[..i]) && m[i..] == was[i..]
    {
      assert m[i] == m[i..][0] == was[i];
      Sink(m, i);
      assert was[..i + 1] == was[..i] + [was[i]];
      SortedSnoc(was[..i], was[i]);
      i := i + 1;
    }
    assert m[..i] == m[..] && was[..i] == was;
  }

  lemma {:induction false} SortedAlready(es: seq<Ment>)
    requires Ascending(MNames(es))
    ensures Sorted(es) == es
  {
    hide Less, Ascending, Place, InsertAt, MNames;
    if es != [] {
      var n := |es| - 1;
      FrontAscends(es);
      SortedAlready(es[..n]);
      InsertLast(es);
    }
  }

  lemma {:induction false} FrontAscends(es: seq<Ment>)
    requires es != [] && Ascending(MNames(es))
    ensures Ascending(MNames(es[..|es| - 1])) && Place(MNames(es[..|es| - 1]), es[|es| - 1].name) == |es| - 1
  {
    hide Less, Place;
    var n := |es| - 1;
    var names := MNames(es);
    assert MNames(es[..n]) == names[..n];
    assert n > 0 ==> Less(names[n - 1], names[n]);
    PlaceLast(names[..n], es[n].name);
  }

  lemma {:induction false} InsertLast(es: seq<Ment>)
    requires es != []
    ensures InsertAt(es[..|es| - 1], |es| - 1, es[|es| - 1]) == es
  {
  }

  lemma {:induction false} PlaceLast(names: seq<Name>, n: Name)
    requires names != [] ==> Less(names[|names| - 1], n)
    ensures Place(names, n) == |names|
  {
    if names != [] && Less(n, names[|names| - 1]) {
      LessTrans(n, names[|names| - 1], n);
      LessIrrefl(n);
    }
  }

  /** Appending and sorting is inserting at the right place: the node written for a changed
      directory is the node of the changed tree. */
  lemma {:induction false} NodeRewrite(f: Format, c: Codec, kids: seq<Kid>, n: Name, sub: Tree)
    requires KidsOk(kids) && NameOk(n)
    ensures var r := SetKid(kids, n, sub);
            SetMent(Ments(f, c, kids), MentOf(f, c, Kid(n, sub))).Some? == r.Done?
    ensures var r := SetKid(kids, n, sub);
            r.Done? ==> Sorted(SetMent(Ments(f, c, kids), MentOf(f, c, Kid(n, sub))).value) == Ments(f, c, r.tree.kids)
  {
    hide Less, Ascending, NameOk, Ments, MentOf, Sorted, InsertAt, Place, MNames;
    var es, m := Ments(f, c, kids), MentOf(f, c, Kid(n, sub));
    SameMNames(f, c, kids);
    var k := IndexOf(Names(kids), n);
    if k >= 0 {
      MentsReplace(f, c, kids, k, Kid(n, sub));
      SameMNames(f, c, kids[k := Kid(n, sub)]);
      NamesReplace(kids, k, Kid(n, sub));
      SortedAlready(es[k := m]);
    } else if |kids| < MNODE_MAXENT {
      SortedAlready(es);
      SortedSnoc(es, m);
      MentsInsert(f, c, kids, Place(Names(kids), n), Kid(n, sub));
    }
  }

  lemma {:induction false} NamesReplace(kids: seq<Kid>, k: nat, x: Kid)
    requires k < |kids| && kids[k].name == x.name
    ensures Names(kids[k := x]) == Names(kids)
  {
  }

  lemma {:induction false} MentsReplace(f: Format, c: Codec, kids: seq<Kid>, k: nat, x: Kid)
    requires k < |kids|
    ensures Ments(f, c, kids[k := x]) == Ments(f, c, kids)[k := MentOf(f, c, x)]
  {
    hide NodeId;
  }

  lemma {:induction false} MentsInsert(f: Format, c: Codec, kids: seq<Kid>, p: nat, x: Kid)
    requires p <= |kids|
    ensures Ments(f, c, InsertAt(kids, p, x)) == InsertAt(Ments(f, c, kids), p, MentOf(f, c, x))
  {
    hide NodeId;
  }

  lemma {:induction false} SortedSnoc(es: seq<Ment>, m: Ment)
    ensures Sorted(es + [m]) == InsertAt(Sorted(es), Place(MNames(Sorted(es)), m.name), m)
  {
    hide Place, InsertAt, MNames;
    assert (es + [m])[..|es|] == es;
  }

  /** Replacing or adding a stored kid leaves a stored tree, once its node is indexed. */
  lemma {:induction false} StoredSet(f: Format, c: Codec, idx: map<Id, nat>, t: Tree, n: Name, sub: Tree)
    requires RootOk(t) && NameOk(n) && SetKid(t.kids, n, sub).Done?
    requires Stored(f, c, idx, t) && Stored(f, c, idx, sub) && NodeId(f, c, SetKid(t.kids, n, sub).tree) in idx
    ensures Stored(f, c, idx, SetKid(t.kids, n, sub).tree)
  {
    hide SetKid, KidsOk, NameOk, NodeId;
    if t == Dir([]) { EmptyKids(); }
    SetKidSets(t.kids, n, sub);
  }

  // ---------------------------------------------------------------- the chain of directories

  /** The directory the descent stands in after i components. */
  function Subs(t: Tree, path: seq<Name>, i: nat): (s: Option<Tree>)
    requires t.Dir? && i <= |path|
    ensures s.Some? ==> s.value.Dir?
  {
    if i == 0 then Some(t)
    else
      match Subs(t, path, i - 1)
      case None => None
      case Some(s) => Below(s, path[i - 1])
  }

  lemma {:induction false} SubsOk(f: Format, c: Codec, idx: map<Id, nat>, t: Tree, path: seq<Name>, i: nat)
    requires RootOk(t) && Stored(f, c, idx, t) && i <= |path| && Subs(t, path, i).Some?
    ensures RootOk(Subs(t, path, i).value) && Stored(f, c, idx, Subs(t, path, i).value)
  {
    hide KidsOk, NodeId;
    if i > 0 { SubsOk(f, c, idx, t, path, i - 1); }
  }

  /** One level of Put, seen from the chain. */
  lemma {:induction false} PutLevel(t: Tree, path: seq<Name>, b: Bytes, i: nat)
    requires t.Dir? && i + 1 < |path| && Subs(t, path, i + 1).Some?
    ensures Subs(t, path, i).Some?
    ensures Put(Subs(t, path, i).value, path[i..], b)
         == match Put(Subs(t, path, i + 1).value, path[i + 1..], b)
            case Done(s) => SetKid(Subs(t, path, i).value.kids, path[i], s)
            case Blocked => Blocked
            case Full => Full
  {
    hide SetKid, Below;
    assert path[i..][1..] == path[i + 1..];
  }

  lemma {:induction false} PutTop(t: Tree, path: seq<Name>, b: Bytes)
    requires t.Dir? && path != []
    ensures Put(Subs(t, path, 0).value, path[0..], b) == Put(t, path, b)
  {
    assert path[0..] == path;
  }

  /** A failure at level i is a failure of the whole put. */
  lemma {:induction false} PutFails(t: Tree, path: seq<Name>, b: Bytes, i: nat)
    requires t.Dir? && i < |path| && Subs(t, path, i).Some?
    requires !Put(Subs(t, path, i).value, path[i..], b).Done?
    ensures Put(t, path, b) == Put(Subs(t, path, i).value, path[i..], b)
  {
    hide Put, SetKid, Subs;
    if i > 0 {
      PutLevel(t, path, b, i - 1);
      PutFails(t, path, b, i - 1);
    } else {
      SubsZero(t, path);
      PutTop(t, path, b);
    }
  }

  lemma {:induction false} SubsZero(t: Tree, path: seq<Name>)
    requires t.Dir?
    ensures Subs(t, path, 0) == Some(t)
  {
  }

  lemma {:induction false} PutBlocked(t: Tree, path: seq<Name>, b: Bytes, i: nat)
    requires t.Dir? && i + 1 < |path| && Subs(t, path, i).Some? && Below(Subs(t, path, i).value, path[i]).None?
    ensures Put(t, path, b) == Blocked
  {
    hide Subs;
    assert Put(Subs(t, path, i).value, path[i..], b) == Blocked;
    PutFails(t, path, b, i);
  }

  /** The nodes a put of this path writes are quiet. */
  predicate PathQuiet(f: Format, c: Codec, e: nat, t: Tree, path: seq<Name>, b: Bytes)
    requires t.Dir?
  {
    forall i :: 0 <= i < |path| && Subs(t, path, i).Some? && Put(Subs(t, path, i).value, path[i..], b).Done? ==>
      Quiet(f, e, c.enc(Ments(f, c, Put(Subs(t, path, i).value, path[i..], b).tree.kids)))
  }

  predicate PathLater(f: Format, c: Codec, e: nat, t: Tree, path: seq<Name>, b: Bytes)
    requires t.Dir?
  {
    forall i :: 0 <= i < |path| && Subs(t, path, i).Some? && Put(Subs(t, path, i).value, path[i..], b).Done? ==>
      QuietLater(f, e, c.enc(Ments(f, c, Put(Subs(t, path, i).value, path[i..], b).tree.kids)))
  }

  /** What ark_mtree_put writes is quiet: the content, the rewritten nodes, the commit. */
  predicate TreeQuiet(f: Format, c: Codec, e: nat, sq: nat, live: seq<Dent>, t: Tree, path: seq<Name>, b: Bytes) {
    && t.Dir? && path != [] && Quiet(f, e, b) && PathQuiet(f, c, e, t, path, b)
    && (Put(t, path, b).Done? ==> RowsQuiet(f, e, sq, 1 + |path|, live, NodeId(f, c, Put(t, path, b).tree)))
  }

  predicate TreeLater(f: Format, c: Codec, e: nat, sq: nat, live: seq<Dent>, t: Tree, path: seq<Name>, b: Bytes) {
    && t.Dir? && path != [] && QuietLater(f, e, b) && PathLater(f, c, e, t, path, b)
    && (Put(t, path, b).Done? ==> RowsLater(f, e, sq, 1 + |path|, live, NodeId(f, c, Put(t, path, b).tree)))
  }

  // ---------------------------------------------------------------- steps of the methods

  /** What the entry of the next component says about the next directory. */
  lemma {:induction false} EntryFacts(f: Format, c: Codec, t: Tree, path: seq<Name>, i: nat)
    requires t.Dir? && i + 1 < |path| && Subs(t, path, i).Some?
    ensures var s := Subs(t, path, i).value; var es := Ments(f, c, s.kids); var e := IndexOf(MNames(es), path[i]);
            && (e < 0 ==> Subs(t, path, i + 1) == Some(Dir([])) && NodeId(f, c, Dir([])) == f.zero)
            && (e >= 0 && es[e].kind == MENT_DIR ==> Subs(t, path, i + 1).Some? && es[e].child == NodeId(f, c, Subs(t, path, i + 1).value))
            && (e >= 0 && es[e].kind != MENT_DIR ==> Below(s, path[i]).None?)
  {
    var s := Subs(t, path, i).value;
    SameMNames(f, c, s.kids);
  }

  lemma {:induction false} StepDown(f: Format, c: Codec, idx: map<Id, nat>, s: Tree, path: seq<Name>, i: nat)
    requires RootOk(s) && Stored(f, c, idx, s) && i < |path|
    ensures var es := Ments(f, c, s.kids); var e := IndexOf(MNames(es), path[i]);
            && (e < 0 ==> Lookup(s, path[i..]) == None)
            && (e >= 0 && i + 1 < |path| ==>
                  && Lookup(s, path[i..]) == Lookup(s.kids[e].sub, path[i + 1..])
                  && (es[e].kind != MENT_DIR ==> Lookup(s, path[i..]) == None)
                  && (es[e].kind == MENT_DIR ==>
                        RootOk(s.kids[e].sub) && Stored(f, c, idx, s.kids[e].sub) && es[e].child == NodeId(f, c, s.kids[e].sub)))
            && (e >= 0 && i + 1 == |path| ==>
                  if es[e].kind != MENT_FILE then Lookup(s, path[i..]) == None
                  else s.kids[e].sub.File? && Lookup(s, path[i..]) == Some(s.kids[e].sub.content)
                       && es[e].child == f.sha(s.kids[e].sub.content) && f.sha(s.kids[e].sub.content) in idx)
  {
    hide KidsOk;
    SameMNames(f, c, s.kids);
    assert path[i..][1..] == path[i + 1..];
    LookupFind(s, path[i..]);
    var e := IndexOf(Names(s.kids), path[i]);
    if e >= 0 && s.kids[e].sub.File? { NoneInFile(s.kids[e].sub, path[i + 1..]); }
  }

  lemma {:induction false} ZeroRoot(f: Format, c: Codec, t: Tree, path: seq<Name>)
    requires NodeOk(f, c) && RootOk(t) && NodeId(f, c, t) == f.zero && path != []
    ensures Lookup(t, path) == None
  {
    LookupFind(t, path);
  }

  /** On the way up, u is the finished subtree below level i and id its block. */
  ghost predicate Rising(f: Format, c: Codec, idx: map<Id, nat>, t: Tree, path: seq<Name>, b: Bytes, i: nat,
                         kind: nat, size: nat, id: Id, u: Tree)
    requires t.Dir? && i <= |path|
  {
    && kind == KindOf(u) && size == SizeOf(u) && id == NodeId(f, c, u) && Stored(f, c, idx, u) && TreeOk(u)
    && (if i == |path| then u == File(b) else Subs(t, path, i).Some? && Put(Subs(t, path, i).value, path[i..], b) == Done(u))
  }

  lemma {:induction false} FileStored(f: Format, c: Codec, idx: map<Id, nat>, b: Bytes)
    requires f.sha(b) in idx && |b| <= BLOCK_MAX
    ensures Stored(f, c, idx, File(b)) && TreeOk(File(b)) && NodeId(f, c, File(b)) == f.sha(b)
  {
  }

  lemma {:induction false} RiseStarts(f: Format, c: Codec, idx: map<Id, nat>, t: Tree, path: seq<Name>, b: Bytes)
    requires f.sha(b) in idx && |b| <= BLOCK_MAX && t.Dir?
    ensures Rising(f, c, idx, t, path, b, |path|, MENT_FILE, |b|, f.sha(b), File(b))
  {
    FileStored(f, c, idx, b);
  }

  lemma {:induction false} RiseQuiet(f: Format, c: Codec, e: nat, t: Tree, path: seq<Name>, b: Bytes, i: nat)
    requires t.Dir? && i < |path| && Subs(t, path, i).Some?
    ensures var r := Put(Subs(t, path, i).value, path[i..], b);
            r.Done? ==> (PathQuiet(f, c, e, t, path, b) ==> Quiet(f, e, c.enc(Ments(f, c, r.tree.kids))))
                        && (PathLater(f, c, e, t, path, b) ==> QuietLater(f, e, c.enc(Ments(f, c, r.tree.kids))))
  {
    hide Quiet, QuietLater, Put, Subs;
  }

  /** What the tree says about level i when the subtree u below it is finished. */
  lemma {:induction false} LevelPut(t: Tree, path: seq<Name>, b: Bytes, i: nat, u: Tree)
    requires t.Dir? && i < |path| && Subs(t, path, i).Some?
    requires if i + 1 == |path| then u == File(b)
             else Subs(t, path, i + 1).Some? && Put(Subs(t, path, i + 1).value, path[i + 1..], b) == Done(u)
    ensures var s := Subs(t, path, i).value; var k := IndexOf(Names(s.kids), path[i]);
            Put(s, path[i..], b) == if k >= 0 && KindOf(s.kids[k].sub) != KindOf(u) then Blocked else SetKid(s.kids, path[i], u)
  {
    hide SetKid;
    if i + 1 < |path| {
      PutLevel(t, path, b, i);
    }
  }

  lemma {:induction false} RiseFacts(f: Format, c: Codec, idx0: map<Id, nat>, idx: map<Id, nat>, t: Tree, path: seq<Name>, b: Bytes, i: nat,
                                     kind: nat, size: nat, id: Id, u: Tree)
    requires f.Sound() && NodeOk(f, c) && RootOk(t) && Stored(f, c, idx0, t) && PathNamesOk(path) && i < |path| && Subs(t, path, i).Some?
    requires |b| <= BLOCK_MAX && Rising(f, c, idx, t, path, b, i + 1, kind, size, id, u)
    ensures var s := Subs(t, path, i).value; var es := Ments(f, c, s.kids);
            var e := IndexOf(MNames(es), path[i]); var es2 := SetMent(es, Ment(kind, size, id, path[i]));
            && (e >= 0 && es[e].kind != kind ==> Put(t, path, b) == Blocked)
            && (!(e >= 0 && es[e].kind != kind) && es2.None? ==> Put(t, path, b) == Full)
            && (!(e >= 0 && es[e].kind != kind) && es2.Some? ==>
                  && Put(s, path[i..], b).Done? && TreeOk(Put(s, path[i..], b).tree)
                  && Sorted(es2.value) == Ments(f, c, Put(s, path[i..], b).tree.kids)
                  && NodeId(f, c, Put(s, path[i..], b).tree) == f.sha(c.enc(Sorted(es2.value)))
                  && |c.enc(Sorted(es2.value))| <= BLOCK_MAX)
  {
    hide Stored, MentOk, Format.Sound, TreeOk, KidsOk, Put, SetKid, Subs, Ments, Sorted, SetMent, MNames, NameOk;
    var s := Subs(t, path, i).value;
    SubsOk(f, c, idx0, t, path, i);
    LevelPut(t, path, b, i, u);
    SameMNames(f, c, s.kids);
    var k := IndexOf(Names(s.kids), path[i]);
    if k >= 0 { MentAt(f, c, s.kids, k); }
    if k >= 0 && KindOf(s.kids[k].sub) != kind {
      PutFails(t, path, b, i);
    } else {
      RootKids(s);
      NodeRewrite(f, c, s.kids, path[i], u);
      if SetKid(s.kids, path[i], u).Done? {
        SetKidOk2(s, path[i], u);
        NodeFits(f, c, SetKid(s.kids, path[i], u).tree);
      } else {
        PutFails(t, path, b, i);
      }
    }
  }

  lemma {:induction false} RootKids(s: Tree)
    requires RootOk(s)
    ensures KidsOk(s.kids)
  {
    EmptyKids();
  }

  lemma {:induction false} NodeFits(f: Format, c: Codec, u: Tree)
    requires f.Sound() && NodeOk(f, c) && u.Dir? && TreeOk(u)
    ensures var p := c.enc(Ments(f, c, u.kids)); NodeId(f, c, u) == f.sha(p) && |p| <= BLOCK_MAX
  {
    hide MentOk, Format.Sound, KidsOk;
    MentsOk(f, c, u);
  }

  lemma {:induction false} RiseStep(f: Format, c: Codec, idx0: map<Id, nat>, idx1: map<Id, nat>, idx: map<Id, nat>, t: Tree,
                                    path: seq<Name>, b: Bytes, i: nat, kind: nat, size: nat, id: Id, u: Tree)
    requires RootOk(t) && Stored(f, c, idx0, t) && idx0.Keys <= idx.Keys && idx1.Keys <= idx.Keys
    requires PathNamesOk(path) && i < |path| && Subs(t, path, i).Some? && Rising(f, c, idx1, t, path, b, i + 1, kind, size, id, u)
    requires var r := Put(Subs(t, path, i).value, path[i..], b); r.Done? && TreeOk(r.tree) && NodeId(f, c, r.tree) in idx
    ensures var v := Put(Subs(t, path, i).value, path[i..], b).tree; Rising(f, c, idx, t, path, b, i, MENT_DIR, 0, NodeId(f, c, v), v)
  {
    hide Stored, TreeOk, KidsOk, Put, SetKid, Subs, NodeId, NameOk;
    var s := Subs(t, path, i).value;
    SubsOk(f, c, idx0, t, path, i);
    LevelPut(t, path, b, i, u);
    StoredMore(f, c, idx0, idx, s);
    StoredMore(f, c, idx1, idx, u);
    StoredSet(f, c, idx, s, path[i], u);
  }

  lemma {:induction false} RiseDone(f: Format, c: Codec, idx: map<Id, nat>, live: seq<Dent>, t: Tree, path: seq<Name>, b: Bytes,
                                    kind: nat, size: nat, id: Id, u: Tree)
    requires t.Dir? && path != [] && Rising(f, c, idx, t, path, b, 0, kind, size, id, u)
    ensures Put(t, path, b) == Done(u) && TreeIn(f, c, Library(live, id, idx), u)
  {
    hide Stored, TreeOk, Put, NodeId;
    PutTop(t, path, b);
  }

  lemma {:induction false} RootLib(f: Format, c: Codec, lib: Library, id: Id, u: Tree)
    requires f.Sound() && LibOk(f, lib) && TreeIn(f, c, lib.(mroot := id), u)
    ensures LibOk(f, lib.(mroot := id)) && id == NodeId(f, c, u)
  {
    hide TreeOk, Stored;
  }
}
