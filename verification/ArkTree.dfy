/** The directory tree of arkfs.c as users think of it: names sorted in every directory,
    no empty directory, and what a put does to the lookup of every path. */
module ArkTree {
  import opened Wrappers
  import opened ArkFormat

  type Name = Bytes

  const MENT_NAME: nat := 48
  const MTREE_MAXDEPTH: nat := 8
  const MNODE_MAXENT: nat := 46      // (4096 - 8) / 88

  datatype Tree = File(content: Bytes) | Dir(kids: seq<Kid>)
  datatype Kid = Kid(name: Name, sub: Tree)

  // ---------------------------------------------------------------- names

  function Key(u: Unit): nat { if u.B? then u.v else 0 }

  /** mstrcmp(a, b) < 0. */
  predicate Less(a: Name, b: Name) {
    b != [] && (a == [] || Key(a[0]) < Key(b[0]) || (Key(a[0]) == Key(b[0]) && Less(a[1..], b[1..])))
  }

  /** The order of names: by the first byte that differs, a prefix before what it begins. */
  lemma {:induction false} LessIff(a: Name, b: Name)
    ensures Less(a, b) <==> exists k: nat :: DiffersAt(a, b, k)
  {
    if a == [] || b == [] || Key(a[0]) != Key(b[0]) {
      if Less(a, b) { assert DiffersAt(a, b, 0); }
    } else {
      LessIff(a[1..], b[1..]);
      if k: nat :| DiffersAt(a[1..], b[1..], k) {
        forall i | 0 <= i < k + 1 ensures Key(a[i]) == Key(b[i]) { if i > 0 { assert a[i] == a[1..][i - 1] && b[i] == b[1..][i - 1]; } }
        assert k < |a[1..]| ==> a[k + 1] == a[1..][k] && b[k + 1] == b[1..][k];
        assert DiffersAt(a, b, k + 1);
      }
      if k: nat :| DiffersAt(a, b, k) {
        forall i | 0 <= i < k - 1 ensures Key(a[1..][i]) == Key(b[1..][i]) { assert a[1..][i] == a[i + 1] && b[1..][i] == b[i + 1]; }
        assert k > 0;
        assert DiffersAt(a[1..], b[1..], k - 1);
      }
    }
  }

  /** The names agree before place k, and there a ends or has the smaller byte. */
  predicate DiffersAt(a: Name, b: Name, k: nat) {
    k <= |a| && k < |b| && (forall i :: 0 <= i < k ==> Key(a[i]) == Key(b[i])) && (k == |a| || Key(a[k]) < Key(b[k]))
  }

  /** One path component: not empty, fits its field, no NUL and no slash. */
  predicate NameOk(n: Name) {
    0 < |n| < MENT_NAME && forall i :: 0 <= i < |n| ==> n[i].B? && 0 < n[i].v < 256 && n[i].v != 47
  }

  predicate Plain(n: Name) { forall i :: 0 <= i < |n| ==> n[i].B? }

  lemma {:induction false} LessIrrefl(a: Name)
    ensures !Less(a, a)
  {
    if a != [] { LessIrrefl(a[1..]); }
  }

  lemma {:induction false} LessTrans(a: Name, b: Name, c: Name)
    requires Less(a, b) && Less(b, c)
    ensures Less(a, c)
  {
    if a != [] && Key(a[0]) == Key(b[0]) == Key(c[0]) { LessTrans(a[1..], b[1..], c[1..]); }
  }

  lemma {:induction false} LessTotal(a: Name, b: Name)
    requires Plain(a) && Plain(b) && a != b
    ensures Less(a, b) || Less(b, a)
  {
    if a != [] && b != [] && Key(a[0]) == Key(b[0]) {
      assert a == [a[0]] + a[1..] && b == [b[0]] + b[1..];
      LessTotal(a[1..], b[1..]);
    }
  }

  predicate Ascending(names: seq<Name>) {
    forall i, j :: 0 <= i < j < |names| ==> Less(names[i], names[j])
  }

  predicate AllPlain(names: seq<Name>) { forall i :: 0 <= i < |names| ==> Plain(names[i]) }

  /** ment_find: the first entry of this name, or -1. */
  function IndexOf(names: seq<Name>, n: Name): (k: int)
    ensures -1 <= k < |names|
    ensures k >= 0 ==> names[k] == n
    ensures forall i :: 0 <= i < (if k < 0 then |names| else k) ==> names[i] != n
  {
    if names == [] then -1
    else if names[0] == n then 0
    else var k := IndexOf(names[1..], n); if k < 0 then -1 else k + 1
  }

  /** Where ment_sort puts a key behind these names: left of all that are greater. */
  function Place(names: seq<Name>, n: Name): (p: nat)
    ensures p <= |names|
    ensures forall i :: p <= i < |names| ==> Less(n, names[i])
    ensures p > 0 ==> !Less(n, names[p - 1])
  {
    if names != [] && Less(n, names[|names| - 1]) then Place(names[..|names| - 1], n) else |names|
  }

  function InsertAt<T>(s: seq<T>, p: nat, x: T): seq<T>
    requires p <= |s|
  {
    s[..p] + [x] + s[p..]
  }

  /** A new name at its place keeps the order. */
  lemma {:induction false} InsertAscends(names: seq<Name>, n: Name)
    requires Ascending(names) && AllPlain(names) && Plain(n) && n !in names
    ensures Ascending(InsertAt(names, Place(names, n), n))
  {
    var p := Place(names, n);
    var all := InsertAt(names, p, n);
    assert forall i :: 0 <= i < |all| ==> all[i] == if i < p then names[i] else if i == p then n else names[i - 1];
    forall i | 0 <= i < p ensures Less(names[i], n) {
      LessTotal(names[p - 1], n);
      if i < p - 1 { LessTrans(names[i], names[p - 1], n); }
    }
  }

  /** An ascending sequence is determined by its elements. */
  lemma {:induction false} AscendingUnique(a: seq<Name>, b: seq<Name>)
    requires Ascending(a) && Ascending(b) && forall n :: n in a <==> n in b
    ensures a == b
  {
    assert a != [] ==> a[0] in b;
    assert b != [] ==> b[0] in a;
    if a != [] && b != [] {
      var x, y := a[|a| - 1], b[|b| - 1];
      if x != y {
        assert x in a && y in b;
        var i :| 0 <= i < |b| && b[i] == x;
        var j :| 0 <= j < |a| && a[j] == y;
        assert Less(x, y) && Less(y, x);
        LessTrans(x, y, x);
        LessIrrefl(x);
      }
      var a', b' := a[..|a| - 1], b[..|b| - 1];
      forall n ensures n in a' <==> n in b' {
        FrontHas(a, n);
        FrontHas(b, n);
      }
      AscendingUnique(a', b');
      assert a == a' + [x] && b == b' + [y];
    }
  }

  lemma {:induction false} FrontHas(a: seq<Name>, n: Name)
    requires Ascending(a) && a != []
    ensures n in a[..|a| - 1] <==> n in a && n != a[|a| - 1]
  {
    LessIrrefl(a[|a| - 1]);
  }

  // ---------------------------------------------------------------- trees

  function Names(kids: seq<Kid>): seq<Name> { seq(|kids|, i requires 0 <= i < |kids| => kids[i].name) }

  /** The trees a sequence of puts can build, below the root. */
  predicate TreeOk(t: Tree) {
    match t
    case File(b) => |b| <= BLOCK_MAX
    case Dir(kids) => kids != [] && KidsOk(kids) && forall i :: 0 <= i < |kids| ==> TreeOk(kids[i].sub)
  }

  predicate KidsOk(kids: seq<Kid>) {
    |kids| <= MNODE_MAXENT && Ascending(Names(kids)) && forall i :: 0 <= i < |kids| ==> NameOk(kids[i].name)
  }

  /** The root may also be the empty tree. */
  predicate RootOk(t: Tree) { t.Dir? && (t.kids == [] || TreeOk(t)) }

  /** The content ark_mtree_get finds at a path. */
  function Lookup(t: Tree, path: seq<Name>): Option<Bytes>
    decreases |path|
  {
    if path == [] || t.File? then None
    else
      var k := IndexOf(Names(t.kids), path[0]);
      if k < 0 then None
      else if |path| == 1 then (match t.kids[k].sub case File(b) => Some(b) case Dir(_) => None)
      else Lookup(t.kids[k].sub, path[1..])
  }

  datatype PutResult = Done(tree: Tree) | Blocked | Full

  /** Replace the kid of this name or insert a new one; no room is Full. */
  function SetKid(kids: seq<Kid>, n: Name, sub: Tree): (r: PutResult)
    ensures !r.Blocked? && (r.Done? ==> r.tree.Dir?)
  {
    var k := IndexOf(Names(kids), n);
    if k >= 0 then Done(Dir(kids[k := Kid(n, sub)]))
    else if |kids| >= MNODE_MAXENT then Full
    else Done(Dir(InsertAt(kids, Place(Names(kids), n), Kid(n, sub))))
  }

  /** What the descent stands on next: the sub-directory, or an empty one to create; a file
      of that name blocks it. */
  function Below(t: Tree, n: Name): (s: Option<Tree>)
    requires t.Dir?
    ensures s.Some? ==> s.value.Dir?
  {
    match Find(t.kids, n)
    case None => Some(Dir([]))
    case Some(s) => if s.Dir? then Some(s) else None
  }

  /** ark_mtree_put on the tree. */
  function Put(t: Tree, path: seq<Name>, b: Bytes): (r: PutResult)
    requires path != [] && t.Dir?
    ensures r.Done? ==> r.tree.Dir?
    decreases |path|
  {
    if |path| == 1 then
      if Find(t.kids, path[0]).Some? && Find(t.kids, path[0]).value.Dir? then Blocked
      else SetKid(t.kids, path[0], File(b))
    else
      match Below(t, path[0])
      case None => Blocked
      case Some(s) =>
        match Put(s, path[1..], b)
        case Done(s') => SetKid(t.kids, path[0], s')
        case Blocked => Blocked
        case Full => Full
  }

  /** What stands at a path, file or directory. */
  function At(t: Tree, path: seq<Name>): Option<Tree> {
    if path == [] then Some(t)
    else if t.File? then None
    else match Find(t.kids, path[0]) case None => None case Some(s) => At(s, path[1..])
  }

  /** A file stands where the path needs a directory, or a directory where it needs a file. */
  ghost predicate InTheWay(t: Tree, path: seq<Name>) {
    || (At(t, path).Some? && At(t, path).value.Dir?)
    || exists i :: 0 < i < |path| && At(t, path[..i]).Some? && At(t, path[..i]).value.File?
  }

  /** A directory on the path has no room for the entry the path needs in it. */
  ghost predicate Crowded(t: Tree, path: seq<Name>) {
    exists i :: 0 <= i < |path| && NoRoomAt(t, path, i)
  }

  predicate NoRoomAt(t: Tree, path: seq<Name>, i: nat)
    requires i < |path|
  {
    At(t, path[..i]).Some? && At(t, path[..i]).value.Dir?
    && |At(t, path[..i]).value.kids| >= MNODE_MAXENT && path[i] !in Names(At(t, path[..i]).value.kids)
  }

  lemma {:induction false} AtFirst(t: Tree, path: seq<Name>, i: nat)
    requires t.Dir? && 0 < i <= |path|
    ensures At(t, path[..i]) == match Find(t.kids, path[0]) case None => None case Some(s) => At(s, path[1..][..i - 1])
  {
    assert path[..i][0] == path[0] && path[..i][1..] == path[1..][..i - 1];
  }

  lemma {:induction false} AtStart(t: Tree, path: seq<Name>)
    ensures At(t, path[..0]) == Some(t)
  {
  }

  lemma {:induction false} NothingBelow(t: Tree, path: seq<Name>)
    requires t.Dir? && |path| > 1 && Find(t.kids, path[0]).None?
    ensures !InTheWay(t, path) && (Crowded(t, path) <==> NoRoomAt(t, path, 0))
  {
    hide At, Find;
    forall i | 0 < i <= |path| ensures At(t, path[..i]).None? { AtFirst(t, path, i); }
    assert path[..|path|] == path;
  }

  /** One directory further down. */
  lemma {:induction false} DirBelow(t: Tree, path: seq<Name>, s: Tree)
    requires t.Dir? && |path| > 1 && Find(t.kids, path[0]) == Some(s)
    ensures s.File? ==> InTheWay(t, path)
    ensures s.Dir? ==> (InTheWay(t, path) <==> InTheWay(s, path[1..])) && (Crowded(t, path) <==> Crowded(s, path[1..]))
  {
    hide At, Find;
    var rest := path[1..];
    forall i | 0 < i <= |path| ensures At(t, path[..i]) == At(s, rest[..i - 1]) { AtFirst(t, path, i); }
    assert path[..|path|] == path && rest[..|rest|] == rest;
    AtStart(s, rest);
    AtStart(t, path);
    FoundName(t.kids, path[0]);
    if s.File? { assert At(t, path[..1]) == Some(s); }
    if s.Dir? {
      forall j | 0 < j < |rest| ensures At(s, rest[..j]) == At(t, path[..j + 1]) {}
      forall j | 0 <= j < |rest| ensures NoRoomAt(s, rest, j) <==> NoRoomAt(t, path, j + 1) {
        assert At(s, rest[..j]) == At(t, path[..j + 1]) && rest[j] == path[j + 1];
      }
      if i :| 0 < i < |path| && At(t, path[..i]).Some? && At(t, path[..i]).value.File? { assert At(s, rest[..i - 1]).value.File?; }
      if i :| 0 <= i < |path| && NoRoomAt(t, path, i) { assert i > 0 && NoRoomAt(s, rest, i - 1); }
    }
  }

  lemma {:induction false} FoundName(kids: seq<Kid>, n: Name)
    ensures Find(kids, n).Some? <==> n in Names(kids)
  {
    var k := IndexOf(Names(kids), n);
    if k >= 0 { assert Names(kids)[k] == n; }
  }

  lemma {:induction false} EmptyPut(path: seq<Name>, b: Bytes)
    requires path != []
    ensures Put(Dir([]), path, b).Done?
  {
    if |path| > 1 { EmptyPut(path[1..], b); }
  }

  /** When a put fails: something stands in the way, or else a directory has no room. */
  lemma {:induction false} PutIff(t: Tree, path: seq<Name>, b: Bytes)
    requires t.Dir? && path != []
    ensures Put(t, path, b) == Blocked <==> InTheWay(t, path)
    ensures Put(t, path, b) == Full <==> !InTheWay(t, path) && Crowded(t, path)
    decreases |path|
  {
    hide InTheWay, Crowded, Names, IndexOf;
    FoundName(t.kids, path[0]);
    if |path| == 1 {
      OneLeft(t, path);
    } else {
      match Find(t.kids, path[0])
      case None =>
        NothingBelow(t, path);
        EmptyPut(path[1..], b);
        AtStart(t, path);
      case Some(s) =>
        DirBelow(t, path, s);
        if s.Dir? { PutIff(s, path[1..], b); }
    }
  }

  lemma {:induction false} OneLeft(t: Tree, path: seq<Name>)
    requires t.Dir? && |path| == 1
    ensures InTheWay(t, path) <==> Find(t.kids, path[0]).Some? && Find(t.kids, path[0]).value.Dir?
    ensures Crowded(t, path) <==> |t.kids| >= MNODE_MAXENT && path[0] !in Names(t.kids)
  {
    hide Find;
    AtFirst(t, path, 1);
    AtStart(t, path);
    if Find(t.kids, path[0]).Some? { AtStart(Find(t.kids, path[0]).value, path[1..]); }
    assert path[..1] == path;
    if |t.kids| >= MNODE_MAXENT && path[0] !in Names(t.kids) { assert NoRoomAt(t, path, 0); }
  }

  // ---------------------------------------------------------------- get after put

  lemma {:induction false} InsertNames(kids: seq<Kid>, p: nat, k: Kid)
    requires p <= |kids|
    ensures Names(InsertAt(kids, p, k)) == InsertAt(Names(kids), p, k.name)
  {
  }

  /** One kid set, all others kept. */
  predicate OneSet(kids: seq<Kid>, kids': seq<Kid>, n: Name, sub: Tree) {
    && (exists i :: 0 <= i < |kids'| && kids'[i] == Kid(n, sub))
    && (forall i :: 0 <= i < |kids'| ==> kids'[i] == Kid(n, sub) || (kids'[i] in kids && kids'[i].name != n))
    && (forall i :: 0 <= i < |kids| && kids[i].name != n ==> kids[i] in kids')
  }

  lemma {:induction false} Replaced(kids: seq<Kid>, n: Name, sub: Tree, k: nat)
    requires KidsOk(kids) && k < |kids| && kids[k].name == n
    ensures KidsOk(kids[k := Kid(n, sub)]) && OneSet(kids, kids[k := Kid(n, sub)], n, sub)
  {
    var kids' := kids[k := Kid(n, sub)];
    assert Names(kids') == Names(kids);
    assert kids'[k] == Kid(n, sub);
    forall i | 0 <= i < |kids| && i != k ensures kids[i].name != n && kids'[i] == kids[i] {
      LessIrrefl(n);
      assert Names(kids)[i] == kids[i].name && Names(kids)[k] == n;
    }
  }

  lemma {:induction false} Inserted(kids: seq<Kid>, n: Name, sub: Tree)
    requires KidsOk(kids) && NameOk(n) && n !in Names(kids) && |kids| < MNODE_MAXENT
    ensures var kids' := InsertAt(kids, Place(Names(kids), n), Kid(n, sub)); KidsOk(kids') && OneSet(kids, kids', n, sub)
  {
    hide Less, Ascending, InsertAt;
    var p := Place(Names(kids), n);
    InsertNames(kids, p, Kid(n, sub));
    InsertAscends(Names(kids), n);
    InsertMembers(kids, p, Kid(n, sub));
    forall i | 0 <= i < |kids| ensures kids[i].name != n { assert Names(kids)[i] == kids[i].name; }
    var kids' := InsertAt(kids, p, Kid(n, sub));
    assert Kid(n, sub) in kids';
    forall i | 0 <= i < |kids'| ensures kids'[i] == Kid(n, sub) || (kids'[i] in kids && kids'[i].name != n) {
      assert kids'[i] in kids';
    }
  }

  lemma {:induction false} InsertMembers<T>(s: seq<T>, p: nat, x: T)
    requires p <= |s|
    ensures |InsertAt(s, p, x)| == |s| + 1
    ensures forall y :: y in InsertAt(s, p, x) <==> y == x || y in s
  {
    assert s == s[..p] + s[p..];
  }

  lemma {:induction false} SetKidSets(kids: seq<Kid>, n: Name, sub: Tree)
    requires KidsOk(kids) && NameOk(n) && SetKid(kids, n, sub).Done?
    ensures var kids' := SetKid(kids, n, sub).tree.kids; KidsOk(kids') && OneSet(kids, kids', n, sub)
  {
    hide KidsOk, OneSet;
    var k := IndexOf(Names(kids), n);
    if k >= 0 { Replaced(kids, n, sub, k); } else { Inserted(kids, n, sub); }
  }

  /** What SetKid leaves under each name. */
  lemma {:induction false} SetKidFinds(kids: seq<Kid>, n: Name, sub: Tree, m: Name)
    requires KidsOk(kids) && NameOk(n) && SetKid(kids, n, sub).Done?
    ensures Find(SetKid(kids, n, sub).tree.kids, m) == if m == n then Some(sub) else Find(kids, m)
  {
    hide SetKid, Find, Less;
    var kids' := SetKid(kids, n, sub).tree.kids;
    SetKidSets(kids, n, sub);
    FindAscending(kids, m);
    FindAscending(kids', m);
    FindNone(kids, m);
    FindNone(kids', m);
    assert forall i :: 0 <= i < |kids| && kids[i].name != n ==> kids[i] in kids';
    if i :| 0 <= i < |kids'| && kids'[i].name == m {
    } else {
      assert m != n && forall k :: k in kids' ==> k.name != m;
    }
  }

  lemma {:induction false} FindNone(kids: seq<Kid>, n: Name)
    ensures (forall i :: 0 <= i < |kids| ==> kids[i].name != n) ==> Find(kids, n) == None
  {
  }

  /** The subtree of a name. */
  function Find(kids: seq<Kid>, n: Name): Option<Tree> {
    var k := IndexOf(Names(kids), n);
    if k < 0 then None else Some(kids[k].sub)
  }

  lemma {:induction false} FindAscending(kids: seq<Kid>, n: Name)
    requires Ascending(Names(kids))
    ensures forall i :: 0 <= i < |kids| && kids[i].name == n ==> Find(kids, n) == Some(kids[i].sub)
  {
    var k := IndexOf(Names(kids), n);
    forall i | 0 <= i < |kids| && kids[i].name == n ensures k == i {
      assert Names(kids)[i] == n;
      LessIrrefl(n);
    }
  }

  lemma {:induction false} LookupFind(t: Tree, q: seq<Name>)
    requires t.Dir? && q != []
    ensures Lookup(t, q)
         == match Find(t.kids, q[0])
            case None => None
            case Some(s) => if |q| == 1 then (match s case File(b) => Some(b) case Dir(_) => None) else Lookup(s, q[1..])
  {
  }

  predicate PathNamesOk(path: seq<Name>) { path != [] && forall i :: 0 <= i < |path| ==> NameOk(path[i]) }

  lemma {:induction false} SetKidOk(kids: seq<Kid>, n: Name, sub: Tree)
    requires KidsOk(kids) && (forall i :: 0 <= i < |kids| ==> TreeOk(kids[i].sub)) && NameOk(n) && TreeOk(sub)
    requires SetKid(kids, n, sub).Done?
    ensures TreeOk(SetKid(kids, n, sub).tree)
  {
    hide SetKid, KidsOk, NameOk, Find;
    SetKidSets(kids, n, sub);
  }

  /** A put changes the lookup of its own path and of no other, and keeps the tree
      well-formed. */
  lemma {:induction false} PutLooks(t: Tree, path: seq<Name>, b: Bytes, q: seq<Name>)
    requires RootOk(t) && PathNamesOk(path) && |b| <= BLOCK_MAX && Put(t, path, b).Done?
    ensures TreeOk(Put(t, path, b).tree)
    ensures Lookup(Put(t, path, b).tree, q) == if q == path then Some(b) else Lookup(t, q)
    decreases |path|
  {
    hide SetKid, KidsOk, Find, NameOk, Lookup;
    var t' := Put(t, path, b).tree;
    var n := path[0];
    if |path| == 1 {
      SetKidOk2(t, n, File(b));
      LookupSet(t, t', n, File(b), q);
      assert path == [n];
      if |q| > 1 && q[0] == n {
        LookupFind(t, q);
        NoneInFile(File(b), q[1..]);
        if Find(t.kids, n).Some? { NoneInFile(Find(t.kids, n).value, q[1..]); }
      }
    } else {
      BelowOk(t, n);
      var s := Below(t, n).value;
      var s' := Put(s, path[1..], b).tree;
      PutLooks(s, path[1..], b, if q == [] then [] else q[1..]);
      SetKidOk2(t, n, s');
      LookupSet(t, t', n, s', q);
      if q != [] { assert q == [q[0]] + q[1..]; }
      assert path == [n] + path[1..];
      LookupBelow(t, n, s, q);
      LookupNone(s);
    }
  }

  lemma {:induction false} SetKidOk2(t: Tree, n: Name, sub: Tree)
    requires RootOk(t) && NameOk(n) && TreeOk(sub) && SetKid(t.kids, n, sub).Done?
    ensures TreeOk(SetKid(t.kids, n, sub).tree)
  {
    if t == Dir([]) { assert KidsOk([]); }
    SetKidOk(t.kids, n, sub);
  }

  lemma {:induction false} BelowOk(t: Tree, n: Name)
    requires RootOk(t) && Below(t, n).Some?
    ensures RootOk(Below(t, n).value)
  {
  }

  lemma {:induction false} LookupBelow(t: Tree, n: Name, s: Tree, q: seq<Name>)
    requires t.Dir? && Below(t, n) == Some(s)
    ensures q != [] && q[0] == n ==> Lookup(t, q) == Lookup(s, q[1..])
  {
    if q != [] && q[0] == n { LookupFind(t, q); }
  }

  /** Lookups after SetKid, one level down. */
  lemma {:induction false} LookupSet(t: Tree, t': Tree, n: Name, sub: Tree, q: seq<Name>)
    requires RootOk(t) && NameOk(n) && SetKid(t.kids, n, sub) == Done(t')
    ensures Lookup(t', q) ==
      if q == [] || q[0] != n then Lookup(t, q)
      else if |q| == 1 then (match sub case File(b) => Some(b) case Dir(_) => None)
      else Lookup(sub, q[1..])
  {
    hide SetKid, KidsOk, Find, NameOk, Lookup;
    if q == [] {
      LookupNone(t);
      LookupNone(t');
    } else {
      if t == Dir([]) { EmptyKids(); }
      SetKidFinds(t.kids, n, sub, q[0]);
      LookupFind(t, q);
      LookupFind(t', q);
    }
  }

  lemma {:induction false} EmptyKids()
    ensures KidsOk([])
  {
  }

  lemma {:induction false} NoneInFile(t: Tree, q: seq<Name>)
    requires t.File?
    ensures Lookup(t, q) == None
  {
  }

  lemma {:induction false} LookupNone(t: Tree)
    ensures Lookup(t, []) == None
  {
  }

  // ---------------------------------------------------------------- lookups determine the tree

  /** Below every name of a well-formed directory there is a file. */
  lemma {:induction false} SomeFile(t: Tree, i: nat) returns (q: seq<Name>)
    requires t.Dir? && TreeOk(t) && i < |t.kids|
    ensures q != [] && q[0] == t.kids[i].name && Lookup(t, q).Some?
    decreases t
  {
    hide KidsOk;
    var k := t.kids[i];
    assert Find(t.kids, k.name) == Some(k.sub) by { KidFound(t.kids, i); }
    if k.sub.File? {
      q := [k.name];
      LookupFind(t, q);
    } else {
      var r := SomeFile(k.sub, 0);
      q := [k.name] + r;
      assert q[1..] == r;
      LookupFind(t, q);
    }
  }

  lemma {:induction false} KidFound(kids: seq<Kid>, i: nat)
    requires KidsOk(kids) && i < |kids|
    ensures Find(kids, kids[i].name) == Some(kids[i].sub)
  {
    FindAscending(kids, kids[i].name);
  }

  ghost predicate SameLookups(a: Tree, b: Tree) { forall q :: Lookup(a, q) == Lookup(b, q) }

  lemma {:induction false} SameNames(a: Tree, b: Tree, i: nat)
    requires a.Dir? && b.Dir? && TreeOk(a) && SameLookups(a, b) && i < |a.kids|
    ensures a.kids[i].name in Names(b.kids)
  {
    var q := SomeFile(a, i);
    assert Lookup(b, q).Some?;
    LookupFind(b, q);
  }

  /** Two directories with the same lookups are the same tree. */
  lemma {:induction false} SameTree(a: Tree, b: Tree)
    requires a.Dir? && b.Dir? && TreeOk(a) && TreeOk(b) && SameLookups(a, b)
    ensures a == b
    decreases a
  {
    hide Lookup, Find;
    var na, nb := Names(a.kids), Names(b.kids);
    forall n ensures n in na <==> n in nb {
      if n in na {
        var i :| 0 <= i < |na| && na[i] == n;
        SameNames(a, b, i);
      }
      if n in nb {
        var i :| 0 <= i < |nb| && nb[i] == n;
        SameNames(b, a, i);
      }
    }
    AscendingUnique(na, nb);
    assert |a.kids| == |na| == |b.kids|;
    forall i | 0 <= i < |a.kids| ensures a.kids[i] == b.kids[i] {
      assert na[i] == nb[i];
      SameKid(a, b, i);
      if a.kids[i].sub.Dir? { SameTree(a.kids[i].sub, b.kids[i].sub); }
    }
  }

  lemma {:induction false} SameKid(a: Tree, b: Tree, i: nat)
    requires a.Dir? && b.Dir? && TreeOk(a) && TreeOk(b) && SameLookups(a, b) && i < |a.kids| && i < |b.kids| && a.kids[i].name == b.kids[i].name
    ensures var x, y := a.kids[i].sub, b.kids[i].sub;
            if x.File? then y == x else y.Dir? && SameLookups(x, y)
  {
    hide KidsOk, Find, Lookup;
    var n := a.kids[i].name;
    var x, y := a.kids[i].sub, b.kids[i].sub;
    KidFound(a.kids, i);
    KidFound(b.kids, i);
    LookupFind(a, [n]);
    LookupFind(b, [n]);
    assert Lookup(a, [n]) == Lookup(b, [n]);
    forall q ensures Lookup(x, q) == Lookup(y, q) {
      if q == [] {
        LookupNone(x);
        LookupNone(y);
      } else {
        var p := [n] + q;
        assert p[1..] == q;
        LookupFind(a, p);
        LookupFind(b, p);
        assert Lookup(a, p) == Lookup(b, p);
      }
    }
  }
}
