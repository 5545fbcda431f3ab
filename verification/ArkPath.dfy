/** Absolute and relative paths of the directory tree and their components. */
module ArkPath {
  import opened Wrappers
  import opened ArkFormat
  import opened ArkLibrary
  import opened ArkTree
  import opened ArkMerkle
  import opened ArkHistory
  import opened Ark

  const SLASH: Unit := B(47)

  /** The first slash at or after i, or the end. */
  function CompEnd(s: Bytes, i: nat): (j: nat)
    requires i <= |s|
    ensures i <= j <= |s| && (j < |s| ==> s[j] == SLASH) && forall k :: i <= k < j ==> s[k] != SLASH
    decreases |s| - i
  {
    if i == |s| || s[i] == SLASH then i else CompEnd(s, i + 1)
  }

  /** The components from i on; one trailing slash adds nothing. */
  function Comps(s: Bytes, i: nat): seq<Name>
    requires i <= |s|
    decreases |s| - i
  {
    if i == |s| then []
    else var j := CompEnd(s, i); [s[i..j]] + if j < |s| then Comps(s, j + 1) else []
  }

  predicate CompsOk(cs: seq<Name>) {
    0 < |cs| <= MTREE_MAXDEPTH && forall k :: 0 <= k < |cs| ==> 0 < |cs[k]| < MENT_NAME
  }

  function Lead(s: Bytes): nat { if s != [] && s[0] == SLASH then 1 else 0 }

  function Split(path: Bytes): Result<seq<Name>> {
    var cs := Comps(path, Lead(path));
    if CompsOk(cs) then Got(cs) else Err(INVAL)
  }

  /** The inner loop of mpath_split: one component, if it fits. */
  method Component(path: Bytes, from: nat) returns (ok: bool, i: nat)
    requires from < |path|
    ensures ok ==> i == CompEnd(path, from)
    ensures ok == (0 < CompEnd(path, from) - from < MENT_NAME)
  {
    i := from;
    ghost var end := CompEnd(path, from);
    while i < |path| && path[i] != SLASH
      invariant from <= i <= end && CompEnd(path, i) == end && i - from < MENT_NAME
    {
      if i - from + 1 >= MENT_NAME { return false, i; }
      i := i + 1;
    }
    ok := i != from;
  }

  /** mpath_split. */
  method SplitPath(path: Bytes) returns (r: Result<seq<Name>>)
    ensures r == Split(path)
  {
    hide Comps, CompEnd;
    var i := Lead(path);
    var comp: seq<Name> := [];
    ghost var all := Comps(path, i);
    while i < |path|
      invariant i <= |path| && all == comp + Comps(path, i)
      invariant comp == [] || CompsOk(comp)
      decreases |path| - i
    {
      CompsStep(path, i);
      if |comp| >= MTREE_MAXDEPTH { return Err(INVAL); }
      var ok, j := Component(path, i);
      assert all[|comp|] == path[i..CompEnd(path, i)];
      if !ok { return Err(INVAL); }
      comp := comp + [path[i..j]];
      CompsDone(path);
      i := if j < |path| then j + 1 else j;
    }
    CompsDone(path);
    assert all == comp;
    r := if comp == [] then Err(INVAL) else Got(comp);
  }

  function Join(cs: seq<Name>): Bytes {
    if cs == [] then [] else if |cs| == 1 then cs[0] else cs[0] + [SLASH] + Join(cs[1..])
  }

  predicate Slashes(s: Bytes) { s == [] || s == [SLASH] }

  lemma {:induction false} CompEndIs(s: Bytes, i: nat, j: nat)
    requires i <= j <= |s| && (j < |s| ==> s[j] == SLASH) && forall k :: i <= k < j ==> s[k] != SLASH
    ensures CompEnd(s, i) == j
  {
  }

  predicate NoSlash(n: Name) { n != [] && SLASH !in n }

  lemma {:induction false} CutAt(s: Bytes, i: nat, head: Bytes, rest: Bytes)
    requires i <= |s| && s[i..] == head + rest
    ensures i + |head| <= |s| && s[i..i + |head|] == head && s[i + |head|..] == rest
    ensures rest != [] ==> i + |head| < |s| && s[i + |head|] == rest[0] && s[i + |head| + 1..] == rest[1..]
  {
    var t := s[i..];
    assert t[..|head|] == head && t[|head|..] == rest;
  }

  lemma {:induction false} CompsFirst(s: Bytes, i: nat, head: Name)
    requires i < |s| && i + |head| <= |s| && s[i..i + |head|] == head && NoSlash(head) && (i + |head| < |s| ==> s[i + |head|] == SLASH)
    ensures Comps(s, i) == [head] + if i + |head| < |s| then Comps(s, i + |head| + 1) else []
  {
    hide Comps, CompEnd;
    forall k | i <= k < i + |head| ensures s[k] != SLASH { assert s[k] == s[i..i + |head|][k - i] == head[k - i]; assert head[k - i] in head; }
    CompEndIs(s, i, i + |head|);
    CompsStep(s, i);
  }

  lemma {:induction false} JoinParts(cs: seq<Name>, tail: Bytes)
    requires cs != []
    ensures Join(cs) + tail == cs[0] + if |cs| == 1 then tail else [SLASH] + (Join(cs[1..]) + tail)
  {
  }

  lemma {:induction false} CompsOfJoin(s: Bytes, i: nat, cs: seq<Name>, tail: Bytes)
    requires cs != [] && Slashes(tail) && (forall k :: 0 <= k < |cs| ==> NoSlash(cs[k]))
    requires i <= |s| && s[i..] == Join(cs) + tail
    ensures Comps(s, i) == cs
    decreases |cs|
  {
    hide Comps, NoSlash, CompEnd, Join;
    var rest := if |cs| == 1 then tail else [SLASH] + (Join(cs[1..]) + tail);
    JoinParts(cs, tail);
    CutAt(s, i, cs[0], rest);
    SlashFree(cs[0]);
    CompsFirst(s, i, cs[0]);
    assert cs == [cs[0]] + cs[1..];
    if |cs| > 1 {
      assert rest[1..] == Join(cs[1..]) + tail;
      CompsOfJoin(s, i + |cs[0]| + 1, cs[1..], tail);
    } else if tail != [] {
      CompsDone(s);
    }
  }

  lemma {:induction false} SlashFree(n: Name)
    requires NoSlash(n)
    ensures n != []
  {
  }

  lemma {:induction false} CompsDone(s: Bytes)
    ensures Comps(s, |s|) == []
  {
  }

  lemma {:induction false} CompsStep(s: Bytes, i: nat)
    requires i < |s|
    ensures var j := CompEnd(s, i); Comps(s, i) == [s[i..j]] + if j < |s| then Comps(s, j + 1) else []
  {
  }

  lemma {:induction false} CompsJoin(s: Bytes, i: nat) returns (tail: Bytes)
    requires i < |s| && forall k :: 0 <= k < |Comps(s, i)| ==> Comps(s, i)[k] != []
    ensures Slashes(tail) && Comps(s, i) != [] && s[i..] == Join(Comps(s, i)) + tail
    decreases |s| - i
  {
    hide Comps, CompEnd;
    var j := CompEnd(s, i);
    var cs := Comps(s, i);
    CompsStep(s, i);
    if j == |s| {
      tail := [];
    } else if j + 1 == |s| {
      tail := [SLASH];
      CompsDone(s);
    } else {
      var more := Comps(s, j + 1);
      assert cs[1..] == more;
      forall k | 0 <= k < |more| ensures more[k] != [] { assert cs[k + 1] == more[k]; }
      tail := CompsJoin(s, j + 1);
      calc {
        s[i..];
      == s[i..j] + [SLASH] + s[j + 1..];
      == s[i..j] + [SLASH] + (Join(more) + tail);
      == (s[i..j] + [SLASH] + Join(more)) + tail;
      }
    }
  }

  lemma {:induction false} SplitSpelled(path: Bytes, cs: seq<Name>)
    requires Split(path) == Got(cs)
    ensures exists a, b :: Slashes(a) && Slashes(b) && path == a + Join(cs) + b
  {
    hide Comps, Join;
    var i := Lead(path);
    CompsDone(path);
    var b := CompsJoin(path, i);
    var a := path[..i];
    assert Slashes(a) && Slashes(b);
    calc {
      path;
    == a + path[i..];
    == a + (Join(cs) + b);
    == a + Join(cs) + b;
    }
  }

  lemma {:induction false} SpelledSplit(a: Bytes, b: Bytes, cs: seq<Name>)
    requires CompsOk(cs) && Slashes(a) && Slashes(b) && forall k :: 0 <= k < |cs| ==> NoSlash(cs[k])
    ensures Split(a + Join(cs) + b) == Got(cs)
  {
    hide Comps, Join, NoSlash;
    var path := a + Join(cs) + b;
    JoinStarts(cs);
    assert a == [] ==> path[0] == Join(cs)[0];
    assert path[|a|..] == Join(cs) + b;
    CompsOfJoin(path, |a|, cs, b);
  }

  /** The components name the path: every spelling, with or without a leading and one
      trailing slash, splits into them, and nothing else does. */
  lemma {:induction false} SplitExact(path: Bytes, cs: seq<Name>)
    requires CompsOk(cs) && forall k :: 0 <= k < |cs| ==> NoSlash(cs[k])
    ensures Split(path) == Got(cs) <==> exists a, b :: Slashes(a) && Slashes(b) && path == a + Join(cs) + b
  {
    hide Split, Join, CompsOk, NoSlash;
    if Split(path) == Got(cs) { SplitSpelled(path, cs); }
    if a, b :| Slashes(a) && Slashes(b) && path == a + Join(cs) + b { SpelledSplit(a, b, cs); }
  }

  lemma {:induction false} JoinStarts(cs: seq<Name>)
    requires cs != [] && NoSlash(cs[0])
    ensures Join(cs) != [] && Join(cs)[0] == cs[0][0] != SLASH
  {
    assert cs[0][0] in cs[0];
  }

  // ---------------------------------------------------------------- put and get by path

  lemma {:induction false} CompsNames(s: Bytes, i: nat)
    requires CString(s) && i <= |s|
    ensures forall k :: 0 <= k < |Comps(s, i)| ==> Inner(Comps(s, i)[k])
    decreases |s| - i
  {
    hide CompEnd;
    if i < |s| {
      var j := CompEnd(s, i);
      forall k | 0 <= k < j - i ensures s[i..j][k].B? && 0 < s[i..j][k].v < 256 && s[i..j][k].v != 47 { assert s[i..j][k] == s[i + k]; }
      if j < |s| { CompsNames(s, j + 1); }
    }
  }

  /** The bytes of a component: no NUL, no slash. */
  predicate Inner(n: Name) { forall i :: 0 <= i < |n| ==> n[i].B? && 0 < n[i].v < 256 && n[i].v != 47 }

  /** Whatever C string mpath_split accepts, its components are names of the tree. */
  lemma {:induction false} SplitNames(path: Bytes, cs: seq<Name>)
    requires CString(path) && Split(path) == Got(cs)
    ensures PathNamesOk(cs) && forall k :: 0 <= k < |cs| ==> NoSlash(cs[k])
  {
    hide Comps;
    CompsNames(path, Lead(path));
    forall k | 0 <= k < |cs| ensures NameOk(cs[k]) && NoSlash(cs[k]) { assert Inner(cs[k]); }
  }

  /** ark_mtree_put on a path string. */
  method PutPath(v: Volume, c: Codec, path: Bytes, buf: Bytes, ghost t: Tree) returns (rc: Status, ghost t': Tree)
    requires v.Valid() && NodeOk(v.f, c) && TreeIn(v.f, c, v.Current(), t) && CString(path)
    requires Split(path).Got? && |buf| <= BLOCK_MAX ==> TreeQuiet(v.f, c, v.epoch, v.sq, v.live, t, Split(path).value, buf)
    modifies v
    ensures v.Valid() && v.live == old(v.live) && TreeIn(v.f, c, v.Current(), t')
    ensures rc == TOOBIG <==> |buf| > BLOCK_MAX
    ensures |buf| <= BLOCK_MAX && Split(path).Err? ==> rc == INVAL
    ensures rc == OK ==> Split(path).Got? && Put(t, Split(path).value, buf) == Done(t') && v.Durable() == v.Current()
    ensures rc != OK ==> v.Durable() == old(v.Durable())
    ensures t' == t || (Split(path).Got? && Put(t, Split(path).value, buf) == Done(t'))
  {
    hide VolOk, NodeOk, TreeIn, LibWith, TreeQuiet, Between, PathNamesOk, Comps;
    t' := t;
    TreeRoot(v.f, c, v.Current(), t);
    if |buf| > BLOCK_MAX { return TOOBIG, t; }
    var comp := SplitPath(path);
    match comp {
      case Err(status) => return status, t;
      case Got(_) =>
    }
    SplitNames(path, comp.value);
    rc, t' := v.MtreePut(c, comp.value, buf, t);
  }

  lemma {:induction false} TreeRoot(f: Format, c: Codec, lib: Library, t: Tree)
    requires TreeIn(f, c, lib, t)
    ensures t.Dir?
  {
  }

  function Answer(found: Option<Bytes>): Result<Bytes> { if found.Some? then Got(found.value) else Err(NOTFOUND) }

  /** ark_mtree_get on a path string. */
  method GetPath(v: Volume, c: Codec, path: Bytes, ghost t: Tree) returns (r: Result<Bytes>)
    requires v.Valid() && NodeOk(v.f, c) && TreeIn(v.f, c, v.Current(), t)
    ensures Split(path).Err? ==> r == Err(INVAL)
    ensures Split(path).Got? ==> r == Answer(Lookup(t, Split(path).value))
  {
    hide VolOk, NodeOk, TreeIn, Comps, Lookup;
    var comp := SplitPath(path);
    match comp {
      case Err(status) => return Err(status);
      case Got(_) =>
    }
    r := v.MtreeGet(c, comp.value, t);
  }

  /** Put on one spelling, get on another: the new bytes exactly if both spell the same path,
      otherwise what was there before. */
  lemma {:induction false} PutThenGet(t: Tree, p: Bytes, q: Bytes, cs: seq<Name>, ds: seq<Name>, buf: Bytes, t': Tree)
    requires CString(p) && CString(q) && Split(p) == Got(cs) && Split(q) == Got(ds)
    requires RootOk(t) && t.Dir? && |buf| <= BLOCK_MAX && Put(t, cs, buf) == Done(t')
    ensures Lookup(t', ds) == if cs == ds then Some(buf) else Lookup(t, ds)
    ensures cs == ds <==> exists a, b :: Slashes(a) && Slashes(b) && q == a + Join(cs) + b
  {
    hide Comps, Join, Lookup, Put, RootOk, PathNamesOk;
    SplitNames(p, cs);
    SplitNames(q, ds);
    PutLooks(t, cs, buf, ds);
    SplitExact(q, cs);
  }
}
