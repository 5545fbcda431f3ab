/** mtree_collect of arkfs.c: the walk over the directory tree with which ark_compact makes
    sure, before it writes anything, that every block of the tree still reads. */
module ArkSweep {
  import opened Wrappers
  import opened ArkFormat
  import opened ArkLog
  import opened ArkCrash
  import opened ArkLibrary
  import opened ArkCompaction
  import opened ArkLimits
  import opened ArkTree
  import opened ArkMerkle

  // ARK_MAX_FILES * ARK_MAX_BLK + 1024
  const COMPACT_MAX: nat := 1536

  /** d is t or lies below it. */
  ghost predicate Within(t: Tree, d: Tree) {
    d == t || (t.Dir? && exists i :: 0 <= i < |t.kids| && Within(t.kids[i].sub, d))
  }

  /** The block of every file and of every directory of the tree reads. */
  ghost predicate Intact(f: Format, c: Codec, m: Media, e: nat, idx: map<Id, nat>, t: Tree) {
    forall d :: Within(t, d) && d != Dir([]) ==> BlockGet(f, m, e, idx, NodeId(f, c, d)).Got?
  }

  /** The tree stands for the root, and what reads through the index is genuine. */
  ghost predicate Stands(f: Format, c: Codec, m: Media, e: nat, idx: map<Id, nat>, root: Id, t: Tree) {
    && FormatOk(f) && NodeOk(f, c) && RootOk(t) && NodeId(f, c, t) == root
    && forall id :: BlockGet(f, m, e, idx, id).Got? ==> f.sha(BlockGet(f, m, e, idx, id).value) == id
  }

  lemma {:induction false} WithinTrans(t: Tree, s: Tree, d: Tree)
    requires Within(t, s) && Within(s, d)
    ensures Within(t, d)
    decreases t
  {
    if s != t {
      var i :| 0 <= i < |t.kids| && Within(t.kids[i].sub, s);
      WithinTrans(t.kids[i].sub, s, d);
    }
  }

  lemma {:induction false} KidWithin(t: Tree, s: Tree, i: nat)
    requires Within(t, s) && s.Dir? && i < |s.kids|
    ensures Within(t, s.kids[i].sub)
  {
    assert Within(s.kids[i].sub, s.kids[i].sub);
    WithinTrans(t, s, s.kids[i].sub);
  }

  lemma {:induction false} WithinOk(t: Tree, d: Tree)
    requires RootOk(t) && Within(t, d) && d != t
    ensures TreeOk(d)
    decreases t
  {
    hide KidsOk;
    var i :| 0 <= i < |t.kids| && Within(t.kids[i].sub, d);
    KidOk(t, i);
    if t.kids[i].sub != d { WithinOk(t.kids[i].sub, d); }
  }

  lemma {:induction false} KidOk(t: Tree, i: nat)
    requires RootOk(t) && i < |t.kids|
    ensures TreeOk(t.kids[i].sub) && (t.kids[i].sub.Dir? ==> RootOk(t.kids[i].sub))
  {
  }

  /** A directory of the tree whose block reads loads as its entries. */
  lemma {:induction false} LoadsTrue(f: Format, c: Codec, m: Media, e: nat, idx: map<Id, nat>, root: Id, t: Tree, s: Tree)
    requires Stands(f, c, m, e, idx, root, t) && Within(t, s) && s.Dir? && s != Dir([])
    ensures BlockGet(f, m, e, idx, NodeId(f, c, s)).Got? <==> Load(f, c, m, e, idx, NodeId(f, c, s)).Got?
    ensures Load(f, c, m, e, idx, NodeId(f, c, s)).Got? ==> Load(f, c, m, e, idx, NodeId(f, c, s)) == Got(Ments(f, c, s.kids))
  {
    hide BlockGet, KidsOk, MentOk, Format.Sound;
    var id := NodeId(f, c, s);
    if BlockGet(f, m, e, idx, id).Got? {
      if s != t { WithinOk(t, s); }
      assert RootOk(s);
      MentsOk(f, c, s);
      var es := Ments(f, c, s.kids);
      assert c.dec(c.enc(es)) == Some(es);
    }
  }

  lemma {:induction false} FullDir(t: Tree)
    requires TreeOk(t)
    ensures t != Dir([])
  {
  }

  /** A subtree is never the whole tree. */
  lemma {:induction false} Smaller(t: Tree, s: Tree, i: nat)
    requires Within(t, s) && s.Dir? && i < |s.kids|
    ensures s.kids[i].sub != t
  {
    Size(t, s);
    KidSmaller(s, i);
  }

  ghost function Height(t: Tree): nat {
    if t.File? then 0 else KidsHeight(t.kids)
  }

  ghost function KidsHeight(kids: seq<Kid>): nat {
    if kids == [] then 1
    else
      var a, b := Height(kids[0].sub) + 1, KidsHeight(kids[1..]);
      if a > b then a else b
  }

  lemma {:induction false} KidHeight(kids: seq<Kid>, i: nat)
    requires i < |kids|
    ensures Height(kids[i].sub) < KidsHeight(kids)
  {
    if i > 0 { KidHeight(kids[1..], i - 1); }
  }

  lemma {:induction false} KidSmaller(s: Tree, i: nat)
    requires s.Dir? && i < |s.kids|
    ensures Height(s.kids[i].sub) < Height(s)
  {
    KidHeight(s.kids, i);
  }

  lemma {:induction false} Size(t: Tree, s: Tree)
    requires Within(t, s)
    ensures Height(s) <= Height(t)
    decreases t
  {
    if s != t {
      var i :| 0 <= i < |t.kids| && Within(t.kids[i].sub, s);
      Size(t.kids[i].sub, s);
      KidSmaller(t, i);
    }
  }

  // ---------------------------------------------------------------- the walk

  /** A verdict, the ids met, and the ids of the directories entered, in order. */
  datatype Walk = Walk(rc: Status, seen: set<Id>, queue: seq<Id>)

  /** seen_add and blk_foot on the entries of one node from entry i on; a directory is queued when
      its id is met for the first time. */
  function Enter(reads_: Id -> bool, es: seq<Ment>, i: nat, seen: set<Id>, queue: seq<Id>): (w: Walk)
    requires i <= |es| && |queue| <= COMPACT_MAX
    ensures seen <= w.seen && queue <= w.queue && |w.queue| <= COMPACT_MAX && (w.rc == OK || w.rc == FULL || w.rc == CORRUPT)
    decreases |es| - i
  {
    if i == |es| then Walk(OK, seen, queue)
    else
      var child := es[i].child;
      if child in seen then Enter(reads_, es, i + 1, seen, queue)
      else if |seen| >= COMPACT_MAX then Walk(FULL, seen, queue)
      else if !reads_(child) then Walk(CORRUPT, seen, queue)
      else if es[i].kind != MENT_DIR then Enter(reads_, es, i + 1, seen + {child}, queue)
      else if |queue| >= COMPACT_MAX then Walk(FULL, seen, queue)
      else Enter(reads_, es, i + 1, seen + {child}, queue + [child])
  }

  /** mtree_collect from queue position q on. */
  function Go(reads_: Id -> bool, node: Id -> Option<seq<Ment>>, seen: set<Id>, queue: seq<Id>, q: nat): (w: Walk)
    requires q <= |queue| <= COMPACT_MAX
    ensures seen <= w.seen && queue <= w.queue && |w.queue| <= COMPACT_MAX && (w.rc == OK || w.rc == FULL || w.rc == CORRUPT)
    decreases COMPACT_MAX - q
  {
    if q == |queue| then Walk(OK, seen, queue)
    else
      var id := queue[q];
      if id !in seen && |seen| >= COMPACT_MAX then Walk(FULL, seen, queue)
      else if id !in seen && !reads_(id) then Walk(CORRUPT, seen, queue)
      else
        match node(id)
        case None => Walk(CORRUPT, seen + {id}, queue)
        case Some(es) =>
          var w := Enter(reads_, es, 0, seen + {id}, queue);
          if w.rc != OK then w else Go(reads_, node, w.seen, w.queue, q + 1)
  }

  function ReadsOn(f: Format, m: Media, e: nat, idx: map<Id, nat>): Id -> bool { (id: Id) => BlockGet(f, m, e, idx, id).Got? }

  function NodesOn(f: Format, c: Codec, m: Media, e: nat, idx: map<Id, nat>): Id -> Option<seq<Ment>> {
    (id: Id) => if Load(f, c, m, e, idx, id).Got? then Some(Load(f, c, m, e, idx, id).value) else None
  }

  /** The walk on a medium. */
  function WalkTree(f: Format, c: Codec, m: Media, e: nat, idx: map<Id, nat>, root: Id, seen0: set<Id>): Walk {
    if root == f.zero then Walk(OK, seen0, []) else Go(ReadsOn(f, m, e, idx), NodesOn(f, c, m, e, idx), seen0, [root], 0)
  }

  /** seen_add and blk_foot on the children of one node, and the queue of its directories. */
  method SweepNode(f: Format, m: Media, e: nat, idx: map<Id, nat>, es: seq<Ment>, seen0: set<Id>, queue0: seq<Id>)
    returns (rc: Status, seen: set<Id>, queue: seq<Id>)
    requires |queue0| <= COMPACT_MAX
    ensures Walk(rc, seen, queue) == Enter(ReadsOn(f, m, e, idx), es, 0, seen0, queue0)
  {
    hide BlockGet;
    seen, queue := seen0, queue0;
    var i := 0;
    ghost var reads_ := ReadsOn(f, m, e, idx);
    while i < |es|
      invariant i <= |es| && |queue| <= COMPACT_MAX
      invariant Enter(reads_, es, 0, seen0, queue0) == Enter(reads_, es, i, seen, queue)
    {
      var child := es[i].child;
      if child !in seen {
        if |seen| >= COMPACT_MAX { return FULL, seen, queue; }
        if BlockGet(f, m, e, idx, child).Err? { return CORRUPT, seen, queue; }
        if es[i].kind == MENT_DIR {
          if |queue| >= COMPACT_MAX { return FULL, seen, queue; }
          queue := queue + [child];
        }
        seen := seen + {child};
      }
      i := i + 1;
    }
    rc := OK;
  }

  /** One turn of the walk. */
  lemma {:induction false} GoNext(reads_: Id -> bool, node: Id -> Option<seq<Ment>>, seen: set<Id>, queue: seq<Id>, q: nat)
    requires q <= |queue| <= COMPACT_MAX
    ensures q == |queue| ==> Go(reads_, node, seen, queue, q) == Walk(OK, seen, queue)
    ensures q < |queue| && queue[q] !in seen && |seen| >= COMPACT_MAX ==> Go(reads_, node, seen, queue, q) == Walk(FULL, seen, queue)
    ensures q < |queue| && queue[q] !in seen && |seen| < COMPACT_MAX && !reads_(queue[q]) ==> Go(reads_, node, seen, queue, q) == Walk(CORRUPT, seen, queue)
    ensures q < |queue| && (queue[q] in seen || (|seen| < COMPACT_MAX && reads_(queue[q]))) && node(queue[q]).None? ==>
              Go(reads_, node, seen, queue, q) == Walk(CORRUPT, seen + {queue[q]}, queue)
    ensures q < |queue| && (queue[q] in seen || (|seen| < COMPACT_MAX && reads_(queue[q]))) && node(queue[q]).Some? ==>
              var w := Enter(reads_, node(queue[q]).value, 0, seen + {queue[q]}, queue);
              Go(reads_, node, seen, queue, q) == if w.rc != OK then w else Go(reads_, node, w.seen, w.queue, q + 1)
  {
    hide Enter;
  }

  /** mtree_collect. */
  method SweepTree(f: Format, c: Codec, m: Media, e: nat, idx: map<Id, nat>, root: Id, seen0: set<Id>) returns (rc: Status, seen: set<Id>)
    ensures rc == WalkTree(f, c, m, e, idx, root, seen0).rc && seen == WalkTree(f, c, m, e, idx, root, seen0).seen
  {
    hide BlockGet, Load, Enter, Go;
    seen := seen0;
    if root == f.zero { return OK, seen; }
    var queue, q := [root], 0;
    ghost var reads_, node := ReadsOn(f, m, e, idx), NodesOn(f, c, m, e, idx);
    while q < |queue|
      invariant q <= |queue| <= COMPACT_MAX
      invariant Go(reads_, node, seen0, [root], 0) == Go(reads_, node, seen, queue, q)
      decreases COMPACT_MAX - q
    {
      var nid := queue[q];
      GoNext(reads_, node, seen, queue, q);
      if nid !in seen {
        if |seen| >= COMPACT_MAX { return FULL, seen; }
        if BlockGet(f, m, e, idx, nid).Err? { return CORRUPT, seen; }
      }
      var es := Load(f, c, m, e, idx, nid);
      seen := seen + {nid};
      if es.Err? { return CORRUPT, seen; }
      rc, seen, queue := SweepNode(f, m, e, idx, es.value, seen, queue);
      if rc != OK { return; }
      q := q + 1;
    }
    GoNext(reads_, node, seen, queue, q);
    rc := OK;
  }

  // ---------------------------------------------------------------- the same walk on the tree itself

  /** The entries of the directory of the tree with this id. */
  ghost function TreeNode(f: Format, c: Codec, t: Tree, id: Id): Option<seq<Ment>> {
    if d :| Within(t, d) && d.Dir? && d != Dir([]) && NodeId(f, c, d) == id then Some(Ments(f, c, d.kids)) else None
  }

  ghost function TreeNodes(f: Format, c: Codec, t: Tree): Id -> Option<seq<Ment>> { (id: Id) => TreeNode(f, c, t, id) }

  function Always(): Id -> bool { (id: Id) => true }

  /** Which ids the walk meets and which directories it enters if every block reads: a matter of
      the tree and of the ids met before alone. */
  ghost function Plan(f: Format, c: Codec, t: Tree, seen0: set<Id>): Walk {
    if t == Dir([]) then Walk(OK, seen0, []) else Go(Always(), TreeNodes(f, c, t), seen0, [NodeId(f, c, t)], 0)
  }

  ghost predicate AllRead(f: Format, m: Media, e: nat, idx: map<Id, nat>, ids: set<Id>) {
    forall id :: id in ids ==> BlockGet(f, m, e, idx, id).Got?
  }

  lemma {:induction false} EnterAgrees(f: Format, m: Media, e: nat, idx: map<Id, nat>, es: seq<Ment>, i: nat, seen: set<Id>, queue: seq<Id>)
    requires i <= |es| && |queue| <= COMPACT_MAX && AllRead(f, m, e, idx, seen)
    ensures var a, b := Enter(ReadsOn(f, m, e, idx), es, i, seen, queue), Enter(Always(), es, i, seen, queue);
            && (a.rc == OK <==> b.rc == OK && AllRead(f, m, e, idx, b.seen)) && (a.rc == OK ==> a == b)
            && (a.rc == FULL ==> b.rc == FULL) && b.rc != CORRUPT
            && (a.rc == CORRUPT ==> exists j :: i <= j < |es| && BlockGet(f, m, e, idx, es[j].child).Err?)
    decreases |es| - i
  {
    hide BlockGet;
    if i < |es| {
      var child := es[i].child;
      if child in seen {
        EnterAgrees(f, m, e, idx, es, i + 1, seen, queue);
      } else if |seen| < COMPACT_MAX {
        if BlockGet(f, m, e, idx, child).Got? {
          if es[i].kind != MENT_DIR {
            EnterAgrees(f, m, e, idx, es, i + 1, seen + {child}, queue);
          } else if |queue| < COMPACT_MAX {
            EnterAgrees(f, m, e, idx, es, i + 1, seen + {child}, queue + [child]);
          }
        } else {
          NeverCorrupt(es, i, seen, queue);
        }
      }
    }
  }

  lemma {:induction false} NeverCorrupt(es: seq<Ment>, i: nat, seen: set<Id>, queue: seq<Id>)
    requires i <= |es| && |queue| <= COMPACT_MAX
    ensures Enter(Always(), es, i, seen, queue).rc != CORRUPT
    ensures i < |es| && Enter(Always(), es, i, seen, queue).rc == OK ==> es[i].child in Enter(Always(), es, i, seen, queue).seen
    decreases |es| - i
  {
    if i < |es| {
      var child := es[i].child;
      if child in seen {
        NeverCorrupt(es, i + 1, seen, queue);
      } else if es[i].kind != MENT_DIR {
        NeverCorrupt(es, i + 1, seen + {child}, queue);
      } else if |queue| < COMPACT_MAX {
        NeverCorrupt(es, i + 1, seen + {child}, queue + [child]);
      }
    }
  }

  /** Ids in the queue belong to directories of the tree. */
  ghost predicate OfTree(f: Format, c: Codec, t: Tree, queue: seq<Id>) {
    forall id :: id in queue ==> TreeNode(f, c, t, id).Some?
  }

  /** One directory of the queue, as the tree has it. */
  lemma {:induction false} QueuedNode(f: Format, c: Codec, t: Tree, id: Id) returns (s: Tree)
    requires TreeNode(f, c, t, id).Some?
    ensures Within(t, s) && s.Dir? && s != Dir([]) && NodeId(f, c, s) == id && TreeNode(f, c, t, id) == Some(Ments(f, c, s.kids))
  {
    hide NodeId, Ments;
    s :| Within(t, s) && s.Dir? && s != Dir([]) && NodeId(f, c, s) == id && TreeNode(f, c, t, id) == Some(Ments(f, c, s.kids));
  }

  lemma {:induction false} IsQueued(f: Format, c: Codec, t: Tree, s: Tree)
    requires Within(t, s) && s.Dir? && s != Dir([])
    ensures TreeNode(f, c, t, NodeId(f, c, s)).Some?
  {
    hide NodeId, Ments;
  }

  /** An entry of a directory of the tree is a part of the tree. */
  lemma {:induction false} EntryIs(f: Format, c: Codec, t: Tree, s: Tree, i: nat)
    requires RootOk(t) && Within(t, s) && s.Dir? && i < |s.kids|
    ensures var en, kid := Ments(f, c, s.kids)[i], s.kids[i].sub;
            Within(t, kid) && kid != Dir([]) && en.child == NodeId(f, c, kid) && (en.kind == MENT_DIR <==> kid.Dir?)
  {
    hide NodeId, KidsOk;
    MentAt(f, c, s.kids, i);
    KidWithin(t, s, i);
    Smaller(t, s, i);
    WithinOk(t, s.kids[i].sub);
    FullDir(s.kids[i].sub);
  }

  lemma {:induction false} EnterOfTree(f: Format, c: Codec, t: Tree, s: Tree, reads_: Id -> bool, i: nat, seen: set<Id>, queue: seq<Id>)
    requires RootOk(t) && Within(t, s) && s.Dir? && i <= |s.kids| && |queue| <= COMPACT_MAX && OfTree(f, c, t, queue)
    ensures OfTree(f, c, t, Enter(reads_, Ments(f, c, s.kids), i, seen, queue).queue)
    decreases |s.kids| - i
  {
    hide NodeId, Ments, TreeNode, RootOk;
    if i < |s.kids| {
      var en := Ments(f, c, s.kids)[i];
      EntryIs(f, c, t, s, i);
      if en.child in seen {
        EnterOfTree(f, c, t, s, reads_, i + 1, seen, queue);
      } else if en.kind != MENT_DIR {
        EnterOfTree(f, c, t, s, reads_, i + 1, seen + {en.child}, queue);
      } else if |queue| < COMPACT_MAX {
        IsQueued(f, c, t, s.kids[i].sub);
        EnterOfTree(f, c, t, s, reads_, i + 1, seen + {en.child}, queue + [en.child]);
      }
    }
  }

  /** On a medium the walk follows the plan, as far as the blocks met read. */
  lemma {:induction false} GoAgrees(f: Format, c: Codec, m: Media, e: nat, idx: map<Id, nat>, t: Tree, seen: set<Id>, queue: seq<Id>, q: nat)
    requires Stands(f, c, m, e, idx, NodeId(f, c, t), t) && q <= |queue| <= COMPACT_MAX && AllRead(f, m, e, idx, seen) && OfTree(f, c, t, queue)
    ensures var a, b := Go(ReadsOn(f, m, e, idx), NodesOn(f, c, m, e, idx), seen, queue, q), Go(Always(), TreeNodes(f, c, t), seen, queue, q);
            && (a.rc == OK <==> b.rc == OK && AllRead(f, m, e, idx, b.seen)) && (a.rc == OK ==> a == b)
            && (a.rc == FULL ==> b.rc == FULL) && b.rc != CORRUPT
            && (a.rc == CORRUPT ==> !Intact(f, c, m, e, idx, t))
    decreases COMPACT_MAX - q
  {
    hide BlockGet, Load, Enter, Go, NodeId, TreeNode, NodeOk, FormatOk, TreeOk, Ments;
    var reads_, node := ReadsOn(f, m, e, idx), NodesOn(f, c, m, e, idx);
    GoNext(reads_, node, seen, queue, q);
    GoNext(Always(), TreeNodes(f, c, t), seen, queue, q);
    if q < |queue| {
      var id := queue[q];
      var s := QueuedNode(f, c, t, id);
      LoadsTrue(f, c, m, e, idx, NodeId(f, c, t), t, s);
      if id in seen || (|seen| < COMPACT_MAX && reads_(id)) {
        var es := Ments(f, c, s.kids);
        EnterAgrees(f, m, e, idx, es, 0, seen + {id}, queue);
        EnterOfTree(f, c, t, s, Always(), 0, seen + {id}, queue);
        var a, b := Enter(reads_, es, 0, seen + {id}, queue), Enter(Always(), es, 0, seen + {id}, queue);
        if a.rc == CORRUPT {
          var j :| 0 <= j < |es| && BlockGet(f, m, e, idx, es[j].child).Err?;
          EntryIs(f, c, t, s, j);
        }
        if a.rc == OK {
          GoAgrees(f, c, m, e, idx, t, a.seen, a.queue, q + 1);
        } else if b.rc == OK {
          PlanGoes(f, c, t, b.seen, b.queue, q + 1);
        }
      } else {
        assert |seen| < COMPACT_MAX ==> !Intact(f, c, m, e, idx, t);
        if |seen| < COMPACT_MAX { PlanNext(f, c, t, seen, queue, q); }
      }
    }
  }

  /** The plan never finds a block missing. */
  lemma {:induction false} PlanGoes(f: Format, c: Codec, t: Tree, seen: set<Id>, queue: seq<Id>, q: nat)
    requires RootOk(t) && q <= |queue| <= COMPACT_MAX && OfTree(f, c, t, queue)
    ensures Go(Always(), TreeNodes(f, c, t), seen, queue, q).rc != CORRUPT
    decreases COMPACT_MAX - q
  {
    hide Enter, Go, NodeId, TreeNode, TreeOk, Ments;
    GoNext(Always(), TreeNodes(f, c, t), seen, queue, q);
    if q < |queue| && (queue[q] in seen || |seen| < COMPACT_MAX) {
      var s := QueuedNode(f, c, t, queue[q]);
      var es := Ments(f, c, s.kids);
      NeverCorrupt(es, 0, seen + {queue[q]}, queue);
      EnterOfTree(f, c, t, s, Always(), 0, seen + {queue[q]}, queue);
      var b := Enter(Always(), es, 0, seen + {queue[q]}, queue);
      if b.rc == OK { PlanGoes(f, c, t, b.seen, b.queue, q + 1); }
    }
  }

  lemma {:induction false} PlanNext(f: Format, c: Codec, t: Tree, seen: set<Id>, queue: seq<Id>, q: nat)
    requires RootOk(t) && q < |queue| <= COMPACT_MAX && OfTree(f, c, t, queue) && |seen| < COMPACT_MAX
    ensures var b := Go(Always(), TreeNodes(f, c, t), seen, queue, q); b.rc != CORRUPT && queue[q] in b.seen
  {
    hide Enter, Go, NodeId, TreeNode, TreeOk, Ments;
    PlanGoes(f, c, t, seen, queue, q);
    GoNext(Always(), TreeNodes(f, c, t), seen, queue, q);
    var s := QueuedNode(f, c, t, queue[q]);
  }

  /** The verdict, exactly: OK if and only if the walk over the tree does not pass its caps and
      every block it meets reads; CORRUPT only if some block of the tree does not read. */
  lemma {:induction false} SweepOkIff(f: Format, c: Codec, m: Media, e: nat, idx: map<Id, nat>, t: Tree, seen0: set<Id>)
    requires Stands(f, c, m, e, idx, NodeId(f, c, t), t) && AllRead(f, m, e, idx, seen0)
    ensures var a, b := WalkTree(f, c, m, e, idx, NodeId(f, c, t), seen0), Plan(f, c, t, seen0);
            && (a.rc == OK <==> b.rc == OK && AllRead(f, m, e, idx, b.seen)) && (a.rc == OK ==> a == b)
            && (a.rc == FULL ==> b.rc == FULL)
            && (a.rc == CORRUPT ==> !Intact(f, c, m, e, idx, t))
  {
    hide BlockGet, Load, Go, TreeNode, NodeOk, FormatOk, TreeOk, Ments;
    if t != Dir([]) {
      NotZero(f, c, t);
      RootQueued(f, c, t);
      GoAgrees(f, c, m, e, idx, t, seen0, [NodeId(f, c, t)], 0);
    }
  }

  lemma {:induction false} NotZero(f: Format, c: Codec, t: Tree)
    requires NodeOk(f, c) && RootOk(t) && t != Dir([])
    ensures NodeId(f, c, t) != f.zero
  {
  }

  lemma {:induction false} RootQueued(f: Format, c: Codec, t: Tree)
    requires RootOk(t) && t != Dir([])
    ensures OfTree(f, c, t, [NodeId(f, c, t)])
  {
    hide NodeId, Ments, TreeNode, TreeOk;
    assert Within(t, t);
    IsQueued(f, c, t, t);
  }

  // ---------------------------------------------------------------- when OK means intact

  /** The walk met every block of the tree. */
  ghost predicate AllMet(f: Format, c: Codec, t: Tree, seen: set<Id>) {
    forall d :: Within(t, d) && d != Dir([]) ==> NodeId(f, c, d) in seen
  }

  /** Every directory was entered (its id was met first as the entry of a directory, and not
      among the blocks of the file table), or all its entries were met elsewhere. */
  ghost predicate Covered(f: Format, c: Codec, t: Tree, w: Walk) {
    forall d :: Within(t, d) && d.Dir? && d != Dir([]) ==>
      NodeId(f, c, d) in w.queue || forall i :: 0 <= i < |d.kids| ==> NodeId(f, c, d.kids[i].sub) in w.seen
  }

  lemma {:induction false} EnterCovers(reads_: Id -> bool, es: seq<Ment>, i: nat, seen: set<Id>, queue: seq<Id>)
    requires i <= |es| && |queue| <= COMPACT_MAX && Enter(reads_, es, i, seen, queue).rc == OK
    ensures forall j :: i <= j < |es| ==> es[j].child in Enter(reads_, es, i, seen, queue).seen
    decreases |es| - i
  {
    if i < |es| {
      var child := es[i].child;
      if child in seen {
        EnterCovers(reads_, es, i + 1, seen, queue);
      } else if es[i].kind != MENT_DIR {
        EnterCovers(reads_, es, i + 1, seen + {child}, queue);
      } else {
        EnterCovers(reads_, es, i + 1, seen + {child}, queue + [child]);
      }
    }
  }

  ghost predicate NodeMet(node: Id -> Option<seq<Ment>>, id: Id, seen: set<Id>) {
    id in seen && node(id).Some? && forall j :: 0 <= j < |node(id).value| ==> node(id).value[j].child in seen
  }

  lemma {:induction false} GoCovers(reads_: Id -> bool, node: Id -> Option<seq<Ment>>, seen: set<Id>, queue: seq<Id>, q: nat)
    requires q <= |queue| <= COMPACT_MAX && Go(reads_, node, seen, queue, q).rc == OK
    ensures var w := Go(reads_, node, seen, queue, q); forall k :: q <= k < |w.queue| ==> NodeMet(node, w.queue[k], w.seen)
    decreases COMPACT_MAX - q
  {
    hide Enter, Go;
    GoNext(reads_, node, seen, queue, q);
    if q < |queue| {
      var id := queue[q];
      var es := node(id).value;
      EnterCovers(reads_, es, 0, seen + {id}, queue);
      var w := Enter(reads_, es, 0, seen + {id}, queue);
      GoCovers(reads_, node, w.seen, w.queue, q + 1);
    }
  }

  lemma {:induction false} ParentOf(t: Tree, d: Tree) returns (s: Tree, i: nat)
    requires Within(t, d) && d != t
    ensures Within(t, s) && s.Dir? && i < |s.kids| && s.kids[i].sub == d
    decreases t
  {
    var j :| 0 <= j < |t.kids| && Within(t.kids[j].sub, d);
    if t.kids[j].sub == d {
      s, i := t, j;
    } else {
      s, i := ParentOf(t.kids[j].sub, d);
      KidWithin(t, t, j);
      WithinTrans(t, t.kids[j].sub, s);
    }
  }

  lemma {:induction false} WithinRoot(t: Tree, s: Tree)
    requires RootOk(t) && Within(t, s) && s.Dir?
    ensures RootOk(s)
  {
    hide KidsOk;
    if s != t { WithinOk(t, s); }
  }

  lemma {:induction false} EnteredKids(f: Format, c: Codec, t: Tree, seen0: set<Id>, s: Tree, i: nat)
    requires FormatOk(f) && NodeOk(f, c) && RootOk(t) && t != Dir([]) && Plan(f, c, t, seen0).rc == OK
    requires Within(t, s) && s.Dir? && i < |s.kids| && NodeId(f, c, s) in Plan(f, c, t, seen0).queue
    ensures NodeId(f, c, s.kids[i].sub) in Plan(f, c, t, seen0).seen
  {
    hide Go, NodeId, NodeOk, TreeOk, Ments, TreeNode, Format.Sound, Format.Injective;
    var w, id := Plan(f, c, t, seen0), NodeId(f, c, s);
    GoCovers(Always(), TreeNodes(f, c, t), seen0, [NodeId(f, c, t)], 0);
    var k :| 0 <= k < |w.queue| && w.queue[k] == id;
    assert NodeMet(TreeNodes(f, c, t), w.queue[k], w.seen);
    var d := QueuedNode(f, c, t, id);
    WithinRoot(t, s);
    WithinRoot(t, d);
    RootInjective(f, c, d, s);
    EntryIs(f, c, t, s, i);
    assert Ments(f, c, s.kids)[i].child in w.seen;
  }

  /** Every block is met exactly if every directory is covered. */
  lemma {:induction false} MetIff(f: Format, c: Codec, t: Tree, seen0: set<Id>)
    requires FormatOk(f) && NodeOk(f, c) && RootOk(t) && Plan(f, c, t, seen0).rc == OK
    ensures AllMet(f, c, t, Plan(f, c, t, seen0).seen) <==> Covered(f, c, t, Plan(f, c, t, seen0))
  {
    hide Go, NodeId, NodeOk, TreeOk, Ments, TreeNode, Format.Sound, Format.Injective, FormatOk;
    var w := Plan(f, c, t, seen0);
    if AllMet(f, c, t, w.seen) {
      forall d, i | Within(t, d) && d.Dir? && d != Dir([]) && 0 <= i < |d.kids| ensures NodeId(f, c, d.kids[i].sub) in w.seen {
        EntryIs(f, c, t, d, i);
      }
    }
    if Covered(f, c, t, w) {
      forall d | Within(t, d) && d != Dir([]) ensures NodeId(f, c, d) in w.seen {
        if d == t {
          GoCovers(Always(), TreeNodes(f, c, t), seen0, [NodeId(f, c, t)], 0);
          assert w.queue[0] == NodeId(f, c, t);
          assert NodeMet(TreeNodes(f, c, t), w.queue[0], w.seen);
        } else {
          var s, i := ParentOf(t, d);
          NotLeaf(t, s, d);
          if NodeId(f, c, s) in w.queue { EnteredKids(f, c, t, seen0, s, i); }
        }
      }
    }
  }

  lemma {:induction false} NotLeaf(t: Tree, s: Tree, d: Tree)
    requires Within(t, s) && s.Dir? && |s.kids| > 0 && d != t && Within(t, d)
    ensures t != Dir([]) && s != Dir([])
  {
  }

  /** A verdict of OK over a covered tree: all its blocks read. */
  lemma {:induction false} CoveredIntact(f: Format, c: Codec, m: Media, e: nat, idx: map<Id, nat>, root: Id, t: Tree, seen0: set<Id>)
    requires Stands(f, c, m, e, idx, root, t) && (forall id :: id in seen0 ==> BlockGet(f, m, e, idx, id).Got?)
    requires Covered(f, c, t, Plan(f, c, t, seen0)) && WalkTree(f, c, m, e, idx, root, seen0).rc == OK
    ensures Intact(f, c, m, e, idx, t)
  {
    hide BlockGet, WalkTree, Plan, NodeId, NodeOk, FormatOk, RootOk, Covered;
    SweepOkIff(f, c, m, e, idx, t, seen0);
    MetIff(f, c, t, seen0);
  }

  lemma {:induction false} WalkVerdicts(f: Format, c: Codec, m: Media, e: nat, idx: map<Id, nat>, root: Id, seen0: set<Id>)
    ensures var rc := WalkTree(f, c, m, e, idx, root, seen0).rc; rc == OK || rc == FULL || rc == CORRUPT
  {
    hide Go, BlockGet, Load;
  }

  // ---------------------------------------------------------------- a medium with these blocks and no others

  ghost predicate HasBytes(f: Format, p: Bytes, id: Id) { |p| <= COMMIT_MAX && f.sha(p) == id }

  lemma {:induction false} Sources(f: Format, ids: set<Id>) returns (ps: seq<Bytes>)
    requires forall id :: id in ids ==> exists p :: HasBytes(f, p, id)
    ensures forall i :: 0 <= i < |ps| ==> |ps[i]| <= COMMIT_MAX && f.sha(ps[i]) in ids
    ensures forall id :: id in ids ==> Supplied(f, ps, id)
    decreases |ids|
  {
    if ids == {} {
      ps := [];
    } else {
      var id :| id in ids;
      var p :| HasBytes(f, p, id);
      var rest := Sources(f, ids - {id});
      ps := rest + [p];
      forall x | x in ids ensures Supplied(f, ps, x) {
        if x == id {
          assert f.sha(ps[|rest|]) == x;
        } else {
          assert x in ids - {id} && Supplied(f, rest, x);
          var i :| 0 <= i < |rest| && f.sha(rest[i]) == x;
          assert ps[i] == rest[i];
        }
      }
    }
  }

  ghost predicate Supplied(f: Format, ps: seq<Bytes>, id: Id) { exists i :: 0 <= i < |ps| && f.sha(ps[i]) == id }

  ghost function Shelf(f: Format, ps: seq<Bytes>, id: Id): (i: nat)
    requires Supplied(f, ps, id)
    ensures i < |ps| && f.sha(ps[i]) == id
  {
    var i :| 0 <= i < |ps| && f.sha(ps[i]) == id;
    i
  }

  /** There is a medium on which exactly these blocks read. */
  lemma {:induction false} Stock(f: Format, ids: set<Id>) returns (m: Media, idx: map<Id, nat>)
    requires FormatOk(f) && forall id :: id in ids ==> exists p :: HasBytes(f, p, id)
    ensures forall id :: BlockGet(f, m, 0, idx, id).Got? <==> id in ids
    ensures forall id :: BlockGet(f, m, 0, idx, id).Got? ==> f.sha(BlockGet(f, m, 0, idx, id).value) == id
  {
    hide Format.Sound, Format.Injective, WriteAll, Spans, RecAt, ReadRec, HasBytes;
    var ps := Sources(f, ids);
    var recs := seq(|ps|, i requires 0 <= i < |ps| => Rec(REC_BLOCK, 0, ps[i]));
    var blank: Media := seq(Spans(recs) + 2, _ => Unreadable);
    m := WriteAll(f, 0, blank, 1, recs);
    WriteAllFit(f, 0, blank, 1, recs);
    idx := map id | id in ids :: Pos(1, recs, Shelf(f, ps, id));
    forall id | id in ids ensures BlockGet(f, m, 0, idx, id).Got? && f.sha(BlockGet(f, m, 0, idx, id).value) == id {
      var i := Shelf(f, ps, id);
      assert RecAt(f, m, 0, Pos(1, recs, i), recs[i]);
      RecReads(f, m, 0, Pos(1, recs, i), recs[i]);
    }
  }

  // ---------------------------------------------------------------- the ids of the plan

  /** These ids belong to blocks of the tree or were there before. */
  ghost predicate FromTree(f: Format, c: Codec, t: Tree, seen0: set<Id>, seen: set<Id>) {
    forall id :: id in seen ==> id in seen0 || exists d :: Within(t, d) && d != Dir([]) && NodeId(f, c, d) == id
  }

  lemma {:induction false} EnterFrom(f: Format, c: Codec, t: Tree, seen0: set<Id>, s: Tree, i: nat, seen: set<Id>, queue: seq<Id>)
    requires RootOk(t) && Within(t, s) && s.Dir? && i <= |s.kids| && |queue| <= COMPACT_MAX && FromTree(f, c, t, seen0, seen)
    ensures FromTree(f, c, t, seen0, Enter(Always(), Ments(f, c, s.kids), i, seen, queue).seen)
    decreases |s.kids| - i
  {
    hide NodeId, Ments, RootOk;
    if i < |s.kids| {
      var en := Ments(f, c, s.kids)[i];
      EntryIs(f, c, t, s, i);
      if en.child in seen {
        EnterFrom(f, c, t, seen0, s, i + 1, seen, queue);
      } else if en.kind != MENT_DIR {
        EnterFrom(f, c, t, seen0, s, i + 1, seen + {en.child}, queue);
      } else if |queue| < COMPACT_MAX {
        EnterFrom(f, c, t, seen0, s, i + 1, seen + {en.child}, queue + [en.child]);
      }
    }
  }

  lemma {:induction false} GoFrom(f: Format, c: Codec, t: Tree, seen0: set<Id>, seen: set<Id>, queue: seq<Id>, q: nat)
    requires RootOk(t) && q <= |queue| <= COMPACT_MAX && OfTree(f, c, t, queue) && FromTree(f, c, t, seen0, seen)
    ensures FromTree(f, c, t, seen0, Go(Always(), TreeNodes(f, c, t), seen, queue, q).seen)
    decreases COMPACT_MAX - q
  {
    hide Enter, Go, NodeId, TreeNode, TreeOk, Ments;
    GoNext(Always(), TreeNodes(f, c, t), seen, queue, q);
    if q < |queue| && (queue[q] in seen || |seen| < COMPACT_MAX) {
      var s := QueuedNode(f, c, t, queue[q]);
      EnterFrom(f, c, t, seen0, s, 0, seen + {queue[q]}, queue);
      EnterOfTree(f, c, t, s, Always(), 0, seen + {queue[q]}, queue);
      var b := Enter(Always(), Ments(f, c, s.kids), 0, seen + {queue[q]}, queue);
      if b.rc == OK { GoFrom(f, c, t, seen0, b.seen, b.queue, q + 1); }
    }
  }

  lemma {:induction false} BlockBytes(f: Format, c: Codec, t: Tree, d: Tree)
    requires FormatOk(f) && NodeOk(f, c) && RootOk(t) && Within(t, d) && d != Dir([])
    ensures exists p :: HasBytes(f, p, NodeId(f, c, d))
  {
    hide Format.Injective, KidsOk, Format.Sound, MentOk;
    if d.File? {
      WithinOk(t, d);
      assert HasBytes(f, d.content, NodeId(f, c, d));
    } else {
      WithinRoot(t, d);
      MentsOk(f, c, d);
      var es := Ments(f, c, d.kids);
      assert HasBytes(f, c.enc(es), NodeId(f, c, d));
    }
  }

  /** On this medium a verdict of OK is right. */
  ghost predicate Right(f: Format, c: Codec, m: Media, e: nat, idx: map<Id, nat>, t: Tree, seen0: set<Id>) {
    Stands(f, c, m, e, idx, NodeId(f, c, t), t) && AllRead(f, m, e, idx, seen0) && WalkTree(f, c, m, e, idx, NodeId(f, c, t), seen0).rc == OK ==>
      Intact(f, c, m, e, idx, t)
  }

  lemma {:induction false} MetMeansRight(f: Format, c: Codec, m: Media, e: nat, idx: map<Id, nat>, t: Tree, seen0: set<Id>)
    requires Plan(f, c, t, seen0).rc == OK ==> AllMet(f, c, t, Plan(f, c, t, seen0).seen)
    ensures Right(f, c, m, e, idx, t, seen0)
  {
    hide BlockGet, WalkTree, Plan, NodeId, Stands;
    if Stands(f, c, m, e, idx, NodeId(f, c, t), t) && AllRead(f, m, e, idx, seen0) { SweepOkIff(f, c, m, e, idx, t, seen0); }
  }

  lemma {:induction false} SomeWrong(f: Format, c: Codec, t: Tree, live: set<Bytes>) returns (m: Media, idx: map<Id, nat>)
    requires FormatOk(f) && NodeOk(f, c) && RootOk(t) && forall p :: p in live ==> |p| <= COMMIT_MAX
    requires var seen0 := Hashes(f, live); Plan(f, c, t, seen0).rc == OK && !AllMet(f, c, t, Plan(f, c, t, seen0).seen)
    ensures !Right(f, c, m, 0, idx, t, Hashes(f, live))
  {
    hide BlockGet, WalkTree, NodeId, NodeOk, FormatOk, TreeOk, Go, HasBytes, TreeNode;
    var seen0 := Hashes(f, live);
    var w := Plan(f, c, t, seen0);
    assert FromTree(f, c, t, seen0, w.seen) by {
      if t != Dir([]) {
        RootQueued(f, c, t);
        GoFrom(f, c, t, seen0, seen0, [NodeId(f, c, t)], 0);
      }
    }
    forall id | id in w.seen ensures exists p :: HasBytes(f, p, id) {
      if id in seen0 {
        LiveBytes(f, live, id);
      } else {
        var d :| Within(t, d) && d != Dir([]) && NodeId(f, c, d) == id;
        BlockBytes(f, c, t, d);
      }
    }
    m, idx := Stock(f, w.seen);
    PlanKeeps(f, c, t, seen0);
    assert Stands(f, c, m, 0, idx, NodeId(f, c, t), t);
    SweepOkIff(f, c, m, 0, idx, t, seen0);
    var d :| Within(t, d) && d != Dir([]) && NodeId(f, c, d) !in w.seen;
  }

  lemma {:induction false} PlanKeeps(f: Format, c: Codec, t: Tree, seen0: set<Id>)
    ensures seen0 <= Plan(f, c, t, seen0).seen
  {
    hide Go, TreeNode, NodeId;
  }

  ghost function Hashes(f: Format, live: set<Bytes>): set<Id> { set p | p in live :: f.sha(p) }

  lemma {:induction false} LiveBytes(f: Format, live: set<Bytes>, id: Id)
    requires id in Hashes(f, live) && forall p :: p in live ==> |p| <= COMMIT_MAX
    ensures exists p :: HasBytes(f, p, id)
  {
    var p :| p in live && f.sha(p) == id;
    assert HasBytes(f, p, id);
  }

  /** When a verdict of OK can be relied on: on every medium on which the blocks of the file table
      read, OK means that the whole tree reads, if and only if the walk over the tree passes its
      caps or covers every directory. */
  lemma {:induction false} OkMeansIntactIff(f: Format, c: Codec, t: Tree, live: set<Bytes>)
    requires FormatOk(f) && NodeOk(f, c) && RootOk(t) && forall p :: p in live ==> |p| <= COMMIT_MAX
    ensures var seen0 := Hashes(f, live); var w := Plan(f, c, t, seen0);
            (forall m, e, idx :: Right(f, c, m, e, idx, t, seen0)) <==> (w.rc == OK ==> Covered(f, c, t, w))
  {
    hide Right, Plan, Covered, AllMet, NodeOk, FormatOk, RootOk, Hashes;
    var seen0 := Hashes(f, live);
    var w := Plan(f, c, t, seen0);
    if w.rc == OK { MetIff(f, c, t, seen0); }
    if w.rc == OK ==> Covered(f, c, t, w) {
      forall m, e, idx ensures Right(f, c, m, e, idx, t, seen0) { MetMeansRight(f, c, m, e, idx, t, seen0); }
    } else {
      var m, idx := SomeWrong(f, c, t, live);
    }
  }

  // ---------------------------------------------------------------- twins

  /** The directory "b" of this tree has the bytes of the file "a". */
  function Twins(f: Format, c: Codec, x: Bytes): Tree {
    var inner := [Kid([B(0x61)], File(x))];
    Dir([Kid([B(0x61)], File(c.enc(Ments(f, c, inner)))), Kid([B(0x62)], Dir(inner))])
  }

  lemma {:induction false} TwinsOk(f: Format, c: Codec, x: Bytes)
    requires FormatOk(f) && NodeOk(f, c) && |x| <= BLOCK_MAX
    ensures RootOk(Twins(f, c, x)) && RootOk(Twins(f, c, x).kids[1].sub)
  {
    hide Format.Injective, Ments, Format.Sound, FormatOk;
    var t := Twins(f, c, x);
    var inner := t.kids[1].sub;
    OneName(inner.kids);
    assert TreeOk(File(x)) && TreeOk(inner);
    SoundFormat(f);
    MentsOk(f, c, inner);
    TwoNames(t.kids);
    var p := c.enc(Ments(f, c, inner.kids));
    assert |p| <= BLOCK_MAX;
    assert TreeOk(File(p)) && t.kids[0].sub == File(p);
  }

  lemma {:induction false} SoundFormat(f: Format)
    requires FormatOk(f)
    ensures f.Sound() && f.Injective()
  {
    hide Format.Sound, Format.Injective;
  }

  lemma {:induction false} OneName(kids: seq<Kid>)
    requires |kids| == 1 && kids[0].name == [B(0x61)]
    ensures KidsOk(kids)
  {
  }

  lemma {:induction false} TwoNames(kids: seq<Kid>)
    requires |kids| == 2 && kids[0].name == [B(0x61)] && kids[1].name == [B(0x62)]
    ensures KidsOk(kids)
  {
    assert Less([B(0x61)], [B(0x62)]);
  }

  /** The walk over it enters the root only: at "b" it finds the id it has met at "a". */
  lemma {:induction false} TwinPlan(f: Format, c: Codec, x: Bytes)
    requires FormatOk(f) && NodeOk(f, c) && |x| <= BLOCK_MAX
    ensures var t := Twins(f, c, x); var root, twin := NodeId(f, c, t), NodeId(f, c, t.kids[1].sub);
            root != twin && Plan(f, c, t, {}) == Walk(OK, {root, twin}, [root])
  {
    hide Go, Enter, NodeOk, TreeOk, TreeNode, FormatOk, Format.Sound, Format.Injective, Ments, NodeId;
    var t := Twins(f, c, x);
    var root, twin := NodeId(f, c, t), NodeId(f, c, t.kids[1].sub);
    SoundFormat(f);
    TwinsOk(f, c, x);
    if root == twin { RootInjective(f, c, t, t.kids[1].sub); }
    assert Within(t, t);
    IsQueued(f, c, t, t);
    var s := QueuedNode(f, c, t, root);
    WithinRoot(t, s);
    RootInjective(f, c, s, t);
    var es := Ments(f, c, t.kids);
    TwinEntries(f, c, x);
    TwinEnter(es, root, twin);
    GoNext(Always(), TreeNodes(f, c, t), {}, [root], 0);
    GoNext(Always(), TreeNodes(f, c, t), {root, twin}, [root], 1);
    assert {} + {root} == {root};
  }

  lemma {:induction false} TwinEntries(f: Format, c: Codec, x: Bytes)
    ensures var t := Twins(f, c, x); var es, twin := Ments(f, c, t.kids), NodeId(f, c, t.kids[1].sub);
            |es| == 2 && es[0].child == es[1].child == twin && es[0].kind == MENT_FILE
  {
    var t := Twins(f, c, x);
    MentAt(f, c, t.kids, 0);
    MentAt(f, c, t.kids, 1);
  }

  lemma {:induction false} TwinEnter(es: seq<Ment>, root: Id, twin: Id)
    requires |es| == 2 && es[0].child == es[1].child == twin && es[0].kind == MENT_FILE && root != twin
    ensures Enter(Always(), es, 0, {root}, [root]) == Walk(OK, {root, twin}, [root])
  {
    assert |{root}| == 1;
    assert {root} + {twin} == {root, twin};
    assert Enter(Always(), es, 2, {root, twin}, [root]) == Walk(OK, {root, twin}, [root]);
    assert Enter(Always(), es, 1, {root, twin}, [root]) == Walk(OK, {root, twin}, [root]);
  }

  // ---------------------------------------------------------------- the tree after a compaction

  lemma {:induction false} AllStored(f: Format, c: Codec, idx: map<Id, nat>, t: Tree, s: Tree)
    requires Within(t, s) && forall d :: Within(t, d) && d != Dir([]) ==> NodeId(f, c, d) in idx
    ensures Stored(f, c, idx, s)
    decreases s
  {
    if s.Dir? {
      forall i | 0 <= i < |s.kids| ensures Stored(f, c, idx, s.kids[i].sub) {
        KidWithin(t, s, i);
        AllStored(f, c, idx, t, s.kids[i].sub);
      }
    }
  }

  /** A tree all of whose blocks read is, after a successful compaction, the tree of the new
      library, all of it in the store: every path of it reads. */
  lemma {:induction false} TreeSurvives(f: Format, c: Codec, l: LogState, lib: Library, l': LogState, lib': Library, p: Passage, t: Tree)
    requires CompactOutcome(f, l, lib, l', lib', true, p)
    requires RootOk(t) && NodeId(f, c, t) == lib.mroot && Intact(f, c, l.media, l.epoch, lib.idx, t)
    ensures TreeIn(f, c, lib', t)
  {
    hide BlockGet, TreeOk, NodeId, VolOk, MountOf, ShotsOk, CoreOf, Committed, ShowsCompacted, Primary, Resealed, ReadRec;
    ResealedShows(f, l.cap, p.start, p.recs, lib, Readable(f, l.media, l.epoch, lib.idx));
    assert lib'.idx.Keys == Readable(f, l.media, l.epoch, lib.idx);
    forall d | Within(t, d) && d != Dir([]) ensures NodeId(f, c, d) in lib'.idx {
      GotIndexed(f, l.media, l.epoch, lib.idx, NodeId(f, c, d));
    }
    AllStored(f, c, lib'.idx, t, t);
  }

  lemma {:induction false} GotIndexed(f: Format, m: Media, e: nat, idx: map<Id, nat>, id: Id)
    requires BlockGet(f, m, e, idx, id).Got?
    ensures id in Readable(f, m, e, idx)
  {
  }

  lemma {:induction false} StandsFor(f: Format, c: Codec, m: Media, e: nat, idx: map<Id, nat>, root: Id, t: Tree)
    requires Stands(f, c, m, e, idx, root, t)
    ensures RootOk(t) && NodeId(f, c, t) == root
  {
    hide BlockGet, NodeOk, FormatOk;
  }
}
