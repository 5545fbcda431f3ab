/** The tighten-only rule floor of arch/common/conscience.c: which chains of amendments the
    verifier accepts, what an accepted head must still refuse, and what an amendment does. */
module FloorChain {
  import opened Wrappers

  type Bytes = seq<nat>

  const RULE_MAX: nat := 24
  const PAT_MAX: nat := 56
  const WALK_MAX: nat := 32
  const GENESIS_N: nat := 21
  const MAGIC: nat := 0x3157414C
  const VERSION: nat := 1

  /** LAW_RULE; the pattern is its first plen bytes. */
  datatype Rule = Rule(cls: nat, floor: bool, pat: Bytes)
  datatype Law = Law(text: Bytes, enforce: nat)

  /** LAW_FLOOR: the rule array is full length, nRules of it count. */
  datatype Floor = Floor(magic: nat, version: nat, nRules: nat, sq: nat, prev: Bytes, laws: seq<Law>, rules: seq<Rule>)

  /** The rules that count. */
  function Live(e: Floor): (r: seq<Rule>) { e.rules[..Clamp(e)] }

  function Clamp(e: Floor): (n: nat)
    ensures n <= |e.rules|
  {
    var n := if e.nRules > RULE_MAX then RULE_MAX else e.nRules;
    if n > |e.rules| then |e.rules| else n
  }

  // ---------------------------------------------------------------- scanning one blob

  predicate HasRule(e: Floor, r: Rule) {
    exists i :: 0 <= i < Clamp(e) && e.rules[i].floor && e.rules[i].cls == r.cls && e.rules[i].pat == r.pat
  }

  /** floor_rule_in. */
  method FloorRuleIn(e: Floor, r: Rule) returns (found: bool)
    ensures found <==> HasRule(e, r)
  {
    var i := 0;
    while i < Clamp(e)
      invariant i <= Clamp(e) && forall k :: 0 <= k < i ==> !(e.rules[k].floor && e.rules[k].cls == r.cls && e.rules[k].pat == r.pat)
    {
      var c := e.rules[i];
      if c.floor && c.cls == r.cls && |c.pat| == |r.pat| {
        var j := 0;
        while j < |r.pat| && c.pat[j] == r.pat[j]
          invariant j <= |r.pat| && c.pat[..j] == r.pat[..j]
        {
          j := j + 1;
        }
        if j == |r.pat| {
          assert c.pat[..j] == c.pat && r.pat[..j] == r.pat;
          return true;
        }
      }
      i := i + 1;
    }
    found := false;
  }

  predicate HasClass(e: Floor, cls: nat) { exists i :: 0 <= i < Clamp(e) && e.rules[i].floor && e.rules[i].cls == cls }

  /** floor_has_class. */
  method FloorHasClass(e: Floor, cls: nat) returns (found: bool)
    ensures found <==> HasClass(e, cls)
  {
    var i := 0;
    while i < Clamp(e)
      invariant i <= Clamp(e) && forall k :: 0 <= k < i ==> !(e.rules[k].floor && e.rules[k].cls == cls)
    {
      if e.rules[i].floor && e.rules[i].cls == cls { return true; }
      i := i + 1;
    }
    found := false;
  }

  /** Every floor rule among the first n of the parent is in e. */
  predicate Carries(e: Floor, parent: Floor, n: nat)
    requires n <= |parent.rules|
  {
    forall i :: 0 <= i < n && parent.rules[i].floor ==> HasRule(e, parent.rules[i])
  }

  /** e keeps every floor rule of its parent. */
  predicate Includes(e: Floor, parent: Floor) { Carries(e, parent, Clamp(parent)) }

  /** The inclusion loops of law_walk_verify, law_blob_ok and law_amend. */
  method CarriesAll(e: Floor, parent: Floor, n: nat) returns (ok: bool)
    requires n <= |parent.rules|
    ensures ok <==> Carries(e, parent, n)
  {
    var i := 0;
    while i < n
      invariant i <= n && Carries(e, parent, i)
    {
      if parent.rules[i].floor {
        ok := FloorRuleIn(e, parent.rules[i]);
        if !ok { return; }
      }
      i := i + 1;
    }
    ok := true;
  }

  /** The compiled-in genesis: 21 floor rules, none empty, none of class 0, the three laws. */
  predicate GenesisOk(g: Floor) {
    && |g.rules| == RULE_MAX && g.nRules == GENESIS_N && g.magic == MAGIC && g.version == VERSION && g.prev == []
    && (forall i :: 0 <= i < GENESIS_N ==> g.rules[i].floor && g.rules[i].cls != 0 && 0 < |g.rules[i].pat| <= PAT_MAX)
    && HasClass(g, 1) && HasClass(g, 2) && HasClass(g, 3) && LawsOk(g)
  }

  predicate LawsOk(e: Floor) { |e.laws| == 3 && forall i :: 0 <= i < 3 ==> e.laws[i].text != [] && e.laws[i].enforce == 1 }

  /** law_blob_ok. */
  predicate BlobOk(g: Floor, e: Floor)
    requires GenesisOk(g)
  {
    && e.magic == MAGIC && e.version == VERSION && 0 < e.nRules <= RULE_MAX && LawsOk(e)
    && HasClass(e, 1) && HasClass(e, 2) && HasClass(e, 3)
    && Carries(e, g, GENESIS_N)
  }

  method LawBlobOk(g: Floor, e: Floor) returns (ok: bool)
    requires GenesisOk(g)
    ensures ok <==> BlobOk(g, e)
    ensures ok <==>
      && e.magic == MAGIC && e.version == VERSION && 0 < e.nRules <= RULE_MAX
      && |e.laws| == 3 && (forall i :: 0 <= i < 3 ==> e.laws[i].text != [] && e.laws[i].enforce == 1)
      && (forall cls :: 1 <= cls <= 3 ==> HasClass(e, cls))
      && forall i :: 0 <= i < GENESIS_N ==> HasRule(e, g.rules[i])
  {
    if e.magic != MAGIC || e.version != VERSION { return false; }
    if e.nRules == 0 || e.nRules > RULE_MAX { return false; }
    if !LawsOk(e) { return false; }
    ok := FloorHasClass(e, 1);
    if !ok { return; }
    ok := FloorHasClass(e, 2);
    if !ok { return; }
    ok := FloorHasClass(e, 3);
    if !ok { return; }
    ok := CarriesAll(e, g, GENESIS_N);
  }

  lemma {:induction false} SelfIncludes(e: Floor)
    ensures Includes(e, e)
  {
  }

  lemma {:induction false} GenesisVerifies(g: Floor)
    requires GenesisOk(g)
    ensures BlobOk(g, g) && Clamp(g) == GENESIS_N
  {
    SelfIncludes(g);
  }

  lemma {:induction false} IncludesTrans(a: Floor, b: Floor, c: Floor, n: nat)
    requires Includes(a, b) && n <= |c.rules| && Carries(b, c, n)
    ensures Carries(a, c, n)
  {
    forall i | 0 <= i < n && c.rules[i].floor ensures HasRule(a, c.rules[i]) {
      assert HasRule(b, c.rules[i]);
      var k :| 0 <= k < Clamp(b) && b.rules[k].floor && b.rules[k].cls == c.rules[i].cls && b.rules[k].pat == c.rules[i].pat;
      assert HasRule(a, b.rules[k]);
    }
  }

  // ---------------------------------------------------------------- the walk

  /** The block store: content by id. */
  type Store = map<Bytes, Floor>

  /** law_walk_verify from block `cur` on, after `steps` blocks. */
  ghost predicate Walk(g: Floor, hash: Floor -> Bytes, st: Store, cur: Bytes, child: Option<Floor>, steps: nat)
    requires GenesisOk(g)
    decreases 33 - steps
  {
    && cur in st && hash(st[cur]) == cur && st[cur].magic == MAGIC && st[cur].version == VERSION
    && (child.Some? ==> Includes(child.value, st[cur]))
    && (if st[cur].prev == [] then BlobOk(g, st[cur])
        else steps < WALK_MAX && Walk(g, hash, st, st[cur].prev, Some(st[cur]), steps + 1))
  }

  method LawWalkVerify(g: Floor, hash: Floor -> Bytes, st: Store, headId: Bytes) returns (ok: bool, head: Option<Floor>)
    requires GenesisOk(g)
    ensures ok <==> Walk(g, hash, st, headId, None, 0)
    ensures ok ==> headId in st && head == Some(st[headId])
  {
    hide BlobOk, Carries, GenesisOk;
    var cur := headId;
    var child: Option<Floor> := None;
    var steps := 0;
    head := None;
    while true
      invariant steps <= WALK_MAX && (steps == 0 ==> cur == headId) && (steps > 0 ==> headId in st && head == Some(st[headId]))
      invariant Walk(g, hash, st, headId, None, 0) <==> Walk(g, hash, st, cur, child, steps)
      decreases 33 - steps
    {
      if cur !in st { return false, head; }
      var e := st[cur];
      if hash(e) != cur { return false, head; }
      if e.magic != MAGIC || e.version != VERSION { return false, head; }
      if steps == 0 { head := Some(e); }
      if child.Some? {
        ok := CarriesAll(child.value, e, Clamp(e));
        if !ok { return; }
      }
      if e.prev == [] {
        ok := LawBlobOk(g, e);
        return;
      }
      child, cur := Some(e), e.prev;
      if steps + 1 > WALK_MAX { return false, head; }
      steps := steps + 1;
    }
  }

  ghost predicate InStore(hash: Floor -> Bytes, st: Store, e: Floor) {
    hash(e) in st && st[hash(e)] == e && e.magic == MAGIC && e.version == VERSION
  }

  /** e names the block it amends and keeps its floor. */
  ghost predicate Amends(hash: Floor -> Bytes, e: Floor, parent: Floor) {
    e.prev == hash(parent) && e.prev != [] && Includes(e, parent)
  }

  /** An amendment chain, head first: linked by content, each block keeping the floor of the
      one before it, down to a block that meets the genesis conditions. */
  ghost predicate Chain(g: Floor, hash: Floor -> Bytes, st: Store, chain: seq<Floor>)
    requires GenesisOk(g)
  {
    && chain != []
    && (forall i :: 0 <= i < |chain| ==> InStore(hash, st, chain[i]))
    && (forall i, j :: 0 <= i && j == i + 1 < |chain| ==> Amends(hash, chain[i], chain[j]))
    && chain[|chain| - 1].prev == [] && BlobOk(g, chain[|chain| - 1])
  }

  lemma {:induction false} WalkFindsChain(g: Floor, hash: Floor -> Bytes, st: Store, cur: Bytes, child: Option<Floor>, steps: nat)
      returns (chain: seq<Floor>)
    requires GenesisOk(g) && Walk(g, hash, st, cur, child, steps) && steps <= WALK_MAX
    ensures Chain(g, hash, st, chain) && hash(chain[0]) == cur && |chain| + steps <= 33 && (child.Some? ==> Includes(child.value, chain[0]))
    decreases 33 - steps
  {
    hide BlobOk, GenesisOk, Carries;
    var e := st[cur];
    if e.prev == [] {
      chain := [e];
    } else {
      var rest := WalkFindsChain(g, hash, st, e.prev, Some(e), steps + 1);
      chain := [e] + rest;
      ChainCons(g, hash, st, e, rest);
    }
  }

  lemma {:induction false} ChainCons(g: Floor, hash: Floor -> Bytes, st: Store, e: Floor, rest: seq<Floor>)
    requires GenesisOk(g) && Chain(g, hash, st, rest) && InStore(hash, st, e) && Amends(hash, e, rest[0])
    ensures Chain(g, hash, st, [e] + rest)
  {
    hide BlobOk, GenesisOk, InStore, Amends;
    var chain := [e] + rest;
    forall i, j | 0 <= i && j == i + 1 < |chain| ensures Amends(hash, chain[i], chain[j]) {
      if i > 0 {
        var a, b := i - 1, j - 1;
        assert chain[i] == rest[a] && chain[j] == rest[b];
      }
    }
    forall i | 0 <= i < |chain| ensures InStore(hash, st, chain[i]) {
      if i > 0 {
        var a := i - 1;
        assert chain[i] == rest[a];
      }
    }
    assert chain[|chain| - 1] == rest[|rest| - 1];
  }

  lemma {:induction false} ChainTail(g: Floor, hash: Floor -> Bytes, st: Store, chain: seq<Floor>)
    requires GenesisOk(g) && Chain(g, hash, st, chain) && |chain| > 1
    ensures Chain(g, hash, st, chain[1..])
  {
    hide BlobOk, GenesisOk, InStore, Amends;
    var rest := chain[1..];
    forall i, j | 0 <= i && j == i + 1 < |rest| ensures Amends(hash, rest[i], rest[j]) {
      var a, b := i + 1, j + 1;
      assert rest[i] == chain[a] && rest[j] == chain[b];
    }
    forall i | 0 <= i < |rest| ensures InStore(hash, st, rest[i]) {
      var a := i + 1;
      assert rest[i] == chain[a];
    }
    assert rest[|rest| - 1] == chain[|chain| - 1];
  }

  lemma {:induction false} ChainIsWalked(g: Floor, hash: Floor -> Bytes, st: Store, chain: seq<Floor>, child: Option<Floor>, steps: nat)
    requires GenesisOk(g) && Chain(g, hash, st, chain) && |chain| + steps <= 33 && (child.Some? ==> Includes(child.value, chain[0]))
    ensures Walk(g, hash, st, hash(chain[0]), child, steps)
    decreases |chain|
  {
    hide BlobOk, GenesisOk, Carries;
    if |chain| > 1 {
      ChainTail(g, hash, st, chain);
      ChainIsWalked(g, hash, st, chain[1..], Some(chain[0]), steps + 1);
    }
  }

  /** The verifier accepts exactly the heads of chains of at most 33 blocks. */
  lemma {:induction false} WalkIffChain(g: Floor, hash: Floor -> Bytes, st: Store, id: Bytes)
    requires GenesisOk(g)
    ensures Walk(g, hash, st, id, None, 0) <==> exists chain :: Chain(g, hash, st, chain) && hash(chain[0]) == id && |chain| <= 33
  {
    hide BlobOk, Carries, Walk, GenesisOk;
    if Walk(g, hash, st, id, None, 0) {
      var chain := WalkFindsChain(g, hash, st, id, None, 0);
      assert Chain(g, hash, st, chain) && hash(chain[0]) == id && |chain| <= 33;
    }
    if chain :| Chain(g, hash, st, chain) && hash(chain[0]) == id && |chain| <= 33 {
      ChainIsWalked(g, hash, st, chain, None, 0);
    }
  }

  /** Monotone: the head keeps the floor rules of every ancestor. */
  lemma {:induction false} HeadKeepsAncestors(g: Floor, hash: Floor -> Bytes, st: Store, chain: seq<Floor>, i: nat)
    requires GenesisOk(g) && Chain(g, hash, st, chain) && i < |chain|
    ensures Includes(chain[0], chain[i])
  {
    hide BlobOk, GenesisOk, HasRule, Carries;
    if i == 0 {
      SelfIncludes(chain[0]);
    } else {
      var j := i - 1;
      HeadKeepsAncestors(g, hash, st, chain, j);
      assert Amends(hash, chain[j], chain[i]);
      IncludesTrans(chain[0], chain[j], chain[i], Clamp(chain[i]));
    }
  }

  /** And it keeps every rule of the compiled-in genesis. */
  lemma {:induction false} HeadKeepsGenesis(g: Floor, hash: Floor -> Bytes, st: Store, id: Bytes)
    requires GenesisOk(g) && Walk(g, hash, st, id, None, 0)
    ensures id in st && Carries(st[id], g, GENESIS_N)
  {
    hide GenesisOk, HasRule, Carries, Walk;
    var chain := WalkFindsChain(g, hash, st, id, None, 0);
    var n := |chain| - 1;
    HeadKeepsAncestors(g, hash, st, chain, n);
    GenesisSize(g);
    ChainEnd(g, hash, st, chain);
    IncludesTrans(chain[0], chain[n], g, GENESIS_N);
  }

  /** An amendment is never taken back: every later accepted head still carries its rule. */
  lemma {:induction false} AmendmentStays(g: Floor, hash: Floor -> Bytes, st: Store, chain: seq<Floor>, i: nat, e: Floor, cls: nat, pattern: Bytes)
    requires GenesisOk(g) && Chain(g, hash, st, chain) && i < |chain| && e.nRules < RULE_MAX == |e.rules|
    requires chain[i] == Amended(hash, e, cls, pattern)
    ensures exists k :: 0 <= k < |Live(chain[0])| && Live(chain[0])[k].floor && Live(chain[0])[k].cls == cls && Live(chain[0])[k].pat == Folded(pattern)
  {
    hide GenesisOk, Chain, Folded, BlobOk;
    var a, n := chain[i], e.nRules;
    HeadKeepsAncestors(g, hash, st, chain, i);
    assert n < Clamp(a) && a.rules[n].floor && HasRule(chain[0], a.rules[n]);
    var k :| 0 <= k < Clamp(chain[0]) && chain[0].rules[k].floor && chain[0].rules[k].cls == cls && chain[0].rules[k].pat == Folded(pattern);
    assert Live(chain[0])[k] == chain[0].rules[k];
  }

  lemma {:induction false} ChainEnd(g: Floor, hash: Floor -> Bytes, st: Store, chain: seq<Floor>)
    requires GenesisOk(g) && Chain(g, hash, st, chain)
    ensures chain != [] && GENESIS_N <= |g.rules| && Carries(chain[|chain| - 1], g, GENESIS_N)
  {
    hide Carries, Includes, GenesisOk, LawsOk, HasClass;
    GenesisSize(g);
    assert BlobOk(g, chain[|chain| - 1]);
  }

  lemma {:induction false} GenesisSize(g: Floor)
    requires GenesisOk(g)
    ensures |g.rules| == RULE_MAX
  {
  }

  // ---------------------------------------------------------------- the lexicon

  /** cs_lower: ASCII capitals only. */
  function Lower(c: nat): nat { if 65 <= c <= 90 then c + 32 else c }

  function Folded(b: Bytes): Bytes { seq(|b|, i requires 0 <= i < |b| => Lower(b[i])) }

  predicate MatchAt(hay: Bytes, i: nat, pat: Bytes)
    requires i + |pat| <= |hay|
  {
    forall j :: 0 <= j < |pat| ==> Lower(hay[i + j]) == Lower(pat[j])
  }

  /** The pattern, not empty, occurs in the text up to case. */
  predicate Contains(hay: Bytes, pat: Bytes) {
    pat != [] && exists i :: 0 <= i <= |hay| - |pat| && MatchAt(hay, i, pat)
  }

  /** Equal but for the case of ASCII letters. */
  predicate SameLetters(a: Bytes, b: Bytes) {
    |a| == |b| && forall i :: 0 <= i < |a| ==> a[i] == b[i] || CaseOf(a[i], b[i]) || CaseOf(b[i], a[i])
  }

  /** x is the capital, one of 'A' to 'Z', of the letter y. */
  predicate CaseOf(x: nat, y: nat) { 0x41 <= x <= 0x5A && y == x + 0x20 }

  predicate OccursAt(hay: Bytes, i: nat, pat: Bytes) { i + |pat| <= |hay| && SameLetters(hay[i..i + |pat|], pat) }

  /** Matching is blind to the case of ASCII letters and to nothing else. */
  lemma {:induction false} ContainsIff(hay: Bytes, pat: Bytes)
    ensures Contains(hay, pat) <==> pat != [] && exists i: nat :: OccursAt(hay, i, pat)
  {
    forall i: nat | i <= |hay| - |pat| ensures MatchAt(hay, i, pat) <==> OccursAt(hay, i, pat) {
      var m := hay[i..i + |pat|];
      assert forall j :: 0 <= j < |pat| ==> m[j] == hay[i + j];
      if MatchAt(hay, i, pat) {
        forall j | 0 <= j < |pat| ensures m[j] == pat[j] || CaseOf(m[j], pat[j]) || CaseOf(pat[j], m[j]) {
          assert Lower(hay[i + j]) == Lower(pat[j]);
        }
      }
      if SameLetters(m, pat) {
        forall j | 0 <= j < |pat| ensures Lower(hay[i + j]) == Lower(pat[j]) {
          assert m[j] == pat[j] || CaseOf(m[j], pat[j]) || CaseOf(pat[j], m[j]);
        }
      }
    }
  }

  /** A folded pattern matches the texts the pattern itself matches. */
  lemma {:induction false} FoldedMatches(hay: Bytes, pat: Bytes)
    ensures Contains(hay, Folded(pat)) <==> Contains(hay, pat)
  {
    var low := Folded(pat);
    forall i | 0 <= i <= |hay| - |pat| ensures MatchAt(hay, i, low) <==> MatchAt(hay, i, pat) {
      assert forall j :: 0 <= j < |pat| ==> Lower(low[j]) == Lower(pat[j]);
    }
  }

  /** cs_contains. */
  method CsContains(hay: Bytes, pat: Bytes) returns (found: bool)
    ensures found <==> Contains(hay, pat)
  {
    if |pat| == 0 || |pat| > |hay| { return false; }
    var i := 0;
    while i + |pat| <= |hay|
      invariant i <= |hay| - |pat| + 1 && forall k :: 0 <= k < i ==> !MatchAt(hay, k, pat)
    {
      var j := 0;
      while j < |pat| && Lower(hay[i + j]) == Lower(pat[j])
        invariant j <= |pat| && forall k :: 0 <= k < j ==> Lower(hay[i + k]) == Lower(pat[k])
      {
        j := j + 1;
      }
      if j == |pat| {
        assert MatchAt(hay, i, pat);
        return true;
      }
      i := i + 1;
    }
    found := false;
  }

  /** The class of the first rule that matches, or 0. */
  function Scan(rules: seq<Rule>, hay: Bytes): nat {
    if rules == [] then 0
    else if Contains(hay, rules[0].pat) then rules[0].cls
    else Scan(rules[1..], hay)
  }

  lemma {:induction false} ScanSkips(rules: seq<Rule>, hay: Bytes, i: nat)
    requires i <= |rules| && forall k :: 0 <= k < i ==> !Contains(hay, rules[k].pat)
    ensures Scan(rules, hay) == Scan(rules[i..], hay)
  {
    hide Contains;
    if i == 0 {
      assert rules[0..] == rules;
    } else {
      ScanSkips(rules[1..], hay, i - 1);
      assert rules[1..][i - 1..] == rules[i..];
    }
  }

  /** lexicon_scan_one. */
  method LexiconScanOne(e: Floor, hay: Bytes) returns (cls: nat)
    ensures cls == Scan(Live(e), hay)
  {
    hide Contains;
    var rules := Live(e);
    if hay == [] {
      NothingInNothing(rules);
      return 0;
    }
    var i := 0;
    while i < |rules|
      invariant i <= |rules| && forall k :: 0 <= k < i ==> !Contains(hay, rules[k].pat)
    {
      if rules[i].pat != [] {
        var hit := CsContains(hay, rules[i].pat);
        if hit {
          ScanSkips(rules, hay, i);
          return rules[i].cls;
        }
      } else {
        EmptyPattern(hay);
      }
      i := i + 1;
    }
    ScanSkips(rules, hay, i);
    cls := 0;
  }

  lemma {:induction false} EmptyPattern(hay: Bytes)
    ensures !Contains(hay, [])
  {
  }

  lemma {:induction false} NothingInNothing(rules: seq<Rule>)
    ensures Scan(rules, []) == 0
  {
    if rules != [] { NothingInNothing(rules[1..]); }
  }

  /** A text is refused exactly when the first rule it matches has a class. */
  lemma {:induction false} RefusedIff(rules: seq<Rule>, hay: Bytes)
    ensures Scan(rules, hay) != 0 <==>
      exists i :: 0 <= i < |rules| && Contains(hay, rules[i].pat) && rules[i].cls != 0 && forall k :: 0 <= k < i ==> !Contains(hay, rules[k].pat)
  {
    hide Contains;
    if Scan(rules, hay) != 0 { var i := FirstMatch(rules, hay); }
    if i :| 0 <= i < |rules| && Contains(hay, rules[i].pat) && rules[i].cls != 0 && forall k :: 0 <= k < i ==> !Contains(hay, rules[k].pat) {
      ScanSkips(rules, hay, i);
    }
  }

  lemma {:induction false} FirstMatch(rules: seq<Rule>, hay: Bytes) returns (i: nat)
    requires Scan(rules, hay) != 0
    ensures i < |rules| && Contains(hay, rules[i].pat) && rules[i].cls == Scan(rules, hay) && forall k :: 0 <= k < i ==> !Contains(hay, rules[k].pat)
  {
    hide Contains;
    if Contains(hay, rules[0].pat) {
      i := 0;
    } else {
      var j := FirstMatch(rules[1..], hay);
      i := j + 1;
      forall k | 0 <= k < i ensures !Contains(hay, rules[k].pat) { if k > 0 { assert rules[k] == rules[1..][k - 1]; } }
    }
  }

  lemma {:induction false} SomeMatch(rules: seq<Rule>, hay: Bytes, i: nat)
    requires i < |rules| && Contains(hay, rules[i].pat) && forall k :: 0 <= k < |rules| ==> rules[k].cls != 0
    ensures Scan(rules, hay) != 0
  {
    hide Contains;
    if !Contains(hay, rules[0].pat) { SomeMatch(rules[1..], hay, i - 1); }
  }

  /** The first n rules carry every genesis rule and have no class 0 among them. */
  predicate Fronts(g: Floor, e: Floor, n: nat)
    requires GenesisOk(g)
  {
    && n <= |Live(e)| && (forall k :: 0 <= k < n ==> Live(e)[k].cls != 0)
    && forall i :: 0 <= i < GENESIS_N ==> CopyIn(Live(e)[..n], g.rules[i])
  }

  predicate CopyIn(rules: seq<Rule>, r: Rule) { exists k :: 0 <= k < |rules| && rules[k].cls == r.cls && rules[k].pat == r.pat }

  /** No class 0 in front of the genesis rules. */
  ghost predicate Fronted(g: Floor, e: Floor)
    requires GenesisOk(g)
  {
    exists n: nat :: Fronts(g, e, n)
  }

  lemma {:induction false} ScanFront(front: seq<Rule>, more: seq<Rule>, hay: Bytes)
    requires Scan(front, hay) != 0
    ensures Scan(front + more, hay) == Scan(front, hay)
  {
    hide Contains;
    if !Contains(hay, front[0].pat) {
      ScanFront(front[1..], more, hay);
      assert (front + more)[1..] == front[1..] + more;
    }
  }

  /** Tighten only: with no rule of class 0 in front of the genesis rules, whatever the genesis
      refuses the head refuses. */
  lemma {:induction false} RefusalsStay(g: Floor, e: Floor, hay: Bytes)
    requires GenesisOk(g) && Fronted(g, e) && Scan(Live(g), hay) != 0
    ensures Scan(Live(e), hay) != 0
  {
    hide Contains;
    var n: nat :| Fronts(g, e, n);
    var i := FirstMatch(Live(g), hay);
    var front := Live(e)[..n];
    assert CopyIn(front, g.rules[i]);
    var k :| 0 <= k < |front| && front[k].cls == g.rules[i].cls && front[k].pat == g.rules[i].pat;
    assert front[k].pat == Live(g)[i].pat;
    SomeMatch(front, hay, k);
    ScanFront(front, Live(e)[n..], hay);
    assert Live(e) == front + Live(e)[n..];
  }

  /** The genesis is in that shape, and law_amend keeps it, whatever class it appends: no chain
      grown by law_amend from the genesis ever allows what the genesis refuses. */
  lemma {:induction false} AmendKeepsFront(g: Floor, hash: Floor -> Bytes, e: Floor, cls: nat, pattern: Bytes)
    requires GenesisOk(g)
    ensures Fronted(g, g)
    ensures e.nRules < RULE_MAX == |e.rules| && Fronted(g, e) ==> Fronted(g, Amended(hash, e, cls, pattern))
  {
    hide Folded, Contains;
    var all := Live(g)[..GENESIS_N];
    forall i | 0 <= i < GENESIS_N ensures CopyIn(all, g.rules[i]) { assert all[i] == g.rules[i]; }
    assert Fronts(g, g, GENESIS_N);
    if e.nRules < RULE_MAX == |e.rules| && Fronted(g, e) {
      var ne := Amended(hash, e, cls, pattern);
      var n: nat :| Fronts(g, e, n);
      assert Live(ne)[..n] == Live(e)[..n];
      forall k | 0 <= k < n ensures Live(ne)[k].cls != 0 { assert Live(ne)[k] == Live(e)[k]; }
      assert Fronts(g, ne, n);
    }
  }

  /** Without that condition it fails: a head the verifier accepts, with a rule of class 0 in
      front, lets through a text the genesis refuses. */
  lemma {:induction false} ClassZeroBlinds(g: Floor, hash: Floor -> Bytes) returns (e: Floor, st: Store, hay: Bytes)
    requires GenesisOk(g) && (forall a, b :: hash(a) == hash(b) ==> a == b) && forall a :: hash(a) != []
    ensures Walk(g, hash, st, hash(e), None, 0) && hash(e) in st && st[hash(e)] == e
    ensures Scan(Live(g), hay) != 0 && Scan(Live(e), hay) == 0
  {
    hide Contains;
    hay := g.rules[0].pat;
    e := g.(nRules := 22, rules := [Rule(0, false, hay)] + g.rules[..23], prev := hash(g));
    st := map[hash(g) := g, hash(e) := e];
    assert hash(e) != hash(g);
    FoundInItself(hay);
    assert Live(g)[0] == g.rules[0] && Live(e)[0] == Rule(0, false, hay);
    forall i | 0 <= i < Clamp(g) && g.rules[i].floor ensures HasRule(e, g.rules[i]) {
      var k := i + 1;
      assert e.rules[k] == g.rules[i];
    }
    GenesisVerifies(g);
    assert Walk(g, hash, st, hash(g), Some(e), 1);
  }

  lemma {:induction false} FoundInItself(pat: Bytes)
    requires pat != []
    ensures Contains(pat, pat)
  {
    assert MatchAt(pat, 0, pat);
  }

  lemma {:induction false} ScanAppend(rules: seq<Rule>, r: Rule, hay: Bytes)
    requires Scan(rules, hay) != 0
    ensures Scan(rules + [r], hay) == Scan(rules, hay)
  {
    hide Contains;
    var all := rules + [r];
    if !Contains(hay, rules[0].pat) {
      ScanAppend(rules[1..], r, hay);
      assert all[1..] == rules[1..] + [r];
    }
  }

  // ---------------------------------------------------------------- amendments

  /** The entry law_amend builds behind e. */
  function Amended(hash: Floor -> Bytes, e: Floor, cls: nat, pattern: Bytes): Floor
    requires e.nRules < RULE_MAX == |e.rules|
  {
    e.(nRules := e.nRules + 1, rules := e.rules[e.nRules := Rule(cls, true, Folded(pattern))],
       sq := (e.sq + 1) % 0x1_0000_0000, prev := hash(e), magic := MAGIC, version := VERSION)
  }

  /** It keeps all rules, in place, and adds one behind them: nothing refused is allowed again,
      whatever the class of the new rule. */
  lemma {:induction false} AmendTightens(hash: Floor -> Bytes, e: Floor, cls: nat, pattern: Bytes, hay: Bytes)
    requires e.nRules < RULE_MAX == |e.rules|
    ensures var ne := Amended(hash, e, cls, pattern);
            && Includes(ne, e) && Live(ne) == Live(e) + [Rule(cls, true, Folded(pattern))]
            && (Scan(Live(e), hay) != 0 ==> Scan(Live(ne), hay) == Scan(Live(e), hay))
  {
    hide Contains, Folded;
    var ne := Amended(hash, e, cls, pattern);
    assert Live(ne) == Live(e) + [Rule(cls, true, Folded(pattern))];
    forall i | 0 <= i < Clamp(e) && e.rules[i].floor ensures HasRule(ne, e.rules[i]) { assert ne.rules[i] == e.rules[i]; }
    if Scan(Live(e), hay) != 0 { ScanAppend(Live(e), Rule(cls, true, Folded(pattern)), hay); }
  }

  predicate Matched(rules: seq<Rule>, hay: Bytes) { exists i :: 0 <= i < |rules| && Contains(hay, rules[i].pat) }

  /** The class a text gets once the pattern is amended: that of the rules before, and where none
      of them matches, the new class if the pattern occurs in the text. */
  ghost function ScanWith(rules: seq<Rule>, cls: nat, pattern: Bytes, hay: Bytes): nat {
    if Matched(rules, hay) then Scan(rules, hay) else if Contains(hay, pattern) then cls else 0
  }

  lemma {:induction false} ScanSnoc(rules: seq<Rule>, r: Rule, hay: Bytes)
    ensures Scan(rules + [r], hay) == if Matched(rules, hay) then Scan(rules, hay) else if Contains(hay, r.pat) then r.cls else 0
  {
    hide Contains;
    var all := rules + [r];
    if rules == [] {
      assert all == [r] && all[1..] == [];
    } else {
      assert all[1..] == rules[1..] + [r] && all[0] == rules[0];
      ScanSnoc(rules[1..], r, hay);
      if i :| 0 <= i < |rules| && Contains(hay, rules[i].pat) {
        if i > 0 { assert rules[1..][i - 1] == rules[i]; }
      }
      if i :| 0 <= i < |rules[1..]| && Contains(hay, rules[1..][i].pat) { assert rules[i + 1] == rules[1..][i]; }
    }
  }

  /** What an amendment makes of every text. */
  lemma {:induction false} AmendScans(hash: Floor -> Bytes, e: Floor, cls: nat, pattern: Bytes, hay: Bytes)
    requires e.nRules < RULE_MAX == |e.rules|
    ensures Scan(Live(Amended(hash, e, cls, pattern)), hay) == ScanWith(Live(e), cls, pattern, hay)
  {
    hide Contains, Folded, Scan;
    AmendTightens(hash, e, cls, pattern, hay);
    ScanSnoc(Live(e), Rule(cls, true, Folded(pattern)), hay);
    FoldedMatches(hay, pattern);
  }

  /** A stored amendment of an accepted head is accepted, unless the chain is at its longest. */
  lemma {:induction false} AmendVerifies(g: Floor, hash: Floor -> Bytes, st: Store, st': Store, chain: seq<Floor>, cls: nat, pattern: Bytes)
    requires GenesisOk(g) && Chain(g, hash, st, chain) && |chain| <= 32
    requires (forall a, b :: hash(a) == hash(b) ==> a == b) && forall a :: hash(a) != []
    requires chain[0].nRules < RULE_MAX == |chain[0].rules|
    requires var ne := Amended(hash, chain[0], cls, pattern); st' == st[hash(ne) := ne]
    ensures Walk(g, hash, st', hash(Amended(hash, chain[0], cls, pattern)), None, 0)
  {
    hide BlobOk, GenesisOk, Carries, Amended, Walk;
    ChainMore(g, hash, st, chain, Amended(hash, chain[0], cls, pattern));
    StoredAmend(g, hash, st', chain, cls, pattern);
  }

  lemma {:induction false} AmendHead(hash: Floor -> Bytes, e: Floor, cls: nat, pattern: Bytes)
    requires e.nRules < RULE_MAX == |e.rules|
    ensures var ne := Amended(hash, e, cls, pattern); ne.magic == MAGIC && ne.version == VERSION && ne.prev == hash(e)
  {
  }

  lemma {:induction false} ChainMore(g: Floor, hash: Floor -> Bytes, st: Store, chain: seq<Floor>, ne: Floor)
    requires GenesisOk(g) && Chain(g, hash, st, chain) && forall a, b :: hash(a) == hash(b) ==> a == b
    ensures Chain(g, hash, st[hash(ne) := ne], chain)
  {
    hide BlobOk, GenesisOk, Carries;
    var st' := st[hash(ne) := ne];
    forall i | 0 <= i < |chain| ensures InStore(hash, st', chain[i]) { assert InStore(hash, st, chain[i]); }
    forall i, j | 0 <= i && j == i + 1 < |chain| ensures Amends(hash, chain[i], chain[j]) {}
  }

  predicate Heads(chain: seq<Floor>, e: Floor) { 0 < |chain| <= 32 && chain[0] == e }

  /** e heads a stored chain that has room for one more block. */
  ghost predicate ShortChain(g: Floor, hash: Floor -> Bytes, st: Store, e: Floor)
    requires GenesisOk(g)
  {
    exists chain :: Chain(g, hash, st, chain) && Heads(chain, e)
  }

  datatype Verdict = ALLOW | REFUSE | FAILSAFE

  /** The module state: the store, the persisted head, the active floor and its verdict
      (-1 unknown, 0 rejected, 1 verified). */
  class Conscience {
    const genesis: Floor
    const hash: Floor -> Bytes
    var store: Store
    var ref: Option<Bytes>
    var active: Floor
    var verified: int

    ghost predicate Valid() reads this {
      && GenesisOk(genesis) && (forall id :: id in store ==> |store[id].rules| == RULE_MAX)
      && (verified == 1 ==> CarriesGenesis(active))
    }

    /** The active floor carries every genesis rule. */
    ghost predicate CarriesGenesis(e: Floor) reads this {
      |e.rules| == RULE_MAX && |genesis.rules| >= GENESIS_N && Carries(e, genesis, GENESIS_N)
    }

    constructor (genesis: Floor, hash: Floor -> Bytes, store: Store, ref: Option<Bytes>)
      requires GenesisOk(genesis) && forall id :: id in store ==> |store[id].rules| == RULE_MAX
      ensures Valid()
    {
      this.genesis, this.hash, this.store, this.ref := genesis, hash, store, ref;
      active, verified := genesis, -1;
    }

    /** Some chain is persisted; else the genesis counts. */
    ghost predicate Persisted() reads this { ref.Some? && ref.value in store && store[ref.value].magic == MAGIC }

    /** What law_verify says. */
    ghost predicate Accepts()
      requires GenesisOk(genesis)
      reads this
    {
      Persisted() ==> Walk(genesis, hash, store, hash(store[ref.value]), None, 0)
    }

    /** The verdict and the floor a call finds: those at hand, or, if nothing was verified yet,
        those of law_verify. */
    ghost predicate Ready()
      requires GenesisOk(genesis)
      reads this
    {
      if verified < 0 then Accepts() else verified == 1
    }

    ghost function Base(): Floor
      reads this
    {
      if verified >= 0 then active
      else if Persisted() && hash(store[ref.value]) in store then store[hash(store[ref.value])]
      else genesis
    }

    /** law_verify: the persisted chain if there is one, else the genesis; fail closed. */
    method LawVerify() returns (ok: bool)
      requires Valid()
      modifies `active, `verified
      ensures Valid() && verified == (if ok then 1 else 0) && (ok <==> Accepts()) && (old(verified) < 0 && ok ==> active == old(Base()))
      ensures var chained := ref.Some? && ref.value in store && store[ref.value].magic == MAGIC;
              if chained then
                (ok <==> Walk(genesis, hash, store, hash(store[ref.value]), None, 0))
                && (ok ==> hash(store[ref.value]) in store && active == store[hash(store[ref.value])])
              else ok && active == genesis
    {
      hide Walk, BlobOk, Carries, HasRule, HasClass;
      if ref.Some? && ref.value in store && store[ref.value].magic == MAGIC {
        var id := hash(store[ref.value]);
        var head;
        ok, head := LawWalkVerify(genesis, hash, store, id);
        if !ok {
          verified := 0;
          return;
        }
        HeadKeepsGenesis(genesis, hash, store, id);
        active, verified := head.value, 1;
        return;
      }
      GenesisVerifies(genesis);
      ok := LawBlobOk(genesis, genesis);
      GenesisCarries(genesis);
      active, verified := genesis, 1;
    }

    /** conscience_check: fail closed, refuse on the first class found in either field. */
    method ConscienceCheck(text: Bytes, text2: Option<Bytes>) returns (v: Verdict)
      requires Valid()
      modifies `active, `verified
      ensures Valid() && (v == FAILSAFE <==> !old(Ready())) && (verified == 1 <==> old(Ready())) && (old(Ready()) ==> active == old(Base()))
      ensures verified == 1 ==>
                (v == REFUSE <==> Scan(Live(active), text) != 0 || (text2.Some? && Scan(Live(active), text2.value) != 0))
      ensures (Scan(Live(genesis), text) != 0 || (text2.Some? && Scan(Live(genesis), text2.value) != 0)) && Fronted(genesis, active) ==> v != ALLOW
    {
      hide Walk, BlobOk, Carries, HasRule, Scan, GenesisOk, Live, Fronts;
      if verified < 0 { var ignored := LawVerify(); }
      if verified != 1 { return FAILSAFE; }
      var cls := LexiconScanOne(active, text);
      if Fronted(genesis, active) {
        if Scan(Live(genesis), text) != 0 { RefusalsStay(genesis, active, text); }
        if text2.Some? && Scan(Live(genesis), text2.value) != 0 { RefusalsStay(genesis, active, text2.value); }
      }
      if cls == 0 && text2.Some? { cls := LexiconScanOne(active, text2.value); }
      v := if cls > 0 then REFUSE else ALLOW;
    }

    /** law_amend: one rule more, or nothing; a success is a verified chain whose head is the
        old floor with the new rule behind it.  `asked` tells whether the store was asked to take
        the new head, `saved` whether it did; from then on the verdict is that of the walk,
        and it is yes if the old floor heads a stored chain of at most 32 blocks. */
    method LawAmend(cls: nat, pattern: Bytes) returns (ok: bool, asked: bool, saved: bool)
      requires Valid()
      modifies this
      ensures Valid() && (ok ==> saved) && (saved ==> asked)
      ensures asked <==> old(Ready()) && 0 < |pattern| <= PAT_MAX && old(Base()).nRules < RULE_MAX && LawsOk(old(Base()))
      ensures saved && (forall a :: hash(a) != []) ==> ShortChain(genesis, hash, store, old(Base())) ==> ok
      ensures saved ==> 0 < |pattern| <= PAT_MAX
      ensures ok ==> verified == 1
      ensures !saved ==> ref == old(ref) && (old(verified) >= 0 ==> active == old(active) && verified == old(verified))
      ensures saved ==>
                && old(Base()).nRules < RULE_MAX == |old(Base()).rules|
                && var ne := Amended(hash, old(Base()), cls, pattern);
                   && ne.sq == (old(Base()).sq + 1) % 0x1_0000_0000 && ne.prev == hash(old(Base())) && ne.laws == old(Base()).laws
                   && ref == Some(hash(ne)) && hash(ne) in store && store[hash(ne)] == ne
                   && (ok <==> Walk(genesis, hash, store, hash(ne), None, 0)) && (ok ==> active == ne)
      ensures ok ==> forall hay :: Scan(Live(active), hay) == ScanWith(Live(old(Base())), cls, pattern, hay)
      ensures forall id :: id in old(store) && Some(id) != ref ==> id in store && store[id] == old(store)[id]
    {
      hide Walk, BlobOk, Carries, HasRule, GenesisOk, Amended, Chain, LawsOk, HasClass, Scan, ScanWith, Live, ShortChain, Heads, HasRule, Clamp;
      asked, saved := false, false;
      if verified < 0 { var ignored := LawVerify(); }
      if verified != 1 { return false, false, false; }
      if |pattern| == 0 || |pattern| > PAT_MAX { return false, false, false; }
      if active.nRules >= RULE_MAX { return false, false, false; }
      var was := active;
      var ne := Amended(hash, active, cls, pattern);
      AmendShape(hash, active, cls, pattern);
      AmendBlob(genesis, hash, active, cls, pattern);
      var put := *;
      if put && hash(active) !in store { store := store[hash(active) := active]; }
      ok := CarriesAll(ne, active, Clamp(active));
      if !ok { return; }
      ok := LawBlobOk(genesis, ne);
      if !ok { return; }
      asked := true;
      ok := *;
      if !ok { return; }
      saved := true;
      store := store[hash(ne) := ne];
      ref := Some(hash(ne));
      verified := -1;
      ok := LawVerify();
      ShortAmend(genesis, hash, store, was, cls, pattern);
      AmendScansAll(hash, was, cls, pattern);
    }
  }

  lemma {:induction false} ShortAmend(g: Floor, hash: Floor -> Bytes, st: Store, e: Floor, cls: nat, pattern: Bytes)
    requires GenesisOk(g) && e.nRules < RULE_MAX == |e.rules|
    requires var ne := Amended(hash, e, cls, pattern); hash(ne) in st && st[hash(ne)] == ne
    ensures ShortChain(g, hash, st, e) && (forall a :: hash(a) != []) ==> Walk(g, hash, st, hash(Amended(hash, e, cls, pattern)), None, 0)
  {
    hide Walk, GenesisOk, Amended, Chain;
    if ShortChain(g, hash, st, e) && forall a :: hash(a) != [] {
      var chain :| Chain(g, hash, st, chain) && Heads(chain, e);
      StoredAmend(g, hash, st, chain, cls, pattern);
    }
  }

  lemma {:induction false} AmendScansAll(hash: Floor -> Bytes, e: Floor, cls: nat, pattern: Bytes)
    requires e.nRules < RULE_MAX == |e.rules|
    ensures forall hay :: Scan(Live(Amended(hash, e, cls, pattern)), hay) == ScanWith(Live(e), cls, pattern, hay)
  {
    hide Scan, ScanWith, Amended, Live;
    forall hay ensures Scan(Live(Amended(hash, e, cls, pattern)), hay) == ScanWith(Live(e), cls, pattern, hay) { AmendScans(hash, e, cls, pattern, hay); }
  }

  /** The amendment of a floor that carries the genesis passes the blob test exactly if the
      floor's laws do. */
  lemma {:induction false} AmendBlob(g: Floor, hash: Floor -> Bytes, e: Floor, cls: nat, pattern: Bytes)
    requires GenesisOk(g) && e.nRules < RULE_MAX == |e.rules| && Carries(e, g, GENESIS_N)
    ensures var ne := Amended(hash, e, cls, pattern); Includes(ne, e) && (BlobOk(g, ne) <==> LawsOk(e))
  {
    hide Folded, Contains, Scan, HasClass, HasRule;
    var ne := Amended(hash, e, cls, pattern);
    AmendTightens(hash, e, cls, pattern, []);
    IncludesTrans(ne, e, g, GENESIS_N);
    ClassCarried(g, ne, 1);
    ClassCarried(g, ne, 2);
    ClassCarried(g, ne, 3);
  }

  lemma {:induction false} ClassCarried(g: Floor, e: Floor, cls: nat)
    requires GenesisOk(g) && Carries(e, g, GENESIS_N) && HasClass(g, cls)
    ensures HasClass(e, cls)
  {
    var i :| 0 <= i < Clamp(g) && g.rules[i].floor && g.rules[i].cls == cls;
    assert HasRule(e, g.rules[i]);
  }

  lemma {:induction false} StoredAmend(g: Floor, hash: Floor -> Bytes, st: Store, chain: seq<Floor>, cls: nat, pattern: Bytes)
    requires GenesisOk(g) && Chain(g, hash, st, chain) && |chain| <= 32 && forall a :: hash(a) != []
    requires chain[0].nRules < RULE_MAX == |chain[0].rules|
    requires var ne := Amended(hash, chain[0], cls, pattern); hash(ne) in st && st[hash(ne)] == ne
    ensures Walk(g, hash, st, hash(Amended(hash, chain[0], cls, pattern)), None, 0)
  {
    hide BlobOk, GenesisOk, Carries, Amended, Walk;
    var ne := Amended(hash, chain[0], cls, pattern);
    AmendTightens(hash, chain[0], cls, pattern, []);
    AmendHead(hash, chain[0], cls, pattern);
    ChainCons(g, hash, st, ne, chain);
    ChainIsWalked(g, hash, st, [ne] + chain, None, 0);
  }

  lemma {:induction false} AmendShape(hash: Floor -> Bytes, e: Floor, cls: nat, pattern: Bytes)
    requires e.nRules < RULE_MAX == |e.rules|
    ensures var ne := Amended(hash, e, cls, pattern);
            && |ne.rules| == RULE_MAX && ne.magic == MAGIC && ne.sq == (e.sq + 1) % 0x1_0000_0000 && ne.prev == hash(e) && ne.laws == e.laws
  {
  }

  lemma {:induction false} GenesisCarries(g: Floor)
    requires GenesisOk(g)
    ensures |g.rules| == RULE_MAX && Carries(g, g, GENESIS_N)
  {
    SelfIncludes(g);
  }
}
