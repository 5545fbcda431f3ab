/** The order-fixed fold of arch/common/dkva.c: contributions arrive in any order, the totals
    come out as one fixed order gives them, whatever the addition. */
module Fold {
  import opened Wrappers

  const DNODE_MAX: nat := 64
  const ALIVE: nat := 1
  const SUSPECT: nat := 2

  /** A packet as its components (numerators and denominators side by side). */
  type Packet<V> = seq<V>

  /** What arrived: the source, partial or region summary, and the packet. */
  datatype Arrival<V> = Arrival(node: nat, rsum: bool, pkt: Packet<V>)

  /** DKVA_FOLD. */
  datatype Table<V> = Table(resp: seq<Option<Packet<V>>>, rsum: seq<Option<Packet<V>>>)

  predicate Shaped<V>(t: Table<V>, width: nat) {
    && |t.resp| == DNODE_MAX && |t.rsum| == DNODE_MAX
    && forall n :: 0 <= n < DNODE_MAX ==> (t.resp[n].Some? ==> |t.resp[n].value| == width) && (t.rsum[n].Some? ==> |t.rsum[n].value| == width)
  }

  function AddOpt<V>(add: (V, V) -> V, a: V, p: Option<Packet<V>>, k: nat): V
    requires p.Some? ==> k < |p.value|
  {
    if p.Some? then add(a, p.value[k]) else a
  }

  /** Component k of the totals: self, then ids ascending, the partial before the summary. */
  function Total<V>(add: (V, V) -> V, t: Table<V>, k: nat, width: nat, self: V, n: nat): V
    requires Shaped(t, width) && k < width && n <= DNODE_MAX
  {
    if n == 0 then self
    else AddOpt(add, AddOpt(add, Total(add, t, k, width, self, n - 1), t.resp[n - 1], k), t.rsum[n - 1], k)
  }

  // ---------------------------------------------------------------- which contributions count

  /** The first arrival of this source and kind. */
  function First<V>(arr: seq<Arrival<V>>, node: nat, rsum: bool): Option<Packet<V>> {
    if arr == [] then None
    else if arr[0].node == node && arr[0].rsum == rsum then Some(arr[0].pkt)
    else First(arr[1..], node, rsum)
  }

  /** My own partial and my own region's summary are not taken. */
  function Chosen<V>(arr: seq<Arrival<V>>, me: nat, coord: nat): Table<V> {
    Table(seq(DNODE_MAX, n requires 0 <= n < DNODE_MAX => if n == me then None else First(arr, n, false)),
          seq(DNODE_MAX, n requires 0 <= n < DNODE_MAX => if n == coord then None else First(arr, n, true)))
  }

  predicate AllWidth<V>(arr: seq<Arrival<V>>, width: nat) { forall i :: 0 <= i < |arr| ==> |arr[i].pkt| == width }

  lemma {:induction false} FirstIs<V>(arr: seq<Arrival<V>>, node: nat, rsum: bool)
    ensures First(arr, node, rsum).Some? ==> exists i :: 0 <= i < |arr| && arr[i] == Arrival(node, rsum, First(arr, node, rsum).value)
    ensures First(arr, node, rsum).None? ==> forall i :: 0 <= i < |arr| ==> arr[i].node != node || arr[i].rsum != rsum
  {
    if arr != [] {
      var rest := arr[1..];
      FirstIs(rest, node, rsum);
      if arr[0].node == node && arr[0].rsum == rsum {
        assert arr[0] == Arrival(node, rsum, arr[0].pkt);
      } else {
        if First(rest, node, rsum).Some? {
          var i :| 0 <= i < |rest| && rest[i] == Arrival(node, rsum, First(rest, node, rsum).value);
          assert arr[i + 1] == rest[i];
        }
        forall i | 0 <= i < |arr| && First(rest, node, rsum).None? ensures arr[i].node != node || arr[i].rsum != rsum {
          if i > 0 { assert arr[i] == rest[i - 1]; }
        }
      }
    }
  }

  /** One source sends one packet of each kind. */
  predicate Consistent<V(==)>(arr: seq<Arrival<V>>) {
    forall i, j :: 0 <= i < |arr| && 0 <= j < |arr| && arr[i].node == arr[j].node && arr[i].rsum == arr[j].rsum ==> arr[i] == arr[j]
  }

  /** Only which contributions arrived matters, not when or how often. */
  lemma {:induction false} FirstOrderFree<V>(a: seq<Arrival<V>>, b: seq<Arrival<V>>, node: nat, rsum: bool)
    requires Consistent(a) && forall x :: x in a <==> x in b
    ensures First(a, node, rsum) == First(b, node, rsum)
  {
    FirstIs(a, node, rsum);
    FirstIs(b, node, rsum);
    if First(a, node, rsum).Some? {
      var x := Arrival(node, rsum, First(a, node, rsum).value);
      assert x in a && x in b;
    }
    if First(b, node, rsum).Some? {
      var y := Arrival(node, rsum, First(b, node, rsum).value);
      assert y in b && y in a;
    }
  }

  lemma {:induction false} ChosenOrderFree<V>(a: seq<Arrival<V>>, b: seq<Arrival<V>>, me: nat, coord: nat)
    requires Consistent(a) && forall x :: x in a <==> x in b
    ensures Chosen(a, me, coord) == Chosen(b, me, coord)
  {
    hide First, Consistent;
    forall n: nat, rsum | n < DNODE_MAX ensures First(a, n, rsum) == First(b, n, rsum) { FirstOrderFree(a, b, n, rsum); }
  }

  lemma {:induction false} ChosenShaped<V>(arr: seq<Arrival<V>>, me: nat, coord: nat, width: nat)
    requires AllWidth(arr, width)
    ensures Shaped(Chosen(arr, me, coord), width)
  {
    forall n: nat, rsum | n < DNODE_MAX ensures First(arr, n, rsum).Some? ==> |First(arr, n, rsum).value| == width { FirstIs(arr, n, rsum); }
  }

  lemma {:induction false} FirstSnoc<V>(arr: seq<Arrival<V>>, x: Arrival<V>, node: nat, rsum: bool)
    ensures First(arr + [x], node, rsum) ==
      if First(arr, node, rsum).Some? then First(arr, node, rsum)
      else if x.node == node && x.rsum == rsum then Some(x.pkt) else None
  {
    if arr != [] {
      assert (arr + [x])[1..] == arr[1..] + [x];
      FirstSnoc(arr[1..], x, node, rsum);
    }
  }

  // ---------------------------------------------------------------- the requester

  class Requester<V(0)> {
    const add: (V, V) -> V
    const width: nat
    const me: nat
    const coord: nat
    const resp: array<Option<Packet<V>>>
    const rsum: array<Option<Packet<V>>>
    const total: array<V>

    ghost predicate Valid() reads this, resp, rsum, total {
      && resp.Length == DNODE_MAX && rsum.Length == DNODE_MAX && total.Length == width && resp != rsum
      && (total as object) != (resp as object) && (total as object) != (rsum as object)
      && Shaped(Table(resp[..], rsum[..]), width)
    }

    ghost function Held(): Table<V> reads this, resp, rsum { Table(resp[..], rsum[..]) }

    /** The totals start as the requester's own partial. */
    constructor (add: (V, V) -> V, me: nat, coord: nat, self: Packet<V>)
      ensures Valid() && this.add == add && width == |self| && this.me == me && this.coord == coord && total[..] == self
      ensures Held() == Table(seq(DNODE_MAX, _ => None), seq(DNODE_MAX, _ => None)) && fresh(resp) && fresh(rsum) && fresh(total)
    {
      this.add, this.me, this.coord, width := add, me, coord, |self|;
      resp := new Option<Packet<V>>[DNODE_MAX](_ => None);
      rsum := new Option<Packet<V>>[DNODE_MAX](_ => None);
      total := new V[|self|](i requires 0 <= i < |self| => self[i]);
      new;
      assert resp[..] == seq(DNODE_MAX, _ => None) && rsum[..] == seq(DNODE_MAX, _ => None);
    }

    /** One packet of the window: taken if it is the first of its source and kind. */
    method Offer(x: Arrival<V>, ghost before: seq<Arrival<V>>)
      requires Valid() && |x.pkt| == width && Held() == Chosen(before, me, coord)
      modifies resp, rsum
      ensures Valid() && Held() == Chosen(before + [x], me, coord)
    {
      hide First;
      if x.node < DNODE_MAX {
        if !x.rsum && x.node != me && resp[x.node].None? {
          resp[x.node] := Some(x.pkt);
        } else if x.rsum && x.node != coord && rsum[x.node].None? {
          rsum[x.node] := Some(x.pkt);
        }
      }
      forall n: nat, kind | n < DNODE_MAX
        ensures First(before + [x], n, kind) == if First(before, n, kind).Some? then First(before, n, kind)
                                                else if x.node == n && x.rsum == kind then Some(x.pkt) else None
      {
        FirstSnoc(before, x, n, kind);
      }
      assert resp[..] == Chosen(before + [x], me, coord).resp;
      assert rsum[..] == Chosen(before + [x], me, coord).rsum;
    }

    /** accumulate: one packet added component by component. */
    method Accumulate(p: Packet<V>)
      requires total.Length == |p|
      modifies total
      ensures forall k :: 0 <= k < total.Length ==> total[k] == add(old(total[k]), p[k])
    {
      var k := 0;
      while k < total.Length
        invariant k <= total.Length
        invariant forall j :: 0 <= j < total.Length ==> total[j] == if j < k then add(old(total[j]), p[j]) else old(total[j])
      {
        total[k] := add(total[k], p[k]);
        k := k + 1;
      }
    }

    /** fold_finish: ids ascending, the partial before the summary. */
    method Finish()
      requires Valid()
      modifies total
      ensures Valid() && forall k :: 0 <= k < width ==> total[k] == Total(add, Held(), k, width, old(total[k]), DNODE_MAX)
    {
      var n := 0;
      while n < DNODE_MAX
        invariant n <= DNODE_MAX && Valid()
        invariant forall k :: 0 <= k < width ==> total[k] == Total(add, Held(), k, width, old(total[k]), n)
      {
        if resp[n].Some? { Accumulate(resp[n].value); }
        if rsum[n].Some? { Accumulate(rsum[n].value); }
        n := n + 1;
      }
    }
  }

  /** The collection of dkva_infer over a window in which these packets arrive in this order:
      the totals are the fixed-order fold of the first packet of each source and kind. */
  method Infer<V(0)>(add: (V, V) -> V, me: nat, coord: nat, self: Packet<V>, arrivals: seq<Arrival<V>>) returns (totals: Packet<V>)
    requires AllWidth(arrivals, |self|)
    ensures |totals| == |self| && Shaped(Chosen(arrivals, me, coord), |self|)
    ensures forall k :: 0 <= k < |self| ==> totals[k] == Total(add, Chosen(arrivals, me, coord), k, |self|, self[k], DNODE_MAX)
  {
    hide First;
    var r := new Requester(add, me, coord, self);
    var i := 0;
    NothingChosen<V>(me, coord);
    while i < |arrivals|
      invariant i <= |arrivals| && r.Valid() && r.Held() == Chosen(arrivals[..i], me, coord) && r.total[..] == self
      invariant fresh(r) && fresh(r.resp) && fresh(r.rsum) && fresh(r.total)
    {
      r.Offer(arrivals[i], arrivals[..i]);
      assert arrivals[..i] + [arrivals[i]] == arrivals[..i + 1];
      i := i + 1;
    }
    assert arrivals[..i] == arrivals;
    r.Finish();
    totals := r.total[..];
  }

  lemma {:induction false} NothingChosen<V>(me: nat, coord: nat)
    ensures Chosen<V>([], me, coord) == Table(seq(DNODE_MAX, _ => None), seq(DNODE_MAX, _ => None))
  {
  }

  /** Order-free: the same contributions in any order, any number of times, give the same
      totals, for any addition, associative or not. */
  lemma {:induction false} OrderFree<V>(add: (V, V) -> V, a: seq<Arrival<V>>, b: seq<Arrival<V>>, me: nat, coord: nat, width: nat, k: nat, self: V)
    requires AllWidth(a, width) && AllWidth(b, width) && Consistent(a) && (forall x :: x in a <==> x in b) && k < width
    ensures Shaped(Chosen(a, me, coord), width) && Shaped(Chosen(b, me, coord), width)
    ensures Total(add, Chosen(a, me, coord), k, width, self, DNODE_MAX) == Total(add, Chosen(b, me, coord), k, width, self, DNODE_MAX)
  {
    hide Total, Chosen, Shaped, First;
    ChosenShaped(a, me, coord, width);
    ChosenShaped(b, me, coord, width);
    ChosenOrderFree(a, b, me, coord);
  }

  // ---------------------------------------------------------------- the fixed order

  /** Where a contribution came from. */
  datatype Tag = Tag(node: nat, rsum: bool)

  /** Ids ascending, the partial before the summary. */
  predicate Before(x: Tag, y: Tag) { x.node < y.node || (x.node == y.node && !x.rsum && y.rsum) }

  function Join(a: seq<Tag>, b: seq<Tag>): seq<Tag> { a + b }

  /** Every contribution is the one-element list of its own tag. */
  predicate Tagged(t: Table<seq<Tag>>) {
    && Shaped(t, 1)
    && forall n :: 0 <= n < DNODE_MAX ==>
         (t.resp[n].Some? ==> t.resp[n].value == [[Tag(n, false)]]) && (t.rsum[n].Some? ==> t.rsum[n].value == [[Tag(n, true)]])
  }

  predicate Has(t: Table<seq<Tag>>, x: Tag)
    requires Shaped(t, 1)
  {
    x.node < DNODE_MAX && if x.rsum then t.rsum[x.node].Some? else t.resp[x.node].Some?
  }

  predicate Sorted(s: seq<Tag>) { forall i, j :: 0 <= i < j < |s| ==> Before(s[i], s[j]) }

  lemma {:induction false} SortedMore(s: seq<Tag>, x: Tag)
    requires Sorted(s) && forall y :: y in s ==> Before(y, x)
    ensures Sorted(s + [x]) && forall y :: y in s + [x] <==> y in s || y == x
  {
    forall i | 0 <= i < |s| ensures Before(s[i], x) { assert s[i] in s; }
  }

  /** The order in which contributions are added, seen through an addition that forgets nothing:
      each of them once, by ascending id, the partial of a node before its summary. */
  lemma {:induction false} FixedOrder(t: Table<seq<Tag>>, n: nat)
    requires Tagged(t) && n <= DNODE_MAX
    ensures var s := Total(Join, t, 0, 1, [], n);
            Sorted(s) && forall x :: x in s <==> x.node < n && Has(t, x)
  {
    hide Sorted;
    if n > 0 {
      var m := n - 1;
      FixedOrder(t, m);
      var s := Total(Join, t, 0, 1, [], m);
      var mid := AddOpt(Join, s, t.resp[m], 0);
      if t.resp[m].Some? { SortedMore(s, Tag(m, false)); }
      assert mid == if t.resp[m].Some? then s + [Tag(m, false)] else s;
      if t.rsum[m].Some? { SortedMore(mid, Tag(m, true)); }
    } else {
      assert Total(Join, t, 0, 1, [], 0) == [];
      SortedNone();
    }
  }

  lemma {:induction false} SortedNone()
    ensures Sorted([])
  {
  }

  // ---------------------------------------------------------------- region summaries are exact

  function Sum(f: nat -> real, n: nat): real {
    if n == 0 then 0.0 else Sum(f, n - 1) + f(n - 1)
  }

  lemma {:induction false} SumAdd(f: nat -> real, g: nat -> real, h: nat -> real, n: nat)
    requires forall i :: 0 <= i < n ==> h(i) == f(i) + g(i)
    ensures Sum(h, n) == Sum(f, n) + Sum(g, n)
  {
    if n > 0 { SumAdd(f, g, h, n - 1); }
  }

  lemma {:induction false} SumSame(f: nat -> real, g: nat -> real, n: nat)
    requires forall i :: 0 <= i < n ==> f(i) == g(i)
    ensures Sum(f, n) == Sum(g, n)
  {
    if n > 0 { SumSame(f, g, n - 1); }
  }

  lemma {:induction false} SumOne(f: nat -> real, r: nat, v: real, n: nat)
    requires forall i :: 0 <= i < n ==> f(i) == if i == r then v else 0.0
    ensures Sum(f, n) == if r < n then v else 0.0
  {
    if n > 0 { SumOne(f, r, v, n - 1); }
  }

  function Plus(a: real, b: real): real { a + b }

  function ValueOf(p: Option<Packet<real>>): real {
    if p.Some? && |p.value| > 0 then p.value[0] else 0.0
  }

  function RespOf(t: Table<real>): nat -> real { (i: nat) => if i < |t.resp| then ValueOf(t.resp[i]) else 0.0 }

  function RsumOf(t: Table<real>): nat -> real { (i: nat) => if i < |t.rsum| then ValueOf(t.rsum[i]) else 0.0 }

  /** Over exact numbers the fixed order does not show in the total. */
  lemma {:induction false} TotalIsSum(t: Table<real>, self: real, n: nat)
    requires Shaped(t, 1) && n <= DNODE_MAX
    ensures Total(Plus, t, 0, 1, self, n) == self + Sum(RespOf(t), n) + Sum(RsumOf(t), n)
  {
    if n > 0 { TotalIsSum(t, self, n - 1); }
  }

  /** The cluster as the requester sees it: who contributes, who shares its region, which
      coordinator speaks for each of the others, and what each would contribute. */
  datatype Cluster = Cluster(me: nat, live: nat -> bool, member: nat -> bool, region: nat -> nat, x: nat -> real)

  predicate Near(c: Cluster, n: nat) { n != c.me && c.live(n) && c.member(n) }

  predicate Far(c: Cluster, n: nat) { n != c.me && c.live(n) && !c.member(n) }

  function NearPart(c: Cluster): nat -> real { (n: nat) => if Near(c, n) then c.x(n) else 0.0 }

  function FarPart(c: Cluster): nat -> real { (n: nat) => if Far(c, n) then c.x(n) else 0.0 }

  function InRegion(c: Cluster, r: nat): nat -> real { (n: nat) => if Far(c, n) && c.region(n) == r then c.x(n) else 0.0 }

  /** What the first k nodes of region r add up to. */
  function Part(c: Cluster, k: nat): nat -> real { (r: nat) => Sum(InRegion(c, r), k) }

  /** What node j adds to each region. */
  function AtNode(c: Cluster, j: nat): nat -> real { (r: nat) => InRegion(c, r)(j) }

  lemma {:induction false} OneRegion(c: Cluster, j: nat)
    requires Far(c, j) ==> c.region(j) < DNODE_MAX
    ensures Sum(AtNode(c, j), DNODE_MAX) == FarPart(c)(j)
  {
    hide Sum, Far;
    var f, v := AtNode(c, j), FarPart(c)(j);
    var r := if Far(c, j) then c.region(j) else DNODE_MAX;
    forall i | 0 <= i < DNODE_MAX ensures f(i) == if i == r then v else 0.0 { assert f(i) == InRegion(c, i)(j); }
    SumOne(f, r, v, DNODE_MAX);
  }

  lemma {:induction false} PartGrows(c: Cluster, j: nat)
    ensures Sum(Part(c, j + 1), DNODE_MAX) == Sum(Part(c, j), DNODE_MAX) + Sum(AtNode(c, j), DNODE_MAX)
  {
    hide Sum, InRegion;
    var a, b, both := Part(c, j), AtNode(c, j), Part(c, j + 1);
    forall r | 0 <= r < DNODE_MAX ensures both(r) == a(r) + b(r) { SumNext(InRegion(c, r), j); }
    SumAdd(a, b, both, DNODE_MAX);
  }

  /** Adding up the regions adds up the nodes. */
  lemma {:induction false} RegionsAddUp(c: Cluster, k: nat)
    requires forall n :: 0 <= n < k && Far(c, n) ==> c.region(n) < DNODE_MAX
    ensures Sum(Part(c, k), DNODE_MAX) == Sum(FarPart(c), k)
  {
    hide Far, FarPart, AtNode, Part, Sum;
    if k == 0 {
      NoParts(c);
    } else {
      RegionsAddUp(c, k - 1);
      PartGrows(c, k - 1);
      OneRegion(c, k - 1);
      SumNext(FarPart(c), k - 1);
    }
  }

  lemma {:induction false} NoParts(c: Cluster)
    ensures Sum(Part(c, 0), DNODE_MAX) == 0.0 == Sum(FarPart(c), 0)
  {
    SumOne(Part(c, 0), DNODE_MAX, 0.0, DNODE_MAX);
  }

  lemma {:induction false} SumNext(f: nat -> real, n: nat)
    ensures Sum(f, n + 1) == Sum(f, n) + f(n)
  {
  }

  /** Every near node sent its partial, every far region its summary. */
  ghost predicate ByRegion(c: Cluster, t: Table<real>) {
    && Shaped(t, 1)
    && (forall n :: 0 <= n < DNODE_MAX ==> t.resp[n] == if Near(c, n) then Some([c.x(n)]) else None)
    && (forall r :: 0 <= r < DNODE_MAX ==> ValueOf(t.rsum[r]) == Part(c, DNODE_MAX)(r))
  }

  /** Every node sent its partial directly. */
  ghost predicate Direct(c: Cluster, t: Table<real>) {
    && Shaped(t, 1)
    && forall n :: 0 <= n < DNODE_MAX ==> t.rsum[n] == None && t.resp[n] == if Near(c, n) || Far(c, n) then Some([c.x(n)]) else None
  }

  /** Over exact numbers the hierarchy changes nothing: folding region summaries gives the
      total of folding every node. */
  lemma {:induction false} HierarchyIsExact(c: Cluster, byRegion: Table<real>, direct: Table<real>)
    requires ByRegion(c, byRegion) && Direct(c, direct) && forall n :: 0 <= n < DNODE_MAX && Far(c, n) ==> c.region(n) < DNODE_MAX
    ensures Total(Plus, byRegion, 0, 1, c.x(c.me), DNODE_MAX) == Total(Plus, direct, 0, 1, c.x(c.me), DNODE_MAX)
  {
    hide Total, Part, Sum, RespOf, RsumOf, FarPart, NearPart;
    TotalIsSum(byRegion, c.x(c.me), DNODE_MAX);
    TotalIsSum(direct, c.x(c.me), DNODE_MAX);
    RegionSums(c, byRegion);
    DirectSums(c, direct);
    RegionsAddUp(c, DNODE_MAX);
  }

  lemma {:induction false} RegionSums(c: Cluster, t: Table<real>)
    requires ByRegion(c, t)
    ensures Sum(RespOf(t), DNODE_MAX) == Sum(NearPart(c), DNODE_MAX) && Sum(RsumOf(t), DNODE_MAX) == Sum(Part(c, DNODE_MAX), DNODE_MAX)
  {
    hide Sum, Near, Part;
    var near, far, all, sums := NearPart(c), Part(c, DNODE_MAX), RespOf(t), RsumOf(t);
    forall n | 0 <= n < DNODE_MAX ensures all(n) == near(n) && sums(n) == far(n) {
      assert t.resp[n] == if Near(c, n) then Some([c.x(n)]) else None;
    }
    SumSame(all, near, DNODE_MAX);
    SumSame(sums, far, DNODE_MAX);
  }

  lemma {:induction false} NotBoth(c: Cluster, n: nat)
    requires Far(c, n)
    ensures !Near(c, n)
  {
  }

  lemma {:induction false} DirectSums(c: Cluster, t: Table<real>)
    requires Direct(c, t)
    ensures Sum(RespOf(t), DNODE_MAX) == Sum(NearPart(c), DNODE_MAX) + Sum(FarPart(c), DNODE_MAX) && Sum(RsumOf(t), DNODE_MAX) == 0.0
  {
    hide Sum, Near;
    var near, far, all, none := NearPart(c), FarPart(c), RespOf(t), RsumOf(t);
    forall n | 0 <= n < DNODE_MAX ensures all(n) == near(n) + far(n) && none(n) == 0.0 {
      assert t.rsum[n] == None;
      if Far(c, n) { NotBoth(c, n); }
    }
    SumAdd(near, far, all, DNODE_MAX);
    SumOne(none, DNODE_MAX, 0.0, DNODE_MAX);
  }

  // ---------------------------------------------------------------- every node once

  /** What arrived is genuine: near nodes sent their own contribution, coordinators of other
      regions the sum of theirs.  Whatever came from the requester itself, and from its own
      coordinator as a summary, may say anything. */
  ghost predicate Genuine(c: Cluster, coord: nat, arr: seq<Arrival<real>>) {
    forall i :: 0 <= i < |arr| ==>
      && |arr[i].pkt| == 1
      && (!arr[i].rsum && arr[i].node != c.me ==> Near(c, arr[i].node) && arr[i].pkt == [c.x(arr[i].node)])
      && (arr[i].rsum && arr[i].node != coord ==> arr[i].pkt == [Part(c, DNODE_MAX)(arr[i].node)])
  }

  predicate Came(arr: seq<Arrival<real>>, node: nat, rsum: bool) { exists i :: 0 <= i < |arr| && arr[i].node == node && arr[i].rsum == rsum }

  /** Nothing is missing: a partial of every near node, a summary of every region with a far node. */
  ghost predicate Complete(c: Cluster, arr: seq<Arrival<real>>) {
    forall n :: 0 <= n < DNODE_MAX ==> (Near(c, n) ==> Came(arr, n, false)) && (Far(c, n) ==> Came(arr, c.region(n), true))
  }

  /** Far nodes belong to other regions than the requester's own. */
  predicate Apart(c: Cluster, coord: nat) { forall n :: 0 <= n < DNODE_MAX && Far(c, n) ==> c.region(n) < DNODE_MAX && c.region(n) != coord }

  function Others(c: Cluster): nat -> real { (n: nat) => if n != c.me && c.live(n) then c.x(n) else 0.0 }

  lemma {:induction false} EmptyRegion(c: Cluster, r: nat)
    requires forall n :: 0 <= n < DNODE_MAX && Far(c, n) ==> c.region(n) != r
    ensures Part(c, DNODE_MAX)(r) == 0.0
  {
    hide Sum, Far;
    SumOne(InRegion(c, r), DNODE_MAX, 0.0, DNODE_MAX);
  }

  lemma {:induction false} ChosenByRegion(c: Cluster, coord: nat, arr: seq<Arrival<real>>)
    requires Genuine(c, coord, arr) && Complete(c, arr) && Apart(c, coord)
    ensures ByRegion(c, Chosen(arr, c.me, coord))
  {
    hide First, Part, Far, Sum;
    var t := Chosen(arr, c.me, coord);
    ChosenShaped(arr, c.me, coord, 1);
    forall n | 0 <= n < DNODE_MAX ensures t.resp[n] == if Near(c, n) then Some([c.x(n)]) else None { FirstIs(arr, n, false); }
    forall r | 0 <= r < DNODE_MAX ensures ValueOf(t.rsum[r]) == Part(c, DNODE_MAX)(r) {
      FirstIs(arr, r, true);
      if t.rsum[r].None? { EmptyRegion(c, r); }
    }
  }

  /** Over exact numbers the totals count every live node once, in whatever order its
      contribution or that of its region came, and whatever came besides from the requester and
      from its own coordinator. */
  lemma {:induction false} EveryNodeOnce(c: Cluster, coord: nat, arr: seq<Arrival<real>>)
    requires Genuine(c, coord, arr) && Complete(c, arr) && Apart(c, coord)
    ensures Shaped(Chosen(arr, c.me, coord), 1)
    ensures Total(Plus, Chosen(arr, c.me, coord), 0, 1, c.x(c.me), DNODE_MAX) == c.x(c.me) + Sum(Others(c), DNODE_MAX)
  {
    hide Total, Part, Sum, RespOf, RsumOf, First, Chosen, Genuine, Complete;
    var t := Chosen(arr, c.me, coord);
    ChosenByRegion(c, coord, arr);
    TotalIsSum(t, c.x(c.me), DNODE_MAX);
    RegionSums(c, t);
    RegionsAddUp(c, DNODE_MAX);
    SumAdd(NearPart(c), FarPart(c), Others(c), DNODE_MAX);
  }

  // ---------------------------------------------------------------- whom to wait for

  function CountTrue(s: seq<bool>): nat {
    if s == [] then 0 else CountTrue(s[..|s| - 1]) + if s[|s| - 1] then 1 else 0
  }

  lemma {:induction false} CountSet(s: seq<bool>, i: nat)
    requires i < |s| && !s[i]
    ensures CountTrue(s[i := true]) == CountTrue(s) + 1
  {
    var n := |s| - 1;
    if i == n {
      assert s[i := true][..n] == s[..n];
    } else {
      assert s[i := true][..n] == s[..n][i := true];
      CountSet(s[..n], i);
    }
  }

  lemma {:induction false} CountNone(n: nat)
    ensures CountTrue(seq(n, _ => false)) == 0
  {
    if n > 0 {
      assert seq(n, _ => false)[..n - 1] == seq(n - 1, _ => false);
      CountNone(n - 1);
    }
  }

  predicate Alive(state: seq<nat>, me: nat, n: nat)
    requires n < |state|
  {
    n != me && (state[n] == ALIVE || state[n] == SUSPECT)
  }

  predicate Known(region: seq<int>, me: nat, n: nat)
    requires n < |region|
  {
    0 <= region[n] < DNODE_MAX && region[n] != me
  }

  /** dkva_expect_core: live members are waited for one by one, the others through one summary
      per confirmed region, and live nodes without a confirmed region are kept apart. */
  method ExpectCore(me: nat, state: seq<nat>, member: seq<bool>, region: seq<int>)
      returns (expect_: seq<bool>, rcExpect: seq<bool>, uncertain: seq<bool>, expCnt: nat, rcCnt: nat, uncertainCnt: nat)
    requires |state| == |member| == |region| == DNODE_MAX
    ensures |expect_| == |rcExpect| == |uncertain| == DNODE_MAX
    ensures forall n :: 0 <= n < DNODE_MAX ==> (expect_[n] <==> n != me && (state[n] == 1 || state[n] == 2) && member[n])
    ensures forall n :: 0 <= n < DNODE_MAX ==>
              (uncertain[n] <==> n != me && (state[n] == 1 || state[n] == 2) && !member[n] && (region[n] < 0 || region[n] >= DNODE_MAX || region[n] == me))
    ensures forall c :: 0 <= c < DNODE_MAX ==>
              (rcExpect[c] <==> c != me && exists n :: 0 <= n < DNODE_MAX && n != me && (state[n] == 1 || state[n] == 2) && !member[n] && region[n] == c)
    ensures expCnt == CountTrue(expect_) && rcCnt == CountTrue(rcExpect) && uncertainCnt == CountTrue(uncertain)
  {
    expect_, rcExpect, uncertain := seq(DNODE_MAX, _ => false), seq(DNODE_MAX, _ => false), seq(DNODE_MAX, _ => false);
    expCnt, rcCnt, uncertainCnt := 0, 0, 0;
    CountNone(DNODE_MAX);
    var n := 0;
    while n < DNODE_MAX
      invariant n <= DNODE_MAX && |expect_| == |rcExpect| == |uncertain| == DNODE_MAX
      invariant forall k :: 0 <= k < DNODE_MAX ==> (expect_[k] <==> k < n && Alive(state, me, k) && member[k])
      invariant forall k :: 0 <= k < DNODE_MAX ==> (uncertain[k] <==> k < n && Alive(state, me, k) && !member[k] && !Known(region, me, k))
      invariant forall c :: 0 <= c < DNODE_MAX ==>
                  (rcExpect[c] <==> exists k :: 0 <= k < n && Alive(state, me, k) && !member[k] && Known(region, me, k) && region[k] == c)
      invariant expCnt == CountTrue(expect_) && rcCnt == CountTrue(rcExpect) && uncertainCnt == CountTrue(uncertain)
    {
      if Alive(state, me, n) {
        if member[n] {
          CountSet(expect_, n);
          expect_, expCnt := expect_[n := true], expCnt + 1;
        } else if Known(region, me, n) {
          var cid := region[n];
          if !rcExpect[cid] {
            CountSet(rcExpect, cid);
            rcExpect, rcCnt := rcExpect[cid := true], rcCnt + 1;
          }
        } else {
          CountSet(uncertain, n);
          uncertain, uncertainCnt := uncertain[n := true], uncertainCnt + 1;
        }
      }
      n := n + 1;
    }
  }
}
