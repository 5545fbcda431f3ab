/** The block index of arkfs.c: an open-addressed table with linear probing that behaves
    like a finite map, for any hash and any number of collisions. */
module ArkIndex {
  import opened ArkFormat
  import opened ArkLog
  import opened ArkCrash

  const IDX_SLOTS: nat := 16384

  /** One row of g_idx; sector 0 marks an empty row. */
  datatype Slot = Slot(id: Id, sec: nat)

  /** (h + i) & mask for h and i below the table size. */
  function Wrap(h: nat, i: nat): nat { if h + i < IDX_SLOTS then h + i else h + i - IDX_SLOTS }

  /** The probe of an id from h on meets only other ids before step i. */
  predicate Passes(t: seq<Slot>, h: nat, id: Id, i: nat)
    requires |t| == IDX_SLOTS && h < IDX_SLOTS && i <= IDX_SLOTS
  {
    forall j :: 0 <= j < i ==> t[Wrap(h, j)].sec != 0 && t[Wrap(h, j)].id != id
  }

  /** Steps from h to slot s. */
  function Steps(h: nat, s: nat): (i: nat)
    requires h < IDX_SLOTS && s < IDX_SLOTS
    ensures i < IDX_SLOTS && Wrap(h, i) == s
  {
    if h <= s then s - h else s + IDX_SLOTS - h
  }

  /** Every used row is reached by the probe of its id. */
  ghost predicate Probed(t: seq<Slot>, hash: Id -> nat) {
    |t| == IDX_SLOTS && forall s :: 0 <= s < IDX_SLOTS && t[s].sec != 0 ==> Passes(t, hash(t[s].id) % IDX_SLOTS, t[s].id, Steps(hash(t[s].id) % IDX_SLOTS, s))
  }

  /** The rows hold exactly the pairs of the map. */
  ghost predicate Rows(t: seq<Slot>, m: map<Id, nat>) {
    && (forall s :: 0 <= s < |t| && t[s].sec != 0 ==> t[s].id in m && m[t[s].id] == t[s].sec)
    && (forall id :: id in m ==> exists s :: 0 <= s < |t| && t[s].sec != 0 && t[s].id == id)
  }

  /** A row of the id is not passed: it lies at step i or beyond. */
  lemma {:induction false} Clash(t: seq<Slot>, h: nat, id: Id, i: nat, s: nat)
    requires |t| == IDX_SLOTS && h < IDX_SLOTS && i <= IDX_SLOTS && s < IDX_SLOTS && Passes(t, h, id, i) && t[s].id == id
    ensures i <= Steps(h, s)
  {
    assert t[Wrap(h, Steps(h, s))].id == id;
  }

  /** A probe that ran into an empty row, or around the whole table, missed nothing. */
  lemma {:induction false} Missing(t: seq<Slot>, hash: Id -> nat, m: map<Id, nat>, id: Id, i: nat)
    requires Probed(t, hash) && Rows(t, m) && i <= IDX_SLOTS && Passes(t, hash(id) % IDX_SLOTS, id, i)
    requires i == IDX_SLOTS || t[Wrap(hash(id) % IDX_SLOTS, i)].sec == 0
    ensures id !in m
  {
    var h := hash(id) % IDX_SLOTS;
    if id in m {
      var s :| 0 <= s < |t| && t[s].sec != 0 && t[s].id == id;
      Clash(t, h, id, i, s);
    }
  }

  lemma {:induction false} NewRow(t: seq<Slot>, hash: Id -> nat, id: Id, sec: nat, i: nat)
    requires Probed(t, hash) && i < IDX_SLOTS && Passes(t, hash(id) % IDX_SLOTS, id, i)
    requires t[Wrap(hash(id) % IDX_SLOTS, i)].sec == 0 && sec != 0
    ensures Probed(t[Wrap(hash(id) % IDX_SLOTS, i) := Slot(id, sec)], hash)
  {
    var h := hash(id) % IDX_SLOTS;
    var p := Wrap(h, i);
    var t' := t[p := Slot(id, sec)];
    forall s | 0 <= s < IDX_SLOTS && t'[s].sec != 0
      ensures Passes(t', hash(t'[s].id) % IDX_SLOTS, t'[s].id, Steps(hash(t'[s].id) % IDX_SLOTS, s))
    {
      var g := hash(t'[s].id) % IDX_SLOTS;
      if s != p { assert Passes(t, g, t[s].id, Steps(g, s)); } else { assert Steps(h, s) == i; }
    }
  }

  lemma {:induction false} NewPair(t: seq<Slot>, m: map<Id, nat>, id: Id, sec: nat, p: nat)
    requires Rows(t, m) && id !in m && p < |t| && t[p].sec == 0 && sec != 0
    ensures Rows(t[p := Slot(id, sec)], m[id := sec])
  {
    var t' := t[p := Slot(id, sec)];
    var m' := m[id := sec];
    forall k | k in m' ensures exists s :: 0 <= s < |t'| && t'[s].sec != 0 && t'[s].id == k {
      if k == id {
        assert t'[p].id == id;
      } else {
        var s :| 0 <= s < |t| && t[s].sec != 0 && t[s].id == k;
        assert t'[s] == t[s];
      }
    }
  }

  /** No id lies in two rows. */
  lemma {:induction false} Distinct(t: seq<Slot>, hash: Id -> nat, a: nat, b: nat)
    requires Probed(t, hash) && a < IDX_SLOTS && b < IDX_SLOTS && a != b && t[a].sec != 0 && t[b].sec != 0
    ensures t[a].id != t[b].id
  {
    if t[a].id == t[b].id {
      var h := hash(t[a].id) % IDX_SLOTS;
      Clash(t, h, t[a].id, Steps(h, b), a);
      Clash(t, h, t[b].id, Steps(h, a), b);
    }
  }

  ghost function FirstIds(t: seq<Slot>, k: nat): set<Id>
    requires k <= |t|
  {
    set s | 0 <= s < k :: t[s].id
  }

  lemma {:induction false} ProbedSize(t: seq<Slot>, hash: Id -> nat)
    requires Probed(t, hash)
    ensures |t| == IDX_SLOTS
  {
  }

  lemma {:induction false} CountIds(t: seq<Slot>, hash: Id -> nat, k: nat)
    requires Probed(t, hash) && k <= |t| && forall s :: 0 <= s < |t| ==> t[s].sec != 0
    ensures |FirstIds(t, k)| == k
  {
    hide Probed;
    if k > 0 {
      CountIds(t, hash, k - 1);
      ProbedSize(t, hash);
      forall s | 0 <= s < k - 1 ensures t[s].id != t[k - 1].id { Distinct(t, hash, s, k - 1); }
      assert FirstIds(t, k) == FirstIds(t, k - 1) + {t[k - 1].id};
    }
  }

  /** A table without an empty row holds as many ids as it has rows. */
  lemma {:induction false} FullTable(t: seq<Slot>, hash: Id -> nat, m: map<Id, nat>)
    requires Probed(t, hash) && Rows(t, m) && forall s :: 0 <= s < |t| ==> t[s].sec != 0
    ensures |m| >= IDX_SLOTS
  {
    hide Probed;
    ProbedSize(t, hash);
    CountIds(t, hash, IDX_SLOTS);
    var all := FirstIds(t, IDX_SLOTS);
    assert all <= m.Keys;
    assert m.Keys == all + (m.Keys - all);
    assert |m| == |m.Keys|;
  }

  lemma {:induction false} AroundFull(t: seq<Slot>, h: nat, id: Id)
    requires |t| == IDX_SLOTS && h < IDX_SLOTS && Passes(t, h, id, IDX_SLOTS)
    ensures forall s :: 0 <= s < |t| ==> t[s].sec != 0
  {
    forall s | 0 <= s < |t| ensures t[s].sec != 0 { assert t[Wrap(h, Steps(h, s))].sec != 0; }
  }

  /** g_idx, g_idx_n and g_idx_cap. */
  class BlockIndex {
    const hash: Id -> nat
    const slots: array<Slot>
    var n: nat
    var cap: nat
    ghost var pairs: map<Id, nat>

    ghost predicate Valid() reads this, slots {
      && slots.Length == IDX_SLOTS && Probed(slots[..], hash) && Rows(slots[..], pairs)
      && n == |pairs| <= cap <= IDX_SLOTS
    }

    /** An empty table, sized for the medium. */
    constructor (hash: Id -> nat, total: nat)
      ensures Valid() && pairs == map[] && fresh(slots) && this.hash == hash && cap == CapOf(total)
    {
      this.hash := hash;
      slots := new Slot[IDX_SLOTS](_ => Slot([], 0));
      n := 0;
      cap := Min(total, (IDX_SLOTS / 100) * 75 + ((IDX_SLOTS % 100) * 75) / 100);
      pairs := map[];
      new;
      assert forall s :: 0 <= s < IDX_SLOTS ==> slots[..][s].sec == 0;
    }

    /** idx_find: the row of an id, or -1. */
    method Find(id: Id) returns (s: int)
      requires Valid()
      ensures s >= 0 <==> id in pairs
      ensures s >= 0 ==> s < slots.Length && slots[s].id == id && slots[s].sec == pairs[id]
    {
      hide Probed;
      var h := hash(id) % IDX_SLOTS;
      var i := 0;
      assert slots[..][..] == slots[..];
      while i < IDX_SLOTS
        invariant i <= IDX_SLOTS && Passes(slots[..], h, id, i)
      {
        s := (h + i) % IDX_SLOTS;
        assert s == Wrap(h, i) && slots[s] == slots[..][s];
        if slots[s].sec == 0 {
          Missing(slots[..], hash, pairs, id, i);
          return -1;
        }
        if slots[s].id == id { return; }
        i := i + 1;
      }
      Missing(slots[..], hash, pairs, id, i);
      s := -1;
    }

    /** idx_add: the map gains the pair unless the id is known or the index is full. */
    method Add(id: Id, sec: nat) returns (ok: bool)
      requires Valid() && sec != 0
      modifies this, slots
      ensures Valid() && cap == old(cap)
      ensures pairs == IdxAdd(old(pairs), cap, id, sec)
      ensures ok <==> id in pairs
    {
      hide Probed;
      var h := hash(id) % IDX_SLOTS;
      var i := 0;
      while i < IDX_SLOTS
        invariant i <= IDX_SLOTS && Passes(slots[..], h, id, i)
        invariant Valid() && cap == old(cap) && pairs == old(pairs) && n == old(n) && slots[..] == old(slots[..])
      {
        var s := (h + i) % IDX_SLOTS;
        assert s == Wrap(h, i) && slots[s] == slots[..][s];
        if slots[s].sec == 0 {
          Missing(slots[..], hash, pairs, id, i);
          if n >= cap { return false; }
          NewRow(slots[..], hash, id, sec, i);
          NewPair(slots[..], pairs, id, sec, s);
          slots[s] := Slot(id, sec);
          assert slots[..] == old(slots[..])[s := Slot(id, sec)];
          n := n + 1;
          pairs := pairs[id := sec];
          return true;
        }
        if slots[s].id == id { return true; }
        i := i + 1;
      }
      Missing(slots[..], hash, pairs, id, i);
      AroundFull(slots[..], h, id);
      FullTable(slots[..], hash, pairs);
      ok := false;
    }
  }

  // ---------------------------------------------------------------- sequences of insertions

  datatype Pair = Pair(id: Id, sec: nat)

  function AddAll(ops: seq<Pair>, cap: nat): map<Id, nat> {
    if ops == [] then map[]
    else IdxAdd(AddAll(ops[..|ops| - 1], cap), cap, ops[|ops| - 1].id, ops[|ops| - 1].sec)
  }

  ghost function Inserted(ops: seq<Pair>): set<Id> { set i | 0 <= i < |ops| :: ops[i].id }

  lemma {:induction false} InsertedSnoc(ops: seq<Pair>)
    requires ops != []
    ensures var k := |ops| - 1; Inserted(ops) == Inserted(ops[..k]) + {ops[k].id} && |Inserted(ops[..k])| <= |Inserted(ops)|
    ensures var k := |ops| - 1; ops[k].id !in Inserted(ops[..k]) ==> |Inserted(ops)| == |Inserted(ops[..k])| + 1
  {
    var k := |ops| - 1;
    var front := ops[..k];
    assert Inserted(ops) == Inserted(front) + {ops[k].id};
    assert Inserted(ops) == Inserted(front) + (Inserted(ops) - Inserted(front));
  }

  /** Up to the cap the index holds exactly the ids inserted. */
  lemma {:induction false} AllInserted(ops: seq<Pair>, cap: nat)
    requires |Inserted(ops)| <= cap
    ensures AddAll(ops, cap).Keys == Inserted(ops)
  {
    hide Inserted;
    if ops != [] {
      var k := |ops| - 1;
      InsertedSnoc(ops);
      AllInserted(ops[..k], cap);
      var m := AddAll(ops[..k], cap);
      assert |m| == |m.Keys|;
    } else {
      NoneInserted();
    }
  }

  lemma {:induction false} NoneInserted()
    ensures Inserted([]) == {}
  {
  }

  /** Each id keeps the location of its first insertion. */
  lemma {:induction false} FirstLocationWins(ops: seq<Pair>, cap: nat, i: nat)
    requires |Inserted(ops)| <= cap && i < |ops| && forall j :: 0 <= j < i ==> ops[j].id != ops[i].id
    ensures ops[i].id in AddAll(ops, cap) && AddAll(ops, cap)[ops[i].id] == ops[i].sec
  {
    var k := |ops| - 1;
    var front := ops[..k];
    InsertedSnoc(ops);
    AllInserted(ops, cap);
    AllInserted(front, cap);
    if i < k {
      FirstLocationWins(front, cap, i);
    }
  }
}
