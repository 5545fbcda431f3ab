/** The relay's packet gate (relay/relay.c): parsing, slots for wide node ids, the replay
    window, and the promise that no authenticated packet is acted on twice. */
module Relay {
  import opened Wrappers

  type Bytes = seq<nat>

  const NODE_MAX: nat := 256
  const NODE_SLOTS: nat := 1024
  const MAGIC: nat := 0x52454C59
  const REL_REGISTER: nat := 1

  // ---------------------------------------------------------------- the replay window

  /** One ReplayEntry; window_bits as its 64 bits, lowest first. */
  datatype Window = Window(max: nat, bits: seq<bool>, armed: bool)

  function One(): seq<bool> { [true] + seq(63, _ => false) }

  /** bits << shift, and bit 0 set. */
  function ShiftIn(bits: seq<bool>, shift: nat): (r: seq<bool>)
    requires |bits| == 64 && shift >= 1
    ensures |r| == 64
  {
    seq(64, i requires 0 <= i < 64 => i == 0 || (i >= shift && bits[i - shift]))
  }

  /** replay_check_and_update on one entry: fresh or not, and the entry after. */
  function Check(w: Window, nonce: nat): (r: (bool, Window))
    requires |w.bits| == 64
    ensures |r.1.bits| == 64
  {
    if !w.armed then (true, Window(nonce, One(), true))
    else if nonce > w.max then (true, Window(nonce, ShiftIn(w.bits, nonce - w.max), true))
    else
      var diff := w.max - nonce;
      if diff >= 64 || w.bits[diff] then (false, w) else (true, w.(bits := w.bits[diff := true]))
  }

  /** The window stands for the set of nonces accepted so far. */
  ghost predicate Stands(w: Window, seen: set<nat>) {
    && |w.bits| == 64
    && (!w.armed <==> seen == {})
    && (w.armed ==> w.max in seen)
    && (forall n :: n in seen ==> n <= w.max)
    && (w.armed ==> forall i :: 0 <= i < 64 ==> (w.bits[i] <==> i <= w.max && w.max - i in seen))
  }

  /** The rule in terms of the set alone: newer than all accepted nonces (or the first), or
      not accepted yet and less than 64 behind each of them. */
  ghost predicate Fresh(seen: set<nat>, nonce: nat) {
    (forall n :: n in seen ==> n < nonce) || (nonce !in seen && forall n :: n in seen ==> n < nonce + 64)
  }

  /** The window accepts by that rule, and then stands for one nonce more. */
  lemma {:induction false} WindowIsSet(w: Window, seen: set<nat>, nonce: nat)
    requires Stands(w, seen)
    ensures Check(w, nonce).0 <==> Fresh(seen, nonce)
    ensures Check(w, nonce).0 ==> nonce !in seen && Stands(Check(w, nonce).1, seen + {nonce})
    ensures !Check(w, nonce).0 ==> Check(w, nonce).1 == w
  {
    var w', all := Check(w, nonce).1, seen + {nonce};
    if w.armed && nonce <= w.max {
      if w.max - nonce < 64 {
        assert w.bits[w.max - nonce] <==> nonce in seen;
      }
    } else if w.armed {
      forall i | 0 <= i < 64 ensures w'.bits[i] <==> i <= nonce && nonce - i in all {
        var shift := nonce - w.max;
        if i >= shift && i != 0 { assert w.bits[i - shift] <==> i - shift <= w.max && w.max - (i - shift) in seen; }
      }
    }
  }

  // ---------------------------------------------------------------- slots

  /** The node id of a slot. */
  function IdOf(slotId: seq<nat>, s: nat): nat
    requires s < |slotId|
  {
    if s < NODE_MAX then s else slotId[s]
  }

  predicate SlotsOk(slotId: seq<nat>, used: nat) {
    && |slotId| == NODE_SLOTS && NODE_MAX <= used <= NODE_SLOTS
    && (forall s :: NODE_MAX <= s < used ==> NODE_MAX <= slotId[s] <= 0xFFFE)
    && forall s, t :: NODE_MAX <= s < t < used ==> slotId[s] != slotId[t]
  }

  /** Different slots in use belong to different ids. */
  lemma {:induction false} SlotsInjective(slotId: seq<nat>, used: nat, s: nat, t: nat)
    requires SlotsOk(slotId, used) && s < used && t < used && IdOf(slotId, s) == IdOf(slotId, t)
    ensures s == t
  {
  }

  // ---------------------------------------------------------------- packets

  datatype Pkt = Pkt(version: nat, kind: nat, src: nat, dst: nat, readsV3: bool, nonce: nat, hmac: Bytes, payload: Bytes)

  function Load8(b: Bytes): nat
    requires |b| == 8
  {
    b[0] + 0x100 * b[1] + 0x1_0000 * b[2] + 0x100_0000 * b[3] + 0x1_0000_0000 * b[4] + 0x100_0000_0000 * b[5]
    + 0x1_0000_0000_0000 * b[6] + 0x100_0000_0000_0000 * b[7]
  }

  /** parse_packet. */
  function Parse(b: Bytes): Option<Pkt> {
    if |b| < 12 || b[0] + 0x100 * b[1] + 0x1_0000 * b[2] + 0x100_0000 * b[3] != MAGIC then None
    else
      var wide := b[4] == 3;
      var src := b[6] + if wide then 256 * b[8] else 0;
      var dst := b[7] + if wide then 256 * b[9] else 0;
      var v3 := wide || b[10] >= 3;
      if b[4] == 1 then Some(Pkt(1, b[5], src, dst, v3, 0, [], b[12..]))
      else if (b[4] == 2 || wide) && |b| >= 36 then Some(Pkt(b[4], b[5], src, dst, v3, Load8(b[12..20]), b[20..36], b[36..]))
      else None
  }

  predicate IsBytes(b: Bytes) { forall i :: 0 <= i < |b| ==> b[i] < 256 }

  /** A wide packet carries 16-bit ids, every other one 8-bit ids. */
  lemma {:induction false} ParseRanges(b: Bytes)
    requires IsBytes(b) && Parse(b).Some?
    ensures var p := Parse(b).value;
            && 1 <= p.version <= 3 && p.kind < 256 && p.src < (if p.version == 3 then 0x1_0000 else 256)
            && p.dst < (if p.version == 3 then 0x1_0000 else 256) && p.nonce < 0x1_0000_0000_0000_0000
  {
    if b[4] != 1 {
      var n := b[12..20];
      forall i | 0 <= i < 8 ensures n[i] < 256 { assert n[i] == b[12 + i]; }
    }
  }

  /** The eight bytes of a nonce on the wire, lowest first. */
  function Nonce8(n: nat): (b: Bytes)
    ensures |b| == 8
  {
    var n1 := n / 256;
    var n2 := n1 / 256;
    var n3 := n2 / 256;
    var n4 := n3 / 256;
    var n5 := n4 / 256;
    var n6 := n5 / 256;
    var n7 := n6 / 256;
    [n % 256, n1 % 256, n2 % 256, n3 % 256, n4 % 256, n5 % 256, n6 % 256, n7 % 256]
  }

  /** The packet that spells these fields, place by place. */
  predicate Spells(b: Bytes, p: Pkt) {
    && |b| >= 12 && b[..4] == [0x59, 0x4C, 0x45, 0x52]
    && b[4] == p.version && b[5] == p.kind && b[6] == p.src % 256 && b[7] == p.dst % 256
    && (if p.version == 3 then b[8] == p.src / 256 && b[9] == p.dst / 256 else p.src < 256 && p.dst < 256)
    && (p.readsV3 <==> p.version == 3 || b[10] >= 3)
    && (if p.version == 1 then p.nonce == 0 && p.hmac == [] && p.payload == b[12..]
        else (p.version == 2 || p.version == 3) && |b| >= 36
             && p.nonce < 0x1_0000_0000_0000_0000 && Nonce8(p.nonce) == b[12..20] && p.hmac == b[20..36] && p.payload == b[36..])
  }

  function FromNonce8(b: Bytes): nat
    requires |b| == 8
  {
    b[0] + 256 * (b[1] + 256 * (b[2] + 256 * (b[3] + 256 * (b[4] + 256 * (b[5] + 256 * (b[6] + 256 * b[7]))))))
  }

  lemma {:induction false} NonceBack(n: nat)
    requires n < 0x1_0000_0000_0000_0000
    ensures FromNonce8(Nonce8(n)) == n
  {
  }

  lemma {:induction false} LowByte(d: nat, q: nat)
    requires d < 256
    ensures (d + 256 * q) % 256 == d && (d + 256 * q) / 256 == q
  {
  }

  lemma {:induction false} NonceForth(b: Bytes)
    requires |b| == 8 && IsBytes(b)
    ensures Nonce8(FromNonce8(b)) == b && FromNonce8(b) < 0x1_0000_0000_0000_0000
  {
    var n7 := b[7];
    var n6 := b[6] + 256 * n7;
    var n5 := b[5] + 256 * n6;
    var n4 := b[4] + 256 * n5;
    var n3 := b[3] + 256 * n4;
    var n2 := b[2] + 256 * n3;
    var n1 := b[1] + 256 * n2;
    LowByte(b[6], n7);
    LowByte(b[5], n6);
    LowByte(b[4], n5);
    LowByte(b[3], n4);
    LowByte(b[2], n3);
    LowByte(b[1], n2);
    LowByte(b[0], n1);
  }

  lemma {:induction false} LoadIs(b: Bytes)
    requires |b| == 8
    ensures Load8(b) == FromNonce8(b)
  {
  }

  /** parse_packet accepts exactly the packets that spell some fields, and returns those. */
  lemma {:induction false} ParseIff(b: Bytes, p: Pkt)
    requires IsBytes(b)
    ensures Parse(b) == Some(p) <==> Spells(b, p)
  {
    hide Load8, Nonce8, FromNonce8;
    if |b| >= 36 {
      var n := b[12..20];
      assert IsBytes(n) by { forall i | 0 <= i < 8 ensures n[i] < 256 { assert n[i] == b[12 + i]; } }
      NonceForth(n);
      LoadIs(n);
      if p.nonce < 0x1_0000_0000_0000_0000 { NonceBack(p.nonce); }
    }
    if |b| >= 12 {
      assert b[..4] == [b[0], b[1], b[2], b[3]];
      MagicIs(b[0], b[1], b[2], b[3]);
    }
  }

  lemma {:induction false} MagicIs(a: nat, b: nat, c: nat, d: nat)
    requires a < 256 && b < 256 && c < 256 && d < 256
    ensures a + 0x100 * b + 0x1_0000 * c + 0x100_0000 * d == MAGIC <==> [a, b, c, d] == [0x59, 0x4C, 0x45, 0x52]
  {
  }

  /** The bytes that name source and nonce of a signed packet. */
  function Origin(b: Bytes): Bytes
    requires |b| >= 36
  {
    [b[6], if b[4] == 3 then b[8] else 0] + b[12..20]
  }

  // ---------------------------------------------------------------- state

  /** One NodeEntry; the peer's address is opaque. */
  datatype Node = Node(addr: int, lastSeen: int, active: bool, leased: bool, viaTcp: bool, fd: int, readsV3: bool)

  /** An authenticated packet that was acted on. */
  datatype Acted = Acted(id: nat, nonce: nat)

  ghost function Seen(acted: seq<Acted>, id: nat): set<nat> { set i | 0 <= i < |acted| && acted[i].id == id :: acted[i].nonce }

  predicate Once(acted: seq<Acted>) { forall i, j :: 0 <= i < j < |acted| ==> acted[i] != acted[j] }

  /** Every slot's window stands for what was accepted from its id, and every id that acted
      has a slot. */
  ghost predicate GateOk(slotId: seq<nat>, used: nat, windows: seq<Window>, acted: seq<Acted>) {
    && SlotsOk(slotId, used) && |windows| == NODE_SLOTS && (forall s :: 0 <= s < NODE_SLOTS ==> |windows[s].bits| == 64)
    && (forall s :: 0 <= s < used ==> Stands(windows[s], Seen(acted, IdOf(slotId, s))))
    && (forall s :: used <= s < NODE_SLOTS ==> !windows[s].armed)
    && (forall i :: 0 <= i < |acted| ==> acted[i].id != 0 && HasSlot(slotId, used, acted[i].id))
    && Once(acted)
  }

  ghost predicate HasSlot(slotId: seq<nat>, used: nat, id: nat)
    requires |slotId| == NODE_SLOTS && used <= NODE_SLOTS
  {
    exists s :: 0 <= s < used && IdOf(slotId, s) == id
  }

  lemma {:induction false} SeenMore(acted: seq<Acted>, id: nat, nonce: nat, other: nat)
    ensures Seen(acted + [Acted(id, nonce)], other) == if other == id then Seen(acted, id) + {nonce} else Seen(acted, other)
  {
    var all := acted + [Acted(id, nonce)];
    forall n ensures n in Seen(all, other) <==> n in (if other == id then Seen(acted, id) + {nonce} else Seen(acted, other)) {
      if n in Seen(all, other) {
        var i :| 0 <= i < |all| && all[i].id == other && all[i].nonce == n;
        if i < |acted| { assert acted[i] == all[i]; }
      }
      if i :| 0 <= i < |acted| && acted[i].id == other && acted[i].nonce == n { assert all[i] == acted[i]; }
      if other == id && n == nonce { assert all[|acted|] == Acted(id, nonce); }
    }
  }

  /** Accepting a nonce from a slot keeps the gate. */
  lemma {:induction false} AcceptKeeps(slotId: seq<nat>, used: nat, windows: seq<Window>, acted: seq<Acted>, s: nat, nonce: nat)
    requires GateOk(slotId, used, windows, acted) && 0 < s < used && Check(windows[s], nonce).0
    ensures GateOk(slotId, used, windows[s := Check(windows[s], nonce).1], acted + [Acted(IdOf(slotId, s), nonce)])
    ensures Acted(IdOf(slotId, s), nonce) !in acted
  {
    hide Stands, Check, Seen;
    var id := IdOf(slotId, s);
    var all, windows' := acted + [Acted(id, nonce)], windows[s := Check(windows[s], nonce).1];
    WindowIsSet(windows[s], Seen(acted, id), nonce);
    if Acted(id, nonce) in acted {
      var i :| 0 <= i < |acted| && acted[i] == Acted(id, nonce);
      SeenHas(acted, i);
    }
    forall t | 0 <= t < used ensures Stands(windows'[t], Seen(all, IdOf(slotId, t))) {
      SeenMore(acted, id, nonce, IdOf(slotId, t));
      if t != s && IdOf(slotId, t) == id { SlotsInjective(slotId, used, s, t); }
    }
  }

  lemma {:induction false} SeenHas(acted: seq<Acted>, i: nat)
    requires i < |acted|
    ensures acted[i].nonce in Seen(acted, acted[i].id)
  {
  }

  /** A new slot for a wide id keeps the gate. */
  lemma {:induction false} NewSlotKeeps(slotId: seq<nat>, used: nat, windows: seq<Window>, acted: seq<Acted>, id: nat)
    requires GateOk(slotId, used, windows, acted) && used < NODE_SLOTS && NODE_MAX <= id <= 0xFFFE
    requires forall s :: NODE_MAX <= s < used ==> slotId[s] != id
    ensures GateOk(slotId[used := id], used + 1, windows, acted)
  {
    hide Stands;
    var slotId' := slotId[used := id];
    forall i | 0 <= i < |acted| ensures acted[i].id != id && HasSlot(slotId', used + 1, acted[i].id) {
      assert HasSlot(slotId, used, acted[i].id);
      var s :| 0 <= s < used && IdOf(slotId, s) == acted[i].id;
      assert IdOf(slotId', s) == acted[i].id;
    }
    assert Seen(acted, id) == {};
    assert Stands(windows[used], Seen(acted, id)) by { Unarmed(windows[used]); }
    forall s | 0 <= s < used + 1 ensures Stands(windows[s], Seen(acted, IdOf(slotId', s))) {
      if s < used { assert IdOf(slotId', s) == IdOf(slotId, s); }
    }
  }

  lemma {:induction false} Unarmed(w: Window)
    requires !w.armed && |w.bits| == 64
    ensures Stands(w, {})
  {
  }

  // ---------------------------------------------------------------- the relay

  /** Dropped at the gate, a lease answered, or acted on for a slot. */
  datatype Outcome = Dropped | Leased(id: nat) | Handled(slot: nat)

  /** The entry after update(). */
  function Updated(n: Node, addr: int, now: int, fd: int, readsV3: bool): Node {
    n.(addr := addr, lastSeen := now, active := true, viaTcp := fd >= 0, fd := fd, readsV3 := readsV3)
  }

  /** The entry after evict_stale. */
  function Evicted(n: Node, now: int, idle: int): Node {
    if n.active && now - n.lastSeen > idle then n.(active := false) else n
  }

  /** The entry after the TCP connection fd went away. */
  function Unrouted(n: Node, fd: int): Node {
    if n.active && n.viaTcp && n.fd == fd then n.(active := false) else n
  }

  predicate Holds(n: Node, addr: int) { n.active && n.leased && n.addr == addr }

  /** What happens to a relay: a packet, a closed connection, time passing. */
  datatype Event = Packet(buf: Bytes, addr: int, fd: int, now: int) | Close(fd: int) | Tick(now: int)

  /** The source and nonce of a signed packet with a source. */
  function KeyOf(e: Event, haveKey: bool, mac: Pkt -> Bytes): Option<Acted> {
    if e.Packet? && Parse(e.buf).Some? && Signed(Parse(e.buf).value, haveKey, mac) && Parse(e.buf).value.src != 0
    then Some(Acted(Parse(e.buf).value.src, Parse(e.buf).value.nonce)) else None
  }

  /** Whose packet this is, as far as the gate can tell: signed with the shared key. */
  predicate Signed(p: Pkt, haveKey: bool, mac: Pkt -> Bytes) { (p.version == 2 || p.version == 3) && haveKey && mac(p) == p.hmac }

  /** A signed packet with a source, made of bytes. */
  predicate WireKeyed(e: Event, haveKey: bool, mac: Pkt -> Bytes) { KeyOf(e, haveKey, mac).Some? && IsBytes(e.buf) && |e.buf| >= 36 }

  /** The key of a signed packet is a matter of those bytes alone. */
  lemma {:induction false} KeyBytes(e: Event, g: Event, haveKey: bool, mac: Pkt -> Bytes)
    requires KeyOf(e, haveKey, mac).Some? && IsBytes(e.buf)
    ensures var k := KeyOf(e, haveKey, mac).value;
            && |e.buf| >= 36 && Origin(e.buf) == [k.id % 256, k.id / 256] + Nonce8(k.nonce) && k.id < 0x1_0000
    ensures KeyOf(g, haveKey, mac).Some? && IsBytes(g.buf) && |g.buf| >= 36 ==>
              (KeyOf(e, haveKey, mac) == KeyOf(g, haveKey, mac) <==> Origin(e.buf) == Origin(g.buf))
  {
    hide Nonce8, Parse, FromNonce8;
    KeyOrigin(e, haveKey, mac);
    if KeyOf(g, haveKey, mac).Some? && IsBytes(g.buf) && |g.buf| >= 36 {
      KeyOrigin(g, haveKey, mac);
      var k, l := KeyOf(e, haveKey, mac).value, KeyOf(g, haveKey, mac).value;
      if Origin(e.buf) == Origin(g.buf) {
        assert Origin(e.buf)[2..] == Nonce8(k.nonce) && Origin(g.buf)[2..] == Nonce8(l.nonce);
        NonceBack(k.nonce);
        NonceBack(l.nonce);
        assert Origin(e.buf)[0] == k.id % 256 && Origin(e.buf)[1] == k.id / 256;
        assert Origin(g.buf)[0] == l.id % 256 && Origin(g.buf)[1] == l.id / 256;
      }
    }
  }

  lemma {:induction false} KeyOrigin(e: Event, haveKey: bool, mac: Pkt -> Bytes)
    requires KeyOf(e, haveKey, mac).Some? && IsBytes(e.buf)
    ensures var k := KeyOf(e, haveKey, mac).value;
            && |e.buf| >= 36 && Origin(e.buf) == [k.id % 256, k.id / 256] + Nonce8(k.nonce) && k.id < 0x1_0000
            && k.nonce < 0x1_0000_0000_0000_0000
  {
    hide Nonce8, Parse;
    ParseIff(e.buf, Parse(e.buf).value);
    ParseRanges(e.buf);
  }

  class Server {
    const insecure: bool
    const haveKey: bool
    const mac: Pkt -> Bytes
    const idleTimeout: int
    const slotId: array<nat>
    const windows: array<Window>
    const table: array<Node>
    var slotsUsed: nat
    ghost var acted: seq<Acted>

    ghost predicate Valid() reads this, slotId, windows {
      && slotId.Length == windows.Length == table.Length == NODE_SLOTS
      && GateOk(slotId[..], slotsUsed, windows[..], acted)
    }

    constructor (insecure: bool, haveKey: bool, mac: Pkt -> Bytes, idleTimeout: int)
      ensures Valid() && acted == [] && fresh(slotId) && fresh(windows) && fresh(table)
    {
      this.insecure, this.haveKey, this.mac, this.idleTimeout := insecure, haveKey, mac, idleTimeout;
      slotId := new nat[NODE_SLOTS](_ => 0);
      windows := new Window[NODE_SLOTS](_ => Window(0, seq(64, _ => false), false));
      table := new Node[NODE_SLOTS](_ => Node(0, 0, false, false, false, 0, false));
      slotsUsed := NODE_MAX;
      acted := [];
      new;
      assert forall id :: Seen([], id) == {};
      forall s | 0 <= s < NODE_MAX ensures Stands(windows[..][s], Seen([], IdOf(slotId[..], s))) { Unarmed(windows[s]); }
    }

    /** slot_of: ids keep their slot for good; a new wide id takes the next one. */
    method SlotOf(id: nat, create: bool) returns (s: int)
      requires Valid()
      modifies slotId, `slotsUsed
      ensures Valid() && old(slotsUsed) <= slotsUsed
      ensures forall t :: 0 <= t < old(slotsUsed) ==> IdOf(slotId[..], t) == old(IdOf(slotId[..], t))
      ensures -1 <= s < slotsUsed && (s >= 0 ==> IdOf(slotId[..], s) == id)
      ensures s < 0 <==> id > 0xFFFE || (!HasSlot(old(slotId[..]), old(slotsUsed), id) && (!create || old(slotsUsed) == NODE_SLOTS))
      ensures !create ==> slotId[..] == old(slotId[..]) && slotsUsed == old(slotsUsed)
    {
      hide Stands, Seen, Once;
      if id < NODE_MAX {
        assert IdOf(slotId[..], id) == id;
        return id;
      }
      if id > 0xFFFE { return -1; }
      s := NODE_MAX;
      while s < slotsUsed
        invariant NODE_MAX <= s <= slotsUsed && forall t :: NODE_MAX <= t < s ==> slotId[t] != id
      {
        if slotId[s] == id {
          assert IdOf(slotId[..], s) == id;
          return;
        }
        s := s + 1;
      }
      assert !HasSlot(slotId[..], slotsUsed, id);
      if !create || slotsUsed == NODE_SLOTS { return -1; }
      NewSlotKeeps(slotId[..], slotsUsed, windows[..], acted, id);
      slotId[slotsUsed] := id;
      assert slotId[..] == old(slotId[..])[slotsUsed := id];
      s := slotsUsed;
      slotsUsed := slotsUsed + 1;
    }

    /** replay_check_and_update. */
    method ReplayCheck(s: nat, nonce: nat) returns (fresh_: bool)
      requires Valid() && s < slotsUsed
      modifies windows, `acted
      ensures Valid()
      ensures fresh_ <==> s != 0 && Fresh(Seen(old(acted), IdOf(slotId[..], s)), nonce)
      ensures fresh_ ==> Acted(IdOf(slotId[..], s), nonce) !in old(acted)
      ensures acted == if fresh_ then old(acted) + [Acted(IdOf(slotId[..], s), nonce)] else old(acted)
    {
      hide Stands, Seen, Once;
      if s < 1 { return false; }
      WindowIsSet(windows[s], Seen(acted, IdOf(slotId[..], s)), nonce);
      var r := Check(windows[s], nonce);
      fresh_ := r.0;
      if fresh_ {
        AcceptKeeps(slotId[..], slotsUsed, windows[..], acted, s, nonce);
        windows[s] := r.1;
        assert windows[..] == old(windows[..])[s := r.1];
        acted := acted + [Acted(IdOf(slotId[..], s), nonce)];
      }
    }

    /** evict_stale: idle nodes lose their route, never their window. */
    method EvictStale(now: int)
      requires table.Length == NODE_SLOTS && 1 <= slotsUsed <= NODE_SLOTS
      modifies table
      ensures forall n :: 0 <= n < NODE_SLOTS ==> table[n] == if 1 <= n < slotsUsed then Evicted(old(table[n]), now, idleTimeout) else old(table[n])
      ensures forall n :: 1 <= n < slotsUsed ==>
                (table[n].active <==> old(table[n]).active && now - old(table[n]).lastSeen <= idleTimeout)
                && table[n].(active := false) == old(table[n]).(active := false)
    {
      var n := 1;
      while n < slotsUsed
        invariant 1 <= n <= slotsUsed
        invariant forall k :: 0 <= k < NODE_SLOTS ==> table[k] == if 1 <= k < n then Evicted(old(table[k]), now, idleTimeout) else old(table[k])
      {
        table[n] := Evicted(table[n], now, idleTimeout);
        n := n + 1;
      }
    }

    /** tcp_conn_close: the routes over the connection go, the windows stay. */
    method TcpConnClose(fd: int)
      requires table.Length == NODE_SLOTS && 1 <= slotsUsed <= NODE_SLOTS
      modifies table
      ensures forall n :: 0 <= n < NODE_SLOTS ==> table[n] == if fd >= 0 && 1 <= n < slotsUsed then Unrouted(old(table[n]), fd) else old(table[n])
      ensures fd >= 0 ==> forall n :: 1 <= n < slotsUsed ==>
                (table[n].active <==> old(table[n]).active && !(old(table[n]).viaTcp && old(table[n]).fd == fd))
                && table[n].(active := false) == old(table[n]).(active := false)
    {
      if fd < 0 { return; }
      var n := 1;
      while n < slotsUsed
        invariant 1 <= n <= slotsUsed
        invariant forall k :: 0 <= k < NODE_SLOTS ==> table[k] == if 1 <= k < n then Unrouted(old(table[k]), fd) else old(table[k])
      {
        table[n] := Unrouted(table[n], fd);
        n := n + 1;
      }
    }

    /** lease_pick: the id this address already leases, else the smallest free one, else 0. */
    method LeasePick(addr: int) returns (id: nat)
      requires table.Length == NODE_SLOTS
      ensures id < NODE_MAX
      ensures id == 0 <==> forall n :: 1 <= n < NODE_MAX ==> table[n].active && !Holds(table[n], addr)
      ensures (exists n :: 1 <= n < NODE_MAX && Holds(table[n], addr)) ==>
                Holds(table[id], addr) && forall n :: 1 <= n < id ==> !Holds(table[n], addr)
      ensures (forall n :: 1 <= n < NODE_MAX ==> !Holds(table[n], addr)) && id != 0 ==>
                !table[id].active && forall n :: 1 <= n < id ==> table[n].active
    {
      id := 1;
      while id < NODE_MAX
        invariant 1 <= id <= NODE_MAX && forall n :: 1 <= n < id ==> !Holds(table[n], addr)
      {
        if Holds(table[id], addr) { return; }
        id := id + 1;
      }
      id := 1;
      while id < NODE_MAX
        invariant 1 <= id <= NODE_MAX && forall n :: 1 <= n < id ==> table[n].active
      {
        if !table[id].active { return; }
        id := id + 1;
      }
      id := 0;
    }

    /** handle_lease: asking again from the same address gives the same id and changes no
        other entry. */
    method HandleLease(addr: int, now: int, fd: int, readsV3: bool) returns (id: nat)
      requires table.Length == NODE_SLOTS
      modifies table
      ensures id < NODE_MAX && (id != 0 ==> table[id] == Node(addr, now, true, true, fd >= 0, fd, readsV3))
      ensures forall n :: 0 <= n < NODE_SLOTS && (n != id || id == 0) ==> table[n] == old(table[n])
      ensures (exists n :: 1 <= n < NODE_MAX && Holds(old(table[n]), addr)) ==> Holds(old(table[id]), addr)
      ensures id != 0 ==> Holds(old(table[id]), addr) || !old(table[id]).active
      ensures (exists n :: 1 <= n < NODE_MAX && old(table[n]).active && old(table[n]).leased && old(table[n]).addr == addr) ==>
                id != 0 && old(table[id]).active && old(table[id]).leased && old(table[id]).addr == addr
      ensures id == 0 ==> forall n :: 1 <= n < NODE_MAX ==> table[n].active && !(table[n].leased && table[n].addr == addr)
    {
      id := LeasePick(addr);
      if id != 0 { table[id] := Node(addr, now, true, true, fd >= 0, fd, readsV3); }
    }

    /** The verdict on a signed packet with a source: one slot, one look at its window. */
    method Admit(p: Pkt) returns (slot: int)
      requires Valid() && p.src != 0
      modifies slotId, windows, `slotsUsed, `acted
      ensures Valid() && -1 <= slot < slotsUsed && old(slotsUsed) <= slotsUsed
      ensures forall t :: 0 <= t < old(slotsUsed) ==> IdOf(slotId[..], t) == old(IdOf(slotId[..], t))
      ensures slot >= 0 ==> slot > 0 && IdOf(slotId[..], slot) == p.src
      ensures acted == if slot >= 0 then old(acted) + [Acted(p.src, p.nonce)] else old(acted)
      ensures slot >= 0 ==> Acted(p.src, p.nonce) !in old(acted)
      ensures slot >= 0 <==> Fresh(Seen(old(acted), p.src), p.nonce) && p.src <= 0xFFFE
                             && (HasSlot(old(slotId[..]), old(slotsUsed), p.src) || old(slotsUsed) < NODE_SLOTS)
    {
      hide GateOk, Seen, Fresh, HasSlot;
      Used();
      slot := SlotOf(p.src, true);
      if slot < 0 { return; }
      var ok := ReplayCheck(slot, p.nonce);
      if !ok { slot := -1; }
    }

    /** process_packet up to forwarding.  A signed packet with a source is acted on exactly
        when its nonce is fresh for its id and the id has or gets a slot, and it was never
        acted on before; nothing else touches windows or slots. */
    method ProcessPacket(buf: Bytes, addr: int, fd: int, now: int) returns (o: Outcome)
      requires Valid()
      modifies slotId, windows, table, `slotsUsed, `acted
      ensures Valid() && old(slotsUsed) <= slotsUsed
      ensures forall t :: 0 <= t < old(slotsUsed) ==> IdOf(slotId[..], t) == old(IdOf(slotId[..], t))
      ensures Parse(buf).None? ==> o == Dropped
      ensures o == Dropped ==> table[..] == old(table[..])
      ensures o.Handled? ==> forall n :: 0 <= n < NODE_SLOTS ==>
                var e := if 1 <= n < slotsUsed then Evicted(old(table[n]), now, idleTimeout) else old(table[n]);
                table[n] == if n == o.slot && n > 0 && 1 <= Parse(buf).value.kind <= 4
                            then Updated(e, addr, now, fd, Parse(buf).value.readsV3) else e
      ensures o.Handled? && 0 < o.slot < NODE_SLOTS && 1 <= Parse(buf).value.kind <= 4 ==>
                table[o.slot] == Node(addr, now, true, old(table[o.slot]).leased, fd >= 0, fd, Parse(buf).value.readsV3)
      ensures o.Leased? ==> o.id < NODE_MAX && forall n :: 0 <= n < NODE_SLOTS ==>
                table[n] == if n == o.id && o.id != 0 then Node(addr, now, true, true, fd >= 0, fd, Parse(buf).value.readsV3)
                            else if 1 <= n < slotsUsed then Evicted(old(table[n]), now, idleTimeout) else old(table[n])
      ensures o.Leased? && o.id == 0 ==> forall n :: 1 <= n < NODE_MAX ==> table[n].active && !(table[n].leased && table[n].addr == addr)
      ensures Parse(buf).Some? && Parse(buf).value.version == 1 && insecure ==>
                var p := Parse(buf).value; if p.kind == REL_REGISTER && p.src == 0 then o.Leased? else o == Handled(p.src)
      ensures Parse(buf).Some? && Signed(Parse(buf).value, haveKey, mac) && Parse(buf).value.src == 0 ==>
                if Parse(buf).value.version == 2 && Parse(buf).value.kind == REL_REGISTER then o.Leased? else o == Dropped
      ensures o.Handled? && Signed(Parse(buf).value, haveKey, mac) ==> 0 < o.slot < slotsUsed && IdOf(slotId[..], o.slot) == Parse(buf).value.src
      ensures Parse(buf).Some? && Parse(buf).value.version == 1 && !insecure ==> o == Dropped
      ensures Parse(buf).Some? && Parse(buf).value.version != 1 && !Signed(Parse(buf).value, haveKey, mac) ==> o == Dropped
      ensures acted == old(acted)
              || (Parse(buf).Some? && var p := Parse(buf).value;
                  Signed(p, haveKey, mac) && p.src != 0 && Acted(p.src, p.nonce) !in old(acted) && acted == old(acted) + [Acted(p.src, p.nonce)])
      ensures IsBytes(buf) && acted != old(acted) ==>
                |buf| >= 36 && acted != [] && var a := acted[|acted| - 1]; Origin(buf) == [a.id % 256, a.id / 256] + Nonce8(a.nonce)
      ensures Parse(buf).Some? && Signed(Parse(buf).value, haveKey, mac) && Parse(buf).value.src != 0 ==>
                var p := Parse(buf).value;
                (o.Handled? <==> acted != old(acted))
                && (o.Handled? <==> Fresh(Seen(old(acted), p.src), p.nonce) && p.src <= 0xFFFE
                                    && (HasSlot(old(slotId[..]), old(slotsUsed), p.src) || old(slotsUsed) < NODE_SLOTS))
    {
      hide GateOk, Seen, Fresh, HasSlot, Parse, Nonce8, Origin;
      ghost var e := Packet(buf, addr, fd, now);
      if KeyOf(e, haveKey, mac).Some? && IsBytes(buf) { KeyOrigin(e, haveKey, mac); }
      var parsed := Parse(buf);
      if parsed.None? { return Dropped; }
      var p := parsed.value;
      if p.version == 1 && !insecure { return Dropped; }
      if (p.version == 2 || p.version == 3) && !haveKey { return Dropped; }
      var slot := p.src;
      Versions(buf);
      if p.version == 2 || p.version == 3 {
        if mac(p) != p.hmac { return Dropped; }
        if p.version == 3 && p.src == 0 { return Dropped; }
        if p.src != 0 {
          var s := Admit(p);
          if s < 0 { return Dropped; }
          slot := s;
        } else if p.kind != REL_REGISTER {
          return Dropped;                    // slot 0 has no window
        }
      }
      Used();
      EvictStale(now);
      if p.kind == REL_REGISTER && p.src == 0 {
        var id := HandleLease(addr, now, fd, p.readsV3);
        return Leased(id);
      }
      if 1 <= p.kind <= 4 && 1 <= slot < NODE_SLOTS {
        table[slot] := Updated(table[slot], addr, now, fd, p.readsV3);
      }
      o := Handled(slot);
    }

    /** Any run of the relay, with evictions, leases and closed connections in between: of all
        packets that carry the same signed source and nonce at most one is acted on. */
    method Serve(events: seq<Event>) returns (outs: seq<Outcome>)
      requires Valid()
      modifies slotId, windows, table, `slotsUsed, `acted
      ensures Valid() && |outs| == |events| && old(acted) <= acted
      ensures forall i, j :: 0 <= i < j < |events| && KeyOf(events[i], haveKey, mac).Some? && outs[i].Handled? && outs[j].Handled?
                ==> KeyOf(events[i], haveKey, mac) != KeyOf(events[j], haveKey, mac)
      ensures forall i, j :: 0 <= i < j < |events| && outs[i].Handled? && outs[j].Handled? && WireKeyed(events[i], haveKey, mac) && WireKeyed(events[j], haveKey, mac)
                ==> Origin(events[i].buf) != Origin(events[j].buf)
      ensures forall t :: 0 <= t < old(slotsUsed) <= slotsUsed ==> IdOf(slotId[..], t) == old(IdOf(slotId[..], t))
    {
      hide GateOk, Seen, Fresh, HasSlot, Parse, Signed, Nonce8, Origin;
      outs := [];
      var k := 0;
      Used();
      while k < |events|
        invariant k == |outs| <= |events| && Valid() && old(acted) <= acted && old(slotsUsed) <= slotsUsed
        invariant forall i :: 0 <= i < k && KeyOf(events[i], haveKey, mac).Some? && outs[i].Handled? ==> KeyOf(events[i], haveKey, mac).value in acted
        invariant forall i, j :: 0 <= i < j < k && KeyOf(events[i], haveKey, mac).Some? && outs[i].Handled? && outs[j].Handled?
                    ==> KeyOf(events[i], haveKey, mac) != KeyOf(events[j], haveKey, mac)
        invariant forall t :: 0 <= t < old(slotsUsed) ==> IdOf(slotId[..], t) == old(IdOf(slotId[..], t))
      {
        var o := Dropped;
        Used();
        match events[k] {
          case Packet(buf, addr, fd, now) => o := ProcessPacket(buf, addr, fd, now);
          case Close(fd) => TcpConnClose(fd);
          case Tick(now) => EvictStale(now);
        }
        outs := outs + [o];
        k := k + 1;
      }
      forall i, j | 0 <= i < j < |events| && outs[i].Handled? && outs[j].Handled? && WireKeyed(events[i], haveKey, mac) && WireKeyed(events[j], haveKey, mac)
        ensures Origin(events[i].buf) != Origin(events[j].buf)
      {
        KeyBytes(events[i], events[j], haveKey, mac);
      }
    }

    lemma Used()
      requires Valid()
      ensures NODE_MAX <= slotsUsed <= NODE_SLOTS
    {
    }
  }

  lemma {:induction false} Versions(b: Bytes)
    requires Parse(b).Some?
    ensures 1 <= Parse(b).value.version <= 3
  {
  }
}
