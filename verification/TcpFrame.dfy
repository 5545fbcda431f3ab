/** Length framing on a TCP stream (relay/tcp_frame.h) and the relay's read loop over it. */
module TcpFrame {

  type Bytes = seq<nat>

  const MAXBUF: nat := 4096
  const MAX_PKT: nat := 1416
  const READ_MAX: nat := 2048

  /** tcp_frame_encode: a packet with its two-byte length in front. */
  function Frame(p: Bytes): Bytes { [|p| / 256 % 256, |p| % 256] + p }

  /** tcp_frame_encode into the caller's buffer. */
  method Encode(out: array<nat>, pkt: Bytes) returns (total: int)
    requires out.Length >= |pkt| + 2
    modifies out
    ensures total == if |pkt| > 0xffff then -1 else |pkt| + 2
    ensures total >= 0 ==> out[..total] == Frame(pkt)
    ensures total >= 0 ==> out[0] < 256 && out[1] < 256 && 256 * out[0] + out[1] == |pkt| && out[2..total] == pkt
  {
    if |pkt| > 0xffff { return -1; }
    out[0] := |pkt| / 256 % 256;
    out[1] := |pkt| % 256;
    var i := 0;
    while i < |pkt|
      invariant i <= |pkt| && out[..2 + i] == [|pkt| / 256 % 256, |pkt| % 256] + pkt[..i]
    {
      out[2 + i] := pkt[i];
      i := i + 1;
    }
    assert pkt[..i] == pkt;
    total := |pkt| + 2;
  }

  function Stream(ps: seq<Bytes>): Bytes {
    if ps == [] then [] else Frame(ps[0]) + Stream(ps[1..])
  }

  /** tcp_reasm_next on the buffered bytes: return code, packet, bytes kept. */
  datatype Pop = Pop(code: int, out: Bytes, rest: Bytes)

  function PopOne(b: Bytes, cap: nat): Pop {
    if |b| < 2 then Pop(0, [], b)
    else
      var flen := 256 * b[0] + b[1];
      if flen > cap then Pop(-1, [], b)
      else if |b| < 2 + flen then Pop(0, [], b)
      else Pop(flen, b[2..2 + flen], b[2 + flen..])
  }

  /** The length the next frame announces, high byte first. */
  function Announced(b: Bytes): nat
    requires |b| >= 2
  {
    256 * b[0] + b[1]
  }

  /** What a pop means: -1 for a frame longer than the cap; else the whole frame in front is taken
      out, or there is none and nothing moves; an empty frame goes with code 0. */
  predicate Popped(b: Bytes, cap: nat, code: int, out: Bytes, rest: Bytes) {
    && (code < 0 <==> |b| >= 2 && Announced(b) > cap)
    && (if |b| >= 2 && Announced(b) <= cap && |b| >= 2 + Announced(b)
        then code == |out| == Announced(b) && b == b[..2] + out + rest else code <= 0 && out == [] && rest == b)
  }

  /** Popping until there is no complete frame. */
  datatype Drained = Drained(dead: bool, pkts: seq<Bytes>, rest: Bytes)

  function DrainAll(b: Bytes, cap: nat): Drained
    decreases |b|
  {
    var p := PopOne(b, cap);
    if p.code <= 0 then Drained(p.code < 0, [], p.rest)
    else var d := DrainAll(p.rest, cap); Drained(d.dead, [p.out] + d.pkts, d.rest)
  }

  predicate PktOk(p: Bytes) { 1 <= |p| <= MAX_PKT }

  predicate PktsOk(ps: seq<Bytes>) { forall i :: 0 <= i < |ps| ==> PktOk(ps[i]) }

  /** A part that ends inside the frame of p. */
  predicate Inside(part: Bytes, p: Bytes) { part <= Frame(p) && |part| < |Frame(p)| }

  lemma {:induction false} PopFrame(p: Bytes, more: Bytes)
    requires PktOk(p)
    ensures PopOne(Frame(p) + more, MAX_PKT) == Pop(|p|, p, more)
  {
    var b := Frame(p) + more;
    assert b[0] == |p| / 256 && b[1] == |p| % 256;
    assert b[2..2 + |p|] == p && b[2 + |p|..] == more;
  }

  lemma {:induction false} PopPart(part: Bytes, p: Bytes)
    requires PktOk(p) && Inside(part, p)
    ensures PopOne(part, MAX_PKT) == Pop(0, [], part)
  {
    if |part| >= 2 { assert part[0] == Frame(p)[0] && part[1] == Frame(p)[1]; }
  }

  /** What a drain leaves of whole frames and a part of the next: exactly the packets. */
  lemma {:induction false} DrainStream(ps: seq<Bytes>, part: Bytes, next: Bytes)
    requires PktsOk(ps) && PktOk(next) && Inside(part, next)
    ensures DrainAll(Stream(ps) + part, MAX_PKT) == Drained(false, ps, part)
  {
    hide Frame, Inside, PopOne;
    if ps == [] {
      assert Stream(ps) + part == part;
      PopPart(part, next);
    } else {
      var more := Stream(ps[1..]) + part;
      assert Stream(ps) + part == Frame(ps[0]) + more;
      PopFrame(ps[0], more);
      DrainStream(ps[1..], part, next);
      assert ps == [ps[0]] + ps[1..];
    }
  }

  /** A frame that announces more than the cap kills the drain, behind the packets before it. */
  lemma {:induction false} DrainDies(ps: seq<Bytes>, bad: Bytes)
    requires PktsOk(ps) && |bad| >= 2 && Announced(bad) > MAX_PKT
    ensures DrainAll(Stream(ps) + bad, MAX_PKT) == Drained(true, ps, bad)
  {
    hide Frame;
    if ps == [] {
      assert Stream(ps) + bad == bad;
    } else {
      var more := Stream(ps[1..]) + bad;
      assert Stream(ps) + bad == Frame(ps[0]) + more;
      PopFrame(ps[0], more);
      DrainDies(ps[1..], bad);
      assert ps == [ps[0]] + ps[1..];
    }
  }

  lemma {:induction false} StreamSplit(ps: seq<Bytes>, k: nat)
    requires k <= |ps|
    ensures Stream(ps) == Stream(ps[..k]) + Stream(ps[k..])
  {
    hide Frame;
    if k == 0 {
      assert ps[..0] == [] && ps[0..] == ps;
      assert Stream(ps) == [] + Stream(ps);
    } else {
      var tail := ps[1..];
      StreamSplit(tail, k - 1);
      assert tail[..k - 1] == ps[..k][1..] && tail[k - 1..] == ps[k..];
      assert ps[..k][0] == ps[0];
      calc {
        Stream(ps);
      == Frame(ps[0]) + Stream(tail);
      == Frame(ps[0]) + (Stream(tail[..k - 1]) + Stream(ps[k..]));
      == (Frame(ps[0]) + Stream(tail[..k - 1])) + Stream(ps[k..]);
      == Stream(ps[..k]) + Stream(ps[k..]);
      }
    }
  }

  /** Where the cut after the first n bytes of the stream lies: so many whole frames, and a
      part of the next. */
  lemma {:induction false} Cut(ps: seq<Bytes>, n: nat) returns (k: nat)
    requires PktsOk(ps) && n <= |Stream(ps)|
    ensures k <= |ps| && |Stream(ps[..k])| <= n && (k < |ps| ==> n < |Stream(ps[..k])| + |Frame(ps[k])|) && (k == |ps| ==> n == |Stream(ps)|)
  {
    hide Frame;
    if ps == [] {
      k := 0;
    } else if n < |Frame(ps[0])| {
      k := 0;
      assert ps[..0] == [];
    } else {
      var j := Cut(ps[1..], n - |Frame(ps[0])|);
      k := j + 1;
      assert ps[..k][1..] == ps[1..][..j];
      assert ps[..k] == [ps[0]] + ps[1..][..j];
    }
  }

  /** After the first n bytes: k packets delivered, `held` in the buffer. */
  predicate Received(ps: seq<Bytes>, n: nat, k: nat, held: Bytes) {
    && n <= |Stream(ps)| && k <= |ps|
    && Stream(ps[..k]) + held == Stream(ps)[..n]
    && (if k < |ps| then |held| < |Frame(ps[k])| else held == [])
  }

  lemma {:induction false} HeldSmall(ps: seq<Bytes>, n: nat, k: nat, held: Bytes)
    requires PktsOk(ps) && Received(ps, n, k, held)
    ensures |held| < 1418
  {
    hide Stream;
  }

  lemma {:induction false} HeldInside(ps: seq<Bytes>, n: nat, k: nat, held: Bytes)
    requires PktsOk(ps) && Received(ps, n, k, held) && k < |ps|
    ensures Inside(held, ps[k])
  {
    hide Frame;
    StreamSplit(ps, k);
    assert ps[k..][0] == ps[k];
    var rest := Stream(ps[k..]);
    assert rest == Frame(ps[k]) + Stream(ps[k..][1..]);
    var a := |Stream(ps[..k])|;
    assert held == (Stream(ps[..k]) + held)[a..] == Stream(ps)[..n][a..] == Stream(ps)[a..n];
    assert Stream(ps)[a..n] == rest[..n - a];
  }

  lemma {:induction false} AllStream(ps: seq<Bytes>)
    ensures ps[..|ps|] == ps && Stream(ps)[..|Stream(ps)|] == Stream(ps)
  {
  }

  /** The next read, however long, delivers exactly the packets it completes. */
  lemma {:induction false} ReadStep(ps: seq<Bytes>, n: nat, k: nat, held: Bytes, d: Bytes) returns (k': nat)
    requires PktsOk(ps) && Received(ps, n, k, held) && n + |d| <= |Stream(ps)| && d == Stream(ps)[n..n + |d|]
    ensures k <= k' <= |ps|
    ensures var r := DrainAll(held + d, MAX_PKT); !r.dead && r.pkts == ps[k..k'] && Received(ps, n + |d|, k', r.rest)
  {
    hide Frame, DrainAll, Inside, PktOk;
    var s, n' := Stream(ps), n + |d|;
    k' := Cut(ps, n');
    NotBack(ps, n, k, held, n', k');
    var part := s[|Stream(ps[..k'])|..n'];
    StreamSplit(ps, k');
    assert Stream(ps[..k']) == s[..|Stream(ps[..k'])|];
    assert Stream(ps[..k']) + part == s[..n'];
    assert s[..n] + d == s[..n'];
    assert Received(ps, n', k', part) by { if k' == |ps| { AllStream(ps); } }
    Middle(ps, k, k', held, d, part, n, n');
    var next: Bytes;
    if k' < |ps| {
      HeldInside(ps, n', k', part);
      next := ps[k'];
    } else {
      next := [0];
      EmptyPart();
      OneByte();
    }
    DrainStream(ps[k..k'], part, next);
  }

  lemma {:induction false} OneByte()
    ensures PktOk([0])
  {
  }

  lemma {:induction false} EmptyPart()
    ensures Inside([], [0])
  {
  }

  lemma {:induction false} NotBack(ps: seq<Bytes>, n: nat, k: nat, held: Bytes, n': nat, k': nat)
    requires PktsOk(ps) && Received(ps, n, k, held) && n <= n' && k' <= |ps|
    requires k' < |ps| ==> n' < |Stream(ps[..k'])| + |Frame(ps[k'])|
    ensures k <= k'
  {
    hide Frame;
    if k' < k { LaterStarts(ps, k', k); }
  }

  lemma {:induction false} LaterStarts(ps: seq<Bytes>, j: nat, k: nat)
    requires j < k <= |ps|
    ensures |Stream(ps[..j])| + |Frame(ps[j])| <= |Stream(ps[..k])|
  {
    hide Frame;
    StreamSplit(ps[..k], j + 1);
    StreamSplit(ps[..j + 1], j);
    assert ps[..k][..j + 1] == ps[..j + 1] && ps[..j + 1][..j] == ps[..j] && ps[..j + 1][j..] == [ps[j]];
    StreamOne(ps[j]);
  }

  lemma {:induction false} StreamOne(p: Bytes)
    ensures Stream([p]) == Frame(p)
  {
    var rest: seq<Bytes> := [p][1..];
    assert |rest| == 0 && Stream([p]) == Frame(p) + Stream(rest);
  }

  lemma {:induction false} Middle(ps: seq<Bytes>, k: nat, k': nat, held: Bytes, d: Bytes, part: Bytes, n: nat, n': nat)
    requires k <= k' <= |ps| && n <= n' <= |Stream(ps)|
    requires Stream(ps[..k]) + held == Stream(ps)[..n] && Stream(ps)[..n] + d == Stream(ps)[..n'] && Stream(ps[..k']) + part == Stream(ps)[..n']
    ensures held + d == Stream(ps[k..k']) + part
  {
    hide Stream;
    StreamSplit(ps[..k'], k);
    assert ps[..k'][..k] == ps[..k] && ps[..k'][k..] == ps[k..k'];
    var a := Stream(ps[..k]);
    assert a + (held + d) == (a + held) + d == Stream(ps)[..n'];
    assert a + (Stream(ps[k..k']) + part) == (a + Stream(ps[k..k'])) + part == Stream(ps)[..n'];
    assert (a + (held + d))[|a|..] == held + d;
    assert (a + (Stream(ps[k..k']) + part))[|a|..] == Stream(ps[k..k']) + part;
  }

  // ---------------------------------------------------------------- the reassembler

  /** TcpReasm. */
  class Reasm {
    const buf: array<nat>
    var len: nat

    ghost predicate Valid() reads this, buf { buf.Length == MAXBUF && len <= MAXBUF }

    ghost function Contents(): Bytes
      requires Valid()
      reads this, buf
    {
      buf[..len]
    }

    constructor ()
      ensures Valid() && Contents() == [] && fresh(buf)
    {
      buf := new nat[MAXBUF];
      len := 0;
    }

    /** tcp_reasm_push. */
    method Push(data: Bytes) returns (n: nat)
      requires Valid()
      modifies this, buf
      ensures Valid() && n == (if |data| > MAXBUF - old(len) then MAXBUF - old(len) else |data|)
      ensures Contents() == old(Contents()) + data[..n]
    {
      n := if |data| > MAXBUF - len then MAXBUF - len else |data|;
      var i := 0;
      ghost var was := buf[..len];
      while i < n
        invariant i <= n && len == old(len) && buf[..len + i] == was + data[..i]
      {
        buf[len + i] := data[i];
        i := i + 1;
      }
      len := len + n;
    }

    /** Move what is behind the consumed bytes to the front. */
    method Shift(consumed: nat)
      requires Valid() && consumed <= len
      modifies this, buf
      ensures Valid() && Contents() == old(Contents())[consumed..]
    {
      ghost var b := buf[..len];
      var rem := len - consumed;
      var i := 0;
      while i < rem
        invariant i <= rem && len == old(len)
        invariant forall k :: 0 <= k < i ==> buf[k] == b[consumed + k]
        invariant forall k :: i <= k < len ==> buf[k] == b[k]
      {
        buf[i] := buf[consumed + i];
        i := i + 1;
      }
      len := rem;
    }

    /** tcp_reasm_next. */
    method Next(cap: nat) returns (code: int, out: Bytes)
      requires Valid()
      modifies this, buf
      ensures Valid() && Pop(code, out, Contents()) == PopOne(old(Contents()), cap)
      ensures Popped(old(Contents()), cap, code, out, Contents())
    {
      if len < 2 { return 0, []; }
      var flen := 256 * buf[0] + buf[1];
      if flen > cap { return -1, []; }
      if len < 2 + flen { return 0, []; }
      out := buf[..len][2..2 + flen];
      Shift(2 + flen);
      code := flen;
    }

    /** The inner loop of the reader: pop every full frame. */
    method Drain(cap: nat) returns (dead: bool, pkts: seq<Bytes>)
      requires Valid()
      modifies this, buf
      ensures Valid() && Drained(dead, pkts, Contents()) == DrainAll(old(Contents()), cap)
    {
      hide PopOne, Popped;
      pkts := [];
      while true
        invariant Valid()
        invariant var d := DrainAll(Contents(), cap); DrainAll(old(Contents()), cap) == Drained(d.dead, pkts + d.pkts, d.rest)
        decreases len
      {
        ghost var before := Contents();
        var code, out := Next(cap);
        PopShrinks(before, cap);
        if code == 0 { return false, pkts; }
        if code < 0 { return true, pkts; }
        pkts := pkts + [out];
      }
    }
  }

  lemma {:induction false} PopShrinks(b: Bytes, cap: nat)
    ensures PopOne(b, cap).code > 0 ==> |PopOne(b, cap).rest| < |b|
  {
  }

  /** Reads follow each other and make up the stream. */
  function Joined(reads_: seq<Bytes>): Bytes {
    if reads_ == [] then [] else Joined(reads_[..|reads_| - 1]) + reads_[|reads_| - 1]
  }

  lemma {:induction false} JoinedPrefix(rs: seq<Bytes>, i: nat)
    requires i <= |rs|
    ensures Joined(rs[..i]) <= Joined(rs)
    decreases |rs|
  {
    if i == |rs| {
      assert rs[..i] == rs;
    } else {
      JoinedPrefix(rs[..|rs| - 1], i);
      assert rs[..|rs| - 1][..i] == rs[..i];
    }
  }

  /** A drain never delivers an empty packet: an empty frame is taken for "no frame yet". */
  lemma {:induction false} DrainsNoEmpty(b: Bytes, cap: nat)
    ensures forall p :: p in DrainAll(b, cap).pkts ==> p != []
    decreases |b|
  {
    var p := PopOne(b, cap);
    if p.code > 0 { DrainsNoEmpty(p.rest, cap); }
  }

  /** The relay's read loop: for every list of packets of at most 1416 bytes and every cut of
      their stream into reads of at most 2048 bytes, the packets come out again, all of them, in
      order, without a byte refused, if and only if none of them is empty. */
  method Receive(rs: seq<Bytes>, ghost ps: seq<Bytes>) returns (dead: bool, got: seq<Bytes>)
    requires (forall i :: 0 <= i < |ps| ==> |ps[i]| <= MAX_PKT) && Joined(rs) == Stream(ps) && forall i :: 0 <= i < |rs| ==> |rs[i]| <= READ_MAX
    ensures (!dead && got == ps) <==> forall i :: 0 <= i < |ps| ==> ps[i] != []
  {
    hide Stream, Frame, DrainAll, Received;
    var r := new Reasm();
    got := [];
    var i := 0;
    ghost var whole := PktsOk(ps);
    ghost var n, k := 0, 0;
    StartReceived(ps);
    while i < |rs|
      invariant i <= |rs| && r.Valid() && fresh(r) && fresh(r.buf)
      invariant forall p :: p in got ==> p != []
      invariant whole ==> n == |Joined(rs[..i])| && Received(ps, n, k, r.Contents()) && k <= |ps| && got == ps[..k]
    {
      ghost var k' := k;
      if whole { k' := NextRead(ps, rs, i, n, k, r.Contents()); }
      ghost var held := r.Contents();
      var m := r.Push(rs[i]);
      if m < |rs[i]| { return true, got; }
      assert rs[i][..m] == rs[i];
      DrainsNoEmpty(r.Contents(), MAX_PKT);
      var bad, more := r.Drain(MAX_PKT);
      if bad { return true, got; }
      assert whole ==> ps[..k] + ps[k..k'] == ps[..k'];
      got := got + more;
      n, k := n + |rs[i]|, k';
      i := i + 1;
    }
    assert rs[..i] == rs;
    if whole {
      EndReceived(ps, k, r.Contents());
    } else {
      EmptyMissing(got, ps);
    }
    dead := false;
  }

  lemma {:induction false} EmptyMissing(got: seq<Bytes>, ps: seq<Bytes>)
    requires (forall p :: p in got ==> p != []) && exists i :: 0 <= i < |ps| && ps[i] == []
    ensures got != ps
  {
    var i :| 0 <= i < |ps| && ps[i] == [];
    assert ps[i] in ps;
  }

  /** What the next read brings, in packets. */
  lemma {:induction false} NextRead(ps: seq<Bytes>, rs: seq<Bytes>, i: nat, n: nat, k: nat, held: Bytes) returns (k': nat)
    requires PktsOk(ps) && Joined(rs) == Stream(ps) && i < |rs| && |rs[i]| <= READ_MAX
    requires n == |Joined(rs[..i])| && Received(ps, n, k, held)
    ensures n + |rs[i]| == |Joined(rs[..i + 1])| && |held| + |rs[i]| <= MAXBUF && k <= k' <= |ps|
    ensures DrainAll(held + rs[i], MAX_PKT) == Drained(false, ps[k..k'], DrainAll(held + rs[i], MAX_PKT).rest)
    ensures Received(ps, n + |rs[i]|, k', DrainAll(held + rs[i], MAX_PKT).rest)
  {
    hide Stream, Frame, DrainAll, PktOk;
    HeldSmall(ps, n, k, held);
    JoinedPrefix(rs, i + 1);
    assert rs[..i + 1][..i] == rs[..i];
    assert rs[i] == Stream(ps)[n..n + |rs[i]|];
    k' := ReadStep(ps, n, k, held, rs[i]);
  }

  lemma {:induction false} StartReceived(ps: seq<Bytes>)
    ensures Received(ps, 0, 0, [])
  {
    assert ps[..0] == [];
  }

  lemma {:induction false} EndReceived(ps: seq<Bytes>, k: nat, held: Bytes)
    requires PktsOk(ps) && Received(ps, |Stream(ps)|, k, held)
    ensures ps[..k] == ps
  {
    hide Frame;
    if k < |ps| {
      LaterStarts(ps, k, |ps|);
      AllStream(ps);
    }
  }

  /** Packets must not be empty: an empty frame is taken for "no frame yet", so what stands
      behind it in the buffer waits for the next read. */
  lemma {:induction false} EmptyFrameStalls(p: Bytes)
    requires PktOk(p)
    ensures DrainAll(Stream([[], p]), MAX_PKT) == Drained(false, [], Frame(p))
  {
    var s := Stream([[], p]);
    var rest: seq<Bytes> := [[], p][1..];
    assert rest == [p];
    StreamOne(p);
    assert s == Frame([]) + Frame(p);
    assert Frame([]) == [0, 0];
    assert s[2..] == Frame(p);
  }
}
