/** Streaming SHA-256 and HMAC of relay/sha256.c, over any compression function: whatever
    the cut of a message into updates, the digest is that of the padded message. */
module Sha256 {

  type Bytes = seq<nat>
  type State = seq<nat>
  type Compress = (State, Bytes) -> State

  const BLOCK: nat := 64
  const IV: State := [0x6a09e667, 0xbb67ae85, 0x3c6ef372, 0xa54ff53a, 0x510e527f, 0x9b05688c, 0x1f83d9ab, 0x5be0cd19]

  // ---------------------------------------------------------------- the standard

  /** Hash computation, section 6.2.2 of FIPS 180-4: block after block. */
  function Fold(f: Compress, m: Bytes): State {
    if |m| < BLOCK then IV else f(Fold(f, m[..|m| - BLOCK]), m[|m| - BLOCK..])
  }

  function Zeros(n: nat): (z: Bytes)
    ensures |z| == n
  {
    seq(n, _ => 0)
  }

  /** The low k bytes of a number, highest first. */
  function Be(k: nat, n: nat): (b: Bytes)
    ensures |b| == k
  {
    if k == 0 then [] else Be(k - 1, n / 256) + [n % 256]
  }

  function Be8(n: nat): (b: Bytes)
    ensures |b| == 8
  {
    Be(8, n)
  }

  /** Padding, section 5.1.1 of FIPS 180-4: a one bit, the fewest zeros that leave 64 bits of
      the last block, the length in bits. */
  function Padded(m: Bytes): Bytes {
    m + [0x80] + Zeros((119 - |m| % BLOCK) % BLOCK) + Be8(8 * |m| % 0x1_0000_0000_0000_0000)
  }

  lemma {:induction false} PaddedWhole(m: Bytes)
    ensures |Padded(m)| % BLOCK == 0
  {
    hide Be8;
    var n := |m|;
    assert |Padded(m)| == n + 9 + (119 - n % BLOCK) % BLOCK;
    WholeBlocks(n);
  }

  lemma {:induction false} WholeBlocks(n: nat)
    ensures (n + 9 + (119 - n % BLOCK) % BLOCK) % BLOCK == 0
  {
    var r := n % BLOCK;
    var z := (119 - r) % BLOCK;
    assert z == if r <= 55 then 55 - r else 119 - r;
    assert (n - r) % BLOCK == 0;
  }

  /** A number read highest byte first. */
  function Value(b: Bytes): nat {
    if b == [] then 0 else 256 * Value(b[..|b| - 1]) + b[|b| - 1]
  }

  predicate IsBytes(b: Bytes) { forall i :: 0 <= i < |b| ==> b[i] < 256 }

  lemma {:induction false} ValueNext(b: Bytes, c: nat)
    ensures Value(b + [c]) == 256 * Value(b) + c
  {
    assert (b + [c])[..|b|] == b;
  }

  /** As many bytes spell a number in one way. */
  lemma {:induction false} ValueInjective(a: Bytes, b: Bytes)
    requires |a| == |b| && IsBytes(a) && IsBytes(b) && Value(a) == Value(b)
    ensures a == b
  {
    if a != [] {
      var n := |a| - 1;
      assert a == a[..n] + [a[n]] && b == b[..n] + [b[n]];
      ValueInjective(a[..n], b[..n]);
    }
  }

  function Pow256(k: nat): (p: nat)
    ensures p > 0
  {
    if k == 0 then 1 else 256 * Pow256(k - 1)
  }

  lemma {:induction false} AtLeast(d: int, e: int)
    requires d >= 0
    ensures e >= 1 ==> d * e >= d
    ensures e <= -1 ==> d * e <= -d
  {
    assert d * e == d + d * (e - 1);
    assert d * e == -d + d * (e + 1);
  }

  lemma {:induction false} ModUnique(n: nat, d: nat, k: nat, r: nat)
    requires r < d && n == d * k + r
    ensures n % d == r
  {
    var e: int := n / d - k;
    assert n == d * (n / d) + n % d;
    assert d * e == r - n % d;
    AtLeast(d, e);
  }

  lemma {:induction false} ModStep(n: nat, m: nat)
    requires m > 0
    ensures n % (256 * m) == 256 * (n / 256 % m) + n % 256
  {
    var q: nat := n / 256;
    var t: nat, u: nat := q / m, q % m;
    assert q == m * t + u;
    assert 256 * (m * t) == (256 * m) * t;
    ModUnique(n, 256 * m, t, 256 * u + n % 256);
  }

  /** Highest byte first they are that number modulo 256^k. */
  lemma {:induction false} BeValue(k: nat, n: nat)
    ensures IsBytes(Be(k, n)) && Value(Be(k, n)) == n % Pow256(k)
  {
    hide Value;
    if k > 0 {
      BeValue(k - 1, n / 256);
      ValueNext(Be(k - 1, n / 256), n % 256);
      ModStep(n, Pow256(k - 1));
    } else {
      ValueNone();
    }
  }

  lemma {:induction false} ValueNone()
    ensures Value([]) == 0
  {
  }

  lemma {:induction false} Powers()
    ensures Pow256(4) == 0x1_0000_0000 && Pow256(8) == 0x1_0000_0000_0000_0000
  {
    assert Pow256(2) == 0x1_0000;
    assert Pow256(4) == 0x1_0000_0000;
    assert Pow256(6) == 0x1_0000_0000_0000;
  }

  /** The eight bytes of a length are that length modulo 2^64, highest byte first. */
  lemma {:induction false} Be8Value(n: nat)
    ensures IsBytes(Be8(n)) && Value(Be8(n)) == n % 0x1_0000_0000_0000_0000
  {
    hide Value, Be, Pow256;
    BeValue(8, n);
    Powers();
  }

  /** Padding as the standard asks for it: the message, a one bit, zeros, the length in bits in
      the last eight bytes, and no block more than needed. */
  predicate IsPadding(m: Bytes, p: Bytes) {
    && |p| % BLOCK == 0 && |m| + 9 <= |p| < |m| + 9 + BLOCK && m == p[..|m|] && p[|m|] == 0x80
    && (forall i :: |m| < i < |p| - 8 ==> p[i] == 0)
    && IsBytes(p[|p| - 8..]) && Value(p[|p| - 8..]) == 8 * |m| % 0x1_0000_0000_0000_0000
  }

  lemma {:induction false} PaddedIff(m: Bytes, p: Bytes)
    ensures p == Padded(m) <==> IsPadding(m, p)
  {
    hide Be8, Value;
    var n := |m|;
    var bits := 8 * n % 0x1_0000_0000_0000_0000;
    var q, z := Padded(m), (119 - n % BLOCK) % BLOCK;
    Be8Value(bits);
    PaddedWhole(m);
    assert |q| == n + 9 + z;
    assert q[|q| - 8..] == Be8(bits);
    assert q[..n] == m;
    if IsPadding(m, p) {
      assert |p| == |q| by { SameBlocks(n + 9, |p|, |q|); }
      ValueInjective(p[|p| - 8..], Be8(bits));
      assert p == p[..n] + [p[n]] + p[n + 1..|p| - 8] + p[|p| - 8..];
      assert p[n + 1..|p| - 8] == Zeros(z);
    }
  }

  lemma {:induction false} SameBlocks(low: nat, a: nat, b: nat)
    requires a % BLOCK == 0 && b % BLOCK == 0 && low <= a < low + BLOCK && low <= b < low + BLOCK
    ensures a == b
  {
  }

  /** The initial state: the first 32 bits behind the point of the square roots of the first
      eight primes, section 5.3.3 of FIPS 180-4. */
  lemma {:induction false} InitialState(i: nat)
    requires i < 8
    ensures |IV| == 8 && IV[i] < 0x1_0000_0000
    ensures var p, whole := [2, 3, 5, 7, 11, 13, 17, 19][i], [1, 1, 2, 2, 3, 3, 4, 4][i];
            var root := whole * 0x1_0000_0000 + IV[i];
            root * root <= p * 0x1_0000_0000_0000_0000 < (root + 1) * (root + 1)
  {
    if i == 0 {} else if i == 1 {} else if i == 2 {} else if i == 3 {} else if i == 4 {} else if i == 5 {} else if i == 6 {} else {}
  }

  function Word(w: nat): Bytes { Be(4, w) }

  function Words(s: State): Bytes {
    if s == [] then [] else Words(s[..|s| - 1]) + Word(s[|s| - 1])
  }

  /** The digest spells the words of the state in order, highest byte first. */
  lemma {:induction false} WordsValue(s: State, i: nat)
    requires i < |s|
    ensures |Words(s)| == 4 * |s| && Value(Words(s)[4 * i..4 * i + 4]) == s[i] % 0x1_0000_0000
    decreases |s|
  {
    hide Be, Value, Pow256;
    var n := |s| - 1;
    BeValue(4, s[n]);
    Powers();
    if n > 0 {
      WordsValue(s[..n], if i < n then i else 0);
    }
    var front := Words(s[..n]);
    if i < n {
      assert Words(s)[4 * i..4 * i + 4] == front[4 * i..4 * i + 4];
    } else {
      assert Words(s)[4 * i..4 * i + 4] == Word(s[n]);
    }
  }

  function Hash(f: Compress, m: Bytes): Bytes { Words(Fold(f, Padded(m))) }

  // ---------------------------------------------------------------- absorbing

  /** State and tail are what m leaves: its whole blocks folded, the rest waiting. */
  predicate Absorbed(f: Compress, s: State, tail: Bytes, m: Bytes) {
    && |tail| <= |m| && (|m| - |tail|) % BLOCK == 0
    && tail == m[|m| - |tail|..] && s == Fold(f, m[..|m| - |tail|])
  }

  lemma {:induction false} AbsorbMore(f: Compress, s: State, tail: Bytes, m: Bytes, p: Bytes)
    requires Absorbed(f, s, tail, m)
    ensures Absorbed(f, s, tail + p, m + p)
  {
    assert (m + p)[..|m| - |tail|] == m[..|m| - |tail|];
  }

  lemma {:induction false} AbsorbBlock(f: Compress, s: State, tail: Bytes, m: Bytes)
    requires Absorbed(f, s, tail, m) && |tail| == BLOCK
    ensures Absorbed(f, f(s, tail), [], m)
  {
    assert m[..|m|] == m;
  }

  lemma {:induction false} LengthMod(a: nat, b: nat)
    ensures (a % 0x1_0000_0000_0000_0000 + b % 0x1_0000_0000_0000_0000) % 0x1_0000_0000_0000_0000 == (a + b) % 0x1_0000_0000_0000_0000
  {
  }

  /** sha256_ctx. */
  class Ctx {
    const f: Compress
    var state: State
    var bitlen: nat
    const buf: array<nat>
    var buflen: nat
    ghost var msg: Bytes

    ghost predicate Valid() reads this, buf {
      && buf.Length == BLOCK && buflen < BLOCK && Absorbed(f, state, buf[..buflen], msg)
      && bitlen == 8 * |msg| % 0x1_0000_0000_0000_0000
    }

    /** sha256_init. */
    constructor (f: Compress)
      ensures Valid() && msg == [] && this.f == f && fresh(buf)
    {
      this.f := f;
      state := IV;
      bitlen := 0;
      buf := new nat[BLOCK];
      buflen := 0;
      msg := [];
    }

    /** memcpy into the buffer. */
    method Put(p: Bytes)
      requires buf.Length == BLOCK && buflen + |p| <= BLOCK
      modifies buf, `buflen
      ensures buflen == old(buflen) + |p| && buf[..buflen] == old(buf[..buflen]) + p
    {
      var i := 0;
      while i < |p|
        invariant i <= |p| && buflen == old(buflen) + i && buf[..buflen] == old(buf[..buflen]) + p[..i]
      {
        buf[buflen] := p[i];
        buflen := buflen + 1;
        i := i + 1;
      }
      assert p[..|p|] == p;
    }

    /** sha256_update: any piece, of any length, from any position in the buffer. */
    method Update(data: Bytes)
      requires Valid()
      modifies this, buf
      ensures Valid() && msg == old(msg) + data
    {
      hide Fold, Absorbed;
      ghost var m := msg;
      LengthMod(8 * |m|, 8 * |data|);
      bitlen := (bitlen + |data| * 8 % 0x1_0000_0000_0000_0000) % 0x1_0000_0000_0000_0000;
      var i := 0;
      assert m + data[..0] == m;
      while i < |data|
        invariant i <= |data| && buflen < BLOCK && Absorbed(f, state, buf[..buflen], m + data[..i])
        invariant bitlen == 8 * |m + data| % 0x1_0000_0000_0000_0000 && msg == m
      {
        var take := if BLOCK - buflen > |data| - i then |data| - i else BLOCK - buflen;
        var piece := data[i..i + take];
        AbsorbMore(f, state, buf[..buflen], m + data[..i], piece);
        assert (m + data[..i]) + piece == m + data[..i + take];
        Put(piece);
        i := i + take;
        if buflen == BLOCK {
          AbsorbBlock(f, state, buf[..buflen], m + data[..i]);
          state := f(state, buf[..buflen]);
          buflen := 0;
          assert buf[..0] == [];
        }
      }
      assert data[..i] == data;
      msg := m + data;
    }

    /** sha256_final: padding in the buffer, one block or two. */
    method Final() returns (out: Bytes)
      requires Valid()
      modifies this, buf
      ensures out == Hash(f, old(msg))
    {
      hide Fold, Be8, Zeros, Absorbed, Padded, Words;
      ghost var m, r := msg, buflen;
      TailLength(f, state, buf[..buflen], m);
      ghost var z := (119 - |m| % BLOCK) % BLOCK;
      AbsorbMore(f, state, buf[..buflen], m, [0x80]);
      Put([0x80]);
      var done := 0;
      ghost var all := m + [0x80];
      if buflen > 56 {
        done := BLOCK - buflen;
        AbsorbMore(f, state, buf[..buflen], all, Zeros(done));
        Put(Zeros(done));
        all := all + Zeros(done);
        AbsorbBlock(f, state, buf[..buflen], all);
        state := f(state, buf[..buflen]);
        buflen := 0;
        assert buf[..0] == [];
      } else {
        NoZeros(all);
      }
      var more := 56 - buflen;
      AbsorbMore(f, state, buf[..buflen], all, Zeros(more));
      Put(Zeros(more));
      all := all + Zeros(more);
      AbsorbMore(f, state, buf[..buflen], all, Be8(bitlen));
      Put(Be8(bitlen));
      all := all + Be8(bitlen);
      AbsorbBlock(f, state, buf[..buflen], all);
      state := f(state, buf[..buflen]);
      assert done + more == z;
      PaddedIs(m, done, more);
      AbsorbedAll(f, state, all);
      out := Words(state);
    }
  }

  lemma {:induction false} NoZeros(m: Bytes)
    ensures m + Zeros(0) == m
  {
  }

  lemma {:induction false} TailLength(f: Compress, s: State, tail: Bytes, m: Bytes)
    requires Absorbed(f, s, tail, m) && |tail| < BLOCK
    ensures |m| % BLOCK == |tail|
  {
  }

  lemma {:induction false} AbsorbedAll(f: Compress, s: State, m: Bytes)
    requires Absorbed(f, s, [], m)
    ensures s == Fold(f, m)
  {
    assert m[..|m|] == m;
  }

  lemma {:induction false} PaddedIs(m: Bytes, done: nat, more: nat)
    requires done + more == (119 - |m| % BLOCK) % BLOCK
    ensures m + [0x80] + Zeros(done) + Zeros(more) + Be8(8 * |m| % 0x1_0000_0000_0000_0000) == Padded(m)
  {
    assert Zeros(done) + Zeros(more) == Zeros(done + more);
  }

  // ---------------------------------------------------------------- one shot, pieces, HMAC

  function Concat(parts: seq<Bytes>): Bytes {
    if parts == [] then [] else Concat(parts[..|parts| - 1]) + parts[|parts| - 1]
  }

  /** However a message is cut, the digest is that of the whole. */
  method HashParts(f: Compress, parts: seq<Bytes>) returns (out: Bytes)
    ensures out == Hash(f, Concat(parts))
  {
    var c := new Ctx(f);
    var i := 0;
    while i < |parts|
      invariant i <= |parts| && c.Valid() && c.f == f && c.msg == Concat(parts[..i]) && fresh(c) && fresh(c.buf)
    {
      c.Update(parts[i]);
      assert parts[..i + 1][..i] == parts[..i];
      i := i + 1;
    }
    assert parts[..i] == parts;
    out := c.Final();
  }

  /** sha256. */
  method OneShot(f: Compress, m: Bytes) returns (out: Bytes)
    ensures out == Hash(f, m)
  {
    hide Hash;
    out := HashParts(f, [m]);
    ConcatOne(m);
  }

  /** Exclusive or of the low n bits. */
  function XorBits(n: nat, a: nat, b: nat): nat {
    if n == 0 then 0 else 2 * XorBits(n - 1, a / 2, b / 2) + if a % 2 == b % 2 then 0 else 1
  }

  function Xor(b: nat, pad: nat): nat { XorBits(8, b, pad) }

  function Bit(a: nat, i: nat): nat { if i == 0 then a % 2 else Bit(a / 2, i - 1) }

  /** Each bit is set where exactly one of the two is; none above. */
  lemma {:induction false} XorBit(n: nat, a: nat, b: nat, i: nat)
    ensures Bit(XorBits(n, a, b), i) == if i < n && Bit(a, i) != Bit(b, i) then 1 else 0
  {
    var x := XorBits(n, a, b);
    if n == 0 {
      NoBits(i);
    } else {
      assert x / 2 == XorBits(n - 1, a / 2, b / 2);
      if i > 0 { XorBit(n - 1, a / 2, b / 2, i - 1); }
    }
  }

  lemma {:induction false} NoBits(i: nat)
    ensures Bit(0, i) == 0
  {
    if i > 0 { NoBits(i - 1); }
  }

  function XorAll(k: Bytes, pad: nat): Bytes { seq(|k|, i requires 0 <= i < |k| => Xor(k[i], pad)) }

  /** The key as one block. */
  function KeyBlock(f: Compress, key: Bytes): Bytes {
    var k := if |key| > BLOCK then Hash(f, key) else key;
    if |k| <= BLOCK then k + Zeros(BLOCK - |k|) else k
  }

  /** Section 2 of RFC 2104. */
  function Hmac(f: Compress, key: Bytes, msg: Bytes): Bytes {
    var k := KeyBlock(f, key);
    Hash(f, XorAll(k, 0x5c) + Hash(f, XorAll(k, 0x36) + msg))
  }

  lemma {:induction false} XorZero()
    ensures Xor(0, 0x36) == 0x36 && Xor(0, 0x5c) == 0x5c
  {
    assert XorBits(4, 0, 0x3) == 0x3 && XorBits(4, 0, 0x5) == 0x5;
    assert XorBits(6, 0, 0xD) == 0xD && XorBits(6, 0, 0x17) == 0x17;
  }

  /** The inner hash starts with the key xor 0x36 in each byte of a block, the outer one with the
      key xor 0x5c; behind a short key both bytes stand as they are. */
  lemma {:induction false} HmacBlocks(f: Compress, key: Bytes, msg: Bytes) returns (inner: Bytes, outer: Bytes)
    requires |key| <= BLOCK
    ensures Hmac(f, key, msg) == Hash(f, outer + Hash(f, inner + msg))
    ensures |inner| == |outer| == BLOCK 
    ensures forall i :: 0 <= i < |key| ==> inner[i] == Xor(key[i], 0x36) && outer[i] == Xor(key[i], 0x5c)
    ensures forall i :: |key| <= i < BLOCK ==> inner[i] == 0x36 && outer[i] == 0x5c
  {
    hide Hash, Xor;
    XorZero();
    var k := KeyBlock(f, key);
    inner, outer := XorAll(k, 0x36), XorAll(k, 0x5c);
  }

  /** A long key counts as its digest. */
  lemma {:induction false} HmacLongKey(f: Compress, key: Bytes, msg: Bytes)
    requires |key| > BLOCK >= |Hash(f, key)|
    ensures Hmac(f, key, msg) == Hmac(f, Hash(f, key), msg)
  {
    hide Hash;
  }

  lemma {:induction false} ConcatOne(a: Bytes)
    ensures Concat([a]) == a
  {
    assert [a][..0] == [] && Concat([]) + a == a;
  }

  lemma {:induction false} ConcatTwo(a: Bytes, b: Bytes)
    ensures Concat([a, b]) == a + b
  {
    assert [a, b][..1] == [a];
    ConcatOne(a);
  }

  /** The two passes of HMAC with the message in pieces. */
  method HmacParts(f: Compress, k: Bytes, parts: seq<Bytes>) returns (out: Bytes)
    ensures out == Hash(f, XorAll(k, 0x5c) + Hash(f, XorAll(k, 0x36) + Concat(parts)))
  {
    hide Hash;
    var inner := HashParts(f, [XorAll(k, 0x36)] + parts);
    ConcatCons(XorAll(k, 0x36), parts);
    out := HashParts(f, [XorAll(k, 0x5c), inner]);
    ConcatTwo(XorAll(k, 0x5c), inner);
  }

  lemma {:induction false} ConcatCons(a: Bytes, parts: seq<Bytes>)
    ensures Concat([a] + parts) == a + Concat(parts)
  {
    var all := [a] + parts;
    if parts != [] {
      assert all[..|all| - 1] == [a] + parts[..|parts| - 1];
      ConcatCons(a, parts[..|parts| - 1]);
    } else {
      assert all == [a];
      ConcatOne(a);
    }
  }

  /** hmac_sha256, truncated to the length asked for. */
  method HmacSha256(f: Compress, key: Bytes, msg: Bytes, outLen: nat) returns (out: Bytes)
    ensures var h := Hmac(f, key, msg); out == h[..if outLen < |h| then outLen else |h|]
  {
    hide Hash;
    var k := key;
    if |key| > BLOCK { k := OneShot(f, key); }
    if |k| <= BLOCK { k := k + Zeros(BLOCK - |k|); }
    var h := HmacParts(f, k, [msg]);
    ConcatOne(msg);
    out := h[..if outLen < |h| then outLen else |h|];
  }
}
