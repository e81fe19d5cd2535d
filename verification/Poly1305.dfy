/**
 The Poly1305 one-time authenticator in saturated 64-bit limbs, and a proof that the streaming
 implementation computes the tag of section 2.5 of RFC 8439 for every key, every message and
 every way of cutting the message into Write calls.
 */
module Poly1305 {
  import opened Bytes

  const TAG_SIZE: nat := 16
  const WORD_SIZE: nat := 8
  const B128: nat := 0x1_0000_0000_0000_0000_0000_0000_0000_0000
  /** 2^130 - 5 */
  const P: nat := 0x3_FFFF_FFFF_FFFF_FFFF_FFFF_FFFF_FFFF_FFFB

  // ---------------------------------------------------------------- the specification

  /** Section 2.5 of RFC 8439: clear the top four bits of bytes 3, 7, 11, 15 and the low two of 4, 8, 12. */
  function Clamp(b: seq<byte>): (c: seq<byte>)
    requires |b| == 16
  {
    [b[0], b[1], b[2], b[3] % 16, b[4] - b[4] % 4, b[5], b[6], b[7] % 16,
     b[8] - b[8] % 4, b[9], b[10], b[11] % 16, b[12] - b[12] % 4, b[13], b[14], b[15] % 16]
  }

  /** A chunk of at most 16 bytes read as a number, with a one placed just above it. */
  function Block(c: seq<byte>): (n: nat)
  {
    LE(c) + Pow256(|c|)
  }

  function ChunkLength(msg: seq<byte>): (n: nat)
  {
    if |msg| < TAG_SIZE then |msg| else TAG_SIZE
  }

  /** Horner evaluation of the chunk polynomial at r, starting from a, modulo P. */
  function Accumulate(a: nat, r: nat, msg: seq<byte>): (h: nat)
    decreases |msg|
  {
    if msg == [] then a % P
    else
      var n := ChunkLength(msg);
      Accumulate((a + Block(msg[..n])) * r, r, msg[n..])
  }

  function Power(r: nat, k: nat): (p: nat)
  {
    if k == 0 then 1 else r * Power(r, k - 1)
  }

  function ChunkCount(msg: seq<byte>): (k: nat)
  {
    (|msg| + 15) / 16
  }

  /** The chunk polynomial written out: the i-th of q chunks is weighted by r^(q-i). */
  function Polynomial(r: nat, msg: seq<byte>): (v: nat)
    decreases |msg|
  {
    if msg == [] then 0
    else
      var n := ChunkLength(msg);
      Block(msg[..n]) * Power(r, ChunkCount(msg)) + Polynomial(r, msg[n..])
  }

  function KeyR(key: seq<byte>): (r: nat)
    requires |key| == 32
  {
    LE(Clamp(key[..16]))
  }

  function KeyS(key: seq<byte>): (s: nat)
    requires |key| == 32
  {
    LE(key[16..])
  }

  function TagValue(key: seq<byte>, msg: seq<byte>): (v: nat)
    requires |key| == 32
  {
    Polynomial(KeyR(key), msg) % P + KeyS(key)
  }

  /** The authenticator: the polynomial at the clamped r modulo 2^130 - 5, plus s, modulo 2^128. */
  function Tag(key: seq<byte>, msg: seq<byte>): (tag: seq<byte>)
    requires |key| == 32
  {
    ToLE(TagValue(key, msg), TAG_SIZE)
  }

  // ---------------------------------------------------------------- modular arithmetic

  lemma {:induction false} ModMultiple(x: int, k: int, m: int)
    requires m > 0
    ensures (x + k * m) % m == x % m
  {
    var q, r := x / m, x % m;
    assert x + k * m == (q + k) * m + r;
    DivModUnique(x + k * m, m, q + k, r);
  }

  lemma {:induction false} ModAddMul(a: nat, b: nat, r: nat, m: nat)
    requires m > 0
    ensures ((a % m + b) * r) % m == ((a + b) * r) % m
  {
    var q := a / m;
    assert a == q * m + a % m;
    assert (a + b) * r == (a % m + b) * r + (q * r) * m by {
      assert a + b == (a % m + b) + q * m;
      assert ((a % m + b) + q * m) * r == (a % m + b) * r + (q * m) * r;
      assert (q * m) * r == (q * r) * m;
    }
    ModMultiple((a % m + b) * r, q * r, m);
  }

  lemma {:induction false} AccumulateMod(a: nat, a': nat, r: nat, msg: seq<byte>)
    requires a % P == a' % P
    ensures Accumulate(a, r, msg) == Accumulate(a', r, msg)
    decreases |msg|
  {
    if msg != [] {
      var n := ChunkLength(msg);
      var b := Block(msg[..n]);
      ModAddMul(a, b, r, P);
      ModAddMul(a', b, r, P);
      AccumulateMod((a + b) * r, (a' + b) * r, r, msg[n..]);
    }
  }

  /** Whole chunks can be absorbed first and the remainder later. */
  lemma {:induction false} AccumulateSplit(a: nat, r: nat, s: seq<byte>, t: seq<byte>)
    requires |s| % 16 == 0
    ensures Accumulate(a, r, s + t) == Accumulate(Accumulate(a, r, s), r, t)
    decreases |s|
  {
    if s == [] {
      assert s + t == t;
      ModMod(a);
      AccumulateMod(a, a % P, r, t);
    } else {
      assert (s + t)[..16] == s[..16];
      assert (s + t)[16..] == s[16..] + t;
      AccumulateSplit((a + Block(s[..16])) * r, r, s[16..], t);
    }
  }

  lemma {:induction false} ModMod(a: nat)
    ensures (a % P) % P == a % P
  {
  }

  /** Horner's rule agrees with the polynomial written out. */
  lemma {:induction false} HornerIsPolynomial(a: nat, r: nat, msg: seq<byte>)
    ensures Accumulate(a, r, msg) == (a * Power(r, ChunkCount(msg)) + Polynomial(r, msg)) % P
    decreases |msg|
  {
    if msg == [] {
      assert Power(r, 0) == 1;
    } else {
      var n := ChunkLength(msg);
      var b := Block(msg[..n]);
      var rest := msg[n..];
      var q := ChunkCount(msg);
      assert ChunkCount(rest) == q - 1;
      HornerIsPolynomial((a + b) * r, r, rest);
      Distribute(a, b, r, Power(r, q - 1), Power(r, q));
    }
  }

  lemma {:induction false} Distribute(a: nat, b: nat, r: nat, w: nat, rw: nat)
    requires rw == r * w
    ensures ((a + b) * r) * w == a * rw + b * rw
  {
    assert ((a + b) * r) * w == (a + b) * (r * w);
  }

  // ---------------------------------------------------------------- machine words

  type word = x: nat | x < B64

  datatype Uint128 = Uint128(lo: word, hi: word)

  /** bits.Add64: sum and carry. */
  function Add64(x: word, y: word, c: nat): (r: (word, nat))
    requires c <= 1
    ensures r.0 + r.1 * B64 == x + y + c && r.1 <= 1
  {
    ((x + y + c) % B64, (x + y + c) / B64)
  }

  /** bits.Sub64: difference and borrow. */
  function Sub64(x: word, y: word, b: nat): (r: (word, nat))
    requires b <= 1
    ensures r.0 == x - y - b + r.1 * B64 && r.1 <= 1
  {
    if x >= y + b then (x - y - b, 0) else (x + B64 - y - b, 1)
  }

  function Mul64(a: word, b: word): (r: Uint128)
    ensures r.lo + r.hi * B64 == a * b
  {
    ProductBound(a, b, B64, B64);
    Uint128((a * b) % B64, (a * b) / B64)
  }

  lemma {:induction false} ProductBound(a: nat, b: nat, m: nat, n: nat)
    requires a < m && b < n
    ensures a * b <= (m - 1) * (n - 1)
  {
    assert a * b <= a * (n - 1);
    assert a * (n - 1) <= (m - 1) * (n - 1);
  }

  /** 128-bit addition; the second component is the carry the source panics on. */
  function Add128(a: Uint128, b: Uint128): (r: (Uint128, nat))
    ensures r.0.lo + r.0.hi * B64 + r.1 * B128 == a.lo + b.lo + (a.hi + b.hi) * B64
  {
    var l := Add64(a.lo, b.lo, 0);
    var h := Add64(a.hi, b.hi, l.1);
    (Uint128(l.0, h.0), h.1)
  }

  function ShiftRightBy2(a: Uint128): (r: Uint128)
    ensures r.lo + r.hi * B64 == (a.lo + a.hi * B64) / 4
  {
    AndLow2(a.hi);
    Pow2Of62();
    var top := And(a.hi, 3) * 0x4000_0000_0000_0000;
    assert top % 0x4000_0000_0000_0000 == 0;
    OrDisjoint(a.lo / 4, top, 62);
    Uint128(Or(a.lo / 4, top), a.hi / 4)
  }

  /** x when v is one and y when v is zero, by masks alone. */
  function Select64(v: word, x: word, y: word): (r: word)
    requires v <= 1
    ensures r == if v == 1 then x else y
  {
    var m := (v + B64 - 1) % B64;
    AndAll64(x);
    AndAll64(y);
    OrZero(x);
    OrZero(y);
    Or(And(B64 - 1 - m, x), And(m, y))
  }

  function Limbs2(x0: nat, x1: nat): (n: nat) { x0 + x1 * B64 }
  function Limbs3(x0: nat, x1: nat, x2: nat): (n: nat) { x0 + x1 * B64 + x2 * B128 }
  function Limbs4(x0: nat, x1: nat, x2: nat, x3: nat): (n: nat) { x0 + x1 * B64 + x2 * B128 + x3 * (B64 * B128) }

  datatype MacState = MacState(h0: word, h1: word, h2: word, r0: word, r1: word, s0: word, s1: word)
  {
    function H(): (n: nat) { Limbs3(h0, h1, h2) }
    function R(): (n: nat) { Limbs2(r0, r1) }
    function S(): (n: nat) { Limbs2(s0, s1) }
    /** What every operation keeps: r is clamped and the accumulator stays below 6 * 2^128. */
    predicate Valid() { r0 < 0x1000_0000_0000_0000 && r1 < 0x1000_0000_0000_0000 && h2 <= 5 }
  }

  // ---------------------------------------------------------------- key setup

  const R_MASK0: nat := 0x0FFF_FFFC_0FFF_FFFF
  const R_MASK1: nat := 0x0FFF_FFFC_0FFF_FFFC

  function Initialize(key: seq<byte>): (m: MacState)
    requires |key| == 32
    ensures m.Valid() && m.H() == 0
    ensures m.R() == KeyR(key) && m.S() == KeyS(key)
  {
    Word(key, 0); Word(key, 8); Word(key, 16); Word(key, 24);
    AndBound(LE(key[0..8]), R_MASK0);
    AndBound(LE(key[8..16]), R_MASK1);
    ClampedR(key);
    SplitS(key);
    MacState(0, 0, 0, And(LE(key[0..8]), R_MASK0), And(LE(key[8..16]), R_MASK1),
             LE(key[16..24]), LE(key[24..32]))
  }

  lemma {:induction false} Word(key: seq<byte>, i: nat)
    requires i + 8 <= |key|
    ensures LE(key[i..i + 8]) < B64
  {
    LEBound(key[i..i + 8]);
    Pow256Values();
  }

  lemma {:induction false} SplitS(key: seq<byte>)
    requires |key| == 32
    ensures KeyS(key) == LE(key[16..24]) + LE(key[24..32]) * B64
  {
    assert key[16..] == key[16..24] + key[24..32];
    LEConcat(key[16..24], key[24..32]);
    Pow256Values();
  }

  /** Masking a little-endian word is masking its bytes. */
  lemma {:induction false} AndLE(s: seq<byte>, m: seq<byte>, c: seq<byte>)
    requires |s| == |m| == |c|
    requires forall i :: 0 <= i < |s| ==> c[i] == And(s[i], m[i])
    ensures And(LE(s), LE(m)) == LE(c)
  {
    if s != [] {
      AndConcat256(LE(s), LE(m), s[0], m[0], LE(s[1..]), LE(m[1..]));
      AndLE(s[1..], m[1..], c[1..]);
    }
  }

  lemma {:induction false} MaskValues()
    ensures LE([255, 255, 255, 15, 252, 255, 255, 15]) == R_MASK0
    ensures LE([252, 255, 255, 15, 252, 255, 255, 15]) == R_MASK1
  {
    var low: seq<byte> := [255, 255, 255, 15];
    var high: seq<byte> := [252, 255, 255, 15];
    LE4(low);
    LE4(high);
    LEConcat(low, high);
    LEConcat(high, high);
    Pow256Values();
    assert low + high == [255, 255, 255, 15, 252, 255, 255, 15];
    assert high + high == [252, 255, 255, 15, 252, 255, 255, 15];
  }

  lemma {:induction false} LE4(s: seq<byte>)
    requires |s| == 4
    ensures var b: seq<int> := s; LE(s) == b[0] + 256 * b[1] + 0x1_0000 * b[2] + 0x100_0000 * b[3]
  {
    assert s[1..][1..] == s[2..];
    assert s[2..][1..] == s[3..];
    var b: seq<int> := s;
    assert LE(s[3..]) == b[3] by { assert s[3..][1..] == []; }
    assert LE(s[2..]) == b[2] + 256 * b[3];
    assert LE(s[1..]) == b[1] + 256 * b[2] + 0x1_0000 * b[3];
  }

  /** The two 64-bit masks do exactly the byte clamping of the standard. */
  lemma {:induction false} ClampedR(key: seq<byte>)
    requires |key| == 32
    ensures And(LE(key[0..8]), R_MASK0) + And(LE(key[8..16]), R_MASK1) * B64 == KeyR(key)
  {
    var c := Clamp(key[..16]);
    LowMask(key[..16]);
    HighMask(key[..16]);
    assert key[..16][0..8] == key[0..8] && key[..16][8..16] == key[8..16];
    assert c == c[0..8] + c[8..16];
    LEConcat(c[0..8], c[8..16]);
    Pow256Values();
  }

  lemma {:induction false} LowMask(b: seq<byte>)
    requires |b| == 16
    ensures And(LE(b[0..8]), R_MASK0) == LE(Clamp(b)[0..8])
  {
    var m: seq<byte> := [255, 255, 255, 15, 252, 255, 255, 15];
    forall i | 0 <= i < 8
      ensures Clamp(b)[0..8][i] == And(b[0..8][i], m[i])
    {
      AndByteMasks(b[i]);
    }
    AndLE(b[0..8], m, Clamp(b)[0..8]);
    MaskValues();
  }

  lemma {:induction false} HighMask(b: seq<byte>)
    requires |b| == 16
    ensures And(LE(b[8..16]), R_MASK1) == LE(Clamp(b)[8..16])
  {
    var m: seq<byte> := [252, 255, 255, 15, 252, 255, 255, 15];
    forall i | 0 <= i < 8
      ensures Clamp(b)[8..16][i] == And(b[8..16][i], m[i])
    {
      AndByteMasks(b[8 + i]);
    }
    AndLE(b[8..16], m, Clamp(b)[8..16]);
    MaskValues();
  }

  // ---------------------------------------------------------------- absorbing a message

  /** h * r as four limbs: schoolbook columns followed by one carry pass lose nothing. */
  lemma {:induction false} ProductLimbs(h0: word, h1: word, h2: word, r0: word, r1: word)
    ensures Limbs3(h0, h1, h2) * Limbs2(r0, r1)
         == h0 * r0 + (h1 * r0 + h0 * r1) * B64 + (h2 * r0 + h1 * r1) * B128 + h2 * r1 * (B64 * B128)
  {
    var a, b, c := h0, h1 * B64, h2 * B128;
    var d, e := r0, r1 * B64;
    assert (a + b + c) * (d + e) == a * d + a * e + b * d + b * e + c * d + c * e;
    assert a * e == (h0 * r1) * B64;
    assert b * d == (h1 * r0) * B64;
    assert b * e == (h1 * r1) * B128 by {
      assert (h1 * B64) * (r1 * B64) == (h1 * r1) * (B64 * B64);
    }
    assert c * d == (h2 * r0) * B128;
    assert c * e == (h2 * r1) * (B64 * B128);
  }

  /** 2^130 = 5 mod P: folding the bits above 2^130 back in five times keeps the residue. */
  lemma {:induction false} Folding(t: nat, low: nat, c: nat, v: nat)
    requires t == low + c * (P + 5) && v == low + 5 * c
    ensures v % P == t % P
  {
    assert t == (low + 5 * c) + c * P;
    ModMultiple(low + 5 * c, c, P);
  }

  /**
   h + m for one chunk: the two 64-bit reads of the (padded) chunk plus a one above it.
   A full chunk adds the one to the top limb; a short chunk carries it in the copied buffer.
   */
  lemma {:induction false} ChunkLimbs(msg: seq<byte>, buf: seq<byte>)
    requires 0 < |msg| < TAG_SIZE
    requires buf == msg + [1] + seq(15 - |msg|, _ => 0)
    ensures |buf| == 16
    ensures LE(buf[0..8]) < B64 && LE(buf[8..16]) < B64
    ensures LE(buf[0..8]) + LE(buf[8..16]) * B64 == Block(msg)
  {
    var z: seq<byte> := seq(15 - |msg|, _ => 0);
    TwoWords(buf);
    LEConcat(msg, [1] + z);
    assert buf == msg + ([1] + z);
    assert ([1] + z)[1..] == z;
    LEZeros(z);
    assert LE([1] + z) == 1;
    assert Pow256(|msg|) * 1 == Pow256(|msg|);
    assert buf[..16] == buf;
  }

  lemma {:induction false} TwoWords(buf: seq<byte>)
    requires |buf| >= 16
    ensures LE(buf[0..8]) < B64 && LE(buf[8..16]) < B64
    ensures LE(buf[0..8]) + LE(buf[8..16]) * B64 == LE(buf[..16])
  {
    Word(buf, 0);
    Word(buf, 8);
    assert buf[..16] == buf[0..8] + buf[8..16];
    LEConcat(buf[0..8], buf[8..16]);
    Pow256Values();
  }

  lemma {:induction false} MulMonotone(a: nat, b: nat, c: nat)
    requires b <= c
    ensures 0 <= a * b <= a * c
  {
  }

  /** A word times a clamped word, and a small top limb times a clamped word. */
  lemma {:induction false} ClampedProducts(a: word, small: nat, r: nat)
    requires small <= 7 && r < 0x1000_0000_0000_0000
    ensures 0 <= a * r < 0x1000_0000_0000_0000_0000_0000_0000_0000
    ensures 0 <= small * r < 0x8000_0000_0000_0000
  {
    MulMonotone(a, r, 0xFFF_FFFF_FFFF_FFFF);
    MulMonotone(r, small, 7);
  }

  /** The six products summed by columns and carried once: four limbs holding h * r exactly. */
  method Multiply(h0: word, h1: word, h2: word, r0: word, r1: word)
    returns (t0: word, t1: word, t2: word, t3: word)
    requires h2 <= 7
    requires r0 < 0x1000_0000_0000_0000 && r1 < 0x1000_0000_0000_0000
    ensures Limbs4(t0, t1, t2, t3) == Limbs3(h0, h1, h2) * Limbs2(r0, r1)
  {
    var h0r0, h1r0, h2r0 := Mul64(h0, r0), Mul64(h1, r0), Mul64(h2, r0);
    var h0r1, h1r1, h2r1 := Mul64(h0, r1), Mul64(h1, r1), Mul64(h2, r1);
    ClampedProducts(h0, h2, r1);
    ClampedProducts(h1, h2, r0);
    ClampedProducts(h1, h2, r1);
    if h2r0.hi != 0 { assert false; }
    if h2r1.hi != 0 { assert false; }

    var m0 := h0r0;
    var m1 := Add128(h1r0, h0r1);
    if m1.1 != 0 { assert false; }
    var m2 := Add128(h2r0, h1r1);
    if m2.1 != 0 { assert false; }
    var m3 := h2r1;

    t0 := m0.lo;
    var c1 := Add64(m1.0.lo, m0.hi, 0);
    var c2 := Add64(m2.0.lo, m1.0.hi, c1.1);
    var c3 := Add64(m3.lo, m2.0.hi, c2.1);
    t1, t2, t3 := c1.0, c2.0, c3.0;
    ProductLimbs(h0, h1, h2, r0, r1);
    CarryPass(m0, m1.0, m2.0, m3, c1, c2, c3);
  }

  lemma {:induction false} CarryPass(m0: Uint128, m1: Uint128, m2: Uint128, m3: Uint128,
                  c1: (word, nat), c2: (word, nat), c3: (word, nat))
    requires c1.0 + c1.1 * B64 == m1.lo + m0.hi
    requires c2.0 + c2.1 * B64 == m2.lo + m1.hi + c1.1
    requires c3.0 + c3.1 * B64 == m3.lo + m2.hi + c2.1
    requires m3.hi == 0 && m3.lo < 0x8000_0000_0000_0000 && m2.hi < 0x2000_0000_0000_0000 && c2.1 <= 1
    ensures Limbs4(m0.lo, c1.0, c2.0, c3.0)
         == m0.lo + m0.hi * B64 + (m1.lo + m1.hi * B64) * B64 + (m2.lo + m2.hi * B64) * B128
            + (m3.lo + m3.hi * B64) * (B64 * B128)
  {
  }

  /** Add a two-limb number (and k above it) into the three-limb accumulator by a chain of bits.Add64. */
  function AddInto(g: (word, word, word), lo: word, hi: word, k: nat): (r: (word, word, word))
    requires g.2 <= 8 && k <= 1
    ensures Limbs3(r.0, r.1, r.2) == Limbs3(g.0, g.1, g.2) + Limbs2(lo, hi) + k * B128
    ensures r.2 <= g.2 + k + 1
  {
    var a := Add64(g.0, lo, 0);
    var b := Add64(g.1, hi, a.1);
    assert (g.2 + b.1 + k) % B64 == g.2 + b.1 + k;
    (a.0, b.0, (g.2 + b.1 + k) % B64)
  }

  /** Splitting at the 2^130 mark: the carry word holds four times the part above it. */
  lemma {:induction false} SplitAt130(t0: word, t1: word, t2: word, t3: word, low: nat, c: nat)
    requires low == Limbs3(t0, t1, t2 % 4)
    requires c == t2 / 4 + t3 * 0x4000_0000_0000_0000
    ensures Limbs4(t0, t1, t2, t3) == low + c * (P + 5)
    ensures Limbs2(t2 - t2 % 4, t3) == 4 * c
  {
  }

  /** The partial reduction: bits at and above 2^130 are folded back in as cc and cc >> 2. */
  method Reduce(t0: word, t1: word, t2: word, t3: word) returns (g: (word, word, word))
    ensures g.2 <= 5
    ensures Limbs3(g.0, g.1, g.2) % P == Limbs4(t0, t1, t2, t3) % P
  {
    AndLow2(t2);
    AndNotLow2(t2);
    ghost var low := Limbs3(t0, t1, t2 % 4);
    ghost var c := t2 / 4 + t3 * 0x4000_0000_0000_0000;
    SplitAt130(t0, t1, t2, t3, low, c);

    g := (t0, t1, And(t2, 3));
    var cc := Uint128(And(t2, B64 - 4), t3);
    g := AddInto(g, cc.lo, cc.hi, 0);
    assert Limbs3(g.0, g.1, g.2) == low + 4 * c;
    cc := ShiftRightBy2(cc);
    assert Limbs2(cc.lo, cc.hi) == c;
    g := AddInto(g, cc.lo, cc.hi, 0);
    Folding(Limbs4(t0, t1, t2, t3), low, c, Limbs3(g.0, g.1, g.2));
  }

  /** Absorb msg: the accumulator becomes Horner's value of the whole message, up to a multiple of P. */
  method UpdateGeneric(state: MacState, msg: seq<byte>) returns (state': MacState)
    requires state.Valid()
    ensures state'.Valid()
    ensures state'.R() == state.R() && state'.S() == state.S()
    ensures state'.H() % P == Accumulate(state.H(), state.R(), msg)
  {
    var h := (state.h0, state.h1, state.h2);
    var rest := msg;
    while |rest| > 0
      invariant h.2 <= 5
      invariant Accumulate(Limbs3(h.0, h.1, h.2), state.R(), rest) == Accumulate(state.H(), state.R(), msg)
      decreases |rest|
    {
      ghost var before, was := Limbs3(h.0, h.1, h.2), rest;
      if |rest| >= TAG_SIZE {
        TwoWords(rest);
        Pow256Values();
        h := AddInto(h, LE(rest[0..8]), LE(rest[8..16]), 1);
        rest := rest[TAG_SIZE..];
      } else {
        var buf := rest + [1] + seq(15 - |rest|, _ => 0);
        ChunkLimbs(rest, buf);
        assert rest[..|rest|] == rest;
        h := AddInto(h, LE(buf[0..8]), LE(buf[8..16]), 0);
        rest := [];
      }
      ghost var sum := Limbs3(h.0, h.1, h.2);
      assert sum == before + Block(was[..ChunkLength(was)]) && rest == was[ChunkLength(was)..];
      var t0, t1, t2, t3 := Multiply(h.0, h.1, h.2, state.r0, state.r1);
      h := Reduce(t0, t1, t2, t3);
      AccumulateMod(sum * state.R(), Limbs3(h.0, h.1, h.2), state.R(), rest);
    }
    state' := state.(h0 := h.0, h1 := h.1, h2 := h.2);
  }

  /** h if h < P and h - P otherwise, as two limbs: one conditional subtraction completes the reduction. */
  method SubtractP(state: MacState) returns (h0: word, h1: word)
    requires state.Valid()
    ensures Limbs2(h0, h1) % B128 == (state.H() % P) % B128
  {
    var d0 := Sub64(state.h0, 0xFFFF_FFFF_FFFF_FFFB, 0);
    var d1 := Sub64(state.h1, 0xFFFF_FFFF_FFFF_FFFF, d0.1);
    var d2 := Sub64(state.h2, 0x0000_0000_0000_0003, d1.1);
    h0 := Select64(d2.1, state.h0, d0.0);
    h1 := Select64(d2.1, state.h1, d1.0);
    Borrow(state.h0, state.h1, state.h2, d0, d1, d2);
  }

  /** The tag: the reduced accumulator plus s, modulo 2^128, in little-endian bytes. */
  method Finalize(state: MacState, ghost v: nat) returns (out: seq<byte>)
    requires state.Valid()
    requires v == state.H() % P + state.S()
    ensures out == ToLE(v, TAG_SIZE)
  {
    var h0, h1 := SubtractP(state);
    var a := Add64(h0, state.s0, 0);
    var b := Add64(h1, state.s1, a.1);
    out := ToLE(a.0, WORD_SIZE) + ToLE(b.0, WORD_SIZE);
    TagOfLimbs(h0, h1, state.s0, state.s1, a, b, state.H() % P, v);
  }

  lemma {:induction false} TagOfLimbs(h0: word, h1: word, s0: word, s1: word, a: (word, nat), b: (word, nat), u: nat, v: nat)
    requires a.0 + a.1 * B64 == h0 + s0 && b.0 + b.1 * B64 == h1 + s1 + a.1 && b.1 <= 1
    requires Limbs2(h0, h1) % B128 == u % B128
    requires v == u + Limbs2(s0, s1)
    ensures ToLE(a.0, WORD_SIZE) + ToLE(b.0, WORD_SIZE) == ToLE(v, TAG_SIZE)
  {
    var out := ToLE(a.0, WORD_SIZE) + ToLE(b.0, WORD_SIZE);
    assert LE(out) == v % B128 by {
      TagBytes(a.0, b.0);
      WideAdd(h0, h1, s0, s1, a, b, u, v);
    }
    SixteenBytes(out, v);
  }

  lemma {:induction false} SixteenBytes(out: seq<byte>, v: nat)
    requires |out| == TAG_SIZE && LE(out) == v % B128
    ensures out == ToLE(v, TAG_SIZE)
  {
    Pow256Values();
    LEInjective(out, ToLE(v, TAG_SIZE));
  }

  /** The borrow of h - P says whether h < P, and either way the chosen limbs are h mod P below 2^128. */
  lemma {:induction false} Borrow(h0: word, h1: word, h2: word, d0: (word, nat), d1: (word, nat), d2: (word, nat))
    requires h2 <= 5
    requires d0.0 == h0 - 0xFFFF_FFFF_FFFF_FFFB + d0.1 * B64 && d0.1 <= 1
    requires d1.0 == h1 - 0xFFFF_FFFF_FFFF_FFFF - d0.1 + d1.1 * B64 && d1.1 <= 1
    requires d2.0 == h2 - 3 - d1.1 + d2.1 * B64 && d2.1 <= 1
    ensures var low := if d2.1 == 1 then Limbs2(h0, h1) else Limbs2(d0.0, d1.0);
            low % B128 == (Limbs3(h0, h1, h2) % P) % B128
  {
    var h := Limbs3(h0, h1, h2);
    OneSubtraction(h);
    if d2.1 == 1 {
      assert h < P;
      ModMultiple(Limbs2(h0, h1), h2, B128);
    } else {
      assert h - P == Limbs2(d0.0, d1.0) + d2.0 * B128;
      ModMultiple(Limbs2(d0.0, d1.0), d2.0, B128);
    }
  }

  lemma {:induction false} TwoNumbers(s: seq<byte>, t: seq<byte>, p: nat)
    requires p == Pow256(|s|)
    ensures LE(s + t) == LE(s) + LE(t) * p
  {
    LEConcat(s, t);
    var v := LE(t);
    assert Pow256(|s|) * v == v * p;
  }

  lemma {:induction false} WordBytes(x: word)
    ensures LE(ToLE(x, WORD_SIZE)) == x
  {
    Pow256Values();
    assert Pow256(WORD_SIZE) == B64;
  }

  lemma {:induction false} TagBytes(x: word, y: word)
    ensures LE(ToLE(x, WORD_SIZE) + ToLE(y, WORD_SIZE)) == Limbs2(x, y)
  {
    Pow256Values();
    WordBytes(x);
    WordBytes(y);
    TwoNumbers(ToLE(x, WORD_SIZE), ToLE(y, WORD_SIZE), B64);
  }

  lemma {:induction false} WideAdd(h0: word, h1: word, s0: word, s1: word, a: (word, nat), b: (word, nat), u: nat, v: nat)
    requires a.0 + a.1 * B64 == h0 + s0 && b.0 + b.1 * B64 == h1 + s1 + a.1 && b.1 <= 1
    requires Limbs2(h0, h1) % B128 == u % B128
    requires v == u + Limbs2(s0, s1)
    ensures Limbs2(a.0, b.0) == v % B128
  {
    var x := Limbs2(a.0, b.0);
    assert x + b.1 * B128 == Limbs2(h0, h1) + Limbs2(s0, s1);
    var q := u / B128;
    assert Limbs2(h0, h1) == u - q * B128;
    DivModUnique(v, B128, q + b.1, x);
  }

  lemma {:induction false} OneSubtraction(h: nat)
    requires h < 6 * B128
    ensures h % P == if h < P then h else h - P
  {
    if h < P {
      DivModUnique(h, P, 0, h);
    } else {
      DivModUnique(h, P, 1, h - P);
    }
  }

  lemma {:induction false} LEInjective(s: seq<byte>, t: seq<byte>)
    requires |s| == |t| && LE(s) == LE(t)
    ensures s == t
  {
    if s != [] {
      assert s[0] == t[0] && LE(s[1..]) == LE(t[1..]);
      LEInjective(s[1..], t[1..]);
      assert s == [s[0]] + s[1..] && t == [t[0]] + t[1..];
    }
  }

  // ---------------------------------------------------------------- the streaming object

  /** h has absorbed all of written but the last |tail| bytes, which are waiting in the buffer. */
  ghost predicate Represents(r: nat, h: nat, tail: seq<byte>, written: seq<byte>)
  {
    && |tail| < TAG_SIZE
    && |tail| <= |written|
    && (|written| - |tail|) % 16 == 0
    && written[|written| - |tail|..] == tail
    && Accumulate(0, r, written[..|written| - |tail|]) == h % P
  }

  class MacGeneric {
    var state: MacState
    const buffer: array<byte>
    var offset: nat
    ghost const key: seq<byte>
    /** Everything written so far. */
    ghost var written: seq<byte>

    ghost predicate Valid()
      reads this, buffer
    {
      && buffer.Length == TAG_SIZE
      && offset < TAG_SIZE
      && |key| == 32
      && state.Valid() && state.R() == KeyR(key) && state.S() == KeyS(key)
      && Represents(KeyR(key), state.H(), buffer[..offset], written)
    }

    constructor (key: seq<byte>)
      requires |key| == 32
      ensures Valid() && fresh(buffer) && this.key == key && written == []
    {
      state := Initialize(key);
      buffer := new byte[TAG_SIZE](_ => 0);
      offset := 0;
      this.key := key;
      written := [];
      new;
      assert written[..0] == [] && buffer[..offset] == [];
    }

    /** Write never fails, keeps Valid and appends p to what the object has absorbed. */
    method Write(p: seq<byte>) returns (nn: nat)
      requires Valid()
      modifies this, buffer
      ensures Valid() && nn == |p|
      ensures written == old(written) + p
    {
      nn := |p|;
      var rest := p;
      if offset > 0 {
        rest := TopUp(p);
        if offset > 0 {
          return;
        }
      }
      WriteAligned(rest);
    }

    /** The part of Write that fills a partly used buffer and absorbs it once full. */
    method TopUp(p: seq<byte>) returns (rest: seq<byte>)
      requires Valid() && offset > 0
      modifies this, buffer
      ensures Valid() && (offset > 0 ==> rest == [])
      ensures written + rest == old(written) + p
    {
      var n := if |p| < TAG_SIZE - offset then |p| else TAG_SIZE - offset;
      rest := p[n..];
      Cut(written, p, n);
      if offset + n < TAG_SIZE {
        BufferRest(p[..n]);
      } else {
        FillBuffer(p[..n]);
      }
    }

    /** The last bytes of a chunk arrive: the buffer is absorbed. */
    method FillBuffer(p: seq<byte>)
      requires Valid() && offset + |p| == TAG_SIZE
      modifies this, buffer
      ensures Valid() && offset == 0
      ensures written == old(written) + p
    {
      ghost var tail := buffer[..offset];
      CopyInto(p);
      assert buffer[..] == buffer[..offset + |p|] == tail + p;
      var st := UpdateGeneric(state, buffer[..]);
      Absorbed(KeyR(key), state.H(), st.H(), tail, p, written);
      state, offset, written := st, 0, written + p;
      assert buffer[..0] == [];
    }

    /** The part of Write that runs with an empty buffer: whole chunks, then the remainder is buffered. */
    method WriteAligned(p: seq<byte>)
      requires Valid() && offset == 0
      modifies this, buffer
      ensures Valid()
      ensures written == old(written) + p
    {
      var n := |p| - |p| % 16;
      Whole16(|p|);
      if n > 0 {
        AbsorbWhole(p[..n]);
      }
      assert p[..n] + p[n..] == p;
      if |p[n..]| > 0 {
        BufferRest(p[n..]);
      }
    }

    method AbsorbWhole(p: seq<byte>)
      requires Valid() && offset == 0 && |p| % 16 == 0
      modifies this
      ensures Valid() && offset == 0
      ensures written == old(written) + p
    {
      assert buffer[..0] == [] && [] + p == p;
      var st := UpdateGeneric(state, p);
      Absorbed(KeyR(key), state.H(), st.H(), [], p, written);
      state := st;
      written := written + p;
    }

    /** Bytes that do not complete a chunk wait in the buffer. */
    method BufferRest(p: seq<byte>)
      requires Valid() && offset + |p| < TAG_SIZE
      modifies this, buffer
      ensures Valid() && offset == old(offset) + |p|
      ensures written == old(written) + p
    {
      Buffered(KeyR(key), state.H(), buffer[..offset], written, p);
      CopyInto(p);
      offset, written := offset + |p|, written + p;
    }

    /** copy(buffer[offset:], p), for p that fits. */
    method CopyInto(p: seq<byte>)
      requires buffer.Length == TAG_SIZE && offset + |p| <= TAG_SIZE
      modifies buffer
      ensures buffer[..offset + |p|] == old(buffer[..offset]) + p
    {
      forall i | 0 <= i < |p| {
        buffer[offset + i] := p[i];
      }
      assert buffer[..offset + |p|] == buffer[..offset] + buffer[offset..offset + |p|];
    }

    /** Sum is the standard's tag of everything written, and leaves the object as it was. */
    method Sum() returns (tag: seq<byte>)
      requires Valid()
      ensures tag == Tag(key, written)
    {
      var st := state;
      if offset > 0 {
        st := UpdateGeneric(st, buffer[..offset]);
      }
      Flushed(KeyR(key), state.H(), st.H(), buffer[..offset], written);
      tag := Finalize(st, TagValue(key, written));
    }
  }

  lemma {:induction false} Cut(a: seq<byte>, b: seq<byte>, n: nat)
    requires n <= |b|
    ensures a + b[..n] + b[n..] == a + b
  {
  }

  lemma {:induction false} Regroup(written: seq<byte>, tail: seq<byte>, more: seq<byte>, k: nat)
    requires k <= |written| && written[k..] == tail
    ensures written + more == written[..k] + (tail + more)
  {
  }

  lemma {:induction false} Mod16Sum(a: nat, b: nat)
    requires a % 16 == 0 && b % 16 == 0
    ensures (a + b) % 16 == 0
  {
  }

  lemma {:induction false} Whole16(n: nat)
    ensures (n - n % 16) % 16 == 0 && 0 <= n - n % 16 <= n && n % 16 < 16
  {
  }

  lemma {:induction false} Buffered(r: nat, h: nat, tail: seq<byte>, written: seq<byte>, more: seq<byte>)
    requires Represents(r, h, tail, written) && |tail| + |more| < TAG_SIZE
    ensures Represents(r, h, tail + more, written + more)
  {
    var k := |written| - |tail|;
    assert (written + more)[..k] == written[..k];
    assert (written + more)[k..] == tail + more;
  }

  lemma {:induction false} Absorbed(r: nat, h: nat, h': nat, tail: seq<byte>, more: seq<byte>, written: seq<byte>)
    requires Represents(r, h, tail, written) && |tail + more| % 16 == 0
    requires h' % P == Accumulate(h, r, tail + more)
    ensures Represents(r, h', [], written + more)
  {
    var k := |written| - |tail|;
    var all := written + more;
    Regroup(written, tail, more, k);
    Continue(r, written[..k], tail + more, all, h);
    assert |all| == k + |tail + more|;
    Mod16Sum(k, |tail + more|);
    assert all[..|all|] == all && all[|all|..] == [];
  }

  lemma {:induction false} Flushed(r: nat, h: nat, h': nat, tail: seq<byte>, written: seq<byte>)
    requires Represents(r, h, tail, written)
    requires tail == [] ==> h' == h
    requires tail != [] ==> h' % P == Accumulate(h, r, tail)
    ensures h' % P == Polynomial(r, written) % P
  {
    var k := |written| - |tail|;
    assert written == written[..k] + tail;
    Continue(r, written[..k], tail, written, h);
    HornerIsPolynomial(0, r, written);
  }

  lemma {:induction false} AccumulateReduced(a: nat, r: nat, msg: seq<byte>)
    ensures Accumulate(a, r, msg) % P == Accumulate(a, r, msg)
    decreases |msg|
  {
    if msg == [] {
      ModMod(a);
    } else {
      var n := ChunkLength(msg);
      AccumulateReduced((a + Block(msg[..n])) * r, r, msg[n..]);
    }
  }

  lemma {:induction false} Continue(r: nat, whole: seq<byte>, more: seq<byte>, all: seq<byte>, h: nat)
    requires |whole| % 16 == 0 && all == whole + more
    requires h % P == Accumulate(0, r, whole)
    ensures Accumulate(h, r, more) == Accumulate(0, r, all)
  {
    AccumulateSplit(0, r, whole, more);
    AccumulateReduced(0, r, whole);
    AccumulateMod(h, Accumulate(0, r, whole), r, more);
  }

  /** However a message is cut into writes, the tag is the tag of the whole. */
  method SumOfPieces(key: seq<byte>, pieces: seq<seq<byte>>) returns (tag: seq<byte>)
    requires |key| == 32
    ensures tag == Tag(key, Flatten(pieces))
  {
    var mac := new MacGeneric(key);
    for i := 0 to |pieces|
      invariant mac.Valid() && mac.key == key && mac.written == Flatten(pieces[..i])
      invariant fresh(mac) && fresh(mac.buffer)
    {
      var _ := mac.Write(pieces[i]);
      assert pieces[..i + 1][..i] == pieces[..i];
    }
    assert pieces[..|pieces|] == pieces;
    tag := mac.Sum();
  }
}
