/** Bytes, bitwise operators on naturals, and the little- and big-endian readings of byte strings. */
module Bytes {

  type byte = x: int | 0 <= x < 256

  const B32: nat := 0x1_0000_0000
  const B64: nat := 0x1_0000_0000_0000_0000

  // ---------------------------------------------------------------- bitwise operators

  /** x & y, bit by bit. */
  function And(x: nat, y: nat): (r: nat)
    decreases x
  {
    if x == 0 then 0 else (if x % 2 == 1 && y % 2 == 1 then 1 else 0) + 2 * And(x / 2, y / 2)
  }

  /** x | y, bit by bit. */
  function Or(x: nat, y: nat): (r: nat)
    decreases x + y
  {
    if x == 0 && y == 0 then 0
    else (if x % 2 == 1 || y % 2 == 1 then 1 else 0) + 2 * Or(x / 2, y / 2)
  }

  /** x ^ y, bit by bit. */
  function Xor(x: nat, y: nat): (r: nat)
    decreases x + y
  {
    if x == 0 && y == 0 then 0 else (if x % 2 != y % 2 then 1 else 0) + 2 * Xor(x / 2, y / 2)
  }

  function Pow2(k: nat): (p: nat)
    ensures p > 0
  {
    if k == 0 then 1 else 2 * Pow2(k - 1)
  }

  lemma {:induction false} AndBound(x: nat, y: nat)
    ensures And(x, y) <= y && And(x, y) <= x
    decreases x
  {
    if x != 0 {
      AndBound(x / 2, y / 2);
    }
  }

  /** Masking a k-bit number with k one-bits keeps it. */
  lemma {:induction false} AndOnes(x: nat, k: nat)
    requires x < Pow2(k)
    ensures And(x, Pow2(k) - 1) == x
    decreases k
  {
    if k > 0 {
      var p := Pow2(k - 1);
      AndOnes(x / 2, k - 1);
      AndStep(x, Pow2(k) - 1);
      assert Pow2(k) == 2 * p;
      assert (2 * p - 1) / 2 == p - 1 && (2 * p - 1) % 2 == 1;
      assert x == 2 * (x / 2) + x % 2;
    }
  }

  lemma {:induction false} AndStep(x: nat, y: nat)
    ensures And(x, y) == (if x % 2 == 1 && y % 2 == 1 then 1 else 0) + 2 * And(x / 2, y / 2)
  {
  }

  lemma {:induction false} HalfMod(x: nat, p: nat)
    requires p > 0
    ensures x % (2 * p) == x % 2 + 2 * ((x / 2) % p)
  {
    var q := (x / 2) / p;
    var r := (x / 2) % p;
    assert x / 2 == q * p + r;
    assert x == q * (2 * p) + (2 * r + x % 2) by {
      assert 2 * (q * p) == q * (2 * p);
    }
    DivModUnique(x, 2 * p, q, 2 * r + x % 2);
  }

  lemma {:induction false} DivModUnique(x: int, d: int, q: int, r: int)
    requires d > 0 && 0 <= r < d && x == q * d + r
    ensures x / d == q && x % d == r
  {
    var k := x / d - q;
    assert k * d == r - x % d;
    assert k < 1 by {
      if k >= 1 { MulGe(k, d); assert false; }
    }
    assert (-k) * d == -(k * d);
    assert k > -1 by {
      if k <= -1 { MulGe(-k, d); assert false; }
    }
  }

  lemma {:induction false} MulGe(a: int, d: int)
    requires a >= 1 && d >= 0
    ensures a * d >= d
  {
    assert a * d == (a - 1) * d + d;
  }

  /** Conjunctions act on the low bits and on the rest separately. */
  lemma {:induction false} AndConcat2(x: nat, y: nat, a: nat, m: nat, b: nat, n: nat)
    requires a < 2 && m < 2 && x == a + 2 * b && y == m + 2 * n
    ensures And(x, y) == And(a, m) + 2 * And(b, n)
  {
    assert x / 2 == b && y / 2 == n;
  }

  lemma {:induction false} AndConcat4(x: nat, y: nat, a: nat, m: nat, b: nat, n: nat)
    requires a < 4 && m < 4 && x == a + 4 * b && y == m + 4 * n
    ensures And(x, y) == And(a, m) + 4 * And(b, n)
  {
    var u, v := a / 2 + 2 * b, m / 2 + 2 * n;
    AndConcat2(x, y, a % 2, m % 2, u, v);
    AndConcat2(u, v, a / 2, m / 2, b, n);
    AndConcat2(a, m, a % 2, m % 2, a / 2, m / 2);
  }

  lemma {:induction false} AndConcat16(x: nat, y: nat, a: nat, m: nat, b: nat, n: nat)
    requires a < 16 && m < 16 && x == a + 16 * b && y == m + 16 * n
    ensures And(x, y) == And(a, m) + 16 * And(b, n)
  {
    var u, v := a / 4 + 4 * b, m / 4 + 4 * n;
    AndConcat4(x, y, a % 4, m % 4, u, v);
    AndConcat4(u, v, a / 4, m / 4, b, n);
    AndConcat4(a, m, a % 4, m % 4, a / 4, m / 4);
  }

  lemma {:induction false} AndConcat256(x: nat, y: nat, a: nat, m: nat, b: nat, n: nat)
    requires a < 256 && m < 256 && x == a + 256 * b && y == m + 256 * n
    ensures And(x, y) == And(a, m) + 256 * And(b, n)
  {
    var u, v := a / 16 + 16 * b, m / 16 + 16 * n;
    AndConcat16(x, y, a % 16, m % 16, u, v);
    AndConcat16(u, v, a / 16, m / 16, b, n);
    AndConcat16(a, m, a % 16, m % 16, a / 16, m / 16);
  }

  lemma {:induction false} AndZero(x: nat)
    ensures And(x, 0) == 0
  {
    AndBound(x, 0);
  }

  lemma {:induction false} AndLow2(x: nat)
    ensures And(x, 3) == x % 4
  {
    AndConcat4(x, 3, x % 4, 3, x / 4, 0);
    AndZero(x / 4);
    assert Pow2(2) == 4 by { assert Pow2(1) == 2; }
    AndOnes(x % 4, 2);
  }

  /** Clearing the low two bits of a 64-bit word. */
  lemma {:induction false} AndNotLow2(x: nat)
    requires x < B64
    ensures And(x, B64 - 4) == x - x % 4
  {
    var m := 0x3FFF_FFFF_FFFF_FFFF;
    AndConcat4(x, B64 - 4, x % 4, 0, x / 4, m);
    AndZero(x % 4);
    Pow2Of62();
    AndOnes(x / 4, 62);
  }

  lemma {:induction false} AndAll64(x: nat)
    requires x < B64
    ensures And(B64 - 1, x) == x && And(x, B64 - 1) == x && And(0, x) == 0
  {
    Pow2Of62();
    assert Pow2(64) == B64 by { assert Pow2(64) == 2 * Pow2(63) && Pow2(63) == 2 * Pow2(62); }
    AndOnes(x, 64);
    AndCommutes(x, B64 - 1);
  }

  lemma {:induction false} AndByteMasks(b: byte)
    ensures And(b, 255) == b && And(b, 15) == b % 16 && And(b, 252) == b - b % 4
  {
    Pow2Of8();
    AndOnes(b, 8);
    AndLow4(b);
    AndTop6(b);
  }

  lemma {:induction false} AndLow4(b: nat)
    ensures And(b, 15) == b % 16
  {
    AndConcat16(b, 15, b % 16, 15, b / 16, 0);
    AndZero(b / 16);
    assert Pow2(4) == 16 by { assert Pow2(2) == 4 by { assert Pow2(1) == 2; } }
    AndOnes(b % 16, 4);
  }

  lemma {:induction false} AndTop6(b: nat)
    requires b < 256
    ensures And(b, 252) == b - b % 4
  {
    AndConcat4(b, 252, b % 4, 0, b / 4, 63);
    AndZero(b % 4);
    assert Pow2(6) == 64 by { assert Pow2(3) == 8 by { assert Pow2(1) == 2; } Pow2Sum(3, 3); }
    AndOnes(b / 4, 6);
  }

  lemma {:induction false} AndCommutes(x: nat, y: nat)
    ensures And(x, y) == And(y, x)
    decreases x + y
  {
    if x == 0 {
      AndBound(y, 0);
    } else if y == 0 {
      AndBound(x, 0);
    } else {
      AndCommutes(x / 2, y / 2);
    }
  }

  lemma {:induction false} Pow2Of31()
    ensures Pow2(31) == 0x8000_0000
  {
    Pow2Of8();
    Pow2Sum(8, 8);
    Pow2Sum(8, 7);
    Pow2Sum(16, 15);
  }

  lemma {:induction false} Pow2Of62()
    ensures Pow2(62) == 0x4000_0000_0000_0000
  {
    Pow2Of31();
    Pow2Sum(31, 31);
  }

  lemma {:induction false} Pow2Sum(a: nat, b: nat)
    ensures Pow2(a + b) == Pow2(a) * Pow2(b)
    decreases a
  {
    if a > 0 {
      Pow2Sum(a - 1, b);
      assert 2 * (Pow2(a - 1) * Pow2(b)) == (2 * Pow2(a - 1)) * Pow2(b);
    } else {
      assert Pow2(0) == 1;
    }
  }

  /** Or of words whose set bits do not meet is their sum. */
  lemma {:induction false} OrDisjoint(x: nat, y: nat, k: nat)
    requires x < Pow2(k) && y % Pow2(k) == 0
    ensures Or(x, y) == x + y
    decreases k, x + y
  {
    if k == 0 {
      OrZero(y);
    } else if x != 0 || y != 0 {
      var p := Pow2(k - 1);
      HalfMod(y, p);
      OrDisjoint(x / 2, y / 2, k - 1);
    }
  }

  lemma {:induction false} OrZero(y: nat)
    ensures Or(0, y) == y && Or(y, 0) == y
    decreases y
  {
    if y != 0 {
      OrZero(y / 2);
    }
  }

  lemma {:induction false} XorBound(x: nat, y: nat, k: nat)
    requires x < Pow2(k) && y < Pow2(k)
    ensures Xor(x, y) < Pow2(k)
    decreases k
  {
    if k > 0 && !(x == 0 && y == 0) {
      XorBound(x / 2, y / 2, k - 1);
    }
  }

  lemma {:induction false} XorCancels(x: nat, y: nat)
    ensures Xor(Xor(x, y), y) == x
    decreases x + y
  {
    if !(x == 0 && y == 0) {
      XorCancels(x / 2, y / 2);
      var z := Xor(x, y);
      assert z / 2 == Xor(x / 2, y / 2);
    }
  }

  /** Byte-wise exclusive or, as a stream cipher applies it. */
  function XorByte(a: byte, b: byte): (r: byte)
  {
    Pow2Of8();
    XorBound(a, b, 8);
    Xor(a, b)
  }

  lemma {:induction false} XorByteCancels(a: byte, b: byte)
    ensures XorByte(XorByte(a, b), b) == a
  {
    XorCancels(a, b);
  }

  lemma {:induction false} Pow2Of8()
    ensures Pow2(7) == 128 && Pow2(8) == 256
  {
    assert Pow2(2) == 4;
    assert Pow2(4) == 16;
    assert Pow2(6) == 64;
  }

  // ---------------------------------------------------------------- little endian

  function Pow256(k: nat): (p: nat)
    ensures p > 0
  {
    if k == 0 then 1 else 256 * Pow256(k - 1)
  }

  /** The natural whose little-endian bytes are s. */
  function LE(s: seq<byte>): (n: nat)
  {
    if s == [] then 0 else s[0] + 256 * LE(s[1..])
  }

  lemma {:induction false} LEBound(s: seq<byte>)
    ensures LE(s) < Pow256(|s|)
  {
    if s != [] {
      LEBound(s[1..]);
    }
  }

  lemma {:induction false} LEConcat(s: seq<byte>, t: seq<byte>)
    ensures LE(s + t) == LE(s) + Pow256(|s|) * LE(t)
  {
    if s == [] {
      assert s + t == t;
      assert Pow256(0) * LE(t) == LE(t);
    } else {
      LEConcat(s[1..], t);
      assert (s + t)[1..] == s[1..] + t;
      var p := Pow256(|s| - 1);
      assert 256 * (p * LE(t)) == (256 * p) * LE(t);
    }
  }

  lemma {:induction false} LEZeros(s: seq<byte>)
    requires forall i :: 0 <= i < |s| ==> s[i] == 0
    ensures LE(s) == 0
  {
    if s != [] {
      LEZeros(s[1..]);
    }
  }

  function ToLE(n: nat, k: nat): (s: seq<byte>)
    ensures |s| == k
    ensures LE(s) == n % Pow256(k)
  {
    if k == 0 then []
    else
      var t := ToLE(n / 256, k - 1);
      assert LE([n % 256] + t) == n % Pow256(k) by {
        assert ([n % 256] + t)[1..] == t;
        Mod256(n, Pow256(k - 1));
      }
      [n % 256] + t
  }

  lemma {:induction false} Mod256(n: nat, p: nat)
    requires p > 0
    ensures n % (256 * p) == n % 256 + 256 * ((n / 256) % p)
  {
    var q := (n / 256) / p;
    var r := (n / 256) % p;
    assert n / 256 == q * p + r;
    assert n == q * (256 * p) + (256 * r + n % 256) by {
      assert 256 * (q * p) == q * (256 * p);
    }
    DivModUnique(n, 256 * p, q, 256 * r + n % 256);
  }

  lemma {:induction false} Pow256Values()
    ensures Pow256(4) == B32 && Pow256(8) == B64 && Pow256(16) == B64 * B64
    ensures Pow256(1) == 256 && Pow256(2) == 0x1_0000
  {
    assert Pow256(1) == 256;
    assert Pow256(2) == 0x1_0000;
    assert Pow256(3) == 0x100_0000;
    assert Pow256(4) == B32;
    Pow256Sum(4, 4);
    Pow256Sum(8, 8);
  }

  lemma {:induction false} Pow256Sum(a: nat, b: nat)
    ensures Pow256(a + b) == Pow256(a) * Pow256(b)
    decreases a
  {
    if a > 0 {
      Pow256Sum(a - 1, b);
      assert 256 * (Pow256(a - 1) * Pow256(b)) == (256 * Pow256(a - 1)) * Pow256(b);
    } else {
      assert Pow256(0) == 1;
    }
  }

  // ---------------------------------------------------------------- big endian

  /** The natural whose big-endian bytes are s. */
  function BE(s: seq<byte>): (n: nat)
  {
    if s == [] then 0 else 256 * BE(s[..|s| - 1]) + s[|s| - 1]
  }

  lemma {:induction false} BEBound(s: seq<byte>)
    ensures BE(s) < Pow256(|s|)
  {
    if s != [] {
      BEBound(s[..|s| - 1]);
    }
  }

  lemma {:induction false} BEConcat(s: seq<byte>, t: seq<byte>)
    ensures BE(s + t) == BE(s) * Pow256(|t|) + BE(t)
    decreases |t|
  {
    if t == [] {
      assert s + t == s;
      assert Pow256(0) == 1;
    } else {
      var t' := t[..|t| - 1];
      BEConcat(s, t');
      assert (s + t)[..|s + t| - 1] == s + t';
      var p := Pow256(|t| - 1);
      assert 256 * (BE(s) * p) == BE(s) * (256 * p);
    }
  }

  function ToBE(n: nat, k: nat): (s: seq<byte>)
    ensures |s| == k
    ensures BE(s) == n % Pow256(k)
  {
    if k == 0 then []
    else
      var t := ToBE(n / 256, k - 1);
      assert BE(t + [n % 256]) == n % Pow256(k) by {
        assert (t + [n % 256])[..k - 1] == t;
        Mod256(n, Pow256(k - 1));
      }
      t + [n % 256]
  }

  /** Strings of one length are told apart by their big-endian value. */
  lemma {:induction false} BEInjective(s: seq<byte>, t: seq<byte>)
    requires |s| == |t| && BE(s) == BE(t)
    ensures s == t
  {
    if s != [] {
      var s', t' := s[..|s| - 1], t[..|t| - 1];
      BEInjective(s', t');
      assert s == s' + [s[|s| - 1]];
      assert t == t' + [t[|t| - 1]];
    }
  }

  function U32(n: nat): (s: seq<byte>)
    ensures |s| == 4 && BE(s) == n % B32
  {
    Pow256Values();
    ToBE(n, 4)
  }

  /** The concatenation of pieces. */
  function Flatten(pieces: seq<seq<byte>>): (s: seq<byte>)
  {
    if pieces == [] then [] else Flatten(pieces[..|pieces| - 1]) + pieces[|pieces| - 1]
  }
}
