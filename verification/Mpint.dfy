/**
 Length-prefixed strings and multiple precision integers of the SSH wire format
 (section 5 of RFC 4251), as third/ssh/messages.go reads and writes them.
 */
module Mpint {
  import opened Bytes

  datatype Option<+T> = None | Some(value: T)

  // ---------------------------------------------------------------- strings

  /** A length in four bytes, truncated to 32 bits as uint32(len) truncates it, then the contents. */
  function EncodeString(s: seq<byte>): (out: seq<byte>)
  {
    U32(|s|) + s
  }

  /** parseString; the available length is truncated to 32 bits before it is compared. */
  function ParseString(input: seq<byte>): (r: Option<(seq<byte>, seq<byte>)>)
    ensures r.Some? ==> 4 <= |input| && r.value.0 + r.value.1 == input[4..] && |r.value.0| == BE(input[..4])
  {
    if |input| < 4 then None
    else
      var length := BE(input[..4]);
      var rest := input[4..];
      if |rest| % B32 < length then None else Some((rest[..length], rest[length..]))
  }

  /**
   A string short enough for its length field is parsed back from in front of any rest exactly when
   the 32-bit truncation of what follows the length field does not fall below the string's length.
   */
  lemma {:induction false} ParseEncodedString(s: seq<byte>, rest: seq<byte>)
    requires |s| < B32
    ensures ParseString(EncodeString(s) + rest) == Some((s, rest)) <==> |s| <= (|s| + |rest|) % B32
    ensures ParseString(EncodeString(s) + rest).None? <==> (|s| + |rest|) % B32 < |s|
  {
    var e := EncodeString(s) + rest;
    assert e[..4] == U32(|s|);
    assert e[4..] == s + rest;
  }

  lemma {:induction false} ParseShortString(s: seq<byte>, rest: seq<byte>)
    requires |s| + |rest| < B32
    ensures ParseString(EncodeString(s) + rest) == Some((s, rest))
  {
    ParseEncodedString(s, rest);
    DivModUnique(|s| + |rest|, B32, 0, |s| + |rest|);
  }

  // ---------------------------------------------------------------- natural numbers as bytes

  /** big.Int.Bytes: the big-endian bytes of n without leading zeros; empty for zero. */
  function NatBytes(n: nat): (s: seq<byte>)
    ensures BE(s) == n
    ensures n > 0 <==> |s| > 0
    ensures n > 0 ==> s[0] > 0
  {
    if n == 0 then []
    else
      var t := NatBytes(n / 256);
      assert (t + [n % 256])[..|t|] == t;
      t + [n % 256]
  }

  function BitLen(n: nat): (k: nat)
  {
    if n == 0 then 0 else 1 + BitLen(n / 2)
  }

  lemma {:induction false} BitLenByte(n: nat)
    requires 0 < n < 256
    ensures 1 <= BitLen(n) <= 8 && (BitLen(n) == 8 <==> n >= 128)
  {
    BitLenBelow(n, 8);
    BitLenBelow(n, 7);
    Pow2Of8();
    assert Pow2(7) == 128;
  }

  lemma {:induction false} BitLenBelow(n: nat, k: nat)
    ensures BitLen(n) <= k <==> n < Pow2(k)
    decreases n
  {
    if n != 0 && k != 0 {
      BitLenBelow(n / 2, k - 1);
    }
  }

  lemma {:induction false} BitLenShift(n: nat)
    requires n >= 256
    ensures BitLen(n) == 8 + BitLen(n / 256)
  {
    var a, b, c := n / 2 / 2, n / 2 / 2 / 2 / 2, n / 2 / 2 / 2 / 2 / 2 / 2;
    assert BitLen(n) == 2 + BitLen(a);
    assert BitLen(a) == 2 + BitLen(b);
    assert BitLen(b) == 2 + BitLen(c);
    assert BitLen(c) == 2 + BitLen(c / 2 / 2);
    assert c / 2 / 2 == n / 256;
  }

  /** The byte count is the bit count rounded up, and the top byte has its top bit set iff the bits fill the bytes. */
  lemma {:induction false} NatBytesBits(n: nat)
    requires n > 0
    ensures |NatBytes(n)| == (BitLen(n) + 7) / 8
    ensures NatBytes(n)[0] >= 128 <==> BitLen(n) % 8 == 0
    decreases n
  {
    if n < 256 {
      BitLenByte(n);
      OneByte(n);
    } else {
      NatBytesBits(n / 256);
      BitLenShift(n);
      MoreBytes(n);
      AddByte(BitLen(n / 256));
    }
  }

  lemma {:induction false} OneByte(n: nat)
    requires 0 < n < 256
    ensures NatBytes(n) == [n]
  {
    assert NatBytes(n / 256) == [];
  }

  lemma {:induction false} MoreBytes(n: nat)
    requires n >= 256
    ensures |NatBytes(n)| == |NatBytes(n / 256)| + 1 && NatBytes(n)[0] == NatBytes(n / 256)[0]
  {
  }

  lemma {:induction false} AddByte(k: nat)
    ensures (8 + k + 7) / 8 == 1 + (k + 7) / 8 && (8 + k) % 8 == k % 8
  {
  }

  // ---------------------------------------------------------------- two's complement

  function Complement(s: seq<byte>): (t: seq<byte>)
    ensures |t| == |s| && forall i :: 0 <= i < |s| ==> t[i] == 255 - s[i]
  {
    seq(|s|, i requires 0 <= i < |s| => 255 - s[i])
  }

  /** The meaning section 5 of RFC 4251 gives to the contents of an mpint. */
  function TwosComplement(s: seq<byte>): (n: int)
  {
    if s != [] && s[0] >= 128 then BE(s) - Pow256(|s|) else BE(s)
  }

  /** The content bytes marshalInt writes. */
  function IntContents(n: int): (s: seq<byte>)
  {
    if n < 0 then
      var b := Complement(NatBytes(-n - 1));
      if |b| == 0 || b[0] < 128 then [255] + b else b
    else if n == 0 then []
    else
      var b := NatBytes(n);
      if b[0] >= 128 then [0] + b else b
  }

  function EncodeInt(n: int): (s: seq<byte>)
  {
    EncodeString(IntContents(n))
  }

  /** intLength: computed from bit counts only. */
  function IntLength(n: int): (k: nat)
  {
    if n < 0 then
      var bits := BitLen(-n - 1);
      4 + (if bits % 8 == 0 then 1 else 0) + (bits + 7) / 8
    else if n == 0 then 4
    else
      var bits := BitLen(n);
      4 + (if bits % 8 == 0 then 1 else 0) + (bits + 7) / 8
  }

  /** parseInt: complement, add one and negate when the top bit is set. */
  function ParseInt(input: seq<byte>): (r: Option<(int, seq<byte>)>)
  {
    match ParseString(input)
    case None => None
    case Some((contents, rest)) =>
      if |contents| > 0 && contents[0] >= 128
      then Some((-(BE(Complement(contents)) + 1), rest))
      else Some((BE(contents), rest))
  }

  lemma {:induction false} BEComplement(s: seq<byte>)
    ensures BE(Complement(s)) == Pow256(|s|) - 1 - BE(s)
  {
    if s != [] {
      var s' := s[..|s| - 1];
      BEComplement(s');
      assert Complement(s)[..|s| - 1] == Complement(s');
    }
  }

  /** parseInt reads the two's complement value of the contents. */
  lemma {:induction false} ParseIntMeaning(input: seq<byte>)
    ensures match ParseString(input)
            case None => ParseInt(input).None?
            case Some((contents, rest)) => ParseInt(input) == Some((TwosComplement(contents), rest))
  {
    if ParseString(input).Some? {
      BEComplement(ParseString(input).value.0);
    }
  }

  /** intLength is exactly the number of bytes marshalInt writes. */
  lemma {:induction false} IntLengthExact(n: int)
    ensures IntLength(n) == |EncodeInt(n)|
  {
    if n < -1 {
      NatBytesBits(-n - 1);
    } else if n == -1 {
      assert NatBytes(0) == [] && BitLen(0) == 0;
    } else if n > 0 {
      NatBytesBits(n);
    }
  }

  lemma {:induction false} BEPrepend(b: byte, s: seq<byte>)
    ensures BE([b] + s) == b * Pow256(|s|) + BE(s)
  {
    BEConcat([b], s);
    assert [b][..0] == [];
    assert BE([b]) == b;
  }

  /** The encoded contents mean n. */
  lemma {:induction false} ContentsMean(n: int)
    ensures TwosComplement(IntContents(n)) == n
  {
    if n < 0 {
      var m := NatBytes(-n - 1);
      var b := Complement(m);
      BEComplement(m);
      if |b| == 0 || b[0] < 128 {
        BEPrepend(255, b);
        assert Pow256(|b| + 1) == 256 * Pow256(|b|);
      }
    } else if n > 0 {
      var b := NatBytes(n);
      if b[0] >= 128 {
        BEPrepend(0, b);
      }
    }
  }

  /** parseInt undoes marshalInt, in front of every rest that the length comparison tolerates. */
  lemma {:induction false} ParseEncodedInt(n: int, rest: seq<byte>)
    requires |IntContents(n)| < B32
    ensures ParseInt(EncodeInt(n) + rest) == Some((n, rest)) <==> |IntContents(n)| <= (|IntContents(n)| + |rest|) % B32
  {
    var c := IntContents(n);
    ParseEncodedString(c, rest);
    ParseIntMeaning(EncodeString(c) + rest);
    ContentsMean(n);
  }

  lemma {:induction false} ParseShortInt(n: int, rest: seq<byte>)
    requires |IntContents(n)| + |rest| < B32
    ensures ParseInt(EncodeInt(n) + rest) == Some((n, rest))
  {
    var c := IntContents(n);
    ParseShortString(c, rest);
    ParseIntMeaning(EncodeString(c) + rest);
    ContentsMean(n);
  }

  // ---------------------------------------------------------------- minimality

  /** The two's complement range of k bytes. */
  lemma {:induction false} TwosComplementRange(s: seq<byte>)
    requires s != []
    ensures -128 * Pow256(|s| - 1) <= TwosComplement(s) < 128 * Pow256(|s| - 1)
  {
    var t := s[1..];
    assert s == [s[0]] + t;
    BEPrepend(s[0], t);
    BEBound(t);
    TopByte(s[0], Pow256(|t|));
  }

  lemma {:induction false} TopByte(b: byte, p: nat)
    ensures b >= 128 ==> 128 * p <= b * p <= 255 * p
    ensures b < 128 ==> 0 <= b * p <= 127 * p
  {
  }

  /** A number below 128 * 256^(k-1) takes at most k bytes, and with k bytes its top bit is clear. */
  lemma {:induction false} NatBytesFit(n: nat, k: nat)
    requires k > 0 && n < 128 * Pow256(k - 1)
    ensures |NatBytes(n)| <= k
    ensures |NatBytes(n)| == k ==> NatBytes(n)[0] < 128
  {
    var s := NatBytes(n);
    if |s| >= k {
      var t := s[1..];
      assert s == [s[0]] + t;
      BEPrepend(s[0], t);
      if |s| == k {
        TopByte(s[0], Pow256(k - 1));
      } else {
        var d := |t| - k + 1;
        Pow256Sum(d, k - 1);
        assert Pow256(d) >= 256 by { assert Pow256(d) == 256 * Pow256(d - 1); }
        Grow(s[0], Pow256(d), Pow256(k - 1), Pow256(|t|));
        assert false;
      }
    }
  }

  lemma {:induction false} Grow(b: nat, q: nat, p: nat, pq: nat)
    requires b >= 1 && q >= 256 && pq == q * p
    ensures b * pq >= 128 * p
  {
    assert q * p >= 256 * p;
    assert b * pq >= pq;
  }

  /** The contents marshalInt chooses are the shortest with their meaning: no unnecessary leading 0 or 255. */
  lemma {:induction false} IntContentsMinimal(s: seq<byte>)
    ensures |IntContents(TwosComplement(s))| <= |s|
  {
    if s != [] {
      TwosComplementRange(s);
      ContentsFit(TwosComplement(s), |s|);
    }
  }

  lemma {:induction false} ContentsFit(n: int, k: nat)
    requires k > 0 && -128 * Pow256(k - 1) <= n < 128 * Pow256(k - 1)
    ensures |IntContents(n)| <= k
  {
    if n < 0 {
      NatBytesFit(-n - 1, k);
    } else if n > 0 {
      NatBytesFit(n, k);
    }
  }

  /** Re-encoding any mpint that parses never lengthens it. */
  lemma {:induction false} ReencodeNeverLonger(input: seq<byte>)
    requires ParseInt(input).Some?
    ensures |EncodeInt(ParseInt(input).value.0)| <= |input| - |ParseInt(input).value.1|
  {
    ParseIntMeaning(input);
    IntContentsMinimal(ParseString(input).value.0);
  }

  // ---------------------------------------------------------------- writing into a buffer

  /** marshalInt fills the front of `to` with the encoding and leaves the rest alone. */
  method MarshalInt(to: array<byte>, n: int) returns (next: nat)
    requires IntLength(n) <= to.Length
    modifies to
    ensures next == IntLength(n)
    ensures to[..next] == EncodeInt(n)
    ensures to[next..] == old(to[next..])
  {
    assert 4 + |IntContents(n)| == IntLength(n) by { IntLengthExact(n); }
    next := PutContents(to, n);
    ghost var mid := to[..];
    PutLength(to, next - 4);
    SameTail(mid, to[..], next);
  }

  lemma {:induction false} SameTail(a: seq<byte>, b: seq<byte>, n: nat)
    requires 4 <= n <= |a| == |b| && a[4..] == b[4..]
    ensures a[4..n] == b[4..n] && a[n..] == b[n..] && b[..n] == b[..4] + b[4..n]
  {
    assert a[4..n] == a[4..][..n - 4] && b[4..n] == b[4..][..n - 4];
    assert a[n..] == a[4..][n - 4..] && b[n..] == b[4..][n - 4..];
  }

  method PutLength(to: array<byte>, n: nat)
    requires to.Length >= 4
    modifies to
    ensures to[..4] == U32(n) && to[4..] == old(to[4..])
  {
    var length := U32(n);
    to[0], to[1], to[2], to[3] := length[0], length[1], length[2], length[3];
  }

  /** The part of marshalInt after the four length bytes. */
  method PutContents(to: array<byte>, n: int) returns (pos: nat)
    requires 4 + |IntContents(n)| <= to.Length
    modifies to
    ensures pos == 4 + |IntContents(n)|
    ensures to[4..pos] == IntContents(n)
    ensures to[pos..] == old(to[pos..])
  {
    if n < 0 {
      var bytes := NatBytes(-n - 1);
      var inverted := Invert(bytes);
      pos := PutPadded(to, |inverted| == 0 || inverted[0] < 128, 255, inverted);
    } else if n == 0 {
      pos := 4;
    } else {
      var bytes := NatBytes(n);
      pos := PutPadded(to, bytes[0] >= 128, 0, bytes);
    }
  }

  /** An optional padding byte and then the bytes of the number, from position four on. */
  method PutPadded(to: array<byte>, pad: bool, padding: byte, bytes: seq<byte>) returns (pos: nat)
    requires 4 + (if pad then 1 else 0) + |bytes| <= to.Length
    modifies to
    ensures pos == 4 + (if pad then 1 else 0) + |bytes|
    ensures to[4..pos] == (if pad then [padding] + bytes else bytes)
    ensures to[pos..] == old(to[pos..])
  {
    pos := 4;
    if pad {
      to[pos] := padding;
      pos := pos + 1;
    }
    pos := CopyTo(to, pos, bytes);
  }

  method Invert(bytes: seq<byte>) returns (r: seq<byte>)
    ensures r == Complement(bytes)
  {
    r := [];
    for i := 0 to |bytes|
      invariant |r| == i && forall j :: 0 <= j < i ==> r[j] == 255 - bytes[j]
    {
      r := r + [255 - bytes[i]];
    }
  }

  method CopyTo(to: array<byte>, pos: nat, src: seq<byte>) returns (end: nat)
    requires pos + |src| <= to.Length
    modifies to
    ensures end == pos + |src|
    ensures to[..pos] == old(to[..pos]) && to[pos..end] == src && to[end..] == old(to[end..])
  {
    forall i | 0 <= i < |src| {
      to[pos + i] := src[i];
    }
    end := pos + |src|;
  }
}
