/**
 Packet framing of third/ssh/cipher.go (section 6 of RFC 4253) for the four cipher modes. The
 primitives stay abstract: a stream cipher is a keystream indexed by position, a MAC is a function
 of its input, a block cipher is a pair of inverse functions on blocks.
 */
module Cipher {
  import opened Bytes

  const MAX_PACKET: nat := 262144

  datatype Failure = Eof | TooSmall | TooLarge | BadMultiple | BadPadding | MacFailure

  /** A packet with the number of bytes consumed, or a failure and the number of bytes consumed by then. */
  datatype Read = Packet(payload: seq<byte>, consumed: nat) | Fail(failure: Failure, consumed: nat)

  // ---------------------------------------------------------------- keystreams

  /** XORKeyStream over s, starting at keystream position pos. */
  function XorStream(ks: nat -> byte, pos: nat, s: seq<byte>): (t: seq<byte>)
    ensures |t| == |s|
  {
    seq(|s|, i requires 0 <= i < |s| => XorByte(s[i], ks(pos + i)))
  }

  lemma {:induction false} XorStreamCancels(ks: nat -> byte, pos: nat, s: seq<byte>)
    ensures XorStream(ks, pos, XorStream(ks, pos, s)) == s
  {
    forall i | 0 <= i < |s| ensures XorStream(ks, pos, XorStream(ks, pos, s))[i] == s[i] {
      XorByteCancels(s[i], ks(pos + i));
    }
  }

  lemma {:induction false} XorStreamConcat(ks: nat -> byte, pos: nat, a: seq<byte>, b: seq<byte>)
    ensures XorStream(ks, pos, a + b) == XorStream(ks, pos, a) + XorStream(ks, pos + |a|, b)
  {
  }

  /** Decrypting ciphertext in two reads gives the two parts of the plaintext. */
  lemma {:induction false} XorStreamParts(ks: nat -> byte, pos: nat, a: seq<byte>, b: seq<byte>)
    ensures var c := XorStream(ks, pos, a + b);
            XorStream(ks, pos, c[..|a|]) == a && XorStream(ks, pos + |a|, c[|a|..]) == b
  {
    XorStreamConcat(ks, pos, a, b);
    XorStreamCancels(ks, pos, a);
    XorStreamCancels(ks, pos + |a|, b);
    var c := XorStream(ks, pos, a + b);
    assert c[..|a|] == XorStream(ks, pos, a) && c[|a|..] == XorStream(ks, pos + |a|, b);
  }

  lemma {:induction false} U32Value(n: nat)
    requires n < B32
    ensures BE(U32(n)) == n
  {
    DivModUnique(n, B32, 0, n);
  }

  // ---------------------------------------------------------------- padding

  /** Padding that brings `head` bytes plus itself to a multiple of m, and is at least four. */
  function Padding(head: nat, m: nat): (p: nat)
    requires m == 8 || m == 16
    ensures 4 <= p < m + 4
    ensures (head + p) % m == 0
  {
    if m == 8 then
      var p := 8 - head % 8;
      if p < 4 then p + 8 else p
    else
      var p := 16 - head % 16;
      if p < 4 then p + 16 else p
  }

  // ---------------------------------------------------------------- stream ciphers

  datatype Mac = NoMac | Mac(size: nat, etm: bool, sum: seq<byte> -> seq<byte>)
  {
    ghost predicate Valid() { Mac? ==> forall x :: |sum(x)| == size }
    predicate Etm() { Mac? && etm }
    function Size(): (n: nat) { if Mac? then size else 0 }
    function Tag(x: seq<byte>): (t: seq<byte>) { if Mac? then sum(x) else [] }
  }

  function StreamPadding(mac: Mac, n: nat): (p: nat)
  {
    Padding(if mac.Etm() then 1 + n else 5 + n, 16)
  }

  /** What writeCipherPacket puts on the wire. */
  function StreamWire(ks: nat -> byte, mac: Mac, pos: nat, seqNum: nat, packet: seq<byte>, pad: seq<byte>): (w: seq<byte>)
    requires |pad| < 256
  {
    var length := U32(|packet| + 1 + |pad|);
    var body := [|pad|] + packet + pad;
    if mac.Etm() then
      var enc := XorStream(ks, pos, body);
      length + enc + mac.Tag(U32(seqNum) + length + enc)
    else
      XorStream(ks, pos, length + body) + mac.Tag(U32(seqNum) + length + body)
  }

  /** Keystream consumed by a packet of n payload bytes. */
  function StreamAdvance(mac: Mac, n: nat, padLen: nat): (k: nat)
  {
    if mac.Etm() then 1 + n + padLen else 5 + n + padLen
  }

  /** The length and the padding length; with EtM the length is not encrypted. */
  function OpenPrefix(ks: nat -> byte, mac: Mac, pos: nat, p: seq<byte>): (q: seq<byte>)
    requires |p| == 5
    ensures |q| == 5
  {
    if mac.Etm() then p[..4] + XorStream(ks, pos, p[4..5]) else XorStream(ks, pos, p)
  }

  /** readCipherPacket on the bytes still to come. minPadding is the OpenSSH padding check. */
  function StreamRead(ks: nat -> byte, mac: Mac, pos: nat, seqNum: nat, minPadding: bool, input: seq<byte>): (r: Read)
  {
    if |input| < 5 then Fail(Eof, |input|)
    else
      var prefix := OpenPrefix(ks, mac, pos, input[..5]);
      var pos1 := if mac.Etm() then pos + 1 else pos + 5;
      var length := BE(prefix[..4]);
      var padLen: nat := prefix[4];
      if length <= padLen + 1 then Fail(TooSmall, 5)
      else if length > MAX_PACKET then Fail(TooLarge, 5)
      else
        var end := 4 + length;
        if |input| < end + mac.Size() then Fail(Eof, |input|)
        else
          var data := XorStream(ks, pos1, input[5..end]);
          var tag := mac.Tag(U32(seqNum) + (if mac.Etm() then input[..end] else prefix + data));
          if tag != input[end..end + mac.Size()] then Fail(MacFailure, end + mac.Size())
          else if minPadding && padLen < 4 then Fail(BadPadding, end + mac.Size())
          else Packet(data[..length - padLen - 1], end + mac.Size())
  }

  lemma {:induction false} Parts(a: seq<byte>, b: seq<byte>, c: seq<byte>, d: seq<byte>)
    ensures var s := a + b + c + d;
            && s[..|a|] == a && s[|a|..|a| + |b|] == b && s[|a| + |b|..|a| + |b| + |c|] == c
            && s[..|a| + |b|] == a + b
  {
  }

  /** What the reader answers on prefix, data and tag, in terms of the decrypted prefix and data. */
  lemma {:induction false} StreamReadFrame(ks: nat -> byte, mac: Mac, pos: nat, seqNum: nat, min: bool,
                        p: seq<byte>, d: seq<byte>, t: seq<byte>, rest: seq<byte>, length: nat, padLen: byte)
    requires |p| == 5 && OpenPrefix(ks, mac, pos, p) == U32(length) + [padLen]
    requires length < B32 && |d| + 1 == length && |t| == mac.Size()
    ensures StreamRead(ks, mac, pos, seqNum, min, p + d + t + rest)
         == var data := XorStream(ks, if mac.Etm() then pos + 1 else pos + 5, d);
            if length - 1 <= padLen then Fail(TooSmall, 5)
            else if length > MAX_PACKET then Fail(TooLarge, 5)
            else if mac.Tag(U32(seqNum) + (if mac.Etm() then p + d else U32(length) + [padLen] + data)) != t
              then Fail(MacFailure, 4 + length + |t|)
            else if min && padLen < 4 then Fail(BadPadding, 4 + length + |t|)
            else Packet(data[..length - padLen - 1], 4 + length + |t|)
  {
    Parts(p, d, t, rest);
    var input := p + d + t + rest;
    var q := U32(length) + [padLen];
    assert q[..4] == U32(length);
    U32Value(length);
  }

  /** The bytes that a MAC covers behind the sequence number. */
  function MacBody(ks: nat -> byte, mac: Mac, pos: nat, packet: seq<byte>, pad: seq<byte>): (b: seq<byte>)
    requires |pad| < 256
  {
    var length, body := U32(|packet| + 1 + |pad|), [|pad|] + packet + pad;
    length + if mac.Etm() then XorStream(ks, pos, body) else body
  }

  /** The frame StreamWire builds, cut where the reader cuts it. */
  lemma {:induction false} StreamFrame(ks: nat -> byte, mac: Mac, pos: nat, seqNum: nat, packet: seq<byte>, pad: seq<byte>)
    returns (p: seq<byte>, d: seq<byte>, t: seq<byte>)
    requires mac.Valid() && |pad| < 256
    ensures StreamWire(ks, mac, pos, seqNum, packet, pad) == p + d + t
    ensures |p| == 5 && |d| == |packet| + |pad| && |t| == mac.Size()
    ensures OpenPrefix(ks, mac, pos, p) == U32(|packet| + 1 + |pad|) + [|pad|]
    ensures XorStream(ks, if mac.Etm() then pos + 1 else pos + 5, d) == packet + pad
    ensures t == mac.Tag(U32(seqNum) + (if mac.Etm() then p + d
                                        else U32(|packet| + 1 + |pad|) + [|pad|] + (packet + pad)))
    ensures MacBody(ks, mac, pos, packet, pad) ==
            if mac.Etm() then p + d else U32(|packet| + 1 + |pad|) + [|pad|] + (packet + pad)
  {
    var length := U32(|packet| + 1 + |pad|);
    if mac.Etm() {
      p, d := EtmParts(ks, pos, length, |pad|, packet, pad);
      t := mac.Tag(U32(seqNum) + (p + d));
      Grouped(U32(seqNum), length, XorStream(ks, pos, [|pad|] + packet + pad));
    } else {
      p, d := PlainParts(ks, pos, length, |pad|, packet, pad);
      t := mac.Tag(U32(seqNum) + (length + [|pad|] + (packet + pad)));
      Grouped(U32(seqNum), length, [|pad|] + packet + pad);
      assert length + ([|pad|] + packet + pad) == length + [|pad|] + (packet + pad);
    }
  }

  lemma {:induction false} Grouped(a: seq<byte>, b: seq<byte>, c: seq<byte>)
    ensures a + b + c == a + (b + c)
  {
  }

  lemma {:induction false} EtmParts(ks: nat -> byte, pos: nat, length: seq<byte>, padLen: byte, packet: seq<byte>, pad: seq<byte>)
    returns (p: seq<byte>, d: seq<byte>)
    requires |length| == 4
    ensures p + d == length + XorStream(ks, pos, [padLen] + packet + pad)
    ensures |p| == 5 && |d| == |packet| + |pad|
    ensures p[..4] == length && XorStream(ks, pos, p[4..5]) == [padLen] && XorStream(ks, pos + 1, d) == packet + pad
  {
    var enc := XorStream(ks, pos, [padLen] + packet + pad);
    Grouped([padLen], packet, pad);
    XorStreamParts(ks, pos, [padLen], packet + pad);
    var head, tail := enc[..1], enc[1..];
    Grouped(length, head, tail);
    assert head + tail == enc;
    p, d := length + head, tail;
    assert p[4..5] == head;
  }

  lemma {:induction false} PlainParts(ks: nat -> byte, pos: nat, length: seq<byte>, padLen: byte, packet: seq<byte>, pad: seq<byte>)
    returns (p: seq<byte>, d: seq<byte>)
    requires |length| == 4
    ensures p + d == XorStream(ks, pos, length + ([padLen] + packet + pad))
    ensures |p| == 5 && |d| == |packet| + |pad|
    ensures XorStream(ks, pos, p) == length + [padLen] && XorStream(ks, pos + 5, d) == packet + pad
  {
    var enc := XorStream(ks, pos, length + ([padLen] + packet + pad));
    Grouped([padLen], packet, pad);
    Grouped(length, [padLen], packet + pad);
    XorStreamParts(ks, pos, length + [padLen], packet + pad);
    p, d := enc[..5], enc[5..];
  }

  /**
   The reader gets back what the writer framed, from in front of any later bytes, exactly when the
   payload is not empty and payload, padding length byte and padding fit the reader's bound. The
   writer's own bound is on the payload alone, so the two ends disagree near MAX_PACKET.
   */
  lemma {:induction false} StreamRoundTrip(ks: nat -> byte, mac: Mac, pos: nat, seqNum: nat, min: bool,
                        packet: seq<byte>, pad: seq<byte>, rest: seq<byte>)
    requires mac.Valid() && |packet| <= MAX_PACKET && |pad| == StreamPadding(mac, |packet|)
    ensures var w := StreamWire(ks, mac, pos, seqNum, packet, pad);
            StreamRead(ks, mac, pos, seqNum, min, w + rest) == Packet(packet, |w|)
            <==> 1 <= |packet| && |packet| + 1 + |pad| <= MAX_PACKET
  {
    var p, d, t := StreamFrame(ks, mac, pos, seqNum, packet, pad);
    StreamReadFrame(ks, mac, pos, seqNum, min, p, d, t, rest, |packet| + 1 + |pad|, |pad|);
    assert (packet + pad)[..|packet|] == packet;
  }

  /**
   A reader that expects another number than the frame was written with gets the packet exactly when
   the MAC does not tell the two numbers apart, and reports a MAC failure otherwise.
   */
  lemma {:induction false} StreamOtherNumber(ks: nat -> byte, mac: Mac, pos: nat, written: nat, expected: nat, min: bool,
                                             packet: seq<byte>, pad: seq<byte>, rest: seq<byte>)
    requires mac.Valid() && |pad| == StreamPadding(mac, |packet|) && 1 <= |packet| && |packet| + 1 + |pad| <= MAX_PACKET
    ensures var w, body := StreamWire(ks, mac, pos, written, packet, pad), MacBody(ks, mac, pos, packet, pad);
            StreamRead(ks, mac, pos, expected, min, w + rest) ==
            if mac.Tag(U32(expected) + body) == mac.Tag(U32(written) + body) then Packet(packet, |w|) else Fail(MacFailure, |w|)
  {
    var p, d, t := StreamFrame(ks, mac, pos, written, packet, pad);
    StreamReadFrame(ks, mac, pos, expected, min, p, d, t, rest, |packet| + 1 + |pad|, |pad|);
    assert (packet + pad)[..|packet|] == packet;
  }
}
