/** CBC mode of third/ssh/cipher.go, with the fixed total read that hides which check failed. */
module CipherCbc {
  import opened Bytes
  import opened Cipher
  import opened Mpint

  /** A block cipher with blocks of 8 or 16 bytes. */
  datatype Block = Block(size: nat, enc: seq<byte> -> seq<byte>, dec: seq<byte> -> seq<byte>)
  {
    ghost predicate Valid()
    {
      && (size == 8 || size == 16)
      && (forall b {:trigger enc(b)} :: |b| == size ==> |enc(b)| == size)
      && (forall b {:trigger dec(b)} :: |b| == size ==> |dec(b)| == size)
      && (forall b {:trigger enc(b)} :: |b| == size ==> dec(enc(b)) == b)
    }
  }

  function XorBlock(a: seq<byte>, b: seq<byte>): (c: seq<byte>)
    requires |a| == |b|
    ensures |c| == |a|
  {
    seq(|a|, i requires 0 <= i < |a| => XorByte(a[i], b[i]))
  }

  lemma {:induction false} XorBlockCancels(a: seq<byte>, b: seq<byte>)
    requires |a| == |b|
    ensures XorBlock(XorBlock(a, b), b) == a
  {
    forall i | 0 <= i < |a| ensures XorBlock(XorBlock(a, b), b)[i] == a[i] {
      XorByteCancels(a[i], b[i]);
    }
  }

  /** n is a whole number of blocks. */
  predicate Whole(size: nat, n: nat)
  {
    if size == 8 then n % 8 == 0 else n % 16 == 0
  }

  /** Chained encryption of whole blocks; the chain value is the previous ciphertext block. */
  function Encrypt(bc: Block, chain: seq<byte>, s: seq<byte>): (c: seq<byte>)
    requires bc.Valid() && |chain| == bc.size && Whole(bc.size, |s|)
    ensures |c| == |s|
    decreases |s|
  {
    if s == [] then []
    else
      AtLeastOne(bc.size, |s|);
      var b := bc.enc(XorBlock(s[..bc.size], chain));
      b + Encrypt(bc, b, s[bc.size..])
  }

  function Decrypt(bc: Block, chain: seq<byte>, c: seq<byte>): (s: seq<byte>)
    requires bc.Valid() && |chain| == bc.size && Whole(bc.size, |c|)
    ensures |s| == |c|
    decreases |c|
  {
    if c == [] then []
    else
      AtLeastOne(bc.size, |c|);
      var b := c[..bc.size];
      XorBlock(bc.dec(b), chain) + Decrypt(bc, b, c[bc.size..])
  }

  lemma {:induction false} DecryptEncrypt(bc: Block, chain: seq<byte>, s: seq<byte>)
    requires bc.Valid() && |chain| == bc.size && Whole(bc.size, |s|)
    ensures Decrypt(bc, chain, Encrypt(bc, chain, s)) == s
    decreases |s|
  {
    if s != [] {
      AtLeastOne(bc.size, |s|);
      var p := s[..bc.size];
      var b := bc.enc(XorBlock(p, chain));
      var tail := Encrypt(bc, b, s[bc.size..]);
      assert Encrypt(bc, chain, s) == b + tail;
      DecryptBlock(bc, chain, b, tail);
      XorBlockCancels(p, chain);
      DecryptEncrypt(bc, b, s[bc.size..]);
      assert s == p + s[bc.size..];
    }
  }

  lemma {:induction false} DecryptBlock(bc: Block, chain: seq<byte>, b: seq<byte>, tail: seq<byte>)
    requires bc.Valid() && |chain| == |b| == bc.size && Whole(bc.size, |tail|) && Whole(bc.size, |b + tail|)
    ensures Decrypt(bc, chain, b + tail) == XorBlock(bc.dec(b), chain) + Decrypt(bc, b, tail)
  {
    var c := b + tail;
    assert c != [] && c[..bc.size] == b && c[bc.size..] == tail;
  }

  lemma {:induction false} AtLeastOne(size: nat, n: nat)
    requires (size == 8 || size == 16) && Whole(size, n) && n > 0
    ensures n >= size && Whole(size, n - size)
  {
  }

  lemma {:induction false} OneBlock(bc: Block, chain: seq<byte>, f: seq<byte>)
    requires bc.Valid() && |chain| == bc.size && |f| == bc.size
    ensures Whole(bc.size, |f|) && Decrypt(bc, chain, f) == XorBlock(bc.dec(f), chain)
  {
    assert f[..bc.size] == f && f[bc.size..] == [];
    var d := XorBlock(bc.dec(f), chain);
    assert d + [] == d;
  }

  /** The first block can be decrypted before the others are read. */
  lemma {:induction false} DecryptFirst(bc: Block, chain: seq<byte>, c: seq<byte>)
    requires bc.Valid() && |chain| == bc.size && Whole(bc.size, |c|) && c != []
    ensures |c| >= bc.size && Whole(bc.size, |c[bc.size..]|)
    ensures Decrypt(bc, chain, c) == Decrypt(bc, chain, c[..bc.size]) + Decrypt(bc, c[..bc.size], c[bc.size..])
  {
    AtLeastOne(bc.size, |c|);
    var f, others := c[..bc.size], c[bc.size..];
    OneBlock(bc, chain, f);
    assert Decrypt(bc, chain, c) == XorBlock(bc.dec(f), chain) + Decrypt(bc, f, others);
  }

  /** The chain value after these ciphertext blocks. */
  function Last(bc: Block, chain: seq<byte>, c: seq<byte>): (b: seq<byte>)
    requires |chain| == bc.size
    ensures |b| == bc.size
  {
    if |c| < bc.size then chain else c[|c| - bc.size..]
  }

  // ---------------------------------------------------------------- writing

  function Max(a: nat, b: nat): (m: nat)
  {
    if a > b then a else b
  }

  /** Encrypted length for n payload bytes: header, payload and at least four bytes of padding, in whole blocks. */
  function EncLength(size: nat, n: nat): (e: nat)
    requires size == 8 || size == 16
    ensures Whole(size, e) && e >= 16 && 9 + n <= e <= Max(9 + n, 16) + size - 1
  {
    var least := Max(5 + n + 4, 16);
    if size == 8 then RoundUp8(least) else RoundUp16(least)
  }

  function RoundUp8(x: nat): (r: nat)
    ensures r % 8 == 0 && x <= r <= x + 7
  {
    (x + 7) / 8 * 8
  }

  function RoundUp16(x: nat): (r: nat)
    ensures r % 16 == 0 && x <= r <= x + 15
  {
    (x + 15) / 16 * 16
  }

  function PadLength(size: nat, n: nat): (p: nat)
    requires size == 8 || size == 16
    ensures 4 <= p < 256
  {
    EncLength(size, n) - 4 - (1 + n)
  }

  function Frame(bc: Block, packet: seq<byte>, pad: seq<byte>): (f: seq<byte>)
    requires bc.Valid() && |pad| == PadLength(bc.size, |packet|)
    ensures |f| == EncLength(bc.size, |packet|) && f[..4] == U32(|f| - 4) && f[4] == |pad|
  {
    U32(EncLength(bc.size, |packet|) - 4) + [|pad|] + packet + pad
  }

  /** MAC-then-encrypt: the tag covers the plaintext frame and follows the ciphertext unencrypted. */
  function CbcWire(bc: Block, mac: Mac, chain: seq<byte>, seqNum: nat, packet: seq<byte>, pad: seq<byte>): (w: seq<byte>)
    requires bc.Valid() && |chain| == bc.size && |pad| == PadLength(bc.size, |packet|)
  {
    var frame := Frame(bc, packet, pad);
    Encrypt(bc, chain, frame) + mac.Tag(U32(seqNum) + frame)
  }

  /** The writer's chain value after a packet: its last ciphertext block. */
  function NextChain(bc: Block, chain: seq<byte>, packet: seq<byte>, pad: seq<byte>): (b: seq<byte>)
    requires bc.Valid() && |chain| == bc.size && |pad| == PadLength(bc.size, |packet|)
    ensures |b| == bc.size
  {
    Last(bc, chain, Encrypt(bc, chain, Frame(bc, packet, pad)))
  }

  // ---------------------------------------------------------------- reading

  /** The result of reading and the chain value for the next packet. */
  datatype CbcResult = CbcResult(read: Read, chain: seq<byte>)

  /** Bytes that a failed verification reads in all, if the stream has them. */
  function Camouflage(mac: Mac): (n: nat)
  {
    MAX_PACKET + 4 + mac.Size()
  }

  /** A cbcError: discard up to the camouflage total. */
  function CbcError(f: Failure, consumed: nat, mac: Mac, available: nat): (r: Read)
    requires consumed <= Camouflage(mac)
  {
    var more := Camouflage(mac) - consumed;
    Fail(f, if consumed + more <= available then consumed + more else available)
  }

  /** The checks on the decrypted first block, in the order they are made. */
  function HeaderFailure(size: nat, length: nat, padLen: nat): (f: Option<Failure>)
  {
    if length > MAX_PACKET then Some(TooLarge)
    else if length + 4 < Max(16, size) then Some(TooSmall)
    else if !Whole(size, length + 4) then Some(BadMultiple)
    else if padLen < 4 || length <= padLen + 1 then Some(BadPadding)
    else None
  }

  /** Decrypting the remaining blocks and checking the tag. */
  function ReadBody(bc: Block, mac: Mac, seqNum: nat, input: seq<byte>, plain: seq<byte>, macStart: nat, padLen: nat): (r: CbcResult)
    requires bc.Valid() && bc.size == |plain| <= macStart && Whole(bc.size, macStart)
    requires macStart + mac.Size() <= |input| && macStart <= MAX_PACKET + 4 && 5 + padLen <= macStart
    ensures |r.chain| == bc.size
    ensures r.read.Fail? && |input| >= Camouflage(mac) ==> r.read.consumed == Camouflage(mac)
  {
    var n := bc.size;
    AtLeastOne(n, macStart);
    var first, others := input[..n], input[n..macStart];
    var end := macStart + mac.Size();
    var frame := plain + Decrypt(bc, first, others);
    var next := Last(bc, first, others);
    if mac.Tag(U32(seqNum) + frame) != input[macStart..end]
    then CbcResult(CbcError(MacFailure, end, mac, |input|), next)
    else CbcResult(Packet(frame[5..macStart - padLen], end), next)
  }

  function CbcRead(bc: Block, mac: Mac, chain: seq<byte>, seqNum: nat, input: seq<byte>): (r: CbcResult)
    requires bc.Valid() && |chain| == bc.size
    ensures |r.chain| == bc.size
  {
    if |input| < bc.size then CbcResult(Fail(Eof, |input|), chain)
    else
      var first := input[..bc.size];
      var plain := Decrypt(bc, chain, first);
      var length := BE(plain[..4]);
      match HeaderFailure(bc.size, length, plain[4])
      case Some(f) => CbcResult(CbcError(f, bc.size, mac, |input|), first)
      case None =>
        if |input| < 4 + length + mac.Size() then CbcResult(Fail(Eof, |input|), first)
        else ReadBody(bc, mac, seqNum, input, plain, 4 + length, plain[4])
  }

  /**
   Whatever check fails (length, multiple, padding or MAC), a stream that holds enough bytes is read
   to the same total, so the failures cannot be told apart by how much was read.
   */
  lemma {:induction false} FailuresReadTheSame(bc: Block, mac: Mac, chain: seq<byte>, seqNum: nat, input: seq<byte>)
    requires bc.Valid() && |chain| == bc.size
    requires |input| >= Camouflage(mac)
    ensures CbcRead(bc, mac, chain, seqNum, input).read.Fail?
            ==> CbcRead(bc, mac, chain, seqNum, input).read.consumed == MAX_PACKET + 4 + mac.Size()
  {
  }

  /** Reading the body of a frame whose tag matches. */
  lemma {:induction false} BodyOfFrame(bc: Block, mac: Mac, chain: seq<byte>, seqNum: nat, input: seq<byte>, c: seq<byte>, frame: seq<byte>, padLen: nat)
    requires bc.Valid() && |chain| == bc.size && Whole(bc.size, |c|) && bc.size <= |c| <= MAX_PACKET + 4
    requires frame == Decrypt(bc, chain, c) && 5 + padLen <= |c|
    requires |c| + mac.Size() <= |input| && input[..|c|] == c
    requires input[|c|..|c| + mac.Size()] == mac.Tag(U32(seqNum) + frame)
    ensures ReadBody(bc, mac, seqNum, input, Decrypt(bc, chain, c[..bc.size]), |c|, padLen)
         == CbcResult(Packet(frame[5..|c| - padLen], |c| + mac.Size()), Last(bc, chain, c))
  {
    var n := bc.size;
    DecryptFirst(bc, chain, c);
    LastSplit(bc, chain, c);
    assert input[..n] == c[..n] && input[n..|c|] == c[n..];
    var whole := Decrypt(bc, chain, c[..n]) + Decrypt(bc, input[..n], input[n..|c|]);
    assert whole == frame;
  }

  lemma {:induction false} LastSplit(bc: Block, chain: seq<byte>, c: seq<byte>)
    requires bc.Valid() && |chain| == bc.size && Whole(bc.size, |c|) && |c| >= bc.size
    ensures Last(bc, c[..bc.size], c[bc.size..]) == Last(bc, chain, c)
  {
  }

  /** The header a frame shows in its first block. */
  lemma {:induction false} HeaderOfFrame(bc: Block, chain: seq<byte>, c: seq<byte>, frame: seq<byte>, length: nat)
    requires bc.Valid() && |chain| == bc.size && Whole(bc.size, |c|) && |c| >= 16 && length < B32
    requires frame == Decrypt(bc, chain, c) && frame[..4] == U32(length)
    ensures var plain := Decrypt(bc, chain, c[..bc.size]);
            |plain| >= 5 && BE(plain[..4]) == length && plain[4] == frame[4]
  {
    DecryptFirst(bc, chain, c);
    var plain := Decrypt(bc, chain, c[..bc.size]);
    assert frame == plain + frame[bc.size..];
    assert plain[..4] == frame[..4];
    U32Value(length);
  }

  /** What the reader answers on ciphertext and tag, in terms of the decrypted frame. */
  lemma {:induction false} CbcReadFrame(bc: Block, mac: Mac, chain: seq<byte>, seqNum: nat, c: seq<byte>, t: seq<byte>, rest: seq<byte>,
                     frame: seq<byte>, length: nat, padLen: byte)
    requires bc.Valid() && |chain| == bc.size && Whole(bc.size, |c|)
    requires frame == Decrypt(bc, chain, c)
    requires |c| == 4 + length && |c| >= 16 && length < B32 && |t| == mac.Size()
    requires frame[..4] == U32(length) && frame[4] == padLen
    requires t == mac.Tag(U32(seqNum) + frame)
    requires padLen >= 4
    ensures CbcRead(bc, mac, chain, seqNum, c + t + rest)
         == if length > MAX_PACKET then CbcResult(CbcError(TooLarge, bc.size, mac, |c + t + rest|), c[..bc.size])
            else if length - 1 <= padLen then CbcResult(CbcError(BadPadding, bc.size, mac, |c + t + rest|), c[..bc.size])
            else CbcResult(Packet(frame[5..|c| - padLen], |c| + |t|), Last(bc, chain, c))
  {
    var input := c + t + rest;
    assert input[..|c|] == c && input[|c|..|c| + |t|] == t && input[..bc.size] == c[..bc.size];
    HeaderOfFrame(bc, chain, c, frame, length);
    if length <= MAX_PACKET && padLen < length - 1 {
      BodyOfFrame(bc, mac, chain, seqNum, input, c, frame, padLen);
    }
  }

  lemma {:induction false} CbcParts(bc: Block, mac: Mac, chain: seq<byte>, seqNum: nat, packet: seq<byte>, pad: seq<byte>,
                 frame: seq<byte>, c: seq<byte>, t: seq<byte>)
    requires bc.Valid() && mac.Valid() && |chain| == bc.size && |pad| == PadLength(bc.size, |packet|)
    requires frame == Frame(bc, packet, pad) && c == Encrypt(bc, chain, frame) && t == mac.Tag(U32(seqNum) + frame)
    ensures CbcWire(bc, mac, chain, seqNum, packet, pad) == c + t
    ensures |c| == |frame| == EncLength(bc.size, |packet|) && |t| == mac.Size()
  {
  }

  /** The reader gets back what the writer framed exactly for non-empty payloads whose frame fits the reader's bound. */
  lemma {:induction false} CbcRoundTrip(bc: Block, mac: Mac, chain: seq<byte>, seqNum: nat, packet: seq<byte>, pad: seq<byte>, rest: seq<byte>)
    requires bc.Valid() && mac.Valid() && |chain| == bc.size
    requires |pad| == PadLength(bc.size, |packet|) && |packet| + 32 < B32
    ensures var w := CbcWire(bc, mac, chain, seqNum, packet, pad);
            CbcRead(bc, mac, chain, seqNum, w + rest).read == Packet(packet, |w|)
            <==> 1 <= |packet| && EncLength(bc.size, |packet|) - 4 <= MAX_PACKET
    ensures 1 <= |packet| && EncLength(bc.size, |packet|) - 4 <= MAX_PACKET
            ==> CbcRead(bc, mac, chain, seqNum, CbcWire(bc, mac, chain, seqNum, packet, pad) + rest).chain
                == NextChain(bc, chain, packet, pad)
  {
    var enc := EncLength(bc.size, |packet|);
    var frame := Frame(bc, packet, pad);
    var c := Encrypt(bc, chain, frame);
    var t := mac.Tag(U32(seqNum) + frame);
    DecryptEncrypt(bc, chain, frame);
    CbcParts(bc, mac, chain, seqNum, packet, pad, frame, c, t);
    CbcReadFrame(bc, mac, chain, seqNum, c, t, rest, frame, enc - 4, |pad|);
    assert frame[5..enc - |pad|] == packet;
  }
}
