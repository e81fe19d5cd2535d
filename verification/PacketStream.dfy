/**
 A direction of the transport at packet level: one writer and one reader of the same cipher mode,
 packet after packet. Reader and writer keep the same keystream position, IV or chaining block.
 */
module PacketStream {
  import opened Bytes
  import opened Cipher
  import opened CipherAead
  import opened CipherCbc

  datatype Mode =
    | Stream(ks: nat -> byte, mac: Mac, minPadding: bool)
    | Gcm(box: Box)
    | Cbc(bc: Block, cbcMac: Mac)
    | ChaPoly(keys: ChaCha)
  {
    ghost predicate Valid()
    {
      match this
      case Stream(_, mac, _) => mac.Valid()
      case Gcm(box) => box.Valid()
      case Cbc(bc, mac) => bc.Valid() && mac.Valid()
      case ChaPoly(_) => true
    }
  }

  /** Keystream position (stream ciphers), IV (GCM) or chaining block (CBC). */
  datatype State = State(pos: nat, iv: seq<byte>)

  ghost predicate Ready(m: Mode, st: State)
  {
    && m.Valid()
    && (m.Gcm? ==> |st.iv| == 12)
    && (m.Cbc? ==> |st.iv| == m.bc.size)
  }

  function PadLen(m: Mode, n: nat): (p: nat)
    requires m.Cbc? ==> m.bc.size == 8 || m.bc.size == 16
    ensures 4 <= p < 256
  {
    match m
    case Stream(_, mac, _) => StreamPadding(mac, n)
    case Gcm(_) => Padding(1 + n, 16)
    case Cbc(bc, _) => PadLength(bc.size, n)
    case ChaPoly(_) => Padding(1 + n, 8)
  }

  /** Every mode pads with at least four bytes, and what it encrypts in blocks is block-aligned. */
  lemma {:induction false} PaddingRule(m: Mode, n: nat)
    requires m.Cbc? ==> m.bc.size == 8 || m.bc.size == 16
    ensures 4 <= PadLen(m, n) <= 19
    ensures match m
            case Stream(_, mac, _) => ((if mac.Etm() then 1 else 5) + n + PadLen(m, n)) % 16 == 0
            case Gcm(_) => (1 + n + PadLen(m, n)) % 16 == 0
            case Cbc(bc, _) => Whole(bc.size, 5 + n + PadLen(m, n))
            case ChaPoly(_) => (1 + n + PadLen(m, n)) % 8 == 0
  {
  }

  function Wire(m: Mode, st: State, seqNum: nat, packet: seq<byte>, pad: seq<byte>): (w: seq<byte>)
    requires Ready(m, st) && |pad| == PadLen(m, |packet|)
  {
    match m
    case Stream(ks, mac, _) => StreamWire(ks, mac, st.pos, seqNum, packet, pad)
    case Gcm(box) => GcmWire(box, st.iv, packet, pad)
    case Cbc(bc, mac) => CbcWire(bc, mac, st.iv, seqNum, packet, pad)
    case ChaPoly(keys) => ChaChaWire(keys, seqNum, packet, pad)
  }

  /** The writer's state after a packet. */
  function Advance(m: Mode, st: State, packet: seq<byte>, pad: seq<byte>): (st': State)
    requires Ready(m, st) && |pad| == PadLen(m, |packet|)
    ensures Ready(m, st')
  {
    match m
    case Stream(_, mac, _) => st.(pos := st.pos + StreamAdvance(mac, |packet|, |pad|))
    case Gcm(_) => st.(iv := NextIV(st.iv))
    case Cbc(bc, _) => st.(iv := NextChain(bc, st.iv, packet, pad))
    case ChaPoly(_) => st
  }

  /** The reader: its result and its state after reading. */
  function ReadOne(m: Mode, st: State, seqNum: nat, input: seq<byte>): (r: (Read, State))
    requires Ready(m, st)
    ensures Ready(m, r.1)
  {
    match m
    case Stream(ks, mac, min) =>
      var r := StreamRead(ks, mac, st.pos, seqNum, min, input);
      (r, if r.Packet? then st.(pos := st.pos + StreamConsumed(mac, r.consumed)) else st)
    case Gcm(box) =>
      var r := GcmRead(box, st.iv, input);
      (r, if r.Packet? then st.(iv := NextIV(st.iv)) else st)
    case Cbc(bc, mac) =>
      var r := CbcRead(bc, mac, st.iv, seqNum, input);
      (r.read, st.(iv := r.chain))
    case ChaPoly(keys) => (ChaChaRead(keys, seqNum, input), st)
  }

  /** Keystream bytes in a frame of the given total size: everything but the tag and a clear length field. */
  function StreamConsumed(mac: Mac, total: nat): (k: nat)
  {
    var clear := mac.Size() + (if mac.Etm() then 4 else 0);
    if total < clear then 0 else total - clear
  }

  /** The payload sizes the reader accepts. */
  predicate Fits(m: Mode, n: nat)
    requires m.Cbc? ==> m.bc.size == 8 || m.bc.size == 16
  {
    1 <= n && 1 + n + PadLen(m, n) <= MAX_PACKET
  }

  lemma {:induction false} SmallFits(m: Mode, n: nat)
    requires m.Cbc? ==> m.bc.size == 8 || m.bc.size == 16
    requires 1 <= n <= MAX_PACKET - 20
    ensures Fits(m, n)
  {
    PaddingRule(m, n);
  }

  /** One packet: the reader recovers the payload, consumes exactly the frame and ends in the writer's state. */
  lemma {:induction false} OnePacket(m: Mode, st: State, seqNum: nat, packet: seq<byte>, pad: seq<byte>, rest: seq<byte>)
    requires Ready(m, st) && |pad| == PadLen(m, |packet|) && |packet| <= MAX_PACKET
    ensures var w := Wire(m, st, seqNum, packet, pad);
            var (r, st') := ReadOne(m, st, seqNum, w + rest);
            && (r == Packet(packet, |w|) <==> Fits(m, |packet|))
            && (Fits(m, |packet|) ==> st' == Advance(m, st, packet, pad))
  {
    match m
    case Stream(ks, mac, min) =>
      StreamRoundTrip(ks, mac, st.pos, seqNum, min, packet, pad, rest);
      StreamSize(ks, mac, st.pos, seqNum, packet, pad);
    case Gcm(box) => GcmRoundTrip(box, st.iv, packet, pad, rest);
    case Cbc(bc, mac) => CbcRoundTrip(bc, mac, st.iv, seqNum, packet, pad, rest);
    case ChaPoly(keys) => ChaChaRoundTrip(keys, seqNum, packet, pad, rest);
  }

  lemma {:induction false} StreamSize(ks: nat -> byte, mac: Mac, pos: nat, seqNum: nat, packet: seq<byte>, pad: seq<byte>)
    requires mac.Valid() && |pad| < 256
    ensures |StreamWire(ks, mac, pos, seqNum, packet, pad)| == 5 + |packet| + |pad| + mac.Size()
    ensures StreamConsumed(mac, 5 + |packet| + |pad| + mac.Size()) == StreamAdvance(mac, |packet|, |pad|)
  {
  }

  /** AES-GCM, and a stream without a MAC, read a packet back whatever number either side has. */
  lemma {:induction false} NumberIgnored(m: Mode, st: State, written: nat, expected: nat, packet: seq<byte>, pad: seq<byte>, rest: seq<byte>)
    requires Ready(m, st) && (m.Gcm? || (m.Stream? && m.mac.NoMac?))
    requires |pad| == PadLen(m, |packet|) && |packet| <= MAX_PACKET && Fits(m, |packet|)
    ensures ReadOne(m, st, expected, Wire(m, st, written, packet, pad) + rest) ==
            (Packet(packet, |Wire(m, st, written, packet, pad)|), Advance(m, st, packet, pad))
  {
    assert Wire(m, st, written, packet, pad) == Wire(m, st, expected, packet, pad);
    OnePacket(m, st, expected, packet, pad, rest);
  }

  // ---------------------------------------------------------------- whole transcripts

  datatype Framed = Framed(packet: seq<byte>, pad: seq<byte>)

  /** A writer and a reader of single packets, whatever the mode. */
  datatype Link = Link(
    wire: (State, nat, Framed) -> seq<byte>,
    advance: (State, Framed) -> State,
    read: (State, nat, seq<byte>) -> (Read, State))

  /** The bytes of a run of packets; sequence numbers wrap at 2^32. */
  ghost function WireAll(l: Link, st: State, seqNum: nat, fs: seq<Framed>): (w: seq<byte>)
    decreases |fs|
  {
    if fs == [] then []
    else l.wire(st, seqNum, fs[0]) + WireAll(l, l.advance(st, fs[0]), (seqNum + 1) % B32, fs[1..])
  }

  /** The payloads read from the bytes until reading k packets or a failure. */
  ghost function ReadAll(l: Link, st: State, seqNum: nat, input: seq<byte>, k: nat): (ps: seq<seq<byte>>)
    decreases k
  {
    if k == 0 then []
    else
      var (r, st') := l.read(st, seqNum, input);
      if r.Fail? || r.consumed > |input| then []
      else [r.payload] + ReadAll(l, st', (seqNum + 1) % B32, input[r.consumed..], k - 1)
  }

  ghost function Payloads(fs: seq<Framed>): (ps: seq<seq<byte>>)
  {
    if fs == [] then [] else [fs[0].packet] + Payloads(fs[1..])
  }

  /** Packet by packet, the reader undoes the writer and follows its state. */
  ghost predicate Inverse(l: Link, ready: State -> bool, sendable: Framed -> bool)
  {
    forall st, n, f, tail {:trigger l.read(st, n, l.wire(st, n, f) + tail)} :: ready(st) && sendable(f) ==>
      l.read(st, n, l.wire(st, n, f) + tail) == (Packet(f.packet, |l.wire(st, n, f)|), l.advance(st, f)) && ready(l.advance(st, f))
  }

  lemma {:induction false} ReadFirst(l: Link, ready: State -> bool, sendable: Framed -> bool, st: State, seqNum: nat, f: Framed,
                                     tail: seq<byte>, k: nat)
    requires Inverse(l, ready, sendable) && ready(st) && sendable(f)
    ensures ReadAll(l, st, seqNum, l.wire(st, seqNum, f) + tail, k + 1) ==
            [f.packet] + ReadAll(l, l.advance(st, f), (seqNum + 1) % B32, tail, k)
    ensures ready(l.advance(st, f))
  {
    var w := l.wire(st, seqNum, f);
    assert l.read(st, seqNum, w + tail) == (Packet(f.packet, |w|), l.advance(st, f));
    assert (w + tail)[|w|..] == tail;
  }

  lemma {:induction false} AllRead(l: Link, ready: State -> bool, sendable: Framed -> bool, st: State, seqNum: nat,
                                   fs: seq<Framed>, rest: seq<byte>)
    requires Inverse(l, ready, sendable) && ready(st) && forall i :: 0 <= i < |fs| ==> sendable(fs[i])
    ensures ReadAll(l, st, seqNum, WireAll(l, st, seqNum, fs) + rest, |fs|) == Payloads(fs)
    decreases |fs|
  {
    if fs != [] {
      var f, st', seq' := fs[0], l.advance(st, fs[0]), (seqNum + 1) % B32;
      var w, tail := l.wire(st, seqNum, f), WireAll(l, st', seq', fs[1..]);
      assert w + tail + rest == w + (tail + rest);
      ReadFirst(l, ready, sendable, st, seqNum, f, tail + rest, |fs| - 1);
      AllRead(l, ready, sendable, st', seq', fs[1..], rest);
    }
  }

  /** What WriteCipherPacket accepts and the reader's bound admits, with the padding the mode asks for. */
  predicate Sendable(m: Mode, f: Framed)
    requires m.Cbc? ==> m.bc.size == 8 || m.bc.size == 16
  {
    |f.packet| <= MAX_PACKET && Fits(m, |f.packet|) && |f.pad| == PadLen(m, |f.packet|)
  }

  ghost function LinkOf(m: Mode): (l: Link)
    requires m.Valid()
  {
    Link((st: State, n: nat, f: Framed) => if Ready(m, st) && Sendable(m, f) then Wire(m, st, n, f.packet, f.pad) else [],
         (st: State, f: Framed) => if Ready(m, st) && Sendable(m, f) then Advance(m, st, f.packet, f.pad) else st,
         (st: State, n: nat, input: seq<byte>) => if Ready(m, st) then ReadOne(m, st, n, input) else (Fail(Eof, 0), st))
  }

  lemma {:induction false} ModeInverse(m: Mode)
    requires m.Valid()
    ensures Inverse(LinkOf(m), st => Ready(m, st), f => Sendable(m, f))
  {
    var l := LinkOf(m);
    forall st, n, f, tail | Ready(m, st) && Sendable(m, f)
      ensures l.read(st, n, l.wire(st, n, f) + tail) == (Packet(f.packet, |l.wire(st, n, f)|), l.advance(st, f))
      ensures Ready(m, l.advance(st, f))
    {
      OnePacket(m, st, n, f.packet, f.pad, tail);
    }
  }

  /** Every run of sendable packets is read back, payload by payload, whatever bytes follow. */
  lemma {:induction false} Transcript(m: Mode, st: State, seqNum: nat, fs: seq<Framed>, rest: seq<byte>)
    requires Ready(m, st) && forall i :: 0 <= i < |fs| ==> Sendable(m, fs[i])
    ensures ReadAll(LinkOf(m), st, seqNum, WireAll(LinkOf(m), st, seqNum, fs) + rest, |fs|) == Payloads(fs)
  {
    ModeInverse(m);
    AllRead(LinkOf(m), st => Ready(m, st), f => Sendable(m, f), st, seqNum, fs, rest);
  }

  // ---------------------------------------------------------------- the stream cipher object

  /** streamPacketCipher: the only state that outlives a packet is the keystream position. */
  class StreamPacketCipher {
    const ks: nat -> byte
    const mac: Mac
    const minPadding: bool
    var pos: nat

    constructor (ks: nat -> byte, mac: Mac, minPadding: bool)
      ensures this.ks == ks && this.mac == mac && this.minPadding == minPadding && pos == 0
    {
      this.ks, this.mac, this.minPadding, this.pos := ks, mac, minPadding, 0;
    }

    method XorKeyStream(s: seq<byte>) returns (t: seq<byte>)
      modifies this
      ensures t == XorStream(ks, old(pos), s) && pos == old(pos) + |s|
    {
      t := XorStream(ks, pos, s);
      pos := pos + |s|;
    }

    /** Encrypt-then-MAC: the length stays clear and the MAC sees the ciphertext. */
    method EtmFrame(seqNum: nat, packet: seq<byte>, padding: seq<byte>, prefix: seq<byte>) returns (out: seq<byte>)
      requires mac.Etm() && |padding| < 256 && prefix == U32(|packet| + 1 + |padding|) + [|padding|]
      modifies this
      ensures out == StreamWire(ks, mac, old(pos), seqNum, packet, padding)
      ensures pos == old(pos) + StreamAdvance(mac, |packet|, |padding|)
    {
      assert prefix[..4] == U32(|packet| + 1 + |padding|) && prefix[4..5] == [|padding|];
      var macInput := U32(seqNum);
      var e := XorKeyStream(prefix[4..5]);
      var encPrefix := prefix[..4] + e;
      macInput := macInput + encPrefix;
      var encPacket := XorKeyStream(packet);
      var encPadding := XorKeyStream(padding);
      macInput := macInput + encPacket + encPadding;
      EtmPieces(ks, mac, old(pos), seqNum, packet, padding, encPrefix, encPacket, encPadding, macInput);
      return encPrefix + encPacket + encPadding + mac.Tag(macInput);
    }

    /** MAC-then-encrypt, or no MAC at all: the MAC sees the plaintext and everything is encrypted. */
    method PlainFrame(seqNum: nat, packet: seq<byte>, padding: seq<byte>, prefix: seq<byte>) returns (out: seq<byte>)
      requires !mac.Etm() && |padding| < 256 && prefix == U32(|packet| + 1 + |padding|) + [|padding|]
      modifies this
      ensures out == StreamWire(ks, mac, old(pos), seqNum, packet, padding)
      ensures pos == old(pos) + StreamAdvance(mac, |packet|, |padding|)
    {
      var macInput: seq<byte> := [];
      if mac.Mac? {
        macInput := U32(seqNum) + prefix + packet + padding;
      }
      var encPrefix := XorKeyStream(prefix);
      var encPacket := XorKeyStream(packet);
      var encPadding := XorKeyStream(padding);
      PlainPieces(ks, mac, old(pos), seqNum, packet, padding, prefix, encPrefix, encPacket, encPadding, macInput);
      return encPrefix + encPacket + encPadding + mac.Tag(macInput);
    }

    /** The frame is built piece by piece; EtM and MAC-then-encrypt differ in when the MAC sees which bytes. */
    method WriteCipherPacket(seqNum: nat, packet: seq<byte>, padding: seq<byte>) returns (ok: bool, out: seq<byte>)
      requires |padding| == StreamPadding(mac, |packet|)
      modifies this
      ensures ok <==> |packet| <= MAX_PACKET
      ensures ok ==> out == StreamWire(ks, mac, old(pos), seqNum, packet, padding)
      ensures pos == old(pos) + (if ok then StreamAdvance(mac, |packet|, |padding|) else 0)
    {
      if |packet| > MAX_PACKET {
        return false, [];
      }
      var length := |packet| + 1 + |padding|;
      var prefix := U32(length) + [|padding|];
      if mac.Etm() {
        out := EtmFrame(seqNum, packet, padding, prefix);
      } else {
        out := PlainFrame(seqNum, packet, padding, prefix);
      }
      ok := true;
    }
  }

  lemma {:induction false} XorThree(ks: nat -> byte, pos: nat, a: seq<byte>, b: seq<byte>, c: seq<byte>)
    ensures XorStream(ks, pos, a + b + c)
         == XorStream(ks, pos, a) + XorStream(ks, pos + |a|, b) + XorStream(ks, pos + |a| + |b|, c)
  {
    XorStreamConcat(ks, pos, a, b);
    XorStreamConcat(ks, pos, a + b, c);
  }

  /** Encrypting prefix, packet and padding one after the other is encrypting the frame. */
  lemma {:induction false} EtmPieces(ks: nat -> byte, mac: Mac, pos: nat, seqNum: nat, packet: seq<byte>, pad: seq<byte>,
                  prefix: seq<byte>, p: seq<byte>, q: seq<byte>, macInput: seq<byte>)
    requires |pad| < 256 && mac.Etm()
    requires prefix == U32(|packet| + 1 + |pad|) + XorStream(ks, pos, [|pad|])
    requires p == XorStream(ks, pos + 1, packet) && q == XorStream(ks, pos + 1 + |packet|, pad)
    requires macInput == U32(seqNum) + prefix + p + q
    ensures StreamWire(ks, mac, pos, seqNum, packet, pad) == prefix + p + q + mac.Tag(macInput)
  {
    var length, e := U32(|packet| + 1 + |pad|), XorStream(ks, pos, [|pad|]);
    XorThree(ks, pos, [|pad|], packet, pad);
    var enc := XorStream(ks, pos, [|pad|] + packet + pad);
    assert enc == e + p + q;
    Regroup(U32(seqNum), length, e, p, q);
  }

  lemma {:induction false} Regroup(s: seq<byte>, l: seq<byte>, e: seq<byte>, p: seq<byte>, q: seq<byte>)
    ensures l + (e + p + q) == l + e + p + q
    ensures s + l + (e + p + q) == s + (l + e) + p + q
  {
  }

  lemma {:induction false} PlainPieces(ks: nat -> byte, mac: Mac, pos: nat, seqNum: nat, packet: seq<byte>, pad: seq<byte>,
                    head: seq<byte>, prefix: seq<byte>, p: seq<byte>, q: seq<byte>, macInput: seq<byte>)
    requires |pad| < 256 && !mac.Etm() && head == U32(|packet| + 1 + |pad|) + [|pad|] && prefix == XorStream(ks, pos, head)
    requires p == XorStream(ks, pos + |head|, packet) && q == XorStream(ks, pos + |head| + |packet|, pad)
    requires mac.Mac? ==> macInput == U32(seqNum) + head + packet + pad
    ensures StreamWire(ks, mac, pos, seqNum, packet, pad) == prefix + p + q + mac.Tag(macInput)
  {
    var length := U32(|packet| + 1 + |pad|);
    XorThree(ks, pos, head, packet, pad);
    Regroup(U32(seqNum), length, [|pad|], packet, pad);
    assert length + ([|pad|] + packet + pad) == head + packet + pad;
  }
}
