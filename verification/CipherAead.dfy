/** The two AEAD modes of third/ssh/cipher.go: AES-GCM and chacha20-poly1305@openssh.com. */
module CipherAead {
  import opened Bytes
  import opened Mpint
  import opened Cipher
  import Poly1305

  const GCM_TAG: nat := 16

  // ---------------------------------------------------------------- the invocation counter

  /** The 12-byte IV with its last eight bytes, read as a number, increased by one modulo 2^64. */
  function NextIV(iv: seq<byte>): (r: seq<byte>)
    requires |iv| == 12
    ensures |r| == 12 && r[..4] == iv[..4]
    ensures BE(r[4..]) == (BE(iv[4..]) + 1) % B64
  {
    Pow256Values();
    var t := ToBE(BE(iv[4..]) + 1, 8);
    assert (iv[..4] + t)[4..] == t;
    iv[..4] + t
  }

  lemma {:induction false} AllOnes(s: seq<byte>)
    requires forall i :: 0 <= i < |s| ==> s[i] == 255
    ensures BE(s) == Pow256(|s|) - 1
  {
    if s != [] {
      AllOnes(s[..|s| - 1]);
    }
  }

  lemma {:induction false} AllZero(s: seq<byte>)
    requires forall i :: 0 <= i < |s| ==> s[i] == 0
    ensures BE(s) == 0
  {
    if s != [] {
      AllZero(s[..|s| - 1]);
    }
  }

  /** A carry that stops at byte i. */
  lemma {:induction false} CarryStops(was: seq<byte>, now: seq<byte>, i: nat)
    requires |was| == |now| && i < |was|
    requires now[..i] == was[..i] && was[i] < 255 && now[i] == was[i] + 1
    requires forall k :: i < k < |was| ==> was[k] == 255 && now[k] == 0
    ensures BE(now) == BE(was) + 1
  {
    var a, t, u := was[..i], was[i + 1..], now[i + 1..];
    assert was == a + [was[i]] + t && now == a + [now[i]] + u;
    AllOnes(t);
    AllZero(u);
    BEConcat(a + [was[i]], t);
    BEConcat(a + [now[i]], u);
    assert (a + [was[i]])[..i] == a && (a + [now[i]])[..i] == a;
    Next(BE(a + [was[i]]), Pow256(|t|));
  }

  lemma {:induction false} Next(x: nat, p: nat)
    ensures (x + 1) * p == x * p + p
  {
  }

  /** incIV: the in-place carry loop over bytes 11 down to 4. */
  method IncIV(iv: array<byte>)
    requires iv.Length == 12
    modifies iv
    ensures iv[..] == NextIV(old(iv[..]))
  {
    ghost var was := iv[..];
    Pow256Values();
    var i := 11;
    while i >= 4
      invariant 3 <= i <= 11
      invariant forall k :: 0 <= k <= i ==> iv[k] == was[k]
      invariant forall k :: i < k < 12 ==> was[k] == 255 && iv[k] == 0
    {
      var b: int := iv[i];
      iv[i] := (b + 1) % 256;
      if iv[i] != 0 {
        assert forall k :: 0 <= k < i ==> iv[k] == was[k];
        assert iv[4..][..i - 4] == was[4..][..i - 4];
        CarryStops(was[4..], iv[4..], i - 4);
        Landed(was, iv[..]);
        return;
      }
      i := i - 1;
    }
    AllOnes(was[4..]);
    AllZero(iv[4..]);
    Landed(was, iv[..]);
  }

  lemma {:induction false} Landed(was: seq<byte>, now: seq<byte>)
    requires |was| == |now| == 12 && now[..4] == was[..4]
    requires BE(now[4..]) == BE(was[4..]) + 1 || (BE(was[4..]) == B64 - 1 && BE(now[4..]) == 0)
    ensures now == NextIV(was)
  {
    Pow256Values();
    BEBound(now[4..]);
    var v := BE(was[4..]) + 1;
    if BE(now[4..]) == v {
      DivModUnique(v, B64, 0, v);
    } else {
      DivModUnique(v, B64, 1, 0);
    }
    var r := NextIV(was);
    BEInjective(now[4..], r[4..]);
    assert now == now[..4] + now[4..] && r == r[..4] + r[4..];
  }

  // ---------------------------------------------------------------- a sealed box

  /** An AEAD: a keystream selected by the nonce, and a tag over nonce, associated data and ciphertext. */
  datatype Box = Box(ks: (seq<byte>, nat) -> byte, tag: (seq<byte>, seq<byte>, seq<byte>) -> seq<byte>)
  {
    ghost predicate Valid() { forall iv, a, c :: |tag(iv, a, c)| == GCM_TAG }

    function Seal(iv: seq<byte>, plain: seq<byte>, aad: seq<byte>): (s: seq<byte>)
    {
      var c := XorStream(p => ks(iv, p), 0, plain);
      c + tag(iv, aad, c)
    }

    function Open(iv: seq<byte>, sealed: seq<byte>, aad: seq<byte>): (p: Option<seq<byte>>)
    {
      if |sealed| < GCM_TAG then None
      else
        var n := |sealed| - GCM_TAG;
        if tag(iv, aad, sealed[..n]) != sealed[n..] then None
        else Some(XorStream(p => ks(iv, p), 0, sealed[..n]))
    }

    lemma {:induction false} OpenSeal(iv: seq<byte>, plain: seq<byte>, aad: seq<byte>)
      requires Valid()
      ensures |Seal(iv, plain, aad)| == |plain| + GCM_TAG
      ensures Open(iv, Seal(iv, plain, aad), aad) == Some(plain)
    {
      var c := XorStream(p => ks(iv, p), 0, plain);
      var s := Seal(iv, plain, aad);
      assert s[..|plain|] == c && s[|plain|..] == tag(iv, aad, c);
      XorStreamCancels(p => ks(iv, p), 0, plain);
    }
  }

  // ---------------------------------------------------------------- AES-GCM

  /** Removing the padding length byte and the padding of an authenticated plaintext. */
  function Unpad(plain: seq<byte>, consumed: nat): (r: Read)
  {
    if |plain| < 5 then Fail(TooSmall, consumed)
    else
      var padLen: nat := plain[0];
      if padLen < 4 then Fail(BadPadding, consumed)
      else if padLen + 1 >= |plain| then Fail(BadPadding, consumed)
      else Packet(plain[1..|plain| - padLen], consumed)
  }

  lemma {:induction false} UnpadPadded(packet: seq<byte>, pad: seq<byte>, consumed: nat)
    requires 4 <= |pad| < 256
    ensures Unpad([|pad|] + packet + pad, consumed) == Packet(packet, consumed) <==> 1 <= |packet|
    ensures packet == [] ==> Unpad([|pad|] + packet + pad, consumed) == Fail(BadPadding, consumed)
  {
    var plain := [|pad|] + packet + pad;
    assert plain[1..|plain| - |pad|] == packet;
  }

  function GcmWire(g: Box, iv: seq<byte>, packet: seq<byte>, pad: seq<byte>): (w: seq<byte>)
    requires |pad| < 256
  {
    var length := U32(|packet| + |pad| + 1);
    length + g.Seal(iv, [|pad|] + packet + pad, length)
  }

  function GcmRead(g: Box, iv: seq<byte>, input: seq<byte>): (r: Read)
  {
    if |input| < 4 then Fail(Eof, |input|)
    else
      var length := BE(input[..4]);
      if length > MAX_PACKET then Fail(TooLarge, 4)
      else if |input| < 4 + length + GCM_TAG then Fail(Eof, |input|)
      else
        match g.Open(iv, input[4..4 + length + GCM_TAG], input[..4])
        case None => Fail(MacFailure, 4 + length + GCM_TAG)
        case Some(plain) => Unpad(plain, 4 + length + GCM_TAG)
  }

  lemma {:induction false} GcmRoundTrip(g: Box, iv: seq<byte>, packet: seq<byte>, pad: seq<byte>, rest: seq<byte>)
    requires g.Valid() && |packet| + 20 < B32 && |pad| == Padding(1 + |packet|, 16)
    ensures var w := GcmWire(g, iv, packet, pad);
            GcmRead(g, iv, w + rest) == Packet(packet, |w|) <==> 1 <= |packet| && |packet| + |pad| + 1 <= MAX_PACKET
  {
    var n := |packet| + |pad| + 1;
    var plain := [|pad|] + packet + pad;
    var sealed := g.Seal(iv, plain, U32(n));
    g.OpenSeal(iv, plain, U32(n));
    U32Value(n);
    Parts(U32(n), sealed, rest, []);
    assert GcmWire(g, iv, packet, pad) + rest == U32(n) + sealed + rest + [];
    UnpadPadded(packet, pad, 4 + n + GCM_TAG);
  }

  // ---------------------------------------------------------------- chacha20-poly1305

  /** Keystreams of the length key and the content key, selected by the sequence number. */
  datatype ChaCha = ChaCha(length: (nat, nat) -> byte, content: (nat, nat) -> byte)
  {
    /** The keystream over 32 zero bytes; the 32 bytes after it are skipped. */
    function PolyKey(seqNum: nat): (k: seq<byte>)
      ensures |k| == 32
    {
      XorStream(p => content(seqNum, p), 0, seq(32, _ => 0))
    }
  }

  lemma {:induction false} TagLength(key: seq<byte>, msg: seq<byte>)
    requires |key| == 32
    ensures |Poly1305.Tag(key, msg)| == 16
  {
  }

  function ChaChaWire(c: ChaCha, seqNum: nat, payload: seq<byte>, pad: seq<byte>): (w: seq<byte>)
    requires |pad| < 256
  {
    var length := XorStream(p => c.length(seqNum, p), 0, U32(1 + |payload| + |pad|));
    var body := XorStream(p => c.content(seqNum, p), 64, [|pad|] + payload + pad);
    length + body + Poly1305.Tag(c.PolyKey(seqNum), length + body)
  }

  function ChaChaRead(c: ChaCha, seqNum: nat, input: seq<byte>): (r: Read)
  {
    if |input| < 4 then Fail(Eof, |input|)
    else
      var length := BE(XorStream(p => c.length(seqNum, p), 0, input[..4]));
      if length > MAX_PACKET then Fail(TooLarge, 4)
      else
        var end := 4 + length;
        if |input| < end + 16 then Fail(Eof, |input|)
        else if Poly1305.Tag(c.PolyKey(seqNum), input[..end]) != input[end..end + 16] then Fail(MacFailure, end + 16)
        else Unpad(XorStream(p => c.content(seqNum, p), 64, input[4..end]), end + 16)
  }

  lemma {:induction false} ChaChaRoundTrip(c: ChaCha, seqNum: nat, payload: seq<byte>, pad: seq<byte>, rest: seq<byte>)
    requires |payload| + 20 < B32 && |pad| == Padding(1 + |payload|, 8)
    ensures var w := ChaChaWire(c, seqNum, payload, pad);
            ChaChaRead(c, seqNum, w + rest) == Packet(payload, |w|) <==> 1 <= |payload| && 1 + |payload| + |pad| <= MAX_PACKET
  {
    var n := 1 + |payload| + |pad|;
    var plain := [|pad|] + payload + pad;
    var length := XorStream(p => c.length(seqNum, p), 0, U32(n));
    var body := XorStream(p => c.content(seqNum, p), 64, plain);
    var tag := Poly1305.Tag(c.PolyKey(seqNum), length + body);
    TagLength(c.PolyKey(seqNum), length + body);
    XorStreamCancels(p => c.length(seqNum, p), 0, U32(n));
    XorStreamCancels(p => c.content(seqNum, p), 64, plain);
    U32Value(n);
    Parts(length, body, tag, rest);
    assert ChaChaWire(c, seqNum, payload, pad) + rest == length + body + tag + rest;
    UnpadPadded(payload, pad, 4 + n + 16);
  }
}
