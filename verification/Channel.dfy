/**
 One SSH channel (third/ssh/channel.go, the window of third/ssh/common.go): data packets, the
 receiver's window accounting, the sender's window and the write loop.
 */
module Channel {
  import opened Bytes

  const MAX_PACKET: nat := 32768
  const WINDOW: nat := 2097152
  const MSG_DATA: byte := 94
  const MSG_EXTENDED: byte := 95

  // ---------------------------------------------------------------- the sender's window

  /** window: how many bytes the peer still allows; a 32-bit number. */
  class Window {
    var win: nat
    var closed: bool

    constructor ()
      ensures win == 0 && !closed
    {
      win, closed := 0, false;
    }

    /** add refuses exactly the updates that would pass 2^32 - 1, and then changes nothing. */
    method Add(n: nat) returns (ok: bool)
      requires win < B32 && n < B32
      modifies this`win
      ensures ok <==> old(win) + n < B32
      ensures win == (if ok then old(win) + n else old(win)) && win < B32
    {
      if n == 0 {
        return true;
      }
      var sum := (win + n) % B32;
      Wraps(win, n);
      if sum < n {
        return false;
      }
      win := sum;
      return true;
    }

    method Close()
      modifies this`closed
      ensures closed
    {
      closed := true;
    }

    /** reserve, after its wait has ended: at most n bytes, nothing lost, EOF once closed. */
    method Reserve(n: nat) returns (k: nat, eof: bool)
      requires win > 0 || closed
      modifies this`win
      ensures k == (if old(win) < n then old(win) else n) && win + k == old(win)
      ensures eof == closed
      ensures n > 0 && !closed ==> k > 0
    {
      k := n;
      if win < k {
        k := win;
      }
      win := win - k;
      eof := closed;
    }
  }

  /** 32-bit addition wraps below either operand exactly when it overflows. */
  lemma {:induction false} Wraps(a: nat, b: nat)
    requires a < B32 && b < B32
    ensures (a + b) % B32 < b <==> a + b >= B32
    ensures a + b < B32 ==> (a + b) % B32 == a + b
  {
    if a + b < B32 {
      DivModUnique(a + b, B32, 0, a + b);
    } else {
      DivModUnique(a + b, B32, 1, a + b - B32);
    }
  }

  // ---------------------------------------------------------------- data packets

  /** What WriteExtended builds: message type, channel, the stream code unless it is zero, length, payload. */
  function DataPacket(remoteId: nat, code: nat, payload: seq<byte>): (p: seq<byte>)
  {
    if code > 0 then [MSG_EXTENDED] + U32(remoteId) + U32(code) + U32(|payload|) + payload
    else [MSG_DATA] + U32(remoteId) + U32(|payload|) + payload
  }

  datatype Parsed = Data(code: nat, payload: seq<byte>) | Empty | Malformed | TooLarge | WrongLength

  /** The front half of handleData: what the packet says before the window is looked at. */
  function ParseData(packet: seq<byte>, maxPayload: nat): (r: Parsed)
    requires |packet| > 0
  {
    var extended := packet[0] == MSG_EXTENDED;
    var header := if extended then 13 else 9;
    if |packet| < header then Malformed
    else
      var code := if extended then BE(packet[5..9]) else 0;
      var length := BE(packet[header - 4..header]);
      if length == 0 then Empty
      else if length > maxPayload then TooLarge
      else if length != |packet[header..]| % B32 then WrongLength
      else Data(code, packet[header..])
  }

  /** A packet built by the writer says to the reader what the writer meant. */
  lemma {:induction false} ParsePacket(remoteId: nat, code: nat, payload: seq<byte>)
    requires code < B32 && 1 <= |payload| <= MAX_PACKET
    ensures ParseData(DataPacket(remoteId, code, payload), MAX_PACKET) == Data(code, payload)
  {
    var p := DataPacket(remoteId, code, payload);
    DivModUnique(|payload|, B32, 0, |payload|);
    DivModUnique(code, B32, 0, code);
    if code > 0 {
      assert p[5..9] == U32(code) && p[9..13] == U32(|payload|) && p[13..] == payload;
    } else {
      assert p[5..9] == U32(|payload|) && p[9..] == payload;
    }
  }

  // ---------------------------------------------------------------- the receiver

  datatype Stream = Stream(unread: seq<byte>, closed: bool)

  datatype Receiver = Receiver(myWindow: nat, myConsumed: nat, pending: Stream, ext: Stream)

  datatype Status = Accepted | Refused | WroteTooMuch

  /**
   The back half of handleData: charge the window and store the payload. The last component is the
   number of bytes of a stream nobody can read, whose window is to be credited at once.
   */
  function Deliver(r: Receiver, code: nat, payload: seq<byte>): (x: (Status, Receiver, nat))
  {
    if r.myWindow < |payload| then (WroteTooMuch, r, 0)
    else
      var r' := r.(myWindow := r.myWindow - |payload|);
      if code == 1 then (Accepted, r'.(ext := r.ext.(unread := r.ext.unread + payload)), 0)
      else if code > 0 then (Accepted, r', |payload|)
      else (Accepted, r'.(pending := r.pending.(unread := r.pending.unread + payload)), 0)
  }

  /** handleData on a raw packet. */
  function HandleData(r: Receiver, packet: seq<byte>): (x: (Status, Receiver, nat))
    requires |packet| > 0
  {
    match ParseData(packet, MAX_PACKET)
    case Empty => (Accepted, r, 0)
    case Data(code, payload) => Deliver(r, code, payload)
    case _ => (Refused, r, 0)
  }

  /** adjustWindow: credit n bytes; the second component is the adjustment to announce, zero for none. */
  function AdjustWindow(r: Receiver, n: nat): (x: (Receiver, nat))
  {
    var consumed := r.myConsumed + n;
    if WINDOW - r.myWindow > 3 * MAX_PACKET || r.myWindow < WINDOW / 2
    then (r.(myConsumed := 0, myWindow := r.myWindow + consumed), consumed)
    else (r.(myConsumed := consumed), 0)
  }

  /** The channel object's receiving half. */
  class ReceiverObject {
    var myWindow: nat
    var myConsumed: nat
    var pending: Stream
    var extPending: Stream

    function View(): (r: Receiver)
      reads this
    {
      Receiver(myWindow, myConsumed, pending, extPending)
    }

    constructor ()
      ensures View() == Receiver(WINDOW, 0, Stream([], false), Stream([], false))
    {
      myWindow, myConsumed := WINDOW, 0;
      pending, extPending := Stream([], false), Stream([], false);
    }

    method Handle(packet: seq<byte>) returns (status: Status, credit: nat)
      requires |packet| > 0
      modifies this
      ensures (status, View(), credit) == HandleData(old(View()), packet)
    {
      credit := 0;
      var parsed := ParseData(packet, MAX_PACKET);
      if parsed.Empty? {
        return Accepted, 0;
      }
      if !parsed.Data? {
        return Refused, 0;
      }
      var payload := parsed.payload;
      if myWindow < |payload| {
        return WroteTooMuch, 0;
      }
      myWindow := myWindow - |payload|;
      if parsed.code == 1 {
        extPending := extPending.(unread := extPending.unread + payload);
      } else if parsed.code > 0 {
        credit := |payload|;
      } else {
        pending := pending.(unread := pending.unread + payload);
      }
      status := Accepted;
    }

    /** The 32-bit arithmetic of adjustWindow never wraps: window, consumed and n stay within WINDOW together. */
    method Adjust(n: nat) returns (sendAdj: nat)
      requires myWindow + myConsumed + n <= WINDOW
      modifies this`myWindow, this`myConsumed
      ensures (View(), sendAdj) == AdjustWindow(old(View()), n)
      ensures myWindow + myConsumed == old(myWindow + myConsumed) + n
    {
      Fits32(myConsumed + n);
      myConsumed := (myConsumed + n) % B32;
      sendAdj := 0;
      Fits32(WINDOW - myWindow);
      if (WINDOW - myWindow) % B32 > 3 * MAX_PACKET || myWindow < WINDOW / 2 {
        sendAdj := myConsumed;
        myConsumed := 0;
        Fits32(myWindow + sendAdj);
        myWindow := (myWindow + sendAdj) % B32;
      }
    }
  }

  lemma {:induction false} Fits32(n: nat)
    requires n <= WINDOW
    ensures n % B32 == n
  {
    DivModUnique(n, B32, 0, n);
  }

  // ---------------------------------------------------------------- the write loop

  /** What the environment does to one round of WriteExtended: window found after waiting, and the packet write. */
  datatype Round = Round(available: nat, windowClosed: bool, writeOk: bool)

  function MinPayload(limit: nat, length: nat): (n: nat)
    requires limit < B32
    ensures n <= limit && n <= length && n < B32 && (limit > 0 && length > 0 ==> n > 0)
  {
    if length > limit then limit else length
  }

  predicate Passes(round: Round)
  {
    !round.windowClosed && round.writeOk
  }

  /** The size of the next chunk: what the limit, the rest of the data and the window allow. */
  function ChunkSize(limit: nat, left: nat, round: Round): (n: nat)
    requires limit < B32
    ensures n <= left && n <= limit
  {
    var space := MinPayload(limit, left);
    if round.available < space then round.available else space
  }

  /** How much of total bytes the first k rounds send. */
  function Sent(limit: nat, total: nat, rounds: seq<Round>, k: nat): (n: nat)
    requires limit < B32 && k <= |rounds|
    ensures n <= total
  {
    if k == 0 then 0
    else
      var n := Sent(limit, total, rounds, k - 1);
      n + ChunkSize(limit, total - n, rounds[k - 1])
  }

  /** Round k passes and its packet carries the next chunk of the data, which is not empty. */
  ghost predicate Carries(packet: seq<byte>, remoteId: nat, code: nat, data: seq<byte>, limit: nat, rounds: seq<Round>, k: nat)
    requires limit < B32 && code < B32
  {
    && k < |rounds| && Passes(rounds[k])
    && Sent(limit, |data|, rounds, k) < Sent(limit, |data|, rounds, k + 1)
    && packet == DataPacket(remoteId, code, data[Sent(limit, |data|, rounds, k)..Sent(limit, |data|, rounds, k + 1)])
  }

  ghost predicate AllCarried(packets: seq<seq<byte>>, remoteId: nat, code: nat, data: seq<byte>, limit: nat, rounds: seq<Round>)
    requires limit < B32 && code < B32
  {
    forall k :: 0 <= k < |packets| ==> Carries(packets[k], remoteId, code, data, limit, rounds, k)
  }

  /** After every wait there is window, or the channel was closed. */
  predicate Waited(rounds: seq<Round>)
  {
    forall i :: 0 <= i < |rounds| ==> rounds[i].available > 0 || rounds[i].windowClosed
  }

  lemma {:induction false} NextChunk(packets: seq<seq<byte>>, remoteId: nat, code: nat, data: seq<byte>, limit: nat, rounds: seq<Round>,
                                     rest: seq<byte>, space: nat, packet: seq<byte>)
    requires 0 < limit < B32 && code < B32 && |packets| < |rounds| && Passes(rounds[|packets|]) && Waited(rounds)
    requires AllCarried(packets, remoteId, code, data, limit, rounds)
    requires rest == data[Sent(limit, |data|, rounds, |packets|)..] && rest != []
    requires space == ChunkSize(limit, |rest|, rounds[|packets|]) && packet == DataPacket(remoteId, code, rest[..space])
    ensures 0 < space && AllCarried(packets + [packet], remoteId, code, data, limit, rounds)
    ensures Sent(limit, |data|, rounds, |packets| + 1) == Sent(limit, |data|, rounds, |packets|) + space
    ensures rest[space..] == data[Sent(limit, |data|, rounds, |packets| + 1)..]
  {
    var n := Sent(limit, |data|, rounds, |packets|);
    assert rest[..space] == data[n..n + space];
    assert Carries(packet, remoteId, code, data, limit, rounds, |packets|);
  }

  /**
   WriteExtended: packet after packet carries the next chunk of the data, as large as limit and window
   allow, and n is exactly the number of bytes they carry. It fails exactly when a round fails before
   all is sent; the loop ends because every round without error sends at least one byte.
   */
  method WriteExtended(data: seq<byte>, code: nat, remoteId: nat, limit: nat, sentEOF: bool, rounds: seq<Round>)
    returns (n: nat, err: bool, packets: seq<seq<byte>>)
    requires 9 <= limit <= 0x8000_0000 && code < B32
    requires |rounds| >= |data|
    requires Waited(rounds)
    ensures |packets| <= |rounds| && n == Sent(limit, |data|, rounds, |packets|)
    ensures AllCarried(packets, remoteId, code, data, limit, rounds)
    ensures sentEOF ==> n == 0 && err && packets == []
    ensures !sentEOF ==> (err <==> n < |data|)
    ensures !sentEOF && err ==> |packets| < |rounds| && !Passes(rounds[|packets|])
  {
    n, err, packets := 0, false, [];
    if sentEOF {
      return 0, true, [];
    }
    var rest := data;
    while |rest| > 0
      invariant n <= |data| && rest == data[n..] && !err
      invariant |packets| <= n == Sent(limit, |data|, rounds, |packets|)
      invariant AllCarried(packets, remoteId, code, data, limit, rounds)
      decreases |rest|
    {
      var round := rounds[|packets|];
      var space := MinPayload(limit, |rest|);
      if round.available < space {
        space := round.available;
      }
      if round.windowClosed {
        return n, true, packets;
      }
      var todo := rest[..space];
      var packet := DataPacket(remoteId, code, todo);
      if !round.writeOk {
        return n, true, packets;
      }
      NextChunk(packets, remoteId, code, data, limit, rounds, rest, space, packet);
      packets, n, rest := packets + [packet], n + |todo|, rest[|todo|..];
    }
  }
}
