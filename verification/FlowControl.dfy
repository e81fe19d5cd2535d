/**
 Two endpoints of a channel in one direction (section 5.2 of RFC 4254) as a step system: writers,
 the window, packets in flight, the receiver, its readers, and window adjustments on their way back.
 Every interleaving of the steps is a run.
 */
module FlowControl {
  import opened Bytes
  import opened Channel

  /** A WriteExtended call in progress: `data` still to send, `reserved` bytes already taken from the window for it. */
  datatype Writer = Writer(data: seq<byte>, reserved: nat)

  datatype Packet = PData(code: nat, payload: seq<byte>) | PEof | PClose

  datatype Sys = Sys(
    win: nat,
    winClosed: bool,
    sentEOF: bool,
    sentClose: bool,
    writers: map<nat, Writer>, // at most one call per stream code
    wire: seq<Packet>,
    back: seq<nat>,            // window adjustments in flight, the opening grant first
    unsent: seq<nat>,          // adjustments computed by adjustWindow and not yet written
    recv: Receiver,
    uncredited: seq<nat>,      // bytes read (or discarded) whose adjustWindow has not run yet
    lost: nat,                 // credit given up by failed writes and by adjustments after a close
    offered: map<nat, seq<byte>>, // what callers handed over, less what a failed call reported as not written
    sent: map<nat, seq<byte>>,
    read0: seq<byte>,
    read1: seq<byte>)

  const Initial: Sys := Sys(0, false, false, false, map[], [], [WINDOW], [],
                            Receiver(WINDOW, 0, Stream([], false), Stream([], false)), [], 0, map[], map[], [], [])

  function Get(m: map<nat, seq<byte>>, code: nat): (s: seq<byte>)
  {
    if code in m then m[code] else []
  }

  function Remove<T>(s: seq<T>, i: nat): (r: seq<T>)
    requires i < |s|
  {
    s[..i] + s[i + 1..]
  }

  datatype Step =
    | StartWrite(code: nat, data: seq<byte>)
    | Reserve(code: nat)
    | Send(code: nat)
    | FailReserve(code: nat)
    | FailSend(code: nat)
    | Finish(code: nat)
    | CloseWrite
    | Close
    | CloseWindow
    | ReceivePacket
    | ReceiveAdjust
    | Read(stream: nat, size: nat)
    | Credit(i: nat)
    | SendAdjust(i: nat)
    | DropAdjust(i: nat)

  /** Bytes reserve hands out for this call. */
  function Take(s: Sys, w: Writer): (k: nat)
  {
    var space := MinPayload(MAX_PACKET, |w.data|);
    if s.win < space then s.win else space
  }

  /** When a step can happen. */
  predicate Enabled(s: Sys, step: Step)
  {
    match step
    case StartWrite(c, _) => !s.sentEOF && c < B32 && c !in s.writers
    case Reserve(c) => c in s.writers && s.writers[c].reserved == 0 && s.writers[c].data != [] && s.win > 0 && !s.winClosed
    case Send(c) => c in s.writers && 0 < s.writers[c].reserved <= |s.writers[c].data| && !s.sentClose
    case FailReserve(c) => c in s.writers && s.writers[c].reserved == 0 && s.writers[c].data != [] && s.winClosed
    case FailSend(c) => c in s.writers && s.writers[c].reserved > 0
    case Finish(c) => c in s.writers && s.writers[c].reserved == 0 && s.writers[c].data == []
    case CloseWrite => !s.sentClose
    case Close => !s.sentClose
    case CloseWindow => true
    case ReceivePacket => |s.wire| > 0
    case ReceiveAdjust => |s.back| > 0
    case Read(stream, size) => stream <= 1 && size > 0 && (if stream == 0 then s.recv.pending else s.recv.ext).unread != []
    case Credit(i) => i < |s.uncredited|
    case SendAdjust(i) => i < |s.unsent|
    case DropAdjust(i) => i < |s.unsent|
  }

  /** The receiver's handling of the packet at the front of the wire. */
  function Receive(s: Sys): (s': Sys)
    requires |s.wire| > 0
    ensures s'.writers == s.writers && s'.offered == s.offered && s'.sent == s.sent && s'.win == s.win
    ensures s'.back == s.back && s'.lost == s.lost && s'.wire == s.wire[1..] && s'.unsent == s.unsent
  {
    var rest := s.(wire := s.wire[1..]);
    match s.wire[0]
    case PData(code, payload) =>
      var (_, r, credit) := Deliver(s.recv, code, payload);
      rest.(recv := r, uncredited := if credit > 0 then s.uncredited + [credit] else s.uncredited)
    case _ =>
      rest.(recv := s.recv.(pending := s.recv.pending.(closed := true), ext := s.recv.ext.(closed := true)))
  }

  function ReadFrom(s: Sys, stream: nat, size: nat): (s': Sys)
    requires stream <= 1
    ensures s'.writers == s.writers && s'.offered == s.offered && s'.sent == s.sent && s'.win == s.win
    ensures s'.back == s.back && s'.lost == s.lost && s'.wire == s.wire && s'.unsent == s.unsent
  {
    var st := if stream == 0 then s.recv.pending else s.recv.ext;
    var k := if size < |st.unread| then size else |st.unread|;
    var data, st' := st.unread[..k], st.(unread := st.unread[k..]);
    if stream == 0
    then s.(recv := s.recv.(pending := st'), uncredited := s.uncredited + [k], read0 := s.read0 + data)
    else s.(recv := s.recv.(ext := st'), uncredited := s.uncredited + [k], read1 := s.read1 + data)
  }

  function CreditOne(s: Sys, i: nat): (s': Sys)
    requires i < |s.uncredited|
    ensures s'.writers == s.writers && s'.offered == s.offered && s'.sent == s.sent && s'.win == s.win
    ensures s'.back == s.back && s'.lost == s.lost && s'.wire == s.wire
  {
    var (r, adj) := AdjustWindow(s.recv, s.uncredited[i]);
    s.(recv := r, uncredited := Remove(s.uncredited, i), unsent := if adj > 0 then s.unsent + [adj] else s.unsent)
  }

  function SendOne(s: Sys, c: nat): (s': Sys)
    requires c in s.writers && s.writers[c].reserved <= |s.writers[c].data|
  {
    var w := s.writers[c];
    var chunk, rest := w.data[..w.reserved], w.data[w.reserved..];
    s.(writers := s.writers[c := Writer(rest, 0)],
       wire := s.wire + [PData(c, chunk)],
       sent := s.sent[c := Get(s.sent, c) + chunk])
  }

  function Next(s: Sys, step: Step): (s': Sys)
    requires Enabled(s, step)
  {
    match step
    case StartWrite(c, data) =>
      s.(writers := s.writers[c := Writer(data, 0)], offered := s.offered[c := Get(s.offered, c) + data])
    case Reserve(c) =>
      var k := Take(s, s.writers[c]);
      s.(win := s.win - k, writers := s.writers[c := s.writers[c].(reserved := k)])
    case Send(c) => SendOne(s, c)
    case FailReserve(c) =>
      var k := Take(s, s.writers[c]);
      s.(win := s.win - k, lost := s.lost + k, writers := s.writers - {c}, offered := s.offered[c := Get(s.sent, c)])
    case FailSend(c) =>
      s.(lost := s.lost + s.writers[c].reserved, writers := s.writers - {c}, offered := s.offered[c := Get(s.sent, c)])
    case Finish(c) => s.(writers := s.writers - {c})
    case CloseWrite => s.(sentEOF := true, wire := s.wire + [PEof])
    case Close => s.(sentClose := true, wire := s.wire + [PClose])
    case CloseWindow => s.(winClosed := true)
    case ReceivePacket => Receive(s)
    case ReceiveAdjust => s.(win := s.win + s.back[0], back := s.back[1..])
    case Read(stream, size) => ReadFrom(s, stream, size)
    case Credit(i) => CreditOne(s, i)
    case SendAdjust(i) => s.(back := s.back + [s.unsent[i]], unsent := Remove(s.unsent, i))
    case DropAdjust(i) => s.(lost := s.lost + s.unsent[i], unsent := Remove(s.unsent, i))
  }

  // ---------------------------------------------------------------- sums

  function Sum(s: seq<nat>): (n: nat)
  {
    if s == [] then 0 else s[0] + Sum(s[1..])
  }

  lemma {:induction false} SumConcat(s: seq<nat>, t: seq<nat>)
    ensures Sum(s + t) == Sum(s) + Sum(t)
  {
    if s == [] {
      assert s + t == t;
    } else {
      assert (s + t)[1..] == s[1..] + t;
      SumConcat(s[1..], t);
    }
  }

  lemma {:induction false} SumAppend(s: seq<nat>, x: nat)
    ensures Sum(s + [x]) == Sum(s) + x
  {
    SumConcat(s, [x]);
    assert [x][1..] == [];
    assert Sum([x]) == x;
  }

  lemma {:induction false} SumRemove(s: seq<nat>, i: nat)
    requires i < |s|
    ensures Sum(Remove(s, i)) == Sum(s) - s[i]
  {
    var a, b := s[..i], s[i + 1..];
    SumConcat(a, b);
    assert s == (a + [s[i]]) + b;
    SumConcat(a + [s[i]], b);
    SumAppend(a, s[i]);
  }

  ghost function Pick(ws: map<nat, Writer>): (c: nat)
    requires ws != map[]
    ensures c in ws
  {
    assert ws.Keys != {};
    var c :| c in ws;
    c
  }

  /** Bytes taken from the window by calls in progress and not sent yet. */
  ghost function Reserved(ws: map<nat, Writer>): (n: nat)
    decreases |ws|
  {
    if ws == map[] then 0 else var c := Pick(ws); ws[c].reserved + Reserved(ws - {c})
  }

  lemma {:induction false} ReservedRemove(ws: map<nat, Writer>, c: nat)
    requires c in ws
    ensures Reserved(ws) == ws[c].reserved + Reserved(ws - {c})
    decreases |ws|
  {
    var d := Pick(ws);
    if d != c {
      ReservedRemove(ws - {d}, c);
      ReservedRemove(ws - {c}, d);
      assert ws - {d} - {c} == ws - {c} - {d};
    }
  }

  lemma {:induction false} ReservedUpdate(ws: map<nat, Writer>, c: nat, w: Writer)
    ensures Reserved(ws[c := w]) == Reserved(ws - {c}) + w.reserved
    ensures c in ws ==> Reserved(ws[c := w]) == Reserved(ws) - ws[c].reserved + w.reserved
    ensures c !in ws ==> Reserved(ws[c := w]) == Reserved(ws) + w.reserved
  {
    ReservedRemove(ws[c := w], c);
    assert ws[c := w] - {c} == ws - {c};
    if c in ws {
      ReservedRemove(ws, c);
    } else {
      assert ws - {c} == ws;
    }
  }

  /** Payload bytes in flight. */
  function InFlight(wire: seq<Packet>): (n: nat)
  {
    if wire == [] then 0 else (if wire[0].PData? then |wire[0].payload| else 0) + InFlight(wire[1..])
  }

  lemma {:induction false} InFlightAppend(wire: seq<Packet>, p: Packet)
    ensures InFlight(wire + [p]) == InFlight(wire) + if p.PData? then |p.payload| else 0
  {
    if wire == [] {
      assert wire + [p] == [p] && [p][1..] == [];
    } else {
      assert (wire + [p])[1..] == wire[1..] + [p];
      InFlightAppend(wire[1..], p);
    }
  }

  /** The bytes of one stream in flight. */
  function StreamBytes(wire: seq<Packet>, code: nat): (s: seq<byte>)
  {
    if wire == [] then []
    else (if wire[0].PData? && wire[0].code == code then wire[0].payload else []) + StreamBytes(wire[1..], code)
  }

  lemma {:induction false} Grouped(a: seq<byte>, b: seq<byte>, c: seq<byte>)
    ensures a + (b + c) == a + b + c
  {
  }

  lemma {:induction false} StreamBytesAppend(wire: seq<Packet>, p: Packet, code: nat)
    ensures StreamBytes(wire + [p], code)
         == StreamBytes(wire, code) + if p.PData? && p.code == code then p.payload else []
  {
    if wire == [] {
      assert wire + [p] == [p] && [p][1..] == [];
    } else {
      var head := if wire[0].PData? && wire[0].code == code then wire[0].payload else [];
      var last := if p.PData? && p.code == code then p.payload else [];
      assert (wire + [p])[0] == wire[0] && (wire + [p])[1..] == wire[1..] + [p];
      StreamBytesAppend(wire[1..], p, code);
      Grouped(head, StreamBytes(wire[1..], code), last);
    }
  }

  // ---------------------------------------------------------------- the invariants

  /** Everything the sender may still use or has used and the receiver has not yet seen. */
  ghost function SenderSide(s: Sys): (n: nat)
  {
    s.win + Reserved(s.writers) + InFlight(s.wire) + Sum(s.back) + Sum(s.unsent) + s.lost
  }

  /** Bytes the receiver holds, has handed to readers, or has credited without announcing it. */
  function ReceiverSide(s: Sys): (n: nat)
  {
    |s.recv.pending.unread| + |s.recv.ext.unread| + Sum(s.uncredited) + s.recv.myConsumed
  }

  ghost predicate Balanced(s: Sys)
  {
    && SenderSide(s) == s.recv.myWindow
    && s.recv.myWindow + ReceiverSide(s) == WINDOW
    && s.recv.myConsumed <= 3 * MAX_PACKET
  }

  ghost predicate WellFormed(s: Sys)
  {
    && (forall i :: 0 <= i < |s.wire| && s.wire[i].PData? ==> s.wire[i].code < B32 && 1 <= |s.wire[i].payload| <= MAX_PACKET)
    && GoodWriters(s.writers)
  }

  /** Streams 0 and 1 arrive in order and whole. */
  ghost predicate InOrder(s: Sys)
  {
    && Whole(Get(s.sent, 0), s.read0, s.recv.pending.unread, s.wire, 0)
    && Whole(Get(s.sent, 1), s.read1, s.recv.ext.unread, s.wire, 1)
  }

  function Remaining(s: Sys, c: nat): (r: seq<byte>)
  {
    if c in s.writers then s.writers[c].data else []
  }

  /** What is sent of a stream is what was offered, less what the call in progress has still to send. */
  ghost predicate Faithful(s: Sys)
  {
    forall c :: Get(s.offered, c) == Get(s.sent, c) + Remaining(s, c)
  }

  ghost predicate Inv(s: Sys)
  {
    WellFormed(s) && Balanced(s) && InOrder(s) && Faithful(s)
  }

  // ---------------------------------------------------------------- preservation

  lemma {:induction false} WireKept(s: Sys, step: Step)
    requires WellFormed(s) && Enabled(s, step)
    ensures var s' := Next(s, step);
            forall i :: 0 <= i < |s'.wire| && s'.wire[i].PData? ==> s'.wire[i].code < B32 && 1 <= |s'.wire[i].payload| <= MAX_PACKET
  {
  }

  ghost predicate GoodWriters(ws: map<nat, Writer>)
  {
    forall c :: c in ws ==> c < B32 && ws[c].reserved <= MAX_PACKET && ws[c].reserved <= |ws[c].data|
  }

  lemma {:induction false} WritersKept(s: Sys, step: Step)
    requires GoodWriters(s.writers) && Enabled(s, step)
    ensures GoodWriters(Next(s, step).writers)
  {
    match step
    case StartWrite(c, data) => assert Next(s, step).writers == s.writers[c := Writer(data, 0)];
    case Reserve(c) => assert Next(s, step).writers == s.writers[c := s.writers[c].(reserved := Take(s, s.writers[c]))];
    case Send(c) => assert Next(s, step).writers == s.writers[c := Writer(s.writers[c].data[s.writers[c].reserved..], 0)];
    case FailReserve(c) => assert Next(s, step).writers == s.writers - {c};
    case FailSend(c) => assert Next(s, step).writers == s.writers - {c};
    case Finish(c) => assert Next(s, step).writers == s.writers - {c};
    case _ => assert Next(s, step).writers == s.writers;
  }

  /** In a balanced state the packet at the front of the wire fits the receiver's window. */
  lemma {:induction false} FrontFits(s: Sys)
    requires WellFormed(s) && Balanced(s) && |s.wire| > 0 && s.wire[0].PData?
    ensures |s.wire[0].payload| <= s.recv.myWindow
  {
  }

  lemma {:induction false} SenderStepBalanced(s: Sys, step: Step)
    requires WellFormed(s) && Balanced(s) && Enabled(s, step)
    requires step.StartWrite? || step.Reserve? || step.Send? || step.FailReserve? || step.FailSend? || step.Finish?
    ensures Balanced(Next(s, step))
  {
    match step
    case StartWrite(c, data) => ReservedUpdate(s.writers, c, Writer(data, 0));
    case Reserve(c) => ReservedUpdate(s.writers, c, s.writers[c].(reserved := Take(s, s.writers[c])));
    case Send(c) =>
      var w := s.writers[c];
      ReservedUpdate(s.writers, c, Writer(w.data[w.reserved..], 0));
      InFlightAppend(s.wire, PData(c, w.data[..w.reserved]));
    case FailReserve(c) => ReservedRemove(s.writers, c);
    case FailSend(c) => ReservedRemove(s.writers, c);
    case Finish(c) => ReservedRemove(s.writers, c);
  }

  /** What receiving the packet at the front of the wire does. */
  lemma {:induction false} ReceiveData(s: Sys)
    requires WellFormed(s) && Balanced(s) && |s.wire| > 0 && s.wire[0].PData?
    ensures var p := s.wire[0];
            Receive(s) == s.(wire := s.wire[1..],
                             recv := s.recv.(myWindow := s.recv.myWindow - |p.payload|,
                                             pending := if p.code == 0 then s.recv.pending.(unread := s.recv.pending.unread + p.payload) else s.recv.pending,
                                             ext := if p.code == 1 then s.recv.ext.(unread := s.recv.ext.unread + p.payload) else s.recv.ext),
                             uncredited := if p.code > 1 then s.uncredited + [|p.payload|] else s.uncredited)
  {
    FrontFits(s);
  }

  lemma {:induction false} DataBalanced(s: Sys)
    requires WellFormed(s) && Balanced(s) && |s.wire| > 0 && s.wire[0].PData?
    ensures Balanced(Receive(s))
  {
    ReceiveData(s);
    var s', n := Receive(s), |s.wire[0].payload|;
    SumAppend(s.uncredited, n);
    assert SenderSide(s') == SenderSide(s) - n;
    assert s'.recv.myWindow == s.recv.myWindow - n && s'.recv.myConsumed == s.recv.myConsumed;
    if s.wire[0].code == 0 {
      assert |s'.recv.pending.unread| == |s.recv.pending.unread| + n;
    } else if s.wire[0].code == 1 {
      assert |s'.recv.ext.unread| == |s.recv.ext.unread| + n;
    }
  }

  lemma {:induction false} ReceiveBalanced(s: Sys)
    requires WellFormed(s) && Balanced(s) && |s.wire| > 0
    ensures Balanced(Receive(s))
  {
    if s.wire[0].PData? {
      DataBalanced(s);
    } else {
      assert SenderSide(Receive(s)) == SenderSide(s);
    }
  }

  lemma {:induction false} ReadBalanced(s: Sys, stream: nat, size: nat)
    requires Balanced(s) && stream <= 1
    ensures Balanced(ReadFrom(s, stream, size))
  {
    var st := if stream == 0 then s.recv.pending else s.recv.ext;
    SumAppend(s.uncredited, if size < |st.unread| then size else |st.unread|);
  }

  /** Crediting either announces everything consumed or leaves at most three packets unannounced. */
  lemma {:induction false} CreditBalanced(s: Sys, i: nat)
    requires Balanced(s) && i < |s.uncredited|
    ensures Balanced(CreditOne(s, i))
  {
    SumRemove(s.uncredited, i);
    var (r, adj) := AdjustWindow(s.recv, s.uncredited[i]);
    SumAppend(s.unsent, adj);
  }

  lemma {:induction false} CloseBalanced(s: Sys, p: Packet)
    requires Balanced(s) && !p.PData?
    ensures SenderSide(s.(wire := s.wire + [p])) == SenderSide(s)
  {
    InFlightAppend(s.wire, p);
  }

  lemma {:induction false} AdjustBalanced(s: Sys, i: nat)
    requires Balanced(s) && i < |s.unsent|
    ensures Balanced(s.(back := s.back + [s.unsent[i]], unsent := Remove(s.unsent, i)))
    ensures Balanced(s.(lost := s.lost + s.unsent[i], unsent := Remove(s.unsent, i)))
  {
    SumRemove(s.unsent, i);
    SumAppend(s.back, s.unsent[i]);
  }

  lemma {:induction false} ReceiverStepBalanced(s: Sys, step: Step)
    requires WellFormed(s) && Balanced(s) && Enabled(s, step)
    requires step.ReceivePacket? || step.ReceiveAdjust? || step.Read? || step.Credit? || step.SendAdjust? || step.DropAdjust?
    ensures Balanced(Next(s, step))
  {
    match step
    case ReceivePacket => ReceiveBalanced(s);
    case ReceiveAdjust =>
    case Read(stream, size) => ReadBalanced(s, stream, size);
    case Credit(i) => CreditBalanced(s, i);
    case SendAdjust(i) => AdjustBalanced(s, i);
    case DropAdjust(i) => AdjustBalanced(s, i);
  }

  lemma {:induction false} CloseStepBalanced(s: Sys, step: Step)
    requires Balanced(s) && Enabled(s, step) && (step.CloseWrite? || step.Close? || step.CloseWindow?)
    ensures Balanced(Next(s, step))
  {
    CloseBalanced(s, PEof);
    CloseBalanced(s, PClose);
  }

  lemma {:induction false} BalancedKept(s: Sys, step: Step)
    requires WellFormed(s) && Balanced(s) && Enabled(s, step)
    ensures Balanced(Next(s, step))
  {
    if step.CloseWrite? || step.Close? || step.CloseWindow? {
      CloseStepBalanced(s, step);
    } else if step.StartWrite? || step.Reserve? || step.Send? || step.FailReserve? || step.FailSend? || step.Finish? {
      SenderStepBalanced(s, step);
    } else {
      ReceiverStepBalanced(s, step);
    }
  }

  /** One stream: what was sent is what was read, what is unread, and what is on the wire. */
  ghost predicate Whole(sent: seq<byte>, read: seq<byte>, unread: seq<byte>, wire: seq<Packet>, code: nat)
  {
    sent == read + unread + StreamBytes(wire, code)
  }

  lemma {:induction false} WholeReceive(sent: seq<byte>, read: seq<byte>, unread: seq<byte>, wire: seq<Packet>, code: nat, unread': seq<byte>)
    requires Whole(sent, read, unread, wire, code) && wire != []
    requires unread' == if wire[0].PData? && wire[0].code == code then unread + wire[0].payload else unread
    ensures Whole(sent, read, unread', wire[1..], code)
  {
    Shift(read, unread, if wire[0].PData? then wire[0].payload else [], StreamBytes(wire[1..], code));
  }

  lemma {:induction false} WholeSend(sent: seq<byte>, read: seq<byte>, unread: seq<byte>, wire: seq<Packet>, code: nat, p: Packet)
    requires Whole(sent, read, unread, wire, code)
    ensures Whole(if p.PData? && p.code == code then sent + p.payload else sent, read, unread, wire + [p], code)
  {
    StreamBytesAppend(wire, p, code);
    assert read + unread + StreamBytes(wire, code) + [] == read + unread + StreamBytes(wire, code);
    if p.PData? {
      assert read + unread + StreamBytes(wire, code) + p.payload == read + unread + (StreamBytes(wire, code) + p.payload);
    }
    assert StreamBytes(wire, code) + [] == StreamBytes(wire, code);
  }

  lemma {:induction false} WholeRead(sent: seq<byte>, read: seq<byte>, unread: seq<byte>, wire: seq<Packet>, code: nat, k: nat)
    requires Whole(sent, read, unread, wire, code) && k <= |unread|
    ensures Whole(sent, read + unread[..k], unread[k..], wire, code)
  {
    assert unread == unread[..k] + unread[k..];
    Reassociate(read, unread[..k], unread[k..], StreamBytes(wire, code));
  }

  lemma {:induction false} ReceiveInOrder(s: Sys)
    requires WellFormed(s) && Balanced(s) && InOrder(s) && |s.wire| > 0
    ensures InOrder(Receive(s))
  {
    if s.wire[0].PData? {
      ReceiveData(s);
    }
    var r := Receive(s);
    WholeReceive(Get(s.sent, 0), s.read0, s.recv.pending.unread, s.wire, 0, r.recv.pending.unread);
    WholeReceive(Get(s.sent, 1), s.read1, s.recv.ext.unread, s.wire, 1, r.recv.ext.unread);
  }

  lemma {:induction false} Shift(a: seq<byte>, b: seq<byte>, c: seq<byte>, d: seq<byte>)
    ensures a + b + (c + d) == a + (b + c) + d && a + b + ([] + d) == a + b + d
  {
    assert [] + d == d;
  }

  lemma {:induction false} ReadInOrder(s: Sys, stream: nat, size: nat)
    requires InOrder(s) && stream <= 1
    ensures InOrder(ReadFrom(s, stream, size))
  {
    var st := if stream == 0 then s.recv.pending else s.recv.ext;
    var k := if size < |st.unread| then size else |st.unread|;
    if stream == 0 {
      WholeRead(Get(s.sent, 0), s.read0, s.recv.pending.unread, s.wire, 0, k);
    } else {
      WholeRead(Get(s.sent, 1), s.read1, s.recv.ext.unread, s.wire, 1, k);
    }
  }

  lemma {:induction false} Reassociate(a: seq<byte>, b: seq<byte>, c: seq<byte>, d: seq<byte>)
    ensures a + (b + c) + d == a + b + c + d
  {
  }

  lemma {:induction false} PushInOrder(s: Sys, p: Packet)
    requires InOrder(s)
    ensures Whole(if p.PData? && p.code == 0 then Get(s.sent, 0) + p.payload else Get(s.sent, 0), s.read0, s.recv.pending.unread, s.wire + [p], 0)
    ensures Whole(if p.PData? && p.code == 1 then Get(s.sent, 1) + p.payload else Get(s.sent, 1), s.read1, s.recv.ext.unread, s.wire + [p], 1)
  {
    WholeSend(Get(s.sent, 0), s.read0, s.recv.pending.unread, s.wire, 0, p);
    WholeSend(Get(s.sent, 1), s.read1, s.recv.ext.unread, s.wire, 1, p);
  }

  lemma {:induction false} SendInOrder(s: Sys, c: nat)
    requires InOrder(s) && c in s.writers && s.writers[c].reserved <= |s.writers[c].data|
    ensures InOrder(SendOne(s, c))
  {
    PushInOrder(s, PData(c, s.writers[c].data[..s.writers[c].reserved]));
  }

  /** Steps that leave the streams alone. */
  lemma {:induction false} SameInOrder(s: Sys, step: Step)
    requires InOrder(s) && Enabled(s, step)
    requires !step.Send? && !step.CloseWrite? && !step.Close? && !step.ReceivePacket? && !step.Read?
    ensures InOrder(Next(s, step))
  {
    SameStreams(s, step);
    StillInOrder(s, Next(s, step));
  }

  lemma {:induction false} SameStreams(s: Sys, step: Step)
    requires Enabled(s, step) && !step.Send? && !step.CloseWrite? && !step.Close? && !step.ReceivePacket? && !step.Read?
    ensures var s' := Next(s, step);
            && s'.sent == s.sent && s'.wire == s.wire && s'.read0 == s.read0 && s'.read1 == s.read1
            && s'.recv.pending == s.recv.pending && s'.recv.ext == s.recv.ext
  {
  }

  lemma {:induction false} StillInOrder(s: Sys, s': Sys)
    requires InOrder(s) && s'.sent == s.sent && s'.wire == s.wire && s'.read0 == s.read0 && s'.read1 == s.read1
    requires s'.recv.pending == s.recv.pending && s'.recv.ext == s.recv.ext
    ensures InOrder(s')
  {
  }

  lemma {:induction false} InOrderKept(s: Sys, step: Step)
    requires Inv(s) && Enabled(s, step)
    ensures InOrder(Next(s, step))
  {
    match step
    case Send(c) => SendInOrder(s, c);
    case CloseWrite => PushInOrder(s, PEof);
    case Close => PushInOrder(s, PClose);
    case ReceivePacket => ReceiveInOrder(s);
    case Read(stream, size) => ReadInOrder(s, stream, size);
    case _ => SameInOrder(s, step);
  }

  lemma {:induction false} SendFaithful(s: Sys, c: nat)
    requires Faithful(s) && c in s.writers && s.writers[c].reserved <= |s.writers[c].data|
    ensures Faithful(SendOne(s, c))
  {
    var s' := SendOne(s, c);
    var k := s.writers[c].reserved;
    forall x ensures Get(s'.offered, x) == Get(s'.sent, x) + Remaining(s', x) {
      assert Get(s.offered, x) == Get(s.sent, x) + Remaining(s, x);
      if x == c {
        assert Remaining(s, c) == s.writers[c].data[..k] + Remaining(s', c);
      }
    }
  }

  lemma {:induction false} StartFaithful(s: Sys, c: nat, data: seq<byte>)
    requires Faithful(s) && c !in s.writers
    ensures Faithful(s.(writers := s.writers[c := Writer(data, 0)], offered := s.offered[c := Get(s.offered, c) + data]))
  {
    var s' := s.(writers := s.writers[c := Writer(data, 0)], offered := s.offered[c := Get(s.offered, c) + data]);
    forall x ensures Get(s'.offered, x) == Get(s'.sent, x) + Remaining(s', x) {
      assert Get(s.offered, x) == Get(s.sent, x) + Remaining(s, x);
    }
  }

  /** A failing call takes back what it did not send. */
  lemma {:induction false} FailFaithful(s: Sys, s': Sys, c: nat)
    requires Faithful(s) && s'.sent == s.sent && s'.writers == s.writers - {c} && s'.offered == s.offered[c := Get(s.sent, c)]
    ensures Faithful(s')
  {
    forall x ensures Get(s'.offered, x) == Get(s'.sent, x) + Remaining(s', x) {
      assert Get(s.offered, x) == Get(s.sent, x) + Remaining(s, x);
    }
  }

  /** Steps that leave offered, sent and every call's data alone. */
  lemma {:induction false} SameFaithful(s: Sys, s': Sys)
    requires Faithful(s) && s'.offered == s.offered && s'.sent == s.sent
    requires forall c :: Remaining(s', c) == Remaining(s, c)
    ensures Faithful(s')
  {
    forall x ensures Get(s'.offered, x) == Get(s'.sent, x) + Remaining(s', x) {
      assert Get(s.offered, x) == Get(s.sent, x) + Remaining(s, x);
      assert Remaining(s', x) == Remaining(s, x);
    }
  }

  lemma {:induction false} FaithfulKept(s: Sys, step: Step)
    requires Faithful(s) && Enabled(s, step)
    ensures Faithful(Next(s, step))
  {
    var s' := Next(s, step);
    match step
    case StartWrite(c, data) => StartFaithful(s, c, data);
    case Send(c) => SendFaithful(s, c);
    case Reserve(c) => assert forall x :: Remaining(s', x) == Remaining(s, x); SameFaithful(s, s');
    case Finish(c) => assert forall x :: Remaining(s', x) == Remaining(s, x); SameFaithful(s, s');
    case FailReserve(c) => FailFaithful(s, s', c);
    case FailSend(c) => FailFaithful(s, s', c);
    case _ => UntouchedFaithful(s, s');
  }

  lemma {:induction false} UntouchedFaithful(s: Sys, s': Sys)
    requires Faithful(s) && s'.offered == s.offered && s'.sent == s.sent && s'.writers == s.writers
    ensures Faithful(s')
  {
    assert forall x :: Remaining(s', x) == Remaining(s, x);
    SameFaithful(s, s');
  }

  lemma {:induction false} InvKept(s: Sys, step: Step)
    requires Inv(s) && Enabled(s, step)
    ensures Inv(Next(s, step))
  {
    WireKept(s, step);
    WritersKept(s, step);
    BalancedKept(s, step);
    InOrderKept(s, step);
    FaithfulKept(s, step);
  }

  ghost predicate Run(states: seq<Sys>, steps: seq<Step>)
  {
    && |states| == |steps| + 1 && states[0] == Initial
    && forall i :: 0 <= i < |steps| ==> Enabled(states[i], steps[i]) && states[i + 1] == Next(states[i], steps[i])
  }

  /** Every state of every run satisfies the invariant. */
  lemma {:induction false} Reachable(states: seq<Sys>, steps: seq<Step>, k: nat)
    requires Run(states, steps) && k < |states|
    ensures Inv(states[k])
    decreases k
  {
    if k == 0 {
      assert Sum([WINDOW]) == WINDOW by { SumAppend([], WINDOW); assert [] + [WINDOW] == [WINDOW]; }
    } else {
      Reachable(states, steps, k - 1);
      InvKept(states[k - 1], steps[k - 1]);
    }
  }

  // ---------------------------------------------------------------- what every run guarantees

  /** Credit is conserved: every byte of the window is in exactly one place. */
  lemma {:induction false} Conservation(states: seq<Sys>, steps: seq<Step>, k: nat)
    requires Run(states, steps) && k < |states|
    ensures var s := states[k];
            s.win + Reserved(s.writers) + InFlight(s.wire) + Sum(s.back) + Sum(s.unsent) + s.lost
            + |s.recv.pending.unread| + |s.recv.ext.unread| + Sum(s.uncredited) + s.recv.myConsumed == WINDOW
  {
    Reachable(states, steps, k);
  }

  /**
   A peer running this code never writes too much and never overflows the window: the raw packet at
   the front of the wire goes through handleData as the step system says, and is accepted.
   */
  lemma {:induction false} NeverRefused(states: seq<Sys>, steps: seq<Step>, k: nat, remoteId: nat)
    requires Run(states, steps) && k < |states|
    ensures var s := states[k];
            |s.wire| > 0 && s.wire[0].PData? ==>
              && HandleData(s.recv, DataPacket(remoteId, s.wire[0].code, s.wire[0].payload)).0 == Accepted
              && HandleData(s.recv, DataPacket(remoteId, s.wire[0].code, s.wire[0].payload)).1 == Receive(s).recv
    ensures |states[k].back| > 0 ==> states[k].win + states[k].back[0] <= WINDOW < B32
  {
    Reachable(states, steps, k);
    var s := states[k];
    if |s.wire| > 0 && s.wire[0].PData? {
      FrontAccepted(s, remoteId, s.wire[0].code, s.wire[0].payload);
    }
    if |s.back| > 0 {
      FrontCredit(s);
    }
  }

  lemma {:induction false} FrontAccepted(s: Sys, remoteId: nat, code: nat, payload: seq<byte>)
    requires WellFormed(s) && Balanced(s) && |s.wire| > 0 && s.wire[0] == PData(code, payload)
    ensures HandleData(s.recv, DataPacket(remoteId, code, payload)).0 == Accepted
    ensures HandleData(s.recv, DataPacket(remoteId, code, payload)).1 == Receive(s).recv
  {
    FrontFits(s);
    ParsePacket(remoteId, code, payload);
    assert HandleData(s.recv, DataPacket(remoteId, code, payload)) == Deliver(s.recv, code, payload);
  }

  lemma {:induction false} FrontCredit(s: Sys)
    requires Balanced(s) && |s.back| > 0
    ensures s.win + s.back[0] <= WINDOW
  {
    assert Sum(s.back) == s.back[0] + Sum(s.back[1..]);
  }

  /** What a stream's readers have received is, in order, a prefix of what was written to it. */
  lemma {:induction false} ReadsArePrefix(states: seq<Sys>, steps: seq<Step>, k: nat)
    requires Run(states, steps) && k < |states|
    ensures states[k].read0 <= Get(states[k].offered, 0)
    ensures states[k].read1 <= Get(states[k].offered, 1)
  {
    Reachable(states, steps, k);
    var s := states[k];
    assert s.read0 <= Get(s.sent, 0) && s.read1 <= Get(s.sent, 1);
    assert Get(s.offered, 0) == Get(s.sent, 0) + Remaining(s, 0) && Get(s.offered, 1) == Get(s.sent, 1) + Remaining(s, 1);
  }

  /** A channel whose reads are drained and credited has announced all but three packets of its window. */
  lemma {:induction false} DrainedHasCredit(states: seq<Sys>, steps: seq<Step>, k: nat)
    requires Run(states, steps) && k < |states|
    requires states[k].recv.pending.unread == [] && states[k].recv.ext.unread == [] && states[k].uncredited == []
    ensures states[k].recv.myWindow >= WINDOW - 3 * MAX_PACKET
    ensures SenderSide(states[k]) >= WINDOW - 3 * MAX_PACKET
  {
    Reachable(states, steps, k);
  }

  /** Once nothing is in flight either way and no credit was given up, a waiting writer finds window. */
  lemma {:induction false} NoStarvation(states: seq<Sys>, steps: seq<Step>, k: nat)
    requires Run(states, steps) && k < |states|
    requires states[k].recv.pending.unread == [] && states[k].recv.ext.unread == [] && states[k].uncredited == []
    requires states[k].wire == [] && states[k].back == [] && states[k].unsent == [] && states[k].lost == 0
    requires forall c :: c in states[k].writers ==> states[k].writers[c].reserved == 0
    ensures states[k].win >= WINDOW - 3 * MAX_PACKET > 0
  {
    Reachable(states, steps, k);
    NoReservations(states[k].writers);
  }

  lemma {:induction false} NoReservations(ws: map<nat, Writer>)
    requires forall c :: c in ws ==> ws[c].reserved == 0
    ensures Reserved(ws) == 0
    decreases |ws|
  {
    if ws != map[] {
      NoReservations(ws - {Pick(ws)});
    }
  }

  /** A finished transfer is complete: when nothing is left anywhere, every byte reported as written was read. */
  lemma {:induction false} Complete(states: seq<Sys>, steps: seq<Step>, k: nat)
    requires Run(states, steps) && k < |states|
    requires states[k].writers == map[] && states[k].wire == []
    requires states[k].recv.pending.unread == [] && states[k].recv.ext.unread == []
    ensures states[k].read0 == Get(states[k].offered, 0) && states[k].read1 == Get(states[k].offered, 1)
  {
    Reachable(states, steps, k);
    var s := states[k];
    assert Get(s.offered, 0) == Get(s.sent, 0) + Remaining(s, 0) && Get(s.offered, 1) == Get(s.sent, 1) + Remaining(s, 1);
    assert s.read0 + [] + [] == s.read0 && s.read1 + [] + [] == s.read1;
  }

  // ---------------------------------------------------------------- the end of a stream

  function StreamOf(s: Sys, c: nat): (st: Stream)
  {
    if c == 0 then s.recv.pending else s.recv.ext
  }

  function ReadOf(s: Sys, c: nat): (r: seq<byte>)
  {
    if c == 0 then s.read0 else s.read1
  }

  /** A reader of the stream is told that it has ended. */
  predicate AtEof(s: Sys, c: nat)
  {
    StreamOf(s, c).closed && StreamOf(s, c).unread == []
  }

  /** No data of stream c from index i of the wire on. */
  predicate NoData(wire: seq<Packet>, i: nat, c: nat)
  {
    forall j :: i <= j < |wire| && wire[j].PData? ==> wire[j].code != c
  }

  lemma {:induction false} NoBytes(wire: seq<Packet>, c: nat)
    requires NoData(wire, 0, c)
    ensures StreamBytes(wire, c) == []
    decreases |wire|
  {
    if wire != [] {
      assert forall j :: 0 <= j < |wire[1..]| ==> wire[1..][j] == wire[j + 1];
      NoBytes(wire[1..], c);
    }
  }

  /** The sender is done with stream c, and so it stays. */
  predicate Over(s: Sys)
  {
    s.sentEOF || s.sentClose
  }

  /** Behind an end marker, received or on the wire, there is no data of stream c, and none will be sent. */
  ghost predicate Ends(s: Sys, c: nat)
  {
    && (s.sentEOF ==> c !in s.writers)
    && (StreamOf(s, c).closed ==> Over(s) && NoData(s.wire, 0, c))
    && (forall i :: 0 <= i < |s.wire| && !s.wire[i].PData? ==> Over(s) && NoData(s.wire, i, c))
  }

  lemma {:induction false} SendEnds(s: Sys, d: nat, c: nat)
    requires Ends(s, c) && Enabled(s, Send(d))
    ensures Ends(SendOne(s, d), c)
  {
    var s' := SendOne(s, d);
    assert forall i :: 0 <= i < |s.wire| ==> s'.wire[i] == s.wire[i];
  }

  lemma {:induction false} MarkEnds(s: Sys, s': Sys, p: Packet, c: nat)
    requires Ends(s, c) && !p.PData? && s'.wire == s.wire + [p] && s'.recv == s.recv && s'.writers == s.writers
    requires Over(s') && (s'.sentEOF ==> c !in s.writers)
    ensures Ends(s', c)
  {
    assert forall i :: 0 <= i < |s.wire| ==> s'.wire[i] == s.wire[i];
  }

  lemma {:induction false} ReceiveEnds(s: Sys, c: nat)
    requires Ends(s, c) && |s.wire| > 0
    ensures Ends(Receive(s), c)
  {
    var s' := Receive(s);
    assert forall i :: 0 <= i < |s'.wire| ==> s'.wire[i] == s.wire[i + 1];
    assert !s.wire[0].PData? ==> NoData(s.wire, 0, c);
  }

  lemma {:induction false} EndsKept(s: Sys, step: Step, c: nat)
    requires Ends(s, c) && Enabled(s, step) && (step.CloseWrite? ==> c !in s.writers)
    ensures Ends(Next(s, step), c)
  {
    match step
    case Send(d) => SendEnds(s, d, c);
    case CloseWrite => MarkEnds(s, Next(s, step), PEof, c);
    case Close => MarkEnds(s, Next(s, step), PClose, c);
    case ReceivePacket => ReceiveEnds(s, c);
    case _ => OtherEnds(s, step, c);
  }

  lemma {:induction false} OtherEnds(s: Sys, step: Step, c: nat)
    requires Ends(s, c) && Enabled(s, step)
    requires !step.Send? && !step.CloseWrite? && !step.Close? && !step.ReceivePacket?
    ensures Ends(Next(s, step), c)
  {
    var s' := Next(s, step);
    assert s'.wire == s.wire && s'.sentEOF == s.sentEOF && s'.sentClose == s.sentClose;
    assert s'.recv.pending.closed == s.recv.pending.closed && s'.recv.ext.closed == s.recv.ext.closed;
  }

  /** Whenever the stream is ended with CloseWrite, no call for it is in progress. */
  ghost predicate QuietClose(states: seq<Sys>, steps: seq<Step>, c: nat)
    requires |states| == |steps| + 1
  {
    forall i :: 0 <= i < |steps| && steps[i].CloseWrite? ==> c !in states[i].writers
  }

  lemma {:induction false} EndsInRun(states: seq<Sys>, steps: seq<Step>, k: nat, c: nat)
    requires Run(states, steps) && k < |states| && QuietClose(states, steps, c)
    ensures Ends(states[k], c)
    decreases k
  {
    if k > 0 {
      EndsInRun(states, steps, k - 1, c);
      EndsKept(states[k - 1], steps[k - 1], c);
    }
  }

  /**
   End of file is the truth: when no call was in progress at CloseWrite, a reader that is told of the
   end has read everything that was sent, which is everything written except by a call still in
   progress on a closed channel.
   */
  lemma {:induction false} EofIsComplete(states: seq<Sys>, steps: seq<Step>, k: nat, c: nat)
    requires Run(states, steps) && k < |states| && QuietClose(states, steps, c) && c <= 1 && AtEof(states[k], c)
    ensures ReadOf(states[k], c) == Get(states[k].sent, c)
    ensures Get(states[k].offered, c) == ReadOf(states[k], c) + Remaining(states[k], c)
    ensures c !in states[k].writers ==> ReadOf(states[k], c) == Get(states[k].offered, c)
    ensures c in states[k].writers ==> states[k].sentClose
  {
    Reachable(states, steps, k);
    EndsInRun(states, steps, k, c);
    AllRead(states[k], c);
  }

  lemma {:induction false} AllRead(s: Sys, c: nat)
    requires InOrder(s) && Faithful(s) && Ends(s, c) && c <= 1 && AtEof(s, c)
    ensures ReadOf(s, c) == Get(s.sent, c) && Get(s.offered, c) == ReadOf(s, c) + Remaining(s, c)
    ensures c !in s.writers ==> ReadOf(s, c) == Get(s.offered, c)
    ensures c in s.writers ==> s.sentClose
  {
    NoBytes(s.wire, c);
    Nothing(ReadOf(s, c));
    assert Get(s.offered, c) == Get(s.sent, c) + Remaining(s, c);
  }

  lemma {:induction false} Nothing(a: seq<byte>)
    ensures a + [] == a && a + [] + [] == a
  {
  }

  /** Nothing is delivered to a stream that has ended. */
  lemma {:induction false} EofStep(s: Sys, step: Step, c: nat)
    requires Ends(s, c) && Enabled(s, step) && c <= 1 && AtEof(s, c)
    ensures AtEof(Next(s, step), c) && ReadOf(Next(s, step), c) == ReadOf(s, c)
  {
    if step.ReceivePacket? {
      assert s.wire[0].PData? ==> s.wire[0].code != c;
    } else if !step.Read? {
      var s' := Next(s, step);
      assert s'.recv.pending == s.recv.pending && s'.recv.ext == s.recv.ext && s'.read0 == s.read0 && s'.read1 == s.read1;
    }
  }

  /** And it is final: nothing arrives on the stream afterwards. */
  lemma {:induction false} EofIsFinal(states: seq<Sys>, steps: seq<Step>, k: nat, m: nat, c: nat)
    requires Run(states, steps) && k <= m < |states| && QuietClose(states, steps, c) && c <= 1 && AtEof(states[k], c)
    ensures AtEof(states[m], c) && ReadOf(states[m], c) == ReadOf(states[k], c)
    decreases m
  {
    if k < m {
      EofIsFinal(states, steps, k, m - 1, c);
      EndsInRun(states, steps, m - 1, c);
      EofStep(states[m - 1], steps[m - 1], c);
    }
  }

  function EarlySteps(x: byte): (steps: seq<Step>)
  {
    [StartWrite(0, [x]), ReceiveAdjust, Reserve(0), CloseWrite, ReceivePacket, Send(0), ReceivePacket]
  }

  /** The states of that run: the call starts and reserves, */
  function Opening(x: byte): (states: seq<Sys>)
    ensures |states| == 4
  {
    var s1 := Initial.(writers := map[0 := Writer([x], 0)], offered := map[0 := [x]]);
    var s2 := s1.(win := WINDOW, back := []);
    [Initial, s1, s2, s2.(win := WINDOW - 1, writers := map[0 := Writer([x], 1)])]
  }

  /** the stream is closed and the end received, and the byte is sent and received. */
  function Closing(x: byte): (states: seq<Sys>)
    ensures |states| == 4
  {
    var s4 := Opening(x)[3].(sentEOF := true, wire := [PEof]);
    var s5 := s4.(wire := [], recv := Receiver(WINDOW, 0, Stream([], true), Stream([], true)));
    var s6 := s5.(writers := map[0 := Writer([], 0)], wire := [PData(0, [x])], sent := map[0 := [x]]);
    [s4, s5, s6, s6.(wire := [], recv := Receiver(WINDOW - 1, 0, Stream([x], true), Stream([], true)))]
  }

  ghost predicate Goes(s: Sys, step: Step, s': Sys)
  {
    Enabled(s, step) && Next(s, step) == s'
  }

  lemma {:induction false} OpeningGoes(x: byte)
    ensures var t := Opening(x); Goes(t[0], StartWrite(0, [x]), t[1]) && Goes(t[1], ReceiveAdjust, t[2]) && Goes(t[2], Reserve(0), t[3])
  {
    assert [] + [x] == [x];
    assert [WINDOW][1..] == [];
  }

  lemma {:induction false} ClosingGoes(x: byte)
    ensures var t := Closing(x); Goes(Opening(x)[3], CloseWrite, t[0]) && Goes(t[0], ReceivePacket, t[1])
  {
    assert [PEof][1..] == [];
  }

  lemma {:induction false} ByteGoes(x: byte)
    ensures var t := Closing(x); Goes(t[1], Send(0), t[2]) && Goes(t[2], ReceivePacket, t[3])
  {
    assert [x][..1] == [x] && [x][1..] == [] && [] + [x] == [x];
    assert [PData(0, [x])][1..] == [];
  }

  /**
   Without that condition it is not: CloseWrite while a call is about to send lets a reader see the end
   of the stream before the byte, which then arrives.
   */
  lemma {:induction false} EofTooEarly(x: byte, states: seq<Sys>)
    requires states == Opening(x) + Closing(x)
    ensures Run(states, EarlySteps(x)) && !QuietClose(states, EarlySteps(x), 0)
    ensures AtEof(states[5], 0) && states[5].read0 == [] && Get(states[5].offered, 0) == [x]
    ensures StreamOf(states[7], 0).unread == [x]
  {
    OpeningGoes(x);
    ClosingGoes(x);
    ByteGoes(x);
    EarlyRun(x, states);
    assert EarlySteps(x)[3].CloseWrite? && 0 in states[3].writers;
  }

  lemma {:induction false} EarlyRun(x: byte, t: seq<Sys>)
    requires |t| == 8 && t[0] == Initial && Goes(t[0], StartWrite(0, [x]), t[1]) && Goes(t[1], ReceiveAdjust, t[2]) && Goes(t[2], Reserve(0), t[3])
    requires Goes(t[3], CloseWrite, t[4]) && Goes(t[4], ReceivePacket, t[5]) && Goes(t[5], Send(0), t[6]) && Goes(t[6], ReceivePacket, t[7])
    ensures Run(t, EarlySteps(x))
  {
  }
}
