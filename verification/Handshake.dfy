/**
 Re-keying with queued writes (third/ssh/handshake.go, section 7.1 of RFC 4253): the writing side
 of handshakeTransport. Regions under the mutex are atomic steps; the runs interleave any number of
 callers of writePacket with the key-exchange loop.
 */
module Handshake {
  import opened Bytes

  const MAX_PENDING: nat := 64
  const PACKET_REKEY_THRESHOLD: nat := 0x8000_0000
  const MSG_KEX_INIT: byte := 20
  const MSG_NEW_KEYS: byte := 21
  const MSG_USER_AUTH_SUCCESS: byte := 52
  const MSG_USER_AUTH_BANNER: byte := 53

  type packet = p: seq<byte> | |p| > 0 witness [0]

  /** What a push puts on the wire. */
  datatype Item = KexInit | KexMessage | NewKeys | ExtInfo | App(p: packet)

  /** The key-exchange loop: waiting, or inside enterKeyExchange. */
  datatype Phase = Waiting | Exchanging(newKeysSent: bool)

  datatype State = State(
    wire: seq<Item>,
    sentInit: bool,
    pending: seq<packet>,
    writeError: bool,
    authComplete: bool,
    bytesLeft: int,
    packetsLeft: nat,
    requested: bool,
    phase: Phase)

  datatype Outcome = Rejected | Failed | Queued | Sent | MustWait

  // ---------------------------------------------------------------- the steps as functions

  /** The unqueued part of writePacket: charge the budgets, ask for an exchange when they are used up, push. */
  function DirectWrite(s: State, p: packet, pushOk: bool): (r: State)
  {
    s.(bytesLeft := if s.bytesLeft > 0 then s.bytesLeft - |p| else s.bytesLeft,
       packetsLeft := if s.packetsLeft > 0 then s.packetsLeft - 1 else 0,
       requested := s.requested || s.bytesLeft <= 0 || s.packetsLeft == 0,
       wire := if pushOk then s.wire + [App(p)] else s.wire,
       writeError := s.writeError || !pushOk)
  }

  function WritePacket(s: State, p: packet, pushOk: bool): (r: (Outcome, State))
  {
    if p[0] == MSG_KEX_INIT || p[0] == MSG_NEW_KEYS then (Rejected, s)
    else if p[0] == MSG_USER_AUTH_BANNER && s.authComplete then (Rejected, s)
    else
      var t := if p[0] == MSG_USER_AUTH_SUCCESS then s.(authComplete := true) else s;
      if t.writeError then (Failed, t)
      else if t.sentInit && |t.pending| < MAX_PENDING then (Queued, t.(pending := t.pending + [p]))
      else if t.sentInit then (MustWait, t)
      else (Sent, DirectWrite(t, p, pushOk))
  }

  /** A writer that waited for the exchange to end is woken. */
  function ResumeWrite(s: State, p: packet, pushOk: bool): (r: (Outcome, State))
  {
    if s.writeError then (Failed, s)
    else if s.sentInit then (MustWait, s)
    else (Sent, DirectWrite(s, p, pushOk))
  }

  function SendKexInit(s: State, pushOk: bool): (r: State)
  {
    if s.sentInit then s
    else if !pushOk then s.(writeError := true)
    else s.(wire := s.wire + [KexInit], sentInit := true)
  }

  function Apps(ps: seq<packet>): (w: seq<Item>)
    ensures |w| == |ps|
  {
    seq(|ps|, i requires 0 <= i < |ps| => App(ps[i]))
  }

  /**
   After enterKeyExchange: whatever its error, the pending packets are pushed until a push fails, and
   the error of the last push replaces the error of the exchange. failAt is the first push to fail.
   */
  function FinishExchange(s: State, err: bool, failAt: nat, bytesLeft: int): (r: State)
  {
    var n := if failAt < |s.pending| then failAt else |s.pending|;
    s.(writeError := if s.pending == [] then err else failAt < |s.pending|,
       sentInit := false, phase := Waiting, requested := false,
       bytesLeft := bytesLeft, packetsLeft := PACKET_REKEY_THRESHOLD,
       wire := s.wire + Apps(s.pending[..n]), pending := [])
  }

  // ---------------------------------------------------------------- the object

  class HandshakeTransport {
    var wire: seq<Item>
    var sentInit: bool
    var pending: seq<packet>
    var writeError: bool
    var authComplete: bool
    var bytesLeft: int
    var packetsLeft: nat
    var requested: bool
    var phase: Phase

    function View(): (s: State)
      reads this
    {
      State(wire, sentInit, pending, writeError, authComplete, bytesLeft, packetsLeft, requested, phase)
    }

    /** A new transport has asked for its mandatory first exchange. */
    constructor (threshold: int)
      ensures View() == Initial(threshold)
    {
      wire, sentInit, pending, writeError, authComplete := [], false, [], false, false;
      bytesLeft, packetsLeft, requested, phase := threshold, PACKET_REKEY_THRESHOLD, true, Waiting;
    }

    method Write(p: packet, pushOk: bool) returns (outcome: Outcome)
      modifies this
      ensures (outcome, View()) == WritePacket(old(View()), p, pushOk)
    {
      if p[0] == MSG_KEX_INIT || p[0] == MSG_NEW_KEYS {
        return Rejected;
      }
      if p[0] == MSG_USER_AUTH_BANNER && authComplete {
        return Rejected;
      }
      if p[0] == MSG_USER_AUTH_SUCCESS {
        authComplete := true;
      }
      if writeError {
        return Failed;
      }
      if sentInit {
        if |pending| < MAX_PENDING {
          pending := pending + [p];
          return Queued;
        }
        return MustWait;
      }
      Push(p, pushOk);
      return Sent;
    }

    method Push(p: packet, pushOk: bool)
      requires !writeError
      modifies this
      ensures View() == DirectWrite(old(View()), p, pushOk)
    {
      if bytesLeft > 0 {
        bytesLeft := bytesLeft - |p|;
      } else {
        requested := true;
      }
      if packetsLeft > 0 {
        packetsLeft := packetsLeft - 1;
      } else {
        requested := true;
      }
      if pushOk {
        wire := wire + [App(p)];
      } else {
        writeError := true;
      }
    }

    /** A writer that was woken: it goes back to waiting while the exchange lasts. */
    method Resume(p: packet, pushOk: bool) returns (outcome: Outcome)
      modifies this
      ensures (outcome, View()) == ResumeWrite(old(View()), p, pushOk)
    {
      if writeError {
        return Failed;
      }
      if sentInit {
        return MustWait;
      }
      Push(p, pushOk);
      return Sent;
    }

    /** sendKexInit does nothing if our KEXINIT is already out. */
    method Init(pushOk: bool)
      modifies this
      ensures View() == SendKexInit(old(View()), pushOk)
    {
      if sentInit {
        return;
      }
      if pushOk {
        wire, sentInit := wire + [KexInit], true;
      } else {
        writeError := true;
      }
    }

    /** The push loop that empties the queue. */
    method Finish(err: bool, failAt: nat, threshold: int)
      modifies this
      ensures View() == FinishExchange(old(View()), err, failAt, threshold)
    {
      writeError, sentInit, phase, requested := err, false, Waiting, false;
      bytesLeft, packetsLeft := threshold, PACKET_REKEY_THRESHOLD;
      var i := 0;
      ghost var w := wire;
      assert wire == w + Apps(pending[..0]);
      while i < |pending|
        invariant 0 <= i <= |pending| && i <= failAt
        invariant pending == old(pending) && wire == w + Apps(pending[..i])
        invariant writeError == (if i == 0 then err else false)
        invariant !sentInit && phase == Waiting && !requested && authComplete == old(authComplete)
        invariant bytesLeft == threshold && packetsLeft == PACKET_REKEY_THRESHOLD
      {
        if i == failAt {
          writeError := true;
          break;
        }
        assert Apps(pending[..i + 1]) == Apps(pending[..i]) + [App(pending[i])];
        wire := wire + [App(pending[i])];
        writeError := false;
        i := i + 1;
      }
      assert pending[..|pending|] == pending;
      pending := [];
    }
  }

  function Initial(threshold: int): (s: State)
  {
    State([], false, [], false, false, threshold, PACKET_REKEY_THRESHOLD, true, Waiting)
  }

  // ---------------------------------------------------------------- runs in which nothing fails

  datatype Step =
    | Write(p: packet)
    | Resume(p: packet)
    | StartKex(byRequest: bool)
    | EnterExchange
    | KexSend
    | SendNewKeys
    | SendExtInfo
    | Finish(threshold: int)

  predicate Enabled(s: State, step: Step)
  {
    match step
    case Write(_) => true
    case Resume(p) => p[0] != MSG_KEX_INIT && p[0] != MSG_NEW_KEYS
    case StartKex(byRequest) => s.phase == Waiting && (byRequest ==> s.requested)
    case EnterExchange => s.phase == Waiting && s.sentInit
    case KexSend => s.phase == Exchanging(false)
    case SendNewKeys => s.phase == Exchanging(false)
    case SendExtInfo => s.phase == Exchanging(true)
    case Finish(_) => s.phase == Exchanging(true)
  }

  function Next(s: State, step: Step): (r: State)
    requires Enabled(s, step)
  {
    match step
    case Write(p) => WritePacket(s, p, true).1
    case Resume(p) => ResumeWrite(s, p, true).1
    case StartKex(byRequest) => SendKexInit(if byRequest then s.(requested := false) else s, true)
    case EnterExchange => s.(phase := Exchanging(false))
    case KexSend => s.(wire := s.wire + [KexMessage])
    case SendNewKeys => s.(wire := s.wire + [NewKeys], phase := Exchanging(true))
    case SendExtInfo => s.(wire := s.wire + [ExtInfo])
    case Finish(threshold) => FinishExchange(s, false, |s.pending|, threshold)
  }

  /** The packet a step accepts from its caller, if any. */
  function Accepts(s: State, step: Step): (ps: seq<packet>)
    requires Enabled(s, step)
  {
    match step
    case Write(p) => var o := WritePacket(s, p, true).0; if o == Queued || o == Sent then [p] else []
    case Resume(p) => if ResumeWrite(s, p, true).0 == Sent then [p] else []
    case _ => []
  }

  // ---------------------------------------------------------------- the wire grammar

  /** Between our KEXINIT and our NEWKEYS only key-exchange messages may appear (section 7.1 of RFC 4253). */
  datatype WireState = Outside | Inside | Broken

  function Track(w: WireState, item: Item): (w': WireState)
  {
    match w
    case Outside => (match item case App(_) => Outside case ExtInfo => Outside case KexInit => Inside case _ => Broken)
    case Inside => (match item case KexMessage => Inside case NewKeys => Outside case _ => Broken)
    case Broken => Broken
  }

  function Scan(wire: seq<Item>): (w: WireState)
  {
    if wire == [] then Outside else Track(Scan(wire[..|wire| - 1]), wire[|wire| - 1])
  }

  lemma {:induction false} ScanAppend(wire: seq<Item>, item: Item)
    ensures Scan(wire + [item]) == Track(Scan(wire), item)
  {
    assert (wire + [item])[..|wire|] == wire;
  }

  /** The application packets on the wire, in order. */
  function AppsOn(wire: seq<Item>): (ps: seq<packet>)
  {
    if wire == [] then []
    else AppsOn(wire[..|wire| - 1]) + (if wire[|wire| - 1].App? then [wire[|wire| - 1].p] else [])
  }

  lemma {:induction false} AppsOnAppend(wire: seq<Item>, item: Item)
    ensures AppsOn(wire + [item]) == AppsOn(wire) + if item.App? then [item.p] else []
  {
    assert (wire + [item])[..|wire|] == wire;
  }

  /** Pushing application packets outside an exchange keeps the grammar and appends them. */
  lemma {:induction false} PushAll(wire: seq<Item>, ps: seq<packet>)
    ensures AppsOn(wire + Apps(ps)) == AppsOn(wire) + ps
    ensures Scan(wire) == Outside ==> Scan(wire + Apps(ps)) == Outside
    ensures Scan(wire) == Inside ==> Scan(wire + Apps(ps)) == if ps == [] then Inside else Broken
    ensures Scan(wire) == Broken ==> Scan(wire + Apps(ps)) == Broken
    decreases |ps|
  {
    if ps == [] {
      assert wire + Apps(ps) == wire;
    } else {
      var n := |ps| - 1;
      PushAll(wire, ps[..n]);
      assert wire + Apps(ps) == (wire + Apps(ps[..n])) + [App(ps[n])];
      ScanAppend(wire + Apps(ps[..n]), App(ps[n]));
      AppsOnAppend(wire + Apps(ps[..n]), App(ps[n]));
      assert ps == ps[..n] + [ps[n]];
    }
  }

  /** What every step of a run keeps. `accepted` lists the packets accepted so far, in order. */
  ghost predicate Ordered(wire: seq<Item>, sentInit: bool, pending: seq<packet>, phase: Phase, accepted: seq<packet>)
  {
    && |pending| <= MAX_PENDING
    && (!sentInit ==> pending == [] && phase == Waiting)
    && Scan(wire) == (if sentInit && phase != Exchanging(true) then Inside else Outside)
    && accepted == AppsOn(wire) + pending
  }

  ghost predicate Inv(s: State, accepted: seq<packet>)
  {
    !s.writeError && Ordered(s.wire, s.sentInit, s.pending, s.phase, accepted)
  }

  lemma {:induction false} OrderedSend(wire: seq<Item>, accepted: seq<packet>, p: packet)
    requires Ordered(wire, false, [], Waiting, accepted)
    ensures Ordered(wire + [App(p)], false, [], Waiting, accepted + [p])
  {
    ScanAppend(wire, App(p));
    AppsOnAppend(wire, App(p));
  }

  lemma {:induction false} OrderedQueue(wire: seq<Item>, pending: seq<packet>, phase: Phase, accepted: seq<packet>, p: packet)
    requires Ordered(wire, true, pending, phase, accepted) && |pending| < MAX_PENDING
    ensures Ordered(wire, true, pending + [p], phase, accepted + [p])
  {
    assert AppsOn(wire) + pending + [p] == AppsOn(wire) + (pending + [p]);
  }

  lemma {:induction false} OrderedKex(wire: seq<Item>, sentInit: bool, pending: seq<packet>, phase: Phase, accepted: seq<packet>,
                   item: Item, phase': Phase)
    requires Ordered(wire, sentInit, pending, phase, accepted) && !item.App?
    requires item == KexInit ==> !sentInit && phase' == phase
    requires item == KexMessage ==> phase == phase' == Exchanging(false)
    requires item == NewKeys ==> phase == Exchanging(false) && phase' == Exchanging(true)
    requires item == ExtInfo ==> phase == phase' == Exchanging(true)
    ensures Ordered(wire + [item], true, pending, phase', accepted)
  {
    ScanAppend(wire, item);
    AppsOnAppend(wire, item);
    assert AppsOn(wire) + [] == AppsOn(wire);
  }

  lemma {:induction false} OrderedFlush(wire: seq<Item>, pending: seq<packet>, accepted: seq<packet>)
    requires Ordered(wire, true, pending, Exchanging(true), accepted)
    ensures Ordered(wire + Apps(pending), false, [], Waiting, accepted)
  {
    PushAll(wire, pending);
  }

  /** What a successful write does to the fields the ordering speaks of. */
  ghost predicate Effect(s: State, p: packet, o: Outcome, r: State)
  {
    && r.phase == s.phase && r.sentInit == s.sentInit && !r.writeError
    && (o == Sent ==> !s.sentInit && r.wire == s.wire + [App(p)] && r.pending == s.pending)
    && (o == Queued ==> s.sentInit && |s.pending| < MAX_PENDING && r.wire == s.wire && r.pending == s.pending + [p])
    && (o != Sent && o != Queued ==> r.wire == s.wire && r.pending == s.pending)
  }

  lemma {:induction false} WriteEffect(s: State, p: packet)
    requires !s.writeError
    ensures Effect(s, p, WritePacket(s, p, true).0, WritePacket(s, p, true).1)
  {
  }

  lemma {:induction false} EffectKept(s: State, accepted: seq<packet>, p: packet, o: Outcome, r: State)
    requires Inv(s, accepted) && Effect(s, p, o, r)
    ensures Inv(r, accepted + if o == Queued || o == Sent then [p] else [])
  {
    assert accepted + [] == accepted;
    if o == Sent {
      OrderedSend(s.wire, accepted, p);
    } else if o == Queued {
      OrderedQueue(s.wire, s.pending, s.phase, accepted, p);
    }
  }

  lemma {:induction false} ResumeEffect(s: State, p: packet)
    requires !s.writeError
    ensures Effect(s, p, ResumeWrite(s, p, true).0, ResumeWrite(s, p, true).1)
  {
  }

  lemma {:induction false} KexKept(s: State, accepted: seq<packet>, item: Item, phase: Phase)
    requires Inv(s, accepted) && !item.App? && s.phase == (if item == NewKeys then Exchanging(false) else phase)
    requires item == KexInit ==> !s.sentInit
    requires item == KexMessage ==> phase == Exchanging(false)
    requires item == NewKeys || item == ExtInfo ==> phase == Exchanging(true)
    ensures Inv(s.(wire := s.wire + [item], sentInit := true, phase := phase), accepted)
  {
    OrderedKex(s.wire, s.sentInit, s.pending, s.phase, accepted, item, phase);
  }

  lemma {:induction false} FinishKept(s: State, accepted: seq<packet>, threshold: int)
    requires Inv(s, accepted) && s.phase == Exchanging(true)
    ensures Inv(FinishExchange(s, false, |s.pending|, threshold), accepted)
  {
    assert s.pending[..|s.pending|] == s.pending;
    OrderedFlush(s.wire, s.pending, accepted);
  }

  lemma {:induction false} InvKept(s: State, accepted: seq<packet>, step: Step)
    requires Inv(s, accepted) && Enabled(s, step)
    ensures Inv(Next(s, step), accepted + Accepts(s, step))
  {
    assert accepted + [] == accepted;
    match step
    case Write(p) =>
      WriteEffect(s, p);
      EffectKept(s, accepted, p, WritePacket(s, p, true).0, WritePacket(s, p, true).1);
    case Resume(p) =>
      ResumeEffect(s, p);
      EffectKept(s, accepted, p, ResumeWrite(s, p, true).0, ResumeWrite(s, p, true).1);
    case StartKex(byRequest) =>
      var t := if byRequest then s.(requested := false) else s;
      assert Inv(t, accepted);
      if !t.sentInit {
        KexKept(t, accepted, KexInit, Waiting);
      }
    case EnterExchange =>
    case KexSend => KexKept(s, accepted, KexMessage, Exchanging(false));
    case SendNewKeys => KexKept(s, accepted, NewKeys, Exchanging(true));
    case SendExtInfo => KexKept(s, accepted, ExtInfo, Exchanging(true));
    case Finish(threshold) => FinishKept(s, accepted, threshold);
  }

  ghost predicate Run(states: seq<State>, steps: seq<Step>, threshold: int)
  {
    && |states| == |steps| + 1 && states[0] == Initial(threshold)
    && forall i :: 0 <= i < |steps| ==> Enabled(states[i], steps[i]) && states[i + 1] == Next(states[i], steps[i])
  }

  /** The packets accepted during the first k steps of a run. */
  ghost function Accepted(states: seq<State>, steps: seq<Step>, k: nat): (ps: seq<packet>)
    requires k <= |steps| && |states| == |steps| + 1
    requires forall i :: 0 <= i < |steps| ==> Enabled(states[i], steps[i])
  {
    if k == 0 then [] else Accepted(states, steps, k - 1) + Accepts(states[k - 1], steps[k - 1])
  }

  lemma {:induction false} Reachable(states: seq<State>, steps: seq<Step>, threshold: int, k: nat)
    requires Run(states, steps, threshold) && k < |states|
    ensures Inv(states[k], Accepted(states, steps, k))
    decreases k
  {
    if k > 0 {
      Reachable(states, steps, threshold, k - 1);
      InvKept(states[k - 1], Accepted(states, steps, k - 1), steps[k - 1]);
    }
  }

  /**
   In every run: only key-exchange messages go out between KEXINIT and NEWKEYS, the queue stays
   within its bound, and the packets on the wire followed by the queue are exactly the accepted
   packets in acceptance order, so none is lost, repeated or overtaken.
   */
  lemma {:induction false} OrderedWrites(states: seq<State>, steps: seq<Step>, threshold: int, k: nat)
    requires Run(states, steps, threshold) && k < |states|
    ensures Scan(states[k].wire) != Broken
    ensures |states[k].pending| <= MAX_PENDING
    ensures AppsOn(states[k].wire) + states[k].pending == Accepted(states, steps, k)
    ensures !states[k].sentInit ==> AppsOn(states[k].wire) == Accepted(states, steps, k)
  {
    Reachable(states, steps, threshold, k);
    if !states[k].sentInit {
      assert AppsOn(states[k].wire) + [] == AppsOn(states[k].wire);
    }
  }

  // ---------------------------------------------------------------- re-keying budgets

  /** Packets and bytes sent directly since the last exchange, the last packet's size, and the byte limit in force. */
  datatype Usage = Usage(limit: int, packets: nat, bytes: nat, last: nat)

  function Used(u: Usage, s: State, step: Step): (r: Usage)
    requires Enabled(s, step)
  {
    match step
    case Finish(threshold) => Usage(threshold, 0, 0, 0)
    case Write(p) => if WritePacket(s, p, true).0 == Sent then Usage(u.limit, u.packets + 1, u.bytes + |p|, |p|) else u
    case Resume(p) => if ResumeWrite(s, p, true).0 == Sent then Usage(u.limit, u.packets + 1, u.bytes + |p|, |p|) else u
    case _ => u
  }

  /** More packets than the threshold, or a packet sent after the byte limit was used up. */
  predicate OverBudget(u: Usage)
  {
    u.packets > PACKET_REKEY_THRESHOLD || (u.packets > 0 && u.bytes - u.last >= u.limit)
  }

  ghost predicate Budget(s: State, u: Usage)
  {
    && s.packetsLeft == (if u.packets <= PACKET_REKEY_THRESHOLD then PACKET_REKEY_THRESHOLD - u.packets else 0)
    && (if u.packets == 0 then s.bytesLeft == u.limit && u.bytes == u.last == 0
        else if u.bytes - u.last < u.limit then s.bytesLeft == u.limit - u.bytes
        else s.bytesLeft <= 0)
    && (OverBudget(u) ==> s.requested || s.sentInit)
  }

  lemma {:induction false} DirectBudget(s: State, u: Usage, p: packet)
    requires Budget(s, u) && !s.sentInit
    ensures Budget(DirectWrite(s, p, true), Usage(u.limit, u.packets + 1, u.bytes + |p|, |p|))
  {
  }

  lemma {:induction false} BudgetKept(s: State, u: Usage, step: Step)
    requires Budget(s, u) && Enabled(s, step)
    ensures Budget(Next(s, step), Used(u, s, step))
  {
    match step
    case Write(p) =>
      if WritePacket(s, p, true).0 == Sent {
        DirectBudget(if p[0] == MSG_USER_AUTH_SUCCESS then s.(authComplete := true) else s, u, p);
      }
    case Resume(p) =>
      if ResumeWrite(s, p, true).0 == Sent {
        DirectBudget(s, u, p);
      }
    case _ =>
  }

  ghost function UsageAt(states: seq<State>, steps: seq<Step>, threshold: int, k: nat): (u: Usage)
    requires k <= |steps| && |states| == |steps| + 1
    requires forall i :: 0 <= i < |steps| ==> Enabled(states[i], steps[i])
  {
    if k == 0 then Usage(threshold, 0, 0, 0) else Used(UsageAt(states, steps, threshold, k - 1), states[k - 1], steps[k - 1])
  }

  /**
   In every run, as soon as one key has carried more direct packets than the threshold, or a packet
   beyond its byte limit, a new exchange has been requested or begun.
   */
  lemma {:induction false} RekeyRequested(states: seq<State>, steps: seq<Step>, threshold: int, k: nat)
    requires Run(states, steps, threshold) && k < |states|
    ensures Budget(states[k], UsageAt(states, steps, threshold, k))
    ensures OverBudget(UsageAt(states, steps, threshold, k)) ==> states[k].requested || states[k].sentInit
    decreases k
  {
    if k > 0 {
      RekeyRequested(states, steps, threshold, k - 1);
      BudgetKept(states[k - 1], UsageAt(states, steps, threshold, k - 1), steps[k - 1]);
    }
  }

  // ---------------------------------------------------------------- exchanges that fail

  /**
   An exchange that fails, at any point and with any of the pushes after it failing too, still flushes
   the queue. The wire grammar survives exactly when NEWKEYS was out, nothing was queued, or already
   the first push failed. The failure is remembered exactly when nothing was queued or a push failed.
   The wire holds a prefix of the accepted packets in order, and all of them exactly when no push failed.
   */
  lemma {:induction false} FailedExchange(s: State, accepted: seq<packet>, failAt: nat, threshold: int)
    requires Inv(s, accepted) && s.phase.Exchanging?
    ensures var r := FinishExchange(s, true, failAt, threshold);
            && (Scan(r.wire) != Broken <==> s.phase.newKeysSent || s.pending == [] || failAt == 0)
            && (r.writeError <==> s.pending == [] || failAt < |s.pending|)
            && AppsOn(r.wire) <= accepted
            && (AppsOn(r.wire) == accepted <==> failAt >= |s.pending|)
  {
    var n := if failAt < |s.pending| then failAt else |s.pending|;
    PushAll(s.wire, s.pending[..n]);
    Prefix(AppsOn(s.wire), s.pending, n);
  }

  lemma {:induction false} Prefix(a: seq<packet>, b: seq<packet>, n: nat)
    requires n <= |b|
    ensures a + b[..n] <= a + b && (a + b[..n] == a + b <==> n == |b|)
  {
    assert a + b == a + b[..n] + b[n..];
  }

  /** A concrete run: one packet queued during the exchange, which then fails. */
  lemma {:induction false} FailureExample(p: packet)
    requires p[0] > MSG_USER_AUTH_BANNER
    ensures var t := WritePacket(SendKexInit(Initial(1), true), p, true).1.(phase := Exchanging(false));
            var r := FinishExchange(t, true, |t.pending|, 1);
            Scan(r.wire) == Broken && !r.writeError
  {
    var s := SendKexInit(Initial(1), true);
    ScanAppend([], KexInit);
    assert [] + [KexInit] == [KexInit];
    var t := WritePacket(s, p, true).1.(phase := Exchanging(false));
    assert t.pending == [p] && t.wire == [KexInit];
    assert t.pending[..|t.pending|] == [p];
    PushAll([KexInit], [p]);
  }
}
