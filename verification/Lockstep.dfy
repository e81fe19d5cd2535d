/**
 The two endpoints of Transport stay in lockstep over every run and any number of re-keys when they
 agree on strict mode. When they do not, a packet is unreadable exactly when its cipher uses the
 sequence number and the two ways of counting give different numbers there.
 */
module Lockstep {
  import opened Negotiate
  import opened Transport

  ghost predicate WriterOk(x: Script, role: Role, log: seq<Packet>, writer: Conn)
  {
    && Stamped(x, role, log)
    && writer.cipher == CipherAt(x, role, Scan(x, role, log))
    && writer.seqNum == SeqAfter(log, TurnsStrict(x, role))
  }

  ghost predicate ReaderOk(x: Script, role: Role, incoming: seq<Packet>, got: nat, reader: Conn)
  {
    && got <= |incoming|
    && reader.cipher == CipherAt(x, Peer(role), Scan(x, Peer(role), incoming[..got]))
    && reader.seqNum == SeqAfter(incoming[..got], TurnsStrict(x, role))
  }

  lemma {:induction false} StampedAppend(x: Script, role: Role, log: seq<Packet>, p: Packet)
    requires Stamped(x, role, log) && Track(x, role, Scan(x, role, log), p.kind) != Bad
    requires p.cipher == CipherAt(x, role, Scan(x, role, log)) && p.seqNum == SeqAfter(log, TurnsStrict(x, role))
    ensures Stamped(x, role, log + [p])
  {
    ScanAppend(x, role, log, p);
    forall i | 0 <= i < |log + [p]|
      ensures (log + [p])[i].cipher == CipherAt(x, role, Scan(x, role, (log + [p])[..i]))
      ensures (log + [p])[i].seqNum == SeqAfter((log + [p])[..i], TurnsStrict(x, role))
    {
      if i < |log| {
        assert (log + [p])[..i] == log[..i];
      } else {
        assert (log + [p])[..i] == log;
      }
    }
  }

  /** NEWKEYS may only be sent or taken with the right cipher waiting and strict mode settled. */
  ghost predicate Ready(x: Script, writer: Role, g: Stage, kind: Kind, slot: Slot, strict: bool, reader: Role)
  {
    kind.NewKeys? ==> !g.Bad? && slot == Full(CipherOf(x, writer, g.r + 1)) && strict == TurnsStrict(x, reader)
  }

  lemma {:induction false} TrackCipher(x: Script, role: Role, g: Stage, kind: Kind)
    requires Track(x, role, g, kind) != Bad
    ensures !g.Bad?
    ensures CipherAt(x, role, Track(x, role, g, kind)) == if kind.NewKeys? then CipherOf(x, role, g.r + 1) else CipherAt(x, role, g)
  {
  }

  /** Pass, as the writing side sees it. */
  lemma {:induction false} WriterPasses(x: Script, role: Role, log: seq<Packet>, c: Conn, kind: Kind, strict: bool, g: Stage, p: Packet)
    requires WriterOk(x, role, log, c) && g == Scan(x, role, log) && p == Packet(kind, c.cipher, c.seqNum)
    requires Track(x, role, g, kind) != Bad && Ready(x, role, g, kind, c.slot, strict, role)
    ensures Pass(c, kind.NewKeys?, strict).Passed?
    ensures WriterOk(x, role, log + [p], Pass(c, kind.NewKeys?, strict).conn)
    ensures Scan(x, role, log + [p]) == Track(x, role, g, kind)
    ensures Pass(c, kind.NewKeys?, strict).conn.slot == if kind.NewKeys? then Empty else c.slot
  {
    StampedAppend(x, role, log, p);
    ScanAppend(x, role, log, p);
    SeqAppend(log, p, TurnsStrict(x, role));
    TrackCipher(x, role, g, kind);
  }

  lemma {:induction false} SendKept(x: Script, role: Role, e: Endpoint, kind: Kind, g: Stage)
    requires WriterOk(x, role, e.log, e.writer) && g == Scan(x, role, e.log)
    requires Track(x, role, g, kind) != Bad && Ready(x, role, g, kind, e.writer.slot, e.strict, role)
    ensures var r := Send(e, kind);
            && r == e.(log := r.log, writer := r.writer) && e.log <= r.log
            && WriterOk(x, role, r.log, r.writer) && Scan(x, role, r.log) == Track(x, role, g, kind)
            && r.writer.slot == if kind.NewKeys? then Empty else e.writer.slot
  {
    WriterPasses(x, role, e.log, e.writer, kind, e.strict, g, Packet(kind, e.writer.cipher, e.writer.seqNum));
  }

  lemma {:induction false} NextKind(x: Script, role: Role, log: seq<Packet>, n: nat)
    requires Scan(x, role, log) != Bad && n < |log|
    ensures Track(x, role, Scan(x, role, log[..n]), log[n].kind) == Scan(x, role, log[..n + 1]) != Bad
  {
    ScanPrefix(x, role, log, n + 1);
    assert log[..n + 1] == log[..n] + [log[n]];
    ScanAppend(x, role, log[..n], log[n]);
  }

  /** The reader expects exactly the stamp of the next packet, if it counts as the writer does. */
  lemma {:induction false} ReaderExpects(x: Script, role: Role, incoming: seq<Packet>, got: nat, c: Conn)
    requires ReaderOk(x, role, incoming, got, c) && Stamped(x, Peer(role), incoming) && got < |incoming|
    ensures c.cipher == incoming[got].cipher
    ensures c.seqNum == incoming[got].seqNum <==>
            SeqAfter(incoming[..got], TurnsStrict(x, role)) == SeqAfter(incoming[..got], TurnsStrict(x, Peer(role)))
  {
  }

  /** Pass, as the reading side sees it. */
  lemma {:induction false} ReaderPasses(x: Script, role: Role, incoming: seq<Packet>, got: nat, c: Conn, strict: bool, g: Stage, kind: Kind)
    requires ReaderOk(x, role, incoming, got, c) && Stamped(x, Peer(role), incoming) && got < |incoming|
    requires g == Scan(x, Peer(role), incoming[..got]) && kind == incoming[got].kind
    requires Ready(x, Peer(role), g, kind, c.slot, strict, role)
    ensures Pass(c, kind.NewKeys?, strict).Passed?
    ensures ReaderOk(x, role, incoming, got + 1, Pass(c, kind.NewKeys?, strict).conn)
    ensures Scan(x, Peer(role), incoming[..got + 1]) == Track(x, Peer(role), g, kind) != Bad
    ensures Pass(c, kind.NewKeys?, strict).conn.slot == if kind.NewKeys? then Empty else c.slot
  {
    NextKind(x, Peer(role), incoming, got);
    assert incoming[..got + 1] == incoming[..got] + [incoming[got]];
    SeqAppend(incoming[..got], incoming[got], TurnsStrict(x, role));
    TrackCipher(x, Peer(role), g, kind);
  }

  /** Packet i of a direction is unreadable for an end that counts differently from the writer. */
  predicate Garbled(x: Script, incoming: seq<Packet>, i: nat)
    requires i < |incoming|
  {
    !StrictAgree(x) && UsesNumber(incoming[i].cipher) && LastKeys(incoming[..i]) % 0x1_0000_0000 != 0
  }

  /** Reader and writer of a direction count alike exactly when they agree or the rules do. */
  lemma {:induction false} CountAlike(x: Script, role: Role, log: seq<Packet>)
    ensures SeqAfter(log, TurnsStrict(x, role)) == SeqAfter(log, TurnsStrict(x, Peer(role))) <==>
            StrictAgree(x) || LastKeys(log) % 0x1_0000_0000 == 0
  {
    RulesAgree(log);
  }

  lemma {:induction false} TakeKept(x: Script, role: Role, e: Endpoint, incoming: seq<Packet>, g: Stage)
    requires ReaderOk(x, role, incoming, e.got, e.reader) && Stamped(x, Peer(role), incoming) && e.got < |incoming|
    requires g == Scan(x, Peer(role), incoming[..e.got])
    requires Ready(x, Peer(role), g, incoming[e.got].kind, e.reader.slot, e.strict, role)
    ensures var p, r := incoming[e.got], Take(e, incoming[e.got]);
            if Garbled(x, incoming, e.got)
            then r == e.(phase := Broken(Skewed))
            else
              && r == e.(got := e.got + 1, reader := r.reader)
              && ReaderOk(x, role, incoming, r.got, r.reader)
              && Scan(x, Peer(role), incoming[..r.got]) == Track(x, Peer(role), g, p.kind) != Bad
              && r.reader.slot == if p.kind.NewKeys? then Empty else e.reader.slot
  {
    ReaderExpects(x, role, incoming, e.got, e.reader);
    CountAlike(x, role, incoming[..e.got]);
    ReaderPasses(x, role, incoming, e.got, e.reader, e.strict, g, incoming[e.got].kind);
  }

  // ---------------------------------------------------------------- the invariant

  function Program(x: Script, a: Algorithms): (p: seq<Role>)
  {
    x.program(a.keyExchange)
  }

  /** How the phase of an endpoint relates to what it wrote (stage gw) and what it read (stage gr). */
  ghost predicate Shape(x: Script, role: Role, e: Endpoint, gw: Stage, gr: Stage)
  {
    var other := Peer(role);
    match e.phase
    case Idle =>
      && gw == (if e.sentInit then Within(e.done, 0) else Open(e.done)) && gr == Open(e.done)
      && e.writer.slot == Empty && e.reader.slot == Empty && e.strict == (TurnsStrict(x, role) && e.done > 0)
    case Pending(i) =>
      && gw == (if e.sentInit then Within(e.done, 0) else Open(e.done)) && gr == Within(e.done, 0)
      && i == InitOf(x, other, e.done)
      && e.writer.slot == Empty && e.reader.slot == Empty && e.strict == (TurnsStrict(x, role) && e.done > 0)
    case Exchange(a, pos) =>
      && e.sentInit && RoundAgreement(x, role, e.done) == Agreed(a) && pos <= |Program(x, a)|
      && gw == Within(e.done, Count(role, Program(x, a)[..pos]))
      && gr == Within(e.done, Count(other, Program(x, a)[..pos]))
      && e.writer.slot == Empty && e.reader.slot == Empty && e.strict == TurnsStrict(x, role)
    case Prepared =>
      && e.sentInit && RoundAgreement(x, Client, e.done).Agreed?
      && gw == Within(e.done, Quota(x, role, e.done)) && gr == Within(e.done, Quota(x, other, e.done))
      && e.writer.slot == Full(CipherOf(x, role, e.done + 1)) && e.reader.slot == Full(CipherOf(x, other, e.done + 1))
      && e.strict == TurnsStrict(x, role)
    case AwaitNewKeys =>
      && e.sentInit && RoundAgreement(x, Client, e.done).Agreed?
      && gw == Open(e.done + 1) && gr == Within(e.done, Quota(x, other, e.done))
      && e.writer.slot == Empty && e.reader.slot == Full(CipherOf(x, other, e.done + 1))
      && e.strict == TurnsStrict(x, role)
    case GaveUp => RoundAgreement(x, Client, e.done).Refused?
    case Broken(fault) => fault == Skewed
  }

  /** Everything read so far was readable, and an endpoint that is out of step stands before a garbled packet. */
  ghost predicate Readable(x: Script, incoming: seq<Packet>, got: nat, broken: bool)
  {
    && got <= |incoming|
    && (forall i :: 0 <= i < got ==> !Garbled(x, incoming, i))
    && (broken ==> got < |incoming| && Garbled(x, incoming, got))
  }

  ghost predicate Inv(x: Script, role: Role, e: Endpoint, incoming: seq<Packet>)
  {
    && WriterOk(x, role, e.log, e.writer)
    && ReaderOk(x, role, incoming, e.got, e.reader)
    && Shape(x, role, e, Scan(x, role, e.log), Scan(x, Peer(role), incoming[..e.got]))
    && Readable(x, incoming, e.got, e.phase.Broken?)
  }

  ghost predicate Mirrors(x: Script)
  {
    forall c, s {:trigger x.negotiate(false, c, s)} :: x.negotiate(false, c, s) == Mirror(x.negotiate(true, c, s))
  }

  /** Both ends use the same key exchange, and one end writes with what the other reads with. */
  lemma {:induction false} SameRound(x: Script, role: Role, r: nat)
    requires Mirrors(x)
    ensures RoundAgreement(x, role, r).Agreed? <==> RoundAgreement(x, Client, r).Agreed?
    ensures RoundAgreement(x, role, r).Agreed? ==>
              var a := RoundAgreement(x, role, r).algorithms;
              && a.keyExchange == RoundAgreement(x, Client, r).algorithms.keyExchange
              && Keyed(r + 1, role, a.write) == CipherOf(x, role, r + 1)
              && Keyed(r + 1, Peer(role), a.read) == CipherOf(x, Peer(role), r + 1)
  {
  }

  // ---------------------------------------------------------------- sequence numbers around the first exchange

  lemma {:induction false} FirstRound(x: Script, role: Role, log: seq<Packet>, strict: bool)
    requires !Scan(x, role, log).Bad? && Scan(x, role, log).r == 0
    ensures Scan(x, role, log).Open? ==> log == []
    ensures Scan(x, role, log).Within? ==> |log| == Scan(x, role, log).k + 1
    ensures |log| < 0x1_0000_0000 ==> SeqAfter(log, strict) == |log|
    decreases |log|
  {
    if log != [] {
      FirstRound(x, role, log[..|log| - 1], strict);
    }
  }

  // ---------------------------------------------------------------- every action keeps the invariant

  ghost predicate Kept(x: Script, role: Role, e: Endpoint, incoming: seq<Packet>, r: Endpoint)
  {
    e.log <= r.log && Inv(x, role, r, incoming)
  }

  /** Packets other than kex messages leave the stage of a direction alone. */
  lemma {:induction false} OtherShape(x: Script, role: Role, e: Endpoint, gw: Stage, gr: Stage, r: Endpoint)
    requires Shape(x, role, e, gw, gr) && Track(x, role, gw, Other) != Bad
    requires r == e.(log := r.log, writer := r.writer) && r.writer.slot == e.writer.slot
    ensures Track(x, role, gw, Other) == gw && Shape(x, role, r, gw, gr)
  {
  }

  lemma {:induction false} StartKexKeeps(x: Script, role: Role, e: Endpoint, incoming: seq<Packet>)
    requires Mirrors(x) && Inv(x, role, e, incoming) && Enabled(x, role, e, incoming, StartKex)
    ensures Kept(x, role, e, incoming, Next(x, role, e, incoming, StartKex))
  {
    SendKept(x, role, e, KexInitPacket(InitOf(x, role, e.done)), Scan(x, role, e.log));
  }

  lemma {:induction false} SendOtherKeeps(x: Script, role: Role, e: Endpoint, incoming: seq<Packet>)
    requires Mirrors(x) && Inv(x, role, e, incoming) && Enabled(x, role, e, incoming, SendOther)
    ensures Kept(x, role, e, incoming, Next(x, role, e, incoming, SendOther))
  {
    SendKept(x, role, e, Other, Scan(x, role, e.log));
    OtherShape(x, role, e, Scan(x, role, e.log), Scan(x, Peer(role), incoming[..e.got]), Send(e, Other));
  }

  lemma {:induction false} SendExtInfoKeeps(x: Script, role: Role, e: Endpoint, incoming: seq<Packet>)
    requires Mirrors(x) && Inv(x, role, e, incoming) && Enabled(x, role, e, incoming, SendExtInfo)
    ensures Kept(x, role, e, incoming, Next(x, role, e, incoming, SendExtInfo))
  {
    SendKept(x, role, e, Other, Scan(x, role, e.log));
    OtherShape(x, role, e, Scan(x, role, e.log), Scan(x, Peer(role), incoming[..e.got]), Send(e, Other));
  }

  lemma {:induction false} SendNewKeysKeeps(x: Script, role: Role, e: Endpoint, incoming: seq<Packet>)
    requires Mirrors(x) && Inv(x, role, e, incoming) && Enabled(x, role, e, incoming, SendNewKeys)
    ensures Kept(x, role, e, incoming, Next(x, role, e, incoming, SendNewKeys))
  {
    var g, gr := Scan(x, role, e.log), Scan(x, Peer(role), incoming[..e.got]);
    NewKeysReady(x, role, e, g, gr);
    SendKept(x, role, e, NewKeys, g);
    NewKeysShape(x, role, e, g, gr, Send(e, NewKeys));
  }

  lemma {:induction false} NewKeysReady(x: Script, role: Role, e: Endpoint, gw: Stage, gr: Stage)
    requires Shape(x, role, e, gw, gr) && e.phase.Prepared?
    ensures Track(x, role, gw, NewKeys) != Bad && Ready(x, role, gw, NewKeys, e.writer.slot, e.strict, role)
  {
  }

  lemma {:induction false} NewKeysShape(x: Script, role: Role, e: Endpoint, gw: Stage, gr: Stage, t: Endpoint)
    requires Shape(x, role, e, gw, gr) && e.phase.Prepared?
    requires t == e.(log := t.log, writer := t.writer) && t.writer.slot == Empty
    ensures Shape(x, role, t.(phase := AwaitNewKeys), Track(x, role, gw, NewKeys), gr)
  {
  }

  lemma {:induction false} KexShape(x: Script, role: Role, e: Endpoint, gw: Stage, gr: Stage, t: Endpoint)
    requires Mirrors(x) && Shape(x, role, e, gw, gr) && e.phase.Exchange? && Turn(x, e.phase.algorithms, e.phase.pos) == [role]
    requires t == e.(log := t.log, writer := t.writer) && t.writer.slot == e.writer.slot
    ensures Track(x, role, gw, KexPacket) != Bad
    ensures Shape(x, role, t.(phase := Exchange(e.phase.algorithms, e.phase.pos + 1)), Track(x, role, gw, KexPacket), gr)
  {
    var a, pos := e.phase.algorithms, e.phase.pos;
    SameRound(x, role, e.done);
    CountStep(role, Program(x, a), pos);
    CountStep(Peer(role), Program(x, a), pos);
    CountMonotone(role, Program(x, a), pos + 1);
  }

  lemma {:induction false} KexSendKeeps(x: Script, role: Role, e: Endpoint, incoming: seq<Packet>)
    requires Mirrors(x) && Inv(x, role, e, incoming) && Enabled(x, role, e, incoming, KexSend)
    ensures Kept(x, role, e, incoming, Next(x, role, e, incoming, KexSend))
  {
    var g, gr := Scan(x, role, e.log), Scan(x, Peer(role), incoming[..e.got]);
    KexShape(x, role, e, g, gr, e);
    SendKept(x, role, e, KexPacket, g);
    KexShape(x, role, e, g, gr, Send(e, KexPacket));
  }

  lemma {:induction false} EnterKeeps(x: Script, role: Role, e: Endpoint, incoming: seq<Packet>)
    requires Mirrors(x) && Inv(x, role, e, incoming) && Enabled(x, role, e, incoming, Enter)
    ensures Kept(x, role, e, incoming, Next(x, role, e, incoming, Enter))
  {
    SameRound(x, role, e.done);
    if e.done == 0 {
      FirstRound(x, Peer(role), incoming[..e.got], TurnsStrict(x, role));
    }
  }

  lemma {:induction false} PrepareShape(x: Script, role: Role, e: Endpoint, gw: Stage, gr: Stage)
    requires Mirrors(x) && Shape(x, role, e, gw, gr) && e.phase.Exchange? && Turn(x, e.phase.algorithms, e.phase.pos) == []
    ensures var r := PreparedKeys(role, e, e.phase.algorithms);
            Shape(x, role, r, gw, gr) && r.phase == Prepared
  {
    var a, pos := e.phase.algorithms, e.phase.pos;
    SameRound(x, role, e.done);
    assert Program(x, a)[..pos] == Program(x, a);
  }

  lemma {:induction false} PrepareKeeps(x: Script, role: Role, e: Endpoint, incoming: seq<Packet>)
    requires Mirrors(x) && Inv(x, role, e, incoming) && Enabled(x, role, e, incoming, Prepare)
    ensures Kept(x, role, e, incoming, Next(x, role, e, incoming, Prepare))
  {
    PrepareShape(x, role, e, Scan(x, role, e.log), Scan(x, Peer(role), incoming[..e.got]));
  }

  /** The next incoming packet is one the phase can handle. */
  lemma {:induction false} Expected(x: Script, role: Role, e: Endpoint, incoming: seq<Packet>, g: Stage, kind: Kind)
    requires Mirrors(x) && Shape(x, role, e, Scan(x, role, e.log), g) && Enabled(x, role, e, incoming, Receive)
    requires Track(x, Peer(role), g, kind) != Bad
    ensures Ready(x, Peer(role), g, kind, e.reader.slot, e.strict, role)
    ensures e.phase.Idle? ==> (kind.Other? && e.done > 0) || kind == KexInitPacket(InitOf(x, Peer(role), e.done))
    ensures e.phase.AwaitNewKeys? ==> kind.NewKeys?
    ensures e.phase.Exchange? ==> kind.KexPacket?
  {
    if e.phase.Exchange? {
      ExpectedInExchange(x, role, e, g, kind);
    }
  }

  lemma {:induction false} ExpectedInExchange(x: Script, role: Role, e: Endpoint, g: Stage, kind: Kind)
    requires Mirrors(x) && Shape(x, role, e, Scan(x, role, e.log), g) && e.phase.Exchange?
    requires Turn(x, e.phase.algorithms, e.phase.pos) == [Peer(role)] && Track(x, Peer(role), g, kind) != Bad
    ensures kind.KexPacket?
  {
    var a, pos := e.phase.algorithms, e.phase.pos;
    SameRound(x, role, e.done);
    CountStep(Peer(role), Program(x, a), pos);
    CountMonotone(Peer(role), Program(x, a), pos + 1);
  }

  /** Handling a packet that was taken in step. */
  lemma {:induction false} ReceivedShape(x: Script, role: Role, e: Endpoint, incoming: seq<Packet>, gw: Stage, g: Stage, kind: Kind,
                      t: Endpoint, r: Endpoint)
    requires Mirrors(x) && Shape(x, role, e, gw, g) && gw == Scan(x, role, e.log) && Enabled(x, role, e, incoming, Receive)
    requires Track(x, Peer(role), g, kind) != Bad
    requires t == e.(got := e.got + 1, reader := t.reader)
    requires t.reader.slot == if kind.NewKeys? then Empty else e.reader.slot
    requires r == Received(t, kind)
    ensures Shape(x, role, r, gw, Track(x, Peer(role), g, kind))
    ensures r == t.(phase := r.phase, sentInit := r.sentInit, done := r.done)
  {
    Expected(x, role, e, incoming, g, kind);
    if e.phase.Exchange? {
      var a, pos := e.phase.algorithms, e.phase.pos;
      SameRound(x, role, e.done);
      CountStep(role, Program(x, a), pos);
      CountStep(Peer(role), Program(x, a), pos);
    }
  }

  lemma {:induction false} ReadableStep(x: Script, incoming: seq<Packet>, got: nat)
    requires Readable(x, incoming, got, false) && got < |incoming|
    ensures if Garbled(x, incoming, got) then Readable(x, incoming, got, true) else Readable(x, incoming, got + 1, false)
  {
  }

  lemma {:induction false} ReceiveKeeps(x: Script, role: Role, e: Endpoint, incoming: seq<Packet>)
    requires Mirrors(x) && Inv(x, role, e, incoming) && Enabled(x, role, e, incoming, Receive)
    requires Stamped(x, Peer(role), incoming)
    ensures Kept(x, role, e, incoming, Next(x, role, e, incoming, Receive))
  {
    var gw, g, kind := Scan(x, role, e.log), Scan(x, Peer(role), incoming[..e.got]), incoming[e.got].kind;
    NextKind(x, Peer(role), incoming, e.got);
    Expected(x, role, e, incoming, g, kind);
    TakeKept(x, role, e, incoming, g);
    ReadableStep(x, incoming, e.got);
    ReceiveCases(x, role, e, incoming, gw, g, kind, Garbled(x, incoming, e.got), Take(e, incoming[e.got]));
  }

  lemma {:induction false} ReceiveCases(x: Script, role: Role, e: Endpoint, incoming: seq<Packet>, gw: Stage, g: Stage, kind: Kind,
                                        garbled: bool, t: Endpoint)
    requires Mirrors(x) && WriterOk(x, role, e.log, e.writer) && ReaderOk(x, role, incoming, e.got, e.reader)
    requires Shape(x, role, e, gw, g) && Enabled(x, role, e, incoming, Receive)
    requires gw == Scan(x, role, e.log) && g == Scan(x, Peer(role), incoming[..e.got]) && kind == incoming[e.got].kind
    requires t == Take(e, incoming[e.got])
    requires garbled ==> t == e.(phase := Broken(Skewed)) && Readable(x, incoming, e.got, true)
    requires !garbled ==>
               && Readable(x, incoming, e.got + 1, false) && t == e.(got := e.got + 1, reader := t.reader)
               && ReaderOk(x, role, incoming, t.got, t.reader)
               && Scan(x, Peer(role), incoming[..t.got]) == Track(x, Peer(role), g, kind) != Bad
               && t.reader.slot == if kind.NewKeys? then Empty else e.reader.slot
    ensures Kept(x, role, e, incoming, Next(x, role, e, incoming, Receive))
  {
    if !garbled {
      ReceivedShape(x, role, e, incoming, gw, g, kind, t, Received(t, kind));
    }
  }

  lemma {:induction false} StepKeeps(x: Script, role: Role, e: Endpoint, incoming: seq<Packet>, action: Action)
    requires Mirrors(x) && Inv(x, role, e, incoming) && Stamped(x, Peer(role), incoming)
    requires Enabled(x, role, e, incoming, action)
    ensures Kept(x, role, e, incoming, Next(x, role, e, incoming, action))
  {
    match action
    case StartKex => StartKexKeeps(x, role, e, incoming);
    case SendOther => SendOtherKeeps(x, role, e, incoming);
    case SendExtInfo => SendExtInfoKeeps(x, role, e, incoming);
    case Receive => ReceiveKeeps(x, role, e, incoming);
    case Enter => EnterKeeps(x, role, e, incoming);
    case KexSend => KexSendKeeps(x, role, e, incoming);
    case Prepare => PrepareKeeps(x, role, e, incoming);
    case SendNewKeys => SendNewKeysKeeps(x, role, e, incoming);
  }

  lemma {:induction false} ReadableFrame(x: Script, incoming: seq<Packet>, more: seq<Packet>, got: nat, broken: bool)
    requires Readable(x, incoming, got, broken) && incoming <= more
    ensures Readable(x, more, got, broken)
  {
    forall i | 0 <= i < |incoming|
      ensures Garbled(x, more, i) == Garbled(x, incoming, i)
    {
      assert more[..i] == incoming[..i];
    }
  }

  /** What the other end goes on to write does not disturb an endpoint. */
  lemma {:induction false} InvFrame(x: Script, role: Role, e: Endpoint, incoming: seq<Packet>, more: seq<Packet>)
    requires Inv(x, role, e, incoming) && incoming <= more
    ensures Inv(x, role, e, more)
  {
    ReadableFrame(x, incoming, more, e.got, e.phase.Broken?);
    assert more[..e.got] == incoming[..e.got];
  }

  // ---------------------------------------------------------------- runs

  datatype System = System(client: Endpoint, server: Endpoint)

  function Start(): (e: Endpoint)
  {
    Endpoint(Idle, false, 0, false, Conn(Plain, 0, Empty), Conn(Plain, 0, Empty), [], 0)
  }

  function End(s: System, role: Role): (e: Endpoint)
  {
    if role == Client then s.client else s.server
  }

  predicate CanStep(x: Script, s: System, role: Role, action: Action)
  {
    Enabled(x, role, End(s, role), End(s, Peer(role)).log, action)
  }

  function Stepped(x: Script, s: System, role: Role, action: Action): (t: System)
    requires CanStep(x, s, role, action)
  {
    var e := Next(x, role, End(s, role), End(s, Peer(role)).log, action);
    if role == Client then s.(client := e) else s.(server := e)
  }

  ghost predicate Run(x: Script, states: seq<System>, moves: seq<(Role, Action)>)
  {
    && |states| == |moves| + 1 && states[0] == System(Start(), Start())
    && forall i :: 0 <= i < |moves| ==>
         CanStep(x, states[i], moves[i].0, moves[i].1) && states[i + 1] == Stepped(x, states[i], moves[i].0, moves[i].1)
  }

  ghost predicate SystemInv(x: Script, s: System)
  {
    Inv(x, Client, s.client, s.server.log) && Inv(x, Server, s.server, s.client.log)
  }

  lemma {:induction false} SystemKept(x: Script, s: System, role: Role, action: Action)
    requires Mirrors(x) && SystemInv(x, s) && CanStep(x, s, role, action)
    ensures SystemInv(x, Stepped(x, s, role, action))
  {
    var e, o := End(s, role), End(s, Peer(role));
    StepKeeps(x, role, e, o.log, action);
    InvFrame(x, Peer(role), o, e.log, Next(x, role, e, o.log, action).log);
  }

  lemma {:induction false} Reachable(x: Script, states: seq<System>, moves: seq<(Role, Action)>, k: nat)
    requires Mirrors(x) && Run(x, states, moves) && k < |states|
    ensures SystemInv(x, states[k])
    decreases k
  {
    if k > 0 {
      Reachable(x, states, moves, k - 1);
      SystemKept(x, states[k - 1], moves[k - 1].0, moves[k - 1].1);
    }
  }

  // ---------------------------------------------------------------- the theorems

  /** The scripts of this library use its negotiation; KEXINITs and key-exchange methods are arbitrary. */
  ghost predicate Library(x: Script)
  {
    x.negotiate == Negotiated
  }

  lemma {:induction false} LibraryMirrors(x: Script)
    requires Library(x)
    ensures Mirrors(x)
  {
    forall c, s
      ensures x.negotiate(false, c, s) == Mirror(x.negotiate(true, c, s))
    {
      Mirrored(c, s);
    }
  }

  /**
   If the ends agree on strict mode, then in every state of every run no endpoint is at fault, the
   next packet of each direction is expected with exactly the cipher, algorithms and sequence number
   it was written with, and the pending-cipher slots are empty whenever the next exchange starts.
   */
  lemma {:induction false} InLockstep(x: Script, states: seq<System>, moves: seq<(Role, Action)>, k: nat, role: Role)
    requires Library(x) && StrictAgree(x) && Run(x, states, moves) && k < |states|
    ensures var e, incoming := End(states[k], role), End(states[k], Peer(role)).log;
            && !e.phase.Broken?
            && e.got <= |incoming|
            && (e.got < |incoming| ==>
                  e.reader.cipher == incoming[e.got].cipher && e.reader.seqNum == incoming[e.got].seqNum)
            && (e.phase.Idle? || e.phase.Pending? || e.phase.Exchange? ==> e.reader.slot == Empty && e.writer.slot == Empty)
  {
    LibraryMirrors(x);
    Reachable(x, states, moves, k);
    var e, incoming := End(states[k], role), End(states[k], Peer(role)).log;
    if e.got < |incoming| {
      ReaderExpects(x, role, incoming, e.got, e.reader);
    }
  }

  /**
   Whether they agree or not, in every state of every run: the next packet is expected with the cipher
   it was written with, its number is the expected one exactly when the ends agree or the packets up to
   the last NEWKEYS fill whole turns of the counter, and receiving it fails exactly when it is garbled.
   An endpoint is never at fault otherwise, and nothing garbled has ever been read.
   */
  lemma {:induction false} OutOfStep(x: Script, states: seq<System>, moves: seq<(Role, Action)>, k: nat, role: Role)
    requires Library(x) && Run(x, states, moves) && k < |states|
    ensures var e, incoming := End(states[k], role), End(states[k], Peer(role)).log;
            && Readable(x, incoming, e.got, e.phase.Broken?)
            && (e.phase.Broken? ==> e.phase == Broken(Skewed))
            && (e.got < |incoming| ==>
                  && e.reader.cipher == incoming[e.got].cipher
                  && (e.reader.seqNum == incoming[e.got].seqNum <==>
                      StrictAgree(x) || LastKeys(incoming[..e.got]) % 0x1_0000_0000 == 0))
            && (CanStep(x, states[k], role, Receive) ==>
                  (End(Stepped(x, states[k], role, Receive), role).phase.Broken? <==> Garbled(x, incoming, e.got)))
  {
    LibraryMirrors(x);
    Reachable(x, states, moves, k);
    var e, incoming := End(states[k], role), End(states[k], Peer(role)).log;
    if e.got < |incoming| {
      ReaderExpects(x, role, incoming, e.got, e.reader);
      CountAlike(x, role, incoming[..e.got]);
    }
    if CanStep(x, states[k], role, Receive) {
      SystemKept(x, states[k], role, Receive);
      ReceiveFails(x, role, e, incoming);
    }
  }

  lemma {:induction false} ReceiveFails(x: Script, role: Role, e: Endpoint, incoming: seq<Packet>)
    requires Mirrors(x) && Inv(x, role, e, incoming) && Enabled(x, role, e, incoming, Receive)
    requires Stamped(x, Peer(role), incoming)
    ensures Next(x, role, e, incoming, Receive).phase.Broken? <==> Garbled(x, incoming, e.got)
  {
    var g, kind := Scan(x, Peer(role), incoming[..e.got]), incoming[e.got].kind;
    NextKind(x, Peer(role), incoming, e.got);
    Expected(x, role, e, incoming, g, kind);
    TakeKept(x, role, e, incoming, g);
  }

  ghost predicate ShortPrograms(x: Script)
  {
    forall name :: |x.program(name)| < 0xFFFF_FFFE
  }

  /**
   From the first NEWKEYS of a direction to its second the two rules never give the same number: ends
   that disagree lose exactly the directions whose first cipher uses the number.
   */
  lemma {:induction false} RulesDifferAfterFirst(x: Script, role: Role, log: seq<Packet>)
    requires ShortPrograms(x) && !Scan(x, role, log).Bad? && Scan(x, role, log).r == 1
    ensures 0 < LastKeys(log) < 0x1_0000_0000 && SeqAfter(log, true) != SeqAfter(log, false)
    decreases |log|
  {
    var before := log[..|log| - 1];
    if Scan(x, role, before).r == 0 {
      FirstRound(x, role, before, false);
    } else {
      RulesDifferAfterFirst(x, role, before);
    }
    RulesAgree(log);
  }

  /** With AES-GCM in every exchange no run goes wrong, whatever the ends think of strict mode. */
  lemma {:induction false} GcmNeverFails(x: Script, states: seq<System>, moves: seq<(Role, Action)>, k: nat, role: Role)
    requires Library(x) && Run(x, states, moves) && k < |states|
    requires forall r: nat :: !UsesNumber(CipherOf(x, Peer(role), r))
    ensures !End(states[k], role).phase.Broken?
  {
    LibraryMirrors(x);
    Reachable(x, states, moves, k);
  }

  /** Two endpoints of this library advertise strict mode to each other, so their scripts agree. */
  lemma {:induction false} LibraryAgrees(x: Script, c: Config, s: Config)
    requires x.client(0) == KexInit(Client, c, true) && x.server(0) == KexInit(Server, s, true)
    ensures StrictAgree(x) && TurnsStrict(x, Client)
  {
    StrictAgreed(c, s);
  }
}
