/**
 Sequence numbers and cipher switching across re-keys (third/ssh/transport.go and enterKeyExchange
 of third/ssh/handshake.go). Two endpoints and the two packet logs between them form a step system;
 key material of exchange number r is represented by r itself, the direction, and the algorithms.
 */
module Transport {
  import opened Bytes
  import opened Negotiate

  // ---------------------------------------------------------------- one side of a connection

  /** A 32-bit sequence number, and its wrapping increment. */
  type seqnum = n: int | 0 <= n < 0x1_0000_0000

  function Bump(n: seqnum): (r: seqnum)
    ensures r == (n + 1) % 0x1_0000_0000
  {
    if n == 0xFFFF_FFFF then 0 else n + 1
  }

  datatype Cipher = Plain | Keyed(round: nat, writer: Role, algorithms: DirectionAlgorithms)

  const GCM_CIPHERS: set<string> := {"aes128-gcm@openssh.com", "aes256-gcm@openssh.com"}

  /**
   Whether packets are bound to their sequence number. AES-GCM counts in its own IV, and before the
   first exchange there is no MAC; every other cipher puts the number into its MAC or its nonce.
   */
  predicate UsesNumber(c: Cipher)
  {
    c.Keyed? && c.algorithms.cipher !in GCM_CIPHERS
  }

  /** The pending key change: a channel of capacity one. */
  datatype Slot = Empty | Full(cipher: Cipher)

  datatype Conn = Conn(cipher: Cipher, seqNum: seqnum, slot: Slot)

  datatype Kind = KexInitPacket(init: Init) | KexPacket | NewKeys | Other

  /** A packet on the wire, with the cipher and number it was written with. */
  datatype Packet = Packet(kind: Kind, cipher: Cipher, seqNum: seqnum)

  /** What a packet does to the side that wrote it, and to the side that reads it. */
  datatype Passing = Passed(conn: Conn) | NoKeyMaterial

  function Pass(c: Conn, newKeys: bool, strict: bool): (r: Passing)
  {
    var next := Bump(c.seqNum);
    if !newKeys then Passed(c.(seqNum := next))
    else if c.slot.Empty? then NoKeyMaterial
    else Passed(Conn(c.slot.cipher, if strict then 0 else next, Empty))
  }

  const MSG_DISCONNECT: byte := 1
  const MSG_NEW_KEYS: byte := 21

  datatype ReadResult = Delivered(packet: seq<byte>) | ZeroLength | CipherError | BogusNewKeys | Disconnected

  /** Panicked stands for the panic on NEWKEYS without key material. */
  datatype WriteResult = Written | NotFlushed | Panicked

  class ConnectionState {
    var cipher: Cipher
    var seqNum: seqnum
    var slot: Slot

    function View(): (c: Conn)
      reads this
    {
      Conn(cipher, seqNum, slot)
    }

    constructor ()
      ensures View() == Conn(Plain, 0, Empty)
    {
      cipher, seqNum, slot := Plain, 0, Empty;
    }

    /** packet is what the cipher decoded, or [] when it failed. */
    method ReadPacket(packet: seq<byte>, failed: bool, strict: bool) returns (r: ReadResult)
      requires failed ==> packet == []
      modifies this
      ensures r.Delivered? <==> packet != [] && packet[0] != MSG_DISCONNECT &&
                                Pass(old(View()), packet[0] == MSG_NEW_KEYS, strict).Passed?
      ensures r.Delivered? ==> r.packet == packet &&
                               Passed(View()) == Pass(old(View()), packet[0] == MSG_NEW_KEYS, strict)
      ensures !r.Delivered? ==> View() == old(View()).(seqNum := Bump(old(seqNum)))
      ensures r == CipherError <==> failed
      ensures r == ZeroLength <==> packet == [] && !failed
      ensures r == BogusNewKeys <==> packet != [] && packet[0] == MSG_NEW_KEYS && old(slot).Empty?
      ensures r == Disconnected <==> packet != [] && packet[0] == MSG_DISCONNECT
    {
      seqNum := Bump(seqNum);
      if failed {
        return CipherError;
      }
      if packet == [] {
        return ZeroLength;
      }
      if packet[0] == MSG_NEW_KEYS {
        if slot.Empty? {
          return BogusNewKeys;
        }
        cipher, slot := slot.cipher, Empty;
        if strict {
          seqNum := 0;
        }
      } else if packet[0] == MSG_DISCONNECT {
        return Disconnected;
      }
      return Delivered(packet);
    }

    method WritePacket(packet: seq<byte>, flushed: bool, strict: bool) returns (r: WriteResult)
      modifies this
      ensures r == NotFlushed <==> !flushed
      ensures r == Panicked <==> flushed && packet != [] && packet[0] == MSG_NEW_KEYS && old(slot).Empty?
      ensures r == Written ==> Passed(View()) == Pass(old(View()), packet != [] && packet[0] == MSG_NEW_KEYS, strict)
      ensures r == NotFlushed ==> View() == old(View())
      ensures r == Panicked ==> View() == old(View()).(seqNum := Bump(old(seqNum)))
    {
      var changeKeys := packet != [] && packet[0] == MSG_NEW_KEYS;
      if !flushed {
        return NotFlushed;
      }
      seqNum := Bump(seqNum);
      if changeKeys {
        if slot.Empty? {
          return Panicked;
        }
        cipher, slot := slot.cipher, Empty;
        if strict {
          seqNum := 0;
        }
      }
      return Written;
    }
  }

  // ---------------------------------------------------------------- endpoints

  /**
   What the two ends bring to the connection: their KEXINIT of every exchange, who sends each
   message of a key-exchange method, and how algorithms are negotiated.
   */
  datatype Script = Script(
    client: nat -> Init,
    server: nat -> Init,
    program: string -> seq<Role>,
    negotiate: (bool, Init, Init) -> Agreement)

  function InitOf(x: Script, role: Role, round: nat): (i: Init)
  {
    if role == Client then x.client(round) else x.server(round)
  }

  function RoundAgreement(x: Script, role: Role, round: nat): (a: Agreement)
  {
    x.negotiate(role == Client, x.client(round), x.server(round))
  }

  datatype Fault = Skewed | BogusKeys | WrongMessage | StrictSequence | SlotOccupied | MissingKeys

  datatype Phase =
    | Idle
    | Pending(other: Init)
    | Exchange(algorithms: Algorithms, pos: nat)
    | Prepared
    | AwaitNewKeys
    | GaveUp
    | Broken(fault: Fault)

  datatype Endpoint = Endpoint(
    phase: Phase,
    sentInit: bool,
    done: nat,
    strict: bool,
    writer: Conn,
    reader: Conn,
    log: seq<Packet>,
    got: nat)

  datatype Action = StartKex | SendOther | SendExtInfo | Receive | Enter | KexSend | Prepare | SendNewKeys

  function Send(e: Endpoint, kind: Kind): (r: Endpoint)
  {
    match Pass(e.writer, kind.NewKeys?, e.strict)
    case NoKeyMaterial => e.(phase := Broken(MissingKeys))
    case Passed(conn) => e.(writer := conn, log := e.log + [Packet(kind, e.writer.cipher, e.writer.seqNum)])
  }

  /**
   Take one packet off the wire. A packet under another cipher cannot be decoded, and one under
   another number only by a cipher that does not use the number.
   */
  function Take(e: Endpoint, p: Packet): (r: Endpoint)
  {
    if p.cipher != e.reader.cipher || (UsesNumber(p.cipher) && p.seqNum != e.reader.seqNum)
    then e.(phase := Broken(Skewed)) else
    match Pass(e.reader, p.kind.NewKeys?, e.strict)
    case NoKeyMaterial => e.(phase := Broken(BogusKeys))
    case Passed(conn) => e.(reader := conn, got := e.got + 1)
  }

  /** Whose turn it is in the key exchange; none when it is over. */
  function Turn(x: Script, a: Algorithms, pos: nat): (r: seq<Role>)
  {
    if pos < |x.program(a.keyExchange)| then [x.program(a.keyExchange)[pos]] else []
  }

  predicate Enabled(x: Script, role: Role, e: Endpoint, incoming: seq<Packet>, action: Action)
  {
    match action
    case StartKex => (e.phase.Idle? || e.phase.Pending?) && !e.sentInit
    case SendOther => (e.phase.Idle? || e.phase.Pending?) && !e.sentInit && e.done > 0
    case SendExtInfo => e.phase.AwaitNewKeys? && role == Server && e.done == 0
    case Receive =>
      && e.got < |incoming|
      && (e.phase.Idle? || e.phase.AwaitNewKeys?
          || (e.phase.Exchange? && Turn(x, e.phase.algorithms, e.phase.pos) == [Peer(role)]))
    case Enter => e.phase.Pending? && e.sentInit
    case KexSend => e.phase.Exchange? && Turn(x, e.phase.algorithms, e.phase.pos) == [role]
    case Prepare => e.phase.Exchange? && Turn(x, e.phase.algorithms, e.phase.pos) == []
    case SendNewKeys => e.phase.Prepared?
  }

  function Received(e: Endpoint, kind: Kind): (r: Endpoint)
    requires e.phase.Idle? || e.phase.AwaitNewKeys? || e.phase.Exchange?
  {
    match e.phase
    case Idle =>
      (match kind
       case KexInitPacket(i) => e.(phase := Pending(i))
       case Other => if e.done == 0 then e.(phase := Broken(WrongMessage)) else e
       case _ => e.(phase := Broken(WrongMessage)))
    case AwaitNewKeys =>
      if kind.NewKeys? then e.(phase := Idle, sentInit := false, done := e.done + 1)
      else e.(phase := Broken(WrongMessage))
    case Exchange(a, pos) =>
      if kind.KexPacket? then e.(phase := Exchange(a, pos + 1)) else e.(phase := Broken(WrongMessage))
    case _ => e
  }

  /** enterKeyExchange up to the first message of the key-exchange method. */
  function Entered(x: Script, role: Role, e: Endpoint, other: Init): (r: Endpoint)
  {
    var mine := InitOf(x, role, e.done);
    var a := if role == Client then x.negotiate(true, mine, other) else x.negotiate(false, other, mine);
    if a.Refused? then e.(phase := GaveUp)
    else if e.done == 0 && Adopts(role, other) then
      if e.reader.seqNum != 1 then e.(phase := Broken(StrictSequence))
      else e.(phase := Exchange(a.algorithms, 0), strict := true)
    else e.(phase := Exchange(a.algorithms, 0))
  }

  /** prepareKeyChange: the channel send would block for ever on an occupied slot. */
  function PreparedKeys(role: Role, e: Endpoint, a: Algorithms): (r: Endpoint)
  {
    if e.reader.slot.Full? || e.writer.slot.Full? then e.(phase := Broken(SlotOccupied))
    else e.(phase := Prepared,
            reader := e.reader.(slot := Full(Keyed(e.done + 1, Peer(role), a.read))),
            writer := e.writer.(slot := Full(Keyed(e.done + 1, role, a.write))))
  }

  function Next(x: Script, role: Role, e: Endpoint, incoming: seq<Packet>, action: Action): (r: Endpoint)
    requires Enabled(x, role, e, incoming, action)
  {
    match action
    case StartKex => Send(e, KexInitPacket(InitOf(x, role, e.done))).(sentInit := true)
    case SendOther => Send(e, Other)
    case SendExtInfo => Send(e, Other)
    case Receive =>
      var t := Take(e, incoming[e.got]);
      if t.phase.Broken? then t else Received(t, incoming[e.got].kind)
    case Enter => Entered(x, role, e, e.phase.other)
    case KexSend =>
      var t := Send(e, KexPacket);
      if t.phase.Broken? then t else t.(phase := Exchange(e.phase.algorithms, e.phase.pos + 1))
    case Prepare => PreparedKeys(role, e, e.phase.algorithms)
    case SendNewKeys =>
      var t := Send(e, NewKeys);
      if t.phase.Broken? then t else t.(phase := AwaitNewKeys)
  }

  // ---------------------------------------------------------------- the grammar of one direction

  /** Number of messages of a key-exchange method that the role sends. */
  function Count(role: Role, program: seq<Role>): (n: nat)
    ensures n <= |program|
  {
    if program == [] then 0
    else Count(role, program[..|program| - 1]) + if program[|program| - 1] == role then 1 else 0
  }

  lemma {:induction false} CountStep(role: Role, program: seq<Role>, pos: nat)
    requires pos < |program|
    ensures Count(role, program[..pos + 1]) == Count(role, program[..pos]) + if program[pos] == role then 1 else 0
  {
    assert program[..pos + 1][..pos] == program[..pos];
  }

  lemma {:induction false} CountMonotone(role: Role, program: seq<Role>, pos: nat)
    requires pos <= |program|
    ensures Count(role, program[..pos]) <= Count(role, program)
    decreases |program| - pos
  {
    if pos == |program| {
      assert program[..pos] == program;
    } else {
      CountStep(role, program, pos);
      CountMonotone(role, program, pos + 1);
    }
  }

  function Quota(x: Script, role: Role, round: nat): (n: nat)
    requires RoundAgreement(x, Client, round).Agreed?
  {
    Count(role, x.program(RoundAgreement(x, Client, round).algorithms.keyExchange))
  }

  /** Where a direction stands: between exchanges, or k messages into exchange number r. */
  datatype Stage = Open(r: nat) | Within(r: nat, k: nat) | Bad

  function Track(x: Script, role: Role, g: Stage, kind: Kind): (g': Stage)
  {
    match g
    case Open(r) =>
      if kind == KexInitPacket(InitOf(x, role, r)) then Within(r, 0)
      else if kind.Other? && r > 0 then g else Bad
    case Within(r, k) =>
      if RoundAgreement(x, Client, r).Refused? then Bad
      else if kind.KexPacket? && k < Quota(x, role, r) then Within(r, k + 1)
      else if kind.NewKeys? && k == Quota(x, role, r) then Open(r + 1)
      else Bad
    case Bad => Bad
  }

  function Scan(x: Script, role: Role, log: seq<Packet>): (g: Stage)
  {
    if log == [] then Open(0) else Track(x, role, Scan(x, role, log[..|log| - 1]), log[|log| - 1].kind)
  }

  lemma {:induction false} ScanAppend(x: Script, role: Role, log: seq<Packet>, p: Packet)
    ensures Scan(x, role, log + [p]) == Track(x, role, Scan(x, role, log), p.kind)
  {
    assert (log + [p])[..|log|] == log;
  }

  lemma {:induction false} ScanPrefix(x: Script, role: Role, log: seq<Packet>, n: nat)
    requires n <= |log| && Scan(x, role, log) != Bad
    ensures Scan(x, role, log[..n]) != Bad
    decreases |log|
  {
    if n == |log| {
      assert log[..n] == log;
    } else {
      ScanPrefix(x, role, log[..|log| - 1], n);
      assert log[..|log| - 1][..n] == log[..n];
    }
  }

  /** Numbers restart at NEWKEYS in strict mode and otherwise count up modulo 2^32. */
  function SeqAfter(log: seq<Packet>, strict: bool): (n: seqnum)
  {
    if log == [] then 0
    else if strict && log[|log| - 1].kind.NewKeys? then 0
    else Bump(SeqAfter(log[..|log| - 1], strict))
  }

  lemma {:induction false} SeqAppend(log: seq<Packet>, p: Packet, strict: bool)
    ensures SeqAfter(log + [p], strict) == if strict && p.kind.NewKeys? then 0 else Bump(SeqAfter(log, strict))
  {
    assert (log + [p])[..|log|] == log;
  }

  /** The number of packets up to and including the last NEWKEYS. */
  function LastKeys(log: seq<Packet>): (n: nat)
    ensures n <= |log|
  {
    if log == [] then 0
    else if log[|log| - 1].kind.NewKeys? then |log|
    else LastKeys(log[..|log| - 1])
  }

  lemma {:induction false} BumpMod(n: nat)
    ensures Bump(n % 0x1_0000_0000) == (n + 1) % 0x1_0000_0000
  {
    var q := n / 0x1_0000_0000;
    assert n == q * 0x1_0000_0000 + n % 0x1_0000_0000;
  }

  /** Both counting rules in closed form. */
  lemma {:induction false} SeqClosed(log: seq<Packet>)
    ensures SeqAfter(log, false) == |log| % 0x1_0000_0000
    ensures SeqAfter(log, true) == (|log| - LastKeys(log)) % 0x1_0000_0000
  {
    if log != [] {
      var before := log[..|log| - 1];
      SeqClosed(before);
      BumpMod(|before|);
      BumpMod(|before| - LastKeys(before));
    }
  }

  /** The rules give the same number exactly when the packets up to the last NEWKEYS fill whole turns of the counter. */
  lemma {:induction false} RulesAgree(log: seq<Packet>)
    ensures SeqAfter(log, true) == SeqAfter(log, false) <==> LastKeys(log) % 0x1_0000_0000 == 0
  {
    SeqClosed(log);
  }

  /** The algorithms of a direction in exchange r, as seen by its writer. */
  function WriteAlgorithms(x: Script, role: Role, r: nat): (d: DirectionAlgorithms)
    requires RoundAgreement(x, Client, r).Agreed?
  {
    var a := RoundAgreement(x, Client, r).algorithms;
    if role == Client then a.write else a.read
  }

  /** The cipher a direction uses after r exchanges. */
  function CipherOf(x: Script, role: Role, r: nat): (c: Cipher)
  {
    if r == 0 || RoundAgreement(x, Client, r - 1).Refused? then Plain
    else Keyed(r, role, WriteAlgorithms(x, role, r - 1))
  }

  function CipherAt(x: Script, role: Role, g: Stage): (c: Cipher)
  {
    if g.Bad? then Plain else CipherOf(x, role, g.r)
  }

  predicate TurnsStrict(x: Script, role: Role)
  {
    Adopts(role, InitOf(x, Peer(role), 0))
  }

  predicate StrictAgree(x: Script)
  {
    TurnsStrict(x, Client) == TurnsStrict(x, Server)
  }

  /** The packets of a log carry the cipher and number that its grammar gives them. */
  ghost predicate Stamped(x: Script, role: Role, log: seq<Packet>)
  {
    && Scan(x, role, log) != Bad
    && forall i :: 0 <= i < |log| ==>
         && log[i].cipher == CipherAt(x, role, Scan(x, role, log[..i]))
         && log[i].seqNum == SeqAfter(log[..i], TurnsStrict(x, role))
  }
}
