/**
 The ssh-agent pipeline (third/ssh/agent/client.go): many callers, one reader, a bounded FIFO of
 reply channels and a shutdown that races with the callers. Every lock, channel operation and I/O
 call is one atomic step; the agent answers the requests it received in order.
 */
module AgentPipeline {
  const MAX_IN_FLIGHT: nat := 32

  /** What is sent on a reply channel or returned by a call. Reply(k) answers the k-th enqueued request. */
  datatype Result = Reply(k: nat) | Terminal | NilError | WriteError

  /** One call of pipeline.call, identified by a number. */
  datatype Caller = Start | Locked | Checked | Enqueued | Written(ok: bool) | Closing | Waiting | Done(result: Result)

  datatype Lock = Free | ByCaller(c: nat) | ByReader

  datatype Reader = Reading | Holding | Failing | Stored | ExitClosed | HasLock | PendingClosed | Draining | Finished

  /** A stored terminal error, exitCh closed, pending closed. */
  datatype Flags = Flags(err: bool, exit: bool, closed: bool)

  /**
   The pending channel as a history: the callers enqueued so far, of which the first popped have
   left the channel again; delivered requests reached the agent before a write failed.
   */
  datatype Pending = Pending(enqueued: seq<nat>, popped: nat, delivered: nat, answered: nat, broken: bool)

  datatype Fault = NoFault | SendOnClosed | SecondSend | ClosedTwice | QueueEmpty

  datatype State = State(
    callers: map<nat, Caller>,
    lock: Lock,
    reader: Reader,
    flags: Flags,
    q: Pending,
    inbox: map<nat, Result>,
    fault: Fault)

  const INITIAL: State :=
    State(map[], Free, Reading, Flags(false, false, false), Pending([], 0, 0, 0, false), map[], NoFault)

  function PhaseOf(callers: map<nat, Caller>, c: nat): (p: Caller)
  {
    if c in callers then callers[c] else Start
  }

  datatype Step =
    | TakeLock(c: nat)
    | Check(c: nat)
    | Enqueue(c: nat)
    | Bail(c: nat)
    | Write(c: nat, ok: bool)
    | Unlock(c: nat)
    | CloseConn(c: nat)
    | Receive(c: nat)
    | ReadReply
    | ReadFails
    | Dispatch
    | StoreError
    | CloseExit
    | ReaderLocks
    | ClosePending
    | ReaderUnlocks
    | Drain

  predicate Enabled(s: State, step: Step)
  {
    s.fault == NoFault &&
    match step
    case TakeLock(c) => PhaseOf(s.callers, c) == Start && s.lock == Free
    case Check(c) => PhaseOf(s.callers, c) == Locked
    case Enqueue(c) => PhaseOf(s.callers, c) == Checked && (s.flags.closed || |s.q.enqueued| < s.q.popped + MAX_IN_FLIGHT)
    case Bail(c) => PhaseOf(s.callers, c) == Checked && s.flags.exit
    case Write(c, _) => PhaseOf(s.callers, c) == Enqueued
    case Unlock(c) => PhaseOf(s.callers, c).Written?
    case CloseConn(c) => PhaseOf(s.callers, c) == Closing
    case Receive(c) => PhaseOf(s.callers, c) == Waiting && c in s.inbox
    case ReadReply => s.reader == Reading && s.q.answered < s.q.delivered
    case ReadFails => s.reader == Reading
    case Dispatch => s.reader == Holding
    case StoreError => s.reader == Failing
    case CloseExit => s.reader == Stored
    case ReaderLocks => s.reader == ExitClosed && s.lock == Free
    case ClosePending => s.reader == HasLock
    case ReaderUnlocks => s.reader == PendingClosed
    case Drain => s.reader == Draining
  }

  /** A call that saw exitCh closed returns the stored error, whatever it is. */
  function Exited(s: State, c: nat): (t: State)
  {
    s.(callers := s.callers[c := Done(if s.flags.err then Terminal else NilError)], lock := Free)
  }

  /** Receive the head of pending and send the result on that reply channel, which has room for one. */
  function SendHead(s: State, result: Result): (t: State)
    requires s.q.popped < |s.q.enqueued|
  {
    var c := s.q.enqueued[s.q.popped];
    if c in s.inbox then s.(fault := SecondSend)
    else s.(inbox := s.inbox[c := result], q := s.q.(popped := s.q.popped + 1))
  }

  function Next(s: State, step: Step): (t: State)
    requires Enabled(s, step)
  {
    match step
    case TakeLock(c) => s.(callers := s.callers[c := Locked], lock := ByCaller(c))
    case Check(c) => if s.flags.exit then Exited(s, c) else s.(callers := s.callers[c := Checked])
    case Enqueue(c) =>
      if s.flags.closed then s.(fault := SendOnClosed)
      else s.(callers := s.callers[c := Enqueued], q := s.q.(enqueued := s.q.enqueued + [c]))
    case Bail(c) => Exited(s, c)
    case Write(c, ok) =>
      s.(callers := s.callers[c := Written(ok)],
         q := if !ok then s.q.(broken := true) else if s.q.broken then s.q else s.q.(delivered := s.q.delivered + 1))
    case Unlock(c) => s.(callers := s.callers[c := if s.callers[c].ok then Waiting else Closing], lock := Free)
    case CloseConn(c) => s.(callers := s.callers[c := Done(WriteError)])
    case Receive(c) => s.(callers := s.callers[c := Done(s.inbox[c])])
    case ReadReply => s.(reader := Holding)
    case ReadFails => s.(reader := Failing)
    case Dispatch =>
      if |s.q.enqueued| <= s.q.popped then s.(fault := QueueEmpty)
      else
        var t := SendHead(s, Reply(s.q.answered));
        t.(reader := Reading, q := t.q.(answered := s.q.answered + 1))
    case StoreError => s.(flags := s.flags.(err := true), reader := Stored)
    case CloseExit =>
      if s.flags.exit then s.(fault := ClosedTwice)
      else s.(flags := s.flags.(exit := true), reader := ExitClosed)
    case ReaderLocks => s.(lock := ByReader, reader := HasLock)
    case ClosePending =>
      if s.flags.closed then s.(fault := ClosedTwice)
      else s.(flags := s.flags.(closed := true), reader := PendingClosed)
    case ReaderUnlocks => s.(lock := Free, reader := Draining)
    case Drain => if |s.q.enqueued| <= s.q.popped then s.(reader := Finished) else SendHead(s, Terminal)
  }

  // ---------------------------------------------------------------- the invariant

  /** How far the reader is in its shutdown sequence. */
  function Rank(r: Reader): (n: nat)
  {
    match r
    case Reading => 0 case Holding => 0 case Failing => 0
    case Stored => 1 case ExitClosed => 2 case HasLock => 3 case PendingClosed => 4 case Draining => 5 case Finished => 6
  }

  ghost predicate Sequence(reader: Reader, flags: Flags, lock: Lock)
  {
    && flags == Flags(Rank(reader) >= 1, Rank(reader) >= 2, Rank(reader) >= 4)
    && (lock == ByReader <==> 3 <= Rank(reader) <= 4)
  }

  predicate Inside(p: Caller)
  {
    p.Locked? || p.Checked? || p.Enqueued? || p.Written?
  }

  /** Exactly the lock holder is in the critical section, and not past the check once pending is closed. */
  ghost predicate Mutex(callers: map<nat, Caller>, lock: Lock, closed: bool)
  {
    && (forall c :: Inside(PhaseOf(callers, c)) ==> lock == ByCaller(c))
    && (lock.ByCaller? ==> Inside(PhaseOf(callers, lock.c)) && (closed ==> PhaseOf(callers, lock.c).Locked?))
  }

  ghost predicate Distinct(ids: seq<nat>)
  {
    forall i, j :: 0 <= i < j < |ids| ==> ids[i] != ids[j]
  }

  /** A call enters the queue once, after its check. */
  ghost predicate Membership(callers: map<nat, Caller>, enqueued: seq<nat>)
  {
    forall c ::
      && (PhaseOf(callers, c).Start? || PhaseOf(callers, c).Locked? || PhaseOf(callers, c).Checked? ==> c !in enqueued)
      && (PhaseOf(callers, c).Enqueued? || PhaseOf(callers, c).Written? || PhaseOf(callers, c).Closing? || PhaseOf(callers, c).Waiting?
          ==> c in enqueued)
  }

  ghost predicate Fifo(q: Pending)
  {
    q.answered <= q.popped <= |q.enqueued| <= q.popped + MAX_IN_FLIGHT
    && q.answered <= q.delivered <= |q.enqueued| && Distinct(q.enqueued)
  }

  /** The result of the k-th enqueued request, once it is served. */
  function ResultOf(q: Pending, k: nat): (r: Result)
  {
    if k < q.answered then Reply(k) else Terminal
  }

  ghost predicate Served(q: Pending, inbox: map<nat, Result>)
    requires Fifo(q)
  {
    && (forall c :: c in inbox ==> c in q.enqueued[..q.popped])
    && (forall k :: 0 <= k < q.popped ==> q.enqueued[k] in inbox && inbox[q.enqueued[k]] == ResultOf(q, k))
  }

  ghost predicate ReaderAt(reader: Reader, q: Pending)
  {
    && (Rank(reader) < 5 ==> q.popped == q.answered)
    && (reader == Holding ==> q.answered < q.delivered)
    && (reader == Finished ==> q.popped == |q.enqueued|)
  }

  /** Until a write fails, all enqueued requests but one being written have reached the agent. */
  ghost predicate Delivery(callers: map<nat, Caller>, lock: Lock, q: Pending)
  {
    !q.broken ==>
      q.delivered + (if lock.ByCaller? && PhaseOf(callers, lock.c).Enqueued? then 1 else 0) == |q.enqueued|
  }

  ghost predicate Outcome(c: nat, r: Result, q: Pending, err: bool)
  {
    match r
    case Reply(k) => k < q.answered && k < |q.enqueued| && q.enqueued[k] == c
    case Terminal => err
    case NilError => false
    case WriteError => c in q.enqueued
  }

  ghost predicate Outcomes(callers: map<nat, Caller>, q: Pending, err: bool)
  {
    forall c :: PhaseOf(callers, c).Done? ==> Outcome(c, PhaseOf(callers, c).result, q, err)
  }

  ghost predicate Inv(s: State)
  {
    && s.fault == NoFault
    && Sequence(s.reader, s.flags, s.lock)
    && Mutex(s.callers, s.lock, s.flags.closed)
    && Membership(s.callers, s.q.enqueued)
    && Fifo(s.q)
    && Served(s.q, s.inbox)
    && ReaderAt(s.reader, s.q)
    && Delivery(s.callers, s.lock, s.q)
    && Outcomes(s.callers, s.q, s.flags.err)
  }

  // ---------------------------------------------------------------- every step keeps it

  lemma {:induction false} TakeLockStep(s: State, c: nat)
    requires Inv(s) && Enabled(s, TakeLock(c))
    ensures Inv(Next(s, TakeLock(c)))
  {
  }

  lemma {:induction false} CheckStep(s: State, c: nat)
    requires Inv(s) && Enabled(s, Check(c))
    ensures Inv(Next(s, Check(c)))
  {
  }

  lemma {:induction false} BailStep(s: State, c: nat)
    requires Inv(s) && Enabled(s, Bail(c))
    ensures Inv(Next(s, Bail(c)))
  {
  }

  /** Results stay justified as the books grow and a call moves on. */
  lemma {:induction false} OutcomesKept(callers: map<nat, Caller>, q: Pending, err: bool, c: nat, p: Caller, r: Pending)
    requires Outcomes(callers, q, err) && !p.Done? && q.enqueued <= r.enqueued && q.answered <= r.answered
    ensures Outcomes(callers[c := p], r, err)
  {
    var moved := callers[c := p];
    forall d | PhaseOf(moved, d).Done?
      ensures Outcome(d, PhaseOf(moved, d).result, r, err)
    {
      assert Outcome(d, PhaseOf(callers, d).result, q, err);
    }
  }

  lemma {:induction false} EnqueueBooks(callers: map<nat, Caller>, q: Pending, inbox: map<nat, Result>, c: nat, r: Pending)
    requires Fifo(q) && Served(q, inbox) && Membership(callers, q.enqueued) && PhaseOf(callers, c) == Checked
    requires |q.enqueued| < q.popped + MAX_IN_FLIGHT && r == q.(enqueued := q.enqueued + [c])
    ensures Fifo(r) && Served(r, inbox) && Membership(callers[c := Enqueued], r.enqueued)
  {
    assert r.enqueued[..r.popped] == q.enqueued[..q.popped];
  }

  lemma {:induction false} EnqueueStep(s: State, c: nat)
    requires Inv(s) && Enabled(s, Enqueue(c))
    ensures Inv(Next(s, Enqueue(c)))
  {
    var r := s.q.(enqueued := s.q.enqueued + [c]);
    EnqueueBooks(s.callers, s.q, s.inbox, c, r);
    OutcomesKept(s.callers, s.q, s.flags.err, c, Enqueued, r);
  }

  lemma {:induction false} WriteMoves(callers: map<nat, Caller>, lock: Lock, closed: bool, enqueued: seq<nat>, c: nat, p: Caller)
    requires Mutex(callers, lock, closed) && Membership(callers, enqueued) && PhaseOf(callers, c) == Enqueued && p.Written?
    ensures lock == ByCaller(c) && Mutex(callers[c := p], lock, closed) && Membership(callers[c := p], enqueued)
  {
  }

  lemma {:induction false} WriteStep(s: State, c: nat, ok: bool)
    requires Inv(s) && Enabled(s, Write(c, ok))
    ensures Inv(Next(s, Write(c, ok)))
  {
    var p := Written(ok);
    var t := Next(s, Write(c, ok));
    WriteMoves(s.callers, s.lock, s.flags.closed, s.q.enqueued, c, p);
    OutcomesKept(s.callers, s.q, s.flags.err, c, p, t.q);
    assert Served(t.q, t.inbox);
  }

  lemma {:induction false} UnlockMoves(callers: map<nat, Caller>, lock: Lock, closed: bool, enqueued: seq<nat>, c: nat, p: Caller)
    requires Mutex(callers, lock, closed) && Membership(callers, enqueued) && PhaseOf(callers, c).Written?
    requires p == Closing || p == Waiting
    ensures lock == ByCaller(c) && Mutex(callers[c := p], Free, closed) && Membership(callers[c := p], enqueued)
  {
  }

  lemma {:induction false} UnlockStep(s: State, c: nat)
    requires Inv(s) && Enabled(s, Unlock(c))
    ensures Inv(Next(s, Unlock(c)))
  {
    var p := if s.callers[c].ok then Waiting else Closing;
    UnlockMoves(s.callers, s.lock, s.flags.closed, s.q.enqueued, c, p);
    OutcomesKept(s.callers, s.q, s.flags.err, c, p, s.q);
  }

  lemma {:induction false} CloseConnStep(s: State, c: nat)
    requires Inv(s) && Enabled(s, CloseConn(c))
    ensures Inv(Next(s, CloseConn(c)))
  {
  }

  lemma {:induction false} ReceiveStep(s: State, c: nat)
    requires Inv(s) && Enabled(s, Receive(c))
    ensures Inv(Next(s, Receive(c)))
  {
    var k :| 0 <= k < |s.q.enqueued[..s.q.popped]| && s.q.enqueued[..s.q.popped][k] == c;
    assert s.inbox[s.q.enqueued[k]] == ResultOf(s.q, k);
  }

  /** The head of the queue has not been sent to, and serving it keeps the books. */
  lemma {:induction false} HeadServed(q: Pending, inbox: map<nat, Result>, r: Pending, result: Result)
    requires Fifo(q) && Served(q, inbox) && q.popped < |q.enqueued|
    requires r == q.(popped := q.popped + 1, answered := r.answered)
    requires (result == Terminal && r.answered == q.answered)
             || (result == Reply(q.answered) && r.answered == q.answered + 1 && q.answered == q.popped < q.delivered)
    ensures q.enqueued[q.popped] !in inbox
    ensures Fifo(r) && Served(r, inbox[q.enqueued[q.popped] := result])
  {
    assert q.enqueued[..q.popped + 1] == q.enqueued[..q.popped] + [q.enqueued[q.popped]];
  }

  lemma {:induction false} OutcomesServed(callers: map<nat, Caller>, q: Pending, err: bool, r: Pending)
    requires Outcomes(callers, q, err) && r.enqueued == q.enqueued && q.answered <= r.answered
    ensures Outcomes(callers, r, err)
  {
    forall d | PhaseOf(callers, d).Done?
      ensures Outcome(d, PhaseOf(callers, d).result, r, err)
    {
      assert Outcome(d, PhaseOf(callers, d).result, q, err);
    }
  }

  lemma {:induction false} DispatchStep(s: State)
    requires Inv(s) && Enabled(s, Dispatch)
    ensures Inv(Next(s, Dispatch))
  {
    var r := s.q.(popped := s.q.popped + 1, answered := s.q.answered + 1);
    HeadServed(s.q, s.inbox, r, Reply(s.q.answered));
    OutcomesServed(s.callers, s.q, s.flags.err, r);
  }

  lemma {:induction false} DrainOne(s: State, r: Pending, inbox: map<nat, Result>)
    requires Inv(s) && s.reader == Draining && r == s.q.(popped := s.q.popped + 1)
    requires Fifo(r) && Served(r, inbox) && Outcomes(s.callers, r, s.flags.err)
    ensures Inv(s.(q := r, inbox := inbox))
  {
  }

  lemma {:induction false} DrainHead(s: State)
    requires Inv(s) && s.reader == Draining && s.q.popped < |s.q.enqueued|
    ensures s.q.enqueued[s.q.popped] !in s.inbox && Inv(Drained(s))
  {
    var r := s.q.(popped := s.q.popped + 1);
    HeadServed(s.q, s.inbox, r, Terminal);
    OutcomesServed(s.callers, s.q, s.flags.err, r);
    DrainOne(s, r, s.inbox[s.q.enqueued[s.q.popped] := Terminal]);
  }

  lemma {:induction false} DrainEnd(s: State)
    requires Inv(s) && s.reader == Draining && |s.q.enqueued| <= s.q.popped
    ensures Inv(Drained(s))
  {
  }

  /** A drain step that finds the head of the queue unserved. */
  function Drained(s: State): (t: State)
  {
    if |s.q.enqueued| <= s.q.popped then s.(reader := Finished)
    else s.(inbox := s.inbox[s.q.enqueued[s.q.popped] := Terminal], q := s.q.(popped := s.q.popped + 1))
  }

  lemma {:induction false} DrainIs(s: State)
    requires Enabled(s, Drain) && (s.q.popped < |s.q.enqueued| ==> s.q.enqueued[s.q.popped] !in s.inbox)
    ensures Next(s, Drain) == Drained(s)
  {
  }

  lemma {:induction false} DrainStep(s: State)
    requires Inv(s) && Enabled(s, Drain)
    ensures Inv(Next(s, Drain))
  {
    if s.q.popped < |s.q.enqueued| {
      DrainHead(s);
    } else {
      DrainEnd(s);
    }
    DrainIs(s);
  }

  lemma {:induction false} ReaderSteps(s: State, step: Step)
    requires Inv(s) && Enabled(s, step)
    requires step.ReadReply? || step.ReadFails? || step.StoreError? || step.CloseExit? || step.ReaderLocks?
             || step.ClosePending? || step.ReaderUnlocks?
    ensures Inv(Next(s, step))
  {
  }

  lemma {:induction false} InvKept(s: State, step: Step)
    requires Inv(s) && Enabled(s, step)
    ensures Inv(Next(s, step))
  {
    match step
    case TakeLock(c) => TakeLockStep(s, c);
    case Check(c) => CheckStep(s, c);
    case Enqueue(c) => EnqueueStep(s, c);
    case Bail(c) => BailStep(s, c);
    case Write(c, ok) => WriteStep(s, c, ok);
    case Unlock(c) => UnlockStep(s, c);
    case CloseConn(c) => CloseConnStep(s, c);
    case Receive(c) => ReceiveStep(s, c);
    case Dispatch => DispatchStep(s);
    case Drain => DrainStep(s);
    case _ => ReaderSteps(s, step);
  }

  // ---------------------------------------------------------------- runs

  ghost predicate Run(states: seq<State>, steps: seq<Step>)
  {
    && |states| == |steps| + 1 && states[0] == INITIAL
    && forall i :: 0 <= i < |steps| ==> Enabled(states[i], steps[i]) && states[i + 1] == Next(states[i], steps[i])
  }

  lemma {:induction false} Reachable(states: seq<State>, steps: seq<Step>, k: nat)
    requires Run(states, steps) && k < |states|
    ensures Inv(states[k])
    decreases k
  {
    if k > 0 {
      Reachable(states, steps, k - 1);
      InvKept(states[k - 1], steps[k - 1]);
    }
  }

  /**
   On every interleaving: nothing is sent on a closed channel, no channel is closed or sent to twice,
   and a reader that holds a reply finds a waiting channel.
   */
  lemma {:induction false} NoFaults(states: seq<State>, steps: seq<Step>, k: nat)
    requires Run(states, steps) && k < |states|
    ensures states[k].fault == NoFault
    ensures states[k].reader == Holding ==> states[k].q.popped < |states[k].q.enqueued|
  {
    Reachable(states, steps, k);
  }

  /**
   A call that returns a reply returns the reply to its own request; one that fails with the terminal
   error finds a stored error; a call never returns a nil error in its place.
   */
  lemma {:induction false} OwnReply(states: seq<State>, steps: seq<Step>, k: nat, c: nat)
    requires Run(states, steps) && k < |states| && PhaseOf(states[k].callers, c).Done?
    ensures var s, r := states[k], PhaseOf(states[k].callers, c).result;
            && r != NilError
            && (r.Reply? ==> r.k < s.q.delivered && r.k < |s.q.enqueued| && s.q.enqueued[r.k] == c)
            && (r.Terminal? ==> s.flags.err)
  {
    Reachable(states, steps, k);
  }

  lemma {:induction false} InboxGrows(s: State, step: Step, c: nat)
    requires Inv(s) && Enabled(s, step) && c in s.inbox
    ensures c in Next(s, step).inbox && Next(s, step).inbox[c] == s.inbox[c]
  {
    if step.Dispatch? && s.q.popped < |s.q.enqueued| {
      HeadServed(s.q, s.inbox, s.q.(popped := s.q.popped + 1, answered := s.q.answered + 1), Reply(s.q.answered));
    }
  }

  /** What was sent on a reply channel stays: it is sent to at most once. */
  lemma {:induction false} SentOnce(states: seq<State>, steps: seq<Step>, i: nat, k: nat, c: nat)
    requires Run(states, steps) && i <= k < |states| && c in states[i].inbox
    ensures c in states[k].inbox && states[k].inbox[c] == states[i].inbox[c]
    decreases k
  {
    if i < k {
      SentOnce(states, steps, i, k - 1, c);
      Reachable(states, steps, k - 1);
      InboxGrows(states[k - 1], steps[k - 1], c);
    }
  }

  /** When the reader has finished, every enqueued reply channel has been sent to, so no caller is left waiting. */
  lemma {:induction false} AllServed(states: seq<State>, steps: seq<Step>, k: nat)
    requires Run(states, steps) && k < |states| && states[k].reader == Finished
    ensures forall c :: c in states[k].q.enqueued <==> c in states[k].inbox
    ensures forall c :: PhaseOf(states[k].callers, c) == Waiting ==> Enabled(states[k], Receive(c))
  {
    Reachable(states, steps, k);
    var q := states[k].q;
    assert q.enqueued[..q.popped] == q.enqueued;
  }

  /** The lock the reader waits for is held by a call whose conn.Write has not returned. */
  predicate WaitsForWrite(s: State)
  {
    s.reader == ExitClosed && s.lock.ByCaller? && PhaseOf(s.callers, s.lock.c) == Enqueued
  }

  /** The next step of the reader, or of the caller that holds the lock it waits for. */
  function ShutdownStep(s: State): (step: Step)
  {
    match s.reader
    case Failing => StoreError
    case Stored => CloseExit
    case ExitClosed =>
      (match s.lock
       case ByCaller(c) =>
         if PhaseOf(s.callers, c) == Locked then Check(c)
         else if PhaseOf(s.callers, c) == Checked then Bail(c)
         else Unlock(c)
       case _ => ReaderLocks)
    case HasLock => ClosePending
    case PendingClosed => ReaderUnlocks
    case _ => Drain
  }

  /** Steps left until the reader has finished, if each is the one ShutdownStep names or the return of a write it waits for. */
  function Remaining(s: State): (n: nat)
    requires Fifo(s.q)
  {
    var queued := |s.q.enqueued| - s.q.popped;
    match s.reader
    case Failing => 9 + queued
    case Stored => 8 + queued
    case ExitClosed => (if WaitsForWrite(s) then 7 else if s.lock.ByCaller? then 6 else 5) + queued
    case HasLock => 4 + queued
    case PendingClosed => 3 + queued
    case Draining => 1 + queued
    case _ => 0
  }

  /**
   Shutdown waits for nothing but a conn.Write in progress: unless that is what it waits for, the named
   step is enabled, involves no I/O and brings the end nearer; and so does the return of the write,
   whether it failed or not.
   */
  lemma {:induction false} ShutdownProgress(s: State)
    requires Inv(s) && s.reader != Reading && s.reader != Holding && s.reader != Finished
    ensures !WaitsForWrite(s) ==>
              && Enabled(s, ShutdownStep(s))
              && Inv(Next(s, ShutdownStep(s))) && Remaining(Next(s, ShutdownStep(s))) < Remaining(s)
    ensures WaitsForWrite(s) ==> forall ok ::
              && Enabled(s, Write(s.lock.c, ok))
              && Inv(Next(s, Write(s.lock.c, ok))) && Remaining(Next(s, Write(s.lock.c, ok))) < Remaining(s)
  {
    if WaitsForWrite(s) {
      forall ok
        ensures Inv(Next(s, Write(s.lock.c, ok)))
      {
        InvKept(s, Write(s.lock.c, ok));
      }
    } else {
      InvKept(s, ShutdownStep(s));
    }
  }
}
