/**
 Waiting for a local git process (modules/gitserver/backend_local_lifecycle.go). waitLocalProcess
 and waitLocalOutput run as one program counter; the process, the two output copies and cancellation
 take steps of their own, so every interleaving is a run.
 */
module GitLifecycle {
  /** The exit observer: waiting, done with its result in the channel, joined. */
  datatype Observer = Observing | Exited(failed: bool) | Joined(failed: bool)

  /** An output copy: running, done with its result in the channel, received (its channel variable is nil). */
  datatype Copy = Copying | Copied(failed: bool) | Received(failed: bool)

  datatype Result = CtxError | ObserveError | ProcessError | StdoutError | StderrError | Success

  datatype Event = StdinClosed | GroupSignalled | Reaped

  datatype PC =
    | AwaitExit | ProbeExit
    | CancelClose | CancelSignal | CancelJoin | CancelReap
    | ExitClose | FailedSignal | FailedReap
    | TryStdout | TryStderr | SelectOutput | LastStdout | LastStderr | OutputOver
    | FinalReap
    | Returned(result: Result)

  datatype State = State(pc: PC, observer: Observer, out: Copy, err: Copy, cancelled: bool, trace: seq<Event>)

  const INITIAL: State := State(AwaitExit, Observing, Copying, Copying, false, [])

  datatype Step =
    | ProcessExits(failed: bool)
    | Cancel
    | StdoutEnds(failed: bool)
    | StderrEnds(failed: bool)
    | Observe
    | SeeCancel
    | TakeStdout
    | TakeStderr
    | Proceed(reapFailed: bool)

  /** Whether both results are in. */
  predicate BothReceived(s: State)
  {
    s.out.Received? && s.err.Received?
  }

  predicate Enabled(s: State, step: Step)
  {
    match step
    case ProcessExits(_) => s.observer.Observing?
    case Cancel => !s.cancelled
    case StdoutEnds(_) => s.out.Copying?
    case StderrEnds(_) => s.err.Copying?
    case Observe => s.observer.Exited? && (s.pc.AwaitExit? || s.pc.ProbeExit? || s.pc.CancelJoin?)
    case SeeCancel => s.cancelled && (s.pc.AwaitExit? || s.pc.SelectOutput?)
    case TakeStdout => s.out.Copied? && (s.pc.TryStdout? || s.pc.SelectOutput? || s.pc.LastStdout?)
    case TakeStderr => s.err.Copied? && (s.pc.TryStderr? || s.pc.SelectOutput? || s.pc.LastStderr?)
    case Proceed(_) =>
      (match s.pc
       case AwaitExit => false
       case ProbeExit => !s.observer.Exited?
       case CancelJoin => false
       case TryStdout => !s.out.Copied?
       case TryStderr => !s.err.Copied?
       case SelectOutput => false
       case LastStdout => !s.out.Copied?
       case LastStderr => !s.err.Copied?
       case Returned(_) => false
       case _ => true)
  }

  function FinalResult(s: State, reapFailed: bool): (r: Result)
  {
    if !BothReceived(s) then CtxError
    else if reapFailed then ProcessError
    else if s.out.failed then StdoutError
    else if s.err.failed then StderrError
    else Success
  }

  function Logged(s: State, e: Event, pc: PC): (t: State)
  {
    s.(trace := s.trace + [e], pc := pc)
  }

  /** Where the output loop goes after its non-blocking receives. */
  function AfterTries(s: State): (pc: PC)
  {
    if BothReceived(s) then OutputOver else SelectOutput
  }

  function Continue(s: State, reapFailed: bool): (t: State)
    requires Enabled(s, Proceed(reapFailed))
  {
    match s.pc
    case ProbeExit => s.(pc := CancelClose)
    case CancelClose => Logged(s, StdinClosed, CancelSignal)
    case CancelSignal => Logged(s, GroupSignalled, CancelJoin)
    case CancelReap => Logged(s, Reaped, Returned(CtxError))
    case ExitClose =>
      Logged(s, StdinClosed, if s.observer.Joined? && s.observer.failed then FailedSignal else TryStdout)
    case FailedSignal => Logged(s, GroupSignalled, FailedReap)
    case FailedReap => Logged(s, Reaped, Returned(ObserveError))
    case TryStdout => s.(pc := TryStderr)
    case TryStderr => s.(pc := AfterTries(s))
    case LastStdout => s.(pc := LastStderr)
    case LastStderr => s.(pc := OutputOver)
    case OutputOver => if BothReceived(s) then s.(pc := FinalReap) else Logged(s, GroupSignalled, FinalReap)
    case FinalReap => Logged(s, Reaped, Returned(FinalResult(s, reapFailed)))
  }

  function Next(s: State, step: Step): (t: State)
    requires Enabled(s, step)
  {
    match step
    case ProcessExits(failed) => s.(observer := Exited(failed))
    case Cancel => s.(cancelled := true)
    case StdoutEnds(failed) => s.(out := Copied(failed))
    case StderrEnds(failed) => s.(err := Copied(failed))
    case Observe =>
      s.(observer := Joined(s.observer.failed), pc := if s.pc.CancelJoin? then CancelReap else ExitClose)
    case SeeCancel => s.(pc := if s.pc.AwaitExit? then ProbeExit else LastStdout)
    case TakeStdout =>
      var t := s.(out := Received(s.out.failed));
      t.(pc := if s.pc.SelectOutput? then (if BothReceived(t) then OutputOver else TryStdout)
               else if s.pc.TryStdout? then TryStderr else LastStderr)
    case TakeStderr =>
      var t := s.(err := Received(s.err.failed));
      t.(pc := if s.pc.SelectOutput? then (if BothReceived(t) then OutputOver else TryStdout)
               else if s.pc.TryStderr? then AfterTries(t) else OutputOver)
    case Proceed(reapFailed) => Continue(s, reapFailed)
  }

  // ---------------------------------------------------------------- the invariant

  /** The effects performed so far, by program position. */
  ghost predicate TraceAt(s: State)
  {
    match s.pc
    case AwaitExit => s.trace == []
    case ProbeExit => s.trace == []
    case CancelClose => s.trace == []
    case CancelSignal => s.trace == [StdinClosed]
    case CancelJoin => s.trace == [StdinClosed, GroupSignalled]
    case CancelReap => s.trace == [StdinClosed, GroupSignalled]
    case ExitClose => s.trace == []
    case FailedSignal => s.trace == [StdinClosed]
    case FailedReap => s.trace == [StdinClosed, GroupSignalled]
    case FinalReap => s.trace == if BothReceived(s) then [StdinClosed] else [StdinClosed, GroupSignalled]
    case Returned(_) => s.trace == [StdinClosed, Reaped] || s.trace == [StdinClosed, GroupSignalled, Reaped]
    case _ => s.trace == [StdinClosed]
  }

  ghost predicate Joining(s: State)
  {
    s.observer.Joined? <==>
      !(s.pc.AwaitExit? || s.pc.ProbeExit? || s.pc.CancelClose? || s.pc.CancelSignal? || s.pc.CancelJoin?)
  }

  predicate InOutput(pc: PC)
  {
    pc.TryStdout? || pc.TryStderr? || pc.SelectOutput? || pc.LastStdout? || pc.LastStderr? || pc.OutputOver? || pc.FinalReap?
  }

  /** Positions that are only reached through the cancelled context. */
  predicate AfterCancel(pc: PC)
  {
    pc.ProbeExit? || pc.CancelClose? || pc.CancelSignal? || pc.CancelJoin? || pc.CancelReap? || pc.LastStdout? || pc.LastStderr?
  }

  ghost predicate Inv(s: State)
  {
    && TraceAt(s)
    && Joining(s)
    && (AfterCancel(s.pc) ==> s.cancelled)
    && (s.pc.SelectOutput? ==> !BothReceived(s))
    && ((s.pc.OutputOver? || s.pc.FinalReap?) && !BothReceived(s) ==> s.cancelled)
    && (InOutput(s.pc) ==> s.observer.Joined? && !s.observer.failed)
    && (s.pc.FailedSignal? || s.pc.FailedReap? ==> s.observer.Joined? && s.observer.failed)
    && (s.pc.Returned? ==> Justified(s, s.pc.result))
  }

  /** Each way of returning, and what it means. */
  ghost predicate Justified(s: State, r: Result)
  {
    match r
    case CtxError => s.cancelled && GroupSignalled in s.trace
    case ObserveError => s.observer == Joined(true) && GroupSignalled in s.trace
    case ProcessError => BothReceived(s) && GroupSignalled !in s.trace
    case StdoutError => BothReceived(s) && s.out.failed && GroupSignalled !in s.trace
    case StderrError => BothReceived(s) && !s.out.failed && s.err.failed && GroupSignalled !in s.trace
    case Success => BothReceived(s) && !s.out.failed && !s.err.failed && GroupSignalled !in s.trace
  }

  lemma {:induction false} ContinueKeeps(s: State, reapFailed: bool)
    requires Inv(s) && Enabled(s, Proceed(reapFailed))
    ensures Inv(Next(s, Proceed(reapFailed)))
  {
  }

  lemma {:induction false} TakeKeeps(s: State, step: Step)
    requires Inv(s) && Enabled(s, step) && (step.TakeStdout? || step.TakeStderr?)
    ensures Inv(Next(s, step))
  {
  }

  lemma {:induction false} InvKept(s: State, step: Step)
    requires Inv(s) && Enabled(s, step)
    ensures Inv(Next(s, step))
  {
    match step
    case Proceed(reapFailed) => ContinueKeeps(s, reapFailed);
    case TakeStdout => TakeKeeps(s, step);
    case TakeStderr => TakeKeeps(s, step);
    case _ =>
  }

  ghost predicate Run(states: seq<State>, steps: seq<Step>)
  {
    && |states| == |steps| + 1 && states[0] == INITIAL
    && forall i :: 0 <= i < |steps| ==> Enabled(states[i], steps[i]) && states[i + 1] == Next(states[i], steps[i])
  }

  lemma {:induction false} Reachable(states: seq<State>, steps: seq<Step>, k: nat)
    requires Run(states, steps) && k < |states|
    ensures Inv(states[k])
    decreases k
  {
    if k > 0 {
      Reachable(states, steps, k - 1);
      InvKept(states[k - 1], steps[k - 1]);
    }
  }

  // ---------------------------------------------------------------- the theorems

  function Reaps(trace: seq<Event>): (n: nat)
  {
    multiset(trace)[Reaped]
  }

  /**
   On every interleaving the child is reaped at most once, exactly once when the wait returns, only
   after the observer was joined, and nothing follows the reap: no group signal can hit a recycled
   process group.
   */
  lemma {:induction false} ReapedOnceAndLast(states: seq<State>, steps: seq<Step>, k: nat)
    requires Run(states, steps) && k < |states|
    ensures var s := states[k];
            && Reaps(s.trace) <= 1
            && (s.pc.Returned? <==> Reaps(s.trace) == 1)
            && (Reaps(s.trace) == 1 ==> s.trace[|s.trace| - 1] == Reaped && s.observer.Joined?)
  {
    Reachable(states, steps, k);
  }

  /** Output waiting ends with both results, or with the context cancelled and the group signalled. */
  lemma {:induction false} OutputComplete(states: seq<State>, steps: seq<Step>, k: nat)
    requires Run(states, steps) && k < |states| && states[k].pc.Returned?
    ensures Justified(states[k], states[k].pc.result)
    ensures states[k].pc.result.Success? ==> states[k].out == Received(false) && states[k].err == Received(false)
  {
    Reachable(states, steps, k);
  }

  /** The wait is blocked only for the exit, the output, or the observer of a group it has signalled. */
  lemma {:induction false} OnlyWaits(s: State)
    requires Inv(s) && !s.pc.Returned?
    ensures (exists step :: Enabled(s, step) && (step.Observe? || step.SeeCancel? || step.TakeStdout? || step.TakeStderr? || step.Proceed?))
            || (s.pc.AwaitExit? && s.observer.Observing? && !s.cancelled)
            || (s.pc.CancelJoin? && s.observer.Observing? && GroupSignalled in s.trace)
            || (s.pc.SelectOutput? && !s.cancelled && (s.out.Copying? || s.err.Copying?))
  {
    assert Enabled(s, Observe) || Enabled(s, SeeCancel) || Enabled(s, TakeStdout) || Enabled(s, TakeStderr) || Enabled(s, Proceed(false))
           || (s.pc.AwaitExit? && s.observer.Observing? && !s.cancelled)
           || (s.pc.CancelJoin? && s.observer.Observing?)
           || (s.pc.SelectOutput? && !s.cancelled && (s.out.Copying? || s.err.Copying?));
  }
}
