/**
 The SSH session of the git server (HandleSession in modules/gitserver/server.go): the pre-exec
 request loop, the backend and drain goroutines, and the final select, as a step system over every
 interleaving of requests, cancellation, timeout, stream close and backend completion.
 */
module GitSession {
  import GitCommand

  const PROTOCOL_NAME: string := "GIT_PROTOCOL"
  const PROTOCOL_VALUE: string := "version=2"

  /** A session request; bad payloads do not unmarshal. */
  datatype Request = Env(name: string, value: string) | Exec(command: string) | BadEnvPayload | BadExecPayload | OtherRequest

  datatype Result =
    | NotGit | Timeout | Cancelled | StreamClosed | SecondEnv | BadEnv | BadRequest | ExecRefused | Unsupported
    | BackendResult(failed: bool)

  /** The backend goroutine; Reported means its result was taken from the channel. */
  datatype Backend = NotStarted | Running | Done(failed: bool) | Reported(failed: bool)

  datatype Drain = Inactive | Draining | Signalled | Stopped

  datatype Phase =
    | Entry
    | PreExec
    | Waiting
    | Probing
    | Reporting
    | Leaving(result: Result)
    | Returned(result: Result)

  /** What the outside sees: backend starts, exit statuses, channel closes, and replies to requests. */
  datatype Effects = Effects(
    starts: seq<(GitCommand.Request, string)>,
    statuses: seq<nat>,
    closes: nat,
    replies: seq<bool>)

  datatype Server = Server(perm: GitCommand.Permission, repos: map<string, GitCommand.Repository>)

  datatype State = State(
    phase: Phase,
    protocol: string,
    backend: Backend,
    drain: Drain,
    cancelled: bool,
    backendCancelled: bool,
    fx: Effects)

  const INITIAL: State := State(Entry, "", NotStarted, Inactive, false, false, Effects([], [], 0, []))

  datatype Step =
    | Cancel
    | BackendReturns(failed: bool)
    | Enter
    | Timer
    | SeeCancel
    | SeeStreamEnd
    | Take(request: Request)
    | DrainTake
    | DrainStreamEnd
    | DrainStop
    | TakeBackend
    | TakeSignal
    | GiveUp
    | Report
    | Leave

  predicate Enabled(s: State, step: Step)
  {
    match step
    case Cancel => !s.cancelled
    case BackendReturns(_) => s.backend.Running?
    case Enter => s.phase.Entry?
    case Timer => s.phase.PreExec?
    case SeeCancel => s.cancelled && (s.phase.PreExec? || s.phase.Waiting?)
    case SeeStreamEnd => s.phase.PreExec?
    case Take(_) => s.phase.PreExec?
    case DrainTake => s.drain.Draining?
    case DrainStreamEnd => s.drain.Draining?
    case DrainStop => s.drain.Draining? && (s.backendCancelled || s.cancelled)
    case TakeBackend => s.backend.Done? && (s.phase.Waiting? || s.phase.Probing?)
    case TakeSignal => s.drain.Signalled? && s.phase.Waiting?
    case GiveUp => s.phase.Probing? && !s.backend.Done?
    case Report => s.phase.Reporting?
    case Leave => s.phase.Leaving?
  }

  function Reply(fx: Effects, ok: bool): (r: Effects)
    ensures r == fx.(replies := r.replies) && r.replies == fx.replies + [ok]
  {
    fx.(replies := fx.replies + [ok])
  }

  function Refuse(s: State, result: Result): (t: State)
  {
    s.(phase := Leaving(result), fx := Reply(s.fx, false))
  }

  /** One request of the pre-exec loop. */
  function Taken(v: Server, s: State, request: Request): (t: State)
  {
    match request
    case Env(name, value) =>
      if s.protocol != "" then Refuse(s, SecondEnv)
      else if name != PROTOCOL_NAME || value != PROTOCOL_VALUE then Refuse(s, BadEnv)
      else s.(protocol := value, fx := Reply(s.fx, true))
    case Exec(command) =>
      var parsed := GitCommand.ParseGitCommand(command);
      if parsed.Err? then Refuse(s, ExecRefused)
      else
        var authorized := GitCommand.Authorize(v.perm, v.repos, parsed.value);
        if authorized.Err? then Refuse(s, ExecRefused)
        else
          s.(phase := Waiting, backend := Running, drain := Draining,
             fx := Reply(s.fx, true).(starts := s.fx.starts + [(authorized.value, s.protocol)]))
    case BadEnvPayload => Refuse(s, if s.protocol != "" then SecondEnv else BadRequest)
    case BadExecPayload => Refuse(s, BadRequest)
    case OtherRequest => Refuse(s, Unsupported)
  }

  function Next(v: Server, s: State, step: Step): (t: State)
    requires Enabled(s, step)
  {
    match step
    case Cancel => s.(cancelled := true)
    case BackendReturns(failed) => s.(backend := Done(failed))
    case Enter => if v.perm.NotGit? then s.(phase := Leaving(NotGit)) else s.(phase := PreExec)
    case Timer => s.(phase := Leaving(Timeout))
    case SeeCancel => if s.phase.PreExec? then s.(phase := Leaving(Cancelled)) else s.(phase := Probing)
    case SeeStreamEnd => s.(phase := Leaving(StreamClosed))
    case Take(request) => Taken(v, s, request)
    case DrainTake => s.(fx := Reply(s.fx, false))
    case DrainStreamEnd => s.(drain := Signalled)
    case DrainStop => s.(drain := Stopped)
    case TakeBackend => s.(phase := Reporting, backend := Reported(s.backend.failed))
    case TakeSignal => s.(phase := Leaving(StreamClosed), backendCancelled := true)
    case GiveUp => s.(phase := Leaving(Cancelled))
    case Report =>
      var failed := s.backend.Reported? && s.backend.failed;
      s.(phase := Leaving(if s.cancelled then Cancelled else BackendResult(failed)),
         fx := s.fx.(statuses := s.fx.statuses + [if failed then 1 else 0]))
    case Leave => s.(phase := Returned(s.phase.result), backendCancelled := true, fx := s.fx.(closes := s.fx.closes + 1))
  }

  // ---------------------------------------------------------------- the invariant

  /** A request that some exec command of the client was parsed into and authorized for. */
  ghost predicate Authorized(v: Server, req: GitCommand.Request)
  {
    exists command :: GrantedBy(v, req, command)
  }

  ghost predicate GrantedBy(v: Server, req: GitCommand.Request, command: string)
  {
    var parsed := GitCommand.ParseGitCommand(command);
    parsed.Ok? && GitCommand.Authorize(v.perm, v.repos, parsed.value) == GitCommand.Ok(req)
  }

  predicate BeforeExec(p: Phase)
  {
    p.Entry? || p.PreExec?
  }

  ghost predicate Starts(v: Server, s: State)
  {
    && |s.fx.starts| == (if s.backend.NotStarted? then 0 else 1)
    && (forall i :: 0 <= i < |s.fx.starts| ==> Authorized(v, s.fx.starts[i].0) && s.fx.starts[i].1 == s.protocol)
    && (BeforeExec(s.phase) ==> s.backend.NotStarted? && s.drain.Inactive?)
    && (s.phase.Waiting? || s.phase.Probing? ==> s.backend.Running? || s.backend.Done?)
    && (s.phase.Reporting? ==> s.backend.Reported?)
    && (s.protocol == "" || s.protocol == PROTOCOL_VALUE)
  }

  ghost predicate Statuses(s: State)
  {
    && (s.fx.statuses == [] || s.backend.Reported?)
    && (s.backend.Reported? && !s.phase.Reporting? ==> s.fx.statuses == [if s.backend.failed then 1 else 0])
    && (s.phase.Reporting? ==> s.fx.statuses == [])
    && s.fx.closes == (if s.phase.Returned? then 1 else 0)
  }

  ghost predicate Inv(v: Server, s: State)
  {
    Starts(v, s) && Statuses(s)
  }

  lemma {:induction false} TakeKeeps(v: Server, s: State, request: Request)
    requires Inv(v, s) && s.phase.PreExec?
    ensures Inv(v, Taken(v, s, request))
  {
    if request.Exec? {
      var parsed := GitCommand.ParseGitCommand(request.command);
      if parsed.Ok? && GitCommand.Authorize(v.perm, v.repos, parsed.value).Ok? {
        var req := GitCommand.Authorize(v.perm, v.repos, parsed.value).value;
        assert GrantedBy(v, req, request.command);
      }
    }
  }

  lemma {:induction false} InvKept(v: Server, s: State, step: Step)
    requires Inv(v, s) && Enabled(s, step)
    ensures Inv(v, Next(v, s, step))
  {
    if step.Take? {
      TakeKeeps(v, s, step.request);
    }
  }

  ghost predicate Run(v: Server, states: seq<State>, steps: seq<Step>)
  {
    && |states| == |steps| + 1 && states[0] == INITIAL
    && forall i :: 0 <= i < |steps| ==> Enabled(states[i], steps[i]) && states[i + 1] == Next(v, states[i], steps[i])
  }

  lemma {:induction false} Reachable(v: Server, states: seq<State>, steps: seq<Step>, k: nat)
    requires Run(v, states, steps) && k < |states|
    ensures Inv(v, states[k])
    decreases k
  {
    if k > 0 {
      Reachable(v, states, steps, k - 1);
      InvKept(v, states[k - 1], steps[k - 1]);
    }
  }

  // ---------------------------------------------------------------- the theorems

  /** Step j of the run took the exec request that started the backend with req and protocol. */
  ghost predicate StartedAt(v: Server, states: seq<State>, steps: seq<Step>, j: nat, start: (GitCommand.Request, string))
    requires |states| == |steps| + 1
  {
    && j < |steps| && steps[j].Take? && steps[j].request.Exec?
    && GrantedBy(v, start.0, steps[j].request.command) && start.1 == states[j].protocol
  }

  ghost predicate Requested(v: Server, states: seq<State>, steps: seq<Step>, k: nat, start: (GitCommand.Request, string))
    requires |states| == |steps| + 1
  {
    exists j :: 0 <= j < k && StartedAt(v, states, steps, j, start)
  }

  /** From s to t nothing was started, or the one backend that step asked for. */
  ghost predicate StartsOne(v: Server, s: State, step: Step, t: State)
  {
    || t.fx.starts == s.fx.starts
    || (&& step.Take? && step.request.Exec? && |t.fx.starts| == |s.fx.starts| + 1
        && t.fx.starts == s.fx.starts + [t.fx.starts[|s.fx.starts|]]
        && GrantedBy(v, t.fx.starts[|s.fx.starts|].0, step.request.command)
        && t.fx.starts[|s.fx.starts|].1 == s.protocol)
  }

  /** Only an exec request that is granted starts a backend. */
  lemma {:induction false} OnlyExecStarts(v: Server, s: State, step: Step)
    requires Enabled(s, step)
    ensures StartsOne(v, s, step, Next(v, s, step))
  {
  }

  /** List m + 1 is list m, or has one more entry, which holds at m. */
  ghost predicate Appends<T(!new)>(lists: seq<seq<T>>, at: (nat, T) -> bool, m: nat)
    requires m + 1 < |lists|
  {
    || lists[m + 1] == lists[m]
    || (|lists[m + 1]| == |lists[m]| + 1 && lists[m] <= lists[m + 1] && at(m, lists[m + 1][|lists[m]|]))
  }

  lemma {:induction false} WhenAppended<T(!new)>(lists: seq<seq<T>>, at: (nat, T) -> bool, k: nat, i: nat) returns (j: nat)
    requires k < |lists| && lists[0] == [] && i < |lists[k]|
    requires forall m :: 0 <= m < k ==> Appends(lists, at, m)
    ensures j < k && at(j, lists[k][i])
    decreases k
  {
    assert Appends(lists, at, k - 1);
    if i < |lists[k - 1]| {
      j := WhenAppended(lists, at, k - 1, i);
    } else {
      j := k - 1;
    }
  }

  lemma {:induction false} StartHasRequest(v: Server, states: seq<State>, steps: seq<Step>, k: nat, i: nat) returns (j: nat)
    requires Run(v, states, steps) && k < |states| && i < |states[k].fx.starts|
    ensures j < k && StartedAt(v, states, steps, j, states[k].fx.starts[i])
  {
    var lists := seq(|states|, m requires 0 <= m < |states| => states[m].fx.starts);
    var at := (m: nat, start: (GitCommand.Request, string)) => StartedAt(v, states, steps, m, start);
    forall m | 0 <= m < k
      ensures Appends(lists, at, m)
    {
      OnlyExecStarts(v, states[m], steps[m]);
    }
    j := WhenAppended(lists, at, k, i);
  }

  /**
   On every interleaving: the backend is started at most once, only by an exec request received
   earlier in the run whose command parses to a request the client is authorized for, with the
   protocol accepted before it, which is unset or version=2; the channel is closed exactly once, when
   the session returns; at most one exit-status is sent, only after the backend's result was taken and
   with its value.
   */
  lemma {:induction false} SessionSafety(v: Server, states: seq<State>, steps: seq<Step>, k: nat)
    requires Run(v, states, steps) && k < |states|
    ensures var s := states[k];
            && |s.fx.starts| <= 1
            && (forall i :: 0 <= i < |s.fx.starts| ==>
                  && Requested(v, states, steps, k, s.fx.starts[i]) && Authorized(v, s.fx.starts[i].0)
                  && (s.fx.starts[i].1 == "" || s.fx.starts[i].1 == PROTOCOL_VALUE))
            && s.fx.closes == (if s.phase.Returned? then 1 else 0)
            && |s.fx.statuses| <= 1
            && (s.fx.statuses != [] ==> s.backend.Reported? && s.fx.statuses == [if s.backend.failed then 1 else 0])
  {
    Reachable(v, states, steps, k);
    forall i | 0 <= i < |states[k].fx.starts|
      ensures Requested(v, states, steps, k, states[k].fx.starts[i])
    {
      var j := StartHasRequest(v, states, steps, k, i);
    }
  }

  /** A started backend means that the client's key may use the repository it was started for. */
  lemma {:induction false} StartedMeansAllowed(v: Server, req: GitCommand.Request)
    requires Authorized(v, req)
    ensures v.perm.Git? && req.repoPath in v.repos && req.backendPath == v.repos[req.repoPath].backendPath
    ensures GitCommand.KnownCommand(req.command) && req.operation == GitCommand.OperationOf(req.command)
    ensures var rc := v.repos[req.repoPath];
            v.perm.fingerprint in rc.writeKeys || (req.operation.Read? && v.perm.fingerprint in rc.readKeys)
  {
    var command :| GrantedBy(v, req, command);
    var parsed := GitCommand.ParseGitCommand(command).value;
    GitCommand.PrintParsed(command);
    GitCommand.NormalizeFixed(parsed.repoPath);
  }

  lemma {:induction false} EffectsGrow(v: Server, s: State, step: Step)
    requires Enabled(s, step)
    ensures var t := Next(v, s, step);
            && s.fx.starts <= t.fx.starts && s.fx.statuses <= t.fx.statuses && s.fx.closes <= t.fx.closes
            && (s.phase.Returned? ==> t.phase == s.phase && t.fx == s.fx.(replies := t.fx.replies))
  {
  }

  lemma {:induction false} ReturnedStays(v: Server, states: seq<State>, steps: seq<Step>, i: nat, k: nat)
    requires Run(v, states, steps) && i <= k < |states| && states[i].phase.Returned?
    ensures states[k].phase == states[i].phase && states[k].fx == states[i].fx.(replies := states[k].fx.replies)
    decreases k
  {
    if i < k {
      ReturnedStays(v, states, steps, i, k - 1);
      EffectsGrow(v, states[k - 1], steps[k - 1]);
    }
  }

  /** After the session returned only the drain goroutine may still reply, until it notices the cancellation. */
  lemma {:induction false} QuietAfterReturn(v: Server, states: seq<State>, steps: seq<Step>, i: nat, k: nat)
    requires Run(v, states, steps) && i <= k < |states| && states[i].phase.Returned?
    ensures states[k].phase == states[i].phase
    ensures states[k].fx.starts == states[i].fx.starts && states[k].fx.statuses == states[i].fx.statuses
    ensures states[k].fx.closes == states[i].fx.closes == 1
  {
    Reachable(v, states, steps, i);
    ReturnedStays(v, states, steps, i, k);
  }
}
