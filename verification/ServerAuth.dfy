/**
 The server side of user authentication (third/ssh/server.go, RFC 4252): a loop over requests with
 attempt and failure budgets, stages entered by partial successes, and a cache of public key
 verdicts. Callbacks are functions or verdicts carried by the request; cryptography is uninterpreted.
 */
module ServerAuth {
  import opened Bytes
  import opened Mpint

  const MAX_ATTEMPTS: nat := 128
  const MAX_CACHED_KEYS: nat := 1
  const SERVICE_SSH: string := "ssh-connection"

  type bytes = seq<byte>

  datatype Permissions = NoPermissions | Permissions(id: nat)

  /** What a callback returns: permissions and an error; a partial success names the next stage. */
  datatype Verdict = Accept(perms: Permissions) | Deny(perms: Permissions) | Partial(perms: Permissions, next: nat)

  /** The callbacks that are configured in a stage. */
  datatype Stage = Stage(password: bool, publicKey: bool, keyboard: bool, gssapi: bool)

  datatype Signature = Signature(format: bytes, blob: bytes)

  datatype Config = Config(
    maxAuthTries: int,
    noClientAuth: bool,
    noClientAuthCallback: bool,
    verifiedCallback: bool,
    stages: nat -> Stage,
    publicKey: (nat, string, bytes) -> Verdict,
    verified: (string, bytes, Permissions, bytes) -> Verdict,
    sourceAllowed: Permissions -> bool,
    algorithmAccepted: bytes -> bool,
    formatAccepted: bytes -> bool,
    keyParses: bytes -> bool,
    keyFits: (bytes, bytes) -> bool,
    compatible: (bytes, bytes) -> bool,
    parseSignature: bytes -> Option<Signature>,
    verifies: (string, bytes, bytes, Permissions, Signature) -> bool)

  datatype Gssapi = BadPayload | NoMechanism | NotKerberos | Aborted | Exchanged(verdict: Verdict)

  datatype Method =
    | NoneMethod(verdict: Verdict)
    | Password(payload: bytes, verdict: Verdict)
    | Keyboard(verdict: Verdict)
    | PublicKey(payload: bytes)
    | GssapiWithMic(exchange: Gssapi)
    | UnknownMethod

  datatype Request = ReadFails | BadMessage | Request(user: string, service: string, attempt: Method)

  /** How a user got in. */
  datatype Proof = NoProof | ByNone | ByPassword | ByKeyboard | ByGssapi | ByKey(algorithm: bytes, key: bytes, signature: Signature)

  datatype Reason =
    | TooManyFailures | TooManyAttempts | EndOfInput | ReadError | ParseError | UnknownService | UserChanged
    | PartialBeforeVerified | PermissionsWithPartial | NoMethods | SignatureInvalid | GssapiAborted

  datatype Result = Success(user: string, perms: Permissions, proof: Proof) | Failure(reason: Reason)

  /** What became of one request that did not end the loop. */
  datatype Event = Failed(user: string) | PartialSuccess(user: string, next: nat) | KeyOk(user: string, key: bytes)

  // ---------------------------------------------------------------- the cache

  datatype Entry = Entry(user: string, key: bytes, verdict: Verdict)

  function Lookup(keys: seq<Entry>, user: string, key: bytes): (v: Option<Verdict>)
    ensures v.Some? <==> exists i :: 0 <= i < |keys| && keys[i].user == user && keys[i].key == key
    ensures v.Some? ==> Entry(user, key, v.value) in keys
  {
    if keys == [] then None
    else if keys[0].user == user && keys[0].key == key then
      assert keys[0] == Entry(user, key, keys[0].verdict);
      Some(keys[0].verdict)
    else
      assert forall i :: 0 < i < |keys| ==> keys[i] == keys[1..][i - 1];
      Lookup(keys[1..], user, key)
  }

  function Added(keys: seq<Entry>, e: Entry): (r: seq<Entry>)
    ensures forall x :: x in r ==> x in keys || x == e
    ensures |keys| <= MAX_CACHED_KEYS ==> |r| <= MAX_CACHED_KEYS
  {
    (if |keys| >= MAX_CACHED_KEYS then keys[1..] else keys) + [e]
  }

  class PubKeyCache {
    var keys: seq<Entry>

    constructor ()
      ensures keys == []
    {
      keys := [];
    }

    method Get(user: string, key: bytes) returns (v: Option<Verdict>)
      ensures v == Lookup(keys, user, key)
    {
      var i := 0;
      while i < |keys|
        invariant 0 <= i <= |keys|
        invariant Lookup(keys, user, key) == Lookup(keys[i..], user, key)
      {
        if keys[i].user == user && keys[i].key == key {
          return Some(keys[i].verdict);
        }
        assert keys[i..][1..] == keys[i + 1..];
        i := i + 1;
      }
      return None;
    }

    method Add(e: Entry)
      modifies this
      ensures keys == Added(old(keys), e)
    {
      if |keys| >= MAX_CACHED_KEYS {
        keys := keys[1..];
      }
      keys := keys + [e];
    }
  }

  // ---------------------------------------------------------------- one publickey request

  /** The verdict on a key: the callback's, unless its permissions exclude the client's address. */
  function Judge(cfg: Config, stage: nat, user: string, key: bytes): (v: Verdict)
  {
    var v := cfg.publicKey(stage, user, key);
    if v.Deny? || cfg.sourceAllowed(v.perms) then v else Deny(v.perms)
  }

  /** PublicKeyCallback may not return partial success when VerifiedPublicKeyCallback is defined. */
  predicate Misused(cfg: Config, stage: nat, user: string, key: bytes)
  {
    cfg.verifiedCallback && cfg.publicKey(stage, user, key).Partial?
  }

  datatype Attempt = Abort(reason: Reason) | QueryOk(key: bytes) | Judged(verdict: Verdict, proof: Proof)

  /** The key blob that the payload offers, when the callback or the cache is consulted for it. */
  function OfferedKey(cfg: Config, payload: bytes): (k: Option<(bytes, bytes, bytes)>)
  {
    if payload == [] then None else
    var algo := ParseString(payload[1..]);
    if algo.None? || !cfg.algorithmAccepted(algo.value.0) then None else
    var key := ParseString(algo.value.1);
    if key.None? || !cfg.keyParses(key.value.0) then None
    else Some((algo.value.0, key.value.0, key.value.1))
  }

  /** A payload for which neither is consulted. */
  function Unconsulted(cfg: Config, payload: bytes): (a: Attempt)
  {
    if payload == [] then Abort(ParseError) else
    var algo := ParseString(payload[1..]);
    if algo.None? then Abort(ParseError)
    else if !cfg.algorithmAccepted(algo.value.0) then Judged(Deny(NoPermissions), NoProof)
    else if ParseString(algo.value.1).None? then Abort(ParseError)
    else Judged(Deny(NoPermissions), NoProof)
  }

  /** What follows once the verdict on the key is known. */
  function WithVerdict(cfg: Config, user: string, isQuery: bool, algo: bytes, key: bytes, rest: bytes, v: Verdict): (a: Attempt)
  {
    if isQuery then
      if rest != [] then Abort(ParseError)
      else if !v.Deny? then QueryOk(key)
      else Judged(Deny(NoPermissions), NoProof)
    else
      var sig := cfg.parseSignature(rest);
      if sig.None? then Abort(ParseError)
      else if !cfg.keyFits(key, algo) || !cfg.formatAccepted(sig.value.format) || !cfg.compatible(algo, sig.value.format) then
        Judged(Deny(NoPermissions), NoProof)
      else if !cfg.verifies(user, algo, key, v.perms, sig.value) then Abort(SignatureInvalid)
      else if v.Accept? && cfg.verifiedCallback then
        Judged(cfg.verified(user, key, v.perms, sig.value.format), ByKey(algo, key, sig.value))
      else Judged(v, ByKey(algo, key, sig.value))
  }

  // ---------------------------------------------------------------- the loop as a function

  datatype State = State(failures: nat, noneCount: nat, user: string, stage: nat, partial: bool, keys: seq<Entry>)

  const INITIAL: State := State(0, 0, "", 0, false, [])

  datatype Handled = Finish(result: Result) | Continue(state: State, event: Event)

  /** The attempt, and the cache after it. With cached == false the callback is always called. */
  function TryKey(cfg: Config, st: State, user: string, payload: bytes, cached: bool): (r: (Attempt, seq<Entry>))
  {
    var offer := OfferedKey(cfg, payload);
    if offer.None? then (Unconsulted(cfg, payload), st.keys) else
    var (algo, key, rest) := offer.value;
    var hit := if cached then Lookup(st.keys, user, key) else None;
    if hit.Some? then (WithVerdict(cfg, user, payload[0] == 0, algo, key, rest, hit.value), st.keys)
    else if Misused(cfg, st.stage, user, key) then (Abort(PartialBeforeVerified), st.keys)
    else
      var v := Judge(cfg, st.stage, user, key);
      (WithVerdict(cfg, user, payload[0] == 0, algo, key, rest, v),
       if cached then Added(st.keys, Entry(user, key, v)) else st.keys)
  }

  function TryMethod(cfg: Config, st: State, user: string, m: Method, cached: bool): (r: (Attempt, seq<Entry>))
  {
    var configured := cfg.stages(st.stage);
    var denied := (Judged(Deny(NoPermissions), NoProof), st.keys);
    match m
    case NoneMethod(v) =>
      if !cfg.noClientAuth || st.partial then denied
      else (Judged(if cfg.noClientAuthCallback then v else Accept(NoPermissions), ByNone), st.keys)
    case Password(payload, v) =>
      if !configured.password then denied
      else if payload == [] || payload[0] != 0 || ParseString(payload[1..]).None? || ParseString(payload[1..]).value.1 != []
      then (Abort(ParseError), st.keys)
      else (Judged(v, ByPassword), st.keys)
    case Keyboard(v) => if !configured.keyboard then denied else (Judged(v, ByKeyboard), st.keys)
    case PublicKey(payload) => if !configured.publicKey then denied else TryKey(cfg, st, user, payload, cached)
    case GssapiWithMic(g) =>
      if !configured.gssapi then denied
      else (match g
            case BadPayload => (Abort(ParseError), st.keys)
            case NoMechanism => denied
            case NotKerberos => denied
            case Aborted => (Abort(GssapiAborted), st.keys)
            case Exchanged(v) => (Judged(v, ByGssapi), st.keys))
    case UnknownMethod => denied
  }

  predicate AnyMethod(s: Stage)
  {
    s.password || s.publicKey || s.keyboard || s.gssapi
  }

  /** The end of an iteration: the source address, success, partial success, or a counted failure. */
  function Conclude(cfg: Config, st: State, isNone: bool, v: Verdict, proof: Proof): (h: Handled)
  {
    if v.Accept? && cfg.sourceAllowed(v.perms) then Finish(Success(st.user, v.perms, proof))
    else if v.Partial? then
      if v.perms != NoPermissions then Finish(Failure(PermissionsWithPartial))
      else if !AnyMethod(cfg.stages(v.next)) then Finish(Failure(NoMethods))
      else Continue(st.(stage := v.next, partial := true, keys := []), PartialSuccess(st.user, v.next))
    else
      var failures := if st.failures > 0 || !isNone || st.noneCount != 1 then st.failures + 1 else st.failures;
      if !(cfg.maxAuthTries > 0 && failures >= cfg.maxAuthTries) && !AnyMethod(cfg.stages(st.stage)) then
        Finish(Failure(NoMethods))
      else Continue(st.(failures := failures), Failed(st.user))
  }

  function Handle(cfg: Config, st: State, r: Request, cached: bool): (h: Handled)
  {
    match r
    case ReadFails => Finish(Failure(ReadError))
    case BadMessage => Finish(Failure(ParseError))
    case Request(user, service, m) =>
      if service != SERVICE_SSH then Finish(Failure(UnknownService))
      else if st.user != user && st.partial then Finish(Failure(UserChanged))
      else
        var st := st.(user := user, noneCount := st.noneCount + if m.NoneMethod? then 1 else 0);
        var (a, keys) := TryMethod(cfg, st, user, m, cached);
        match a
        case Abort(reason) => Finish(Failure(reason))
        case QueryOk(key) => Continue(st.(keys := keys), KeyOk(user, key))
        case Judged(v, proof) => Conclude(cfg, st.(keys := keys), m.NoneMethod?, v, proof)
  }

  datatype Outcome = Outcome(result: Result, events: seq<Event>)

  /** The loop around one iteration. */
  function Loop(step: (State, Request) -> Handled, maxTries: int, st: State, attempts: nat, requests: seq<Request>): (o: Outcome)
    decreases |requests|
  {
    if maxTries > 0 && st.failures >= maxTries then Outcome(Failure(TooManyFailures), [])
    else if attempts >= MAX_ATTEMPTS then Outcome(Failure(TooManyAttempts), [])
    else if requests == [] then Outcome(Failure(EndOfInput), [])
    else
      match step(st, requests[0])
      case Finish(result) => Outcome(result, [])
      case Continue(st', event) =>
        var o := Loop(step, maxTries, st', attempts + 1, requests[1..]);
        Outcome(o.result, [event] + o.events)
  }

  function Iteration(cfg: Config, cached: bool): (step: (State, Request) -> Handled)
  {
    (st: State, r: Request) => Handle(cfg, st, r, cached)
  }

  /** serverAuthenticate, with the cache or without it. */
  function Run(cfg: Config, requests: seq<Request>, cached: bool): (o: Outcome)
  {
    Loop(Iteration(cfg, cached), cfg.maxAuthTries, INITIAL, 0, requests)
  }

  // ---------------------------------------------------------------- the loop

  function After(events: seq<Event>, o: Outcome): (r: Outcome)
  {
    Outcome(o.result, events + o.events)
  }

  /** The publickey case of the loop, with the cache object. */
  method HandleKey(cfg: Config, st: State, payload: bytes, cache: PubKeyCache) returns (a: Attempt)
    requires st.keys == cache.keys
    modifies cache
    ensures (a, cache.keys) == TryKey(cfg, st, st.user, payload, true)
  {
    var offer := OfferedKey(cfg, payload);
    if offer.None? {
      return Unconsulted(cfg, payload);
    }
    var (algo, key, rest) := offer.value;
    var candidate := cache.Get(st.user, key);
    if candidate.None? {
      if Misused(cfg, st.stage, st.user, key) {
        return Abort(PartialBeforeVerified);
      }
      candidate := Some(Judge(cfg, st.stage, st.user, key));
      cache.Add(Entry(st.user, key, candidate.value));
    }
    return WithVerdict(cfg, st.user, payload[0] == 0, algo, key, rest, candidate.value);
  }

  /** The switch over methods; only publickey uses the cache. */
  method HandleMethod(cfg: Config, st: State, m: Method, cache: PubKeyCache) returns (a: Attempt)
    requires st.keys == cache.keys
    modifies cache
    ensures (a, cache.keys) == TryMethod(cfg, st, st.user, m, true)
  {
    if m.PublicKey? && cfg.stages(st.stage).publicKey {
      a := HandleKey(cfg, st, m.payload, cache);
    } else {
      a := TryMethod(cfg, st, st.user, m, true).0;
    }
  }

  /** step is one iteration with the cache. */
  ghost predicate Performs(step: (State, Request) -> Handled, cfg: Config)
  {
    forall st, r {:trigger Handle(cfg, st, r, true)} :: step(st, r) == Handle(cfg, st, r, true)
  }

  method ServerAuthenticate(cfg: Config, requests: seq<Request>) returns (result: Result, events: seq<Event>)
    ensures Outcome(result, events) == Run(cfg, requests, true)
  {
    result, events := AuthLoop(cfg, requests, Iteration(cfg, true));
  }

  method AuthLoop(cfg: Config, requests: seq<Request>, ghost step: (State, Request) -> Handled)
    returns (result: Result, events: seq<Event>)
    requires Performs(step, cfg)
    ensures Outcome(result, events) == Loop(step, cfg.maxAuthTries, INITIAL, 0, requests)
  {
    var cache := new PubKeyCache();
    var st, attempts, todo := INITIAL, 0, requests;
    events := [];
    while true
      invariant st.keys == cache.keys && fresh(cache)
      invariant Loop(step, cfg.maxAuthTries, INITIAL, 0, requests) ==
                After(events, Loop(step, cfg.maxAuthTries, st, attempts, todo))
      decreases |todo|
    {
      if cfg.maxAuthTries > 0 && st.failures >= cfg.maxAuthTries {
        return Failure(TooManyFailures), events;
      }
      if attempts >= MAX_ATTEMPTS {
        return Failure(TooManyAttempts), events;
      }
      if todo == [] {
        return Failure(EndOfInput), events;
      }
      var h := HandleRequest(cfg, st, todo[0], cache, step);
      if h.Finish? {
        return h.result, events;
      }
      LoopStep(step, cfg.maxAuthTries, st, attempts, todo, h.state, h.event, events);
      st, attempts, events, todo := h.state, attempts + 1, events + [h.event], todo[1..];
    }
  }

  lemma {:induction false} LoopStep(step: (State, Request) -> Handled, maxTries: int, st: State, attempts: nat, rest: seq<Request>,
                                    st': State, e: Event, events: seq<Event>)
    requires rest != [] && step(st, rest[0]) == Continue(st', e)
    requires !(maxTries > 0 && st.failures >= maxTries) && attempts < MAX_ATTEMPTS
    ensures After(events, Loop(step, maxTries, st, attempts, rest)) ==
            After(events + [e], Loop(step, maxTries, st', attempts + 1, rest[1..]))
  {
    var o := Loop(step, maxTries, st', attempts + 1, rest[1..]);
    assert events + ([e] + o.events) == events + [e] + o.events;
  }

  /** One iteration: the cache object is consulted, extended, and reset on a partial success. */
  method HandleRequest(cfg: Config, st: State, r: Request, cache: PubKeyCache, ghost step: (State, Request) -> Handled)
    returns (h: Handled)
    requires st.keys == cache.keys && Performs(step, cfg)
    modifies cache
    ensures h == step(st, r)
    ensures h.Continue? ==> cache.keys == h.state.keys
  {
    assert step(st, r) == Handle(cfg, st, r, true);
    if !r.Request? {
      return Finish(Failure(if r.ReadFails? then ReadError else ParseError));
    }
    if r.service != SERVICE_SSH {
      return Finish(Failure(UnknownService));
    }
    if st.user != r.user && st.partial {
      return Finish(Failure(UserChanged));
    }
    var now := st.(user := r.user, noneCount := st.noneCount + if r.attempt.NoneMethod? then 1 else 0);
    var a := HandleMethod(cfg, now, r.attempt, cache);
    match a
    case Abort(reason) => return Finish(Failure(reason));
    case QueryOk(key) => return Continue(now.(keys := cache.keys), KeyOk(r.user, key));
    case Judged(v, proof) =>
      h := Conclude(cfg, now.(keys := cache.keys), r.attempt.NoneMethod?, v, proof);
      if h.Continue? && h.event.PartialSuccess? {
        cache.keys := [];
      }
  }

  // ---------------------------------------------------------------- the cache does not show

  /** What the cache holds is what the callback of this stage would say. */
  ghost predicate CacheOk(cfg: Config, st: State)
  {
    forall e :: e in st.keys ==>
      e.verdict == Judge(cfg, st.stage, e.user, e.key) && !Misused(cfg, st.stage, e.user, e.key)
  }

  function Uncached(st: State): (r: State)
  {
    st.(keys := [])
  }

  lemma {:induction false} TryKeySame(cfg: Config, st: State, user: string, payload: bytes)
    requires CacheOk(cfg, st)
    ensures TryKey(cfg, st, user, payload, true).0 == TryKey(cfg, Uncached(st), user, payload, false).0
    ensures TryKey(cfg, Uncached(st), user, payload, false).1 == []
    ensures CacheOk(cfg, st.(keys := TryKey(cfg, st, user, payload, true).1))
  {
    var offer := OfferedKey(cfg, payload);
    if offer.Some? {
      var key := offer.value.1;
      var hit := Lookup(st.keys, user, key);
      if hit.Some? {
        assert Entry(user, key, hit.value) in st.keys;
      }
    }
  }

  lemma {:induction false} TryMethodSame(cfg: Config, st: State, user: string, m: Method)
    requires CacheOk(cfg, st)
    ensures TryMethod(cfg, st, user, m, true).0 == TryMethod(cfg, Uncached(st), user, m, false).0
    ensures TryMethod(cfg, Uncached(st), user, m, false).1 == []
    ensures CacheOk(cfg, st.(keys := TryMethod(cfg, st, user, m, true).1))
  {
    if m.PublicKey? {
      TryKeySame(cfg, st, user, m.payload);
    }
  }

  lemma {:induction false} ConcludeSame(cfg: Config, st: State, isNone: bool, v: Verdict, proof: Proof)
    requires CacheOk(cfg, st)
    ensures var h, u := Conclude(cfg, st, isNone, v, proof), Conclude(cfg, Uncached(st), isNone, v, proof);
            && (h.Finish? ==> u == h)
            && (h.Continue? ==> u == Continue(Uncached(h.state), h.event) && CacheOk(cfg, h.state))
  {
  }

  lemma {:induction false} HandleSame(cfg: Config, st: State, r: Request)
    requires CacheOk(cfg, st)
    ensures var h, u := Handle(cfg, st, r, true), Handle(cfg, Uncached(st), r, false);
            && (h.Finish? ==> u == h)
            && (h.Continue? ==> u == Continue(Uncached(h.state), h.event) && CacheOk(cfg, h.state))
  {
    if r.Request? {
      var now := st.(user := r.user, noneCount := st.noneCount + if r.attempt.NoneMethod? then 1 else 0);
      TryMethodSame(cfg, now, r.user, r.attempt);
      var (a, keys) := TryMethod(cfg, now, r.user, r.attempt, true);
      if a.Judged? {
        ConcludeSame(cfg, now.(keys := keys), r.attempt.NoneMethod?, a.verdict, a.proof);
      }
    }
  }

  /** g does to the state without the cache what f does to it with the cache. */
  ghost predicate Simulates(f: (State, Request) -> Handled, g: (State, Request) -> Handled, ok: State -> bool)
  {
    forall st, r {:trigger f(st, r)} :: ok(st) ==>
      && (f(st, r).Finish? ==> g(Uncached(st), r) == f(st, r))
      && (f(st, r).Continue? ==> g(Uncached(st), r) == Continue(Uncached(f(st, r).state), f(st, r).event) && ok(f(st, r).state))
  }

  lemma {:induction false} SameLoop(f: (State, Request) -> Handled, g: (State, Request) -> Handled, ok: State -> bool,
                                    maxTries: int, st: State, attempts: nat, requests: seq<Request>)
    requires Simulates(f, g, ok) && ok(st)
    ensures Loop(f, maxTries, st, attempts, requests) == Loop(g, maxTries, Uncached(st), attempts, requests)
    decreases |requests|
  {
    if requests != [] {
      var h := f(st, requests[0]);
      if h.Continue? {
        SameLoop(f, g, ok, maxTries, h.state, attempts + 1, requests[1..]);
      }
    }
  }

  /** With a deterministic callback the loop gives the same outcome with and without the cache. */
  lemma {:induction false} CacheTransparent(cfg: Config, requests: seq<Request>)
    ensures Run(cfg, requests, true) == Run(cfg, requests, false)
  {
    var f, g := Iteration(cfg, true), Iteration(cfg, false);
    var ok := st => CacheOk(cfg, st);
    forall st, r | ok(st)
      ensures f(st, r).Finish? ==> g(Uncached(st), r) == f(st, r)
      ensures f(st, r).Continue? ==> g(Uncached(st), r) == Continue(Uncached(f(st, r).state), f(st, r).event) && ok(f(st, r).state)
    {
      HandleSame(cfg, st, r);
    }
    SameLoop(f, g, ok, cfg.maxAuthTries, INITIAL, 0, requests);
  }

  // ---------------------------------------------------------------- budgets

  /** At most 128 requests are handled; what follows them is never looked at. */
  lemma {:induction false} AttemptBound(step: (State, Request) -> Handled, maxTries: int, st: State, attempts: nat, requests: seq<Request>)
    requires attempts <= MAX_ATTEMPTS
    ensures |Loop(step, maxTries, st, attempts, requests).events| <= MAX_ATTEMPTS - attempts
    ensures |requests| >= MAX_ATTEMPTS - attempts ==>
              Loop(step, maxTries, st, attempts, requests) ==
              Loop(step, maxTries, st, attempts, requests[..MAX_ATTEMPTS - attempts])
    decreases |requests|
  {
    if requests != [] && attempts < MAX_ATTEMPTS {
      var h := step(st, requests[0]);
      if h.Continue? {
        AttemptBound(step, maxTries, h.state, attempts + 1, requests[1..]);
        var n := MAX_ATTEMPTS - attempts;
        if |requests| >= n {
          assert requests[..n][1..] == requests[1..][..n - 1];
        }
      }
    }
  }

  function Failures(events: seq<Event>): (n: nat)
  {
    if events == [] then 0 else (if events[0].Failed? then 1 else 0) + Failures(events[1..])
  }

  function Free(st: State): (n: nat)
  {
    if st.noneCount == 0 then 1 else 0
  }

  /** An iteration counts a failure, except for the first none request. */
  ghost predicate CountsFailures(step: (State, Request) -> Handled, maxTries: int)
  {
    forall st: State, r: Request {:trigger step(st, r)} :: st.failures < maxTries && step(st, r).Continue? ==>
      && step(st, r).state.failures <= maxTries
      && (if step(st, r).event.Failed? then 1 else 0) + Free(step(st, r).state) + st.failures
         <= step(st, r).state.failures + Free(st)
  }

  lemma {:induction false} HandleCounts(cfg: Config, st: State, r: Request)
    requires cfg.maxAuthTries > 0 && st.failures < cfg.maxAuthTries && Handle(cfg, st, r, true).Continue?
    ensures var h := Handle(cfg, st, r, true);
            && h.state.failures <= cfg.maxAuthTries
            && (if h.event.Failed? then 1 else 0) + Free(h.state) + st.failures <= h.state.failures + Free(st)
  {
  }

  lemma {:induction false} FailureLoop(step: (State, Request) -> Handled, maxTries: int, st: State, attempts: nat, requests: seq<Request>)
    requires maxTries > 0 && st.failures <= maxTries && CountsFailures(step, maxTries)
    ensures Failures(Loop(step, maxTries, st, attempts, requests).events) + st.failures <= maxTries + Free(st)
    decreases |requests|
  {
    if st.failures < maxTries && attempts < MAX_ATTEMPTS && requests != [] {
      var h := step(st, requests[0]);
      if h.Continue? {
        FailureLoop(step, maxTries, h.state, attempts + 1, requests[1..]);
        var o := Loop(step, maxTries, h.state, attempts + 1, requests[1..]);
        assert ([h.event] + o.events)[1..] == o.events;
      }
    }
  }

  /** Plain failures: at most MaxAuthTries counted ones and one free first none request. */
  lemma {:induction false} FailureBound(cfg: Config, requests: seq<Request>)
    requires cfg.maxAuthTries > 0
    ensures Failures(Run(cfg, requests, true).events) <= cfg.maxAuthTries + 1
  {
    var step := Iteration(cfg, true);
    forall st: State, r: Request | st.failures < cfg.maxAuthTries && step(st, r).Continue?
      ensures step(st, r).state.failures <= cfg.maxAuthTries
      ensures (if step(st, r).event.Failed? then 1 else 0) + Free(step(st, r).state) + st.failures
              <= step(st, r).state.failures + Free(st)
    {
      HandleCounts(cfg, st, r);
    }
    FailureLoop(step, cfg.maxAuthTries, INITIAL, 0, requests);
  }

  // ---------------------------------------------------------------- the user

  /** An iteration records the user of its request, and after a partial success takes no other. */
  ghost predicate KeepsUser(step: (State, Request) -> Handled)
  {
    forall st: State, r: Request {:trigger step(st, r)} :: UserKept(st, step(st, r))
  }

  ghost predicate UserKept(st: State, h: Handled)
  {
    match h
    case Finish(result) => result.Success? && st.partial ==> result.user == st.user
    case Continue(st', e) =>
      && e.user == st'.user
      && (st.partial ==> st'.user == st.user && st'.partial)
      && (e.PartialSuccess? ==> st'.partial)
  }

  lemma {:induction false} HandleUser(cfg: Config, st: State, r: Request)
    ensures UserKept(st, Handle(cfg, st, r, true))
  {
  }

  lemma {:induction false} SameUser(step: (State, Request) -> Handled, maxTries: int, st: State, attempts: nat, requests: seq<Request>)
    requires st.partial && KeepsUser(step)
    ensures var o := Loop(step, maxTries, st, attempts, requests);
            && (forall j :: 0 <= j < |o.events| ==> o.events[j].user == st.user)
            && (o.result.Success? ==> o.result.user == st.user)
    decreases |requests|
  {
    if requests != [] {
      var h := step(st, requests[0]);
      if h.Continue? {
        SameUser(step, maxTries, h.state, attempts + 1, requests[1..]);
      }
    }
  }

  lemma {:induction false} UserLoop(step: (State, Request) -> Handled, maxTries: int, st: State, attempts: nat, requests: seq<Request>, i: nat)
    requires KeepsUser(step) && i < |Loop(step, maxTries, st, attempts, requests).events|
    requires Loop(step, maxTries, st, attempts, requests).events[i].PartialSuccess?
    ensures var o := Loop(step, maxTries, st, attempts, requests);
            && (forall j :: i <= j < |o.events| ==> o.events[j].user == o.events[i].user)
            && (o.result.Success? ==> o.result.user == o.events[i].user)
    decreases |requests|
  {
    var h := step(st, requests[0]);
    var o := Loop(step, maxTries, h.state, attempts + 1, requests[1..]);
    assert UserKept(st, h);
    if i == 0 {
      SameUser(step, maxTries, h.state, attempts + 1, requests[1..]);
    } else {
      UserLoop(step, maxTries, h.state, attempts + 1, requests[1..], i - 1);
      assert forall j :: 1 <= j < |o.events| + 1 ==> ([h.event] + o.events)[j] == o.events[j - 1];
    }
  }

  /** After a partial success every handled request, and the final success, is for the same user. */
  lemma {:induction false} UserFixed(cfg: Config, requests: seq<Request>, i: nat)
    requires i < |Run(cfg, requests, true).events| && Run(cfg, requests, true).events[i].PartialSuccess?
    ensures var o := Run(cfg, requests, true);
            && (forall j :: i <= j < |o.events| ==> o.events[j].user == o.events[i].user)
            && (o.result.Success? ==> o.result.user == o.events[i].user)
  {
    var step := Iteration(cfg, true);
    forall st: State, r: Request
      ensures UserKept(st, step(st, r))
    {
      HandleUser(cfg, st, r);
    }
    UserLoop(step, cfg.maxAuthTries, INITIAL, 0, requests, i);
  }

  // ---------------------------------------------------------------- what a success means

  /** The stage in force after the events. */
  function StageAfter(stage: nat, events: seq<Event>): (s: nat)
    decreases |events|
  {
    if events == [] then stage
    else StageAfter(if events[0].PartialSuccess? then events[0].next else stage, events[1..])
  }

  /** The payload offers the key with a signature; the key was accepted by the stage's callback for this user, and signed for. */
  ghost predicate KeyProved(cfg: Config, stage: nat, user: string, perms: Permissions, p: Proof, payload: bytes)
    requires p.ByKey?
  {
    var v, offer := cfg.publicKey(stage, user, p.key), OfferedKey(cfg, payload);
    && offer.Some? && offer.value.0 == p.algorithm && offer.value.1 == p.key
    && payload != [] && payload[0] != 0 && cfg.parseSignature(offer.value.2) == Some(p.signature)
    && cfg.stages(stage).publicKey && v.Accept? && cfg.sourceAllowed(v.perms)
    && cfg.algorithmAccepted(p.algorithm) && cfg.formatAccepted(p.signature.format)
    && cfg.keyParses(p.key) && cfg.keyFits(p.key, p.algorithm) && cfg.compatible(p.algorithm, p.signature.format)
    && cfg.verifies(user, p.algorithm, p.key, v.perms, p.signature)
    && (if cfg.verifiedCallback then cfg.verified(user, p.key, v.perms, p.signature.format) == Accept(perms) else perms == v.perms)
  }

  predicate AnyPartial(events: seq<Event>)
  {
    events != [] && (events[0].PartialSuccess? || AnyPartial(events[1..]))
  }

  /** The payload of a password request: a zero byte and one string. */
  predicate PasswordPayload(payload: bytes)
  {
    payload != [] && payload[0] == 0 && ParseString(payload[1..]).Some? && ParseString(payload[1..]).value.1 == []
  }

  /**
   What a success by each method takes of the request that brought it: the method is configured in the
   stage and its callback accepted with exactly these permissions; none is only for configurations that
   allow it, before any partial success.
   */
  ghost predicate Entitled(cfg: Config, stage: nat, partial: bool, m: Method, user: string, perms: Permissions, p: Proof)
  {
    && cfg.sourceAllowed(perms)
    && match p
       case NoProof => false
       case ByNone =>
         && m.NoneMethod? && cfg.noClientAuth && !partial
         && Accept(perms) == (if cfg.noClientAuthCallback then m.verdict else Accept(NoPermissions))
       case ByPassword => m.Password? && cfg.stages(stage).password && PasswordPayload(m.payload) && m.verdict == Accept(perms)
       case ByKeyboard => m.Keyboard? && cfg.stages(stage).keyboard && m.verdict == Accept(perms)
       case ByGssapi => m.GssapiWithMic? && cfg.stages(stage).gssapi && m.exchange == Exchanged(Accept(perms))
       case ByKey(_, _, _) => m.PublicKey? && KeyProved(cfg, stage, user, perms, p, m.payload)
  }

  lemma {:induction false} VerdictProof(cfg: Config, stage: nat, user: string, payload: bytes, algo: bytes, key: bytes, rest: bytes)
    requires cfg.stages(stage).publicKey && payload != [] && OfferedKey(cfg, payload) == Some((algo, key, rest))
    ensures var a := WithVerdict(cfg, user, payload[0] == 0, algo, key, rest, Judge(cfg, stage, user, key));
            a.Judged? && a.verdict.Accept? && cfg.sourceAllowed(a.verdict.perms) ==>
              a.proof.ByKey? && KeyProved(cfg, stage, user, a.verdict.perms, a.proof, payload)
  {
  }

  lemma {:induction false} MethodProof(cfg: Config, st: State, user: string, m: Method)
    ensures var a := TryMethod(cfg, st, user, m, false).0;
            a.Judged? && a.verdict.Accept? && cfg.sourceAllowed(a.verdict.perms) ==>
              Entitled(cfg, st.stage, st.partial, m, user, a.verdict.perms, a.proof)
  {
    if m.PublicKey? && cfg.stages(st.stage).publicKey && OfferedKey(cfg, m.payload).Some? {
      var (algo, key, rest) := OfferedKey(cfg, m.payload).value;
      VerdictProof(cfg, st.stage, user, m.payload, algo, key, rest);
    }
  }

  /** A success is justified in the stage in force, and only a partial success changes the stage. */
  ghost predicate Justifies(step: (State, Request) -> Handled, cfg: Config)
  {
    forall st: State, r: Request {:trigger step(st, r)} :: JustStep(cfg, st, r, step(st, r))
  }

  ghost predicate JustStep(cfg: Config, st: State, r: Request, h: Handled)
  {
    match h
    case Finish(x) =>
      x.Success? ==>
        && r.Request? && r.service == SERVICE_SSH && r.user == x.user
        && Entitled(cfg, st.stage, st.partial, r.attempt, x.user, x.perms, x.proof)
    case Continue(st', e) =>
      && st'.stage == (if e.PartialSuccess? then e.next else st.stage)
      && st'.partial == (st.partial || e.PartialSuccess?)
  }

  lemma {:induction false} ConcludeJust(cfg: Config, st: State, r: Request, v: Verdict, proof: Proof)
    requires r.Request? && r.service == SERVICE_SSH && r.user == st.user
    requires v.Accept? && cfg.sourceAllowed(v.perms) ==> Entitled(cfg, st.stage, st.partial, r.attempt, st.user, v.perms, proof)
    ensures JustStep(cfg, st, r, Conclude(cfg, st, r.attempt.NoneMethod?, v, proof))
  {
  }

  lemma {:induction false} HandleJust(cfg: Config, st: State, r: Request)
    ensures JustStep(cfg, st, r, Handle(cfg, st, r, false))
  {
    if r.Request? && r.service == SERVICE_SSH {
      var now := st.(user := r.user, noneCount := st.noneCount + if r.attempt.NoneMethod? then 1 else 0);
      MethodProof(cfg, now, r.user, r.attempt);
      var (a, keys) := TryMethod(cfg, now, r.user, r.attempt, false);
      if a.Judged? {
        ConcludeJust(cfg, now.(keys := keys), r, a.verdict, a.proof);
      }
    }
  }

  /** The result is a success of request r, which is entitled to it. */
  ghost predicate JustResult(cfg: Config, stage: nat, partial: bool, r: Request, x: Result)
  {
    x.Success? && r.Request? && r.user == x.user && Entitled(cfg, stage, partial, r.attempt, x.user, x.perms, x.proof)
  }

  lemma {:induction false} JustLoop(step: (State, Request) -> Handled, cfg: Config, st: State, attempts: nat, requests: seq<Request>)
    requires Justifies(step, cfg) && Loop(step, cfg.maxAuthTries, st, attempts, requests).result.Success?
    ensures var o := Loop(step, cfg.maxAuthTries, st, attempts, requests);
            && |o.events| < |requests|
            && JustResult(cfg, StageAfter(st.stage, o.events), st.partial || AnyPartial(o.events), requests[|o.events|], o.result)
    decreases |requests|
  {
    var h := step(st, requests[0]);
    assert JustStep(cfg, st, requests[0], h);
    if h.Continue? {
      JustLoop(step, cfg, h.state, attempts + 1, requests[1..]);
      var o := Loop(step, cfg.maxAuthTries, h.state, attempts + 1, requests[1..]);
      assert ([h.event] + o.events)[1..] == o.events;
    }
  }

  /**
   Whoever the loop lets in is entitled to it by the request that follows those the events are about,
   in the stage in force. For password, keyboard-interactive and GSSAPI the stage's callback accepted
   that request; with a public key the stage's callback accepted exactly this user and key blob and the
   signature was verified, also when the cache answered; without authentication, no partial success
   came before.
   */
  lemma {:induction false} SuccessJustified(cfg: Config, requests: seq<Request>)
    requires Run(cfg, requests, true).result.Success?
    ensures var o := Run(cfg, requests, true);
            && |o.events| < |requests|
            && JustResult(cfg, StageAfter(0, o.events), AnyPartial(o.events), requests[|o.events|], o.result)
  {
    CacheTransparent(cfg, requests);
    var step := Iteration(cfg, false);
    forall st: State, r: Request
      ensures JustStep(cfg, st, r, step(st, r))
    {
      HandleJust(cfg, st, r);
    }
    JustLoop(step, cfg, INITIAL, 0, requests);
  }
}
