/**
 Output redirections of the fake shell as a reserve-then-commit transaction over the dynamic store
 (modules/fakeshell/syntax_expand.go and modules/fakeshell/cmds/dynamic.go).
 */
module Redirection {
  import opened Paths
  import opened ShellPath
  import ShellTokens
  import ShellWords

  const MAX_ENTRIES: nat := 256
  const MAX_PATH: nat := 512

  /** "file" and "dir" are the kinds the store accepts. */
  datatype Kind = FileKind | DirKind | OtherKind

  datatype Entry = Entry(path: string, kind: Kind, size: int)

  type Entries = map<string, Entry>

  datatype Error =
    | BadPath | PathTooLong | BadKind | NegativeSize | StoreFull
    | NoSuchDirectory | IsDirectory | Unsupported | BadDescriptor

  datatype Result<T> = Ok(value: T) | Err(error: Error)

  // ---------------------------------------------------------------- the store

  /** What Record decides before it touches the store. */
  function Recorded(normalize: string -> Resolution, entries: Entries, path: string, kind: Kind, size: int): (r: Result<Entry>)
  {
    var p := normalize(path);
    if !p.Resolved? then Err(BadPath)
    else if |p.path| > MAX_PATH then Err(PathTooLong)
    else if kind == OtherKind then Err(BadKind)
    else if size < 0 then Err(NegativeSize)
    else if p.path !in entries && |entries| >= MAX_ENTRIES then Err(StoreFull)
    else Ok(Entry(p.path, kind, size))
  }

  /** order lists the keys of entries, each once, and there are at most 256. */
  ghost predicate ValidStore(entries: Entries, order: seq<string>)
  {
    && |entries| == |order| <= MAX_ENTRIES
    && (forall k :: k in entries <==> k in order)
    && (forall i, j :: 0 <= i < j < |order| ==> order[i] != order[j])
    && (forall k :: k in entries ==> entries[k].path == k && |k| <= MAX_PATH)
  }

  class DynamicStore {
    const normalize: string -> Resolution
    var entries: Entries
    var order: seq<string>

    ghost predicate Valid()
      reads this
    {
      ValidStore(entries, order)
    }

    /** Paths are normalized from the fake root. */
    constructor ()
      ensures Valid() && entries == map[] && order == []
      ensures forall p :: normalize(p) == ResolvePath("/", p)
    {
      normalize, entries, order := p => ResolvePath("/", p), map[], [];
    }

    method Record(path: string, kind: Kind, size: int) returns (r: Result<Entry>)
      requires Valid()
      modifies this
      ensures Valid() && r == Recorded(normalize, old(entries), path, kind, size)
      ensures r.Ok? ==> entries == old(entries)[r.value.path := r.value]
      ensures r.Ok? ==> order == if r.value.path in old(entries) then old(order) else old(order) + [r.value.path]
      ensures r.Err? ==> entries == old(entries) && order == old(order)
    {
      var cleaned := normalize(path);
      if !cleaned.Resolved? {
        return Err(BadPath);
      }
      if |cleaned.path| > MAX_PATH {
        return Err(PathTooLong);
      }
      if kind == OtherKind {
        return Err(BadKind);
      }
      if size < 0 {
        return Err(NegativeSize);
      }
      var entry := Entry(cleaned.path, kind, size);
      if cleaned.path !in entries {
        if |entries| >= MAX_ENTRIES {
          return Err(StoreFull);
        }
        order := order + [cleaned.path];
      }
      entries := entries[cleaned.path := entry];
      return Ok(entry);
    }

    /** All entries in insertion order. */
    method List() returns (out: seq<Entry>)
      requires Valid()
      ensures |out| == |order| && forall i :: 0 <= i < |order| ==> order[i] in entries && out[i] == entries[order[i]]
    {
      out := [];
      var i := 0;
      while i < |order|
        invariant 0 <= i <= |order| && |out| == i
        invariant forall j :: 0 <= j < i ==> order[j] in entries && out[j] == entries[order[j]]
      {
        var k := order[i];
        out := out + [entries[k]];
        i := i + 1;
      }
    }
  }

  // ---------------------------------------------------------------- validation of one target

  /** How targets are resolved, and the directories of the read-only root file system. */
  datatype Runner = Runner(resolve: string -> Resolution, rootDir: string -> bool)

  /** Targets are resolved from the working directory. */
  function RunnerAt(pwd: string, rootDir: string -> bool): (r: Runner)
  {
    Runner(t => ResolvePath(if pwd == "" then "/" else pwd, t), rootDir)
  }

  /** The store normalizes what the shell resolved to the same path again, unless it has a bad character. */
  ghost predicate Rechecks(r: Runner, normalize: string -> Resolution)
  {
    forall t {:trigger r.resolve(t)} :: r.resolve(t).Resolved? ==>
      normalize(r.resolve(t).path) == if ValidChars(r.resolve(t).path) then r.resolve(t) else BadCharacter
  }

  lemma {:induction false} PwdRechecks(pwd: string, rootDir: string -> bool, normalize: string -> Resolution)
    requires forall p :: normalize(p) == ResolvePath("/", p)
    ensures Rechecks(RunnerAt(pwd, rootDir), normalize)
  {
    var r, cwd := RunnerAt(pwd, rootDir), if pwd == "" then "/" else pwd;
    forall t | r.resolve(t).Resolved?
      ensures normalize(r.resolve(t).path) == if ValidChars(r.resolve(t).path) then r.resolve(t) else BadCharacter
    {
      ResolveTwice(cwd, t);
    }
  }

  predicate DirExists(r: Runner, entries: Entries, p: string)
  {
    p == "/" || r.rootDir(p) || (p in entries && entries[p].kind == DirKind)
  }

  /** path.Dir of a canonical path. */
  function ParentDir(p: string): (d: string)
  {
    var i := LastSlash(p, |p|);
    if i == 0 then "/" else p[..i]
  }

  function LastSlash(p: string, n: nat): (i: nat)
    requires n <= |p|
    ensures i <= n
  {
    if n == 0 then 0 else if p[n - 1] == '/' then n - 1 else LastSlash(p, n - 1)
  }

  /** validateFakeOutputRedirection. */
  function Validated(r: Runner, entries: Entries, target: string): (v: Result<string>)
  {
    var p := r.resolve(target);
    if !p.Resolved? then Err(BadPath)
    else if |p.path| > MAX_PATH then Err(PathTooLong)
    else if !DirExists(r, entries, ParentDir(p.path)) then Err(NoSuchDirectory)
    else if DirExists(r, entries, p.path) then Err(IsDirectory)
    else if p.path !in entries && |entries| >= MAX_ENTRIES then Err(StoreFull)
    else Ok(p.path)
  }

  /** What Record answers for a target that was validated, if its characters are good or not. */
  function Verdict(p: string, size: nat, good: bool): (v: Result<Entry>)
  {
    if good then Ok(Entry(p, FileKind, size)) else Err(BadPath)
  }

  /** A validated target is recorded exactly when its characters are valid, which validation does not check. */
  lemma {:induction false} ValidatedIsRecordable(r: Runner, normalize: string -> Resolution, entries: Entries, target: string, size: nat)
    requires Rechecks(r, normalize) && Validated(r, entries, target).Ok?
    ensures var p := Validated(r, entries, target).value;
            && |p| <= MAX_PATH && !DirExists(r, entries, p)
            && Recorded(normalize, entries, p, FileKind, size) == Verdict(p, size, ValidChars(p))
  {
  }

  /** Updating or adding plain files changes no verdict on a target, as long as there is room. */
  lemma {:induction false} ValidatedStable(r: Runner, entries: Entries, more: Entries, target: string)
    requires Validated(r, entries, target).Ok?
    requires forall k :: k in entries ==> k in more
    requires forall p :: p in more && more[p].kind == DirKind <==> p in entries && entries[p].kind == DirKind
    requires Validated(r, entries, target).value in more || |more| < MAX_ENTRIES
    ensures Validated(r, more, target) == Validated(r, entries, target)
  {
    var p := Validated(r, entries, target).value;
    assert DirExists(r, more, ParentDir(p)) == DirExists(r, entries, ParentDir(p));
    assert DirExists(r, more, p) == DirExists(r, entries, p);
  }

  // ---------------------------------------------------------------- preflight

  /** The operators ">", "2>" and ">&", and anything else. */
  datatype Operator = Out | ErrOut | Duplication | OtherOperator

  datatype Redirect = Redirect(fd: int, operator: Operator, target: string, duplicate: bool, duplicateFd: int)

  /** The path a redirection will write to; a duplication has none. */
  datatype Target = NoTarget | File(path: string)

  function Checked(r: Runner, entries: Entries, d: Redirect): (c: Result<Target>)
  {
    if d.duplicate then
      if d.fd == 2 && d.operator == Duplication && d.duplicateFd == 1 then Ok(NoTarget) else Err(Unsupported)
    else if d.operator == Out || d.operator == ErrOut then
      match Validated(r, entries, d.target)
      case Ok(p) => Ok(File(p))
      case Err(e) => Err(e)
    else Err(Unsupported)
  }

  /** The targets of the redirections, or the first error. */
  function Plan(r: Runner, entries: Entries, redirects: seq<Redirect>): (p: Result<seq<Target>>)
    ensures p.Ok? ==> |p.value| == |redirects|
  {
    if redirects == [] then Ok([])
    else
      var n := |redirects| - 1;
      var before := Plan(r, entries, redirects[..n]);
      var last := Checked(r, entries, redirects[n]);
      if before.Err? then before else if last.Err? then Err(last.error) else Ok(before.value + [last.value])
  }

  lemma {:induction false} PlanAt(r: Runner, entries: Entries, redirects: seq<Redirect>, plan: seq<Target>, i: nat)
    requires Plan(r, entries, redirects) == Ok(plan) && i < |redirects|
    ensures Checked(r, entries, redirects[i]) == Ok(plan[i])
    decreases |redirects|
  {
    var n := |redirects| - 1;
    if i < n {
      PlanAt(r, entries, redirects[..n], plan[..n], i);
    }
  }

  lemma {:induction false} PlanFails(r: Runner, entries: Entries, redirects: seq<Redirect>, i: nat)
    requires i < |redirects| && Checked(r, entries, redirects[i]).Err?
    requires forall j :: 0 <= j < i ==> Checked(r, entries, redirects[j]).Ok?
    ensures Plan(r, entries, redirects) == Err(Checked(r, entries, redirects[i]).error)
    decreases |redirects|
  {
    var n := |redirects| - 1;
    if i < n {
      PlanFails(r, entries, redirects[..n], i);
    } else {
      forall j | 0 <= j < n
        ensures Checked(r, entries, redirects[..n][j]).Ok?
      {
      }
      PlanSucceeds(r, entries, redirects[..n]);
    }
  }

  lemma {:induction false} PlanSucceeds(r: Runner, entries: Entries, redirects: seq<Redirect>)
    requires forall i :: 0 <= i < |redirects| ==> Checked(r, entries, redirects[i]).Ok?
    ensures Plan(r, entries, redirects).Ok?
    decreases |redirects|
  {
    if redirects != [] {
      var n := |redirects| - 1;
      assert Checked(r, entries, redirects[n]).Ok?;
      PlanSucceeds(r, entries, redirects[..n]);
    }
  }

  /** The distinct paths among the first i targets. */
  function PathsTo(plan: seq<Target>, i: nat): (t: set<string>)
    requires i <= |plan|
  {
    if i == 0 then {} else PathsTo(plan, i - 1) + if plan[i - 1].File? then {plan[i - 1].path} else {}
  }

  function PathsOf(plan: seq<Target>): (t: set<string>)
  {
    PathsTo(plan, |plan|)
  }

  lemma {:induction false} PathsMonotone(plan: seq<Target>, i: nat, j: nat)
    requires i <= j <= |plan|
    ensures PathsTo(plan, i) <= PathsTo(plan, j)
    decreases j
  {
    if i < j {
      PathsMonotone(plan, i, j - 1);
    }
  }

  lemma {:induction false} PathPlanned(plan: seq<Target>, i: nat)
    requires i < |plan| && plan[i].File?
    ensures plan[i].path in PathsOf(plan)
  {
    PathsMonotone(plan, i + 1, |plan|);
  }

  lemma {:induction false} PathFromPlan(plan: seq<Target>, n: nat, p: string)
    requires n <= |plan| && p in PathsTo(plan, n)
    ensures exists i :: 0 <= i < n && plan[i] == File(p)
    decreases n
  {
    if plan[n - 1] != File(p) {
      PathFromPlan(plan, n - 1, p);
    }
  }

  lemma {:induction false} PathsAppend(plan: seq<Target>, t: Target, i: nat)
    requires i <= |plan|
    ensures PathsTo(plan + [t], i) == PathsTo(plan, i)
    decreases i
  {
    if i > 0 {
      PathsAppend(plan, t, i - 1);
    }
  }

  /** All targets are valid and together with the existing entries they fit the store. */
  predicate PreflightOk(r: Runner, entries: Entries, redirects: seq<Redirect>)
  {
    var p := Plan(r, entries, redirects);
    p.Ok? && |entries.Keys + PathsOf(p.value)| <= MAX_ENTRIES
  }

  lemma {:induction false} NewPaths(have: set<string>, all: set<string>, news: set<string>)
    requires news == all - have
    ensures |have + all| == |have| + |news|
  {
    assert have + all == have + news && have !! news;
  }

  lemma {:induction false} PlanIs(r: Runner, entries: Entries, redirects: seq<Redirect>, plan: seq<Target>)
    requires |plan| == |redirects| && forall j :: 0 <= j < |plan| ==> Checked(r, entries, redirects[j]) == Ok(plan[j])
    ensures Plan(r, entries, redirects) == Ok(plan)
  {
    PlanSucceeds(r, entries, redirects);
    var p := Plan(r, entries, redirects).value;
    forall j | 0 <= j < |plan|
      ensures p[j] == plan[j]
    {
      PlanAt(r, entries, redirects, p, j);
    }
    assert p == plan;
  }

  lemma {:induction false} NewsStep(plan: seq<Target>, t: Target, have: set<string>, news: set<string>)
    requires news == PathsOf(plan) - have
    ensures PathsOf(plan + [t]) - have == if t.File? && t.path !in have then news + {t.path} else news
  {
    PathsAppend(plan, t, |plan|);
  }

  /** The error of a failing preflight: the first redirection that is not valid, or a full store. */
  function PreflightError(r: Runner, entries: Entries, redirects: seq<Redirect>): (e: Error)
  {
    if Plan(r, entries, redirects).Err? then Plan(r, entries, redirects).error else StoreFull
  }

  method Preflight(r: Runner, entries: Entries, redirects: seq<Redirect>) returns (c: Result<()>)
    ensures c.Ok? <==> PreflightOk(r, entries, redirects)
    ensures c.Err? ==> c.error == PreflightError(r, entries, redirects)
  {
    var news: set<string> := {};
    var i := 0;
    ghost var plan: seq<Target> := [];
    while i < |redirects|
      invariant 0 <= i == |plan| <= |redirects|
      invariant forall j :: 0 <= j < i ==> Checked(r, entries, redirects[j]) == Ok(plan[j])
      invariant news == PathsOf(plan) - entries.Keys
    {
      var t := Checked(r, entries, redirects[i]);
      if t.Err? {
        PlanFails(r, entries, redirects, i);
        return Err(t.error);
      }
      NewsStep(plan, t.value, entries.Keys, news);
      if t.value.File? && t.value.path !in entries.Keys {
        news := news + {t.value.path};
      }
      plan, i := plan + [t.value], i + 1;
    }
    PlanIs(r, entries, redirects, plan);
    NewPaths(entries.Keys, PathsOf(plan), news);
    return if |entries| + |news| > MAX_ENTRIES then Err(StoreFull) else Ok(());
  }

  // ---------------------------------------------------------------- reservation

  /** now is the store after reserving some paths that are no directories: they are empty files, the rest is as before. */
  ghost predicate Reserved(r: Runner, before: Entries, done: set<string>, now: Entries)
  {
    && now.Keys == before.Keys + done
    && (forall k :: k in now ==> now[k] == if k in done then Entry(k, FileKind, 0) else before[k])
    && (forall k :: k in done ==> !DirExists(r, before, k))
  }

  lemma {:induction false} Smaller(a: set<string>, b: set<string>)
    requires a <= b
    ensures |a| <= |b|
    decreases |b|
  {
    if a != {} {
      var y :| y in a;
      Smaller(a - {y}, b - {y});
    }
  }

  lemma {:induction false} ProperSubset(a: set<string>, b: set<string>, x: string)
    requires a <= b && x in b && x !in a
    ensures |a| < |b|
  {
    Smaller(a, b - {x});
  }

  /** While reservations stay within a set that fits the store, the next one of that set has room. */
  lemma {:induction false} Room(keys: set<string>, now: Entries, done: set<string>, all: set<string>, p: string)
    requires now.Keys == keys + done && done <= all && p in all && |keys + all| <= MAX_ENTRIES
    ensures p in now || |now| < MAX_ENTRIES
  {
    if p !in now {
      ProperSubset(now.Keys, keys + all, p);
    }
  }

  lemma {:induction false} ReservedMore(r: Runner, before: Entries, done: set<string>, now: Entries, p: string)
    requires Reserved(r, before, done, now) && !DirExists(r, before, p)
    ensures Reserved(r, before, done + {p}, now[p := Entry(p, FileKind, 0)])
    ensures p in done ==> Reserved(r, before, done + {p}, now)
  {
    assert p in done ==> done + {p} == done;
  }

  /** A target that was valid before the reservations began still is, and the store will accept it. */
  lemma {:induction false} StillValid(r: Runner, normalize: string -> Resolution, before: Entries, target: string, done: set<string>, now: Entries)
    requires Rechecks(r, normalize) && Validated(r, before, target).Ok? && Reserved(r, before, done, now)
    requires Validated(r, before, target).value in now || |now| < MAX_ENTRIES
    ensures var p := Validated(r, before, target).value;
            && Validated(r, now, target) == Ok(p) && !DirExists(r, before, p)
            && Recorded(normalize, now, p, FileKind, 0) == Verdict(p, 0, ValidChars(p))
  {
    ValidatedStable(r, before, now, target);
    ValidatedIsRecordable(r, normalize, before, target, 0);
    ValidatedIsRecordable(r, normalize, now, target, 0);
  }

  /** A target that the store refuses although it was validated. */
  predicate Refused(t: Target)
  {
    t.File? && !ValidChars(t.path)
  }

  /** The first such target of a plan at or after i; none if there is none. */
  function FirstRefused(plan: seq<Target>, i: nat): (n: nat)
    requires i <= |plan|
    ensures i <= n <= |plan|
    decreases |plan| - i
  {
    if i == |plan| || Refused(plan[i]) then i else FirstRefused(plan, i + 1)
  }

  lemma {:induction false} BeforeRefused(plan: seq<Target>, i: nat, j: nat)
    requires i <= |plan| && i <= j < FirstRefused(plan, i)
    ensures !Refused(plan[j])
    decreases j - i
  {
    if i < j {
      BeforeRefused(plan, i + 1, j);
    }
  }

  /** The insertion order after reserving the first n targets: new paths are appended as they come. */
  function OrderTo(order: seq<string>, plan: seq<Target>, n: nat): (r: seq<string>)
    requires n <= |plan|
    ensures order <= r
  {
    if n == 0 then order
    else
      var o := OrderTo(order, plan, n - 1);
      if plan[n - 1].File? && plan[n - 1].path !in o then o + [plan[n - 1].path] else o
  }

  /** Validate and record one target; p is what validation found before the reservations began. */
  method ReserveOne(r: Runner, store: DynamicStore, target: string, reserved: set<string>, ghost before: Entries, ghost p: string, ghost good: bool)
    returns (ok: bool, done: set<string>)
    requires store.Valid() && Reserved(r, before, reserved, store.entries) && (p in reserved ==> good)
    requires Validated(r, store.entries, target) == Ok(p) && !DirExists(r, before, p)
    requires Recorded(store.normalize, store.entries, p, FileKind, 0) == Verdict(p, 0, good)
    modifies store
    ensures store.Valid() && Reserved(r, before, done, store.entries)
    ensures ok == good && done == if good then reserved + {p} else reserved
    ensures store.order == if good && p !in old(store.order) then old(store.order) + [p] else old(store.order)
  {
    ReservedMore(r, before, reserved, store.entries, p);
    var resolved := Validated(r, store.entries, target);
    if resolved.Err? {
      return false, reserved;
    }
    if resolved.value in reserved {
      return true, reserved + {resolved.value};
    }
    var e := store.Record(resolved.value, FileKind, 0);
    if e.Err? {
      return false, reserved;
    }
    return true, reserved + {resolved.value};
  }

  lemma {:induction false} NextReservation(r: Runner, normalize: string -> Resolution, before: Entries, redirects: seq<Redirect>, plan: seq<Target>,
                        i: nat, now: Entries)
    requires Rechecks(r, normalize) && Plan(r, before, redirects) == Ok(plan) && i < |redirects| && !redirects[i].duplicate
    requires |before.Keys + PathsOf(plan)| <= MAX_ENTRIES && Reserved(r, before, PathsTo(plan, i), now)
    ensures plan[i].File? && Validated(r, before, redirects[i].target) == Ok(plan[i].path)
    ensures Validated(r, now, redirects[i].target) == Ok(plan[i].path) && !DirExists(r, before, plan[i].path)
    ensures Recorded(normalize, now, plan[i].path, FileKind, 0) == Verdict(plan[i].path, 0, ValidChars(plan[i].path))
  {
    PlanAt(r, before, redirects, plan, i);
    PathsMonotone(plan, i, |plan|);
    PathPlanned(plan, i);
    Room(before.Keys, now, PathsTo(plan, i), PathsOf(plan), plan[i].path);
    StillValid(r, normalize, before, redirects[i].target, PathsTo(plan, i), now);
  }

  lemma {:induction false} DuplicateHasNoTarget(r: Runner, before: Entries, redirects: seq<Redirect>, plan: seq<Target>, i: nat)
    requires Plan(r, before, redirects) == Ok(plan) && i < |redirects| && redirects[i].duplicate
    ensures plan[i] == NoTarget
  {
    PlanAt(r, before, redirects, plan, i);
  }

  lemma {:induction false} ReservedValid(plan: seq<Target>, i: nat, p: string)
    requires i <= FirstRefused(plan, 0) && p in PathsTo(plan, i)
    ensures ValidChars(p)
  {
    PathFromPlan(plan, i, p);
    var j :| 0 <= j < i && plan[j] == File(p);
    BeforeRefused(plan, 0, j);
  }

  /** What the reservation loop relies on: the targets were planned and fit the store together. */
  ghost predicate Planned(r: Runner, normalize: string -> Resolution, before: Entries, redirects: seq<Redirect>, plan: seq<Target>)
  {
    Rechecks(r, normalize) && Plan(r, before, redirects) == Ok(plan) && |before.Keys + PathsOf(plan)| <= MAX_ENTRIES
  }

  /** The store after the first n targets of the plan, none of which is refused. */
  ghost predicate Booked(r: Runner, before: Entries, was: seq<string>, plan: seq<Target>, n: nat, done: set<string>, now: Entries, order: seq<string>)
  {
    && n <= |plan| && FirstRefused(plan, n) == FirstRefused(plan, 0)
    && ValidStore(now, order) && done == PathsTo(plan, n) && Reserved(r, before, done, now) && order == OrderTo(was, plan, n)
  }

  /** What validation and the store will say about the next target, p, which is good if its characters are. */
  lemma {:induction false} NextTarget(r: Runner, normalize: string -> Resolution, before: Entries, redirects: seq<Redirect>, plan: seq<Target>,
                                      i: nat, now: Entries, was: seq<string>) returns (p: string, good: bool)
    requires Planned(r, normalize, before, redirects, plan) && i < |redirects| && !redirects[i].duplicate
    requires Reserved(r, before, PathsTo(plan, i), now) && i <= FirstRefused(plan, 0)
    ensures Validated(r, now, redirects[i].target) == Ok(p) && !DirExists(r, before, p)
    ensures Recorded(normalize, now, p, FileKind, 0) == Verdict(p, 0, good) && good == !Refused(plan[i])
    ensures p in PathsTo(plan, i) ==> good
    ensures PathsTo(plan, i + 1) == PathsTo(plan, i) + {p}
    ensures var o := OrderTo(was, plan, i); OrderTo(was, plan, i + 1) == if p in o then o else o + [p]
  {
    NextReservation(r, normalize, before, redirects, plan, i, now);
    p, good := plan[i].path, ValidChars(plan[i].path);
    if p in PathsTo(plan, i) {
      ReservedValid(plan, i, p);
    }
  }

  /** After a successful preflight only a bad character can make a reservation fail. */
  method ReserveTarget(r: Runner, store: DynamicStore, redirects: seq<Redirect>, i: nat, reserved: set<string>,
                       ghost before: Entries, ghost was: seq<string>, ghost plan: seq<Target>)
    returns (ok: bool, done: set<string>)
    requires Planned(r, store.normalize, before, redirects, plan) && i < |redirects| && !redirects[i].duplicate
    requires Booked(r, before, was, plan, i, reserved, store.entries, store.order)
    modifies store
    ensures ok == !Refused(plan[i])
    ensures Booked(r, before, was, plan, if ok then i + 1 else i, done, store.entries, store.order)
  {
    ghost var p, good := NextTarget(r, store.normalize, before, redirects, plan, i, store.entries, was);
    ok, done := ReserveOne(r, store, redirects[i].target, reserved, before, p, good);
  }

  /** A duplication books nothing. */
  lemma {:induction false} NothingBooked(r: Runner, before: Entries, was: seq<string>, plan: seq<Target>, i: nat,
                                         done: set<string>, now: Entries, order: seq<string>)
    requires i < |plan| && plan[i] == NoTarget && Booked(r, before, was, plan, i, done, now, order)
    ensures Booked(r, before, was, plan, i + 1, done, now, order)
  {
    assert PathsTo(plan, i + 1) == PathsTo(plan, i) && OrderTo(was, plan, i + 1) == OrderTo(was, plan, i);
    assert FirstRefused(plan, i) == FirstRefused(plan, i + 1);
  }

  /** Booked under a name whose definition the loop does not need. */
  type Books = (nat, set<string>, Entries, seq<string>) -> bool

  ghost predicate Names(books: Books, r: Runner, before: Entries, was: seq<string>, plan: seq<Target>)
  {
    forall n, done, now, order {:trigger Booked(r, before, was, plan, n, done, now, order)} ::
      books(n, done, now, order) == Booked(r, before, was, plan, n, done, now, order)
  }

  lemma {:induction false} OpenBooks(r: Runner, before: Entries, was: seq<string>, plan: seq<Target>) returns (books: Books)
    ensures Names(books, r, before, was, plan)
  {
    books := (n: nat, done: set<string>, now: Entries, order: seq<string>) => Booked(r, before, was, plan, n, done, now, order);
  }

  lemma {:induction false} Starts(r: Runner, before: Entries, was: seq<string>, plan: seq<Target>)
    requires ValidStore(before, was)
    ensures Booked(r, before, was, plan, 0, {}, before, was)
  {
  }

  /** One round of the reservation loop. */
  method ReserveNext(r: Runner, store: DynamicStore, redirects: seq<Redirect>, i: nat, reserved: set<string>, ghost books: Books,
                     ghost before: Entries, ghost was: seq<string>, ghost plan: seq<Target>, ghost stop: nat)
    returns (ok: bool, done: set<string>)
    requires Names(books, r, before, was, plan) && Planned(r, store.normalize, before, redirects, plan)
    requires i < |redirects| && stop == FirstRefused(plan, 0) && books(i, reserved, store.entries, store.order)
    modifies store
    ensures (!ok ==> i == stop) && (ok ==> i + 1 <= stop)
    ensures books(if ok then i + 1 else i, done, store.entries, store.order)
  {
    assert Booked(r, before, was, plan, i, reserved, store.entries, store.order);
    if redirects[i].duplicate {
      DuplicateHasNoTarget(r, before, redirects, plan, i);
      NothingBooked(r, before, was, plan, i, reserved, store.entries, store.order);
      assert Booked(r, before, was, plan, i + 1, reserved, store.entries, store.order);
      return true, reserved;
    }
    ok, done := ReserveTarget(r, store, redirects, i, reserved, before, was, plan);
    assert Booked(r, before, was, plan, if ok then i + 1 else i, done, store.entries, store.order);
  }

  method ReserveLoop(r: Runner, store: DynamicStore, redirects: seq<Redirect>, ghost books: Books,
                     ghost before: Entries, ghost was: seq<string>, ghost plan: seq<Target>, ghost stop: nat)
    returns (ok: bool, ghost done: set<string>)
    requires Names(books, r, before, was, plan) && Planned(r, store.normalize, before, redirects, plan)
    requires stop == FirstRefused(plan, 0) <= |redirects| && books(0, {}, store.entries, store.order)
    modifies store
    ensures ok == (stop == |redirects|) && books(stop, done, store.entries, store.order)
  {
    var reserved: set<string> := {};
    var i := 0;
    while i < |redirects|
      invariant 0 <= i <= |redirects| && i <= stop && books(i, reserved, store.entries, store.order)
    {
      ok, reserved := ReserveNext(r, store, redirects, i, reserved, books, before, was, plan, stop);
      if !ok {
        done := reserved;
        return;
      }
      i := i + 1;
    }
    ok, done := true, reserved;
  }

  /**
   The reservation loop: exactly the distinct targets before the first one with a bad character become
   empty files, appended in order, and nothing else changes, so all of them when there is none.
   */
  method Reserve(r: Runner, store: DynamicStore, redirects: seq<Redirect>, ghost plan: seq<Target>) returns (ok: bool, ghost stop: nat)
    requires store.Valid() && Planned(r, store.normalize, store.entries, redirects, plan)
    modifies store
    ensures store.Valid() && stop == FirstRefused(plan, 0) && ok == (stop == |plan|)
    ensures Reserved(r, old(store.entries), PathsTo(plan, stop), store.entries)
    ensures store.order == OrderTo(old(store.order), plan, stop)
  {
    ghost var before, was := store.entries, store.order;
    ghost var books := OpenBooks(r, before, was, plan);
    Starts(r, before, was, plan);
    stop := FirstRefused(plan, 0);
    ghost var done;
    ok, done := ReserveLoop(r, store, redirects, books, before, was, plan, stop);
    assert Booked(r, before, was, plan, stop, done, store.entries, store.order);
  }

  // ---------------------------------------------------------------- wiring the descriptors

  /** Where output goes: the shell's own writers, or the k-th counting writer. */
  datatype Sink = Stdout | Stderr | Counter(k: nat)

  /** The writers of the command, and the path behind each counting writer. */
  datatype Wiring = Wiring(out: Sink, err: Sink, records: seq<string>)

  predicate DescriptorOk(d: Redirect)
  {
    d.duplicate || d.fd == 1 || d.fd == 2
  }

  function WireOne(w: Wiring, d: Redirect, t: Target): (w': Wiring)
  {
    if t.NoTarget? then w.(err := w.out)
    else if d.fd == 1 then Wiring(Counter(|w.records|), w.err, w.records + [t.path])
    else Wiring(w.out, Counter(|w.records|), w.records + [t.path])
  }

  /** Redirections act on the descriptors one after the other, as in a POSIX shell. */
  function Wire(redirects: seq<Redirect>, plan: seq<Target>, i: nat): (w: Wiring)
    requires i <= |redirects| == |plan|
  {
    if i == 0 then Wiring(Stdout, Stderr, []) else WireOne(Wire(redirects, plan, i - 1), redirects[i - 1], plan[i - 1])
  }

  lemma {:induction false} WireRecords(redirects: seq<Redirect>, plan: seq<Target>, i: nat, k: nat)
    requires i <= |redirects| == |plan| && k < |Wire(redirects, plan, i).records|
    ensures Wire(redirects, plan, i).records[k] in PathsOf(plan)
    decreases i
  {
    if k < |Wire(redirects, plan, i - 1).records| {
      WireRecords(redirects, plan, i - 1, k);
    } else {
      PathPlanned(plan, i - 1);
    }
  }

  /** The number of counting writers made by the first i redirections. */
  function Files(plan: seq<Target>, i: nat): (n: nat)
    requires i <= |plan|
  {
    if i == 0 then 0 else Files(plan, i - 1) + if plan[i - 1].File? then 1 else 0
  }

  lemma {:induction false} WireCounts(redirects: seq<Redirect>, plan: seq<Target>, i: nat)
    requires i <= |redirects| == |plan|
    ensures |Wire(redirects, plan, i).records| == Files(plan, i)
    decreases i
  {
    if i > 0 {
      WireCounts(redirects, plan, i - 1);
    }
  }

  /** Standard output goes to the last file it is redirected to; earlier ones and what comes later do not matter. */
  lemma {:induction false} LastOutputWins(redirects: seq<Redirect>, plan: seq<Target>, i: nat, n: nat)
    requires i < n <= |redirects| == |plan|
    requires plan[i].File? && redirects[i].fd == 1
    requires forall j :: i < j < n && plan[j].File? ==> redirects[j].fd != 1
    ensures Wire(redirects, plan, n).out == Counter(Files(plan, i))
    ensures Files(plan, i) < |Wire(redirects, plan, n).records| && Wire(redirects, plan, n).records[Files(plan, i)] == plan[i].path
    decreases n
  {
    WireCounts(redirects, plan, i);
    if i < n - 1 {
      LastOutputWins(redirects, plan, i, n - 1);
    }
  }

  /** 2>&1 sends errors to where output goes at that moment, and a later redirection of output does not take them along. */
  lemma {:induction false} DuplicateFollowsOutput(redirects: seq<Redirect>, plan: seq<Target>, i: nat, n: nat)
    requires i < n <= |redirects| == |plan|
    requires plan[i].NoTarget? && forall j :: i < j < n ==> plan[j].File? && redirects[j].fd == 1
    ensures Wire(redirects, plan, n).err == Wire(redirects, plan, i).out
    decreases n
  {
    if i < n - 1 {
      DuplicateFollowsOutput(redirects, plan, i, n - 1);
    }
  }

  /** The target of a redirection, resolved and validated once more. */
  function TargetOf(r: Runner, entries: Entries, d: Redirect): (t: Target)
    ensures Checked(r, entries, d).Ok? ==> Checked(r, entries, d) == Ok(t)
  {
    var c := Checked(r, entries, d);
    if c.Ok? then c.value else NoTarget
  }

  /** One redirection acts on the writers. */
  method Rewire(w: Wiring, d: Redirect, t: Target) returns (w': Wiring)
    requires d.duplicate <==> t.NoTarget?
    ensures w' == WireOne(w, d, t)
  {
    if d.duplicate {
      return w.(err := w.out);
    }
    if d.fd == 1 {
      return Wiring(Counter(|w.records|), w.err, w.records + [t.path]);
    }
    return Wiring(w.out, Counter(|w.records|), w.records + [t.path]);
  }

  /** The second loop of applyFakeRedirections; it only fails on a descriptor other than 1 or 2. */
  method WireUp(r: Runner, entries: Entries, redirects: seq<Redirect>, ghost plan: seq<Target>) returns (w: Result<Wiring>)
    requires Plan(r, entries, redirects) == Ok(plan)
    ensures w.Ok? <==> forall i :: 0 <= i < |redirects| ==> DescriptorOk(redirects[i])
    ensures w.Ok? ==> w.value == Wire(redirects, plan, |redirects|)
  {
    var now := Wiring(Stdout, Stderr, []);
    var i := 0;
    while i < |redirects|
      invariant 0 <= i <= |redirects| && now == Wire(redirects, plan, i)
      invariant forall j :: 0 <= j < i ==> DescriptorOk(redirects[j])
    {
      var t := TargetOf(r, entries, redirects[i]);
      PlanAt(r, entries, redirects, plan, i);
      if !redirects[i].duplicate && redirects[i].fd != 1 && redirects[i].fd != 2 {
        return Err(BadDescriptor);
      }
      now := Rewire(now, redirects[i], t);
      i := i + 1;
    }
    return Ok(now);
  }

  lemma {:induction false} PlanStable(r: Runner, normalize: string -> Resolution, before: Entries, redirects: seq<Redirect>,
                                      plan: seq<Target>, now: Entries)
    requires Rechecks(r, normalize) && Plan(r, before, redirects) == Ok(plan)
    requires |before.Keys + PathsOf(plan)| <= MAX_ENTRIES && Reserved(r, before, PathsOf(plan), now)
    ensures Plan(r, now, redirects) == Ok(plan)
  {
    forall i | 0 <= i < |plan|
      ensures Checked(r, now, redirects[i]) == Ok(plan[i])
    {
      PlanAt(r, before, redirects, plan, i);
      if !redirects[i].duplicate {
        PathPlanned(plan, i);
        StillValid(r, normalize, before, redirects[i].target, PathsOf(plan), now);
      }
    }
    PlanIs(r, now, redirects, plan);
  }

  /** What a call leaves behind: nothing if the preflight fails, else the targets before the first refused one. */
  ghost predicate Applied(r: Runner, before: Entries, redirects: seq<Redirect>, stop: nat, now: Entries, w: Result<Wiring>)
    requires Plan(r, before, redirects).Ok? ==> stop <= |redirects|
  {
    if !PreflightOk(r, before, redirects) then now == before && w == Err(PreflightError(r, before, redirects))
    else
      var plan := Plan(r, before, redirects).value;
      && Reserved(r, before, PathsTo(plan, stop), now)
      && (stop < |redirects| ==> w == Err(BadPath))
      && (stop == |redirects| ==>
            && (w.Ok? <==> forall i :: 0 <= i < |redirects| ==> DescriptorOk(redirects[i]))
            && (w.Ok? ==> w.value == Wire(redirects, plan, |redirects|)))
  }

  /** The insertion order a call leaves behind: what was there, then the new paths that were reserved. */
  function Ordered(r: Runner, entries: Entries, order: seq<string>, redirects: seq<Redirect>, stop: nat): (o: seq<string>)
    requires stop <= |redirects|
    ensures order <= o
  {
    if PreflightOk(r, entries, redirects) then OrderTo(order, Plan(r, entries, redirects).value, stop) else order
  }

  /** A target relative to a working directory with a bad character: preflight accepts it and the store does not. */
  predicate Torn(pwd: string, d: Redirect)
  {
    !d.duplicate && !ValidChars(pwd) && !Absolute(d.target)
  }

  /** The first such redirection at or after i; none if there is none. */
  function FirstTorn(pwd: string, redirects: seq<Redirect>, i: nat): (n: nat)
    requires i <= |redirects|
    ensures i <= n <= |redirects|
    decreases |redirects| - i
  {
    if i == |redirects| || Torn(pwd, redirects[i]) then i else FirstTorn(pwd, redirects, i + 1)
  }

  lemma {:induction false} TornIsRefused(pwd: string, rootDir: string -> bool, entries: Entries, d: Redirect, t: Target)
    requires Checked(RunnerAt(pwd, rootDir), entries, d) == Ok(t)
    ensures Torn(pwd, d) <==> Refused(t)
  {
    if !d.duplicate {
      ResolveTwice(if pwd == "" then "/" else pwd, d.target);
    }
  }

  lemma {:induction false} FirstTornIsFirstRefused(pwd: string, redirects: seq<Redirect>, plan: seq<Target>, i: nat)
    requires i <= |redirects| == |plan| && forall j :: 0 <= j < |plan| ==> Torn(pwd, redirects[j]) == Refused(plan[j])
    ensures FirstTorn(pwd, redirects, i) == FirstRefused(plan, i)
    decreases |redirects| - i
  {
    if i < |redirects| {
      FirstTornIsFirstRefused(pwd, redirects, plan, i + 1);
    }
  }

  lemma {:induction false} SameStop(pwd: string, rootDir: string -> bool, entries: Entries, redirects: seq<Redirect>)
    requires Plan(RunnerAt(pwd, rootDir), entries, redirects).Ok?
    ensures FirstTorn(pwd, redirects, 0) == StopsAt(RunnerAt(pwd, rootDir), entries, redirects)
  {
    var r := RunnerAt(pwd, rootDir);
    var plan := Plan(r, entries, redirects).value;
    forall j | 0 <= j < |plan|
      ensures Torn(pwd, redirects[j]) == Refused(plan[j])
    {
      PlanAt(r, entries, redirects, plan, j);
      TornIsRefused(pwd, rootDir, entries, redirects[j], plan[j]);
    }
    FirstTornIsFirstRefused(pwd, redirects, plan, 0);
  }

  /**
   applyFakeRedirections, for any working directory. If the preflight fails the store is unchanged. If
   it succeeds all distinct targets are reserved exactly when the working directory has only valid
   characters or no target is relative to it; otherwise the call fails with exactly the targets before
   the first relative one reserved. After a full reservation it fails only on a descriptor that no
   parsed redirection has.
   */
  method ApplyFakeRedirections(pwd: string, rootDir: string -> bool, store: DynamicStore, redirects: seq<Redirect>)
    returns (w: Result<Wiring>)
    requires store.Valid() && forall p :: store.normalize(p) == ResolvePath("/", p)
    modifies store
    ensures store.Valid()
    ensures Applied(RunnerAt(pwd, rootDir), old(store.entries), redirects, FirstTorn(pwd, redirects, 0), store.entries, w)
    ensures store.order == Ordered(RunnerAt(pwd, rootDir), old(store.entries), old(store.order), redirects, FirstTorn(pwd, redirects, 0))
  {
    var r := RunnerAt(pwd, rootDir);
    ghost var before := store.entries;
    PwdRechecks(pwd, rootDir, store.normalize);
    w := Apply(r, store, redirects);
    if Plan(r, before, redirects).Ok? {
      SameStop(pwd, rootDir, before, redirects);
    }
  }

  ghost function StopsAt(r: Runner, entries: Entries, redirects: seq<Redirect>): (n: nat)
    ensures n <= |redirects|
  {
    if Plan(r, entries, redirects).Ok? then FirstRefused(Plan(r, entries, redirects).value, 0) else |redirects|
  }

  method Apply(r: Runner, store: DynamicStore, redirects: seq<Redirect>) returns (w: Result<Wiring>)
    requires store.Valid() && Rechecks(r, store.normalize)
    modifies store
    ensures store.Valid()
    ensures Applied(r, old(store.entries), redirects, StopsAt(r, old(store.entries), redirects), store.entries, w)
    ensures store.order == Ordered(r, old(store.entries), old(store.order), redirects, StopsAt(r, old(store.entries), redirects))
  {
    var checked := Preflight(r, store.entries, redirects);
    if checked.Err? {
      return Err(checked.error);
    }
    ghost var before, plan := store.entries, Plan(r, store.entries, redirects).value;
    var ok, stop := Reserve(r, store, redirects, plan);
    if !ok {
      return Err(BadPath);
    }
    PlanStable(r, store.normalize, before, redirects, plan, store.entries);
    w := WireUp(r, store.entries, redirects, plan);
  }

  /**
   The law fails: with PWD=/a:b, which an assignment before the command can set, the redirections
   "> /x > ." pass the preflight, and the call reserves /x and then fails.
   */
  lemma {:induction false} TornReservation(redirects: seq<Redirect>)
    requires redirects == [Redirect(1, Out, "/x", false, 0), Redirect(1, Out, ".", false, 0)]
    ensures var r := RunnerAt("/a:b", _ => false);
            && PreflightOk(r, map[], redirects) && Plan(r, map[], redirects) == Ok([File("/x"), File("/a:b")])
            && FirstTorn("/a:b", redirects, 0) == 1
  {
    var r, plan := RunnerAt("/a:b", _ => false), [File("/x"), File("/a:b")];
    TornTargets(r, redirects[0], redirects[1]);
    PlanIs(r, map[], redirects, plan);
    TwoPaths(plan, map[]);
    assert !ValidChar("/a:b"[2]);
    assert !Torn("/a:b", redirects[0]) && Torn("/a:b", redirects[1]);
  }

  lemma {:induction false} TwoPaths(plan: seq<Target>, none: Entries)
    requires |plan| == 2 && plan[0].File? && plan[1].File? && none == map[]
    ensures |none.Keys + PathsOf(plan)| <= MAX_ENTRIES
  {
    assert PathsTo(plan, 1) == {plan[0].path};
    assert none.Keys + PathsOf(plan) == {plan[0].path, plan[1].path};
  }

  lemma {:induction false} TornTargets(r: Runner, x: Redirect, dot: Redirect)
    requires r == RunnerAt("/a:b", _ => false) && x == Redirect(1, Out, "/x", false, 0) && dot == Redirect(1, Out, ".", false, 0)
    ensures Checked(r, map[], x) == Ok(File("/x")) && Checked(r, map[], dot) == Ok(File("/a:b"))
  {
    TornX();
    TornDot();
    TornParents();
  }

  lemma {:induction false} TornParents()
    ensures ParentDir("/x") == "/" && ParentDir("/a:b") == "/"
  {
    assert LastSlash("/x", 2) == LastSlash("/x", 1) == 0;
    assert LastSlash("/a:b", 4) == LastSlash("/a:b", 3) == LastSlash("/a:b", 2) == LastSlash("/a:b", 1) == 0;
  }

  lemma {:induction false} TornX()
    ensures ResolvePath("/a:b", "/x") == Resolved("/x")
  {
    SplitWhole("x");
    assert "/x"[1..] == "x";
    ResolveFixed("/a:b", "/x");
  }

  lemma {:induction false} TornDot()
    ensures ResolvePath("/a:b", ".") == Resolved("/a:b")
  {
    SplitSegments();
    var segments := ["", "a:b", "."];
    assert segments[1..] == ["a:b", "."] && ["a:b", "."][1..] == ["."] && ["."][1..] == [];
    assert Kept(segments) == ["a:b"];
  }

  lemma {:induction false} SplitSegments()
    ensures JoinPosix("/a:b", ".") == "/a:b/." && Split("/a:b/.") == ["", "a:b", "."]
  {
    SplitSlash("", "a:b/.");
    SplitSlash("a:b", ".");
    SplitWhole(".");
    assert "/a:b/." == "" + "/" + "a:b/." && "a:b/." == "a:b" + "/" + "." && "/a:b/." == "/a:b" + "/" + ".";
  }

  // ---------------------------------------------------------------- cleanup

  /** The largest count of the writers that stand for a path. */
  function Largest(records: seq<string>, counts: seq<nat>, p: string): (n: nat)
    requires |records| == |counts|
  {
    if records == [] then 0
    else
      var k := |records| - 1;
      var n := Largest(records[..k], counts[..k], p);
      if records[k] == p && counts[k] > n then counts[k] else n
  }

  lemma {:induction false} LargestStep(records: seq<string>, counts: seq<nat>, i: nat, p: string)
    requires i < |records| == |counts|
    ensures var n := Largest(records[..i], counts[..i], p);
            Largest(records[..i + 1], counts[..i + 1], p) == if records[i] == p && counts[i] > n then counts[i] else n
  {
    assert records[..i + 1][..i] == records[..i] && counts[..i + 1][..i] == counts[..i];
  }

  function SizeOf(sizes: map<string, nat>, p: string): (n: nat)
  {
    if p in sizes then sizes[p] else 0
  }

  /** The first loop of the cleanup: the size of every path, and the paths. */
  method Sizes(records: seq<string>, counts: seq<nat>) returns (sizes: map<string, nat>, paths: seq<string>)
    requires |records| == |counts|
    ensures forall p :: SizeOf(sizes, p) == Largest(records, counts, p)
    ensures forall p :: p in paths <==> p in records
  {
    sizes, paths := map[], [];
    var i := 0;
    while i < |records|
      invariant 0 <= i <= |records|
      invariant forall p :: SizeOf(sizes, p) == Largest(records[..i], counts[..i], p)
      invariant forall p :: p in paths <==> p in records[..i]
      invariant forall p :: p in sizes ==> p in paths
    {
      assert records[..i + 1] == records[..i] + [records[i]];
      if records[i] !in sizes {
        paths := paths + [records[i]];
      }
      ghost var before := sizes;
      if counts[i] > SizeOf(sizes, records[i]) {
        sizes := sizes[records[i] := counts[i]];
      }
      forall p
        ensures SizeOf(sizes, p) == Largest(records[..i + 1], counts[..i + 1], p)
      {
        LargestStep(records, counts, i, p);
        assert SizeOf(before, p) == Largest(records[..i], counts[..i], p);
      }
      i := i + 1;
    }
    assert records[..i] == records && counts[..i] == counts;
  }

  /** The entries after the sizes of some paths have been recorded. */
  ghost predicate Sized(before: Entries, done: seq<string>, sizes: map<string, nat>, now: Entries)
  {
    && now.Keys == before.Keys
    && forall k :: k in now ==> now[k] == if k in done then Entry(k, FileKind, SizeOf(sizes, k)) else before[k]
  }

  ghost predicate Recordable(store: DynamicStore, records: seq<string>)
    reads store
  {
    forall k :: 0 <= k < |records| ==> records[k] in store.entries && store.normalize(records[k]) == Resolved(records[k])
  }

  /** Recording the size of a path that is in the store cannot fail and touches nothing else. */
  method RecordSize(store: DynamicStore, p: string, size: nat) returns (failed: bool)
    requires store.Valid() && p in store.entries && store.normalize(p) == Resolved(p)
    modifies store
    ensures store.Valid() && !failed && store.order == old(store.order)
    ensures store.entries == old(store.entries)[p := Entry(p, FileKind, size)]
  {
    var e := store.Record(p, FileKind, size);
    failed := e.Err?;
  }

  /** The second loop of the cleanup: no Record fails, however full the store is by now. */
  method RecordSizes(store: DynamicStore, paths: seq<string>, sizes: map<string, nat>) returns (failed: bool)
    requires store.Valid() && Recordable(store, paths)
    modifies store
    ensures store.Valid() && !failed && store.order == old(store.order)
    ensures Sized(old(store.entries), paths, sizes, store.entries)
  {
    ghost var before := store.entries;
    failed := false;
    var i := 0;
    while i < |paths|
      invariant 0 <= i <= |paths| && store.Valid() && !failed && store.order == old(store.order)
      invariant Sized(before, paths[..i], sizes, store.entries)
    {
      ghost var now := store.entries;
      assert paths[i] in before;
      var f := RecordSize(store, paths[i], SizeOf(sizes, paths[i]));
      failed := failed || f;
      SizedStep(before, paths, sizes, i, now, store.entries);
      i := i + 1;
    }
    assert paths[..i] == paths;
  }

  lemma {:induction false} SameRecordable(store: DynamicStore, records: seq<string>, paths: seq<string>)
    requires Recordable(store, records) && forall p :: p in paths <==> p in records
    ensures Recordable(store, paths)
  {
    forall k | 0 <= k < |paths|
      ensures paths[k] in store.entries && store.normalize(paths[k]) == Resolved(paths[k])
    {
      assert paths[k] in records;
    }
  }

  /** The cleanup after the command: every target ends with the largest count written to it. */
  method Cleanup(store: DynamicStore, records: seq<string>, counts: seq<nat>) returns (failed: bool)
    requires store.Valid() && |records| == |counts| && Recordable(store, records)
    modifies store
    ensures store.Valid() && !failed && store.order == old(store.order)
    ensures store.entries.Keys == old(store.entries).Keys
    ensures forall p :: p in store.entries ==>
              store.entries[p] == if p in records then Entry(p, FileKind, Largest(records, counts, p)) else old(store.entries)[p]
  {
    var sizes, paths := Sizes(records, counts);
    SameRecordable(store, records, paths);
    failed := RecordSizes(store, paths, sizes);
  }

  lemma {:induction false} SizedStep(before: Entries, paths: seq<string>, sizes: map<string, nat>, i: nat, now: Entries, next: Entries)
    requires i < |paths| && paths[i] in before && Sized(before, paths[..i], sizes, now)
    requires next == now[paths[i] := Entry(paths[i], FileKind, SizeOf(sizes, paths[i]))]
    ensures Sized(before, paths[..i + 1], sizes, next)
  {
    assert paths[..i + 1] == paths[..i] + [paths[i]];
  }

  /** Whatever the command records in between, the reserved paths stay recordable: the store forgets nothing. */
  lemma {:induction false} CleanupReady(r: Runner, normalize: string -> Resolution, before: Entries, redirects: seq<Redirect>,
                                        plan: seq<Target>, now: Entries, later: Entries, k: nat)
    requires Rechecks(r, normalize) && Plan(r, before, redirects) == Ok(plan) && Reserved(r, before, PathsOf(plan), now)
    requires FirstRefused(plan, 0) == |plan|
    requires now.Keys <= later.Keys && k < |Wire(redirects, plan, |redirects|).records|
    ensures var p := Wire(redirects, plan, |redirects|).records[k]; p in later && normalize(p) == Resolved(p)
  {
    var p := Wire(redirects, plan, |redirects|).records[k];
    WireRecords(redirects, plan, |redirects|, k);
    PathFromPlan(plan, |plan|, p);
    var i :| 0 <= i < |plan| && plan[i] == File(p);
    BeforeRefused(plan, 0, i);
    PlannedPath(r, normalize, before, redirects, plan, i);
  }

  lemma {:induction false} PlannedPath(r: Runner, normalize: string -> Resolution, before: Entries, redirects: seq<Redirect>,
                                       plan: seq<Target>, i: nat)
    requires Rechecks(r, normalize) && Plan(r, before, redirects) == Ok(plan) && i < |plan| && plan[i].File? && !Refused(plan[i])
    ensures normalize(plan[i].path) == Resolved(plan[i].path)
  {
    PlanAt(r, before, redirects, plan, i);
  }

  // ---------------------------------------------------------------- parsed redirections

  function TextOf(w: ShellWords.Word): (s: string)
  {
    if w == [] then "" else w[0].text + TextOf(w[1..])
  }

  datatype Parsed = Parsed(redirect: Redirect, next: nat) | SyntaxError

  function ParseRedirect(tokens: seq<ShellTokens.Token>, pos: nat): (r: Parsed)
    requires pos < |tokens| && tokens[pos].Redirect?
  {
    var text := tokens[pos].text;
    if text == "2>&1" then Parsed(Redirect(2, Duplication, "", true, 1), pos + 1)
    else if text != ">" && text != "2>" then SyntaxError
    else if pos + 1 >= |tokens| || !tokens[pos + 1].WordToken? || TextOf(tokens[pos + 1].word) == "" then SyntaxError
    else
      var target := TextOf(tokens[pos + 1].word);
      if text == ">" then Parsed(Redirect(1, Out, target, false, 0), pos + 2)
      else Parsed(Redirect(2, ErrOut, target, false, 0), pos + 2)
  }

  /**
   A parsed redirection has a descriptor that wiring accepts and an operator that preflight accepts,
   so for parsed redirections an error after the preflight always comes from a torn target.
   */
  lemma {:induction false} ParsedIsWireable(r: Runner, entries: Entries, tokens: seq<ShellTokens.Token>, pos: nat)
    requires pos < |tokens| && tokens[pos].Redirect? && ParseRedirect(tokens, pos).Parsed?
    ensures var d := ParseRedirect(tokens, pos).redirect;
            && DescriptorOk(d)
            && (Checked(r, entries, d).Err? <==> !d.duplicate && Validated(r, entries, d.target).Err?)
  {
  }
}
