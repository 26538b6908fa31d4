/** The durable markers around an Approved Host child: the pending marker armed by the preflight, the
    tamper marker, and every point at which the worker may die in between. */
module ControlPlane {
  import opened Wrappers
  import opened AuditMirror

  /** A marker file; one that a crash left half written names no operation. */
  datatype Marker = NoMarker | Torn | MarkerFor(operation: string)

  /** Where the trusted worker stands. `Quiet` covers all the time it is not inside the guard's code. */
  datatype Task<T, B> =
    | Quiet
    | Snapped(operation: string, base: B, tables: T)
    | Opening(operation: string, base: B, tables: T)   // created, and empty or half written
    | Flushed(operation: string, base: B, tables: T)   // readable, but not yet synced
    | Synced(operation: string, base: B, tables: T)    // durable, and not yet held
    | Armed(operation: string, base: B, tables: T)
    | Abandoning(operation: string)
    | Clearing(operation: string, after: Critical<B>, expected: Critical<B>)
    | Marking(operation: string)
    | Marked(operation: string)

  datatype Plane<T, B> = Plane(pending: Marker, tamper: bool, db: Database<T>,
                               guard: Option<Guard<T, B>>, task: Task<T, B>)

  datatype Action<!T, B> =
    // `capture_critical_state`, first call
    | BeginPreflight(operation: string, base: B) | OpenMarker | FlushMarker | SyncMarker | HoldMarker
    | MarkerWriteFails | IdentityFails | HoldFails | MarkerStays | ActivateGuard | PreflightFails
    | Abandon | AbandonFails
    // the interval under guard
    | Statement(st: AuditMirror.Statement<T>) | ForeignWrite(tables: T)
    // `capture_critical_state`, second call, and what the worker does about its result
    | Postflight(after: B) | PostflightRaises | ClearVerified | ClearFails
    | WriteTamper | TamperFails(again: bool) | ClearTampered | ClearTamperedFails
    | Crash
    | OperatorClearsPending | OperatorClearsTamper

  /** `assert_control_plane_healthy`. */
  predicate Healthy<T, B>(p: Plane<T, B>) { !p.tamper && p.pending.NoMarker? }

  /** `_clear_approved_host_postflight_guard`: only the marker of the same operation is removed. */
  function Cleared(m: Marker, operation: string): Marker {
    if m == MarkerFor(operation) then NoMarker else m
  }

  function PreflightStep<T, B>(env: Environment<T>, p: Plane<T, B>, a: Action<T, B>): Option<Plane<T, B>> {
    match a
    case BeginPreflight(operation, base) =>
      if !p.task.Quiet? || p.guard.Some? || !Healthy(p) then None
      else Some(p.(task := Snapped(operation, base, p.db.committed)))
    case OpenMarker =>
      if !p.task.Snapped? then None
      else if !p.pending.NoMarker? then Some(p.(task := Quiet))
      else Some(p.(pending := Torn, task := Opening(p.task.operation, p.task.base, p.task.tables)))
    case FlushMarker =>
      if !p.task.Opening? then None
      else
        Some(p.(pending := MarkerFor(p.task.operation),
                task := Flushed(p.task.operation, p.task.base, p.task.tables)))
    case SyncMarker =>
      if !p.task.Flushed? then None else Some(p.(task := Synced(p.task.operation, p.task.base, p.task.tables)))
    case HoldMarker =>
      if !p.task.Synced? then None else Some(p.(task := Armed(p.task.operation, p.task.base, p.task.tables)))
    // the creation is undone
    case MarkerWriteFails =>
      if p.task.Opening? || p.task.Flushed? then Some(p.(pending := NoMarker, task := Quiet)) else None
    // nothing undoes it: the marker stays, and with it the demand for an operator
    case IdentityFails => if p.task.Synced? then Some(p.(task := Quiet)) else None
    case HoldFails => if p.task.Synced? then Some(p.(pending := NoMarker, task := Quiet)) else None
    // the creation should be undone, and that fails, too
    case MarkerStays => if p.task.Opening? || p.task.Flushed? || p.task.Synced? then Some(p.(task := Quiet)) else None
    case ActivateGuard =>
      if !p.task.Armed? then None
      else if env.digest(p.db.committed) != env.digest(p.task.tables)
      then Some(p.(task := Abandoning(p.task.operation)))
      else Some(p.(guard := Some(Preflight(env, p.task.operation, p.task.base, p.db.committed)), task := Quiet))
    case PreflightFails => if p.task.Armed? then Some(p.(task := Abandoning(p.task.operation))) else None
    case Abandon =>
      if p.task.Abandoning? then Some(p.(pending := Cleared(p.pending, p.task.operation), task := Quiet)) else None
    case AbandonFails => if p.task.Abandoning? then Some(p.(task := Quiet)) else None
    case _ => None
  }

  function GuardedStep<T, B>(env: Environment<T>, p: Plane<T, B>, a: Action<T, B>): Option<Plane<T, B>> {
    match a
    case Statement(st) =>
      if p.guard.None? || !p.task.Quiet? then None
      else
        Some(p.(guard := Some(Record(env, p.guard.value, st)),
                db := Settled(p.db, st)))
    case ForeignWrite(tables) => Some(p.(db := p.db.(committed := tables)))
    case _ => None
  }

  function PostflightStep<T, B(==)>(env: Environment<T>, p: Plane<T, B>, a: Action<T, B>): Option<Plane<T, B>> {
    match a
    case Postflight(after) =>
      if p.guard.None? || !p.task.Quiet? then None
      else
        var g := p.guard.value;
        Some(p.(guard := None,
                task := if Verified(env, g, after, p.db)
                        then Clearing(g.operation, Critical(after, env.digest(p.db.committed)), g.expected)
                        else Marking(g.operation)))
    case PostflightRaises =>
      if p.guard.None? || !p.task.Quiet? then None
      else Some(p.(guard := None, task := Marking(p.guard.value.operation)))
    case ClearVerified =>
      if !p.task.Clearing? then None
      else if p.pending != MarkerFor(p.task.operation) then Some(p.(task := Marking(p.task.operation)))
      else Some(p.(pending := NoMarker, task := Quiet))
    case ClearFails => if p.task.Clearing? then Some(p.(task := Marking(p.task.operation))) else None
    case WriteTamper => if p.task.Marking? then Some(p.(tamper := true, task := Marked(p.task.operation))) else None
    // without the tamper marker the pending one stays, whether or not the worker tries again
    case TamperFails(again) =>
      if p.task.Marking? then Some(p.(task := if again then p.task else Quiet)) else None
    case ClearTampered =>
      if p.task.Marked? then Some(p.(pending := Cleared(p.pending, p.task.operation), task := Quiet)) else None
    case ClearTamperedFails => if p.task.Marked? then Some(p.(task := Quiet)) else None
    case _ => None
  }

  function OtherStep<T, B>(p: Plane<T, B>, a: Action<T, B>): Option<Plane<T, B>> {
    match a
    case Crash => Some(p.(guard := None, task := Quiet, db := p.db.(open := None)))
    case OperatorClearsPending => if p.guard.None? && p.task.Quiet? then Some(p.(pending := NoMarker)) else None
    case OperatorClearsTamper => if p.guard.None? && p.task.Quiet? then Some(p.(tamper := false)) else None
    case _ => None
  }

  predicate InPreflight<T, B>(a: Action<T, B>) {
    || a.BeginPreflight? || a.OpenMarker? || a.FlushMarker? || a.SyncMarker? || a.HoldMarker?
    || a.MarkerWriteFails? || a.IdentityFails? || a.HoldFails? || a.MarkerStays?
    || a.ActivateGuard? || a.PreflightFails? || a.Abandon? || a.AbandonFails?
  }
  predicate UnderGuard<T, B>(a: Action<T, B>) { a.Statement? || a.ForeignWrite? }
  predicate InPostflight<T, B>(a: Action<T, B>) {
    || a.Postflight? || a.PostflightRaises? || a.ClearVerified? || a.ClearFails?
    || a.WriteTamper? || a.TamperFails? || a.ClearTampered? || a.ClearTamperedFails?
  }
  predicate ByOperator<T, B>(a: Action<T, B>) { a.OperatorClearsPending? || a.OperatorClearsTamper? }

  function Step<T, B(==)>(env: Environment<T>, p: Plane<T, B>, a: Action<T, B>): Option<Plane<T, B>> {
    if InPreflight(a) then PreflightStep(env, p, a)
    else if UnderGuard(a) then GuardedStep(env, p, a)
    else if InPostflight(a) then PostflightStep(env, p, a)
    else OtherStep(p, a)
  }

  function RunFrom<T, B(==)>(env: Environment<T>, p: Plane<T, B>, actions: seq<Action<T, B>>): Option<Plane<T, B>>
    decreases |actions|
  {
    if actions == [] then Some(p)
    else
      match Step(env, p, actions[0])
      case None => None
      case Some(next) => RunFrom(env, next, actions[1..])
  }

  /** An active guard, and every stage that follows it, has its marker on disk; the tamper marker is there
      before the pending marker may go. */
  ghost predicate Inv<T, B>(p: Plane<T, B>) {
    && (p.guard.Some? ==> p.pending == MarkerFor(p.guard.value.operation) && p.task.Quiet?)
    && match p.task
       case Opening(_, _, _) => p.pending == Torn && !p.tamper
       case Flushed(operation, _, _) => p.pending == MarkerFor(operation) && !p.tamper
       case Synced(operation, _, _) => p.pending == MarkerFor(operation) && !p.tamper
       case Armed(operation, _, _) => p.pending == MarkerFor(operation) && !p.tamper
       case Abandoning(operation) => p.pending == MarkerFor(operation) && !p.tamper
       case Clearing(operation, after, expected) => p.pending == MarkerFor(operation) && after == expected
       case Marking(operation) => p.pending == MarkerFor(operation)
       case Marked(_) => p.tamper
       case Snapped(_, _, _) => Healthy(p)
       case Quiet => true
  }

  lemma PreflightKeeps<T, B>(env: Environment<T>, p: Plane<T, B>, a: Action<T, B>)
    requires Inv(p) && PreflightStep(env, p, a).Some?
    ensures Inv(PreflightStep(env, p, a).value)
  {
  }

  lemma PostflightKeeps<T, B>(env: Environment<T>, p: Plane<T, B>, a: Action<T, B>)
    requires Inv(p) && PostflightStep(env, p, a).Some?
    ensures Inv(PostflightStep(env, p, a).value)
  {
  }

  lemma StepKeeps<T, B>(env: Environment<T>, p: Plane<T, B>, a: Action<T, B>)
    requires Inv(p) && Step(env, p, a).Some?
    ensures Inv(Step(env, p, a).value)
  {
    if InPreflight(a) {
      PreflightKeeps(env, p, a);
    } else if InPostflight(a) {
      PostflightKeeps(env, p, a);
    }
  }

  /** Between the return of the preflight and its end the plane is unhealthy, and so it is wherever a
      crash leaves it: no preflight is under way and a marker is on disk. */
  ghost predicate Watched<T, B>(p: Plane<T, B>) {
    && Inv(p) && !Healthy(p)
    && !p.task.Snapped? && !p.task.Opening? && !p.task.Flushed? && !p.task.Synced? && !p.task.Armed?
         && !p.task.Abandoning?
  }

  lemma StepKeepsWatched<T, B>(env: Environment<T>, p: Plane<T, B>, a: Action<T, B>)
    requires Watched(p) && Step(env, p, a).Some? && !ByOperator(a)
    requires a.ClearVerified? ==> p.tamper
    ensures Watched(Step(env, p, a).value)
    ensures p.tamper ==> Step(env, p, a).value.tamper
  {
  }

  /** Once the preflight has returned, the control plane stays unhealthy through every run, whatever fails
      or dies, until a verified postflight clears its marker; a tamper marker stays in any case. Only the
      operator is left out of the run. */
  lemma {:induction false} UnhealthyUntilVerified<T, B>(env: Environment<T>, p: Plane<T, B>, actions: seq<Action<T, B>>)
    requires Watched(p) && RunFrom(env, p, actions).Some?
    requires forall a <- actions :: !ByOperator(a)
    requires p.tamper || forall a <- actions :: !a.ClearVerified?
    ensures !Healthy(RunFrom(env, p, actions).value)
    ensures p.tamper ==> RunFrom(env, p, actions).value.tamper
    decreases |actions|
  {
    if actions != [] {
      StepKeepsWatched(env, p, actions[0]);
      UnhealthyUntilVerified(env, Step(env, p, actions[0]).value, actions[1..]);
    }
  }

  /** The guard becomes active only with its marker on disk, and from there on the plane is watched. */
  lemma ActivationIsWatched<T, B>(env: Environment<T>, p: Plane<T, B>, a: Action<T, B>)
    requires Inv(p) && Step(env, p, a).Some? && p.guard.None? && Step(env, p, a).value.guard.Some?
    ensures a.ActivateGuard? && Watched(Step(env, p, a).value)
    ensures Step(env, p, a).value.guard.value == Preflight(env, p.task.operation, p.task.base, p.db.committed)
  {
  }

  /** The pending marker goes in four ways only: a postflight capture equalled the expected state, the
      tamper marker is already durable, the preflight never returned, or the operator stepped in. */
  lemma PendingRemovedOnlyWhen<T, B>(env: Environment<T>, p: Plane<T, B>, a: Action<T, B>)
    requires Inv(p) && Step(env, p, a).Some?
    requires !p.pending.NoMarker? && Step(env, p, a).value.pending.NoMarker?
    ensures || (a.ClearVerified? && p.task.Clearing? && p.task.after == p.task.expected)
            || (a.ClearTampered? && p.tamper)
            || ((a.MarkerWriteFails? || a.HoldFails? || a.Abandon?) && p.guard.None? && !Watched(p))
            || a.OperatorClearsPending?
  {
  }

  // ---- What a cleared marker says about the tables ----

  function EventsOf<T, B>(actions: seq<Action<T, B>>): seq<Event<T>>
    requires forall a <- actions :: UnderGuard(a)
    decreases |actions|
  {
    if actions == [] then []
    else
      assert UnderGuard(actions[0]);
      [if actions[0].Statement? then Trusted(actions[0].st) else Foreign(actions[0].tables)] + EventsOf(actions[1..])
  }

  /** While the guard is active, guard and tables develop as in `Play`. */
  lemma {:induction false} GuardedIsPlay<T, B>(env: Environment<T>, p: Plane<T, B>, actions: seq<Action<T, B>>)
    requires p.guard.Some? && p.task.Quiet? && (forall a <- actions :: UnderGuard(a))
    ensures RunFrom(env, p, actions).Some?
    ensures var last := RunFrom(env, p, actions).value;
            && last.guard.Some? && last.task.Quiet?
            && (last.guard.value, last.db) == Play(env, p.guard.value, p.db, EventsOf(actions))
    decreases |actions|
  {
    if actions != [] {
      assert actions[0] in actions;
      var next := Step(env, p, actions[0]).value;
      GuardedIsPlay(env, next, actions[1..]);
      var events := EventsOf(actions);
      assert events[1..] == EventsOf(actions[1..]);
    }
  }

  /** From activation to a postflight whose marker may be cleared: everything outside the database is as
      the preflight captured it, and the tables are the preflight tables with exactly the traced
      statements of the interval applied in order. */
  lemma ClearedMeansReplayed<T(!new), B>(env: Environment<T>, p: Plane<T, B>, actions: seq<Action<T, B>>, after: B)
    requires CollisionFree(env) && Inv(p) && p.task.Armed? && p.db.open.None?
    requires Step(env, p, ActivateGuard).Some? && Step(env, p, ActivateGuard).value.guard.Some?
    requires forall a <- actions :: UnderGuard(a)
    ensures RunFrom(env, Step(env, p, ActivateGuard).value, actions).Some?
    ensures var q := RunFrom(env, Step(env, p, ActivateGuard).value, actions).value;
            var replayed := Replay(Database(p.task.tables, None), Traced(EventsOf(actions)));
            && Step(env, q, Postflight(after)).Some?
            && (Step(env, q, Postflight(after)).value.task.Clearing? ==>
                  after == p.task.base && replayed.Some? && q.db.committed == Visible(replayed.value))
  {
    var guarded := Step(env, p, ActivateGuard).value;
    GuardedIsPlay(env, guarded, actions);
    assert env.digest(p.db.committed) == env.digest(p.task.tables);
    assert p.db == Database(p.task.tables, None);
    VerifiedMeansReplayed(env, p.task.operation, p.task.base, p.task.tables, EventsOf(actions), after);
  }
}
