/** The guard and the marker directory as the objects they are: fields and files change one at a time,
    and the worker's postflight drives both. */
module ControlPlaneStore {
  import opened Wrappers
  import opened AuditMirror
  import opened ControlPlane

  /** `_AuditMutationGuard`, registered as the trace callback of the worker's connections. */
  class AuditMutationGuard<T, B(==)> {
    const operation: string
    const base: B
    var mirror: Database<T>
    var expected: Critical<B>
    var failed: bool

    ghost function Value(): Guard<T, B>
      reads this
    {
      Guard(operation, base, mirror, expected, failed)
    }

    constructor (env: Environment<T>, operation: string, base: B, tables: T)
      ensures Value() == Preflight(env, operation, base, tables)
    {
      this.operation, this.base := operation, base;
      mirror, expected, failed := Database(tables, None), Critical(base, env.digest(tables)), false;
    }

    method RecordStatement(env: Environment<T>, st: Statement<T>)
      modifies this
      ensures Value() == Record(env, old(Value()), st)
    {
      if !Tracked(st.text) || failed {
        return;
      }
      var next := MirrorExecute(mirror, st);
      if next.None? {
        failed := true;
        return;
      }
      mirror := next.value;
      if env.fits(Visible(mirror)) {
        expected := Critical(base, env.digest(Visible(mirror)));
      } else {
        failed := true;
      }
    }
  }

  /** How a postflight ends: verified, marked, or raising because it could not even be marked. */
  datatype Result = Clean | Tampered | Unmarked

  /** The two markers on disk. `trail` holds every state they went through. */
  datatype Markers = Markers(pending: Marker, tamper: bool) {
    predicate Healthy() { pending.NoMarker? && !tamper }
  }

  /** Where the file system lets the preflight down while it arms the marker, and whether it can still undo
      what it created. */
  datatype ArmFault =
    | NoFault | WriteFails(undone: bool) | SyncFails(undone: bool) | IdentityFails | HoldFails(undone: bool)

  /** The states of the disk after the marker has been found absent. */
  function ArmTrail(operation: string, tamper: bool, fault: ArmFault): seq<Markers> {
    var created, written := Markers(Torn, tamper), Markers(MarkerFor(operation), tamper);
    [created]
    + (if fault.WriteFails? then [] else [written])
    + if Undone(fault) then [Markers(NoMarker, tamper)] else []
  }

  predicate Undone(fault: ArmFault) {
    match fault
    case WriteFails(undone) => undone
    case SyncFails(undone) => undone
    case HoldFails(undone) => undone
    case _ => false
  }

  /** Which file operations of a postflight succeed: the removal of the verified marker, the two attempts at
      the tamper marker, and the removal of the pending marker behind it. */
  datatype Writes = Writes(clear: bool, first: bool, second: bool, last: bool)

  class MarkerStore {
    var pending: Marker
    var tamper: bool
    ghost var trail: seq<Markers>

    ghost function Now(): Markers
      reads this
    {
      Markers(pending, tamper)
    }

    ghost predicate Valid()
      reads this
    {
      trail != [] && trail[|trail| - 1] == Now()
    }

    constructor (m: Markers)
      ensures Valid() && Now() == m && trail == [m]
    {
      pending, tamper, trail := m.pending, m.tamper, [m];
    }

    /** `_arm_approved_host_postflight_guard`: an exclusive creation, to be undone if the write, the sync or
        the hold fails, but not if the identity of the written marker cannot be captured. */
    method Arm(operation: string, fault: ArmFault) returns (ok: bool)
      requires Valid()
      modifies this
      ensures Valid() && (ok <==> old(pending).NoMarker? && fault.NoFault?)
      ensures trail == old(trail) + if old(pending).NoMarker? then ArmTrail(operation, old(tamper), fault) else []
    {
      if !pending.NoMarker? {
        return false;
      }
      pending := Torn;
      trail := trail + [Now()];
      if !fault.WriteFails? {
        pending := MarkerFor(operation);
        trail := trail + [Now()];
      }
      if Undone(fault) {
        pending := NoMarker;
        trail := trail + [Now()];
      }
      return fault.NoFault?;
    }

    /** `_clear_approved_host_postflight_guard`; `removes` tells whether the removal succeeds. */
    method Clear(operation: string, removes: bool) returns (ok: bool)
      requires Valid()
      modifies this
      ensures Valid() && (ok <==> old(pending) == MarkerFor(operation) && removes)
      ensures trail == old(trail) + if ok then [Markers(NoMarker, old(tamper))] else []
    {
      if pending != MarkerFor(operation) || !removes {
        return false;
      }
      pending := NoMarker;
      trail := trail + [Now()];
      return true;
    }

    /** `mark_control_plane_tamper`: the tamper marker is durable before the pending one may go. Without the
        one nothing is touched; that the other stays is no failure. */
    method MarkTamper(operation: string, writes: bool, removes: bool) returns (ok: bool)
      requires Valid()
      modifies this
      ensures Valid() && ok == writes
      ensures trail == old(trail) + if writes then TamperTrail(operation, old(pending), removes) else []
    {
      if !writes {
        return false;
      }
      tamper := true;
      trail := trail + [Now()];
      var _ := Clear(operation, removes);
      return true;
    }

    /** The worker's postflight: the second capture, and the tamper marker whenever it differs from the
        expected state, tracking failed, or anything raised, also the removal of the verified marker or a
        first attempt at the tamper marker. A disk that looks healthy is found nowhere along the way unless
        the capture verified, and then only at the very end. */
    method ConcludePostflight<T, B(==)>(env: Environment<T>, g: AuditMutationGuard<T, B>, after: B, db: Database<T>,
                                        captures: bool, works: Writes) returns (r: Result)
      requires Valid() && pending == MarkerFor(g.operation)
      modifies this
      ensures Valid() && old(trail) <= trail
      ensures r == Clean <==> captures && Verified(env, g.Value(), after, db) && works.clear
      ensures r == Clean ==> Now() == Markers(NoMarker, old(tamper))
      ensures r == Tampered ==> tamper && pending == if works.last then NoMarker else old(pending)
      ensures r == Unmarked ==> trail == old(trail)
      ensures r == Unmarked <==>
                && r != Clean && !works.second
                && (captures && !g.failed && !Verified(env, g.Value(), after, db) ==> !works.first)
      ensures forall i :: |old(trail)| <= i < |trail| && trail[i].Healthy() ==> r == Clean && i == |trail| - 1
    {
      var marked := false;
      if captures && !g.failed {
        if Critical(after, env.digest(db.committed)) == g.expected {
          var cleared := Clear(g.operation, works.clear);
          if cleared {
            return Clean;
          }
        } else {
          marked := MarkTamper(g.operation, works.first, works.last);
        }
      }
      if !marked {
        marked := MarkTamper(g.operation, works.second, works.last);
      }
      return if marked then Tampered else Unmarked;
    }
  }

  /** The states behind a tamper marker that could be written. */
  function TamperTrail(operation: string, pending: Marker, removes: bool): seq<Markers> {
    [Markers(pending, true)] + if pending == MarkerFor(operation) && removes then [Markers(NoMarker, true)] else []
  }

  // ---- The objects take the steps of the protocol ----

  function MarkersOf<T, B>(p: Plane<T, B>): Markers { Markers(p.pending, p.tamper) }

  /** The states of the markers along a run, each noted when it changes. */
  function Changes<T, B(==)>(env: Environment<T>, p: Plane<T, B>, actions: seq<Action<T, B>>): seq<Markers>
    decreases |actions|
  {
    if actions == [] || Step(env, p, actions[0]).None? then []
    else
      var next := Step(env, p, actions[0]).value;
      (if MarkersOf(next) == MarkersOf(p) then [] else [MarkersOf(next)]) + Changes(env, next, actions[1..])
  }

  lemma RunOne<T, B>(env: Environment<T>, p: Plane<T, B>, a: Action<T, B>, rest: seq<Action<T, B>>)
    requires Step(env, p, a).Some?
    ensures RunFrom(env, p, [a] + rest) == RunFrom(env, Step(env, p, a).value, rest)
    ensures var next := Step(env, p, a).value;
            Changes(env, p, [a] + rest)
            == (if MarkersOf(next) == MarkersOf(p) then [] else [MarkersOf(next)]) + Changes(env, next, rest)
  {
    assert ([a] + rest)[1..] == rest;
  }

  /** How the arming goes on in the protocol: behind the creation, behind the write, and behind the sync. */
  function BehindCreation<T, B>(fault: ArmFault): seq<Action<T, B>> {
    if fault.WriteFails? then [if fault.undone then MarkerWriteFails else MarkerStays]
    else [FlushMarker] + BehindWrite(fault)
  }

  function BehindWrite<T, B>(fault: ArmFault): seq<Action<T, B>> {
    if fault.SyncFails? then [if fault.undone then MarkerWriteFails else MarkerStays]
    else [SyncMarker] + [BehindSync(fault)]
  }

  function BehindSync<T, B>(fault: ArmFault): Action<T, B> {
    if fault.IdentityFails? then Action.IdentityFails
    else if fault.HoldFails? then if fault.undone then Action.HoldFails else MarkerStays
    else HoldMarker
  }

  lemma RunSingle<T, B>(env: Environment<T>, p: Plane<T, B>, a: Action<T, B>) returns (next: Plane<T, B>)
    requires Step(env, p, a).Some?
    ensures next == Step(env, p, a).value && RunFrom(env, p, [a]) == Some(next)
    ensures Changes(env, p, [a]) == if MarkersOf(next) == MarkersOf(p) then [] else [MarkersOf(next)]
  {
    next := Step(env, p, a).value;
    RunOne(env, p, a, []);
    assert [a] + [] == [a];
    assert Changes(env, next, []) == [] && RunFrom(env, next, []) == Some(next);
  }

  /** Where the arming stands when it is over. */
  predicate ArmOver<T, B>(p: Plane<T, B>, fault: ArmFault) { if fault.NoFault? then p.task.Armed? else p.task.Quiet? }

  lemma ArmUnwritten<T, B>(env: Environment<T>, p: Plane<T, B>, fault: ArmFault) returns (last: Plane<T, B>)
    requires p.task.Opening? && p.pending == Torn && fault.WriteFails?
    ensures RunFrom(env, p, BehindCreation(fault)) == Some(last) && ArmOver(last, fault)
    ensures Changes(env, p, BehindCreation(fault)) == if fault.undone then [Markers(NoMarker, p.tamper)] else []
  {
    last := RunSingle(env, p, if fault.undone then MarkerWriteFails else MarkerStays);
  }

  lemma ArmUnsynced<T, B>(env: Environment<T>, p: Plane<T, B>, fault: ArmFault) returns (last: Plane<T, B>)
    requires p.task.Flushed? && p.pending == MarkerFor(p.task.operation) && fault.SyncFails?
    ensures RunFrom(env, p, BehindWrite(fault)) == Some(last) && ArmOver(last, fault)
    ensures Changes(env, p, BehindWrite(fault)) == if fault.undone then [Markers(NoMarker, p.tamper)] else []
  {
    last := RunSingle(env, p, if fault.undone then MarkerWriteFails else MarkerStays);
  }

  lemma ArmSynced<T, B>(env: Environment<T>, p: Plane<T, B>, fault: ArmFault) returns (last: Plane<T, B>)
    requires p.task.Flushed? && p.pending == MarkerFor(p.task.operation) && !fault.SyncFails? && !fault.WriteFails?
    ensures RunFrom(env, p, BehindWrite(fault)) == Some(last) && ArmOver(last, fault)
    ensures Changes(env, p, BehindWrite(fault)) == if Undone(fault) then [Markers(NoMarker, p.tamper)] else []
  {
    var synced := PreflightStep(env, p, SyncMarker).value;
    RunOne(env, p, SyncMarker, [BehindSync(fault)]);
    last := RunSingle(env, synced, BehindSync(fault));
  }

  lemma ArmWritten<T, B>(env: Environment<T>, p: Plane<T, B>, fault: ArmFault) returns (last: Plane<T, B>)
    requires p.task.Opening? && p.pending == Torn && !fault.WriteFails?
    ensures RunFrom(env, p, BehindCreation(fault)) == Some(last) && ArmOver(last, fault)
    ensures Changes(env, p, BehindCreation(fault))
         == [Markers(MarkerFor(p.task.operation), p.tamper)]
            + if Undone(fault) then [Markers(NoMarker, p.tamper)] else []
  {
    var written := PreflightStep(env, p, FlushMarker).value;
    RunOne(env, p, FlushMarker, BehindWrite(fault));
    if fault.SyncFails? {
      last := ArmUnsynced(env, written, fault);
    } else {
      last := ArmSynced(env, written, fault);
    }
  }

  /** `Arm` is a run of the protocol, whatever fails: the states of the disk are those of the run, and the
      run ends with the marker held, or with the preflight over. */
  lemma ArmIsRun<T, B>(env: Environment<T>, p: Plane<T, B>, fault: ArmFault)
    requires p.task.Snapped? && p.pending.NoMarker?
    ensures var actions := [OpenMarker] + BehindCreation<T, B>(fault);
            && RunFrom(env, p, actions).Some? && ArmOver(RunFrom(env, p, actions).value, fault)
            && Changes(env, p, actions) == ArmTrail(p.task.operation, p.tamper, fault)
  {
    var made := PreflightStep(env, p, OpenMarker).value;
    RunOne(env, p, OpenMarker, BehindCreation(fault));
    if fault.WriteFails? {
      var last := ArmUnwritten(env, made, fault);
    } else {
      var last := ArmWritten(env, made, fault);
    }
  }

  /** `MarkTamper` is a run of the protocol, the tamper marker first, whichever of its operations fails. */
  lemma MarkTamperIsRun<T, B>(env: Environment<T>, p: Plane<T, B>, writes: bool, removes: bool)
    requires p.task.Marking? && p.pending == MarkerFor(p.task.operation)
    ensures var last: Action<T, B> := if removes then ClearTampered else ClearTamperedFails;
            var actions: seq<Action<T, B>> := if writes then [WriteTamper] + [last] else [TamperFails(false)];
            && RunFrom(env, p, actions).Some? && RunFrom(env, p, actions).value.task.Quiet?
            && Changes(env, p, actions)
               == if !writes then []
                  else (if p.tamper then TamperTrail(p.task.operation, p.pending, removes)[1..]
                        else TamperTrail(p.task.operation, p.pending, removes))
  {
    if writes {
      var last: Action<T, B> := if removes then ClearTampered else ClearTamperedFails;
      RunOne(env, p, WriteTamper, [last]);
      var end := RunSingle(env, PostflightStep(env, p, WriteTamper).value, last);
    } else {
      var end := RunSingle(env, p, TamperFails(false));
    }
  }
}
