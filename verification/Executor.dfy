/** The executor's two retry loops. Every other process may run any calls of its own between two calls
    of the loop; both loops end because a failed compare-and-set means that the status moved up. */
module Executor {
  import opened Wrappers
  import opened AuditLifecycle
  import opened AuditStore

  /** What a look at the recorded process identities finds. */
  datatype Probe = NoIdentity | StaleIdentity | LiveTree

  datatype Stopped =
    | NotFound               // the operation is gone
    | Forbidden              // an active Approved Host operation
    | Unverifiable           // no identity, so no PID-only stop
    | Shown(status: Status)  // returned as the last read found it

  /** What `stop` did before it returned: nothing, its stale-identity transition, or the termination of a
      process, with or without a transition of its own. */
  datatype Act = Untouched | MarkedStale | Terminated(moved: bool)

  /** The operation is known and, while its row exists, no further back than `floor`. */
  predicate AtLeast(s: Store, id: Id, floor: nat) {
    id in s.used && (id in s.rows ==> Rank(s.rows[id].status) >= floor)
  }

  /** Calls of other processes; one that no caller would make is skipped. They move no operation back. */
  method Interfere(store: AuditStore, calls: seq<Action>, ghost id: Id, ghost floor: nat)
    requires store.Valid() && AtLeast(store.Now(), id, floor)
    modifies store
    ensures store.Valid() && AtLeast(store.Now(), id, floor)
    ensures old(store.log) <= store.log
  {
    for i := 0 to |calls|
      invariant store.Valid() && AtLeast(store.Now(), id, floor)
      invariant old(store.log) <= store.log
    {
      if Legal(Store(store.rows, store.used, store.direct), calls[i]) {
        store.Perform(calls[i]);
      }
    }
  }

  /** One compare-and-set of an active status, after a read and other processes' calls. A failure means
      that the operation is gone or has moved up. */
  method Retire(store: AuditStore, id: Id, read: Status, calls: seq<Action>) returns (moved: bool)
    requires store.Valid() && Active(read) && AtLeast(store.Now(), id, Rank(read))
    modifies store
    ensures store.Valid() && old(store.log) <= store.log
    ensures moved ==> id in store.rows && store.rows[id].status == Interrupted
    ensures AtLeast(store.Now(), id, Rank(read) + 1)
  {
    Interfere(store, calls, id, Rank(read));
    moved := store.TransitionOperation(id, {read}, Interrupted, None);
  }

  /** Where the transition behind a terminated process leaves an operation that was at `floor`: what was not
      moved had left the active states before, unless it has yet to enter them. */
  function CancelFloor(floor: nat, moved: bool): nat {
    if moved then 5 else if 2 <= floor < 4 then 4 else floor
  }

  method Cancel(store: AuditStore, id: Id, calls: seq<Action>, ghost floor: nat) returns (moved: bool)
    requires store.Valid() && AtLeast(store.Now(), id, floor)
    modifies store
    ensures store.Valid() && old(store.log) <= store.log
    ensures AtLeast(store.Now(), id, CancelFloor(floor, moved))
  {
    Interfere(store, calls, id, floor);
    moved := store.TransitionOperation(id, {Queued, Running}, Status.Cancelled, None);
  }

  /** The read that the answer shows, after other processes' calls. */
  method ReadBack(store: AuditStore, id: Id, calls: seq<Action>, ghost floor: nat) returns (r: Stopped)
    requires store.Valid() && AtLeast(store.Now(), id, floor)
    modifies store
    ensures store.Valid() && old(store.log) <= store.log && AtLeast(store.Now(), id, floor)
    ensures r == if id in store.rows then Shown(store.rows[id].status) else NotFound
  {
    Interfere(store, calls, id, floor);
    return if id in store.rows then Shown(store.rows[id].status) else NotFound;
  }

  /** One look of `stop`: an answer, a terminated process, or a lost race. */
  datatype Look = Answered(r: Stopped, act: Act) | Matched | LostRace(read: Status)

  method LookOnce(store: AuditStore, id: Id, seen: Probe, calls: nat -> seq<Action>, ghost floor: nat) returns (l: Look)
    requires store.Valid() && AtLeast(store.Now(), id, floor)
    modifies store
    ensures store.Valid() && old(store.log) <= store.log && AtLeast(store.Now(), id, floor)
    ensures l.Answered? ==>
              && (l.r == NotFound <==> id !in store.rows)
              && (l.r.Shown? ==> id in store.rows && store.rows[id].status == l.r.status)
              && l.r != Forbidden
              && (l.act == MarkedStale ==> AtLeast(store.Now(), id, 5) && (l.r == NotFound || l.r.Shown?))
              && (l.act == Untouched ==> l.r.Shown? ==> !Active(l.r.status))
              && !l.act.Terminated?
              && (floor == 5 ==> l.act == Untouched && (l.r == NotFound || l.r.Shown?))
    ensures !l.Answered? ==> floor < 5
    ensures l.LostRace? ==> Active(l.read) && Rank(l.read) >= floor && AtLeast(store.Now(), id, Rank(l.read) + 1)
  {
    Interfere(store, calls(0), id, floor);
    if id !in store.rows {
      return Answered(NotFound, Untouched);
    }
    var status := store.rows[id].status;
    if Terminal(status) {
      return Answered(Shown(status), Untouched);
    }
    if seen.NoIdentity? {
      return Answered(Unverifiable, Untouched);
    }
    if seen.LiveTree? {
      return Matched;
    }
    if !Active(status) {
      return Answered(Shown(status), Untouched);
    }
    var moved := Retire(store, id, status, calls(1));
    if !moved {
      return LostRace(status);
    }
    var r := ReadBack(store, id, calls(2), 5);
    return Answered(r, MarkedStale);
  }

  /** What an answer says of an operation that was at `start` when the call began. */
  ghost predicate Fair(s: Store, id: Id, start: nat, r: Stopped, act: Act) {
    && (r == NotFound <==> id !in s.rows)
    && (r.Shown? ==> id in s.rows && s.rows[id].status == r.status)
    && (r.Shown? && (act != Terminated(false) || start >= 2) ==> !Active(r.status))
    && (act == MarkedStale || act == Terminated(true) ==> AtLeast(s, id, 5))
    && (act == Terminated(false) && start >= 2 ==> AtLeast(s, id, 4))
    && (act != Untouched ==> r == NotFound || r.Shown?)
    && (start == 5 ==> act == Untouched && (r == NotFound || r.Shown?))
  }

  /** The loop of `stop`, and the end behind a terminated process. */
  method StopLoop(store: AuditStore, id: Id, probe: nat -> Probe, others: (nat, nat) -> seq<Action>, ghost start: nat)
    returns (r: Stopped, act: Act, failed: nat)
    requires store.Valid() && AtLeast(store.Now(), id, start) && start <= 5
    modifies store
    ensures store.Valid() && old(store.log) <= store.log && failed <= 2
    ensures Fair(store.Now(), id, start, r, act) && r != Forbidden
  {
    failed := 0;
    ghost var floor := start;
    var round := 0;
    while true
      invariant store.Valid() && AtLeast(store.Now(), id, floor) && old(store.log) <= store.log
      invariant start <= floor <= 5 && (failed > 0 ==> failed + 2 <= floor <= 4) && failed <= 2
      decreases 5 - floor
    {
      var l := LookOnce(store, id, probe(round), (n: nat) => others(round, n), floor);
      if l.Answered? {
        return l.r, l.act, failed;
      }
      if l.Matched? {
        break;
      }
      failed, floor, round := failed + 1, Rank(l.read) + 1, round + 1;
    }
    var moved := Cancel(store, id, others(round, 1), floor);
    act := Terminated(moved);
    r := ReadBack(store, id, others(round, 2), CancelFloor(floor, moved));
  }

  /** `stop`: `probe` and `others` say what each look and each gap between calls brings. `failed` counts
      the compare-and-sets that lost their race. An answer that shows a status shows it as it is; after a
      transition of its own the operation is terminal for good, and one that had started is not active any
      more after a termination. */
  method Stop(store: AuditStore, id: Id, approvedHost: bool, probe: nat -> Probe, others: (nat, nat) -> seq<Action>)
    returns (r: Stopped, act: Act, failed: nat)
    requires store.Valid()
    modifies store
    ensures store.Valid() && old(store.log) <= store.log && failed <= 2
    ensures var start := if id in old(store.rows) then Rank(old(store.rows[id]).status) else 0;
            if r == Forbidden then approvedHost && start < 5 && act == Untouched && store.log == old(store.log)
            else Fair(store.Now(), id, start, r, act)
    ensures approvedHost && id in old(store.rows) ==> r == Forbidden || Terminal(old(store.rows[id]).status)
  {
    if id !in store.rows {
      return NotFound, Untouched, 0;
    }
    if approvedHost && !Terminal(store.rows[id].status) {
      return Forbidden, Untouched, 0;
    }
    RunKeeps(store.limits, EMPTY, store.log);
    r, act, failed := StopLoop(store, id, probe, others, Rank(store.rows[id].status));
  }

  /** `list_active_operations`, in any order of equal age. */
  method ListActive(store: AuditStore) returns (ids: seq<Id>)
    ensures forall id :: id in ids <==> id in ActiveIds(store.rows)
    ensures forall i, j :: 0 <= i < j < |ids| ==> ids[i] != ids[j]
  {
    ids := [];
    var left := ActiveIds(store.rows);
    while left != {}
      invariant forall id :: id in ActiveIds(store.rows) <==> id in ids || id in left
      invariant forall id <- ids :: id !in left
      invariant left <= ActiveIds(store.rows)
      invariant forall i, j :: 0 <= i < j < |ids| ==> ids[i] != ids[j]
      decreases left
    {
      var id :| id in left;
      ids := ids + [id];
      left := left - {id};
    }
  }

  datatype Verdict = Gone | Settled | Kept | Reconciled

  /** The inner loop of `_reconcile_stale_jobs` for one operation. `keep` stands for the three checks that
      leave an operation to its owner. */
  method ReconcileOne(store: AuditStore, id: Id, keep: (nat, Status) -> bool, others: nat -> seq<Action>)
    returns (v: Verdict, failed: nat)
    requires store.Valid() && AtLeast(store.Now(), id, 2)
    modifies store
    ensures store.Valid() && old(store.log) <= store.log && failed <= 2
    ensures v == Gone ==> id !in store.rows
    ensures v == Settled || v == Reconciled ==> AtLeast(store.Now(), id, 4)
    ensures v == Kept ==> exists n: nat, s :: Active(s) && keep(n, s)
  {
    failed := 0;
    ghost var floor: nat := 2;
    var gap := 0;
    while true
      invariant store.Valid() && AtLeast(store.Now(), id, floor) && old(store.log) <= store.log
      invariant failed + 2 <= floor <= 4
      decreases 4 - floor
    {
      Interfere(store, others(gap), id, floor);
      if id !in store.rows {
        return Gone, failed;
      }
      var status := store.rows[id].status;
      if !Active(status) {
        return Settled, failed;
      }
      if keep(gap, status) {
        return Kept, failed;
      }
      var moved := Retire(store, id, status, others(gap + 1));
      if moved {
        return Reconciled, failed;
      }
      failed, floor, gap := failed + 1, Rank(status) + 1, gap + 2;
    }
  }

  /** What a longer log adds moves nothing back. */
  lemma LogForward(limits: Limits, short: seq<Action>, long: seq<Action>, s: Store, t: Store)
    requires short <= long && LegalRun(limits, EMPTY, long)
    requires After(limits, EMPTY, short) == s && After(limits, EMPTY, long) == t
    ensures forall id, floor :: AtLeast(s, id, floor) ==> AtLeast(t, id, floor)
  {
    assert long == short + long[|short|..];
    RunSplits(limits, EMPTY, short, long[|short|..]);
    RunKeeps(limits, EMPTY, short);
    RunKeeps(limits, s, long[|short|..]);
  }

  /** Done with: left to its owner, or not active any more. */
  predicate Handled(s: Store, kept: set<Id>, id: Id) { id in kept || AtLeast(s, id, 4) }

  /** One operation of `ids`, with what holds of the others. */
  method ReconcileNext(store: AuditStore, ids: seq<Id>, i: nat, kept: set<Id>, keep: (nat, Status) -> bool,
                       others: nat -> seq<Action>)
    returns (v: Verdict, now: set<Id>)
    requires store.Valid() && i < |ids|
    requires forall j :: 0 <= j < i ==> Handled(store.Now(), kept, ids[j])
    requires forall j :: i <= j < |ids| ==> AtLeast(store.Now(), ids[j], 2)
    modifies store
    ensures store.Valid() && old(store.log) <= store.log
    ensures v == Gone ==> ids[i] !in store.rows
    ensures v != Gone ==> forall j :: 0 <= j <= i ==> Handled(store.Now(), now, ids[j])
    ensures forall j :: i <= j < |ids| ==> AtLeast(store.Now(), ids[j], 2)
  {
    ghost var before, start := store.Now(), store.log;
    var verdict, _ := ReconcileOne(store, ids[i], keep, others);
    v := verdict;
    now := if v == Kept then kept + {ids[i]} else kept;
    LogForward(store.limits, start, store.log, before, store.Now());
  }

  /** `_reconcile_stale_jobs`: ends under any interference. Unless an operation vanished, which ends the
      call with an error, every operation that was active at the start is kept by its owner or no longer
      active, for good. */
  method ReconcileStaleJobs(store: AuditStore, keep: (Id, nat, Status) -> bool, others: (Id, nat) -> seq<Action>)
    returns (kept: set<Id>, error: bool)
    requires store.Valid()
    modifies store
    ensures store.Valid() && old(store.log) <= store.log
    ensures !error ==> forall id <- old(ActiveIds(store.rows)) :: Handled(store.Now(), kept, id)
    ensures error ==> exists id <- old(ActiveIds(store.rows)) :: id !in store.rows
  {
    kept := {};
    var ids := ListActive(store);
    RunKeeps(store.limits, EMPTY, store.log);
    forall j | 0 <= j < |ids|
      ensures AtLeast(store.Now(), ids[j], 2)
    {
      assert ids[j] in ActiveIds(store.rows);
    }
    for i := 0 to |ids|
      invariant store.Valid() && old(store.log) <= store.log
      invariant forall j :: 0 <= j < i ==> Handled(store.Now(), kept, ids[j])
      invariant forall j :: i <= j < |ids| ==> AtLeast(store.Now(), ids[j], 2)
    {
      var id, v := ids[i], Gone;
      v, kept := ReconcileNext(store, ids, i, kept, (n: nat, s: Status) => keep(id, n, s), (n: nat) => others(id, n));
      if v == Gone {
        return kept, true;
      }
    }
    error := false;
  }
}
