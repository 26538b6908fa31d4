/** `AuditStore` as the object it is: each method runs its SQL statements one after the other on the
    table, under the lock that serialises all of them. */
module AuditStore {
  import opened Wrappers
  import opened AuditLifecycle

  function Least(a: nat, b: nat): nat { if a < b then a else b }

  /** Terminal rows may be gone; all others are there, and what is there is as it was. */
  predicate OnlyDeletes(before: map<Id, Row>, after: map<Id, Row>) {
    && (forall id <- after :: id in before && after[id] == before[id])
    && forall id <- before :: !Terminal(before[id].status) ==> id in after
  }

  lemma DeletesMore(before: map<Id, Row>, middle: map<Id, Row>, gone: set<Id>)
    requires OnlyDeletes(before, middle) && gone <= TerminalIds(middle)
    ensures OnlyDeletes(before, middle - gone)
  {
  }

  lemma SetSplit(all: set<Id>, part: set<Id>)
    requires part <= all
    ensures |all - part| == |all| - |part|
  {
    assert all == (all - part) + part;
  }

  class AuditStore {
    const limits: Limits
    var rows: map<Id, Row>
    // Not columns: the identifiers that random generation has used up, and how an operation began.
    var used: set<Id>
    var direct: set<Id>
    ghost var log: seq<Action>

    ghost function Now(): Store
      reads this
    {
      Store(rows, used, direct)
    }

    /** The table is what the logged calls make of an empty one. */
    ghost predicate Valid()
      reads this
    {
      LegalRun(limits, EMPTY, log) && After(limits, EMPTY, log) == Now()
    }

    constructor (limits: Limits)
      ensures Valid() && this.limits == limits && Now() == EMPTY && log == []
    {
      this.limits := limits;
      rows, used, direct, log := map[], {}, {}, [];
    }

    /** The call that brought the table from `before` to what it is now enters the log. */
    ghost method Enter(a: Action, before: Store)
      requires LegalRun(limits, EMPTY, log) && After(limits, EMPTY, log) == before
      requires Legal(before, a) && Now() == Apply(limits, before, a)
      modifies this`log
      ensures Valid() && log == old(log) + [a]
    {
      RunSplits(limits, EMPTY, log, [a]);
      log := log + [a];
    }

    /** `_expire_one_locked`. */
    method ExpireOneLocked(id: Id, now: int)
      modifies this`rows
      ensures rows == ExpireOne(old(rows), id, now)
    {
      if id in rows && RequestDue(rows[id], now) {
        rows := rows[id := rows[id].(approval := ApprovalExpired, status := Expired)];
      }
    }

    method CreateOperation(id: Id, row: Row) returns (ok: bool)
      requires Valid() && Legal(Now(), Create(id, row))
      modifies this
      ensures Valid() && log == old(log) + [Create(id, row)]
      ensures ok <==> Succeeds(limits, old(Now()), Create(id, row))
      ensures Now() == Apply(limits, old(Now()), Create(id, row))
    {
      ghost var before := Now();
      RunKeeps(limits, EMPTY, log);
      ok := row.status.Queued? ==> HasCapacity(limits, rows);
      if ok {
        rows := rows[id := row];
        used := used + {id};
        if row.status.Running? {
          direct := direct + {id};
        }
      }
      Enter(Create(id, row), before);
    }

    method TransitionOperation(id: Id, from: set<Status>, next: Status, verdict: Option<Approval>) returns (ok: bool)
      requires Valid() && Legal(Now(), Transition(id, from, next, verdict))
      modifies this
      ensures Valid() && log == old(log) + [Transition(id, from, next, verdict)]
      ensures ok <==> id in old(rows) && old(rows[id].status) in from
      ensures Now() == Apply(limits, old(Now()), Transition(id, from, next, verdict))
    {
      ghost var before := Now();
      ok := id in rows && rows[id].status in from;
      if ok {
        var row := rows[id].(status := next);
        rows := rows[id := if verdict.Some? then row.(approval := verdict.value) else row];
      }
      Enter(Transition(id, from, next, verdict), before);
    }

    /** `update_operation` with a final status. */
    method UpdateOperation(id: Id, next: Status) returns (ok: bool)
      requires Valid() && Terminal(next)
      modifies this
      ensures Valid() && log == old(log) + [Finish(id, next)] && (ok <==> id in old(rows))
      ensures Now() == Apply(limits, old(Now()), Finish(id, next))
    {
      ghost var before := Now();
      ok := id in rows;
      if ok {
        rows := rows[id := rows[id].(status := next)];
      }
      Enter(Finish(id, next), before);
    }

    method ExpirePending(now: int) returns (count: nat)
      requires Valid()
      modifies this
      ensures Valid() && log == old(log) + [Action.ExpirePending(now)]
      ensures count == |set id | id in old(rows) && RequestDue(old(rows)[id], now)|
      ensures Now() == Apply(limits, old(Now()), Action.ExpirePending(now))
    {
      ghost var before := Now();
      var due := set id | id in rows && RequestDue(rows[id], now);
      rows := rows + map id | id in due :: rows[id].(approval := ApprovalExpired, status := Expired);
      count := |due|;
      assert rows == Apply(limits, before, Action.ExpirePending(now)).rows;
      Enter(Action.ExpirePending(now), before);
    }

    method DecideApproval(id: Id, approved: bool, now: int) returns (ok: bool)
      requires Valid()
      modifies this
      ensures Valid() && log == old(log) + [Decide(id, approved, now)]
      ensures ok <==> Decidable(old(rows), id, now)
      ensures Now() == Apply(limits, old(Now()), Decide(id, approved, now))
    {
      ghost var before := Now();
      ok := Decidable(rows, id, now);
      if ok {
        var expires := if approved then Some(now + limits.grantSeconds) else None;
        rows := rows[id := rows[id].(approval := if approved then ApprovalGranted else ApprovalRejected,
                                     status := if approved then Approved else Rejected, approvalExpires := expires)];
      } else {
        ExpireOneLocked(id, now);
      }
      Enter(Decide(id, approved, now), before);
    }

    method ApproveAndClaim(id: Id, expected: Option<Hash>, now: int) returns (ok: bool)
      requires Valid()
      modifies this
      ensures Valid() && log == old(log) + [Action.ApproveAndClaim(id, expected, now)]
      ensures ok <==> Succeeds(limits, old(Now()), Action.ApproveAndClaim(id, expected, now))
      ensures Now() == Apply(limits, old(Now()), Action.ApproveAndClaim(id, expected, now))
    {
      ghost var before := Now();
      ok := false;
      if HasCapacity(limits, rows) {
        ok := Decidable(rows, id, now) && HashMatches(rows[id], expected);
        if ok {
          rows := rows[id := rows[id].(approval := ApprovalGranted, status := Queued,
                                       approvalExpires := Some(now + limits.grantSeconds), claimedAt := Some(now))];
        } else {
          ExpireOneLocked(id, now);
        }
      }
      assert ok == Succeeds(limits, before, Action.ApproveAndClaim(id, expected, now));
      Enter(Action.ApproveAndClaim(id, expected, now), before);
    }

    method ClaimApproved(id: Id, now: int) returns (ok: bool)
      requires Valid()
      modifies this
      ensures Valid() && log == old(log) + [Action.ClaimApproved(id, now)]
      ensures ok <==> Succeeds(limits, old(Now()), Action.ClaimApproved(id, now))
      ensures Now() == Apply(limits, old(Now()), Action.ClaimApproved(id, now))
    {
      ghost var before := Now();
      ok := false;
      if HasCapacity(limits, rows) {
        ok := Claimable(rows, id, now);
        if ok {
          rows := rows[id := rows[id].(status := Queued, claimedAt := Some(now))];
        } else if id in rows && rows[id].approval.ApprovalGranted? && rows[id].status.Approved?
                  && Due(rows[id].approvalExpires, now) {
          rows := rows[id := rows[id].(approval := ApprovalExpired, status := Expired)];
        }
      }
      Enter(Action.ClaimApproved(id, now), before);
    }

    /** The database half of `_reconcile_workspace_transactions`. */
    method ReconcileTransaction(id: Id, applied: bool)
      requires Valid()
      modifies this
      ensures Valid() && log == old(log) + [Reconcile(id, applied)]
      ensures Now() == Apply(limits, old(Now()), Reconcile(id, applied))
    {
      ghost var before := Now();
      if id in rows {
        rows := rows[id := rows[id].(status := if applied then Succeeded else Interrupted)];
      }
      Enter(Reconcile(id, applied), before);
    }

    /** The oldest of `left`. */
    method Oldest(left: set<Id>, age: Id -> int) returns (id: Id)
      requires left != {}
      ensures id in left && forall other <- left :: age(id) <= age(other)
    {
      id :| id in left;
      var rest := left - {id};
      while rest != {}
        invariant id in left && rest <= left
        invariant forall other <- left - rest :: age(id) <= age(other)
        decreases rest
      {
        var other :| other in rest;
        if age(other) < age(id) {
          id := other;
        }
        rest := rest - {other};
      }
    }

    /** Of the terminal rows, the oldest: all beyond `keep` of them, but no more than `most`. */
    method OldestTerminal(keep: nat, most: nat, age: Id -> int) returns (gone: set<Id>)
      ensures gone <= TerminalIds(rows)
      ensures |gone| == Least(most, if |TerminalIds(rows)| > keep then |TerminalIds(rows)| - keep else 0)
      ensures forall dropped <- gone, kept <- TerminalIds(rows) - gone :: age(dropped) <= age(kept)
    {
      var all := TerminalIds(rows);
      var left := all;
      gone := {};
      while |left| > keep && |gone| < most
        invariant gone <= all && left == all - gone && |left| + |gone| == |all| && |gone| <= most
        invariant forall dropped <- gone, kept <- left :: age(dropped) <= age(kept)
        invariant gone == {} || |left| >= keep
        decreases |left|
      {
        var id := Oldest(left, age);
        gone, left := gone + {id}, left - {id};
      }
    }

    /** Of the terminal rows beyond the retained number, the oldest. */
    method StaleRows() returns (gone: set<Id>)
      ensures Prunable(limits, rows, gone)
    {
      var table, all := rows, TerminalIds(rows);
      var age := (id: Id) => if id in table then table[id].created else 0;
      gone := OldestTerminal(limits.retained, |all|, age);
      SetSplit(all, gone);
      forall dropped, kept | dropped in gone && kept in all - gone
        ensures rows[dropped].created <= rows[kept].created
      {
        assert age(dropped) <= age(kept);
      }
    }

    /** `_prune_database`. */
    method PruneDatabase() returns (gone: set<Id>)
      requires Valid()
      modifies this
      ensures Valid() && log == old(log) + [Prune(gone)] && Prunable(limits, old(rows), gone)
      ensures rows == old(rows) - gone && used == old(used) && direct == old(direct)
    {
      gone := StaleRows();
      DeleteRows(gone);
    }

    method DeleteRows(gone: set<Id>)
      requires Valid() && gone <= TerminalIds(rows)
      modifies this
      ensures Valid() && log == old(log) + [Prune(gone)]
      ensures rows == old(rows) - gone && used == old(used) && direct == old(direct)
    {
      ghost var before := Now();
      rows := rows - gone;
      Enter(Prune(gone), before);
    }

    /** Behind `n` deletions since the table was `rows0` and the log `log0`. */
    ghost predicate Shrunk(rows0: map<Id, Row>, log0: seq<Action>, n: nat)
      reads this
    {
      && OnlyDeletes(rows0, rows) && log0 <= log && |log| == |log0| + n
      && forall i :: |log0| <= i < |log| ==> log[i].Prune?
    }

    method FreeBeyondRetained()
      requires Valid()
      modifies this
      ensures Valid() && used == old(used) && direct == old(direct) && Shrunk(old(rows), old(log), 1)
    {
      var gone := PruneDatabase();
      DeletesMore(old(rows), old(rows), gone);
    }

    /** The hundred oldest terminal rows, if there are any. */
    method FreeStorage(age: Id -> int, ghost rows0: map<Id, Row>, ghost log0: seq<Action>, ghost n: nat)
      returns (freed: bool)
      requires Valid() && Shrunk(rows0, log0, n)
      modifies this
      ensures Valid() && used == old(used) && direct == old(direct)
      ensures freed <==> TerminalIds(old(rows)) != {}
      ensures if freed then Shrunk(rows0, log0, n + 1) else rows == old(rows) && log == old(log)
    {
      var gone := OldestTerminal(0, 100, age);
      if gone == {} {
        return false;
      }
      DeletesMore(rows0, rows, gone);
      DeleteRows(gone);
      freed := true;
    }

    /** `_ensure_audit_capacity`, in front of every call that stores something. `within` tells for each look
        whether the storage is within its budget, and `age` when an operation ended. First the rows beyond
        the retained number go, then up to twenty times the hundred oldest; rows that are not terminal are
        never touched. Behind a round that finds nothing to delete there is one more look. It fails only
        where no look found room, and then nothing terminal is left or all rounds were made. */
    method EnsureAuditCapacity(age: Id -> int, within: nat -> bool) returns (ok: bool, looks: nat, rounds: nat)
      requires Valid()
      modifies this
      ensures Valid() && used == old(used) && direct == old(direct) && Shrunk(old(rows), old(log), rounds)
      ensures rounds <= looks <= 21 && (rounds < looks ==> looks == rounds + 1 && TerminalIds(rows) == {})
      ensures (ok <==> within(looks)) && forall k :: 0 <= k < looks ==> !within(k)
      ensures !ok ==> rounds == 21 || TerminalIds(rows) == {}
    {
      looks, rounds := 0, 0;
      if within(0) {
        return true, looks, rounds;
      }
      ghost var rows0, log0 := rows, log;
      FreeBeyondRetained();
      looks, rounds := 1, 1;
      var freed := true;
      while freed && rounds <= 20
        invariant 1 <= rounds <= 21 && looks == (if freed then rounds else rounds + 1)
        invariant looks <= 21 && forall k :: 0 <= k < looks ==> !within(k)
        invariant !freed ==> TerminalIds(rows) == {}
        invariant Valid() && used == old(used) && direct == old(direct) && Shrunk(rows0, log0, rounds)
        decreases freed, 21 - rounds
      {
        if within(looks) {
          return true, looks, rounds;
        }
        looks := looks + 1;
        freed := FreeStorage(age, rows0, log0, rounds);
        if freed {
          rounds := rounds + 1;
        }
      }
      ok := within(looks);
    }

    /** `a` on the table that the deletions have left. */
    ghost predicate AppliedBehind(rows0: map<Id, Row>, used0: set<Id>, direct0: set<Id>, a: Action, ok: bool,
                                  middle: map<Id, Row>)
      reads this
    {
      var s := Store(middle, used0, direct0);
      OnlyDeletes(rows0, middle) && Now() == Apply(limits, s, a) && (ok <==> Succeeds(limits, s, a))
    }

    /** `create_operation`, `transition_operation` and `update_operation` with the look at the storage in
        front: where there is room, or deletions of terminal rows make room, the call takes effect on what
        they have left; where there is none it has no effect beside them. */
    method StoreWithin(a: Action, age: Id -> int, within: nat -> bool) returns (room: bool, ok: bool, looks: nat)
      requires Valid() && Legal(Now(), a) && (a.Create? || a.Transition? || a.Finish?)
      modifies this
      ensures Valid() && looks <= 21 && (room <==> within(looks)) && forall k :: 0 <= k < looks ==> !within(k)
      ensures !room ==> !ok && OnlyDeletes(old(rows), rows) && used == old(used) && direct == old(direct)
      ensures room ==> exists middle :: AppliedBehind(old(rows), old(used), old(direct), a, ok, middle)
    {
      var rounds;
      room, looks, rounds := EnsureAuditCapacity(age, within);
      ok := false;
      if room {
        ghost var middle := rows;
        match a {
          case Create(id, row) => ok := CreateOperation(id, row);
          case Transition(id, from, next, verdict) => ok := TransitionOperation(id, from, next, verdict);
          case Finish(id, next) => ok := UpdateOperation(id, next);
        }
        assert AppliedBehind(old(rows), old(used), old(direct), a, ok, middle);
      }
    }

    /** Any other process's call. */
    method Perform(a: Action)
      requires Valid() && Legal(Now(), a)
      modifies this
      ensures Valid() && log == old(log) + [a] && Forward(old(Now()), Now())
    {
      RunKeeps(limits, EMPTY, log);
      StepKeeps(limits, Now(), a);
      match a {
        case Create(id, row) => var _ := CreateOperation(id, row);
        case Transition(id, from, next, verdict) => var _ := TransitionOperation(id, from, next, verdict);
        case Finish(id, next) => var _ := UpdateOperation(id, next);
        case ExpirePending(now) => var _ := ExpirePending(now);
        case Decide(id, approved, now) => var _ := DecideApproval(id, approved, now);
        case ApproveAndClaim(id, expected, now) => var _ := ApproveAndClaim(id, expected, now);
        case ClaimApproved(id, now) => var _ := ClaimApproved(id, now);
        case Reconcile(id, applied) => ReconcileTransaction(id, applied);
        case Prune(gone) => DeleteRows(gone);
      }
    }
  }
}
