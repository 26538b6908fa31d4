/** The life of an audited operation: creation, approval, the one execution grant, the worker's
    transitions, expiry, reconciliation and pruning, as steps on the table of operations. */
module AuditLifecycle {
  import opened Wrappers

  type Id = string
  type Hash = string

  datatype Status =
    | PendingApproval | Approved | Queued | Running | Committing
    | Succeeded | Failed | Cancelled | TimedOut | Rejected | Expired | Interrupted | Conflict

  /** `approval_status`; most operations have none. */
  datatype Approval = NoApproval | ApprovalPending | ApprovalGranted | ApprovalRejected | ApprovalExpired

  /** The columns the lifecycle reads or writes; an absent value is SQL's NULL. */
  datatype Row = Row(created: int, status: Status, approval: Approval, requestHash: Option<Hash>,
                     requestExpires: Option<int>, approvalExpires: Option<int>, claimedAt: Option<int>)

  /** `max_concurrent_jobs`, `approval_execution_ttl_seconds` and `retention_max_operations`. */
  datatype Limits = Limits(jobs: nat, grantSeconds: nat, retained: nat)

  /** The table, and what no table remembers: all identifiers ever used, and those of the operations
      that began directly as running. */
  datatype Store = Store(rows: map<Id, Row>, used: set<Id>, direct: set<Id>)

  const EMPTY := Store(map[], {}, {})

  predicate Terminal(s: Status) {
    || s.Succeeded? || s.Failed? || s.Cancelled? || s.TimedOut?
    || s.Rejected? || s.Expired? || s.Interrupted? || s.Conflict?
  }

  predicate Active(s: Status) { s == Queued || s == Running }

  /** How far the lifecycle has come. */
  function Rank(s: Status): nat {
    match s
    case PendingApproval => 0
    case Approved => 1
    case Queued => 2
    case Running => 3
    case Committing => 4
    case _ => 5
  }

  /** Comparisons with NULL are never true. */
  predicate Later(t: Option<int>, now: int) { t.Some? && t.value > now }
  predicate Due(t: Option<int>, now: int) { t.Some? && t.value <= now }

  function ActiveIds(rows: map<Id, Row>): set<Id> {
    set id | id in rows && Active(rows[id].status)
  }

  function TerminalIds(rows: map<Id, Row>): set<Id> {
    set id | id in rows && Terminal(rows[id].status)
  }

  /** `_ensure_job_capacity`. */
  predicate HasCapacity(cfg: Limits, rows: map<Id, Row>) { |ActiveIds(rows)| < cfg.jobs }

  // ---- The statements ----

  datatype Action =
    | Create(id: Id, row: Row)
    | Transition(id: Id, from: set<Status>, next: Status, verdict: Option<Approval>)
    | Finish(id: Id, next: Status)
    | ExpirePending(now: int)
    | Decide(id: Id, approved: bool, now: int)
    | ApproveAndClaim(id: Id, expected: Option<Hash>, now: int)
    | ClaimApproved(id: Id, now: int)
    | Reconcile(id: Id, applied: bool)
    | Prune(gone: set<Id>)

  /** `approval_status = 'pending' AND request_expires_at <= now`. */
  predicate RequestDue(r: Row, now: int) { r.approval.ApprovalPending? && Due(r.requestExpires, now) }

  function ExpiredRow(r: Row): Row { r.(approval := ApprovalExpired, status := Expired) }

  function ExpireOne(rows: map<Id, Row>, id: Id, now: int): map<Id, Row> {
    if id in rows && RequestDue(rows[id], now) then rows[id := ExpiredRow(rows[id])] else rows
  }

  /** The request still awaits its decision. */
  predicate Decidable(rows: map<Id, Row>, id: Id, now: int) {
    && id in rows && rows[id].approval.ApprovalPending? && rows[id].status.PendingApproval?
    && Later(rows[id].requestExpires, now)
  }

  predicate HashMatches(r: Row, expected: Option<Hash>) { expected.Some? ==> r.requestHash == expected }

  /** The grant is there, unexpired and unclaimed. */
  predicate Claimable(rows: map<Id, Row>, id: Id, now: int) {
    && id in rows && rows[id].approval.ApprovalGranted? && rows[id].status.Approved?
    && Later(rows[id].approvalExpires, now) && rows[id].claimedAt.None?
  }

  /** The pairs of source and target statuses that the callers pass to `transition_operation`. */
  predicate CallersUse(from: set<Status>, next: Status) {
    || (from == {Queued} && Active(next))
    || (from == {Running} && next == Committing)
    || (from != {} && (forall s <- from :: !Terminal(s)) && Terminal(next))
    || (from == {Running, Succeeded} && next == Failed)
  }

  /** What callers may ask for: fresh identifiers (random UUIDs), a pending approval exactly on a request
      that waits for one, the transitions above, and the deletion of terminal rows, which ever they are. */
  predicate Legal(s: Store, a: Action) {
    match a
    case Create(id, row) =>
      && id !in s.used && row.claimedAt.None? && row.approvalExpires.None?
      && !row.status.Approved? && !row.status.Committing?
      && row.approval == (if row.status.PendingApproval? then ApprovalPending else NoApproval)
    case Transition(_, from, next, verdict) =>
      CallersUse(from, next) && (verdict.Some? ==> verdict.value.ApprovalRejected? && Terminal(next))
    case Finish(_, next) => Terminal(next)
    case Prune(gone) => gone <= TerminalIds(s.rows)
    case _ => true
  }

  /** `_prune_database`: the newest `retained` terminal rows stay, and everything that is not terminal. */
  predicate Prunable(cfg: Limits, rows: map<Id, Row>, gone: set<Id>) {
    && gone <= TerminalIds(rows)
    && |TerminalIds(rows) - gone| == (if |TerminalIds(rows)| < cfg.retained then |TerminalIds(rows)| else cfg.retained)
    && forall dropped <- gone, kept <- TerminalIds(rows) - gone :: rows[dropped].created <= rows[kept].created
  }

  /** Whether the call returns normally, with the effect it is named after. */
  predicate Succeeds(cfg: Limits, s: Store, a: Action) {
    match a
    case Create(id, row) => id !in s.rows && (row.status.Queued? ==> HasCapacity(cfg, s.rows))
    case Transition(id, from, _, _) => id in s.rows && s.rows[id].status in from
    case Finish(id, _) => id in s.rows
    case ExpirePending(_) => true
    case Decide(id, _, now) => Decidable(s.rows, id, now)
    case ApproveAndClaim(id, expected, now) =>
      HasCapacity(cfg, s.rows) && Decidable(s.rows, id, now) && HashMatches(s.rows[id], expected)
    case ClaimApproved(id, now) => HasCapacity(cfg, s.rows) && Claimable(s.rows, id, now)
    case Reconcile(id, _) => id in s.rows
    case Prune(_) => true
  }

  /** The row as the successful statement leaves it. */
  function Updated(cfg: Limits, r: Row, a: Action): Row {
    match a
    case Transition(_, _, next, verdict) =>
      r.(status := next, approval := if verdict.Some? then verdict.value else r.approval)
    case Finish(_, next) => r.(status := next)
    case Decide(_, approved, now) =>
      r.(approval := if approved then ApprovalGranted else ApprovalRejected,
         status := if approved then Approved else Rejected,
         approvalExpires := if approved then Some(now + cfg.grantSeconds) else None)
    case ApproveAndClaim(_, _, now) =>
      r.(approval := ApprovalGranted, status := Queued, approvalExpires := Some(now + cfg.grantSeconds),
         claimedAt := Some(now))
    case ClaimApproved(_, now) => r.(status := Queued, claimedAt := Some(now))
    case Reconcile(_, applied) => r.(status := if applied then Succeeded else Interrupted)
    case _ => r
  }

  /** What a refused call leaves behind: an expiry that it found on the way is committed, except that
      without a free slot the whole transaction is rolled back. */
  function Refused(cfg: Limits, rows: map<Id, Row>, a: Action): map<Id, Row> {
    match a
    case Decide(id, _, now) => ExpireOne(rows, id, now)
    case ApproveAndClaim(id, _, now) => if HasCapacity(cfg, rows) then ExpireOne(rows, id, now) else rows
    case ClaimApproved(id, now) =>
      if HasCapacity(cfg, rows) && id in rows && rows[id].approval.ApprovalGranted? && rows[id].status.Approved?
         && Due(rows[id].approvalExpires, now)
      then rows[id := ExpiredRow(rows[id])]
      else rows
    case _ => rows
  }

  function Apply(cfg: Limits, s: Store, a: Action): Store {
    if !Succeeds(cfg, s, a) then s.(rows := Refused(cfg, s.rows, a))
    else
      match a
      case Create(id, row) =>
        Store(s.rows[id := row], s.used + {id}, if row.status.Running? then s.direct + {id} else s.direct)
      case ExpirePending(now) =>
        s.(rows := map id | id in s.rows :: if RequestDue(s.rows[id], now) then ExpiredRow(s.rows[id]) else s.rows[id])
      case Prune(gone) => s.(rows := s.rows - gone)
      case _ => s.(rows := s.rows[a.id := Updated(cfg, s.rows[a.id], a)])
  }

  ghost predicate LegalRun(cfg: Limits, s: Store, actions: seq<Action>)
    decreases |actions|
  {
    actions == [] || (Legal(s, actions[0]) && LegalRun(cfg, Apply(cfg, s, actions[0]), actions[1..]))
  }

  function After(cfg: Limits, s: Store, actions: seq<Action>): Store
    decreases |actions|
  {
    if actions == [] then s else After(cfg, Apply(cfg, s, actions[0]), actions[1..])
  }

  lemma {:induction false} RunSplits(cfg: Limits, s: Store, first: seq<Action>, rest: seq<Action>)
    ensures After(cfg, s, first + rest) == After(cfg, After(cfg, s, first), rest)
    ensures LegalRun(cfg, s, first + rest) <==> LegalRun(cfg, s, first) && LegalRun(cfg, After(cfg, s, first), rest)
    decreases |first|
  {
    if first == [] {
      assert first + rest == rest;
    } else {
      assert (first + rest)[1..] == first[1..] + rest;
      RunSplits(cfg, Apply(cfg, s, first[0]), first[1..], rest);
    }
  }

  // ---- Forward only ----

  /** No operation moves backwards from `s` to `t`, and none that `s` has seen is created again. */
  ghost predicate Forward(s: Store, t: Store) {
    && s.used <= t.used
    && (forall id :: id in t.rows && id in s.used ==>
          id in s.rows && Rank(s.rows[id].status) <= Rank(t.rows[id].status))
  }

  ghost predicate Inv(s: Store) {
    && s.rows.Keys <= s.used
    && forall id <- s.rows :: RowInv(s.rows[id])
  }

  predicate RowInv(r: Row) {
    && (r.approval.ApprovalPending? ==> r.status.PendingApproval? || Terminal(r.status))
    && (r.status.PendingApproval? ==> r.approval.ApprovalPending?)
    && (r.status.Approved? ==> r.approval.ApprovalGranted? && r.approvalExpires.Some?)
    && (Rank(r.status) < 2 ==> r.claimedAt.None?)
  }

  /** One step does one of four things to a row that it leaves: nothing, expiry, the update of its own
      statement, or creation. */
  lemma RowStep(cfg: Limits, s: Store, a: Action, id: Id)
    requires id in Apply(cfg, s, a).rows
    ensures var row := Apply(cfg, s, a).rows[id];
            if id !in s.rows then Succeeds(cfg, s, a) && a == Create(id, row)
            else || row == s.rows[id]
                 || row == ExpiredRow(s.rows[id])
                 || (OnRow(a) && Succeeds(cfg, s, a) && a.id == id && row == Updated(cfg, s.rows[id], a))
    ensures Apply(cfg, s, a).used == if a.Create? && Succeeds(cfg, s, a) then s.used + {a.id} else s.used
  {
  }

  predicate OnRow(a: Action) { !a.Create? && !a.ExpirePending? && !a.Prune? }

  lemma UpdateKeeps(cfg: Limits, s: Store, a: Action)
    requires OnRow(a) && Legal(s, a) && Succeeds(cfg, s, a) && RowInv(s.rows[a.id])
    ensures RowInv(Updated(cfg, s.rows[a.id], a))
          && Rank(s.rows[a.id].status) <= Rank(Updated(cfg, s.rows[a.id], a).status)
  {
  }

  lemma RowKeeps(cfg: Limits, s: Store, a: Action, id: Id)
    requires Inv(s) && Legal(s, a) && id in Apply(cfg, s, a).rows
    ensures id in Apply(cfg, s, a).used && RowInv(Apply(cfg, s, a).rows[id])
    ensures id in s.used ==> id in s.rows && Rank(s.rows[id].status) <= Rank(Apply(cfg, s, a).rows[id].status)
  {
    RowStep(cfg, s, a, id);
    if id in s.rows {
      assert RowInv(s.rows[id]);
      if OnRow(a) && Succeeds(cfg, s, a) && a.id == id {
        UpdateKeeps(cfg, s, a);
      }
    }
  }

  lemma UsedGrows(cfg: Limits, s: Store, a: Action)
    ensures s.used <= Apply(cfg, s, a).used
  {
  }

  lemma StepKeeps(cfg: Limits, s: Store, a: Action)
    requires Inv(s) && Legal(s, a)
    ensures Inv(Apply(cfg, s, a)) && Forward(s, Apply(cfg, s, a))
  {
    UsedGrows(cfg, s, a);
    forall id | id in Apply(cfg, s, a).rows
      ensures id in Apply(cfg, s, a).used && RowInv(Apply(cfg, s, a).rows[id])
      ensures id in s.used ==> id in s.rows && Rank(s.rows[id].status) <= Rank(Apply(cfg, s, a).rows[id].status)
    {
      RowKeeps(cfg, s, a, id);
    }
  }

  lemma {:induction false} RunKeeps(cfg: Limits, s: Store, actions: seq<Action>)
    requires Inv(s) && LegalRun(cfg, s, actions)
    ensures Inv(After(cfg, s, actions)) && Forward(s, After(cfg, s, actions))
    decreases |actions|
  {
    if actions != [] {
      StepKeeps(cfg, s, actions[0]);
      RunKeeps(cfg, Apply(cfg, s, actions[0]), actions[1..]);
    }
  }

  /** A terminal operation never becomes anything else but terminal, whatever run follows. */
  lemma TerminalStaysTerminal(cfg: Limits, s: Store, actions: seq<Action>, id: Id)
    requires Inv(s) && LegalRun(cfg, s, actions)
    requires id in s.rows && Terminal(s.rows[id].status) && id in After(cfg, s, actions).rows
    ensures Terminal(After(cfg, s, actions).rows[id].status)
  {
    RunKeeps(cfg, s, actions);
  }

  // ---- The one grant ----

  /** The call that succeeds here consumes the grant of `id`. */
  predicate Claims(cfg: Limits, s: Store, a: Action, id: Id) {
    (a.ApproveAndClaim? || a.ClaimApproved?) && a.id == id && Succeeds(cfg, s, a)
  }

  /** The grant of one operation is consumed at most once: behind a claim, no run leads to another. */
  lemma ClaimedAtMostOnce(cfg: Limits, s: Store, a: Action, actions: seq<Action>, again: Action, id: Id)
    requires Inv(s) && Claims(cfg, s, a, id) && LegalRun(cfg, Apply(cfg, s, a), actions)
    ensures !Claims(cfg, After(cfg, Apply(cfg, s, a), actions), again, id)
  {
    StepKeeps(cfg, s, a);
    ClaimedIsQueued(cfg, s, a, id);
    SpentForGood(cfg, Apply(cfg, s, a), actions, again, id);
  }

  lemma ClaimedIsQueued(cfg: Limits, s: Store, a: Action, id: Id)
    requires Claims(cfg, s, a, id)
    ensures id in Apply(cfg, s, a).rows && Apply(cfg, s, a).rows[id].status.Queued?
  {
  }

  lemma SpentForGood(cfg: Limits, s: Store, actions: seq<Action>, again: Action, id: Id)
    requires Inv(s) && LegalRun(cfg, s, actions) && id in s.rows && Rank(s.rows[id].status) >= 2
    ensures !Claims(cfg, After(cfg, s, actions), again, id)
  {
    RunKeeps(cfg, s, actions);
  }

  // ---- Where a grant comes from ----

  /** Step `k` created `id` with the request hash and deadline that `row` still has. */
  predicate CreatedAt(actions: seq<Action>, k: nat, id: Id, row: Row) {
    && k < |actions| && actions[k].Create? && actions[k].id == id
    && actions[k].row.requestHash == row.requestHash && actions[k].row.requestExpires == row.requestExpires
  }

  /** Step `i` approved the operation of `row` before its deadline, and its grant ends when `row` says. */
  predicate ApprovedAt(cfg: Limits, actions: seq<Action>, i: nat, id: Id, row: Row) {
    && i < |actions| && actions[i].Decide? && actions[i].id == id && actions[i].approved
    && Later(row.requestExpires, actions[i].now) && row.approvalExpires == Some(actions[i].now + cfg.grantSeconds)
    && Succeeds(cfg, After(cfg, EMPTY, actions[..i]), actions[i])
  }

  ghost predicate Sourced(cfg: Limits, actions: seq<Action>, id: Id, row: Row) {
    && (exists k: nat :: CreatedAt(actions, k, id, row))
    && (row.status.Approved? ==> exists i: nat :: ApprovedAt(cfg, actions, i, id, row))
  }

  /** A row that keeps its request and, while approved, its grant keeps its sources as the run goes on. */
  lemma SourcesLast(cfg: Limits, actions: seq<Action>, a: Action, id: Id, was: Row, row: Row)
    requires Sourced(cfg, actions, id, was)
    requires was.requestHash == row.requestHash && was.requestExpires == row.requestExpires
    requires row.status.Approved? ==> was.status.Approved? && was.approvalExpires == row.approvalExpires
    ensures Sourced(cfg, actions + [a], id, row)
  {
    var all := actions + [a];
    var k: nat :| CreatedAt(actions, k, id, was);
    assert CreatedAt(all, k, id, row);
    if row.status.Approved? {
      var i: nat :| ApprovedAt(cfg, actions, i, id, was);
      assert all[..i] == actions[..i];
      assert ApprovedAt(cfg, all, i, id, row);
    }
  }

  lemma {:induction false} EveryRowSourced(cfg: Limits, actions: seq<Action>)
    requires LegalRun(cfg, EMPTY, actions)
    ensures forall id <- After(cfg, EMPTY, actions).rows ::
              Sourced(cfg, actions, id, After(cfg, EMPTY, actions).rows[id])
    decreases |actions|
  {
    if actions != [] {
      var n := |actions| - 1;
      var first, a := actions[..n], actions[n];
      assert actions == first + [a];
      RunSplits(cfg, EMPTY, first, [a]);
      EveryRowSourced(cfg, first);
      RunKeeps(cfg, EMPTY, first);
      var s := After(cfg, EMPTY, first);
      var t := Apply(cfg, s, a);
      assert After(cfg, s, [a]) == t;
      forall id | id in t.rows
        ensures Sourced(cfg, actions, id, t.rows[id])
      {
        StepSources(cfg, first, s, a, id);
      }
    }
  }

  lemma ApprovalIsSource(cfg: Limits, actions: seq<Action>, a: Action, was: Row)
    requires a.Decide? && a.approved && Succeeds(cfg, After(cfg, EMPTY, actions), a)
    requires was == After(cfg, EMPTY, actions).rows[a.id] && Sourced(cfg, actions, a.id, was)
    ensures Sourced(cfg, actions + [a], a.id, Updated(cfg, was, a))
  {
    var all, row := actions + [a], Updated(cfg, was, a);
    var k: nat :| CreatedAt(actions, k, a.id, was);
    assert CreatedAt(all, k, a.id, row);
    assert all[..|actions|] == actions;
    assert ApprovedAt(cfg, all, |actions|, a.id, row);
  }

  lemma StepSources(cfg: Limits, actions: seq<Action>, s: Store, a: Action, id: Id)
    requires s == After(cfg, EMPTY, actions) && Inv(s) && Legal(s, a)
    requires id in s.rows ==> Sourced(cfg, actions, id, s.rows[id])
    requires id in Apply(cfg, s, a).rows
    ensures Sourced(cfg, actions + [a], id, Apply(cfg, s, a).rows[id])
  {
    var row := Apply(cfg, s, a).rows[id];
    RowStep(cfg, s, a, id);
    if id !in s.rows {
      assert CreatedAt(actions + [a], |actions|, id, row);
    } else if a.Decide? && a.approved && OnRow(a) && Succeeds(cfg, s, a) && a.id == id {
      ApprovalIsSource(cfg, actions, a, s.rows[id]);
    } else {
      assert RowInv(s.rows[id]);
      SourcesLast(cfg, actions, a, id, s.rows[id], row);
    }
  }

  /** Whoever consumes a grant does so before it ends: the request was created in this run; claimed
      together with its approval, its deadline has not passed and its hash is the one the approver saw;
      claimed afterwards, an earlier successful approval, itself within the deadline, granted it and the
      grant's time is not up. */
  lemma ClaimIsAuthorised(cfg: Limits, actions: seq<Action>, a: Action, id: Id)
    requires LegalRun(cfg, EMPTY, actions) && Claims(cfg, After(cfg, EMPTY, actions), a, id)
    ensures exists k: nat :: && k < |actions| && actions[k].Create? && actions[k].id == id
                        && (a.ApproveAndClaim? ==>
                              && Later(actions[k].row.requestExpires, a.now)
                              && (a.expected.Some? ==> actions[k].row.requestHash == a.expected))
                        && (a.ClaimApproved? ==> GrantedWithin(cfg, actions, id, actions[k].row.requestExpires, a.now))
  {
    EveryRowSourced(cfg, actions);
    var row := After(cfg, EMPTY, actions).rows[id];
    assert Sourced(cfg, actions, id, row);
    var k: nat :| CreatedAt(actions, k, id, row);
    if a.ClaimApproved? {
      var i: nat :| ApprovedAt(cfg, actions, i, id, row);
      assert Grants(cfg, actions, i, id, row.requestExpires, a.now);
    }
  }

  predicate Grants(cfg: Limits, actions: seq<Action>, i: nat, id: Id, deadline: Option<int>, now: int) {
    && i < |actions| && actions[i].Decide? && actions[i].id == id && actions[i].approved
    && Succeeds(cfg, After(cfg, EMPTY, actions[..i]), actions[i])
    && Later(deadline, actions[i].now) && now < actions[i].now + cfg.grantSeconds
  }

  ghost predicate GrantedWithin(cfg: Limits, actions: seq<Action>, id: Id, deadline: Option<int>, now: int) {
    exists i: nat :: Grants(cfg, actions, i, id, deadline, now)
  }

  /** In a reachable table the test of `claimed_at` decides nothing: an operation that is still approved
      has never been claimed, so its grant is consumed exactly when it is unexpired and a slot is free. */
  lemma ClaimSucceedsWhen(cfg: Limits, actions: seq<Action>, id: Id, now: int)
    requires LegalRun(cfg, EMPTY, actions)
    ensures var s := After(cfg, EMPTY, actions);
            Succeeds(cfg, s, ClaimApproved(id, now)) <==>
              && HasCapacity(cfg, s.rows) && id in s.rows
              && s.rows[id].status.Approved? && Later(s.rows[id].approvalExpires, now)
  {
    RunKeeps(cfg, EMPTY, actions);
    var s := After(cfg, EMPTY, actions);
    assert id in s.rows ==> RowInv(s.rows[id]);
  }

  // ---- The job limit ----

  /** Operations that hold one of the admitted slots: active, and not created directly as running. */
  function Admitted(s: Store): set<Id> {
    set id | id in s.rows && Active(s.rows[id].status) && id !in s.direct
  }

  /** Only a statement that found a free slot admits an operation, and it admits no other. */
  lemma AdmissionNeedsSlot(cfg: Limits, s: Store, a: Action, id: Id)
    requires Inv(s) && Legal(s, a) && id in Admitted(Apply(cfg, s, a)) && id !in Admitted(s)
    ensures HasCapacity(cfg, s.rows) && !a.ExpirePending? && !a.Prune? && a.id == id
  {
    RowStep(cfg, s, a, id);
    if id in s.rows {
      assert RowInv(s.rows[id]);
      assert OnRow(a) && a.id == id && Succeeds(cfg, s, a);
    }
  }

  lemma DirectGrows(cfg: Limits, s: Store, a: Action)
    requires s.direct <= s.used
    ensures s.direct <= Apply(cfg, s, a).direct <= Apply(cfg, s, a).used
  {
  }

  lemma StepKeepsLimit(cfg: Limits, s: Store, a: Action)
    requires Inv(s) && s.direct <= s.used && Legal(s, a) && |Admitted(s)| <= cfg.jobs
    ensures |Admitted(Apply(cfg, s, a))| <= cfg.jobs
  {
    var before, after := Admitted(s), Admitted(Apply(cfg, s, a));
    if after <= before {
      SubsetSize(after, before);
    } else {
      var id :| id in after && id !in before;
      AdmissionNeedsSlot(cfg, s, a, id);
      forall other | other in after && other !in before
        ensures other == id
      {
        AdmissionNeedsSlot(cfg, s, a, other);
      }
      SubsetSize(before, ActiveIds(s.rows));
      SubsetSize(after, before + {id});
    }
  }

  lemma {:induction false} SubsetSize<T>(a: set<T>, b: set<T>)
    requires a <= b
    ensures |a| <= |b|
    decreases |a|
  {
    if a != {} {
      var x :| x in a;
      SubsetSize(a - {x}, b - {x});
    }
  }

  lemma {:induction false} RunKeepsLimit(cfg: Limits, s: Store, actions: seq<Action>)
    requires Inv(s) && s.direct <= s.used && LegalRun(cfg, s, actions) && |Admitted(s)| <= cfg.jobs
    ensures |Admitted(After(cfg, s, actions))| <= cfg.jobs
    decreases |actions|
  {
    if actions != [] {
      StepKeeps(cfg, s, actions[0]);
      StepKeepsLimit(cfg, s, actions[0]);
      DirectGrows(cfg, s, actions[0]);
      RunKeepsLimit(cfg, Apply(cfg, s, actions[0]), actions[1..]);
    }
  }

  /** Leaving out the operations created directly as running, at most `max_concurrent_jobs` are ever
      queued or running. When nothing is created as running, none are left out. */
  lemma JobLimitHolds(cfg: Limits, actions: seq<Action>)
    requires LegalRun(cfg, EMPTY, actions)
    ensures |Admitted(After(cfg, EMPTY, actions))| <= cfg.jobs
    ensures (forall a <- actions :: a.Create? ==> !a.row.status.Running?) ==>
              |ActiveIds(After(cfg, EMPTY, actions).rows)| <= cfg.jobs
  {
    assert Admitted(EMPTY) == {};
    RunKeepsLimit(cfg, EMPTY, actions);
    if forall a <- actions :: a.Create? ==> !a.row.status.Running? {
      NothingDirect(cfg, EMPTY, actions);
      assert ActiveIds(After(cfg, EMPTY, actions).rows) == Admitted(After(cfg, EMPTY, actions));
    }
  }

  lemma {:induction false} NothingDirect(cfg: Limits, s: Store, actions: seq<Action>)
    requires s.direct == {} && forall a <- actions :: a.Create? ==> !a.row.status.Running?
    ensures After(cfg, s, actions).direct == {}
    decreases |actions|
  {
    if actions != [] {
      assert actions[0] in actions;
      NothingDirect(cfg, Apply(cfg, s, actions[0]), actions[1..]);
    }
  }
}
