/** What the store's methods do to the disk, the protocol does: every trail, also of a method that fails on
    the way, is the disks of a run. */
module AuthorityRefinement {
  import opened Wrappers
  import opened AuthorityDisk
  import opened AuthorityProtocol
  import opened AuthorityStore

  type Stepper = (State, Action) -> Option<State>

  /** `states` are the states behind each of `actions`. */
  ghost predicate Chained(step: Stepper, s: State, actions: seq<Action>, states: seq<State>) {
    |states| == |actions| && forall i :: 0 <= i < |actions| ==> Linked(step, s, actions, states, i)
  }

  predicate Linked(step: Stepper, s: State, actions: seq<Action>, states: seq<State>, i: nat)
    requires i < |states| == |actions|
  {
    step(if i == 0 then s else states[i - 1], actions[i]) == Some(states[i])
  }

  /** The run `actions` leads from `s` through exactly these disks. */
  ghost predicate RunsThrough(s: State, actions: seq<Action>, disks: seq<Disk>) {
    exists states :: Chained(Step, s, actions, states) && disks == DisksOf(states)
  }

  function DisksOf(states: seq<State>): seq<Disk> {
    seq(|states|, i requires 0 <= i < |states| => states[i].disk)
  }

  lemma {:induction false} ChainIsRun(s: State, actions: seq<Action>, states: seq<State>)
    requires Chained(Step, s, actions, states)
    ensures RunFrom(s, actions) == Some(if actions == [] then s else states[|states| - 1])
    decreases |actions|
  {
    if actions != [] {
      assert Linked(Step, s, actions, states, 0);
      forall i | 0 <= i < |actions[1..]|
        ensures Linked(Step, states[0], actions[1..], states[1..], i)
      {
        assert Linked(Step, s, actions, states, i + 1);
      }
      ChainIsRun(states[0], actions[1..], states[1..]);
    }
  }

  lemma ChainOne(step: Stepper, s: State, a: Action, t: State)
    requires step(s, a) == Some(t)
    ensures Chained(step, s, [a], [t])
  {
  }

  lemma ChainMore(step: Stepper, s: State, actions: seq<Action>, states: seq<State>, a: Action, t: State)
    requires Chained(step, s, actions, states) && actions != [] && step(states[|states| - 1], a) == Some(t)
    ensures Chained(step, s, actions + [a], states + [t])
  {
    forall i | 0 <= i < |actions| + 1
      ensures Linked(step, s, actions + [a], states + [t], i)
    {
      if i < |actions| {
        assert Linked(step, s, actions, states, i);
      }
    }
  }

  lemma ChainFront(step: Stepper, s: State, a: Action, t: State, actions: seq<Action>, states: seq<State>)
    requires step(s, a) == Some(t) && Chained(step, t, actions, states)
    ensures Chained(step, s, [a] + actions, [t] + states)
  {
    forall i | 0 <= i < |actions| + 1
      ensures Linked(step, s, [a] + actions, [t] + states, i)
    {
      if i > 0 {
        assert Linked(step, t, actions, states, i - 1);
      }
    }
  }

  // ---- Arming ----

  /** How the thread goes on when it cannot complete or sync the latch. */
  function Undo(cleans: bool): Action { if cleans then RollBackLatch else LatchStays }

  function ArmActions(operation: string, budget: nat, cleans: bool): seq<Action> {
    if budget == 0 then [ArmFails]
    else if budget == 1 then [CreateLatch(operation)] + [Undo(cleans)]
    else [CreateLatch(operation)] + [FlushLatch] + [if budget == 2 then Undo(cleans) else SyncLatch]
  }

  lemma LatchCreated(s: State, operation: string) returns (created: State)
    requires s.service.Up? && s.service.task.Checked? && s.disk.active.Absent?
    ensures Step(s, ArmFails).Some? && Step(s, ArmFails).value.disk == s.disk
    ensures Step(s, CreateLatch(operation)) == Some(created) && created.disk == CreateActive(s.disk)
    ensures created.service.Up?
    ensures created.service.task == Arming(Binding(STATE_VERSION, operation, s.service.epoch, s.nextNonce))
  {
    created := ArmStep(s, CreateLatch(operation)).value;
  }

  lemma LatchFlushes(s: State) returns (flushed: State)
    requires s.service.Up? && s.service.task.Arming?
    ensures Step(s, FlushLatch) == Some(flushed) && flushed.disk == CompleteActive(s.disk, s.service.task.binding)
    ensures flushed.service.Up? && flushed.service.task.LatchFlushed?
  {
    flushed := ArmStep(s, FlushLatch).value;
  }

  lemma LatchUndone(s: State, cleans: bool) returns (end: State)
    requires s.service.Up? && (s.service.task.Arming? || s.service.task.LatchFlushed?)
    ensures Step(s, Undo(cleans)) == Some(end) && end.disk == if cleans then RemoveActive(s.disk) else s.disk
  {
    end := ArmStep(s, Undo(cleans)).value;
  }

  lemma LatchSynced(s: State) returns (end: State)
    requires s.service.Up? && s.service.task.LatchFlushed?
    ensures Step(s, SyncLatch) == Some(end) && end.disk == s.disk
  {
    end := ArmStep(s, SyncLatch).value;
  }

  /** The states behind the check. */
  lemma ArmStates(s: State, operation: string, budget: nat, cleans: bool) returns (states: seq<State>)
    requires s.service.Up? && s.service.task.Checked? && s.disk.active.Absent?
    ensures Chained(Step, s, ArmActions(operation, budget, cleans), states)
    ensures var b := Binding(STATE_VERSION, operation, s.service.epoch, s.nextNonce);
            DisksOf(states) == ArmTrail(s.disk, b, budget, cleans)
  {
    if budget == 0 {
      states := [ArmStep(s, ArmFails).value];
      ChainOne(Step, s, ArmFails, states[0]);
    } else {
      var created := LatchCreated(s, operation);
      ChainOne(Step, s, CreateLatch(operation), created);
      if budget == 1 {
        var end := LatchUndone(created, cleans);
        ChainMore(Step, s, [CreateLatch(operation)], [created], Undo(cleans), end);
        states := [created] + [end];
      } else {
        var flushed := LatchFlushes(created);
        ChainMore(Step, s, [CreateLatch(operation)], [created], FlushLatch, flushed);
        var end;
        if budget == 2 {
          end := LatchUndone(flushed, cleans);
        } else {
          end := LatchSynced(flushed);
        }
        ChainMore(Step, s, [CreateLatch(operation)] + [FlushLatch], [created] + [flushed],
                  if budget == 2 then Undo(cleans) else SyncLatch, end);
        states := [created] + [flushed] + [end];
      }
    }
  }

  /** `arm` is a run of the launching thread, wherever it fails: its check, an operation of the protocol for
      each of its own, and the cleanup, whether or not this succeeds. While anything is latched, the thread
      has no such run to begin, as `arm` is refused. */
  lemma ArmIsRun(s: State, operation: string, budget: nat, cleans: bool)
    requires s.service.Up? && s.service.task.Idle?
    ensures if ReadActive(s.disk).Nothing? then
              var b := Binding(STATE_VERSION, operation, s.service.epoch, s.nextNonce);
              RunsThrough(s, [Check] + ArmActions(operation, budget, cleans),
                          [s.disk] + ArmTrail(s.disk, b, budget, cleans))
            else Step(s, Check) == None
  {
    if ReadActive(s.disk).Nothing? {
      var checked := ArmStep(s, Check).value;
      var states := ArmStates(checked, operation, budget, cleans);
      ChainFront(Step, s, Check, checked, ArmActions(operation, budget, cleans), states);
      assert DisksOf([checked] + states) == [s.disk] + DisksOf(states);
    }
  }

  // ---- The sidecar status ----

  /** `mark_running` is the thread's reading and note; refused or failed, the launch has failed. */
  lemma MarkRunningIsRun(s: State, writes: bool)
    requires s.service.Up? && s.service.task.Spawned?
    ensures match CurrentActive(s.disk, s.service.epoch)
            case None => RunsThrough(s, [ReadForRunning], [s.disk])
            case Some(read) =>
              RunsThrough(s, [ReadForRunning] + [if writes then MarkRunning else LaunchFails],
                          [s.disk, Noted(s.disk, read, Phase.Running, writes)])
  {
    var t := LaunchStep(s, ReadForRunning).value;
    ChainOne(Step, s, ReadForRunning, t);
    if CurrentActive(s.disk, s.service.epoch).Some? {
      var a := if writes then MarkRunning else LaunchFails;
      ChainMore(Step, s, [ReadForRunning], [t], a, LaunchStep(t, a).value);
      assert DisksOf([t] + [LaunchStep(t, a).value])
          == [s.disk, Noted(s.disk, CurrentActive(s.disk, s.service.epoch).value, Phase.Running, writes)];
    } else {
      assert DisksOf([t]) == [s.disk];
    }
  }

  /** Where `mark_recovery_required` is called: behind a failed launch, by a watcher, and at a restart. */
  datatype Caller = FailedLaunch | Watching(of: Binding) | Restart

  predicate Calls(s: State, c: Caller) {
    match c
    case FailedLaunch => s.service.Up? && s.service.task.Failed?
    case Watching(b) => s.service.Up? && b in s.service.watchers && s.service.watchers[b].Recovering?
    case Restart => s.service.Booting?
  }

  function ReadAction(c: Caller): Action {
    match c
    case FailedLaunch => ReadForFailure
    case Watching(b) => ReadForRecovery(b)
    case Restart => BootReads
  }

  function NoteAction(c: Caller, writes: bool): Action {
    match c
    case FailedLaunch => if writes then NoteFailure else FailureNoteFails
    case Watching(b) => if writes then NoteRecovery(b) else RecoveryNoteFails(b)
    case Restart => if writes then BootNotes else BootNoteFails
  }

  lemma RecoveryStates(s: State, c: Caller, writes: bool) returns (t: State, u: State)
    requires Calls(s, c)
    ensures Step(s, ReadAction(c)) == Some(t) && t.disk == s.disk
    ensures ReadActive(s.disk).Latched? ==>
              && Step(t, NoteAction(c, writes)) == Some(u)
              && u.disk == Noted(s.disk, ReadActive(s.disk).active, RecoveryRequired, writes)
  {
    match c {
      case FailedLaunch =>
        t := FailureStep(s, ReadForFailure).value;
        u := if ReadActive(s.disk).Latched? then FailureStep(t, NoteAction(c, writes)).value else t;
      case Watching(b) =>
        t := RecoverStep(s, b, ReadForRecovery(b)).value;
        u := if ReadActive(s.disk).Latched? then RecoverStep(t, b, NoteAction(c, writes)).value else t;
      case Restart =>
        t := ServiceStep(s, BootReads).value;
        u := if ReadActive(s.disk).Latched? then ServiceStep(t, NoteAction(c, writes)).value else t;
    }
  }

  /** `mark_recovery_required` is the reading and the note of each of its callers. */
  lemma MarkRecoveryIsRun(s: State, c: Caller, writes: bool)
    requires Calls(s, c)
    ensures match ReadActive(s.disk)
            case Latched(read) =>
              RunsThrough(s, [ReadAction(c)] + [NoteAction(c, writes)],
                          [s.disk, Noted(s.disk, read, RecoveryRequired, writes)])
            case _ => RunsThrough(s, [ReadAction(c)], [s.disk])
  {
    var t, u := RecoveryStates(s, c, writes);
    ChainOne(Step, s, ReadAction(c), t);
    if ReadActive(s.disk).Latched? {
      ChainMore(Step, s, [ReadAction(c)], [t], NoteAction(c, writes), u);
      assert DisksOf([t] + [u]) == [s.disk, Noted(s.disk, ReadActive(s.disk).active, RecoveryRequired, writes)];
    } else {
      assert DisksOf([t]) == [s.disk];
    }
  }

  // ---- Consumption ----

  /** The watcher's steps behind its check, one for each file operation. */
  function FileStep(b: Binding, i: nat): Action {
    if i == 0 then OpenArchive(b)
    else if i == 1 then FlushArchive(b)
    else if i == 2 then SyncArchive(b)
    else if i == 3 then DropProof(b)
    else if i == 4 then DropStatus(b)
    else DropLatch(b)
  }

  /** Where the watcher stands behind `i` of them. */
  function Standing(p: Proof, i: nat): Watcher {
    if i == 0 then Archiving(p)
    else if i == 1 then Storing(p)
    else if i == 2 then RecordFlushed(p)
    else if i == 3 then Archived(p)
    else if i == 4 then ProofGone(p)
    else StatusGone(p)
  }

  predicate At(s: State, b: Binding, w: Watcher) {
    s.service.Up? && b in s.service.watchers && s.service.watchers[b] == w
  }

  /** The disk behind the operation `i` on `d`. */
  function FileEffect(d: Disk, b: Binding, p: Proof, i: nat): Disk {
    if i == 0 then CreateArchive(d, KeyOf(b))
    else if i == 1 then CompleteArchive(d, KeyOf(b), Record(b, p))
    else if i == 2 then d
    else if i == 3 then RemoveProof(d, KeyOf(b))
    else if i == 4 then RemoveStatus(d)
    else RemoveActive(d)
  }

  function DiskBehind(d: Disk, b: Binding, p: Proof, n: nat): Disk {
    if n == 0 then d else FileEffect(DiskBehind(d, b, p, n - 1), b, p, n - 1)
  }

  /** The disk as a failure of the operation `n` leaves it. */
  function DiskOfFailure(d: Disk, b: Binding, p: Proof, n: nat, cleans: bool): Disk {
    var reached := DiskBehind(d, b, p, n);
    if (n == 1 || n == 2) && cleans then RemoveArchive(reached, KeyOf(b)) else reached
  }

  /** How the watcher takes the failure of the operation `n`. */
  function Failure(b: Binding, n: nat, cleans: bool): Action {
    if (n == 1 || n == 2) && !cleans then RecordStays(b) else WatchFails(b)
  }

  lemma StoringAdvances(s: State, b: Binding, p: Proof, i: nat) returns (t: State)
    requires i < 3 && At(s, b, Standing(p, i)) && (i == 0 ==> ArchiveFile(s.disk, KeyOf(b)).Absent?)
    ensures Step(s, FileStep(b, i)) == Some(t) && At(t, b, Standing(p, i + 1)) && t.disk == FileEffect(s.disk, b, p, i)
  {
    t := ArchiveStep(s, b, FileStep(b, i)).value;
  }

  lemma DroppingAdvances(s: State, b: Binding, p: Proof, i: nat) returns (t: State)
    requires 3 <= i < 6 && At(s, b, Standing(p, i))
    ensures Step(s, FileStep(b, i)) == Some(t) && t.disk == FileEffect(s.disk, b, p, i)
    ensures i < 5 ==> At(t, b, Standing(p, i + 1))
  {
    t := DropStep(s, b, FileStep(b, i)).value;
  }

  lemma ConsumptionFails(s: State, b: Binding, p: Proof, i: nat, cleans: bool) returns (t: State)
    requires i < 6 && At(s, b, Standing(p, i))
    ensures Step(s, Failure(b, i, cleans)) == Some(t) && At(t, b, Recovering)
    ensures t.disk == if (i == 1 || i == 2) && cleans then RemoveArchive(s.disk, KeyOf(b)) else s.disk
  {
    t := RecoverStep(s, b, Failure(b, i, cleans)).value;
  }

  function ConsumePrefix(b: Binding, n: nat): seq<Action> {
    if n == 0 then [Verify(b)] else ConsumePrefix(b, n - 1) + [FileStep(b, n - 1)]
  }

  /** The check and the first `n` operations. */
  lemma {:induction false} ConsumptionStates(s: State, b: Binding, p: Proof, n: nat) returns (states: seq<State>)
    requires n <= 6 && At(s, b, Exited) && Acceptable(s.disk, s.service.epoch, KeyOf(b)) == Some((b, p))
    requires ArchiveFile(s.disk, KeyOf(b)).Absent?
    ensures Chained(Step, s, ConsumePrefix(b, n), states) && |states| == n + 1
    ensures forall i :: 0 <= i <= n ==> states[i].disk == DiskBehind(s.disk, b, p, i)
    ensures n < 6 ==> At(states[n], b, Standing(p, n))
  {
    if n == 0 {
      var t := ArchiveStep(s, b, Verify(b)).value;
      ChainOne(Step, s, Verify(b), t);
      states := [t];
    } else {
      states := ConsumptionStates(s, b, p, n - 1);
      var t;
      if n <= 3 {
        t := StoringAdvances(states[n - 1], b, p, n - 1);
      } else {
        t := DroppingAdvances(states[n - 1], b, p, n - 1);
      }
      ChainMore(Step, s, ConsumePrefix(b, n - 1), states, FileStep(b, n - 1), t);
      states := states + [t];
    }
  }

  lemma TrailIsDisks(d: Disk, b: Binding, p: Proof, budget: nat, cleans: bool)
    ensures budget < 6 ==>
              ConsumeTrail(d, b, p, budget, cleans)
              == seq(budget, i requires 0 <= i < budget => DiskBehind(d, b, p, i + 1))
                 + [DiskOfFailure(d, b, p, budget, cleans)]
    ensures budget >= 6 ==>
              ConsumeTrail(d, b, p, budget, cleans) == seq(6, i requires 0 <= i < 6 => DiskBehind(d, b, p, i + 1))
  {
    UnfoldDisks(d, b, p);
    if budget < 3 {
      assert ConsumeTrail(d, b, p, budget, cleans) == StoreTrail(d, KeyOf(b), Record(b, p), budget, cleans);
    }
  }

  lemma UnfoldDisks(d: Disk, b: Binding, p: Proof)
    ensures var k := KeyOf(b);
            var stored := CompleteArchive(CreateArchive(d, k), k, Record(b, p));
            && DiskBehind(d, b, p, 1) == CreateArchive(d, k) && DiskBehind(d, b, p, 2) == stored
            && DiskBehind(d, b, p, 3) == stored && DiskBehind(d, b, p, 4) == RemoveProof(stored, k)
            && DiskBehind(d, b, p, 5) == RemoveStatus(RemoveProof(stored, k))
            && DiskBehind(d, b, p, 6) == RemoveActive(RemoveStatus(RemoveProof(stored, k)))
  {
    assert DiskBehind(d, b, p, 3) == DiskBehind(d, b, p, 2);
    assert DiskBehind(d, b, p, 5) == RemoveStatus(DiskBehind(d, b, p, 4));
  }

  function ConsumeActions(b: Binding, budget: nat, cleans: bool): seq<Action> {
    if budget < 6 then ConsumePrefix(b, budget) + [Failure(b, budget, cleans)] else ConsumePrefix(b, 6)
  }

  /** The latch that a watcher reads is its own. */
  lemma OwnProof(s: State, b: Binding)
    requires Reachable(s) && s.service.Up? && b in s.service.watchers
    requires Acceptable(s.disk, s.service.epoch, KeyOf(b)).Some?
    ensures Acceptable(s.disk, s.service.epoch, KeyOf(b)).value.0 == b
  {
    ReachableInv(s);
    WatcherOwnsLatch(s, b);
  }

  /** Behind a worker's exit, `consume_completion` is the watcher's run, whichever of its file operations
      fails: the check, an operation of the protocol for each of its own, and the failure, whose cleanup may
      fail as well. */
  lemma ConsumptionIsWatcherRun(s: State, b: Binding, budget: nat, cleans: bool)
    requires Reachable(s) && At(s, b, Exited)
    requires Acceptable(s.disk, s.service.epoch, KeyOf(b)).Some? && ArchiveFile(s.disk, KeyOf(b)).Absent?
    ensures var (a, p) := Acceptable(s.disk, s.service.epoch, KeyOf(b)).value;
            a == b && RunsThrough(s, ConsumeActions(b, budget, cleans),
                                  [s.disk] + ConsumeTrail(s.disk, b, p, budget, cleans))
  {
    OwnProof(s, b);
    var p := Acceptable(s.disk, s.service.epoch, KeyOf(b)).value.1;
    var n := if budget < 6 then budget else 6;
    var states := ConsumptionStates(s, b, p, n);
    if budget < 6 {
      var t := ConsumptionFails(states[n], b, p, n, cleans);
      ChainMore(Step, s, ConsumePrefix(b, n), states, Failure(b, n, cleans), t);
      states := states + [t];
    }
    ConsumptionDisks(s.disk, b, p, budget, cleans, states);
  }

  lemma ConsumptionDisks(d: Disk, b: Binding, p: Proof, budget: nat, cleans: bool, states: seq<State>)
    requires |states| == if budget < 6 then budget + 2 else 7
    requires forall i :: 0 <= i <= budget && i <= 6 ==> states[i].disk == DiskBehind(d, b, p, i)
    requires budget < 6 ==> states[budget + 1].disk == DiskOfFailure(d, b, p, budget, cleans)
    ensures DisksOf(states) == [d] + ConsumeTrail(d, b, p, budget, cleans)
  {
    TrailIsDisks(d, b, p, budget, cleans);
  }

  lemma RefusalStates(s: State, b: Binding) returns (t: State, u: State)
    requires Reachable(s) && At(s, b, Exited)
    ensures Step(s, Verify(b)) == Some(t) && t.disk == s.disk
    ensures Acceptable(s.disk, s.service.epoch, KeyOf(b)).Some? && !ArchiveFile(s.disk, KeyOf(b)).Absent? ==>
              Step(t, OpenArchive(b)) == Some(u) && u.disk == s.disk
  {
    t := ArchiveStep(s, b, Verify(b)).value;
    u := t;
    if Acceptable(s.disk, s.service.epoch, KeyOf(b)).Some? && !ArchiveFile(s.disk, KeyOf(b)).Absent? {
      OwnProof(s, b);
      u := ArchiveStep(t, b, OpenArchive(b)).value;
    }
  }

  /** Refused by its own checks, it is the watcher that turns to recovery with the disk untouched. */
  lemma RefusalIsWatcherRun(s: State, b: Binding)
    requires Reachable(s) && At(s, b, Exited)
    ensures Acceptable(s.disk, s.service.epoch, KeyOf(b)).None? ==> RunsThrough(s, [Verify(b)], [s.disk])
    ensures Acceptable(s.disk, s.service.epoch, KeyOf(b)).Some? && !ArchiveFile(s.disk, KeyOf(b)).Absent? ==>
              RunsThrough(s, [Verify(b)] + [OpenArchive(b)], [s.disk, s.disk])
  {
    var t, u := RefusalStates(s, b);
    ChainOne(Step, s, Verify(b), t);
    assert DisksOf([t]) == [s.disk];
    if Acceptable(s.disk, s.service.epoch, KeyOf(b)).Some? && !ArchiveFile(s.disk, KeyOf(b)).Absent? {
      ChainMore(Step, s, [Verify(b)], [t], OpenArchive(b), u);
      assert DisksOf([t] + [u]) == [s.disk, s.disk];
    }
  }
}
