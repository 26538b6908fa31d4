/** The Approved Host latch as a protocol: one service thread that launches, one watcher per worker,
    SYSTEM workers that outlive the service, and an operator, over the durable files. A crash may come
    between any two steps. Epochs and nonces are drawn fresh. */
module AuthorityProtocol {
  import opened Wrappers
  import opened AuthorityDisk

  /** How far a worker is with its completion proof; a flushed file can be read but is not synced yet. */
  datatype Stage = Executing | Writing | ProofFlushed | Finished

  /** A live SYSTEM worker and its completion lease. */
  datatype Worker = Worker(childStarted: bool, postflightVerified: bool, stage: Stage)

  /** Where the thread that serves requests stands. */
  datatype Task =
    | Idle
    | Checked
    | Arming(binding: Binding)
    | LatchFlushed(binding: Binding)
    | Armed(binding: Binding)
    | Spawned(binding: Binding)
    | Marking(binding: Binding, read: Binding)
    | Marked(binding: Binding)
    | Failed(binding: Binding)
    | Noting(binding: Binding, read: Binding)

  /** Where the watcher of one worker stands. */
  datatype Watcher =
    | Waiting
    | Exited
    | Archiving(proof: Proof)
    | Storing(proof: Proof)
    | RecordFlushed(proof: Proof)
    | Archived(proof: Proof)
    | ProofGone(proof: Proof)
    | StatusGone(proof: Proof)
    | Recovering
    | Recording(read: Binding)

  datatype Service =
    | Down
    | Booting(epoch: nat)
    | BootNoting(epoch: nat, read: Binding)
    | Up(epoch: nat, task: Task, watchers: map<Binding, Watcher>)

  datatype State = State(disk: Disk, service: Service, workers: map<Binding, Worker>, nextEpoch: nat, nextNonce: nat)

  const INITIAL := State(Disk(Absent, None, map[], map[]), Down, map[], 0, 0)

  datatype Action =
    // the service starts, stops or dies
    | Boot | BootReads | BootNotes | BootNoteFails | Crash
    // `_launch`
    | Check | ArmFails | CreateLatch(operation: string) | FlushLatch | SyncLatch | RollBackLatch | LatchStays
    | Spawn | SpawnFails
    | ReadForRunning | MarkRunning | StartWatching | LaunchFails | ReadForFailure | NoteFailure | FailureNoteFails
    // `_watch_worker` of one binding
    | SeeExit(of: Binding) | Verify(of: Binding)
    | OpenArchive(of: Binding) | FlushArchive(of: Binding) | SyncArchive(of: Binding)
    | DropProof(of: Binding) | DropStatus(of: Binding) | DropLatch(of: Binding)
    | WatchFails(of: Binding) | RecordStays(of: Binding)
    | ReadForRecovery(of: Binding) | NoteRecovery(of: Binding) | RecoveryNoteFails(of: Binding)
    // one SYSTEM worker
    | StartChild(of: Binding) | VerifyPostflight(of: Binding)
    | OpenProof(of: Binding) | FlushProof(of: Binding) | SyncProof(of: Binding) | RollBackProof(of: Binding)
    | ProofStays(of: Binding) | Exit(of: Binding)
    // the recovery script, with the service stopped and no worker alive
    | OperatorDropsProofs | OperatorDropsStatus | OperatorDropsLatch

  function WithTask(s: State, t: Task): State
    requires s.service.Up?
  {
    s.(service := s.service.(task := t))
  }

  function WithWatcher(s: State, b: Binding, w: Watcher): State
    requires s.service.Up?
  {
    s.(service := s.service.(watchers := s.service.watchers[b := w]))
  }

  function WithoutWatcher(s: State, b: Binding): State
    requires s.service.Up?
  {
    s.(service := s.service.(watchers := s.service.watchers - {b}))
  }

  /** The service process: start with the restart note of the entry point, or vanish with its threads. */
  function ServiceStep(s: State, a: Action): Option<State> {
    match a
    case Boot =>
      if s.service.Down? then Some(s.(service := Booting(s.nextEpoch), nextEpoch := s.nextEpoch + 1)) else None
    case BootReads =>
      if !s.service.Booting? then None
      else (
        match ReadActive(s.disk)
        case Nothing => Some(s.(service := Up(s.service.epoch, Idle, map[])))
        case Latched(read) => Some(s.(service := BootNoting(s.service.epoch, read)))
        case _ => Some(s.(service := Down))
      )
    case BootNotes =>
      if !s.service.BootNoting? then None
      else Some(s.(disk := ReplaceStatus(s.disk, Status(s.service.read, RecoveryRequired)),
                   service := Up(s.service.epoch, Idle, map[])))
    case BootNoteFails => if s.service.BootNoting? then Some(s.(service := Down)) else None
    case Crash => if s.service.Down? then None else Some(s.(service := Down))
    case _ => None
  }

  /** `arm`, behind the first look of `_launch` at the latch. What could not be written is taken back, or
      stays where that fails, too. */
  function ArmStep(s: State, a: Action): Option<State> {
    if !s.service.Up? then None
    else
      var t := s.service.task;
      match a
      case Check => if t.Idle? && ReadActive(s.disk).Nothing? then Some(WithTask(s, Checked)) else None
      case CreateLatch(operation) =>
        if !t.Checked? then None
        else if !s.disk.active.Absent? then Some(WithTask(s, Idle))
        else
          var b := Binding(STATE_VERSION, operation, s.service.epoch, s.nextNonce);
          Some(WithTask(s, Arming(b)).(disk := CreateActive(s.disk), nextNonce := s.nextNonce + 1))
      case ArmFails => if t.Checked? then Some(WithTask(s, Idle)) else None
      case FlushLatch =>
        if !t.Arming? then None
        else Some(WithTask(s, LatchFlushed(t.binding)).(disk := CompleteActive(s.disk, t.binding)))
      case SyncLatch => if t.LatchFlushed? then Some(WithTask(s, Armed(t.binding))) else None
      case RollBackLatch =>
        if t.Arming? || t.LatchFlushed? then Some(WithTask(s, Idle).(disk := RemoveActive(s.disk))) else None
      case LatchStays => if t.Arming? || t.LatchFlushed? then Some(WithTask(s, Idle)) else None
      case _ => None
  }

  /** The rest of `_launch`: the worker is created and noted, and its watcher starts. */
  function LaunchStep(s: State, a: Action): Option<State> {
    if !s.service.Up? then None
    else
      var t, epoch := s.service.task, s.service.epoch;
      match a
      case Spawn =>
        if !t.Armed? then None
        else Some(WithTask(s, Spawned(t.binding)).(workers := s.workers[t.binding := Worker(false, false, Executing)]))
      case SpawnFails => if t.Armed? then Some(WithTask(s, Failed(t.binding))) else None
      case ReadForRunning =>
        if !t.Spawned? then None
        else (
          match CurrentActive(s.disk, epoch)
          case None => Some(WithTask(s, Failed(t.binding)))
          case Some(read) => Some(WithTask(s, Marking(t.binding, read)))
        )
      case MarkRunning =>
        if t.Marking? then Some(WithTask(s, Marked(t.binding)).(disk := ReplaceStatus(s.disk, Status(t.read, Running))))
        else None
      case StartWatching =>
        if t.Marked? && CurrentActive(s.disk, epoch).Some? then Some(WithWatcher(WithTask(s, Idle), t.binding, Waiting))
        else None
      case LaunchFails =>
        if t.Spawned? || t.Marking? || t.Marked? then Some(WithTask(s, Failed(t.binding))) else None
      case _ => None
  }

  /** A failed launch is noted beside the latch. */
  function FailureStep(s: State, a: Action): Option<State> {
    if !s.service.Up? then None
    else
      var t := s.service.task;
      match a
      case ReadForFailure =>
        if !t.Failed? then None
        else (
          match ReadActive(s.disk)
          case Latched(read) => Some(WithTask(s, Noting(t.binding, read)))
          case _ => Some(WithTask(s, Idle))
        )
      case NoteFailure =>
        if t.Noting? then Some(WithTask(s, Idle).(disk := ReplaceStatus(s.disk, Status(t.read, RecoveryRequired))))
        else None
      case FailureNoteFails => if t.Noting? then Some(WithTask(s, Idle)) else None
      case _ => None
  }

  /** `_watch_worker` and the first half of `consume_completion`: the worker is gone, its proof is checked and
      archived. */
  function ArchiveStep(s: State, b: Binding, a: Action): Option<State> {
    if !s.service.Up? || b !in s.service.watchers then None
    else
      var w, k := s.service.watchers[b], KeyOf(b);
      match a
      case SeeExit(_) =>
        if !w.Waiting? || b in s.workers then None
        else Some(WithWatcher(s, b, if ProofFile(s.disk, k).Absent? then Recovering else Exited))
      case Verify(_) =>
        if !w.Exited? then None
        else (
          match (CurrentActive(s.disk, s.service.epoch), ProofFile(s.disk, k))
          case (Some(read), Whole(p)) =>
            Some(WithWatcher(s, b, if Accepts(read, p) then Archiving(p) else Recovering))
          case _ => Some(WithWatcher(s, b, Recovering))
        )
      case OpenArchive(_) =>
        if !w.Archiving? then None
        else if !ArchiveFile(s.disk, k).Absent? then Some(WithWatcher(s, b, Recovering))
        else Some(WithWatcher(s, b, Storing(w.proof)).(disk := CreateArchive(s.disk, k)))
      case FlushArchive(_) =>
        if !w.Storing? then None
        else Some(WithWatcher(s, b, RecordFlushed(w.proof)).(disk := CompleteArchive(s.disk, k, Record(b, w.proof))))
      case SyncArchive(_) => if w.RecordFlushed? then Some(WithWatcher(s, b, Archived(w.proof))) else None
      case _ => None
  }

  /** The second half: the proof is removed, then the status, then the latch. */
  function DropStep(s: State, b: Binding, a: Action): Option<State> {
    if !s.service.Up? || b !in s.service.watchers then None
    else
      var w, k := s.service.watchers[b], KeyOf(b);
      match a
      case DropProof(_) =>
        if w.Archived? then Some(WithWatcher(s, b, ProofGone(w.proof)).(disk := RemoveProof(s.disk, k))) else None
      case DropStatus(_) =>
        if w.ProofGone? then Some(WithWatcher(s, b, StatusGone(w.proof)).(disk := RemoveStatus(s.disk))) else None
      case DropLatch(_) =>
        if w.StatusGone? then Some(WithoutWatcher(s, b).(disk := RemoveActive(s.disk))) else None
      case _ => None
  }

  /** Any file step of the consumption may fail instead (a failed archive write is rolled back, or its file
      stays where that fails, too), and then, as when there is no proof, `mark_recovery_required` notes it
      beside the latch. */
  function RecoverStep(s: State, b: Binding, a: Action): Option<State> {
    if !s.service.Up? || b !in s.service.watchers then None
    else
      var w, k := s.service.watchers[b], KeyOf(b);
      match a
      case WatchFails(_) =>
        if w.Storing? || w.RecordFlushed? then Some(WithWatcher(s, b, Recovering).(disk := RemoveArchive(s.disk, k)))
        else if w.Waiting? || w.Recovering? || w.Recording? then None
        else Some(WithWatcher(s, b, Recovering))
      case RecordStays(_) => if w.Storing? || w.RecordFlushed? then Some(WithWatcher(s, b, Recovering)) else None
      case ReadForRecovery(_) =>
        if !w.Recovering? then None
        else (
          match ReadActive(s.disk)
          case Latched(read) => Some(WithWatcher(s, b, Recording(read)))
          case _ => Some(WithoutWatcher(s, b))
        )
      case NoteRecovery(_) =>
        if !w.Recording? then None
        else Some(WithoutWatcher(s, b).(disk := ReplaceStatus(s.disk, Status(w.read, RecoveryRequired))))
      case RecoveryNoteFails(_) => if w.Recording? then Some(WithoutWatcher(s, b)) else None
      case _ => None
  }

  /** A SYSTEM worker: the launch hook, the postflight hook, `finalize_normal_return`, and death. */
  function WorkerStep(s: State, b: Binding, a: Action): Option<State> {
    if b !in s.workers then None
    else
      var w, k := s.workers[b], KeyOf(b);
      match a
      case StartChild(_) =>
        if w.stage.Executing? then Some(s.(workers := s.workers[b := w.(childStarted := true)])) else None
      case VerifyPostflight(_) =>
        if w.stage.Executing? && w.childStarted then Some(s.(workers := s.workers[b := w.(postflightVerified := true)]))
        else None
      case OpenProof(_) =>
        if !w.stage.Executing? || (w.childStarted && !w.postflightVerified) || !ProofFile(s.disk, k).Absent? then None
        else Some(s.(workers := s.workers[b := w.(stage := Writing)], disk := CreateProof(s.disk, k)))
      case FlushProof(_) =>
        if !w.stage.Writing? then None
        else
          var proof := Proof(b, w.childStarted, w.postflightVerified, true);
          Some(s.(workers := s.workers[b := w.(stage := ProofFlushed)], disk := CompleteProof(s.disk, k, proof)))
      case SyncProof(_) =>
        if w.stage.ProofFlushed? then Some(s.(workers := s.workers[b := w.(stage := Finished)])) else None
      case RollBackProof(_) =>
        if !w.stage.Writing? && !w.stage.ProofFlushed? then None
        else Some(s.(workers := s.workers[b := w.(stage := Finished)], disk := RemoveProof(s.disk, k)))
      case ProofStays(_) =>
        if !w.stage.Writing? && !w.stage.ProofFlushed? then None
        else Some(s.(workers := s.workers[b := w.(stage := Finished)]))
      case Exit(_) => Some(s.(workers := s.workers - {b}))
      case _ => None
  }

  /** The recovery script removes the latch last. */
  function OperatorStep(s: State, a: Action): Option<State> {
    if !s.service.Down? || s.workers != map[] then None
    else
      match a
      case OperatorDropsProofs => Some(s.(disk := s.disk.(proofs := map[])))
      case OperatorDropsStatus => if s.disk.active.Whole? then Some(s.(disk := RemoveStatus(s.disk))) else None
      case OperatorDropsLatch =>
        if s.disk.active.Whole? && s.disk.status.None? then Some(s.(disk := RemoveActive(s.disk))) else None
      case _ => None
  }

  predicate OfService(a: Action) { a.Boot? || a.BootReads? || a.BootNotes? || a.BootNoteFails? || a.Crash? }
  predicate OfWorker(a: Action) {
    || a.StartChild? || a.VerifyPostflight? || a.OpenProof? || a.FlushProof? || a.SyncProof? || a.RollBackProof?
    || a.ProofStays? || a.Exit?
  }
  predicate OfArchiver(a: Action) {
    a.SeeExit? || a.Verify? || a.OpenArchive? || a.FlushArchive? || a.SyncArchive?
  }
  predicate OfDropper(a: Action) { a.DropProof? || a.DropStatus? || a.DropLatch? }
  predicate OfRecoverer(a: Action) {
    a.WatchFails? || a.RecordStays? || a.ReadForRecovery? || a.NoteRecovery? || a.RecoveryNoteFails?
  }
  predicate OfOperator(a: Action) { a.OperatorDropsProofs? || a.OperatorDropsStatus? || a.OperatorDropsLatch? }
  predicate OfArmer(a: Action) {
    a.Check? || a.ArmFails? || a.CreateLatch? || a.FlushLatch? || a.SyncLatch? || a.RollBackLatch?
    || a.LatchStays?
  }
  predicate OfFailure(a: Action) { a.ReadForFailure? || a.NoteFailure? || a.FailureNoteFails? }

  /** The state after an action, or `None` when the action cannot happen. */
  function Step(s: State, a: Action): Option<State> {
    if OfService(a) then ServiceStep(s, a)
    else if OfWorker(a) then WorkerStep(s, a.of, a)
    else if OfArchiver(a) then ArchiveStep(s, a.of, a)
    else if OfDropper(a) then DropStep(s, a.of, a)
    else if OfRecoverer(a) then RecoverStep(s, a.of, a)
    else if OfOperator(a) then OperatorStep(s, a)
    else if OfArmer(a) then ArmStep(s, a)
    else if OfFailure(a) then FailureStep(s, a)
    else LaunchStep(s, a)
  }

  /** The state after a sequence of actions; every interleaving and every crash point is such a sequence. */
  function RunFrom(s: State, actions: seq<Action>): Option<State>
    decreases |actions|
  {
    if actions == [] then Some(s)
    else
      match Step(s, actions[0])
      case None => None
      case Some(next) => RunFrom(next, actions[1..])
  }

  ghost predicate Reachable(s: State) {
    exists actions :: RunFrom(INITIAL, actions) == Some(s)
  }

  // ---- What every step keeps ----

  /** A status file is there only beside the latch it is bound to. */
  predicate StatusBound(d: Disk) {
    d.status.Some? ==> d.active == Whole(d.status.value.binding)
  }

  /** Every finished proof is one the worker may write. */
  predicate ProofsHonest(d: Disk) {
    forall k <- d.proofs :: d.proofs[k].Whole? ==>
      var p := d.proofs[k].value;
      KeyOf(p.binding) == k && p.returnedNormally && (p.childStarted ==> p.postflightVerified)
  }

  /** A live worker owns the latch, and its lease is honest. */
  predicate WorkersLatched(s: State) {
    forall b <- s.workers ::
      && s.disk.active == Whole(b)
      && (!s.workers[b].stage.Executing? ==> s.workers[b].childStarted ==> s.workers[b].postflightVerified)
  }

  /** Nobody has a proof before its worker writes it. */
  predicate ProofsTimely(s: State) {
    && (forall k <- s.disk.proofs :: k.nonce < s.nextNonce)
    && (forall b <- s.workers :: s.workers[b].stage.Executing? ==> ProofFile(s.disk, KeyOf(b)).Absent?)
    && (s.service.Up? ==>
          var t := s.service.task;
          t.Arming? || t.LatchFlushed? || t.Armed? ==> ProofFile(s.disk, KeyOf(t.binding)).Absent?)
  }

  predicate Fresh(s: State) {
    && (s.disk.active.Whole? ==> s.disk.active.value.nonce < s.nextNonce && s.disk.active.value.epoch < s.nextEpoch
                                 && s.disk.active.value.version == STATE_VERSION)
    && (!s.service.Down? ==> s.service.epoch < s.nextEpoch)
  }

  /** What the launching thread believes about the latch is so. */
  predicate TaskTrue(s: State, epoch: nat, t: Task) {
    match t
    case Idle => true
    case Checked => s.disk.active == Absent
    case Arming(b) =>
      s.disk.active == Partial && b.epoch == epoch && b.nonce < s.nextNonce && b.version == STATE_VERSION
    case LatchFlushed(b) => s.disk.active == Whole(b) && b.epoch == epoch && b !in s.workers && s.disk.status == None
    case Armed(b) => s.disk.active == Whole(b) && b.epoch == epoch && b !in s.workers
    case Spawned(b) => s.disk.active == Whole(b) && b.epoch == epoch
    case Marking(b, read) => s.disk.active == Whole(b) && b.epoch == epoch && read == b
    case Marked(b) => s.disk.active == Whole(b) && b.epoch == epoch
    case Failed(b) => s.disk.active == Whole(b) && b.epoch == epoch
    case Noting(b, read) => s.disk.active == Whole(b) && b.epoch == epoch && read == b
  }

  /** What a watcher believes about the latch, its worker and the archive is so. */
  predicate WatcherTrue(s: State, epoch: nat, b: Binding, w: Watcher) {
    && s.disk.active == Whole(b) && b.epoch == epoch
    && (!w.Waiting? ==> b !in s.workers)
    && match w
       case Archiving(p) => Accepts(b, p)
       case Storing(p) => Accepts(b, p) && ArchiveFile(s.disk, KeyOf(b)) == Partial
       case RecordFlushed(p) => Accepts(b, p) && ArchiveFile(s.disk, KeyOf(b)) == Whole(Record(b, p))
       case Archived(p) => Accepts(b, p) && ArchiveFile(s.disk, KeyOf(b)) == Whole(Record(b, p))
       case ProofGone(p) => Accepts(b, p) && ArchiveFile(s.disk, KeyOf(b)) == Whole(Record(b, p))
                            && ProofFile(s.disk, KeyOf(b)) == Absent
       case StatusGone(p) => Accepts(b, p) && ArchiveFile(s.disk, KeyOf(b)) == Whole(Record(b, p))
                             && ProofFile(s.disk, KeyOf(b)) == Absent && s.disk.status == None
       case Recording(read) => read == b
       case _ => true
  }

  predicate ServiceTrue(s: State) {
    match s.service
    case Down => true
    case Booting(_) => true
    case BootNoting(_, read) => s.disk.active == Whole(read)
    case Up(epoch, t, watchers) =>
      && TaskTrue(s, epoch, t)
      && (forall b <- watchers :: WatcherTrue(s, epoch, b, watchers[b]) && (t.Idle? || t.Checked? || t.binding != b))
  }

  predicate Inv(s: State) {
    StatusBound(s.disk) && ProofsHonest(s.disk) && WorkersLatched(s) && ProofsTimely(s) && Fresh(s) && ServiceTrue(s)
  }

  /** While a watcher works, it is the only one and no launch is under way. */
  lemma LoneWatcher(s: State, b: Binding)
    requires Inv(s) && s.service.Up? && b in s.service.watchers
    ensures s.service.watchers.Keys == {b}
  {
    forall c | c in s.service.watchers
      ensures c == b
    {
      assert WatcherTrue(s, s.service.epoch, c, s.service.watchers[c]);
      assert WatcherTrue(s, s.service.epoch, b, s.service.watchers[b]);
    }
  }

  lemma WatcherOwnsLatch(s: State, b: Binding)
    requires Inv(s) && s.service.Up? && b in s.service.watchers
    ensures WatcherTrue(s, s.service.epoch, b, s.service.watchers[b]) && s.disk.active == Whole(b)
          && b.epoch == s.service.epoch
  {
    assert WatcherTrue(s, s.service.epoch, b, s.service.watchers[b]);
  }

  /** While a launch is under way, nobody watches. */
  lemma LaunchIsAlone(s: State)
    requires Inv(s) && s.service.Up? && !s.service.task.Idle? && !s.service.task.Checked?
    ensures s.service.watchers == map[]
  {
    forall c | c in s.service.watchers
      ensures false
    {
      WatcherOwnsLatch(s, c);
    }
  }

  lemma ServiceKeeps(s: State, a: Action)
    requires Inv(s) && ServiceStep(s, a).Some?
    ensures Inv(ServiceStep(s, a).value)
  {
  }

  lemma ArmKeeps(s: State, a: Action)
    requires Inv(s) && ArmStep(s, a).Some?
    ensures Inv(ArmStep(s, a).value)
  {
    if !s.service.task.Idle? && !s.service.task.Checked? {
      LaunchIsAlone(s);
    }
  }

  lemma SpawnKeeps(s: State, a: Action)
    requires Inv(s) && LaunchStep(s, a).Some? && (a.Spawn? || a.SpawnFails? || a.LaunchFails?)
    ensures Inv(LaunchStep(s, a).value)
  {
    LaunchIsAlone(s);
  }

  lemma MarkingKeeps(s: State, a: Action)
    requires Inv(s) && LaunchStep(s, a).Some? && !a.Spawn? && !a.SpawnFails? && !a.LaunchFails?
    ensures Inv(LaunchStep(s, a).value)
  {
    LaunchIsAlone(s);
  }

  lemma LaunchKeeps(s: State, a: Action)
    requires Inv(s) && LaunchStep(s, a).Some?
    ensures Inv(LaunchStep(s, a).value)
  {
    if a.Spawn? || a.SpawnFails? || a.LaunchFails? {
      SpawnKeeps(s, a);
    } else {
      MarkingKeeps(s, a);
    }
  }

  lemma FailureKeeps(s: State, a: Action)
    requires Inv(s) && FailureStep(s, a).Some?
    ensures Inv(FailureStep(s, a).value)
  {
    if !s.service.task.Idle? && !s.service.task.Checked? {
      LaunchIsAlone(s);
    }
  }

  lemma JudgementKeeps(s: State, b: Binding, a: Action)
    requires Inv(s) && ArchiveStep(s, b, a).Some? && (a.SeeExit? || a.Verify?)
    ensures Inv(ArchiveStep(s, b, a).value)
  {
    LoneWatcher(s, b);
  }

  lemma StorageKeeps(s: State, b: Binding, a: Action)
    requires Inv(s) && ArchiveStep(s, b, a).Some? && !a.SeeExit? && !a.Verify?
    ensures Inv(ArchiveStep(s, b, a).value)
  {
    LoneWatcher(s, b);
  }

  lemma ArchiveKeeps(s: State, b: Binding, a: Action)
    requires Inv(s) && ArchiveStep(s, b, a).Some?
    ensures Inv(ArchiveStep(s, b, a).value)
  {
    if a.SeeExit? || a.Verify? {
      JudgementKeeps(s, b, a);
    } else {
      StorageKeeps(s, b, a);
    }
  }

  lemma DropKeeps(s: State, b: Binding, a: Action)
    requires Inv(s) && DropStep(s, b, a).Some?
    ensures Inv(DropStep(s, b, a).value)
  {
    LoneWatcher(s, b);
  }

  lemma RecoverKeeps(s: State, b: Binding, a: Action)
    requires Inv(s) && RecoverStep(s, b, a).Some?
    ensures Inv(RecoverStep(s, b, a).value)
  {
    LoneWatcher(s, b);
  }

  /** The actions around a completion proof. */
  predicate OnProof(a: Action) {
    a.OpenProof? || a.FlushProof? || a.SyncProof? || a.RollBackProof? || a.ProofStays?
  }

  lemma LeaseKeeps(s: State, b: Binding, a: Action)
    requires Inv(s) && WorkerStep(s, b, a).Some? && !OnProof(a)
    ensures Inv(WorkerStep(s, b, a).value)
  {
  }

  lemma ProofKeeps(s: State, b: Binding, a: Action)
    requires Inv(s) && WorkerStep(s, b, a).Some? && OnProof(a)
    ensures Inv(WorkerStep(s, b, a).value)
  {
  }

  lemma WorkerKeeps(s: State, b: Binding, a: Action)
    requires Inv(s) && WorkerStep(s, b, a).Some?
    ensures Inv(WorkerStep(s, b, a).value)
  {
    if OnProof(a) {
      ProofKeeps(s, b, a);
    } else {
      LeaseKeeps(s, b, a);
    }
  }

  lemma OperatorKeeps(s: State, a: Action)
    requires Inv(s) && OperatorStep(s, a).Some?
    ensures Inv(OperatorStep(s, a).value)
  {
  }

  lemma StepKeeps(s: State, a: Action)
    requires Inv(s) && Step(s, a).Some?
    ensures Inv(Step(s, a).value)
  {
    if OfService(a) {
      ServiceKeeps(s, a);
    } else if OfWorker(a) {
      WorkerKeeps(s, a.of, a);
    } else if OfArchiver(a) {
      ArchiveKeeps(s, a.of, a);
    } else if OfDropper(a) {
      DropKeeps(s, a.of, a);
    } else if OfRecoverer(a) {
      RecoverKeeps(s, a.of, a);
    } else if OfOperator(a) {
      OperatorKeeps(s, a);
    } else if OfArmer(a) {
      ArmKeeps(s, a);
    } else if OfFailure(a) {
      FailureKeeps(s, a);
    } else {
      LaunchKeeps(s, a);
    }
  }

  lemma {:induction false} RunKeeps(s: State, actions: seq<Action>)
    requires Inv(s) && RunFrom(s, actions).Some?
    ensures Inv(RunFrom(s, actions).value)
    decreases |actions|
  {
    if actions != [] {
      StepKeeps(s, actions[0]);
      RunKeeps(Step(s, actions[0]).value, actions[1..]);
    }
  }

  // ---- The guarantees, for every reachable state ----

  /** The actions that touch the latch file, or the counter its nonce comes from. */
  predicate MovesLatch(a: Action) { OfArmer(a) || a.DropLatch? || a.OperatorDropsLatch? }

  /** The thread has a latch that it has not launched anything under. */
  predicate HoldsUnlaunched(t: Task) { t.Arming? || t.LatchFlushed? || t.Armed? }

  /** The latch stays, no thread begins to arm one, and a service instance that was not there is new. */
  predicate LatchFrame(s: State, t: State) {
    && t.disk.active == s.disk.active && t.nextNonce == s.nextNonce && t.nextEpoch >= s.nextEpoch
    && (t.service.Up? && HoldsUnlaunched(t.service.task) ==> s.service.Up? && s.service.task == t.service.task)
    && (!t.service.Down? ==> if s.service.Down? then t.service.epoch == s.nextEpoch < t.nextEpoch
                             else t.service.epoch == s.service.epoch)
  }

  lemma ServiceFrame(s: State, a: Action)
    requires ServiceStep(s, a).Some?
    ensures LatchFrame(s, ServiceStep(s, a).value)
  {
  }

  lemma WatcherFrame(s: State, b: Binding, a: Action)
    ensures ArchiveStep(s, b, a).Some? ==> LatchFrame(s, ArchiveStep(s, b, a).value)
    ensures DropStep(s, b, a).Some? && !a.DropLatch? ==> LatchFrame(s, DropStep(s, b, a).value)
    ensures RecoverStep(s, b, a).Some? ==> LatchFrame(s, RecoverStep(s, b, a).value)
  {
  }

  lemma LaunchFrame(s: State, a: Action)
    ensures LaunchStep(s, a).Some? ==> LatchFrame(s, LaunchStep(s, a).value)
    ensures FailureStep(s, a).Some? ==> LatchFrame(s, FailureStep(s, a).value)
  {
  }

  lemma OutsideFrame(s: State, a: Action)
    ensures OperatorStep(s, a).Some? && !a.OperatorDropsLatch? ==> LatchFrame(s, OperatorStep(s, a).value)
    ensures OfWorker(a) && WorkerStep(s, a.of, a).Some? ==> LatchFrame(s, WorkerStep(s, a.of, a).value)
  {
  }

  /** No other step touches the latch. */
  lemma LatchUnmoved(s: State, a: Action)
    requires Step(s, a).Some? && !MovesLatch(a)
    ensures LatchFrame(s, Step(s, a).value)
  {
    if OfService(a) {
      ServiceFrame(s, a);
    } else if OfArchiver(a) || OfDropper(a) || OfRecoverer(a) {
      WatcherFrame(s, a.of, a);
    } else if OfWorker(a) || OfOperator(a) {
      OutsideFrame(s, a);
    } else {
      LaunchFrame(s, a);
    }
  }

  /** With a latch that nothing was launched under, no worker is alive. */
  lemma UnlaunchedHasNoWorker(s: State)
    requires Inv(s) && s.service.Up? && HoldsUnlaunched(s.service.task)
    ensures s.workers == map[]
  {
    var b := s.service.task.binding;
    assert forall c <- s.workers :: s.disk.active == Whole(c) && c == b;
    assert s.workers.Keys == {};
  }

  /** A watcher that drops the latch archived its proof. */
  lemma DroppedAfterProof(s: State, b: Binding)
    requires Inv(s) && DropStep(s, b, DropLatch(b)).Some?
    ensures s.disk.active == Whole(b) && s.service.epoch == b.epoch && s.workers == map[] && s.disk.status == None
    ensures ProofFile(s.disk, KeyOf(b)) == Absent && ArchiveFile(s.disk, KeyOf(b)).Whole?
    ensures var record := ArchiveFile(s.disk, KeyOf(b)).value; record.active == b && Accepts(b, record.proof)
    ensures DropStep(s, b, DropLatch(b)).value.disk == RemoveActive(s.disk)
  {
    WatcherOwnsLatch(s, b);
    assert forall c <- s.workers :: s.disk.active == Whole(c) && c == b;
    assert s.workers.Keys == {};
  }

  /** How arming moves a latch that is there. */
  lemma ArmMoves(s: State, a: Action)
    requires Inv(s) && ArmStep(s, a).Some? && !s.disk.active.Absent?
    ensures var t := ArmStep(s, a).value;
            if a.FlushLatch? then
              && s.disk.active == Partial && s.service.task.Arming?
              && t.disk == CompleteActive(s.disk, s.service.task.binding)
            else if a.RollBackLatch? then
              && t.disk == RemoveActive(s.disk) && s.service.Up? && s.service.epoch == s.service.task.binding.epoch
              && s.disk.status == None && ProofFile(s.disk, KeyOf(s.service.task.binding)) == Absent
              && if s.disk.active.Partial? then s.service.task.Arming?
                 else s.service.task.LatchFlushed? && s.disk.active == Whole(s.service.task.binding)
            else t.disk == s.disk
    ensures ArmStep(s, a).value.nextNonce == s.nextNonce && ArmStep(s, a).value.nextEpoch == s.nextEpoch
    ensures s.service.Up? && ArmStep(s, a).value.service.Up? && ArmStep(s, a).value.service.epoch == s.service.epoch
  {
  }

  /** The three ways in which the latch `b` may leave the disk. The service removes it when it belongs to the
      service's own epoch, its worker is gone, its proof and status are gone, and a record of it is archived
      whose proof matches it in every field and shows a normal return, with a verified postflight if a child
      started. The thread that has just flushed it, and has launched nothing, takes it back when it cannot be
      synced. Otherwise the operator removes it, with no service and no worker alive. */
  predicate RightlyCleared(s: State, a: Action, t: State, b: Binding) {
    && t.disk == RemoveActive(s.disk) && s.workers == map[]
    && if a.OperatorDropsLatch? then s.service.Down?
       else
         && s.service.Up? && s.service.epoch == b.epoch
         && s.disk.status == None && ProofFile(s.disk, KeyOf(b)) == Absent
         && if a.RollBackLatch? then s.service.task == LatchFlushed(b)
            else
              && a == DropLatch(b) && ArchiveFile(s.disk, KeyOf(b)).Whole?
              && var record := ArchiveFile(s.disk, KeyOf(b)).value;
                 record.active == b && Accepts(b, record.proof)
  }

  lemma DropClears(s: State, a: Action, b: Binding)
    requires Inv(s) && a.DropLatch? && DropStep(s, a.of, a).Some? && s.disk.active == Whole(b)
    ensures RightlyCleared(s, a, DropStep(s, a.of, a).value, b)
  {
    WatcherOwnsLatch(s, a.of);
    DroppedAfterProof(s, b);
  }

  lemma ArmClears(s: State, a: Action, b: Binding)
    requires Inv(s) && ArmStep(s, a).Some? && s.disk.active == Whole(b)
    ensures ArmStep(s, a).value.disk.active != Whole(b) ==>
              a.RollBackLatch? && RightlyCleared(s, a, ArmStep(s, a).value, b)
  {
    ArmMoves(s, a);
    if a.RollBackLatch? {
      UnlaunchedHasNoWorker(s);
    }
  }

  lemma OperatorClears(s: State, a: Action, b: Binding)
    requires a.OperatorDropsLatch? && OperatorStep(s, a).Some?
    ensures RightlyCleared(s, a, OperatorStep(s, a).value, b)
  {
  }

  lemma StepClears(s: State, a: Action, b: Binding)
    requires Inv(s) && Step(s, a).Some? && s.disk.active == Whole(b)
    ensures Step(s, a).value.disk.active != Whole(b) ==> RightlyCleared(s, a, Step(s, a).value, b)
  {
    if !MovesLatch(a) {
      LatchUnmoved(s, a);
    } else if a.DropLatch? {
      DropClears(s, a, b);
    } else if OfArmer(a) {
      ArmClears(s, a, b);
    } else {
      OperatorClears(s, a, b);
    }
  }

  /** A readable latch leaves the disk in these three ways only. */
  lemma LatchClearedOnlyAfterProof(s: State, a: Action, b: Binding)
    requires Reachable(s) && Step(s, a).Some?
    requires s.disk.active == Whole(b) && Step(s, a).value.disk.active != Whole(b)
    ensures RightlyCleared(s, a, Step(s, a).value, b)
  {
    ReachableInv(s);
    StepClears(s, a, b);
  }

  /** A latch that is only half written leaves that state in two ways: it is written to the end, or taken
      back. Either happens in the thread that created it, with no worker alive. */
  lemma HalfWrittenLatch(s: State, a: Action)
    requires Reachable(s) && Step(s, a).Some?
    requires s.disk.active == Partial && Step(s, a).value.disk.active != Partial
    ensures s.service.Up? && s.service.task.Arming? && s.workers == map[] && s.disk.status == None
    ensures Step(s, a).value.disk
          == if a.RollBackLatch? then RemoveActive(s.disk) else CompleteActive(s.disk, s.service.task.binding)
    ensures a.RollBackLatch? || a.FlushLatch?
  {
    ReachableInv(s);
    if !MovesLatch(a) {
      LatchUnmoved(s, a);
    } else if a.DropLatch? {
      WatcherOwnsLatch(s, a.of);
    } else if OfArmer(a) {
      ArmMoves(s, a);
      UnlaunchedHasNoWorker(s);
    }
  }

  lemma ReachableInv(s: State)
    requires Reachable(s)
    ensures Inv(s)
  {
    var actions :| RunFrom(INITIAL, actions) == Some(s);
    RunKeeps(INITIAL, actions);
  }

  /** A worker that has not exited owns the latch, so no two workers are ever alive at once. */
  lemma OneWorkerOwnsTheLatch(s: State, b: Binding, c: Binding)
    requires Reachable(s) && b in s.workers && c in s.workers
    ensures s.disk.active == Whole(b) && b == c
  {
    ReachableInv(s);
  }

  /** The status file never stands alone and never contradicts the latch: reading the state fails only
      on a latch that a crash left half written, and then no worker and no status exists. */
  lemma ReadingNeverTorn(s: State)
    requires Reachable(s)
    ensures ReadActive(s.disk).Nothing? || ReadActive(s.disk).Latched? || ReadActive(s.disk).Unreadable?
    ensures ReadActive(s.disk).Unreadable? ==> s.disk.active == Partial && s.disk.status == None && s.workers == map[]
    ensures s.disk.status.Some? ==> s.disk.active == Whole(s.disk.status.value.binding)
  {
    ReachableInv(s);
    if s.disk.active == Partial {
      assert forall b <- s.workers :: s.disk.active == Whole(b);
      assert s.workers.Keys == {};
    }
  }

  /** `require_current_active` returns the latch on disk exactly when it is complete and of this instance:
      its version is always right, and its status never contradicts it. */
  lemma CurrentMeans(s: State, epoch: nat, b: Binding)
    requires Reachable(s)
    ensures CurrentActive(s.disk, epoch) == Some(b) <==> s.disk.active == Whole(b) && b.epoch == epoch
  {
    ReachableInv(s);
  }

  /** The latch `b` is on disk and its service instance is gone. */
  predicate Orphaned(s: State, b: Binding) {
    && s.disk.active == Whole(b) && b.epoch < s.nextEpoch
    && (!s.service.Down? ==> s.service.epoch != b.epoch)
  }

  lemma FrameKeepsOrphaned(s: State, t: State, b: Binding)
    requires Inv(s) && Orphaned(s, b) && LatchFrame(s, t)
    ensures Orphaned(t, b)
  {
  }

  lemma StepKeepsOrphaned(s: State, a: Action, b: Binding)
    requires Inv(s) && Orphaned(s, b) && Step(s, a).Some? && !a.OperatorDropsLatch?
    ensures Orphaned(Step(s, a).value, b)
  {
    if !MovesLatch(a) {
      LatchUnmoved(s, a);
      FrameKeepsOrphaned(s, Step(s, a).value, b);
    } else if OfArmer(a) {
      ArmMoves(s, a);
    } else {
      WatcherOwnsLatch(s, a.of);
    }
  }

  /** A latch armed in an earlier epoch survives every run without an operator, whatever restarts. */
  lemma {:induction false} OrphanedLatchStays(s: State, actions: seq<Action>, b: Binding)
    requires Inv(s) && Orphaned(s, b) && RunFrom(s, actions).Some?
    requires forall a <- actions :: !a.OperatorDropsLatch?
    ensures RunFrom(s, actions).value.disk.active == Whole(b)
    decreases |actions|
  {
    if actions != [] {
      StepKeeps(s, actions[0]);
      StepKeepsOrphaned(s, actions[0], b);
      OrphanedLatchStays(Step(s, actions[0]).value, actions[1..], b);
    }
  }

  /** The worker of the latch `b` is gone and left no complete proof. */
  predicate Abandoned(s: State, b: Binding) {
    && s.disk.active == Whole(b) && b !in s.workers && !ProofFile(s.disk, KeyOf(b)).Whole?
    && (s.service.Up? ==>
          && (s.service.task.Armed? || s.service.task.LatchFlushed? ==> s.service.task.binding != b)
          && (b in s.service.watchers ==>
                Idles(s.service.watchers[b])))
  }

  /** What a step that leaves the latch alone must not do to an abandoned one: revive its worker, complete
      its proof, or let its watcher go on to the archive. */
  predicate AbandonedFrame(s: State, t: State, b: Binding) {
    && b !in t.workers && !ProofFile(t.disk, KeyOf(b)).Whole?
    && (t.service.Up? && b in t.service.watchers ==> Idles(t.service.watchers[b]))
  }

  /** A watcher that has nothing to do with an archive. */
  predicate Idles(w: Watcher) { w.Waiting? || w.Exited? || w.Recovering? || w.Recording? }

  lemma ServiceAbandoned(s: State, a: Action, b: Binding)
    requires Abandoned(s, b) && ServiceStep(s, a).Some?
    ensures AbandonedFrame(s, ServiceStep(s, a).value, b)
  {
  }

  lemma WatcherAbandoned(s: State, a: Action, b: Binding)
    requires Inv(s) && Abandoned(s, b) && s.service.Up? && b in s.service.watchers
    ensures ArchiveStep(s, b, a).Some? ==> AbandonedFrame(s, ArchiveStep(s, b, a).value, b)
    ensures RecoverStep(s, b, a).Some? ==> AbandonedFrame(s, RecoverStep(s, b, a).value, b)
    ensures DropStep(s, b, a).None?
  {
  }

  lemma LaunchAbandoned(s: State, a: Action, b: Binding)
    requires Inv(s) && Abandoned(s, b)
    ensures LaunchStep(s, a).Some? ==> AbandonedFrame(s, LaunchStep(s, a).value, b)
    ensures FailureStep(s, a).Some? ==> AbandonedFrame(s, FailureStep(s, a).value, b)
  {
  }

  /** Beside an abandoned latch nothing is armed. */
  lemma ArmAbandoned(s: State, a: Action, b: Binding)
    requires Inv(s) && Abandoned(s, b)
    ensures ArmStep(s, a).None?
  {
  }

  lemma OutsideAbandoned(s: State, a: Action, b: Binding)
    requires Inv(s) && Abandoned(s, b)
    ensures OperatorStep(s, a).Some? ==> AbandonedFrame(s, OperatorStep(s, a).value, b)
    ensures OfWorker(a) ==> WorkerStep(s, a.of, a).None?
  {
  }

  lemma FrameKeepsAbandoned(s: State, t: State, b: Binding)
    requires Abandoned(s, b) && LatchFrame(s, t) && AbandonedFrame(s, t, b)
    ensures Abandoned(t, b)
  {
  }

  lemma StepFramesAbandoned(s: State, a: Action, b: Binding)
    requires Inv(s) && Abandoned(s, b) && Step(s, a).Some?
    ensures AbandonedFrame(s, Step(s, a).value, b) && !a.DropLatch? && !OfArmer(a)
  {
    if OfService(a) {
      ServiceAbandoned(s, a, b);
    } else if OfArchiver(a) || OfDropper(a) || OfRecoverer(a) {
      WatcherOwnsLatch(s, a.of);
      WatcherAbandoned(s, a, b);
    } else if OfWorker(a) || OfOperator(a) {
      OutsideAbandoned(s, a, b);
    } else if OfArmer(a) {
      ArmAbandoned(s, a, b);
    } else {
      LaunchAbandoned(s, a, b);
    }
  }

  lemma StepKeepsAbandoned(s: State, a: Action, b: Binding)
    requires Inv(s) && Abandoned(s, b) && Step(s, a).Some? && !a.OperatorDropsLatch?
    ensures Abandoned(Step(s, a).value, b)
  {
    StepFramesAbandoned(s, a, b);
    LatchUnmoved(s, a);
    FrameKeepsAbandoned(s, Step(s, a).value, b);
  }

  /** Without a complete proof the latch stays for good: a worker that was killed, that failed, or whose
      child was never verified, blocks every further launch until the operator steps in. */
  lemma {:induction false} AbandonedLatchStays(s: State, actions: seq<Action>, b: Binding)
    requires Inv(s) && Abandoned(s, b) && RunFrom(s, actions).Some?
    requires forall a <- actions :: !a.OperatorDropsLatch?
    ensures RunFrom(s, actions).value.disk.active == Whole(b)
    ensures RunFrom(s, actions).value.workers == map[]
    decreases |actions|
  {
    if actions == [] {
      assert forall c <- s.workers :: c == b;
      assert s.workers.Keys == {};
    } else {
      StepKeeps(s, actions[0]);
      StepKeepsAbandoned(s, actions[0], b);
      AbandonedLatchStays(Step(s, actions[0]).value, actions[1..], b);
    }
  }

  /** As long as the postflight of a started child is not verified, its worker has no proof and cannot
      begin one, and if it ends now, however it ends, the latch stays for good. */
  lemma UnverifiedChildAbandonsLatch(s: State, b: Binding)
    requires Reachable(s) && b in s.workers && s.workers[b].childStarted && !s.workers[b].postflightVerified
    ensures ProofFile(s.disk, KeyOf(b)).Absent? && Step(s, OpenProof(b)) == None
    ensures Step(s, Exit(b)).Some? && Inv(Step(s, Exit(b)).value) && Abandoned(Step(s, Exit(b)).value, b)
  {
    ReachableInv(s);
    StepKeeps(s, Exit(b));
    if s.service.Up? && b in s.service.watchers {
      assert WatcherTrue(s, s.service.epoch, b, s.service.watchers[b]);
    }
  }

  /** A flushed latch that could neither be synced nor taken back is abandoned at once. */
  lemma UnremovedLatchIsAbandoned(s: State, b: Binding)
    requires Reachable(s) && s.service.Up? && s.service.task == LatchFlushed(b)
    ensures Step(s, LatchStays).Some? && Inv(Step(s, LatchStays).value) && Abandoned(Step(s, LatchStays).value, b)
  {
    ReachableInv(s);
    StepKeeps(s, LatchStays);
    LaunchIsAlone(s);
  }

  /** The latch is half written, and nobody is about to complete it. */
  predicate Torn(s: State) { s.disk.active == Partial && !(s.service.Up? && s.service.task.Arming?) }

  lemma ArmTorn(s: State, a: Action)
    requires Inv(s) && Torn(s)
    ensures ArmStep(s, a).None?
  {
  }

  lemma StepKeepsTorn(s: State, a: Action)
    requires Inv(s) && Torn(s) && Step(s, a).Some?
    ensures Torn(Step(s, a).value)
  {
    if !MovesLatch(a) {
      LatchUnmoved(s, a);
    } else if OfArmer(a) {
      ArmTorn(s, a);
    } else if a.DropLatch? {
      WatcherOwnsLatch(s, a.of);
    }
  }

  /** A torn latch, left by a crash or by a cleanup that failed, stays in every run, and no worker is ever
      launched beside it. */
  lemma {:induction false} TornLatchStays(s: State, actions: seq<Action>)
    requires Inv(s) && Torn(s) && RunFrom(s, actions).Some?
    ensures RunFrom(s, actions).value.disk.active == Partial && RunFrom(s, actions).value.workers == map[]
    decreases |actions|
  {
    if actions == [] {
      assert forall b <- s.workers :: s.disk.active == Whole(b);
      assert s.workers.Keys == {};
    } else {
      StepKeeps(s, actions[0]);
      StepKeepsTorn(s, actions[0]);
      TornLatchStays(Step(s, actions[0]).value, actions[1..]);
    }
  }

  /** The binding `b` has been used and is not latched. */
  predicate Retired(s: State, b: Binding) {
    && b.nonce < s.nextNonce && s.disk.active != Whole(b)
    && !(s.service.Up? && s.service.task.Arming? && s.service.task.binding == b)
  }

  lemma FrameKeepsRetired(s: State, t: State, b: Binding)
    requires Retired(s, b) && LatchFrame(s, t)
    ensures Retired(t, b)
  {
  }

  lemma ArmKeepsRetired(s: State, a: Action, b: Binding)
    requires Inv(s) && Retired(s, b) && ArmStep(s, a).Some?
    ensures Retired(ArmStep(s, a).value, b)
  {
  }

  lemma RemovalKeepsRetired(s: State, a: Action, b: Binding)
    requires Retired(s, b)
    ensures OperatorStep(s, a).Some? ==> Retired(OperatorStep(s, a).value, b)
    ensures a.DropLatch? && DropStep(s, a.of, a).Some? ==> Retired(DropStep(s, a.of, a).value, b)
  {
  }

  lemma StepKeepsRetired(s: State, a: Action, b: Binding)
    requires Inv(s) && Retired(s, b) && Step(s, a).Some?
    ensures Retired(Step(s, a).value, b)
  {
    if !MovesLatch(a) {
      LatchUnmoved(s, a);
      FrameKeepsRetired(s, Step(s, a).value, b);
    } else if OfArmer(a) {
      ArmKeepsRetired(s, a, b);
    } else {
      RemovalKeepsRetired(s, a, b);
    }
  }

  /** A cleared latch never comes back: each binding is latched during one stretch of a run only. */
  lemma {:induction false} ClearedLatchNeverReturns(s: State, actions: seq<Action>, b: Binding)
    requires Inv(s) && Retired(s, b) && RunFrom(s, actions).Some?
    ensures RunFrom(s, actions).value.disk.active != Whole(b)
    ensures b !in RunFrom(s, actions).value.workers
    decreases |actions|
  {
    if actions != [] {
      StepKeeps(s, actions[0]);
      StepKeepsRetired(s, actions[0], b);
      ClearedLatchNeverReturns(Step(s, actions[0]).value, actions[1..], b);
    }
  }
}
