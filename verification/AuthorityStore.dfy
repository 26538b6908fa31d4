/** `HardenedAuthorityStateStore` and the worker's completion lease as the objects they are. Every method is
    tied to the durable states it passes through, also where a file operation fails, and these are proved
    to be the states of a run of the protocol. */
module AuthorityStore {
  import opened Wrappers
  import opened AuthorityDisk
  import opened AuthorityProtocol

  /** Returned, refused by its own checks, or failed in a file operation. */
  datatype Outcome = Done | Refused | Raised

  // In a trail stands the disk behind every file operation. The first `budget` of them succeed; the next one
  // fails, and its entry is the disk behind the cleanup, which removes the file if it `cleans`.

  /** `arm` behind its check: create, write, sync. */
  function ArmTrail(d: Disk, b: Binding, budget: nat, cleans: bool): seq<Disk> {
    var created, written := CreateActive(d), CompleteActive(d, b);
    if budget == 0 then [d]
    else if budget == 1 then [created, if cleans then RemoveActive(d) else created]
    else if budget == 2 then [created, written, if cleans then RemoveActive(d) else written]
    else [created, written, written]
  }

  /** The exclusive write of the archive record. */
  function StoreTrail(d: Disk, k: Key, record: Record, budget: nat, cleans: bool): seq<Disk> {
    var created, written := CreateArchive(d, k), CompleteArchive(CreateArchive(d, k), k, record);
    if budget == 0 then [d]
    else if budget == 1 then [created, if cleans then RemoveArchive(created, k) else created]
    else if budget == 2 then [created, written, if cleans then RemoveArchive(written, k) else written]
    else [created, written, written]
  }

  /** The three removals behind it. */
  function DropTrail(d: Disk, k: Key, budget: nat): seq<Disk> {
    var proofless := RemoveProof(d, k);
    var bare := RemoveStatus(proofless);
    if budget == 0 then [d]
    else if budget == 1 then [proofless, proofless]
    else if budget == 2 then [proofless, bare, bare]
    else [proofless, bare, RemoveActive(bare)]
  }

  /** `consume_completion` behind its checks. */
  function ConsumeTrail(d: Disk, b: Binding, p: Proof, budget: nat, cleans: bool): seq<Disk> {
    var k, record := KeyOf(b), Record(b, p);
    StoreTrail(d, k, record, budget, cleans)
    + if budget < 3 then [] else DropTrail(CompleteArchive(CreateArchive(d, k), k, record), k, budget - 3)
  }

  /** The binding and proof that `consume_completion` accepts in `d`, if any. */
  function Acceptable(d: Disk, epoch: nat, k: Key): Option<(Binding, Proof)> {
    match (CurrentActive(d, epoch), ProofFile(d, k))
    case (Some(a), Whole(p)) => if Accepts(a, p) then Some((a, p)) else None
    case _ => None
  }

  class AuthorityStateStore {
    const epoch: nat
    var active: File<Binding>
    var status: Option<Status>
    var proofs: map<Key, File<Proof>>
    var archive: map<Key, File<Record>>
    ghost var trail: seq<Disk>

    ghost function Now(): Disk
      reads this
    {
      Disk(active, status, proofs, archive)
    }

    /** The trail ends in the present state. */
    ghost predicate Valid()
      reads this
    {
      trail != [] && trail[|trail| - 1] == Now()
    }

    constructor (epoch: nat, d: Disk)
      ensures Valid() && Now() == d && this.epoch == epoch && trail == [d]
    {
      this.epoch := epoch;
      active, status, proofs, archive := d.active, d.status, d.proofs, d.archive;
      trail := [d];
    }

    /** `read_active`: the latch, then whether there is a status file, then the four fields that bind it. */
    method Read() returns (r: Reading)
      ensures r == ReadActive(Now())
    {
      if active.Absent? {
        return if status.Some? then StatusWithoutLatch else Nothing;
      }
      if active.Partial? {
        return Unreadable;
      }
      var latch := active.value;
      if status.Some? {
        var noted := status.value.binding;
        if noted.version != latch.version || noted.operation != latch.operation
           || noted.epoch != latch.epoch || noted.nonce != latch.nonce {
          return BindingMismatch;
        }
      }
      r := Latched(latch);
    }

    /** `require_current_active`. */
    method RequireCurrent() returns (r: Option<Binding>)
      ensures r == CurrentActive(Now(), epoch)
    {
      var reading := Read();
      if !reading.Latched? || reading.active.version != STATE_VERSION || reading.active.epoch != epoch {
        return None;
      }
      r := Some(reading.active);
    }

    /** `arm`: refused while anything is latched; the exclusive write removes what it could not complete, if
        it can. */
    method Arm(b: Binding, budget: nat, cleans: bool) returns (r: Outcome)
      requires Valid()
      modifies this
      ensures Valid()
      ensures r == Refused <==> !ReadActive(old(Now())).Nothing?
      ensures r == Done <==> ReadActive(old(Now())).Nothing? && budget >= 3
      ensures trail == old(trail) + if r == Refused then [] else ArmTrail(old(Now()), b, budget, cleans)
    {
      var reading := Read();
      if !reading.Nothing? {
        return Refused;
      }
      if budget > 0 {
        active := Partial;
        trail := trail + [Now()];
      }
      if budget > 1 {
        active := Whole(b);
        trail := trail + [Now()];
      }
      if 0 < budget < 3 && cleans {
        active := Absent;
      }
      trail := trail + [Now()];
      r := if budget < 3 then Raised else Done;
    }

    /** `mark_running`: one atomic replacement of the sidecar status, and the latch is read once more. */
    method MarkRunning(writes: bool) returns (r: Outcome)
      requires Valid()
      modifies this
      ensures Valid()
      ensures r == Refused <==> CurrentActive(old(Now()), epoch).None?
      ensures r == Done <==> CurrentActive(old(Now()), epoch).Some? && writes
      ensures trail == old(trail)
                + if r == Refused then []
                  else [Noted(old(Now()), CurrentActive(old(Now()), epoch).value, Phase.Running, writes)]
    {
      var current := RequireCurrent();
      if current.None? {
        return Refused;
      }
      if writes {
        status := Some(Status(current.value, Phase.Running));
      }
      trail := trail + [Now()];
      if !writes {
        return Raised;
      }
      current := RequireCurrent();
      r := if current.Some? then Done else Refused;
    }

    /** `mark_recovery_required`: the same note on a latch of any epoch, and nothing without a latch. */
    method MarkRecoveryRequired(writes: bool) returns (r: Outcome)
      requires Valid()
      modifies this
      ensures Valid()
      ensures r == Refused <==> !ReadActive(old(Now())).Nothing? && !ReadActive(old(Now())).Latched?
      ensures r == Raised <==> ReadActive(old(Now())).Latched? && !writes
      ensures trail == old(trail)
                + if !ReadActive(old(Now())).Latched? then []
                  else [Noted(old(Now()), ReadActive(old(Now())).active, RecoveryRequired, writes)]
    {
      var reading := Read();
      if reading.Nothing? {
        return Done;
      }
      if !reading.Latched? {
        return Refused;
      }
      if writes {
        status := Some(Status(reading.active, RecoveryRequired));
      }
      trail := trail + [Now()];
      r := if writes then Done else Raised;
    }

    /** `consume_completion`: nothing is written before every check has passed, and the latch goes last. */
    method ConsumeCompletion(k: Key, budget: nat, cleans: bool) returns (r: Outcome)
      requires Valid()
      modifies this
      ensures Valid()
      ensures var accepted := Acceptable(old(Now()), epoch, k);
              && (r == Refused <==> accepted.None? || !ArchiveFile(old(Now()), KeyOf(accepted.value.0)).Absent?)
              && (r == Refused ==> trail == old(trail))
              && (r != Refused ==>
                    && trail == old(trail)
                              + ConsumeTrail(old(Now()), accepted.value.0, accepted.value.1, budget, cleans)
                    && (r == Done <==> budget >= 6))
    {
      var current := RequireCurrent();
      if current.None? || k !in proofs || !proofs[k].Whole? {
        return Refused;
      }
      var a, p := current.value, proofs[k].value;
      if p.binding != a || !p.returnedNormally || (p.childStarted && !p.postflightVerified) {
        return Refused;
      }
      var own := KeyOf(a);
      if own in archive && !archive[own].Absent? {
        return Refused;
      }
      assert Acceptable(Now(), epoch, k) == Some((a, p));
      r := Store(own, Record(a, p), budget, cleans);
      if r == Done {
        r := Discard(own, budget - 3);
      }
    }

    method Store(k: Key, record: Record, budget: nat, cleans: bool) returns (r: Outcome)
      requires Valid()
      modifies this
      ensures Valid() && r == (if budget < 3 then Raised else Done)
      ensures trail == old(trail) + StoreTrail(old(Now()), k, record, budget, cleans)
      ensures budget >= 3 ==> Now() == CompleteArchive(CreateArchive(old(Now()), k), k, record)
    {
      if budget > 0 {
        archive := archive[k := Partial];
        trail := trail + [Now()];
      }
      if budget > 1 {
        archive := archive[k := Whole(record)];
        trail := trail + [Now()];
      }
      if 0 < budget < 3 && cleans {
        archive := archive - {k};
      }
      trail := trail + [Now()];
      r := if budget < 3 then Raised else Done;
    }

    method Discard(k: Key, budget: nat) returns (r: Outcome)
      requires Valid()
      modifies this
      ensures Valid() && r == (if budget < 3 then Raised else Done)
      ensures trail == old(trail) + DropTrail(old(Now()), k, budget)
    {
      if budget > 0 {
        proofs := proofs - {k};
        trail := trail + [Now()];
      }
      if budget > 1 {
        status := None;
        trail := trail + [Now()];
      }
      if budget > 2 {
        active := Absent;
      }
      trail := trail + [Now()];
      r := if budget < 3 then Raised else Done;
    }
  }

  /** The status as an atomic replacement leaves it. */
  function Noted(d: Disk, read: Binding, phase: Phase, writes: bool): Disk {
    if writes then ReplaceStatus(d, Status(read, phase)) else d
  }

  /** What `finalize_normal_return` writes, if it writes anything. */
  function FinalProof(b: Binding, childStarted: bool, postflightVerified: bool): Option<Proof> {
    if childStarted && !postflightVerified then None else Some(Proof(b, childStarted, postflightVerified, true))
  }

  /** The lease of one worker; `S` is what the control-plane guard captures. Each method takes the protocol
      along: `s` is the state before it, and the result the state behind the worker's step. */
  class WorkerLease<S(==)> {
    const binding: Binding
    var childStarted: bool
    var postflightVerified: bool
    var expected: Option<S>

    /** The lease is that of the protocol's worker. */
    ghost predicate Mirrors(s: State)
      reads this
    {
      binding in s.workers && s.workers[binding] == Worker(childStarted, postflightVerified, Executing)
    }

    constructor (operation: string, epoch: nat, nonce: nat)
      ensures binding == Binding(STATE_VERSION, operation, epoch, nonce)
      ensures !childStarted && !postflightVerified && expected == None
    {
      binding := Binding(STATE_VERSION, operation, epoch, nonce);
      childStarted, postflightVerified, expected := false, false, None;
    }

    method MarkChildStarted(ghost s: State) returns (ghost t: State)
      requires Mirrors(s)
      modifies this
      ensures childStarted && postflightVerified == old(postflightVerified) && expected == old(expected)
      ensures Step(s, StartChild(binding)) == Some(t) && Mirrors(t)
    {
      t := WorkerStep(s, binding, StartChild(binding)).value;
      childStarted := true;
    }

    /** The hook around `expected_critical_state`; no step of the protocol. */
    method ObserveExpected(operation: string, state: S)
      modifies this
      ensures childStarted == old(childStarted) && postflightVerified == old(postflightVerified)
      ensures expected == if operation == binding.operation then Some(state) else old(expected)
    {
      if operation == binding.operation {
        expected := Some(state);
      }
    }

    /** The hook around `capture_critical_state`: only a capture equal to the expected state, after the
        child started, verifies the postflight, and that is the worker's step. */
    method ObserveCapture(operation: string, state: S, ghost s: State) returns (ghost t: State)
      requires Mirrors(s)
      modifies this
      ensures childStarted == old(childStarted) && expected == old(expected)
      ensures var matches := operation == binding.operation && expected == Some(state) && childStarted;
              && (postflightVerified <==> old(postflightVerified) || matches)
              && (if matches then Step(s, VerifyPostflight(binding)) == Some(t) else t == s)
      ensures Mirrors(t)
    {
      t := s;
      if operation == binding.operation && expected == Some(state) && childStarted {
        t := WorkerStep(s, binding, VerifyPostflight(binding)).value;
        postflightVerified := true;
      }
    }

    /** `finalize_normal_return`, up to the write of the file: there is a proof to write exactly when the
        worker may begin one, and it is the one the worker then writes. */
    method Finalize(ghost s: State) returns (proof: Option<Proof>)
      requires Mirrors(s) && ProofFile(s.disk, KeyOf(binding)).Absent?
      ensures proof == FinalProof(binding, childStarted, postflightVerified)
      ensures proof.Some? <==> Step(s, OpenProof(binding)).Some?
      ensures proof.Some? ==>
                var begun := Step(s, OpenProof(binding)).value;
                && begun.disk == CreateProof(s.disk, KeyOf(binding))
                && Step(begun, FlushProof(binding)).Some?
                && Step(begun, FlushProof(binding)).value.disk == CompleteProof(begun.disk, KeyOf(binding), proof.value)
    {
      if childStarted && !postflightVerified {
        return None;
      }
      return Some(Proof(binding, childStarted, postflightVerified, true));
    }
  }
}
