/** The durable files of the Approved Host authority, each change of them being one step: a file
    created exclusively exists empty before its content is written, a status replacement is atomic. */
module AuthorityDisk {
  import opened Wrappers

  const STATE_VERSION := 1

  /** The fields that bind every file of one armed operation together. */
  datatype Binding = Binding(version: nat, operation: string, epoch: nat, nonce: nat)

  /** The names of proof and archive carry the operation and the nonce. */
  datatype Key = Key(operation: string, nonce: nat)

  function KeyOf(b: Binding): Key { Key(b.operation, b.nonce) }

  datatype File<+T> = Absent | Partial | Whole(value: T)

  datatype Phase = Running | RecoveryRequired
  datatype Status = Status(binding: Binding, phase: Phase)

  datatype Proof = Proof(binding: Binding, childStarted: bool, postflightVerified: bool, returnedNormally: bool)
  datatype Record = Record(active: Binding, proof: Proof)

  /** `active.json`, `active-status.json`, the completion proofs and the `completed` archive. */
  datatype Disk = Disk(active: File<Binding>, status: Option<Status>,
                       proofs: map<Key, File<Proof>>, archive: map<Key, File<Record>>)

  datatype Reading = Nothing | Latched(active: Binding) | Unreadable | StatusWithoutLatch | BindingMismatch

  /** `HardenedAuthorityStateStore.read_active`. */
  function ReadActive(d: Disk): Reading {
    match d.active
    case Absent => if d.status.Some? then StatusWithoutLatch else Nothing
    case Partial => Unreadable
    case Whole(a) => if d.status.Some? && d.status.value.binding != a then BindingMismatch else Latched(a)
  }

  /** `require_current_active`: the latch of the calling service instance. */
  function CurrentActive(d: Disk, epoch: nat): Option<Binding> {
    match ReadActive(d)
    case Latched(a) => if a.version == STATE_VERSION && a.epoch == epoch then Some(a) else None
    case _ => None
  }

  function ProofFile(d: Disk, k: Key): File<Proof> { if k in d.proofs then d.proofs[k] else Absent }
  function ArchiveFile(d: Disk, k: Key): File<Record> { if k in d.archive then d.archive[k] else Absent }

  /** The checks of `consume_completion` before it writes anything. */
  predicate Accepts(a: Binding, p: Proof) {
    p.binding == a && a.version == STATE_VERSION && p.returnedNormally && (p.childStarted ==> p.postflightVerified)
  }

  // One function for each change of a file.
  function CreateActive(d: Disk): Disk { d.(active := Partial) }
  function CompleteActive(d: Disk, a: Binding): Disk { d.(active := Whole(a)) }
  function RemoveActive(d: Disk): Disk { d.(active := Absent) }
  function ReplaceStatus(d: Disk, s: Status): Disk { d.(status := Some(s)) }
  function RemoveStatus(d: Disk): Disk { d.(status := None) }
  function CreateProof(d: Disk, k: Key): Disk { d.(proofs := d.proofs[k := Partial]) }
  function CompleteProof(d: Disk, k: Key, p: Proof): Disk { d.(proofs := d.proofs[k := Whole(p)]) }
  function RemoveProof(d: Disk, k: Key): Disk { d.(proofs := d.proofs - {k}) }
  function CreateArchive(d: Disk, k: Key): Disk { d.(archive := d.archive[k := Partial]) }
  function CompleteArchive(d: Disk, k: Key, r: Record): Disk { d.(archive := d.archive[k := Whole(r)]) }
  function RemoveArchive(d: Disk, k: Key): Disk { d.(archive := d.archive - {k}) }
}
