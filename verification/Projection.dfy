/** The staged Git projection as a whole: what ends up in it, and what does not. */
module Projection {
  import opened Wrappers
  import opened Bytes
  import opened Walks
  import opened Reachability
  import opened ProjectionPaths
  import opened ProjectionCopy
  import GitIndex
  import GitIndexRebase

  /** Limits and surroundings: `infoAttributes` is the look at `.git/info/attributes` before the copy, and
      the two views are the trees the index is rebased on. */
  datatype Ground = Ground(limit: nat, entries: nat, infoAttributes: bool, sha1: GitIndex.Hash,
                           source: GitIndexRebase.StatView, destination: GitIndexRebase.StatView)

  function Deferred(outs: seq<Event>): (r: Option<Event>)
    ensures r.Some? ==> r.value in outs && r.value.DeferIndex?
    ensures r.None? ==> forall e <- outs :: !e.DeferIndex?
  {
    if outs == [] then None else if outs[0].DeferIndex? then Some(outs[0]) else Deferred(outs[1..])
  }

  /** The bytes of the index as it is written: rebased if anything about attributes was made inert. */
  function IndexBytes(g: Ground, outs: seq<Event>, data: bytes): Option<bytes> {
    if g.infoAttributes || exists e <- outs :: e.Attributes?
    then GitIndexRebase.Rebased(g.sha1, data, g.source, g.destination)
    else Some(data)
  }

  function IndexFile(g: Ground, outs: seq<Event>): Option<seq<File>> {
    match Deferred(outs)
    case None => Some([])
    case Some(e) =>
      match IndexBytes(g, outs, e.data)
      case None => None
      case Some(data) => if |data| > g.limit - Total(Written(outs)) then None else Some([File(e.path, data)])
  }

  predicate Contained(fold: Fold, files: seq<File>, folded: string) {
    exists f <- files :: Folded(fold, f.path) == folded
  }

  /** What follows the loop of `_copy_repository_tree`. */
  function Finish(s: Setup, g: Ground, outs: seq<Event>): Option<seq<File>> {
    match IndexFile(g, outs)
    case None => None
    case Some(index) =>
      var files := Written(outs) + index;
      if Contained(s.fold, files, CONFIG) && Contained(s.fold, files, ".git/head") then Some(files) else None
  }

  function CopyTree(s: Setup, g: Ground, root: seq<Child>): Option<Progress<Event>> {
    Run(CopyDecide(s), CopyBounds(g.limit, g.entries), false, [Dir([], root)], Progress(0, []))
  }

  /** The files of the projection, or `None` where staging raises. */
  function Project(s: Setup, g: Ground, root: seq<Child>): Option<seq<File>> {
    match CopyTree(s, g, root)
    case None => None
    case Some(p) => Finish(s, g, p.outs)
  }

  // ---- Where files come from ----

  function CopyEnter(s: Setup): Enter {
    (p: Path, n: Node) => EntryPlan(s, p, n).Take? && EntryPlan(s, p, n).descend
  }

  function EventPath(): Event -> Path { (e: Event) => e.path }

  lemma EventsAreHere(s: Setup, p: Path, n: Node, e: Event)
    requires EntryPlan(s, p, n).Take? && e in EntryPlan(s, p, n).outs
    ensures e.path == p
    ensures e.Write? || e.DeferIndex? ==> n.Regular? && n.links <= 1 && GateOf(s, p, n, Folded(s.fold, p)).Pass?
    ensures e.Write? || e.DeferIndex?
          ==> FilePlan(s, p, n.data, Folded(s.fold, p)).Take? && e in FilePlan(s, p, n.data, Folded(s.fold, p)).outs
  {
  }

  lemma CopyIsGuided(s: Setup)
    ensures Guided(CopyDecide(s), CopyEnter(s), EventPath())
  {
    var decide := CopyDecide(s);
    forall p: Path, n: Node, e: Event | decide(p, n).Take? && e in decide(p, n).outs
      ensures EventPath()(e) == p
    {
      EventsAreHere(s, p, n, e);
    }
  }

  function VisitedBy(s: Setup, root: seq<Child>, path: Path): Option<Node> { Visited(CopyEnter(s), [], root, path) }

  /** The copier put out exactly what the nodes it visited yield, and raised at none of them. */
  lemma CopyPutsOut(s: Setup, g: Ground, root: seq<Child>, p: Progress<Event>)
    requires Distinct(root) && CopyTree(s, g, root) == Some(p)
    ensures forall e :: e in p.outs <==>
              && VisitedBy(s, root, e.path).Some? && EntryPlan(s, e.path, VisitedBy(s, root, e.path).value).Take?
              && e in EntryPlan(s, e.path, VisitedBy(s, root, e.path).value).outs
    ensures forall path :: VisitedBy(s, root, path).Some? ==> EntryPlan(s, path, VisitedBy(s, root, path).value).Take?
  {
    CopyIsGuided(s);
    RunPutsOut(CopyDecide(s), CopyBounds(g.limit, g.entries), false, CopyEnter(s), EventPath(), root, p);
  }

  lemma {:induction false} WrittenMeans(outs: seq<Event>, f: File)
    ensures f in Written(outs) <==> exists e <- outs :: e.Write? && e.path == f.path && e.data == f.data
  {
    if outs != [] {
      WrittenMeans(outs[1..], f);
      assert f in FilesOf(outs[0]) <==> outs[0].Write? && outs[0].path == f.path && outs[0].data == f.data;
      if e :| e in outs && e.Write? && e.path == f.path && e.data == f.data {
        assert e == outs[0] || e in outs[1..];
      }
    }
  }

  // ---- Limits ----

  lemma {:induction false} RunFits<O>(decide: Decide<O>, bounds: Bounds<O>, fifo: bool, work: seq<Dir>, p: Progress<O>)
    requires Run(decide, bounds, fifo, work, p).Some? && bounds.fits(p.outs) && p.met <= bounds.entries
    ensures var r := Run(decide, bounds, fifo, work, p).value; bounds.fits(r.outs) && r.met <= bounds.entries
    decreases WeightAll(work)
  {
    if work != [] {
      var scan, next := StepAgrees(decide, fifo, work);
      RunUnfolds(decide, bounds, fifo, work, p, scan, next);
      RunFits(decide, bounds, fifo, next, Progress(p.met + |work[0].children|, p.outs + scan.value.outs));
    }
  }

  /** The projection stays within its byte limit, the index included, and no more entries than the entry
      limit were looked at. */
  lemma ProjectionWithinLimits(s: Setup, g: Ground, root: seq<Child>)
    requires Project(s, g, root).Some?
    ensures Total(Project(s, g, root).value) <= g.limit
    ensures CopyTree(s, g, root).value.met <= g.entries
  {
    var outs := CopyTree(s, g, root).value.outs;
    RunFits(CopyDecide(s), CopyBounds(g.limit, g.entries), false, [Dir([], root)], Progress(0, []));
    FitsWithin(g.limit, outs);
    TotalSum(Written(outs), IndexFile(g, outs).value);
  }

  // ---- The index ----

  /** The files of a projection are the written ones and at most one index, whose tracked paths are those
      of the bytes it was made from. */
  lemma FilesMean(s: Setup, g: Ground, outs: seq<Event>, f: File)
    requires Finish(s, g, outs).Some?
    ensures f in Finish(s, g, outs).value <==>
              || (exists e <- outs :: e.Write? && e.path == f.path && e.data == f.data)
              || (Deferred(outs).Some? && f.path == Deferred(outs).value.path
                   && IndexBytes(g, outs, Deferred(outs).value.data) == Some(f.data))
  {
    WrittenMeans(outs, f);
  }

  lemma IndexKeepsTracked(g: Ground, outs: seq<Event>, data: bytes)
    requires IndexBytes(g, outs, data).Some?
    ensures GitIndex.Tracked(g.sha1, IndexBytes(g, outs, data).value) == GitIndex.Tracked(g.sha1, data)
  {
    if g.infoAttributes || exists e <- outs :: e.Attributes? {
      GitIndexRebase.RebasePreserves(g.sha1, data, g.source, g.destination);
    }
  }
}
