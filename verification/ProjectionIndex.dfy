/** The index survives: what git will find tracked in the projection is what the source index tracks. */
module ProjectionIndex {
  import opened Wrappers
  import opened Bytes
  import opened Walks
  import opened Reachability
  import opened ProjectionPaths
  import opened ProjectionPlan
  import opened ProjectionPrune
  import opened ProjectionCopy
  import opened Projection
  import GitIndex

  /** The bytes that stand for the index: those that the planner holds, or those that are there. */
  function IndexSeen(s: Setup, data: bytes): bytes { if INDEX in s.prune.pins then s.prune.pins[INDEX] else data }

  lemma IndexParts()
    ensures Slashless([".git", "index"]) && Posix([".git", "index"]) == INDEX && Posix([".git"]) == ".git"
  {
    assert [".git", "index"][1..] == ["index"] && Posix(["index"]) == "index";
  }

  /** The index is a file in the metadata directory, in whatever case. */
  lemma IndexPath(fold: Fold, p: Path)
    requires CaseFold(fold) && Slashless(p) && p != [] && Folded(fold, p) == INDEX
    ensures |p| == 2 && FoldAll(fold, p) == [".git", "index"] && Folded(fold, p[..1]) == ".git"
  {
    IndexParts();
    FoldedParts(fold, p);
    FoldAllSlashless(fold, p);
    PosixPrefix([".git", "index"], FoldAll(fold, p));
    assert FoldAll(fold, p)[0] == ".git" && Posix(p[..1]) == p[0];
  }

  lemma MetadataIsEntered(s: Setup, p: Path, n: Node)
    requires |p| == 1 && Folded(s.fold, p) == ".git" && EntryPlan(s, p, n).Take? && n.Directory?
    ensures CopyEnter(s)(p, n)
  {
    assert Posix(p) == p[0];
  }

  /** Every entry of that name is kept for last, whatever it is pinned as, and nothing is written for it. */
  lemma IndexPlan(s: Setup, p: Path, n: Node)
    requires |p| == 2 && FoldAll(s.fold, p) == [".git", "index"] && Folded(s.fold, p) == INDEX
    requires EntryPlan(s, p, n).Take? && n.Regular?
    ensures exists need :: EntryPlan(s, p, n).outs == [DeferIndex(p, IndexSeen(s, n.data), need)]
  {
    assert FoldAll(s.fold, p)[0] == ".git" && FoldAll(s.fold, p)[1] == "index";
    assert INDEX[5] == 'i' && LOGS[5] == 'l' && REFS[5] == 'r';
    assert GateOf(s, p, n, INDEX).Pass?;
    var need := if INDEX in s.prune.pins then 0 else |n.data|;
    assert EntryPlan(s, p, n).outs == [DeferIndex(p, IndexSeen(s, n.data), need)];
  }

  /** The index that is present is visited. */
  lemma IndexVisited(s: Setup, g: Ground, root: seq<Child>, r: Progress<Event>, p: Path)
    requires CaseFold(s.fold) && Distinct(root) && ProperNames(root) && CopyTree(s, g, root) == Some(r)
    requires Present(root, p).Some? && Folded(s.fold, p) == INDEX
    ensures VisitedBy(s, root, p) == Present(root, p)
    ensures |p| == 2 && FoldAll(s.fold, p) == [".git", "index"]
  {
    var enter, all: Enter := CopyEnter(s), (q: Path, n: Node) => true;
    CopyPutsOut(s, g, root, r);
    VisitedIsReached(all, root, p);
    VisitedIsReached(enter, root, p);
    ReachedProper(all, [], root, p);
    IndexPath(s.fold, p);
    forall k | 0 < k < |p|
      ensures EnteredAt(enter, [], root, p, k)
    {
      if Reach(enter, [], root, p[..k]).Some? && Reach(enter, [], root, p[..k]).value.Directory? {
        assert [] + p[..k] == p[..k];
        VisitedIsReached(enter, root, p[..k]);
        assert VisitedBy(s, root, p[..k]).Some?;
        MetadataIsEntered(s, p[..k], Reach(enter, [], root, p[..k]).value);
      }
    }
    PresentReached(enter, all, [], root, p);
  }

  /** There is one index only. */
  lemma DeferredOnce(limit: nat, outs: seq<Event>, i: nat, j: nat)
    requires Fits(limit, outs) && i < |outs| && j < |outs| && outs[i].DeferIndex?
    ensures i < j ==> !outs[j].DeferIndex?
  {
    if i < j {
      assert outs[..j][i] == outs[i];
      assert outs[i] in outs[..j];
    }
  }

  lemma DeferredIs(limit: nat, outs: seq<Event>, e: Event)
    requires Fits(limit, outs) && e in outs && e.DeferIndex?
    ensures Deferred(outs) == Some(e)
  {
    var d := Deferred(outs).value;
    var i :| 0 <= i < |outs| && outs[i] == e;
    var j :| 0 <= j < |outs| && outs[j] == d;
    DeferredOnce(limit, outs, i, j);
    DeferredOnce(limit, outs, j, i);
  }

  lemma IndexIsNotWritten(s: Setup, g: Ground, root: seq<Child>, r: Progress<Event>, e: Event)
    requires Distinct(root) && CopyTree(s, g, root) == Some(r) && e in r.outs && Folded(s.fold, e.path) == INDEX
    ensures !e.Write?
  {
    CopyPutsOut(s, g, root, r);
    if e.Write? {
      EventsAreHere(s, e.path, VisitedBy(s, root, e.path).value, e);
    }
  }

  /** What a file that carries the name of the index was made from. */
  lemma IndexFileIs(s: Setup, g: Ground, root: seq<Child>, r: Progress<Event>, files: seq<File>, e: Event, f: File)
    requires Distinct(root) && CopyTree(s, g, root) == Some(r) && f in files && Folded(s.fold, f.path) == INDEX
    requires Finish(s, g, r.outs) == Some(files) && Deferred(r.outs) == Some(e)
    ensures f.path == e.path && IndexBytes(g, r.outs, e.data) == Some(f.data)
  {
    FilesMean(s, g, r.outs, f);
    forall w | w in r.outs && w.Write?
      ensures w.path != f.path
    {
      if w.path == f.path {
        IndexIsNotWritten(s, g, root, r, w);
      }
    }
  }

  /** The index survives. Where a repository with an index is projected, the projection carries exactly one
      file of that name, at the path of the index, and the paths that it tracks are those that the source
      index tracks, whether or not its cached attributes had to be rewritten. */
  lemma IndexSurvives(s: Setup, g: Ground, root: seq<Child>, files: seq<File>, p: Path, data: bytes) returns (f: File)
    requires CaseFold(s.fold) && Distinct(root) && ProperNames(root) && Project(s, g, root) == Some(files)
    requires Folded(s.fold, p) == INDEX && Present(root, p).Some? && Present(root, p).value.Regular?
    requires Present(root, p).value.data == data
    ensures f in files && f.path == p
    ensures GitIndex.Tracked(g.sha1, f.data) == GitIndex.Tracked(g.sha1, IndexSeen(s, data))
    ensures forall h <- files :: Folded(s.fold, h.path) == INDEX ==> h == f
  {
    var r := CopyTree(s, g, root).value;
    CopyPutsOut(s, g, root, r);
    IndexVisited(s, g, root, r, p);
    IndexPlan(s, p, Present(root, p).value);
    var need :| EntryPlan(s, p, Present(root, p).value).outs == [DeferIndex(p, IndexSeen(s, data), need)];
    var e := DeferIndex(p, IndexSeen(s, data), need);
    assert e in EntryPlan(s, p, Present(root, p).value).outs;
    RunFits(CopyDecide(s), CopyBounds(g.limit, g.entries), false, [Dir([], root)], Progress(0, []));
    DeferredIs(g.limit, r.outs, e);
    f := File(p, IndexBytes(g, r.outs, e.data).value);
    FilesMean(s, g, r.outs, f);
    IndexKeepsTracked(g, r.outs, e.data);
    forall h | h in files && Folded(s.fold, h.path) == INDEX
      ensures h == f
    {
      IndexFileIs(s, g, root, r, files, e, h);
    }
  }

  /** The planner's proof, as far as it speaks of the index. */
  lemma PlannedUntracked(sha1: GitIndex.Hash, text: bytes -> string, decode: bytes -> Option<string>, index: Presence,
                         ignore: Presence, planLimit: nat, observesIgnored: bool, s: Setup, dir: Path, below: Path)
    requires CaseFold(s.fold) && CanPrune(s.fold, s.matches, s.prune, dir) && below != []
          && s.fold(below[0]) == s.fold(dir[0])
    requires PlanPruning(sha1, text, decode, index, ignore, planLimit, observesIgnored) == Some(s.prune) && index.Found?
    ensures INDEX in s.prune.pins && TrackedPaths(sha1, text, s.prune.pins[INDEX]).Some?
    ensures forall t <- TrackedPaths(sha1, text, s.prune.pins[INDEX]).value :: s.fold(t) != Folded(s.fold, below)
  {
    PruningIsProven(sha1, text, decode, index, ignore, planLimit, observesIgnored, s.fold, s.matches, s.prune,
                    dir, below);
  }

  lemma SameTracked(sha1: GitIndex.Hash, text: bytes -> string, a: bytes, b: bytes)
    requires GitIndex.Tracked(sha1, a) == GitIndex.Tracked(sha1, b)
    ensures TrackedPaths(sha1, text, a) == TrackedPaths(sha1, text, b)
  {
  }

  /** What is pruned is tracked nowhere: let the pruning have been planned from an index, and a copy have
      been made of a repository that has one. Then of no directory that the plan prunes does the index of
      the projection track anything, the directory itself included, in whatever case. */
  lemma PrunedIsUntracked(text: bytes -> string, decode: bytes -> Option<string>, index: Presence, ignore: Presence,
                          planLimit: nat, observesIgnored: bool, s: Setup, g: Ground, root: seq<Child>,
                          files: seq<File>, p: Path, dir: Path, below: Path) returns (f: File)
    requires CaseFold(s.fold) && Distinct(root) && ProperNames(root) && Project(s, g, root) == Some(files)
    requires PlanPruning(g.sha1, text, decode, index, ignore, planLimit, observesIgnored) == Some(s.prune)
          && index.Found?
    requires Folded(s.fold, p) == INDEX && Present(root, p).Some? && Present(root, p).value.Regular?
    requires CanPrune(s.fold, s.matches, s.prune, dir) && below != [] && s.fold(below[0]) == s.fold(dir[0])
    ensures f in files && f.path == p && TrackedPaths(g.sha1, text, f.data).Some?
    ensures forall t <- TrackedPaths(g.sha1, text, f.data).value :: s.fold(t) != Folded(s.fold, below)
  {
    PlannedUntracked(g.sha1, text, decode, index, ignore, planLimit, observesIgnored, s, dir, below);
    f := IndexSurvives(s, g, root, files, p, Present(root, p).value.data);
    SameTracked(g.sha1, text, f.data, s.prune.pins[INDEX]);
  }
}
