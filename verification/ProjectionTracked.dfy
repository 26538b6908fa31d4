/** Tracked files reach the projection, and protected ones never do. */
module ProjectionTracked {
  import opened Wrappers
  import opened Bytes
  import opened Walks
  import opened Reachability
  import opened ProjectionPaths
  import opened ProjectionPlan
  import opened ProjectionPrune
  import opened ProjectionCopy
  import opened Projection
  import opened ProjectionHead
  import GitIndex

  /** Outside the metadata no folded path looks like metadata. */
  lemma WorktreePath(s: Setup, p: Path)
    requires CaseFold(s.fold) && Slashless(p) && p != [] && !InMetadata(s, p)
    ensures !(".git/" <= Folded(s.fold, p))
    ensures !Unobserved(s.refs, Folded(s.fold, p))
  {
    var c := FoldAll(s.fold, p);
    FoldedParts(s.fold, p);
    FoldAllSlashless(s.fold, p);
    assert c[0] == s.fold(p[0]) && Slashless([".git"]);
    PosixPrefix([".git"], c);
    assert Posix([".git"]) == ".git";
    assert Folded(s.fold, p) == LOGS || LOGS + "/" <= Folded(s.fold, p) || REFS + "/" <= Folded(s.fold, p)
      ==> ".git/" <= Folded(s.fold, p);
  }

  /** In the worktree only a protected entry, or one that raises, does not pass. */
  lemma WorktreePasses(s: Setup, p: Path, n: Node)
    requires CaseFold(s.fold) && Slashless(p) && p != [] && !InMetadata(s, p)
    ensures GateOf(s, p, n, Folded(s.fold, p)).Pass? ==> !Protected(s, p)
    ensures !Protected(s, p) ==> GateOf(s, p, n, Folded(s.fold, p)).Pass? || GateOf(s, p, n, Folded(s.fold, p)).Deny?
  {
    WorktreePath(s, p);
  }

  lemma PrefixInMetadata(s: Setup, p: Path, k: nat)
    requires 0 < k <= |p|
    ensures InMetadata(s, p[..k]) <==> InMetadata(s, p)
  {
    assert p[..k][0] == p[0];
  }

  /** No protected file is ever staged: of every file outside the metadata, neither the path nor a
      directory on the way to it is protected. */
  lemma ProtectedNeverStaged(s: Setup, g: Ground, root: seq<Child>, files: seq<File>, f: File, k: nat)
    requires CaseFold(s.fold) && Distinct(root) && ProperNames(root) && Project(s, g, root) == Some(files)
    requires f in files && f.path != [] && !InMetadata(s, f.path) && 0 < k <= |f.path|
    ensures !Protected(s, f.path[..k])
  {
    var p := f.path;
    var n := FileIsVisited(s, g, root, files, f);
    VisitedIsReached(CopyEnter(s), root, p);
    ReachedProper(CopyEnter(s), [], root, p);
    PrefixSlashless(p, k);
    PrefixInMetadata(s, p, k);
    if k < |p| {
      ReachedThrough(CopyEnter(s), [], root, p, k);
      n := Reach(CopyEnter(s), [], root, p[..k]).value;
      assert [] + p[..k] == p[..k];
      EnteredPasses(s, p[..k], n);
    } else {
      assert p[..k] == p;
    }
    WorktreePasses(s, p[..k], n);
  }

  lemma FileIsVisited(s: Setup, g: Ground, root: seq<Child>, files: seq<File>, f: File) returns (n: Node)
    requires Distinct(root) && Project(s, g, root) == Some(files) && f in files
    ensures VisitedBy(s, root, f.path) == Some(n) && GateOf(s, f.path, n, Folded(s.fold, f.path)).Pass?
  {
    var r := CopyTree(s, g, root).value;
    CopyPutsOut(s, g, root, r);
    FilesMean(s, g, r.outs, f);
    var e :| e in r.outs && (e.Write? || e.DeferIndex?) && e.path == f.path;
    n := VisitedBy(s, root, f.path).value;
    EventsAreHere(s, f.path, n, e);
  }

  lemma EnteredPasses(s: Setup, p: Path, n: Node)
    requires CopyEnter(s)(p, n)
    ensures GateOf(s, p, n, Folded(s.fold, p)).Pass?
  {
  }

  // ---- Tracked files ----

  /** The index tracks the path, in whatever case. */
  predicate TrackedAs(fold: Fold, tracked: set<string>, p: Path) { exists t <- tracked :: fold(t) == Folded(fold, p) }

  /** Nothing prunes a directory on the way to a tracked file. */
  lemma TrackedNotPruned(s: Setup, p: Path, k: nat)
    requires CaseFold(s.fold) && 0 < k <= |p| && (s.prune.globs == [] || TrackedAs(s.fold, s.prune.tracked, p))
    ensures !CanPrune(s.fold, s.matches, s.prune, p[..k])
  {
    if s.prune.globs != [] && k == 1 {
      FirstPart(s.fold, p);
      var t :| t in s.prune.tracked && s.fold(t) == Folded(s.fold, p);
      assert p[..1][0] == p[0];
    }
  }

  /** A file that nothing protects and nothing may prune, in a worktree that has not changed since its
      pinned files were read. */
  ghost predicate Kept(s: Setup, root: seq<Child>, p: Path, data: bytes) {
    && p != [] && !InMetadata(s, p) && Present(root, p).Some? && Present(root, p).value.Regular?
    && Present(root, p).value.data == data
    && (forall k :: 0 < k <= |p| ==> !Protected(s, p[..k]))
    && (s.prune.globs == [] || TrackedAs(s.fold, s.prune.tracked, p))
    && (Folded(s.fold, p) in s.prune.pins ==> s.prune.pins[Folded(s.fold, p)] == data)
    && forall key <- s.refs.pins :: ".git/" <= key
  }

  lemma WorktreeDirectory(s: Setup, p: Path, n: Node)
    requires CaseFold(s.fold) && Slashless(p) && p != [] && !InMetadata(s, p) && !Protected(s, p)
    requires EntryPlan(s, p, n).Take? && n.Directory? && !CanPrune(s.fold, s.matches, s.prune, p)
    ensures CopyEnter(s)(p, n)
  {
    WorktreePasses(s, p, n);
  }

  lemma KeptVisited(s: Setup, g: Ground, root: seq<Child>, r: Progress<Event>, p: Path, data: bytes)
    requires CaseFold(s.fold) && Distinct(root) && ProperNames(root) && CopyTree(s, g, root) == Some(r)
    requires Kept(s, root, p, data)
    ensures VisitedBy(s, root, p) == Present(root, p) && Slashless(p)
  {
    var enter, all: Enter := CopyEnter(s), (q: Path, n: Node) => true;
    CopyPutsOut(s, g, root, r);
    VisitedIsReached(all, root, p);
    VisitedIsReached(enter, root, p);
    ReachedProper(all, [], root, p);
    forall k | 0 < k < |p|
      ensures EnteredAt(enter, [], root, p, k)
    {
      if Reach(enter, [], root, p[..k]).Some? && Reach(enter, [], root, p[..k]).value.Directory? {
        assert [] + p[..k] == p[..k];
        VisitedIsReached(enter, root, p[..k]);
        assert VisitedBy(s, root, p[..k]).Some?;
        PrefixSlashless(p, k);
        PrefixInMetadata(s, p, k);
        TrackedNotPruned(s, p, k);
        WorktreeDirectory(s, p[..k], Reach(enter, [], root, p[..k]).value);
      }
    }
    PresentReached(enter, all, [], root, p);
  }

  /** What a file of the worktree becomes: itself, or the inert placeholder of an attributes file. */
  function Staged(s: Setup, p: Path, data: bytes): bytes {
    if NamedAttributes(s, p) then Placeholder(data) else data
  }

  lemma KeptIsWritten(s: Setup, p: Path, n: Node)
    requires CaseFold(s.fold) && Slashless(p) && p != [] && !InMetadata(s, p) && !Protected(s, p)
    requires n.Regular? && EntryPlan(s, p, n).Take? && (forall key <- s.refs.pins :: ".git/" <= key)
    requires Folded(s.fold, p) in s.prune.pins ==> s.prune.pins[Folded(s.fold, p)] == n.data
    ensures Write(p, Staged(s, p, n.data), |n.data|) in EntryPlan(s, p, n).outs
  {
    WorktreePath(s, p);
    WorktreePasses(s, p, n);
    assert ".git/" <= INDEX && ".git/" <= CONFIG;
  }

  lemma KeptIsStaged(s: Setup, g: Ground, root: seq<Child>, files: seq<File>, p: Path, data: bytes)
    requires CaseFold(s.fold) && Distinct(root) && ProperNames(root) && Project(s, g, root) == Some(files)
    requires Kept(s, root, p, data)
    ensures File(p, Staged(s, p, data)) in files
  {
    var r := CopyTree(s, g, root).value;
    CopyPutsOut(s, g, root, r);
    KeptVisited(s, g, root, r, p, data);
    assert p[..|p|] == p;
    KeptIsWritten(s, p, Present(root, p).value);
    assert Write(p, Staged(s, p, data), |data|) in r.outs;
    FilesMean(s, g, r.outs, File(p, Staged(s, p, data)));
  }

  lemma RefFileInMetadata(c: Path)
    requires RefFile(c)
    ensures ".git/" <= Posix(c)
  {
    assert Posix(c) == ".git" + "/" + Posix(c[1..]);
  }

  lemma PinIsMetadata(env: Encoding, view: View, limit: nat, plan: RefPolicy, key: string)
    requires CaseFold(env.fold) && PlanRefs(NamesOf(env), view, limit, false) == Some(plan) && key in plan.pins
    ensures ".git/" <= key
  {
    PlanIsSound(NamesOf(env), view, limit, plan);
    var c := KeysAreRefFiles(env, plan, key);
    RefFileInMetadata(c);
  }

  /** What the planner of the refs pins lies in the metadata directory. */
  lemma PinsAreMetadata(env: Encoding, view: View, limit: nat, fullRefs: bool, plan: RefPolicy)
    requires CaseFold(env.fold) && PlanRefs(NamesOf(env), view, limit, fullRefs) == Some(plan)
    ensures forall key <- plan.pins :: ".git/" <= key
  {
    if !fullRefs {
      forall key | key in plan.pins
        ensures ".git/" <= key
      {
        PinIsMetadata(env, view, limit, plan, key);
      }
    }
  }

  /** Every tracked file survives. Let both policies have been planned, and the staged
      worktree be the one that was planned for: each file that the index tracks, in whatever case, and that
      nothing protects, is in the projection with its own bytes, or as the placeholder of an attributes
      file. So is every file at all where the index or the ignore file rule pruning out. */
  lemma TrackedFilesSurvive(sha1: GitIndex.Hash, text: bytes -> string, decode: bytes -> Option<string>,
                            index: Presence, ignore: Presence, planLimit: nat, observesIgnored: bool,
                            env: Encoding, view: View, fullRefs: bool,
                            s: Setup, g: Ground, root: seq<Child>, files: seq<File>, p: Path, data: bytes)
    requires PlanPruning(sha1, text, decode, index, ignore, planLimit, observesIgnored) == Some(s.prune)
    requires CaseFold(s.fold) && Distinct(root) && ProperNames(root) && Project(s, g, root) == Some(files)
    requires index.Found?
    requires TrackedPaths(sha1, text, index.data).Some? ==>
               TrackedAs(s.fold, TrackedPaths(sha1, text, index.data).value, p)
    requires p != [] && !InMetadata(s, p) && Present(root, p).Some? && Present(root, p).value.Regular?
    requires Present(root, p).value.data == data && forall k :: 0 < k <= |p| ==> !Protected(s, p[..k])
    requires Folded(s.fold, p) in s.prune.pins ==> s.prune.pins[Folded(s.fold, p)] == data
    requires env.fold == s.fold && PlanRefs(NamesOf(env), view, planLimit, fullRefs) == Some(s.refs)
    ensures File(p, Staged(s, p, data)) in files
  {
    PinsAreMetadata(env, view, planLimit, fullRefs, s.refs);
    PolicyKnowsIndex(sha1, text, decode, index, ignore, planLimit, observesIgnored, s.prune);
    assert Kept(s, root, p, data);
    KeptIsStaged(s, g, root, files, p, data);
  }
}
