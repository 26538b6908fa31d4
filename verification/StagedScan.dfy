/** The run tree of a sandboxed run: its bounded scan, and the delta of the tree as a whole. */
module StagedScan {
  import opened Wrappers
  import opened Bytes
  import opened Walks
  import opened Reachability
  import opened StagedChanges
  import ProjectionPaths
  import Sequences

  datatype TreeFile = TreeFile(path: Path, data: bytes, links: nat)

  /** What a scan meets besides the tree: entries that are gone when it looks at them, directories that are
      gone when their turn comes, and alternate data streams. */
  datatype Mishaps = Mishaps(missed: Path -> bool, gone: Path -> bool, streams: Path -> bool)

  /** `scan_directory_bounded` with reparse points and alternate streams rejected. */
  function ScanDecide(m: Mishaps): Decide<TreeFile> {
    (p: Path, n: Node) =>
      if m.missed(p) then Take([], false)
      else if m.streams(p) then Refuse
      else
        match n
        case Special(_) => Refuse
        case Directory(_) => Take([], !m.gone(p))
        case Regular(data, links) => Take([TreeFile(p, data, links)], false)
  }

  /** The directories that the scan lists. */
  function Listed(m: Mishaps): Enter { (p: Path, n: Node) => !m.missed(p) && !m.streams(p) && !m.gone(p) }

  function Origin(): TreeFile -> Path { (f: TreeFile) => f.path }

  function Size(files: seq<TreeFile>): nat {
    if files == [] then 0 else |files[0].data| + Size(files[1..])
  }

  function ScanBounds(entries: nat, most: nat): Bounds<TreeFile> {
    Bounds((files: seq<TreeFile>) => Size(files) <= most, entries)
  }

  /** The files of a run tree, or `None` where something in it is neither file nor directory or has an
      alternate stream, or there are too many entries or bytes. */
  function ScanTree(m: Mishaps, root: seq<Child>, entries: nat, most: nat): Option<Progress<TreeFile>> {
    if m.gone([]) then Some(Progress(0, []))
    else if m.streams([]) then None
    else Run(ScanDecide(m), ScanBounds(entries, most), false, [Dir([], root)], Progress(0, []))
  }

  // ---- What a scan finds ----

  lemma {:induction false} SizeSum(a: seq<TreeFile>, b: seq<TreeFile>)
    ensures Size(a + b) == Size(a) + Size(b)
  {
    if a == [] {
      assert a + b == b;
    } else {
      assert (a + b)[1..] == a[1..] + b;
      SizeSum(a[1..], b);
    }
  }

  lemma {:induction false} SizeOrderBlind(a: seq<TreeFile>, b: seq<TreeFile>)
    requires multiset(a) == multiset(b)
    ensures Size(a) == Size(b)
    decreases |a|
  {
    if a == [] {
      assert |multiset(b)| == 0;
    } else {
      var i, rest := Sequences.Without(a, b);
      SizeOrderBlind(a[1..], rest);
      SizeSum(b[..i], b[i + 1..]);
      SizeSum(b[..i], [b[i]] + b[i + 1..]);
      SizeSum([b[i]], b[i + 1..]);
      assert [b[i]][1..] == [];
    }
  }

  lemma ScanBounding(entries: nat, most: nat)
    ensures Bounding(ScanBounds(entries, most).fits)
  {
    var fits := ScanBounds(entries, most).fits;
    forall a: seq<TreeFile>, b: seq<TreeFile>
      ensures multiset(a) == multiset(b) ==> fits(a) == fits(b)
      ensures fits(a + b) ==> fits(a)
    {
      SizeSum(a, b);
      if multiset(a) == multiset(b) {
        SizeOrderBlind(a, b);
      }
    }
  }

  lemma ScanIsGuided(m: Mishaps)
    ensures Guided(ScanDecide(m), Listed(m), Origin())
  {
  }

  /** The scan comes to this regular file, and it is there when it does. */
  predicate FileAt(m: Mishaps, root: seq<Child>, f: TreeFile) {
    && !m.gone([]) && !m.missed(f.path) && !m.streams(f.path)
    && Visited(Listed(m), [], root, f.path) == Some(Regular(f.data, f.links))
  }

  /** `files` are these files, each once. */
  ghost predicate AllFiles(m: Mishaps, root: seq<Child>, files: seq<TreeFile>) {
    forall f :: multiset(files)[f] == if FileAt(m, root, f) then 1 else 0
  }

  lemma YieldsFiles(m: Mishaps, root: seq<Child>, files: seq<TreeFile>)
    requires !m.gone([])
    ensures Yields(ScanDecide(m), Listed(m), Origin(), root, files) <==> AllFiles(m, root, files)
  {
    forall f: TreeFile
      ensures Due(ScanDecide(m), Listed(m), Origin(), [], root, f) == if FileAt(m, root, f) then 1 else 0
    {
      DueOnce(m, root, f);
    }
  }

  lemma DueOnce(m: Mishaps, root: seq<Child>, f: TreeFile)
    requires !m.gone([])
    ensures Due(ScanDecide(m), Listed(m), Origin(), [], root, f) == if FileAt(m, root, f) then 1 else 0
  {
    var n := Visited(Listed(m), [], root, f.path);
    if n.Some? && n.value.Regular? && !m.missed(f.path) && !m.streams(f.path) {
      assert ScanDecide(m)(f.path, n.value).outs == [TreeFile(f.path, n.value.data, n.value.links)];
    }
  }

  /** What the scan looks at are files and directories without alternate streams. */
  ghost predicate Ordinary(m: Mishaps, root: seq<Child>) {
    forall path :: Visited(Listed(m), [], root, path).Some? && !m.missed(path) ==>
      !Visited(Listed(m), [], root, path).value.Special? && !m.streams(path)
  }

  lemma OrdinaryMeans(m: Mishaps, root: seq<Child>)
    ensures AllTaken(ScanDecide(m), Listed(m), [], root) <==> Ordinary(m, root)
  {
    forall path | Visited(Listed(m), [], root, path).Some?
      ensures ScanDecide(m)(path, Visited(Listed(m), [], root, path).value).Take?
         <==> m.missed(path) || (!Visited(Listed(m), [], root, path).value.Special? && !m.streams(path))
    {
    }
  }

  /** The files have no more than `most` bytes. */
  ghost predicate SizeAtMost(m: Mishaps, root: seq<Child>, most: nat) {
    exists files :: AllFiles(m, root, files) && Size(files) <= most
  }

  lemma SizeMeans(m: Mishaps, root: seq<Child>, most: nat)
    requires Distinct(root) && !m.gone([])
    ensures AllFiles(m, root, Collect(ScanDecide(m), [], root))
    ensures SizeAtMost(m, root, most) <==> Size(Collect(ScanDecide(m), [], root)) <= most
  {
    var all := Collect(ScanDecide(m), [], root);
    ScanIsGuided(m);
    CollectYields(ScanDecide(m), Listed(m), Origin(), root);
    YieldsFiles(m, root, all);
    forall files | AllFiles(m, root, files)
      ensures Size(files) == Size(all)
    {
      SameFiles(m, root, files, all);
      SizeOrderBlind(files, all);
    }
  }

  lemma SameFiles(m: Mishaps, root: seq<Child>, a: seq<TreeFile>, b: seq<TreeFile>)
    requires AllFiles(m, root, a) && AllFiles(m, root, b)
    ensures multiset(a) == multiset(b)
  {
    assert forall f :: multiset(a)[f] == multiset(b)[f];
  }

  /** A scan succeeds exactly when the root is gone, or what it looks at are files and directories without
      alternate streams, no more entries than allowed, and no more bytes; and then it has found every file
      that is there when it looks, once. */
  lemma ScanMeans(m: Mishaps, root: seq<Child>, entries: nat, most: nat)
    requires Distinct(root)
    ensures var r := ScanTree(m, root, entries, most);
            && (r.Some? <==> || m.gone([])
                             || (&& !m.streams([]) && Ordinary(m, root) && VisitsAtMost(Listed(m), root, entries)
                                 && SizeAtMost(m, root, most)))
            && (r.Some? ==> AllFiles(m, root, r.value.outs))
  {
    if !m.gone([]) {
      ScanIsGuided(m);
      ScanBounding(entries, most);
      RunFromRoot(ScanDecide(m), ScanBounds(entries, most), false, Dir([], root));
      AcceptedMeans(ScanDecide(m), Listed(m), Origin(), root);
      CountMeans(ScanDecide(m), Listed(m), Origin(), root, entries);
      OrdinaryMeans(m, root);
      SizeMeans(m, root, most);
      if ScanTree(m, root, entries, most).Some? {
        SameOuts(m, root, ScanTree(m, root, entries, most).value.outs, Collect(ScanDecide(m), [], root));
      }
    }
  }

  lemma SameOuts(m: Mishaps, root: seq<Child>, a: seq<TreeFile>, b: seq<TreeFile>)
    requires multiset(a) == multiset(b) && AllFiles(m, root, b)
    ensures AllFiles(m, root, a)
  {
  }

  // ---- The loops ----

  /** When an entry raises or goes over the limit, so does its directory. */
  lemma EntryOver(decide: Decide<TreeFile>, d: Dir, i: nat, files: seq<TreeFile>, dirs: seq<Dir>,
                  whole: Option<Scanned<TreeFile>>, before: nat, most: nat)
    requires i < |d.children| && Joined(files, dirs, Scan(decide, d.path, d.children[i..])) == whole
    requires var plan := decide(d.path + [d.children[i].name], d.children[i].node);
             plan.Take? ==> before + Size(files + plan.outs) > most
    ensures whole.Some? ==> before + Size(whole.value.outs) > most
  {
    ScanAt(decide, d.path, d.children, i, files, dirs);
    if whole.Some? {
      SizeSum(files + decide(d.path + [d.children[i].name], d.children[i].node).outs,
              Scan(decide, d.path, d.children[i + 1..]).value.outs);
    }
  }

  method ScanDirectory(m: Mishaps, d: Dir, before: nat, most: nat, ghost decide: Decide<TreeFile>)
    returns (ok: bool, files: seq<TreeFile>, dirs: seq<Dir>, total: nat)
    requires before <= most && decide == ScanDecide(m)
    ensures var scan := Scan(decide, d.path, d.children);
            && (ok <==> scan.Some? && before + Size(scan.value.outs) <= most)
            && (ok ==> scan == Some(Scanned(files, dirs)) && total == before + Size(files))
  {
    files, dirs, total := [], [], before;
    ghost var whole := Scan(decide, d.path, d.children);
    assert d.children[0..] == d.children;
    JoinedEnds(files, dirs, whole);
    var i := 0;
    while i < |d.children|
      invariant i <= |d.children| && total == before + Size(files) <= most
      invariant Joined(files, dirs, Scan(decide, d.path, d.children[i..])) == whole
    {
      var p, n := d.path + [d.children[i].name], d.children[i].node;
      ScanAt(decide, d.path, d.children, i, files, dirs);
      assert files + [] == files && dirs + [] == dirs;
      if m.missed(p) {
        i := i + 1;
        continue;
      }
      if n.Special? || m.streams(p) {
        return false, files, dirs, total;
      }
      if n.Directory? {
        if !m.gone(p) {
          dirs := dirs + [Dir(p, n.children)];
        }
      } else {
        SizeOne(files, TreeFile(p, n.data, n.links));
        if total + |n.data| > most {
          EntryOver(decide, d, i, files, dirs, whole, before, most);
          return false, files, dirs, total;
        }
        files, total := files + [TreeFile(p, n.data, n.links)], total + |n.data|;
      }
      i := i + 1;
    }
    assert d.children[i..] == [];
    JoinedEnds(files, dirs, whole);
    ok := true;
  }

  lemma SizeOne(files: seq<TreeFile>, f: TreeFile)
    ensures Size(files + [f]) == Size(files) + |f.data|
  {
    SizeSum(files, [f]);
    assert [f][1..] == [];
  }

  lemma FitsMeans(entries: nat, most: nat, met: nat, files: seq<TreeFile>, d: Dir, more: seq<TreeFile>)
    ensures Within(ScanBounds(entries, most), Progress(met, files), d, more)
       <==> met + |d.children| <= entries && Size(files) + Size(more) <= most
    ensures Size(files + more) == Size(files) + Size(more)
  {
    SizeSum(files, more);
  }

  /** The scan as the loop it is. */
  method ScanRunTree(m: Mishaps, root: seq<Child>, entries: nat, most: nat) returns (r: Option<seq<TreeFile>>)
    ensures var p := ScanTree(m, root, entries, most);
            (r.Some? <==> p.Some?) && (r.Some? ==> r.value == p.value.outs)
  {
    if m.gone([]) {
      return Some([]);
    }
    if m.streams([]) {
      return None;
    }
    assert Reversed([Dir([], root)]) == [Dir([], root)];
    r := DrainStack(m, root, entries, most, ScanDecide(m), ScanBounds(entries, most));
  }

  /** The directory on top of the stack. */
  method ScanTop(m: Mishaps, stack: seq<Dir>, met: nat, files: seq<TreeFile>, total: nat, entries: nat, most: nat,
                 ghost decide: Decide<TreeFile>, ghost bounds: Bounds<TreeFile>)
    returns (ok: bool, rest: seq<Dir>, now: seq<TreeFile>, after: nat)
    requires decide == ScanDecide(m) && bounds == ScanBounds(entries, most)
    requires stack != [] && total == Size(files) <= most
    ensures var whole := RunStack(decide, bounds, stack, Progress(met, files));
            && (!ok ==> whole.None?)
            && (ok ==> && whole == RunStack(decide, bounds, rest, Progress(met + |stack[|stack| - 1].children|, now))
                       && WeightAll(Reversed(rest)) < WeightAll(Reversed(stack)))
    ensures ok ==> after == Size(now) <= most
  {
    var d := stack[|stack| - 1];
    ghost var scan, p := Scan(decide, d.path, d.children), Progress(met, files);
    if scan.Some? {
      FitsMeans(entries, most, met, files, d, scan.value.outs);
    }
    rest, now, after := stack[..|stack| - 1], files, total;
    if met + |d.children| > entries {
      StackStops(decide, bounds, stack, p);
      return false, rest, now, after;
    }
    var more, dirs;
    ok, more, dirs, after := ScanDirectory(m, d, total, most, decide);
    if !ok {
      StackStops(decide, bounds, stack, p);
      return;
    }
    rest, now := rest + dirs, now + more;
    StackGoesOn(decide, bounds, stack, p, scan.value, rest, Progress(met + |d.children|, now));
  }

  method DrainStack(m: Mishaps, root: seq<Child>, entries: nat, most: nat, ghost decide: Decide<TreeFile>,
                    ghost bounds: Bounds<TreeFile>)
    returns (r: Option<seq<TreeFile>>)
    requires decide == ScanDecide(m) && bounds == ScanBounds(entries, most)
    ensures var p := RunStack(decide, bounds, [Dir([], root)], Progress(0, []));
            (r.Some? <==> p.Some?) && (r.Some? ==> r.value == p.value.outs)
  {
    var pending, met: nat, files, total: nat := [Dir([], root)], 0, [], 0;
    ghost var whole := RunStack(decide, bounds, pending, Progress(met, files));
    while pending != []
      invariant total == Size(files) <= most && RunStack(decide, bounds, pending, Progress(met, files)) == whole
      decreases WeightAll(Reversed(pending))
    {
      var top := pending[|pending| - 1];
      var ok;
      ok, pending, files, total := ScanTop(m, pending, met, files, total, entries, most, decide, bounds);
      if !ok {
        return None;
      }
      met := met + |top.children|;
    }
    StackEmpty(decide, bounds, Progress(met, files));
    r := Some(files);
  }

  // ---- The delta of a tree ----

  function RunFileOf(f: TreeFile): RunFile { RunFile(ProjectionPaths.Posix(f.path), f.data, f.links > 1) }

  function RunFiles(files: seq<TreeFile>): (r: seq<RunFile>)
    ensures |r| == |files|
  {
    seq(|files|, i requires 0 <= i < |files| => RunFileOf(files[i]))
  }

  lemma FoundFile(m: Mishaps, root: seq<Child>, files: seq<TreeFile>, f: TreeFile)
    requires AllFiles(m, root, files)
    ensures f in files <==> FileAt(m, root, f)
  {
    assert f in files <==> multiset(files)[f] > 0;
  }

  lemma FilePath(m: Mishaps, root: seq<Child>, f: TreeFile)
    requires ProperNames(root) && FileAt(m, root, f)
    ensures f.path != [] && Slashless(f.path)
  {
    VisitedIsReached(Listed(m), root, f.path);
    ReachedProper(Listed(m), [], root, f.path);
  }

  lemma TwiceCounts(files: seq<TreeFile>, i: nat, j: nat)
    requires i < j < |files|
    ensures files[i] == files[j] ==> multiset(files)[files[i]] >= 2
  {
    assert files == files[..j] + files[j..];
    assert files[..j][i] == files[i] && files[j..][0] == files[j];
    assert multiset(files) == multiset(files[..j]) + multiset(files[j..]);
    assert files[i] in multiset(files[..j]) && files[j] in multiset(files[j..]);
  }

  lemma FilesNamedOnce(m: Mishaps, root: seq<Child>, files: seq<TreeFile>)
    requires ProperNames(root) && AllFiles(m, root, files)
    ensures NamedOnce(RunFiles(files))
  {
    var run := RunFiles(files);
    forall i, j | 0 <= i < j < |run|
      ensures run[i].relative != run[j].relative
    {
      FoundFile(m, root, files, files[i]);
      FoundFile(m, root, files, files[j]);
      FilePath(m, root, files[i]);
      FilePath(m, root, files[j]);
      ProjectionPaths.PosixPrefix(files[i].path, files[j].path);
      TwiceCounts(files, i, j);
    }
  }

  /** `collect_staged_workspace_changes` behind the reading of the manifest. */
  method CollectStaged(rules: Rules, records: map<string, Record>, m: Mishaps, root: seq<Child>, entries: nat)
    returns (ok: bool, changes: map<string, bytes>, deletions: set<string>)
    requires Distinct(root) && ProperNames(root)
    ensures var scan := ScanTree(m, root, entries, rules.maxTotal);
            && (ok <==> scan.Some? && Allowed(rules, records, RunFiles(scan.value.outs)))
            && (ok ==> && Lists(rules, records, RunFiles(scan.value.outs), changes)
                       && Deletes(rules, records, RunFiles(scan.value.outs), deletions))
  {
    var scan := ScanRunTree(m, root, entries, rules.maxTotal);
    if scan.None? {
      return false, map[], {};
    }
    ScanMeans(m, root, entries, rules.maxTotal);
    FilesNamedOnce(m, root, scan.value);
    ok, changes, deletions := CollectChanges(rules, records, RunFiles(scan.value));
  }

  /** The workspace holds the tree: every regular file that the scan found at its place, and none of the snapshot's that
      the tree has lost. */
  ghost predicate HoldsTree(prefix: string, snapshot: map<string, bytes>, m: Mishaps, root: seq<Child>,
                            workspace: map<string, bytes>)
  {
    && (forall f :: FileAt(m, root, f) ==> FileThere(prefix, workspace, RunFileOf(f)))
    && forall k <- snapshot :: Lost(m, root, k) ==> InWorkspace(prefix, k) !in workspace
  }

  ghost predicate Lost(m: Mishaps, root: seq<Child>, k: string) {
    forall f :: FileAt(m, root, f) ==> ProjectionPaths.Posix(f.path) != k
  }

  /** The outputs of the scan are the files it comes to. */
  lemma RunIsFound(m: Mishaps, root: seq<Child>, files: seq<TreeFile>)
    requires AllFiles(m, root, files)
    ensures forall f :: FileAt(m, root, f) ==> RunFileOf(f) in RunFiles(files)
    ensures forall r <- RunFiles(files) :: exists f :: FileAt(m, root, f) && RunFileOf(f) == r
  {
    var run := RunFiles(files);
    forall f | FileAt(m, root, f)
      ensures RunFileOf(f) in run
    {
      FoundFile(m, root, files, f);
      var i :| 0 <= i < |files| && files[i] == f;
      assert run[i] == RunFileOf(f);
    }
    forall r | r in run
      ensures exists f :: FileAt(m, root, f) && RunFileOf(f) == r
    {
      var i :| 0 <= i < |run| && run[i] == r;
      FoundFile(m, root, files, files[i]);
    }
  }

  lemma RanMeans(m: Mishaps, root: seq<Child>, files: seq<TreeFile>, k: string)
    requires AllFiles(m, root, files)
    ensures Ran(RunFiles(files), k) <==> !Lost(m, root, k)
  {
    RunIsFound(m, root, files);
    if !Lost(m, root, k) {
      var f :| FileAt(m, root, f) && ProjectionPaths.Posix(f.path) == k;
      assert RunFileOf(f) in RunFiles(files);
    }
  }

  lemma HoldsTreeMeans(prefix: string, snapshot: map<string, bytes>, m: Mishaps, root: seq<Child>, files: seq<TreeFile>,
                       workspace: map<string, bytes>)
    requires AllFiles(m, root, files)
    ensures HoldsRun(prefix, snapshot, RunFiles(files), workspace) <==> HoldsTree(prefix, snapshot, m, root, workspace)
  {
    RunIsFound(m, root, files);
    forall k
      ensures Ran(RunFiles(files), k) <==> !Lost(m, root, k)
    {
      RanMeans(m, root, files, k);
    }
  }

  lemma CollidesMeans(rules: Rules, records: map<string, Record>, snapshot: map<string, bytes>, m: Mishaps,
                      root: seq<Child>, files: seq<TreeFile>)
    requires AllFiles(m, root, files)
    ensures (forall f <- RunFiles(files) :: !Collides(rules, records, snapshot, f))
       <==> (forall f :: FileAt(m, root, f) ==> !Collides(rules, records, snapshot, RunFileOf(f)))
  {
    RunIsFound(m, root, files);
  }

  /** The delta of a whole run tree. Applied to a workspace that holds the snapshot, it makes it hold every
      regular file that the scan comes to, however deep, and nothing of the snapshot that it did not come to,
      if and only if none of these files has the size and digest of its snapshot without being it. */
  lemma TreeDeltaIsExact(rules: Rules, records: map<string, Record>, snapshot: map<string, bytes>, m: Mishaps,
                         root: seq<Child>, entries: nat, changes: map<string, bytes>, deletions: set<string>,
                         workspace: map<string, bytes>)
    requires Distinct(root) && Describes(rules, records, snapshot) && Placed(rules.prefix, snapshot, workspace)
    requires ScanTree(m, root, entries, rules.maxTotal).Some?
    requires var run := RunFiles(ScanTree(m, root, entries, rules.maxTotal).value.outs);
             Lists(rules, records, run, changes) && Deletes(rules, records, run, deletions)
    ensures HoldsTree(rules.prefix, snapshot, m, root, Applied(workspace, changes, deletions))
       <==> forall f :: FileAt(m, root, f) ==> !Collides(rules, records, snapshot, RunFileOf(f))
  {
    var files := ScanTree(m, root, entries, rules.maxTotal).value.outs;
    ScanMeans(m, root, entries, rules.maxTotal);
    DeltaYields(rules, records, snapshot, RunFiles(files), changes, deletions, workspace);
    HoldsTreeMeans(rules.prefix, snapshot, m, root, files, Applied(workspace, changes, deletions));
    CollidesMeans(rules, records, snapshot, m, root, files);
  }
}
