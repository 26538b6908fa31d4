/** What a sandboxed run did to its copy of the workspace: the changes and deletions that turn the staged
    snapshot into the run tree. */
module StagedChanges {
  import opened Bytes
  import Budgets

  type Digest = string

  /** A line of the staging manifest, and a regular file of the run tree; `unsafe` is a link of any kind. */
  datatype Record = Record(sha256: Digest, size: nat)
  datatype RunFile = RunFile(relative: string, data: bytes, unsafe: bool)

  /** `prefix` leads from the workspace root to the staged directory. `writable` and `removable` are the
      workspace's own checks of a planned write and of an existing file. */
  datatype Rules = Rules(sha256: bytes -> Digest, prefix: string, maxWrite: nat, maxTotal: nat,
                         writable: string -> bool, removable: string -> bool)

  /** `(source_base / relative).relative_to(workspace.root)`. */
  function InWorkspace(prefix: string, relative: string): string {
    if prefix == [] then relative else prefix + "/" + relative
  }

  predicate Unchanged(rules: Rules, records: map<string, Record>, f: RunFile) {
    f.relative in records && rules.sha256(f.data) == records[f.relative].sha256 && |f.data| == records[f.relative].size
  }

  function Weigh(): RunFile -> nat { (f: RunFile) => |f.data| }

  predicate NamedOnce(files: seq<RunFile>) {
    forall i, j :: 0 <= i < j < |files| ==> files[i].relative != files[j].relative
  }

  predicate Ran(files: seq<RunFile>, relative: string) { exists f <- files :: f.relative == relative }

  function Missing(records: map<string, Record>, files: seq<RunFile>): set<string> {
    set k | k in records && !Ran(files, k)
  }

  predicate FileAllowed(rules: Rules, records: map<string, Record>, f: RunFile) {
    && !f.unsafe && |f.data| <= rules.maxWrite
    && (!Unchanged(rules, records, f) ==> rules.writable(InWorkspace(rules.prefix, f.relative)))
  }

  /** Nothing makes the collection raise. */
  ghost predicate Allowed(rules: Rules, records: map<string, Record>, files: seq<RunFile>) {
    && (forall f <- files :: FileAllowed(rules, records, f))
    && Budgets.Sum(Weigh(), files) <= rules.maxTotal
    && forall k <- Missing(records, files) :: rules.removable(InWorkspace(rules.prefix, k))
  }

  /** The path of a changed file, and only that, is listed, with the file's bytes. */
  predicate ListedRight(rules: Rules, records: map<string, Record>, changes: map<string, bytes>, f: RunFile) {
    var p := InWorkspace(rules.prefix, f.relative);
    if Unchanged(rules, records, f) then p !in changes else p in changes && changes[p] == f.data
  }

  predicate FromRun(rules: Rules, files: seq<RunFile>, p: string) {
    exists f <- files :: InWorkspace(rules.prefix, f.relative) == p
  }

  /** `changes` holds the changed files of `files`, and no others. */
  ghost predicate Lists(rules: Rules, records: map<string, Record>, files: seq<RunFile>, changes: map<string, bytes>) {
    && (forall f <- files :: ListedRight(rules, records, changes, f))
    && forall p <- changes :: FromRun(rules, files, p)
  }

  lemma InWorkspaceInjective(prefix: string, a: string, b: string)
    ensures InWorkspace(prefix, a) == InWorkspace(prefix, b) <==> a == b
  {
    var n := |prefix| + 1;
    if prefix != [] && InWorkspace(prefix, a) == InWorkspace(prefix, b) {
      assert a == InWorkspace(prefix, a)[n..] && b == InWorkspace(prefix, b)[n..];
    }
  }

  lemma ListsMore(rules: Rules, records: map<string, Record>, files: seq<RunFile>, f: RunFile,
                  changes: map<string, bytes>, next: map<string, bytes>)
    requires Lists(rules, records, files, changes) && !Ran(files, f.relative)
    requires next
          == if Unchanged(rules, records, f) then changes else changes[InWorkspace(rules.prefix, f.relative) := f.data]
    ensures Lists(rules, records, files + [f], next)
  {
    var p := InWorkspace(rules.prefix, f.relative);
    forall g | g in files
      ensures InWorkspace(rules.prefix, g.relative) != p
    {
      InWorkspaceInjective(rules.prefix, g.relative, f.relative);
    }
    assert !FromRun(rules, files, p) && p !in changes;
    forall g | g in files + [f]
      ensures ListedRight(rules, records, next, g)
    {
      assert g in files ==> ListedRight(rules, records, changes, g);
    }
    forall q | q in next
      ensures FromRun(rules, files + [f], q)
    {
      if q in changes {
        assert FromRun(rules, files, q);
        assert forall g <- files :: g in files + [f];
      } else {
        assert f in files + [f];
      }
    }
  }

  lemma NewName(files: seq<RunFile>, k: nat)
    requires NamedOnce(files) && k < |files|
    ensures !Ran(files[..k], files[k].relative)
  {
  }

  /** `collect_staged_workspace_changes` behind its scan: it returns exactly when every output is allowed
      and the whole run tree is within its limit, and then the changed files and the vanished ones. */
  method CollectChanges(rules: Rules, records: map<string, Record>, files: seq<RunFile>)
    returns (ok: bool, changes: map<string, bytes>, deletions: set<string>)
    requires NamedOnce(files)
    ensures ok <==> Allowed(rules, records, files)
    ensures ok ==> Lists(rules, records, files, changes)
    ensures ok ==> Deletes(rules, records, files, deletions)
  {
    changes, deletions := map[], {};
    var total: nat := 0;
    assert files[..0] == [];
    for k := 0 to |files|
      invariant total == Budgets.Sum(Weigh(), files[..k]) && total <= rules.maxTotal
      invariant forall f <- files[..k] :: FileAllowed(rules, records, f)
      invariant Lists(rules, records, files[..k], changes)
    {
      var f := files[k];
      assert f in files;
      assert files[..k + 1] == files[..k] + [f] && files == files[..k + 1] + files[k + 1..];
      Budgets.SumConcat(Weigh(), files[..k], [f]);
      Budgets.SumOne(Weigh(), f);
      Budgets.SumConcat(Weigh(), files[..k + 1], files[k + 1..]);
      if f.unsafe || |f.data| > rules.maxWrite || total + |f.data| > rules.maxTotal {
        return false, changes, deletions;
      }
      total := total + |f.data|;
      ghost var before := changes;
      if !Unchanged(rules, records, f) {
        var p := InWorkspace(rules.prefix, f.relative);
        if !rules.writable(p) {
          return false, changes, deletions;
        }
        changes := changes[p := f.data];
      }
      NewName(files, k);
      ListsMore(rules, records, files[..k], f, before, changes);
    }
    assert files[..|files|] == files;
    ok, deletions := CollectDeletions(rules, Missing(records, files));
  }

  method CollectDeletions(rules: Rules, missing: set<string>) returns (ok: bool, deletions: set<string>)
    ensures ok <==> forall k <- missing :: rules.removable(InWorkspace(rules.prefix, k))
    ensures ok ==> deletions == set k | k in missing :: InWorkspace(rules.prefix, k)
  {
    deletions := {};
    var left := missing;
    while left != {}
      invariant left <= missing && deletions == set k | k in missing - left :: InWorkspace(rules.prefix, k)
      invariant forall k <- missing - left :: rules.removable(InWorkspace(rules.prefix, k))
      decreases left
    {
      var k :| k in left;
      if !rules.removable(InWorkspace(rules.prefix, k)) {
        return false, deletions;
      }
      deletions, left := deletions + {InWorkspace(rules.prefix, k)}, left - {k};
    }
    ok := true;
  }

  // ---- Applying the delta ----

  function Applied(workspace: map<string, bytes>, changes: map<string, bytes>, deletions: set<string>)
    : map<string, bytes>
  {
    (workspace - deletions) + changes
  }

  /** The manifest describes the snapshot. */
  ghost predicate Describes(rules: Rules, records: map<string, Record>, snapshot: map<string, bytes>) {
    && records.Keys == snapshot.Keys
    && forall k <- snapshot :: records[k] == Record(rules.sha256(snapshot[k]), |snapshot[k]|)
  }

  ghost predicate Placed(prefix: string, snapshot: map<string, bytes>, workspace: map<string, bytes>) {
    forall k <- snapshot :: InWorkspace(prefix, k) in workspace && workspace[InWorkspace(prefix, k)] == snapshot[k]
  }

  predicate FileThere(prefix: string, workspace: map<string, bytes>, f: RunFile) {
    var p := InWorkspace(prefix, f.relative);
    p in workspace && workspace[p] == f.data
  }

  /** The workspace holds the run tree: each of its files, and none of the snapshot's that is gone. */
  ghost predicate HoldsRun(prefix: string, snapshot: map<string, bytes>, files: seq<RunFile>,
                           workspace: map<string, bytes>)
  {
    && (forall f <- files :: FileThere(prefix, workspace, f))
    && forall k <- snapshot :: !Ran(files, k) ==> InWorkspace(prefix, k) !in workspace
  }

  /** `deletions` are the places of the snapshot files that are gone. */
  ghost predicate Deletes(rules: Rules, records: map<string, Record>, files: seq<RunFile>, deletions: set<string>) {
    deletions == set k | k in Missing(records, files) :: InWorkspace(rules.prefix, k)
  }

  lemma GoneIsNotListed(rules: Rules, records: map<string, Record>, files: seq<RunFile>, changes: map<string, bytes>,
                        k: string)
    requires Lists(rules, records, files, changes) && !Ran(files, k)
    ensures InWorkspace(rules.prefix, k) !in changes
  {
    forall f | f in files
      ensures InWorkspace(rules.prefix, f.relative) != InWorkspace(rules.prefix, k)
    {
      InWorkspaceInjective(rules.prefix, f.relative, k);
    }
    assert !FromRun(rules, files, InWorkspace(rules.prefix, k));
  }

  predicate Collides(rules: Rules, records: map<string, Record>, snapshot: map<string, bytes>, f: RunFile) {
    Unchanged(rules, records, f) && f.relative in snapshot && f.data != snapshot[f.relative]
  }

  lemma FileAfter(rules: Rules, records: map<string, Record>, snapshot: map<string, bytes>, files: seq<RunFile>,
                  changes: map<string, bytes>, deletions: set<string>, workspace: map<string, bytes>, f: RunFile)
    requires Describes(rules, records, snapshot) && Placed(rules.prefix, snapshot, workspace)
    requires Lists(rules, records, files, changes) && Deletes(rules, records, files, deletions) && f in files
    ensures FileThere(rules.prefix, Applied(workspace, changes, deletions), f)
          <==> !Collides(rules, records, snapshot, f)
  {
    assert ListedRight(rules, records, changes, f) && Ran(files, f.relative);
    forall k | k in Missing(records, files)
      ensures InWorkspace(rules.prefix, k) != InWorkspace(rules.prefix, f.relative)
    {
      InWorkspaceInjective(rules.prefix, k, f.relative);
    }
  }

  lemma DeltaYields(rules: Rules, records: map<string, Record>, snapshot: map<string, bytes>, files: seq<RunFile>,
                    changes: map<string, bytes>, deletions: set<string>, workspace: map<string, bytes>)
    requires Describes(rules, records, snapshot) && Placed(rules.prefix, snapshot, workspace)
    requires Lists(rules, records, files, changes) && Deletes(rules, records, files, deletions)
    ensures HoldsRun(rules.prefix, snapshot, files, Applied(workspace, changes, deletions))
       <==> forall f <- files :: !Collides(rules, records, snapshot, f)
  {
    var after := Applied(workspace, changes, deletions);
    forall f | f in files
      ensures FileThere(rules.prefix, after, f) <==> !Collides(rules, records, snapshot, f)
    {
      FileAfter(rules, records, snapshot, files, changes, deletions, workspace, f);
    }
    forall k | k in snapshot && !Ran(files, k)
      ensures InWorkspace(rules.prefix, k) !in after
    {
      assert k in Missing(records, files);
      GoneIsNotListed(rules, records, files, changes, k);
    }
  }

  /** Nothing of the run or of its snapshot belongs at `p`. */
  ghost predicate Foreign(prefix: string, snapshot: map<string, bytes>, files: seq<RunFile>, p: string) {
    forall k :: p == InWorkspace(prefix, k) ==> k !in snapshot && !Ran(files, k)
  }

  lemma DeltaLeaves(rules: Rules, records: map<string, Record>, snapshot: map<string, bytes>, files: seq<RunFile>,
                    changes: map<string, bytes>, deletions: set<string>, workspace: map<string, bytes>, p: string)
    requires Describes(rules, records, snapshot) && Foreign(rules.prefix, snapshot, files, p)
    requires Lists(rules, records, files, changes) && Deletes(rules, records, files, deletions)
    ensures p !in changes && p !in deletions
  {
    forall f | f in files
      ensures InWorkspace(rules.prefix, f.relative) != p
    {
      assert Ran(files, f.relative);
    }
    assert !FromRun(rules, files, p);
  }

  /** The delta is exact. Applied to a workspace that holds the snapshot it yields the run tree, and does so
      if and only if no output has the size and digest of its snapshot without being it; every path that is
      neither in the snapshot nor in the run tree stays as it is; no listed file has the bytes of its
      snapshot, and nothing is deleted that was not in it. */
  lemma DeltaIsExact(rules: Rules, records: map<string, Record>, snapshot: map<string, bytes>, files: seq<RunFile>,
                     changes: map<string, bytes>, deletions: set<string>, workspace: map<string, bytes>)
    requires Describes(rules, records, snapshot) && Placed(rules.prefix, snapshot, workspace)
    requires Lists(rules, records, files, changes) && Deletes(rules, records, files, deletions)
    ensures var after := Applied(workspace, changes, deletions);
            && (HoldsRun(rules.prefix, snapshot, files, after) <==>
                  forall f <- files :: !Collides(rules, records, snapshot, f))
            && (forall p :: Foreign(rules.prefix, snapshot, files, p) ==>
                              (p in after <==> p in workspace) && (p in workspace ==> after[p] == workspace[p]))
    ensures forall f <- files ::
              InWorkspace(rules.prefix, f.relative) in changes && f.relative in snapshot ==>
                f.data != snapshot[f.relative]
    ensures forall p <- deletions :: exists k <- snapshot :: p == InWorkspace(rules.prefix, k)
  {
    DeltaYields(rules, records, snapshot, files, changes, deletions, workspace);
    forall p | Foreign(rules.prefix, snapshot, files, p)
      ensures p !in changes && p !in deletions
    {
      DeltaLeaves(rules, records, snapshot, files, changes, deletions, workspace, p);
    }
    forall f | f in files && InWorkspace(rules.prefix, f.relative) in changes && f.relative in snapshot
      ensures f.data != snapshot[f.relative]
    {
      assert ListedRight(rules, records, changes, f);
    }
  }
}
