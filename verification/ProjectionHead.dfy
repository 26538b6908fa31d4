/** HEAD means the same in the projection as in the repository the planner read. */
module ProjectionHead {
  import opened Wrappers
  import opened Bytes
  import opened Texts
  import opened Walks
  import opened Reachability
  import opened ProjectionPaths
  import opened ProjectionPlan
  import opened ProjectionPrune
  import opened ProjectionCopy
  import opened Projection

  // ---- The paths a plan is about ----

  /** HEAD, `packed-refs`, or a ref with a decent name, as folded components. */
  predicate RefFile(c: Path) {
    && Slashless(c) && |c| >= 2 && c[0] == ".git" && c[|c| - 1] != [] && c[|c| - 1][0] != '.'
    && (c == [".git", "head"] || c == [".git", "packed-refs"] || (|c| >= 3 && c[1] == "refs"))
  }

  lemma {:induction false} SplitPart(x: string, rest: string)
    requires '/' !in x
    ensures SplitSlash(x + "/" + rest) == [x] + SplitSlash(rest)
  {
    var s := x + "/" + rest;
    if x == [] {
      assert s[0] == '/' && s[1..] == rest;
    } else {
      assert s[0] == x[0] && s[0] in x && s[1..] == x[1..] + "/" + rest;
      SplitPart(x[1..], rest);
      assert [x[0]] + x[1..] == x;
    }
  }

  /** A path that a plan can be about: HEAD, `packed-refs` or that of a ref. */
  predicate PlannedPath(p: Path) {
    && Slashless(p) && |p| >= 2 && p[0] == ".git" && p[|p| - 1] != [] && p[|p| - 1][0] != '.'
    && (p == [".git", "HEAD"] || p == [".git", "packed-refs"] || (|p| >= 3 && p[1] == "refs"))
  }

  /** The path a symbolic ref names, component by component. */
  lemma RefPathParts(fold: Fold, target: string)
    requires ValidTarget(fold, target)
    ensures var path := RefPath(target);
            PlannedPath(path) && |path| >= 3
  {
    var path, parts := RefPath(target), SplitSlash(target);
    assert target == "refs" + "/" + target[5..];
    SplitPart("refs", target[5..]);
    forall part | part in path
      ensures part != [] && '/' !in part
    {
      assert part == ".git" || part in parts;
      assert part in parts ==> ValidComponent(fold, part);
    }
    assert path[|path| - 1] == parts[|parts| - 1] && parts[|parts| - 1] in parts;
    assert ValidComponent(fold, parts[|parts| - 1]);
  }

  lemma FoldedRefFile(fold: Fold, path: Path)
    requires CaseFold(fold) && PlannedPath(path)
    ensures var c := FoldAll(fold, path);
            RefFile(c) && Folded(fold, path) == Posix(c) && (c[1] == "refs" <==> |path| >= 3)
  {
    var c := FoldAll(fold, path);
    FoldedParts(fold, path);
    FoldAllSlashless(fold, path);
    AsciiFolds(fold);
    assert c[0] == ".git" && c[|c| - 1] == fold(path[|path| - 1]) && c[1] == fold(path[1]);
    if |path| == 2 {
      assert c == [c[0], c[1]];
    }
  }

  lemma Lowered()
    ensures LowerCase(".git") == ".git" && LowerCase("refs") == "refs"
    ensures LowerCase("HEAD") == "head" && LowerCase("packed-refs") == "packed-refs"
  {
  }

  lemma AsciiFolds(fold: Fold)
    requires CaseFold(fold)
    ensures fold(".git") == ".git" && fold("refs") == "refs" && fold("HEAD") == "head"
          && fold("packed-refs") == "packed-refs"
  {
    Lowered();
    assert Ascii(".git") && Ascii("refs") && Ascii("HEAD") && Ascii("packed-refs");
  }

  lemma HeadFiles()
    ensures PlannedPath([".git", "HEAD"]) && PlannedPath([".git", "packed-refs"])
  {
  }

  lemma TargetOfKey(env: Encoding, k: string) returns (path: Path)
    requires IsRefKey(NamesOf(env), k)
    ensures PlannedPath(path) && |path| >= 3 && k == Folded(env.fold, path)
  {
    var names := NamesOf(env);
    var target :| IsTarget(names, target) && k == names.key(target);
    var d :| names.content(d) == Symbolic(target);
    TargetIsValid(env, d, target);
    RefPathParts(env.fold, target);
    path := RefPath(target);
  }

  lemma TargetIsValid(env: Encoding, d: bytes, target: string)
    requires ContentOf(env, d) == Symbolic(target)
    ensures ValidTarget(env.fold, target)
  {
  }

  lemma KeyKinds(names: Names, plan: RefPolicy, k: string)
    requires WellPlanned(names, plan) && (k in plan.pins || k in plan.absent)
    ensures k in plan.required ==> IsRefKey(names, k)
    ensures k !in plan.required ==> k == names.head || k == names.packed
  {
  }

  lemma KeyPath(env: Encoding, plan: RefPolicy, k: string) returns (path: Path)
    requires WellPlanned(NamesOf(env), plan) && (k in plan.pins || k in plan.absent)
    ensures PlannedPath(path) && k == Folded(env.fold, path) && (|path| >= 3 ==> k in plan.required)
  {
    KeyKinds(NamesOf(env), plan, k);
    if k in plan.required {
      path := TargetOfKey(env, k);
    } else {
      path := OtherPath(env, k);
    }
  }

  lemma OtherPath(env: Encoding, k: string) returns (path: Path)
    requires k == NamesOf(env).head || k == NamesOf(env).packed
    ensures PlannedPath(path) && |path| == 2 && k == Folded(env.fold, path)
  {
    HeadFiles();
    if k == NamesOf(env).head {
      path := [".git", "HEAD"];
    } else {
      path := [".git", "packed-refs"];
    }
  }

  /** Every key of a plan is the path of such a file; those of refs are required. */
  lemma KeysAreRefFiles(env: Encoding, plan: RefPolicy, k: string) returns (c: Path)
    requires CaseFold(env.fold) && WellPlanned(NamesOf(env), plan) && (k in plan.pins || k in plan.absent)
    ensures RefFile(c) && k == Posix(c) && (c[1] == "refs" ==> k in plan.required)
  {
    var path := KeyPath(env, plan, k);
    FoldedRefFile(env.fold, path);
    c := FoldAll(env.fold, path);
  }

  // ---- The way to them is copied ----

  lemma NotSpecialFile(c: Path, k: nat)
    requires RefFile(c) && 0 < k <= |c|
    ensures var folded := Posix(c[..k]);
            folded != INDEX && folded != CONFIG && folded != INFO_ATTRIBUTES && !ExtendedMetadata(folded)
  {
    var q := c[..k];
    PrefixSlashless(c, k);
    if k == 1 {
      assert Posix(q) == ".git";
    } else if c[1] == "refs" {
      FixedParts();
      PosixPrefix([".git", "refs"], q);
      assert q[..2] == [".git", "refs"];
      assert Posix(q)[5] == 'r';
    } else {
      assert q == c && c[1..] == [c[1]];
      assert Posix(c) == ".git" + "/" + c[1];
      assert Posix(c)[5] == c[1][0];
    }
  }

  lemma OnTheWayObserved(policy: RefPolicy, c: Path, k: nat)
    requires RefFile(c) && 0 < k <= |c| && (c[1] == "refs" ==> Posix(c) in policy.required)
    ensures !Unobserved(policy, Posix(c[..k]))
  {
    var q := c[..k];
    PrefixSlashless(c, k);
    UnobservedParts(q);
    if k > 1 {
      assert q[1] == c[1];
      if c[1] == "refs" {
        PosixPrefix(q, c);
      }
    }
  }

  /** `q` is, folded, a part of the way to `c`. */
  predicate PartOf(fold: Fold, q: Path, c: Path) {
    && RefFile(c) && q != [] && |q| <= |c| && Slashless(q) && FoldAll(fold, q) == c[..|q|]
  }

  lemma PartFolds(fold: Fold, q: Path, c: Path)
    requires CaseFold(fold) && PartOf(fold, q, c)
    ensures Folded(fold, q) == Posix(c[..|q|]) && fold(q[0]) == ".git" && (|q| > 1 ==> fold(q[1]) == c[1])
    ensures fold(Last(q)) == c[|q| - 1]
  {
    FoldedParts(fold, q);
    assert FoldAll(fold, q)[0] == c[0];
    assert |q| > 1 ==> FoldAll(fold, q)[1] == c[1];
    assert FoldAll(fold, q)[|q| - 1] == c[|q| - 1];
  }

  /** Nothing on the way to a planned file is left out. */
  lemma GateOnTheWay(s: Setup, q: Path, n: Node, c: Path)
    requires CaseFold(s.fold) && PartOf(s.fold, q, c) && (c[1] == "refs" ==> Posix(c) in s.refs.required)
    requires !GateOf(s, q, n, Folded(s.fold, q)).Deny?
    ensures GateOf(s, q, n, Folded(s.fold, q)).Pass? && InMetadata(s, q)
  {
    PartFolds(s.fold, q, c);
    OnTheWayObserved(s.refs, c, |q|);
    NotSpecialFile(c, |q|);
    assert c[1] != "hooks" && c[1] != "modules";
  }

  lemma DirectoryOnTheWay(s: Setup, q: Path, n: Node, c: Path)
    requires CaseFold(s.fold) && PartOf(s.fold, q, c) && (c[1] == "refs" ==> Posix(c) in s.refs.required)
    requires EntryPlan(s, q, n).Take? && n.Directory?
    ensures CopyEnter(s)(q, n)
  {
    GateOnTheWay(s, q, n, c);
  }

  /** A pinned path that is taken yields one file with the pinned bytes. */
  lemma PinIsWritten(s: Setup, q: Path, n: Node, c: Path)
    requires CaseFold(s.fold) && PartOf(s.fold, q, c) && |q| == |c| && (c[1] == "refs" ==> Posix(c) in s.refs.required)
    requires EntryPlan(s, q, n).Take? && Posix(c) in s.refs.pins
    ensures EntryPlan(s, q, n).outs == [Write(q, s.refs.pins[Posix(c)], |s.refs.pins[Posix(c)]|)]
  {
    GateOnTheWay(s, q, n, c);
    PartFolds(s.fold, q, c);
    assert c[..|q|] == c;
    if n.Regular? {
      PinnedFilePlan(s, q, n.data, c);
    }
  }

  lemma PinnedFilePlan(s: Setup, q: Path, data: bytes, c: Path)
    requires RefFile(c) && Posix(c) in s.refs.pins && s.fold(Last(q)) == c[|c| - 1]
    ensures FilePlan(s, q, data, Posix(c)) == Take([Write(q, s.refs.pins[Posix(c)], |s.refs.pins[Posix(c)]|)], false)
  {
    NotSpecialFile(c, |c|);
    assert c[..|c|] == c;
    assert ".gitattributes"[0] == '.';
  }

  // ---- The projection agrees with the plan ----

  lemma PartOfPart(fold: Fold, p: Path, c: Path, k: nat)
    requires PartOf(fold, p, c) && 0 < k <= |p|
    ensures PartOf(fold, p[..k], c)
  {
    PrefixSlashless(p, k);
    assert FoldAll(fold, p[..k]) == FoldAll(fold, p)[..k] == c[..k];
  }

  /** A copied tree, and a planned path in it. */
  ghost predicate Copied(s: Setup, g: Ground, root: seq<Child>, r: Progress<Event>, c: Path) {
    && CaseFold(s.fold) && Distinct(root) && ProperNames(root) && CopyTree(s, g, root) == Some(r)
    && RefFile(c) && (c[1] == "refs" ==> Posix(c) in s.refs.required)
  }

  lemma PlannedVisited(s: Setup, g: Ground, root: seq<Child>, r: Progress<Event>, c: Path, p: Path)
    requires Copied(s, g, root, r, c) && Present(root, p).Some? && PartOf(s.fold, p, c)
    ensures VisitedBy(s, root, p).Some?
  {
    var enter, all: Enter := CopyEnter(s), (q: Path, n: Node) => true;
    CopyPutsOut(s, g, root, r);
    VisitedIsReached(all, root, p);
    VisitedIsReached(enter, root, p);
    forall k | 0 < k < |p|
      ensures EnteredAt(enter, [], root, p, k)
    {
      if Reach(enter, [], root, p[..k]).Some? && Reach(enter, [], root, p[..k]).value.Directory? {
        assert [] + p[..k] == p[..k];
        VisitedIsReached(enter, root, p[..k]);
        assert VisitedBy(s, root, p[..k]).Some?;
        PartOfPart(s.fold, p, c, k);
        DirectoryOnTheWay(s, p[..k], Reach(enter, [], root, p[..k]).value, c);
      }
    }
    PresentReached(enter, all, [], root, p);
  }

  lemma SameName(fold: Fold, p: Path, c: Path)
    requires CaseFold(fold) && p != [] && Slashless(p) && RefFile(c) && Folded(fold, p) == Posix(c)
    ensures PartOf(fold, p, c) && |p| == |c|
  {
    FoldedParts(fold, p);
    FoldAllSlashless(fold, p);
    PosixPrefix(FoldAll(fold, p), c);
  }

  /** What is copied under a planned path comes from an entry of that name. */
  lemma EventIsPart(s: Setup, g: Ground, root: seq<Child>, r: Progress<Event>, c: Path, p: Path)
    requires Copied(s, g, root, r, c) && VisitedBy(s, root, p).Some? && Folded(s.fold, p) == Posix(c)
    ensures PartOf(s.fold, p, c) && |p| == |c|
  {
    VisitedIsReached(CopyEnter(s), root, p);
    ReachedProper(CopyEnter(s), [], root, p);
    SameName(s.fold, p, c);
  }

  /** The pinned bytes, and nothing else, are written where something was pinned. */
  lemma PinsAreCopied(s: Setup, g: Ground, root: seq<Child>, r: Progress<Event>, c: Path, p: Path)
    requires Copied(s, g, root, r, c) && Posix(c) in s.refs.pins
    requires Present(root, p).Some? && PartOf(s.fold, p, c) && |p| == |c|
    ensures Write(p, s.refs.pins[Posix(c)], |s.refs.pins[Posix(c)]|) in r.outs
    ensures forall e <- r.outs :: Folded(s.fold, e.path) == Posix(c) ==> e.Write? && e.data == s.refs.pins[Posix(c)]
  {
    CopyPutsOut(s, g, root, r);
    PlannedVisited(s, g, root, r, c, p);
    var data := s.refs.pins[Posix(c)];
    PinIsWritten(s, p, VisitedBy(s, root, p).value, c);
    assert EntryPlan(s, p, VisitedBy(s, root, p).value).outs[0] == Write(p, data, |data|);
    forall e | e in r.outs && Folded(s.fold, e.path) == Posix(c)
      ensures e.Write? && e.data == data
    {
      EventIsPart(s, g, root, r, c, e.path);
      PinIsWritten(s, e.path, VisitedBy(s, root, e.path).value, c);
    }
  }

  /** Nothing is written where the planner found nothing. */
  lemma AbsentIsNotCopied(s: Setup, g: Ground, root: seq<Child>, r: Progress<Event>, e: Event)
    requires Distinct(root) && CopyTree(s, g, root) == Some(r) && e in r.outs
    ensures Folded(s.fold, e.path) !in s.refs.absent
  {
    CopyPutsOut(s, g, root, r);
  }

  // ---- The theorem ----

  function FirstFile(fold: Fold, files: seq<File>, key: string): Option<bytes> {
    if files == [] then None
    else if Folded(fold, files[0].path) == key then Some(files[0].data)
    else FirstFile(fold, files[1..], key)
  }

  /** A look into the projection, regardless of case as on Windows. */
  function LookIn(fold: Fold, files: seq<File>): Look {
    (key: string) => FirstFile(fold, files, key)
  }

  lemma {:induction false} FirstFileMeans(fold: Fold, files: seq<File>, key: string)
    ensures var d := FirstFile(fold, files, key);
            && (d.Some? ==> exists f <- files :: Folded(fold, f.path) == key && f.data == d.value)
            && (d.None? ==> forall f <- files :: Folded(fold, f.path) != key)
  {
    if files != [] {
      FirstFileMeans(fold, files[1..], key);
      if Folded(fold, files[0].path) == key {
        assert files[0] in files;
      }
    }
  }

  /** What was pinned and held is still there when the copy is made. */
  ghost predicate StillPresent(s: Setup, root: seq<Child>) {
    forall k <- s.refs.pins :: exists p :: PresentAs(s.fold, root, p, k)
  }

  predicate PresentAs(fold: Fold, root: seq<Child>, p: Path, k: string) {
    Present(root, p).Some? && Folded(fold, p) == k
  }

  lemma PresentIsPart(s: Setup, g: Ground, root: seq<Child>, r: Progress<Event>, c: Path, p: Path)
    requires Copied(s, g, root, r, c) && PresentAs(s.fold, root, p, Posix(c))
    ensures PartOf(s.fold, p, c) && |p| == |c|
  {
    VisitedIsReached((q: Path, n: Node) => true, root, p);
    ReachedProper((q: Path, n: Node) => true, [], root, p);
    SameName(s.fold, p, c);
  }

  lemma LookAgreesAt(s: Setup, g: Ground, root: seq<Child>, files: seq<File>, r: Progress<Event>, c: Path)
    requires Copied(s, g, root, r, c) && Finish(s, g, r.outs) == Some(files)
    requires Posix(c) in s.refs.pins ==> exists p :: PresentAs(s.fold, root, p, Posix(c))
    ensures Posix(c) in s.refs.pins ==> FirstFile(s.fold, files, Posix(c)) == Some(s.refs.pins[Posix(c)])
    ensures Posix(c) in s.refs.absent ==> FirstFile(s.fold, files, Posix(c)) == None
  {
    var k := Posix(c);
    FirstFileMeans(s.fold, files, k);
    forall f | f in files && Folded(s.fold, f.path) == k
      ensures exists e <- r.outs :: e.Write? && e.path == f.path && e.data == f.data
    {
      FilesMean(s, g, r.outs, f);
      IndexIsElsewhere(s, g, root, r, c);
    }
    if k in s.refs.pins {
      var p :| PresentAs(s.fold, root, p, k);
      PresentIsPart(s, g, root, r, c, p);
      PinsAreCopied(s, g, root, r, c, p);
      FilesMean(s, g, r.outs, File(p, s.refs.pins[k]));
    }
    if k in s.refs.absent {
      forall e | e in r.outs ensures Folded(s.fold, e.path) != k {
        AbsentIsNotCopied(s, g, root, r, e);
      }
    }
  }

  lemma IndexComesFromIndex(s: Setup, p: Path, n: Node, e: Event)
    requires EntryPlan(s, p, n).Take? && e in EntryPlan(s, p, n).outs && e.DeferIndex?
    ensures Folded(s.fold, p) == INDEX
  {
    EventsAreHere(s, p, n, e);
  }

  lemma IndexIsElsewhere(s: Setup, g: Ground, root: seq<Child>, r: Progress<Event>, c: Path)
    requires Copied(s, g, root, r, c)
    ensures Deferred(r.outs).Some? ==> Folded(s.fold, Deferred(r.outs).value.path) != Posix(c)
  {
    NotSpecialFile(c, |c|);
    assert c[..|c|] == c;
    if Deferred(r.outs).Some? {
      var e := Deferred(r.outs).value;
      CopyPutsOut(s, g, root, r);
      IndexComesFromIndex(s, e.path, VisitedBy(s, root, e.path).value, e);
    }
  }

  /** HEAD survives. Let the planner have read the repository through `view`, and the copier later have
      staged a tree, in which what the planner holds is still present, successfully. Then HEAD resolves
      in the projection to exactly what it resolved to for the planner, through any number of hops:
      the same object, the same unborn branch with the same `packed-refs`, or the same error. */
  lemma HeadSurvives(env: Encoding, view: View, planLimit: nat, s: Setup, g: Ground, root: seq<Child>, files: seq<File>,
                     hops: nat)
    requires CaseFold(env.fold) && s.fold == env.fold && PlanRefs(NamesOf(env), view, planLimit, false) == Some(s.refs)
    requires Distinct(root) && ProperNames(root) && StillPresent(s, root)
    requires Project(s, g, root) == Some(files)
    ensures ResolveHead(NamesOf(env), LookIn(s.fold, files), hops) == ResolveHead(NamesOf(env), LookOf(view), hops)
  {
    var r := CopyTree(s, g, root).value;
    PlanIsSound(NamesOf(env), view, planLimit, s.refs);
    var look := LookIn(s.fold, files);
    forall k | k in s.refs.pins || k in s.refs.absent
      ensures k in s.refs.pins ==> look(k) == Some(s.refs.pins[k])
      ensures k in s.refs.absent ==> look(k) == None
    {
      var c := KeysAreRefFiles(env, s.refs, k);
      LookAgreesAt(s, g, root, files, r, c);
    }
    PlanFixesHead(NamesOf(env), view, planLimit, s.refs, look, hops);
  }
}
