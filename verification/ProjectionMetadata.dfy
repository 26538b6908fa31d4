/** The rest of the metadata: what no rule leaves out is staged as it is, objects and refs among it, and so
    HEAD means the same also where all refs are kept and nothing was planned. */
module ProjectionMetadata {
  import opened Wrappers
  import opened Bytes
  import opened Walks
  import opened Reachability
  import opened ProjectionPaths
  import opened ProjectionPlan
  import opened ProjectionPrune
  import opened ProjectionCopy
  import opened Projection
  import opened ProjectionHead
  import ProjectionTracked
  import GitIndex

  // ---- What no rule leaves out ----

  /** No rule of the copier leaves this entry of the metadata directory out. */
  predicate Observed(s: Setup, q: Path) {
    var folded := Folded(s.fold, q);
    && !Unobserved(s.refs, folded) && !ExtendedMetadata(folded) && folded != INFO_ATTRIBUTES
    && (|q| > 1 ==> s.fold(q[1]) != "hooks" && s.fold(q[1]) != "modules")
  }

  /** A path of metadata that is neither left out nor rewritten. */
  predicate Plain(s: Setup, p: Path) {
    && InMetadata(s, p) && (forall k :: 0 < k <= |p| ==> Observed(s, p[..k]))
    && Folded(s.fold, p) != INDEX && Folded(s.fold, p) != CONFIG && !NamedAttributes(s, p)
  }

  /** What is pinned under this path is what is there. */
  predicate PinsAre(s: Setup, p: Path, data: bytes) {
    var folded := Folded(s.fold, p);
    && (folded in s.refs.pins ==> s.refs.pins[folded] == data)
    && (folded in s.prune.pins ==> s.prune.pins[folded] == data)
  }

  lemma ObservedPasses(s: Setup, q: Path, n: Node)
    requires InMetadata(s, q) && Observed(s, q) && EntryPlan(s, q, n).Take?
    ensures GateOf(s, q, n, Folded(s.fold, q)).Pass?
    ensures n.Directory? ==> CopyEnter(s)(q, n)
  {
  }

  lemma PlainIsWritten(s: Setup, p: Path, n: Node)
    requires Plain(s, p) && n.Regular? && EntryPlan(s, p, n).Take? && PinsAre(s, p, n.data)
    ensures EntryPlan(s, p, n).outs == [Write(p, n.data, |n.data|)]
  {
    assert p[..|p|] == p;
    ObservedPasses(s, p, n);
  }

  /** Whatever is visited is present. */
  lemma {:induction false} ReachedPresent(enter: Enter, all: Enter, base: Path, children: seq<Child>, path: Path)
    requires Reach(enter, base, children, path).Some? && forall p: Path, n: Node :: all(p, n)
    ensures Reach(all, base, children, path) == Reach(enter, base, children, path)
    decreases |path|
  {
    if |path| > 1 {
      ReachedPresent(enter, all, base + [path[0]], Reachability.Find(children, path[0]).value.children, path[1..]);
    }
  }

  lemma VisitedIsPresent(s: Setup, root: seq<Child>, p: Path)
    requires VisitedBy(s, root, p).Some?
    ensures Present(root, p) == VisitedBy(s, root, p)
  {
    var all: Enter := (q: Path, n: Node) => true;
    VisitedIsReached(CopyEnter(s), root, p);
    VisitedIsReached(all, root, p);
    ReachedPresent(CopyEnter(s), all, [], root, p);
  }

  lemma PlainVisited(s: Setup, g: Ground, root: seq<Child>, r: Progress<Event>, p: Path)
    requires Distinct(root) && CopyTree(s, g, root) == Some(r) && Plain(s, p) && Present(root, p).Some?
    ensures VisitedBy(s, root, p) == Present(root, p)
  {
    var enter, all: Enter := CopyEnter(s), (q: Path, n: Node) => true;
    CopyPutsOut(s, g, root, r);
    VisitedIsReached(all, root, p);
    VisitedIsReached(enter, root, p);
    forall k | 0 < k < |p|
      ensures EnteredAt(enter, [], root, p, k)
    {
      if Reach(enter, [], root, p[..k]).Some? && Reach(enter, [], root, p[..k]).value.Directory? {
        assert [] + p[..k] == p[..k] && p[..k][0] == p[0];
        VisitedIsReached(enter, root, p[..k]);
        assert VisitedBy(s, root, p[..k]).Some?;
        ObservedPasses(s, p[..k], Reach(enter, [], root, p[..k]).value);
      }
    }
    PresentReached(enter, all, [], root, p);
  }

  lemma PlainEvents(s: Setup, g: Ground, root: seq<Child>, r: Progress<Event>, p: Path, e: Event)
    requires Distinct(root) && CopyTree(s, g, root) == Some(r) && Plain(s, p)
    requires e in r.outs && e.path == p && (e.Write? || e.DeferIndex?)
    ensures Present(root, p).Some? && Present(root, p).value.Regular?
    ensures PinsAre(s, p, Present(root, p).value.data) ==> e.Write? && e.data == Present(root, p).value.data
  {
    CopyPutsOut(s, g, root, r);
    VisitedIsPresent(s, root, p);
    var n := Present(root, p).value;
    EventsAreHere(s, p, n, e);
    if PinsAre(s, p, n.data) {
      PlainIsWritten(s, p, n);
    }
  }

  lemma PlainIsCopied(s: Setup, g: Ground, root: seq<Child>, r: Progress<Event>, p: Path)
    requires Distinct(root) && CopyTree(s, g, root) == Some(r) && Plain(s, p)
    requires Present(root, p).Some? && Present(root, p).value.Regular? && PinsAre(s, p, Present(root, p).value.data)
    ensures var data := Present(root, p).value.data; Write(p, data, |data|) in r.outs
  {
    CopyPutsOut(s, g, root, r);
    PlainVisited(s, g, root, r, p);
    PlainIsWritten(s, p, Present(root, p).value);
    assert EntryPlan(s, p, Present(root, p).value).outs[0].Write?;
  }

  /** Metadata survives. In a repository whose pinned files have not changed, exactly the regular files of the
      metadata directory that no rule leaves out or rewrites are staged under their paths, with their bytes. */
  lemma MetadataSurvives(s: Setup, g: Ground, root: seq<Child>, files: seq<File>, p: Path, data: bytes)
    requires Distinct(root) && Project(s, g, root) == Some(files) && Plain(s, p)
    requires Present(root, p).Some? && Present(root, p).value.Regular? ==> PinsAre(s, p, Present(root, p).value.data)
    ensures File(p, data) in files
       <==> Present(root, p).Some? && Present(root, p).value.Regular? && Present(root, p).value.data == data
  {
    var r := CopyTree(s, g, root).value;
    FilesMean(s, g, r.outs, File(p, data));
    forall e | e in r.outs && e.path == p && (e.Write? || e.DeferIndex?)
      ensures Present(root, p).Some? && Present(root, p).value.Regular?
      ensures e.Write? && e.data == Present(root, p).value.data
    {
      PlainEvents(s, g, root, r, p, e);
    }
    if Present(root, p).Some? && Present(root, p).value.Regular? {
      PlainIsCopied(s, g, root, r, p);
    }
  }

  // ---- Objects ----

  /** A path in the object store, in whatever case, that names no alternate store. */
  predicate ObjectPath(fold: Fold, p: Path) {
    && Slashless(p) && |p| >= 2 && fold(p[0]) == ".git" && fold(p[1]) == "objects" && fold(Last(p)) != ".gitattributes"
    && forall k :: 0 < k <= |p| ==> !ExtendedMetadata(Folded(fold, p[..k]))
  }

  lemma IndexName()
    ensures Slashless([".git", "index"]) && Posix([".git", "index"]) == INDEX
  {
    assert [".git", "index"][1..] == ["index"];
  }

  lemma ConfigName()
    ensures Slashless([".git", "config"]) && Posix([".git", "config"]) == CONFIG
  {
    assert [".git", "config"][1..] == ["config"];
  }

  lemma AttributesName()
    ensures Slashless([".git", "info", "attributes"]) && Posix([".git", "info", "attributes"]) == INFO_ATTRIBUTES
  {
    assert [".git", "info", "attributes"][1..] == ["info", "attributes"];
    assert ["info", "attributes"][1..] == ["attributes"];
  }

  /** A folded path in the object store, or on the way to it. */
  predicate ObjectParts(c: Path) { Slashless(c) && c != [] && c[0] == ".git" && (|c| > 1 ==> c[1] == "objects") }

  lemma ObjectsElsewhere(c: Path, d: Path)
    requires ObjectParts(c) && Slashless(d) && |d| >= 2 && d[1] != "objects"
    ensures Posix(c) != Posix(d)
  {
    PosixPrefix(d, c);
  }

  lemma NotBelow(c: Path, part: string)
    requires |c| > 1 ==> c[1] != part
    ensures !([".git", part] <= c)
  {
    if |c| > 1 {
      assert [".git", part][1] == part;
    }
  }

  lemma ObjectsObserved(policy: RefPolicy, c: Path)
    requires ObjectParts(c)
    ensures !Unobserved(policy, Posix(c))
  {
    UnobservedParts(c);
    NotBelow(c, "logs");
    NotBelow(c, "refs");
  }

  /** A folded path whose second part is `objects` is none of the special ones. */
  lemma ObjectsAreNotSpecial(policy: RefPolicy, c: Path)
    requires ObjectParts(c)
    ensures var folded := Posix(c);
            !Unobserved(policy, folded) && folded != INFO_ATTRIBUTES && folded != INDEX && folded != CONFIG
  {
    ObjectsObserved(policy, c);
    IndexName();
    ObjectsElsewhere(c, [".git", "index"]);
    ConfigName();
    ObjectsElsewhere(c, [".git", "config"]);
    AttributesName();
    ObjectsElsewhere(c, [".git", "info", "attributes"]);
  }

  lemma ObjectPrefix(fold: Fold, p: Path, k: nat)
    requires CaseFold(fold) && ObjectPath(fold, p) && 0 < k <= |p|
    ensures var c := FoldAll(fold, p[..k]); ObjectParts(c) && Folded(fold, p[..k]) == Posix(c)
  {
    PrefixSlashless(p, k);
    FoldedParts(fold, p[..k]);
    FoldAllSlashless(fold, p[..k]);
  }

  lemma ObjectIsPlain(s: Setup, p: Path)
    requires CaseFold(s.fold) && ObjectPath(s.fold, p)
    ensures Plain(s, p)
  {
    forall k | 0 < k <= |p|
      ensures Observed(s, p[..k])
    {
      ObjectPrefix(s.fold, p, k);
      ObjectsAreNotSpecial(s.refs, FoldAll(s.fold, p[..k]));
    }
    assert p[..|p|] == p;
    ObjectPrefix(s.fold, p, |p|);
    ObjectsAreNotSpecial(s.refs, FoldAll(s.fold, p));
  }

  predicate OnlyIndexPinned(policy: PrunePolicy) { forall key <- policy.pins :: key == INDEX || key == IGNORE }

  lemma NotPinned(policy: PrunePolicy, key: string)
    requires OnlyIndexPinned(policy) && key != INDEX && ".git/" <= key
    ensures key !in policy.pins
  {
    BelowIsNotIgnore(key);
  }

  /** The planner of the pruning pins nothing but the index and the ignore file. */
  lemma PrunePins(sha1: GitIndex.Hash, text: bytes -> string, decode: bytes -> Option<string>, index: Presence,
                  ignore: Presence, limit: nat, observesIgnored: bool, policy: PrunePolicy)
    requires PlanPruning(sha1, text, decode, index, ignore, limit, observesIgnored) == Some(policy)
    ensures OnlyIndexPinned(policy)
  {
  }

  lemma BelowIsNotIgnore(x: string)
    requires ".git/" <= x
    ensures x != IGNORE
  {
    assert x[4] == '/' && IGNORE[4] == 'i';
  }

  /** The planner of the refs pins HEAD, `packed-refs` and refs. */
  lemma RefPinParts(env: Encoding, view: View, limit: nat, fullRefs: bool, plan: RefPolicy, c: Path)
    requires CaseFold(env.fold) && PlanRefs(NamesOf(env), view, limit, fullRefs) == Some(plan)
    requires ObjectParts(c) && |c| >= 2
    ensures Posix(c) !in plan.pins
  {
    if !fullRefs {
      PlanIsSound(NamesOf(env), view, limit, plan);
      forall key | key in plan.pins
        ensures key != Posix(c)
      {
        var d := KeysAreRefFiles(env, plan, key);
        ObjectsElsewhere(c, d);
      }
    }
  }

  lemma ObjectInMetadata(c: Path)
    requires ObjectParts(c) && |c| >= 2
    ensures ".git/" <= Posix(c)
  {
    assert Posix(c) == ".git" + "/" + Posix(c[1..]);
  }

  lemma ObjectWhole(fold: Fold, p: Path)
    requires CaseFold(fold) && ObjectPath(fold, p)
    ensures var c := FoldAll(fold, p); ObjectParts(c) && |c| >= 2 && Folded(fold, p) == Posix(c)
  {
    assert p[..|p|] == p;
    ObjectPrefix(fold, p, |p|);
  }

  lemma ObjectUnpruned(policy: PrunePolicy, refs: RefPolicy, c: Path)
    requires OnlyIndexPinned(policy) && ObjectParts(c) && |c| >= 2
    ensures Posix(c) !in policy.pins
  {
    ObjectsAreNotSpecial(refs, c);
    ObjectInMetadata(c);
    NotPinned(policy, Posix(c));
  }

  lemma ObjectIsUnpinned(env: Encoding, view: View, limit: nat, fullRefs: bool, s: Setup, p: Path)
    requires CaseFold(s.fold) && s.fold == env.fold && PlanRefs(NamesOf(env), view, limit, fullRefs) == Some(s.refs)
    requires OnlyIndexPinned(s.prune) && ObjectPath(s.fold, p)
    ensures Folded(s.fold, p) !in s.refs.pins && Folded(s.fold, p) !in s.prune.pins
  {
    ObjectWhole(s.fold, p);
    RefPinParts(env, view, limit, fullRefs, s.refs, FoldAll(s.fold, p));
    ObjectUnpruned(s.prune, s.refs, FoldAll(s.fold, p));
  }

  /** Objects survive. Whatever of the refs a plan leaves out, exactly the regular files of the object store
      are staged, each under its path with its bytes. */
  lemma ObjectsSurvive(env: Encoding, view: View, planLimit: nat, fullRefs: bool, sha1: GitIndex.Hash,
                       text: bytes -> string, decode: bytes -> Option<string>, index: Presence, ignore: Presence,
                       observesIgnored: bool, s: Setup, g: Ground, root: seq<Child>, files: seq<File>,
                       p: Path, data: bytes)
    requires CaseFold(s.fold) && s.fold == env.fold && PlanRefs(NamesOf(env), view, planLimit, fullRefs) == Some(s.refs)
    requires PlanPruning(sha1, text, decode, index, ignore, planLimit, observesIgnored) == Some(s.prune)
    requires Distinct(root) && Project(s, g, root) == Some(files) && ObjectPath(s.fold, p)
    ensures File(p, data) in files
       <==> Present(root, p).Some? && Present(root, p).value.Regular? && Present(root, p).value.data == data
  {
    PrunePins(sha1, text, decode, index, ignore, planLimit, observesIgnored, s.prune);
    ObjectIsPlain(s, p);
    ObjectIsUnpinned(env, view, planLimit, fullRefs, s, p);
    MetadataSurvives(s, g, root, files, p, data);
  }

  // ---- HEAD, where all refs are kept ----

  predicate FileHere(fold: Fold, root: seq<Child>, p: Path, key: string, data: bytes) {
    && Present(root, p).Some? && Present(root, p).value.Regular? && Present(root, p).value.data == data
    && Folded(fold, p) == key
  }

  /** `look` looks files up in the tree, regardless of case. */
  ghost predicate LooksInto(look: Look, fold: Fold, root: seq<Child>) {
    && (forall key :: look(key).Some? ==> exists p :: FileHere(fold, root, p, key, look(key).value))
    && (forall key, p, data :: FileHere(fold, root, p, key, data) ==> look(key).Some?)
  }

  /** No two files of the tree differ in case only. */
  ghost predicate OneCase(fold: Fold, root: seq<Child>) {
    forall p, q, key, a, b :: FileHere(fold, root, p, key, a) && FileHere(fold, root, q, key, b) ==> p == q
  }

  lemma RefIsPlain(s: Setup, p: Path, c: Path)
    requires CaseFold(s.fold) && s.refs.retainAll && PartOf(s.fold, p, c) && |p| == |c|
    ensures Plain(s, p)
  {
    forall k | 0 < k <= |p|
      ensures Observed(s, p[..k])
    {
      PartOfPart(s.fold, p, c, k);
      PartFolds(s.fold, p[..k], c);
      NotSpecialFile(c, k);
    }
    PartFolds(s.fold, p, c);
    NotSpecialFile(c, |c|);
    assert c[..|c|] == c;
    assert ".gitattributes"[0] == '.';
  }

  lemma PresentAsPart(fold: Fold, root: seq<Child>, p: Path, c: Path)
    requires CaseFold(fold) && ProperNames(root) && RefFile(c) && Present(root, p).Some? && Folded(fold, p) == Posix(c)
    ensures PartOf(fold, p, c) && |p| == |c|
  {
    var all: Enter := (q: Path, n: Node) => true;
    VisitedIsReached(all, root, p);
    ReachedProper(all, [], root, p);
    SameName(fold, p, c);
  }

  /** A staged tree in which all refs are kept and nothing of the metadata but the index is pinned. */
  ghost predicate KeptWhole(s: Setup, g: Ground, root: seq<Child>, files: seq<File>) {
    && CaseFold(s.fold) && s.refs == KEEP_ALL && OnlyIndexPinned(s.prune)
    && Distinct(root) && ProperNames(root) && Project(s, g, root) == Some(files)
  }

  lemma RefUnpruned(policy: PrunePolicy, c: Path)
    requires OnlyIndexPinned(policy) && RefFile(c)
    ensures Posix(c) !in policy.pins
  {
    NotSpecialFile(c, |c|);
    assert c[..|c|] == c;
    ProjectionTracked.RefFileInMetadata(c);
    NotPinned(policy, Posix(c));
  }

  lemma PartWhole(fold: Fold, p: Path, c: Path)
    requires CaseFold(fold) && PartOf(fold, p, c) && |p| == |c|
    ensures Folded(fold, p) == Posix(c)
  {
    PartFolds(fold, p, c);
    assert c[..|p|] == c;
  }

  lemma RefFileStaged(s: Setup, g: Ground, root: seq<Child>, files: seq<File>, c: Path, p: Path, data: bytes)
    requires KeptWhole(s, g, root, files) && RefFile(c) && PartOf(s.fold, p, c) && |p| == |c|
    ensures File(p, data) in files <==> FileHere(s.fold, root, p, Posix(c), data)
  {
    RefIsPlain(s, p, c);
    PartWhole(s.fold, p, c);
    RefUnpruned(s.prune, c);
    MetadataSurvives(s, g, root, files, p, data);
  }

  lemma StagedAsPart(s: Setup, g: Ground, root: seq<Child>, files: seq<File>, c: Path, f: File)
    requires KeptWhole(s, g, root, files) && RefFile(c) && f in files && Folded(s.fold, f.path) == Posix(c)
    ensures PartOf(s.fold, f.path, c) && |f.path| == |c|
  {
    var n := ProjectionTracked.FileIsVisited(s, g, root, files, f);
    VisitedIsPresent(s, root, f.path);
    PresentAsPart(s.fold, root, f.path, c);
  }

  lemma LooksSame(s: Setup, g: Ground, root: seq<Child>, files: seq<File>, look: Look, c: Path)
    requires KeptWhole(s, g, root, files) && OneCase(s.fold, root) && LooksInto(look, s.fold, root) && RefFile(c)
    ensures FirstFile(s.fold, files, Posix(c)) == look(Posix(c))
  {
    var key := Posix(c);
    var found := FirstFile(s.fold, files, key);
    FirstFileMeans(s.fold, files, key);
    forall f | f in files && Folded(s.fold, f.path) == key
      ensures FileHere(s.fold, root, f.path, key, f.data)
    {
      StagedAsPart(s, g, root, files, c, f);
      RefFileStaged(s, g, root, files, c, f.path, f.data);
    }
    if look(key).Some? {
      var p :| FileHere(s.fold, root, p, key, look(key).value);
      PresentAsPart(s.fold, root, p, c);
      RefFileStaged(s, g, root, files, c, p, look(key).value);
    }
  }

  lemma {:induction false} FollowSame(names: Names, one: Look, two: Look, data: bytes, hops: nat)
    requires one(names.packed) == two(names.packed)
    requires forall target :: IsTarget(names, target) ==> one(names.key(target)) == two(names.key(target))
    ensures Follow(names, one, data, hops) == Follow(names, two, data, hops)
    decreases hops
  {
    var content := names.content(data);
    if content.Symbolic? && hops > 0 {
      assert IsTarget(names, content.target);
      if one(names.key(content.target)).Some? {
        FollowSame(names, one, two, one(names.key(content.target)).value, hops - 1);
      }
    }
  }

  lemma PlannedLooksSame(s: Setup, g: Ground, root: seq<Child>, files: seq<File>, look: Look, path: Path)
    requires KeptWhole(s, g, root, files) && OneCase(s.fold, root) && LooksInto(look, s.fold, root) && PlannedPath(path)
    ensures FirstFile(s.fold, files, Folded(s.fold, path)) == look(Folded(s.fold, path))
  {
    FoldedRefFile(s.fold, path);
    LooksSame(s, g, root, files, look, FoldAll(s.fold, path));
  }

  lemma HeadLooksSame(env: Encoding, s: Setup, g: Ground, root: seq<Child>, files: seq<File>, look: Look)
    requires s.fold == env.fold && KeptWhole(s, g, root, files)
    requires OneCase(s.fold, root) && LooksInto(look, s.fold, root)
    ensures FirstFile(s.fold, files, NamesOf(env).head) == look(NamesOf(env).head)
    ensures FirstFile(s.fold, files, NamesOf(env).packed) == look(NamesOf(env).packed)
  {
    HeadFiles();
    PlannedLooksSame(s, g, root, files, look, [".git", "HEAD"]);
    PlannedLooksSame(s, g, root, files, look, [".git", "packed-refs"]);
  }

  lemma TargetLooksSame(env: Encoding, s: Setup, g: Ground, root: seq<Child>, files: seq<File>, look: Look,
                        target: string)
    requires s.fold == env.fold && KeptWhole(s, g, root, files)
    requires OneCase(s.fold, root) && LooksInto(look, s.fold, root) && IsTarget(NamesOf(env), target)
    ensures FirstFile(s.fold, files, NamesOf(env).key(target)) == look(NamesOf(env).key(target))
  {
    var path := TargetOfKey(env, NamesOf(env).key(target));
    PlannedLooksSame(s, g, root, files, look, path);
  }

  lemma ResolvesSame(names: Names, one: Look, two: Look, hops: nat)
    requires one(names.head) == two(names.head) && one(names.packed) == two(names.packed)
    requires forall target :: IsTarget(names, target) ==> one(names.key(target)) == two(names.key(target))
    ensures ResolveHead(names, one, hops) == ResolveHead(names, two, hops)
  {
    if one(names.head).Some? {
      FollowSame(names, one, two, one(names.head).value, hops);
    }
  }

  /** HEAD survives where all refs are kept. Where the commands need them all, and no ref was planned, HEAD
      resolves in the projection, through any number of hops, to what it resolves to in the repository that
      was copied. */
  lemma HeadSurvivesWhole(env: Encoding, view: View, planLimit: nat, sha1: GitIndex.Hash, text: bytes -> string,
                          decode: bytes -> Option<string>, index: Presence, ignore: Presence, observesIgnored: bool,
                          s: Setup, g: Ground, root: seq<Child>, files: seq<File>, look: Look, hops: nat)
    requires CaseFold(s.fold) && s.fold == env.fold && PlanRefs(NamesOf(env), view, planLimit, true) == Some(s.refs)
    requires PlanPruning(sha1, text, decode, index, ignore, planLimit, observesIgnored) == Some(s.prune)
    requires Distinct(root) && ProperNames(root) && Project(s, g, root) == Some(files)
    requires OneCase(s.fold, root) && LooksInto(look, s.fold, root)
    ensures ResolveHead(NamesOf(env), LookIn(s.fold, files), hops) == ResolveHead(NamesOf(env), look, hops)
  {
    PrunePins(sha1, text, decode, index, ignore, planLimit, observesIgnored, s.prune);
    HeadLooksSame(env, s, g, root, files, look);
    forall target | IsTarget(NamesOf(env), target)
      ensures LookIn(s.fold, files)(NamesOf(env).key(target)) == look(NamesOf(env).key(target))
    {
      TargetLooksSame(env, s, g, root, files, look, target);
    }
    ResolvesSame(NamesOf(env), LookIn(s.fold, files), look, hops);
  }
}
