/** Which ignored directories of the repository root the projection may leave out. */
module ProjectionPrune {
  import opened Wrappers
  import opened Bytes
  import opened Texts
  import opened Walks
  import opened ProjectionPaths
  import opened ProjectionPlan
  import GitIndex

  const INDEX_LIMIT := 134217728
  const IGNORE_LIMIT := 1048576
  const INDEX := ".git/index"
  const IGNORE := ".gitignore"

  /** `line == line.strip()`. */
  predicate Stripped(line: string) {
    line != [] ==> !IsSpace(line[0]) && !IsSpace(line[|line| - 1])
  }

  /** The directory-only pattern a line states, if it is one of the simple ones. */
  function GlobOf(line: string): Option<string> {
    if line == [] || line[0] == '#' || !Stripped(line) || line[|line| - 1] != '/' then None
    else
      var bare := line[..|line| - 1];
      var body := if bare != [] && bare[0] == '/' then bare[1..] else bare;
      if body == [] || '/' in body || '\\' in body || Contains(body, "**") || '[' in body || ']' in body then None
      else Some(body)
  }

  function GlobsFrom(lines: seq<string>): seq<string> {
    if lines == [] then []
    else (if GlobOf(lines[0]).Some? then [GlobOf(lines[0]).value] else []) + GlobsFrom(lines[1..])
  }

  predicate Negates(line: string) { line != [] && line[0] == '!' }

  /** `_safe_root_ignore_globs`. */
  function SafeRootGlobs(decode: bytes -> Option<string>, data: bytes): seq<string> {
    match decode(data)
    case None => []
    case Some(text) => if exists line <- SplitLines(text) :: Negates(line) then [] else GlobsFrom(SplitLines(text))
  }

  /** `_ProjectionPrunePolicy`: enabled while there is a pattern. Pins are by folded path. */
  datatype PrunePolicy = PrunePolicy(globs: seq<string>, tracked: set<string>, pins: map<string, bytes>)

  const NO_PRUNING := PrunePolicy([], {}, map[])

  function Least(a: nat, b: nat): nat { if a < b then a else b }

  /** `text` turns the bytes of an index path into the path. */
  function TrackedPaths(sha1: GitIndex.Hash, text: bytes -> string, index: bytes): Option<set<string>> {
    match GitIndex.Tracked(sha1, index)
    case None => None
    case Some(paths) => Some(set p | p in paths :: text(p))
  }

  /** `_build_projection_prune_policy`; `None` where it raises. */
  function PlanPruning(sha1: GitIndex.Hash, text: bytes -> string, decode: bytes -> Option<string>, index: Presence,
                       ignore: Presence, limit: nat, observesIgnored: bool): Option<PrunePolicy>
  {
    if observesIgnored then Some(NO_PRUNING)
    else if index.Unreadable? || (index.Found? && |index.data| > Least(limit, INDEX_LIMIT)) then None
    else
      var tracked := if index.Found? then TrackedPaths(sha1, text, index.data) else Some({});
      if tracked.None? || ignore.Missing? then Some(NO_PRUNING)
      else if ignore.Unreadable? || |ignore.data| > Least(limit, IGNORE_LIMIT) then None
      else
        var globs := SafeRootGlobs(decode, ignore.data);
        if globs == [] then Some(NO_PRUNING)
        else
          var pins := if index.Found? then map[INDEX := index.data] else map[];
          Some(PrunePolicy(globs, tracked.value, pins[IGNORE := ignore.data]))
  }

  /** `_tracked_below_root_directory`. */
  predicate TrackedBelow(fold: Fold, name: string, tracked: set<string>) {
    exists t <- tracked :: fold(t) == fold(name) || fold(name) + "/" <= fold(t)
  }

  /** `_can_prune_root_directory`; `matches` is `fnmatch.fnmatchcase`. */
  predicate CanPrune(fold: Fold, matches: (string, string) -> bool, policy: PrunePolicy, path: Path) {
    && policy.globs != [] && |path| == 1 && !TrackedBelow(fold, path[0], policy.tracked)
    && exists g <- policy.globs :: matches(path[0], g)
  }

  /** A policy that prunes knows what the index tracks. */
  lemma PolicyKnowsIndex(sha1: GitIndex.Hash, text: bytes -> string, decode: bytes -> Option<string>, index: Presence,
                         ignore: Presence, limit: nat, observesIgnored: bool, policy: PrunePolicy)
    requires PlanPruning(sha1, text, decode, index, ignore, limit, observesIgnored) == Some(policy) && index.Found?
    ensures policy.globs == [] || TrackedPaths(sha1, text, index.data) == Some(policy.tracked)
  {
  }

  lemma {:induction false} GlobsComeFromLines(lines: seq<string>, g: string)
    ensures g in GlobsFrom(lines) <==> exists line <- lines :: GlobOf(line) == Some(g)
  {
    if lines != [] {
      GlobsComeFromLines(lines[1..], g);
      if exists line <- lines :: GlobOf(line) == Some(g) {
        var line :| line in lines && GlobOf(line) == Some(g);
        assert line == lines[0] || line in lines[1..];
      }
    }
  }

  /** A directory is pruned only on proof: it lies in the root, an ignore line without any negation beside
      it names it as a directory, and the very index that the projection will carry tracks neither it nor,
      whatever the case of its letters, anything below it. */
  lemma PruningIsProven(sha1: GitIndex.Hash, text: bytes -> string, decode: bytes -> Option<string>, index: Presence,
                        ignore: Presence, limit: nat, observesIgnored: bool, fold: Fold,
                        matches: (string, string) -> bool, policy: PrunePolicy, path: Path, below: Path)
    requires CaseFold(fold) && PlanPruning(sha1, text, decode, index, ignore, limit, observesIgnored) == Some(policy)
    requires CanPrune(fold, matches, policy, path) && below != []
    ensures !observesIgnored && |path| == 1 && ignore.Found? && decode(ignore.data).Some?
    ensures var lines := SplitLines(decode(ignore.data).value);
            && (forall line <- lines :: !Negates(line))
            && exists line <- lines :: GlobOf(line).Some? && matches(path[0], GlobOf(line).value)
    ensures !index.Unreadable?
    ensures index.Found? ==>
              && TrackedPaths(sha1, text, index.data).Some? && policy.pins[INDEX] == index.data
              && (fold(below[0]) == fold(path[0]) ==>
                    forall t <- TrackedPaths(sha1, text, index.data).value :: fold(t) != Folded(fold, below))
  {
    var g :| g in policy.globs && matches(path[0], g);
    var lines := SplitLines(decode(ignore.data).value);
    GlobsComeFromLines(lines, g);
    if index.Found? && fold(below[0]) == fold(path[0]) {
      FirstPart(fold, below);
    }
  }

  /** A folded path begins with its folded first component. */
  lemma FirstPart(fold: Fold, path: Path)
    requires CaseFold(fold) && path != []
    ensures Folded(fold, path) == fold(path[0]) || fold(path[0]) + "/" <= Folded(fold, path)
  {
    FoldedParts(fold, path);
    assert FoldAll(fold, path)[0] == fold(path[0]);
  }
}
