/** The copier of the Git projection: what becomes of each entry of the repository, the byte and entry
    limits along the stack of directories, and the index written last. */
module ProjectionCopy {
  import opened Wrappers
  import opened Bytes
  import opened Walks
  import opened ProjectionPaths
  import opened ProjectionPrune

  const CONFIG_LIMIT := 1048576
  const CONFIG := ".git/config"
  const INFO_ATTRIBUTES := ".git/info/attributes"

  /** Everything that staging fixes before it copies. `denied` and `blocked` are folded already, and
      `sanitize` stands for the parsing of the repository configuration. */
  datatype Setup = Setup(fold: Fold, refs: RefPolicy, prune: PrunePolicy, matches: (string, string) -> bool,
                         denied: set<string>, blocked: set<string>, sanitize: bytes -> Option<bytes>)

  /** What one entry contributes. `need` is what reading it takes of the remaining bytes. */
  datatype Event =
    | MakeDir(path: Path)
    | Write(path: Path, data: bytes, need: nat)
    | DeferIndex(path: Path, data: bytes, need: nat)
    | Attributes(path: Path)

  function Last(path: Path): string { if path == [] then [] else path[|path| - 1] }

  /** `_protected_worktree_path`. */
  predicate Protected(s: Setup, path: Path) {
    var name := s.fold(Last(path));
    || (exists i :: 0 <= i < |path| - 1 && s.fold(path[i]) in s.denied)
    || name in s.blocked
    || (".env." <= name && name != ".env.example")
  }

  /** `_inert_attribute_placeholder`. */
  function Placeholder(data: bytes): (r: bytes)
    ensures |r| == |data|
  {
    seq(|data|, i requires 0 <= i < |data| => if data[i] == 10 || data[i] == 13 then data[i] else 0x23)
  }

  predicate ExtendedMetadata(folded: string) {
    folded in [".git/commondir", ".git/config.worktree", ".git/objects/info/alternates",
               ".git/objects/info/http-alternates"]
  }

  predicate InMetadata(s: Setup, path: Path) { path != [] && s.fold(path[0]) == ".git" }

  predicate NamedAttributes(s: Setup, path: Path) { s.fold(Last(path)) == ".gitattributes" }

  /** What is decided before the copier asks whether it has a file or a directory. */
  datatype Gate = Deny | Skip | Note | Pass

  function MetadataGate(s: Setup, path: Path, n: Node, folded: string): Gate
    requires path != []
  {
    if |path| == 1 then if n.Directory? then Pass else Deny
    else if ExtendedMetadata(folded) && !(n.Regular? && n.data == []) then Deny
    else if ExtendedMetadata(folded) && folded != ".git/commondir" then Skip
    else if s.fold(path[1]) in ["hooks", "modules"] then Skip
    else if folded == INFO_ATTRIBUTES then Note
    else Pass
  }

  function WorktreeGate(s: Setup, path: Path): Gate {
    if s.fold(Last(path)) == ".git" then Deny
    else if NamedAttributes(s, path) then if Protected(s, path) then Deny else Pass
    else if Protected(s, path) then Skip
    else Pass
  }

  function GateOf(s: Setup, path: Path, n: Node, folded: string): Gate {
    if folded in s.refs.absent then Deny
    else if Unobserved(s.refs, folded) then Skip
    else if n.Special? && n.reparse then Deny
    else if InMetadata(s, path) then MetadataGate(s, path, n, folded)
    else WorktreeGate(s, path)
  }

  /** A regular file that passed. */
  function FilePlan(s: Setup, path: Path, data: bytes, folded: string): Plan<Event> {
    if folded == INDEX then
      if folded in s.prune.pins then Take([DeferIndex(path, s.prune.pins[folded], 0)], false)
      else Take([DeferIndex(path, data, |data|)], false)
    else if folded == CONFIG then
      if |data| > CONFIG_LIMIT || s.sanitize(data).None? then Refuse
      else Take([Write(path, s.sanitize(data).value, |data|)], false)
    else if NamedAttributes(s, path) then Take([Attributes(path), Write(path, Placeholder(data), |data|)], false)
    else if folded in s.refs.pins then Take([Write(path, s.refs.pins[folded], |s.refs.pins[folded]|)], false)
    else if folded in s.prune.pins then Take([Write(path, s.prune.pins[folded], |s.prune.pins[folded]|)], false)
    else Take([Write(path, data, |data|)], false)
  }

  function DirectoryPlan(s: Setup, path: Path): Plan<Event> {
    var mark := if !InMetadata(s, path) && NamedAttributes(s, path) then [Attributes(path)] else [];
    if !InMetadata(s, path) && CanPrune(s.fold, s.matches, s.prune, path) then Take(mark, false)
    else Take(mark + [MakeDir(path)], true)
  }

  function EntryPlan(s: Setup, path: Path, n: Node): Plan<Event> {
    var folded := Folded(s.fold, path);
    match GateOf(s, path, n, folded)
    case Deny => Refuse
    case Skip => Take([], false)
    case Note => Take([Attributes(path)], false)
    case Pass =>
      if folded in s.refs.pins && !n.Regular? then Refuse
      else
        match n
        case Directory(_) => DirectoryPlan(s, path)
        case Special(_) => Refuse
        case Regular(data, links) => if links > 1 then Refuse else FilePlan(s, path, data, folded)
  }

  function CopyDecide(s: Setup): Decide<Event> {
    (path: Path, n: Node) => EntryPlan(s, path, n)
  }

  // ---- Limits ----

  datatype File = File(path: Path, data: bytes)

  function FilesOf(e: Event): seq<File> { if e.Write? then [File(e.path, e.data)] else [] }

  function Written(outs: seq<Event>): seq<File> {
    if outs == [] then [] else FilesOf(outs[0]) + Written(outs[1..])
  }

  function Total(files: seq<File>): nat {
    if files == [] then 0 else |files[0].data| + Total(files[1..])
  }

  /** Whether `e` may follow `before`: what it reads and writes is within the bytes that the files before it
      have left, and there is one index only. */
  predicate Admits(limit: nat, before: seq<Event>, e: Event) {
    var used := Total(Written(before));
    && (e.Write? ==> used + e.need <= limit && used + |e.data| <= limit)
    && (e.DeferIndex? ==> && used + e.need <= limit && e.need <= INDEX_LIMIT
                          && forall x <- before :: !x.DeferIndex?)
  }

  /** The checks of the copy loop. */
  predicate Fits(limit: nat, outs: seq<Event>) {
    forall k :: 0 <= k < |outs| ==> Admits(limit, outs[..k], outs[k])
  }

  function CopyBounds(limit: nat, entries: nat): Bounds<Event> {
    Bounds((outs: seq<Event>) => Fits(limit, outs), entries)
  }

  lemma {:induction false} WrittenSum(a: seq<Event>, b: seq<Event>)
    ensures Written(a + b) == Written(a) + Written(b)
  {
    if a == [] {
      assert a + b == b;
    } else {
      assert (a + b)[1..] == a[1..] + b;
      WrittenSum(a[1..], b);
      assert FilesOf(a[0]) + (Written(a[1..]) + Written(b)) == (FilesOf(a[0]) + Written(a[1..])) + Written(b);
    }
  }

  lemma {:induction false} TotalSum(a: seq<File>, b: seq<File>)
    ensures Total(a + b) == Total(a) + Total(b)
  {
    if a == [] {
      assert a + b == b;
    } else {
      assert (a + b)[1..] == a[1..] + b;
      TotalSum(a[1..], b);
    }
  }

  /** What one more event writes. */
  lemma WrittenSnoc(outs: seq<Event>, e: Event)
    ensures Written(outs + [e]) == Written(outs) + FilesOf(e)
    ensures Total(Written(outs + [e])) == Total(Written(outs)) + if e.Write? then |e.data| else 0
  {
    WrittenSum(outs, [e]);
    assert [e][1..] == [];
    assert FilesOf(e) + [] == FilesOf(e);
    TotalSum(Written(outs), FilesOf(e));
  }

  lemma FitsSnoc(limit: nat, outs: seq<Event>, e: Event)
    ensures Fits(limit, outs + [e]) <==> Fits(limit, outs) && Admits(limit, outs, e)
  {
    var all := outs + [e];
    forall k | 0 <= k < |outs|
      ensures all[..k] == outs[..k] && all[k] == outs[k]
    {
    }
    assert all[..|outs|] == outs && all[|outs|] == e;
  }

  /** The checks keep the files within the limit. */
  lemma {:induction false} FitsWithin(limit: nat, outs: seq<Event>)
    requires Fits(limit, outs)
    ensures Total(Written(outs)) <= limit
  {
    if outs != [] {
      var before, e := outs[..|outs| - 1], outs[|outs| - 1];
      assert outs == before + [e];
      FitsSnoc(limit, before, e);
      FitsWithin(limit, before);
      WrittenSnoc(before, e);
    }
  }
}
