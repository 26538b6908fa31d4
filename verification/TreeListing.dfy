/** `workspace_tree`: the breadth-first listing with its entry limit. */
module TreeListing {
  import opened Wrappers
  import opened Walks
  import opened Reachability

  /** One listed entry; a directory has no size. Its depth is the length of its path. */
  datatype Entry = Entry(path: Path, size: Option<nat>)

  function EntryOf(path: Path, n: Node): Entry {
    Entry(path, if n.Regular? then Some(|n.data|) else None)
  }

  /** Special entries are refused even where hidden; a hidden entry is neither listed nor entered. */
  function TreeDecide(hidden: Path -> bool, limit: nat): Decide<Entry> {
    (p: Path, n: Node) =>
      if n.Special? then Refuse
      else if hidden(p) then Take([], false)
      else Take([EntryOf(p, n)], n.Directory? && |p| < limit)
  }

  function Unbounded<O>(entries: nat): Bounds<O> { Bounds((outs: seq<O>) => true, entries) }

  /** The listing, or `None` where it raises. */
  function Tree(hidden: Path -> bool, limit: nat, entries: nat, root: seq<Child>): Option<Progress<Entry>> {
    Run(TreeDecide(hidden, limit), Unbounded(entries), true, if limit == 0 then [] else [Dir([], root)],
        Progress(0, []))
  }

  /** `e` lists a node that is not hidden and is reached through directories none of which is hidden or
      at the depth limit. */
  predicate Listed(hidden: Path -> bool, limit: nat, root: seq<Child>, e: Entry) {
    var n := Visited(Enterable(hidden, limit), [], root, e.path);
    n.Some? && !n.value.Special? && !hidden(e.path) && e == EntryOf(e.path, n.value)
  }

  lemma TreeIsGuided(hidden: Path -> bool, limit: nat)
    ensures Guided(TreeDecide(hidden, limit), Enterable(hidden, limit), (x: Entry) => x.path)
  {
    var decide := TreeDecide(hidden, limit);
    forall p: Path, n: Node, e: Entry | decide(p, n).Take? && e in decide(p, n).outs
      ensures e.path == p
    {
      assert decide(p, n).outs == [] || decide(p, n).outs == [EntryOf(p, n)];
    }
  }

  lemma ListedOnce(hidden: Path -> bool, limit: nat, root: seq<Child>, e: Entry)
    requires Distinct(root)
    ensures multiset(Collect(TreeDecide(hidden, limit), [], root))[e] == if Listed(hidden, limit, root, e) then 1 else 0
  {
    TreeIsGuided(hidden, limit);
    CollectedTimes(TreeDecide(hidden, limit), Enterable(hidden, limit), (x: Entry) => x.path, [], root, e);
  }

  /** Nothing below the depth limit is listed. */
  lemma {:induction false} ReachedWithin(hidden: Path -> bool, limit: nat, base: Path, children: seq<Child>, path: Path)
    requires |base| < limit && Reach(Enterable(hidden, limit), base, children, path).Some?
    ensures |base| + |path| <= limit
    decreases |path|
  {
    if |path| > 1 {
      ReachedWithin(hidden, limit, base + [path[0]], Find(children, path[0]).value.children, path[1..]);
    }
  }

  /** `workspace_tree` returns exactly the entries that are reachable through directories none of which is
      hidden, within the depth limit, each once. It raises exactly when an entry that it meets, hidden or
      not, is neither file nor directory, or when it meets more entries than allowed. */
  lemma TreeIsReachable(hidden: Path -> bool, limit: nat, entries: nat, root: seq<Child>)
    requires Distinct(root)
    ensures var enter := Enterable(hidden, limit);
            var r := Tree(hidden, limit, entries, root);
            && (r.Some? <==>
                  || limit == 0
                  || (&& (forall path :: Visited(enter, [], root, path).Some? ==>
                            !Visited(enter, [], root, path).value.Special?)
                      && VisitsAtMost(enter, root, entries)))
            && (r.Some? ==>
                  forall e :: multiset(r.value.outs)[e]
                              == if limit > 0 && Listed(hidden, limit, root, e) then 1 else 0)
    ensures forall e :: limit > 0 && Listed(hidden, limit, root, e) ==> |e.path| <= limit
  {
    if limit > 0 {
      var decide, enter, at := TreeDecide(hidden, limit), Enterable(hidden, limit), (x: Entry) => x.path;
      TreeIsGuided(hidden, limit);
      RunFromRoot(decide, Unbounded<Entry>(entries), true, Dir([], root));
      AcceptedMeans(decide, enter, at, root);
      CountMeans(decide, enter, at, root, entries);
      forall e
        ensures multiset(Collect(decide, [], root))[e] == if Listed(hidden, limit, root, e) then 1 else 0
        ensures Listed(hidden, limit, root, e) ==> |e.path| <= limit
      {
        ListedOnce(hidden, limit, root, e);
        if Listed(hidden, limit, root, e) {
          ReachedWithin(hidden, limit, [], root, e.path);
        }
      }
    }
  }
}
