/** What a traversal puts out, told by looking paths up in the tree. */
module Reachability {
  import opened Wrappers
  import opened Walks

  /** Which directories a traversal enters. */
  type Enter = (Path, Node) -> bool

  /** The directories that a listing or a search of the workspace enters: not hidden, and above the depth
      limit. */
  function Enterable(hidden: Path -> bool, limit: nat): Enter {
    (p: Path, n: Node) => !hidden(p) && |p| < limit
  }

  function Find(children: seq<Child>, name: string): Option<Node> {
    if children == [] then None
    else if children[0].name == name then Some(children[0].node)
    else Find(children[1..], name)
  }

  /** The node at `path` below `base`, if every directory on the way is entered. */
  function Reach(enter: Enter, base: Path, children: seq<Child>, path: Path): Option<Node>
    decreases |path|
  {
    if path == [] then None
    else
      match Find(children, path[0])
      case None => None
      case Some(n) =>
        if |path| == 1 then Some(n)
        else if n.Directory? && enter(base + [path[0]], n) then Reach(enter, base + [path[0]], n.children, path[1..])
        else None
  }

  /** The node at the absolute `path`. */
  function Visited(enter: Enter, base: Path, children: seq<Child>, path: Path): Option<Node> {
    if base <= path then Reach(enter, base, children, path[|base|..]) else None
  }

  /** The same where every directory is entered. */
  function Present(root: seq<Child>, path: Path): Option<Node> {
    Visited((p: Path, n: Node) => true, [], root, path)
  }

  /** No directory lists a name twice. */
  predicate Distinct(children: seq<Child>)
    decreases children
  {
    children == []
    || (&& Find(children[1..], children[0].name).None?
        && (children[0].node.Directory? ==> Distinct(children[0].node.children))
        && Distinct(children[1..]))
  }

  /** The traversal enters what `enter` says, and its outputs tell by `at` where they come from. */
  ghost predicate Guided<O(!new)>(decide: Decide<O>, enter: Enter, at: O -> Path) {
    && (forall p: Path, n: Node :: n.Directory? ==> (enter(p, n) <==> decide(p, n).Take? && decide(p, n).descend))
    && (forall p: Path, n: Node, o: O :: decide(p, n).Take? && o in decide(p, n).outs ==> at(o) == p)
  }

  function Times<O(==)>(plan: Plan<O>, o: O): nat {
    if plan.Take? then multiset(plan.outs)[o] else 0
  }

  /** How often `o` is due: as often as the node it comes from yields it, if that node is visited. */
  function Due<O(==)>(decide: Decide<O>, enter: Enter, at: O -> Path, base: Path, children: seq<Child>, o: O): nat {
    match Visited(enter, base, children, at(o))
    case None => 0
    case Some(n) => Times(decide(at(o), n), o)
  }

  /** What the first child and all below it put out. */
  function Share<O>(decide: Decide<O>, base: Path, c: Child): seq<O> {
    var p := base + [c.name];
    var plan := decide(p, c.node);
    if plan.Refuse? then []
    else plan.outs + if plan.descend && c.node.Directory? then Collect(decide, p, c.node.children) else []
  }

  lemma CollectShares<O>(decide: Decide<O>, base: Path, children: seq<Child>)
    requires children != []
    ensures Collect(decide, base, children) == Share(decide, base, children[0]) + Collect(decide, base, children[1..])
  {
  }

  /** The node at `path`, if it is the first child or lies below it. */
  function VisitedFirst(enter: Enter, base: Path, c: Child, path: Path): Option<Node> {
    var p := base + [c.name];
    if !(p <= path) then None
    else if path == p then Some(c.node)
    else if c.node.Directory? && enter(p, c.node) then Visited(enter, p, c.node.children, path)
    else None
  }

  lemma VisitedBelow(enter: Enter, base: Path, children: seq<Child>, path: Path)
    requires children != [] && Distinct(children)
    ensures var first, rest := VisitedFirst(enter, base, children[0], path), Visited(enter, base, children[1..], path);
            && (first.None? || rest.None?)
            && Visited(enter, base, children, path) == if first.Some? then first else rest
  {
    var p := base + [children[0].name];
    assert p[|base|] == children[0].name;
    if base <= path && |base| < |path| {
      var rel := path[|base|..];
      assert path == base + rel && rel[0] == path[|base|];
      if rel[0] == children[0].name {
        assert p <= path && path[|p|..] == rel[1..];
        assert |rel| == 1 ==> path == p;
      }
    }
  }

  lemma {:induction false} ShareTimes<O(!new)>(decide: Decide<O>, enter: Enter, at: O -> Path, base: Path, c: Child,
                                               o: O)
    requires Guided(decide, enter, at) && (c.node.Directory? ==> Distinct(c.node.children))
    ensures multiset(Share(decide, base, c))[o]
         == match VisitedFirst(enter, base, c, at(o))
            case None => 0
            case Some(n) => Times(decide(at(o), n), o)
    decreases c, 0
  {
    var p := base + [c.name];
    var plan := decide(p, c.node);
    if plan.Take? && plan.descend && c.node.Directory? {
      CollectedTimes(decide, enter, at, p, c.node.children, o);
    }
    if plan.Take? && o in plan.outs {
      assert at(o) == p;
    }
  }

  /** The recursion puts out everything that is due, as often as it is due, and nothing else. */
  lemma {:induction false} CollectedTimes<O(!new)>(decide: Decide<O>, enter: Enter, at: O -> Path,
                                                   base: Path, children: seq<Child>, o: O)
    requires Guided(decide, enter, at) && Distinct(children)
    ensures multiset(Collect(decide, base, children))[o] == Due(decide, enter, at, base, children, o)
    decreases children, 1
  {
    if children != [] {
      CollectShares(decide, base, children);
      VisitedBelow(enter, base, children, at(o));
      ShareTimes(decide, enter, at, base, children[0], o);
      CollectedTimes(decide, enter, at, base, children[1..], o);
    }
  }

  // ---- Whole traversals ----

  /** An accepted traversal takes every node it visits. */
  lemma {:induction false} VisitedTaken<O(!new)>(decide: Decide<O>, enter: Enter, at: O -> Path, base: Path,
                                                 children: seq<Child>, path: Path)
    requires Guided(decide, enter, at) && Distinct(children) && Accepted(decide, base, children)
    requires Visited(enter, base, children, path).Some?
    ensures decide(path, Visited(enter, base, children, path).value).Take?
    decreases children
  {
    if children != [] {
      VisitedBelow(enter, base, children, path);
      var p := base + [children[0].name];
      if VisitedFirst(enter, base, children[0], path).Some? {
        if path != p {
          VisitedTaken(decide, enter, at, p, children[0].node.children, path);
        }
      } else {
        VisitedTaken(decide, enter, at, base, children[1..], path);
      }
    }
  }

  /** Every node that is visited is taken. */
  ghost predicate AllTaken<O>(decide: Decide<O>, enter: Enter, base: Path, children: seq<Child>) {
    forall path :: Visited(enter, base, children, path).Some? ==>
      decide(path, Visited(enter, base, children, path).value).Take?
  }

  lemma {:induction false} TakenAccepted<O(!new)>(decide: Decide<O>, enter: Enter, at: O -> Path, base: Path,
                                                  children: seq<Child>)
    requires Guided(decide, enter, at) && Distinct(children) && AllTaken(decide, enter, base, children)
    ensures Accepted(decide, base, children)
    decreases children
  {
    if children != [] {
      var c, p := children[0], base + [children[0].name];
      forall path
        ensures VisitedFirst(enter, base, c, path).Some? ==>
                  decide(path, VisitedFirst(enter, base, c, path).value).Take?
        ensures Visited(enter, base, children[1..], path).Some? ==>
                  decide(path, Visited(enter, base, children[1..], path).value).Take?
      {
        VisitedBelow(enter, base, children, path);
      }
      assert VisitedFirst(enter, base, c, p) == Some(c.node);
      TakenAccepted(decide, enter, at, base, children[1..]);
      if decide(p, c.node).descend && c.node.Directory? {
        BelowFirst(decide, enter, base, c);
        TakenAccepted(decide, enter, at, p, c.node.children);
      }
    }
  }

  lemma BelowFirst<O>(decide: Decide<O>, enter: Enter, base: Path, c: Child)
    requires c.node.Directory? && enter(base + [c.name], c.node)
    requires forall path :: VisitedFirst(enter, base, c, path).Some? ==>
               decide(path, VisitedFirst(enter, base, c, path).value).Take?
    ensures AllTaken(decide, enter, base + [c.name], c.node.children)
  {
    var p := base + [c.name];
    forall path | Visited(enter, p, c.node.children, path).Some?
      ensures decide(path, Visited(enter, p, c.node.children, path).value).Take?
    {
      assert path != p;
      assert VisitedFirst(enter, base, c, path) == Visited(enter, p, c.node.children, path);
    }
  }

  /** A traversal is accepted exactly when every node that is visited is taken. */
  lemma AcceptedMeans<O(!new)>(decide: Decide<O>, enter: Enter, at: O -> Path, root: seq<Child>)
    requires Guided(decide, enter, at) && Distinct(root)
    ensures Accepted(decide, [], root) <==> AllTaken(decide, enter, [], root)
  {
    if AllTaken(decide, enter, [], root) {
      TakenAccepted(decide, enter, at, [], root);
    }
    if Accepted(decide, [], root) {
      forall path | Visited(enter, [], root, path).Some?
        ensures decide(path, Visited(enter, [], root, path).value).Take?
      {
        VisitedTaken(decide, enter, at, [], root, path);
      }
    }
  }

  /** `outs` is what the visited nodes yield, in some order. */
  ghost predicate Yields<O(!new)>(decide: Decide<O>, enter: Enter, at: O -> Path, root: seq<Child>, outs: seq<O>) {
    forall o :: multiset(outs)[o] == Due(decide, enter, at, [], root, o)
  }

  lemma CollectYields<O(!new)>(decide: Decide<O>, enter: Enter, at: O -> Path, root: seq<Child>)
    requires Guided(decide, enter, at) && Distinct(root)
    ensures Yields(decide, enter, at, root, Collect(decide, [], root))
  {
    forall o
      ensures multiset(Collect(decide, [], root))[o] == Due(decide, enter, at, [], root, o)
    {
      CollectedTimes(decide, enter, at, [], root, o);
    }
  }

  lemma YieldsOnce<O(!new)>(decide: Decide<O>, enter: Enter, at: O -> Path, root: seq<Child>, a: seq<O>, b: seq<O>)
    requires Yields(decide, enter, at, root, a) && Yields(decide, enter, at, root, b)
    ensures multiset(a) == multiset(b)
  {
    assert forall o :: multiset(a)[o] == multiset(b)[o];
  }

  // ---- How many entries are met ----

  /** `paths` names every visited node once. */
  ghost predicate Enumerates(enter: Enter, root: seq<Child>, paths: seq<Path>) {
    forall path :: multiset(paths)[path] == if Visited(enter, [], root, path).Some? then 1 else 0
  }

  /** No more than `n` nodes are visited. */
  ghost predicate VisitsAtMost(enter: Enter, root: seq<Child>, n: nat) {
    exists paths :: Enumerates(enter, root, paths) && |paths| <= n
  }

  /** The traversal that only writes down where it has been. */
  function Tracing(enter: Enter): Decide<Path> {
    (p: Path, n: Node) => Take([p], enter(p, n))
  }

  function Self(): Path -> Path { (p: Path) => p }

  lemma {:induction false} TraceCounts<O(!new)>(decide: Decide<O>, enter: Enter, at: O -> Path, base: Path,
                                                children: seq<Child>)
    requires Guided(decide, enter, at)
    ensures |Collect(Tracing(enter), base, children)| == Count(decide, base, children)
    decreases children
  {
    if children != [] {
      var p := base + [children[0].name];
      TraceCounts(decide, enter, at, base, children[1..]);
      if children[0].node.Directory? {
        TraceCounts(decide, enter, at, p, children[0].node.children);
      }
      CollectShares(Tracing(enter), base, children);
    }
  }

  lemma CountMeans<O(!new)>(decide: Decide<O>, enter: Enter, at: O -> Path, root: seq<Child>, n: nat)
    requires Guided(decide, enter, at) && Distinct(root)
    ensures Count(decide, [], root) <= n <==> VisitsAtMost(enter, root, n)
  {
    var trace := Collect(Tracing(enter), [], root);
    TraceCounts(decide, enter, at, [], root);
    assert Guided(Tracing(enter), enter, Self());
    forall path
      ensures multiset(trace)[path] == if Visited(enter, [], root, path).Some? then 1 else 0
    {
      CollectedTimes(Tracing(enter), enter, Self(), [], root, path);
    }
    assert Enumerates(enter, root, trace);
    forall paths | Enumerates(enter, root, paths)
      ensures |paths| == |trace|
    {
      assert multiset(paths) == multiset(trace);
      assert |multiset(paths)| == |paths| && |multiset(trace)| == |trace|;
    }
  }

  /** What a traversal that returns has put out: exactly what the nodes it visited yield, and it raised at
      none of them. */
  lemma RunPutsOut<O(!new)>(decide: Decide<O>, bounds: Bounds<O>, fifo: bool, enter: Enter, at: O -> Path,
                            root: seq<Child>, r: Progress<O>)
    requires Guided(decide, enter, at) && Distinct(root)
    requires Run(decide, bounds, fifo, [Dir([], root)], Progress(0, [])) == Some(r)
    ensures forall o :: o in r.outs <==>
              && Visited(enter, [], root, at(o)).Some?
              && Times(decide(at(o), Visited(enter, [], root, at(o)).value), o) > 0
    ensures forall path :: Visited(enter, [], root, path).Some? ==>
              decide(path, Visited(enter, [], root, path).value).Take?
  {
    RunCollects(decide, bounds, fifo, [Dir([], root)], Progress(0, []));
    RunAccepts(decide, bounds, fifo, [Dir([], root)], Progress(0, []));
    assert CollectAll(decide, [Dir([], root)]) == Collect(decide, [], root);
    forall o
      ensures o in r.outs <==>
                && Visited(enter, [], root, at(o)).Some?
                && Times(decide(at(o), Visited(enter, [], root, at(o)).value), o) > 0
    {
      CollectedTimes(decide, enter, at, [], root, o);
      assert o in r.outs <==> multiset(r.outs)[o] > 0;
    }
    forall path | Visited(enter, [], root, path).Some?
      ensures decide(path, Visited(enter, [], root, path).value).Take?
    {
      VisitedTaken(decide, enter, at, [], root, path);
    }
  }

  /** A directory that is reached after `k` steps is entered. */
  predicate EnteredAt(enter: Enter, base: Path, children: seq<Child>, path: Path, k: nat)
    requires k <= |path|
  {
    var n := Reach(enter, base, children, path[..k]);
    n.Some? && n.value.Directory? ==> enter(base + path[..k], n.value)
  }

  /** What is present is visited when every directory on the way, once visited, is entered. */
  lemma {:induction false} PresentReached(enter: Enter, all: Enter, base: Path, children: seq<Child>, path: Path)
    requires Reach(all, base, children, path).Some?
    requires forall k :: 0 < k < |path| ==> EnteredAt(enter, base, children, path, k)
    ensures Reach(enter, base, children, path) == Reach(all, base, children, path)
    decreases |path|
  {
    if |path| > 1 {
      var n := Find(children, path[0]).value;
      var p := base + [path[0]];
      assert path[..1] == [path[0]] && EnteredAt(enter, base, children, path, 1);
      forall k | 0 < k < |path[1..]|
        ensures EnteredAt(enter, p, n.children, path[1..], k)
      {
        assert EnteredAt(enter, base, children, path, k + 1);
        assert path[..k + 1][0] == path[0] && path[..k + 1][1..] == path[1..][..k];
        assert base + path[..k + 1] == p + path[1..][..k];
      }
      PresentReached(enter, all, p, n.children, path[1..]);
    }
  }

  /** Whatever is reached is reached through directories that were entered. */
  lemma {:induction false} ReachedThrough(enter: Enter, base: Path, children: seq<Child>, path: Path, k: nat)
    requires Reach(enter, base, children, path).Some? && 0 < k < |path|
    ensures Reach(enter, base, children, path[..k]).Some?
    ensures var n := Reach(enter, base, children, path[..k]).value; n.Directory? && enter(base + path[..k], n)
    decreases |path|
  {
    assert path[..k][0] == path[0];
    if k == 1 {
      assert base + [path[0]] == base + path[..1];
    } else {
      ReachedThrough(enter, base + [path[0]], Find(children, path[0]).value.children, path[1..], k - 1);
      assert path[..k][1..] == path[1..][..k - 1];
      assert base + [path[0]] + path[1..][..k - 1] == base + path[..k];
    }
  }

  lemma VisitedIsReached(enter: Enter, root: seq<Child>, path: Path)
    ensures Visited(enter, [], root, path) == Reach(enter, [], root, path)
  {
    assert path[0..] == path;
  }

  /** Names are nonempty and hold no slash. */
  predicate ProperNames(children: seq<Child>)
    decreases children
  {
    children == []
    || (&& children[0].name != [] && '/' !in children[0].name
        && (children[0].node.Directory? ==> ProperNames(children[0].node.children))
        && ProperNames(children[1..]))
  }

  lemma {:induction false} FoundProper(children: seq<Child>, name: string)
    requires ProperNames(children) && Find(children, name).Some?
    ensures name != [] && '/' !in name
    ensures Find(children, name).value.Directory? ==> ProperNames(Find(children, name).value.children)
  {
    if children[0].name != name {
      FoundProper(children[1..], name);
    }
  }

  lemma {:induction false} ReachedProper(enter: Enter, base: Path, children: seq<Child>, path: Path)
    requires ProperNames(children) && Reach(enter, base, children, path).Some?
    ensures path != [] && Slashless(path)
    decreases |path|
  {
    FoundProper(children, path[0]);
    if |path| > 1 {
      ReachedProper(enter, base + [path[0]], Find(children, path[0]).value.children, path[1..]);
      assert path == [path[0]] + path[1..];
    }
  }
}
