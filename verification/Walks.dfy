/** Worklist traversals of a directory tree: a queue or stack of directories with limits on the way,
    against the plain recursion that needs neither. */
module Walks {
  import opened Wrappers
  import opened Bytes

  type Path = seq<string>

  /** Every component is a name. */
  predicate Slashless(path: Path) { forall part <- path :: part != [] && '/' !in part }

  lemma PrefixSlashless(p: Path, k: nat)
    requires Slashless(p) && k <= |p|
    ensures Slashless(p[..k])
  {
    assert forall part <- p[..k] :: part in p;
  }

  /** `Special` is neither file nor directory, or a reparse point. */
  datatype Node = Directory(children: seq<Child>) | Regular(data: bytes, links: nat) | Special(reparse: bool)

  datatype Child = Child(name: string, node: Node)

  /** What a traversal does with one child: raise, or add outputs and perhaps visit it later. */
  datatype Plan<O> = Refuse | Take(outs: seq<O>, descend: bool)

  type Decide<!O> = (Path, Node) -> Plan<O>

  /** A directory that waits on the worklist. */
  datatype Dir = Dir(path: Path, children: seq<Child>)

  // ---- The recursion ----

  function Collect<O>(decide: Decide<O>, path: Path, children: seq<Child>): seq<O>
    decreases children
  {
    if children == [] then []
    else
      var p := path + [children[0].name];
      var plan := decide(p, children[0].node);
      (if plan.Refuse? then []
       else plan.outs
            + if plan.descend && children[0].node.Directory? then Collect(decide, p, children[0].node.children) else [])
      + Collect(decide, path, children[1..])
  }

  predicate Accepted<O>(decide: Decide<O>, path: Path, children: seq<Child>)
    decreases children
  {
    children == []
    || (var p := path + [children[0].name];
        var plan := decide(p, children[0].node);
        && plan.Take?
        && (plan.descend && children[0].node.Directory? ==> Accepted(decide, p, children[0].node.children))
        && Accepted(decide, path, children[1..]))
  }

  /** The number of entries met. */
  function Count<O>(decide: Decide<O>, path: Path, children: seq<Child>): nat
    decreases children
  {
    if children == [] then 0
    else
      var p := path + [children[0].name];
      var plan := decide(p, children[0].node);
      1
      + (if plan.Take? && plan.descend && children[0].node.Directory? then Count(decide, p, children[0].node.children)
         else 0)
      + Count(decide, path, children[1..])
  }

  function CollectAll<O>(decide: Decide<O>, dirs: seq<Dir>): seq<O> {
    if dirs == [] then [] else Collect(decide, dirs[0].path, dirs[0].children) + CollectAll(decide, dirs[1..])
  }

  predicate AcceptedAll<O>(decide: Decide<O>, dirs: seq<Dir>) {
    forall d <- dirs :: Accepted(decide, d.path, d.children)
  }

  function CountAll<O>(decide: Decide<O>, dirs: seq<Dir>): nat {
    if dirs == [] then 0 else Count(decide, dirs[0].path, dirs[0].children) + CountAll(decide, dirs[1..])
  }

  // ---- The worklist ----

  function Weight(children: seq<Child>): nat
    decreases children
  {
    if children == [] then 0
    else 1 + (if children[0].node.Directory? then Weight(children[0].node.children) else 0) + Weight(children[1..])
  }

  function WeightAll(dirs: seq<Dir>): nat {
    if dirs == [] then 0 else 1 + Weight(dirs[0].children) + WeightAll(dirs[1..])
  }

  lemma {:induction false} WeightAllSum(a: seq<Dir>, b: seq<Dir>)
    ensures WeightAll(a + b) == WeightAll(a) + WeightAll(b)
  {
    if a == [] {
      assert a + b == b;
    } else {
      assert (a + b)[1..] == a[1..] + b;
      WeightAllSum(a[1..], b);
    }
  }

  datatype Scanned<O> = Scanned(outs: seq<O>, dirs: seq<Dir>)

  /** One directory: the outputs of its children, and those of them that go on the worklist. */
  function Scan<O>(decide: Decide<O>, path: Path, children: seq<Child>): (r: Option<Scanned<O>>)
    ensures r.Some? ==> WeightAll(r.value.dirs) <= Weight(children)
  {
    if children == [] then Some(Scanned([], []))
    else
      var p := path + [children[0].name];
      match (decide(p, children[0].node), Scan(decide, path, children[1..]))
      case (Take(outs, descend), Some(rest)) =>
        if descend && children[0].node.Directory?
        then Some(Scanned(outs + rest.outs, [Dir(p, children[0].node.children)] + rest.dirs))
        else Some(Scanned(outs + rest.outs, rest.dirs))
      case _ => None
  }

  /** A scan that has come as far as `outs` and `dirs`. */
  function Joined<O>(outs: seq<O>, dirs: seq<Dir>, rest: Option<Scanned<O>>): Option<Scanned<O>> {
    match rest
    case None => None
    case Some(r) => Some(Scanned(outs + r.outs, dirs + r.dirs))
  }

  lemma JoinedEnds<O>(outs: seq<O>, dirs: seq<Dir>, rest: Option<Scanned<O>>)
    ensures Joined([], [], rest) == rest
    ensures Joined(outs, dirs, Some(Scanned([], []))) == Some(Scanned(outs, dirs))
  {
    if rest.Some? {
      assert [] + rest.value.outs == rest.value.outs && [] + rest.value.dirs == rest.value.dirs;
    }
    assert outs + [] == outs && dirs + [] == dirs;
  }

  /** The directory that a child adds to the worklist, if it does. */
  function Opened<O>(plan: Plan<O>, p: Path, n: Node): seq<Dir> {
    if plan.Take? && plan.descend && n.Directory? then [Dir(p, n.children)] else []
  }

  /** How the scan goes on at child `i`. */
  lemma ScanAt<O>(decide: Decide<O>, path: Path, children: seq<Child>, i: nat, outs: seq<O>, dirs: seq<Dir>)
    requires i < |children|
    ensures var p, c := path + [children[i].name], children[i].node;
            var here := Joined(outs, dirs, Scan(decide, path, children[i..]));
            var rest := Scan(decide, path, children[i + 1..]);
            if decide(p, c).Refuse? then here.None?
            else here == Joined(outs + decide(p, c).outs, dirs + Opened(decide(p, c), p, c), rest)
  {
    assert children[i..][0] == children[i] && children[i..][1..] == children[i + 1..];
    var c := children[i].node;
    var plan, rest := decide(path + [children[i].name], c), Scan(decide, path, children[i + 1..]);
    if plan.Take? && rest.Some? {
      assert (outs + plan.outs) + rest.value.outs == outs + (plan.outs + rest.value.outs);
      if plan.descend && c.Directory? {
        var d := [Dir(path + [children[i].name], c.children)];
        assert (dirs + d) + rest.value.dirs == dirs + (d + rest.value.dirs);
      } else {
        assert (dirs + []) + rest.value.dirs == dirs + rest.value.dirs;
      }
    }
  }

  function Reversed<T>(s: seq<T>): (r: seq<T>)
    ensures |r| == |s|
  {
    if s == [] then [] else Reversed(s[1..]) + [s[0]]
  }

  lemma {:induction false} WeightReversed(dirs: seq<Dir>)
    ensures WeightAll(Reversed(dirs)) == WeightAll(dirs)
  {
    if dirs != [] {
      WeightReversed(dirs[1..]);
      WeightAllSum(Reversed(dirs[1..]), [dirs[0]]);
    }
  }

  /** The worklist behind `rest` when a directory has yielded `dirs`: a queue takes them at its end, a
      stack returns the last of them first. */
  function Enqueued(fifo: bool, rest: seq<Dir>, dirs: seq<Dir>): (r: seq<Dir>)
    ensures WeightAll(r) == WeightAll(rest) + WeightAll(dirs)
  {
    if fifo then WeightAllSum(rest, dirs); rest + dirs
    else WeightAllSum(Reversed(dirs), rest); WeightReversed(dirs); Reversed(dirs) + rest
  }

  /** `fits` bounds what has been put out so far and `entries` how many children may be met. */
  datatype Bounds<!O> = Bounds(fits: seq<O> -> bool, entries: nat)

  datatype Progress<O> = Progress(met: nat, outs: seq<O>)

  function Run<O>(decide: Decide<O>, bounds: Bounds<O>, fifo: bool, work: seq<Dir>, p: Progress<O>): Option<Progress<O>>
    decreases WeightAll(work)
  {
    if work == [] then Some(p)
    else
      var d := work[0];
      var scan := Scan(decide, d.path, d.children);
      if p.met + |d.children| > bounds.entries || scan.None? || !bounds.fits(p.outs + scan.value.outs) then None
      else
        Run(decide, bounds, fifo, Enqueued(fifo, work[1..], scan.value.dirs),
            Progress(p.met + |d.children|, p.outs + scan.value.outs))
  }

  // ---- Both agree ----

  /** A bound does not depend on the order of the outputs, and what exceeds it cannot come back under it. */
  ghost predicate Bounding<O(!new)>(fits: seq<O> -> bool) {
    && (forall a, b {:trigger fits(a), fits(b)} :: multiset(a) == multiset(b) ==> fits(a) == fits(b))
    && (forall a, b {:trigger fits(a + b)} :: fits(a + b) ==> fits(a))
  }

  lemma {:induction false} ScanAccepts<O>(decide: Decide<O>, path: Path, children: seq<Child>)
    ensures Accepted(decide, path, children) <==>
              Scan(decide, path, children).Some? && AcceptedAll(decide, Scan(decide, path, children).value.dirs)
  {
    if children != [] {
      ScanAccepts(decide, path, children[1..]);
      var p := path + [children[0].name];
      if decide(p, children[0].node).Take? && Scan(decide, path, children[1..]).Some? {
        var rest := Scan(decide, path, children[1..]).value;
        if decide(p, children[0].node).descend && children[0].node.Directory? {
          AcceptedAllSum(decide, [Dir(p, children[0].node.children)], rest.dirs);
        }
      }
    }
  }

  lemma AcceptedAllSum<O>(decide: Decide<O>, a: seq<Dir>, b: seq<Dir>)
    ensures AcceptedAll(decide, a + b) <==> AcceptedAll(decide, a) && AcceptedAll(decide, b)
  {
    assert forall d :: d in a + b <==> d in a || d in b;
  }

  lemma ConsCollects<O>(decide: Decide<O>, d: Dir, dirs: seq<Dir>)
    ensures CollectAll(decide, [d] + dirs) == Collect(decide, d.path, d.children) + CollectAll(decide, dirs)
    ensures CountAll(decide, [d] + dirs) == Count(decide, d.path, d.children) + CountAll(decide, dirs)
  {
    assert ([d] + dirs)[1..] == dirs;
  }

  /** The first child's share, and the others'. */
  lemma FirstChild<O>(decide: Decide<O>, path: Path, children: seq<Child>)
    requires children != [] && Scan(decide, path, children).Some?
    ensures Scan(decide, path, children[1..]).Some?
    ensures var p := path + [children[0].name];
            var s, rest := Scan(decide, path, children).value, Scan(decide, path, children[1..]).value;
            var (share, count) := if |s.dirs| == |rest.dirs| then ([], 0)
                                  else (Collect(decide, s.dirs[0].path, s.dirs[0].children),
                                        Count(decide, s.dirs[0].path, s.dirs[0].children));
            && decide(p, children[0].node).Take?
            && s.outs == decide(p, children[0].node).outs + rest.outs
            && (s.dirs == rest.dirs || (|s.dirs| > 0 && s.dirs == [s.dirs[0]] + rest.dirs))
            && Collect(decide, path, children)
                 == decide(p, children[0].node).outs + share + Collect(decide, path, children[1..])
            && Count(decide, path, children) == 1 + count + Count(decide, path, children[1..])
  {
  }

  lemma {:induction false} ScanCollects<O>(decide: Decide<O>, path: Path, children: seq<Child>)
    requires Scan(decide, path, children).Some?
    ensures var s := Scan(decide, path, children).value;
            && multiset(Collect(decide, path, children)) == multiset(s.outs) + multiset(CollectAll(decide, s.dirs))
            && Count(decide, path, children) == |children| + CountAll(decide, s.dirs)
  {
    if children != [] {
      FirstChild(decide, path, children);
      ScanCollects(decide, path, children[1..]);
      var s, rest := Scan(decide, path, children).value, Scan(decide, path, children[1..]).value;
      if s.dirs != rest.dirs {
        ConsCollects(decide, s.dirs[0], rest.dirs);
      }
    }
  }

  lemma {:induction false} CollectAllSum<O>(decide: Decide<O>, a: seq<Dir>, b: seq<Dir>)
    ensures CollectAll(decide, a + b) == CollectAll(decide, a) + CollectAll(decide, b)
    ensures CountAll(decide, a + b) == CountAll(decide, a) + CountAll(decide, b)
  {
    if a == [] {
      assert a + b == b;
    } else {
      assert (a + b)[1..] == a[1..] + b;
      CollectAllSum(decide, a[1..], b);
    }
  }

  lemma {:induction false} CollectAllReversed<O>(decide: Decide<O>, dirs: seq<Dir>)
    ensures multiset(CollectAll(decide, Reversed(dirs))) == multiset(CollectAll(decide, dirs))
    ensures CountAll(decide, Reversed(dirs)) == CountAll(decide, dirs)
    ensures AcceptedAll(decide, Reversed(dirs)) <==> AcceptedAll(decide, dirs)
  {
    if dirs != [] {
      CollectAllReversed(decide, dirs[1..]);
      CollectAllSum(decide, Reversed(dirs[1..]), [dirs[0]]);
      AcceptedAllSum(decide, Reversed(dirs[1..]), [dirs[0]]);
      AcceptedAllSum(decide, [dirs[0]], dirs[1..]);
      assert [dirs[0]] + dirs[1..] == dirs;
      assert CollectAll(decide, [dirs[0]]) == Collect(decide, dirs[0].path, dirs[0].children);
    }
  }

  lemma EnqueuedCollects<O>(decide: Decide<O>, fifo: bool, rest: seq<Dir>, dirs: seq<Dir>)
    ensures var w := Enqueued(fifo, rest, dirs);
            && multiset(CollectAll(decide, w))
                 == multiset(CollectAll(decide, rest)) + multiset(CollectAll(decide, dirs))
            && CountAll(decide, w) == CountAll(decide, rest) + CountAll(decide, dirs)
            && (AcceptedAll(decide, w) <==> AcceptedAll(decide, rest) && AcceptedAll(decide, dirs))
  {
    if fifo {
      CollectAllSum(decide, rest, dirs);
      AcceptedAllSum(decide, rest, dirs);
    } else {
      CollectAllReversed(decide, dirs);
      CollectAllSum(decide, Reversed(dirs), rest);
      AcceptedAllSum(decide, Reversed(dirs), rest);
    }
  }

  /** One directory of the worklist, told in terms of the recursion: what it puts out now, and what is
      left for `next`. */
  lemma StepAgrees<O>(decide: Decide<O>, fifo: bool, work: seq<Dir>) returns (scan: Option<Scanned<O>>, next: seq<Dir>)
    requires work != []
    ensures scan == Scan(decide, work[0].path, work[0].children)
    ensures scan.Some? ==> next == Enqueued(fifo, work[1..], scan.value.dirs) && WeightAll(next) < WeightAll(work)
    ensures AcceptedAll(decide, work) <==> scan.Some? && AcceptedAll(decide, next)
    ensures scan.Some? ==> CountAll(decide, work) == |work[0].children| + CountAll(decide, next)
    ensures scan.Some? ==>
              multiset(CollectAll(decide, work)) == multiset(scan.value.outs) + multiset(CollectAll(decide, next))
  {
    var d := work[0];
    scan, next := Scan(decide, d.path, d.children), [];
    ScanAccepts(decide, d.path, d.children);
    AcceptedAllSum(decide, [d], work[1..]);
    assert [d] + work[1..] == work;
    if scan.Some? {
      ScanCollects(decide, d.path, d.children);
      EnqueuedCollects(decide, fifo, work[1..], scan.value.dirs);
      next := Enqueued(fifo, work[1..], scan.value.dirs);
    }
  }

  /** The two bounds on one directory. */
  predicate Within<O>(bounds: Bounds<O>, p: Progress<O>, d: Dir, outs: seq<O>) {
    p.met + |d.children| <= bounds.entries && bounds.fits(p.outs + outs)
  }

  lemma RunUnfolds<O>(decide: Decide<O>, bounds: Bounds<O>, fifo: bool, work: seq<Dir>, p: Progress<O>,
                      scan: Option<Scanned<O>>, next: seq<Dir>)
    requires work != [] && scan == Scan(decide, work[0].path, work[0].children)
    requires scan.Some? ==> next == Enqueued(fifo, work[1..], scan.value.dirs)
    ensures Run(decide, bounds, fifo, work, p)
         == if scan.None? || !Within(bounds, p, work[0], scan.value.outs) then None
            else Run(decide, bounds, fifo, next, Progress(p.met + |work[0].children|, p.outs + scan.value.outs))
    ensures scan.Some? ==> WeightAll(next) < WeightAll(work)
  {
  }

  lemma RunStops<O>(decide: Decide<O>, bounds: Bounds<O>, fifo: bool, work: seq<Dir>, p: Progress<O>)
    requires work != []
    requires var scan := Scan(decide, work[0].path, work[0].children);
             scan.None? || !Within(bounds, p, work[0], scan.value.outs)
    ensures Run(decide, bounds, fifo, work, p).None?
  {
  }

  lemma RunGoesOn<O>(decide: Decide<O>, bounds: Bounds<O>, fifo: bool, work: seq<Dir>, p: Progress<O>, scan: Scanned<O>,
                     next: seq<Dir>, q: Progress<O>)
    requires work != [] && Scan(decide, work[0].path, work[0].children) == Some(scan)
          && Within(bounds, p, work[0], scan.outs)
    requires next == Enqueued(fifo, work[1..], scan.dirs)
          && q == Progress(p.met + |work[0].children|, p.outs + scan.outs)
    ensures Run(decide, bounds, fifo, work, p) == Run(decide, bounds, fifo, next, q)
    ensures WeightAll(next) < WeightAll(work)
  {
    RunUnfolds(decide, bounds, fifo, work, p, Some(scan), next);
  }

  lemma OutsMove<O(!new)>(fits: seq<O> -> bool, outs: seq<O>, scanned: seq<O>, left: seq<O>, all: seq<O>)
    requires Bounding(fits) && multiset(all) == multiset(scanned) + multiset(left)
    ensures fits((outs + scanned) + left) == fits(outs + all)
    ensures fits(outs + all) ==> fits(outs + scanned)
  {
    assert multiset((outs + scanned) + left) == multiset(outs + all);
  }

  /** In either order the worklist puts out what the recursion puts out, everything once, and meets as
      many entries. */
  lemma {:induction false} RunCollects<O>(decide: Decide<O>, bounds: Bounds<O>, fifo: bool, work: seq<Dir>,
                                          p: Progress<O>)
    requires Run(decide, bounds, fifo, work, p).Some?
    ensures var r := Run(decide, bounds, fifo, work, p).value;
            && r.met == p.met + CountAll(decide, work)
            && multiset(r.outs) == multiset(p.outs) + multiset(CollectAll(decide, work))
    decreases WeightAll(work)
  {
    if work != [] {
      var scan, next := StepAgrees(decide, fifo, work);
      RunUnfolds(decide, bounds, fifo, work, p, scan, next);
      RunCollects(decide, bounds, fifo, next, Progress(p.met + |work[0].children|, p.outs + scan.value.outs));
    }
  }

  /** A traversal that returns has refused nothing. */
  lemma {:induction false} RunAccepts<O>(decide: Decide<O>, bounds: Bounds<O>, fifo: bool, work: seq<Dir>,
                                         p: Progress<O>)
    requires Run(decide, bounds, fifo, work, p).Some?
    ensures AcceptedAll(decide, work)
    decreases WeightAll(work)
  {
    if work != [] {
      var scan, next := StepAgrees(decide, fifo, work);
      RunUnfolds(decide, bounds, fifo, work, p, scan, next);
      RunAccepts(decide, bounds, fifo, next, Progress(p.met + |work[0].children|, p.outs + scan.value.outs));
    }
  }

  /** It fails exactly when a child is refused or the whole exceeds a bound. */
  lemma {:induction false} RunSucceeds<O(!new)>(decide: Decide<O>, bounds: Bounds<O>, fifo: bool, work: seq<Dir>,
                                                p: Progress<O>)
    requires Bounding(bounds.fits) && bounds.fits(p.outs) && p.met <= bounds.entries
    ensures Run(decide, bounds, fifo, work, p).Some? <==>
              && AcceptedAll(decide, work) && p.met + CountAll(decide, work) <= bounds.entries
              && bounds.fits(p.outs + CollectAll(decide, work))
    decreases WeightAll(work)
  {
    if work == [] {
      assert p.outs + CollectAll(decide, work) == p.outs;
    } else {
      var scan, next := StepAgrees(decide, fifo, work);
      RunUnfolds(decide, bounds, fifo, work, p, scan, next);
      if scan.Some? {
        OutsMove(bounds.fits, p.outs, scan.value.outs, CollectAll(decide, next), CollectAll(decide, work));
        if Within(bounds, p, work[0], scan.value.outs) {
          RunSucceeds(decide, bounds, fifo, next, Progress(p.met + |work[0].children|, p.outs + scan.value.outs));
        }
      }
    }
  }

  /** A whole traversal that starts from one directory. */
  lemma RunFromRoot<O(!new)>(decide: Decide<O>, bounds: Bounds<O>, fifo: bool, d: Dir)
    requires Bounding(bounds.fits) && bounds.fits([])
    ensures var r := Run(decide, bounds, fifo, [d], Progress(0, []));
            && (r.Some? <==> && Accepted(decide, d.path, d.children)
                             && Count(decide, d.path, d.children) <= bounds.entries
                             && bounds.fits(Collect(decide, d.path, d.children)))
            && (r.Some? ==> && r.value.met == Count(decide, d.path, d.children) <= bounds.entries
                            && multiset(r.value.outs) == multiset(Collect(decide, d.path, d.children)))
  {
    RunSucceeds(decide, bounds, fifo, [d], Progress(0, []));
    assert CollectAll(decide, [d]) == Collect(decide, d.path, d.children);
    assert [] + CollectAll(decide, [d]) == CollectAll(decide, [d]);
    if Run(decide, bounds, fifo, [d], Progress(0, [])).Some? {
      RunCollects(decide, bounds, fifo, [d], Progress(0, []));
    }
  }

  // ---- A stack of directories ----

  lemma {:induction false} ReversedSnoc<T>(s: seq<T>, x: T)
    ensures Reversed(s + [x]) == [x] + Reversed(s)
  {
    if s == [] {
      assert s + [x] == [x] && [x][1..] == [];
    } else {
      assert (s + [x])[1..] == s[1..] + [x];
      ReversedSnoc(s[1..], x);
    }
  }

  lemma {:induction false} ReversedSum<T>(a: seq<T>, b: seq<T>)
    ensures Reversed(a + b) == Reversed(b) + Reversed(a)
  {
    if a == [] {
      assert a + b == b;
    } else {
      assert (a + b)[1..] == a[1..] + b;
      ReversedSum(a[1..], b);
    }
  }

  /** The top of the stack, and the stack behind one directory. */
  lemma StackStep(pending: seq<Dir>, dirs: seq<Dir>)
    requires pending != []
    ensures var top := pending[|pending| - 1];
            && Reversed(pending) != [] && Reversed(pending)[0] == top
            && Reversed(pending[..|pending| - 1] + dirs) == Enqueued(false, Reversed(pending)[1..], dirs)
  {
    var rest, top := pending[..|pending| - 1], pending[|pending| - 1];
    assert pending == rest + [top];
    ReversedSnoc(rest, top);
    ReversedSum(rest, dirs);
  }

  /** The traversal at a stack. */
  function RunStack<O>(decide: Decide<O>, bounds: Bounds<O>, stack: seq<Dir>, p: Progress<O>): Option<Progress<O>> {
    Run(decide, bounds, false, Reversed(stack), p)
  }

  /** It ends with the directory on top when this is refused or over a bound. */
  lemma StackStops<O>(decide: Decide<O>, bounds: Bounds<O>, stack: seq<Dir>, p: Progress<O>)
    requires stack != []
    requires var d := stack[|stack| - 1];
             var scan := Scan(decide, d.path, d.children);
             scan.None? || !Within(bounds, p, d, scan.value.outs)
    ensures RunStack(decide, bounds, stack, p).None?
  {
    StackStep(stack, []);
    RunStops(decide, bounds, false, Reversed(stack), p);
  }

  /** Otherwise the directory's children are pushed. */
  lemma StackGoesOn<O>(decide: Decide<O>, bounds: Bounds<O>, stack: seq<Dir>, p: Progress<O>, scan: Scanned<O>,
                       rest: seq<Dir>, q: Progress<O>)
    requires stack != []
    requires var d := stack[|stack| - 1];
             && Scan(decide, d.path, d.children) == Some(scan) && Within(bounds, p, d, scan.outs)
             && q == Progress(p.met + |d.children|, p.outs + scan.outs)
    requires rest == stack[..|stack| - 1] + scan.dirs
    ensures RunStack(decide, bounds, stack, p) == RunStack(decide, bounds, rest, q)
    ensures WeightAll(Reversed(rest)) < WeightAll(Reversed(stack))
  {
    StackStep(stack, scan.dirs);
    RunGoesOn(decide, bounds, false, Reversed(stack), p, scan, Reversed(rest), q);
  }

  lemma StackEmpty<O>(decide: Decide<O>, bounds: Bounds<O>, p: Progress<O>)
    ensures RunStack(decide, bounds, [], p) == Some(p)
  {
  }
}
