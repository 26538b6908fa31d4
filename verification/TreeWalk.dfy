/** `workspace_tree` as the loop it is: a deque of held directories, one hold for every entry looked at,
    and cleanup on every way out. */
module TreeWalk {
  import opened Wrappers
  import opened Walks
  import opened TreeListing
  import opened Holds

  /** One entry. Whatever is resolved is held, and released again unless it waits for its own visit. */
  method Visit(holds: HoldTable, p: Path, n: Node, hidden: Path -> bool, limit: nat, fault: Fault,
               waiting: seq<Held>, ghost others: set<nat>)
    returns (ok: bool, outs: seq<Entry>, pending: seq<Held>)
    requires holds.Valid() && Owns(holds.open, others, waiting)
    modifies holds
    ensures holds.Valid() && Owns(holds.open, others, pending)
    ensures var plan := TreeDecide(hidden, limit)(p, n);
            && (ok ==> plan.Take? && outs == plan.outs && Dirs(pending) == Dirs(waiting) + Opened(plan, p, n))
            && (!ok ==> plan.Refuse? || fault != NoFault)
  {
    outs, pending := [], waiting;
    if n.Special? {
      return false, outs, pending;
    }
    if hidden(p) {
      return true, outs, pending;
    }
    if fault.Unresolvable? {
      return false, outs, pending;
    }
    ghost var open := holds.open;
    var hold := holds.Take();
    if n.Directory? && |p| < limit {
      PushOwned(open, others, waiting, Held(Dir(p, n.children), hold));
      DirsPush(waiting, Held(Dir(p, n.children), hold));
      pending := waiting + [Held(Dir(p, n.children), hold)];
    } else {
      holds.Release(hold);
      assert holds.open == open;
    }
    return !fault.Vanished?, [EntryOf(p, n)], pending;
  }

  method ScanDirectory(holds: HoldTable, d: Dir, hidden: Path -> bool, limit: nat, fault: Path -> Fault,
                       waiting: seq<Held>, ghost others: set<nat>, ghost decide: Decide<Entry>)
    returns (ok: bool, outs: seq<Entry>, pending: seq<Held>, ghost dirs: seq<Dir>)
    requires holds.Valid() && Owns(holds.open, others, waiting) && decide == TreeDecide(hidden, limit)
    modifies holds
    ensures holds.Valid() && Owns(holds.open, others, pending)
    ensures ok ==>
              Scan(decide, d.path, d.children) == Some(Scanned(outs, dirs)) && Dirs(pending) == Dirs(waiting) + dirs
    ensures !ok ==> Scan(decide, d.path, d.children).None? || exists p :: fault(p) != NoFault
  {
    outs, pending, dirs := [], waiting, [];
    assert d.children[0..] == d.children;
    JoinedEnds(outs, dirs, Scan(decide, d.path, d.children));
    var i := 0;
    while i < |d.children|
      invariant i <= |d.children|
      invariant holds.Valid() && Owns(holds.open, others, pending)
      invariant Joined(outs, dirs, Scan(decide, d.path, d.children[i..])) == Scan(decide, d.path, d.children)
      invariant Dirs(pending) == Dirs(waiting) + dirs
    {
      var p, n := d.path + [d.children[i].name], d.children[i].node;
      ScanAt(decide, d.path, d.children, i, outs, dirs);
      var more;
      ok, more, pending := Visit(holds, p, n, hidden, limit, fault(p), pending, others);
      if !ok {
        assert decide(p, n).Refuse? || fault(p) != NoFault;
        return;
      }
      outs, dirs, i := outs + more, dirs + Opened(decide(p, n), p, n), i + 1;
    }
    assert d.children[i..] == [];
    JoinedEnds(outs, dirs, Scan(decide, d.path, d.children));
    return true, outs, pending, dirs;
  }

  /** The directory at the head of the queue: its listing within the entry limit, its children, and the
      release of its hold on every way out. */
  method VisitFirst(holds: HoldTable, waiting: seq<Held>, visited: nat, hidden: Path -> bool, limit: nat, entries: nat,
                    fault: Path -> Fault, ghost others: set<nat>, ghost decide: Decide<Entry>)
    returns (ok: bool, outs: seq<Entry>, pending: seq<Held>, ghost scan: Option<Scanned<Entry>>)
    requires holds.Valid() && Owns(holds.open, others, waiting) && waiting != [] && decide == TreeDecide(hidden, limit)
    modifies holds
    ensures holds.Valid() && Owns(holds.open, others, pending)
    ensures var d := waiting[0].dir;
            && scan == Scan(decide, d.path, d.children)
            && (ok ==> && visited + |d.children| <= entries && scan.Some? && outs == scan.value.outs
                       && Dirs(pending) == Dirs(waiting)[1..] + scan.value.dirs)
            && (!ok ==> visited + |d.children| > entries || scan.None? || exists p :: fault(p) != NoFault)
  {
    var h := waiting[0];
    PopOwned(holds.open, others, waiting);
    scan := Scan(decide, h.dir.path, h.dir.children);
    if visited + |h.dir.children| > entries || fault(h.dir.path).Unlistable? {
      assert fault(h.dir.path).Unlistable? ==> fault(h.dir.path) != NoFault;
      holds.Release(h.id);
      return false, [], waiting[1..], scan;
    }
    ghost var dirs;
    ok, outs, pending, dirs := ScanDirectory(holds, h.dir, hidden, limit, fault, waiting[1..], others + {h.id}, decide);
    assert Dirs(waiting[1..]) == Dirs(waiting)[1..];
    ReleaseOwned(holds, h.id, pending, others);
  }

  /** `workspace_tree` behind the validation of its arguments. Whatever happens, every hold taken on the
      way, and the root's, is released exactly once; and without faults it is the listing. */
  method WorkspaceTree(holds: HoldTable, root: Held, hidden: Path -> bool, limit: nat, entries: nat,
                       fault: Path -> Fault)
    returns (r: Option<Progress<Entry>>)
    requires holds.Valid() && root.id in holds.open && root.dir.path == []
    modifies holds
    ensures holds.Valid() && holds.open == old(holds.open) - {root.id}
    ensures r.Some? ==> r == Tree(hidden, limit, entries, root.dir.children)
    ensures r.None? ==> Tree(hidden, limit, entries, root.dir.children).None? || exists p :: fault(p) != NoFault
  {
    ghost var others := holds.open - {root.id};
    if limit == 0 {
      holds.Release(root.id);
      return Some(Progress(0, []));
    }
    ghost var decide, bounds := TreeDecide(hidden, limit), Unbounded<Entry>(entries);
    r := Drain(holds, root, hidden, limit, entries, fault, others, decide, bounds,
               Run(decide, bounds, true, [root.dir], Progress(0, [])));
  }

  method Drain(holds: HoldTable, root: Held, hidden: Path -> bool, limit: nat, entries: nat, fault: Path -> Fault,
               ghost others: set<nat>, ghost decide: Decide<Entry>, ghost bounds: Bounds<Entry>,
               ghost spec: Option<Progress<Entry>>)
    returns (r: Option<Progress<Entry>>)
    requires holds.Valid() && Owns(holds.open, others, [root])
    requires decide == TreeDecide(hidden, limit) && bounds.entries == entries && (forall outs :: bounds.fits(outs))
    requires spec == Run(decide, bounds, true, [root.dir], Progress(0, []))
    modifies holds
    ensures holds.Valid() && holds.open == others
    ensures (r.Some? ==> r == spec) && (r.None? ==> spec.None? || exists p :: fault(p) != NoFault)
  {
    var pending, p := [root], Progress(0, []);
    assert Dirs(pending) == [root.dir];
    while pending != []
      invariant holds.Valid() && Owns(holds.open, others, pending)
      invariant Run(decide, bounds, true, Dirs(pending), p) == spec
      decreases WeightAll(Dirs(pending))
    {
      var ok, outs, rest, scan := VisitFirst(holds, pending, p.met, hidden, limit, entries, fault, others, decide);
      if !ok {
        if !exists p :: fault(p) != NoFault {
          RunStops(decide, bounds, true, Dirs(pending), p);
        }
        ReleaseAll(holds, rest, others);
        return None;
      }
      ghost var q := Progress(p.met + |pending[0].dir.children|, p.outs + outs);
      RunGoesOn(decide, bounds, true, Dirs(pending), p, scan.value, Dirs(rest), q);
      p, pending := Progress(p.met + |pending[0].dir.children|, p.outs + outs), rest;
    }
    return Some(p);
  }
}
