/** `workspace_search` as the loop it is: a queue of held directories, two short holds for every file that
    is read, and three running counters that raise as soon as one of them exceeds its limit. */
module SearchWalk {
  import opened Wrappers
  import opened Walks
  import opened WorkspaceSearch
  import opened Bytes
  import opened Holds

  lemma OverrunAdds(q: Query, c: Counters, a: Counters, b: Counters, rest: Counters)
    requires !InLimits(q, Plus(Plus(c, a), b))
    ensures !InLimits(q, Plus(c, Plus(Plus(a, b), rest)))
  {
  }

  /** A counter that is over its limit stays over it, whatever is still to come. */
  lemma OverrunStays(q: Query, c: Counters, outs: seq<Found>, more: seq<Found>, rest: seq<Found>)
    requires !InLimits(q, Plus(Plus(c, Tally(outs)), Tally(more)))
    ensures !InLimits(q, Plus(c, Tally((outs + more) + rest)))
  {
    OverrunAdds(q, c, Tally(outs), Tally(more), Tally(rest));
    TallyConcat(outs, more);
    TallyConcat(outs + more, rest);
  }

  lemma JoinedOverruns(q: Query, c: Counters, outs: seq<Found>, more: seq<Found>, dirs: seq<Dir>,
                       rest: Option<Scanned<Found>>)
    requires !InLimits(q, Plus(Plus(c, Tally(outs)), Tally(more)))
    ensures var whole := Joined(outs + more, dirs, rest);
            whole.Some? ==> !InLimits(q, Plus(c, Tally(whole.value.outs)))
  {
    if rest.Some? {
      OverrunStays(q, c, outs, more, rest.value.outs);
    }
  }

  /** When an entry raises, so does the directory. */
  lemma EntryRaises(q: Query, c: Counters, decide: Decide<Found>, d: Dir, i: nat, outs: seq<Found>, dirs: seq<Dir>,
                    whole: Option<Scanned<Found>>)
    requires i < |d.children| && Joined(outs, dirs, Scan(decide, d.path, d.children[i..])) == whole
    requires var plan := decide(d.path + [d.children[i].name], d.children[i].node);
             plan.Refuse? || !InLimits(q, Plus(Plus(c, Tally(outs)), Tally(plan.outs)))
    ensures whole.Some? ==> !InLimits(q, Plus(c, Tally(whole.value.outs)))
  {
    var p, n := d.path + [d.children[i].name], d.children[i].node;
    ScanAt(decide, d.path, d.children, i, outs, dirs);
    if decide(p, n).Take? {
      JoinedOverruns(q, c, outs, decide(p, n).outs, dirs + Opened(decide(p, n), p, n),
                     Scan(decide, d.path, d.children[i + 1..]));
    }
  }

  /** The file system lets the call down somewhere. */
  ghost predicate Faulty(fault: Path -> Fault) { exists p :: fault(p) != NoFault }

  /** What one entry adds to the counters, unless it raises. */
  ghost predicate Counts(q: Query, plan: Plan<Found>, c: Counters, outs: seq<Found>, after: Counters) {
    && plan.Take? && outs == plan.outs && after == Plus(c, Tally(outs)) && InLimits(q, after)
  }

  /** Why it raises. */
  ghost predicate Fails(q: Query, plan: Plan<Found>, c: Counters, fault: Fault) {
    plan.Refuse? || !InLimits(q, Plus(c, Tally(plan.outs))) || fault != NoFault
  }

  /** The file is held for the look at its size, and again while it is read. */
  method ReadHeld(holds: HoldTable, q: Query, data: bytes, room: nat, fault: Fault) returns (text: Option<string>)
    requires holds.Valid()
    modifies holds
    ensures holds.Valid() && holds.open == old(holds.open)
    ensures text.Some? ==> |data| <= q.perFile && |data| <= room && text == q.decode(data)
    ensures text.None? ==> |data| > q.perFile || |data| > room || q.decode(data).None? || fault != NoFault
  {
    if fault.Unresolvable? {
      return None;
    }
    var hold := holds.Take();
    var fits := !fault.Vanished? && |data| <= q.perFile && |data| <= room;
    holds.Release(hold);
    if !fits {
      return None;
    }
    hold := holds.Take();
    text := if fault.Changed? then None else q.decode(data);
    holds.Release(hold);
  }

  /** One file that is not hidden, with what has been counted before it. */
  method SearchFile(holds: HoldTable, q: Query, p: Path, data: bytes, c: Counters, fault: Fault)
    returns (ok: bool, outs: seq<Found>, after: Counters)
    requires holds.Valid() && p != [] && InLimits(q, c)
    modifies holds
    ensures holds.Valid() && holds.open == old(holds.open)
    ensures if ok then Counts(q, FilePlan(q, p, data), c, outs, after) else Fails(q, FilePlan(q, p, data), c, fault)
  {
    outs, after := [], Counters(c.files + 1, c.bytes, c.hits);
    ghost var plan := FilePlan(q, p, data);
    if plan.Take? {
      PlanTally(q, p, data);
    }
    if after.files > q.files {
      return false, outs, after;
    }
    if !q.selected(p[|p| - 1]) {
      return true, [Met(p)], after;
    }
    var text := ReadHeld(holds, q, data, q.total - c.bytes, fault);
    if text.None? {
      return false, outs, after;
    }
    var hits;
    ok, hits := MatchLines(q, p, text.value, q.results - c.hits);
    outs := [Met(p), Read(p, |data|)] + hits;
    after := Counters(c.files + 1, c.bytes + |data|, c.hits + |hits|);
  }

  /** One entry; a directory that is resolved is held, and released again unless it waits for its visit. */
  method VisitEntry(holds: HoldTable, q: Query, p: Path, n: Node, hidden: Path -> bool, limit: nat, c: Counters,
                    fault: Fault, waiting: seq<Held>, ghost others: set<nat>, ghost plan: Plan<Found>)
    returns (ok: bool, outs: seq<Found>, pending: seq<Held>, after: Counters)
    requires holds.Valid() && Owns(holds.open, others, waiting) && p != [] && InLimits(q, c)
    requires plan == SearchDecide(q, hidden, limit)(p, n)
    modifies holds
    ensures holds.Valid() && Owns(holds.open, others, pending)
    ensures if ok then Counts(q, plan, c, outs, after) && Dirs(pending) == Dirs(waiting) + Opened(plan, p, n)
            else Fails(q, plan, c, fault)
  {
    outs, pending, after := [], waiting, c;
    if n.Special? {
      return false, outs, pending, after;
    }
    if hidden(p) {
      return true, outs, pending, after;
    }
    if n.Directory? {
      if fault.Unresolvable? {
        return false, outs, pending, after;
      }
      ghost var open := holds.open;
      var hold := holds.Take();
      if |p| < limit {
        PushOwned(open, others, waiting, Held(Dir(p, n.children), hold));
        DirsPush(waiting, Held(Dir(p, n.children), hold));
        pending := waiting + [Held(Dir(p, n.children), hold)];
      } else {
        holds.Release(hold);
        assert holds.open == open;
      }
      return true, outs, pending, after;
    }
    ok, outs, after := SearchFile(holds, q, p, n.data, c, fault);
  }

  lemma EntryFails(q: Query, c: Counters, decide: Decide<Found>, d: Dir, i: nat, outs: seq<Found>, dirs: seq<Dir>,
                   whole: Option<Scanned<Found>>, fault: Path -> Fault)
    requires i < |d.children| && Joined(outs, dirs, Scan(decide, d.path, d.children[i..])) == whole
    requires var p, n := d.path + [d.children[i].name], d.children[i].node;
             Fails(q, decide(p, n), Plus(c, Tally(outs)), fault(p))
    ensures whole.None? || !InLimits(q, Plus(c, Tally(whole.value.outs))) || Faulty(fault)
  {
    if fault(d.path + [d.children[i].name]) == NoFault {
      EntryRaises(q, c, decide, d, i, outs, dirs, whole);
    }
  }

  lemma EntryCounts(q: Query, c: Counters, decide: Decide<Found>, d: Dir, i: nat, outs: seq<Found>, dirs: seq<Dir>,
                    whole: Option<Scanned<Found>>, more: seq<Found>, now: Counters)
    requires i < |d.children| && Joined(outs, dirs, Scan(decide, d.path, d.children[i..])) == whole
    requires var p, n := d.path + [d.children[i].name], d.children[i].node;
             Counts(q, decide(p, n), Plus(c, Tally(outs)), more, now)
    ensures var p, n := d.path + [d.children[i].name], d.children[i].node;
            Joined(outs + more, dirs + Opened(decide(p, n), p, n), Scan(decide, d.path, d.children[i + 1..])) == whole
    ensures now == Plus(c, Tally(outs + more)) && InLimits(q, now)
  {
    ScanAt(decide, d.path, d.children, i, outs, dirs);
    TallyConcat(outs, more);
  }

  method VisitDirectory(holds: HoldTable, q: Query, d: Dir, hidden: Path -> bool, limit: nat, c: Counters,
                        fault: Path -> Fault, waiting: seq<Held>, ghost others: set<nat>, ghost decide: Decide<Found>)
    returns (ok: bool, outs: seq<Found>, pending: seq<Held>, ghost dirs: seq<Dir>, after: Counters)
    requires holds.Valid() && Owns(holds.open, others, waiting)
    requires InLimits(q, c) && decide == SearchDecide(q, hidden, limit)
    modifies holds
    ensures holds.Valid() && Owns(holds.open, others, pending)
    ensures var scan := Scan(decide, d.path, d.children);
            && (ok ==> && scan == Some(Scanned(outs, dirs)) && Dirs(pending) == Dirs(waiting) + dirs
                       && after == Plus(c, Tally(outs)) && InLimits(q, after))
            && (!ok ==> scan.None? || !InLimits(q, Plus(c, Tally(scan.value.outs))) || Faulty(fault))
  {
    outs, pending, dirs, after := [], waiting, [], c;
    ghost var whole := Scan(decide, d.path, d.children);
    assert d.children[0..] == d.children;
    JoinedEnds(outs, dirs, whole);
    var i := 0;
    while i < |d.children|
      invariant i <= |d.children| && InLimits(q, after) && after == Plus(c, Tally(outs))
      invariant holds.Valid() && Owns(holds.open, others, pending) && Dirs(pending) == Dirs(waiting) + dirs
      invariant Joined(outs, dirs, Scan(decide, d.path, d.children[i..])) == whole
    {
      var p, n := d.path + [d.children[i].name], d.children[i].node;
      var more, now;
      ok, more, pending, now :=
        VisitEntry(holds, q, p, n, hidden, limit, after, fault(p), pending, others, decide(p, n));
      if !ok {
        EntryFails(q, c, decide, d, i, outs, dirs, whole, fault);
        return;
      }
      EntryCounts(q, c, decide, d, i, outs, dirs, whole, more, now);
      outs, dirs, after, i := outs + more, dirs + Opened(decide(p, n), p, n), now, i + 1;
    }
    assert d.children[i..] == [];
    JoinedEnds(outs, dirs, whole);
    ok := true;
  }

  /** The directory at the head of the queue: its listing within the entry limit, its children, and the
      release of its hold on every way out. */
  method VisitFirst(holds: HoldTable, q: Query, waiting: seq<Held>, visited: nat, hidden: Path -> bool, limit: nat,
                    entries: nat, c: Counters, fault: Path -> Fault, ghost others: set<nat>,
                    ghost decide: Decide<Found>)
    returns (ok: bool, outs: seq<Found>, pending: seq<Held>, after: Counters, ghost scan: Option<Scanned<Found>>)
    requires holds.Valid() && Owns(holds.open, others, waiting) && waiting != []
    requires InLimits(q, c) && decide == SearchDecide(q, hidden, limit)
    modifies holds
    ensures holds.Valid() && Owns(holds.open, others, pending)
    ensures var d := waiting[0].dir;
            && scan == Scan(decide, d.path, d.children)
            && (ok ==> && visited + |d.children| <= entries && scan.Some? && outs == scan.value.outs
                       && Dirs(pending) == Dirs(waiting)[1..] + scan.value.dirs
                       && after == Plus(c, Tally(outs)) && InLimits(q, after))
            && (!ok ==> || visited + |d.children| > entries || scan.None?
                        || !InLimits(q, Plus(c, Tally(scan.value.outs))) || Faulty(fault))
  {
    var h := waiting[0];
    PopOwned(holds.open, others, waiting);
    scan, after := Scan(decide, h.dir.path, h.dir.children), c;
    if visited + |h.dir.children| > entries || fault(h.dir.path).Unlistable? {
      assert fault(h.dir.path).Unlistable? ==> fault(h.dir.path) != NoFault;
      holds.Release(h.id);
      return false, [], waiting[1..], after, scan;
    }
    ghost var dirs;
    ok, outs, pending, dirs, after :=
      VisitDirectory(holds, q, h.dir, hidden, limit, c, fault, waiting[1..], others + {h.id}, decide);
    assert Dirs(waiting[1..]) == Dirs(waiting)[1..];
    ReleaseOwned(holds, h.id, pending, others);
  }

  /** The budget of the traversal is what the counters say. */
  lemma WithinMeans(q: Query, entries: nat, p: Progress<Found>, d: Dir, more: seq<Found>)
    ensures Within(SearchBounds(q, entries), p, d, more)
       <==> p.met + |d.children| <= entries && InLimits(q, Plus(Tally(p.outs), Tally(more)))
    ensures Tally(p.outs + more) == Plus(Tally(p.outs), Tally(more))
  {
    TallyConcat(p.outs, more);
  }

  lemma QueueStops(q: Query, entries: nat, decide: Decide<Found>, work: seq<Dir>, p: Progress<Found>,
                   scan: Option<Scanned<Found>>)
    requires work != [] && scan == Scan(decide, work[0].path, work[0].children)
    requires || p.met + |work[0].children| > entries || scan.None?
             || !InLimits(q, Plus(Tally(p.outs), Tally(scan.value.outs)))
    ensures Run(decide, SearchBounds(q, entries), true, work, p).None?
  {
    if scan.Some? {
      WithinMeans(q, entries, p, work[0], scan.value.outs);
    }
    RunStops(decide, SearchBounds(q, entries), true, work, p);
  }

  lemma QueueGoesOn(q: Query, entries: nat, decide: Decide<Found>, work: seq<Dir>, p: Progress<Found>,
                    scan: Scanned<Found>, rest: seq<Dir>, next: Progress<Found>)
    requires work != [] && Scan(decide, work[0].path, work[0].children) == Some(scan)
    requires p.met + |work[0].children| <= entries && InLimits(q, Plus(Tally(p.outs), Tally(scan.outs)))
    requires rest == work[1..] + scan.dirs && next == Progress(p.met + |work[0].children|, p.outs + scan.outs)
    ensures Run(decide, SearchBounds(q, entries), true, work, p)
         == Run(decide, SearchBounds(q, entries), true, rest, next)
    ensures WeightAll(rest) < WeightAll(work) && Tally(next.outs) == Plus(Tally(p.outs), Tally(scan.outs))
  {
    WithinMeans(q, entries, p, work[0], scan.outs);
    RunGoesOn(decide, SearchBounds(q, entries), true, work, p, scan, rest, next);
  }

  /** `workspace_search` behind the validation of its arguments. Whatever happens, every hold taken on the
      way, and the root's, is released exactly once; and without faults it is the specified search. */
  method Search(holds: HoldTable, q: Query, root: Held, hidden: Path -> bool, limit: nat, entries: nat,
                fault: Path -> Fault)
    returns (r: Option<Progress<Found>>)
    requires holds.Valid() && root.id in holds.open && root.dir.path == []
    modifies holds
    ensures holds.Valid() && holds.open == old(holds.open) - {root.id}
    ensures r.Some? ==> r == WorkspaceSearch.Search(q, hidden, limit, entries, root.dir.children)
    ensures r.None? ==> WorkspaceSearch.Search(q, hidden, limit, entries, root.dir.children).None? || Faulty(fault)
  {
    ghost var others := holds.open - {root.id};
    if limit == 0 {
      holds.Release(root.id);
      return Some(Progress(0, []));
    }
    ghost var decide := SearchDecide(q, hidden, limit);
    r := Drain(holds, q, root, hidden, limit, entries, fault, others, decide,
               Run(decide, SearchBounds(q, entries), true, [root.dir], Progress(0, [])));
  }

  /** One directory of the queue, told by what is still to come of the traversal. */
  method Advance(holds: HoldTable, q: Query, pending: seq<Held>, p: Progress<Found>, counters: Counters,
                 hidden: Path -> bool, limit: nat, entries: nat, fault: Path -> Fault, ghost others: set<nat>,
                 ghost decide: Decide<Found>)
    returns (ok: bool, rest: seq<Held>, next: Progress<Found>, after: Counters)
    requires holds.Valid() && Owns(holds.open, others, pending) && pending != []
    requires decide == SearchDecide(q, hidden, limit) && counters == Tally(p.outs) && InLimits(q, counters)
    modifies holds
    ensures holds.Valid() && Owns(holds.open, others, rest)
    ensures var whole := Run(decide, SearchBounds(q, entries), true, Dirs(pending), p);
            && (!ok ==> whole.None? || Faulty(fault))
            && (ok ==> && whole == Run(decide, SearchBounds(q, entries), true, Dirs(rest), next)
                       && WeightAll(Dirs(rest)) < WeightAll(Dirs(pending)))
    ensures ok ==> after == Tally(next.outs) && InLimits(q, after)
  {
    var d := pending[0].dir;
    var outs;
    ghost var scan;
    ok, outs, rest, after, scan :=
      VisitFirst(holds, q, pending, p.met, hidden, limit, entries, counters, fault, others, decide);
    next := Progress(p.met + |d.children|, p.outs + outs);
    if ok {
      QueueGoesOn(q, entries, decide, Dirs(pending), p, scan.value, Dirs(rest), next);
    } else if !Faulty(fault) {
      QueueStops(q, entries, decide, Dirs(pending), p, scan);
    }
  }

  method Drain(holds: HoldTable, q: Query, root: Held, hidden: Path -> bool, limit: nat, entries: nat,
               fault: Path -> Fault, ghost others: set<nat>, ghost decide: Decide<Found>,
               ghost spec: Option<Progress<Found>>)
    returns (r: Option<Progress<Found>>)
    requires holds.Valid() && Owns(holds.open, others, [root]) && decide == SearchDecide(q, hidden, limit)
    requires spec == Run(decide, SearchBounds(q, entries), true, [root.dir], Progress(0, []))
    modifies holds
    ensures holds.Valid() && holds.open == others
    ensures (r.Some? ==> r == spec) && (r.None? ==> spec.None? || Faulty(fault))
  {
    var pending, p, counters := [root], Progress(0, []), Counters(0, 0, 0);
    assert Dirs(pending) == [root.dir];
    while pending != []
      invariant holds.Valid() && Owns(holds.open, others, pending)
      invariant Run(decide, SearchBounds(q, entries), true, Dirs(pending), p) == spec
      invariant counters == Tally(p.outs) && InLimits(q, counters)
      decreases WeightAll(Dirs(pending))
    {
      var ok;
      ok, pending, p, counters :=
        Advance(holds, q, pending, p, counters, hidden, limit, entries, fault, others, decide);
      if !ok {
        ReleaseAll(holds, pending, others);
        return None;
      }
    }
    return Some(p);
  }
}
