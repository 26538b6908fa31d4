/** `_copy_repository_tree` as the loop it is: a stack of directories, running counters that raise at the
    first entry over a limit, files written one after the other, and the index kept for last. */
module ProjectionCopier {
  import opened Wrappers
  import opened Walks
  import opened ProjectionPrune
  import opened ProjectionCopy
  import opened Projection
  import GitIndexRebase

  /** The destination and the counters: `total_bytes`, `deferred_index`, `sanitized_attributes_present`. */
  datatype Copy = Copy(files: seq<File>, total: nat, deferred: Option<Event>, marked: bool)

  const NOTHING := Copy([], 0, None, false)

  /** One event, unless it is over a limit. */
  function Performed(limit: nat, c: Copy, e: Event): Option<Copy> {
    match e
    case MakeDir(_) => Some(c)
    case Attributes(_) => Some(c.(marked := true))
    case Write(path, data, need) =>
      if c.total + need > limit || c.total + |data| > limit then None
      else Some(c.(files := c.files + [File(path, data)], total := c.total + |data|))
    case DeferIndex(_, _, need) =>
      if c.deferred.Some? || c.total + need > limit || need > INDEX_LIMIT then None
      else Some(c.(deferred := Some(e)))
  }

  function Replay(limit: nat, c: Copy, outs: seq<Event>): Option<Copy>
    decreases outs
  {
    if outs == [] then Some(c)
    else
      match Performed(limit, c, outs[0])
      case None => None
      case Some(after) => Replay(limit, after, outs[1..])
  }

  function ReplayFrom(limit: nat, c: Option<Copy>, outs: seq<Event>): Option<Copy> {
    if c.None? then None else Replay(limit, c.value, outs)
  }

  lemma {:induction false} ReplaySum(limit: nat, c: Copy, a: seq<Event>, b: seq<Event>)
    ensures Replay(limit, c, a + b) == ReplayFrom(limit, Replay(limit, c, a), b)
    decreases a
  {
    if a == [] {
      assert a + b == b;
    } else {
      assert (a + b)[1..] == a[1..] + b;
      if Performed(limit, c, a[0]).Some? {
        ReplaySum(limit, Performed(limit, c, a[0]).value, a[1..], b);
      }
    }
  }

  lemma ReplayOne(limit: nat, c: Copy, e: Event)
    ensures Replay(limit, c, [e]) == Performed(limit, c, e)
  {
    assert [e][1..] == [];
  }

  // ---- What the counters tell ----

  ghost predicate Reflects(c: Copy, outs: seq<Event>) {
    && c.files == Written(outs) && c.total == Total(Written(outs)) && c.deferred == Deferred(outs)
    && (c.marked <==> exists e <- outs :: e.Attributes?)
  }

  lemma {:induction false} DeferredAppend(outs: seq<Event>, e: Event)
    ensures Deferred(outs + [e])
          == if Deferred(outs).Some? then Deferred(outs) else if e.DeferIndex? then Some(e) else None
  {
    if outs == [] {
      assert outs + [e] == [e] && [e][1..] == [];
    } else {
      assert (outs + [e])[1..] == outs[1..] + [e];
      DeferredAppend(outs[1..], e);
    }
  }

  lemma MarkedAppend(outs: seq<Event>, e: Event)
    ensures (exists x <- outs + [e] :: x.Attributes?) <==> (exists x <- outs :: x.Attributes?) || e.Attributes?
  {
    if x :| x in outs && x.Attributes? {
      assert x in outs + [e];
    }
    assert e in outs + [e];
  }

  /** One event more: it is performed exactly when the limits admit it, and counted for what it is. */
  lemma PerformedMeans(limit: nat, c: Copy, outs: seq<Event>, e: Event)
    requires Reflects(c, outs) && c.total <= limit
    ensures Performed(limit, c, e).Some? <==> Admits(limit, outs, e)
    ensures Performed(limit, c, e).Some? ==> Reflects(Performed(limit, c, e).value, outs + [e])
  {
    WrittenSnoc(outs, e);
    DeferredAppend(outs, e);
    MarkedAppend(outs, e);
    assert c.files + [] == c.files;
  }

  /** The counters get through exactly the events that are within the limits, and then tell what they
      are: the files written, their bytes, the index and whether attributes were made inert. */
  lemma {:induction false} ReplayMeans(limit: nat, outs: seq<Event>)
    ensures Replay(limit, NOTHING, outs).Some? <==> Fits(limit, outs)
    ensures Fits(limit, outs) ==> Reflects(Replay(limit, NOTHING, outs).value, outs)
  {
    if outs != [] {
      var before, e := outs[..|outs| - 1], outs[|outs| - 1];
      assert outs == before + [e];
      ReplayMeans(limit, before);
      FitsSnoc(limit, before, e);
      ReplaySum(limit, NOTHING, before, [e]);
      if Fits(limit, before) {
        var c := Replay(limit, NOTHING, before).value;
        FitsWithin(limit, before);
        ReplayOne(limit, c, e);
        PerformedMeans(limit, c, before, e);
      }
    }
  }

  // ---- The loops ----

  method PerformAll(limit: nat, events: seq<Event>, c: Copy) returns (r: Option<Copy>)
    ensures r == Replay(limit, c, events)
  {
    var after, i := c, 0;
    assert events[0..] == events;
    while i < |events|
      invariant i <= |events| && Replay(limit, after, events[i..]) == Replay(limit, c, events)
    {
      assert events[i..][0] == events[i] && events[i..][1..] == events[i + 1..];
      var next := Performed(limit, after, events[i]);
      if next.None? {
        return None;
      }
      after, i := next.value, i + 1;
    }
    return Some(after);
  }

  /** How a directory goes on at child `i`, when `c` is what the children before it have made of it. */
  lemma EntryGoesOn(decide: Decide<Event>, limit: nat, d: Dir, i: nat, start: Copy, c: Copy, more: seq<Event>,
                    dirs: seq<Dir>, whole: Option<Scanned<Event>>)
    requires i < |d.children| && Joined(more, dirs, Scan(decide, d.path, d.children[i..])) == whole
    requires Replay(limit, start, more) == Some(c)
    ensures var p, n := d.path + [d.children[i].name], d.children[i].node;
            var plan := decide(p, n);
            && (plan.Refuse? ==> whole.None?)
            && (plan.Take? ==>
                  && Replay(limit, start, more + plan.outs) == Replay(limit, c, plan.outs)
                  && whole == Joined(more + plan.outs, dirs + Opened(plan, p, n),
                                     Scan(decide, d.path, d.children[i + 1..]))
                  && (Replay(limit, c, plan.outs).None? && whole.Some? ==>
                        Replay(limit, start, whole.value.outs).None?))
  {
    ScanAt(decide, d.path, d.children, i, more, dirs);
    var plan := decide(d.path + [d.children[i].name], d.children[i].node);
    if plan.Take? {
      ReplaySum(limit, start, more, plan.outs);
      if whole.Some? {
        ReplaySum(limit, start, more + plan.outs, Scan(decide, d.path, d.children[i + 1..]).value.outs);
      }
    }
  }

  /** One directory; `decide` says what becomes of its entries. */
  method CopyDirectory(decide: Decide<Event>, limit: nat, d: Dir, c: Copy) returns (r: Option<Copy>, dirs: seq<Dir>)
    ensures var scan := Scan(decide, d.path, d.children);
            && (r.None? ==> scan.None? || Replay(limit, c, scan.value.outs).None?)
            && (r.Some? ==> scan.Some? && r == Replay(limit, c, scan.value.outs) && dirs == scan.value.dirs)
  {
    var after := c;
    dirs := [];
    ghost var more, whole := [], Scan(decide, d.path, d.children);
    assert d.children[0..] == d.children;
    JoinedEnds(more, dirs, whole);
    var i := 0;
    while i < |d.children|
      invariant i <= |d.children| && Replay(limit, c, more) == Some(after)
      invariant Joined(more, dirs, Scan(decide, d.path, d.children[i..])) == whole
    {
      var p, n := d.path + [d.children[i].name], d.children[i].node;
      EntryGoesOn(decide, limit, d, i, c, after, more, dirs, whole);
      var plan := decide(p, n);
      if plan.Refuse? {
        return None, dirs;
      }
      var next := PerformAll(limit, plan.outs, after);
      if next.None? {
        return None, dirs;
      }
      more := more + plan.outs;
      after, dirs, i := next.value, dirs + Opened(plan, p, n), i + 1;
    }
    assert d.children[i..] == [];
    JoinedEnds(more, dirs, whole);
    return Some(after), dirs;
  }

  /** What fits behind `outs`, by the counters. */
  lemma FitsBehind(limit: nat, entries: nat, met: nat, c: Copy, outs: seq<Event>, d: Dir, more: seq<Event>)
    requires Replay(limit, NOTHING, outs) == Some(c)
    ensures Within(CopyBounds(limit, entries), Progress(met, outs), d, more)
       <==> met + |d.children| <= entries && Replay(limit, c, more).Some?
    ensures Replay(limit, NOTHING, outs + more) == Replay(limit, c, more)
  {
    ReplaySum(limit, NOTHING, outs, more);
    ReplayMeans(limit, outs + more);
  }

  /** The copy ends with a directory that is refused or over a limit. */
  lemma CopyStops(decide: Decide<Event>, limit: nat, entries: nat, stack: seq<Dir>, met: nat, c: Copy, outs: seq<Event>)
    requires stack != [] && Replay(limit, NOTHING, outs) == Some(c)
    requires var d := stack[|stack| - 1];
             var scan := Scan(decide, d.path, d.children);
             met + |d.children| > entries || scan.None? || Replay(limit, c, scan.value.outs).None?
    ensures RunStack(decide, CopyBounds(limit, entries), stack, Progress(met, outs)).None?
  {
    var d := stack[|stack| - 1];
    var scan := Scan(decide, d.path, d.children);
    if scan.Some? {
      FitsBehind(limit, entries, met, c, outs, d, scan.value.outs);
    }
    StackStops(decide, CopyBounds(limit, entries), stack, Progress(met, outs));
  }

  /** Otherwise it goes on with the directory's children on the stack. */
  lemma CopyGoesOn(decide: Decide<Event>, limit: nat, entries: nat, stack: seq<Dir>, met: nat, c: Copy,
                   outs: seq<Event>, scan: Scanned<Event>, rest: seq<Dir>, now: seq<Event>)
    requires stack != [] && Replay(limit, NOTHING, outs) == Some(c)
    requires var d := stack[|stack| - 1];
             Scan(decide, d.path, d.children) == Some(scan) && met + |d.children| <= entries
    requires Replay(limit, c, scan.outs).Some?
    requires rest == stack[..|stack| - 1] + scan.dirs && now == outs + scan.outs
    ensures RunStack(decide, CopyBounds(limit, entries), stack, Progress(met, outs))
         == RunStack(decide, CopyBounds(limit, entries), rest, Progress(met + |stack[|stack| - 1].children|, now))
    ensures WeightAll(Reversed(rest)) < WeightAll(Reversed(stack))
    ensures Replay(limit, NOTHING, now) == Replay(limit, c, scan.outs)
  {
    var d := stack[|stack| - 1];
    FitsBehind(limit, entries, met, c, outs, d, scan.outs);
    StackGoesOn(decide, CopyBounds(limit, entries), stack, Progress(met, outs), scan, rest,
                Progress(met + |d.children|, now));
  }

  /** The directory on top of the stack. */
  method CopyTop(decide: Decide<Event>, limit: nat, entries: nat, stack: seq<Dir>, met: nat, c: Copy,
                 ghost outs: seq<Event>, ghost bounds: Bounds<Event>)
    returns (r: Option<Copy>, rest: seq<Dir>, ghost now: seq<Event>)
    requires stack != [] && Replay(limit, NOTHING, outs) == Some(c) && bounds == CopyBounds(limit, entries)
    ensures var whole := RunStack(decide, bounds, stack, Progress(met, outs));
            && (r.None? ==> whole.None?)
            && (r.Some? ==>
                  && whole == RunStack(decide, bounds, rest, Progress(met + |stack[|stack| - 1].children|, now))
                  && WeightAll(Reversed(rest)) < WeightAll(Reversed(stack)))
    ensures r.Some? ==> r == Replay(limit, NOTHING, now)
  {
    var d := stack[|stack| - 1];
    ghost var scan := Scan(decide, d.path, d.children);
    rest, now := stack[..|stack| - 1], outs;
    if met + |d.children| > entries {
      CopyStops(decide, limit, entries, stack, met, c, outs);
      return None, rest, now;
    }
    var dirs;
    r, dirs := CopyDirectory(decide, limit, d, c);
    if r.None? {
      CopyStops(decide, limit, entries, stack, met, c, outs);
      return;
    }
    rest, now := rest + dirs, outs + scan.value.outs;
    CopyGoesOn(decide, limit, entries, stack, met, c, outs, scan.value, rest, now);
  }

  method CopyAll(decide: Decide<Event>, limit: nat, entries: nat, root: seq<Child>, ghost bounds: Bounds<Event>)
    returns (r: Option<Copy>, ghost outs: seq<Event>)
    requires bounds == CopyBounds(limit, entries)
    ensures var p := RunStack(decide, bounds, [Dir([], root)], Progress(0, []));
            && (r.None? ==> p.None?)
            && (r.Some? ==> p.Some? && outs == p.value.outs && r == Replay(limit, NOTHING, outs))
  {
    var pending, met: nat, c := [Dir([], root)], 0, NOTHING;
    outs := [];
    ghost var whole := RunStack(decide, bounds, pending, Progress(met, outs));
    while pending != []
      invariant Replay(limit, NOTHING, outs) == Some(c)
      invariant RunStack(decide, bounds, pending, Progress(met, outs)) == whole
      decreases WeightAll(Reversed(pending))
    {
      var top := pending[|pending| - 1];
      r, pending, outs := CopyTop(decide, limit, entries, pending, met, c, outs, bounds);
      if r.None? {
        return;
      }
      met, c := met + |top.children|, r.value;
    }
    StackEmpty(decide, bounds, Progress(met, outs));
    r := Some(c);
  }

  /** The whole of `_copy_repository_tree`: the files of the projection, or an error. */
  method CopyRepositoryTree(s: Setup, g: Ground, root: seq<Child>) returns (r: Option<seq<File>>)
    ensures r == Project(s, g, root)
  {
    assert Reversed([Dir([], root)]) == [Dir([], root)];
    var copy, outs := CopyAll(CopyDecide(s), g.limit, g.entries, root, CopyBounds(g.limit, g.entries));
    if copy.None? {
      return None;
    }
    var c := copy.value;
    ReplayMeans(g.limit, outs);
    var files := c.files;
    if c.deferred.Some? {
      var index := Some(c.deferred.value.data);
      if g.infoAttributes || c.marked {
        index := GitIndexRebase.RebaseIndex(g.sha1, c.deferred.value.data, g.source, g.destination);
      }
      if index.None? || |index.value| > g.limit - c.total {
        return None;
      }
      files := files + [File(c.deferred.value.path, index.value)];
    } else {
      assert files + [] == files;
    }
    return if Contained(s.fold, files, CONFIG) && Contained(s.fold, files, ".git/head") then Some(files) else None;
  }
}
