/** `workspace_search`: a literal search through the selected files of a bounded traversal. */
module WorkspaceSearch {
  import opened Wrappers
  import opened Bytes
  import opened Texts
  import opened Walks
  import opened Reachability
  import Sequences

  /** `fold` is `casefold`, or nothing in a case-sensitive search; `needle` is folded already. `selected`
      is the glob on the file name and `decode` strict UTF-8. The others are the limits in force. */
  datatype Query = Query(needle: string, fold: string -> string, selected: string -> bool,
                         decode: bytes -> Option<string>,
                         perFile: nat, files: nat, total: nat, results: nat)

  ghost predicate Proper(q: Query) { q.needle != [] && q.fold([]) == [] }

  /** What a search accounts for: a file met, the bytes of one read, and a matching line. */
  datatype Found = Met(path: Path) | Read(path: Path, size: nat) | Hit(path: Path, line: nat, text: string)

  /** `scanned_files`, `scanned_bytes` and the number of matches. */
  datatype Counters = Counters(files: nat, bytes: nat, hits: nat)

  function Plus(a: Counters, b: Counters): Counters {
    Counters(a.files + b.files, a.bytes + b.bytes, a.hits + b.hits)
  }

  /** What one of them adds to the counters. */
  function One(f: Found): Counters {
    match f
    case Met(_) => Counters(1, 0, 0)
    case Read(_, size) => Counters(0, size, 0)
    case Hit(_, _, _) => Counters(0, 0, 1)
  }

  function Tally(outs: seq<Found>): Counters {
    if outs == [] then Counters(0, 0, 0) else Plus(One(outs[0]), Tally(outs[1..]))
  }

  predicate InLimits(q: Query, c: Counters) { c.files <= q.files && c.bytes <= q.total && c.hits <= q.results }

  /** The line contains the query. */
  function Matcher(q: Query): string -> bool {
    (line: string) => Contains(q.fold(line), q.needle)
  }

  function HitsFrom(matches: string -> bool, p: Path, lines: seq<string>, k: nat): seq<Found>
    requires k <= |lines|
    decreases |lines| - k
  {
    if k == |lines| then []
    else (if matches(lines[k]) then [Hit(p, k + 1, lines[k])] else []) + HitsFrom(matches, p, lines, k + 1)
  }

  /** `content` of `_file_result`, split once more. */
  function ShownLines(text: string): seq<string> { SplitLines(JoinLines(SplitLines(text))) }

  function FilePlan(q: Query, p: Path, data: bytes): Plan<Found>
    requires p != []
  {
    if !q.selected(p[|p| - 1]) then Take([Met(p)], false)
    else if |data| > q.perFile then Refuse
    else
      match q.decode(data)
      case None => Refuse
      case Some(text) => Take([Met(p), Read(p, |data|)] + HitsFrom(Matcher(q), p, ShownLines(text), 0), false)
  }

  function SearchDecide(q: Query, hidden: Path -> bool, limit: nat): Decide<Found> {
    (p: Path, n: Node) =>
      if n.Special? then Refuse
      else if hidden(p) then Take([], false)
      else if n.Directory? then Take([], |p| < limit)
      else if p == [] then Refuse
      else FilePlan(q, p, n.data)
  }

  function SearchBounds(q: Query, entries: nat): Bounds<Found> {
    Bounds((outs: seq<Found>) => InLimits(q, Tally(outs)), entries)
  }

  function Search(q: Query, hidden: Path -> bool, limit: nat, entries: nat, root: seq<Child>): Option<Progress<Found>> {
    Run(SearchDecide(q, hidden, limit), SearchBounds(q, entries), true, if limit == 0 then [] else [Dir([], root)],
        Progress(0, []))
  }

  // ---- Every matching line, and no other ----

  lemma {:induction false} HitsTimes(matches: string -> bool, p: Path, lines: seq<string>, k: nat, f: Found)
    requires k <= |lines|
    ensures multiset(HitsFrom(matches, p, lines, k))[f]
         == if && f.Hit? && f.path == p && k < f.line <= |lines|
               && lines[f.line - 1] == f.text && matches(f.text) then 1 else 0
    decreases |lines| - k
  {
    if k < |lines| {
      HitsTimes(matches, p, lines, k + 1, f);
      var here: seq<Found> := if matches(lines[k]) then [Hit(p, k + 1, lines[k])] else [];
      assert multiset(HitsFrom(matches, p, lines, k)) == multiset(here) + multiset(HitsFrom(matches, p, lines, k + 1));
    }
  }

  /** Line `n` matches. */
  predicate MatchingLine(matches: string -> bool, lines: seq<string>, n: nat, line: string) {
    1 <= n <= |lines| && lines[n - 1] == line && matches(line)
  }

  /** Line `n` of the text contains the query. */
  predicate LineMatches(q: Query, text: string, n: nat, line: string) {
    MatchingLine(Matcher(q), SplitLines(text), n, line)
  }

  lemma HitsMatch(matches: string -> bool, p: Path, lines: seq<string>, shown: seq<string>, n: nat, line: string)
    requires !matches([])
    requires shown == WithoutEmptyEnd(lines)
    ensures multiset(HitsFrom(matches, p, shown, 0))[Hit(p, n, line)]
          == if MatchingLine(matches, lines, n, line) then 1 else 0
  {
    HitsTimes(matches, p, shown, 0, Hit(p, n, line));
  }

  /** Though the lines are joined and split again on the way, exactly the matching lines of the file are
      hit, under their own numbers: only an empty last line can be lost, and it matches nothing. */
  lemma ShownLinesMatch(q: Query, p: Path, text: string, n: nat, line: string)
    requires Proper(q)
    ensures multiset(HitsFrom(Matcher(q), p, ShownLines(text), 0))[Hit(p, n, line)]
          == if LineMatches(q, text, n, line) then 1 else 0
  {
    LinesArePlain(text);
    ResplitLines(SplitLines(text));
    HitsMatch(Matcher(q), p, SplitLines(text), ShownLines(text), n, line);
  }

  /** The hit is due: a selected file is visited there, and its line contains the query. */
  predicate HitIsDue(q: Query, hidden: Path -> bool, limit: nat, root: seq<Child>, p: Path, n: nat, line: string) {
    var node := Visited(Enterable(hidden, limit), [], root, p);
    node.Some? && HitThere(q, hidden, p, node.value, n, line)
  }

  predicate HitThere(q: Query, hidden: Path -> bool, p: Path, node: Node, n: nat, line: string) {
    && node.Regular? && p != [] && !hidden(p) && q.selected(p[|p| - 1])
    && |node.data| <= q.perFile && q.decode(node.data).Some?
    && LineMatches(q, q.decode(node.data).value, n, line)
  }

  lemma PlanTimes(q: Query, p: Path, data: bytes, n: nat, line: string)
    requires Proper(q) && p != []
    ensures Times(FilePlan(q, p, data), Hit(p, n, line))
         == if && q.selected(p[|p| - 1]) && |data| <= q.perFile && q.decode(data).Some?
               && LineMatches(q, q.decode(data).value, n, line) then 1 else 0
  {
    if q.selected(p[|p| - 1]) && |data| <= q.perFile && q.decode(data).Some? {
      var text := q.decode(data).value;
      ShownLinesMatch(q, p, text, n, line);
      var first: seq<Found>, hits := [Met(p), Read(p, |data|)], HitsFrom(Matcher(q), p, ShownLines(text), 0);
      assert FilePlan(q, p, data).outs == first + hits;
      assert Hit(p, n, line) !in first;
    }
  }

  lemma SearchIsGuided(q: Query, hidden: Path -> bool, limit: nat)
    ensures Guided(SearchDecide(q, hidden, limit), Enterable(hidden, limit), (f: Found) => f.path)
  {
    var decide := SearchDecide(q, hidden, limit);
    forall p: Path, n: Node, f: Found | decide(p, n).Take? && f in decide(p, n).outs
      ensures f.path == p
    {
      if n.Regular? && p != [] && !hidden(p) && |decide(p, n).outs| > 1 {
        var hits := HitsFrom(Matcher(q), p, ShownLines(q.decode(n.data).value), 0);
        if f in hits {
          HitsTimes(Matcher(q), p, ShownLines(q.decode(n.data).value), 0, f);
          assert multiset(hits)[f] > 0;
        }
      }
    }
  }

  lemma DecideTimes(q: Query, hidden: Path -> bool, limit: nat, p: Path, node: Node, n: nat, line: string)
    requires Proper(q)
    ensures Times(SearchDecide(q, hidden, limit)(p, node), Hit(p, n, line))
          == if HitThere(q, hidden, p, node, n, line) then 1 else 0
  {
    if node.Regular? && !hidden(p) && p != [] {
      PlanTimes(q, p, node.data, n, line);
    }
  }

  lemma HitsAreDue(q: Query, hidden: Path -> bool, limit: nat, root: seq<Child>, p: Path, n: nat, line: string)
    requires Proper(q) && Distinct(root)
    ensures multiset(Collect(SearchDecide(q, hidden, limit), [], root))[Hit(p, n, line)]
         == if HitIsDue(q, hidden, limit, root, p, n, line) then 1 else 0
  {
    var decide := SearchDecide(q, hidden, limit);
    SearchIsGuided(q, hidden, limit);
    CollectedTimes(decide, Enterable(hidden, limit), (f: Found) => f.path, [], root, Hit(p, n, line));
    var node := Visited(Enterable(hidden, limit), [], root, p);
    if node.Some? {
      DecideTimes(q, hidden, limit, p, node.value, n, line);
    }
  }

  // ---- The counters ----

  lemma {:induction false} TallyConcat(a: seq<Found>, b: seq<Found>)
    ensures Tally(a + b) == Plus(Tally(a), Tally(b))
  {
    if a == [] {
      assert a + b == b;
    } else {
      assert (a + b)[1..] == a[1..] + b;
      TallyConcat(a[1..], b);
    }
  }

  lemma TallyOne(f: Found)
    ensures Tally([f]) == One(f)
  {
    assert [f][1..] == [];
  }

  lemma TallyFirst(f: Found, rest: seq<Found>)
    ensures Tally([f] + rest) == Plus(One(f), Tally(rest))
  {
    TallyOne(f);
    TallyConcat([f], rest);
  }

  /** The counters do not depend on the order. */
  lemma {:induction false} TallyOrderBlind(a: seq<Found>, b: seq<Found>)
    requires multiset(a) == multiset(b)
    ensures Tally(a) == Tally(b)
    decreases |a|
  {
    if a == [] {
      assert |multiset(b)| == 0;
    } else {
      var i, rest := Sequences.Without(a, b);
      TallyOrderBlind(a[1..], rest);
      TallyConcat(b[..i], b[i + 1..]);
      TallyConcat(b[..i], [b[i]] + b[i + 1..]);
      TallyFirst(b[i], b[i + 1..]);
    }
  }

  lemma SearchBounding(q: Query, entries: nat)
    ensures Bounding(SearchBounds(q, entries).fits) && SearchBounds(q, entries).fits([])
  {
    var fits := SearchBounds(q, entries).fits;
    forall a: seq<Found>, b: seq<Found>
      ensures multiset(a) == multiset(b) ==> fits(a) == fits(b)
      ensures fits(a + b) ==> fits(a)
    {
      TallyConcat(a, b);
      if multiset(a) == multiset(b) {
        TallyOrderBlind(a, b);
      }
    }
  }

  /** What the visited nodes account for is within the limits on files, bytes and results. */
  ghost predicate Affordable(q: Query, hidden: Path -> bool, limit: nat, root: seq<Child>) {
    exists outs ::
      Yields(SearchDecide(q, hidden, limit), Enterable(hidden, limit), (f: Found) => f.path, root, outs)
      && InLimits(q, Tally(outs))
  }

  lemma AffordableMeans(q: Query, hidden: Path -> bool, limit: nat, root: seq<Child>)
    requires Distinct(root)
    ensures Affordable(q, hidden, limit, root)
       <==> InLimits(q, Tally(Collect(SearchDecide(q, hidden, limit), [], root)))
  {
    var decide, enter, at := SearchDecide(q, hidden, limit), Enterable(hidden, limit), (f: Found) => f.path;
    SearchIsGuided(q, hidden, limit);
    CollectYields(decide, enter, at, root);
    forall outs | Yields(decide, enter, at, root, outs)
      ensures Tally(outs) == Tally(Collect(decide, [], root))
    {
      YieldsOnce(decide, enter, at, root, outs, Collect(decide, [], root));
      TallyOrderBlind(outs, Collect(decide, [], root));
    }
  }

  /** A search that returns reports exactly the lines that contain the query in the selected files that are
      visited, each once, within its limits on files, bytes and results. It returns exactly when it looks at
      nothing, or every visited node is taken, no more nodes are visited than allowed, and what they account
      for is within the limits. */
  lemma SearchFindsLines(q: Query, hidden: Path -> bool, limit: nat, entries: nat, root: seq<Child>)
    requires Proper(q) && Distinct(root)
    ensures var enter := Enterable(hidden, limit);
            var r := Search(q, hidden, limit, entries, root);
            && (r.Some? <==>
                  || limit == 0
                  || (&& AllTaken(SearchDecide(q, hidden, limit), enter, [], root)
                      && VisitsAtMost(enter, root, entries)
                      && Affordable(q, hidden, limit, root)))
            && (r.Some? ==>
                  && InLimits(q, Tally(r.value.outs))
                  && forall p, n: nat, line ::
                       multiset(r.value.outs)[Hit(p, n, line)]
                       == if limit > 0 && HitIsDue(q, hidden, limit, root, p, n, line) then 1 else 0)
  {
    if limit > 0 {
      var decide, enter, bounds := SearchDecide(q, hidden, limit), Enterable(hidden, limit), SearchBounds(q, entries);
      SearchIsGuided(q, hidden, limit);
      SearchBounding(q, entries);
      RunFromRoot(decide, bounds, true, Dir([], root));
      AcceptedMeans(decide, enter, (f: Found) => f.path, root);
      CountMeans(decide, enter, (f: Found) => f.path, root, entries);
      AffordableMeans(q, hidden, limit, root);
      var r := Search(q, hidden, limit, entries, root);
      if r.Some? {
        TallyOrderBlind(r.value.outs, Collect(decide, [], root));
        forall p, n: nat, line
          ensures multiset(r.value.outs)[Hit(p, n, line)]
                == if HitIsDue(q, hidden, limit, root, p, n, line) then 1 else 0
        {
          HitsAreDue(q, hidden, limit, root, p, n, line);
        }
      }
    }
  }

  // ---- The loops ----

  predicate OnlyHits(outs: seq<Found>) { forall i :: 0 <= i < |outs| ==> outs[i].Hit? }

  lemma {:induction false} TallyHits(hits: seq<Found>)
    requires OnlyHits(hits)
    ensures Tally(hits) == Counters(0, 0, |hits|)
  {
    if hits != [] {
      TallyHits(hits[1..]);
    }
  }

  lemma {:induction false} HitsAreHits(matches: string -> bool, p: Path, lines: seq<string>, k: nat)
    requires k <= |lines|
    ensures OnlyHits(HitsFrom(matches, p, lines, k))
    decreases |lines| - k
  {
    if k < |lines| {
      HitsAreHits(matches, p, lines, k + 1);
      var here: seq<Found> := if matches(lines[k]) then [Hit(p, k + 1, lines[k])] else [];
      assert HitsFrom(matches, p, lines, k) == here + HitsFrom(matches, p, lines, k + 1);
    }
  }

  /** How the hits go on at line `k`. */
  lemma HitsAt(matches: string -> bool, p: Path, lines: seq<string>, k: nat, hits: seq<Found>)
    requires k < |lines|
    ensures hits + HitsFrom(matches, p, lines, k)
         == (if matches(lines[k]) then hits + [Hit(p, k + 1, lines[k])] else hits) + HitsFrom(matches, p, lines, k + 1)
  {
    var rest := HitsFrom(matches, p, lines, k + 1);
    assert hits + ([Hit(p, k + 1, lines[k])] + rest) == (hits + [Hit(p, k + 1, lines[k])]) + rest;
    assert [] + rest == rest;
  }

  /** The lines of one file; more matches than there is `room` for raise. */
  method MatchLines(q: Query, p: Path, text: string, room: nat) returns (ok: bool, hits: seq<Found>)
    ensures ok <==> |HitsFrom(Matcher(q), p, ShownLines(text), 0)| <= room
    ensures ok ==> hits == HitsFrom(Matcher(q), p, ShownLines(text), 0)
  {
    ok, hits := MatchIn(Matcher(q), p, ShownLines(text), room);
  }

  method MatchIn(matches: string -> bool, p: Path, lines: seq<string>, room: nat) returns (ok: bool, hits: seq<Found>)
    ensures ok <==> |HitsFrom(matches, p, lines, 0)| <= room
    ensures ok ==> hits == HitsFrom(matches, p, lines, 0)
  {
    hits := [];
    var k := 0;
    while k < |lines|
      invariant k <= |lines| && |hits| <= room
            && hits + HitsFrom(matches, p, lines, k) == HitsFrom(matches, p, lines, 0)
    {
      HitsAt(matches, p, lines, k, hits);
      if matches(lines[k]) {
        if |hits| >= room {
          return false, hits;
        }
        hits := hits + [Hit(p, k + 1, lines[k])];
      }
      k := k + 1;
    }
    ok := true;
  }

  lemma FileTally(p: Path, size: nat, hits: seq<Found>)
    ensures Tally([Met(p)]) == Counters(1, 0, 0)
    ensures Tally([Met(p), Read(p, size)] + hits) == Plus(Counters(1, size, 0), Tally(hits))
  {
    TallyOne(Met(p));
    TallyFirst(Read(p, size), hits);
    TallyFirst(Met(p), [Read(p, size)] + hits);
    assert [Met(p), Read(p, size)] + hits == [Met(p)] + ([Read(p, size)] + hits);
  }

  lemma PlanTally(q: Query, p: Path, data: bytes)
    requires p != [] && FilePlan(q, p, data).Take?
    ensures Tally(FilePlan(q, p, data).outs)
         == if !q.selected(p[|p| - 1]) then Counters(1, 0, 0)
            else Counters(1, |data|, |HitsFrom(Matcher(q), p, ShownLines(q.decode(data).value), 0)|)
  {
    if q.selected(p[|p| - 1]) {
      var hits := HitsFrom(Matcher(q), p, ShownLines(q.decode(data).value), 0);
      HitsAreHits(Matcher(q), p, ShownLines(q.decode(data).value), 0);
      TallyHits(hits);
      FileTally(p, |data|, hits);
    } else {
      FileTally(p, 0, []);
    }
  }
}
