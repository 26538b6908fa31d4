/** The planner of exact text replacements: each `old_text` must be counted once and is spliced out at its
    leftmost occurrence, and everything is checked before anything is written. */
module TextEdits {
  import opened Wrappers
  import opened Bytes
  import Budgets

  // ---- Occurrences ----

  predicate At(text: string, i: int, word: string) {
    0 <= i && i + |word| <= |text| && text[i..i + |word|] == word
  }

  /** The leftmost occurrence from `start` on. */
  function FindFrom(text: string, word: string, start: nat): (r: Option<nat>)
    requires start <= |text|
    ensures r.Some? ==>
              && start <= r.value && At(text, r.value, word)
              && forall j :: start <= j < r.value ==> !At(text, j, word)
    ensures r.None? ==> forall j :: start <= j ==> !At(text, j, word)
    decreases |text| - start
  {
    if At(text, start, word) then Some(start) else if start == |text| then None else FindFrom(text, word, start + 1)
  }

  /** `str.count`: from left to right, without overlaps. */
  function CountFrom(text: string, word: string, start: nat): nat
    requires start <= |text| && word != []
    decreases |text| - start
  {
    match FindFrom(text, word, start)
    case None => 0
    case Some(i) => 1 + CountFrom(text, word, i + |word|)
  }

  function Count(text: string, word: string): nat
    requires word != []
  {
    CountFrom(text, word, 0)
  }

  /** Counted once: there is an occurrence, and no two that do not overlap. */
  lemma CountedOnce(text: string, word: string)
    requires word != []
    ensures Count(text, word) == 1 <==>
              && (exists i :: At(text, i, word))
              && forall i, j :: At(text, i, word) && At(text, j, word) ==> j < i + |word|
  {
    var first := FindFrom(text, word, 0);
    if first.Some? {
      var i := first.value;
      assert At(text, i, word);
      var second := FindFrom(text, word, i + |word|);
      assert Count(text, word) == 1 + CountFrom(text, word, i + |word|);
      assert CountFrom(text, word, i + |word|) == 0 <==> second.None?;
      if second.Some? {
        assert At(text, second.value, word);
      } else {
        forall j, k | At(text, j, word) && At(text, k, word)
          ensures k < j + |word|
        {
          assert j >= i && k < i + |word|;
        }
      }
    }
  }

  ghost predicate Unique(text: string, word: string) {
    (exists i :: At(text, i, word)) && forall i, j :: At(text, i, word) && At(text, j, word) ==> i == j
  }

  /** The word can overlap a copy of itself. */
  predicate SelfOverlapping(word: string) {
    exists k :: 0 < k < |word| && word[k..] == word[..|word| - k]
  }

  /** What is counted once occurs once, in every text, exactly for words that cannot overlap themselves. */
  lemma UniqueExactlyWhen(word: string)
    requires word != []
    ensures (forall text :: Count(text, word) == 1 ==> Unique(text, word)) <==> !SelfOverlapping(word)
  {
    if SelfOverlapping(word) {
      var k :| 0 < k < |word| && word[k..] == word[..|word| - k];
      var text := word[..k] + word;
      OverlapIsCountedOnce(word, k, text);
    } else {
      forall text | Count(text, word) == 1
        ensures Unique(text, word)
      {
        CountedOnce(text, word);
        forall i, j | At(text, i, word) && At(text, j, word)
          ensures i == j
        {
          if i < j {
            ApartOrOverlapping(text, word, i, j);
          } else if j < i {
            ApartOrOverlapping(text, word, j, i);
          }
        }
      }
    }
  }

  lemma OverlapIsCountedOnce(word: string, k: nat, text: string)
    requires 0 < k < |word| && word[k..] == word[..|word| - k] && text == word[..k] + word
    ensures Count(text, word) == 1 && !Unique(text, word)
  {
    assert text[..|word|] == word[..k] + word[..|word| - k] == word[..k] + word[k..] == word;
    assert At(text, 0, word);
    assert At(text, k, word);
    CountedOnce(text, word);
  }

  /** A later occurrence that begins inside an earlier one makes the word overlap itself. */
  lemma ApartOrOverlapping(text: string, word: string, i: int, j: int)
    requires At(text, i, word) && At(text, j, word) && i < j < i + |word|
    ensures SelfOverlapping(word)
  {
    var k := j - i;
    assert word[k..] == text[j..i + |word|];
    assert word[..|word| - k] == text[j..j + |word|][..|word| - k] == text[j..i + |word|];
  }

  // ---- Splicing ----

  datatype Replacement = Replacement(oldText: string, newText: string)

  /** `text.replace(old_text, new_text, 1)` after the check; `None` where it raises. */
  function ReplaceOnce(text: string, r: Replacement): Option<string> {
    if r.oldText == [] || Count(text, r.oldText) != 1 then None
    else
      var i := FindFrom(text, r.oldText, 0).value;
      Some(text[..i] + r.newText + text[i + |r.oldText|..])
  }

  /** One replacement as a reader understands it: the text around the leftmost occurrence stays. */
  ghost predicate SplicedAt(text: string, r: Replacement, after: string, i: nat) {
    && At(text, i, r.oldText) && (forall j :: 0 <= j < i || i + |r.oldText| <= j ==> !At(text, j, r.oldText))
    && after == text[..i] + r.newText + text[i + |r.oldText|..]
  }

  lemma ReplaceOnceMeans(text: string, r: Replacement)
    requires r.oldText != []
    ensures ReplaceOnce(text, r).Some? <==>
              && (exists i :: At(text, i, r.oldText))
              && forall i, j :: At(text, i, r.oldText) && At(text, j, r.oldText) ==> j < i + |r.oldText|
    ensures ReplaceOnce(text, r).Some? ==>
              && SpliceStep(text, r, ReplaceOnce(text, r).value)
              && |ReplaceOnce(text, r).value| == |text| + |r.newText| - |r.oldText|
  {
    CountedOnce(text, r.oldText);
    if ReplaceOnce(text, r).Some? {
      var i := FindFrom(text, r.oldText, 0).value;
      assert At(text, i, r.oldText);
      assert SplicedAt(text, r, ReplaceOnce(text, r).value, i);
    }
  }

  /** Counting once is not occurring once: "aa" occurs twice in "aaa", is counted once, and is replaced. */
  lemma CountedOnceNotUnique(newText: string)
    ensures Count("aaa", "aa") == 1 && !Unique("aaa", "aa")
    ensures ReplaceOnce("aaa", Replacement("aa", newText)) == Some(newText + "a")
  {
    assert At("aaa", 0, "aa") && At("aaa", 1, "aa");
    CountedOnce("aaa", "aa");
    forall i, j | At("aaa", i, "aa") && At("aaa", j, "aa")
      ensures j < i + 2
    {
    }
    assert FindFrom("aaa", "aa", 0) == Some(0);
    assert "aaa"[..0] + newText + "aaa"[2..] == newText + "a";
  }

  /** The replacements of one edit, in sequence. */
  function Replaced(text: string, rs: seq<Replacement>): Option<string>
    decreases |rs|
  {
    if rs == [] then Some(text)
    else
      match ReplaceOnce(text, rs[0])
      case None => None
      case Some(next) => Replaced(next, rs[1..])
  }

  ghost predicate SpliceStep(text: string, r: Replacement, after: string) {
    exists i: nat :: SplicedAt(text, r, after, i)
  }

  /** The texts an edit goes through, each spliced from the one before it. */
  ghost predicate Spliced(texts: seq<string>, rs: seq<Replacement>) {
    |texts| == |rs| + 1 && forall k :: 0 <= k < |rs| ==> SpliceStep(texts[k], rs[k], texts[k + 1])
  }

  function Growth(rs: seq<Replacement>): int {
    if rs == [] then 0 else |rs[0].newText| - |rs[0].oldText| + Growth(rs[1..])
  }

  lemma SplicedCons(text: string, rest: seq<string>, rs: seq<Replacement>)
    requires rs != [] && Spliced(rest, rs[1..]) && SpliceStep(text, rs[0], rest[0])
    ensures Spliced([text] + rest, rs)
  {
    var texts := [text] + rest;
    forall k | 0 <= k < |rs|
      ensures SpliceStep(texts[k], rs[k], texts[k + 1])
    {
      if k > 0 {
        assert texts[k] == rest[k - 1] && texts[k + 1] == rest[k] && rs[k] == rs[1..][k - 1];
      }
    }
  }

  /** Whatever an edit makes of a text, it is the end of a chain of splices, and its length has changed by
      the sum of what was put in minus what was taken out. */
  lemma {:induction false} ReplacedIsSpliced(text: string, rs: seq<Replacement>) returns (texts: seq<string>)
    requires Replaced(text, rs).Some?
    ensures Spliced(texts, rs) && texts[0] == text && texts[|rs|] == Replaced(text, rs).value
    ensures |Replaced(text, rs).value| == |text| + Growth(rs)
    decreases |rs|
  {
    if rs == [] {
      texts := [text];
    } else {
      var next := ReplaceOnce(text, rs[0]).value;
      ReplaceOnceMeans(text, rs[0]);
      var rest := ReplacedIsSpliced(next, rs[1..]);
      SplicedCons(text, rest, rs);
      texts := [text] + rest;
    }
  }

  // ---- The planner ----

  datatype Edit = Edit(path: string, expected: string, replacements: seq<Replacement>)
  datatype TextEditPlan = TextEditPlan(path: string, expected: string, before: bytes, after: bytes, count: nat)

  /** The surroundings: the reading of a file, SHA-256, strict UTF-8 both ways (a lone surrogate cannot be
      encoded), and the limits. */
  datatype Surroundings = Surroundings(read: string -> Option<bytes>, sha256: bytes -> string,
                                       decode: bytes -> Option<string>,
                                       encode: string -> Option<bytes>, fold: string -> string,
                                       maxFiles: nat, maxRead: nat, maxWrite: nat, maxTotal: nat)

  predicate IsDigest(s: string) { |s| == 64 && forall c <- s :: '0' <= c <= '9' || 'a' <= c <= 'f' }

  /** One edit by itself. */
  function PlanOne(env: Surroundings, e: Edit): Option<TextEditPlan> {
    if e.path == [] || !IsDigest(e.expected) || e.replacements == [] then None
    else
      match env.read(e.path)
      case None => None
      case Some(before) =>
        if |before| > env.maxRead || env.sha256(before) != e.expected || env.decode(before).None? then None
        else
          match Replaced(env.decode(before).value, e.replacements)
          case None => None
          case Some(text) =>
            match env.encode(text)
            case None => None
            case Some(after) =>
              if |after| > env.maxWrite then None
              else Some(TextEditPlan(e.path, e.expected, before, after, |e.replacements|))
  }

  predicate DistinctPaths(fold: string -> string, edits: seq<Edit>) {
    forall i, j :: 0 <= i < j < |edits| ==> fold(edits[i].path) != fold(edits[j].path)
  }

  function Load(): TextEditPlan -> nat { (p: TextEditPlan) => |p.before| + |p.after| }

  /** The plans of the first `n` edits, in order. */
  predicate PlansUpTo(env: Surroundings, edits: seq<Edit>, n: nat, plans: seq<TextEditPlan>)
    requires n <= |edits|
  {
    |plans| == n && forall k :: 0 <= k < n ==> PlanOne(env, edits[k]) == Some(plans[k])
  }

  /** The edits can all be planned, within the byte limit. */
  ghost predicate Plannable(env: Surroundings, edits: seq<Edit>) {
    exists plans :: PlansOf(env, edits, plans) && Budgets.Sum(Load(), plans) <= env.maxTotal
  }

  predicate PlansOf(env: Surroundings, edits: seq<Edit>, plans: seq<TextEditPlan>) {
    PlansUpTo(env, edits, |edits|, plans)
  }

  method ReplaceAll(text: string, rs: seq<Replacement>) returns (r: Option<string>)
    ensures r == Replaced(text, rs)
  {
    var current := text;
    var k := 0;
    while k < |rs|
      invariant k <= |rs| && Replaced(current, rs[k..]) == Replaced(text, rs)
    {
      assert rs[k..][0] == rs[k] && rs[k..][1..] == rs[k + 1..];
      var next := ReplaceOnce(current, rs[k]);
      if next.None? {
        return None;
      }
      current, k := next.value, k + 1;
    }
    return Some(current);
  }

  method PlanEdit(env: Surroundings, e: Edit) returns (r: Option<TextEditPlan>)
    ensures r == PlanOne(env, e)
  {
    if e.path == [] || !IsDigest(e.expected) || e.replacements == [] {
      return None;
    }
    var before := env.read(e.path);
    if before.None? || |before.value| > env.maxRead || env.sha256(before.value) != e.expected {
      return None;
    }
    var text := env.decode(before.value);
    if text.None? {
      return None;
    }
    var edited := ReplaceAll(text.value, e.replacements);
    if edited.None? {
      return None;
    }
    var after := env.encode(edited.value);
    if after.None? || |after.value| > env.maxWrite {
      return None;
    }
    return Some(TextEditPlan(e.path, e.expected, before.value, after.value, |e.replacements|));
  }

  lemma Unplannable(env: Surroundings, edits: seq<Edit>, k: nat)
    requires k < |edits| && PlanOne(env, edits[k]).None?
    ensures !Plannable(env, edits)
  {
  }

  /** A prefix of the plans over the limit puts all of them over it. */
  lemma OverBudget(env: Surroundings, edits: seq<Edit>, k: nat, plans: seq<TextEditPlan>)
    requires k <= |edits| && PlansUpTo(env, edits, k, plans) && Budgets.Sum(Load(), plans) > env.maxTotal
    ensures !Plannable(env, edits)
  {
    forall all | PlansOf(env, edits, all)
      ensures Budgets.Sum(Load(), all) > env.maxTotal
    {
      forall i | 0 <= i < k
        ensures all[i] == plans[i]
      {
        assert PlanOne(env, edits[i]) == Some(all[i]);
      }
      assert all[..k] == plans && all == plans + all[k..];
      Budgets.SumConcat(Load(), plans, all[k..]);
    }
  }

  /** `seen`, `plans` and `total_bytes` behind the first `k` edits. */
  ghost predicate Progressed(env: Surroundings, edits: seq<Edit>, k: nat, seen: set<string>, plans: seq<TextEditPlan>,
                             total: nat)
    requires k <= |edits|
  {
    && seen == (set i | 0 <= i < k :: env.fold(edits[i].path))
    && (forall i, j :: 0 <= i < j < k ==> env.fold(edits[i].path) != env.fold(edits[j].path))
    && PlansUpTo(env, edits, k, plans) && total == Budgets.Sum(Load(), plans)
  }

  lemma Progresses(env: Surroundings, edits: seq<Edit>, k: nat, seen: set<string>, plans: seq<TextEditPlan>, total: nat,
                   plan: TextEditPlan)
    requires k < |edits| && Progressed(env, edits, k, seen, plans, total)
    requires env.fold(edits[k].path) !in seen && PlanOne(env, edits[k]) == Some(plan)
    ensures Progressed(env, edits, k + 1, seen + {env.fold(edits[k].path)}, plans + [plan],
                       total + |plan.before| + |plan.after|)
  {
    Budgets.SumConcat(Load(), plans, [plan]);
    Budgets.SumOne(Load(), plan);
  }

  /** One edit of the loop. A failure shows that the whole request fails. */
  method AddPlan(env: Surroundings, edits: seq<Edit>, k: nat, seen: set<string>, plans: seq<TextEditPlan>, total: nat)
    returns (r: Option<TextEditPlan>)
    requires k < |edits| && Progressed(env, edits, k, seen, plans, total)
    ensures r.Some? ==>
              Progressed(env, edits, k + 1, seen + {env.fold(edits[k].path)}, plans + [r.value],
                         total + |r.value.before| + |r.value.after|)
                        && total + |r.value.before| + |r.value.after| <= env.maxTotal
    ensures r.None? ==> !DistinctPaths(env.fold, edits) || !Plannable(env, edits)
  {
    if env.fold(edits[k].path) in seen {
      return None;
    }
    r := PlanEdit(env, edits[k]);
    if r.None? {
      Unplannable(env, edits, k);
      return;
    }
    Progresses(env, edits, k, seen, plans, total, r.value);
    if total + |r.value.before| + |r.value.after| > env.maxTotal {
      OverBudget(env, edits, k + 1, plans + [r.value]);
      return None;
    }
  }

  /** `plan_exact_text_edits`: it fails unless there are edits, not too many, to paths that differ in more
      than case, each of which can be planned, and all together within the byte limit; otherwise it
      returns the plan of each. */
  method PlanEdits(env: Surroundings, edits: seq<Edit>) returns (r: Option<seq<TextEditPlan>>)
    ensures r.Some? <==> 0 < |edits| <= env.maxFiles && DistinctPaths(env.fold, edits) && Plannable(env, edits)
    ensures r.Some? ==> PlansOf(env, edits, r.value) && Budgets.Sum(Load(), r.value) <= env.maxTotal
  {
    if edits == [] || |edits| > env.maxFiles {
      return None;
    }
    var seen, plans: seq<TextEditPlan>, total: nat := {}, [], 0;
    var k := 0;
    while k < |edits|
      invariant k <= |edits| && Progressed(env, edits, k, seen, plans, total) && total <= env.maxTotal
    {
      var plan := AddPlan(env, edits, k, seen, plans, total);
      if plan.None? {
        return None;
      }
      seen, plans := seen + {env.fold(edits[k].path)}, plans + [plan.value];
      total := total + |plan.value.before| + |plan.value.after|;
      k := k + 1;
    }
    assert PlansOf(env, edits, plans);
    return Some(plans);
  }

  /** What a plan promises: its text is the file's, spliced replacement by replacement, and its length
      has changed by their sum. */
  lemma PlanIsSplice(env: Surroundings, e: Edit) returns (texts: seq<string>)
    requires PlanOne(env, e).Some?
    ensures var plan := PlanOne(env, e).value;
            && env.read(e.path) == Some(plan.before) && env.sha256(plan.before) == e.expected
            && Spliced(texts, e.replacements) && env.decode(plan.before) == Some(texts[0])
            && env.encode(texts[|e.replacements|]) == Some(plan.after)
            && |texts[|e.replacements|]| == |texts[0]| + Growth(e.replacements)
            && |plan.before| <= env.maxRead && |plan.after| <= env.maxWrite && plan.count == |e.replacements| > 0
  {
    texts := ReplacedIsSpliced(env.decode(env.read(e.path).value).value, e.replacements);
  }
}
