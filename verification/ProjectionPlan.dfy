/** The planner of the Git projection: it follows HEAD through symbolic refs, pins what it read, and notes
    what was absent. Any repository that agrees with the plan resolves HEAD as the planner saw it. */
module ProjectionPlan {
  import opened Wrappers
  import opened Bytes
  import opened Texts
  import opened ProjectionPaths

  const REF_FILE_LIMIT := 65536
  const SYMREF_MAX_DEPTH := 8

  /** `decode` is strict UTF-8. */
  datatype Encoding = Encoding(fold: Fold, decode: bytes -> Option<string>)

  // ---- Symbolic refs ----

  const REF_COLON: bytes := [0x72, 0x65, 0x66, 0x3A]           // "ref:"
  const REF_PREFIX: bytes := [0x72, 0x65, 0x66, 0x3A, 0x20]    // "ref: "

  predicate White(b: byte) { b == 0x20 || 0x09 <= b <= 0x0D }

  function StripLeft(data: bytes): bytes {
    if data != [] && White(data[0]) then StripLeft(data[1..]) else data
  }

  function Strip(data: bytes): bytes
    decreases |data|
  {
    if data != [] && White(data[|data| - 1]) then Strip(data[..|data| - 1]) else StripLeft(data)
  }

  predicate EndsWith(s: string, end: string) { |end| <= |s| && s[|s| - |end|..] == end }

  predicate ValidComponent(fold: Fold, c: string) {
    c != [] && c[0] != '.' && !EndsWith(fold(c), ".lock")
  }

  /** `_validate_symbolic_ref_target`. */
  predicate ValidTarget(fold: Fold, value: string) {
    && "refs/" <= value && !EndsWith(value, "/") && !EndsWith(value, ".")
    && !Contains(value, "//") && !Contains(value, "..") && !Contains(value, "@{")
    && (forall c <- SplitSlash(value) :: ValidComponent(fold, c))
    && forall c <- value :: !(c < ' ' || c == '\U{7F}' || c in " ~^:?*[\\")
  }

  /** What a ref file holds: an error, another ref, or anything else. */
  datatype Content = Malformed | Symbolic(target: string) | Object

  function ContentOf(env: Encoding, data: bytes): Content {
    var stripped := Strip(data);
    if !(REF_COLON <= stripped) then Object
    else if !(REF_PREFIX <= stripped) then Malformed
    else
      match env.decode(stripped[5..])
      case None => Malformed
      case Some(target) => if ValidTarget(env.fold, target) then Symbolic(target) else Malformed
  }

  // ---- Resolution ----

  type Look = string -> Option<bytes>

  function RefPath(target: string): seq<string> { [".git"] + SplitSlash(target) }

  /** The names the planner works with: the meaning of a file's bytes, and folded paths. */
  datatype Names = Names(content: bytes -> Content, key: string -> string, head: string, packed: string)

  function NamesOf(env: Encoding): Names {
    Names((data: bytes) => ContentOf(env, data), (target: string) => Folded(env.fold, RefPath(target)),
          Folded(env.fold, [".git", "HEAD"]), Folded(env.fold, [".git", "packed-refs"]))
  }

  datatype Resolution =
    | NoHead | Broken | TooDeep
    | Resolved(data: bytes)
    | Unborn(target: string, packed: Option<bytes>)   // looked up in `packed-refs` next

  /** HEAD resolution in a repository, by whoever looks files up there, through `hops` symbolic refs. */
  function Follow(names: Names, look: Look, data: bytes, hops: nat): Resolution
    decreases hops
  {
    match names.content(data)
    case Malformed => Broken
    case Object => Resolved(data)
    case Symbolic(target) =>
      if hops == 0 then TooDeep
      else
        match look(names.key(target))
        case None => Unborn(target, look(names.packed))
        case Some(d) => Follow(names, look, d, hops - 1)
  }

  function ResolveHead(names: Names, look: Look, hops: nat): Resolution {
    match look(names.head)
    case None => NoHead
    case Some(d) => Follow(names, look, d, hops)
  }

  // ---- The plan ----

  datatype Presence = Missing | Unreadable | Found(data: bytes)

  /** The source while the planner reads it, by folded path. */
  type View = string -> Presence

  function LookOf(view: View): Look {
    (key: string) => if view(key).Found? then Some(view(key).data) else None
  }

  function RefLimit(limit: nat): nat { if limit < REF_FILE_LIMIT then limit else REF_FILE_LIMIT }

  const KEEP_ALL := RefPolicy(true, {}, {}, map[])

  /** The chain from `content` on; `None` where the planner raises. */
  function PlanChain(names: Names, view: View, limit: nat, content: Content, seen: set<string>, depth: nat,
                     plan: RefPolicy): Option<RefPolicy>
    decreases SYMREF_MAX_DEPTH - depth
  {
    match content
    case Malformed => None
    case Object => Some(plan)
    case Symbolic(target) =>
      if target in seen || depth >= SYMREF_MAX_DEPTH then None
      else
        var key := names.key(target);
        var required := plan.(required := plan.required + {key});
        match view(key)
        case Missing => Some(required.(absent := plan.absent + {key}))
        case Unreadable => None
        case Found(d) =>
          if |d| > RefLimit(limit) then None
          else
            PlanChain(names, view, limit, names.content(d), seen + {target}, depth + 1,
                      required.(pins := plan.pins[key := d]))
  }

  function PlanPacked(names: Names, view: View, limit: nat, plan: RefPolicy): Option<RefPolicy> {
    match view(names.packed)
    case Missing => Some(plan.(absent := plan.absent + {names.packed}))
    case Unreadable => None
    case Found(d) => if |d| > limit then None else Some(plan.(pins := plan.pins[names.packed := d]))
  }

  function PlanRefs(names: Names, view: View, limit: nat, fullRefs: bool): Option<RefPolicy> {
    if fullRefs then Some(KEEP_ALL)
    else
      match view(names.head)
      case Found(head) =>
        if |head| > RefLimit(limit) then None
        else
          (match PlanPacked(names, view, limit, RefPolicy(false, {}, {}, map[names.head := head]))
           case None => None
           case Some(plan) => PlanChain(names, view, limit, names.content(head), {}, 0, plan))
      case _ => None
  }

  /** `_build_metadata_projection_policy`, with its loop along the chain. */
  method BuildMetadataPolicy(names: Names, view: View, limit: nat, fullRefs: bool) returns (r: Option<RefPolicy>)
    ensures r == PlanRefs(names, view, limit, fullRefs)
  {
    if fullRefs {
      return Some(KEEP_ALL);
    }
    var head := view(names.head);
    if !head.Found? || |head.data| > RefLimit(limit) {
      return None;
    }
    var start := PlanPacked(names, view, limit, RefPolicy(false, {}, {}, map[names.head := head.data]));
    if start.None? {
      return None;
    }
    var plan, content, seen := start.value, names.content(head.data), {};
    var depth: nat := 0;
    while content.Symbolic?
      invariant PlanChain(names, view, limit, content, seen, depth, plan) == PlanRefs(names, view, limit, false)
      decreases SYMREF_MAX_DEPTH - depth
    {
      if content.target in seen || depth >= SYMREF_MAX_DEPTH {
        return None;
      }
      var key := names.key(content.target);
      plan := plan.(required := plan.required + {key});
      var entry := view(key);
      if entry.Missing? {
        return Some(plan.(absent := plan.absent + {key}));
      }
      if entry.Unreadable? || |entry.data| > RefLimit(limit) {
        return None;
      }
      plan, seen, depth := plan.(pins := plan.pins[key := entry.data]), seen + {content.target}, depth + 1;
      content := names.content(entry.data);
    }
    return if content.Malformed? then None else Some(plan);
  }

  // ---- The plan fixes the resolution ----

  /** The plan records what the planner saw. */
  ghost predicate Faithful(plan: RefPolicy, view: View) {
    && (forall k <- plan.pins :: view(k) == Found(plan.pins[k]))
    && (forall k <- plan.absent :: view(k) == Missing)
  }

  /** Whoever looks sees the pinned bytes, and nothing where nothing was. */
  ghost predicate Agrees(plan: RefPolicy, look: Look) {
    && (forall k <- plan.pins :: look(k) == Some(plan.pins[k]))
    && (forall k <- plan.absent :: look(k) == None)
  }

  predicate Extends(more: RefPolicy, less: RefPolicy) {
    && less.required <= more.required && less.absent <= more.absent && more.retainAll == less.retainAll
    && forall k <- less.pins :: k in more.pins && more.pins[k] == less.pins[k]
  }

  /** The plan knows every file along the chain from `content` on, and requires its path. */
  predicate Covers(names: Names, plan: RefPolicy, content: Content, hops: nat)
    decreases hops
  {
    content.Symbolic? ==>
      var key := names.key(content.target);
      && key in plan.required
      && (key in plan.absent
           || (key in plan.pins && hops > 0 && Covers(names, plan, names.content(plan.pins[key]), hops - 1)))
  }

  /** Every required path is a ref's, and what is pinned or absent besides is HEAD or `packed-refs`. */
  ghost predicate WellPlanned(names: Names, plan: RefPolicy) {
    && (forall k <- plan.required :: IsRefKey(names, k))
    && (forall k <- plan.pins :: k in plan.required || k == names.head || k == names.packed)
    && (forall k <- plan.absent :: k in plan.required || k == names.packed)
  }

  ghost predicate IsRefKey(names: Names, k: string) {
    exists target :: IsTarget(names, target) && k == names.key(target)
  }

  /** Some ref file names it. */
  ghost predicate IsTarget(names: Names, target: string) { exists d :: names.content(d) == Symbolic(target) }

  ghost predicate ValidContent(names: Names, content: Content) { content.Symbolic? ==> IsTarget(names, content.target) }

  function WithPin(plan: RefPolicy, key: string, d: bytes): RefPolicy {
    RefPolicy(plan.retainAll, plan.required + {key}, plan.absent, plan.pins[key := d])
  }

  lemma {:induction false} ChainFaithful(names: Names, view: View, limit: nat, content: Content, seen: set<string>,
                                         depth: nat, plan: RefPolicy, r: RefPolicy) returns (hops: nat)
    requires Faithful(plan, view) && depth <= SYMREF_MAX_DEPTH
    requires PlanChain(names, view, limit, content, seen, depth, plan) == Some(r)
    ensures Faithful(r, view) && Extends(r, plan)
    ensures hops <= SYMREF_MAX_DEPTH - depth && Covers(names, r, content, hops)
    decreases SYMREF_MAX_DEPTH - depth
  {
    hops := 0;
    if content.Symbolic? {
      var key := names.key(content.target);
      if view(key).Found? {
        var d := view(key).data;
        var next := WithPin(plan, key, d);
        var rest := ChainFaithful(names, view, limit, names.content(d), seen + {content.target}, depth + 1, next, r);
        assert key in next.pins && next.pins[key] == d;
        ExtendsOnce(r, next, plan);
        hops := rest + 1;
      }
    }
  }

  lemma {:induction false} ChainPlanned(names: Names, view: View, limit: nat, content: Content, seen: set<string>,
                                        depth: nat, plan: RefPolicy, r: RefPolicy)
    requires WellPlanned(names, plan) && ValidContent(names, content) && depth <= SYMREF_MAX_DEPTH
    requires PlanChain(names, view, limit, content, seen, depth, plan) == Some(r)
    ensures WellPlanned(names, r)
    decreases SYMREF_MAX_DEPTH - depth
  {
    if content.Symbolic? {
      var key := names.key(content.target);
      assert IsRefKey(names, key);
      if view(key).Found? {
        var d := view(key).data;
        ChainPlanned(names, view, limit, names.content(d), seen + {content.target}, depth + 1,
                     WithPin(plan, key, d), r);
      }
    }
  }

  lemma ExtendsOnce(a: RefPolicy, b: RefPolicy, c: RefPolicy)
    requires Extends(a, b) && Extends(b, c)
    ensures Extends(a, c)
  {
  }

  /** What the planner starts the chain with. */
  lemma StartIsSound(names: Names, view: View, limit: nat, head: bytes, start: RefPolicy)
    requires view(names.head) == Found(head)
    requires PlanPacked(names, view, limit, RefPolicy(false, {}, {}, map[names.head := head])) == Some(start)
    ensures Faithful(start, view) && WellPlanned(names, start) && !start.retainAll
    ensures names.head in start.pins && (names.packed in start.pins || names.packed in start.absent)
  {
  }

  lemma PlanIsSound(names: Names, view: View, limit: nat, plan: RefPolicy)
    requires PlanRefs(names, view, limit, false) == Some(plan)
    ensures Faithful(plan, view) && WellPlanned(names, plan) && !plan.retainAll
    ensures names.head in plan.pins && (names.packed in plan.pins || names.packed in plan.absent)
    ensures exists hops: nat ::
              hops <= SYMREF_MAX_DEPTH && Covers(names, plan, names.content(plan.pins[names.head]), hops)
  {
    var head := view(names.head).data;
    var start := PlanPacked(names, view, limit, RefPolicy(false, {}, {}, map[names.head := head])).value;
    StartIsSound(names, view, limit, head, start);
    var hops := ChainFaithful(names, view, limit, names.content(head), {}, 0, start, plan);
    ChainPlanned(names, view, limit, names.content(head), {}, 0, start, plan);
  }

  lemma {:induction false} FollowAgrees(names: Names, plan: RefPolicy, one: Look, two: Look, data: bytes, known: nat,
                                        hops: nat)
    requires Agrees(plan, one) && Agrees(plan, two) && Covers(names, plan, names.content(data), known)
    requires names.packed in plan.pins || names.packed in plan.absent
    ensures Follow(names, one, data, hops) == Follow(names, two, data, hops)
    decreases hops
  {
    var content := names.content(data);
    if content.Symbolic? && hops > 0 {
      var key := names.key(content.target);
      if key !in plan.absent {
        FollowAgrees(names, plan, one, two, plan.pins[key], known - 1, hops - 1);
      }
    }
  }

  /** Any repository that agrees with a successful plan resolves HEAD, however many hops are allowed, to
      what the planned source resolved to. */
  lemma PlanFixesHead(names: Names, view: View, limit: nat, plan: RefPolicy, look: Look, hops: nat)
    requires PlanRefs(names, view, limit, false) == Some(plan) && Agrees(plan, look)
    ensures ResolveHead(names, look, hops) == ResolveHead(names, LookOf(view), hops)
  {
    PlanIsSound(names, view, limit, plan);
    var known: nat :| known <= SYMREF_MAX_DEPTH && Covers(names, plan, names.content(plan.pins[names.head]), known);
    FollowAgrees(names, plan, look, LookOf(view), plan.pins[names.head], known, hops);
  }
}
