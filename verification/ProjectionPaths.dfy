/** Repository paths as the projection compares them: joined with slashes, case-folded, and tested for
    equality and prefixes as strings. The tests mean what they should on components. */
module ProjectionPaths {
  import opened Texts
  import opened Bytes
  import opened Walks

  /** `str.casefold`. */
  type Fold = string -> string

  predicate Ascii(s: string) { forall c <- s :: c < '\U{80}' }

  /** What folding a character at a time gives: it leaves slashes alone and makes none, keeps nonempty
      text nonempty, makes no leading dot, and lowers ASCII letters. */
  ghost predicate CaseFold(fold: Fold) {
    && (forall a, b {:trigger fold(a + "/" + b)} :: fold(a + "/" + b) == fold(a) + "/" + fold(b))
    && (forall s {:trigger fold(s)} :: '/' in fold(s) ==> '/' in s)
    && (forall s {:trigger fold(s)} :: s != [] ==> fold(s) != [] && (fold(s)[0] == '.' ==> s[0] == '.'))
    && (forall s {:trigger Ascii(s)} :: Ascii(s) ==> fold(s) == LowerCase(s))
  }

  /** There is such a function: lowering ASCII is one. */
  lemma LowerCaseIsCaseFold()
    ensures CaseFold(LowerCase)
  {
    forall a, b
      ensures LowerCase(a + "/" + b) == LowerCase(a) + "/" + LowerCase(b)
    {
    }
    forall s | '/' in LowerCase(s)
      ensures '/' in s
    {
      var i :| 0 <= i < |s| && LowerCase(s)[i] == '/';
      assert s[i] == '/';
    }
  }

  /** `Path.as_posix`. */
  function Posix(path: Path): string {
    if path == [] then [] else if |path| == 1 then path[0] else path[0] + "/" + Posix(path[1..])
  }

  function FoldAll(fold: Fold, path: Path): (r: Path)
    ensures |r| == |path|
  {
    seq(|path|, i requires 0 <= i < |path| => fold(path[i]))
  }

  /** `relative.as_posix().casefold()`. */
  function Folded(fold: Fold, path: Path): string { fold(Posix(path)) }

  lemma {:induction false} FoldedParts(fold: Fold, path: Path)
    requires CaseFold(fold) && path != []
    ensures Folded(fold, path) == Posix(FoldAll(fold, path))
  {
    if |path| > 1 {
      FoldedParts(fold, path[1..]);
      assert FoldAll(fold, path)[1..] == FoldAll(fold, path[1..]);
    }
  }

  lemma FoldAllSlashless(fold: Fold, path: Path)
    requires CaseFold(fold) && Slashless(path)
    ensures Slashless(FoldAll(fold, path))
  {
    forall part | part in FoldAll(fold, path)
      ensures part != [] && '/' !in part
    {
      var i :| 0 <= i < |path| && FoldAll(fold, path)[i] == part;
      assert path[i] in path;
    }
  }

  /** Every component followed by a slash. */
  function Slashed(path: Path): string {
    if path == [] then [] else path[0] + "/" + Slashed(path[1..])
  }

  lemma {:induction false} PosixSlashed(path: Path)
    requires path != []
    ensures Posix(path) + "/" == Slashed(path)
  {
    if |path| == 1 {
      assert Slashed(path[1..]) == [];
    } else {
      PosixSlashed(path[1..]);
      assert Posix(path) + "/" == path[0] + "/" + (Posix(path[1..]) + "/");
    }
  }

  function FirstSlash(s: string): (k: nat)
    ensures k <= |s|
  {
    if s == [] || s[0] == '/' then 0 else 1 + FirstSlash(s[1..])
  }

  lemma {:induction false} PartEnds(x: string, u: string)
    requires '/' !in x
    ensures FirstSlash(x + "/" + u) == |x|
  {
    var s := x + "/" + u;
    if x == [] {
      assert s[0] == '/';
    } else {
      assert s[0] == x[0] && s[0] in x;
      assert s[1..] == x[1..] + "/" + u;
      PartEnds(x[1..], u);
    }
  }

  lemma {:induction false} FirstSlashKept(s: string, t: string)
    requires s <= t && FirstSlash(s) < |s|
    ensures FirstSlash(t) == FirstSlash(s)
  {
    if s[0] != '/' {
      FirstSlashKept(s[1..], t[1..]);
    }
  }

  lemma PartsAgree(x: string, u: string, y: string, v: string)
    requires '/' !in x && '/' !in y
    ensures x + "/" + u <= y + "/" + v <==> x == y && u <= v
  {
    var s, t := x + "/" + u, y + "/" + v;
    PartEnds(x, u);
    PartEnds(y, v);
    if s <= t {
      FirstSlashKept(s, t);
      assert x == s[..|x|] == t[..|y|] == y;
      assert u == s[|x| + 1..] && v == t[|y| + 1..];
    }
  }

  lemma {:induction false} SlashedPrefix(a: Path, b: Path)
    requires Slashless(a) && Slashless(b)
    ensures Slashed(a) <= Slashed(b) <==> a <= b
  {
    if a != [] && b != [] {
      assert a[0] in a && b[0] in b;
      PartsAgree(a[0], Slashed(a[1..]), b[0], Slashed(b[1..]));
      assert forall part <- a[1..] :: part in a;
      assert forall part <- b[1..] :: part in b;
      SlashedPrefix(a[1..], b[1..]);
      assert a <= b <==> a[0] == b[0] && a[1..] <= b[1..] by {
        assert a == [a[0]] + a[1..] && b == [b[0]] + b[1..];
      }
    }
  }

  /** Equality and `b.startswith(a + "/")` say what they should, component by component. */
  lemma PosixPrefix(a: Path, b: Path)
    requires Slashless(a) && Slashless(b) && a != [] && b != []
    ensures Posix(b) == Posix(a) <==> a == b
    ensures Posix(a) + "/" <= Posix(b) <==> a <= b && a != b
  {
    PosixSlashed(a);
    PosixSlashed(b);
    SlashedPrefix(a, b);
    SlashedPrefix(b, a);
    if Posix(a) + "/" <= Posix(b) {
      assert Posix(b) <= Slashed(b);
    }
    if a <= b && a != b {
      assert Slashed(a) <= Slashed(b) && !(Slashed(b) <= Slashed(a));
      assert Slashed(a) <= Posix(b);
    }
  }

  // ---- Reference metadata that no command looks at ----

  /** `_MetadataProjectionPolicy`: what the planner found out about HEAD. Keys are folded paths. */
  datatype RefPolicy = RefPolicy(retainAll: bool, required: set<string>, absent: set<string>, pins: map<string, bytes>)

  const LOGS := ".git/logs"
  const REFS := ".git/refs"

  /** `_metadata_entry_is_unobserved`, on the folded path. */
  predicate Unobserved(policy: RefPolicy, folded: string) {
    && !policy.retainAll
    && (|| folded == LOGS || LOGS + "/" <= folded
        || (&& folded != REFS && REFS + "/" <= folded
            && !(folded[|REFS| + 1..] == "replace" || "replace/" <= folded[|REFS| + 1..])
            && forall r <- policy.required :: r != folded && !(folded + "/" <= r)))
  }

  /** An entry is left out exactly when it is or lies below the logs, or lies below the refs without being
      a replace ref, a required ref or a directory on the way to one. */
  lemma UnobservedMeans(policy: RefPolicy, path: Path, required: set<Path>)
    requires Slashless(path) && path != []
    requires forall r <- required :: Slashless(r) && r != []
    requires policy.required == set r | r in required :: Posix(r)
    ensures Unobserved(policy, Posix(path)) <==>
              && !policy.retainAll
              && (|| [".git", "logs"] <= path
                  || (&& [".git", "refs"] <= path && path != [".git", "refs"] && !([".git", "refs", "replace"] <= path)
                      && forall r <- required :: !(path <= r)))
  {
    var folded := Posix(path);
    UnobservedParts(path);
    forall r | r in required
      ensures Posix(r) == folded || folded + "/" <= Posix(r) <==> path <= r
    {
      PosixPrefix(path, r);
    }
    if forall r <- required :: !(path <= r) {
      forall q | q in policy.required
        ensures q != folded && !(folded + "/" <= q)
      {
        var r :| r in required && q == Posix(r);
      }
    } else {
      var r :| r in required && path <= r;
      assert Posix(r) in policy.required;
    }
  }

  /** The fixed prefixes. */
  lemma UnobservedParts(path: Path)
    requires Slashless(path) && path != []
    ensures var folded := Posix(path);
            && (folded == LOGS || LOGS + "/" <= folded <==> [".git", "logs"] <= path)
            && (folded == REFS <==> path == [".git", "refs"])
            && (REFS + "/" <= folded <==> [".git", "refs"] <= path && path != [".git", "refs"])
            && (REFS + "/" <= folded ==>
                  var rest := folded[|REFS| + 1..];
                  (rest == "replace" || "replace/" <= rest <==> [".git", "refs", "replace"] <= path))
  {
    var folded := Posix(path);
    FixedParts();
    PosixPrefix([".git", "logs"], path);
    PosixPrefix([".git", "refs"], path);
    PosixPrefix([".git", "refs", "replace"], path);
    if REFS + "/" <= folded {
      BelowRefs(folded, folded[|REFS| + 1..]);
    }
  }

  lemma FixedParts()
    ensures Slashless([".git", "logs"]) && Slashless([".git", "refs"]) && Slashless([".git", "refs", "replace"])
    ensures Posix([".git", "logs"]) == LOGS && Posix([".git", "refs"]) == REFS
    ensures Posix([".git", "refs", "replace"]) == REFS + "/replace"
  {
    assert Posix(["logs"]) == "logs" && Posix(["refs"]) == "refs" && Posix(["replace"]) == "replace";
    assert [".git", "logs"][1..] == ["logs"] && [".git", "refs"][1..] == ["refs"];
    assert [".git", "refs", "replace"][1..] == ["refs", "replace"] && ["refs", "replace"][1..] == ["replace"];
  }

  lemma BelowRefs(folded: string, rest: string)
    requires REFS + "/" <= folded && rest == folded[|REFS| + 1..]
    ensures folded == REFS + "/replace" <==> rest == "replace"
    ensures REFS + "/replace" + "/" <= folded <==> "replace/" <= rest
  {
    assert folded == (REFS + "/") + rest;
    assert REFS + "/replace" == (REFS + "/") + "replace" && REFS + "/replace" + "/" == (REFS + "/") + "replace/";
    if "replace/" <= rest {
      assert rest == "replace/" + rest[8..];
      assert folded == (REFS + "/replace" + "/") + rest[8..];
    }
    if REFS + "/replace" + "/" <= folded {
      assert folded[10..18] == "replace/";
    }
  }
}
