/**
  Lexical path cleaning (`clean.Clean` in internal/clean/path.go) over Go's
  `path.Clean`, modelled on sequences of '/'-separated segments.
 */
module CleanPath {

  /** Splits a string at every '/'; there is always at least one segment. */
  function Split(s: string): (r: seq<string>)
    ensures |r| >= 1
    ensures forall i :: 0 <= i < |r| ==> '/' !in r[i]
    decreases |s|
  {
    if |s| == 0 then [""]
    else
      var rest := Split(s[1..]);
      if s[0] == '/' then [""] + rest
      else [[s[0]] + rest[0]] + rest[1..]
  }

  /** Joins segments with '/'. */
  function Join(segs: seq<string>): string
    requires |segs| >= 1
    decreases |segs|
  {
    if |segs| == 1 then segs[0] else segs[0] + "/" + Join(segs[1..])
  }

  /** A segment that may appear in a cleaned path. */
  predicate CleanSegment(s: string) {
    s != "" && s != "." && s != ".." && '/' !in s
  }

  predicate AllClean(segs: seq<string>) {
    forall i :: 0 <= i < |segs| ==> CleanSegment(segs[i])
  }

  /** The segment walk of `path.Clean` on a rooted path: empty and "."
      segments vanish, ".." removes the previous segment (and is dropped at
      the root), any other segment is kept. */
  function Resolve(segs: seq<string>, stack: seq<string>): (r: seq<string>)
    requires forall i :: 0 <= i < |segs| ==> '/' !in segs[i]
    requires AllClean(stack)
    ensures AllClean(r)
    decreases |segs|
  {
    if |segs| == 0 then stack
    else
      var s := segs[0];
      var next :=
        if s == "" || s == "." then stack
        else if s == ".." then (if |stack| > 0 then stack[..|stack| - 1] else stack)
        else stack + [s];
      Resolve(segs[1..], next)
  }

  /** `path.Clean` of a path that begins with '/'. */
  function PathClean(p: string): string
    requires |p| > 0 && p[0] == '/'
  {
    var stack := Resolve(Split(p), []);
    if |stack| == 0 then "/" else "/" + Join(stack)
  }

  /** `clean.Clean`. */
  function Clean(p: string): (r: string)
    ensures p == "" ==> r == "/"
    ensures |r| > 0 && r[0] == '/'
  {
    if p == "" then "/"
    else
      var rooted := if p[0] != '/' then "/" + p else p;
      var np := PathClean(rooted);
      if rooted[|rooted| - 1] == '/' && np != "/" then
        // fast path: the rooted input already is the cleaned path plus '/'
        if |rooted| == |np| + 1 && np == rooted[..|np|] then rooted else np + "/"
      else np
  }

  // ---------------------------------------------------------------------------
  // Lemmas about splitting and joining

  lemma {:induction false} SplitConcat(a: string, b: string)
    ensures Split(a + "/" + b) == Split(a) + Split(b)
    decreases |a|
  {
    if |a| == 0 {
      assert a + "/" + b == "/" + b;
      assert ("/" + b)[1..] == b;
    } else {
      assert (a + "/" + b)[0] == a[0];
      assert (a + "/" + b)[1..] == a[1..] + "/" + b;
      SplitConcat(a[1..], b);
    }
  }

  lemma {:induction false} SplitSegment(s: string)
    requires '/' !in s
    ensures Split(s) == [s]
    decreases |s|
  {
    if |s| > 0 {
      SplitSegment(s[1..]);
      assert [s[0]] + s[1..] == s;
    }
  }

  /** Splitting undoes joining. */
  lemma {:induction false} SplitJoin(segs: seq<string>)
    requires |segs| >= 1
    requires forall i :: 0 <= i < |segs| ==> '/' !in segs[i]
    ensures Split(Join(segs)) == segs
    decreases |segs|
  {
    if |segs| == 1 {
      SplitSegment(segs[0]);
    } else {
      SplitJoin(segs[1..]);
      SplitSegment(segs[0]);
      SplitConcat(segs[0], Join(segs[1..]));
      assert [segs[0]] + segs[1..] == segs;
    }
  }

  lemma {:induction false} JoinLast(segs: seq<string>)
    requires |segs| >= 1 && |segs[|segs| - 1]| > 0
    ensures var j := Join(segs); |j| > 0 && j[|j| - 1] == segs[|segs| - 1][|segs[|segs| - 1]| - 1]
    decreases |segs|
  {
    if |segs| > 1 {
      JoinLast(segs[1..]);
    }
  }

  lemma {:induction false} ResolveAppend(a: seq<string>, b: seq<string>, stack: seq<string>)
    requires forall i :: 0 <= i < |a| ==> '/' !in a[i]
    requires forall i :: 0 <= i < |b| ==> '/' !in b[i]
    requires AllClean(stack)
    ensures Resolve(a + b, stack) == Resolve(b, Resolve(a, stack))
    decreases |a|
  {
    if |a| == 0 {
      assert a + b == b;
    } else {
      assert (a + b)[0] == a[0];
      assert (a + b)[1..] == a[1..] + b;
      var s := a[0];
      var next :=
        if s == "" || s == "." then stack
        else if s == ".." then (if |stack| > 0 then stack[..|stack| - 1] else stack)
        else stack + [s];
      ResolveAppend(a[1..], b, next);
    }
  }

  /** Clean segments are kept as they are. */
  lemma {:induction false} ResolveClean(segs: seq<string>, stack: seq<string>)
    requires AllClean(segs) && AllClean(stack)
    ensures Resolve(segs, stack) == stack + segs
    decreases |segs|
  {
    if |segs| > 0 {
      ResolveClean(segs[1..], stack + [segs[0]]);
      assert stack + [segs[0]] + segs[1..] == stack + segs;
    }
  }

  /** A cleaned path other than the root is '/' and the joined clean
      stack; it splits back to that stack, with or without a trailing '/'. */
  lemma {:induction false} JoinedShape(stack: seq<string>)
    requires AllClean(stack) && |stack| > 0
    ensures var np := "/" + Join(stack);
      |np| > 1 && np[|np| - 1] != '/' &&
      Split(np) == [""] + stack && Split(np + "/") == [""] + stack + [""]
  {
    var np := "/" + Join(stack);
    NoDotsIn(stack);
    JoinLast(stack);
    assert np == "" + "/" + Join(stack);
    SplitConcat("", Join(stack));
    SplitJoin(stack);
    SplitConcat(np, "");
    assert np + "/" == np + "/" + "";
  }

  /** Such a path, and the same path with a trailing '/', clean to it. */
  lemma {:induction false} JoinedFixed(stack: seq<string>)
    requires AllClean(stack) && |stack| > 0
    ensures PathClean("/" + Join(stack)) == "/" + Join(stack)
    ensures PathClean("/" + Join(stack) + "/") == "/" + Join(stack)
  {
    JoinedShape(stack);
    assert Resolve([""], []) == [];
    ResolveAppend([""], stack, []);
    ResolveClean(stack, []);
    assert Resolve(Split("/" + Join(stack)), []) == stack;
    ResolveAppend([""] + stack, [""], []);
    assert Resolve([""], stack) == stack;
  }

  lemma RootShape()
    ensures Split("/") == ["", ""] && PathClean("/") == "/"
  {
    SplitConcat("", "");
    assert Resolve(["", ""], []) == [];
  }

  /** `path.Clean` gives the root or '/' and a joined non-empty clean stack. */
  lemma PathCleanShape(rooted: string)
    requires |rooted| > 0 && rooted[0] == '/'
    ensures var stack := Resolve(Split(rooted), []);
      AllClean(stack) &&
      (|stack| == 0 ==> PathClean(rooted) == "/") &&
      (|stack| > 0 ==> PathClean(rooted) == "/" + Join(stack))
  {
  }

  // ---------------------------------------------------------------------------
  // Properties of Clean

  /** The segments of a cleaned path: after the leading '/', every segment
      is a real name, with at most one empty segment for a trailing '/'. */
  lemma CleanSegments(p: string)
    ensures var r := Clean(p);
      var segs := Split(r);
      segs[0] == "" &&
      forall i :: 0 <= i < |segs| ==> segs[i] != "." && segs[i] != ".."
  {
    RootShape();
    if p != "" {
      var rooted := if p[0] != '/' then "/" + p else p;
      var stack := Resolve(Split(rooted), []);
      PathCleanShape(rooted);
      TrailingSlash(p);
      if |stack| > 0 {
        JoinedShape(stack);
        NoDotsIn(stack);
      }
    }
  }

  lemma NoDotsIn(stack: seq<string>)
    requires AllClean(stack)
    ensures forall i :: 0 <= i < |stack| ==> stack[i] != "." && stack[i] != ".." && '/' !in stack[i]
  {
  }

  predicate EndsWithSlash(s: string) {
    |s| > 0 && s[|s| - 1] == '/'
  }

  /** `Clean` is the cleaned path plus '/' when the input ends in '/' and
      does not clean to the root, whether or not the fast path is taken, and
      the cleaned path otherwise. */
  lemma CleanCases(p: string)
    requires p != ""
    ensures var rooted := if p[0] != '/' then "/" + p else p;
      var np := PathClean(rooted);
      (EndsWithSlash(p) && np != "/" ==> Clean(p) == np + "/") &&
      (!EndsWithSlash(p) || np == "/" ==> Clean(p) == np)
  {
    var rooted := if p[0] != '/' then "/" + p else p;
    var np := PathClean(rooted);
    assert rooted[|rooted| - 1] == p[|p| - 1];
    if rooted[|rooted| - 1] == '/' && np != "/" && |rooted| == |np| + 1 && np == rooted[..|np|] {
      assert rooted == rooted[..|np|] + [rooted[|np|]];
    }
  }

  /** The trailing slash is kept exactly when the input had one and the path
      is not the root: the result is then the cleaned path plus '/';
      otherwise it is the cleaned path, which ends in '/' only when it is the
      root. */
  lemma TrailingSlash(p: string)
    requires p != ""
    ensures var rooted := if p[0] != '/' then "/" + p else p;
      var np := PathClean(rooted);
      (EndsWithSlash(p) && np != "/" ==> Clean(p) == np + "/") &&
      (!EndsWithSlash(p) || np == "/" ==> Clean(p) == np) &&
      (EndsWithSlash(Clean(p)) <==> EndsWithSlash(p) || Clean(p) == "/")
  {
    var rooted := if p[0] != '/' then "/" + p else p;
    CleanCases(p);
    var stack := Resolve(Split(rooted), []);
    PathCleanShape(rooted);
    if |stack| > 0 {
      JoinedShape(stack);
    }
  }

  /** An input without a trailing slash gets none: "a" cleans to "/a". */
  lemma NoSlashAdded()
    ensures Clean("a") == "/a"
  {
    assert Split("/a") == ["", "a"] by {
      SplitConcat("", "a");
      SplitSegment("a");
    }
    assert Resolve(["", "a"], []) == ["a"];
  }

  /** Cleaning a cleaned path changes nothing. */
  lemma Idempotent(p: string)
    ensures Clean(Clean(p)) == Clean(p)
  {
    RootShape();
    if p != "" {
      var rooted := if p[0] != '/' then "/" + p else p;
      var stack := Resolve(Split(rooted), []);
      PathCleanShape(rooted);
      TrailingSlash(p);
      if |stack| > 0 {
        var np := "/" + Join(stack);
        JoinedShape(stack);
        JoinedFixed(stack);
        if EndsWithSlash(p) {
          assert (np + "/")[..|np|] == np;
        }
      }
    }
  }
}
