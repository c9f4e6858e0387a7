/** Rooted slash-separated paths, as filepath.Join cleans them. */
module Paths {
  /** The elements between slashes, empty ones included. */
  function Split(s: string): (r: seq<string>)
    ensures |r| >= 1
  {
    if s == "" then [""]
    else if s[0] == '/' then [""] + Split(s[1..])
    else Glue(s[0], Split(s[1..]))
  }

  function Glue(c: char, r: seq<string>): (g: seq<string>)
    requires |r| >= 1
    ensures |g| == |r|
  {
    [[c] + r[0]] + r[1..]
  }

  lemma GlueConcat(c: char, r: seq<string>, more: seq<string>)
    requires |r| >= 1
    ensures Glue(c, r + more) == Glue(c, r) + more
  {
  }

  /** Walk `cs` from the directory `dir`. */
  function Walk(dir: seq<string>, cs: seq<string>): seq<string>
    decreases |cs|
  {
    if cs == [] then dir
    else if cs[0] == "" || cs[0] == "." then Walk(dir, cs[1..])
    else if cs[0] == ".." then Walk(if dir == [] then [] else dir[..|dir| - 1], cs[1..])
    else Walk(dir + [cs[0]], cs[1..])
  }

  /** The directory elements a rooted path names. */
  function Resolve(path: string): seq<string> {
    Walk([], Split(path))
  }

  function Unparse(cs: seq<string>): string {
    if cs == [] then "/"
    else if |cs| == 1 then "/" + cs[0]
    else Unparse(cs[..|cs| - 1]) + "/" + cs[|cs| - 1]
  }

  /** filepath.Join of a rooted path and one more element. */
  function Join(base: string, element: string): string {
    Unparse(Resolve(base + "/" + element))
  }

  /** An element that names a directory entry. */
  predicate Plain(c: string) {
    c != "" && c != "." && c != ".." && '/' !in c
  }

  lemma {:induction false} SplitConcat(a: string, b: string)
    ensures Split(a + "/" + b) == Split(a) + Split(b)
  {
    var s := a + "/" + b;
    if a == "" {
      assert s[0] == '/' && s[1..] == b;
    } else {
      assert s[0] == a[0] && s[1..] == a[1..] + "/" + b;
      SplitConcat(a[1..], b);
      if a[0] == '/' {
        assert [""] + (Split(a[1..]) + Split(b)) == ([""] + Split(a[1..])) + Split(b);
      } else {
        GlueConcat(a[0], Split(a[1..]), Split(b));
      }
    }
  }

  lemma {:induction false} SplitPlain(c: string)
    requires '/' !in c
    ensures Split(c) == [c]
  {
    if c != "" {
      assert c[0] != '/' && forall x :: x in c[1..] ==> x in c;
      SplitPlain(c[1..]);
      assert [c[0]] + c[1..] == c;
    }
  }

  lemma {:induction false} WalkConcat(dir: seq<string>, xs: seq<string>, ys: seq<string>)
    ensures Walk(dir, xs + ys) == Walk(Walk(dir, xs), ys)
    decreases |xs|
  {
    if xs == [] {
      assert xs + ys == ys;
    } else {
      assert (xs + ys)[0] == xs[0] && (xs + ys)[1..] == xs[1..] + ys;
      if xs[0] == "" || xs[0] == "." {
        WalkConcat(dir, xs[1..], ys);
      } else if xs[0] == ".." {
        WalkConcat(if dir == [] then [] else dir[..|dir| - 1], xs[1..], ys);
      } else {
        WalkConcat(dir + [xs[0]], xs[1..], ys);
      }
    }
  }

  lemma {:induction false} WalkIsPlain(dir: seq<string>, cs: seq<string>)
    requires forall c :: c in dir ==> Plain(c)
    requires forall c :: c in cs ==> '/' !in c
    ensures forall c :: c in Walk(dir, cs) ==> Plain(c)
    decreases |cs|
  {
    if cs != [] {
      assert forall c :: c in cs[1..] ==> c in cs;
      if cs[0] == "" || cs[0] == "." {
        WalkIsPlain(dir, cs[1..]);
      } else if cs[0] == ".." {
        WalkIsPlain(if dir == [] then [] else dir[..|dir| - 1], cs[1..]);
      } else {
        WalkIsPlain(dir + [cs[0]], cs[1..]);
      }
    }
  }

  lemma {:induction false} SplitHasNoSlash(s: string)
    ensures forall c :: c in Split(s) ==> '/' !in c
  {
    if s != "" {
      SplitHasNoSlash(s[1..]);
    }
  }

  lemma OneMoreElement(base: string, last: string)
    requires Plain(last)
    ensures Resolve(base + "/" + last) == Resolve(base) + [last]
  {
    SplitConcat(base, last);
    SplitPlain(last);
    WalkConcat([], Split(base), [last]);
    assert Walk(Resolve(base) + [last], []) == Resolve(base) + [last];
  }

  /** Reading a written path back. */
  lemma {:induction false} ResolveUnparse(cs: seq<string>)
    requires forall c :: c in cs ==> Plain(c)
    ensures Resolve(Unparse(cs)) == cs
  {
    if cs == [] {
      assert Split("/") == [""] + Split("");
      assert Resolve("/") == Walk([], ["", ""]) == Walk([], [""]);
    } else {
      var dir, last := cs[..|cs| - 1], cs[|cs| - 1];
      assert last in cs && forall c :: c in dir ==> c in cs;
      SplitPlain(last);
      var base := if |cs| == 1 then "" else Unparse(dir);
      assert Unparse(cs) == base + "/" + last;
      if |cs| > 1 {
        ResolveUnparse(dir);
      }
      OneMoreElement(base, last);
      assert cs == dir + [last];
    }
  }

  /** Joining walks on from the directory the base names. */
  lemma JoinWalks(base: string, element: string)
    ensures Resolve(Join(base, element)) == Walk(Resolve(base), Split(element))
  {
    var path := base + "/" + element;
    SplitConcat(base, element);
    WalkConcat([], Split(base), Split(element));
    SplitHasNoSlash(path);
    WalkIsPlain([], Split(path));
    ResolveUnparse(Resolve(path));
  }

  /** Its result is canonical: the same text for the same place, and only for that. */
  lemma JoinIsCanonical(a: string, x: string, b: string, y: string)
    ensures Join(a, x) == Join(b, y) <==> Walk(Resolve(a), Split(x)) == Walk(Resolve(b), Split(y))
  {
    JoinWalks(a, x);
    JoinWalks(b, y);
    AppendWalks(a, x);
    AppendWalks(b, y);
  }

  /** Appending to a path that ends in a slash walks on as well. */
  lemma AppendWalks(base: string, element: string)
    ensures Resolve(base + "/" + element) == Walk(Resolve(base), Split(element))
  {
    SplitConcat(base, element);
    WalkConcat([], Split(base), Split(element));
  }

  /** The walk never leaves the directory it starts in, `depth` levels up included. */
  predicate Stays(depth: nat, cs: seq<string>)
    decreases |cs|
  {
    if cs == [] then true
    else if cs[0] == "" || cs[0] == "." then Stays(depth, cs[1..])
    else if cs[0] == ".." then depth > 0 && Stays(depth - 1, cs[1..])
    else Stays(depth + 1, cs[1..])
  }

  /** The directory `k` levels above `dir`. */
  function Up(dir: seq<string>, k: nat): seq<string> {
    if k <= |dir| then dir[..|dir| - k] else []
  }

  /** A walk as the number of levels it climbs and what it then descends to, after it has
      climbed `k` levels and descended to `below`. */
  function Normal(k: nat, below: seq<string>, cs: seq<string>): (nat, seq<string>)
    decreases |cs|
  {
    if cs == [] then (k, below)
    else if cs[0] == "" || cs[0] == "." then Normal(k, below, cs[1..])
    else if cs[0] != ".." then Normal(k, below + [cs[0]], cs[1..])
    else if below == [] then Normal(k + 1, [], cs[1..])
    else Normal(k, below[..|below| - 1], cs[1..])
  }

  /** The two numbers say where the walk ends, whatever directory it starts in. */
  lemma {:induction false} WalkIsNormal(dir: seq<string>, k: nat, below: seq<string>, cs: seq<string>)
    ensures var n := Normal(k, below, cs); Walk(Up(dir, k) + below, cs) == Up(dir, n.0) + n.1
    decreases |cs|
  {
    if cs != [] {
      var at := Up(dir, k);
      if cs[0] == "" || cs[0] == "." {
        WalkIsNormal(dir, k, below, cs[1..]);
      } else if cs[0] != ".." {
        assert (at + below) + [cs[0]] == at + (below + [cs[0]]);
        WalkIsNormal(dir, k, below + [cs[0]], cs[1..]);
      } else if below == [] {
        assert at + below == at && Up(dir, k + 1) + [] == (if at == [] then [] else at[..|at| - 1]);
        WalkIsNormal(dir, k + 1, [], cs[1..]);
      } else {
        assert (at + below)[..|at + below| - 1] == at + below[..|below| - 1];
        WalkIsNormal(dir, k, below[..|below| - 1], cs[1..]);
      }
    }
  }

  /** It climbs exactly if it does not stay. */
  lemma {:induction false} ClimbingMeansLeaving(k: nat, below: seq<string>, cs: seq<string>)
    ensures Normal(k, below, cs).0 >= k && (Normal(k, below, cs).0 == k <==> Stays(|below|, cs))
    decreases |cs|
  {
    if cs != [] {
      if cs[0] == "" || cs[0] == "." {
        ClimbingMeansLeaving(k, below, cs[1..]);
      } else if cs[0] != ".." {
        ClimbingMeansLeaving(k, below + [cs[0]], cs[1..]);
      } else if below == [] {
        ClimbingMeansLeaving(k + 1, [], cs[1..]);
      } else {
        ClimbingMeansLeaving(k, below[..|below| - 1], cs[1..]);
      }
    }
  }

  /** How many levels a relative path climbs, and what it descends to from there. */
  function Climbs(path: string): nat {
    Normal(0, [], Split(path)).0
  }

  function Descends(path: string): seq<string> {
    Normal(0, [], Split(path)).1
  }

  lemma RelativeWalk(dir: seq<string>, path: string)
    ensures Walk(dir, Split(path)) == Up(dir, Climbs(path)) + Descends(path)
    ensures Climbs(path) == 0 <==> Stays(0, Split(path))
    ensures Climbs(path) == 0 ==> Descends(path) == Walk([], Split(path))
  {
    WalkIsNormal(dir, 0, [], Split(path));
    WalkIsNormal([], 0, [], Split(path));
    ClimbingMeansLeaving(0, [], Split(path));
    assert Up(dir, 0) + [] == dir && Up([], 0) + [] == [];
  }
}
