/** Go's `path/filepath` on a Unix host (separator '/'), modelled on the list of
    components that `filepath.Clean` produces. */
module GoPaths {
  import opened Wrappers
  import opened GoStrings

  /** A cleaned path: whether it starts at the root, and its components. */
  datatype CleanPath = CleanPath(rooted: bool, comps: seq<string>)

  /** What `filepath.Clean` guarantees of the components it keeps: no empty or
      "." component, ".." only in a leading run and never under the root. */
  predicate WellFormed(p: CleanPath) {
    (forall i :: 0 <= i < |p.comps| ==> p.comps[i] != "" && p.comps[i] != "." && '/' !in p.comps[i])
    && (forall i, j :: 0 <= i < j < |p.comps| && p.comps[j] == ".." ==> p.comps[i] == "..")
    && (p.rooted ==> forall i :: 0 <= i < |p.comps| ==> p.comps[i] != "..")
  }

  /** One element of the lexical walk in `filepath.Clean`. */
  function Step(rooted: bool, out: seq<string>, e: string): seq<string> {
    if e == "" || e == "." then out
    else if e == ".." then
      (if |out| > 0 && out[|out| - 1] != ".." then out[..|out| - 1]
       else if rooted then out
       else out + [".."])
    else out + [e]
  }

  function Walk(rooted: bool, out: seq<string>, elems: seq<string>): (r: seq<string>)
    decreases |elems|
  {
    if elems == [] then out else Walk(rooted, Step(rooted, out, elems[0]), elems[1..])
  }

  lemma {:induction false} WalkWellFormed(rooted: bool, out: seq<string>, elems: seq<string>)
    requires WellFormed(CleanPath(rooted, out))
    requires forall k :: 0 <= k < |elems| ==> '/' !in elems[k]
    ensures WellFormed(CleanPath(rooted, Walk(rooted, out, elems)))
    decreases |elems|
  {
    if elems != [] {
      var next := Step(rooted, out, elems[0]);
      assert WellFormed(CleanPath(rooted, next));
      WalkWellFormed(rooted, next, elems[1..]);
    }
  }

  /** The cleaned form of `p`. */
  function Parse(p: string): (r: CleanPath)
    ensures WellFormed(r)
    ensures r.rooted <==> HasPrefix(p, "/")
  {
    var rooted := |p| > 0 && p[0] == '/';
    WalkWellFormed(rooted, [], Split(p, '/'));
    CleanPath(rooted, Walk(rooted, [], Split(p, '/')))
  }

  /** The text of a cleaned path. */
  function Render(p: CleanPath): (r: string)
    requires WellFormed(p)
    ensures r != []
    ensures HasPrefix(r, "/") <==> p.rooted
  {
    JoinStartsWithFirst(p.comps);
    var body := (if p.rooted then "/" else "") + Join(p.comps, "/");
    if body == "" then
      assert !p.rooted && "."[0] != "/"[0];
      "."
    else body
  }

  /** `filepath.Clean`. */
  function Clean(p: string): (r: string)
    ensures r != []
    ensures HasPrefix(r, "/") <==> HasPrefix(p, "/")
  {
    Render(Parse(p))
  }

  lemma JoinStartsWithFirst(parts: seq<string>)
    requires forall i :: 0 <= i < |parts| ==> parts[i] != "" && '/' !in parts[i]
    ensures parts != [] ==> HasPrefix(Join(parts, "/"), parts[0])
    ensures parts == [] <==> Join(parts, "/") == ""
    ensures !HasPrefix(Join(parts, "/"), "/")
  {
    if |parts| > 1 {
      assert Join(parts, "/") == parts[0] + "/" + Join(parts[1..], "/");
    }
  }

  /** `filepath.Join(a, b)`: empty elements are ignored, the rest cleaned. */
  function Join2(a: string, b: string): (r: string)
    ensures a == "" && b == "" ==> r == ""
    ensures a == "" && b != "" ==> r == Clean(b)
    ensures a != "" ==> r == Clean(a + "/" + b)
  {
    if a != "" then Clean(a + "/" + b) else if b != "" then Clean(b) else ""
  }

  /** `filepath.Join` of several elements. */
  function JoinAll(elems: seq<string>): (r: string)
    ensures (forall i :: 0 <= i < |elems| ==> elems[i] == "") ==> r == ""
  {
    if elems == [] then ""
    else if elems[0] != "" then Clean(GoStrings.Join(elems, "/"))
    else JoinAll(elems[1..])
  }

  /** `filepath.IsAbs`. */
  predicate IsAbs(p: string) { HasPrefix(p, "/") }

  /** `filepath.Abs`, with the working directory passed in. */
  function Abs(p: string, cwd: string): (r: string)
    ensures IsAbs(p) ==> r == Clean(p)
    ensures IsAbs(cwd) ==> IsAbs(r) && Clean(r) == r
  {
    if IsAbs(p) then
      CleanIdempotent(p);
      Clean(p)
    else if IsAbs(cwd) then
      assert (cwd + "/" + p)[..1] == cwd[..1];
      CleanIdempotent(cwd + "/" + p);
      Join2(cwd, p)
    else Join2(cwd, p)
  }

  function StripTrailingSlashes(p: string): (r: string)
    ensures r == [] || r[|r| - 1] != '/'
    ensures HasPrefix(p, r)
  {
    if p != [] && p[|p| - 1] == '/' then StripTrailingSlashes(p[..|p| - 1]) else p
  }

  /** `filepath.Base`: the last element, "." for the empty path, "/" for the root. */
  function Base(p: string): (r: string)
    ensures p == "" ==> r == "."
    ensures '/' !in p && p != "" ==> r == p
    ensures r != ""
  {
    if p == "" then "."
    else
      var t := StripTrailingSlashes(p);
      if t == "" then "/"
      else
        var parts := Split(t, '/');
        SplitLast(t, '/');
        parts[|parts| - 1]
  }

  lemma {:induction false} SplitLast(s: string, c: char)
    requires s != [] && s[|s| - 1] != c
    ensures Split(s, c)[|Split(s, c)| - 1] != ""
    ensures c !in s ==> Split(s, c) == [s]
  {
    SplitSingle(s, c);
    if |s| > 1 {
      SplitLast(s[1..], c);
    }
  }

  /** `filepath.ToSlash` on a Unix host: the separator already is '/'. */
  function ToSlash(p: string): (r: string)
    ensures r == p
  {
    p
  }

  /** Length of the longest common prefix of two component lists. */
  function CommonLen(a: seq<string>, b: seq<string>): (k: nat)
    ensures k <= |a| && k <= |b| && a[..k] == b[..k]
    ensures k == |a| || k == |b| || a[k] != b[k]
  {
    if a == [] || b == [] || a[0] != b[0] then 0
    else
      var k := CommonLen(a[1..], b[1..]);
      assert a[..k + 1] == [a[0]] + a[1..][..k];
      assert b[..k + 1] == [b[0]] + b[1..][..k];
      k + 1
  }

  function Repeat(s: string, n: nat): seq<string>
    ensures |Repeat(s, n)| == n && forall i :: 0 <= i < n ==> Repeat(s, n)[i] == s
  {
    if n == 0 then [] else [s] + Repeat(s, n - 1)
  }

  /** `filepath.Rel` on cleaned paths: the walk from `base` to `targ`, made of
      ".." steps out of the part of `base` not shared with `targ`, then the
      rest of `targ`. */
  function RelClean(base: CleanPath, targ: CleanPath): (r: Result<string>)
    ensures base == targ ==> r == Ok(".")
    ensures base.rooted != targ.rooted ==> r.Err?
  {
    if base == targ then Ok(".")
    else if base.rooted != targ.rooted then Err("Rel: can't make path relative to base")
    else
      var b, t := base.comps, targ.comps;
      var k := CommonLen(b, t);
      if k < |b| && b[k] == ".." then Err("Rel: can't make path relative to base")
      else if k < |b| then
        Ok(GoStrings.Join(Repeat("..", |b| - k) + t[k..], "/"))
      else
        Ok(GoStrings.Join(t[k..], "/"))
  }

  /** `filepath.Rel(base, targ)`. */
  function Rel(base: string, targ: string): Result<string> {
    RelClean(Parse(base), Parse(targ))
  }

  /** Walking the components of an already clean path keeps all of them. */
  lemma {:induction false} WalkClean(rooted: bool, out: seq<string>, rest: seq<string>)
    requires WellFormed(CleanPath(rooted, out + rest))
    ensures Walk(rooted, out, rest) == out + rest
    decreases |rest|
  {
    if rest != [] {
      var e := rest[0];
      assert (out + rest)[|out|] == e;
      if e == ".." {
        assert forall i :: 0 <= i < |out| ==> (out + rest)[i] == out[i];
      }
      assert Step(rooted, out, e) == out + [e];
      assert out + rest == (out + [e]) + rest[1..];
      WalkClean(rooted, out + [e], rest[1..]);
    }
  }

  /** `filepath.Clean` is idempotent: the text of a cleaned path parses back to it. */
  lemma ParseRender(c: CleanPath)
    requires WellFormed(c)
    ensures Parse(Render(c)) == c
  {
    var j := Join(c.comps, "/");
    JoinStartsWithFirst(c.comps);
    var x := Render(c);
    if c.comps == [] {
      if c.rooted {
        assert x == "/" && Split(x, '/') == [""] + Split("", '/');
      } else {
        SplitSingle(".", '/');
        assert x == "." && Split(x, '/') == ["."];
      }
    } else {
      SplitJoin(c.comps, '/');
      WalkClean(c.rooted, [], c.comps);
      assert [] + c.comps == c.comps;
      if c.rooted {
        assert x == [] + ['/'] + j;
        SplitAppend([], j, '/');
        assert Walk(true, [], Split(x, '/')) == Walk(true, Step(true, [], ""), Split(j, '/'));
      } else {
        assert x == j && x[0] == c.comps[0][0];
      }
    }
  }

  lemma CleanIdempotent(p: string)
    ensures Parse(Clean(p)) == Parse(p)
    ensures Clean(Clean(p)) == Clean(p)
  {
    ParseRender(Parse(p));
  }

  /** Walking two lists of elements is walking the first, then the second. */
  lemma {:induction false} WalkAppend(rooted: bool, out: seq<string>, a: seq<string>, b: seq<string>)
    ensures Walk(rooted, out, a + b) == Walk(rooted, Walk(rooted, out, a), b)
    decreases |a|
  {
    if a != [] {
      assert (a + b)[0] == a[0] && (a + b)[1..] == a[1..] + b;
      WalkAppend(rooted, Step(rooted, out, a[0]), a[1..], b);
    } else {
      assert a + b == b;
    }
  }

  /** A doubled separator in the middle of a path is cleaned away. */
  lemma ExtraSeparator(a: string, x: string)
    requires a != ""
    ensures Clean(a + "/" + ("/" + x)) == Clean(a + "/" + x)
  {
    var rooted := a[0] == '/';
    assert (a + "/" + ("/" + x))[0] == a[0] && (a + "/" + x)[0] == a[0];
    SplitAppend(a, "/" + x, '/');
    SplitAppend(a, x, '/');
    assert "/" + x == [] + ['/'] + x;
    SplitAppend([], x, '/');
    assert Split("/" + x, '/') == [""] + Split(x, '/');
    var sa := Split(a, '/');
    WalkAppend(rooted, [], sa, [""] + Split(x, '/'));
    WalkAppend(rooted, [], sa, Split(x, '/'));
    var w := Walk(rooted, [], sa);
    assert Walk(rooted, w, [""] + Split(x, '/')) == Walk(rooted, w, Split(x, '/'));
  }

  /** A run of `n` separators. */
  function Separators(n: nat): (r: string)
    ensures |r| == n && forall i :: 0 <= i < n ==> r[i] == '/'
  {
    if n == 0 then "" else "/" + Separators(n - 1)
  }

  /** `filepath.Join` ignores any run of separators at the head of its second element. */
  lemma {:induction false} JoinIgnoresLeadingSeparators(a: string, n: nat, x: string)
    requires a != ""
    ensures Join2(a, Separators(n) + x) == Join2(a, x)
    decreases n
  {
    if n > 0 {
      var s := Separators(n - 1) + x;
      assert Separators(n) + x == "/" + s;
      ExtraSeparator(a, s);
      JoinIgnoresLeadingSeparators(a, n - 1, x);
    } else {
      assert Separators(0) + x == x;
    }
  }

  /** Every text is a run of separators followed by a text that does not start
      with one. */
  lemma {:induction false} LeadingSeparators(s: string) returns (n: nat, x: string)
    ensures s == Separators(n) + x && (x == [] || x[0] != '/')
    decreases |s|
  {
    if s != [] && s[0] == '/' {
      var m, y := LeadingSeparators(s[1..]);
      n, x := m + 1, y;
      assert s == "/" + s[1..];
    } else {
      n, x := 0, s;
      assert Separators(0) + s == s;
    }
  }
}
