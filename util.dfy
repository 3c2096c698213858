/** The `util` package: its own `~` expansion, and the linkings file that records,
    for every file kept in the repository, where on the machine it is linked to
    (stored with the home directory written as `~`). */
module Util {
  import opened Wrappers
  import opened GoStrings
  import GoPaths
  import FileOps

  // ------------------------------------------------------------------ ExpandPath

  /** `ExpandPath` of the `util` package: the separators after `~` are stripped one
      at a time. It agrees with the `fileops` expansion on every input. */
  method ExpandPath(path: string, home: Result<string>) returns (r: Result<string>)
    ensures r == FileOps.ExpandPath(path, home)
  {
    if |path| == 0 {
      return Err("could not expand empty path");
    }
    if path[0] == '~' {
      if home.Err? {
        return Err(home.msg);
      }
      if |path| == 1 {
        return Ok(home.value);
      }
      var rest := path[1..];
      while |rest| > 0 && (rest[0] == '/' || rest[0] == '\\')
        invariant FileOps.TrimLeft(rest, FileOps.PathSeparators) == FileOps.TrimLeft(path[1..], FileOps.PathSeparators)
      {
        rest := rest[1..];
      }
      return Ok(GoPaths.Join2(home.value, rest));
    }
    return Ok(path);
  }

  // ------------------------------------------------------------------- linkings

  /** What `linkings.json` in the repository holds: nothing, a file that cannot be
      read, one that does not decode, or the decoded name-to-link map. */
  datatype LinkFile = Missing | Unreadable(readErr: string) | Undecodable(decodeErr: string) | Stored(links: map<string, string>)

  /** `GetLinkings` on a given state of the file. */
  function Loaded(file: LinkFile): (r: Result<map<string, string>>)
    ensures file.Missing? ==> r == Ok(map[])
    ensures file.Stored? ==> r == Ok(file.links)
    ensures r.Err? <==> file.Unreadable? || file.Undecodable?
  {
    match file
    case Missing => Ok(map[])
    case Unreadable(e) => Err("error reading links file: " + e)
    case Undecodable(e) => Err("error unmarshalling links: " + e)
    case Stored(links) => Ok(links)
  }

  /** The linkings file of one repository. Saving always writes a decodable map;
      staging the change is not part of this model. */
  class LinkingsStore {
    var file: LinkFile

    constructor (file: LinkFile)
      ensures this.file == file
    {
      this.file := file;
    }

    /** `GetLinkings`: an absent file is an empty map. */
    function GetLinkings(): (r: Result<map<string, string>>)
      reads this
      ensures r == Loaded(file)
    {
      Loaded(file)
    }

    /** `SaveLinkings`. */
    method SaveLinkings(links: map<string, string>)
      modifies this
      ensures file == Stored(links)
    {
      file := Stored(links);
    }

    /** `AddLinking`: records `link` for `name`, replacing any earlier link, and
      keeps every other entry. */
    method AddLinking(name: string, link: string) returns (err: Option<string>)
      modifies this
      ensures old(GetLinkings()).Err? ==>
        err == Some("error getting links: " + old(GetLinkings()).msg) && file == old(file)
      ensures old(GetLinkings()).Ok? ==>
        err.None? && GetLinkings() == Ok(old(GetLinkings()).value[name := link])
    {
      var links := GetLinkings();
      if links.Err? {
        return Some("error getting links: " + links.msg);
      }
      SaveLinkings(links.value[name := link]);
      return None;
    }

    /** `RemoveLinking`: drops `name` if present (an absent name is no error) and
      keeps every other entry. */
    method RemoveLinking(name: string) returns (err: Option<string>)
      modifies this
      ensures old(GetLinkings()).Err? ==>
        err == Some("error getting links for removal: " + old(GetLinkings()).msg) && file == old(file)
      ensures old(GetLinkings()).Ok? ==>
        err.None? && GetLinkings() == Ok(old(GetLinkings()).value - {name})
    {
      var links := GetLinkings();
      if links.Err? {
        return Some("error getting links for removal: " + links.msg);
      }
      SaveLinkings(links.value - {name});
      return None;
    }
  }

  /** Removing a name just added leaves the other entries as they were. */
  lemma RemoveUndoesAdd(links: map<string, string>, name: string, link: string)
    ensures links[name := link] - {name} == links - {name}
    ensures name !in links ==> links[name := link] - {name} == links
  {
  }

  // -------------------------------------------------------------- BuildLinkPath

  /** `BuildLinkPath` as written: the absolute path, with a leading copy of the home
      directory text replaced by `~`, in slash form. The test is on text, not on
      path components. */
  function BuildLinkPathAsWritten(file: string, cwd: string, home: Result<string>): (r: Result<string>)
    ensures home.Err? ==> r == Err("error getting home directory: " + home.msg)
  {
    if home.Err? then Err("error getting home directory: " + home.msg)
    else
      var abs := GoPaths.Abs(file, cwd);
      var cut := if HasPrefix(abs, home.value) then "~" + abs[|home.value|..] else abs;
      Ok(GoPaths.ToSlash(cut))
  }

  /** `abs` is the home directory or lies below it, judged by whole components. */
  predicate UnderHome(abs: string, home: string) {
    abs == home || HasPrefix(abs, home + "/")
  }

  /** `BuildLinkPath` with the home directory matched by whole components. */
  function BuildLinkPath(file: string, cwd: string, home: Result<string>): (r: Result<string>)
    ensures home.Err? ==> r == Err("error getting home directory: " + home.msg)
    ensures home.Ok? && !UnderHome(GoPaths.Abs(file, cwd), home.value) ==> r == Ok(GoPaths.Abs(file, cwd))
  {
    if home.Err? then Err("error getting home directory: " + home.msg)
    else
      var abs := GoPaths.Abs(file, cwd);
      var cut := if UnderHome(abs, home.value) then "~" + abs[|home.value|..] else abs;
      Ok(GoPaths.ToSlash(cut))
  }

  /** Where the two differ: the first component after the home directory text must
      continue the home directory's last component. */
  lemma BuildLinkPathAgrees(file: string, cwd: string, home: string)
    requires var abs := GoPaths.Abs(file, cwd);
      !HasPrefix(abs, home) || UnderHome(abs, home)
    ensures BuildLinkPathAsWritten(file, cwd, Ok(home)) == BuildLinkPath(file, cwd, Ok(home))
  {
  }

  /** Expanding `~/rest` against a home directory: the separators after `~` are
      dropped and the rest is joined under the home directory. */
  lemma ExpandBelowHome(home: string, rest: string)
    requires home != ""
    requires '\\' !in rest
    ensures FileOps.ExpandPath("~" + ("/" + rest), Ok(home)) == Ok(GoPaths.Clean(home + "/" + rest))
  {
    var link := "~" + ("/" + rest);
    assert link[1..] == "/" + rest;
    var n, x := GoPaths.LeadingSeparators("/" + rest);
    assert x == [] || x[0] != '\\' by {
      if x != [] {
        assert ("/" + rest)[n] == x[0];
        assert x[0] == rest[n - 1];
      }
    }
    FileOps.TrimLeftRun(GoPaths.Separators(n), x, FileOps.PathSeparators);
    GoPaths.JoinIgnoresLeadingSeparators(home, n, x);
    GoPaths.ExtraSeparator(home, rest);
  }

  /** A link built from a path below a clean absolute home directory expands back
      to that path, provided the path holds no backslash (which the expansion would
      take for a separator). */
  lemma LinkPathRoundTrip(file: string, cwd: string, home: string)
    requires GoPaths.IsAbs(cwd) && GoPaths.IsAbs(home) && GoPaths.Clean(home) == home
    requires '\\' !in GoPaths.Abs(file, cwd)
    ensures FileOps.ExpandPath(BuildLinkPath(file, cwd, Ok(home)).value, Ok(home)) == Ok(GoPaths.Abs(file, cwd))
  {
    var abs := GoPaths.Abs(file, cwd);
    var link := BuildLinkPath(file, cwd, Ok(home)).value;
    if abs == home {
      assert link == "~";
    } else if HasPrefix(abs, home + "/") {
      var rest := abs[|home| + 1..];
      assert abs == home + "/" + rest;
      assert link == "~" + ("/" + rest);
      ExpandBelowHome(home, rest);
    } else {
      assert link == abs && link[0] == '/';
    }
  }

  /** Path components that `Clean` keeps as they are and that hold no separator of
      either kind. */
  predicate PlainComponents(comps: seq<string>) {
    forall i :: 0 <= i < |comps| ==>
      comps[i] != "" && comps[i] != "." && comps[i] != ".." && '/' !in comps[i] && '\\' !in comps[i]
  }

  /** A rooted path of plain components is its own cleaned form. */
  lemma CleanPlain(comps: seq<string>, p: string)
    requires PlainComponents(comps)
    requires p == "/" + Join(comps, "/")
    ensures GoPaths.Clean(p) == p
  {
    var c := GoPaths.CleanPath(true, comps);
    assert GoPaths.WellFormed(c);
    assert GoPaths.Render(c) == p;
    GoPaths.ParseRender(c);
  }

  /** The rooted path of `pre` followed by `last`. */
  lemma RootedSnoc(pre: seq<string>, last: string)
    ensures "/" + Join(pre + [last], "/") == if pre == [] then "/" + last else "/" + Join(pre, "/") + "/" + last
  {
    if pre != [] {
      JoinSnoc(pre, last, "/");
    }
  }

  /** The rooted path of `pre` followed by `a` and `b` extends that of `pre`
      followed by `a` by a separator and `b`. */
  lemma RootedSnoc2(pre: seq<string>, a: string, b: string)
    ensures "/" + Join(pre + [a, b], "/") == "/" + Join(pre + [a], "/") + ("/" + b)
  {
    var p := pre + [a];
    JoinSnoc(p, b, "/");
    assert p + [b] == pre + [a, b];
  }

  /** The path of `pre`, `uv`, `x` is the path of `pre`, `u` with `v/x` appended. */
  lemma MisroutedFileText(pre: seq<string>, u: string, v: string, x: string)
    ensures "/" + Join(pre + [u + v, x], "/") == "/" + Join(pre + [u], "/") + (v + ("/" + x))
  {
    RootedSnoc2(pre, u + v, x);
    RootedSnoc(pre, u);
    RootedSnoc(pre, u + v);
  }

  /** The path of `pre`, `u`, `v`, `x` is the path of `pre`, `u` with `/v/x`
      appended. */
  lemma ExpandedText(pre: seq<string>, u: string, v: string, x: string)
    ensures "/" + Join(pre + [u, v, x], "/") == "/" + Join(pre + [u], "/") + ("/" + (v + ("/" + x)))
  {
    var p := pre + [u];
    var q := p + [v];
    JoinSnoc(p, v, "/");
    JoinSnoc(q, x, "/");
    assert q + [x] == pre + [u, v, x];
  }

  /** The file `home/../uv/x` next to the home directory is already clean. */
  lemma MisroutedFileClean(pre: seq<string>, u: string, v: string, x: string)
    requires PlainComponents(pre + [u + v, x])
    ensures var file := "/" + Join(pre + [u], "/") + (v + ("/" + x)); GoPaths.Clean(file) == file
  {
    MisroutedFileText(pre, u, v, x);
    CleanPlain(pre + [u + v, x], "/" + Join(pre + [u], "/") + (v + ("/" + x)));
  }

  /** A link `~rest` whose rest does not start with a separator expands to the
      cleaned join of the home directory and the rest. */
  lemma ExpandTildeComponent(home: string, rest: string)
    requires home != "" && rest != [] && rest[0] !in FileOps.PathSeparators
    ensures FileOps.ExpandPath("~" + rest, Ok(home)) == Ok(GoPaths.Clean(home + "/" + rest))
  {
    FileOps.ExpandTildeSeparators(home, [], rest);
    assert "~" + [] + rest == "~" + rest;
  }

  /** The link `~v/x` expands to `home/v/x`. */
  lemma MisroutedLinkExpanded(pre: seq<string>, u: string, v: string, x: string)
    requires PlainComponents(pre + [u, v, x])
    ensures var home := "/" + Join(pre + [u], "/");
      FileOps.ExpandPath("~" + (v + ("/" + x)), Ok(home)) == Ok(home + ("/" + (v + ("/" + x))))
  {
    var home := "/" + Join(pre + [u], "/");
    var rest := v + ("/" + x);
    var expanded := home + ("/" + rest);
    assert GoPaths.Clean(home + "/" + rest) == expanded by {
      ExpandedText(pre, u, v, x);
      CleanPlain(pre + [u, v, x], expanded);
      assert home + "/" + rest == expanded;
    }
    assert rest[0] !in FileOps.PathSeparators by {
      assert v == (pre + [u, v, x])[|pre| + 1];
    }
    ExpandTildeComponent(home, rest);
  }

  /** As written, a home directory whose last component is `u` turns a file whose
      component at that place is `u` followed by more text `v` into the link
      `~v/...`, which expands to a path one level further down inside the home
      directory: the link points at a different file (home `/h/u` and file
      `/h/u2/x` give `~2/x`, which expands to `/h/u/2/x`). Matching by whole
      components leaves that file as it is. */
  lemma LinkPathAsWrittenMisroutes(pre: seq<string>, u: string, v: string, x: string)
    requires PlainComponents(pre + [u + v, x]) && PlainComponents(pre + [u, v, x])
    ensures var home := "/" + Join(pre + [u], "/");
      var file := home + (v + ("/" + x));
      GoPaths.Abs(file, "/") == file
      && BuildLinkPathAsWritten(file, "/", Ok(home)) == Ok("~" + (v + ("/" + x)))
      && FileOps.ExpandPath("~" + (v + ("/" + x)), Ok(home)) == Ok(home + ("/" + (v + ("/" + x))))
      && home + ("/" + (v + ("/" + x))) != file
      && BuildLinkPath(file, "/", Ok(home)) == Ok(file)
  {
    var home := "/" + Join(pre + [u], "/");
    var tail := v + ("/" + x);
    var file := home + tail;
    assert GoPaths.Abs(file, "/") == file by {
      MisroutedFileClean(pre, u, v, x);
      assert file[0] == '/';
    }
    assert HasPrefix(file, home) && file[|home|..] == tail;
    assert !UnderHome(file, home) by {
      assert v == (pre + [u, v, x])[|pre| + 1];
      assert file[|home|] == v[0] != '/';
    }
    MisroutedLinkExpanded(pre, u, v, x);
  }
}
