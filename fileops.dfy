/** `~` expansion of the `fileops` package, used to turn a stored link such as
    `~/.bashrc` back into a path on the machine. The home directory is passed in
    as the result `os.UserHomeDir` would give. */
module FileOps {
  import opened Wrappers
  import opened GoStrings
  import GoPaths

  /** The characters stripped after the `~`: both separator spellings. */
  const PathSeparators: string := "/\\"

  /** `strings.TrimLeft(s, cutset)`: the longest suffix of `s` whose first character
      is not in `cutset`. */
  function TrimLeft(s: string, cutset: string): (r: string)
    ensures |r| <= |s| && r == s[|s| - |r|..]
    ensures r == [] || r[0] !in cutset
    ensures forall i :: 0 <= i < |s| - |r| ==> s[i] in cutset
    decreases |s|
  {
    if s != [] && s[0] in cutset then TrimLeft(s[1..], cutset) else s
  }

  /** A run of cut characters before a text that does not start with one is
      exactly what is trimmed. */
  lemma {:induction false} TrimLeftRun(run: string, rest: string, cutset: string)
    requires forall i :: 0 <= i < |run| ==> run[i] in cutset
    requires rest == [] || rest[0] !in cutset
    ensures TrimLeft(run + rest, cutset) == rest
    decreases |run|
  {
    if run == [] {
      assert run + rest == rest;
    } else {
      assert (run + rest)[1..] == run[1..] + rest;
      TrimLeftRun(run[1..], rest, cutset);
    }
  }

  /** `ExpandPath`: the empty path is an error; a path not starting with `~` is kept;
      `~` alone is the home directory; otherwise the separators after `~` are
      dropped and the rest joined under the home directory. */
  function ExpandPath(path: string, home: Result<string>): (r: Result<string>)
    ensures path == "" ==> r == Err("could not expand empty path")
    ensures path != "" && path[0] == '~' && home.Err? ==> r == Err(home.msg)
    ensures path == "~" && home.Ok? ==> r == Ok(home.value)
  {
    if |path| == 0 then Err("could not expand empty path")
    else if path[0] == '~' then
      if home.Err? then Err(home.msg)
      else if |path| == 1 then Ok(home.value)
      else Ok(GoPaths.Join2(home.value, TrimLeft(path[1..], PathSeparators)))
    else Ok(path)
  }

  /** A path that does not start with `~` comes back unchanged. */
  lemma ExpandKeepsPlainPath(path: string, home: Result<string>)
    requires path != "" && path[0] != '~'
    ensures ExpandPath(path, home) == Ok(path)
  {
  }

  /** `~`, then any run of `/` and `\`, then a rest: the rest joined under the home
      directory; an empty rest gives the cleaned home directory. */
  lemma ExpandTildeSeparators(home: string, run: string, rest: string)
    requires forall i :: 0 <= i < |run| ==> run[i] in PathSeparators
    requires rest == [] || rest[0] !in PathSeparators
    requires run + rest != ""
    ensures ExpandPath("~" + run + rest, Ok(home)) == Ok(GoPaths.Join2(home, rest))
  {
    var path := "~" + run + rest;
    assert path[1..] == run + rest;
    TrimLeftRun(run, rest, PathSeparators);
  }

  /** With an absolute home directory an expanded path no longer starts with `~`,
      so expanding it again changes nothing. */
  lemma ExpandIdempotent(path: string, home: string)
    requires GoPaths.IsAbs(home)
    requires ExpandPath(path, Ok(home)).Ok?
    ensures ExpandPath(ExpandPath(path, Ok(home)).value, Ok(home)) == ExpandPath(path, Ok(home))
  {
    var e := ExpandPath(path, Ok(home)).value;
    if path[0] == '~' {
      if |path| > 1 {
        var rest := TrimLeft(path[1..], PathSeparators);
        assert (home + "/" + rest)[..1] == home[..1];
      }
      assert e[..1] == "/";
    }
    assert e[0] != '~';
  }
}
