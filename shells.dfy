/** The supported shells, their per-shell settings, shell detection from the
    environment, and the layout of a shell's directory in the repository. */
module Shells {
  import opened Wrappers
  import opened GoStrings
  import opened GoPaths
  import Templates

  datatype ShellConfig = ShellConfig(name: string, profilePath: string, extension: string, initScript: string)

  /** `SupportedShells`. */
  const SupportedShells: map<string, ShellConfig> := map[
    "bash" := ShellConfig("bash", "~/.bashrc", ".sh", "init.sh"),
    "zsh" := ShellConfig("zsh", "~/.zshrc", ".zsh", "init.zsh"),
    "fish" := ShellConfig("fish", "~/.config/fish/config.fish", ".fish", "init.fish"),
    "powershell" := ShellConfig("powershell", "$PROFILE", ".ps1", "init.ps1"),
    "posix" := ShellConfig("posix", "~/.profile", ".sh", "init.sh")
  ]

  const ShellNames: set<string> := {"bash", "zsh", "fish", "powershell", "posix"}

  /** Exactly five shells, each filed under its own name. */
  lemma SupportedShellsTable()
    ensures SupportedShells.Keys == ShellNames && |SupportedShells| == 5
    ensures forall s :: s in SupportedShells ==> SupportedShells[s].name == s
  {
  }

  lemma ShellNamesListed(shell: string)
    ensures shell in ShellNames <==>
      shell == "bash" || shell == "zsh" || shell == "fish" || shell == "powershell" || shell == "posix"
  {
  }

  /** The file extension configured for each shell. */
  lemma ShellExtensions()
    ensures SupportedShells["bash"].extension == ".sh" && SupportedShells["zsh"].extension == ".zsh"
    ensures SupportedShells["fish"].extension == ".fish" && SupportedShells["powershell"].extension == ".ps1"
    ensures SupportedShells["posix"].extension == ".sh"
  {
  }

  /** `GetShellConfig`. */
  function GetShellConfig(shell: string): (r: Option<ShellConfig>)
    ensures r.Some? <==> shell in ShellNames
    ensures r.Some? ==> r.value == SupportedShells[shell] && r.value.name == shell
  {
    SupportedShellsTable();
    if shell in SupportedShells then Some(SupportedShells[shell]) else None
  }

  /** `IsShellSupported`. */
  function IsShellSupported(shell: string): (r: bool)
    ensures r <==> GetShellConfig(shell).Some?
    ensures r <==> shell in ShellNames
  {
    SupportedShellsTable();
    shell in SupportedShells
  }

  /** The feature-file extension of the shell table and the one template files
      are written with agree on every supported shell but zsh (".zsh" against ".sh"). */
  lemma ExtensionTablesDisagreeOnlyForZsh(shell: string)
    requires IsShellSupported(shell)
    ensures (GetShellConfig(shell).value.extension == Templates.GetShellExtension(shell)) <==> shell != "zsh"
  {
  }

  /** `normalizeShellName`. */
  function NormalizeShellName(name: string): (r: string)
    ensures var lower := ToLower(TrimSuffix(TrimSuffix(TrimSuffix(Base(name), ".exe"), ".bat"), ".cmd"));
      (lower == "pwsh" || lower == "powershell.exe" || lower == "powershell" ==> r == "powershell")
      && (lower == "sh" || lower == "dash" ==> r == "posix")
      && (lower != "pwsh" && lower != "powershell.exe" && lower != "powershell" && lower != "sh" && lower != "dash"
          ==> r == lower)
  {
    var n := TrimSuffix(TrimSuffix(TrimSuffix(Base(name), ".exe"), ".bat"), ".cmd");
    var lower := ToLower(n);
    if lower == "pwsh" || lower == "powershell.exe" || lower == "powershell" then "powershell"
    else if lower == "sh" || lower == "dash" then "posix"
    else lower
  }

  /** The last piece of a split is what follows the last separator. */
  lemma {:induction false} SplitLastPiece(a: string, b: string, c: char)
    requires c !in b
    ensures var parts := Split(a + [c] + b, c); |parts| >= 2 && parts[|parts| - 1] == b
  {
    if a == [] {
      assert a + [c] + b == [c] + b;
      assert ([c] + b)[1..] == b;
      SplitSingle(b, c);
    } else {
      assert (a + [c] + b)[0] == a[0] && (a + [c] + b)[1..] == a[1..] + [c] + b;
      SplitLastPiece(a[1..], b, c);
    }
  }

  /** `filepath.Base` of `dir/name` is `name`. */
  lemma BaseOfChild(dir: string, name: string)
    requires name != "" && '/' !in name
    ensures Base(dir + "/" + name) == name
  {
    var p := dir + "/" + name;
    assert p[|p| - 1] == name[|name| - 1];
    assert name[|name| - 1] in name;
    assert StripTrailingSlashes(p) == p;
    SplitLastPiece(dir, name, '/');
  }

  /** A shell found through a path such as `/usr/bin/zsh` is named after the
      path's last element. */
  lemma NormalizeShellPath(dir: string, name: string)
    requires name != "" && '/' !in name
    ensures NormalizeShellName(dir + "/" + name) == NormalizeShellName(name)
  {
    BaseOfChild(dir, name);
  }

  predicate LowercaseWord(s: string) {
    s != "" && forall i :: 0 <= i < |s| ==> 'a' <= s[i] <= 'z'
  }

  /** A lower-case word has no extension to strip. */
  lemma LowercaseNoDotSuffix(s: string, suffix: string)
    requires LowercaseWord(s) && suffix != "" && suffix[0] == '.'
    ensures !HasSuffix(s, suffix)
  {
    if |suffix| <= |s| {
      assert s[|s| - |suffix|..][0] == s[|s| - |suffix|] != '.';
    }
  }

  lemma LowercaseWordUnchanged(s: string)
    requires LowercaseWord(s)
    ensures TrimSuffix(TrimSuffix(TrimSuffix(Base(s), ".exe"), ".bat"), ".cmd") == s
    ensures ToLower(s) == s
  {
    assert forall i :: 0 <= i < |s| ==> s[i] != '/';
    LowercaseNoDotSuffix(s, ".exe");
    LowercaseNoDotSuffix(s, ".bat");
    LowercaseNoDotSuffix(s, ".cmd");
  }

  lemma LowercaseNotExe(s: string)
    requires LowercaseWord(s)
    ensures s != "powershell.exe"
  {
    if |s| == 14 {
      assert s[10] != "powershell.exe"[10];
    }
  }

  /** A plain lower-case word keeps its name, except for the aliases of
      PowerShell and of the POSIX shell. */
  lemma NormalizeLowercaseWord(s: string)
    requires LowercaseWord(s)
    ensures s == "pwsh" || s == "powershell" ==> NormalizeShellName(s) == "powershell"
    ensures s == "sh" || s == "dash" ==> NormalizeShellName(s) == "posix"
    ensures s != "pwsh" && s != "powershell" && s != "sh" && s != "dash" ==> NormalizeShellName(s) == s
  {
    LowercaseWordUnchanged(s);
    LowercaseNotExe(s);
  }

  /** The supported names normalise to themselves. */
  lemma NormalizeSupportedNames(shell: string)
    requires shell in ShellNames
    ensures LowercaseWord(shell) && NormalizeShellName(shell) == shell
  {
    if shell in {"bash", "zsh", "fish"} {
      assert LowercaseWord(shell);
    } else {
      assert LowercaseWord(shell);
    }
    NormalizeLowercaseWord(shell);
  }

  /** `os.Getenv` over an environment given as a map. */
  function Getenv(env: map<string, string>, key: string): string {
    if key in env then env[key] else ""
  }

  /** The shell a non-empty `$SHELL`-style value designates, when supported. */
  function Candidate(value: string): (r: Option<string>)
    ensures r.Some? ==> IsShellSupported(r.value) && r.value == NormalizeShellName(Base(value))
    ensures r.None? ==> value == "" || !IsShellSupported(NormalizeShellName(Base(value)))
  {
    if value == "" then None
    else
      var name := NormalizeShellName(Base(value));
      if IsShellSupported(name) then Some(name) else None
  }

  /** `DetectCurrentShell`: the PowerShell marker on Windows, then `$SHELL`,
      then `$0`. */
  function DetectCurrentShell(goos: string, env: map<string, string>): (r: Result<string>)
    ensures r.Ok? ==> IsShellSupported(r.value)
    ensures goos == "windows" && Getenv(env, "POWERSHELL_DISTRIBUTION_CHANNEL") != "" ==> r == Ok("powershell")
    ensures !(goos == "windows" && Getenv(env, "POWERSHELL_DISTRIBUTION_CHANNEL") != "") ==>
      (Candidate(Getenv(env, "SHELL")).Some? ==> r == Ok(Candidate(Getenv(env, "SHELL")).value))
      && (Candidate(Getenv(env, "SHELL")).None? && Candidate(Getenv(env, "0")).Some? ==>
            r == Ok(Candidate(Getenv(env, "0")).value))
      && (Candidate(Getenv(env, "SHELL")).None? && Candidate(Getenv(env, "0")).None? ==>
            r == Err("could not detect current shell"))
  {
    if goos == "windows" && Getenv(env, "POWERSHELL_DISTRIBUTION_CHANNEL") != "" then
      assert "powershell" in ShellNames;
      Ok("powershell")
    else match Candidate(Getenv(env, "SHELL"))
      case Some(s) => Ok(s)
      case None =>
        match Candidate(Getenv(env, "0"))
        case Some(s) => Ok(s)
        case None => Err("could not detect current shell")
  }

  /** Outside the Windows PowerShell case, `$SHELL=/some/dir/<shell>` for a
      supported shell selects that shell. */
  lemma DetectFromShellVariable(goos: string, env: map<string, string>, dir: string, shell: string)
    requires goos != "windows" && shell in ShellNames
    requires "SHELL" in env && env["SHELL"] == dir + "/" + shell
    ensures DetectCurrentShell(goos, env) == Ok(shell)
  {
    NormalizeSupportedNames(shell);
    assert forall i :: 0 <= i < |shell| ==> shell[i] != '/';
    BaseOfChild(dir, shell);
    assert Candidate(env["SHELL"]) == Some(shell);
  }

  /** `ResolveProfilePath`, with the environment and `os.UserHomeDir` passed in. */
  function ResolveProfilePath(config: ShellConfig, env: map<string, string>, home: Result<string>): (r: Result<string>)
    ensures config.profilePath == "$PROFILE" && Getenv(env, "PROFILE") != "" ==> r == Ok(Getenv(env, "PROFILE"))
    ensures config.profilePath == "$PROFILE" && Getenv(env, "PROFILE") == "" && home.Ok? ==>
      r == Ok(JoinAll([home.value, "Documents", "PowerShell", "Microsoft.PowerShell_profile.ps1"]))
    ensures config.profilePath != "$PROFILE" && HasPrefix(config.profilePath, "~/") && home.Ok? ==>
      r == Ok(Join2(home.value, config.profilePath[2..]))
    ensures config.profilePath != "$PROFILE" && !HasPrefix(config.profilePath, "~/") ==> r == Ok(config.profilePath)
    ensures r.Err? <==> (home.Err? &&
      if config.profilePath == "$PROFILE" then Getenv(env, "PROFILE") == "" else HasPrefix(config.profilePath, "~/"))
  {
    var path := config.profilePath;
    if path == "$PROFILE" then
      var profile := Getenv(env, "PROFILE");
      if profile != "" then Ok(profile)
      else if home.Err? then Err("failed to get user home directory: " + home.msg)
      else Ok(JoinAll([home.value, "Documents", "PowerShell", "Microsoft.PowerShell_profile.ps1"]))
    else if HasPrefix(path, "~/") then
      if home.Err? then Err("failed to get user home directory: " + home.msg)
      else Ok(Join2(home.value, path[2..]))
    else Ok(path)
  }

  /** `GetShellDirectory`: `<repo>/omd-shells/<shell>`. */
  function GetShellDirectory(repoPath: string, shell: string): string {
    JoinAll([repoPath, "omd-shells", shell])
  }

  function GetInitScriptPath(repoPath: string, shell: string): (r: Result<string>)
    ensures r.Err? <==> !IsShellSupported(shell)
    ensures r.Err? ==> r.msg == "unsupported shell: " + shell
    ensures r.Ok? ==> r.value == Join2(GetShellDirectory(repoPath, shell), SupportedShells[shell].initScript)
  {
    match GetShellConfig(shell)
    case None => Err("unsupported shell: " + shell)
    case Some(c) => Ok(Join2(GetShellDirectory(repoPath, shell), c.initScript))
  }

  function GetManifestPath(repoPath: string, shell: string): string {
    Join2(GetShellDirectory(repoPath, shell), "enabled.json")
  }

  function GetLocalManifestPath(repoPath: string, shell: string): string {
    Join2(GetShellDirectory(repoPath, shell), "enabled.local.json")
  }

  function GetFeaturesDirectory(repoPath: string, shell: string): string {
    Join2(GetShellDirectory(repoPath, shell), "features")
  }

  function GetFeatureFilePath(repoPath: string, shell: string, feature: string): (r: Result<string>)
    ensures r.Err? <==> !IsShellSupported(shell)
    ensures r.Err? ==> r.msg == "unsupported shell: " + shell
    ensures r.Ok? ==> r.value == Join2(GetFeaturesDirectory(repoPath, shell), feature + SupportedShells[shell].extension)
  {
    match GetShellConfig(shell)
    case None => Err("unsupported shell: " + shell)
    case Some(c) => Ok(Join2(GetFeaturesDirectory(repoPath, shell), feature + c.extension))
  }

  /** `ShellDirectoryExists`, with the existing directories passed in. */
  function ShellDirectoryExists(repoPath: string, shell: string, directories: set<string>): (r: bool)
    ensures r <==> GetShellDirectory(repoPath, shell) in directories
  {
    GetShellDirectory(repoPath, shell) in directories
  }
}
