/** The fish, PowerShell and POSIX init scripts, and `GenerateInitScript`,
    which picks the generator for a shell. */
module InitScripts {
  import opened Wrappers
  import opened GoStrings
  import opened InitGen
  import Merge
  import Shells

  // ---------------------------------------------------------------- fish

  const FishHeader: string :=
    "#!/usr/bin/env fish\n"
    + "# oh-my-dot shell framework - fish init script\n"
    + "# Auto-generated - do not edit manually\n"
    + "\n"
    + "# Guard against double-loading\n"
    + "if set -q OMD_FISH_LOADED\n"
    + "  exit 0\n"
    + "end\n"
    + "set -g OMD_FISH_LOADED 1\n"
    + "\n"
    + "# Determine shell root\n"
    + "set -l OMD_SHELL_ROOT (dirname (status --current-filename))\n"
    + "\n"

  function FishEagerTail(f: string): string {
    "\"\n"
    + "if test -r \"$feature_file\"\n"
    + "  source \"$feature_file\"\n"
    + "else\n"
    + "  echo \"oh-my-dot: warning: feature '" + f + "' not found\" >&2\n"
    + "end\n"
    + "\n"
  }

  function FishEagerBlock(f: string): string {
    "set -l feature_file \"" + FeatureFile(f, ".fish") + FishEagerTail(f)
  }

  function FishDeferTail(f: string): string {
    "\"\n"
    + "  test -r \"$feature_file\"; and source \"$feature_file\" &\n"
  }

  function FishDeferBlock(f: string): string {
    "  set -l feature_file \"" + FeatureFile(f, ".fish") + FishDeferTail(f)
  }

  function FishSingleHead(cmd: string): string {
    "function " + cmd + "\n"
    + "  functions -e " + cmd + "\n"
    + "  set -l feature_file \""
  }

  function FishSingleTail(cmd: string): string {
    "\"\n"
    + "  test -r \"$feature_file\"; and source \"$feature_file\"\n"
    + "  if type -q " + cmd + "\n"
    + "    command " + cmd + " $argv\n"
    + "  else\n"
    + "    echo \"oh-my-dot: " + cmd + " command not found after loading feature\" >&2\n"
    + "    return 127\n"
    + "  end\n"
    + "end\n"
    + "\n"
  }

  function FishSingleWrapper(cmd: string, feature: string): string {
    FishSingleHead(cmd) + FeatureFile(feature, ".fish") + FishSingleTail(cmd)
  }

  function FishLoaderHead(loader: string): string {
    "function " + loader + "\n"
    + "  set -l feature_file \""
  }

  const FishLoaderTail: string :=
    "\"\n"
    + "  test -r \"$feature_file\"; and source \"$feature_file\"\n"
    + "end\n"
    + "\n"

  function FishLoaderFunc(loader: string, feature: string): string {
    FishLoaderHead(loader) + FeatureFile(feature, ".fish") + FishLoaderTail
  }

  function FishMultiWrapper(cmd: string, loader: string, commands: seq<string>): string {
    "function " + cmd + "\n"
    + "  " + loader + "\n"
    + "  functions -e " + Join(commands + [loader], " ") + "\n"
    + "  command " + cmd + " $argv\n"
    + "end\n"
    + "\n"
  }

  const Fish: Dialect := Dialect(
    FishHeader,
    "# Load eager features\n", FishEagerBlock, "",
    "# Load deferred features (on first prompt)\n"
    + "function __omd_load_deferred --on-event fish_prompt\n"
    + "  # Remove this function after first run\n"
    + "  functions -e __omd_load_deferred\n"
    + "  \n"
    + "  # Load deferred features in background\n",
    FishDeferBlock, "end\n\n",
    "# Register on-command features\n",
    FishSingleWrapper, FishLoaderFunc, FishMultiWrapper, "", "", "")

  /** `generateFishInit`: no loader calls and no cleanup; the deferred
      features load on the first prompt. */
  method GenerateFishInit(features: FeaturesByStrategy, order: seq<string>) returns (script: string)
    requires IsKeyOrder(order, features.onCommand)
    ensures script == LoaderPart(Fish, features, order)
  {
    script := LoaderText(Fish, features, order);
  }

  /** Every block of the fish script loads a feature from `$OMD_SHELL_ROOT/features/<f>.fish`. */
  lemma FishLoadsFrom()
    ensures LoadsFrom(Fish, LocalRef(".fish"))
  {
    forall f ensures Contains(Fish.eagerBlock(f), FeatureFile(f, ".fish")) {
      ContainsInMiddle("set -l feature_file \"", FeatureFile(f, ".fish"), FishEagerTail(f));
    }
    forall f ensures Contains(Fish.deferBlock(f), FeatureFile(f, ".fish")) {
      ContainsInMiddle("  set -l feature_file \"", FeatureFile(f, ".fish"), FishDeferTail(f));
    }
    forall c, f ensures Contains(Fish.singleWrapper(c, f), FeatureFile(f, ".fish")) {
      ContainsInMiddle(FishSingleHead(c), FeatureFile(f, ".fish"), FishSingleTail(c));
    }
    forall f ensures Contains(Fish.loaderFunc(LoaderName(f), f), FeatureFile(f, ".fish")) {
      ContainsInMiddle(FishLoaderHead(LoaderName(f)), FeatureFile(f, ".fish"), FishLoaderTail);
    }
  }

  // ---------------------------------------------------------- powershell

  /** Where a PowerShell script looks for a feature's file, relative to the
      shell root. */
  function PowerShellRef(f: string): string {
    "features\\" + f + ".ps1"
  }

  /** The command removing function `name` from the session. */
  function RemoveItem(name: string): string {
    "Remove-Item Function:" + name + " -ErrorAction SilentlyContinue"
  }

  function RemoveItems(names: seq<string>): (r: seq<string>)
    ensures |r| == |names| && forall i :: 0 <= i < |names| ==> r[i] == RemoveItem(names[i])
  {
    if names == [] then [] else [RemoveItem(names[0])] + RemoveItems(names[1..])
  }

  /** The removal commands of a wrapper of a feature with several commands:
      one per command, then one for the shared loader. */
  method PowerShellRemoveCommands(commands: seq<string>, loaderFunc: string) returns (removeCmds: seq<string>)
    ensures removeCmds == RemoveItems(commands + [loaderFunc])
  {
    var allCommands := commands + [loaderFunc];
    removeCmds := seq(|allCommands|, _ => "");
    for i := 0 to |allCommands|
      invariant |removeCmds| == |allCommands|
      invariant forall k :: 0 <= k < i ==> removeCmds[k] == RemoveItem(allCommands[k])
    {
      removeCmds := removeCmds[i := RemoveItem(allCommands[i])];
    }
  }

  const PowerShellHeader: string :=
    "# oh-my-dot shell framework - PowerShell init script\n"
    + "# Auto-generated - do not edit manually\n"
    + "\n"
    + "# Guard against double-loading\n"
    + "if ($global:OMD_POWERSHELL_LOADED) {\n"
    + "  return\n"
    + "}\n"
    + "$global:OMD_POWERSHELL_LOADED = $true\n"
    + "\n"
    + "# Determine shell root\n"
    + "$OMD_SHELL_ROOT = Split-Path -Parent $PSCommandPath\n"
    + "\n"

  function PowerShellEagerTail(f: string): string {
    "\"\n"
    + "if (Test-Path $featureFile) {\n"
    + "  . $featureFile\n"
    + "} else {\n"
    + "  Write-Warning \"oh-my-dot: feature '" + f + "' not found\"\n"
    + "}\n"
    + "\n"
  }

  function PowerShellEagerBlock(f: string): string {
    "$featureFile = Join-Path $OMD_SHELL_ROOT \"" + PowerShellRef(f) + PowerShellEagerTail(f)
  }

  function PowerShellDeferTail(f: string): string {
    "\"\n"
    + "  if (Test-Path $featureFile) {\n"
    + "    Start-Job -ScriptBlock { param($f) . $f } -ArgumentList $featureFile | Out-Null\n"
    + "  }\n"
  }

  function PowerShellDeferBlock(f: string): string {
    "  $featureFile = Join-Path $OMD_SHELL_ROOT \"" + PowerShellRef(f) + PowerShellDeferTail(f)
  }

  function PowerShellSingleHead(cmd: string): string {
    "function " + cmd + " {\n"
    + "  Remove-Item Function:" + cmd + " -ErrorAction SilentlyContinue\n"
    + "  $featureFile = Join-Path $OMD_SHELL_ROOT \""
  }

  function PowerShellSingleTail(cmd: string): string {
    "\"\n"
    + "  if (Test-Path $featureFile) {\n"
    + "    . $featureFile\n"
    + "  }\n"
    + "  if (Get-Command " + cmd + " -ErrorAction SilentlyContinue) {\n"
    + "    & " + cmd + " @args\n"
    + "  } else {\n"
    + "    Write-Warning \"oh-my-dot: " + cmd + " command not found after loading feature\"\n"
    + "    exit 127\n"
    + "  }\n"
    + "}\n"
    + "\n"
  }

  function PowerShellSingleWrapper(cmd: string, feature: string): string {
    PowerShellSingleHead(cmd) + PowerShellRef(feature) + PowerShellSingleTail(cmd)
  }

  function PowerShellLoaderHead(loader: string): string {
    "function " + loader + " {\n"
    + "  $featureFile = Join-Path $OMD_SHELL_ROOT \""
  }

  const PowerShellLoaderTail: string :=
    "\"\n"
    + "  if (Test-Path $featureFile) {\n"
    + "    . $featureFile\n"
    + "  }\n"
    + "}\n"
    + "\n"

  function PowerShellLoaderFunc(loader: string, feature: string): string {
    PowerShellLoaderHead(loader) + PowerShellRef(feature) + PowerShellLoaderTail
  }

  function PowerShellMultiWrapper(cmd: string, loader: string, commands: seq<string>): string {
    "function " + cmd + " {\n"
    + "  " + loader + "\n"
    + "  " + Join(RemoveItems(commands + [loader]), "; ") + "\n"
    + "  & " + cmd + " @args\n"
    + "}\n"
    + "\n"
  }

  const PowerShell: Dialect := Dialect(
    PowerShellHeader,
    "# Load eager features\n", PowerShellEagerBlock, "",
    "# Load deferred features (background jobs)\n" + "if ($Host.UI.RawUI) {  # Interactive shell check\n",
    PowerShellDeferBlock, "}\n\n",
    "# Register on-command features\n",
    PowerShellSingleWrapper, PowerShellLoaderFunc, PowerShellMultiWrapper, "", "", "")

  /** `generatePowerShellInit`: no loader calls and no cleanup; the deferred
      features load as background jobs. */
  method GeneratePowerShellInit(features: FeaturesByStrategy, order: seq<string>) returns (script: string)
    requires IsKeyOrder(order, features.onCommand)
    ensures script == LoaderPart(PowerShell, features, order)
  {
    script := LoaderText(PowerShell, features, order);
  }

  /** Every block of the PowerShell script loads a feature from `features\\<f>.ps1` under the shell root. */
  lemma PowerShellLoadsFrom()
    ensures LoadsFrom(PowerShell, PowerShellRef)
  {
    forall f ensures Contains(PowerShell.eagerBlock(f), PowerShellRef(f)) {
      ContainsInMiddle("$featureFile = Join-Path $OMD_SHELL_ROOT \"", PowerShellRef(f), PowerShellEagerTail(f));
    }
    forall f ensures Contains(PowerShell.deferBlock(f), PowerShellRef(f)) {
      ContainsInMiddle("  $featureFile = Join-Path $OMD_SHELL_ROOT \"", PowerShellRef(f), PowerShellDeferTail(f));
    }
    forall c, f ensures Contains(PowerShell.singleWrapper(c, f), PowerShellRef(f)) {
      ContainsInMiddle(PowerShellSingleHead(c), PowerShellRef(f), PowerShellSingleTail(c));
    }
    forall f ensures Contains(PowerShell.loaderFunc(LoaderName(f), f), PowerShellRef(f)) {
      ContainsInMiddle(PowerShellLoaderHead(LoaderName(f)), PowerShellRef(f), PowerShellLoaderTail);
    }
  }

  // --------------------------------------------------------------- posix

  const PosixHeader: string :=
    "#!/usr/bin/env sh\n"
    + "# oh-my-dot shell framework - POSIX sh init script\n"
    + "# Auto-generated - do not edit manually\n"
    + "\n"
    + "# Guard against double-loading\n"
    + "if [ \"${OMD_POSIX_LOADED:-}\" = \"1\" ]; then\n"
    + "  return 0 2>/dev/null || exit 0\n"
    + "fi\n"
    + "OMD_POSIX_LOADED=1\n"
    + "\n"
    + "# Determine shell root (POSIX-compatible)\n"
    + "OMD_SHELL_ROOT=\"$(cd \"$(dirname \"$0\")\" && pwd)\"\n"
    + "\n"
    + "# Source helper library\n"
    + "if [ -r \"$OMD_SHELL_ROOT/../lib/helpers.sh\" ]; then\n"
    + "  . \"$OMD_SHELL_ROOT/../lib/helpers.sh\"\n"
    + "fi\n"
    + "\n"

  function PosixEagerTail(f: string): string {
    "\"\n"
    + "if [ -r \"$feature_file\" ]; then\n"
    + "  . \"$feature_file\"\n"
    + "else\n"
    + "  echo \"oh-my-dot: warning: feature '" + f + "' not found\" >&2\n"
    + "fi\n"
    + "\n"
  }

  function PosixEagerBlock(f: string): string {
    "feature_file=\"" + FeatureFile(f, ".sh") + PosixEagerTail(f)
  }

  function PosixDeferTail(f: string): string {
    "\" ] && . \"" + FeatureFile(f, ".sh") + "\" ) &\n"
  }

  function PosixDeferBlock(f: string): string {
    "    ( [ -r \"" + FeatureFile(f, ".sh") + PosixDeferTail(f)
  }

  function PosixSingleHead(cmd: string): string {
    cmd + "() {\n"
    + "  unset -f " + cmd + "\n"
    + "  feature_file=\""
  }

  function PosixSingleTail(cmd: string): string {
    "\"\n"
    + "  if [ -r \"$feature_file\" ]; then\n"
    + "    . \"$feature_file\"\n"
    + "  fi\n"
    + "  if command -v " + cmd + " >/dev/null 2>&1; then\n"
    + "    command " + cmd + " \"$@\"\n"
    + "  else\n"
    + "    echo \"oh-my-dot: " + cmd + " command not found after loading feature\" >&2\n"
    + "    return 127\n"
    + "  fi\n"
    + "}\n"
    + "\n"
  }

  function PosixSingleWrapper(cmd: string, feature: string): string {
    PosixSingleHead(cmd) + FeatureFile(feature, ".sh") + PosixSingleTail(cmd)
  }

  function PosixLoaderHead(loader: string): string {
    loader + "() {\n"
    + "  feature_file=\""
  }

  const PosixLoaderTail: string :=
    "\"\n"
    + "  [ -r \"$feature_file\" ] && . \"$feature_file\"\n"
    + "}\n"
    + "\n"

  function PosixLoaderFunc(loader: string, feature: string): string {
    PosixLoaderHead(loader) + FeatureFile(feature, ".sh") + PosixLoaderTail
  }

  function PosixMultiWrapper(cmd: string, loader: string, commands: seq<string>): string {
    cmd + "() { " + loader + "; unset -f " + Join(commands, " ") + " " + loader + "; command " + cmd + " \"$@\"; }\n"
  }

  const Posix: Dialect := Dialect(
    PosixHeader,
    "# Load eager features\n", PosixEagerBlock, "",
    "# Load deferred features (background)\n" + "# Check for interactive shell\n" + "case $- in\n" + "  *i*)\n",
    PosixDeferBlock, "    ;;\n" + "esac\n\n",
    "# Register on-command features\n",
    PosixSingleWrapper, PosixLoaderFunc, PosixMultiWrapper, "\n", "", "")

  /** `generatePosixInit`: no loader calls and no cleanup; a blank line
      follows only the wrappers of a feature with several commands. */
  method GeneratePosixInit(features: FeaturesByStrategy, order: seq<string>) returns (script: string)
    requires IsKeyOrder(order, features.onCommand)
    ensures script == LoaderPart(Posix, features, order)
  {
    script := LoaderText(Posix, features, order);
  }

  /** Every block of the POSIX script loads a feature from `$OMD_SHELL_ROOT/features/<f>.sh`. */
  lemma PosixLoadsFrom()
    ensures LoadsFrom(Posix, LocalRef(".sh"))
  {
    forall f ensures Contains(Posix.eagerBlock(f), FeatureFile(f, ".sh")) {
      ContainsInMiddle("feature_file=\"", FeatureFile(f, ".sh"), PosixEagerTail(f));
    }
    forall f ensures Contains(Posix.deferBlock(f), FeatureFile(f, ".sh")) {
      ContainsInMiddle("    ( [ -r \"", FeatureFile(f, ".sh"), PosixDeferTail(f));
    }
    forall c, f ensures Contains(Posix.singleWrapper(c, f), FeatureFile(f, ".sh")) {
      ContainsInMiddle(PosixSingleHead(c), FeatureFile(f, ".sh"), PosixSingleTail(c));
    }
    forall f ensures Contains(Posix.loaderFunc(LoaderName(f), f), FeatureFile(f, ".sh")) {
      ContainsInMiddle(PosixLoaderHead(LoaderName(f)), FeatureFile(f, ".sh"), PosixLoaderTail);
    }
  }

  // ------------------------------------------------------------ dispatch

  /** The layout of a supported shell's script. */
  function DialectOf(shell: string): Dialect
    requires shell in Shells.ShellNames
  {
    if shell == "bash" then Bash
    else if shell == "zsh" then Zsh
    else if shell == "fish" then Fish
    else if shell == "powershell" then PowerShell
    else Posix
  }

  /** Where a supported shell's script loads feature `f` from: the file with
      the extension the shell is configured with. */
  function ShellRef(shell: string): string -> string
    requires shell in Shells.ShellNames
  {
    if shell == "powershell" then PowerShellRef else LocalRef(Shells.SupportedShells[shell].extension)
  }

  /** The script of a supported shell. */
  function InitScript(shell: string, features: FeaturesByStrategy, order: seq<string>): string
    requires shell in Shells.ShellNames
  {
    if shell == "bash" then BashInit(features, order)
    else if shell == "zsh" then ZshInit(features, order)
    else if shell == "fish" then LoaderPart(Fish, features, order)
    else if shell == "powershell" then LoaderPart(PowerShell, features, order)
    else LoaderPart(Posix, features, order)
  }

  /** `GenerateInitScript`, from the result of parsing the shell's manifest
      and its local overrides. */
  method GenerateInitScript(merged: Result<seq<Merge.FeatureWithOverride>>, shellName: string, order: seq<string>)
    returns (r: Result<string>)
    requires merged.Ok? ==> IsKeyOrder(order, Categorize(Merge.MergedEnabledOf(merged.value)).onCommand)
    ensures merged.Err? ==> r == Err("failed to parse manifests: " + merged.msg)
    ensures merged.Ok? && !Shells.IsShellSupported(shellName) ==> r == Err("unsupported shell: " + shellName)
    ensures merged.Ok? && Shells.IsShellSupported(shellName) ==>
      r == Ok(InitScript(shellName, Categorize(Merge.MergedEnabledOf(merged.value)), order))
  {
    if merged.Err? {
      return Err("failed to parse manifests: " + merged.msg);
    }
    var features := CategorizeFeaturesMerged(merged.value);
    if !Shells.IsShellSupported(shellName) {
      return Err("unsupported shell: " + shellName);
    }
    var script := GenerateForShell(shellName, features, order);
    return Ok(script);
  }

  /** The switch of `GenerateInitScript` over the supported shells. */
  method GenerateForShell(shell: string, features: FeaturesByStrategy, order: seq<string>) returns (script: string)
    requires shell in Shells.ShellNames
    requires IsKeyOrder(order, features.onCommand)
    ensures script == InitScript(shell, features, order)
  {
    if shell == "bash" {
      script := GenerateBashInit(features, order);
    } else if shell == "zsh" {
      script := GenerateZshInit(features, order);
    } else if shell == "fish" {
      script := GenerateFishInit(features, order);
    } else if shell == "powershell" {
      script := GeneratePowerShellInit(features, order);
    } else {
      script := GeneratePosixInit(features, order);
    }
  }

  /** Each supported shell's blocks load features from the files `ShellRef` names. */
  lemma DialectLoads(shell: string)
    requires shell in Shells.ShellNames
    ensures LoadsFrom(DialectOf(shell), ShellRef(shell))
  {
    Shells.ShellNamesListed(shell);
    Shells.ShellExtensions();
    if shell == "bash" {
      BashLoadsFrom();
    } else if shell == "zsh" {
      ZshLoadsFrom();
    } else if shell == "fish" {
      FishLoadsFrom();
    } else if shell == "powershell" {
      PowerShellLoadsFrom();
    } else {
      PosixLoadsFrom();
    }
  }

  /** A supported shell's script holds its header and loader groups. */
  lemma InitScriptHasLoaderPart(shell: string, features: FeaturesByStrategy, order: seq<string>)
    requires shell in Shells.ShellNames
    ensures Contains(InitScript(shell, features, order), LoaderPart(DialectOf(shell), features, order))
  {
    var part := LoaderPart(DialectOf(shell), features, order);
    ContainsSelf(part);
    if shell == "bash" || shell == "zsh" {
      var cleanup := if shell == "bash" then BashCleanupSection(features) else ZshCleanupSection(features);
      ContainsInLeft(part, ExecuteSection(features), part);
      ContainsInLeft(part + ExecuteSection(features), cleanup, part);
    }
  }

  /** The script of every supported shell loads each enabled feature that
      has a bucket: eager, deferred, or on-command with trigger commands.
      Each is loaded from its file with the shell's own extension. */
  lemma InitScriptLoadsEnabled(shell: string, m: seq<Merge.FeatureWithOverride>, order: seq<string>, i: nat)
    requires shell in Shells.ShellNames
    requires IsKeyOrder(order, Categorize(Merge.MergedEnabledOf(m)).onCommand)
    requires i < |Merge.MergedEnabledOf(m)|
    requires var f := Merge.MergedEnabledOf(m)[i];
      EffectiveStrategy(f) == "eager" || EffectiveStrategy(f) == "defer" || OnCommandEntry(f)
    ensures Contains(InitScript(shell, Categorize(Merge.MergedEnabledOf(m)), order),
                     ShellRef(shell)(Merge.MergedEnabledOf(m)[i].name))
  {
    var fs := Merge.MergedEnabledOf(m);
    var features := Categorize(fs);
    var n := fs[i].name;
    NamesWithStrategyMembers(fs, "eager", n);
    NamesWithStrategyMembers(fs, "defer", n);
    OnCommandMapEntries(fs, n);
    DialectLoads(shell);
    LoaderPartLoadsBucketed(DialectOf(shell), ShellRef(shell), features, order, n);
    InitScriptHasLoaderPart(shell, features, order);
    ContainsTrans(InitScript(shell, features, order), LoaderPart(DialectOf(shell), features, order), ShellRef(shell)(n));
  }
}
