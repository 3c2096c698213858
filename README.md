# oh-my-dot, modelled in Dafny

oh-my-dot (`omdot`) is a command-line tool that keeps a user's dotfiles in a git
repository and assembles each supported shell's start-up from small "features"
(aliases, completions, prompts, tools). Every shell directory in the repository
holds a feature manifest (`enabled.json`, optionally overridden per machine by
`enabled.local.json`). From it the tool generates an init script that loads the
enabled features eagerly, deferred or when one of their commands is first run. It
also places a marker-delimited hook in the shell's profile so that the profile
loads that script.

This project models the deterministic core of the tool and proves what it
promises:

- **Manifests.** The feature manifest is a class over a sequence of feature
  configurations, with its validation rules and in-place edits. Merging a base
  manifest with a local override follows the tool's precedence rules. The local
  file is loaded only when it is safe to trust.
- **Option values.** The per-type validation of option values, the injection
  screen and shell escaping, `key=value` overrides and default resolution.
- **Generated text.** Init-script generation for bash, zsh, fish, PowerShell and
  POSIX sh. Inserting and removing the profile hook, and the bash login shim. The
  read-modify-write rules for adding, enabling, disabling and removing features.
- **Tables and paths.** The shell table, shell detection, path helpers, the
  feature catalog, feature templates, `~` expansion, and the linkings file that
  records where repository files are linked on the machine.
- **Repository and releases.** The bounded ancestor search over the commit graph
  and the five-way local/remote classification built on it. The update-notice
  cache and its lifetime. The accepted shape of a release version, and the canary
  version derived by the build script.
- **Command decisions.** The decision logic of `feature add` and `feature remove`
  and of `doctor`. The key-driven prompt state machines and the choice of whether
  to prompt at all.

Outside effects are passed in as parameters, and operations return what they
would write instead of writing it. These effects are the file system, the
environment, the home directory, the clock, the terminal, git and the network.

Go's `strings`, `strconv` and `path/filepath` helpers that the core relies on
are modelled in `go_strings.dfy` and `go_paths.dfy`:

- `filepath` uses Unix separators only;
- `Clean`, `Join`, `Rel` and `Base` work on lists of path components.

Strings are sequences of Unicode scalar values, and Go's byte length is computed
from their UTF-8 encoding where the core compares lengths. Integers are unbounded
except where a width matters to the outcome.

## Model

| member | source | states |
|---|---|---|
| Build.OutDir | build.ts:4-14 | without `--out` the output directory is `./build/`; with it, the given directory |
| Build.Succ | build.ts:25 | adding one to the parsed patch number gives a number exactly when the patch parsed to one; NaN stays NaN |
| Build.ParseIntDecimal | build.ts:25 | `parseInt` of a text that starts with a decimal digit (and is not `0x…`) is the value of its leading digits |
| Build.ParseIntOfNumeral | build.ts:25 | `parseInt` of a numeral followed by a tail that does not continue the digits is that number |
| Build.CanaryVersion | build.ts:23-27 | the version computed from the latest tag always ends in `-canary` |
| Build.BuildVersion | build.ts:20-28 | a set `ohmydot_version` holding a character outside JavaScript's white space is the version as given; otherwise the canary version of the latest tag |
| Build.BlankOverrideIgnored | build.ts:21 | an override made only of the white space JavaScript's `trim()` removes (including U+FEFF, excluding U+0085) counts as unset and the canary version is used; any other override is used as given |
| Build.CanaryOfTag | build.ts:24-26 | a tag `a.b.n…` gives `a.b.(n+1)-canary`, its first two parts kept as written (a leading `v` included) |
| Build.CanaryCarries | build.ts:25-26 | a patch number 9 becomes 10, so `a.b.9` gives `a.b.10-canary` |
| Build.UndefinedIsNaN | build.ts:25 | `parseInt` of the text of a missing array element, `undefined`, is NaN |
| Build.ShortTagGivesNaN | build.ts:24-26 | a tag with fewer than three dot-separated parts gives a patch of `NaN`, so the version ends in `NaN-canary` |
| Build.LdFlags | build.ts:31 | the linker flags carry `cmd.Version=` followed by the version and end with `cmd.CommitHash=` followed by the commit hash |
| Catalog.GetFeature | internal/catalog/catalog.go:98-101 | finds an entry exactly when the name is a catalog key, and then returns that entry |
| Catalog.SupportsShell | internal/catalog/catalog.go:104-111 | true exactly when the shell is in the feature's supported-shell list |
| Catalog.CatalogNamesMatchKeys | internal/catalog/catalog.go:14-96 | every catalog entry is filed under its own name |
| Catalog.CatalogKeys | internal/catalog/catalog.go:14-96 | the catalog's keys are exactly its ten feature names |
| Catalog.KeyIsValidName | internal/catalog/catalog.go:14-96 | every catalog key is made only of letters, digits, `-` and `_`, so it passes the manifest's name check |
| Catalog.DefaultsValidFor | internal/catalog/catalog.go:14-96 | a catalog entry's default strategy and commands, as a manifest feature under its key, pass `Validate`; an `on-command` default always comes with commands |
| Catalog.CatalogDefaultsValid | internal/catalog/catalog.go:14-96 | the same for every entry at once |
| Catalog.ListFeatures | internal/catalog/catalog.go:114-120 | one element per catalog key in the map's iteration order, exactly the catalog's entries, no entry twice |
| Catalog.Filter | internal/catalog/catalog.go:123-142 | the entries, in iteration order, that the test selects, and no others |
| Catalog.ListFeaturesByCategory | internal/catalog/catalog.go:123-131 | exactly the catalog entries of that category |
| Catalog.ListFeaturesForShell | internal/catalog/catalog.go:134-142 | exactly the catalog entries whose supported shells include that shell |
| Doctor.FoldAppend | cmd/doctor.go:88-95 | the overall-status update over two batches of results is the update over the first, continued over the second |
| Doctor.FoldIsWorst | cmd/doctor.go:88-95 | starting from "ok", the status update ends at the worst status present: error, else warning, else ok |
| Doctor.FoldStatus | cmd/doctor.go:88-95 | the loop over one shell's results computes the status update of the reference fold |
| Doctor.CountStatus | cmd/doctor.go:104-126 | no status is counted more often than there are results |
| Doctor.Summarize | cmd/doctor.go:104-126 | the summary loop counts ok, warning and error results, and the fixable errors and fixable warnings, exactly as the reference counts do |
| Doctor.CountsBounded | cmd/doctor.go:104-126 | fixable errors (warnings) never outnumber errors (warnings), and the three status counts together never exceed the number of results |
| Doctor.CountPositive | cmd/doctor.go:117-126 | the count of a status is positive exactly when some result has that status |
| Doctor.AdviceCases | cmd/doctor.go:135-150 | a `Tip:` line is shown exactly when something is fixable and `--fix` was not given; otherwise the optional-warnings note exactly when there are warnings and none is fixable; otherwise nothing |
| Doctor.ShellsToCheck | cmd/doctor.go:67-77 | the `--shell` flags win when given; otherwise a successful listing is the answer as listed, and a failed one is wrapped as `failed to list shells: …` |
| Doctor.RunDoctor | cmd/doctor.go:56-163 | a listing error fails with that message; no shells passes with no results; otherwise all shells' results in order, a summary whose ok, warning and error counts and fixable-error and fixable-warning counts are those of the results, and failure (`health check failed`) exactly when some result is an error |
| Doctor.RecordFixable | cmd/doctor.go:210-225 | appends the problem, leaves the earlier results alone, and turns the new result to "ok" exactly when fixing is on and the repair succeeded |
| Doctor.CheckDirectoryStructure | cmd/doctor.go:189-294 | a missing shell directory is one unfixable error and ends the check; otherwise four results (shell directory, features, lib, helpers) each "ok" exactly when present or repaired under `--fix`, and every non-ok result after the first is fixable |
| FeatureCmd.CategoryRank | cmd/feature.go:170-185 | alias, completion, prompt and tool rank 1 to 4; any other category ranks 999, last |
| FeatureCmd.StrLessIrreflexive | cmd/feature.go:194 | Go's string `<` never holds between a name and itself |
| FeatureCmd.StrLessAsymmetric | cmd/feature.go:194 | it never holds in both directions |
| FeatureCmd.StrLessTotal | cmd/feature.go:194 | of two different names one is smaller |
| FeatureCmd.StrLessTransitive | cmd/feature.go:194 | it is transitive |
| FeatureCmd.InOrderTransitive | cmd/feature.go:176-195 | "may stand before" under the comparator (rank, then name) is transitive |
| FeatureCmd.AdjacentSorted | cmd/feature.go:176-195 | a listing whose neighbours are in order is sorted as a whole |
| FeatureCmd.SwapWithPrevious | cmd/feature.go:176 | exchanges two neighbouring features and nothing else; the listing keeps its elements |
| FeatureCmd.SortFeaturesByCategory | cmd/feature.go:168-197 | afterwards the listing is sorted by category rank, then by name, and holds the same features as before |
| FeatureCmd.OfferedShells | cmd/feature.go:456-460 | the shells offered are never empty: an empty supported list stands for all four POSIX-family and fish shells |
| FeatureCmd.SelectShellsOutcomes | cmd/feature.go:449-500 | the choice is automatic exactly when the single supported shell is the current one; otherwise a prompt over the offered shells (the current one preselected exactly when offered) when interactive, and a refusal when not |
| FeatureCmd.ResolveChoice | cmd/feature.go:488-499 | an automatic choice gives its shells, a refusal its error, a prompt the user's answer |
| FeatureCmd.CustomMetadata | cmd/feature.go:230-238 | a feature outside the catalog is "Custom feature", eager, for bash, zsh, fish and posix |
| FeatureCmd.MetadataFor | cmd/feature.go:229-238 | the catalog entry when the name is in the catalog, the custom metadata otherwise |
| FeatureCmd.TargetShells | cmd/feature.go:240-256 | `--all` gives the supported shells, `--shell` gives its shells, otherwise the shell selection decides |
| FeatureCmd.CheckTargets | cmd/feature.go:258-266 | passes exactly when every target is a supported shell and, for a catalog feature, one the feature supports |
| FeatureCmd.PlanIsChecked | cmd/feature.go:210-266 | no name is the usage error; a planned add has a valid name and only checked targets; for a valid name the plan succeeds exactly when the targets resolve and all pass the check |
| FeatureCmd.AddToTargets | cmd/feature.go:268-277 | adds to the targets in order and stops at the first failure, with `failed to add feature to <shell>: …`; the shells added are distinct, so a shell named twice fails the second time with the manifest's `feature '<name>' already exists`; passes exactly when every target was added |
| FeatureCmd.RunFeatureAdd | cmd/feature.go:210-284 | a failed plan adds nothing and returns its error; otherwise a distinct prefix of the targets is added, all of them exactly when the command passes, and a failure names the first target that failed, which either failed to add or was already added |
| FeatureCmd.RowAdded | cmd/feature.go:399-429 | one feature is added to at most as many shells as were selected |
| FeatureCmd.AddToShells | cmd/feature.go:399-429 | the inner loop counts as added exactly the shells the feature supports, does not have yet and is added to without error; every shell counts once |
| FeatureCmd.InteractiveAddCounts | cmd/feature.go:395-430 | the added count is the number of pairs added and added plus skipped is features times shells |
| FeatureCmd.AllPairsAdded | cmd/feature.go:395-430 | with nothing installed, nothing failing and every feature supporting every shell, every pair is added |
| FeatureCmd.FullRow | cmd/feature.go:399-429 | the same for one feature |
| FeatureCmd.LabelName | cmd/feature.go:693-694 | the name read from a label is a prefix of the label |
| FeatureCmd.SeparatorAfterName | cmd/feature.go:665-694 | the first ` (in ` in a label comes right after a name without spaces |
| FeatureCmd.LabelRoundTrip | cmd/feature.go:665-694 | reading the name back from the label built for a valid feature name gives that name |
| FileOps.TrimLeft | internal/fileops/fileSystem.go:58 | `strings.TrimLeft`: the longest suffix that does not start with a cut character; everything removed is a cut character |
| FileOps.TrimLeftRun | internal/fileops/fileSystem.go:58 | a run of cut characters in front of a text that does not start with one is removed exactly |
| FileOps.ExpandPath | internal/fileops/fileSystem.go:43-66 | the empty path is the error `could not expand empty path`; a `~` path with an unknown home directory is that error; `~` alone is the home directory; `~/x` joins the home directory and `x`; other paths are unchanged |
| FileOps.ExpandKeepsPlainPath | internal/fileops/fileSystem.go:65 | a path that does not start with `~` comes back unchanged |
| FileOps.ExpandTildeSeparators | internal/fileops/fileSystem.go:48-63 | `~` followed by any run of `/` and `\` and a rest is the home directory joined with the rest |
| FileOps.ExpandIdempotent | internal/fileops/fileSystem.go:43-66 | with an absolute home directory, expanding an expanded path changes nothing |
| Git.PathSnoc | internal/git/repo.go:397-435 | a walk from commit to parent extended by one parent step is still a walk |
| Git.ClosedSetHoldsPath | internal/git/repo.go:397-435 | a walk that starts in a parent-closed set of commits stays in it |
| Git.PushParents | internal/git/repo.go:420-431 | pushes every parent of the current commit on the stack, in order, and fails exactly when a parent cannot be loaded |
| Git.CommitContainsAncestor | internal/git/repo.go:397-435 | the loop computes the search `SearchFrom` defines; `found` only when the target is the start or one of its ancestors; `exhausted` only when it is neither; it never fails when every commit reachable from the start has all its parents in the graph, and then, with no depth limit, `found` holds exactly when the target is an ancestor; `depth exceeded` only after exactly `maxDepth` commits were inspected; never more than `maxDepth` inspected; the start itself is found at once |
| Git.SearchSound | internal/git/repo.go:400-434 | from any consistent search state: `found` comes with a walk from the start to the target, `exhausted` with a parent-closed set holding the start but not the target, a failure with a walk to a reachable commit one of whose parents is missing |
| Git.SearchFromSound | internal/git/repo.go:397-435 | the search from a commit answers `found` only for an ancestor, `exhausted` only for a non-ancestor, and never fails when every reachable commit's parents are in the graph |
| GoStrings.Quote | internal/validation/validation.go:105-107 | the quoted text starts and ends with a double quote and is at least two characters longer than the text |
| GoStrings.QuoteBodyPlain | internal/validation/validation.go:105-107 | the text between the quotes equals the text exactly when every character is printable ASCII other than `"` and `\`, or lies past ASCII |
| Git.ClosedAfterPop | internal/git/repo.go:414-416 | skipping a commit already visited keeps every visited commit's parents visited or on the stack |
| Git.ClosedAfterVisit | internal/git/repo.go:417-431 | visiting a commit and pushing its parents keeps that closure |
| Git.ExhaustedUnreachable | internal/git/repo.go:434 | when the stack runs empty without meeting the target, the target is no ancestor of the start |
| Git.StateName | internal/git/repo.go:23-36 | every sync state has a non-empty stored name |
| Git.ParseState | internal/git/repo.go:23-36 | a text read back as a state is that state's name |
| Git.StateNameRoundTrip | internal/git/repo.go:23-36 | each state reads back as itself, so the five names are distinct |
| Git.GetRemoteSyncState | internal/git/repo.go:350-390 | up to date exactly when the hashes agree; an unknown remote commit means remote ahead; an unknown local commit is the `failed to inspect local commit` error; with both known, remote ahead when the search from the remote commit finds the local one, significantly ahead when that search hits the depth limit, and when it is exhausted local ahead or diverged as the search from the local commit finds the remote one or is exhausted; an error only from a failed search, wrapped as `failed to compare local and remote commits: …`, and none when both commits' histories are complete in the graph |
| Git.HasRemoteUpdates | internal/git/repo.go:295-303 | updates exist exactly for remote ahead, significantly ahead and diverged |
| Git.IsCommittableShellChangePath | internal/git/repo.go:615-624 | a committable path lies, once cleaned, under `omd-shells/` |
| Git.CommittableUnderClean | internal/git/repo.go:615-624 | a path and its cleaned form are judged alike |
| Git.IsSSHAgentError | internal/git/repo.go:654-660 | no error is never an SSH agent error |
| Git.SSHAgentErrorSurvivesWrapping | internal/git/repo.go:654-660 | an SSH agent error stays one when a context is put in front of its message |
| Git.RemoveFileLeadingSeparators | internal/git/repo.go:171-182 | a relative path given with leading separators is found under `files` as if given without them |
| Git.RemoveFileOutside | internal/git/repo.go:175-182 | a path that is not absolute under the repository is joined under `files` after one leading `/` is trimmed |
| Hooks.HookBody | internal/hooks/hooks.go:27-61 | bash, posix, zsh, fish and powershell have a hook body of at least three lines; every other shell has none |
| Hooks.HookBodyMentions | internal/hooks/hooks.go:27-56 | the first body line of every hook names the init script |
| Hooks.GenerateHook | internal/hooks/hooks.go:27-61 | the empty text exactly for a shell without a hook; otherwise a block that starts with the start marker line, ends with the end marker and mentions the init script |
| Hooks.GenerateBashLoginShim | internal/hooks/hooks.go:64-70 | a block between the login shim's markers that mentions the `.bashrc` path |
| Hooks.HookBodyLines | internal/hooks/hooks.go:27-56 | whatever the init path, every body line is a single line that is neither a marker nor a comment |
| Hooks.FramedReadBack | internal/hooks/hooks.go:83-89 | a block of plain marker and body lines, newline-terminated, is read back by the line scanner as exactly those lines |
| Hooks.HookReadBack | internal/hooks/hooks.go:27-89 | the scanner reads a generated hook back as its start marker, its body lines and its end marker |
| Hooks.HasStartMarkerSnoc | internal/hooks/hooks.go:84-89 | one more scanned line finds the hook exactly when it did before or that line, trimmed, is the start marker |
| Hooks.HasHook | internal/hooks/hooks.go:73-92 | a missing profile has no hook; another open error is returned; otherwise the hook is there exactly when some trimmed line is the start marker |
| Hooks.Inserted | internal/hooks/hooks.go:119-127 | the new text begins with the old one and ends with the hook and a newline; an empty profile becomes just the hook; otherwise a blank line separates them |
| Hooks.InsertHook | internal/hooks/hooks.go:96-135 | an unreadable profile is the `failed to check for existing hook` error; a profile that has the hook is left alone (not added); otherwise the hook is appended as `Inserted` says and reported added |
| Hooks.InsertedLines | internal/hooks/hooks.go:119-127 | the lines after insertion are the profile's lines, one blank line when the profile was not empty, then the hook's lines |
| Hooks.InsertedMarkerLine | internal/hooks/hooks.go:119-127 | a hook that starts with a marker line shows that marker as one of the lines after insertion |
| Hooks.InsertedHasHook | internal/hooks/hooks.go:96-135 | after insertion the profile has the hook, so a second insertion does nothing |
| Hooks.KeptLines | internal/hooks/hooks.go:154-172 | the removal keeps at most the scanned lines and never a marker line |
| Hooks.KeptSnoc | internal/hooks/hooks.go:154-172 | one scanned line: a start marker opens a block, an end marker closes it, and a line is kept exactly when it is no marker and no block is open |
| Hooks.RemoveHook | internal/hooks/hooks.go:138-194 | a missing profile is no error and writes nothing; an open error is `failed to open profile: …`; a profile without a start marker is not written; otherwise the kept lines are written back, joined and newline-terminated |
| Hooks.KeptDropsBlock | internal/hooks/hooks.go:154-172 | unmarked lines followed by one hook block keep exactly the unmarked lines |
| Hooks.RemoveUndoesInsertLines | internal/hooks/hooks.go:96-194 | after inserting a generated hook, the removal finds it and keeps exactly the profile's own lines and the blank separator |
| Hooks.RemoveUndoesInsert | internal/hooks/hooks.go:96-194 | inserting then removing a generated hook gives back the profile's lines, newline-terminated (the empty profile stays empty) |
| Hooks.TerminatedJoinLines | internal/hooks/hooks.go:184-187 | reading back the written text gives the kept lines (less any trailing carriage return) |
| Hooks.RemovedHasNoHook | internal/hooks/hooks.go:138-194 | after a removal the profile no longer has the hook |
| Hooks.NeedsBashLoginShimAsWritten | internal/hooks/hooks.go:197-230 | as written: a missing profile needs the shim, an open error is returned, otherwise the shim is needed exactly when no line passes the source's tests in the source's order |
| Hooks.MarkerTestUnreachable | internal/hooks/hooks.go:213-226 | as written, the shim-marker test never decides anything: the marker line is skipped as a comment before it is reached |
| Hooks.ShimReadBack | internal/hooks/hooks.go:64-70 | the scanner reads the login shim back as its markers and the bash body lines |
| Hooks.ShimAsWrittenMissesOwnShim | internal/hooks/hooks.go:197-230 | counterexample: a profile holding just the shim for a `.bashrc` path without a dot is still reported as needing the shim, while the intended scan sees the marker |
| Hooks.NeedsBashLoginShim | internal/hooks/hooks.go:197-230 | corrected: the shim is needed exactly when no trimmed line is the shim's marker or an uncommented line sourcing `.bashrc` |
| Hooks.ShimInsertedNotNeeded | internal/hooks/hooks.go:64-230 | once the shim is inserted into any profile, the corrected scan no longer asks for it |
| InitGen.EffectiveStrategy | internal/shell/initgen.go:60-64 | an empty strategy loads eagerly; the effective strategy is never empty |
| InitGen.CategorizeSnoc | internal/shell/initgen.go:58-75 | one more enabled feature is appended to the eager or deferred list by its effective strategy, or enters the on-command table (overwriting an earlier entry) when it has trigger commands |
| InitGen.CategorizeFeaturesMerged | internal/shell/initgen.go:53-78 | the buckets are those of the enabled merged features, in manifest order |
| InitGen.NamesWithStrategyMembers | internal/shell/initgen.go:58-69 | a name is in a strategy's list exactly when some feature of that name loads with that strategy |
| InitGen.OnCommandMapEntries | internal/shell/initgen.go:69-73 | a name is in the on-command table exactly when some feature of that name is on-command with trigger commands, and the table holds the commands of the last such feature |
| InitGen.BucketOf | internal/shell/initgen.go:58-75 | with distinct names, a feature is in each bucket exactly when its strategy says so |
| InitGen.BucketsOnlyEnabled | internal/shell/initgen.go:58-75 | every bucketed name belongs to an enabled entry of the merged manifest |
| InitGen.KeyInOrder | internal/shell/initgen.go:143 | every key of the on-command table is visited by the iteration |
| InitGen.ExecuteOrder | internal/shell/initgen.go:184-194 | the eager loader, the on-command registrar and the deferred loader are each called exactly when their group is non-empty, and always in that order |
| InitGen.EagerText | internal/shell/initgen.go:109-123 | the eager group is its heading and one loading block per eager feature, in order, or nothing when there is none |
| InitGen.DeferText | internal/shell/initgen.go:125-137 | the deferred group is its heading and one block per deferred feature, in order, or nothing when there is none |
| InitGen.CommandText | internal/shell/initgen.go:144-181 | a feature with one command gets one self-removing wrapper; otherwise a shared loader function and one wrapper per command |
| InitGen.RegisterOne | internal/shell/initgen.go:143-182 | one on-command feature's wrappers followed by the text closing its entry |
| InitGen.Registrations | internal/shell/initgen.go:143-182 | one entry per key of the on-command table, in the map's iteration order |
| InitGen.OnCommandText | internal/shell/initgen.go:139-182 | the on-command group is present exactly when some feature loads on command |
| InitGen.LoaderText | internal/shell/initgen.go:80-182 | the header followed by the eager, deferred and on-command groups |
| InitGen.ExecuteText | internal/shell/initgen.go:184-194 | the execute section calls the loaders of the non-empty groups |
| InitGen.ConcatMapContains | internal/shell/initgen.go:113-143 | each feature's block occurs in the text of its group |
| InitGen.BlocksInScript | internal/shell/initgen.go:109-182 | every eager, deferred and on-command feature has its block in the script |
| InitGen.CommandBlockShape | internal/shell/initgen.go:145-181 | a single command gets exactly the single wrapper; several commands get the loader function first and a wrapper for each command |
| InitGen.CommandBlockLoads | internal/shell/initgen.go:145-181 | whatever the commands, an on-command block loads its feature's file |
| InitGen.LoaderPartLoadsBucketed | internal/shell/initgen.go:109-182 | every eager, deferred or on-command feature's file is loaded by the script |
| InitGen.BashCleanupText | internal/shell/initgen.go:196-209 | the bash cleanup unsets the deferred loader and the registrar when defined, never the eager loader |
| InitGen.BashCleanupKeepsEager | internal/shell/initgen.go:196-209 | the eager loader is never unset (it is needed when `.bashrc` is sourced again); the others are unset exactly when their group is non-empty |
| InitGen.GenerateBashInit | internal/shell/initgen.go:80-212 | the header, the three groups, the calls and the cleanup |
| InitGen.BashLoadsFrom | internal/shell/initgen.go:113-181 | every bash block loads the feature from `$OMD_SHELL_ROOT/features/<name>.sh` |
| InitGen.ZshCleanupText | internal/shell/initgen.go:322-337 | the zsh cleanup unsets each loader that was defined |
| InitGen.GenerateZshInit | internal/shell/initgen.go:214-340 | the header, the three groups, the calls and the cleanup |
| InitGen.ZshCleanupAll | internal/shell/initgen.go:322-337 | each loader is unset exactly when its group is non-empty |
| InitGen.ZshLoadsFrom | internal/shell/initgen.go:242-307 | every zsh block loads the feature from `$OMD_SHELL_ROOT/features/<name>.zsh` |
| InitScripts.GenerateFishInit | internal/shell/initgen.go:342-439 | the fish header and its three groups |
| InitScripts.FishLoadsFrom | internal/shell/initgen.go:361-437 | every fish block loads the feature from `$OMD_SHELL_ROOT/features/<name>.fish` |
| InitScripts.RemoveItems | internal/shell/initgen.go:525-528 | one `Remove-Item` command per function name, in order |
| InitScripts.PowerShellRemoveCommands | internal/shell/initgen.go:524-528 | the wrapper removes every command's function and then the loader |
| InitScripts.GeneratePowerShellInit | internal/shell/initgen.go:441-543 | the PowerShell header and its three groups |
| InitScripts.PowerShellLoadsFrom | internal/shell/initgen.go:459-541 | every PowerShell block loads the feature from `features\<name>.ps1` under the shell root |
| InitScripts.GeneratePosixInit | internal/shell/initgen.go:545-644 | the POSIX header and its three groups |
| InitScripts.PosixLoadsFrom | internal/shell/initgen.go:569-642 | every POSIX block loads the feature from `$OMD_SHELL_ROOT/features/<name>.sh` |
| InitScripts.GenerateInitScript | internal/shell/initgen.go:21-49 | a parse failure is `failed to parse manifests: …`; an unknown shell is `unsupported shell: …`; otherwise the script of that shell for the enabled merged features |
| InitScripts.GenerateForShell | internal/shell/initgen.go:35-46 | each supported shell gets its own script |
| InitScripts.DialectLoads | internal/shell/initgen.go:80-642 | each supported shell's blocks load features from that shell's feature files |
| InitScripts.InitScriptHasLoaderPart | internal/shell/initgen.go:80-642 | every shell's script holds its header and the three groups |
| InitScripts.InitScriptLoadsEnabled | internal/shell/initgen.go:21-642 | the script of every supported shell loads each enabled feature that is eager, deferred, or on-command with trigger commands, from its file |
| Interactive.GetMode | internal/interactive/interactive.go:28-53 | `--interactive` wins, then `--no-interactive`, then the `CI` and `OMDOT_NON_INTERACTIVE` variables, then the terminals: the mode is automatic exactly when nothing forces it and both ends are terminals |
| Interactive.ShouldPrompt | internal/interactive/interactive.go:55-70 | a forced interactive mode always prompts, a non-interactive one never does, and the automatic mode prompts exactly when information is missing |
| Interactive.PromptWithInfoIsForced | internal/interactive/interactive.go:55-70 | with the information at hand only `--interactive` prompts; without it the automatic mode prompts too |
| Interactive.InputResult | internal/interactive/interactive.go:72-100 | a cancelled input is the `cancelled` error; an empty answer takes the default; any other answer is returned as typed |
| Interactive.InputNeverEmptyUnlessDefault | internal/interactive/interactive.go:93-97 | the answer is empty only when the default is |
| Interactive.Choice | internal/interactive/interactive.go:172-194 | `y`, `Y`, `right` and `l` pick yes; `n`, `N`, `left` and `h` pick no; other keys pick nothing |
| Interactive.RunConfirm | internal/interactive/interactive.go:140-194 | the prompt finishes exactly when some key ends it |
| Interactive.ConfirmAnswer | internal/interactive/interactive.go:172-194 | when key `i` is the first that ends the prompt, the answer is the last choice made up to it, starting from the initial highlight, or the `cancelled` error |
| Interactive.SelectResult | internal/interactive/interactive.go:216-251 | a cancelled selection is the `cancelled` error; otherwise the highlighted index, when there is one |
| Interactive.MultiSelect.constructor | internal/interactive/interactive.go:324-333 | a fresh prompt: nothing marked, the cursor on the first option |
| Interactive.MultiSelect.Update | internal/interactive/interactive.go:367-389 | up and down move the cursor within the options; space flips the mark under the cursor and nothing else; enter, escape and Ctrl+C end the prompt, the last two cancelling it |
| Interactive.MultiSelect.SelectedIndices | internal/interactive/interactive.go:324-353 | a cancelled prompt is the `cancelled` error; otherwise exactly the marked options' indices, in increasing order |
| Interactive.FlipTwice | internal/interactive/interactive.go:379-380 | pressing space twice on the same option restores every mark |
| Interactive.Toggled | internal/interactive/interactive.go:476-484 | the path joins the selection when it was not there and leaves it when it was; no other path changes |
| Interactive.ToggleTwice | internal/interactive/interactive.go:476-484 | toggling the same path twice gives back the selection |
| Interactive.FilePicker.constructor | internal/interactive/interactive.go:414-430 | a fresh picker on the directory with nothing selected |
| Interactive.FilePicker.Space | internal/interactive/interactive.go:476-484 | space toggles the highlighted entry's path |
| Interactive.FilePicker.Enter | internal/interactive/interactive.go:485-491 | enter with an empty selection takes the highlighted entry, so the selection is then not empty; otherwise the selection is kept |
| Interactive.FilePicker.PickFile | internal/interactive/interactive.go:497-501 | a file chosen in the picker joins the selection |
| Interactive.FilePicker.Cancel | internal/interactive/interactive.go:473-475 | escape or Ctrl+C cancels and keeps the selection |
| Interactive.FilePicker.Selection | internal/interactive/interactive.go:414-455 | a cancelled picker is an error; otherwise the selected paths |
| Manifest.MatchesNamePattern | internal/manifest/manifest.go:26 | the anchored pattern `^[a-zA-Z0-9_-]+$`: a non-empty name of letters, digits, `_` and `-` |
| Manifest.ValidateFeatureName | internal/manifest/manifest.go:37-46 | a name passes exactly when it is non-empty and made of pattern characters; the empty name has its own message |
| Manifest.ValidateStrategy | internal/manifest/manifest.go:48-57 | the empty strategy, `eager`, `defer` and `on-command` pass and nothing else |
| Manifest.Validate | internal/manifest/manifest.go:59-72 | a feature passes exactly when its name and strategy do and an on-command feature has trigger commands; the name's error is reported first, then the strategy's |
| Manifest.ValidateAll | internal/manifest/manifest.go:85-90 | every feature valid, or the first invalid one's index and error as `feature at index <i>: …` |
| Manifest.FirstIndex | internal/manifest/manifest.go:119-147 | the index of the first feature with the name, or none when no feature has it |
| Manifest.EnabledOfAppend | internal/manifest/manifest.go:168-176 | the enabled features of two lists end to end are the two lists' enabled features end to end |
| Manifest.EnabledOfMembers | internal/manifest/manifest.go:168-176 | the enabled list holds exactly the features not marked disabled, and is no longer than the manifest |
| Manifest.FeatureManifest.constructor | internal/manifest/manifest.go:20-22 | a manifest holding the given features |
| Manifest.FeatureManifest.AddFeature | internal/manifest/manifest.go:114-129 | an invalid feature is refused with its validation error, a present name with `already exists`, and the list is unchanged; otherwise the feature is appended |
| Manifest.FeatureManifest.RemoveFeature | internal/manifest/manifest.go:131-140 | the first feature of that name is cut out and the rest keep their order; a missing name is `not found` and changes nothing |
| Manifest.FeatureManifest.GetFeature | internal/manifest/manifest.go:142-150 | the first feature of that name, or `not found` |
| Manifest.FeatureManifest.UpdateFeature | internal/manifest/manifest.go:152-161 | the updater is applied to the first feature of that name only, and the result is that feature's validation; a missing name is `not found` and changes nothing |
| Manifest.FeatureManifest.HasFeatures | internal/manifest/manifest.go:163-166 | true exactly when the manifest lists a feature |
| Manifest.FeatureManifest.GetEnabledFeatures | internal/manifest/manifest.go:168-176 | the enabled features in manifest order |
| Merge.LocalMap | internal/manifest/merge.go:54-59 | the lookup table holds exactly the names of the local features |
| Merge.LocalMapLastWins | internal/manifest/merge.go:54-59 | when a local name repeats, the table keeps the last entry of that name |
| Merge.LocalMapNames | internal/manifest/merge.go:54-59 | every table entry is filed under its own name |
| Merge.BuildLocalMap | internal/manifest/merge.go:54-59 | the loop builds the lookup table |
| Merge.MergeBase | internal/manifest/merge.go:61-101 | one merged entry per base feature, in base order |
| Merge.MergeBaseFeatures | internal/manifest/merge.go:61-101 | the base loop's entries, and the table left with exactly the local names the base does not use |
| Merge.MergeManifests | internal/manifest/merge.go:34-117 | without a local manifest the base features unchanged; otherwise the merged base features followed by the local-only features in the table's iteration order |
| Merge.MergeWithoutLocal | internal/manifest/merge.go:39-52 | with no local manifest every base feature is kept unchanged, in order, with no override flag |
| Merge.MergeBaseAt | internal/manifest/merge.go:61-101 | base feature `i` is merged against the table minus the names of the features before it |
| Merge.MergeBaseEntries | internal/manifest/merge.go:61-101 | a base feature keeps its name and options; on the first occurrence of a name the local entry sets the strategy and commands when it has them and always the disabled flag, and the entry is marked overridden; otherwise it is kept as is and marked base-only |
| Merge.MergeLength | internal/manifest/merge.go:34-117 | the result has the base's length plus the number of distinct local names absent from the base |
| Merge.MergeLocalOnlyPresent | internal/manifest/merge.go:103-113 | every local name absent from the base appears after the base entries with its last local configuration, marked local-only |
| Merge.MergeLocalOnlyOnce | internal/manifest/merge.go:103-113 | no local-only name appears twice |
| Merge.MergedEnabledFeatures | internal/manifest/merge.go:119-127 | the configurations of the merged entries that are not disabled, in order |
| Merge.MergedEnabledMembers | internal/manifest/merge.go:119-127 | a configuration is enabled in the merge exactly when some merged entry has it and it is not disabled |
| Merge.MergedEnabledMatchesManifest | internal/manifest/merge.go:119-127 | the merged enabled list agrees with the manifest's own enabled filter on the merged configurations |
| Merge.ValidateLocalManifestUnix | internal/manifest/merge.go:154-176 | a file passes exactly when its owner is unknown, or it belongs to the current user and is writable by neither group nor others; a writable file's error gives its permission bits in octal |
| Merge.ValidateLocalManifest | internal/manifest/merge.go:131-152 | a missing file passes, a stat error and a non-regular file fail, Windows files pass, and otherwise the Unix rule decides |
| Merge.ParseManifest | internal/manifest/manifest.go:74-94 | a manifest parses exactly when it can be read, decoded and every feature is valid; its features are returned unchanged |
| Merge.ParseManifestWithLocal | internal/manifest/merge.go:193-223 | fails exactly when the base manifest does not parse; a local manifest that is missing, unsafe or invalid is ignored, else it is merged in |
| ShellOps.DefaultedConfigFields | internal/shell/operations.go:87-107 | explicit strategy and commands are kept; a missing strategy comes from the catalog; missing commands come from the catalog only for an on-command catalog feature; name, disabled flag and options are passed through |
| ShellOps.DefaultedCatalogFeatureValid | internal/shell/operations.go:87-111 | a catalog feature added with neither strategy nor commands always passes validation |
| ShellOps.AddToManifest | internal/shell/operations.go:72-117 | a missing shell directory starts from an empty manifest; a parse failure, an invalid feature and a duplicate name each fail with their wrapped message and write nothing; otherwise the defaulted feature is appended and written |
| ShellOps.NewFeatureFile | internal/shell/operations.go:119-138 | an unsupported shell fails; a feature with a catalog template gets the rendered template or `failed to write feature template: …`; any other gets the generic template at its feature path |
| ShellOps.InitializeShellDirectory | internal/shell/operations.go:25-69 | writes an empty manifest; a supported shell gets the init script of an empty manifest; any other shell fails with the init-script error wrapped twice as `failed to generate init script: …` |
| ShellOps.InitializeOutcome | internal/shell/operations.go:25-69 | initialisation passes exactly for a supported shell |
| ShellOps.AddFeatureToShell | internal/shell/operations.go:72-147 | a missing directory for a shell the generator does not know fails initialisation with `failed to initialize shell directory: …` and adds nothing; otherwise the manifest is written exactly when the feature can be added; success means both the manifest and the feature file were produced, the file being the catalog template or the generic one |
| ShellOps.GenerateFeatureTemplate | internal/shell/operations.go:149-188 | the header with shebang, name and description (the feature's name when the catalog has none), then the options block when options are set |
| ShellOps.AppendOptionComments | internal/shell/operations.go:177-185 | the heading, one comment line per option in the map's visiting order, and a blank line |
| ShellOps.OptionLinesMention | internal/shell/operations.go:180-182 | every visited option has its comment line |
| ShellOps.OptionsBlockShape | internal/shell/operations.go:177-185 | whatever the visiting order, the block starts with its heading and has a line for every option |
| ShellOps.FeatureTemplateShape | internal/shell/operations.go:149-188 | the file starts with the header lines; with no options it is just the header; with options it holds the heading and a line for every option |
| ShellOps.Updated | internal/manifest/manifest.go:152-161 | a missing name is `not found`; success needs the name to be present |
| ShellOps.UpdateAndWrite | internal/shell/operations.go:251-324 | a parse failure is `failed to parse manifest: …`; a failed update is reported and nothing is written; otherwise the updated manifest is written |
| ShellOps.EnableFeature | internal/shell/operations.go:280-301 | succeeds exactly when the feature exists and stays valid once enabled, and then writes the updated manifest |
| ShellOps.DisableFeature | internal/shell/operations.go:303-324 | succeeds exactly when the feature exists and stays valid once disabled, and then writes the updated manifest |
| ShellOps.EnableFeatureWithOptions | internal/shell/operations.go:251-278 | enables the feature, taking the given strategy and commands when set, and writes the manifest exactly when the result is valid |
| ShellOps.SetDisabledOnlyFlag | internal/shell/operations.go:280-324 | enabling or disabling succeeds exactly when the feature exists and is valid, and changes its disabled flag and nothing else in the manifest |
| ShellOps.EnableWithNothingIsEnable | internal/shell/operations.go:258-266 | enabling with no strategy and no commands is plain enabling |
| ShellOps.DisableDropsFromEnabled | internal/shell/operations.go:303-324 | after disabling, the enabled list is the old one without that feature |
| ShellOps.EnableAddsToEnabled | internal/shell/operations.go:280-301 | after enabling, the feature joins the enabled list at its manifest position |
| ShellOps.DisableThenEnable | internal/shell/operations.go:280-324 | disabling an enabled, valid feature and enabling it again gives back the manifest |
| ShellOps.NeedsCleanup | internal/shell/operations.go:234-243 | a parse failure is reported; otherwise cleanup is needed exactly when the manifest is empty |
| ShellOps.Removed | internal/manifest/manifest.go:131-140 | removal fails exactly when the name is missing and otherwise shortens the manifest by one |
| ShellOps.RemoveFeatureFromShell | internal/shell/operations.go:190-232 | parse and removal failures write nothing; otherwise the shortened manifest is written, an unsupported shell then fails, and on success the feature file and, for `oh-my-posh`, its theme are deleted when present |
| ShellOps.RemoveUndoesAdd | internal/shell/operations.go:72-232 | removing a feature just appended gives back the manifest it was added to |
| ShellOps.RemovingLastLeavesEmpty | internal/shell/operations.go:190-243 | once a shell's only feature is removed, the manifest is empty and the shell needs cleanup |
| ShellOps.KeptNamesListed | internal/shell/operations.go:340-349 | a name is listed exactly when some accepted entry has it |
| ShellOps.ListShellsWithFeatures | internal/shell/operations.go:326-352 | no `omd-shells` directory means no shells; a read error is reported; otherwise the entries that are shells, in listing order |
| ShellOps.ShellEntryListed | internal/shell/operations.go:340-349 | a name is listed exactly when some directory entry of that name, other than `lib`, has a manifest |
| Options.SplitAtFirstEquals | internal/options/prompts.go:27 | no split exactly when the text has no `=`; otherwise the key holds no `=` and key, `=` and value give back the text |
| Options.OptionsByName | internal/options/prompts.go:21-24 | every declared option is in the table, and each entry is a declaration filed under its own name |
| Options.ParseOptionValue | internal/options/prompts.go:159-180 | strings and enums are taken as typed; integers parse as 64-bit decimal or fail; booleans follow `ParseBool`; files and paths are expanded; any other type is `unsupported option type: …` |
| Options.ParseOverride | internal/options/prompts.go:26-48 | a text without `=` is the format error; an accepted override has a non-empty trimmed key naming a declared option, and a value that parses and validates |
| Options.ParseOptionOverrides | internal/options/prompts.go:15-54 | no overrides give the empty map; otherwise the loop stops at the first bad override and returns its error, else the map of every override |
| Options.FoldOverridesOk | internal/options/prompts.go:26-50 | the overrides are accepted exactly when every one of them is |
| Options.FoldOverridesKeeps | internal/options/prompts.go:26-50 | keys no override names keep their value |
| Options.FoldOverridesLastWins | internal/options/prompts.go:26-50 | a key given twice takes the value of its last override |
| Options.FoldOverridesKeys | internal/options/prompts.go:26-50 | the result names no key beyond the starting ones and the overridden ones |
| Options.ResolveOptionDefault | internal/options/prompts.go:182-197 | a required option without default is an error, an optional one has no value, and a default is used exactly when it passes validation |
| Options.ResolveOptionsForNonInteractiveWithOverrides | internal/options/prompts.go:135-157 | the overrides, then each option without one resolved to its default in declaration order, stopping at the first error |
| Options.ResolveDefaultsOk | internal/options/prompts.go:141-156 | resolution succeeds exactly when every option without an override has a usable default or is optional |
| Options.ResolveDefaultsKeeps | internal/options/prompts.go:136-156 | overrides are kept unchanged, and the only keys added name declared options |
| Options.ResolveDefaultsFills | internal/options/prompts.go:141-156 | with distinct option names, an option without override is present exactly when it has a default, and then holds that default |
| Options.ResolveDefaultsSpec | internal/options/prompts.go:135-157 | success, kept overrides, filled defaults and nothing else, together |
| Options.HasRequiredOptions | internal/options/prompts.go:367-374 | true exactly when some declared option is required |
| Shells.SupportedShellsTable | internal/shell/types.go:12-46 | exactly five shells, each filed under its own name |
| Shells.ShellNamesListed | internal/shell/types.go:12-46 | the supported shells are bash, zsh, fish, powershell and posix |
| Shells.ShellExtensions | internal/shell/types.go:12-46 | bash and posix use `.sh`, zsh `.zsh`, fish `.fish` and powershell `.ps1` |
| Shells.GetShellConfig | internal/shell/types.go:48-52 | a configuration exactly for a supported shell, and it carries that shell's name |
| Shells.IsShellSupported | internal/shell/types.go:54-57 | true exactly for the five supported shells |
| Shells.ExtensionTablesDisagreeOnlyForZsh | internal/shell/types.go:12-46 | the shell table and the template package agree on every extension except zsh's (`.zsh` against `.sh`) |
| Shells.NormalizeShellName | internal/shell/detection.go:48-67 | the base name without `.exe`, `.bat` or `.cmd`, lower-cased; `pwsh` and `powershell` become `powershell`, `sh` and `dash` become `posix` |
| Shells.NormalizeShellPath | internal/shell/detection.go:48-67 | the directory part of a path does not matter |
| Shells.NormalizeLowercaseWord | internal/shell/detection.go:48-67 | a plain lower-case word keeps its name except for the four aliases |
| Shells.NormalizeSupportedNames | internal/shell/detection.go:48-67 | every supported shell's name normalises to itself |
| Shells.Candidate | internal/shell/detection.go:23-42 | a variable's value designates a shell only when it is non-empty and its normalised base name is supported |
| Shells.DetectCurrentShell | internal/shell/detection.go:12-46 | Windows with a PowerShell distribution channel is powershell; otherwise `$SHELL`, then `$0`, decide when they name a supported shell; else `could not detect current shell`; a detected shell is always supported |
| Shells.DetectFromShellVariable | internal/shell/detection.go:23-31 | outside Windows, `$SHELL` set to `<dir>/<shell>` selects that shell |
| Shells.ResolveProfilePath | internal/shell/detection.go:69-97 | `$PROFILE` is taken from the environment or defaults under the home directory; a `~/` path is joined to the home directory; any other path is kept; an error arises exactly when the home directory is needed and unknown |
| Shells.GetInitScriptPath | internal/shell/detection.go:104-112 | the shell's init script in its directory, or `unsupported shell: …` exactly for an unknown shell |
| Shells.GetFeatureFilePath | internal/shell/detection.go:129-138 | `<features dir>/<feature><extension>`, or `unsupported shell: …` exactly for an unknown shell |
| Shells.ShellDirectoryExists | internal/shell/detection.go:140-144 | true exactly when the shell's directory is an existing directory |
| Templates.GetShellExtension | internal/catalog/template.go:182-191 | fish `.fish`, powershell `.ps1`, every other shell `.sh` |
| Templates.HasFeatureTemplate | internal/catalog/template.go:48-66 | true exactly when the shell's own template is embedded, or the shell is POSIX-compatible and the `posix.sh` template is |
| Templates.GetFeatureTemplate | internal/catalog/template.go:26-46 | a template is found exactly when `HasFeatureTemplate` says so; the shell's own wins over the `posix.sh` fallback, which only POSIX-compatible shells use |
| Templates.GetOptionString | internal/catalog/template.go:153-165 | a string option that is not blank, else the default |
| Templates.GetOptionBool | internal/catalog/template.go:167-180 | a boolean option, else the default |
| Templates.BuildTemplateContext | internal/catalog/template.go:133-151 | name, shell and options always; the oh-my-posh theme, theme URL, config file, default config path and auto-upgrade flag only for oh-my-posh, from the options with their defaults |
| Templates.WriteFeatureTemplate | internal/catalog/template.go:68-94 | a missing template's error, a render failure as `failed to render feature template: …`, or the rendered text for `<repo>/omd-shells/<shell>/features/<feature><ext>` |
| Update.LeadIdentDots | cmd/update.go:195 | the leading run of identifier characters and dots stops at the first other character |
| Update.LeadIdentDotsOf | cmd/update.go:195 | the run over identifiers followed by a `+`, or the end, is exactly the identifiers |
| Update.ParseIds | cmd/update.go:195 | accepted identifiers are non-empty, made of `[0-9A-Za-z-]`, and joined by dots give back the text |
| Update.ParseSuffixes | cmd/update.go:195 | accepted `-pre` and `+build` parts are identifier lists and together give back the text |
| Update.DotNumber | cmd/update.go:195 | an accepted leading number is all digits and, with its dot and the rest, gives back the text |
| Update.ParseCore | cmd/update.go:195 | an accepted core is three numbers and the suffixes, and renders back to the text |
| Update.ParseVersion | cmd/update.go:195 | an accepted version is well formed and renders back to the text |
| Update.IsValidVersionFormat | cmd/update.go:187-198 | the empty text is refused |
| Update.ParseRender | cmd/update.go:195 | every well-formed version, with or without `v`, with any pre-release and build identifiers, is recognised and read back into the same parts |
| Update.ValidIffShape | cmd/update.go:187-198 | a text is accepted exactly when it is `v?N.N.N(-ids)?(+ids)?` for some numbers and identifiers |
| Update.WithVPrefix | cmd/update.go:64-66 | a non-empty version starts with `v` afterwards; the text is kept or gets one `v` in front |
| Update.StripOneV | cmd/update.go:111-114 | one leading `v` is dropped and nothing else |
| Update.WithVPrefixFacts | cmd/update.go:57-66 | adding the prefix twice is adding it once, and keeps an accepted version accepted |
| Update.CurrentVersionStripsOneV | cmd/update.go:104-116 | prefixing the running version and stripping one `v` again gives the text with at most one leading `v` removed |
| Update.RequestedUpdate | cmd/update.go:52-99 | a malformed request is refused with `Invalid version format: …`; the install happens exactly when the request is well formed and its `v`-prefixed tag is found among the releases, and installs that tag |
| Update.LatestUpdate | cmd/update.go:101-183 | the install happens exactly when both versions parse, the release lookups succeed, a release exists and it is not at or below the running version; it is already up to date exactly when the latest is at or below it |
| UpdateNotify.TopLevelCommandName | cmd/update_notify.go:38-44 | the command just below the root, or the root itself for a bare invocation |
| UpdateNotify.AsyncCommands | cmd/update_notify.go:46-57 | `add`, `remove`, `apply` and `doctor` check in the background; `push` checks synchronously; nothing else checks |
| UpdateNotify.StoredTestAgrees | cmd/update_notify.go:74-76 | the test on the stored state agrees with the repository's own test on every state, and an unknown stored text asks for nothing |
| UpdateNotify.Notice | cmd/update_notify.go:59-72 | a notice exactly for a remote-ahead, significantly-ahead, diverged or local-ahead state |
| UpdateNotify.NoticeForEveryChange | cmd/update_notify.go:59-72 | every state except up to date has a notice |
| UpdateNotify.FreshWindow | cmd/update_notify.go:97-99 | a check cached at a positive time is fresh for strictly less than 20 minutes after it |
| UpdateNotify.EffectiveState | cmd/update_notify.go:100-103 | a named state is kept; an unnamed state with the flag set counts as remote-ahead |
| UpdateNotify.Notifier.constructor | cmd/update_notify.go:17-36 | the cached time, state and flag as stored, with nothing pending |
| UpdateNotify.Notifier.Cache | cmd/update_notify.go:78-83 | stores the check time, the state's name and whether it asks for a pull, which agree with each other |
| UpdateNotify.Notifier.StartAsync | cmd/update_notify.go:85-129 | other commands and non-repositories change nothing; a fresh cache only sets the immediate notice when the cached state asks for a pull; otherwise a check is started at the current second |
| UpdateNotify.Notifier.FinishAsync | cmd/update_notify.go:131-168 | an immediate notice prints the cached state's message; an arrived result is cached and printed exactly when it asks for a pull; an error or a timeout prints nothing; the pending check is cleared |
| UpdateNotify.Notifier.WarnSync | cmd/update_notify.go:170-194 | only `push` in a repository with a successful check caches the result and warns, exactly when the state is not up to date |
| Util.ExpandPath | util/fileSystem.go:37-61 | the separator-trimming loop computes the home expansion the reference definition gives: empty paths fail, `~` is the home directory, `~/x` and `~\x` join the home directory and `x`, other paths are unchanged |
| Util.Loaded | util/linkings.go:35-53 | a missing file is the empty table, a stored table is returned as is, and an error arises exactly when the file cannot be read or decoded |
| Util.LinkingsStore.constructor | util/linkings.go:35-53 | a store over the given state of the links file |
| Util.LinkingsStore.GetLinkings | util/linkings.go:35-53 | the table the file holds, as `Loaded` says |
| Util.LinkingsStore.SaveLinkings | util/linkings.go:55-74 | the file afterwards holds exactly the given table |
| Util.LinkingsStore.AddLinking | util/linkings.go:15-22 | an unreadable file is `error getting links: …` and is left alone; otherwise the table afterwards is the old one with the name mapped to the link |
| Util.LinkingsStore.RemoveLinking | util/linkings.go:24-33 | an unreadable file is `error getting links for removal: …` and is left alone; otherwise the table afterwards is the old one without the name |
| Util.RemoveUndoesAdd | util/linkings.go:15-33 | removing a name just added leaves the other entries, and the whole table when the name was new |
| Util.BuildLinkPathAsWritten | util/linkings.go:76-96 | as written: an unknown home directory is `error getting home directory: …`; otherwise the home directory is cut as a text prefix and replaced by `~` |
| Util.BuildLinkPath | util/linkings.go:76-96 | corrected: an unknown home directory is the same error; a path outside the home directory, by whole components, is kept absolute |
| Util.BuildLinkPathAgrees | util/linkings.go:87-90 | whenever the text-prefix test and the component test agree, the as-written and corrected link paths are equal |
| Util.ExpandBelowHome | util/fileSystem.go:37-61 | `~/rest` expands to the cleaned join of the home directory and `rest` |
| Util.LinkPathRoundTrip | util/linkings.go:76-96 | for a clean absolute home directory, expanding the corrected link path gives back the file's absolute path |
| Util.MisroutedLinkExpanded | util/fileSystem.go:37-61 | the link `~v/x` expands to `<home>/v/x` |
| Util.LinkPathAsWrittenMisroutes | util/linkings.go:87-90 | counterexample: for home `/…/u` and file `/…/uv/x` the as-written link is `~v/x`, which expands to `/…/u/v/x`, another file; the corrected link keeps `/…/uv/x` |
| Validation.ValidateString | internal/validation/validation.go:60-91 | a string passes exactly when it is at most 500 bytes, has no NUL and matches no suspicious pattern; each failure has the source's message, checked in the source's order |
| Validation.IntValueOf | internal/validation/validation.go:96-112 | an integer is itself; a value that is neither integer nor string has none |
| Validation.CheckIntBounds | internal/validation/validation.go:114-122 | passes exactly within the optional minimum and maximum; below the minimum has its message |
| Validation.ValidateInt | internal/validation/validation.go:93-131 | passes exactly when the value is an integer, or a string parsing as a 64-bit decimal, within the bounds; the parse and type failures have their messages, the value quoted as `strconv.Quote` does; a parse error is `value out of range` exactly when Go's parse ends in `ErrRange` |
| Validation.LongDigitRunOverflows | internal/validation/validation.go:105-107 | a run of digits worth more than uint64 followed by a non-digit, or by nothing, is refused with `value out of range`, not `invalid syntax` |
| Validation.NinesThenLetterOverflows | internal/validation/validation.go:105-107 | `99999999999999999999x` is refused with `value out of range` |
| GoStrings.ScanUintSpec | internal/validation/validation.go:105 | the digit loop of `ParseUint` overflows exactly when the leading digits are worth more than uint64, and otherwise yields their value exactly when the text is all digits |
| GoStrings.ParseIntStepsAgrees | internal/validation/validation.go:105 | Go's parse step by step accepts exactly what the reference `ParseInt64` accepts, with the same value, and reports a range error exactly for an all-digit text beyond int64 or leading digits beyond uint64 |
| Validation.BoolWordsMembers | internal/validation/validation.go:350-368 | the accepted spellings are the true and the false words |
| Validation.ParseBool | internal/validation/validation.go:350-368 | a boolean is itself; a string is accepted exactly when, trimmed and lower-cased, it is one of the eight spellings, and is true exactly for `true`, `1`, `yes` and `y`; anything else cannot be converted |
| Validation.BoolOutcome | internal/validation/validation.go:133-159 | passes exactly when `ParseBool` accepts the value |
| Validation.ValidateBool | internal/validation/validation.go:133-159 | the scan over the spellings passes exactly when `ParseBool` accepts the value |
| Validation.ParseBoolCanonical | internal/validation/validation.go:350-368 | `true` and `false` parse back to the boolean they spell |
| Validation.ValidateEnum | internal/validation/validation.go:161-179 | passes exactly when the value is one of the allowed strings; an option with none has its own message |
| Validation.HasPathTraversal | internal/validation/validation.go:389-400 | true exactly when `..` is a whole segment, with `/` and `\` both separators |
| Validation.NoTraversalCleanComps | internal/validation/validation.go:389-400 | a path without `..` segments keeps none after cleaning |
| Validation.ExpandTilde | internal/validation/validation.go:188-194 | a path without `~` is kept; with `~` it needs the home directory and joins it to the rest |
| Validation.CheckExists | internal/validation/validation.go:211-312 | a missing path `does not exist`; an accepted path exists and can be inspected, is no directory when a file is required, and is itself unless it is a symbolic link |
| Validation.ResolveOptionPath | internal/validation/validation.go:181-329 | an accepted path expands, has no `..` segment, and is either the cleaned absolute path or, when it must exist, an existing entry of the right kind |
| Validation.ValidateFileOrPath | internal/validation/validation.go:181-329 | a non-string is refused; a path passes exactly when it resolves and, when restricted to the home directory, lies within it |
| Validation.ExpandPath | internal/validation/validation.go:370-387 | fails exactly when a `~` path meets an unknown home directory; the result is absolute and clean; an absolute path without `~` is just cleaned |
| Validation.IsWithinBasePath | internal/validation/validation.go:415-429 | the `filepath.Rel` test agrees with the component-wise containment of the cleaned paths |
| Validation.WithinAbsoluteBase | internal/validation/validation.go:415-429 | under an absolute base, a path is within it exactly when it is absolute and its components start with the base's |
| Validation.RelCleanWithin | internal/validation/validation.go:415-429 | the relative path starts with no `..` exactly when the target lies within the base |
| Validation.ValidateOption | internal/validation/validation.go:29-58 | an empty value passes exactly when the option is optional; otherwise the value goes to the checker of its type, and an unknown type is refused |
| Validation.SanitizeString | internal/validation/validation.go:331-348 | NUL bytes are dropped, backslashes doubled and each shell metacharacter preceded by a backslash |
| Validation.RemoveNul | internal/validation/validation.go:333 | no NUL byte is left |
| Validation.SanitizeRoundTrip | internal/validation/validation.go:331-348 | reading the sanitised text with backslash as a literal-next escape gives back the input without its NUL bytes |
| Values.TypeName | internal/validation/validation.go:63 | the Go type name `%T` prints for a value |

The two extension tables of the source are modelled as written and not
reconciled:

- the shell table gives zsh feature files the `.zsh` extension;
- the template package gives zsh templates `.sh`.

`Shells.ExtensionTablesDisagreeOnlyForZsh` states that they differ for zsh
alone.

## Left out

- **Git plumbing.** Clone, init, open, stage, commit, push, pull, status and
  remote listing are go-git calls and are not modelled. So is the
  `util/repo.go` duplicate of the git layer. The commit graph is given as a map
  from a hash to its parents' hashes.
- Git.GetRemoteSyncState: starts from the local and remote branch hashes.
  - The steps that obtain those hashes are go-git calls and are not modelled
    (internal/git/repo.go:307-348). They read the repository path, open the
    repository, read HEAD, reject a detached HEAD, find `origin` and list its
    references.
  - A failure to read the remote commit other than "object not found" is not
    modelled either, because a hash outside the graph stands for exactly that
    case.
- **File system and JSON.**
  - Reads, writes, removals and directory listings are not modelled.
  - `json.Unmarshal` and `MarshalIndent` are not modelled.
  - A manifest or linkings file is given as what reading and decoding it
    yields: absent, unreadable, undecodable, or the decoded records.
  - A profile is given as its text. Sets of existing paths stand for `Stat`
    and `ReadDir`.
  - Operations return the text they would write. The write errors that follow
    are not modelled.
- Hooks.InsertHook: reads the profile once.
  - The source reads it a second time after the marker test
    (internal/hooks/hooks.go:109-113).
  - The "failed to read profile" error of that second read is not modelled.
  - Neither is the write error.
- Util.LinkingsStore.SaveLinkings: always stores the map.
  - The marshal error and the write error are not modelled.
  - The git staging that follows the save is not modelled.
- ShellOps.InitializeShellDirectory: the creation of the shell, features and
  `lib` directories and of `lib/helpers.sh` is not modelled, nor are the write
  errors of the empty manifest and the init script. What can fail without the
  disk failing is modelled: generating the init script for a shell the
  generator does not know.
- `CleanupShellDirectory` and `RegenerateAllInitScripts` are not modelled.
  The first only removes directories. The second runs `RegenerateInitScript`
  for each listed shell. `RegenerateInitScript` itself is `GenerateInitScript`
  followed by a file write. It is modelled only as the step inside
  `InitializeShellDirectory`.
- **Security syscalls.**
  - `internal/manifest/merge_unix.go` is not modelled: `O_NOFOLLOW`, `Fstat`
    and the parent-directory checks.
  - `internal/manifest/merge_windows.go` is not modelled: the ACL walk.
  - The uid and permission-bit test of `merge.go` is modelled, with the
    `Lstat` result as a parameter.
- **Paths.**
  - `filepath` is modelled for Unix only, so `ToSlash` is the identity.
  - The working directory that `filepath.Abs` needs is a parameter, so the
    `Getwd` error is not modelled.
  - `Lstat` and `EvalSymlinks` of path options are not modelled.
- **Template rendering.** `text/template` rendering is the parameter `render`.
  The embedded template files are a map from path to content.
- **Value printing.** Go's `%v` printing of option values is the parameter
  `show`.
- **Map iteration order.** Go gives no fixed order. Where the source iterates a
  map, the order is a parameter that must list the keys, and the contracts hold
  for every such order. The file picker's selection is a set for the same
  reason.
- **Regular expressions.** Each pattern is written out as a predicate. The
  regexp engine is not modelled.
- **Floating point.** The `float64` branch of `validateInt`
  (internal/validation/validation.go:102-103) is not modelled. A JSON number
  is an `Other` value.
- Validation.ValidateString: the option's custom `Validator` hook is not
  modelled.
- Validation.ValidateInt: the option's custom `Validator` hook
  (internal/validation/validation.go:125-126) is not modelled. No catalog
  option sets one.
- Validation.ValidateBool: the option's custom `Validator` hook
  (internal/validation/validation.go:142-143 and 153-154) is not modelled. No
  catalog option sets one.
- Validation.ValidateFileOrPath: the option's custom `Validator` hook
  (internal/validation/validation.go:251-252 and 323-324) is not modelled. No
  catalog option sets one.
- Merge.ParseManifestWithLocal: the warnings printed to standard error when
  the local manifest is unsafe or does not parse
  (internal/manifest/merge.go:209 and 217) are not modelled. Only the fact
  that the local manifest is then ignored is modelled.
- Validation.ValidateInt: `strconv.Quote` is modelled for ASCII only; its
  `\u` escapes of non-printable characters past ASCII are not modelled, so
  such characters appear in the message as they are.
- Hooks.HasHook: `bufio.Scanner` fails on a line longer than 64 KiB, and the
  source then returns `bufio.ErrTooLong` unless the marker came earlier. The
  model reads every line; such a profile must be given as `Unreadable`.
- Hooks.RemoveHook: the same 64 KiB line limit makes the source fail with
  `failed to read profile: …`. The model reads every line; such a profile must
  be given as `Unreadable`, which gives the open error's message instead.
- Hooks.NeedsBashLoginShimAsWritten: the same 64 KiB line limit makes the
  source return the scanner's error when no earlier line settled the answer.
  The model reads every line; such a profile must be given as `Unreadable`.
- FeatureCmd.AddToTargets: a target named twice fails because the manifest
  written by the first addition is read back. The model takes that read to
  succeed; the read and write errors are the `addError` parameter.
- **User interface.** Not modelled:
  - bubbletea and lipgloss rendering, every `View` method and `tea.Program`;
  - the text input's character limit;
  - the file picker's directory listing and navigation;
  - coloured printing;
  - cobra wiring.
  
  The prompts are represented by the keys delivered to them and the answers
  they give. The prompt loops of `internal/options/prompts.go:62-125` and
  `199-364` are not modelled.
- **Concurrency.** The goroutine, channel, mutex and 150 ms timeout of the
  background update check are not modelled. The check's outcome is given, or
  its absence when it did not arrive in time.
- **Network and releases.** The release lookup, semantic-version parsing and
  ordering, and the self-update download are parameters.
- **Build script commands.** The shell commands of the build script are not
  run; their outputs (the commit hash, the nearest tag) are parameters.
  JavaScript numbers beyond 2^53 are not modelled, because a tag's counters
  are assumed to stay below that.
- Doctor.RunDoctor: takes each check's result as given. What the checks
  inspect on disk is not modelled.
- FeatureCmd.SortFeaturesByCategory: is an insertion sort.
  - The contract states the order and the permutation that `sort.Slice`
    promises for this comparison.
  - The source's sort is not stable, so no order is claimed among features
    with the same rank and the same name.
- **Integer widths.** Integers are unbounded. The one place where Go's width
  changes an outcome is the parsing of an integer option value. There the
  64-bit range is modelled, and so is the digit loop of `strconv.ParseUint`.
  That loop stops with a range error at the first digit that takes the value
  past uint64, before it reads anything after that digit.

## Findings

| source | as written | input that shows it | evidently intended | confidence | as-written member | corrected member |
|---|---|---|---|---|---|---|
| internal/hooks/hooks.go:212-226 | Every line starting with `#` is skipped before the start-marker test, and the marker itself starts with `#`, so the marker test never fires | a `.bash_profile` holding only the shim for `/etc/bashrc` is reported as still needing the shim, because no line of that shim contains `.bashrc` | a profile that already holds the shim's marker needs no shim | not executed | Hooks.ShimAsWrittenMissesOwnShim | Hooks.ShimInsertedNotNeeded |
| util/linkings.go:87-90 | the home directory is removed from the start of the path by text prefix, not by whole path components | home `/h/u` and file `/h/u2/x` give the link `~2/x`, which expands back to `/h/u/2/x` | only paths inside the home directory are written with `~` | not executed | Util.LinkPathAsWrittenMisroutes | Util.LinkPathRoundTrip |
