/** The shell operations that read a shell's manifest, change it and write it back:
    adding, enabling, disabling and removing a feature, the cleanup test, the
    generic feature-file template and the listing of initialised shells.
    A manifest is given as what parsing `enabled.json` yields; the operations
    return the manifest and the files they would write instead of writing them. */
module ShellOps {
  import opened Wrappers
  import opened Values
  import opened GoStrings
  import opened Manifest
  import Catalog
  import Templates
  import Shells
  import GoPaths
  import InitGen
  import InitScripts
  import Merge

  const OhMyPoshThemeFileName: string := "oh-my-posh.omp.json"

  // ------------------------------------------------------- AddFeatureToShell

  /** The configuration `AddFeatureToShell` stores: an empty strategy takes the
      catalog's default strategy, and an empty command list takes the catalog's
      default commands when that default strategy is on-command. */
  function DefaultedConfig(name: string, strategy: string, onCommand: seq<string>,
                           disabled: bool, options: map<string, Value>): FeatureConfig
  {
    var meta := Catalog.GetFeature(name);
    var s := if strategy == "" && meta.Some? then meta.value.defaultStrategy else strategy;
    var cmds := if onCommand == [] && meta.Some? && meta.value.defaultStrategy == "on-command"
                then meta.value.defaultCommands else onCommand;
    FeatureConfig(name, s, cmds, disabled, options)
  }

  /** Explicit values are kept; defaults come from the catalog only where a value is missing. */
  lemma DefaultedConfigFields(name: string, strategy: string, onCommand: seq<string>,
                              disabled: bool, options: map<string, Value>)
    ensures var c := DefaultedConfig(name, strategy, onCommand, disabled, options);
      c.name == name && c.disabled == disabled && c.options == options
      && (strategy != "" ==> c.strategy == strategy)
      && (strategy == "" && name in Catalog.Catalog ==> c.strategy == Catalog.Catalog[name].defaultStrategy)
      && (strategy == "" && name !in Catalog.Catalog ==> c.strategy == "")
      && (onCommand != [] ==> c.onCommand == onCommand)
      && (onCommand == [] && name in Catalog.Catalog && Catalog.Catalog[name].defaultStrategy == "on-command"
          ==> c.onCommand == Catalog.Catalog[name].defaultCommands)
      && (onCommand == [] && !(name in Catalog.Catalog && Catalog.Catalog[name].defaultStrategy == "on-command")
          ==> c.onCommand == [])
  {
  }

  /** A catalog feature added with no strategy and no commands always validates. */
  lemma DefaultedCatalogFeatureValid(name: string, disabled: bool, options: map<string, Value>)
    requires name in Catalog.Catalog
    ensures Validate(DefaultedConfig(name, "", [], disabled, options)).Pass?
  {
    Catalog.DefaultsValidFor(name);
    var c := DefaultedConfig(name, "", [], disabled, options);
    var d := FeatureConfig(name, Catalog.Catalog[name].defaultStrategy, Catalog.Catalog[name].defaultCommands, false, map[]);
    assert c.name == d.name && c.strategy == d.strategy && c.onCommand == d.onCommand;
  }

  /** The feature file written by `AddFeatureToShell`: the catalog template rendered
      to its target when the embedded templates have one, the generic template at
      the feature's path otherwise. */
  datatype FeatureFile = FeatureFile(path: string, content: string)

  /** The manifest half of `AddFeatureToShell`: a missing shell directory starts
      with an empty manifest; the defaulted configuration is appended. */
  method AddToManifest(name: string, strategy: string, onCommand: seq<string>, disabled: bool,
                       options: map<string, Value>, dirExists: bool, parsed: Result<seq<FeatureConfig>>)
    returns (r: Outcome, written: Option<seq<FeatureConfig>>)
    ensures var base := if dirExists then parsed else Ok([]);
      var c := DefaultedConfig(name, strategy, onCommand, disabled, options);
      && (base.Err? ==> r == Fail("failed to parse manifest: " + base.msg) && written == None)
      && (base.Ok? && Validate(c).Fail? ==>
            r == Fail("failed to add feature to manifest: " + Validate(c).msg) && written == None)
      && (base.Ok? && Validate(c).Pass? && FirstIndex(base.value, name).Some? ==>
            r == Fail("failed to add feature to manifest: " + ("feature '" + name + "' already exists"))
            && written == None)
      && (base.Ok? && Validate(c).Pass? && FirstIndex(base.value, name).None? ==>
            r == Pass && written == Some(base.value + [c]))
  {
    var base := if dirExists then parsed else Ok([]);
    if base.Err? {
      return Fail("failed to parse manifest: " + base.msg), None;
    }
    var c := DefaultedConfig(name, strategy, onCommand, disabled, options);
    var m := new FeatureManifest(base.value);
    var added := m.AddFeature(c);
    if added.Fail? {
      return Fail("failed to add feature to manifest: " + added.msg), None;
    }
    return Pass, Some(m.features);
  }

  /** The feature file `AddFeatureToShell` writes once the manifest is written. */
  method NewFeatureFile(repoPath: string, shell: string, name: string, options: map<string, Value>,
                        embedded: map<string, string>,
                        render: (string, Templates.TemplateContext) -> Result<string>,
                        show: Value -> string, order: seq<string>)
    returns (r: Result<FeatureFile>)
    requires IsKeyOrder(order, options)
    ensures !Shells.IsShellSupported(shell) ==> r == Err("unsupported shell: " + shell)
    ensures Shells.IsShellSupported(shell) && !Templates.HasFeatureTemplate(name, shell, embedded) ==>
      r == Ok(FeatureFile(Shells.GetFeatureFilePath(repoPath, shell, name).value,
                          FeatureTemplateText(shell, name, Catalog.GetFeature(name), options, show, order)))
    ensures Shells.IsShellSupported(shell) && Templates.HasFeatureTemplate(name, shell, embedded) ==>
      match Templates.WriteFeatureTemplate(repoPath, shell, name, options, embedded, render)
      case Err(m) => r == Err("failed to write feature template: " + m)
      case Ok(w) => r == Ok(FeatureFile(Templates.FeatureTemplateTarget(repoPath, shell, name), w.1))
  {
    var featurePath := Shells.GetFeatureFilePath(repoPath, shell, name);
    if featurePath.Err? {
      return Err(featurePath.msg);
    }
    if Templates.HasFeatureTemplate(name, shell, embedded) {
      var t := Templates.WriteFeatureTemplate(repoPath, shell, name, options, embedded, render);
      if t.Err? {
        return Err("failed to write feature template: " + t.msg);
      }
      return Ok(FeatureFile(t.value.0, t.value.1));
    }
    var text := GenerateFeatureTemplate(shell, name, Catalog.GetFeature(name), options, show, order);
    return Ok(FeatureFile(featurePath.value, text));
  }

  /** The error `InitializeShellDirectory` reports for a shell the init-script
      generator does not know, wrapped by `RegenerateInitScript` and by itself. */
  function InitFailure(shell: string): string {
    "failed to generate init script: " + ("failed to generate init script: " + ("unsupported shell: " + shell))
  }

  /** `InitializeShellDirectory` once its directories and `lib/helpers.sh` are in
      place: it writes an empty manifest (`manifest`), then regenerates the init
      script from it, which fails for a shell the generator does not know. The
      fresh directory has no local manifest, so the merged manifest is empty. */
  method InitializeShellDirectory(shell: string) returns (r: Outcome, manifest: seq<FeatureConfig>, script: Option<string>)
    ensures manifest == []
    ensures !Shells.IsShellSupported(shell) ==>
      r == Fail(InitFailure(shell)) && script == None
    ensures Shells.IsShellSupported(shell) ==>
      r == Pass && script == Some(InitScripts.InitScript(shell, InitGen.Categorize([]), []))
  {
    manifest := [];
    assert Merge.MergedEnabledOf([]) == [];
    var content := InitScripts.GenerateInitScript(Ok([]), shell, []);
    if content.Err? {
      return Fail(InitFailure(shell)), manifest, None;
    }
    return Pass, manifest, Some(content.value);
  }

  /** The outcome of `InitializeShellDirectory`, without the files it writes. */
  method InitializeOutcome(shell: string) returns (r: Outcome)
    ensures r == (if Shells.IsShellSupported(shell) then Pass else Fail(InitFailure(shell)))
  {
    var manifest, script;
    r, manifest, script := InitializeShellDirectory(shell);
  }

  /** `AddFeatureToShell`. `dirExists` says whether the shell's directory exists (a
      new one is initialised first and starts with an empty manifest); `parsed` is
      what parsing the existing manifest yields; `embedded` and `render` stand for
      the catalog's templates; `show` is `%v` and `order` the order in which the
      options map is visited. The manifest is written before the feature file, so a
      failure there leaves the feature in the manifest. */
  method AddFeatureToShell(repoPath: string, shell: string, name: string, strategy: string,
                           onCommand: seq<string>, disabled: bool, options: map<string, Value>,
                           dirExists: bool, parsed: Result<seq<FeatureConfig>>,
                           embedded: map<string, string>,
                           render: (string, Templates.TemplateContext) -> Result<string>,
                           show: Value -> string, order: seq<string>)
    returns (r: Outcome, written: Option<seq<FeatureConfig>>, file: Option<FeatureFile>)
    requires IsKeyOrder(order, options)
    ensures !dirExists && !Shells.IsShellSupported(shell) ==>
      r == Fail("failed to initialize shell directory: " + InitFailure(shell)) && written == None && file == None
    ensures var base := if dirExists then parsed else Ok([]);
      var c := DefaultedConfig(name, strategy, onCommand, disabled, options);
      written == (if (dirExists || Shells.IsShellSupported(shell))
                     && base.Ok? && Validate(c).Pass? && FirstIndex(base.value, name).None?
                  then Some(base.value + [c]) else None)
    ensures written.Some? && !Shells.IsShellSupported(shell) ==>
      r == Fail("unsupported shell: " + shell) && file == None
    ensures r.Pass? <==> written.Some? && file.Some?
    ensures r.Pass? && !Templates.HasFeatureTemplate(name, shell, embedded) ==>
      file == Some(FeatureFile(Shells.GetFeatureFilePath(repoPath, shell, name).value,
                               FeatureTemplateText(shell, name, Catalog.GetFeature(name), options, show, order)))
    ensures r.Pass? && Templates.HasFeatureTemplate(name, shell, embedded) ==>
      file.value.path == Templates.FeatureTemplateTarget(repoPath, shell, name)
  {
    if !dirExists {
      var init := InitializeOutcome(shell);
      if init.Fail? {
        return Fail("failed to initialize shell directory: " + init.msg), None, None;
      }
    }
    var added;
    added, written := AddToManifest(name, strategy, onCommand, disabled, options, dirExists, parsed);
    if added.Fail? {
      return added, None, None;
    }
    var f := NewFeatureFile(repoPath, shell, name, options, embedded, render, show, order);
    if f.Err? {
      return Fail(f.msg), written, None;
    }
    return Pass, written, Some(f.value);
  }

  // ------------------------------------------------- generateFeatureTemplate

  /** The first line of a generic feature file; "" for an unknown shell. */
  function Shebang(shell: string): string {
    if shell == "bash" then "#!/usr/bin/env bash"
    else if shell == "zsh" then "#!/usr/bin/env zsh"
    else if shell == "fish" then "#!/usr/bin/env fish"
    else if shell == "posix" then "#!/usr/bin/env sh"
    else if shell == "powershell" then "# PowerShell"
    else ""
  }

  /** The catalog description, or the feature's name when there is none. */
  function Description(name: string, meta: Option<Catalog.FeatureMetadata>): string {
    if meta.Some? && meta.value.description != "" then meta.value.description else name
  }

  /** The first three lines of the generic template. */
  function HeaderIntro(shell: string, name: string, description: string): string {
    Shebang(shell) + "\n# oh-my-dot feature: " + name + "\n# " + description + "\n"
  }

  const HeaderTail: string := "# \n# Add your shell configuration below\n\n"

  function TemplateHeader(shell: string, name: string, description: string): string {
    HeaderIntro(shell, name, description) + HeaderTail
  }

  /** `order` lists the keys of `options`, each exactly once. */
  predicate IsKeyOrder(order: seq<string>, options: map<string, Value>) {
    (forall i, j :: 0 <= i < j < |order| ==> order[i] != order[j]) && (set n | n in order) == options.Keys
  }

  lemma KeysListed(order: seq<string>, options: map<string, Value>)
    requires IsKeyOrder(order, options)
    ensures forall i :: 0 <= i < |order| ==> order[i] in options
  {
    assert forall i :: 0 <= i < |order| ==> order[i] in (set n | n in order);
  }

  /** One comment line per option, in the visiting order; `show` is `%v`. */
  function OptionLine(key: string, value: Value, show: Value -> string): string {
    "#   " + key + ": " + show(value) + "\n"
  }

  function OptionLines(order: seq<string>, options: map<string, Value>, show: Value -> string): string
    requires forall i :: 0 <= i < |order| ==> order[i] in options
  {
    if order == [] then ""
    else
      var n := |order| - 1;
      OptionLines(order[..n], options, show) + OptionLine(order[n], options[order[n]], show)
  }

  /** The text of the generic feature file. */
  function FeatureTemplateText(shell: string, name: string, meta: Option<Catalog.FeatureMetadata>,
                               options: map<string, Value>, show: Value -> string, order: seq<string>): string
    requires IsKeyOrder(order, options)
  {
    KeysListed(order, options);
    TemplateHeader(shell, name, Description(name, meta))
    + (if |options| > 0 then "# Configured options:\n" + OptionLines(order, options, show) + "\n" else "")
  }

  /** `generateFeatureTemplate`: the header, then a block of option comments when
      options are configured. */
  method GenerateFeatureTemplate(shell: string, name: string, meta: Option<Catalog.FeatureMetadata>,
                                 options: map<string, Value>, show: Value -> string, order: seq<string>)
    returns (text: string)
    requires IsKeyOrder(order, options)
    ensures text == FeatureTemplateText(shell, name, meta, options, show, order)
  {
    KeysListed(order, options);
    var description := name;
    if meta.Some? && meta.value.description != "" {
      description := meta.value.description;
    }
    assert description == Description(name, meta);
    text := TemplateHeader(shell, name, description);
    if |options| > 0 {
      text := AppendOptionComments(text, options, show, order);
    }
  }

  /** The options block: a heading, one comment line per option in visiting order,
      and a blank line. */
  method AppendOptionComments(head: string, options: map<string, Value>, show: Value -> string, order: seq<string>)
    returns (text: string)
    requires forall i :: 0 <= i < |order| ==> order[i] in options
    ensures text == head + ("# Configured options:\n" + OptionLines(order, options, show) + "\n")
  {
    text := head + "# Configured options:\n";
    ghost var start := text;
    var i := 0;
    while i < |order|
      invariant 0 <= i <= |order|
      invariant text == start + OptionLines(order[..i], options, show)
    {
      var line := OptionLine(order[i], options[order[i]], show);
      OptionLinesSnoc(order, options, show, i);
      SeqAssoc(start, OptionLines(order[..i], options, show), line);
      text := text + line;
      i := i + 1;
    }
    assert order[..i] == order;
    text := text + "\n";
    assert text == (head + "# Configured options:\n") + OptionLines(order, options, show) + "\n";
  }

  lemma SeqAssoc(a: string, b: string, c: string)
    ensures a + (b + c) == (a + b) + c
  {
  }

  lemma OptionLinesSnoc(order: seq<string>, options: map<string, Value>, show: Value -> string, i: nat)
    requires forall i :: 0 <= i < |order| ==> order[i] in options
    requires i < |order|
    ensures OptionLines(order[..i + 1], options, show)
         == OptionLines(order[..i], options, show) + OptionLine(order[i], options[order[i]], show)
  {
    assert order[..i + 1][..i] == order[..i];
  }

  /** Every option has its own line, whatever the visiting order. */
  lemma {:induction false} OptionLinesMention(order: seq<string>, options: map<string, Value>, show: Value -> string, k: nat)
    requires forall i :: 0 <= i < |order| ==> order[i] in options
    requires k < |order|
    ensures Contains(OptionLines(order, options, show), OptionLine(order[k], options[order[k]], show))
    decreases |order|
  {
    var n := |order| - 1;
    var init := OptionLines(order[..n], options, show);
    var last := OptionLine(order[n], options[order[n]], show);
    if k == n {
      ContainsInMiddle(init, last, "");
      assert init + last + "" == init + last;
    } else {
      assert order[..n][k] == order[k];
      OptionLinesMention(order[..n], options, show, k);
      ContainsInMiddle("", init, last);
      assert "" + init + last == init + last;
      ContainsTrans(init + last, init, OptionLine(order[k], options[order[k]], show));
    }
  }

  lemma PrefixOfConcat(a: string, b: string, c: string)
    ensures HasPrefix(a + b + c, a) && HasPrefix(a + b, a)
  {
    assert (a + b + c)[..|a|] == a;
    assert (a + b)[..|a|] == a;
  }

  /** The options block has its heading and a line for every option. */
  lemma OptionsBlockShape(options: map<string, Value>, show: Value -> string, order: seq<string>)
    requires IsKeyOrder(order, options)
    requires forall i :: 0 <= i < |order| ==> order[i] in options
    ensures var block := "# Configured options:\n" + OptionLines(order, options, show) + "\n";
      HasPrefix(block, "# Configured options:\n")
      && forall key :: key in options ==> Contains(block, OptionLine(key, options[key], show))
  {
    KeysListed(order, options);
    var lines := OptionLines(order, options, show);
    var block := "# Configured options:\n" + lines + "\n";
    forall key | key in options
      ensures Contains(block, OptionLine(key, options[key], show))
    {
      var k := KeyPosition(order, options, key);
      OptionLinesMention(order, options, show, k);
      ContainsInMiddle("# Configured options:\n", lines, "\n");
      ContainsTrans(block, lines, OptionLine(key, options[key], show));
    }
  }

  /** The generic template starts with the shell's shebang line and names the
      feature and its description; without options it is the header alone, and with
      options it has the options block and a line for every option, whatever the
      visiting order. */
  lemma FeatureTemplateShape(shell: string, name: string, meta: Option<Catalog.FeatureMetadata>,
                             options: map<string, Value>, show: Value -> string, order: seq<string>)
    requires IsKeyOrder(order, options)
    ensures var t := FeatureTemplateText(shell, name, meta, options, show, order);
      && HasPrefix(t, HeaderIntro(shell, name, Description(name, meta)))
      && (|options| == 0 ==> t == TemplateHeader(shell, name, Description(name, meta)))
      && (|options| > 0 ==> Contains(t, "# Configured options:\n"))
      && (forall key :: key in options ==> Contains(t, OptionLine(key, options[key], show)))
  {
    KeysListed(order, options);
    var t := FeatureTemplateText(shell, name, meta, options, show, order);
    var intro := HeaderIntro(shell, name, Description(name, meta));
    var head := TemplateHeader(shell, name, Description(name, meta));
    if |options| > 0 {
      var block := "# Configured options:\n" + OptionLines(order, options, show) + "\n";
      assert t == intro + HeaderTail + block;
      TextWithBlock(intro, HeaderTail, block);
      OptionsBlockShape(options, show, order);
      forall key | key in options
        ensures Contains(t, OptionLine(key, options[key], show))
      {
        ContainsInRight(head, block, OptionLine(key, options[key], show));
      }
    } else {
      PrefixOfConcat(intro, HeaderTail, "");
      assert intro + HeaderTail + "" == t;
    }
  }

  /** A header followed by the options block starts with the intro and holds the
      block's heading. */
  lemma TextWithBlock(intro: string, tail: string, block: string)
    requires HasPrefix(block, "# Configured options:\n")
    ensures HasPrefix(intro + tail + block, intro)
    ensures Contains(intro + tail + block, "# Configured options:\n")
  {
    PrefixOfConcat(intro, tail, block);
    var heading := "# Configured options:\n";
    assert block == heading + block[|heading|..];
    ContainsInMiddle(intro + tail, heading, block[|heading|..]);
    assert intro + tail + heading + block[|heading|..] == intro + tail + block;
  }

  /** A key of the options map has a position in the visiting order. */
  lemma KeyPosition(order: seq<string>, options: map<string, Value>, key: string) returns (k: nat)
    requires IsKeyOrder(order, options) && key in options
    ensures k < |order| && order[k] == key
  {
    assert key in (set n | n in order);
    k :| 0 <= k < |order| && order[k] == key;
  }

  // ------------------------------------------- enable, disable and cleanup

  /** The updater of `EnableFeature` (false) and `DisableFeature` (true). */
  function SetDisabled(disabled: bool): FeatureConfig -> FeatureConfig {
    (f: FeatureConfig) => f.(disabled := disabled)
  }

  /** The updater of `EnableFeatureWithOptions`: enables the feature and replaces
      the strategy and the trigger commands only with non-empty values. */
  function EnableWith(strategy: string, onCommand: seq<string>): FeatureConfig -> FeatureConfig {
    (f: FeatureConfig) => f.(disabled := false,
            strategy := if strategy != "" then strategy else f.strategy,
            onCommand := if onCommand != [] then onCommand else f.onCommand)
  }

  /** The manifest `UpdateFeature` leaves behind when it reports success, or its error. */
  function Updated(features: seq<FeatureConfig>, name: string, updater: FeatureConfig -> FeatureConfig)
    : (r: Result<seq<FeatureConfig>>)
    ensures FirstIndex(features, name).None? ==> r == Err("feature '" + name + "' not found")
    ensures r.Ok? ==> FirstIndex(features, name).Some?
  {
    match FirstIndex(features, name)
    case None => Err("feature '" + name + "' not found")
    case Some(i) =>
      var f := updater(features[i]);
      if Validate(f).Pass? then Ok(features[i := f]) else Err(Validate(f).msg)
  }

  /** The read-modify-write every updater-based operation performs: the manifest is
      written only when the update succeeds. */
  method UpdateAndWrite(parsed: Result<seq<FeatureConfig>>, name: string, updater: FeatureConfig -> FeatureConfig)
    returns (r: Outcome, written: Option<seq<FeatureConfig>>)
    ensures parsed.Err? ==> r == Fail("failed to parse manifest: " + parsed.msg) && written == None
    ensures parsed.Ok? && Updated(parsed.value, name, updater).Err? ==>
      r == Fail(Updated(parsed.value, name, updater).msg) && written == None
    ensures parsed.Ok? && Updated(parsed.value, name, updater).Ok? ==>
      r == Pass && written == Some(Updated(parsed.value, name, updater).value)
  {
    if parsed.Err? {
      return Fail("failed to parse manifest: " + parsed.msg), None;
    }
    var m := new FeatureManifest(parsed.value);
    var u := m.UpdateFeature(name, updater);
    if u.Fail? {
      return u, None;
    }
    return Pass, Some(m.features);
  }

  /** `EnableFeature`. */
  method EnableFeature(parsed: Result<seq<FeatureConfig>>, name: string)
    returns (r: Outcome, written: Option<seq<FeatureConfig>>)
    ensures parsed.Err? ==> r == Fail("failed to parse manifest: " + parsed.msg) && written == None
    ensures parsed.Ok? ==> (r.Pass? <==> Updated(parsed.value, name, SetDisabled(false)).Ok?)
    ensures parsed.Ok? && r.Pass? ==> written == Some(Updated(parsed.value, name, SetDisabled(false)).value)
    ensures r.Fail? ==> written == None
  {
    r, written := UpdateAndWrite(parsed, name, SetDisabled(false));
  }

  /** `DisableFeature`. */
  method DisableFeature(parsed: Result<seq<FeatureConfig>>, name: string)
    returns (r: Outcome, written: Option<seq<FeatureConfig>>)
    ensures parsed.Err? ==> r == Fail("failed to parse manifest: " + parsed.msg) && written == None
    ensures parsed.Ok? ==> (r.Pass? <==> Updated(parsed.value, name, SetDisabled(true)).Ok?)
    ensures parsed.Ok? && r.Pass? ==> written == Some(Updated(parsed.value, name, SetDisabled(true)).value)
    ensures r.Fail? ==> written == None
  {
    r, written := UpdateAndWrite(parsed, name, SetDisabled(true));
  }

  /** `EnableFeatureWithOptions`. */
  method EnableFeatureWithOptions(parsed: Result<seq<FeatureConfig>>, name: string, strategy: string,
                                  onCommand: seq<string>)
    returns (r: Outcome, written: Option<seq<FeatureConfig>>)
    ensures parsed.Err? ==> r == Fail("failed to parse manifest: " + parsed.msg) && written == None
    ensures parsed.Ok? ==> (r.Pass? <==> Updated(parsed.value, name, EnableWith(strategy, onCommand)).Ok?)
    ensures parsed.Ok? && r.Pass? ==>
      written == Some(Updated(parsed.value, name, EnableWith(strategy, onCommand)).value)
    ensures r.Fail? ==> written == None
  {
    r, written := UpdateAndWrite(parsed, name, EnableWith(strategy, onCommand));
  }

  /** Switching the flag succeeds exactly when the feature is present and valid, and
      changes nothing but that feature's flag. */
  lemma SetDisabledOnlyFlag(features: seq<FeatureConfig>, name: string, disabled: bool)
    ensures var u := Updated(features, name, SetDisabled(disabled));
      u.Ok? <==> FirstIndex(features, name).Some? && Validate(features[FirstIndex(features, name).value]).Pass?
    ensures var u := Updated(features, name, SetDisabled(disabled));
      u.Ok? ==> var i := FirstIndex(features, name).value;
        |u.value| == |features| && u.value[i].disabled == disabled
        && u.value[i] == features[i].(disabled := disabled)
        && forall j :: 0 <= j < |features| && j != i ==> u.value[j] == features[j]
  {
    if FirstIndex(features, name).Some? {
      var i := FirstIndex(features, name).value;
      var f := features[i];
      assert Validate(f.(disabled := disabled)) == Validate(f);
    }
  }

  /** Enabling with neither a strategy nor commands is plain enabling. */
  lemma EnableWithNothingIsEnable(f: FeatureConfig)
    ensures EnableWith("", [])(f) == SetDisabled(false)(f)
  {
  }

  /** After disabling, the enabled list is the old one without that feature. */
  lemma DisableDropsFromEnabled(features: seq<FeatureConfig>, name: string)
    requires Updated(features, name, SetDisabled(true)).Ok?
    ensures var i := FirstIndex(features, name).value;
      EnabledOf(Updated(features, name, SetDisabled(true)).value)
        == EnabledOf(features[..i]) + EnabledOf(features[i + 1..])
  {
    var i := FirstIndex(features, name).value;
    var g := Updated(features, name, SetDisabled(true)).value;
    assert g == features[..i] + [g[i]] + features[i + 1..];
    assert g[i].disabled && EnabledOf([g[i]]) == [];
    EnabledOfAppend(features[..i] + [g[i]], features[i + 1..]);
    EnabledOfAppend(features[..i], [g[i]]);
  }

  /** After enabling, the feature joins the enabled list in its manifest position. */
  lemma EnableAddsToEnabled(features: seq<FeatureConfig>, name: string)
    requires Updated(features, name, SetDisabled(false)).Ok?
    ensures var i := FirstIndex(features, name).value;
      EnabledOf(Updated(features, name, SetDisabled(false)).value)
        == EnabledOf(features[..i]) + [features[i].(disabled := false)] + EnabledOf(features[i + 1..])
  {
    var i := FirstIndex(features, name).value;
    var g := Updated(features, name, SetDisabled(false)).value;
    assert g == features[..i] + [g[i]] + features[i + 1..];
    EnabledOfAppend(features[..i] + [g[i]], features[i + 1..]);
    EnabledOfAppend(features[..i], [g[i]]);
    assert EnabledOf([g[i]]) == [g[i]];
  }

  /** Disabling an enabled feature and enabling it again restores the manifest. */
  lemma DisableThenEnable(features: seq<FeatureConfig>, name: string)
    requires Updated(features, name, SetDisabled(true)).Ok?
    requires !features[FirstIndex(features, name).value].disabled
    ensures Updated(Updated(features, name, SetDisabled(true)).value, name, SetDisabled(false)) == Ok(features)
  {
    var i := FirstIndex(features, name).value;
    var g := Updated(features, name, SetDisabled(true)).value;
    SetDisabledOnlyFlag(features, name, true);
    assert forall j :: 0 <= j < i ==> g[j].name == features[j].name;
    FirstIndexAt(g, name, i);
    SetDisabledOnlyFlag(g, name, false);
    assert g[i := g[i].(disabled := false)] == features;
  }

  /** A feature whose earlier entries have other names is found at its own index. */
  lemma FirstIndexAt(features: seq<FeatureConfig>, name: string, i: nat)
    requires i < |features| && features[i].name == name
    requires forall j :: 0 <= j < i ==> features[j].name != name
    ensures FirstIndex(features, name) == Some(i)
  {
  }

  /** `NeedsCleanup`: whether the shell's manifest has no feature left. */
  method NeedsCleanup(parsed: Result<seq<FeatureConfig>>) returns (r: Result<bool>)
    ensures parsed.Err? ==> r == Err("failed to parse manifest: " + parsed.msg)
    ensures parsed.Ok? ==> r == Ok(parsed.value == [])
  {
    if parsed.Err? {
      return Err("failed to parse manifest: " + parsed.msg);
    }
    var m := new FeatureManifest(parsed.value);
    return Ok(!m.HasFeatures());
  }

  // -------------------------------------------------- RemoveFeatureFromShell

  /** The manifest `RemoveFeature` leaves behind, or its error. */
  function Removed(features: seq<FeatureConfig>, name: string): (r: Result<seq<FeatureConfig>>)
    ensures r.Err? <==> FirstIndex(features, name).None?
    ensures r.Ok? ==> |r.value| == |features| - 1
  {
    match FirstIndex(features, name)
    case None => Err("feature '" + name + "' not found")
    case Some(i) => Ok(features[..i] + features[i + 1..])
  }

  /** Where the oh-my-posh theme of a shell lives. */
  function ThemePath(repoPath: string, shell: string): string {
    GoPaths.Join2(Shells.GetFeaturesDirectory(repoPath, shell), OhMyPoshThemeFileName)
  }

  /** `RemoveFeatureFromShell`. `existing` is the set of files present; removing a
      missing file counts as success. Returns the manifest written and the files
      deleted, in order. */
  method RemoveFeatureFromShell(repoPath: string, shell: string, name: string,
                                parsed: Result<seq<FeatureConfig>>, existing: set<string>)
    returns (r: Outcome, written: Option<seq<FeatureConfig>>, deleted: seq<string>)
    ensures parsed.Err? ==> r == Fail("failed to parse manifest: " + parsed.msg) && written == None && deleted == []
    ensures parsed.Ok? && Removed(parsed.value, name).Err? ==>
      r == Fail("failed to remove feature from manifest: " + Removed(parsed.value, name).msg)
      && written == None && deleted == []
    ensures parsed.Ok? && Removed(parsed.value, name).Ok? ==> written == Some(Removed(parsed.value, name).value)
    ensures written.Some? && !Shells.IsShellSupported(shell) ==>
      r == Fail("unsupported shell: " + shell) && deleted == []
    ensures written.Some? && Shells.IsShellSupported(shell) ==> r == Pass
    ensures r.Pass? ==>
      var featurePath := Shells.GetFeatureFilePath(repoPath, shell, name).value;
      deleted == (if featurePath in existing then [featurePath] else [])
                 + (if name == "oh-my-posh" && ThemePath(repoPath, shell) in existing
                    then [ThemePath(repoPath, shell)] else [])
  {
    if parsed.Err? {
      return Fail("failed to parse manifest: " + parsed.msg), None, [];
    }
    var m := new FeatureManifest(parsed.value);
    var removed := m.RemoveFeature(name);
    if removed.Fail? {
      return Fail("failed to remove feature from manifest: " + removed.msg), None, [];
    }
    written := Some(m.features);
    var featurePath := Shells.GetFeatureFilePath(repoPath, shell, name);
    if featurePath.Err? {
      return Fail(featurePath.msg), written, [];
    }
    deleted := if featurePath.value in existing then [featurePath.value] else [];
    if name == "oh-my-posh" {
      var themePath := GoPaths.Join2(Shells.GetFeaturesDirectory(repoPath, shell), OhMyPoshThemeFileName);
      if themePath in existing {
        deleted := deleted + [themePath];
      }
    }
    return Pass, written, deleted;
  }

  /** Removing a feature just added gives back the manifest it was added to. */
  lemma RemoveUndoesAdd(base: seq<FeatureConfig>, c: FeatureConfig)
    requires FirstIndex(base, c.name).None?
    ensures Removed(base + [c], c.name) == Ok(base)
  {
    var added := base + [c];
    forall j | 0 <= j < |base|
      ensures added[j].name != c.name
    {
      assert added[j] == base[j];
    }
    FirstIndexAt(added, c.name, |base|);
    assert added[..|base|] + added[|base| + 1..] == base;
  }

  /** Once the only feature of a shell is removed, the shell needs cleaning up. */
  lemma RemovingLastLeavesEmpty(f: FeatureConfig)
    ensures Removed([f], f.name) == Ok([])
  {
    FirstIndexAt([f], f.name, 0);
  }

  // -------------------------------------------------- ListShellsWithFeatures

  /** One entry of a directory listing. */
  datatype DirEntry = DirEntry(name: string, isDir: bool)

  /** A directory entry that is an initialised shell: a directory other than `lib`
      holding a manifest. */
  predicate IsShellEntry(repoPath: string, e: DirEntry, existing: set<string>) {
    e.isDir && e.name != "lib" && Shells.GetManifestPath(repoPath, e.name) in existing
  }

  /** The names of the entries `keep` accepts, in listing order. */
  function KeptNames(entries: seq<DirEntry>, keep: DirEntry -> bool): seq<string> {
    if entries == [] then []
    else
      var n := |entries| - 1;
      KeptNames(entries[..n], keep) + (if keep(entries[n]) then [entries[n].name] else [])
  }

  /** A name is kept exactly when some accepted entry has that name. */
  lemma {:induction false} KeptNamesListed(entries: seq<DirEntry>, keep: DirEntry -> bool, s: string)
    ensures s in KeptNames(entries, keep) <==> exists k :: 0 <= k < |entries| && entries[k].name == s && keep(entries[k])
    decreases |entries|
  {
    if entries != [] {
      var n := |entries| - 1;
      var init := entries[..n];
      KeptNamesListed(init, keep, s);
      if s in KeptNames(init, keep) {
        var k :| 0 <= k < |init| && init[k].name == s && keep(init[k]);
        assert entries[k] == init[k];
      }
      if exists k :: 0 <= k < |entries| && entries[k].name == s && keep(entries[k]) {
        var k :| 0 <= k < |entries| && entries[k].name == s && keep(entries[k]);
        if k < n {
          assert init[k] == entries[k];
        }
      }
    }
  }

  /** The names of the shell entries, in listing order. */
  function ShellEntries(repoPath: string, entries: seq<DirEntry>, existing: set<string>): seq<string> {
    KeptNames(entries, e => IsShellEntry(repoPath, e, existing))
  }

  /** `ListShellsWithFeatures`: `listing` is what reading `omd-shells` yields, or
      None when the directory does not exist. */
  method ListShellsWithFeatures(repoPath: string, listing: Option<Result<seq<DirEntry>>>, existing: set<string>)
    returns (r: Result<seq<string>>)
    ensures listing.None? ==> r == Ok([])
    ensures listing.Some? && listing.value.Err? ==>
      r == Err("failed to read omd-shells directory: " + listing.value.msg)
    ensures listing.Some? && listing.value.Ok? ==> r == Ok(ShellEntries(repoPath, listing.value.value, existing))
  {
    if listing.None? {
      return Ok([]);
    }
    if listing.value.Err? {
      return Err("failed to read omd-shells directory: " + listing.value.msg);
    }
    var entries := listing.value.value;
    var shells: seq<string> := [];
    var i := 0;
    while i < |entries|
      invariant 0 <= i <= |entries|
      invariant shells == ShellEntries(repoPath, entries[..i], existing)
    {
      assert entries[..i + 1][..i] == entries[..i];
      var e := entries[i];
      if e.isDir && e.name != "lib" {
        var manifestPath := Shells.GetManifestPath(repoPath, e.name);
        if manifestPath in existing {
          shells := shells + [e.name];
        }
      }
      i := i + 1;
    }
    assert entries[..i] == entries;
    return Ok(shells);
  }

  /** A name is listed exactly when some entry of that name is an initialised shell. */
  lemma ShellEntryListed(repoPath: string, entries: seq<DirEntry>, existing: set<string>, s: string)
    ensures s in ShellEntries(repoPath, entries, existing) <==>
      exists k :: 0 <= k < |entries| && entries[k].name == s && IsShellEntry(repoPath, entries[k], existing)
  {
    KeptNamesListed(entries, e => IsShellEntry(repoPath, e, existing), s);
  }
}
