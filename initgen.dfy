/** Init-script generation: enabled features grouped by load strategy, and the
    bash and zsh scripts built from those groups. */
module InitGen {
  import opened GoStrings
  import opened Manifest
  import Merge
  import Shells
  import Templates

  /** `FeaturesByStrategy`: eager and deferred names in manifest order, and the
      on-command features with their trigger commands. */
  datatype FeaturesByStrategy = FeaturesByStrategy(
    eager: seq<string>,
    deferred: seq<string>,
    onCommand: map<string, seq<string>>)

  /** An empty strategy loads eagerly. */
  function EffectiveStrategy(f: FeatureConfig): (r: string)
    ensures r == (if f.strategy == "" then "eager" else f.strategy)
    ensures r != ""
  {
    if f.strategy == "" then "eager" else f.strategy
  }

  /** The names, in order, of the features loaded with `strategy`. */
  function NamesWithStrategy(fs: seq<FeatureConfig>, strategy: string): seq<string> {
    if fs == [] then []
    else NamesWithStrategy(fs[..|fs| - 1], strategy)
         + (if EffectiveStrategy(fs[|fs| - 1]) == strategy then [fs[|fs| - 1].name] else [])
  }

  /** The on-command features that name trigger commands; a later entry with
      the same name replaces an earlier one. */
  function OnCommandMap(fs: seq<FeatureConfig>): map<string, seq<string>> {
    if fs == [] then map[]
    else
      var last := fs[|fs| - 1];
      var m := OnCommandMap(fs[..|fs| - 1]);
      if EffectiveStrategy(last) == "on-command" && |last.onCommand| > 0 then m[last.name := last.onCommand] else m
  }

  function Categorize(fs: seq<FeatureConfig>): FeaturesByStrategy {
    FeaturesByStrategy(NamesWithStrategy(fs, "eager"), NamesWithStrategy(fs, "defer"), OnCommandMap(fs))
  }

  /** One more feature lands in the bucket of its effective strategy. */
  lemma CategorizeSnoc(fs: seq<FeatureConfig>, f: FeatureConfig)
    ensures var c := Categorize(fs);
      var s := EffectiveStrategy(f);
      Categorize(fs + [f]) == FeaturesByStrategy(
        c.eager + (if s == "eager" then [f.name] else []),
        c.deferred + (if s == "defer" then [f.name] else []),
        if s == "on-command" && |f.onCommand| > 0 then c.onCommand[f.name := f.onCommand] else c.onCommand)
  {
    assert (fs + [f])[..|fs|] == fs;
  }

  /** `categorizeFeaturesMerged`: one pass over the enabled merged features. */
  method CategorizeFeaturesMerged(m: seq<Merge.FeatureWithOverride>) returns (features: FeaturesByStrategy)
    ensures features == Categorize(Merge.MergedEnabledOf(m))
  {
    var enabled := Merge.MergedEnabledFeatures(m);
    features := FeaturesByStrategy([], [], map[]);
    for i := 0 to |enabled|
      invariant features == Categorize(enabled[..i])
    {
      var f := enabled[i];
      assert enabled[..i + 1] == enabled[..i] + [f];
      CategorizeSnoc(enabled[..i], f);
      var strategy := f.strategy;
      if strategy == "" {
        strategy := "eager";
      }
      if strategy == "eager" {
        features := features.(eager := features.eager + [f.name]);
      } else if strategy == "defer" {
        features := features.(deferred := features.deferred + [f.name]);
      } else if strategy == "on-command" {
        if |f.onCommand| > 0 {
          features := features.(onCommand := features.onCommand[f.name := f.onCommand]);
        }
      }
    }
    assert enabled[..|enabled|] == enabled;
  }

  /** A name is in a strategy's list iff some feature of that name loads with it. */
  lemma {:induction false} NamesWithStrategyMembers(fs: seq<FeatureConfig>, strategy: string, n: string)
    ensures n in NamesWithStrategy(fs, strategy)
            <==> exists i :: 0 <= i < |fs| && fs[i].name == n && EffectiveStrategy(fs[i]) == strategy
  {
    if fs != [] {
      var init := fs[..|fs| - 1];
      NamesWithStrategyMembers(init, strategy, n);
      assert forall i :: 0 <= i < |init| ==> init[i] == fs[i];
    }
  }

  predicate OnCommandEntry(f: FeatureConfig) {
    EffectiveStrategy(f) == "on-command" && |f.onCommand| > 0
  }

  /** The on-command table holds, for each name, the commands of the last
      on-command feature of that name that has any. */
  lemma {:induction false} OnCommandMapEntries(fs: seq<FeatureConfig>, n: string)
    ensures n in OnCommandMap(fs) <==> exists i :: 0 <= i < |fs| && fs[i].name == n && OnCommandEntry(fs[i])
    ensures n in OnCommandMap(fs) ==>
      exists i :: 0 <= i < |fs| && fs[i].name == n && OnCommandEntry(fs[i]) && OnCommandMap(fs)[n] == fs[i].onCommand
              && forall j :: i < j < |fs| ==> !(fs[j].name == n && OnCommandEntry(fs[j]))
  {
    if fs != [] {
      var init := fs[..|fs| - 1];
      var last := |fs| - 1;
      OnCommandMapEntries(init, n);
      assert forall i :: 0 <= i < |init| ==> init[i] == fs[i];
      if fs[last].name == n && OnCommandEntry(fs[last]) {
        assert OnCommandMap(fs)[n] == fs[last].onCommand;
      }
    }
  }

  predicate DistinctNames(fs: seq<FeatureConfig>) {
    forall i, j :: 0 <= i < j < |fs| ==> fs[i].name != fs[j].name
  }

  /** With distinct names, each enabled feature lands in the bucket of its
      effective strategy and in no other; on-command features without commands
      and unknown strategies land in none. */
  lemma BucketOf(fs: seq<FeatureConfig>, i: nat)
    requires DistinctNames(fs) && i < |fs|
    ensures fs[i].name in Categorize(fs).eager <==> EffectiveStrategy(fs[i]) == "eager"
    ensures fs[i].name in Categorize(fs).deferred <==> EffectiveStrategy(fs[i]) == "defer"
    ensures fs[i].name in Categorize(fs).onCommand <==> OnCommandEntry(fs[i])
  {
    NamesWithStrategyMembers(fs, "eager", fs[i].name);
    NamesWithStrategyMembers(fs, "defer", fs[i].name);
    OnCommandMapEntries(fs, fs[i].name);
  }

  /** The feature behind a name in a strategy's list. */
  lemma StrategyWitness(fs: seq<FeatureConfig>, strategy: string, n: string) returns (k: nat)
    requires n in NamesWithStrategy(fs, strategy)
    ensures k < |fs| && fs[k].name == n && EffectiveStrategy(fs[k]) == strategy
  {
    NamesWithStrategyMembers(fs, strategy, n);
    k :| 0 <= k < |fs| && fs[k].name == n && EffectiveStrategy(fs[k]) == strategy;
  }

  /** The feature behind a name in the on-command table. */
  lemma OnCommandWitness(fs: seq<FeatureConfig>, n: string) returns (k: nat)
    requires n in OnCommandMap(fs)
    ensures k < |fs| && fs[k].name == n && OnCommandEntry(fs[k])
  {
    OnCommandMapEntries(fs, n);
    k :| 0 <= k < |fs| && fs[k].name == n && OnCommandEntry(fs[k]);
  }

  /** The manifest entry behind an enabled merged feature. */
  lemma EnabledWitness(m: seq<Merge.FeatureWithOverride>, k: nat) returns (i: nat)
    requires k < |Merge.MergedEnabledOf(m)|
    ensures i < |m| && m[i].config == Merge.MergedEnabledOf(m)[k] && !m[i].config.disabled
  {
    var fs := Merge.MergedEnabledOf(m);
    Merge.MergedEnabledMembers(m);
    assert fs[k] in fs;
    i :| 0 <= i < |m| && m[i].config == fs[k];
  }

  /** Every bucketed name belongs to an enabled entry of the merged manifest. */
  lemma BucketsOnlyEnabled(m: seq<Merge.FeatureWithOverride>, n: string) returns (i: nat)
    requires var c := Categorize(Merge.MergedEnabledOf(m)); n in c.eager || n in c.deferred || n in c.onCommand
    ensures i < |m| && m[i].config.name == n && !m[i].config.disabled
  {
    var fs := Merge.MergedEnabledOf(m);
    var k: nat;
    if n in NamesWithStrategy(fs, "eager") {
      k := StrategyWitness(fs, "eager", n);
    } else if n in NamesWithStrategy(fs, "defer") {
      k := StrategyWitness(fs, "defer", n);
    } else {
      k := OnCommandWitness(fs, n);
    }
    i := EnabledWitness(m, k);
  }

  /** Text blocks appended one per element, in order. */
  function ConcatMap<T>(xs: seq<T>, block: T -> string): string {
    if xs == [] then "" else ConcatMap(xs[..|xs| - 1], block) + block(xs[|xs| - 1])
  }

  lemma ConcatMapSnoc<T>(xs: seq<T>, block: T -> string, i: nat)
    requires i < |xs|
    ensures ConcatMap(xs[..i + 1], block) == ConcatMap(xs[..i], block) + block(xs[i])
  {
    assert xs[..i + 1][..i] == xs[..i];
  }

  lemma ConcatMapAll<T>(xs: seq<T>, block: T -> string)
    ensures ConcatMap(xs[..|xs|], block) == ConcatMap(xs, block)
  {
    assert xs[..|xs|] == xs;
  }

  lemma Assoc(a: string, b: string, c: string)
    ensures a + b + c == a + (b + c)
  {
  }

  /** One more block appended after a fixed prefix. */
  lemma AppendBlock<T>(start: string, xs: seq<T>, block: T -> string, i: nat)
    requires i < |xs|
    ensures start + ConcatMap(xs[..i + 1], block) == start + ConcatMap(xs[..i], block) + block(xs[i])
  {
    ConcatMapSnoc(xs, block, i);
    Assoc(start, ConcatMap(xs[..i], block), block(xs[i]));
  }

  /** Each element's block occurs in the concatenation. */
  lemma {:induction false} ConcatMapContains<T>(xs: seq<T>, block: T -> string, i: nat)
    requires i < |xs|
    ensures Contains(ConcatMap(xs, block), block(xs[i]))
  {
    var init := xs[..|xs| - 1];
    if i == |xs| - 1 {
      ContainsSelf(block(xs[i]));
      ContainsInRight(ConcatMap(init, block), block(xs[i]), block(xs[i]));
    } else {
      assert init[i] == xs[i];
      ConcatMapContains(init, block, i);
      ContainsInLeft(ConcatMap(init, block), block(xs[|xs| - 1]), block(xs[i]));
    }
  }

  /** `order` lists the keys of `m` once each: one iteration order of the map. */
  predicate IsKeyOrder(order: seq<string>, m: map<string, seq<string>>) {
    (forall i, j :: 0 <= i < j < |order| ==> order[i] != order[j]) && (set n | n in order) == m.Keys
  }

  function Lookup(m: map<string, seq<string>>, n: string): seq<string> {
    if n in m then m[n] else []
  }

  lemma KeyInOrder(order: seq<string>, m: map<string, seq<string>>, n: string) returns (i: nat)
    requires IsKeyOrder(order, m) && n in m
    ensures i < |order| && order[i] == n
  {
    assert n in (set x | x in order);
    i :| 0 <= i < |order| && order[i] == n;
  }

  /** Where a generated script looks for a feature's file. */
  function FeatureFile(feature: string, ext: string): string {
    "$OMD_SHELL_ROOT/features/" + feature + ext
  }

  const EagerLoader: string := "_omd_load_eager_features"
  const DeferredLoader: string := "_omd_load_deferred_features"
  const OnCommandRegistrar: string := "_omd_register_oncommand_features"

  /** The loader calls of the bash and zsh scripts, in the order they run. */
  function ExecuteCalls(features: FeaturesByStrategy): seq<string> {
    (if |features.eager| > 0 then [EagerLoader] else [])
    + (if |features.onCommand| > 0 then [OnCommandRegistrar] else [])
    + (if |features.deferred| > 0 then [DeferredLoader] else [])
  }

  function Line(s: string): string {
    s + "\n"
  }

  function ExecuteSection(features: FeaturesByStrategy): string {
    "# Execute loading\n" + ConcatMap(ExecuteCalls(features), Line)
  }

  function CallRank(call: string): nat {
    if call == EagerLoader then 0 else if call == OnCommandRegistrar then 1 else 2
  }

  /** A loader is called iff its group is non-empty; eager runs first, then
      on-command registration, then the deferred loader. */
  lemma ExecuteOrder(features: FeaturesByStrategy)
    ensures EagerLoader in ExecuteCalls(features) <==> |features.eager| > 0
    ensures OnCommandRegistrar in ExecuteCalls(features) <==> |features.onCommand| > 0
    ensures DeferredLoader in ExecuteCalls(features) <==> |features.deferred| > 0
    ensures forall i, j :: 0 <= i < j < |ExecuteCalls(features)| ==>
      CallRank(ExecuteCalls(features)[i]) < CallRank(ExecuteCalls(features)[j])
  {
  }

  /** `unset -f` of the given functions, when there are any. */
  function UnsetLine(funcs: seq<string>): string {
    if |funcs| > 0 then "unset -f " + Join(funcs, " ") + "\n" else ""
  }

  // ------------------------------------------------- shared script layout

  /** What one shell's init script writes for each part of the layout that
      every generator follows: a header, the eager group, the deferred group
      and the on-command registrations. */
  datatype Dialect = Dialect(
    header: string,
    eagerOpen: string,
    eagerBlock: string -> string,
    eagerClose: string,
    deferOpen: string,
    deferBlock: string -> string,
    deferClose: string,
    onCommandOpen: string,
    // a single command's wrapper, from the command and the feature
    singleWrapper: (string, string) -> string,
    // the shared loader, from its name and the feature
    loaderFunc: (string, string) -> string,
    // one command's wrapper, from the command, the loader and all the commands
    multiWrapper: (string, string, seq<string>) -> string,
    multiClose: string,
    entryClose: string,
    onCommandClose: string)

  function LoaderName(feature: string): string {
    "__omd_load_" + feature
  }

  function EagerSection(d: Dialect, eager: seq<string>): string {
    if |eager| > 0 then d.eagerOpen + ConcatMap(eager, d.eagerBlock) + d.eagerClose else ""
  }

  function DeferSection(d: Dialect, deferred: seq<string>): string {
    if |deferred| > 0 then d.deferOpen + ConcatMap(deferred, d.deferBlock) + d.deferClose else ""
  }

  /** The wrapper of each command of a feature with several commands. */
  function MultiWrappers(d: Dialect, feature: string, commands: seq<string>): string -> string {
    (c: string) => d.multiWrapper(c, LoaderName(feature), commands)
  }

  /** One on-command feature: a self-removing wrapper for a single command, a
      shared loader plus one wrapper per command otherwise. */
  function CommandBlock(d: Dialect, feature: string, commands: seq<string>): string {
    if |commands| == 1 then d.singleWrapper(commands[0], feature)
    else d.loaderFunc(LoaderName(feature), feature) + ConcatMap(commands, MultiWrappers(d, feature, commands)) + d.multiClose
  }

  /** The text registering on-command feature `n` of table `m`. */
  function CommandEntry(d: Dialect, m: map<string, seq<string>>): string -> string {
    (n: string) => CommandBlock(d, n, Lookup(m, n)) + d.entryClose
  }

  lemma CommandEntryOf(d: Dialect, m: map<string, seq<string>>, n: string)
    requires n in m
    ensures CommandEntry(d, m)(n) == CommandBlock(d, n, m[n]) + d.entryClose
  {
  }

  function OnCommandSection(d: Dialect, m: map<string, seq<string>>, order: seq<string>): string {
    if |m| > 0 then d.onCommandOpen + ConcatMap(order, CommandEntry(d, m)) + d.onCommandClose else ""
  }

  /** Everything up to the end of the on-command registrations. */
  function LoaderPart(d: Dialect, features: FeaturesByStrategy, order: seq<string>): string {
    d.header + EagerSection(d, features.eager) + DeferSection(d, features.deferred)
    + OnCommandSection(d, features.onCommand, order)
  }

  /** The eager group: one block per eager feature, in order. */
  method EagerText(d: Dialect, eager: seq<string>) returns (sb: string)
    ensures sb == EagerSection(d, eager)
  {
    sb := "";
    if |eager| > 0 {
      sb := d.eagerOpen;
      for i := 0 to |eager|
        invariant sb == d.eagerOpen + ConcatMap(eager[..i], d.eagerBlock)
      {
        AppendBlock(d.eagerOpen, eager, d.eagerBlock, i);
        sb := sb + d.eagerBlock(eager[i]);
      }
      ConcatMapAll(eager, d.eagerBlock);
      sb := sb + d.eagerClose;
    }
  }

  /** The deferred group: one block per deferred feature, in order. */
  method DeferText(d: Dialect, deferred: seq<string>) returns (sb: string)
    ensures sb == DeferSection(d, deferred)
  {
    sb := "";
    if |deferred| > 0 {
      sb := d.deferOpen;
      for i := 0 to |deferred|
        invariant sb == d.deferOpen + ConcatMap(deferred[..i], d.deferBlock)
      {
        AppendBlock(d.deferOpen, deferred, d.deferBlock, i);
        sb := sb + d.deferBlock(deferred[i]);
      }
      ConcatMapAll(deferred, d.deferBlock);
      sb := sb + d.deferClose;
    }
  }

  /** One on-command feature's wrappers. */
  method CommandText(d: Dialect, featureName: string, commands: seq<string>) returns (sb: string)
    ensures sb == CommandBlock(d, featureName, commands)
  {
    if |commands| == 1 {
      var cmd := commands[0];
      sb := d.singleWrapper(cmd, featureName);
    } else {
      var loaderFunc := LoaderName(featureName);
      sb := d.loaderFunc(loaderFunc, featureName);
      ghost var start := sb;
      ghost var wrapperOf := MultiWrappers(d, featureName, commands);
      for j := 0 to |commands|
        invariant sb == start + ConcatMap(commands[..j], wrapperOf)
      {
        AppendBlock(start, commands, wrapperOf, j);
        sb := sb + d.multiWrapper(commands[j], loaderFunc, commands);
      }
      ConcatMapAll(commands, wrapperOf);
      sb := sb + d.multiClose;
    }
  }

  /** One on-command feature's wrappers and the text that closes its entry. */
  method RegisterOne(d: Dialect, onCommand: map<string, seq<string>>, featureName: string) returns (sb: string)
    requires featureName in onCommand
    ensures sb == CommandEntry(d, onCommand)(featureName)
  {
    var commands := onCommand[featureName];
    CommandEntryOf(d, onCommand, featureName);
    sb := CommandText(d, featureName, commands);
    sb := sb + d.entryClose;
  }

  /** The registrations: the on-command table visited in `order`. */
  method Registrations(d: Dialect, onCommand: map<string, seq<string>>, order: seq<string>) returns (sb: string)
    requires IsKeyOrder(order, onCommand)
    ensures sb == ConcatMap(order, CommandEntry(d, onCommand))
  {
    sb := "";
    ghost var blockOf := CommandEntry(d, onCommand);
    for i := 0 to |order|
      invariant sb == ConcatMap(order[..i], blockOf)
    {
      ConcatMapSnoc(order, blockOf, i);
      assert order[i] in (set n | n in order);
      var entry := RegisterOne(d, onCommand, order[i]);
      sb := sb + entry;
    }
    ConcatMapAll(order, blockOf);
  }

  /** The on-command group, when some feature loads on command. */
  method OnCommandText(d: Dialect, onCommand: map<string, seq<string>>, order: seq<string>) returns (sb: string)
    requires IsKeyOrder(order, onCommand)
    ensures sb == OnCommandSection(d, onCommand, order)
  {
    sb := "";
    if |onCommand| > 0 {
      sb := d.onCommandOpen;
      var registrations := Registrations(d, onCommand, order);
      sb := sb + registrations;
      sb := sb + d.onCommandClose;
    }
  }

  /** The header followed by the three groups. */
  method LoaderText(d: Dialect, features: FeaturesByStrategy, order: seq<string>) returns (sb: string)
    requires IsKeyOrder(order, features.onCommand)
    ensures sb == LoaderPart(d, features, order)
  {
    sb := d.header;
    var eager := EagerText(d, features.eager);
    sb := sb + eager;
    var deferred := DeferText(d, features.deferred);
    sb := sb + deferred;
    var onCommand := OnCommandText(d, features.onCommand, order);
    sb := sb + onCommand;
  }

  /** The loader calls, shared by the bash and zsh scripts. */
  method ExecuteText(features: FeaturesByStrategy) returns (sb: string)
    ensures sb == ExecuteSection(features)
  {
    sb := "# Execute loading\n";
    if |features.eager| > 0 {
      sb := sb + "_omd_load_eager_features\n";
    }
    if |features.onCommand| > 0 {
      sb := sb + "_omd_register_oncommand_features\n";
    }
    if |features.deferred| > 0 {
      sb := sb + "_omd_load_deferred_features\n";
    }
    ExecuteSectionText(features);
  }

  // ---------------------------------------------- what the layout guarantees

  /** Text inside one of the groups is text of the whole part. */
  lemma InLoaderPart(d: Dialect, features: FeaturesByStrategy, order: seq<string>, t: string)
    requires Contains(EagerSection(d, features.eager), t)
             || Contains(DeferSection(d, features.deferred), t)
             || Contains(OnCommandSection(d, features.onCommand, order), t)
    ensures Contains(LoaderPart(d, features, order), t)
  {
    var e := EagerSection(d, features.eager);
    var ds := DeferSection(d, features.deferred);
    var os := OnCommandSection(d, features.onCommand, order);
    if Contains(e, t) {
      ContainsInMiddle(d.header, e, ds);
      ContainsTrans(d.header + e + ds, e, t);
      ContainsInLeft(d.header + e + ds, os, t);
    } else if Contains(ds, t) {
      ContainsInMiddle(d.header + e, ds, os);
      ContainsTrans(d.header + e + ds + os, ds, t);
    } else {
      ContainsInRight(d.header + e + ds, os, t);
    }
  }

  /** The eager group holds each eager feature's block. */
  lemma EagerBlockInSection(d: Dialect, eager: seq<string>, i: nat)
    requires i < |eager|
    ensures Contains(EagerSection(d, eager), d.eagerBlock(eager[i]))
  {
    var blocks := ConcatMap(eager, d.eagerBlock);
    ConcatMapContains(eager, d.eagerBlock, i);
    ContainsInMiddle(d.eagerOpen, blocks, d.eagerClose);
    ContainsTrans(EagerSection(d, eager), blocks, d.eagerBlock(eager[i]));
  }

  /** The deferred group holds each deferred feature's block. */
  lemma DeferBlockInSection(d: Dialect, deferred: seq<string>, i: nat)
    requires i < |deferred|
    ensures Contains(DeferSection(d, deferred), d.deferBlock(deferred[i]))
  {
    var blocks := ConcatMap(deferred, d.deferBlock);
    ConcatMapContains(deferred, d.deferBlock, i);
    ContainsInMiddle(d.deferOpen, blocks, d.deferClose);
    ContainsTrans(DeferSection(d, deferred), blocks, d.deferBlock(deferred[i]));
  }

  /** The on-command group holds the registration of every on-command
      feature, whatever the order the table is visited in. */
  lemma CommandBlockInSection(d: Dialect, m: map<string, seq<string>>, order: seq<string>, n: string)
    requires IsKeyOrder(order, m) && n in m
    ensures Contains(OnCommandSection(d, m, order), CommandBlock(d, n, m[n]))
  {
    var k := KeyInOrder(order, m, n);
    var entry := CommandEntry(d, m);
    var block := CommandBlock(d, n, m[n]);
    var regs := ConcatMap(order, entry);
    ConcatMapContains(order, entry, k);
    CommandEntryOf(d, m, n);
    ContainsSelf(block);
    ContainsInLeft(block, d.entryClose, block);
    ContainsTrans(regs, entry(order[k]), block);
    ContainsInMiddle(d.onCommandOpen, regs, d.onCommandClose);
    ContainsTrans(OnCommandSection(d, m, order), regs, block);
  }

  /** Every eager, deferred and on-command feature has its block in the part. */
  lemma BlocksInScript(d: Dialect, features: FeaturesByStrategy, order: seq<string>)
    requires IsKeyOrder(order, features.onCommand)
    ensures forall i :: 0 <= i < |features.eager| ==>
      Contains(LoaderPart(d, features, order), d.eagerBlock(features.eager[i]))
    ensures forall i :: 0 <= i < |features.deferred| ==>
      Contains(LoaderPart(d, features, order), d.deferBlock(features.deferred[i]))
    ensures forall n :: n in features.onCommand ==>
      Contains(LoaderPart(d, features, order), CommandBlock(d, n, features.onCommand[n]))
  {
    forall i | 0 <= i < |features.eager|
      ensures Contains(LoaderPart(d, features, order), d.eagerBlock(features.eager[i]))
    {
      EagerBlockInSection(d, features.eager, i);
      InLoaderPart(d, features, order, d.eagerBlock(features.eager[i]));
    }
    forall i | 0 <= i < |features.deferred|
      ensures Contains(LoaderPart(d, features, order), d.deferBlock(features.deferred[i]))
    {
      DeferBlockInSection(d, features.deferred, i);
      InLoaderPart(d, features, order, d.deferBlock(features.deferred[i]));
    }
    forall n | n in features.onCommand
      ensures Contains(LoaderPart(d, features, order), CommandBlock(d, n, features.onCommand[n]))
    {
      CommandBlockInSection(d, features.onCommand, order, n);
      InLoaderPart(d, features, order, CommandBlock(d, n, features.onCommand[n]));
    }
  }

  /** Every block a dialect writes for feature `f` mentions `ref(f)`, the
      file the feature is loaded from. */
  ghost predicate LoadsFrom(d: Dialect, ref: string -> string) {
    (forall f :: Contains(d.eagerBlock(f), ref(f)))
    && (forall f :: Contains(d.deferBlock(f), ref(f)))
    && (forall c, f :: Contains(d.singleWrapper(c, f), ref(f)))
    && (forall f :: Contains(d.loaderFunc(LoaderName(f), f), ref(f)))
  }

  /** A feature's file under the shell root, with a given extension. */
  function LocalRef(ext: string): string -> string {
    (f: string) => FeatureFile(f, ext)
  }

  /** A registered on-command feature is loaded from its file, whether it has
      one command or several. */
  lemma CommandBlockLoads(d: Dialect, ref: string -> string, feature: string, commands: seq<string>)
    requires LoadsFrom(d, ref)
    ensures Contains(CommandBlock(d, feature, commands), ref(feature))
  {
    if |commands| == 1 {
      assert Contains(d.singleWrapper(commands[0], feature), ref(feature));
    } else {
      var loader := d.loaderFunc(LoaderName(feature), feature);
      var wrappers := ConcatMap(commands, MultiWrappers(d, feature, commands));
      assert Contains(loader, ref(feature));
      ContainsInLeft(loader, wrappers, ref(feature));
      ContainsInLeft(loader + wrappers, d.multiClose, ref(feature));
    }
  }

  /** Every feature in one of the three groups is loaded from its file by the
      script's loader part. */
  lemma LoaderPartLoadsBucketed(d: Dialect, ref: string -> string, features: FeaturesByStrategy, order: seq<string>, n: string)
    requires LoadsFrom(d, ref) && IsKeyOrder(order, features.onCommand)
    requires n in features.eager || n in features.deferred || n in features.onCommand
    ensures Contains(LoaderPart(d, features, order), ref(n))
  {
    var part := LoaderPart(d, features, order);
    BlocksInScript(d, features, order);
    if n in features.eager {
      var i :| 0 <= i < |features.eager| && features.eager[i] == n;
      ContainsTrans(part, d.eagerBlock(n), ref(n));
    } else if n in features.deferred {
      var i :| 0 <= i < |features.deferred| && features.deferred[i] == n;
      ContainsTrans(part, d.deferBlock(n), ref(n));
    } else {
      CommandBlockLoads(d, ref, n, features.onCommand[n]);
      ContainsTrans(part, CommandBlock(d, n, features.onCommand[n]), ref(n));
    }
  }

  /** A feature with one command gets only that command's wrapper; one with
      several gets the shared loader and a wrapper for each command. */
  lemma CommandBlockShape(d: Dialect, feature: string, commands: seq<string>, j: nat)
    requires j < |commands|
    ensures |commands| == 1 ==> CommandBlock(d, feature, commands) == d.singleWrapper(commands[j], feature)
    ensures |commands| != 1 ==>
      HasPrefix(CommandBlock(d, feature, commands), d.loaderFunc(LoaderName(feature), feature))
      && Contains(CommandBlock(d, feature, commands), d.multiWrapper(commands[j], LoaderName(feature), commands))
  {
    if |commands| != 1 {
      var loader := d.loaderFunc(LoaderName(feature), feature);
      var wrappers := ConcatMap(commands, MultiWrappers(d, feature, commands));
      ConcatMapContains(commands, MultiWrappers(d, feature, commands), j);
      ContainsInMiddle(loader, wrappers, d.multiClose);
      ContainsTrans(CommandBlock(d, feature, commands), wrappers, MultiWrappers(d, feature, commands)(commands[j]));
      Assoc(loader, wrappers, d.multiClose);
    }
  }

  // ---------------------------------------------------------------- bash

  const BashHeader: string :=
    "#!/usr/bin/env bash\n"
    + "# oh-my-dot shell framework - bash init script\n"
    + "# Auto-generated - do not edit manually\n"
    + "\n"
    + "# Guard against double-loading functions (but allow eager re-loading)\n"
    + "if [ \"${OMD_BASH_LOADED:-}\" = \"1\" ]; then\n"
    + "  # If already loaded, just re-apply eager features that modify environment\n"
    + "  # This handles the case where .bashrc is re-sourced and resets PS1\n"
    + "  if [ -n \"${_omd_load_eager_features:-}\" ] && type -t _omd_load_eager_features >/dev/null 2>&1; then\n"
    + "    _omd_load_eager_features\n"
    + "  fi\n"
    + "  return 0\n"
    + "fi\n"
    + "OMD_BASH_LOADED=1\n"
    + "\n"
    + "# Determine shell root\n"
    + "OMD_SHELL_ROOT=\"$(cd \"$(dirname \"${BASH_SOURCE[0]}\")\" && pwd)\"\n"
    + "\n"
    + "# Source helper library\n"
    + "if [ -r \"$OMD_SHELL_ROOT/../lib/helpers.sh\" ]; then\n"
    + "  . \"$OMD_SHELL_ROOT/../lib/helpers.sh\"\n"
    + "fi\n"
    + "\n"

  function BashEagerTail(f: string): string {
    "\"\n"
    + "  if [ -r \"$feature_file\" ]; then\n"
    + "    . \"$feature_file\"\n"
    + "  else\n"
    + "    echo \"oh-my-dot: warning: feature '" + f + "' not found\" >&2\n"
    + "  fi\n"
  }

  function BashEagerBlock(f: string): string {
    "  local feature_file=\"" + FeatureFile(f, ".sh") + BashEagerTail(f)
  }

  function BashDeferTail(f: string): string {
    "\" ] && . \"" + FeatureFile(f, ".sh") + "\" ) &\n"
  }

  function BashDeferBlock(f: string): string {
    "    ( [ -r \"" + FeatureFile(f, ".sh") + BashDeferTail(f)
  }

  function BashSingleHead(cmd: string): string {
    "  " + cmd + "() {\n"
    + "    unset -f " + cmd + "\n"
    + "    local feature_file=\""
  }

  function BashSingleTail(cmd: string): string {
    "\"\n"
    + "    if [ -r \"$feature_file\" ]; then\n"
    + "      . \"$feature_file\"\n"
    + "    fi\n"
    + "    if command -v " + cmd + " >/dev/null 2>&1; then\n"
    + "      command " + cmd + " \"$@\"\n"
    + "    else\n"
    + "      echo \"oh-my-dot: " + cmd + " command not found after loading feature\" >&2\n"
    + "      return 127\n"
    + "    fi\n"
    + "  }\n"
  }

  function BashSingleWrapper(cmd: string, feature: string): string {
    BashSingleHead(cmd) + FeatureFile(feature, ".sh") + BashSingleTail(cmd)
  }

  function BashLoaderHead(loader: string): string {
    "  " + loader + "() {\n"
    + "    local feature_file=\""
  }

  const BashLoaderTail: string :=
    "\"\n"
    + "    [ -r \"$feature_file\" ] && . \"$feature_file\"\n"
    + "  }\n"

  function BashLoaderFunc(loader: string, feature: string): string {
    BashLoaderHead(loader) + FeatureFile(feature, ".sh") + BashLoaderTail
  }

  function BashMultiWrapper(cmd: string, loader: string, commands: seq<string>): string {
    "  " + cmd + "() { " + loader + "; unset -f " + Join(commands, " ") + " " + loader + "; command " + cmd + " \"$@\"; }\n"
  }

  const Bash: Dialect := Dialect(
    BashHeader,
    "# Load eager features\n" + "_omd_load_eager_features() {\n", BashEagerBlock, "}\n\n",
    "# Load deferred features (background)\n" + "_omd_load_deferred_features() {\n" + "  if [[ $- == *i* ]]; then\n",
    BashDeferBlock, "  fi\n" + "}\n\n",
    "# Register on-command features\n" + "_omd_register_oncommand_features() {\n",
    BashSingleWrapper, BashLoaderFunc, BashMultiWrapper, "", "\n", "}\n\n")

  /** Functions the bash script unsets at the end: never the eager loader,
      which a re-sourced `.bashrc` calls again. */
  function BashCleanupList(features: FeaturesByStrategy): seq<string> {
    (if |features.deferred| > 0 then [DeferredLoader] else [])
    + (if |features.onCommand| > 0 then [OnCommandRegistrar] else [])
  }

  function BashCleanupSection(features: FeaturesByStrategy): string {
    "\n# Cleanup (keep _omd_load_eager_features for re-sourcing)\n" + UnsetLine(BashCleanupList(features))
  }

  function BashInit(features: FeaturesByStrategy, order: seq<string>): string {
    LoaderPart(Bash, features, order) + ExecuteSection(features) + BashCleanupSection(features)
  }

  /** The closing `unset -f` of the loaders that are no longer needed. */
  method BashCleanupText(features: FeaturesByStrategy) returns (sb: string)
    ensures sb == BashCleanupSection(features)
  {
    sb := "\n# Cleanup (keep _omd_load_eager_features for re-sourcing)\n";
    var funcsToClean: seq<string> := [];
    if |features.deferred| > 0 {
      funcsToClean := funcsToClean + [DeferredLoader];
    }
    if |features.onCommand| > 0 {
      funcsToClean := funcsToClean + [OnCommandRegistrar];
    }
    assert funcsToClean == BashCleanupList(features);
    if |funcsToClean| > 0 {
      sb := sb + ("unset -f " + Join(funcsToClean, " ") + "\n");
    }
  }

  /** `generateBashInit`: the header, the three groups, the calls and the cleanup. */
  method GenerateBashInit(features: FeaturesByStrategy, order: seq<string>) returns (script: string)
    requires IsKeyOrder(order, features.onCommand)
    ensures script == BashInit(features, order)
  {
    var sb := LoaderText(Bash, features, order);
    var execute := ExecuteText(features);
    sb := sb + execute;
    var cleanup := BashCleanupText(features);
    script := sb + cleanup;
  }

  /** The bash cleanup keeps the eager loader and unsets the other two
      exactly when they were defined. */
  lemma BashCleanupKeepsEager(features: FeaturesByStrategy)
    ensures EagerLoader !in BashCleanupList(features)
    ensures DeferredLoader in BashCleanupList(features) <==> |features.deferred| > 0
    ensures OnCommandRegistrar in BashCleanupList(features) <==> |features.onCommand| > 0
  {
  }
  /** Every block of the bash script loads a feature from `$OMD_SHELL_ROOT/features/<f>.sh`. */
  lemma BashLoadsFrom()
    ensures LoadsFrom(Bash, LocalRef(".sh"))
  {
    forall f ensures Contains(Bash.eagerBlock(f), FeatureFile(f, ".sh")) {
      ContainsInMiddle("  local feature_file=\"", FeatureFile(f, ".sh"), BashEagerTail(f));
    }
    forall f ensures Contains(Bash.deferBlock(f), FeatureFile(f, ".sh")) {
      ContainsInMiddle("    ( [ -r \"", FeatureFile(f, ".sh"), BashDeferTail(f));
    }
    forall c, f ensures Contains(Bash.singleWrapper(c, f), FeatureFile(f, ".sh")) {
      ContainsInMiddle(BashSingleHead(c), FeatureFile(f, ".sh"), BashSingleTail(c));
    }
    forall f ensures Contains(Bash.loaderFunc(LoaderName(f), f), FeatureFile(f, ".sh")) {
      ContainsInMiddle(BashLoaderHead(LoaderName(f)), FeatureFile(f, ".sh"), BashLoaderTail);
    }
  }

  // ----------------------------------------------------------------- zsh

  const ZshHeader: string :=
    "#!/usr/bin/env zsh\n"
    + "# oh-my-dot shell framework - zsh init script\n"
    + "# Auto-generated - do not edit manually\n"
    + "\n"
    + "# Guard against double-loading\n"
    + "if [[ -n \"$OMD_ZSH_LOADED\" ]]; then\n"
    + "  return 0\n"
    + "fi\n"
    + "OMD_ZSH_LOADED=1\n"
    + "\n"
    + "# Determine shell root\n"
    + "OMD_SHELL_ROOT=\"${${(%):-%x}:A:h}\"\n"
    + "\n"
    + "# Source helper library\n"
    + "if [[ -r \"$OMD_SHELL_ROOT/../lib/helpers.sh\" ]]; then\n"
    + "  . \"$OMD_SHELL_ROOT/../lib/helpers.sh\"\n"
    + "fi\n"
    + "\n"

  function ZshEagerTail(f: string): string {
    "\"\n"
    + "  if [[ -r \"$feature_file\" ]]; then\n"
    + "    . \"$feature_file\"\n"
    + "  else\n"
    + "    echo \"oh-my-dot: warning: feature '" + f + "' not found\" >&2\n"
    + "  fi\n"
  }

  function ZshEagerBlock(f: string): string {
    "  local feature_file=\"" + FeatureFile(f, ".zsh") + ZshEagerTail(f)
  }

  function ZshDeferTail(f: string): string {
    "\" ]] && . \"" + FeatureFile(f, ".zsh") + "\" ) &!\n"
  }

  function ZshDeferBlock(f: string): string {
    "    ( [[ -r \"" + FeatureFile(f, ".zsh") + ZshDeferTail(f)
  }

  function ZshSingleHead(cmd: string): string {
    "  " + cmd + "() {\n"
    + "    unfunction " + cmd + "\n"
    + "    local feature_file=\""
  }

  function ZshSingleTail(cmd: string): string {
    "\"\n"
    + "    [[ -r \"$feature_file\" ]] && . \"$feature_file\"\n"
    + "    if (( $+commands[" + cmd + "] )); then\n"
    + "      " + cmd + " \"$@\"\n"
    + "    else\n"
    + "      echo \"oh-my-dot: " + cmd + " command not found after loading feature\" >&2\n"
    + "      return 127\n"
    + "    fi\n"
    + "  }\n"
  }

  function ZshSingleWrapper(cmd: string, feature: string): string {
    ZshSingleHead(cmd) + FeatureFile(feature, ".zsh") + ZshSingleTail(cmd)
  }

  function ZshLoaderHead(loader: string): string {
    "  " + loader + "() {\n"
    + "    local feature_file=\""
  }

  const ZshLoaderTail: string :=
    "\"\n"
    + "    [[ -r \"$feature_file\" ]] && . \"$feature_file\"\n"
    + "  }\n"

  function ZshLoaderFunc(loader: string, feature: string): string {
    ZshLoaderHead(loader) + FeatureFile(feature, ".zsh") + ZshLoaderTail
  }

  function ZshMultiWrapper(cmd: string, loader: string, commands: seq<string>): string {
    "  " + cmd + "() { " + loader + "; unfunction " + Join(commands, " ") + " " + loader + "; command " + cmd + " \"$@\"; }\n"
  }

  const Zsh: Dialect := Dialect(
    ZshHeader,
    "# Load eager features\n" + "_omd_load_eager_features() {\n", ZshEagerBlock, "}\n\n",
    "# Load deferred features (background)\n" + "_omd_load_deferred_features() {\n" + "  if [[ -o interactive ]]; then\n",
    ZshDeferBlock, "  fi\n" + "}\n\n",
    "# Register on-command features\n" + "_omd_register_oncommand_features() {\n",
    ZshSingleWrapper, ZshLoaderFunc, ZshMultiWrapper, "", "\n", "}\n\n")

  /** Functions the zsh script unsets at the end: every loader it defined. */
  function ZshCleanupList(features: FeaturesByStrategy): seq<string> {
    (if |features.eager| > 0 then [EagerLoader] else [])
    + (if |features.deferred| > 0 then [DeferredLoader] else [])
    + (if |features.onCommand| > 0 then [OnCommandRegistrar] else [])
  }

  function ZshCleanupSection(features: FeaturesByStrategy): string {
    "\n# Cleanup\n" + UnsetLine(ZshCleanupList(features))
  }

  function ZshInit(features: FeaturesByStrategy, order: seq<string>): string {
    LoaderPart(Zsh, features, order) + ExecuteSection(features) + ZshCleanupSection(features)
  }

  method ZshCleanupText(features: FeaturesByStrategy) returns (sb: string)
    ensures sb == ZshCleanupSection(features)
  {
    sb := "\n# Cleanup\n";
    var funcsToClean: seq<string> := [];
    if |features.eager| > 0 {
      funcsToClean := funcsToClean + [EagerLoader];
    }
    if |features.deferred| > 0 {
      funcsToClean := funcsToClean + [DeferredLoader];
    }
    if |features.onCommand| > 0 {
      funcsToClean := funcsToClean + [OnCommandRegistrar];
    }
    assert funcsToClean == ZshCleanupList(features);
    if |funcsToClean| > 0 {
      sb := sb + ("unset -f " + Join(funcsToClean, " ") + "\n");
    }
  }

  /** `generateZshInit`: the bash layout with zsh syntax, and a cleanup that
      also unsets the eager loader. */
  method GenerateZshInit(features: FeaturesByStrategy, order: seq<string>) returns (script: string)
    requires IsKeyOrder(order, features.onCommand)
    ensures script == ZshInit(features, order)
  {
    var sb := LoaderText(Zsh, features, order);
    var execute := ExecuteText(features);
    sb := sb + execute;
    var cleanup := ZshCleanupText(features);
    script := sb + cleanup;
  }

  /** The zsh cleanup unsets exactly the loaders that were defined. */
  lemma ZshCleanupAll(features: FeaturesByStrategy)
    ensures EagerLoader in ZshCleanupList(features) <==> |features.eager| > 0
    ensures DeferredLoader in ZshCleanupList(features) <==> |features.deferred| > 0
    ensures OnCommandRegistrar in ZshCleanupList(features) <==> |features.onCommand| > 0
  {
  }
  /** Every block of the zsh script loads a feature from `$OMD_SHELL_ROOT/features/<f>.zsh`. */
  lemma ZshLoadsFrom()
    ensures LoadsFrom(Zsh, LocalRef(".zsh"))
  {
    forall f ensures Contains(Zsh.eagerBlock(f), FeatureFile(f, ".zsh")) {
      ContainsInMiddle("  local feature_file=\"", FeatureFile(f, ".zsh"), ZshEagerTail(f));
    }
    forall f ensures Contains(Zsh.deferBlock(f), FeatureFile(f, ".zsh")) {
      ContainsInMiddle("    ( [[ -r \"", FeatureFile(f, ".zsh"), ZshDeferTail(f));
    }
    forall c, f ensures Contains(Zsh.singleWrapper(c, f), FeatureFile(f, ".zsh")) {
      ContainsInMiddle(ZshSingleHead(c), FeatureFile(f, ".zsh"), ZshSingleTail(c));
    }
    forall f ensures Contains(Zsh.loaderFunc(LoaderName(f), f), FeatureFile(f, ".zsh")) {
      ContainsInMiddle(ZshLoaderHead(LoaderName(f)), FeatureFile(f, ".zsh"), ZshLoaderTail);
    }
  }

  lemma {:induction false} ConcatMapAppend<T>(xs: seq<T>, ys: seq<T>, block: T -> string)
    ensures ConcatMap(xs + ys, block) == ConcatMap(xs, block) + ConcatMap(ys, block)
    decreases |ys|
  {
    if ys == [] {
      assert xs + ys == xs;
    } else {
      var init := ys[..|ys| - 1];
      assert (xs + ys)[..|xs + ys| - 1] == xs + init;
      ConcatMapAppend(xs, init, block);
    }
  }

  lemma ConcatMapOne<T>(xs: seq<T>, block: T -> string)
    requires |xs| <= 1
    ensures ConcatMap(xs, block) == if xs == [] then "" else block(xs[0])
  {
    if |xs| == 1 {
      assert xs[..0] == [];
    }
  }

  lemma LoaderLines()
    ensures Line(EagerLoader) == "_omd_load_eager_features\n"
    ensures Line(OnCommandRegistrar) == "_omd_register_oncommand_features\n"
    ensures Line(DeferredLoader) == "_omd_load_deferred_features\n"
  {
  }

  /** The execute section is the calls' lines one after another. */
  lemma ExecuteSectionText(features: FeaturesByStrategy)
    ensures ExecuteSection(features) ==
      "# Execute loading\n"
      + (if |features.eager| > 0 then "_omd_load_eager_features\n" else "")
      + (if |features.onCommand| > 0 then "_omd_register_oncommand_features\n" else "")
      + (if |features.deferred| > 0 then "_omd_load_deferred_features\n" else "")
  {
    var e: seq<string> := if |features.eager| > 0 then [EagerLoader] else [];
    var o: seq<string> := if |features.onCommand| > 0 then [OnCommandRegistrar] else [];
    var d: seq<string> := if |features.deferred| > 0 then [DeferredLoader] else [];
    ConcatMapAppend(e + o, d, Line);
    ConcatMapAppend(e, o, Line);
    ConcatMapOne(e, Line);
    ConcatMapOne(o, Line);
    ConcatMapOne(d, Line);
    LoaderLines();
    var h := "# Execute loading\n";
    var es := ConcatMap(e, Line);
    var os := ConcatMap(o, Line);
    var ds := ConcatMap(d, Line);
    Assoc(h, es + os, ds);
    Assoc(h, es, os);
  }
}
