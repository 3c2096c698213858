/** The decision logic of `omdot feature add` and `omdot feature remove`: the order
    the catalog is offered in, how the target shells are chosen and checked before
    any shell is touched, the counts of the interactive add, and the labels of the
    interactive remove. Prompts are represented by what they offer and by the
    answer the user gives. */
module FeatureCmd {
  import opened Wrappers
  import opened GoStrings
  import Manifest
  import Catalog
  import Shells

  type FeatureMetadata = Catalog.FeatureMetadata

  // ------------------------------------------------------ sortFeaturesByCategory

  /** The position of a category in the listing; unknown categories go last. */
  function CategoryRank(category: string): (r: int)
    ensures r == 999 <==> !(category in {"alias", "completion", "prompt", "tool"})
    ensures 1 <= r
  {
    if category == "alias" then 1
    else if category == "completion" then 2
    else if category == "prompt" then 3
    else if category == "tool" then 4
    else 999
  }

  /** Go's `<` on strings: byte-wise, which on UTF-8 text is code-point order. */
  predicate StrLess(a: string, b: string)
    decreases |a|
  {
    if a == [] then b != []
    else if b == [] then false
    else if a[0] != b[0] then a[0] < b[0]
    else StrLess(a[1..], b[1..])
  }

  lemma {:induction false} StrLessIrreflexive(a: string)
    ensures !StrLess(a, a)
    decreases |a|
  {
    if a != [] {
      StrLessIrreflexive(a[1..]);
    }
  }

  lemma {:induction false} StrLessAsymmetric(a: string, b: string)
    requires StrLess(a, b)
    ensures !StrLess(b, a)
    decreases |a|
  {
    if a != [] && b != [] && a[0] == b[0] {
      StrLessAsymmetric(a[1..], b[1..]);
    }
  }

  lemma {:induction false} StrLessTotal(a: string, b: string)
    requires a != b
    ensures StrLess(a, b) || StrLess(b, a)
    decreases |a|
  {
    if a != [] && b != [] && a[0] == b[0] {
      assert a == [a[0]] + a[1..] && b == [b[0]] + b[1..];
      StrLessTotal(a[1..], b[1..]);
    }
  }

  lemma {:induction false} StrLessTransitive(a: string, b: string, c: string)
    requires StrLess(a, b) && StrLess(b, c)
    ensures StrLess(a, c)
    decreases |a|
  {
    if a != [] && a[0] == b[0] && b[0] == c[0] {
      StrLessTransitive(a[1..], b[1..], c[1..]);
    }
  }

  /** The comparator of `sortFeaturesByCategory`: category rank, then name. */
  predicate Before(f: FeatureMetadata, g: FeatureMetadata) {
    CategoryRank(f.category) < CategoryRank(g.category)
    || (CategoryRank(f.category) == CategoryRank(g.category) && StrLess(f.name, g.name))
  }

  /** `f` may stand before `g` in a sorted listing. */
  predicate InOrder(f: FeatureMetadata, g: FeatureMetadata) {
    !Before(g, f)
  }

  lemma BeforeIsInOrder(f: FeatureMetadata, g: FeatureMetadata)
    requires Before(f, g)
    ensures InOrder(f, g)
  {
    if CategoryRank(f.category) == CategoryRank(g.category) {
      StrLessAsymmetric(f.name, g.name);
    }
  }

  lemma InOrderTransitive(f: FeatureMetadata, g: FeatureMetadata, h: FeatureMetadata)
    requires InOrder(f, g) && InOrder(g, h)
    ensures InOrder(f, h)
  {
    if CategoryRank(f.category) == CategoryRank(h.category) && StrLess(h.name, f.name) {
      assert CategoryRank(g.category) == CategoryRank(f.category);
      if f.name != g.name {
        StrLessTotal(f.name, g.name);
      }
      if g.name != h.name {
        StrLessTotal(g.name, h.name);
      }
      if f.name == g.name {
        StrLessIrreflexive(h.name);
      } else if g.name == h.name {
        StrLessIrreflexive(f.name);
      } else {
        StrLessTransitive(f.name, g.name, h.name);
        StrLessAsymmetric(f.name, h.name);
      }
    }
  }

  /** Every feature may stand before every later one. */
  predicate Sorted(s: seq<FeatureMetadata>) {
    forall i, j :: 0 <= i < j < |s| ==> InOrder(s[i], s[j])
  }

  /** Neighbours in order is enough. */
  lemma {:induction false} AdjacentSorted(s: seq<FeatureMetadata>)
    requires forall k :: 0 < k < |s| ==> InOrder(s[k - 1], s[k])
    ensures Sorted(s)
    decreases |s|
  {
    if |s| > 1 {
      var init := s[..|s| - 1];
      AdjacentSorted(init);
      forall i | 0 <= i < |s| - 1
        ensures InOrder(s[i], s[|s| - 1])
      {
        var k := i;
        while k < |s| - 2
          invariant i <= k <= |s| - 2
          invariant InOrder(s[i], s[k + 1])
        {
          InOrderTransitive(s[i], s[k + 1], s[k + 2]);
          k := k + 1;
        }
        if i < |s| - 2 {
        } else {
          assert i == |s| - 2;
        }
      }
    }
  }

  /** Exchanges `a[j - 1]` and `a[j]`. */
  method SwapWithPrevious(a: array<FeatureMetadata>, j: int)
    requires 0 < j < a.Length
    modifies a
    ensures a[..] == old(a[..])[j - 1 := old(a[j])][j := old(a[j - 1])]
    ensures multiset(a[..]) == multiset(old(a[..]))
  {
    a[j - 1], a[j] := a[j], a[j - 1];
  }

  /** `sortFeaturesByCategory`: an insertion sort in place. The result is ordered by
      category rank and then by name, and holds the same features. */
  method SortFeaturesByCategory(a: array<FeatureMetadata>)
    modifies a
    ensures Sorted(a[..])
    ensures multiset(a[..]) == multiset(old(a[..]))
  {
    var i := 1;
    while i < a.Length
      invariant 1 <= i || a.Length == 0
      invariant forall k :: 0 < k < i && k < a.Length ==> InOrder(a[k - 1], a[k])
      invariant multiset(a[..]) == multiset(old(a[..]))
    {
      var j := i;
      while j > 0 && Before(a[j], a[j - 1])
        invariant 0 <= j <= i < a.Length
        invariant forall k :: 0 < k <= i && k != j ==> InOrder(a[k - 1], a[k])
        invariant 0 < j < i ==> InOrder(a[j - 1], a[j + 1])
        invariant multiset(a[..]) == multiset(old(a[..]))
      {
        BeforeIsInOrder(a[j], a[j - 1]);
        SwapWithPrevious(a, j);
        j := j - 1;
      }
      i := i + 1;
    }
    AdjacentSorted(a[..]);
  }

  // ---------------------------------------------------------------- selectShells

  /** What `selectShells` does: return shells without asking, ask the user to pick
      among `options` (with `preselected` ticked), or refuse. */
  datatype ShellChoice = Chosen(shells: seq<string>) | Ask(title: string, options: seq<string>, preselected: Option<string>) | Refuse(msg: string)

  /** Go's `%v` of a list of strings. */
  function ShowList(xs: seq<string>): string {
    "[" + Join(xs, " ") + "]"
  }

  /** The shells a feature offers; a feature that names none offers the four
      POSIX-style shells. */
  function OfferedShells(meta: FeatureMetadata): (r: seq<string>)
    ensures r != []
  {
    if meta.supportedShells == [] then Catalog.AllFourShells else meta.supportedShells
  }

  /** `selectShells`, with the detected shell (empty when detection failed) and
      whether the terminal can prompt passed in. */
  function SelectShells(meta: FeatureMetadata, current: string, interactive: bool): (r: ShellChoice) {
    var offered := OfferedShells(meta);
    var title := "Select shells to add feature '" + meta.name + "' to:";
    if |offered| == 1 && offered[0] == current then Chosen(offered)
    else if current in offered && |offered| > 1 then
      if !interactive then
        Refuse("cannot prompt for shell selection in non-interactive mode\nPlease specify target shell(s):\n  --shell bash          Add to specific shell\n  --all                 Add to all supported shells\n\nExample: omdot feature add " + meta.name + " --shell bash")
      else Ask(title, offered, Some(current))
    else if !interactive then
      Refuse("feature does not support current shell, cannot prompt in non-interactive mode\nPlease specify target shell(s) with --shell flag\n\nSupported shells: " + ShowList(offered))
    else Ask(title, offered, None)
  }

  /** The three outcomes of `selectShells`: a lone supported shell that is the
      current one is taken without asking; otherwise the user is asked, with the
      current shell ticked exactly when it is on offer; without a terminal the
      request is refused instead. */
  lemma SelectShellsOutcomes(meta: FeatureMetadata, current: string, interactive: bool)
    ensures var r := SelectShells(meta, current, interactive);
      var offered := OfferedShells(meta);
      && (r.Chosen? <==> |offered| == 1 && offered[0] == current)
      && (r.Chosen? ==> r.shells == [current])
      && (r.Ask? <==> interactive && !r.Chosen?)
      && (r.Ask? ==> r.options == offered && (r.preselected.Some? <==> current in offered)
                     && (r.preselected.Some? ==> r.preselected.value == current))
      && (r.Refuse? <==> !interactive && !r.Chosen?)
  {
  }

  /** The shells `selectShells` returns once the user's answer to a prompt (the
      picked shells, or the prompt's error) is known. */
  function ResolveChoice(choice: ShellChoice, answer: Result<seq<string>>): (r: Result<seq<string>>)
    ensures choice.Chosen? ==> r == Ok(choice.shells)
    ensures choice.Refuse? ==> r == Err(choice.msg)
    ensures choice.Ask? ==> r == answer
  {
    match choice
    case Chosen(shells) => Ok(shells)
    case Ask(_, _, _) => answer
    case Refuse(msg) => Err(msg)
  }

  // -------------------------------------------------------------- runFeatureAdd

  /** The metadata used for a feature outside the catalog. */
  function CustomMetadata(name: string): (r: FeatureMetadata)
    ensures r.name == name && r.description == "Custom feature" && r.defaultStrategy == "eager"
    ensures r.supportedShells == Catalog.AllFourShells
  {
    Catalog.FeatureMetadata(name, "Custom feature", "", "eager", [], Catalog.AllFourShells, [])
  }

  /** The metadata of a named feature, and whether it came from the catalog. */
  function MetadataFor(name: string): (r: (FeatureMetadata, bool))
    ensures r.1 <==> name in Catalog.Catalog
    ensures r.1 ==> r.0 == Catalog.Catalog[name]
    ensures !r.1 ==> r.0 == CustomMetadata(name)
  {
    match Catalog.GetFeature(name)
    case Some(m) => (m, true)
    case None => (CustomMetadata(name), false)
  }

  /** The flags and arguments of a non-interactive `feature add`. */
  datatype AddRequest = AddRequest(args: seq<string>, all: bool, shellFlag: seq<string>)

  /** Target shells: all the feature supports for `--all`, else the `--shell` list,
      else what `selectShells` gives. */
  function TargetShells(meta: FeatureMetadata, req: AddRequest, current: string, interactive: bool, answer: Result<seq<string>>): (r: Result<seq<string>>)
    ensures req.all ==> r == Ok(meta.supportedShells)
    ensures !req.all && req.shellFlag != [] ==> r == Ok(req.shellFlag)
    ensures !req.all && req.shellFlag == [] ==> r == ResolveChoice(SelectShells(meta, current, interactive), answer)
  {
    if req.all then Ok(meta.supportedShells)
    else if |req.shellFlag| > 0 then Ok(req.shellFlag)
    else ResolveChoice(SelectShells(meta, current, interactive), answer)
  }

  /** A target is acceptable when the shell is supported and, for a catalog
      feature, the feature supports it. */
  predicate TargetOk(name: string, meta: FeatureMetadata, inCatalog: bool, shell: string) {
    Shells.IsShellSupported(shell) && (inCatalog ==> Catalog.SupportsShell(meta, shell))
  }

  /** The check of every target, in order, before anything is added. */
  function CheckTargets(name: string, meta: FeatureMetadata, inCatalog: bool, targets: seq<string>): (r: Outcome)
    ensures r.Pass? <==> forall t :: t in targets ==> TargetOk(name, meta, inCatalog, t)
  {
    if targets == [] then Pass
    else if !Shells.IsShellSupported(targets[0]) then
      assert targets[0] in targets;
      Fail("unsupported shell: " + targets[0])
    else if !Catalog.SupportsShell(meta, targets[0]) && inCatalog then
      assert targets[0] in targets;
      Fail("feature '" + name + "' does not support shell '" + targets[0] + "'")
    else CheckTargets(name, meta, inCatalog, targets[1..])
  }

  /** Everything `runFeatureAdd` decides before it modifies a shell: the feature
      name and the checked list of target shells, or the error it stops with. */
  function PlanFeatureAdd(req: AddRequest, current: string, interactive: bool, answer: Result<seq<string>>): (r: Result<(string, seq<string>)>)
  {
    if |req.args| == 0 then Err("feature name required (or use -i for interactive mode)")
    else
      var name := req.args[0];
      var valid := Manifest.ValidateFeatureName(name);
      if valid.Fail? then Err("invalid feature name: " + valid.msg)
      else
        var (meta, inCatalog) := MetadataFor(name);
        var targets := TargetShells(meta, req, current, interactive, answer);
        if targets.Err? then Err(targets.msg)
        else
          var check := CheckTargets(name, meta, inCatalog, targets.value);
          if check.Fail? then Err(check.msg) else Ok((name, targets.value))
  }

  /** A plan names a valid feature and only targets that pass the check; a request
      with a bad target gets no plan at all. */
  lemma PlanIsChecked(req: AddRequest, current: string, interactive: bool, answer: Result<seq<string>>)
    ensures var r := PlanFeatureAdd(req, current, interactive, answer);
      && (req.args == [] ==> r == Err("feature name required (or use -i for interactive mode)"))
      && (r.Ok? ==> req.args != [] && r.value.0 == req.args[0] && Manifest.ValidateFeatureName(r.value.0).Pass?)
      && (r.Ok? ==> var (meta, inCatalog) := MetadataFor(r.value.0);
            forall t :: t in r.value.1 ==> TargetOk(r.value.0, meta, inCatalog, t))
      && (req.args != [] && Manifest.ValidateFeatureName(req.args[0]).Pass? ==>
            var (meta, inCatalog) := MetadataFor(req.args[0]);
            var targets := TargetShells(meta, req, current, interactive, answer);
            (r.Ok? <==> targets.Ok? && forall t :: t in targets.value ==> TargetOk(req.args[0], meta, inCatalog, t)))
  {
  }

  /** What `AddFeatureToShell` reports when the feature is already in the shell's
      manifest, as it is after an earlier add in the same run. */
  function AlreadyAdded(name: string): string {
    "failed to add feature to manifest: feature '" + name + "' already exists"
  }

  /** The adding loop of `runFeatureAdd`: the feature is added to each target in
      turn, stopping at the first shell whose add fails (`addError` holds the error
      `AddFeatureToShell` gives for a shell the first time). A shell named twice is
      refused the second time, because the first add put the feature in its
      manifest. `added` lists the shells modified. */
  method AddToTargets(name: string, targets: seq<string>, addError: map<string, string>) returns (r: Outcome, added: seq<string>)
    ensures |added| <= |targets| && added == targets[..|added|]
    ensures forall s :: s in added ==> s !in addError
    ensures forall i, j :: 0 <= i < j < |added| ==> added[i] != added[j]
    ensures r.Pass? <==> added == targets
    ensures r.Fail? ==>
      && |added| < |targets|
      && (targets[|added|] in added ==>
            r.msg == "failed to add feature to " + targets[|added|] + ": " + AlreadyAdded(name))
      && (targets[|added|] !in added ==>
            && targets[|added|] in addError
            && r.msg == "failed to add feature to " + targets[|added|] + ": " + addError[targets[|added|]])
  {
    added := [];
    var i := 0;
    while i < |targets|
      invariant 0 <= i <= |targets| && added == targets[..i]
      invariant forall s :: s in added ==> s !in addError
      invariant forall i, j :: 0 <= i < j < |added| ==> added[i] != added[j]
    {
      var shell := targets[i];
      if shell in added {
        return Fail("failed to add feature to " + shell + ": " + AlreadyAdded(name)), added;
      }
      if shell in addError {
        return Fail("failed to add feature to " + shell + ": " + addError[shell]), added;
      }
      added := added + [shell];
      i := i + 1;
    }
    return Pass, added;
  }

  /** `runFeatureAdd` without `-i`: nothing is modified unless the whole plan
      passes; then the feature is added target by target, each shell at most once. */
  method RunFeatureAdd(req: AddRequest, current: string, interactive: bool, answer: Result<seq<string>>, addError: map<string, string>)
    returns (r: Outcome, added: seq<string>)
    ensures PlanFeatureAdd(req, current, interactive, answer).Err? ==>
      r == Fail(PlanFeatureAdd(req, current, interactive, answer).msg) && added == []
    ensures PlanFeatureAdd(req, current, interactive, answer).Ok? ==>
      var targets := PlanFeatureAdd(req, current, interactive, answer).value.1;
      |added| <= |targets| && added == targets[..|added|]
      && (r.Pass? <==> added == targets)
      && (forall s :: s in added ==> s !in addError)
      && (forall i, j :: 0 <= i < j < |added| ==> added[i] != added[j])
      && (r.Fail? ==> targets[|added|] in addError || targets[|added|] in added)
  {
    var plan := PlanFeatureAdd(req, current, interactive, answer);
    if plan.Err? {
      return Fail(plan.msg), [];
    }
    r, added := AddToTargets(plan.value.0, plan.value.1, addError);
  }

  // ------------------------------------------------------ runInteractiveFeatureAdd

  /** Whether the interactive add adds `f` to `shell`: the feature supports the
      shell, it is not installed there yet, and adding it succeeds. */
  predicate PairAdded(f: FeatureMetadata, shell: string, installed: set<(string, string)>, failing: set<(string, string)>) {
    Catalog.SupportsShell(f, shell) && (f.name, shell) !in installed && (f.name, shell) !in failing
  }

  /** How many of the shells `f` is added to. */
  function RowAdded(f: FeatureMetadata, shells: seq<string>, installed: set<(string, string)>, failing: set<(string, string)>): (n: nat)
    ensures n <= |shells|
  {
    if shells == [] then 0
    else RowAdded(f, shells[..|shells| - 1], installed, failing)
         + (if PairAdded(f, shells[|shells| - 1], installed, failing) then 1 else 0)
  }

  /** How many (feature, shell) pairs are added. */
  function TotalAdded(features: seq<FeatureMetadata>, shells: seq<string>, installed: set<(string, string)>, failing: set<(string, string)>): (n: nat)
  {
    if features == [] then 0
    else TotalAdded(features[..|features| - 1], shells, installed, failing)
         + RowAdded(features[|features| - 1], shells, installed, failing)
  }

  /** The inner loop of the interactive add: one feature over every selected shell. */
  method AddToShells(f: FeatureMetadata, shells: seq<string>, installed: set<(string, string)>, failing: set<(string, string)>)
    returns (added: nat, skipped: nat)
    ensures added == RowAdded(f, shells, installed, failing)
    ensures added + skipped == |shells|
  {
    added, skipped := 0, 0;
    var j := 0;
    while j < |shells|
      invariant 0 <= j <= |shells|
      invariant added == RowAdded(f, shells[..j], installed, failing)
      invariant added + skipped == j
    {
      assert shells[..j + 1][..j] == shells[..j];
      var shell := shells[j];
      if !Catalog.SupportsShell(f, shell) {
        skipped := skipped + 1;
      } else if (f.name, shell) in installed {
        skipped := skipped + 1;
      } else if (f.name, shell) in failing {
        skipped := skipped + 1;
      } else {
        added := added + 1;
      }
      j := j + 1;
    }
    assert shells[..j] == shells;
  }

  /** The counting loops of `runInteractiveFeatureAdd`: every (feature, shell) pair
      counts once, as added or as skipped. */
  method InteractiveAddCounts(features: seq<FeatureMetadata>, shells: seq<string>, installed: set<(string, string)>, failing: set<(string, string)>)
    returns (addedCount: nat, skippedCount: nat)
    ensures addedCount == TotalAdded(features, shells, installed, failing)
    ensures addedCount + skippedCount == |features| * |shells|
  {
    addedCount, skippedCount := 0, 0;
    var i := 0;
    while i < |features|
      invariant 0 <= i <= |features|
      invariant addedCount == TotalAdded(features[..i], shells, installed, failing)
      invariant addedCount + skippedCount == i * |shells|
    {
      assert features[..i + 1][..i] == features[..i];
      var a, s := AddToShells(features[i], shells, installed, failing);
      assert TotalAdded(features[..i + 1], shells, installed, failing)
          == TotalAdded(features[..i], shells, installed, failing) + a;
      assert (i + 1) * |shells| == i * |shells| + |shells|;
      addedCount, skippedCount := addedCount + a, skippedCount + s;
      i := i + 1;
    }
    assert features[..i] == features;
  }

  /** Nothing installed, nothing failing and every feature supporting every shell:
      every pair is added. */
  lemma {:induction false} AllPairsAdded(features: seq<FeatureMetadata>, shells: seq<string>)
    requires forall f, s :: f in features && s in shells ==> s in f.supportedShells
    ensures TotalAdded(features, shells, {}, {}) == |features| * |shells|
    decreases |features|
  {
    if features != [] {
      var init := features[..|features| - 1];
      AllPairsAdded(init, shells);
      FullRow(features[|features| - 1], shells);
    }
  }

  lemma {:induction false} FullRow(f: FeatureMetadata, shells: seq<string>)
    requires forall s :: s in shells ==> s in f.supportedShells
    ensures RowAdded(f, shells, {}, {}) == |shells|
    decreases |shells|
  {
    if shells != [] {
      FullRow(f, shells[..|shells| - 1]);
    }
  }

  // ---------------------------------------------------- runInteractiveFeatureRemove

  const InSeparator: string := " (in "

  /** The label offered for a feature in the interactive remove. */
  function RemoveLabel(name: string, shells: seq<string>): string {
    name + InSeparator + Join(shells, ", ") + ")"
  }

  /** `strings.Split(label, " (in ")[0]`: the text before the first separator. */
  function LabelName(text: string): (r: string)
    ensures HasPrefix(text, r)
  {
    match IndexFrom(text, InSeparator, 0)
    case Some(k) => text[..k]
    case None => text
  }

  /** The search for the separator in a label skips the name, which has no space. */
  lemma {:induction false} SeparatorAfterName(name: string, shells: seq<string>, i: nat)
    requires forall c :: c in name ==> c != ' '
    requires i <= |name|
    ensures IndexFrom(RemoveLabel(name, shells), InSeparator, i) == Some(|name|)
    decreases |name| - i
  {
    var text := RemoveLabel(name, shells);
    assert text == name + (InSeparator + Join(shells, ", ") + ")");
    if i == |name| {
      assert text[i..i + |InSeparator|] == InSeparator;
    } else {
      assert text[i] == name[i] && name[i] in name && InSeparator[0] == ' ';
      assert !OccursAt(text, InSeparator, i);
      assert i + |InSeparator| < |text|;
      SeparatorAfterName(name, shells, i + 1);
    }
  }

  /** A valid feature name is recovered from its label. */
  lemma LabelRoundTrip(name: string, shells: seq<string>)
    requires Manifest.ValidateFeatureName(name).Pass?
    ensures LabelName(RemoveLabel(name, shells)) == name
  {
    forall c | c in name
      ensures c != ' '
    {
      var k :| 0 <= k < |name| && name[k] == c;
      assert Manifest.IsNameChar(name[k]);
    }
    SeparatorAfterName(name, shells, 0);
  }
}
