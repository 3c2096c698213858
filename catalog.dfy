/** The built-in feature catalog: metadata for every feature oh-my-dot ships. */
module Catalog {
  import opened Wrappers
  import opened Values
  import Manifest

  /** The kinds of option a feature can declare. */
  datatype OptionType = StringType | IntType | BoolType | EnumType | FileType | PathType | UnknownType(name: string)

  function OptionTypeName(t: OptionType): string {
    match t
    case StringType => "string"
    case IntType => "int"
    case BoolType => "bool"
    case EnumType => "enum"
    case FileType => "file"
    case PathType => "path"
    case UnknownType(n) => n
  }

  /** One declared option of a feature. `Nil` as default means "no default". */
  datatype OptionMetadata = OptionMetadata(
    name: string,
    displayName: string,
    description: string,
    optType: OptionType,
    required: bool,
    default: Value,
    enumValues: seq<string>,
    intMin: Option<int>,
    intMax: Option<int>,
    pathMustExist: bool,
    fileOnly: bool)

  datatype FeatureMetadata = FeatureMetadata(
    name: string,
    description: string,
    category: string,
    defaultStrategy: string,
    defaultCommands: seq<string>,
    supportedShells: seq<string>,
    options: seq<OptionMetadata>)

  const AllFourShells: seq<string> := ["bash", "zsh", "fish", "posix"]
  const ThreeShells: seq<string> := ["bash", "zsh", "fish"]

  const Catalog: map<string, FeatureMetadata> := map[
    "core-aliases" := FeatureMetadata("core-aliases", "Essential command aliases (ls, cd, git shortcuts)",
      "alias", "eager", [], AllFourShells, []),
    "git-prompt" := FeatureMetadata("git-prompt", "Git branch and status in shell prompt",
      "prompt", "defer", [], ThreeShells, []),
    "kubectl-completion" := FeatureMetadata("kubectl-completion", "Kubernetes CLI command completion",
      "completion", "on-command", ["kubectl"], ThreeShells, []),
    "docker-completion" := FeatureMetadata("docker-completion", "Docker CLI command completion",
      "completion", "on-command", ["docker"], ThreeShells, []),
    "nvm" := FeatureMetadata("nvm", "Node Version Manager integration",
      "tool", "on-command", ["nvm", "node", "npm"], ThreeShells, []),
    "terraform-completion" := FeatureMetadata("terraform-completion", "Terraform CLI command completion",
      "completion", "on-command", ["terraform", "tf"], ThreeShells, []),
    "aws-completion" := FeatureMetadata("aws-completion", "AWS CLI command completion",
      "completion", "on-command", ["aws"], ThreeShells, []),
    "gcloud-completion" := FeatureMetadata("gcloud-completion", "Google Cloud CLI command completion",
      "completion", "on-command", ["gcloud"], ThreeShells, []),
    "python-venv" := FeatureMetadata("python-venv", "Python virtual environment helpers",
      "tool", "eager", [], ThreeShells, []),
    "directory-shortcuts" := FeatureMetadata("directory-shortcuts", "Quick navigation to common directories",
      "alias", "eager", [], AllFourShells, [])
  ]

  function GetFeature(name: string): (r: Option<FeatureMetadata>)
    ensures r.Some? <==> name in Catalog
    ensures r.Some? ==> r.value == Catalog[name]
  {
    if name in Catalog then Some(Catalog[name]) else None
  }

  /** `FeatureMetadata.SupportsShell`: a scan of the supported-shell list. */
  function SupportsShell(f: FeatureMetadata, shell: string): (r: bool)
    ensures r <==> shell in f.supportedShells
    decreases |f.supportedShells|
  {
    if f.supportedShells == [] then false
    else f.supportedShells[0] == shell || SupportsShell(f.(supportedShells := f.supportedShells[1..]), shell)
  }

  /** Every catalog entry is filed under its own name. */
  lemma CatalogNamesMatchKeys()
    ensures forall k :: k in Catalog ==> Catalog[k].name == k
  {
  }


  lemma CatalogKeys()
    ensures Catalog.Keys == {"core-aliases", "git-prompt", "kubectl-completion", "docker-completion", "nvm", "terraform-completion", "aws-completion", "gcloud-completion", "python-venv", "directory-shortcuts"}
  {
  }

  predicate AllNameChars(s: string) {
    forall i :: 0 <= i < |s| ==> Manifest.IsNameChar(s[i])
  }

  /** The catalog keys are made of name-pattern characters (checked a few at a time). */
  lemma KeysNameChars1(k: string)
    requires k in {"core-aliases", "git-prompt", "nvm"}
    ensures AllNameChars(k)
  {
  }

  lemma KeysNameChars2(k: string)
    requires k in {"kubectl-completion", "docker-completion", "aws-completion"}
    ensures AllNameChars(k)
  {
  }

  lemma KeysNameChars3(k: string)
    requires k in {"terraform-completion", "gcloud-completion"}
    ensures AllNameChars(k)
  {
  }

  lemma KeysNameChars4(k: string)
    requires k in {"python-venv", "directory-shortcuts"}
    ensures AllNameChars(k)
  {
  }

  lemma KeyIsValidName(k: string)
    requires k in Catalog
    ensures AllNameChars(k)
  {
    CatalogKeys();
    if k in {"core-aliases", "git-prompt", "nvm"} {
      KeysNameChars1(k);
    } else if k in {"kubectl-completion", "docker-completion", "aws-completion"} {
      KeysNameChars2(k);
    } else if k in {"terraform-completion", "gcloud-completion"} {
      KeysNameChars3(k);
    } else {
      KeysNameChars4(k);
    }
  }

  /** One catalog entry's defaults form a valid manifest feature. */
  lemma DefaultsValidFor(k: string)
    requires k in Catalog
    ensures Catalog[k].defaultStrategy == "on-command" ==> Catalog[k].defaultCommands != []
    ensures Manifest.Validate(Manifest.FeatureConfig(k, Catalog[k].defaultStrategy, Catalog[k].defaultCommands, false, map[])).Pass?
  {
    var m := Catalog[k];
    assert m.defaultStrategy in {"eager", "defer", "on-command"}
      && (m.defaultStrategy == "on-command" ==> m.defaultCommands != []) by {
      CatalogKeys();
    }
    KeyIsValidName(k);
  }

  /** Every on-command entry names its trigger commands, so each entry's
      defaults form a valid manifest feature. */
  lemma CatalogDefaultsValid()
    ensures forall k :: k in Catalog && Catalog[k].defaultStrategy == "on-command" ==> Catalog[k].defaultCommands != []
    ensures forall k :: k in Catalog ==>
      Manifest.Validate(Manifest.FeatureConfig(k, Catalog[k].defaultStrategy, Catalog[k].defaultCommands, false, map[])).Pass?
  {
    forall k | k in Catalog
      ensures Catalog[k].defaultStrategy == "on-command" ==> Catalog[k].defaultCommands != []
      ensures Manifest.Validate(Manifest.FeatureConfig(k, Catalog[k].defaultStrategy, Catalog[k].defaultCommands, false, map[])).Pass?
    {
      DefaultsValidFor(k);
    }
  }

  predicate DistinctNames(s: seq<string>) {
    forall i, j :: 0 <= i < j < |s| ==> s[i] != s[j]
  }

  /** `order` is one iteration order of the catalog map. */
  predicate IsCatalogOrder(order: seq<string>) {
    DistinctNames(order) && (set n | n in order) == Catalog.Keys
  }

  /** `ListFeatures`: every entry, in map iteration order `order`. */
  function ListFeatures(order: seq<string>): (r: seq<FeatureMetadata>)
    requires IsCatalogOrder(order)
    ensures |r| == |order|
    ensures forall m :: m in r <==> m in Catalog.Values
    ensures forall i, j :: 0 <= i < j < |r| ==> r[i] != r[j]
  {
    NamesOf(order);
    assert forall i :: 0 <= i < |order| ==> order[i] in (set n | n in order);
    var r := seq(|order|, i requires 0 <= i < |order| => Catalog[order[i]]);
    OrderCoversValues(order);
    assert forall i :: 0 <= i < |order| ==> r[i] == Catalog[order[i]] && Catalog[order[i]] in Catalog.Values;
    r
  }

  lemma NamesOf(order: seq<string>)
    requires IsCatalogOrder(order)
    ensures forall i :: 0 <= i < |order| ==> order[i] in Catalog && Catalog[order[i]].name == order[i]
  {
    assert forall i :: 0 <= i < |order| ==> order[i] in (set n | n in order);
    CatalogNamesMatchKeys();
  }

  lemma OrderCoversValues(order: seq<string>)
    requires IsCatalogOrder(order)
    ensures forall m :: m in Catalog.Values ==> exists i :: 0 <= i < |order| && Catalog[order[i]] == m
  {
    forall m | m in Catalog.Values
      ensures exists i :: 0 <= i < |order| && Catalog[order[i]] == m
    {
      var k :| k in Catalog && Catalog[k] == m;
      assert k in (set n | n in order);
      var i :| 0 <= i < |order| && order[i] == k;
    }
  }

  /** The entries, in `order`, that `keep` selects. */
  function Filter(order: seq<string>, keep: FeatureMetadata -> bool): (r: seq<FeatureMetadata>)
    requires forall i :: 0 <= i < |order| ==> order[i] in Catalog
    ensures forall m :: m in r <==> exists i :: 0 <= i < |order| && Catalog[order[i]] == m && keep(m)
  {
    if order == [] then []
    else
      var rest := Filter(order[1..], keep);
      assert forall i :: 1 <= i < |order| ==> order[i] == order[1..][i - 1];
      (if keep(Catalog[order[0]]) then [Catalog[order[0]]] else []) + rest
  }

  /** `ListFeaturesByCategory`: exactly the entries of that category. */
  function ListFeaturesByCategory(category: string, order: seq<string>): (r: seq<FeatureMetadata>)
    requires IsCatalogOrder(order)
    ensures forall m :: m in r <==> m in Catalog.Values && m.category == category
  {
    assert forall i :: 0 <= i < |order| ==> order[i] in (set n | n in order);
    OrderCoversValues(order);
    Filter(order, (m: FeatureMetadata) => m.category == category)
  }

  /** `ListFeaturesForShell`: exactly the entries that support that shell. */
  function ListFeaturesForShell(shell: string, order: seq<string>): (r: seq<FeatureMetadata>)
    requires IsCatalogOrder(order)
    ensures forall m :: m in r <==> m in Catalog.Values && shell in m.supportedShells
  {
    assert forall i :: 0 <= i < |order| ==> order[i] in (set n | n in order);
    OrderCoversValues(order);
    Filter(order, (m: FeatureMetadata) => SupportsShell(m, shell))
  }
}
