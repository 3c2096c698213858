/** Feature templates shipped inside the binary: lookup with the POSIX
    fallback, the rendering context, and where a rendered template is written. */
module Templates {
  import opened Wrappers
  import opened Values
  import opened GoStrings
  import GoPaths

  /** `GetShellExtension` of the template package (zsh templates are `.sh`). */
  function GetShellExtension(shell: string): (r: string)
    ensures shell == "fish" ==> r == ".fish"
    ensures shell == "powershell" ==> r == ".ps1"
    ensures shell != "fish" && shell != "powershell" ==> r == ".sh"
  {
    if shell == "fish" then ".fish"
    else if shell == "powershell" then ".ps1"
    else ".sh"
  }

  /** Shells that may use a feature's `posix.sh` template. */
  const PosixCompatibleShells: set<string> := {"bash", "zsh", "sh"}

  function ShellTemplatePath(feature: string, shell: string): string {
    "features/" + feature + "/" + shell + GetShellExtension(shell)
  }

  function PosixTemplatePath(feature: string): string {
    "features/" + feature + "/posix.sh"
  }

  /** `HasFeatureTemplate`, over the embedded files `embedded` (path to content). */
  function HasFeatureTemplate(feature: string, shell: string, embedded: map<string, string>): (r: bool)
    ensures r <==> ShellTemplatePath(feature, shell) in embedded
                   || (shell in PosixCompatibleShells && PosixTemplatePath(feature) in embedded)
  {
    if ShellTemplatePath(feature, shell) in embedded then true
    else if shell in PosixCompatibleShells then PosixTemplatePath(feature) in embedded
    else false
  }

  /** `GetFeatureTemplate`: the shell's own template, else the POSIX one for a
      POSIX-compatible shell. */
  function GetFeatureTemplate(feature: string, shell: string, embedded: map<string, string>): (r: Result<string>)
    ensures r.Ok? <==> HasFeatureTemplate(feature, shell, embedded)
    ensures ShellTemplatePath(feature, shell) in embedded ==> r == Ok(embedded[ShellTemplatePath(feature, shell)])
    ensures ShellTemplatePath(feature, shell) !in embedded && r.Ok? ==>
      shell in PosixCompatibleShells && r == Ok(embedded[PosixTemplatePath(feature)])
  {
    var path := ShellTemplatePath(feature, shell);
    if path in embedded then Ok(embedded[path])
    else if shell in PosixCompatibleShells && PosixTemplatePath(feature) in embedded then
      Ok(embedded[PosixTemplatePath(feature)])
    else Err("template not found for feature " + feature + " and shell " + shell
             + ": open " + path + ": file does not exist")
  }

  /** `getOptionString`: a non-blank string option, else the default. */
  function GetOptionString(options: map<string, Value>, key: string, default: string): (r: string)
    ensures key in options && options[key].Str? && TrimSpace(options[key].s) != "" ==> r == options[key].s
    ensures !(key in options && options[key].Str? && TrimSpace(options[key].s) != "") ==> r == default
  {
    if key !in options || options[key] == Nil then default
    else if !options[key].Str? || TrimSpace(options[key].s) == "" then default
    else options[key].s
  }

  /** `getOptionBool`: a boolean option, else the default. */
  function GetOptionBool(options: map<string, Value>, key: string, default: bool): (r: bool)
    ensures key in options && options[key].Bool? ==> r == options[key].b
    ensures !(key in options && options[key].Bool?) ==> r == default
  {
    if key !in options || options[key] == Nil then default
    else if !options[key].Bool? then default
    else options[key].b
  }

  datatype TemplateContext = TemplateContext(
    featureName: string,
    shellName: string,
    options: map<string, Value>,
    theme: string,
    themeUrl: string,
    configFile: string,
    defaultConfigPath: string,
    autoUpgrade: bool)

  const ThemeUrlPrefix: string := "https://raw.githubusercontent.com/JanDeDobbeleer/oh-my-posh/main/themes/"

  /** `buildTemplateContext`. */
  function BuildTemplateContext(feature: string, shell: string, options: map<string, Value>): (c: TemplateContext)
    ensures c.featureName == feature && c.shellName == shell && c.options == options
    ensures feature != "oh-my-posh" ==>
      c.theme == "" && c.themeUrl == "" && c.configFile == "" && c.defaultConfigPath == "" && !c.autoUpgrade
    ensures feature == "oh-my-posh" ==>
      c.theme == GetOptionString(options, "theme", "jandedobbeleer")
      && c.themeUrl == ThemeUrlPrefix + c.theme + ".omp.json"
      && c.configFile == GetOptionString(options, "config_file", "")
      && c.defaultConfigPath == "$OMD_SHELL_ROOT/features/oh-my-posh.omp.json"
      && c.autoUpgrade == GetOptionBool(options, "auto_upgrade", false)
  {
    if feature == "oh-my-posh" then
      var theme := GetOptionString(options, "theme", "jandedobbeleer");
      var url := ThemeUrlPrefix + theme + ".omp.json";
      TemplateContext(feature, shell, options, theme, url,
        GetOptionString(options, "config_file", ""),
        "$OMD_SHELL_ROOT/features/oh-my-posh.omp.json",
        GetOptionBool(options, "auto_upgrade", false))
    else TemplateContext(feature, shell, options, "", "", "", "", false)
  }

  /** Where `WriteFeatureTemplate` puts a feature's rendered template. */
  function FeatureTemplateTarget(repoPath: string, shell: string, feature: string): string {
    GoPaths.JoinAll([repoPath, "omd-shells", shell, "features", feature + GetShellExtension(shell)])
  }

  /** `WriteFeatureTemplate`: the file to write and its text. `render` stands for
      `text/template` execution of a template against a context. */
  function WriteFeatureTemplate(repoPath: string, shell: string, feature: string, options: map<string, Value>,
                                embedded: map<string, string>, render: (string, TemplateContext) -> Result<string>)
    : (r: Result<(string, string)>)
    ensures r.Ok? ==> HasFeatureTemplate(feature, shell, embedded)
    ensures r.Ok? ==> r.value.0 == FeatureTemplateTarget(repoPath, shell, feature)
    ensures r.Ok? ==> render(GetFeatureTemplate(feature, shell, embedded).value,
                             BuildTemplateContext(feature, shell, options)) == Ok(r.value.1)
    ensures !HasFeatureTemplate(feature, shell, embedded) ==> r == Err(GetFeatureTemplate(feature, shell, embedded).msg)
    ensures HasFeatureTemplate(feature, shell, embedded) ==>
      match render(GetFeatureTemplate(feature, shell, embedded).value, BuildTemplateContext(feature, shell, options))
      case Err(m) => r == Err("failed to render feature template: " + m)
      case Ok(_) => r.Ok?
  {
    match GetFeatureTemplate(feature, shell, embedded)
    case Err(m) => Err(m)
    case Ok(content) =>
      match render(content, BuildTemplateContext(feature, shell, options))
      case Err(m) => Err("failed to render feature template: " + m)
      case Ok(text) => Ok((FeatureTemplateTarget(repoPath, shell, feature), text))
  }
}
