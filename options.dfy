/** Non-interactive option handling: `--option key=value` overrides and the
    resolution of declared defaults. */
module Options {
  import opened Wrappers
  import opened Values
  import opened GoStrings
  import opened Catalog
  import opened Validation

  /** `strings.SplitN(raw, "=", 2)` when it yields two parts: the text before
      the first '=' and everything after it. */
  function SplitAtFirstEquals(raw: string): (r: Option<(string, string)>)
    ensures r.None? <==> '=' !in raw
    ensures r.Some? ==> '=' !in r.value.0 && r.value.0 + "=" + r.value.1 == raw
  {
    if raw == [] then None
    else if raw[0] == '=' then Some(([], raw[1..]))
    else match SplitAtFirstEquals(raw[1..])
      case None => None
      case Some((k, v)) => Some(([raw[0]] + k, v))
  }

  /** The option declarations by name; a later declaration replaces an earlier one. */
  function OptionsByName(opts: seq<OptionMetadata>): (m: map<string, OptionMetadata>)
    ensures forall i :: 0 <= i < |opts| ==> opts[i].name in m
    ensures forall n :: n in m ==> exists i :: 0 <= i < |opts| && opts[i] == m[n] && m[n].name == n
  {
    if opts == [] then map[]
    else
      var m := OptionsByName(opts[..|opts| - 1]);
      assert forall i :: 0 <= i < |opts| - 1 ==> opts[..|opts| - 1][i] == opts[i];
      m[opts[|opts| - 1].name := opts[|opts| - 1]]
  }

  /** `parseOptionValue`: the typed value a command-line text stands for. */
  function ParseOptionValue(opt: OptionMetadata, text: string, env: PathEnv): (r: Result<Value>)
    ensures (opt.optType == StringType || opt.optType == EnumType) ==> r == Ok(Str(text))
    ensures opt.optType == IntType ==>
      (r.Ok? <==> ParseInt64(text).Some?) && (r.Ok? ==> r.value == Int(ParseInt64(text).value))
    ensures opt.optType == BoolType ==>
      (r.Ok? <==> ParseBool(Str(text)).Ok?) && (r.Ok? ==> r.value == Bool(ParseBool(Str(text)).value))
    ensures (opt.optType == FileType || opt.optType == PathType) ==>
      (r.Ok? <==> ExpandPath(text, env.home, env.cwd).Ok?)
      && (r.Ok? ==> r.value == Str(ExpandPath(text, env.home, env.cwd).value))
    ensures opt.optType.UnknownType? ==> r == Err("unsupported option type: " + opt.optType.name)
  {
    match opt.optType
    case StringType => Ok(Str(text))
    case EnumType => Ok(Str(text))
    case IntType =>
      (match ParseInt64(text)
       case None => Err("expected integer")
       case Some(i) => Ok(Int(i)))
    case BoolType =>
      (match ParseBool(Str(text))
       case Err(m) => Err(m)
       case Ok(b) => Ok(Bool(b)))
    case FileType =>
      (match ExpandPath(text, env.home, env.cwd)
       case Err(m) => Err(m)
       case Ok(p) => Ok(Str(p)))
    case PathType =>
      (match ExpandPath(text, env.home, env.cwd)
       case Err(m) => Err(m)
       case Ok(p) => Ok(Str(p)))
    case UnknownType(n) => Err("unsupported option type: " + n)
  }

  /** One `key=value` override: its trimmed key and its parsed, validated value. */
  function ParseOverride(byName: map<string, OptionMetadata>, feature: string, raw: string, env: PathEnv): (r: Result<(string, Value)>)
    ensures r.Ok? ==> SplitAtFirstEquals(raw).Some?
                      && r.value.0 == TrimSpace(SplitAtFirstEquals(raw).value.0) && r.value.0 != ""
                      && r.value.0 in byName
                      && ParseOptionValue(byName[r.value.0], SplitAtFirstEquals(raw).value.1, env) == Ok(r.value.1)
                      && ValidateOption(byName[r.value.0], r.value.1, env).Pass?
    ensures SplitAtFirstEquals(raw).None? ==> r == Err("invalid --option format '" + raw + "' (expected key=value)")
  {
    match SplitAtFirstEquals(raw)
    case None => Err("invalid --option format '" + raw + "' (expected key=value)")
    case Some((k, text)) =>
      var key := TrimSpace(k);
      if key == "" then Err("invalid --option format '" + raw + "' (expected key=value)")
      else if key !in byName then Err("unknown option '" + key + "' for feature '" + feature + "'")
      else
        var opt := byName[key];
        match ParseOptionValue(opt, text, env)
        case Err(m) => Err("invalid value for option '" + key + "': " + m)
        case Ok(v) =>
          match ValidateOption(opt, v, env)
          case Fail(m) => Err("invalid value for option '" + key + "': " + m)
          case Pass => Ok((key, v))
  }

  /** Every override parsed on its own (parsing has no side effects). */
  function ParseAll(byName: map<string, OptionMetadata>, feature: string, raws: seq<string>, env: PathEnv)
    : (es: seq<Result<(string, Value)>>)
    ensures |es| == |raws| && forall i :: 0 <= i < |raws| ==> es[i] == ParseOverride(byName, feature, raws[i], env)
  {
    seq(|raws|, i requires 0 <= i < |raws| => ParseOverride(byName, feature, raws[i], env))
  }

  /** The overrides loop from `acc` on: the first bad entry aborts everything,
      otherwise each entry writes its key. */
  function FoldOverrides(es: seq<Result<(string, Value)>>, acc: map<string, Value>): (r: Result<map<string, Value>>)
    decreases |es|
  {
    if es == [] then Ok(acc)
    else match es[0]
      case Err(m) => Err(m)
      case Ok((k, v)) => FoldOverrides(es[1..], acc[k := v])
  }

  /** `ParseOptionOverrides`. */
  method ParseOptionOverrides(metadata: FeatureMetadata, rawOptions: seq<string>, env: PathEnv)
    returns (r: Result<map<string, Value>>)
    ensures rawOptions == [] ==> r == Ok(map[])
    ensures r == FoldOverrides(ParseAll(OptionsByName(metadata.options), metadata.name, rawOptions, env), map[])
  {
    var overrides: map<string, Value> := map[];
    if |rawOptions| == 0 {
      return Ok(overrides);
    }
    var byName := OptionsByName(metadata.options);
    ghost var es := ParseAll(byName, metadata.name, rawOptions, env);
    var i := 0;
    while i < |rawOptions|
      invariant 0 <= i <= |rawOptions|
      invariant FoldOverrides(es[i..], overrides) == FoldOverrides(es, map[])
    {
      var entry := ParseOverride(byName, metadata.name, rawOptions[i], env);
      assert es[i..][0] == entry && es[i..][1..] == es[i + 1..];
      if entry.Err? {
        return Err(entry.msg);
      }
      overrides := overrides[entry.value.0 := entry.value.1];
      i := i + 1;
    }
    return Ok(overrides);
  }

  /** The overrides loop succeeds exactly when every entry is well formed,
      declared, parsable and valid. */
  lemma {:induction false} FoldOverridesOk(es: seq<Result<(string, Value)>>, acc: map<string, Value>)
    ensures FoldOverrides(es, acc).Ok? <==> forall i :: 0 <= i < |es| ==> es[i].Ok?
    decreases |es|
  {
    if es != [] && es[0].Ok? {
      FoldOverridesOk(es[1..], acc[es[0].value.0 := es[0].value.1]);
      assert forall i :: 1 <= i < |es| ==> es[i] == es[1..][i - 1];
    }
  }

  /** On success, keys no entry names keep their value from `acc`. */
  lemma {:induction false} FoldOverridesKeeps(es: seq<Result<(string, Value)>>, acc: map<string, Value>, k: string)
    requires FoldOverrides(es, acc).Ok?
    requires k in acc && forall i :: 0 <= i < |es| ==> es[i].Ok? && es[i].value.0 != k
    ensures k in FoldOverrides(es, acc).value && FoldOverrides(es, acc).value[k] == acc[k]
    decreases |es|
  {
    if es != [] {
      assert es[0].value.0 != k;
      assert forall i :: 1 <= i < |es| ==> es[i] == es[1..][i - 1];
      FoldOverridesKeeps(es[1..], acc[es[0].value.0 := es[0].value.1], k);
    }
  }

  /** On success every entry's key holds the value of the last entry with that key. */
  lemma {:induction false} FoldOverridesLastWins(es: seq<Result<(string, Value)>>, acc: map<string, Value>, i: nat)
    requires FoldOverrides(es, acc).Ok?
    requires i < |es| && es[i].Ok?
    requires forall j :: i < j < |es| ==> es[j].Ok? && es[j].value.0 != es[i].value.0
    ensures es[i].value.0 in FoldOverrides(es, acc).value
    ensures FoldOverrides(es, acc).value[es[i].value.0] == es[i].value.1
    decreases |es|
  {
    assert es[0].Ok?;
    var acc' := acc[es[0].value.0 := es[0].value.1];
    assert forall j :: 1 <= j < |es| ==> es[j] == es[1..][j - 1];
    if i == 0 {
      FoldOverridesOk(es, acc);
      FoldOverridesKeeps(es[1..], acc', es[0].value.0);
    } else {
      FoldOverridesLastWins(es[1..], acc', i - 1);
    }
  }

  /** On success the result names only keys from `acc` or from some entry. */
  lemma {:induction false} FoldOverridesKeys(es: seq<Result<(string, Value)>>, acc: map<string, Value>)
    requires FoldOverrides(es, acc).Ok?
    ensures forall k :: k in FoldOverrides(es, acc).value ==>
      k in acc || exists i :: 0 <= i < |es| && es[i].Ok? && es[i].value.0 == k
    decreases |es|
  {
    if es != [] {
      var acc' := acc[es[0].value.0 := es[0].value.1];
      FoldOverridesKeys(es[1..], acc');
      assert forall j :: 1 <= j < |es| ==> es[j] == es[1..][j - 1];
    }
  }

  /** `resolveOptionDefault`: the value an option takes when not overridden. */
  function ResolveOptionDefault(opt: OptionMetadata, env: PathEnv): (r: Result<Option<Value>>)
    ensures opt.default == Nil && opt.required ==> r.Err?
    ensures opt.default == Nil && !opt.required ==> r == Ok(None)
    ensures opt.default != Nil ==> (r.Ok? <==> ValidateOption(opt, opt.default, env).Pass?)
    ensures r.Ok? && r.value.Some? ==> r.value.value == opt.default && opt.default != Nil
  {
    if opt.default == Nil then
      if opt.required then
        Err("required option '" + opt.displayName + "' has no default and cannot be resolved in non-interactive mode")
      else Ok(None)
    else match ValidateOption(opt, opt.default, env)
      case Fail(m) => Err("invalid default value for option '" + opt.displayName + "': " + m)
      case Pass => Ok(Some(opt.default))
  }

  /** The defaults loop from `values` on. */
  function ResolveDefaults(opts: seq<OptionMetadata>, env: PathEnv, values: map<string, Value>): (r: Result<map<string, Value>>)
    decreases |opts|
  {
    if opts == [] then Ok(values)
    else if opts[0].name in values then ResolveDefaults(opts[1..], env, values)
    else match ResolveOptionDefault(opts[0], env)
      case Err(m) => Err(m)
      case Ok(None) => ResolveDefaults(opts[1..], env, values)
      case Ok(Some(v)) => ResolveDefaults(opts[1..], env, values[opts[0].name := v])
  }

  /** `ResolveOptionsForNonInteractiveWithOverrides`. */
  method ResolveOptionsForNonInteractiveWithOverrides(metadata: FeatureMetadata, overrides: map<string, Value>, env: PathEnv)
    returns (r: Result<map<string, Value>>)
    ensures r == ResolveDefaults(metadata.options, env, overrides)
  {
    var values := overrides;
    var opts := metadata.options;
    var i := 0;
    while i < |opts|
      invariant 0 <= i <= |opts|
      invariant ResolveDefaults(opts[i..], env, values) == ResolveDefaults(opts, env, overrides)
    {
      var opt := opts[i];
      assert opts[i..][0] == opt && opts[i..][1..] == opts[i + 1..];
      if opt.name !in values {
        var d := ResolveOptionDefault(opt, env);
        if d.Err? {
          return Err(d.msg);
        }
        if d.value.Some? {
          values := values[opt.name := d.value.value];
        }
      }
      i := i + 1;
    }
    return Ok(values);
  }

  /** The names of `opts`, in order. */
  function OptionNames(opts: seq<OptionMetadata>): seq<string> {
    seq(|opts|, i requires 0 <= i < |opts| => opts[i].name)
  }

  /** Distinct names stay distinct without the first option, whose name no later option has. */
  lemma DistinctRest(opts: seq<OptionMetadata>)
    requires opts != [] && DistinctNames(OptionNames(opts))
    ensures DistinctNames(OptionNames(opts[1..]))
    ensures forall i :: 1 <= i < |opts| ==> opts[i].name != opts[0].name
  {
    var names := OptionNames(opts);
    assert OptionNames(opts[1..]) == names[1..];
    forall i | 1 <= i < |opts| ensures opts[i].name != opts[0].name {
      assert names[0] != names[i];
    }
  }

  /** The resolution succeeds exactly when every option without an override has
      a usable default or is optional. */
  lemma {:induction false} ResolveDefaultsOk(opts: seq<OptionMetadata>, env: PathEnv, values: map<string, Value>)
    requires DistinctNames(OptionNames(opts))
    ensures ResolveDefaults(opts, env, values).Ok? <==>
      forall i :: 0 <= i < |opts| && opts[i].name !in values ==> ResolveOptionDefault(opts[i], env).Ok?
    decreases |opts|
  {
    if opts != [] {
      var o := opts[0];
      var rest := opts[1..];
      DistinctRest(opts);
      assert forall i :: 1 <= i < |opts| ==> opts[i] == rest[i - 1];
      if o.name in values {
        ResolveDefaultsOk(rest, env, values);
      } else {
        var d := ResolveOptionDefault(o, env);
        if d.Ok? {
          var values' := if d.value.Some? then values[o.name := d.value.value] else values;
          ResolveDefaultsOk(rest, env, values');
          assert forall i :: 1 <= i < |opts| ==> (opts[i].name in values' <==> opts[i].name in values);
        }
      }
    }
  }

  /** A successful resolution keeps the overrides and adds only keys that name options. */
  lemma {:induction false} ResolveDefaultsKeeps(opts: seq<OptionMetadata>, env: PathEnv, values: map<string, Value>)
    requires ResolveDefaults(opts, env, values).Ok?
    ensures var r := ResolveDefaults(opts, env, values).value;
      (forall k :: k in values ==> k in r && r[k] == values[k])
      && (forall k :: k in r ==> k in values || exists i :: 0 <= i < |opts| && opts[i].name == k)
    decreases |opts|
  {
    if opts != [] {
      var o := opts[0];
      var rest := opts[1..];
      assert forall i :: 1 <= i < |opts| ==> opts[i] == rest[i - 1];
      if o.name in values {
        ResolveDefaultsKeeps(rest, env, values);
      } else {
        var d := ResolveOptionDefault(o, env);
        var values' := if d.value.Some? then values[o.name := d.value.value] else values;
        ResolveDefaultsKeeps(rest, env, values');
      }
    }
  }

  /** A successful resolution gives every option without an override its
      default, and leaves it out when it has none. */
  lemma {:induction false} ResolveDefaultsFills(opts: seq<OptionMetadata>, env: PathEnv, values: map<string, Value>)
    requires DistinctNames(OptionNames(opts))
    requires ResolveDefaults(opts, env, values).Ok?
    ensures var r := ResolveDefaults(opts, env, values).value;
      forall i :: 0 <= i < |opts| && opts[i].name !in values ==>
        (opts[i].name in r <==> opts[i].default != Nil)
        && (opts[i].default != Nil ==> r[opts[i].name] == opts[i].default)
    decreases |opts|
  {
    if opts != [] {
      var o := opts[0];
      var rest := opts[1..];
      DistinctRest(opts);
      assert forall i :: 1 <= i < |opts| ==> opts[i] == rest[i - 1];
      if o.name in values {
        ResolveDefaultsFills(rest, env, values);
      } else {
        var d := ResolveOptionDefault(o, env);
        assert d.Ok? && (d.value.Some? <==> o.default != Nil);
        var values' := if d.value.Some? then values[o.name := d.value.value] else values;
        assert ResolveDefaults(rest, env, values') == ResolveDefaults(opts, env, values);
        var r := ResolveDefaults(opts, env, values).value;
        ResolveDefaultsFills(rest, env, values');
        ResolveDefaultsKeeps(rest, env, values');
        forall i | 0 <= i < |opts| && opts[i].name !in values
          ensures (opts[i].name in r <==> opts[i].default != Nil)
            && (opts[i].default != Nil ==> r[opts[i].name] == opts[i].default)
        {
          if i == 0 {
            forall j | 0 <= j < |rest| ensures rest[j].name != o.name {
              assert rest[j] == opts[j + 1];
            }
          } else {
            assert opts[i] == rest[i - 1] && opts[i].name != o.name;
          }
        }
      }
    }
  }

  /** Overrides are kept verbatim; an option with no override takes its valid
      default, is left out when optional without a default, and otherwise makes
      the whole resolution fail. */
  lemma ResolveDefaultsSpec(opts: seq<OptionMetadata>, env: PathEnv, values: map<string, Value>)
    requires DistinctNames(OptionNames(opts))
    ensures var r := ResolveDefaults(opts, env, values);
      (r.Ok? <==> forall i :: 0 <= i < |opts| && opts[i].name !in values ==> ResolveOptionDefault(opts[i], env).Ok?)
      && (r.Ok? ==>
            (forall k :: k in values ==> k in r.value && r.value[k] == values[k])
            && (forall i :: 0 <= i < |opts| && opts[i].name !in values ==>
                  (opts[i].name in r.value <==> opts[i].default != Nil)
                  && (opts[i].default != Nil ==> r.value[opts[i].name] == opts[i].default))
            && (forall k :: k in r.value ==> k in values || exists i :: 0 <= i < |opts| && opts[i].name == k))
  {
    ResolveDefaultsOk(opts, env, values);
    if ResolveDefaults(opts, env, values).Ok? {
      ResolveDefaultsKeeps(opts, env, values);
      ResolveDefaultsFills(opts, env, values);
    }
  }

  /** `HasRequiredOptions`: a scan with an early return. */
  method HasRequiredOptions(metadata: FeatureMetadata) returns (r: bool)
    ensures r <==> exists i :: 0 <= i < |metadata.options| && metadata.options[i].required
  {
    for i := 0 to |metadata.options|
      invariant forall j :: 0 <= j < i ==> !metadata.options[j].required
    {
      if metadata.options[i].required {
        return true;
      }
    }
    return false;
  }
}
