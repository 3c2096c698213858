/** The per-shell feature manifest (enabled.json): an ordered list of feature
    configurations, its validation rules and its in-place edits. */
module Manifest {
  import opened Wrappers
  import opened Values
  import opened GoStrings

  datatype FeatureConfig = FeatureConfig(
    name: string,
    strategy: string,
    onCommand: seq<string>,
    disabled: bool,
    options: map<string, Value>)

  /** A character of the name pattern `[a-zA-Z0-9_-]`. */
  predicate IsNameChar(c: char) {
    ('a' <= c <= 'z') || ('A' <= c <= 'Z') || ('0' <= c <= '9') || c == '_' || c == '-'
  }

  /** The anchored pattern `^[a-zA-Z0-9_-]+$`, matched left to right. */
  function MatchesNamePattern(s: string): (r: bool)
    ensures r <==> s != [] && forall i :: 0 <= i < |s| ==> IsNameChar(s[i])
  {
    s != [] && IsNameChar(s[0]) && (|s| == 1 || MatchesNamePattern(s[1..]))
  }

  function ValidateFeatureName(name: string): (r: Outcome)
    ensures r.Pass? <==> name != "" && forall i :: 0 <= i < |name| ==> IsNameChar(name[i])
    ensures name == "" ==> r == Fail("feature name cannot be empty")
  {
    if name == "" then Fail("feature name cannot be empty")
    else if !MatchesNamePattern(name) then
      Fail("feature name must contain only alphanumeric characters, hyphens, and underscores")
    else Pass
  }

  /** The load strategies a manifest may name. */
  const ValidStrategies: map<string, bool> := map["eager" := true, "defer" := true, "on-command" := true]

  function ValidateStrategy(strategy: string): (r: Outcome)
    ensures r.Pass? <==> strategy in {"", "eager", "defer", "on-command"}
  {
    if strategy == "" then Pass
    else if !(strategy in ValidStrategies && ValidStrategies[strategy]) then
      Fail("invalid strategy '" + strategy + "': must be 'eager', 'defer', or 'on-command'")
    else Pass
  }

  /** `FeatureConfig.Validate`: name first, then strategy, then trigger commands. */
  function Validate(f: FeatureConfig): (r: Outcome)
    ensures r.Pass? <==>
      ValidateFeatureName(f.name).Pass? && ValidateStrategy(f.strategy).Pass?
      && !(f.strategy == "on-command" && f.onCommand == [])
    ensures ValidateFeatureName(f.name).Fail? ==> r == ValidateFeatureName(f.name)
    ensures ValidateFeatureName(f.name).Pass? && ValidateStrategy(f.strategy).Fail? ==> r == ValidateStrategy(f.strategy)
  {
    var n := ValidateFeatureName(f.name);
    if n.Fail? then n
    else
      var s := ValidateStrategy(f.strategy);
      if s.Fail? then s
      else if f.strategy == "on-command" && |f.onCommand| == 0 then
        Fail("feature '" + f.name + "' uses on-command strategy but has no trigger commands")
      else Pass
  }

  predicate AllValid(features: seq<FeatureConfig>) {
    forall i :: 0 <= i < |features| ==> Validate(features[i]).Pass?
  }

  /** The validation loop of `ParseManifest`: the first invalid feature's index is reported. */
  method ValidateAll(features: seq<FeatureConfig>) returns (r: Outcome)
    ensures r.Pass? <==> AllValid(features)
    ensures r.Fail? ==> exists i :: 0 <= i < |features| && AllValid(features[..i])
                                 && Validate(features[i]).Fail?
                                 && r.msg == "feature at index " + IntToString(i) + ": " + Validate(features[i]).msg
  {
    var i := 0;
    while i < |features|
      invariant 0 <= i <= |features|
      invariant AllValid(features[..i])
    {
      var v := Validate(features[i]);
      if v.Fail? {
        return Fail("feature at index " + IntToString(i) + ": " + v.msg);
      }
      assert features[..i + 1] == features[..i] + [features[i]];
      i := i + 1;
    }
    assert features[..i] == features;
    return Pass;
  }

  /** Index of the first feature called `name`. */
  function FirstIndex(features: seq<FeatureConfig>, name: string): (r: Option<nat>)
    ensures r.Some? ==> r.value < |features| && features[r.value].name == name
                        && forall j :: 0 <= j < r.value ==> features[j].name != name
    ensures r.None? ==> forall j :: 0 <= j < |features| ==> features[j].name != name
  {
    if features == [] then None
    else if features[0].name == name then Some(0)
    else match FirstIndex(features[1..], name)
      case None => None
      case Some(k) => Some(k + 1)
  }

  /** The enabled features, in manifest order. */
  function EnabledOf(features: seq<FeatureConfig>): seq<FeatureConfig> {
    if features == [] then []
    else (if features[0].disabled then [] else [features[0]]) + EnabledOf(features[1..])
  }

  lemma {:induction false} EnabledOfAppend(a: seq<FeatureConfig>, b: seq<FeatureConfig>)
    ensures EnabledOf(a + b) == EnabledOf(a) + EnabledOf(b)
  {
    if a == [] {
      assert a + b == b;
    } else {
      assert (a + b)[0] == a[0] && (a + b)[1..] == a[1..] + b;
      EnabledOfAppend(a[1..], b);
    }
  }

  /** The enabled list holds exactly the features not marked disabled. */
  lemma {:induction false} EnabledOfMembers(features: seq<FeatureConfig>)
    ensures forall f :: f in EnabledOf(features) <==> f in features && !f.disabled
    ensures |EnabledOf(features)| <= |features|
  {
    if features != [] {
      EnabledOfMembers(features[1..]);
      assert features == [features[0]] + features[1..];
    }
  }

  /** An in-memory manifest, whose feature list the methods edit in place. */
  class FeatureManifest {
    var features: seq<FeatureConfig>

    constructor (features: seq<FeatureConfig>)
      ensures this.features == features
    {
      this.features := features;
    }

    /** Appends a valid feature whose name is not yet present. */
    method AddFeature(feature: FeatureConfig) returns (r: Outcome)
      modifies this
      ensures r.Pass? <==> Validate(feature).Pass? && FirstIndex(old(features), feature.name).None?
      ensures r.Pass? ==> features == old(features) + [feature]
      ensures r.Fail? ==> features == old(features)
      ensures Validate(feature).Fail? ==> r == Validate(feature)
      ensures Validate(feature).Pass? && FirstIndex(old(features), feature.name).Some? ==>
        r == Fail("feature '" + feature.name + "' already exists")
    {
      var v := Validate(feature);
      if v.Fail? {
        return v;
      }
      var i := 0;
      while i < |features|
        invariant 0 <= i <= |features|
        invariant forall j :: 0 <= j < i ==> features[j].name != feature.name
      {
        if features[i].name == feature.name {
          return Fail("feature '" + feature.name + "' already exists");
        }
        i := i + 1;
      }
      features := features + [feature];
      return Pass;
    }

    /** Deletes the first feature called `name`. */
    method RemoveFeature(name: string) returns (r: Outcome)
      modifies this
      ensures r.Pass? <==> FirstIndex(old(features), name).Some?
      ensures r.Fail? ==> features == old(features) && r == Fail("feature '" + name + "' not found")
      ensures r.Pass? ==> var i := FirstIndex(old(features), name).value;
                          features == old(features)[..i] + old(features)[i + 1..]
    {
      var i := 0;
      while i < |features|
        invariant 0 <= i <= |features|
        invariant forall j :: 0 <= j < i ==> features[j].name != name
      {
        if features[i].name == name {
          features := features[..i] + features[i + 1..];
          return Pass;
        }
        i := i + 1;
      }
      return Fail("feature '" + name + "' not found");
    }

    /** The first feature called `name`. */
    method GetFeature(name: string) returns (r: Result<FeatureConfig>)
      ensures FirstIndex(features, name).None? ==> r == Err("feature '" + name + "' not found")
      ensures FirstIndex(features, name).Some? ==> r == Ok(features[FirstIndex(features, name).value])
    {
      var i := 0;
      while i < |features|
        invariant 0 <= i <= |features|
        invariant forall j :: 0 <= j < i ==> features[j].name != name
      {
        if features[i].name == name {
          return Ok(features[i]);
        }
        i := i + 1;
      }
      return Err("feature '" + name + "' not found");
    }

    /** Applies `updater` to the first feature called `name`, keeps the change,
        and reports whether the updated entry is still valid. */
    method UpdateFeature(name: string, updater: FeatureConfig -> FeatureConfig) returns (r: Outcome)
      modifies this
      ensures FirstIndex(old(features), name).None? ==>
        features == old(features) && r == Fail("feature '" + name + "' not found")
      ensures FirstIndex(old(features), name).Some? ==>
        var i := FirstIndex(old(features), name).value;
        features == old(features)[i := updater(old(features)[i])] && r == Validate(features[i])
    {
      var i := 0;
      while i < |features|
        invariant 0 <= i <= |features|
        invariant forall j :: 0 <= j < i ==> features[j].name != name
      {
        if features[i].name == name {
          features := features[i := updater(features[i])];
          return Validate(features[i]);
        }
        i := i + 1;
      }
      return Fail("feature '" + name + "' not found");
    }

    function HasFeatures(): (r: bool)
      reads this
      ensures r <==> features != []
    {
      |features| > 0
    }

    method GetEnabledFeatures() returns (enabled: seq<FeatureConfig>)
      ensures enabled == EnabledOf(features)
    {
      enabled := [];
      var i := 0;
      while i < |features|
        invariant 0 <= i <= |features|
        invariant enabled == EnabledOf(features[..i])
      {
        EnabledOfAppend(features[..i], [features[i]]);
        assert features[..i + 1] == features[..i] + [features[i]];
        if !features[i].disabled {
          enabled := enabled + [features[i]];
        }
        i := i + 1;
      }
      assert features[..i] == features;
    }
  }
}
