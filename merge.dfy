/** Merging the tracked manifest (enabled.json) with the machine-local override
    manifest (enabled.local.json), and the safety rules for loading the latter. */
module Merge {
  import opened Wrappers
  import opened GoStrings
  import opened Manifest

  datatype LocalOverride = LocalOverride(hasLocal: bool, isFromLocal: bool, isOverridden: bool)

  datatype FeatureWithOverride = FeatureWithOverride(config: FeatureConfig, override: LocalOverride)

  const NoLocal := LocalOverride(false, false, false)
  const OverriddenByLocal := LocalOverride(true, false, true)
  const BaseOnly := LocalOverride(true, false, false)
  const LocalOnly := LocalOverride(true, true, false)

  /** The lookup table built from the local manifest: a later entry with the
      same name replaces an earlier one. */
  function LocalMap(local: seq<FeatureConfig>): (m: map<string, FeatureConfig>)
    ensures forall n :: n in m <==> exists i :: 0 <= i < |local| && local[i].name == n
  {
    if local == [] then map[]
    else
      var init := local[..|local| - 1];
      var m := LocalMap(init)[local[|local| - 1].name := local[|local| - 1]];
      assert forall i :: 0 <= i < |init| ==> init[i] == local[i];
      m
  }

  /** The last local entry with a given name is the one the table keeps. */
  lemma {:induction false} LocalMapLastWins(local: seq<FeatureConfig>, i: nat)
    requires i < |local|
    requires forall j :: i < j < |local| ==> local[j].name != local[i].name
    ensures local[i].name in LocalMap(local) && LocalMap(local)[local[i].name] == local[i]
  {
    if i < |local| - 1 {
      LocalMapLastWins(local[..|local| - 1], i);
    }
  }

  function BaseNames(base: seq<FeatureConfig>): set<string> {
    set i | 0 <= i < |base| :: base[i].name
  }

  /** A base feature with the local entry's settings applied. */
  function ApplyOverride(base: FeatureConfig, local: FeatureConfig): FeatureConfig {
    base.(strategy := if local.strategy != "" then local.strategy else base.strategy,
          onCommand := if |local.onCommand| > 0 then local.onCommand else base.onCommand,
          disabled := local.disabled)
  }

  /** The merged entry for base feature `f` when `pending` holds the local
      entries not yet matched. */
  function MergeEntry(f: FeatureConfig, pending: map<string, FeatureConfig>): FeatureWithOverride {
    if f.name in pending then FeatureWithOverride(ApplyOverride(f, pending[f.name]), OverriddenByLocal)
    else FeatureWithOverride(f, BaseOnly)
  }

  /** The merged entries for the base features: each local entry is applied to
      the first base feature of that name only. */
  function MergeBase(base: seq<FeatureConfig>, lm: map<string, FeatureConfig>): (r: seq<FeatureWithOverride>)
    ensures |r| == |base|
  {
    if base == [] then []
    else
      var init := base[..|base| - 1];
      MergeBase(init, lm) + [MergeEntry(base[|base| - 1], lm - BaseNames(init))]
  }

  predicate Distinct(s: seq<string>) {
    forall i, j :: 0 <= i < j < |s| ==> s[i] != s[j]
  }

  /** `order` is one iteration order of the local-only names. */
  predicate IsLocalOnlyOrder(base: seq<FeatureConfig>, local: seq<FeatureConfig>, order: seq<string>) {
    Distinct(order) && (set n | n in order) == LocalMap(local).Keys - BaseNames(base)
  }

  /** The local-only entries, visited in `order`. */
  function LocalOnlyTail(lm: map<string, FeatureConfig>, order: seq<string>): (r: seq<FeatureWithOverride>)
    requires forall j :: 0 <= j < |order| ==> order[j] in lm
    ensures |r| == |order|
  {
    seq(|order|, j requires 0 <= j < |order| => FeatureWithOverride(lm[order[j]], LocalOnly))
  }

  lemma OrderInTable(base: seq<FeatureConfig>, local: seq<FeatureConfig>, order: seq<string>)
    requires IsLocalOnlyOrder(base, local, order)
    ensures forall j :: 0 <= j < |order| ==> order[j] in LocalMap(local) && order[j] !in BaseNames(base)
  {
    forall j | 0 <= j < |order|
      ensures order[j] in LocalMap(local) && order[j] !in BaseNames(base)
    {
      var names := set n | n in order;
      assert order[j] in names;
      assert order[j] in LocalMap(local).Keys - BaseNames(base);
    }
  }

  /** The merge, for one iteration order of the local-only features. */
  function MergeSpec(base: seq<FeatureConfig>, local: Option<seq<FeatureConfig>>, order: seq<string>): (r: seq<FeatureWithOverride>)
    requires local.Some? ==> IsLocalOnlyOrder(base, local.value, order)
  {
    match local
    case None => seq(|base|, i requires 0 <= i < |base| => FeatureWithOverride(base[i], NoLocal))
    case Some(l) =>
      OrderInTable(base, l, order);
      MergeBase(base, LocalMap(l)) + LocalOnlyTail(LocalMap(l), order)
  }

  method BuildLocalMap(l: seq<FeatureConfig>) returns (localFeatures: map<string, FeatureConfig>)
    ensures localFeatures == LocalMap(l)
  {
    localFeatures := map[];
    var i := 0;
    while i < |l|
      invariant 0 <= i <= |l|
      invariant localFeatures == LocalMap(l[..i])
    {
      assert l[..i + 1][..i] == l[..i];
      localFeatures := localFeatures[l[i].name := l[i]];
      i := i + 1;
    }
    assert l[..i] == l;
  }

  /** The loop over the base features: each is merged with the local entry of
      its name, which is then removed from the table. */
  method MergeBaseFeatures(base: seq<FeatureConfig>, lm: map<string, FeatureConfig>)
    returns (merged: seq<FeatureWithOverride>, remaining: map<string, FeatureConfig>)
    ensures merged == MergeBase(base, lm)
    ensures remaining == lm - BaseNames(base)
  {
    merged := [];
    remaining := lm;
    var i := 0;
    while i < |base|
      invariant 0 <= i <= |base|
      invariant merged == MergeBase(base[..i], lm)
      invariant remaining == lm - BaseNames(base[..i])
    {
      var f := base[i];
      assert base[..i + 1][..i] == base[..i];
      assert BaseNames(base[..i + 1]) == BaseNames(base[..i]) + {f.name};
      if f.name in remaining {
        var lf := remaining[f.name];
        var mergedFeature := f;
        if lf.strategy != "" {
          mergedFeature := mergedFeature.(strategy := lf.strategy);
        }
        if |lf.onCommand| > 0 {
          mergedFeature := mergedFeature.(onCommand := lf.onCommand);
        }
        mergedFeature := mergedFeature.(disabled := lf.disabled);
        merged := merged + [FeatureWithOverride(mergedFeature, OverriddenByLocal)];
        remaining := remaining - {f.name};
      } else {
        merged := merged + [FeatureWithOverride(f, BaseOnly)];
      }
      i := i + 1;
    }
    assert base[..i] == base;
  }

  /** `MergeManifests`; `order` is the order in which the remaining local-only
      entries of the lookup table are visited. */
  method MergeManifests(base: seq<FeatureConfig>, local: Option<seq<FeatureConfig>>, order: seq<string>)
    returns (merged: seq<FeatureWithOverride>)
    requires local.Some? ==> IsLocalOnlyOrder(base, local.value, order)
    ensures merged == MergeSpec(base, local, order)
  {
    merged := [];
    if local.None? {
      var i := 0;
      while i < |base|
        invariant 0 <= i <= |base|
        invariant |merged| == i
        invariant forall k :: 0 <= k < i ==> merged[k] == FeatureWithOverride(base[k], NoLocal)
      {
        merged := merged + [FeatureWithOverride(base[i], NoLocal)];
        i := i + 1;
      }
      return;
    }
    var localFeatures := BuildLocalMap(local.value);
    OrderInTable(base, local.value, order);
    ghost var lm := localFeatures;
    merged, localFeatures := MergeBaseFeatures(base, localFeatures);
    ghost var prefix := merged;
    var j := 0;
    while j < |order|
      invariant 0 <= j <= |order|
      invariant merged == prefix + LocalOnlyTail(lm, order[..j])
    {
      assert order[..j + 1] == order[..j] + [order[j]];
      merged := merged + [FeatureWithOverride(localFeatures[order[j]], LocalOnly)];
      j := j + 1;
    }
    assert order[..j] == order;
  }

  /** With no local manifest, every base feature is wrapped unchanged, in order, with no flag set. */
  lemma MergeWithoutLocal(base: seq<FeatureConfig>, order: seq<string>)
    ensures var r := MergeSpec(base, None, order);
      |r| == |base| && forall i :: 0 <= i < |base| ==> r[i].config == base[i] && r[i].override == NoLocal
  {
  }

  /** The entry for base feature `i` when a local manifest exists. */
  lemma {:induction false} MergeBaseAt(base: seq<FeatureConfig>, lm: map<string, FeatureConfig>, i: nat)
    requires i < |base|
    ensures MergeBase(base, lm)[i] == MergeEntry(base[i], lm - BaseNames(base[..i]))
  {
    var init := base[..|base| - 1];
    if i < |base| - 1 {
      MergeBaseAt(init, lm, i);
      assert init[..i] == base[..i];
    } else {
      assert init == base[..i];
    }
  }

  /** A base feature is overridden exactly when a local entry has its name and
      no earlier base feature has that name. */
  predicate FirstInBase(base: seq<FeatureConfig>, i: nat)
    requires i < |base|
  {
    forall j :: 0 <= j < i ==> base[j].name != base[i].name
  }

  /** The first |base| merged entries follow the base order; an entry matched by
      the local manifest takes its strategy (when set), its trigger commands
      (when set) and always its disabled flag, keeping name and options. */
  lemma MergeBaseEntries(base: seq<FeatureConfig>, local: seq<FeatureConfig>, order: seq<string>, i: nat)
    requires IsLocalOnlyOrder(base, local, order)
    requires i < |base|
    ensures var r := MergeSpec(base, Some(local), order);
      var f := base[i];
      var lm := LocalMap(local);
      |r| == |base| + |order|
      && r[i].config.name == f.name && r[i].config.options == f.options
      && (if f.name in lm && FirstInBase(base, i) then
            r[i].override == OverriddenByLocal
            && r[i].config.strategy == (if lm[f.name].strategy != "" then lm[f.name].strategy else f.strategy)
            && r[i].config.onCommand == (if lm[f.name].onCommand != [] then lm[f.name].onCommand else f.onCommand)
            && r[i].config.disabled == lm[f.name].disabled
          else
            r[i].override == BaseOnly && r[i].config == f)
  {
    var lm := LocalMap(local);
    MergeBaseAt(base, lm, i);
    var f := base[i];
    if !FirstInBase(base, i) {
      var j :| 0 <= j < i && base[j].name == f.name;
      assert base[..i][j] == base[j];
    }
  }

  lemma {:induction false} DistinctCard(s: seq<string>)
    requires Distinct(s)
    ensures |set n | n in s| == |s|
  {
    if s != [] {
      DistinctCard(s[1..]);
      assert (set n | n in s) == {s[0]} + (set n | n in s[1..]);
    }
  }

  /** After the base features come as many entries as there are distinct local names missing from the base. */
  lemma MergeLength(base: seq<FeatureConfig>, local: seq<FeatureConfig>, order: seq<string>)
    requires IsLocalOnlyOrder(base, local, order)
    ensures |MergeSpec(base, Some(local), order)| == |base| + |LocalMap(local).Keys - BaseNames(base)|
  {
    DistinctCard(order);
  }

  /** Each local-only name appears after the base features, with its local
      configuration and the local-only flags. */
  lemma MergeLocalOnlyPresent(base: seq<FeatureConfig>, local: seq<FeatureConfig>, order: seq<string>, n: string)
    requires IsLocalOnlyOrder(base, local, order)
    requires n in LocalMap(local) && n !in BaseNames(base)
    ensures var r := MergeSpec(base, Some(local), order);
      exists k :: |base| <= k < |r| && r[k] == FeatureWithOverride(LocalMap(local)[n], LocalOnly)
  {
    assert n in LocalMap(local).Keys - BaseNames(base);
    assert n in (set m | m in order);
    var j :| 0 <= j < |order| && order[j] == n;
    var r := MergeSpec(base, Some(local), order);
    assert r[|base| + j] == FeatureWithOverride(LocalMap(local)[n], LocalOnly);
  }

  /** No local-only name appears twice. */
  lemma MergeLocalOnlyOnce(base: seq<FeatureConfig>, local: seq<FeatureConfig>, order: seq<string>)
    requires IsLocalOnlyOrder(base, local, order)
    ensures var r := MergeSpec(base, Some(local), order);
      forall k, k' :: |base| <= k < k' < |r| ==> r[k].config.name != r[k'].config.name
  {
    var r := MergeSpec(base, Some(local), order);
    OrderInTable(base, local, order);
    forall k, k' | |base| <= k < k' < |r|
      ensures r[k].config.name != r[k'].config.name
    {
      var a, b := order[k - |base|], order[k' - |base|];
      LocalMapNames(local, a);
      LocalMapNames(local, b);
    }
  }

  /** Every table entry is filed under its own name. */
  lemma {:induction false} LocalMapNames(local: seq<FeatureConfig>, n: string)
    requires n in LocalMap(local)
    ensures LocalMap(local)[n].name == n
  {
    if local != [] && n != local[|local| - 1].name {
      LocalMapNames(local[..|local| - 1], n);
    }
  }

  /** The configurations of the merged entries that are not disabled, in order. */
  function MergedEnabledOf(m: seq<FeatureWithOverride>): seq<FeatureConfig> {
    if m == [] then []
    else MergedEnabledOf(m[..|m| - 1]) + (if m[|m| - 1].config.disabled then [] else [m[|m| - 1].config])
  }

  /** `MergedManifest.GetEnabledFeatures`. */
  method MergedEnabledFeatures(m: seq<FeatureWithOverride>) returns (enabled: seq<FeatureConfig>)
    ensures enabled == MergedEnabledOf(m)
  {
    enabled := [];
    var i := 0;
    while i < |m|
      invariant 0 <= i <= |m|
      invariant enabled == MergedEnabledOf(m[..i])
    {
      assert m[..i + 1][..i] == m[..i];
      if !m[i].config.disabled {
        enabled := enabled + [m[i].config];
      }
      i := i + 1;
    }
    assert m[..i] == m;
  }

  /** The enabled merged configurations are those of the merged entries, minus the disabled ones. */
  lemma {:induction false} MergedEnabledMembers(m: seq<FeatureWithOverride>)
    ensures forall c :: c in MergedEnabledOf(m) <==> !c.disabled && exists i :: 0 <= i < |m| && m[i].config == c
  {
    if m != [] {
      var init := m[..|m| - 1];
      MergedEnabledMembers(init);
      assert forall i :: 0 <= i < |init| ==> init[i] == m[i];
    }
  }

  /** Merged enabled features equal the manifest enabled features of the merged configurations. */
  lemma {:induction false} MergedEnabledMatchesManifest(m: seq<FeatureWithOverride>)
    ensures MergedEnabledOf(m) == EnabledOf(seq(|m|, i requires 0 <= i < |m| => m[i].config))
  {
    if m != [] {
      var init := m[..|m| - 1];
      MergedEnabledMatchesManifest(init);
      var all := seq(|m|, i requires 0 <= i < |m| => m[i].config);
      var head := seq(|init|, i requires 0 <= i < |init| => init[i].config);
      assert all == head + [m[|m| - 1].config];
      EnabledOfAppend(head, [m[|m| - 1].config]);
    }
  }

  /** What `os.Lstat` reports about the local manifest. */
  datatype LstatResult =
    | LstatNotExist
    | LstatError(reason: string)
    | LstatInfo(regular: bool, ownerUid: Option<nat>, mode: bv32)

  /** The Unix ownership and permission rule: the file must belong to the
      current user and must not be writable by group or others. */
  function ValidateLocalManifestUnix(ownerUid: Option<nat>, mode: bv32, currentUid: nat): (r: Outcome)
    ensures r.Pass? <==> ownerUid.None? || (ownerUid.value == currentUid && mode & 0x12 == 0)
    ensures ownerUid.Some? && ownerUid.value == currentUid && mode & 0x12 != 0 ==>
      r == Fail("file is group or world writable (permissions: " + NatToOctal((mode & 0x1FF) as int) + ")")
  {
    if ownerUid.None? then Pass
    else if ownerUid.value != currentUid then
      Fail("file not owned by current user (uid " + IntToString(ownerUid.value) + " != " + IntToString(currentUid) + ")")
    else if (mode & 0x1FF) & 0x12 != 0 then
      Fail("file is group or world writable (permissions: " + NatToOctal((mode & 0x1FF) as int) + ")")
    else Pass
  }

  /** `ValidateLocalManifest`: a missing file is acceptable, a non-regular one is not;
      on Windows no further check is made. */
  function ValidateLocalManifest(info: LstatResult, goos: string, currentUid: nat): (r: Outcome)
    ensures info.LstatNotExist? ==> r.Pass?
    ensures info.LstatInfo? && !info.regular ==> r.Fail?
    ensures info.LstatInfo? && info.regular && goos == "windows" ==> r.Pass?
    ensures r.Pass? <==>
      || info.LstatNotExist?
      || (info.LstatInfo? && info.regular
          && (goos == "windows" || info.ownerUid.None? || (info.ownerUid.value == currentUid && info.mode & 0x12 == 0)))
  {
    match info
    case LstatNotExist => Pass
    case LstatError(reason) => Fail("failed to stat file: " + reason)
    case LstatInfo(regular, uid, mode) =>
      if !regular then Fail("file is not a regular file (possibly a symlink)")
      else if goos == "windows" then Pass
      else ValidateLocalManifestUnix(uid, mode, currentUid)
  }

  /** The content of a manifest file as far as reading and JSON decoding go. */
  datatype ManifestFile = Unreadable(reason: string) | Malformed(reason: string) | Decoded(features: seq<FeatureConfig>)

  /** `ParseManifest`: read, decode, then validate every feature. */
  method ParseManifest(file: ManifestFile) returns (r: Result<seq<FeatureConfig>>)
    ensures r.Ok? <==> file.Decoded? && AllValid(file.features)
    ensures r.Ok? ==> r.value == file.features
  {
    match file
    case Unreadable(reason) => return Err("failed to read manifest: " + reason);
    case Malformed(reason) => return Err("failed to parse manifest JSON: " + reason);
    case Decoded(features) =>
      var v := ValidateAll(features);
      if v.Fail? {
        return Err(v.msg);
      }
      return Ok(features);
  }

  predicate Parses(file: ManifestFile) {
    file.Decoded? && AllValid(file.features)
  }

  /** `ParseManifestWithLocal`: the base must parse; a local manifest that is
      missing, unsafe or invalid is ignored. */
  method ParseManifestWithLocal(baseFile: ManifestFile, localMissing: bool, localInfo: LstatResult,
                                localFile: ManifestFile, goos: string, currentUid: nat, order: seq<string>)
    returns (r: Result<seq<FeatureWithOverride>>)
    requires Parses(baseFile) && Parses(localFile) ==> IsLocalOnlyOrder(baseFile.features, localFile.features, order)
    ensures r.Err? <==> !Parses(baseFile)
    ensures r.Ok? ==>
      var useLocal := !localMissing && ValidateLocalManifest(localInfo, goos, currentUid).Pass? && Parses(localFile);
      r.value == MergeSpec(baseFile.features, if useLocal then Some(localFile.features) else None, order)
  {
    var base := ParseManifest(baseFile);
    if base.Err? {
      return Err("failed to parse base manifest: " + base.msg);
    }
    if localMissing {
      var m := MergeManifests(base.value, None, order);
      return Ok(m);
    }
    if ValidateLocalManifest(localInfo, goos, currentUid).Fail? {
      var m := MergeManifests(base.value, None, order);
      return Ok(m);
    }
    var local := ParseManifest(localFile);
    if local.Err? {
      var m := MergeManifests(base.value, None, order);
      return Ok(m);
    }
    var m := MergeManifests(base.value, Some(local.value), order);
    return Ok(m);
  }
}
