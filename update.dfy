/** `omdot update`: the accepted shape of a requested version, the `v` prefix
    rules, and when an update is installed. Release lookup, semantic-version
    parsing and ordering, and the download are passed in as parameters. */
module Update {
  import opened Wrappers
  import opened GoStrings

  // ------------------------------------------------------------- version shape

  /** A character of a pre-release or build identifier: `[0-9A-Za-z-]`. */
  predicate IsIdentChar(c: char) {
    IsDigit(c) || ('A' <= c <= 'Z') || ('a' <= c <= 'z') || c == '-'
  }

  predicate IsIdent(s: string) {
    s != [] && forall i :: 0 <= i < |s| ==> IsIdentChar(s[i])
  }

  /** A non-empty list of identifiers, written joined by dots. */
  predicate IsIdentList(ids: seq<string>) {
    |ids| >= 1 && forall k :: 0 <= k < |ids| ==> IsIdent(ids[k])
  }

  predicate IsNumber(s: string) {
    s != [] && AllDigits(s)
  }

  /** The parts of a well-formed version text: an optional `v`, three digit runs
      (leading zeros allowed), an optional pre-release and an optional build part. */
  datatype VersionShape = VersionShape(
    v: bool, major: string, minor: string, patch: string,
    pre: Option<seq<string>>, build: Option<seq<string>>)

  predicate WellFormed(p: VersionShape) {
    && IsNumber(p.major) && IsNumber(p.minor) && IsNumber(p.patch)
    && (p.pre.Some? ==> IsIdentList(p.pre.value))
    && (p.build.Some? ==> IsIdentList(p.build.value))
  }

  function Suffix(mark: string, ids: Option<seq<string>>): string {
    if ids.Some? then mark + Join(ids.value, ".") else ""
  }

  /** The text after the optional `v`. */
  function CoreText(p: VersionShape): string {
    p.major + ("." + (p.minor + ("." + (p.patch + (Suffix("-", p.pre) + Suffix("+", p.build))))))
  }

  /** The text of a version shape. */
  function Render(p: VersionShape): string {
    (if p.v then "v" else "") + CoreText(p)
  }

  // ------------------------------------------------------------------ scanning

  /** Length of the leading run of identifier characters and dots. */
  function LeadIdentDots(s: string): (n: nat)
    ensures n <= |s|
    ensures n < |s| ==> !(IsIdentChar(s[n]) || s[n] == '.')
    decreases |s|
  {
    if s != [] && (IsIdentChar(s[0]) || s[0] == '.') then 1 + LeadIdentDots(s[1..]) else 0
  }

  lemma {:induction false} LeadIdentDotsOf(t: string, rest: string)
    requires forall i :: 0 <= i < |t| ==> IsIdentChar(t[i]) || t[i] == '.'
    requires rest == [] || rest[0] == '+'
    ensures LeadIdentDots(t + rest) == |t|
    decreases |t|
  {
    if t != [] {
      assert (t + rest)[1..] == t[1..] + rest;
      LeadIdentDotsOf(t[1..], rest);
    } else {
      assert t + rest == rest;
    }
  }

  /** The dot-separated identifiers of `t`, if each is non-empty and well-formed. */
  function ParseIds(t: string): (r: Option<seq<string>>)
    ensures r.Some? ==> IsIdentList(r.value) && Join(r.value, ".") == t
  {
    var ids := Split(t, '.');
    JoinSplit(t, '.');
    if forall k :: 0 <= k < |ids| ==> IsIdent(ids[k]) then Some(ids) else None
  }

  /** The optional `-pre` and `+build` parts, which must end the text. */
  function ParseSuffixes(rest: string): (r: Option<(Option<seq<string>>, Option<seq<string>>)>)
    ensures r.Some? ==> (r.value.0.Some? ==> IsIdentList(r.value.0.value)) && (r.value.1.Some? ==> IsIdentList(r.value.1.value))
    ensures r.Some? ==> Suffix("-", r.value.0) + Suffix("+", r.value.1) == rest
  {
    if rest == [] then Some((None, None))
    else if rest[0] == '-' then
      var body := rest[1..];
      var n := LeadIdentDots(body);
      var pre := ParseIds(body[..n]);
      var after := body[n..];
      if pre.None? then None
      else if after == [] then
        assert rest == "-" + body[..n];
        Some((pre, None))
      else if after[0] == '+' then
        var build := ParseIds(after[1..]);
        if build.None? then None
        else
          assert rest == "-" + body[..n] + ("+" + after[1..]);
          Some((pre, build))
      else None
    else if rest[0] == '+' then
      var build := ParseIds(rest[1..]);
      if build.None? then None
      else
        assert rest == "+" + rest[1..];
        Some((None, build))
    else None
  }

  /** A leading digit run followed by a dot: the digits and what follows the dot. */
  function DotNumber(s: string): (r: Option<(string, string)>)
    ensures r.Some? ==> IsNumber(r.value.0) && r.value.0 + ("." + r.value.1) == s
  {
    var a := LeadDigits(s);
    if a == 0 || a == |s| || s[a] != '.' then None
    else
      assert s == s[..a] + ("." + s[a + 1..]);
      Some((s[..a], s[a + 1..]))
  }

  lemma DotNumberOf(d: string, rest: string)
    requires IsNumber(d)
    ensures DotNumber(d + ("." + rest)) == Some((d, rest))
  {
    var s := d + ("." + rest);
    LeadDigitsOf(d, "." + rest);
    assert s[..|d|] == d && s[|d|] == '.' && s[|d| + 1..] == rest;
  }

  /** The three numbers and the suffixes, after an optional `v`. */
  function ParseCore(s1: string): (r: Option<VersionShape>)
    ensures r.Some? ==> WellFormed(r.value) && !r.value.v && CoreText(r.value) == s1
  {
    var first := DotNumber(s1);
    if first.None? then None
    else
      var second := DotNumber(first.value.1);
      if second.None? then None
      else
        var s3 := second.value.1;
        var c := LeadDigits(s3);
        if c == 0 then None
        else
          var sfx := ParseSuffixes(s3[c..]);
          if sfx.None? then None
          else
            assert s3 == s3[..c] + s3[c..];
            Some(VersionShape(false, first.value.0, second.value.0, s3[..c], sfx.value.0, sfx.value.1))
  }

  /** Recognises the version pattern `^v?\d+\.\d+\.\d+(-ids)?(\+ids)?$`, giving its parts. */
  function ParseVersion(s: string): (r: Option<VersionShape>)
    ensures r.Some? ==> WellFormed(r.value) && Render(r.value) == s
  {
    if s != [] && s[0] == 'v' then
      var core := ParseCore(s[1..]);
      if core.None? then None
      else
        var p := core.value.(v := true);
        assert CoreText(p) == CoreText(core.value);
        assert s == "v" + s[1..];
        Some(p)
    else
      var core := ParseCore(s);
      if core.None? then None
      else
        assert Render(core.value) == "" + s == s;
        core
  }

  /** `isValidVersionFormat`: non-empty and of the version pattern. */
  function IsValidVersionFormat(version: string): (r: bool)
    ensures version == "" ==> !r
  {
    if |version| == 0 then false else ParseVersion(version).Some?
  }

  lemma JoinIdentChars(ids: seq<string>, i: nat)
    requires IsIdentList(ids) && i < |Join(ids, ".")|
    ensures IsIdentChar(Join(ids, ".")[i]) || Join(ids, ".")[i] == '.'
    decreases |ids|
  {
    if |ids| > 1 {
      var t := Join(ids[1..], ".");
      assert Join(ids, ".") == ids[0] + "." + t;
      if i > |ids[0]| {
        JoinIdentChars(ids[1..], i - |ids[0]| - 1);
      }
    }
  }

  lemma ParseIdsOf(ids: seq<string>)
    requires IsIdentList(ids)
    ensures ParseIds(Join(ids, ".")) == Some(ids)
  {
    assert forall k :: 0 <= k < |ids| ==> '.' !in ids[k];
    SplitJoin(ids, '.');
  }

  lemma ParseSuffixesOf(pre: Option<seq<string>>, build: Option<seq<string>>)
    requires pre.Some? ==> IsIdentList(pre.value)
    requires build.Some? ==> IsIdentList(build.value)
    ensures ParseSuffixes(Suffix("-", pre) + Suffix("+", build)) == Some((pre, build))
  {
    var b := Suffix("+", build);
    if build.Some? {
      ParseIdsOf(build.value);
      assert b[1..] == Join(build.value, ".");
    }
    if pre.Some? {
      var t := Join(pre.value, ".");
      var rest := "-" + t + b;
      assert rest == Suffix("-", pre) + b;
      forall i | 0 <= i < |t| ensures IsIdentChar(t[i]) || t[i] == '.' {
        JoinIdentChars(pre.value, i);
      }
      assert rest[1..] == t + b;
      LeadIdentDotsOf(t, b);
      assert (t + b)[..|t|] == t;
      assert (t + b)[|t|..] == b;
      ParseIdsOf(pre.value);
    } else {
      assert Suffix("-", pre) + b == b;
    }
  }

  lemma ParseCoreOf(p: VersionShape)
    requires WellFormed(p)
    ensures ParseCore(CoreText(p)) == Some(p.(v := false))
  {
    var sfx := Suffix("-", p.pre) + Suffix("+", p.build);
    ParseSuffixesOf(p.pre, p.build);
    var s3 := p.patch + sfx;
    var s2 := p.minor + ("." + s3);
    DotNumberOf(p.major, s2);
    DotNumberOf(p.minor, s3);
    assert sfx == [] || sfx[0] == '-' || sfx[0] == '+';
    LeadDigitsOf(p.patch, sfx);
    assert s3[..|p.patch|] == p.patch && s3[|p.patch|..] == sfx;
  }

  /** Every well-formed shape is recognised, and read back into the same parts. */
  lemma ParseRender(p: VersionShape)
    requires WellFormed(p)
    ensures ParseVersion(Render(p)) == Some(p)
  {
    var s1 := CoreText(p);
    ParseCoreOf(p);
    assert Render(p) == (if p.v then "v" else "") + s1;
    if p.v {
      assert Render(p)[1..] == s1 by {
        assert Render(p) == "v" + s1;
      }
    } else {
      assert Render(p) == s1 && s1[0] == p.major[0];
    }
  }

  /** A text is accepted exactly when it is the text of a well-formed shape. */
  lemma ValidIffShape(version: string)
    ensures IsValidVersionFormat(version) <==> exists p :: WellFormed(p) && Render(p) == version
  {
    if exists p :: WellFormed(p) && Render(p) == version {
      var p :| WellFormed(p) && Render(p) == version;
      ParseRender(p);
    }
  }

  // ------------------------------------------------------------------ v prefix

  /** A non-empty version not starting with `v` gets one prepended. */
  function WithVPrefix(version: string): (r: string)
    ensures version != "" ==> r != "" && r[0] == 'v'
    ensures r == version || r == "v" + version
  {
    if |version| > 0 && version[0] != 'v' then "v" + version else version
  }

  /** One leading `v` is dropped. */
  function StripOneV(version: string): (r: string)
    ensures version != "" && version[0] == 'v' ==> "v" + r == version
  {
    if |version| > 0 && version[0] == 'v' then version[1..] else version
  }

  /** The text the running version is parsed from. */
  function CurrentVersionToParse(version: string): string {
    StripOneV(WithVPrefix(version))
  }

  /** Prefixing is idempotent, and a valid requested version stays valid once
      prefixed. */
  lemma WithVPrefixFacts(version: string)
    ensures WithVPrefix(WithVPrefix(version)) == WithVPrefix(version)
    ensures IsValidVersionFormat(version) ==> IsValidVersionFormat(WithVPrefix(version))
  {
    if IsValidVersionFormat(version) && version[0] != 'v' {
      var p := ParseVersion(version).value;
      assert !p.v;
      var q := p.(v := true);
      assert Render(q) == "v" + Render(p);
      ParseRender(q);
    }
  }

  /** Exactly one leading `v` is removed from the running version before parsing,
      and a version without one is parsed as it is. */
  lemma CurrentVersionStripsOneV(version: string)
    ensures version == "" ==> CurrentVersionToParse(version) == ""
    ensures version != "" && version[0] == 'v' ==> CurrentVersionToParse(version) == version[1..]
    ensures version != "" && version[0] != 'v' ==> CurrentVersionToParse(version) == version
  {
    if version != "" && version[0] != 'v' {
      assert ("v" + version)[1..] == version;
    }
  }

  // -------------------------------------------------------------------- update

  /** What the update command ends with. */
  datatype UpdateStep = Refused(message: string) | NoReleases | AlreadyUpToDate(current: string) | Install(tag: string)

  /** Update to a requested version: its format is checked, it is prefixed with
      `v`, then looked up (`lookup` gives whether the release exists). */
  function RequestedUpdate(requested: string, lookup: string -> Result<bool>): (r: UpdateStep)
    ensures r.Install? <==> IsValidVersionFormat(requested) && lookup(WithVPrefix(requested)) == Ok(true)
    ensures r.Install? ==> r.tag == WithVPrefix(requested) && IsValidVersionFormat(r.tag)
    ensures !IsValidVersionFormat(requested) ==> r == Refused("Invalid version format: " + requested)
  {
    if !IsValidVersionFormat(requested) then Refused("Invalid version format: " + requested)
    else
      var tag := WithVPrefix(requested);
      WithVPrefixFacts(requested);
      var found := lookup(tag);
      if found.Err? then Refused("Error finding version " + tag + ": " + found.msg)
      else if !found.value then Refused("Version " + tag + " not found in releases")
      else Install(tag)
  }

  /** Update to the latest release: the running version and the latest tag are
      parsed (`parse`, with one leading `v` removed), and the release is installed
      only when it is newer than the running one (`lte` is the version order).
      `probe` is the lookup of a fixed test release made on the way. The
      `AlreadyUpToDate` payload is the running version's text as parsed; the
      source prints the parsed version's `String()`, which the opaque `parse`
      does not give back, so the two can differ in spelling (a `v` prefix or
      leading zeros, say). */
  function LatestUpdate<V>(version: string, parse: string -> Result<V>, probe: Result<bool>,
                           latest: Result<Option<string>>, lte: (V, V) -> bool): (r: UpdateStep)
    ensures r.Install? <==>
      && parse(CurrentVersionToParse(version)).Ok? && probe.Ok? && latest.Ok? && latest.value.Some?
      && parse(StripOneV(latest.value.value)).Ok?
      && !lte(parse(StripOneV(latest.value.value)).value, parse(CurrentVersionToParse(version)).value)
    ensures r.Install? ==> r.tag == latest.value.value
    ensures r.AlreadyUpToDate? ==>
      && parse(CurrentVersionToParse(version)).Ok? && latest.Ok? && latest.value.Some?
      && parse(StripOneV(latest.value.value)).Ok?
      && lte(parse(StripOneV(latest.value.value)).value, parse(CurrentVersionToParse(version)).value)
  {
    var current := parse(CurrentVersionToParse(version));
    if current.Err? then Refused("Error parsing current version: " + current.msg)
    else if probe.Err? then Refused("Error checking for updates: " + probe.msg)
    else if latest.Err? then Refused("Error checking for updates: " + latest.msg)
    else if latest.value.None? then NoReleases
    else
      var newest := parse(StripOneV(latest.value.value));
      if newest.Err? then Refused("Error parsing latest version: " + newest.msg)
      else if lte(newest.value, current.value) then AlreadyUpToDate(CurrentVersionToParse(version))
      else Install(latest.value.value)
  }
}
