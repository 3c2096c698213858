/** Validation of option values: per-type checks, the injection screen for
    strings, the shell escaper, boolean parsing, `..` detection and the
    "path within base" test. */
module Validation {
  import opened Wrappers
  import opened Values
  import opened GoStrings
  import opened GoPaths
  import opened Catalog

  // ---------------------------------------------------------------------
  // Strings

  const MaxStringLength: nat := 500

  /** `\$\([^)]*\)` matches at `i`: "$(" there and a ')' somewhere after it. */
  predicate CmdSubstAt(s: string, i: int) {
    0 <= i && i + 1 < |s| && s[i] == '$' && s[i + 1] == '(' && ')' in s[i + 2..]
  }

  predicate HasCmdSubst(s: string) {
    exists i | 0 <= i < |s| :: CmdSubstAt(s, i)
  }

  /** "`[^`]*`" matches: two backquotes anywhere. */
  predicate HasBacktickPair(s: string) {
    exists i, j | 0 <= i < j < |s| :: s[i] == '`' && s[j] == '`'
  }

  /** `[;&|]` matches. */
  predicate HasSeparator(s: string) {
    ';' in s || '&' in s || '|' in s
  }

  /** One of the four suspicious patterns matches somewhere in `s`. */
  predicate Suspicious(s: string) {
    HasCmdSubst(s) || HasBacktickPair(s) || HasSeparator(s) || Contains(s, "../")
  }

  /** `validateString` (the custom validator hook is not part of this model). */
  function ValidateString(value: Value): (r: Outcome)
    ensures r.Pass? <==>
      value.Str? && ByteLen(value.s) <= MaxStringLength && '\0' !in value.s && !Suspicious(value.s)
    ensures !value.Str? ==> r == Fail("expected string, got " + TypeName(value))
    ensures value.Str? && ByteLen(value.s) > MaxStringLength ==> r == Fail("string too long (max 500 characters)")
    ensures value.Str? && ByteLen(value.s) <= MaxStringLength && '\0' in value.s ==> r == Fail("string contains null byte")
    ensures value.Str? && ByteLen(value.s) <= MaxStringLength && '\0' !in value.s && Suspicious(value.s) ==>
      r == Fail("string contains potentially dangerous pattern")
  {
    if !value.Str? then Fail("expected string, got " + TypeName(value))
    else if ByteLen(value.s) > MaxStringLength then Fail("string too long (max 500 characters)")
    else if '\0' in value.s then Fail("string contains null byte")
    else if Suspicious(value.s) then Fail("string contains potentially dangerous pattern")
    else Pass
  }

  // ---------------------------------------------------------------------
  // Integers

  /** The int64 a value denotes for `validateInt`: an int as is, a string through
      `strconv.ParseInt(s, 10, 64)`, anything else none. */
  function IntValueOf(value: Value): (r: Option<int>)
    ensures value.Int? ==> r == Some(value.i)
    ensures !value.Int? && !value.Str? ==> r.None?
  {
    match value
    case Int(i) => Some(i)
    case Str(v) => ParseInt64(v)
    case _ => None
  }

  predicate InBounds(opt: OptionMetadata, i: int) {
    (opt.intMin.Some? ==> opt.intMin.value <= i) && (opt.intMax.Some? ==> i <= opt.intMax.value)
  }

  /** The text of `strconv.ParseInt`'s error for `v`: `value out of range` when
      the parse ends in `ErrRange`, `invalid syntax` otherwise. */
  function ParseIntError(v: string): string {
    "strconv.ParseInt: parsing " + Quote(v) + ": "
      + (if ParseIntSteps(v) == IntRange then "value out of range" else "invalid syntax")
  }

  /** A run of digits past uint64 ends the parse before the characters after it
      are read, so the error is the range error, not a syntax error. */
  lemma LongDigitRunOverflows(d: string, rest: string)
    requires d != [] && AllDigits(d) && DigitsValue(d) > MaxUint64
    requires rest == [] || !IsDigit(rest[0])
    ensures ParseInt64(d + rest).None?
    ensures ParseIntError(d + rest) == "strconv.ParseInt: parsing " + Quote(d + rest) + ": value out of range"
  {
    var u := d + rest;
    assert u[0] == d[0] && IsDigit(d[0]);
    assert Unsigned(u) == u;
    LeadDigitsOf(d, rest);
    assert u[..|d|] == d;
    ParseIntStepsAgrees(u);
    assert ParseIntSteps(u) == IntRange;
  }

  /** `99999999999999999999x`: twenty nines, then a letter. */
  lemma NinesThenLetterOverflows()
    ensures var u := seq(20, _ => '9') + "x";
      ParseIntError(u) == "strconv.ParseInt: parsing " + Quote(u) + ": value out of range"
  {
    var d: string := seq(20, _ => '9');
    assert AllDigits(d);
    TwentyDigitsPastUint64(d);
    LongDigitRunOverflows(d, "x");
  }

  function CheckIntBounds(opt: OptionMetadata, i: int): (r: Outcome)
    ensures r.Pass? <==> InBounds(opt, i)
    ensures opt.intMin.Some? && i < opt.intMin.value ==>
      r == Fail("value " + IntToString(i) + " is below minimum " + IntToString(opt.intMin.value))
  {
    if opt.intMin.Some? && i < opt.intMin.value then
      Fail("value " + IntToString(i) + " is below minimum " + IntToString(opt.intMin.value))
    else if opt.intMax.Some? && i > opt.intMax.value then
      Fail("value " + IntToString(i) + " is above maximum " + IntToString(opt.intMax.value))
    else Pass
  }

  /** `validateInt`, without its float64 branch. */
  function ValidateInt(opt: OptionMetadata, value: Value): (r: Outcome)
    ensures r.Pass? <==> IntValueOf(value).Some? && InBounds(opt, IntValueOf(value).value)
    ensures value.Str? && ParseInt64(value.s).None? ==> r == Fail("invalid integer: " + ParseIntError(value.s))
    ensures !value.Int? && !value.Str? ==> r == Fail("expected integer, got " + TypeName(value))
  {
    match value
    case Int(i) => CheckIntBounds(opt, i)
    case Str(v) =>
      (match ParseInt64(v)
       case None => Fail("invalid integer: " + ParseIntError(v))
       case Some(i) => CheckIntBounds(opt, i))
    case _ => Fail("expected integer, got " + TypeName(value))
  }

  // ---------------------------------------------------------------------
  // Booleans

  /** The accepted spellings, in the order `validateBool` tries them. */
  const BoolWords: seq<string> := ["true", "false", "1", "0", "yes", "no", "y", "n"]
  const TrueWords: set<string> := {"true", "1", "yes", "y"}
  const FalseWords: set<string> := {"false", "0", "no", "n"}

  lemma BoolWordsMembers()
    ensures forall w :: w in BoolWords <==> w in TrueWords || w in FalseWords
  {
  }

  /** Trimmed of white space, then lower-cased. */
  function BoolKey(v: string): string {
    ToLower(TrimSpace(v))
  }

  /** `ParseBool`. */
  function ParseBool(value: Value): (r: Result<bool>)
    ensures value.Bool? ==> r == Ok(value.b)
    ensures value.Str? ==> (r.Ok? <==> BoolKey(value.s) in BoolWords)
    ensures value.Str? && r.Ok? ==> (r.value <==> BoolKey(value.s) in TrueWords)
    ensures !value.Bool? && !value.Str? ==> r == Err("cannot convert " + TypeName(value) + " to boolean")
  {
    match value
    case Bool(b) => Ok(b)
    case Str(v) =>
      BoolWordsMembers();
      var lower := BoolKey(v);
      if lower in TrueWords then Ok(true)
      else if lower in FalseWords then Ok(false)
      else Err("invalid boolean value: " + v)
    case _ => Err("cannot convert " + TypeName(value) + " to boolean")
  }

  /** What `validateBool` answers, as a function. */
  function BoolOutcome(value: Value): (r: Outcome)
    ensures r.Pass? <==> ParseBool(value).Ok?
  {
    match value
    case Bool(_) => Pass
    case Str(v) =>
      if BoolKey(v) in BoolWords then Pass
      else Fail("invalid boolean value: " + v + " (expected: true/false, 1/0, yes/no, y/n)")
    case _ => Fail("expected boolean, got " + TypeName(value))
  }

  /** `validateBool`: a scan of the accepted spellings with an early return. */
  method ValidateBool(value: Value) returns (r: Outcome)
    ensures r == BoolOutcome(value)
    ensures r.Pass? <==> ParseBool(value).Ok?
  {
    match value {
      case Bool(_) =>
        return Pass;
      case Str(v) =>
        var lower := BoolKey(v);
        var i := 0;
        while i < |BoolWords|
          invariant 0 <= i <= |BoolWords|
          invariant lower !in BoolWords[..i]
        {
          if lower == BoolWords[i] {
            return Pass;
          }
          assert BoolWords[..i + 1] == BoolWords[..i] + [BoolWords[i]];
          i := i + 1;
        }
        assert BoolWords[..i] == BoolWords;
        BoolWordsMembers();
        return Fail("invalid boolean value: " + v + " (expected: true/false, 1/0, yes/no, y/n)");
      case _ =>
        return Fail("expected boolean, got " + TypeName(value));
    }
  }

  /** A word made of lower-case ASCII letters is its own `BoolKey`. */
  lemma BoolKeyOfLowerWord(w: string)
    requires w != [] && forall i :: 0 <= i < |w| ==> 'a' <= w[i] <= 'z'
    ensures BoolKey(w) == w
  {
    assert !IsSpace(w[0]) && !IsSpace(w[|w| - 1]);
    TrimSpaceId(w);
    assert forall i :: 0 <= i < |w| ==> LowerChar(w[i]) == w[i];
  }

  /** The canonical spellings parse back to the boolean they spell. */
  lemma ParseBoolCanonical(b: bool)
    ensures ParseBool(Str(if b then "true" else "false")) == Ok(b)
  {
    var t := if b then "true" else "false";
    BoolKeyOfLowerWord(t);
    assert (t in TrueWords) == b;
  }

  // ---------------------------------------------------------------------
  // Enumerations

  /** `%v` of a string slice. */
  function ShowList(xs: seq<string>): string {
    "[" + Join(xs, " ") + "]"
  }

  /** `validateEnum`. */
  function ValidateEnum(opt: OptionMetadata, value: Value): (r: Outcome)
    ensures r.Pass? <==> value.Str? && value.s in opt.enumValues
    ensures value.Str? && opt.enumValues == [] ==> r == Fail("enum option has no valid values defined")
  {
    if !value.Str? then Fail("expected string, got " + TypeName(value))
    else if |opt.enumValues| == 0 then Fail("enum option has no valid values defined")
    else if value.s in opt.enumValues then Pass
    else Fail("invalid value '" + value.s + "', must be one of: " + ShowList(opt.enumValues))
  }

  // ---------------------------------------------------------------------
  // Paths

  /** What `os.Lstat` finds at a path; a symbolic link carries what
      `filepath.EvalSymlinks` resolves it to (none when that fails). */
  datatype FsNode = RegularFile | Directory | Symlink(resolved: Option<string>) | Inaccessible

  /** The process environment the path checks consult. */
  datatype PathEnv = PathEnv(
    home: Result<string>,          // os.UserHomeDir
    cwd: string,                   // os.Getwd, used by filepath.Abs
    restrictToHome: bool,          // the restrict-paths-to-home setting
    fs: map<string, FsNode>)

  /** `..` as a whole segment once backslashes count as separators. */
  predicate HasDotDotSegment(p: string) {
    ".." in Split(ReplaceAll(p, '\\', "/"), '/')
  }

  /** `hasPathTraversal`: a scan of the segments with an early return. */
  method HasPathTraversal(p: string) returns (r: bool)
    ensures r <==> HasDotDotSegment(p)
  {
    var normalized := ReplaceAll(p, '\\', "/");
    var segments := Split(normalized, '/');
    for i := 0 to |segments|
      invariant ".." !in segments[..i]
    {
      if segments[i] == ".." {
        return true;
      }
      assert segments[..i + 1] == segments[..i] + [segments[i]];
    }
    assert segments[..|segments|] == segments;
    return false;
  }

  lemma {:induction false} WalkKeepsNoDotDot(rooted: bool, out: seq<string>, elems: seq<string>)
    requires ".." !in out && ".." !in elems
    ensures ".." !in Walk(rooted, out, elems)
    decreases |elems|
  {
    if elems != [] {
      assert elems[0] != "..";
      assert elems[1..] == elems[1..] && forall e :: e in elems[1..] ==> e in elems;
      WalkKeepsNoDotDot(rooted, Step(rooted, out, elems[0]), elems[1..]);
    }
  }

  /** A path with no backslash and no `..` segment cleans to components
      free of `..`. */
  lemma NoTraversalCleanComps(p: string)
    requires '\\' !in p && !HasDotDotSegment(p)
    ensures ".." !in Parse(p).comps
  {
    assert ReplaceAll(p, '\\', "/") == p;
    WalkKeepsNoDotDot(|p| > 0 && p[0] == '/', [], Split(p, '/'));
  }

  /** The `~` expansion of `validateFile`, `validatePath` and `ExpandPath`. */
  function ExpandTilde(p: string, home: Result<string>): (r: Result<string>)
    ensures !HasPrefix(p, "~") ==> r == Ok(p)
    ensures HasPrefix(p, "~") ==> (r.Err? <==> home.Err?)
    ensures HasPrefix(p, "~") && home.Ok? ==> r == Ok(Join2(home.value, p[1..]))
  {
    if HasPrefix(p, "~") then
      if home.Err? then Err("failed to expand home directory: " + home.msg)
      else Ok(Join2(home.value, p[1..]))
    else Ok(p)
  }

  /** The `PathMustExist` step: the path the option finally designates (the
      symbolic link's target, when the path is one). */
  function CheckExists(absPath: string, fileOnly: bool, fs: map<string, FsNode>, noun: string): (r: Result<string>)
    ensures absPath !in fs ==> r == Err(noun + " does not exist: " + absPath)
    ensures r.Ok? ==> r.value in fs && !fs[r.value].Inaccessible?
    ensures r.Ok? && fileOnly ==> !fs[r.value].Directory?
    ensures r.Ok? && absPath in fs && !fs[absPath].Symlink? ==> r.value == absPath
  {
    if absPath !in fs then Err(noun + " does not exist: " + absPath)
    else match fs[absPath]
      case Inaccessible => Err("cannot access path")
      case Symlink(None) => Err("broken symlink")
      case Symlink(Some(target)) =>
        if target !in fs || fs[target].Inaccessible? then Err("symlink target invalid")
        else if fileOnly && fs[target].Directory? then
          Err("symlink target is a directory, expected a file: " + target)
        else Ok(target)
      case Directory =>
        if fileOnly then Err("path is a directory, expected a file: " + absPath) else Ok(absPath)
      case RegularFile => Ok(absPath)
  }

  /** The path a file or path option designates once expanded, screened for
      `..`, cleaned, made absolute and (if required) checked to exist.
      `forFile` selects `validateFile`'s wording and its `FileOnly` check. */
  function ResolveOptionPath(opt: OptionMetadata, p: string, env: PathEnv, forFile: bool): (r: Result<string>)
    ensures r.Ok? ==> ExpandTilde(p, env.home).Ok? && !HasDotDotSegment(ExpandTilde(p, env.home).value)
    ensures r.Ok? && !opt.pathMustExist ==> r.value == Abs(Clean(ExpandTilde(p, env.home).value), env.cwd)
    ensures r.Ok? && opt.pathMustExist ==> r.value in env.fs && !env.fs[r.value].Inaccessible?
    ensures r.Ok? && opt.pathMustExist && forFile && opt.fileOnly ==> !env.fs[r.value].Directory?
  {
    match ExpandTilde(p, env.home)
    case Err(m) => Err(m)
    case Ok(expanded) =>
      if HasDotDotSegment(expanded) then Err("path traversal detected")
      else
        var absPath := Abs(Clean(expanded), env.cwd);
        if opt.pathMustExist then
          CheckExists(absPath, forFile && opt.fileOnly, env.fs, if forFile then "file" else "path")
        else Ok(absPath)
  }

  /** `validateFile` (`forFile`) and `validatePath`. */
  function ValidateFileOrPath(opt: OptionMetadata, value: Value, env: PathEnv, forFile: bool): (r: Outcome)
    ensures !value.Str? ==> r == Fail("expected string path, got " + TypeName(value))
    ensures r.Pass? <==> value.Str? && ResolveOptionPath(opt, value.s, env, forFile).Ok?
                         && (env.restrictToHome ==>
                               env.home.Ok? && IsWithinBasePath(ResolveOptionPath(opt, value.s, env, forFile).value, env.home.value))
  {
    if !value.Str? then Fail("expected string path, got " + TypeName(value))
    else match ResolveOptionPath(opt, value.s, env, forFile)
      case Err(m) => Fail(m)
      case Ok(effective) =>
        if !env.restrictToHome then Pass
        else if env.home.Err? then Fail("failed to determine user home directory: " + env.home.msg)
        else if !IsWithinBasePath(effective, env.home.value) then
          Fail("path must be within home directory (restrict-paths-to-home is enabled): " + effective)
        else Pass
  }

  /** `ExpandPath`: `~` expansion, then `filepath.Abs`. */
  function ExpandPath(p: string, home: Result<string>, cwd: string): (r: Result<string>)
    ensures r.Err? <==> HasPrefix(p, "~") && home.Err?
    ensures r.Ok? && IsAbs(cwd) ==> IsAbs(r.value) && Clean(r.value) == r.value
    ensures !HasPrefix(p, "~") && IsAbs(p) ==> r == Ok(Clean(p))
  {
    match ExpandTilde(p, home)
    case Err(m) => Err(m)
    case Ok(e) => Ok(Abs(e, cwd))
  }

  // ---------------------------------------------------------------------
  // Containment

  /** `isWithinBasePath`'s verdict on the text `filepath.Rel` produced. */
  predicate RelStaysInside(rel: string) {
    rel == "." || (rel != ".." && !HasPrefix(rel, "../"))
  }

  /** `base` is `targ` or one of its ancestors: same anchoring, `base`'s
      components a prefix of `targ`'s, and `targ` does not continue with `..`. */
  predicate WithinSpec(base: CleanPath, targ: CleanPath) {
    base.rooted == targ.rooted && |base.comps| <= |targ.comps|
    && targ.comps[..|base.comps|] == base.comps
    && (|targ.comps| == |base.comps| || targ.comps[|base.comps|] != "..")
  }

  /** `isWithinBasePath`. */
  function IsWithinBasePath(path: string, base: string): (r: bool)
    ensures r <==> WithinSpec(Parse(base), Parse(path))
  {
    CleanIdempotent(base);
    CleanIdempotent(path);
    RelCleanWithin(Parse(base), Parse(path));
    match Rel(Clean(base), Clean(path))
    case Err(_) => false
    case Ok(rel) => RelStaysInside(rel)
  }

  /** Under an absolute base, containment is exactly component-prefix. */
  lemma WithinAbsoluteBase(path: string, base: string)
    requires IsAbs(base)
    ensures IsWithinBasePath(path, base) <==>
      IsAbs(path) && |Parse(base).comps| <= |Parse(path).comps|
      && Parse(path).comps[..|Parse(base).comps|] == Parse(base).comps
  {
    var b, t := Parse(base), Parse(path);
    if IsAbs(path) && |b.comps| < |t.comps| {
      assert t.comps[|b.comps|] != "..";
    }
  }

  /** The common-prefix length of a list and a list it prefixes is the whole list. */
  lemma {:induction false} CommonLenOfPrefix(a: seq<string>, b: seq<string>)
    requires |a| <= |b| && b[..|a|] == a
    ensures CommonLen(a, b) == |a|
  {
    if a != [] {
      assert a[0] == b[0];
      assert b[1..][..|a| - 1] == a[1..];
      CommonLenOfPrefix(a[1..], b[1..]);
    }
  }

  lemma JoinLeadingDotDot(parts: seq<string>)
    requires parts != [] && parts[0] == ".."
    ensures !RelStaysInside(Join(parts, "/"))
  {
    if |parts| > 1 {
      var j := Join(parts, "/");
      assert j == ".." + "/" + Join(parts[1..], "/");
      assert j[..3] == "../";
    }
  }

  lemma JoinLeadingOther(parts: seq<string>)
    requires parts != [] && parts[0] != ".." && parts[0] != "" && '/' !in parts[0]
    ensures RelStaysInside(Join(parts, "/"))
  {
    var p0 := parts[0];
    var j := Join(parts, "/");
    if |p0| >= 3 {
      assert p0[2] in p0;
    }
    if |parts| > 1 {
      assert j == p0 + "/" + Join(parts[1..], "/");
      if |p0| >= 3 {
        assert j[2] == p0[2];
      } else if |p0| == 2 {
        assert j[..2] == p0;
      } else {
        assert j[1] == '/';
      }
    }
  }

  /** The `filepath.Rel` test accepts exactly the targets `WithinSpec` describes. */
  lemma RelCleanWithin(base: CleanPath, targ: CleanPath)
    requires WellFormed(base) && WellFormed(targ)
    ensures (RelClean(base, targ).Ok? && RelStaysInside(RelClean(base, targ).value)) <==> WithinSpec(base, targ)
  {
    if base != targ && base.rooted == targ.rooted {
      var b, t := base.comps, targ.comps;
      var k := CommonLen(b, t);
      if |b| <= |t| && t[..|b|] == b {
        CommonLenOfPrefix(b, t);
      }
      if k < |b| {
        if b[k] != ".." {
          JoinLeadingDotDot(Repeat("..", |b| - k) + t[k..]);
        }
      } else {
        assert b == t[..k];
        assert |t| > k;
        var rest := t[k..];
        if rest[0] == ".." {
          JoinLeadingDotDot(rest);
        } else {
          JoinLeadingOther(rest);
        }
      }
    }
  }

  // ---------------------------------------------------------------------
  // Dispatch

  /** `ValidateOption`. */
  function ValidateOption(opt: OptionMetadata, value: Value, env: PathEnv): (r: Outcome)
    ensures value == Nil ==> (r.Pass? <==> !opt.required)
    ensures value == Nil && opt.required ==> r == Fail("required option '" + opt.displayName + "' cannot be empty")
    ensures value != Nil && opt.optType.UnknownType? ==> r == Fail("unsupported option type: " + opt.optType.name)
    ensures value != Nil && opt.optType == StringType ==> r == ValidateString(value)
    ensures value != Nil && opt.optType == IntType ==> r == ValidateInt(opt, value)
    ensures value != Nil && opt.optType == BoolType ==> (r.Pass? <==> ParseBool(value).Ok?)
    ensures value != Nil && opt.optType == EnumType ==> (r.Pass? <==> value.Str? && value.s in opt.enumValues)
    ensures value != Nil && opt.optType == FileType ==> r == ValidateFileOrPath(opt, value, env, true)
    ensures value != Nil && opt.optType == PathType ==> r == ValidateFileOrPath(opt, value, env, false)
  {
    if opt.required && value == Nil then Fail("required option '" + opt.displayName + "' cannot be empty")
    else if !opt.required && value == Nil then Pass
    else match opt.optType
      case StringType => ValidateString(value)
      case IntType => ValidateInt(opt, value)
      case BoolType => BoolOutcome(value)
      case EnumType => ValidateEnum(opt, value)
      case FileType => ValidateFileOrPath(opt, value, env, true)
      case PathType => ValidateFileOrPath(opt, value, env, false)
      case UnknownType(n) => Fail("unsupported option type: " + n)
  }

  // ---------------------------------------------------------------------
  // The shell escaper

  /** The characters escaped after backslashes, in the order they are processed. */
  const MetaChars: seq<char> := ['$', '`', '(', ')', '{', '}', '[', ']', '|', '&', ';', '<', '>', '"', '\'', '\n', '\r', '\t', '*', '?']

  lemma MetaCharsFacts()
    ensures forall k :: 0 <= k < |MetaChars| ==> MetaChars[k] !in MetaChars[..k]
    ensures '\\' !in MetaChars && '\0' !in MetaChars
  {
  }

  /** What one input character becomes once NUL is dropped, backslashes are
      doubled and the first `k` metacharacters are escaped. */
  function Escape(c: char, k: nat): string
    requires k <= |MetaChars|
  {
    if c == '\0' then ""
    else if c == '\\' then "\\\\"
    else if c in MetaChars[..k] then ['\\', c]
    else [c]
  }

  function EscapeAll(s: string, k: nat): string
    requires k <= |MetaChars|
  {
    if s == [] then [] else Escape(s[0], k) + EscapeAll(s[1..], k)
  }

  lemma ReplaceAllSingle(c: char, x: char, rep: string)
    ensures ReplaceAll([c], x, rep) == if c == x then rep else [c]
  {
    assert [c][1..] == [];
  }

  /** The two first passes of `SanitizeString` yield the `k = 0` escaping. */
  lemma {:induction false} EscapeAllStart(s: string)
    ensures ReplaceAll(ReplaceAll(s, '\0', ""), '\\', "\\\\") == EscapeAll(s, 0)
  {
    if s != [] {
      var h := if s[0] == '\0' then "" else [s[0]];
      assert ReplaceAll(s, '\0', "") == h + ReplaceAll(s[1..], '\0', "");
      ReplaceAllAppend(h, ReplaceAll(s[1..], '\0', ""), '\\', "\\\\");
      if s[0] != '\0' {
        ReplaceAllSingle(s[0], '\\', "\\\\");
      }
      EscapeAllStart(s[1..]);
    }
  }

  lemma {:induction false} ReplaceAllAbsent(s: string, x: char, rep: string)
    requires x !in s
    ensures ReplaceAll(s, x, rep) == s
    decreases |s|
  {
    if s != [] {
      assert s[0] != x;
      ReplaceAllAbsent(s[1..], x, rep);
      assert s == [s[0]] + s[1..];
    }
  }

  /** Escaping metacharacter `k` turns the `k`-escaping into the `k + 1`-escaping. */
  lemma EscapeStep(c: char, k: nat)
    requires k < |MetaChars|
    ensures ReplaceAll(Escape(c, k), MetaChars[k], ['\\', MetaChars[k]]) == Escape(c, k + 1)
  {
    var m := MetaChars[k];
    assert MetaChars[..k + 1] == MetaChars[..k] + [m];
    assert m !in MetaChars[..k] && m != '\\' && m != '\0' by {
      MetaCharsFacts();
      assert m in MetaChars;
    }
    if c == m {
      ReplaceAllSingle(c, m, ['\\', m]);
    } else {
      assert Escape(c, k + 1) == Escape(c, k);
      ReplaceAllAbsent(Escape(c, k), m, ['\\', m]);
    }
  }

  lemma {:induction false} EscapeAllStep(s: string, k: nat)
    requires k < |MetaChars|
    ensures ReplaceAll(EscapeAll(s, k), MetaChars[k], ['\\', MetaChars[k]]) == EscapeAll(s, k + 1)
  {
    if s != [] {
      ReplaceAllAppend(Escape(s[0], k), EscapeAll(s[1..], k), MetaChars[k], ['\\', MetaChars[k]]);
      EscapeStep(s[0], k);
      EscapeAllStep(s[1..], k);
    }
  }

  /** `SanitizeString`: one `ReplaceAll` pass per metacharacter. */
  method SanitizeString(input: string) returns (out: string)
    ensures out == EscapeAll(input, |MetaChars|)
  {
    out := ReplaceAll(input, '\0', "");
    out := ReplaceAll(out, '\\', "\\\\");
    assert out == EscapeAll(input, 0) by {
      EscapeAllStart(input);
    }
    for k := 0 to |MetaChars|
      invariant out == EscapeAll(input, k)
    {
      var m := MetaChars[k];
      var next := ReplaceAll(out, m, ['\\', m]);
      assert next == EscapeAll(input, k + 1) by {
        EscapeAllStep(input, k);
      }
      out := next;
    }
  }

  /** Reading a backslash as "the next character literally". */
  function Unescape(s: string): string
    decreases |s|
  {
    if |s| >= 2 && s[0] == '\\' then [s[1]] + Unescape(s[2..])
    else if s == [] then []
    else [s[0]] + Unescape(s[1..])
  }

  function RemoveNul(s: string): (r: string)
    ensures '\0' !in r
  {
    if s == [] then [] else (if s[0] == '\0' then [] else [s[0]]) + RemoveNul(s[1..])
  }

  /** Every character is escaped at most once: undoing the escapes gives back
      the input without its NUL characters. */
  lemma {:induction false} SanitizeRoundTrip(s: string)
    ensures Unescape(EscapeAll(s, |MetaChars|)) == RemoveNul(s)
  {
    if s != [] {
      var c := s[0];
      var e := Escape(c, |MetaChars|);
      var rest := EscapeAll(s[1..], |MetaChars|);
      SanitizeRoundTrip(s[1..]);
      if |e| == 2 {
        assert (e + rest)[2..] == rest;
      } else if |e| == 1 {
        assert e == [c] && c != '\\';
        assert (e + rest)[1..] == rest;
      } else {
        assert e + rest == rest;
      }
    }
  }
}
