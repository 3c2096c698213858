/** The release build script: the output directory, the version stamped into
    the binary (an override, or the next canary after the nearest tag) and the
    linker flags. The script runs on a JavaScript runtime, so its string
    splitting, `parseInt` and number printing are modelled as JavaScript defines
    them; `NaN` is the absent number. The shell commands' outputs (the commit
    hash, the nearest tag) are parameters. */
module Build {
  import opened Wrappers
  import opened GoStrings

  /** Where the binary goes when `--out` is not given. */
  const DefaultOut: string := "./build/"

  /** The `--out` option with its default. */
  function OutDir(out: Option<string>): (r: string)
    ensures out.None? ==> r == DefaultOut
    ensures out.Some? ==> r == out.value
  {
    if out.Some? then out.value else DefaultOut
  }

  // ---------------------------------------------------------- JavaScript numbers

  predicate IsHexDigit(c: char) {
    IsDigit(c) || ('a' <= c <= 'f') || ('A' <= c <= 'F')
  }

  function HexDigitValue(c: char): (n: nat)
    requires IsHexDigit(c)
    ensures n < 16
  {
    if IsDigit(c) then c as int - '0' as int
    else if 'a' <= c <= 'f' then c as int - 'a' as int + 10
    else c as int - 'A' as int + 10
  }

  /** Length of the leading run of hexadecimal digits. */
  function LeadHex(s: string): (n: nat)
    ensures n <= |s| && forall i :: 0 <= i < n ==> IsHexDigit(s[i])
    decreases |s|
  {
    if s != [] && IsHexDigit(s[0]) then 1 + LeadHex(s[1..]) else 0
  }

  function HexValue(s: string): nat
    requires forall i :: 0 <= i < |s| ==> IsHexDigit(s[i])
  {
    if s == [] then 0 else HexValue(s[..|s| - 1]) * 16 + HexDigitValue(s[|s| - 1])
  }

  /** JavaScript's white space and line terminators, the characters `trim()` strips
      and `parseInt` skips: tab, vertical tab, form feed, the byte-order mark, the
      space separators, and the four line terminators. */
  predicate IsJsSpace(c: char) {
    c == '\t' || c == '\n' || c == '\U{000B}' || c == '\U{000C}' || c == '\r' || c == ' '
    || c == '\U{00A0}' || c == '\U{1680}' || ('\U{2000}' <= c <= '\U{200A}')
    || c == '\U{2028}' || c == '\U{2029}' || c == '\U{202F}' || c == '\U{205F}'
    || c == '\U{3000}' || c == '\U{FEFF}'
  }

  /** The first index at or after `i` that does not hold JavaScript white space
      (or `|s|`). */
  function JsSkipSpaces(s: string, i: nat): (k: nat)
    requires i <= |s|
    ensures i <= k <= |s|
    ensures forall j :: i <= j < k ==> IsJsSpace(s[j])
    ensures k < |s| ==> !IsJsSpace(s[k])
    decreases |s| - i
  {
    if i < |s| && IsJsSpace(s[i]) then JsSkipSpaces(s, i + 1) else i
  }

  /** `parseInt(s)` with no radix: leading white space and a sign are skipped, a
      `0x` prefix selects hexadecimal, and the longest run of digits is read;
      `None` (NaN) when there is no digit. */
  function ParseInt(s: string): (r: Option<int>)
  {
    var t := s[JsSkipSpaces(s, 0)..];
    var negative := t != [] && t[0] == '-';
    var u := if t != [] && (t[0] == '-' || t[0] == '+') then t[1..] else t;
    var magnitude: Option<nat> :=
      if |u| >= 2 && u[0] == '0' && (u[1] == 'x' || u[1] == 'X') then
        var h := LeadHex(u[2..]);
        if h == 0 then None else Some(HexValue(u[2..][..h]))
      else
        var d := LeadDigits(u);
        if d == 0 then None else Some(DigitsValue(u[..d]));
    if magnitude.None? then None
    else
      var v: int := if negative then -(magnitude.value as int) else magnitude.value;
      Some(v)
  }

  /** A number as a template string prints it (integers only), or `NaN`. */
  function NumberText(x: Option<int>): string {
    if x.Some? then IntToString(x.value) else "NaN"
  }

  /** Adding one; NaN stays NaN. */
  function Succ(x: Option<int>): (r: Option<int>)
    ensures r.Some? <==> x.Some?
  {
    if x.Some? then Some(x.value + 1) else None
  }

  /** Text starting with a decimal digit, and not with `0x`, reads as its
      leading run of digits. */
  lemma ParseIntDecimal(u: string)
    requires u != [] && IsDigit(u[0])
    requires !(|u| >= 2 && u[0] == '0' && (u[1] == 'x' || u[1] == 'X'))
    ensures ParseInt(u) == Some(DigitsValue(u[..LeadDigits(u)]))
  {
    assert !IsJsSpace(u[0]);
    assert JsSkipSpaces(u, 0) == 0;
    assert u[0..] == u;
  }

  /** Text that cannot continue a numeral: nothing, or not a digit and not the
      `x` of a hexadecimal prefix. */
  predicate EndsNumeral(rest: string) {
    rest == [] || (!IsDigit(rest[0]) && rest[0] != 'x' && rest[0] != 'X')
  }

  /** A decimal numeral followed by text that does not continue it reads as its
      value. */
  lemma ParseIntOfNumeral(n: nat, rest: string)
    requires EndsNumeral(rest)
    ensures ParseInt(NatToString(n) + rest) == Some(n)
  {
    var d := NatToString(n);
    var s := d + rest;
    assert s[0] == d[0] && IsDigit(d[0]);
    if |s| >= 2 && s[0] == '0' {
      assert n == 0 && |d| == 1;
      assert s[1] == rest[0];
    }
    ParseIntDecimal(s);
    LeadDigitsOf(d, rest);
    assert s[..|d|] == d;
    NatToStringValue(n);
  }

  // ---------------------------------------------------------------- version

  /** Element `i` of a JavaScript array of strings as a template prints it. */
  function Part(parts: seq<string>, i: nat): string {
    if i < |parts| then parts[i] else "undefined"
  }

  /** The next canary version after `tag` (the output of `git describe`,
      trailing newline included): the first two dot-separated parts as text, the
      third read as a number and incremented. */
  function CanaryVersion(tag: string): (r: string)
    ensures HasSuffix(r, "-canary")
  {
    var parts := Split(tag, '.');
    var patch := Succ(ParseInt(Part(parts, 2)));
    var r := Part(parts, 0) + "." + Part(parts, 1) + "." + NumberText(patch) + "-canary";
    assert r[|r| - |"-canary"|..] == "-canary";
    r
  }

  /** Whether the `ohmydot_version` variable counts as set: it is defined and
      `trim()` leaves something of it, that is, some character is not white space. */
  predicate OverrideSet(env: Option<string>) {
    env.Some? && JsSkipSpaces(env.value, 0) < |env.value|
  }

  /** The version stamped into the binary. */
  function BuildVersion(env: Option<string>, tag: string): (r: string)
    ensures OverrideSet(env) ==> r == env.value
    ensures !OverrideSet(env) ==> r == CanaryVersion(tag)
  {
    if OverrideSet(env) then env.value else CanaryVersion(tag)
  }

  /** An override counts exactly when some character of it is not white space; a
      white-space-only override counts as absent. */
  lemma BlankOverrideIgnored(env: string, tag: string)
    ensures (forall i :: 0 <= i < |env| ==> IsJsSpace(env[i])) ==> BuildVersion(Some(env), tag) == CanaryVersion(tag)
    ensures (exists i :: 0 <= i < |env| && !IsJsSpace(env[i])) ==> BuildVersion(Some(env), tag) == env
  {
  }

  /** A tag `a.b.n` (then anything that does not continue the number, such as a
      newline) gives `a.b.(n+1)-canary`, with `a` and `b` copied as text. */
  lemma CanaryOfTag(a: string, b: string, n: nat, rest: string)
    requires '.' !in a && '.' !in b && '.' !in rest
    requires EndsNumeral(rest)
    ensures CanaryVersion(a + "." + b + "." + NatToString(n) + rest) == a + "." + b + "." + NatToString(n + 1) + "-canary"
  {
    var c := NatToString(n) + rest;
    assert '.' !in c;
    assert Join([b, c], ".") == b + "." + c;
    assert [a, b, c][1..] == [b, c];
    assert Join([a, b, c], ".") == a + "." + (b + "." + c);
    assert a + "." + b + "." + c == a + "." + (b + "." + c);
    SplitJoin([a, b, c], '.');
    var tag := a + "." + b + "." + NatToString(n) + rest;
    assert tag == a + "." + b + "." + c;
    assert Split(tag, '.') == [a, b, c];
    ParseIntOfNumeral(n, rest);
    assert NumberText(Succ(ParseInt(c))) == NatToString(n + 1);
  }

  lemma TenText()
    ensures NatToString(10) == "10"
  {
    assert NatToString(10) == NatToString(1) + ['0'];
  }

  /** A patch number of 9 carries into two digits: `a.b.9` gives `a.b.10-canary`. */
  lemma CanaryCarries(a: string, b: string)
    requires '.' !in a && '.' !in b
    ensures CanaryVersion(a + "." + b + "." + "9") == a + "." + b + "." + "10" + "-canary"
  {
    CanaryOfTag(a, b, 9, "");
    assert NatToString(9) == "9";
    TenText();
    assert a + "." + b + "." + NatToString(9) + "" == a + "." + b + "." + "9";
  }

  /** `parseInt` of the text JavaScript prints for a missing element is NaN. */
  lemma UndefinedIsNaN()
    ensures ParseInt("undefined") == None
  {
    var u := "undefined";
    assert u[0] == 'u' && !IsJsSpace(u[0]);
    assert JsSkipSpaces(u, 0) == 0 && u[0..] == u;
    assert LeadDigits(u) == 0;
  }

  /** A tag with fewer than three parts leaves the patch number NaN. */
  lemma ShortTagGivesNaN(tag: string)
    requires |Split(tag, '.')| < 3
    ensures HasSuffix(CanaryVersion(tag), "NaN-canary")
  {
    var parts := Split(tag, '.');
    assert Part(parts, 2) == "undefined";
    UndefinedIsNaN();
    var prefix := Part(parts, 0) + "." + Part(parts, 1) + ".";
    var r := CanaryVersion(tag);
    assert r == prefix + "NaN" + "-canary";
    assert prefix + "NaN" + "-canary" == prefix + "NaN-canary";
    assert (prefix + "NaN-canary")[|prefix|..] == "NaN-canary";
  }

  // ------------------------------------------------------------------ linking

  /** The linker flags: the version and the commit hash, each inserted as is. */
  function LdFlags(version: string, commitHash: string): (r: string)
    ensures HasSuffix(r, "cmd.CommitHash=" + commitHash)
    ensures Contains(r, "cmd.Version=" + version)
  {
    var module_ := "github.com/PatrickMatthiesen/oh-my-dot/";
    var first := "cmd.Version=" + version;
    var second := "cmd.CommitHash=" + commitHash;
    var r := "-X " + module_ + first + (" -X " + module_ + second);
    assert r[|r| - |second|..] == second;
    ContainsInMiddle("-X " + module_, first, " -X " + module_ + second);
    r
  }
}
