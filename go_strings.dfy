/** The parts of Go's `strings`, `strconv`, `unicode` and `bufio` packages
    that the core relies on, over `string` (a sequence of Unicode scalar values). */
module GoStrings {
  import opened Wrappers

  /** `unicode.IsSpace`: the Latin-1 spaces plus the other White_Space runes. */
  predicate IsSpace(c: char) {
    c == '\t' || c == '\n' || c == '\U{000B}' || c == '\U{000C}' || c == '\r' || c == ' '
    || c == '\U{0085}' || c == '\U{00A0}' || c == '\U{1680}'
    || ('\U{2000}' <= c <= '\U{200A}') || c == '\U{2028}' || c == '\U{2029}'
    || c == '\U{202F}' || c == '\U{205F}' || c == '\U{3000}'
  }

  /** The first index at or after `i` that does not hold white space (or `|s|`). */
  function SkipSpaces(s: string, i: nat): (k: nat)
    requires i <= |s|
    ensures i <= k <= |s|
    decreases |s| - i
  {
    if i < |s| && IsSpace(s[i]) then SkipSpaces(s, i + 1) else i
  }

  /** The end of `s[lo..j]` once its trailing white space is dropped. */
  function BackSpaces(s: string, lo: nat, j: nat): (k: nat)
    requires lo <= j <= |s|
    ensures lo <= k <= j
    decreases j
  {
    if j > lo && IsSpace(s[j - 1]) then BackSpaces(s, lo, j - 1) else j
  }

  /** `strings.TrimSpace`: the longest infix with no white space at either end
      (`TrimSpaceBounds` states it). */
  function TrimSpace(s: string): (r: string)
    ensures |r| <= |s|
  {
    var lo := SkipSpaces(s, 0);
    s[lo..BackSpaces(s, lo, |s|)]
  }

  lemma {:induction false} SkipSpacesFacts(s: string, i: nat)
    requires i <= |s|
    ensures forall m :: i <= m < SkipSpaces(s, i) ==> IsSpace(s[m])
    ensures SkipSpaces(s, i) < |s| ==> !IsSpace(s[SkipSpaces(s, i)])
    decreases |s| - i
  {
    if i < |s| && IsSpace(s[i]) {
      SkipSpacesFacts(s, i + 1);
    }
  }

  lemma {:induction false} BackSpacesFacts(s: string, lo: nat, j: nat)
    requires lo <= j <= |s|
    ensures forall m :: BackSpaces(s, lo, j) <= m < j ==> IsSpace(s[m])
    ensures BackSpaces(s, lo, j) > lo ==> !IsSpace(s[BackSpaces(s, lo, j) - 1])
    decreases j
  {
    if j > lo && IsSpace(s[j - 1]) {
      BackSpacesFacts(s, lo, j - 1);
    }
  }

  /** What trimming keeps: the infix between the leading and the trailing white
      space, which starts and ends with a non-space character unless it is empty,
      and it is empty only when everything is white space. */
  lemma TrimSpaceBounds(s: string) returns (lo: nat, hi: nat)
    ensures lo <= hi <= |s| && TrimSpace(s) == s[lo..hi]
    ensures forall m :: 0 <= m < lo ==> IsSpace(s[m])
    ensures forall m :: hi <= m < |s| ==> IsSpace(s[m])
    ensures lo < hi ==> !IsSpace(s[lo]) && !IsSpace(s[hi - 1])
    ensures lo == hi ==> hi == |s|
  {
    lo := SkipSpaces(s, 0);
    hi := BackSpaces(s, lo, |s|);
    SkipSpacesFacts(s, 0);
    BackSpacesFacts(s, lo, |s|);
  }

  /** The trimmed text has no white space at either end and occurs in the text. */
  lemma TrimSpaceEnds(s: string)
    ensures var r := TrimSpace(s); r == [] || (!IsSpace(r[0]) && !IsSpace(r[|r| - 1]))
    ensures Contains(s, TrimSpace(s))
  {
    var lo, hi := TrimSpaceBounds(s);
    assert OccursAt(s, TrimSpace(s), lo);
  }

  /** Trimming leaves nothing exactly when the text is all white space. */
  lemma TrimSpaceEmpty(s: string)
    ensures (forall i :: 0 <= i < |s| ==> IsSpace(s[i])) <==> TrimSpace(s) == []
  {
    var lo, hi := TrimSpaceBounds(s);
  }

  /** Bounds with white space outside and none at the ends are the trimmed infix. */
  lemma TrimSpaceOf(s: string, lo: nat, hi: nat)
    requires lo < hi <= |s| && !IsSpace(s[lo]) && !IsSpace(s[hi - 1])
    requires forall m :: 0 <= m < lo ==> IsSpace(s[m])
    requires forall m :: hi <= m < |s| ==> IsSpace(s[m])
    ensures TrimSpace(s) == s[lo..hi]
  {
    var lo', hi' := TrimSpaceBounds(s);
    assert lo' == lo;
    assert hi' == hi;
  }

  /** A text with no white space at either end is its own trimmed form. */
  lemma TrimSpaceId(s: string)
    requires s == [] || (!IsSpace(s[0]) && !IsSpace(s[|s| - 1]))
    ensures TrimSpace(s) == s
  {
    if s != [] {
      TrimSpaceOf(s, 0, |s|);
    }
  }

  /** `unicode.ToLower` on the runes whose lower case is ASCII: the ASCII capitals,
      U+0130 (dotted capital I) and U+212A (Kelvin sign). Every other rune is kept. */
  function LowerChar(c: char): (r: char)
    ensures 'A' <= c <= 'Z' ==> r as int == c as int + 32
    ensures (r != c) <==> ('A' <= c <= 'Z' || c == '\U{0130}' || c == '\U{212A}')
  {
    if 'A' <= c <= 'Z' then (c as int + 32) as char
    else if c == '\U{0130}' then 'i'
    else if c == '\U{212A}' then 'k'
    else c
  }

  /** `strings.ToLower`, rune by rune. */
  function ToLower(s: string): (r: string)
    ensures |r| == |s| && forall i :: 0 <= i < |s| ==> r[i] == LowerChar(s[i])
  {
    if s == [] then [] else [LowerChar(s[0])] + ToLower(s[1..])
  }

  predicate HasPrefix(s: string, p: string) {
    |p| <= |s| && s[..|p|] == p
  }

  predicate HasSuffix(s: string, p: string) {
    |p| <= |s| && s[|s| - |p|..] == p
  }

  /** `strings.TrimPrefix`: removes one leading `p` when present. */
  function TrimPrefix(s: string, p: string): (r: string)
    ensures HasPrefix(s, p) ==> p + r == s
    ensures !HasPrefix(s, p) ==> r == s
  {
    if HasPrefix(s, p) then s[|p|..] else s
  }

  /** `strings.TrimSuffix`: removes one trailing `p` when present. */
  function TrimSuffix(s: string, p: string): (r: string)
    ensures HasSuffix(s, p) ==> r + p == s
    ensures !HasSuffix(s, p) ==> r == s
  {
    if HasSuffix(s, p) then s[..|s| - |p|] else s
  }

  /** `sub` occurs in `s` starting at index `i`. */
  predicate OccursAt(s: string, sub: string, i: int) {
    0 <= i && i + |sub| <= |s| && s[i..i + |sub|] == sub
  }

  /** `strings.Contains`. */
  predicate Contains(s: string, sub: string) {
    exists i | 0 <= i <= |s| - |sub| :: OccursAt(s, sub, i)
  }

  /** A left-to-right search that decides `strings.Contains`. */
  function IndexFrom(s: string, sub: string, i: nat): (r: Option<nat>)
    requires i <= |s|
    ensures r.Some? ==> i <= r.value && OccursAt(s, sub, r.value)
    ensures r.None? ==> forall j :: i <= j ==> !OccursAt(s, sub, j)
    decreases |s| - i
  {
    if OccursAt(s, sub, i) then Some(i)
    else if i + |sub| >= |s| then None
    else IndexFrom(s, sub, i + 1)
  }

  lemma ContainsByIndex(s: string, sub: string)
    ensures Contains(s, sub) <==> IndexFrom(s, sub, 0).Some?
  {
  }

  lemma ContainsSelf(s: string)
    ensures Contains(s, s)
  {
    assert OccursAt(s, s, 0);
  }

  /** Text found in the left part of a concatenation is found in the whole. */
  lemma ContainsInLeft(a: string, b: string, sub: string)
    requires Contains(a, sub)
    ensures Contains(a + b, sub)
  {
    var i :| 0 <= i <= |a| - |sub| && OccursAt(a, sub, i);
    assert (a + b)[i..i + |sub|] == a[i..i + |sub|];
    assert OccursAt(a + b, sub, i);
  }

  /** Text found in the right part of a concatenation is found in the whole. */
  lemma ContainsInRight(a: string, b: string, sub: string)
    requires Contains(b, sub)
    ensures Contains(a + b, sub)
  {
    var i :| 0 <= i <= |b| - |sub| && OccursAt(b, sub, i);
    assert (a + b)[|a| + i..|a| + i + |sub|] == b[i..i + |sub|];
    assert OccursAt(a + b, sub, |a| + i);
  }

  lemma ContainsInMiddle(a: string, t: string, b: string)
    ensures Contains(a + t + b, t)
  {
    ContainsSelf(t);
    ContainsInRight(a, t, t);
    ContainsInLeft(a + t, b, t);
  }

  lemma {:induction false} ContainsTrans(s: string, t: string, u: string)
    requires Contains(s, t) && Contains(t, u)
    ensures Contains(s, u)
  {
    var i :| 0 <= i <= |s| - |t| && OccursAt(s, t, i);
    var j :| 0 <= j <= |t| - |u| && OccursAt(t, u, j);
    forall k | 0 <= k < |u|
      ensures s[i + j..i + j + |u|][k] == u[k]
    {
      assert u[k] == t[j + k] == s[i..i + |t|][j + k];
    }
    assert OccursAt(s, u, i + j);
  }

  /** `strings.ReplaceAll(s, string(c), rep)` for a one-rune pattern. */
  function ReplaceAll(s: string, c: char, rep: string): (r: string)
    ensures c !in s ==> r == s
  {
    if s == [] then [] else (if s[0] == c then rep else [s[0]]) + ReplaceAll(s[1..], c, rep)
  }

  lemma {:induction false} ReplaceAllAppend(a: string, b: string, c: char, rep: string)
    ensures ReplaceAll(a + b, c, rep) == ReplaceAll(a, c, rep) + ReplaceAll(b, c, rep)
  {
    if a == [] {
      assert a + b == b;
    } else {
      assert (a + b)[0] == a[0] && (a + b)[1..] == a[1..] + b;
      ReplaceAllAppend(a[1..], b, c, rep);
      var head := if a[0] == c then rep else [a[0]];
      assert ReplaceAll(a + b, c, rep) == head + ReplaceAll(a[1..] + b, c, rep);
    }
  }

  /** `strings.Split(s, string(c))`: the pieces between occurrences of `c`. */
  function Split(s: string, c: char): (r: seq<string>)
    ensures |r| >= 1
    ensures forall k :: 0 <= k < |r| ==> c !in r[k]
    decreases |s|
  {
    if s == [] then [""]
    else if s[0] == c then [""] + Split(s[1..], c)
    else
      var rest := Split(s[1..], c);
      [[s[0]] + rest[0]] + rest[1..]
  }

  /** `strings.Join`. */
  function Join(parts: seq<string>, sep: string): string {
    if parts == [] then ""
    else if |parts| == 1 then parts[0]
    else parts[0] + sep + Join(parts[1..], sep)
  }

  /** Splitting then joining with the same separator gives back the input. */
  lemma {:induction false} JoinSplit(s: string, c: char)
    ensures Join(Split(s, c), [c]) == s
  {
    if s != [] {
      JoinSplit(s[1..], c);
      var rest := Split(s[1..], c);
      if s[0] != c {
        if |rest| > 1 {
          assert Join([[s[0]] + rest[0]] + rest[1..], [c])
              == [s[0]] + rest[0] + [c] + Join(rest[1..], [c]);
          assert Join(rest, [c]) == rest[0] + [c] + Join(rest[1..], [c]);
        }
      } else {
        assert Split(s, c) == [""] + rest;
      }
    }
  }

  /** A single-piece split means the separator does not occur. */
  lemma {:induction false} SplitSingle(s: string, c: char)
    ensures (|Split(s, c)| == 1) <==> c !in s
    ensures c !in s ==> Split(s, c) == [s]
  {
    if s != [] {
      SplitSingle(s[1..], c);
      if s[0] != c {
        assert s == [s[0]] + s[1..];
      }
    }
  }

  /** One line of `bufio.ScanLines`: a trailing carriage return is dropped. */
  function DropCR(line: string): (r: string)
    ensures r == TrimSuffix(line, "\r")
  {
    if |line| > 0 && line[|line| - 1] == '\r' then line[..|line| - 1] else line
  }

  /** The lines a `bufio.Scanner` with `ScanLines` yields for `s`: the pieces
      between newlines, without a final empty piece, each without a trailing `\r`. */
  function Lines(s: string): (r: seq<string>)
    ensures s == [] ==> r == []
    ensures |r| <= |Split(s, '\n')|
    ensures forall k :: 0 <= k < |r| ==> '\n' !in r[k]
  {
    var parts := Split(s, '\n');
    var kept := if parts[|parts| - 1] == "" then parts[..|parts| - 1] else parts;
    assert forall k :: 0 <= k < |kept| ==> '\n' !in kept[k];
    seq(|kept|, i requires 0 <= i < |kept| => DropCR(kept[i]))
  }

  /** Splitting around one separator splits the two sides independently. */
  lemma {:induction false} SplitAppend(a: string, b: string, c: char)
    ensures Split(a + [c] + b, c) == Split(a, c) + Split(b, c)
    decreases |a|
  {
    var s := a + [c] + b;
    if a == [] {
      assert s == [c] + b && s[1..] == b;
    } else {
      assert s[0] == a[0] && s[1..] == a[1..] + [c] + b;
      SplitAppend(a[1..], b, c);
      if a[0] != c {
        var rest := Split(a[1..], c);
        assert Split(s[1..], c) == rest + Split(b, c);
        assert Split(s[1..], c)[1..] == rest[1..] + Split(b, c);
      }
    }
  }

  /** The last piece of a split is empty exactly when the text is empty or ends in the separator. */
  lemma {:induction false} SplitLastEmpty(s: string, c: char)
    ensures var r := Split(s, c); (r[|r| - 1] == "") <==> (s == [] || s[|s| - 1] == c)
    decreases |s|
  {
    if s != [] {
      SplitLastEmpty(s[1..], c);
      SplitSingle(s[1..], c);
      if s[0] != c && |Split(s[1..], c)| == 1 && |s| > 1 {
        assert s[|s| - 1] == s[1..][|s| - 2];
      }
    }
  }

  lemma JoinSnoc(parts: seq<string>, x: string, sep: string)
    requires parts != []
    ensures Join(parts + [x], sep) == Join(parts, sep) + sep + x
    decreases |parts|
  {
    if |parts| > 1 {
      assert (parts + [x])[1..] == parts[1..] + [x];
      JoinSnoc(parts[1..], x, sep);
    }
  }

  /** A join ends with the end of its last part. */
  lemma JoinLast(parts: seq<string>, c: char)
    requires parts != [] && parts[|parts| - 1] != ""
    ensures var j := Join(parts, [c]); j != [] && j[|j| - 1] == parts[|parts| - 1][|parts[|parts| - 1]| - 1]
  {
    var n := |parts|;
    if n > 1 {
      assert parts == parts[..n - 1] + [parts[n - 1]];
      JoinSnoc(parts[..n - 1], parts[n - 1], [c]);
    }
  }

  /** Joining pieces free of the separator then splitting gives the pieces back. */
  lemma {:induction false} SplitJoin(parts: seq<string>, c: char)
    requires |parts| >= 1
    requires forall k :: 0 <= k < |parts| ==> c !in parts[k]
    ensures Split(Join(parts, [c]), c) == parts
    decreases |parts|
  {
    SplitSingle(parts[0], c);
    if |parts| > 1 {
      SplitJoin(parts[1..], c);
      SplitAppend(parts[0], Join(parts[1..], [c]), c);
      assert parts == [parts[0]] + parts[1..];
    }
  }

  /** Every part of a join occurs in the joined text. */
  lemma {:induction false} JoinContains(parts: seq<string>, k: nat, sep: string)
    requires k < |parts|
    ensures Contains(Join(parts, sep), parts[k])
    decreases |parts|
  {
    if |parts| == 1 {
      ContainsSelf(parts[0]);
    } else {
      var rest := Join(parts[1..], sep);
      assert Join(parts, sep) == (parts[0] + sep) + rest;
      if k == 0 {
        ContainsSelf(parts[0]);
        ContainsInLeft(parts[0], sep + rest, parts[0]);
        assert parts[0] + (sep + rest) == (parts[0] + sep) + rest;
      } else {
        JoinContains(parts[1..], k - 1, sep);
        ContainsInRight(parts[0] + sep, rest, parts[k]);
      }
    }
  }

  /** Newline-terminated lines read back as those lines (each without a trailing `\r`). */
  lemma LinesOfJoin(parts: seq<string>)
    requires |parts| >= 1
    requires forall k :: 0 <= k < |parts| ==> '\n' !in parts[k]
    ensures Lines(Join(parts, "\n") + "\n") == seq(|parts|, i requires 0 <= i < |parts| => DropCR(parts[i]))
  {
    var j := Join(parts, "\n");
    SplitJoin(parts, '\n');
    SplitAppend(j, "", '\n');
    assert j + "\n" == j + ['\n'] + "";
  }

  /** The lines of text whose pieces between newlines are `parts`. */
  lemma LinesOfSplit(s: string, parts: seq<string>, kept: seq<string>)
    requires Split(s, '\n') == parts
    requires kept == if parts[|parts| - 1] == "" then parts[..|parts| - 1] else parts
    ensures Lines(s) == seq(|kept|, i requires 0 <= i < |kept| => DropCR(kept[i]))
  {
  }

  /** Dropping carriage returns line by line commutes with concatenation. */
  lemma DropCRAppend(p: seq<string>, q: seq<string>)
    ensures var pq := p + q;
      seq(|pq|, i requires 0 <= i < |pq| => DropCR(pq[i]))
      == seq(|p|, i requires 0 <= i < |p| => DropCR(p[i])) + seq(|q|, i requires 0 <= i < |q| => DropCR(q[i]))
  {
  }

  /** Text that ends in a newline reads as its own lines followed by the lines of what comes after. */
  lemma LinesAppend(a: string, b: string)
    requires HasSuffix(a, "\n")
    ensures Lines(a + b) == Lines(a) + Lines(b)
  {
    var a0 := a[..|a| - 1];
    assert a == a0 + ['\n'] + "";
    assert a + b == a0 + ['\n'] + b;
    SplitAppend(a0, b, '\n');
    SplitAppend(a0, "", '\n');
    var p := Split(a0, '\n');
    var q := Split(b, '\n');
    var kb := if q[|q| - 1] == "" then q[..|q| - 1] else q;
    var kab := p + kb;
    assert (p + [""])[..|p|] == p;
    LinesOfSplit(a, p + [""], p);
    LinesOfSplit(b, q, kb);
    if q[|q| - 1] == "" {
      assert (p + q)[..|p + q| - 1] == kab;
    }
    LinesOfSplit(a + b, p + q, kab);
    DropCRAppend(p, kb);
  }

  /** Text that does not end in a newline gains one empty line when two newlines are added. */
  lemma LinesAfterBlankLine(e: string)
    requires e != [] && e[|e| - 1] != '\n'
    ensures Lines(e + "\n\n") == Lines(e) + [""]
  {
    assert e + "\n\n" == e + ['\n'] + "\n";
    SplitAppend(e, "\n", '\n');
    SplitLastEmpty(e, '\n');
    assert "\n" == "" + ['\n'] + "";
    SplitAppend("", "", '\n');
    var p := Split(e, '\n');
    assert Split(e + "\n\n", '\n') == p + ["", ""];
    assert p + ["", ""] == (p + [""]) + [""];
    LinesOfSplit(e, p, p);
    var k := p + [""];
    assert (k + [""])[..|k|] == k;
    LinesOfSplit(e + "\n\n", k + [""], k);
    DropCRAppend(p, [""]);
  }

  /** Text that ends in a newline gains one empty line when another newline is added. */
  lemma LinesAfterNewline(e: string)
    requires HasSuffix(e, "\n")
    ensures Lines(e + "\n") == Lines(e) + [""]
  {
    LinesAppend(e, "\n");
    LinesOfJoin([""]);
    assert Join([""], "\n") + "\n" == "\n";
  }

  /** The first non-space character of a line is the first character of its trimmed form. */
  lemma TrimSpaceFirst(s: string, k: nat)
    requires k < |s| && !IsSpace(s[k])
    requires forall i :: 0 <= i < k ==> IsSpace(s[i])
    ensures TrimSpace(s) != [] && TrimSpace(s)[0] == s[k]
  {
    var lo, hi := TrimSpaceBounds(s);
    assert lo == k;
  }

  /** Trailing white space does not change the trimmed form. */
  lemma TrimSpaceSnoc(s: string, c: char)
    requires IsSpace(c)
    ensures TrimSpace(s + [c]) == TrimSpace(s)
  {
    var t := s + [c];
    var lo, hi := TrimSpaceBounds(s);
    if lo < hi {
      TrimSpaceOf(t, lo, hi);
      assert t[lo..hi] == s[lo..hi];
    } else {
      TrimSpaceEmpty(s);
      TrimSpaceEmpty(t);
    }
  }

  /** Dropping the scanner's carriage return does not change the trimmed form. */
  lemma TrimSpaceDropCR(s: string)
    ensures TrimSpace(DropCR(s)) == TrimSpace(s)
  {
    if |s| > 0 && s[|s| - 1] == '\r' {
      assert s == s[..|s| - 1] + ['\r'];
      TrimSpaceSnoc(s[..|s| - 1], '\r');
    }
  }

  /** A substring's characters all occur in the text. */
  lemma ContainsFirstChar(s: string, sub: string)
    requires sub != [] && Contains(s, sub)
    ensures sub[0] in s
  {
    var i :| 0 <= i <= |s| - |sub| && OccursAt(s, sub, i);
    assert s[i] == sub[0];
  }

  /** Number of bytes the UTF-8 encoding of `c` takes. */
  function Utf8Width(c: char): (n: nat)
    ensures 1 <= n <= 4
    ensures n == 1 <==> c as int < 0x80
  {
    if c as int < 0x80 then 1
    else if c as int < 0x800 then 2
    else if c as int < 0x10000 then 3
    else 4
  }

  /** `len(s)` in Go: the length of the UTF-8 encoding. */
  function ByteLen(s: string): (n: nat)
    ensures |s| <= n <= 4 * |s|
  {
    if s == [] then 0 else Utf8Width(s[0]) + ByteLen(s[1..])
  }

  predicate IsDigit(c: char) { '0' <= c <= '9' }

  /** Value of a non-empty run of decimal digits. */
  function DigitsValue(s: string): (n: nat)
    requires forall i :: 0 <= i < |s| ==> IsDigit(s[i])
  {
    if s == [] then 0
    else
      assert IsDigit(s[|s| - 1]);
      DigitsValue(s[..|s| - 1]) * 10 + (s[|s| - 1] as int - '0' as int)
  }

  const MinInt64: int := -0x8000_0000_0000_0000
  const MaxInt64: int := 0x7FFF_FFFF_FFFF_FFFF

  predicate AllDigits(s: string) {
    forall i :: 0 <= i < |s| ==> IsDigit(s[i])
  }

  /** Length of the leading run of decimal digits. */
  function LeadDigits(s: string): (n: nat)
    ensures n <= |s| && AllDigits(s[..n])
    ensures n < |s| ==> !IsDigit(s[n])
    decreases |s|
  {
    if s != [] && IsDigit(s[0]) then
      var n := 1 + LeadDigits(s[1..]);
      assert s[..n] == [s[0]] + s[1..][..n - 1];
      n
    else 0
  }

  lemma {:induction false} LeadDigitsOf(d: string, rest: string)
    requires AllDigits(d)
    requires rest == [] || !IsDigit(rest[0])
    ensures LeadDigits(d + rest) == |d|
    decreases |d|
  {
    if d != [] {
      assert (d + rest)[1..] == d[1..] + rest;
      LeadDigitsOf(d[1..], rest);
    } else {
      assert d + rest == rest;
    }
  }

  /** `strconv.ParseInt(s, 10, 64)` (and `strconv.Atoi` on 64-bit targets):
      an optional sign, at least one decimal digit, and a value within int64. */
  function ParseInt64(s: string): (r: Option<int>)
    ensures r.Some? ==> MinInt64 <= r.value <= MaxInt64
    ensures r.Some? ==> s != [] && AllDigits(if s[0] == '+' || s[0] == '-' then s[1..] else s)
    ensures s == [] ==> r.None?
  {
    if s == [] then None
    else
      var neg := s[0] == '-';
      var digits := if s[0] == '+' || s[0] == '-' then s[1..] else s;
      if digits == [] || !AllDigits(digits) then None
      else
        var v: int := if neg then -(DigitsValue(digits) as int) else DigitsValue(digits);
        if MinInt64 <= v <= MaxInt64 then Some(v) else None
  }

  const MaxUint64: int := 0xFFFF_FFFF_FFFF_FFFF

  function Pow10(k: nat): (r: nat)
    ensures r >= 1
  {
    if k == 0 then 1 else 10 * Pow10(k - 1)
  }

  /** Where the digit loop of `strconv.ParseUint(s, 10, 64)` stops: with a value,
      at a character that is not a decimal digit, or at the first digit that
      takes the value past the uint64 range. */
  datatype UintScan = UintOk(n: nat) | UintSyntax | UintRange

  /** The digit loop of `strconv.ParseUint(s, 10, 64)` on a non-empty text,
      continued from the value `n` read so far. Go's two overflow tests
      (`n >= cutoff` before multiplying, `n1 > maxVal` after adding) together
      say that `10 * n + d` exceeds the uint64 range. */
  function ScanUint(s: string, n: nat): (r: UintScan)
    requires n <= MaxUint64
    ensures r.UintOk? ==> r.n <= MaxUint64
    decreases |s|
  {
    if s == [] then UintOk(n)
    else if !IsDigit(s[0]) then UintSyntax
    else
      var m := n * 10 + (s[0] as int - '0' as int);
      if m > MaxUint64 then UintRange else ScanUint(s[1..], m)
  }

  /** Reading the digits of `[c] + e` front to back: the first digit weighs
      `10^|e|`. */
  lemma {:induction false} DigitsValueCons(c: char, e: string)
    requires IsDigit(c) && AllDigits(e)
    ensures AllDigits([c] + e)
    ensures DigitsValue([c] + e) == (c as int - '0' as int) * Pow10(|e|) + DigitsValue(e)
    decreases |e|
  {
    var d := c as int - '0' as int;
    if e == [] {
      assert [c] + e == [c];
      assert [c][..0] == [];
    } else {
      var f := e[..|e| - 1];
      var x := e[|e| - 1] as int - '0' as int;
      assert AllDigits(f) by { assert forall i :: 0 <= i < |f| ==> f[i] == e[i]; }
      DigitsValueCons(c, f);
      assert ([c] + e)[..|e|] == [c] + f;
      assert ([c] + e)[|e|] == e[|e| - 1];
      AppendDigit(d, Pow10(|f|), DigitsValue(f), x);
    }
  }

  lemma AppendDigit(d: int, p: int, v: int, x: int)
    ensures (d * p + v) * 10 + x == d * (10 * p) + (v * 10 + x)
  {}

  lemma {:induction false} Pow10Add(a: nat, b: nat)
    ensures Pow10(a + b) == Pow10(a) * Pow10(b)
    decreases a
  {
    if a > 0 {
      Pow10Add(a - 1, b);
    }
  }

  /** Twenty digits starting with 9 are past the uint64 range. */
  lemma TwentyDigitsPastUint64(d: string)
    requires |d| == 20 && d[0] == '9' && AllDigits(d)
    ensures DigitsValue(d) > MaxUint64
  {
    assert Pow10(2) == 100;
    Pow10Add(2, 2);
    Pow10Add(4, 4);
    Pow10Add(8, 8);
    Pow10Add(16, 2);
    Pow10Add(18, 1);
    assert Pow10(19) == 10_000_000_000_000_000_000;
    var e := d[1..];
    assert AllDigits(e) by { assert forall i :: 0 <= i < |e| ==> e[i] == d[i + 1]; }
    assert d == [d[0]] + e;
    DigitsValueCons(d[0], e);
  }

  lemma ShiftDigit(n: nat, d: nat, p: nat, x: nat)
    ensures n * (10 * p) + (d * p + x) == (n * 10 + d) * p + x
  {}

  lemma MulAtLeast(m: nat, p: nat)
    requires p >= 1
    ensures m * p >= m
  {}

  /** What the digit loop means: with `k` leading digits read after the value
      `n`, it overflows exactly when `n` followed by those digits exceeds the
      uint64 range, and otherwise yields that number exactly when the text is
      all digits. */
  lemma {:induction false} ScanUintSpec(s: string, n: nat)
    requires n <= MaxUint64
    ensures var k := LeadDigits(s); var v := n * Pow10(k) + DigitsValue(s[..k]);
      (ScanUint(s, n).UintRange? <==> v > MaxUint64)
      && (ScanUint(s, n).UintOk? <==> k == |s| && v <= MaxUint64)
      && (ScanUint(s, n).UintOk? ==> ScanUint(s, n).n == v)
    decreases |s|
  {
    var k := LeadDigits(s);
    if s == [] || !IsDigit(s[0]) {
      assert k == 0 && s[..k] == [];
    } else {
      var d := s[0] as int - '0' as int;
      var m := n * 10 + d;
      var k' := LeadDigits(s[1..]);
      assert k == 1 + k';
      var lead := s[1..][..k'];
      assert s[..k] == [s[0]] + lead;
      DigitsValueCons(s[0], lead);
      ShiftDigit(n, d, Pow10(k'), DigitsValue(lead));
      if m > MaxUint64 {
        MulAtLeast(m, Pow10(k'));
      } else {
        ScanUintSpec(s[1..], m);
      }
    }
  }

  /** How `strconv.ParseInt(s, 10, 64)` ends: a value, `ErrSyntax` or `ErrRange`. */
  datatype IntParse = IntOk(i: int) | IntSyntax | IntRange

  /** The text after an optional leading sign. */
  function Unsigned(s: string): (u: string)
    ensures |u| <= |s|
  {
    if s != [] && (s[0] == '+' || s[0] == '-') then s[1..] else s
  }

  /** `strconv.ParseInt(s, 10, 64)` step by step: the sign, `ParseUint`'s digit
      loop (whose `ErrRange` passes through), then the int64 cut-off `1 << 63`. */
  function ParseIntSteps(s: string): (r: IntParse)
    ensures r.IntOk? ==> MinInt64 <= r.i <= MaxInt64
  {
    var u := Unsigned(s);
    if s == [] || u == [] then IntSyntax
    else
      var neg := s[0] == '-';
      match ScanUint(u, 0)
      case UintSyntax => IntSyntax
      case UintRange => IntRange
      case UintOk(un) =>
        if !neg && un >= 0x8000_0000_0000_0000 then IntRange
        else if neg && un > 0x8000_0000_0000_0000 then IntRange
        else IntOk(if neg then -(un as int) else un)
  }

  /** The step-by-step parse accepts exactly what `ParseInt64` accepts, with the
      same value, and it reports `ErrRange` exactly for an all-digit text beyond
      int64 or a text whose leading digits already exceed uint64, whatever
      follows them. */
  lemma ParseIntStepsAgrees(s: string)
    ensures ParseIntSteps(s).IntOk? <==> ParseInt64(s).Some?
    ensures ParseInt64(s).Some? ==> ParseIntSteps(s) == IntOk(ParseInt64(s).value)
    ensures var u := Unsigned(s);
      ParseIntSteps(s) == IntRange <==>
        s != [] && u != []
        && ((AllDigits(u) && ParseInt64(s).None?) || DigitsValue(u[..LeadDigits(u)]) > MaxUint64)
  {
    var u := Unsigned(s);
    if s != [] && u != [] {
      var k := LeadDigits(u);
      ScanUintSpec(u, 0);
      if AllDigits(u) {
        LeadDigitsOf(u, []);
        assert u + [] == u && u[..|u|] == u;
      } else {
        assert k < |u|;
      }
    }
  }

  /** Decimal text of a natural number, most significant digit first. */
  function NatToString(n: nat): (r: string)
    ensures r != [] && AllDigits(r)
    ensures r[0] == '0' ==> n == 0
    decreases n
  {
    if n < 10 then [('0' as int + n) as char]
    else NatToString(n / 10) + [('0' as int + n % 10) as char]
  }

  lemma {:induction false} NatToStringValue(n: nat)
    ensures DigitsValue(NatToString(n)) == n
    decreases n
  {
    if n >= 10 {
      NatToStringValue(n / 10);
      var r := NatToString(n);
      assert r[..|r| - 1] == NatToString(n / 10);
    }
  }

  /** Lower-case hexadecimal digit of `d`, as `strconv` writes it. */
  function HexDigit(d: nat): (c: char)
    requires d < 16
    ensures ('0' <= c <= '9') || ('a' <= c <= 'f')
  {
    if d < 10 then ('0' as int + d) as char else ('a' as int + d - 10) as char
  }

  /** A character `strconv.Quote` copies as it is: printable ASCII other than
      the double quote and the backslash, or any character past ASCII. */
  predicate QuotedAsIs(c: char) {
    (' ' <= c <= '~' && c != '"' && c != '\\') || c as int >= 0x80
  }

  /** The escape `strconv.Quote` writes for one character. */
  function QuoteChar(c: char): (r: string)
    ensures r != []
    ensures QuotedAsIs(c) <==> r == [c]
    ensures !QuotedAsIs(c) ==> r[0] == '\\' && 2 <= |r| <= 4
  {
    if c == '"' then "\\\""
    else if c == '\\' then "\\\\"
    else if c as int == 7 then "\\a"
    else if c as int == 8 then "\\b"
    else if c as int == 12 then "\\f"
    else if c == '\n' then "\\n"
    else if c == '\r' then "\\r"
    else if c == '\t' then "\\t"
    else if c as int == 11 then "\\v"
    else if c < ' ' || c as int == 0x7F then "\\x" + [HexDigit(c as int / 16), HexDigit(c as int % 16)]
    else [c]
  }

  function QuoteBody(s: string): (r: string)
    ensures |r| >= |s|
  {
    if s == [] then [] else QuoteChar(s[0]) + QuoteBody(s[1..])
  }

  /** `strconv.Quote`: the text between double quotes, escaped. */
  function Quote(s: string): (r: string)
    ensures |r| >= |s| + 2 && r[0] == '"' && r[|r| - 1] == '"'
  {
    "\"" + QuoteBody(s) + "\""
  }

  /** Escaping changes nothing in text made only of characters copied as they are,
      and a character that needs an escape makes the quoted text longer. */
  lemma {:induction false} QuoteBodyPlain(s: string)
    ensures (forall i :: 0 <= i < |s| ==> QuotedAsIs(s[i])) <==> QuoteBody(s) == s
    decreases |s|
  {
    if s != [] {
      QuoteBodyPlain(s[1..]);
      QuoteBodyLonger(s[1..]);
      if !QuotedAsIs(s[0]) {
        assert |QuoteBody(s)| > |s|;
      } else {
        assert s == [s[0]] + s[1..];
        assert QuoteBody(s) == [s[0]] + QuoteBody(s[1..]);
        assert (forall i :: 0 <= i < |s| ==> QuotedAsIs(s[i]))
          <==> (forall i :: 0 <= i < |s[1..]| ==> QuotedAsIs(s[1..][i]));
      }
    }
  }

  lemma {:induction false} QuoteBodyLonger(s: string)
    ensures |QuoteBody(s)| >= |s|
    ensures (exists i :: 0 <= i < |s| && !QuotedAsIs(s[i])) ==> |QuoteBody(s)| > |s|
    decreases |s|
  {
    if s != [] {
      QuoteBodyLonger(s[1..]);
      if exists i :: 0 <= i < |s| && !QuotedAsIs(s[i]) {
        var i :| 0 <= i < |s| && !QuotedAsIs(s[i]);
        if i > 0 {
          assert !QuotedAsIs(s[1..][i - 1]);
        }
      }
    }
  }

  /** `fmt`'s `%o`: octal digits, most significant first, no prefix. */
  function NatToOctal(n: nat): (r: string)
    ensures r != [] && forall i :: 0 <= i < |r| ==> '0' <= r[i] <= '7'
    decreases n
  {
    if n < 8 then [('0' as int + n) as char]
    else NatToOctal(n / 8) + [('0' as int + n % 8) as char]
  }

  /** `strconv.Itoa` / `fmt`'s `%d`. */
  function IntToString(i: int): (r: string)
    ensures r != []
  {
    if i < 0 then "-" + NatToString(-i) else NatToString(i)
  }

  /** Formatting an int64 and parsing it back gives the same number. */
  lemma ParseIntToString(i: int)
    requires MinInt64 <= i <= MaxInt64
    ensures ParseInt64(IntToString(i)) == Some(i)
  {
    var s := IntToString(i);
    if i < 0 {
      var d := NatToString(-i);
      NatToStringValue(-i);
      assert s == "-" + d && s[0] == '-' && s[1..] == d;
    } else {
      var d := NatToString(i);
      NatToStringValue(i);
      assert s == d && IsDigit(s[0]);
    }
  }
}
