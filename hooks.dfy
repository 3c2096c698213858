/** Profile hooks: the marker-delimited block that makes a shell's startup file
    load the generated init script, and the bash login shim that makes a login
    shell read `.bashrc`. A profile is given as what opening it yields; the
    operations return the text they would write instead of writing it. */
module Hooks {
  import opened Wrappers
  import opened GoStrings

  const HookStartMarker: string := "# >>> oh-my-dot shell >>>"
  const HookEndMarker: string := "# <<< oh-my-dot shell <<<"
  const LoginShimStartMarker: string := "# >>> oh-my-dot bash login >>>"
  const LoginShimEndMarker: string := "# <<< oh-my-dot bash login <<<"

  /** What opening a profile yields: no such file, another error, or its text. */
  datatype ProfileFile = Missing | Unreadable(reason: string) | Present(content: string)

  // ------------------------------------------------------------- generation

  predicate IsHookShell(shell: string) {
    shell == "bash" || shell == "posix" || shell == "zsh" || shell == "fish" || shell == "powershell"
  }

  /** The lines of a shell's hook between its two markers. */
  function HookBody(shell: string, initPath: string): (r: seq<string>)
    ensures IsHookShell(shell) <==> r != []
    ensures r != [] ==> |r| >= 3
  {
    if shell == "bash" || shell == "posix" then
      ["if [ -r \"" + initPath + "\" ]; then", "  . \"" + initPath + "\"", "fi"]
    else if shell == "zsh" then
      ["if [ -r \"" + initPath + "\" ]; then", "  source \"" + initPath + "\"", "fi"]
    else if shell == "fish" then
      ["if test -r \"" + initPath + "\"", "  source \"" + initPath + "\"", "end"]
    else if shell == "powershell" then
      ["$omdInit = \"" + initPath + "\"", "if (Test-Path $omdInit) {", "  . $omdInit", "}"]
    else []
  }

  /** The first body line of every hook names the init script. */
  lemma HookBodyMentions(shell: string, initPath: string)
    requires IsHookShell(shell)
    ensures Contains(HookBody(shell, initPath)[0], initPath)
  {
    if shell == "powershell" {
      ContainsInMiddle("$omdInit = \"", initPath, "\"");
    } else if shell == "fish" {
      ContainsInMiddle("if test -r \"", initPath, "\"");
    } else {
      ContainsInMiddle("if [ -r \"", initPath, "\" ]; then");
    }
  }

  /** A block: a start marker line, the body lines, an end marker line. */
  function Framed(start: string, body: seq<string>, end: string): seq<string> {
    [start] + body + [end]
  }

  /** The joined block starts with its start marker line and ends with its end marker line. */
  lemma FramedText(start: string, body: seq<string>, end: string)
    ensures HasPrefix(Join(Framed(start, body, end), "\n"), start + "\n")
    ensures HasSuffix(Join(Framed(start, body, end), "\n"), "\n" + end)
  {
    var lines := Framed(start, body, end);
    assert lines[1..] == body + [end];
    assert Join(lines, "\n") == start + "\n" + Join(body + [end], "\n");
    assert lines == ([start] + body) + [end];
    JoinSnoc([start] + body, end, "\n");
  }

  /** `GenerateHook`: the hook block for `shell`, or "" for a shell that has none. */
  function GenerateHook(shell: string, initPath: string): (r: string)
    ensures r == "" <==> !IsHookShell(shell)
    ensures r != "" ==> HasPrefix(r, HookStartMarker + "\n") && HasSuffix(r, "\n" + HookEndMarker)
    ensures r != "" ==> Contains(r, initPath)
  {
    if IsHookShell(shell) then
      var lines := Framed(HookStartMarker, HookBody(shell, initPath), HookEndMarker);
      FramedText(HookStartMarker, HookBody(shell, initPath), HookEndMarker);
      JoinContains(lines, 1, "\n");
      HookBodyMentions(shell, initPath);
      ContainsTrans(Join(lines, "\n"), lines[1], initPath);
      Join(lines, "\n")
    else ""
  }

  /** `GenerateBashLoginShim`: the bash hook's body between the login shim's markers. */
  function GenerateBashLoginShim(bashrcPath: string): (r: string)
    ensures HasPrefix(r, LoginShimStartMarker + "\n") && HasSuffix(r, "\n" + LoginShimEndMarker)
    ensures Contains(r, bashrcPath)
  {
    var lines := Framed(LoginShimStartMarker, HookBody("bash", bashrcPath), LoginShimEndMarker);
    FramedText(LoginShimStartMarker, HookBody("bash", bashrcPath), LoginShimEndMarker);
    JoinContains(lines, 1, "\n");
    ContainsInMiddle("if [ -r \"", bashrcPath, "\" ]; then");
    ContainsTrans(Join(lines, "\n"), lines[1], bashrcPath);
    Join(lines, "\n")
  }

  // ------------------------------------------------------------------ lines

  predicate NoTrailingCR(line: string) {
    line == [] || line[|line| - 1] != '\r'
  }

  /** A line whose trimmed form is one of the hook's markers. */
  predicate IsMarkerLine(line: string) {
    TrimSpace(line) == HookStartMarker || TrimSpace(line) == HookEndMarker
  }

  /** A line whose first non-space character, at `k`, is not `#` is no marker line
      and no comment. */
  lemma NotMarkerLine(line: string, k: nat)
    requires k < |line| && !IsSpace(line[k]) && line[k] != '#'
    requires forall i :: 0 <= i < k ==> IsSpace(line[i])
    ensures !IsMarkerLine(line) && TrimSpace(line) != LoginShimStartMarker
    ensures TrimSpace(line) != "" && !HasPrefix(TrimSpace(line), "#")
  {
    TrimSpaceFirst(line, k);
  }

  /** Each marker is its own trimmed form, starts with `#` and holds no line break. */
  lemma MarkersTrimmed()
    ensures TrimSpace(HookStartMarker) == HookStartMarker
    ensures TrimSpace(HookEndMarker) == HookEndMarker
    ensures TrimSpace(LoginShimStartMarker) == LoginShimStartMarker
    ensures TrimSpace(LoginShimEndMarker) == LoginShimEndMarker
    ensures HookStartMarker != HookEndMarker
    ensures HasPrefix(LoginShimStartMarker, "#")
  {
    assert HookStartMarker[0] == '#' && HookStartMarker[|HookStartMarker| - 1] == '>';
    assert HookEndMarker[0] == '#' && HookEndMarker[|HookEndMarker| - 1] == '<';
    assert LoginShimStartMarker[0] == '#' && LoginShimStartMarker[|LoginShimStartMarker| - 1] == '>';
    assert LoginShimEndMarker[0] == '#' && LoginShimEndMarker[|LoginShimEndMarker| - 1] == '<';
    TrimSpaceId(HookStartMarker);
    TrimSpaceId(HookEndMarker);
    TrimSpaceId(LoginShimStartMarker);
    TrimSpaceId(LoginShimEndMarker);
  }

  lemma HookMarkersTrimmed()
    ensures TrimSpace(HookStartMarker) == HookStartMarker
    ensures TrimSpace(HookEndMarker) == HookEndMarker
  {
    MarkersTrimmed();
  }

  /** A body line: no line break, no carriage return at the end, no marker, no comment. */
  predicate PlainLine(line: string) {
    '\n' !in line && NoTrailingCR(line) && !IsMarkerLine(line)
    && TrimSpace(line) != LoginShimStartMarker && !Skipped(TrimSpace(line))
  }

  /** A line made of a fixed head, a path and a fixed tail is plain when the head's
      first non-space character, at `k`, is not `#`. */
  lemma PathLine(head: string, path: string, tail: string, k: nat)
    requires k < |head| && !IsSpace(head[k]) && head[k] != '#'
    requires forall i :: 0 <= i < k ==> IsSpace(head[i])
    requires '\n' !in head && '\n' !in path && '\n' !in tail
    requires tail != [] && tail[|tail| - 1] != '\r'
    ensures PlainLine(head + path + tail)
  {
    var line := head + path + tail;
    assert line[k] == head[k];
    forall i | 0 <= i < k
      ensures IsSpace(line[i])
    {
      assert line[i] == head[i];
    }
    NotMarkerLine(line, k);
  }

  /** A fixed line is plain when its first non-space character, at `k`, is not `#`. */
  lemma FixedLine(line: string, k: nat)
    requires k < |line| && !IsSpace(line[k]) && line[k] != '#'
    requires forall i :: 0 <= i < k ==> IsSpace(line[i])
    requires '\n' !in line && line[|line| - 1] != '\r'
    ensures PlainLine(line)
  {
    NotMarkerLine(line, k);
  }

  /** Three plain lines make a plain body. */
  lemma PlainBody(body: seq<string>)
    requires |body| >= 3 && PlainLine(body[0]) && PlainLine(body[1]) && PlainLine(body[2])
    requires |body| == 4 ==> PlainLine(body[3])
    requires |body| <= 4
    ensures forall i :: 0 <= i < |body| ==> PlainLine(body[i])
  {
  }

  /** The three lines of a hook that tests the init script and loads it:
      `<test><path><testEnd>`, `<load><path>"` and `<close>`. */
  lemma GuardedBodyLines(test: string, testEnd: string, load: string, close: string, initPath: string)
    requires '\n' !in initPath
    requires test != [] && test[0] != '#' && !IsSpace(test[0]) && '\n' !in test
    requires testEnd != [] && testEnd[|testEnd| - 1] != '\r' && '\n' !in testEnd
    requires |load| > 2 && load[0] == ' ' && load[1] == ' ' && load[2] != '#' && !IsSpace(load[2])
    requires '\n' !in load
    requires close != [] && close[0] != '#' && !IsSpace(close[0]) && '\n' !in close
    requires close[|close| - 1] != '\r'
    ensures var body := [test + initPath + testEnd, load + initPath + "\"", close];
      forall i :: 0 <= i < |body| ==> PlainLine(body[i])
  {
    PathLine(test, initPath, testEnd, 0);
    PathLine(load, initPath, "\"", 2);
    FixedLine(close, 0);
  }

  lemma PsBodyLines(initPath: string)
    requires '\n' !in initPath
    ensures PlainLine("$omdInit = \"" + initPath + "\"")
    ensures PlainLine("if (Test-Path $omdInit) {")
    ensures PlainLine("  . $omdInit")
    ensures PlainLine("}")
  {
    PathLine("$omdInit = \"", initPath, "\"", 0);
    PsFixedLines();
  }

  lemma PsFixedLines()
    ensures PlainLine("if (Test-Path $omdInit) {")
    ensures PlainLine("  . $omdInit")
    ensures PlainLine("}")
  {
    FixedLine("if (Test-Path $omdInit) {", 0);
    FixedLine("  . $omdInit", 2);
    FixedLine("}", 0);
  }

  /** The body lines of every hook are plain, whatever the init path. */
  lemma HookBodyLines(shell: string, initPath: string)
    requires '\n' !in initPath
    ensures forall i :: 0 <= i < |HookBody(shell, initPath)| ==> PlainLine(HookBody(shell, initPath)[i])
  {
    var body := HookBody(shell, initPath);
    if shell == "bash" || shell == "posix" {
      GuardedBodyLines("if [ -r \"", "\" ]; then", "  . \"", "fi", initPath);
    } else if shell == "zsh" {
      GuardedBodyLines("if [ -r \"", "\" ]; then", "  source \"", "fi", initPath);
    } else if shell == "fish" {
      GuardedBodyLines("if test -r \"", "\"", "  source \"", "end", initPath);
    } else if shell == "powershell" {
      PsBodyLines(initPath);
      PlainBody(body);
    }
  }

  /** A block whose marker and body lines are plain single lines reads back as those lines. */
  lemma FramedReadBack(start: string, body: seq<string>, end: string)
    requires '\n' !in start && NoTrailingCR(start) && '\n' !in end && NoTrailingCR(end)
    requires forall i :: 0 <= i < |body| ==> PlainLine(body[i])
    ensures Lines(Join(Framed(start, body, end), "\n") + "\n") == Framed(start, body, end)
  {
    var lines := Framed(start, body, end);
    forall i | 0 <= i < |lines|
      ensures '\n' !in lines[i] && NoTrailingCR(lines[i])
    {
      if 0 < i < |lines| - 1 {
        assert lines[i] == body[i - 1];
        assert PlainLine(body[i - 1]);
      }
    }
    LinesOfJoin(lines);
  }

  /** The scanner reads a generated hook back as its marker and body lines. */
  lemma HookReadBack(shell: string, initPath: string)
    requires IsHookShell(shell) && '\n' !in initPath
    ensures Lines(GenerateHook(shell, initPath) + "\n")
         == Framed(HookStartMarker, HookBody(shell, initPath), HookEndMarker)
  {
    HookBodyLines(shell, initPath);
    FramedReadBack(HookStartMarker, HookBody(shell, initPath), HookEndMarker);
  }

  // ---------------------------------------------------------------- HasHook

  /** Some line, once trimmed, is the hook's start marker. */
  predicate HasStartMarker(lines: seq<string>) {
    exists i :: 0 <= i < |lines| && TrimSpace(lines[i]) == HookStartMarker
  }

  lemma HasStartMarkerSnoc(prev: seq<string>, line: string)
    ensures HasStartMarker(prev + [line]) == (HasStartMarker(prev) || TrimSpace(line) == HookStartMarker)
  {
    var lines := prev + [line];
    if TrimSpace(line) == HookStartMarker {
      assert TrimSpace(lines[|prev|]) == HookStartMarker;
    }
    if HasStartMarker(prev) {
      var j :| 0 <= j < |prev| && TrimSpace(prev[j]) == HookStartMarker;
      assert lines[j] == prev[j];
    }
  }

  /** `HasHook`: whether the profile holds a line that is the start marker once
      trimmed; a missing profile has no hook. */
  method HasHook(file: ProfileFile) returns (r: Result<bool>)
    ensures file.Missing? ==> r == Ok(false)
    ensures file.Unreadable? ==> r == Err(file.reason)
    ensures file.Present? ==> r == Ok(HasStartMarker(Lines(file.content)))
  {
    match file
    case Missing =>
      return Ok(false);
    case Unreadable(reason) =>
      return Err(reason);
    case Present(content) =>
      var lines := Lines(content);
      var i := 0;
      while i < |lines|
        invariant 0 <= i <= |lines|
        invariant forall j :: 0 <= j < i ==> TrimSpace(lines[j]) != HookStartMarker
      {
        if TrimSpace(lines[i]) == HookStartMarker {
          return Ok(true);
        }
        i := i + 1;
      }
      return Ok(false);
  }

  // ------------------------------------------------------------- InsertHook

  /** The profile text with the hook appended: the existing text is kept whole, the
      hook ends the text on a line of its own, and a non-empty profile is separated
      from the hook by a blank line. */
  function Inserted(existing: string, hook: string): (r: string)
    ensures HasPrefix(r, existing) && HasSuffix(r, hook + "\n")
    ensures existing == "" ==> r == hook + "\n"
    ensures existing != "" ==>
      |r| <= |existing| + |hook| + 3 && HasSuffix(r[..|r| - |hook| - 1], "\n\n")
  {
    if existing != "" && !HasSuffix(existing, "\n") then
      var r := existing + "\n\n" + hook + "\n";
      assert r[..|r| - |hook| - 1] == existing + "\n\n";
      r
    else if existing != "" then
      var r := existing + "\n" + hook + "\n";
      assert r[..|r| - |hook| - 1] == existing + "\n";
      r
    else hook + "\n"
  }

  /** Text of a profile that can be read: the empty text when there is none. */
  function ExistingText(file: ProfileFile): string
    requires !file.Unreadable?
  {
    if file.Present? then file.content else ""
  }

  /** `InsertHook`: appends the hook unless the start marker is already there;
      `added` tells whether anything was written. */
  method InsertHook(file: ProfileFile, hook: string) returns (added: Result<bool>, written: Option<string>)
    ensures file.Unreadable? ==>
      added == Err("failed to check for existing hook: " + file.reason) && written == None
    ensures !file.Unreadable? && HasStartMarker(Lines(ExistingText(file))) ==>
      added == Ok(false) && written == None
    ensures !file.Unreadable? && !HasStartMarker(Lines(ExistingText(file))) ==>
      added == Ok(true) && written == Some(Inserted(ExistingText(file), hook))
  {
    var has := HasHook(file);
    if has.Err? {
      return Err("failed to check for existing hook: " + has.msg), None;
    }
    if has.value {
      return Ok(false), None;
    }
    var existing := if file.Present? then file.content else "";
    return Ok(true), Some(Inserted(existing, hook));
  }

  /** The lines of the text after insertion: the profile's lines, one blank line when
      the profile was not empty, then the hook's lines. */
  lemma InsertedLines(existing: string, hook: string)
    ensures Lines(Inserted(existing, hook))
         == (if existing == "" then [] else Lines(existing) + [""]) + Lines(hook + "\n")
  {
    var h := hook + "\n";
    if existing != "" && !HasSuffix(existing, "\n") {
      var a := existing + "\n\n";
      assert Inserted(existing, hook) == a + h;
      assert Lines(a + h) == Lines(a) + Lines(h) by {
        assert HasSuffix(a, "\n");
        LinesAppend(a, h);
      }
      assert Lines(a) == Lines(existing) + [""] by {
        LinesAfterBlankLine(existing);
      }
    } else if existing != "" {
      var a := existing + "\n";
      assert Inserted(existing, hook) == a + h;
      assert Lines(a + h) == Lines(a) + Lines(h) by {
        assert HasSuffix(a, "\n");
        LinesAppend(a, h);
      }
      assert Lines(a) == Lines(existing) + [""] by {
        LinesAfterNewline(existing);
      }
    }
  }

  /** A text that begins with a marker line reads back with that marker first. */
  lemma FirstLineIsMarker(hook: string, marker: string)
    requires HasPrefix(hook, marker + "\n") && '\n' !in marker && NoTrailingCR(marker)
    ensures Lines(hook + "\n") != [] && Lines(hook + "\n")[0] == marker
  {
    var rest := hook[|marker| + 1..];
    assert hook + "\n" == (marker + "\n") + (rest + "\n");
    LinesAppend(marker + "\n", rest + "\n");
    LinesOfJoin([marker]);
    assert Join([marker], "\n") + "\n" == marker + "\n";
  }

  /** A block that begins with a marker line reads back, wherever it is inserted,
      with that marker as one of the lines. */
  lemma InsertedMarkerLine(existing: string, hook: string, marker: string) returns (k: nat)
    requires HasPrefix(hook, marker + "\n") && '\n' !in marker && NoTrailingCR(marker)
    ensures k < |Lines(Inserted(existing, hook))| && Lines(Inserted(existing, hook))[k] == marker
  {
    InsertedLines(existing, hook);
    FirstLineIsMarker(hook, marker);
    var before := if existing == "" then [] else Lines(existing) + [""];
    k := |before|;
  }

  /** Inserting is idempotent: once a hook that starts with the start marker is
      inserted, the profile has the hook, so a second insertion writes nothing. */
  lemma InsertedHasHook(existing: string, hook: string)
    requires HasPrefix(hook, HookStartMarker + "\n")
    ensures HasStartMarker(Lines(Inserted(existing, hook)))
  {
    MarkersTrimmed();
    var k := InsertedMarkerLine(existing, hook, HookStartMarker);
  }

  // ------------------------------------------------------------- RemoveHook

  /** Whether the scan is inside a hook block after `lines`: a start marker opens
      one, an end marker closes it. */
  function InBlockAfter(lines: seq<string>): bool
    decreases |lines|
  {
    if lines == [] then false
    else
      var t := TrimSpace(lines[|lines| - 1]);
      if t == HookStartMarker then true
      else if t == HookEndMarker then false
      else InBlockAfter(lines[..|lines| - 1])
  }

  /** The lines the removal keeps: every line outside a hook block, markers excluded. */
  function KeptLines(lines: seq<string>): (r: seq<string>)
    ensures |r| <= |lines|
    ensures forall i :: 0 <= i < |r| ==> !IsMarkerLine(r[i])
    decreases |lines|
  {
    if lines == [] then []
    else
      var init := lines[..|lines| - 1];
      var last := lines[|lines| - 1];
      var keep := !IsMarkerLine(last) && !InBlockAfter(init);
      KeptLines(init) + (if keep then [last] else [])
  }

  lemma SeqAssoc<T>(a: seq<T>, b: seq<T>, c: seq<T>)
    ensures a + (b + c) == (a + b) + c
  {
  }

  /** One more line: the scan state and the kept lines after it. */
  lemma KeptSnoc(init: seq<string>, last: string)
    ensures InBlockAfter(init + [last])
         == if TrimSpace(last) == HookStartMarker then true
            else if TrimSpace(last) == HookEndMarker then false
            else InBlockAfter(init)
    ensures KeptLines(init + [last])
         == KeptLines(init) + (if !IsMarkerLine(last) && !InBlockAfter(init) then [last] else [])
  {
    var lines := init + [last];
    assert lines[..|lines| - 1] == init && lines[|lines| - 1] == last;
  }

  /** A start marker line is dropped and opens a block. */
  lemma KeptOpensBlock(prev: seq<string>, start: string)
    requires TrimSpace(start) == HookStartMarker
    ensures KeptLines(prev + [start]) == KeptLines(prev) && InBlockAfter(prev + [start])
  {
    KeptSnoc(prev, start);
  }

  /** Inside a block, a line that is no end marker is dropped and the block goes on. */
  lemma KeptInsideBlock(prev: seq<string>, last: string)
    requires InBlockAfter(prev) && TrimSpace(last) != HookEndMarker
    ensures KeptLines(prev + [last]) == KeptLines(prev) && InBlockAfter(prev + [last])
  {
    KeptSnoc(prev, last);
  }

  /** Kept lines are lines of the input, so they hold no line break when the input's lines do not. */
  lemma {:induction false} KeptSingleLines(lines: seq<string>)
    requires forall k :: 0 <= k < |lines| ==> '\n' !in lines[k]
    ensures forall i :: 0 <= i < |KeptLines(lines)| ==> '\n' !in KeptLines(lines)[i]
    decreases |lines|
  {
    if lines != [] {
      var init := lines[..|lines| - 1];
      assert forall k :: 0 <= k < |init| ==> init[k] == lines[k];
      KeptSingleLines(init);
    }
  }

  /** A non-empty text not ending in a newline gets one. */
  function Terminated(s: string): (r: string)
    ensures HasPrefix(r, s) && |r| <= |s| + 1
    ensures r == "" || HasSuffix(r, "\n")
  {
    if s != "" && !HasSuffix(s, "\n") then s + "\n" else s
  }

  /** The text the removal writes: the kept lines, newline-terminated. */
  function RemovedText(lines: seq<string>): string {
    Terminated(Join(KeptLines(lines), "\n"))
  }

  /** `RemoveHook`: drops every hook block; writes only when a start marker was seen. */
  method RemoveHook(file: ProfileFile) returns (r: Outcome, written: Option<string>)
    ensures file.Missing? ==> r == Pass && written == None
    ensures file.Unreadable? ==> r == Fail("failed to open profile: " + file.reason) && written == None
    ensures file.Present? ==> r == Pass
    ensures file.Present? && !HasStartMarker(Lines(file.content)) ==> written == None
    ensures file.Present? && HasStartMarker(Lines(file.content)) ==>
      written == Some(RemovedText(Lines(file.content)))
  {
    match file
    case Missing =>
      return Pass, None;
    case Unreadable(reason) =>
      return Fail("failed to open profile: " + reason), None;
    case Present(content) =>
      var lines := Lines(content);
      var kept: seq<string> := [];
      var inHookBlock := false;
      var hookFound := false;
      var i := 0;
      while i < |lines|
        invariant 0 <= i <= |lines|
        invariant inHookBlock == InBlockAfter(lines[..i])
        invariant kept == KeptLines(lines[..i])
        invariant hookFound == HasStartMarker(lines[..i])
      {
        var line := lines[i];
        var trimmed := TrimSpace(line);
        assert lines[..i + 1] == lines[..i] + [line];
        HasStartMarkerSnoc(lines[..i], line);
        KeptSnoc(lines[..i], line);
        if trimmed == HookStartMarker {
          inHookBlock := true;
          hookFound := true;
        } else if trimmed == HookEndMarker {
          inHookBlock := false;
        } else if !inHookBlock {
          kept := kept + [line];
        }
        i := i + 1;
      }
      assert lines[..|lines|] == lines;
      if !hookFound {
        return Pass, None;
      }
      var text := Join(kept, "\n");
      if text != "" && !HasSuffix(text, "\n") {
        text := text + "\n";
      }
      return Pass, Some(text);
  }

  /** Lines with no marker among them are all kept and leave the scan outside a block. */
  lemma {:induction false} KeptUnmarked(lines: seq<string>)
    requires forall i :: 0 <= i < |lines| ==> !IsMarkerLine(lines[i])
    ensures KeptLines(lines) == lines && !InBlockAfter(lines)
    decreases |lines|
  {
    if lines != [] {
      var n := |lines|;
      var init, last := lines[..n - 1], lines[n - 1];
      assert !IsMarkerLine(last);
      forall k | 0 <= k < |init|
        ensures !IsMarkerLine(init[k])
      {
        assert init[k] == lines[k];
      }
      KeptUnmarked(init);
      assert KeptLines(lines) == init + [last];
      assert init + [last] == lines;
    }
  }

  /** From a start marker on, nothing is kept until an end marker. */
  lemma {:induction false} KeptSkipsBlock(before: seq<string>, start: string, body: seq<string>)
    requires TrimSpace(start) == HookStartMarker
    requires forall i :: 0 <= i < |body| ==> TrimSpace(body[i]) != HookEndMarker
    ensures KeptLines(before + [start] + body) == KeptLines(before)
    ensures InBlockAfter(before + [start] + body)
  {
    KeptOpensBlock(before, start);
    KeptSkipsRest(before + [start], body);
  }

  /** Inside a block, lines without an end marker are all dropped. */
  lemma {:induction false} KeptSkipsRest(prev: seq<string>, body: seq<string>)
    requires InBlockAfter(prev)
    requires forall i :: 0 <= i < |body| ==> TrimSpace(body[i]) != HookEndMarker
    ensures KeptLines(prev + body) == KeptLines(prev) && InBlockAfter(prev + body)
    decreases |body|
  {
    if body == [] {
      assert prev + body == prev;
    } else {
      var rest := body[1..];
      forall k | 0 <= k < |rest|
        ensures TrimSpace(rest[k]) != HookEndMarker
      {
        assert rest[k] == body[k + 1];
      }
      KeptInsideBlock(prev, body[0]);
      KeptSkipsRest(prev + [body[0]], rest);
      assert body == [body[0]] + rest;
      SeqAssoc(prev, [body[0]], rest);
    }
  }

  /** Unmarked lines followed by one hook block keep exactly the unmarked lines. */
  lemma KeptDropsBlock(before: seq<string>, body: seq<string>)
    requires forall i :: 0 <= i < |before| ==> !IsMarkerLine(before[i])
    requires forall i :: 0 <= i < |body| ==> TrimSpace(body[i]) != HookEndMarker
    ensures KeptLines(before + Framed(HookStartMarker, body, HookEndMarker)) == before
  {
    HookMarkersTrimmed();
    KeptUnmarked(before);
    KeptSkipsBlock(before, HookStartMarker, body);
    var init := before + [HookStartMarker] + body;
    SeqAssoc(before, [HookStartMarker] + body, [HookEndMarker]);
    SeqAssoc(before, [HookStartMarker], body);
    KeptSnoc(init, HookEndMarker);
  }

  /** The profile's lines before the hook, blank separator included, carry no marker. */
  lemma BeforeHookUnmarked(existing: string)
    requires forall i :: 0 <= i < |Lines(existing)| ==> !IsMarkerLine(Lines(existing)[i])
    ensures var before := if existing == "" then [] else Lines(existing) + [""];
      forall i :: 0 <= i < |before| ==> !IsMarkerLine(before[i])
  {
    var before := if existing == "" then [] else Lines(existing) + [""];
    MarkersTrimmed();
    TrimSpaceId("");
    forall i | 0 <= i < |before|
      ensures !IsMarkerLine(before[i])
    {
      if i < |Lines(existing)| {
        assert before[i] == Lines(existing)[i];
      }
    }
  }

  /** A profile without markers, with a hook inserted and then removed, reads back as
      its own lines followed by the blank line the insertion added. */
  lemma RemoveUndoesInsertLines(existing: string, shell: string, initPath: string)
    requires IsHookShell(shell) && '\n' !in initPath
    requires forall i :: 0 <= i < |Lines(existing)| ==> !IsMarkerLine(Lines(existing)[i])
    ensures HasStartMarker(Lines(Inserted(existing, GenerateHook(shell, initPath))))
    ensures KeptLines(Lines(Inserted(existing, GenerateHook(shell, initPath))))
         == (if existing == "" then [] else Lines(existing) + [""])
  {
    var hook := GenerateHook(shell, initPath);
    InsertedHasHook(existing, hook);
    InsertedLines(existing, hook);
    HookReadBack(shell, initPath);
    var body := HookBody(shell, initPath);
    HookBodyLines(shell, initPath);
    forall i | 0 <= i < |body|
      ensures TrimSpace(body[i]) != HookEndMarker
    {
      assert PlainLine(body[i]);
    }
    BeforeHookUnmarked(existing);
    KeptDropsBlock(if existing == "" then [] else Lines(existing) + [""], body);
  }

  /** The text written after inserting and removing a hook is the profile's lines,
      newline-terminated. */
  lemma RemoveUndoesInsert(existing: string, shell: string, initPath: string)
    requires IsHookShell(shell) && '\n' !in initPath
    requires forall i :: 0 <= i < |Lines(existing)| ==> !IsMarkerLine(Lines(existing)[i])
    ensures HasStartMarker(Lines(Inserted(existing, GenerateHook(shell, initPath))))
    ensures RemovedText(Lines(Inserted(existing, GenerateHook(shell, initPath))))
         == (if existing == "" then "" else Join(Lines(existing), "\n") + "\n")
  {
    RemoveUndoesInsertLines(existing, shell, initPath);
    if existing != "" {
      LinesNonEmpty(existing);
      TerminatedBlankLine(Lines(existing));
    }
  }

  /** Lines followed by a blank line join to the lines, newline-terminated. */
  lemma TerminatedBlankLine(parts: seq<string>)
    requires parts != []
    ensures Terminated(Join(parts + [""], "\n")) == Join(parts, "\n") + "\n"
  {
    JoinSnoc(parts, "", "\n");
  }

  lemma LinesNonEmpty(s: string)
    requires s != ""
    ensures Lines(s) != []
  {
    SplitSingle(s, '\n');
  }

  /** Re-reading newline-terminated joined lines gives back a prefix of those lines. */
  lemma TerminatedJoinLines(parts: seq<string>)
    requires forall k :: 0 <= k < |parts| ==> '\n' !in parts[k]
    ensures var back := Lines(Terminated(Join(parts, "\n")));
      |back| <= |parts| && forall i :: 0 <= i < |back| ==> back[i] == DropCR(parts[i])
  {
    var n := |parts|;
    if n > 0 && parts[n - 1] != "" {
      JoinLast(parts, '\n');
      LinesOfJoin(parts);
    } else if n > 1 {
      var init := parts[..n - 1];
      assert parts == init + [""];
      JoinSnoc(init, "", "\n");
      forall k | 0 <= k < |init|
        ensures '\n' !in init[k]
      {
        assert init[k] == parts[k];
      }
      LinesOfJoin(init);
    }
  }

  /** After a removal, the profile no longer has the hook. */
  lemma RemovedHasNoHook(content: string)
    ensures !HasStartMarker(Lines(RemovedText(Lines(content))))
  {
    var kept := KeptLines(Lines(content));
    KeptSingleLines(Lines(content));
    TerminatedJoinLines(kept);
    var back := Lines(RemovedText(Lines(content)));
    forall i | 0 <= i < |back|
      ensures TrimSpace(back[i]) != HookStartMarker
    {
      TrimSpaceDropCR(kept[i]);
    }
  }

  // ------------------------------------------------------ bash login shim

  /** A line the login-shim scan passes over: empty, or a comment. */
  predicate Skipped(trimmed: string) {
    trimmed == "" || HasPrefix(trimmed, "#")
  }

  /** A line that sources `.bashrc`. */
  predicate SourcesBashrc(trimmed: string) {
    Contains(trimmed, ".bashrc") && (Contains(trimmed, "source") || Contains(trimmed, ". "))
  }

  /** The condition on which the scan as written stops and reports no shim needed:
      the marker test comes after the comment test. */
  predicate SatisfiedAsWritten(trimmed: string) {
    !Skipped(trimmed) && (SourcesBashrc(trimmed) || trimmed == LoginShimStartMarker)
  }

  /** The intended condition: the shim's marker, or an uncommented line sourcing `.bashrc`. */
  predicate Satisfied(trimmed: string) {
    trimmed == LoginShimStartMarker || (!Skipped(trimmed) && SourcesBashrc(trimmed))
  }

  predicate ShimNeededAsWritten(lines: seq<string>) {
    forall i :: 0 <= i < |lines| ==> !SatisfiedAsWritten(TrimSpace(lines[i]))
  }

  predicate ShimNeeded(lines: seq<string>) {
    forall i :: 0 <= i < |lines| ==> !Satisfied(TrimSpace(lines[i]))
  }

  lemma MarkerIsComment()
    ensures HasPrefix(LoginShimStartMarker, "#")
  {
  }

  /** `NeedsBashLoginShim` as written: a missing profile needs the shim; otherwise the
      first line satisfying `SatisfiedAsWritten` decides that it does not. The source's
      last test, whether the line is the shim's start marker, comes after comment lines
      have been passed over and can never succeed, so the loop has no branch for it; the
      invariant still speaks of `SatisfiedAsWritten`, which includes it. */
  method NeedsBashLoginShimAsWritten(file: ProfileFile) returns (r: Result<bool>)
    ensures file.Missing? ==> r == Ok(true)
    ensures file.Unreadable? ==> r == Err(file.reason)
    ensures file.Present? ==> r == Ok(ShimNeededAsWritten(Lines(file.content)))
  {
    match file
    case Missing =>
      return Ok(true);
    case Unreadable(reason) =>
      return Err(reason);
    case Present(content) =>
      MarkerIsComment();
      var lines := Lines(content);
      var i := 0;
      while i < |lines|
        invariant 0 <= i <= |lines|
        invariant forall j :: 0 <= j < i ==> !SatisfiedAsWritten(TrimSpace(lines[j]))
      {
        var line := TrimSpace(lines[i]);
        if line == "" || HasPrefix(line, "#") {
          i := i + 1;
          continue;
        }
        if Contains(line, ".bashrc") && (Contains(line, "source") || Contains(line, ". ")) {
          return Ok(false);
        }
        i := i + 1;
      }
      return Ok(true);
  }

  /** The marker test as written never decides anything: the marker is a comment. */
  lemma MarkerTestUnreachable(lines: seq<string>)
    ensures ShimNeededAsWritten(lines)
        <==> forall i :: 0 <= i < |lines| ==> Skipped(TrimSpace(lines[i])) || !SourcesBashrc(TrimSpace(lines[i]))
  {
    assert LoginShimStartMarker[0] == '#';
    assert Skipped(LoginShimStartMarker);
  }

  /** `. "p"` with no dot in `p` holds no `.bashrc`. */
  lemma DotLineLacksBashrc(p: string)
    requires '.' !in p
    ensures !Contains("  . \"" + p + "\"", ".bashrc")
  {
    var line := "  . \"" + p + "\"";
    forall i | 0 <= i <= |line| - 7
      ensures !OccursAt(line, ".bashrc", i)
    {
      if i >= 5 {
        assert line[i] == p[i - 5];
      } else if i == 2 {
        assert line[3] == ' ';
        assert line[i..i + 7][1] != ".bashrc"[1];
      } else {
        assert line[i] != '.';
      }
    }
  }

  /** The scanner reads the login shim back as its marker and body lines. */
  lemma ShimReadBack(bashrcPath: string)
    requires '\n' !in bashrcPath
    ensures Lines(GenerateBashLoginShim(bashrcPath) + "\n")
         == Framed(LoginShimStartMarker, HookBody("bash", bashrcPath), LoginShimEndMarker)
  {
    HookBodyLines("bash", bashrcPath);
    FramedReadBack(LoginShimStartMarker, HookBody("bash", bashrcPath), LoginShimEndMarker);
  }

  /** Neither body line of the bash hook sources a `.bashrc` when the path has no dot. */
  lemma BashBodyLacksBashrc(bashrcPath: string, i: nat)
    requires '.' !in bashrcPath && i < 3
    ensures !SourcesBashrc(TrimSpace(HookBody("bash", bashrcPath)[i]))
  {
    var line := HookBody("bash", bashrcPath)[i];
    var t := TrimSpace(line);
    if Contains(t, ".bashrc") {
      TrimSpaceEnds(line);
      ContainsTrans(line, t, ".bashrc");
      if i == 0 {
        ContainsFirstChar(line, ".bashrc");
      } else if i == 1 {
        DotLineLacksBashrc(bashrcPath);
      } else {
        ContainsFirstChar(line, ".bashrc");
      }
    }
  }

  /** Counterexample: a profile holding exactly the shim for a `.bashrc` path without
      a dot (such as `/etc/bashrc`) is still reported as needing the shim, although
      the intended scan sees the shim's marker. */
  lemma ShimAsWrittenMissesOwnShim(bashrcPath: string)
    requires '.' !in bashrcPath && '\n' !in bashrcPath
    ensures var lines := Lines(GenerateBashLoginShim(bashrcPath) + "\n");
      ShimNeededAsWritten(lines) && !ShimNeeded(lines)
  {
    var body := HookBody("bash", bashrcPath);
    ShimReadBack(bashrcPath);
    MarkersTrimmed();
    var lines := Lines(GenerateBashLoginShim(bashrcPath) + "\n");
    assert lines == Framed(LoginShimStartMarker, body, LoginShimEndMarker);
    assert Satisfied(TrimSpace(lines[0]));
    forall i | 0 <= i < |lines|
      ensures !SatisfiedAsWritten(TrimSpace(lines[i]))
    {
      if 0 < i < |lines| - 1 {
        assert lines[i] == body[i - 1];
        BashBodyLacksBashrc(bashrcPath, i - 1);
      }
    }
  }

  /** `NeedsBashLoginShim` as intended: a missing profile needs the shim; otherwise the
      shim's marker or an uncommented line sourcing `.bashrc` means it does not. */
  method NeedsBashLoginShim(file: ProfileFile) returns (r: Result<bool>)
    ensures file.Missing? ==> r == Ok(true)
    ensures file.Unreadable? ==> r == Err(file.reason)
    ensures file.Present? ==> r == Ok(ShimNeeded(Lines(file.content)))
  {
    match file
    case Missing =>
      return Ok(true);
    case Unreadable(reason) =>
      return Err(reason);
    case Present(content) =>
      var lines := Lines(content);
      var i := 0;
      while i < |lines|
        invariant 0 <= i <= |lines|
        invariant forall j :: 0 <= j < i ==> !Satisfied(TrimSpace(lines[j]))
      {
        var line := TrimSpace(lines[i]);
        if line == LoginShimStartMarker {
          return Ok(false);
        }
        if line == "" || HasPrefix(line, "#") {
          i := i + 1;
          continue;
        }
        if Contains(line, ".bashrc") && (Contains(line, "source") || Contains(line, ". ")) {
          return Ok(false);
        }
        i := i + 1;
      }
      return Ok(true);
  }

  /** Once the shim is added to a profile, the intended scan no longer asks for it. */
  lemma ShimInsertedNotNeeded(existing: string, bashrcPath: string)
    ensures !ShimNeeded(Lines(Inserted(existing, GenerateBashLoginShim(bashrcPath))))
  {
    var shim := GenerateBashLoginShim(bashrcPath);
    assert '\n' !in LoginShimStartMarker && NoTrailingCR(LoginShimStartMarker);
    var k := InsertedMarkerLine(existing, shim, LoginShimStartMarker);
    assert Satisfied(TrimSpace(Lines(Inserted(existing, shim))[k])) by {
      MarkersTrimmed();
    }
  }
}
