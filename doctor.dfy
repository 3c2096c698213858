/** `omdot doctor`: the health checks' results, the overall status folded from
    them, the summary counts and the closing tip, and the in-place repair of the
    directory structure in fix mode. What each check inspects on disk is passed in
    as its result. */
module Doctor {
  import opened Wrappers
  import opened GoStrings

  datatype CheckResult = CheckResult(name: string, status: string, message: string, fixable: bool)

  // ------------------------------------------------------------- overall status

  /** One step of the status fold: an error sticks, a warning replaces anything but
      an error. */
  function StatusStep(overall: string, r: CheckResult): string {
    if r.status == "error" then "error"
    else if r.status == "warning" && overall != "error" then "warning"
    else overall
  }

  /** The status after folding over `results` from `overall`. */
  function Fold(overall: string, results: seq<CheckResult>): string
    decreases |results|
  {
    if results == [] then overall
    else StatusStep(Fold(overall, results[..|results| - 1]), results[|results| - 1])
  }

  predicate AnyStatus(results: seq<CheckResult>, status: string) {
    exists i :: 0 <= i < |results| && results[i].status == status
  }

  /** The worst status among the results: error, then warning, else ok. */
  function Worst(results: seq<CheckResult>): (r: string) {
    if AnyStatus(results, "error") then "error"
    else if AnyStatus(results, "warning") then "warning"
    else "ok"
  }

  /** Folding continues over a concatenation. */
  lemma {:induction false} FoldAppend(overall: string, a: seq<CheckResult>, b: seq<CheckResult>)
    ensures Fold(overall, a + b) == Fold(Fold(overall, a), b)
    decreases |b|
  {
    if b == [] {
      assert a + b == a;
    } else {
      assert (a + b)[..|a + b| - 1] == a + b[..|b| - 1];
      FoldAppend(overall, a, b[..|b| - 1]);
    }
  }

  /** The fold started at "ok" finds the worst status. */
  lemma {:induction false} FoldIsWorst(results: seq<CheckResult>)
    ensures Fold("ok", results) == Worst(results)
    decreases |results|
  {
    if results != [] {
      var init := results[..|results| - 1];
      var last := results[|results| - 1];
      FoldIsWorst(init);
      if AnyStatus(init, "error") {
        var i :| 0 <= i < |init| && init[i].status == "error";
        assert results[i].status == "error";
      } else if AnyStatus(init, "warning") {
        var i :| 0 <= i < |init| && init[i].status == "warning";
        assert results[i].status == "warning";
      }
      if AnyStatus(results, "error") && last.status != "error" {
        var i :| 0 <= i < |results| && results[i].status == "error";
        assert init[i].status == "error";
      }
      if AnyStatus(results, "warning") && last.status != "warning" {
        var i :| 0 <= i < |results| && results[i].status == "warning";
        assert init[i].status == "warning";
      }
    }
  }

  /** The status update after one shell's checks. */
  method FoldStatus(overall: string, results: seq<CheckResult>) returns (r: string)
    ensures r == Fold(overall, results)
  {
    r := overall;
    var i := 0;
    while i < |results|
      invariant 0 <= i <= |results| && r == Fold(overall, results[..i])
    {
      assert results[..i + 1][..i] == results[..i];
      if results[i].status == "error" {
        r := "error";
      } else if results[i].status == "warning" && r != "error" {
        r := "warning";
      }
      i := i + 1;
    }
    assert results[..i] == results;
  }

  // ------------------------------------------------------------------- counting

  function CountStatus(results: seq<CheckResult>, status: string): (n: nat)
    ensures n <= |results|
  {
    if results == [] then 0
    else CountStatus(results[..|results| - 1], status) + (if results[|results| - 1].status == status then 1 else 0)
  }

  function CountFixable(results: seq<CheckResult>, status: string): (n: nat)
  {
    if results == [] then 0
    else CountFixable(results[..|results| - 1], status)
         + (if results[|results| - 1].status == status && results[|results| - 1].fixable then 1 else 0)
  }

  datatype Summary = Summary(ok: nat, warnings: nat, errors: nat, fixableErrors: nat, fixableWarnings: nat)

  /** The summary loop of `runDoctor`. */
  method Summarize(results: seq<CheckResult>) returns (s: Summary)
    ensures s == Summary(CountStatus(results, "ok"), CountStatus(results, "warning"), CountStatus(results, "error"),
                         CountFixable(results, "error"), CountFixable(results, "warning"))
  {
    s := Summary(0, 0, 0, 0, 0);
    var i := 0;
    while i < |results|
      invariant 0 <= i <= |results|
      invariant s == Summary(CountStatus(results[..i], "ok"), CountStatus(results[..i], "warning"), CountStatus(results[..i], "error"),
                             CountFixable(results[..i], "error"), CountFixable(results[..i], "warning"))
    {
      assert results[..i + 1][..i] == results[..i];
      var r := results[i];
      if r.status == "ok" {
        s := s.(ok := s.ok + 1);
      } else if r.status == "warning" {
        s := s.(warnings := s.warnings + 1);
        if r.fixable {
          s := s.(fixableWarnings := s.fixableWarnings + 1);
        }
      } else if r.status == "error" {
        s := s.(errors := s.errors + 1);
        if r.fixable {
          s := s.(fixableErrors := s.fixableErrors + 1);
        }
      }
      i := i + 1;
    }
    assert results[..i] == results;
  }

  /** Fixable problems are among the problems of their kind, and every result is
      counted at most once. */
  lemma {:induction false} CountsBounded(results: seq<CheckResult>)
    ensures CountFixable(results, "error") <= CountStatus(results, "error")
    ensures CountFixable(results, "warning") <= CountStatus(results, "warning")
    ensures CountStatus(results, "ok") + CountStatus(results, "warning") + CountStatus(results, "error") <= |results|
    decreases |results|
  {
    if results != [] {
      CountsBounded(results[..|results| - 1]);
    }
  }

  /** There is an error result exactly when the error count is positive. */
  lemma {:induction false} CountPositive(results: seq<CheckResult>, status: string)
    ensures CountStatus(results, status) > 0 <==> AnyStatus(results, status)
    decreases |results|
  {
    if results != [] {
      var init := results[..|results| - 1];
      CountPositive(init, status);
      if AnyStatus(init, status) {
        var i :| 0 <= i < |init| && init[i].status == status;
        assert results[i].status == status;
      }
      if AnyStatus(results, status) && results[|results| - 1].status != status {
        var i :| 0 <= i < |results| && results[i].status == status;
        assert init[i].status == status;
      }
    }
  }

  // ------------------------------------------------------------------------ tip

  /** Shown when only warnings nobody can fix remain. */
  const OptionalWarningsNote: string := "Note: " + "Warnings are optional issues that don't affect functionality"

  /** The closing advice: the `--fix` tip when fixable problems exist and fix mode
      is off, worded after which kinds are fixable; otherwise a note when only
      unfixable warnings remain. */
  function Advice(s: Summary, fix: bool, alias: string): (r: Option<string>)
  {
    if s.fixableErrors + s.fixableWarnings > 0 && !fix then
      if s.fixableErrors > 0 && s.fixableWarnings > 0 then
        Some("Tip: Run '" + alias + " doctor --fix' to automatically fix " + NatToString(s.fixableErrors) + " error(s) and " + NatToString(s.fixableWarnings) + " warning(s)")
      else if s.fixableErrors > 0 then
        Some("Tip: Run '" + alias + " doctor --fix' to automatically fix " + NatToString(s.fixableErrors) + " error(s)")
      else
        Some("Tip: Run '" + alias + " doctor --fix' to automatically fix " + NatToString(s.fixableWarnings) + " warning(s)")
    else if s.warnings > 0 && s.fixableWarnings == 0 then
      Some(OptionalWarningsNote)
    else None
  }

  /** The tip names the fix flag exactly when fixable problems exist and fix mode
      is off; it mentions errors only when fixable errors exist. */
  lemma AdviceCases(s: Summary, fix: bool, alias: string)
    ensures var r := Advice(s, fix, alias);
      && ((r.Some? && HasPrefix(r.value, "Tip:")) <==> s.fixableErrors + s.fixableWarnings > 0 && !fix)
      && (r.Some? && !HasPrefix(r.value, "Tip:") ==> s.warnings > 0 && s.fixableWarnings == 0)
      && (r.None? <==> (s.fixableErrors + s.fixableWarnings == 0 || fix) && !(s.warnings > 0 && s.fixableWarnings == 0))
  {
    if !(s.fixableErrors + s.fixableWarnings > 0 && !fix) && s.warnings > 0 && s.fixableWarnings == 0 {
      assert OptionalWarningsNote[0] == 'N';
    }
  }

  // ------------------------------------------------------------------ runDoctor

  /** The shells examined: the `--shell` list, else the shells with a directory in
      the repository. */
  function ShellsToCheck(flagShell: seq<string>, listed: Result<seq<string>>): (r: Result<seq<string>>)
    ensures flagShell != [] ==> r == Ok(flagShell)
    ensures flagShell == [] && listed.Err? ==> r == Err("failed to list shells: " + listed.msg)
    ensures flagShell == [] && listed.Ok? ==> r == listed
  {
    if |flagShell| > 0 then Ok(flagShell)
    else if listed.Err? then Err("failed to list shells: " + listed.msg)
    else listed
  }

  /** The results of all checks, shell after shell. */
  function AllResults(shells: seq<string>, checkShell: string -> seq<CheckResult>): seq<CheckResult>
  {
    if shells == [] then [] else AllResults(shells[..|shells| - 1], checkShell) + checkShell(shells[|shells| - 1])
  }

  /** `runDoctor`: runs the checks of every shell (`checkShell` gives a shell's
      results), folds the overall status, and fails exactly when some check
      reported an error. */
  method RunDoctor(flagShell: seq<string>, listed: Result<seq<string>>, checkShell: string -> seq<CheckResult>, fix: bool, alias: string)
    returns (r: Outcome, all: seq<CheckResult>, summary: Summary, advice: Option<string>)
    ensures var shells := ShellsToCheck(flagShell, listed);
      && (shells.Err? ==> r == Fail(shells.msg) && all == [])
      && (shells.Ok? && shells.value == [] ==> r == Pass && all == [])
      && (shells.Ok? && shells.value != [] ==>
            && all == AllResults(shells.value, checkShell)
            && summary == Summary(CountStatus(all, "ok"), CountStatus(all, "warning"), CountStatus(all, "error"),
                                  CountFixable(all, "error"), CountFixable(all, "warning"))
            && advice == Advice(summary, fix, alias)
            && (r.Fail? <==> AnyStatus(all, "error"))
            && (r.Fail? ==> r == Fail("health check failed")))
  {
    var shells := ShellsToCheck(flagShell, listed);
    summary := Summary(0, 0, 0, 0, 0);
    advice := None;
    if shells.Err? {
      return Fail(shells.msg), [], summary, advice;
    }
    var toCheck := shells.value;
    if |toCheck| == 0 {
      return Pass, [], summary, advice;
    }
    all := [];
    var overall := "ok";
    var i := 0;
    while i < |toCheck|
      invariant 0 <= i <= |toCheck|
      invariant all == AllResults(toCheck[..i], checkShell)
      invariant overall == Fold("ok", all)
    {
      assert toCheck[..i + 1][..i] == toCheck[..i];
      var results := checkShell(toCheck[i]);
      FoldAppend("ok", all, results);
      all := all + results;
      overall := FoldStatus(overall, results);
      i := i + 1;
    }
    assert toCheck[..i] == toCheck;
    summary := Summarize(all);
    advice := Advice(summary, fix, alias);
    FoldIsWorst(all);
    if overall == "error" {
      return Fail("health check failed"), all, summary, advice;
    }
    return Pass, all, summary, advice;
  }

  // ------------------------------------------------------- checkDirectoryStructure

  /** Records a fixable problem; in fix mode a repair that succeeded turns this
      result, and only this one, into "ok". */
  method RecordFixable(results: seq<CheckResult>, problem: CheckResult, fix: bool, repaired: bool) returns (r: seq<CheckResult>)
    ensures |r| == |results| + 1 && forall k :: 0 <= k < |results| ==> r[k] == results[k]
    ensures r[|results|] == if fix && repaired then problem.(status := "ok") else problem
  {
    r := results + [problem];
    if fix && repaired {
      r := r[|r| - 1 := r[|r| - 1].(status := "ok")];
    }
  }

  /** What the directory check finds on disk, and whether each repair would
      succeed (`mkLibOk`: creating the lib directory succeeds, which it does when
      the directory already exists). */
  datatype DirState = DirState(
    shellDir: bool, featuresDir: bool, libDir: bool, helpersFile: bool,
    mkFeaturesOk: bool, mkLibOk: bool, writeHelpersOk: bool)

  /** `checkDirectoryStructure`: a missing shell directory is an unfixable error
      that ends the check; a missing features directory is a fixable error; a
      missing lib directory or helpers file a fixable warning. */
  method CheckDirectoryStructure(shellDir: string, featuresDir: string, libDir: string, helpersFile: string, st: DirState, fix: bool)
    returns (results: seq<CheckResult>)
    ensures !st.shellDir ==> results == [CheckResult("Shell directory", "error", "Directory missing: " + shellDir, false)]
    ensures st.shellDir ==> |results| == 4 && results[0] == CheckResult("Shell directory", "ok", "", false)
    ensures st.shellDir ==> (results[1].status == "ok" <==> st.featuresDir || (fix && st.mkFeaturesOk))
    ensures st.shellDir ==> (results[2].status == "ok" <==> st.libDir || (fix && st.mkLibOk))
    ensures st.shellDir ==> (results[3].status == "ok" <==> st.helpersFile || (fix && st.mkLibOk && st.writeHelpersOk))
    ensures forall k :: 0 <= k < |results| ==> results[k].status in {"ok", "warning", "error"}
    ensures forall k :: 0 <= k < |results| && results[k].status != "ok" ==> (results[k].fixable <==> k > 0)
  {
    if !st.shellDir {
      return [CheckResult("Shell directory", "error", "Directory missing: " + shellDir, false)];
    }
    results := [CheckResult("Shell directory", "ok", "", false)];
    if !st.featuresDir {
      results := RecordFixable(results, CheckResult("Features directory", "error", "Directory missing: " + featuresDir, true), fix, st.mkFeaturesOk);
    } else {
      results := results + [CheckResult("Features directory", "ok", "", false)];
    }
    if !st.libDir {
      results := RecordFixable(results, CheckResult("Shared lib directory", "warning", "Directory missing: " + libDir + " (optional but recommended)", true), fix, st.mkLibOk);
    } else {
      results := results + [CheckResult("Shared lib directory", "ok", "", false)];
    }
    if !st.helpersFile {
      results := RecordFixable(results, CheckResult("Helpers file", "warning", "File missing: " + helpersFile + " (optional but recommended)", true), fix, st.mkLibOk && st.writeHelpersOk);
    } else {
      results := results + [CheckResult("Helpers file", "ok", "", false)];
    }
  }
}
