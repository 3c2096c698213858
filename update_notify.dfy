/** Remote-update notices: which commands check the remote, the cached result of
    the last check and its 20-minute lifetime, and when a notice is printed. The
    clock, the configuration file and the remote check itself are passed in; the
    goroutine and channel that run the check in the background are replaced by
    the check's outcome, or its absence when it did not arrive in time. */
module UpdateNotify {
  import opened Wrappers
  import Git

  /** How long a cached result stays fresh, in seconds. */
  const UpdateCheckTTLSeconds: int := 20 * 60
  const NanosPerSecond: int := 1_000_000_000

  // ----------------------------------------------------------- command choice

  /** `topLevelCommandName`: `chain` runs from the root command down to the
      invoked one; the walk climbs until the parent is the root. */
  method TopLevelCommandName(chain: seq<string>) returns (name: string)
    requires |chain| >= 1
    ensures name == if |chain| == 1 then chain[0] else chain[1]
  {
    var top := |chain| - 1;
    while top > 0 && top - 1 != 0
      invariant 0 <= top <= |chain| - 1
      invariant |chain| > 1 ==> top >= 1
    {
      top := top - 1;
    }
    name := chain[top];
  }

  /** The commands that look at the remote. */
  predicate ShouldCheckUpdates(top: string) {
    top in {"add", "remove", "apply", "push", "doctor"}
  }

  /** The commands that check in the background: all but `push`, which checks
      before it runs. */
  predicate ShouldUseAsyncCheck(top: string) {
    ShouldCheckUpdates(top) && top != "push"
  }

  lemma AsyncCommands(top: string)
    ensures ShouldUseAsyncCheck(top) <==> top in {"add", "remove", "apply", "doctor"}
    ensures ShouldCheckUpdates(top) <==> ShouldUseAsyncCheck(top) || top == "push"
  {
  }

  // ----------------------------------------------------------------- states

  /** `stateHasRemoteUpdates` on a state as stored. */
  predicate StateHasRemoteUpdates(state: string) {
    state == "remote-ahead" || state == "remote-significantly-ahead" || state == "diverged"
  }

  /** The stored test agrees with the test on states, and holds for no text that
      names no state. */
  lemma StoredTestAgrees(s: Git.SyncState, text: string)
    ensures StateHasRemoteUpdates(Git.StateName(s)) == Git.HasRemoteUpdates(s)
    ensures Git.ParseState(text).None? ==> !StateHasRemoteUpdates(text)
  {
  }

  /** `printUpdateAvailableNotice`: the message for each state; none when up to date. */
  function Notice(state: string, alias: string): (r: Option<string>)
    ensures r.Some? <==> StateHasRemoteUpdates(state) || state == "local-ahead"
  {
    if state == "remote-ahead" then
      Some("Remote updates are available. Run '" + alias + " pull' to update your local dotfiles repository.")
    else if state == "remote-significantly-ahead" then
      Some("Local repository is 100+ commits behind remote. Run '" + alias + " pull' to update your local dotfiles repository.")
    else if state == "diverged" then
      Some("Local and remote history diverged. Run '" + alias + " pull' and resolve conflicts if prompted.")
    else if state == "local-ahead" then
      Some("Local repository is ahead of remote. You can run '" + alias + " push' to publish local commits.")
    else None
  }

  /** Every state but up-to-date has a notice. */
  lemma NoticeForEveryChange(s: Git.SyncState, alias: string)
    ensures Notice(Git.StateName(s), alias).Some? <==> s != Git.UpToDate
  {
  }

  /** `lastChecked` (seconds since the epoch) is set and less than the lifetime
      before `nowNanos` (nanoseconds since the epoch). */
  predicate Fresh(lastChecked: int, nowNanos: int) {
    lastChecked > 0 && nowNanos - lastChecked * NanosPerSecond < UpdateCheckTTLSeconds * NanosPerSecond
  }

  /** A check cached at a positive time stays fresh for strictly less than 20
      minutes after it. */
  lemma FreshWindow(lastChecked: int, nowNanos: int)
    requires lastChecked > 0
    ensures nowNanos <= lastChecked * NanosPerSecond ==> Fresh(lastChecked, nowNanos)
    ensures Fresh(lastChecked, nowNanos) <==> nowNanos < (lastChecked + UpdateCheckTTLSeconds) * NanosPerSecond
  {
  }

  /** The cached state, with an unnamed state but a set flag read as remote-ahead. */
  function EffectiveState(state: string, hasUpdates: bool): (r: string)
    ensures state != "" ==> r == state
    ensures StateHasRemoteUpdates(r) <==> StateHasRemoteUpdates(state) || (state == "" && hasUpdates)
  {
    if state == "" && hasUpdates then "remote-ahead" else state
  }

  // ---------------------------------------------------------------- notifier

  /** The three cached configuration values and the per-run state of the
      background check. `pendingCheckedAt` is the time the pending check will
      record. */
  class Notifier {
    var lastChecked: int
    var state: string
    var hasUpdates: bool
    var pending: bool
    var pendingCheckedAt: int
    var immediateNotice: bool

    constructor (lastChecked: int, state: string, hasUpdates: bool)
      ensures this.lastChecked == lastChecked && this.state == state && this.hasUpdates == hasUpdates
      ensures !pending && !immediateNotice
    {
      this.lastChecked := lastChecked;
      this.state := state;
      this.hasUpdates := hasUpdates;
      pending := false;
      pendingCheckedAt := 0;
      immediateNotice := false;
    }

    /** The cached values agree with one another. */
    predicate Consistent()
      reads this
    {
      hasUpdates == StateHasRemoteUpdates(state)
    }

    /** `cacheUpdateCheckResult`: the time, the state and whether it asks for a pull. */
    method Cache(s: Git.SyncState, checkedAt: int)
      modifies this
      ensures lastChecked == checkedAt && state == Git.StateName(s) && hasUpdates == Git.HasRemoteUpdates(s)
      ensures Consistent() && EffectiveState(state, hasUpdates) == Git.StateName(s)
      ensures pending == old(pending) && pendingCheckedAt == old(pendingCheckedAt) && immediateNotice == old(immediateNotice)
    {
      lastChecked := checkedAt;
      state := Git.StateName(s);
      hasUpdates := Git.HasRemoteUpdates(s);
      StoredTestAgrees(s, state);
    }

    /** `StartAsyncUpdateCheck`: nothing for other commands or without a
      repository; a fresh cache starts no check and asks for an immediate notice
      when it records remote updates; otherwise a check is started. */
    method StartAsync(top: string, repoOk: bool, nowNanos: int)
      modifies this
      ensures lastChecked == old(lastChecked) && state == old(state) && hasUpdates == old(hasUpdates)
      ensures !ShouldUseAsyncCheck(top) || !repoOk ==>
        pending == old(pending) && pendingCheckedAt == old(pendingCheckedAt) && immediateNotice == old(immediateNotice)
      ensures ShouldUseAsyncCheck(top) && repoOk && Fresh(old(lastChecked), nowNanos) ==>
        && pending == old(pending) && pendingCheckedAt == old(pendingCheckedAt)
        && immediateNotice == (old(immediateNotice) || StateHasRemoteUpdates(EffectiveState(old(state), old(hasUpdates))))
      ensures ShouldUseAsyncCheck(top) && repoOk && !Fresh(old(lastChecked), nowNanos) ==>
        pending && pendingCheckedAt == nowNanos / NanosPerSecond && !immediateNotice
    {
      if !ShouldUseAsyncCheck(top) || !repoOk {
        return;
      }
      if Fresh(lastChecked, nowNanos) {
        var cached := EffectiveState(state, hasUpdates);
        if StateHasRemoteUpdates(cached) {
          immediateNotice := true;
        }
        return;
      }
      pending := true;
      pendingCheckedAt := nowNanos / NanosPerSecond;
      immediateNotice := false;
    }

    /** `FinishAsyncUpdateCheck`: `arrived` is the background check's outcome,
      or `None` when it did not arrive in time. The per-run state is cleared; an
      immediate notice is given from the cache; an arrived result is cached and
      given as a notice when it asks for a pull. */
    method FinishAsync(top: string, arrived: Option<Result<Git.SyncState>>, alias: string) returns (notice: Option<string>)
      modifies this
      ensures !ShouldUseAsyncCheck(top) ==> notice.None? && unchanged(this)
      ensures ShouldUseAsyncCheck(top) ==> !pending && !immediateNotice
      ensures ShouldUseAsyncCheck(top) && old(immediateNotice) ==>
        && lastChecked == old(lastChecked) && state == old(state) && hasUpdates == old(hasUpdates)
        && var cached := EffectiveState(old(state), old(hasUpdates));
           notice == if StateHasRemoteUpdates(cached) then Notice(cached, alias) else None
      ensures ShouldUseAsyncCheck(top) && !old(immediateNotice) && old(pending) && arrived.Some? && arrived.value.Ok? ==>
        && lastChecked == old(pendingCheckedAt) && state == Git.StateName(arrived.value.value) && Consistent()
        && (notice.Some? <==> Git.HasRemoteUpdates(arrived.value.value))
        && (notice.Some? ==> notice == Notice(state, alias))
      ensures ShouldUseAsyncCheck(top) && !old(immediateNotice) && !(old(pending) && arrived.Some? && arrived.value.Ok?) ==>
        notice.None? && lastChecked == old(lastChecked) && state == old(state) && hasUpdates == old(hasUpdates)
    {
      notice := None;
      if !ShouldUseAsyncCheck(top) {
        return;
      }
      var wasImmediate, wasPending, checkedAt := immediateNotice, pending, pendingCheckedAt;
      pending, immediateNotice, pendingCheckedAt := false, false, 0;
      if wasImmediate {
        var cached := EffectiveState(state, hasUpdates);
        if StateHasRemoteUpdates(cached) {
          notice := Notice(cached, alias);
        }
        return;
      }
      if !wasPending || arrived.None? || arrived.value.Err? {
        return;
      }
      var s := arrived.value.value;
      Cache(s, checkedAt);
      StoredTestAgrees(s, state);
      if Git.HasRemoteUpdates(s) {
        notice := Notice(state, alias);
      }
    }

    /** `WarnIfRemoteUpdatesSync`: for `push` only, the remote is checked first;
      a result is cached and given as a notice when it asks for a pull or the
      local branch is ahead. */
    method WarnSync(top: string, repoOk: bool, checked: Result<Git.SyncState>, nowNanos: int, alias: string) returns (notice: Option<string>)
      modifies this
      ensures pending == old(pending) && pendingCheckedAt == old(pendingCheckedAt) && immediateNotice == old(immediateNotice)
      ensures !(ShouldCheckUpdates(top) && top == "push" && repoOk && checked.Ok?) ==> notice.None? && unchanged(this)
      ensures ShouldCheckUpdates(top) && top == "push" && repoOk && checked.Ok? ==>
        && lastChecked == nowNanos / NanosPerSecond && state == Git.StateName(checked.value) && Consistent()
        && (notice.Some? <==> checked.value != Git.UpToDate)
        && notice == Notice(state, alias)
    {
      notice := None;
      if !ShouldCheckUpdates(top) || top != "push" || !repoOk || checked.Err? {
        return;
      }
      var s := checked.value;
      Cache(s, nowNanos / NanosPerSecond);
      if Git.HasRemoteUpdates(s) || s == Git.LocalAhead {
        notice := Notice(state, alias);
      }
      NoticeForEveryChange(s, alias);
    }
  }
}
