/** The local/remote relationship of the dotfiles repository's current branch:
    the bounded ancestor search over the commit graph, the five-way classification
    built on it, and the small path and error predicates of the git layer. The
    commit graph is given as a map from a commit's hash to its parents' hashes;
    a hash missing from the map is a commit object the repository does not hold. */
module Git {
  import opened Wrappers
  import opened GoStrings
  import GoPaths

  type Hash = string

  /** What go-git reports for a commit object the repository does not hold. */
  const ObjectNotFound: string := "object not found"

  /** The search budget used for both directions of the comparison. */
  const MaxAncestorSearchDepth: int := 100

  // ------------------------------------------------------------ reachability

  /** `p` walks from commit to parent, every step inside the graph. */
  predicate IsPath(graph: map<Hash, seq<Hash>>, p: seq<Hash>) {
    p != []
    && (forall i :: 0 <= i < |p| - 1 ==> p[i] in graph && p[i + 1] in graph[p[i]])
  }

  /** `target` is `start` or one of its ancestors. */
  ghost predicate Reaches(graph: map<Hash, seq<Hash>>, start: Hash, target: Hash) {
    exists p :: IsPath(graph, p) && p[0] == start && p[|p| - 1] == target
  }

  /** A path extended by one parent step is a path. */
  lemma PathSnoc(graph: map<Hash, seq<Hash>>, p: seq<Hash>, parent: Hash)
    requires IsPath(graph, p) && p[|p| - 1] in graph && parent in graph[p[|p| - 1]]
    ensures IsPath(graph, p + [parent])
  {
    var q := p + [parent];
    forall i | 0 <= i < |q| - 1
      ensures q[i] in graph && q[i + 1] in graph[q[i]]
    {
      if i < |p| - 1 {
        assert q[i] == p[i] && q[i + 1] == p[i + 1];
      }
    }
  }

  /** A set that holds the start, holds only commits of the graph, and holds the
      parents of all its members, holds every commit a path from the start reaches. */
  lemma {:induction false} ClosedSetHoldsPath(graph: map<Hash, seq<Hash>>, closed: set<Hash>, p: seq<Hash>)
    requires IsPath(graph, p) && p[0] in closed
    requires forall v :: v in closed ==> v in graph && forall q :: q in graph[v] ==> q in closed
    ensures p[|p| - 1] in closed
    decreases |p|
  {
    if |p| > 1 {
      var init := p[..|p| - 1];
      assert IsPath(graph, init) by {
        forall i | 0 <= i < |init| - 1
          ensures init[i] in graph && init[i + 1] in graph[init[i]]
        {
          assert init[i] == p[i] && init[i + 1] == p[i + 1];
        }
      }
      ClosedSetHoldsPath(graph, closed, init);
      assert p[|p| - 2] == init[|init| - 1];
    }
  }

  // ------------------------------------------------- commitContainsAncestor

  /** The outcome of a search: the target was found, the budget ran out, or the
      reachable commits were exhausted without finding it. */
  datatype SearchOutcome = Found | DepthExceeded | Exhausted

  /** Every commit `paths` records is reached from `start` along its recorded path. */
  ghost predicate Witnessed(graph: map<Hash, seq<Hash>>, start: Hash, paths: map<Hash, seq<Hash>>) {
    forall v :: v in paths ==> IsPath(graph, paths[v]) && paths[v][0] == start && paths[v][|paths[v]| - 1] == v
  }

  /** Every commit on the stack is in the graph and has a recorded path. */
  ghost predicate Tracked(graph: map<Hash, seq<Hash>>, paths: map<Hash, seq<Hash>>, stack: seq<Hash>) {
    forall i :: 0 <= i < |stack| ==> stack[i] in graph && stack[i] in paths
  }

  /** The parents of every visited commit, other than `current`, are visited or
      still waiting on the stack. */
  ghost predicate ClosedBut(graph: map<Hash, seq<Hash>>, visited: set<Hash>, stack: seq<Hash>, current: Option<Hash>) {
    forall v :: v in visited && v in graph && Some(v) != current ==>
      forall q :: q in graph[v] ==> q in visited || q in stack
  }

  /** Pushes the parents of `current` in their order, failing on the first parent
      the repository does not hold. */
  method PushParents(graph: map<Hash, seq<Hash>>, current: Hash, stack: seq<Hash>)
    returns (ok: bool, stack': seq<Hash>)
    requires current in graph
    ensures ok <==> forall q :: q in graph[current] ==> q in graph
    ensures ok ==> stack' == stack + graph[current]
  {
    var parents := graph[current];
    stack' := stack;
    var i := 0;
    while i < |parents|
      invariant 0 <= i <= |parents|
      invariant stack' == stack + parents[..i]
      invariant forall k :: 0 <= k < i ==> parents[k] in graph
    {
      var parent := parents[i];
      if parent !in graph {
        return false, stack';
      }
      stack' := stack' + [parent];
      i := i + 1;
    }
    assert parents[..i] == parents;
    ok := true;
  }

  /** The search continued from a state of its loop: the stack of commits still to
      inspect (the top at the end), the commits already visited, and the count of
      commits inspected so far. */
  function Search(graph: map<Hash, seq<Hash>>, target: Hash, maxDepth: int,
                  stack: seq<Hash>, visited: set<Hash>, inspected: nat): (r: Result<SearchOutcome>)
    requires forall i :: 0 <= i < |stack| ==> stack[i] in graph
    ensures r.Err? ==> r.msg == "failed to iterate commit parents: " + ObjectNotFound
    decreases graph.Keys - visited, |stack|
  {
    if stack == [] then Ok(Exhausted)
    else if maxDepth > 0 && inspected >= maxDepth then Ok(DepthExceeded)
    else
      var current := stack[|stack| - 1];
      var rest := stack[..|stack| - 1];
      if current == target then Ok(Found)
      else if current in visited then Search(graph, target, maxDepth, rest, visited, inspected + 1)
      else if forall q :: q in graph[current] ==> q in graph then
        assert current in graph.Keys - visited;
        Search(graph, target, maxDepth, rest + graph[current], visited + {current}, inspected + 1)
      else Err("failed to iterate commit parents: " + ObjectNotFound)
  }

  /** The outcome of the whole search from `start`. */
  function SearchFrom(graph: map<Hash, seq<Hash>>, start: Hash, target: Hash, maxDepth: int): (r: Result<SearchOutcome>)
    requires start in graph
    ensures start == target ==> r == Ok(Found)
  {
    Search(graph, target, maxDepth, [start], {}, 0)
  }

  /** Every commit reachable from `start` is held by the repository together with
      all its parents, so walking the parents never fails. */
  ghost predicate ParentsHeld(graph: map<Hash, seq<Hash>>, start: Hash) {
    forall v :: Reaches(graph, start, v) ==> v in graph && forall q :: q in graph[v] ==> q in graph
  }

  /** What holds of every state the search passes through: each stacked and each
      visited commit is reached from the start along a recorded path, the target
      has not been visited, and the parents of visited commits are visited or stacked. */
  ghost predicate SearchState(graph: map<Hash, seq<Hash>>, start: Hash, target: Hash,
                              stack: seq<Hash>, visited: set<Hash>, paths: map<Hash, seq<Hash>>) {
    && Tracked(graph, paths, stack) && Witnessed(graph, start, paths)
    && visited <= graph.Keys && visited <= paths.Keys
    && target !in visited
    && (start in visited || start in stack)
    && ClosedBut(graph, visited, stack, None)
  }

  /** Recording a path to every parent of a commit that has one. */
  lemma ExtendPaths(graph: map<Hash, seq<Hash>>, start: Hash, current: Hash, stack: seq<Hash>, paths: map<Hash, seq<Hash>>)
    returns (paths': map<Hash, seq<Hash>>)
    requires current in graph && current in paths
    requires forall q :: q in graph[current] ==> q in graph
    requires Witnessed(graph, start, paths) && Tracked(graph, paths, stack)
    ensures Witnessed(graph, start, paths') && paths.Keys <= paths'.Keys
    ensures Tracked(graph, paths', stack + graph[current])
  {
    var parents := graph[current];
    paths' := paths;
    var i := 0;
    while i < |parents|
      invariant 0 <= i <= |parents|
      invariant Witnessed(graph, start, paths') && paths.Keys <= paths'.Keys
      invariant Tracked(graph, paths', stack + parents[..i])
    {
      var parent := parents[i];
      if parent !in paths' {
        PathSnoc(graph, paths'[current], parent);
        paths' := paths'[parent := paths'[current] + [parent]];
      }
      assert stack + parents[..i + 1] == (stack + parents[..i]) + [parent];
      i := i + 1;
    }
    assert parents[..i] == parents;
  }

  /** The commit on top of the stack of a search state is held and reached. */
  lemma TopState(graph: map<Hash, seq<Hash>>, start: Hash, target: Hash,
                 stack: seq<Hash>, visited: set<Hash>, paths: map<Hash, seq<Hash>>)
    requires SearchState(graph, start, target, stack, visited, paths) && stack != []
    ensures stack[|stack| - 1] in graph && stack[|stack| - 1] in paths
    ensures WalksTo(graph, paths[stack[|stack| - 1]], start, stack[|stack| - 1])
  {
  }

  /** Popping a commit already visited leaves a search state. */
  lemma PopVisitedState(graph: map<Hash, seq<Hash>>, start: Hash, target: Hash,
                        stack: seq<Hash>, visited: set<Hash>, paths: map<Hash, seq<Hash>>)
    requires SearchState(graph, start, target, stack, visited, paths) && stack != []
    requires stack[|stack| - 1] in visited
    ensures SearchState(graph, start, target, stack[..|stack| - 1], visited, paths)
  {
    var rest, current := stack[..|stack| - 1], stack[|stack| - 1];
    assert stack == rest + [current];
    assert start in visited || start in rest + [current];
    ClosedAfterPop(graph, visited, rest, current);
  }

  /** Visiting a new commit that is not the target and pushing its parents leaves a
      search state, once a path to each parent is recorded. */
  lemma VisitState(graph: map<Hash, seq<Hash>>, start: Hash, target: Hash,
                   stack: seq<Hash>, visited: set<Hash>, paths: map<Hash, seq<Hash>>)
    returns (paths': map<Hash, seq<Hash>>)
    requires SearchState(graph, start, target, stack, visited, paths) && stack != []
    requires stack[|stack| - 1] !in visited && stack[|stack| - 1] != target && stack[|stack| - 1] in graph
    requires forall q :: q in graph[stack[|stack| - 1]] ==> q in graph
    ensures SearchState(graph, start, target, stack[..|stack| - 1] + graph[stack[|stack| - 1]],
                        visited + {stack[|stack| - 1]}, paths')
  {
    var rest, current := stack[..|stack| - 1], stack[|stack| - 1];
    assert stack == rest + [current];
    assert forall i :: 0 <= i < |rest| ==> rest[i] == stack[i];
    ClosedAfterVisit(graph, visited, rest, current);
    paths' := ExtendPaths(graph, start, current, rest, paths);
    assert start in visited || start in rest + [current];
  }

  /** `p` walks from `start` to `v`. */
  ghost predicate WalksTo(graph: map<Hash, seq<Hash>>, p: seq<Hash>, start: Hash, v: Hash) {
    IsPath(graph, p) && p[0] == start && p[|p| - 1] == v
  }

  /** `closed` holds the start but not the target, and every parent of its members. */
  ghost predicate Sealed(graph: map<Hash, seq<Hash>>, start: Hash, target: Hash, closed: set<Hash>) {
    closed <= graph.Keys && start in closed && target !in closed && ClosedBut(graph, closed, [], None)
  }

  /** The search from every state it passes through leaves evidence for its outcome:
      a walk to the target it finds, a sealed set of commits when it exhausts the
      graph, and a walk to a commit with a parent the repository lacks when it fails. */
  lemma {:induction false} SearchSound(graph: map<Hash, seq<Hash>>, start: Hash, target: Hash, maxDepth: int,
                                       stack: seq<Hash>, visited: set<Hash>, inspected: nat, paths: map<Hash, seq<Hash>>)
    returns (p: seq<Hash>, closed: set<Hash>)
    requires SearchState(graph, start, target, stack, visited, paths)
    ensures Search(graph, target, maxDepth, stack, visited, inspected) == Ok(Found) ==> WalksTo(graph, p, start, target)
    ensures Search(graph, target, maxDepth, stack, visited, inspected) == Ok(Exhausted) ==> Sealed(graph, start, target, closed)
    ensures Search(graph, target, maxDepth, stack, visited, inspected).Err? ==>
      p != [] && WalksTo(graph, p, start, p[|p| - 1]) && p[|p| - 1] in graph
      && !(forall q :: q in graph[p[|p| - 1]] ==> q in graph)
    decreases graph.Keys - visited, |stack|
  {
    p, closed := [start], visited;
    if stack == [] {
      assert start in visited;
    } else if !(maxDepth > 0 && inspected >= maxDepth) {
      TopState(graph, start, target, stack, visited, paths);
      var current, rest := stack[|stack| - 1], stack[..|stack| - 1];
      p := paths[current];
      if current == target {
      } else if current in visited {
        PopVisitedState(graph, start, target, stack, visited, paths);
        p, closed := SearchSound(graph, start, target, maxDepth, rest, visited, inspected + 1, paths);
      } else if forall q :: q in graph[current] ==> q in graph {
        var paths' := VisitState(graph, start, target, stack, visited, paths);
        p, closed := SearchSound(graph, start, target, maxDepth, rest + graph[current], visited + {current}, inspected + 1, paths');
      }
    }
  }

  /** The soundness of the whole search from `start`: a target it finds is an
      ancestor, a target it exhausts the graph without finding is none, and it fails
      only on a reachable commit with a parent the repository lacks. */
  lemma SearchFromSound(graph: map<Hash, seq<Hash>>, start: Hash, target: Hash, maxDepth: int)
    requires start in graph
    ensures SearchFrom(graph, start, target, maxDepth) == Ok(Found) ==> Reaches(graph, start, target)
    ensures SearchFrom(graph, start, target, maxDepth) == Ok(Exhausted) ==> !Reaches(graph, start, target)
    ensures ParentsHeld(graph, start) ==> SearchFrom(graph, start, target, maxDepth).Ok?
  {
    var paths := map[start := [start]];
    assert IsPath(graph, paths[start]);
    var p, closed := SearchSound(graph, start, target, maxDepth, [start], {}, 0, paths);
    var r := SearchFrom(graph, start, target, maxDepth);
    if r == Ok(Exhausted) {
      ExhaustedUnreachable(graph, start, target, closed);
    } else if r.Err? {
      MissingParentNotHeld(graph, start, p[|p| - 1], p);
    }
  }

  /** `commitContainsAncestor`: a depth-first search from `start` with an explicit
      stack, a visited set and a count of inspected commits. With `maxDepth > 0` at
      most `maxDepth` commits are inspected; the visited set makes the search end on
      every finite graph whatever the budget. `inspected` is that count. */
  method CommitContainsAncestor(graph: map<Hash, seq<Hash>>, start: Hash, target: Hash, maxDepth: int)
    returns (r: Result<SearchOutcome>, inspected: nat)
    requires start in graph
    ensures r == SearchFrom(graph, start, target, maxDepth)
    ensures r == Ok(Found) ==> Reaches(graph, start, target)
    ensures r == Ok(Exhausted) ==> !Reaches(graph, start, target)
    ensures r == Ok(DepthExceeded) ==> maxDepth > 0 && inspected == maxDepth
    ensures maxDepth > 0 ==> inspected <= maxDepth
    ensures start == target ==> r == Ok(Found) && inspected == 1
    ensures r.Err? ==> r.msg == "failed to iterate commit parents: " + ObjectNotFound
    ensures ParentsHeld(graph, start) ==> r.Ok?
    ensures maxDepth <= 0 && ParentsHeld(graph, start) ==> (r == Ok(Found) <==> Reaches(graph, start, target))
  {
    SearchFromSound(graph, start, target, maxDepth);
    var visited: set<Hash> := {};
    var stack: seq<Hash> := [start];
    inspected := 0;
    while |stack| > 0
      invariant forall i :: 0 <= i < |stack| ==> stack[i] in graph
      invariant Search(graph, target, maxDepth, stack, visited, inspected) == SearchFrom(graph, start, target, maxDepth)
      invariant maxDepth > 0 ==> inspected <= maxDepth
      invariant start == target ==> inspected == 0 && stack == [start]
      decreases graph.Keys - visited, |stack|
    {
      if maxDepth > 0 && inspected >= maxDepth {
        return Ok(DepthExceeded), inspected;
      }
      var current := stack[|stack| - 1];
      stack := stack[..|stack| - 1];
      inspected := inspected + 1;
      if current == target {
        return Ok(Found), inspected;
      }
      if current in visited {
        continue;
      }
      visited := visited + {current};
      var ok;
      ok, stack := PushParents(graph, current, stack);
      if !ok {
        return Err("failed to iterate commit parents: " + ObjectNotFound), inspected;
      }
    }
    return Ok(Exhausted), inspected;
  }

  /** A commit reached from the start with a parent the repository does not hold
      means the reachable commits are not all held with their parents. */
  lemma MissingParentNotHeld(graph: map<Hash, seq<Hash>>, start: Hash, current: Hash, p: seq<Hash>)
    requires IsPath(graph, p) && p[0] == start && p[|p| - 1] == current
    requires current in graph && !(forall q :: q in graph[current] ==> q in graph)
    ensures !ParentsHeld(graph, start)
  {
    assert Reaches(graph, start, current);
  }

  /** Popping a commit already visited keeps the visited set closed. */
  lemma ClosedAfterPop(graph: map<Hash, seq<Hash>>, visited: set<Hash>, stack: seq<Hash>, current: Hash)
    requires ClosedBut(graph, visited, stack + [current], None) && current in visited
    ensures ClosedBut(graph, visited, stack, None)
  {
    forall v, q | v in visited && v in graph && q in graph[v]
      ensures q in visited || q in stack
    {
      assert q in visited || q in stack + [current];
    }
  }

  /** Visiting a popped commit and pushing its parents keeps the visited set closed. */
  lemma ClosedAfterVisit(graph: map<Hash, seq<Hash>>, visited: set<Hash>, stack: seq<Hash>, current: Hash)
    requires ClosedBut(graph, visited, stack + [current], None) && current in graph
    ensures ClosedBut(graph, visited + {current}, stack + graph[current], None)
  {
    forall v, q | v in visited + {current} && v in graph && q in graph[v]
      ensures q in visited + {current} || q in stack + graph[current]
    {
      if v != current {
        assert q in visited || q in stack + [current];
      }
    }
  }

  /** A search that ends with an empty stack has visited every commit reachable
      from the start, so a target it did not visit is unreachable. */
  lemma ExhaustedUnreachable(graph: map<Hash, seq<Hash>>, start: Hash, target: Hash, visited: set<Hash>)
    requires visited <= graph.Keys && start in visited && target !in visited
    requires ClosedBut(graph, visited, [], None)
    ensures !Reaches(graph, start, target)
  {
    forall p | IsPath(graph, p) && p[0] == start
      ensures p[|p| - 1] in visited
    {
      ClosedSetHoldsPath(graph, visited, p);
    }
  }

  // ------------------------------------------------------ GetRemoteSyncState

  datatype SyncState = UpToDate | RemoteAhead | RemoteSignificantlyAhead | LocalAhead | Diverged

  /** The text each state is stored and compared as. */
  function StateName(s: SyncState): (r: string)
    ensures r != ""
  {
    match s
    case UpToDate => "up-to-date"
    case RemoteAhead => "remote-ahead"
    case RemoteSignificantlyAhead => "remote-significantly-ahead"
    case LocalAhead => "local-ahead"
    case Diverged => "diverged"
  }

  /** Reading a stored name back as a state; any other text is no state. */
  function ParseState(name: string): (r: Option<SyncState>)
    ensures r.Some? ==> StateName(r.value) == name
  {
    if name == "up-to-date" then Some(UpToDate)
    else if name == "remote-ahead" then Some(RemoteAhead)
    else if name == "remote-significantly-ahead" then Some(RemoteSignificantlyAhead)
    else if name == "local-ahead" then Some(LocalAhead)
    else if name == "diverged" then Some(Diverged)
    else None
  }

  /** A stored state reads back as itself, so the names are distinct. */
  lemma StateNameRoundTrip(s: SyncState)
    ensures ParseState(StateName(s)) == Some(s)
  {
  }

  /** The classification part of `GetRemoteSyncState`, once the branch's local and
      remote hashes are known. */
  method GetRemoteSyncState(graph: map<Hash, seq<Hash>>, localHash: Hash, remoteHash: Hash) returns (r: Result<SyncState>)
    ensures r == Ok(UpToDate) <==> remoteHash == localHash
    ensures remoteHash != localHash && remoteHash !in graph ==> r == Ok(RemoteAhead)
    ensures remoteHash != localHash && remoteHash in graph && localHash !in graph ==>
      r == Err("failed to inspect local commit " + localHash + ": " + ObjectNotFound)
    ensures r == Ok(RemoteAhead) && remoteHash in graph ==> Reaches(graph, remoteHash, localHash)
    ensures r == Ok(Diverged) ==> !Reaches(graph, remoteHash, localHash) && !Reaches(graph, localHash, remoteHash)
    ensures r == Ok(LocalAhead) ==> !Reaches(graph, remoteHash, localHash)
    ensures r.Err? && localHash in graph ==>
      r.msg == "failed to compare local and remote commits: " + ("failed to iterate commit parents: " + ObjectNotFound)
    ensures remoteHash != localHash && remoteHash in graph && localHash in graph ==>
      match SearchFrom(graph, remoteHash, localHash, MaxAncestorSearchDepth)
      case Err(m) => r == Err("failed to compare local and remote commits: " + m)
      case Ok(Found) => r == Ok(RemoteAhead)
      case Ok(DepthExceeded) => r == Ok(RemoteSignificantlyAhead)
      case Ok(Exhausted) =>
        match SearchFrom(graph, localHash, remoteHash, MaxAncestorSearchDepth)
        case Err(m) => r == Err("failed to compare local and remote commits: " + m)
        case Ok(Exhausted) => r == Ok(Diverged)
        case Ok(_) => r == Ok(LocalAhead)
    ensures ParentsHeld(graph, remoteHash) && ParentsHeld(graph, localHash) ==> r.Ok?
  {
    if remoteHash == localHash {
      return Ok(UpToDate);
    }
    if remoteHash !in graph {
      return Ok(RemoteAhead);
    }
    if localHash !in graph {
      assert WalksTo(graph, [localHash], localHash, localHash);
      return Err("failed to inspect local commit " + localHash + ": " + ObjectNotFound);
    }
    var remoteSearch, _ := CommitContainsAncestor(graph, remoteHash, localHash, MaxAncestorSearchDepth);
    if remoteSearch.Err? {
      return Err("failed to compare local and remote commits: " + remoteSearch.msg);
    }
    if remoteSearch.value == Found {
      return Ok(RemoteAhead);
    }
    if remoteSearch.value == DepthExceeded {
      return Ok(RemoteSignificantlyAhead);
    }
    var localSearch, _ := CommitContainsAncestor(graph, localHash, remoteHash, MaxAncestorSearchDepth);
    if localSearch.Err? {
      return Err("failed to compare local and remote commits: " + localSearch.msg);
    }
    if localSearch.value == Found || localSearch.value == DepthExceeded {
      return Ok(LocalAhead);
    }
    return Ok(Diverged);
  }

  /** `HasRemoteUpdates`: a pull is needed unless the branch is up to date or only
      local commits are missing on the remote. */
  function HasRemoteUpdates(s: SyncState): (r: bool)
    ensures r <==> !(s == UpToDate || s == LocalAhead)
  {
    s == RemoteAhead || s == RemoteSignificantlyAhead || s == Diverged
  }

  // ------------------------------------------------------ path and error tests

  /** `isCommittableShellChangePath`: a cleaned path under `omd-shells/` that is not a
      local override manifest. */
  function IsCommittableShellChangePath(path: string): (r: bool)
    ensures r ==> HasPrefix(GoPaths.Clean(path), "omd-shells/")
  {
    var normalized := GoPaths.ToSlash(GoPaths.Clean(path));
    HasPrefix(normalized, "omd-shells/") && !HasSuffix(normalized, "/enabled.local.json")
  }

  /** Two spellings of the same path are judged alike. */
  lemma CommittableUnderClean(path: string)
    ensures IsCommittableShellChangePath(GoPaths.Clean(path)) == IsCommittableShellChangePath(path)
  {
    GoPaths.CleanIdempotent(path);
  }

  /** `IsSSHAgentError`: no error is not one; otherwise the message names the agent. */
  function IsSSHAgentError(err: Option<string>): (r: bool)
    ensures r ==> err.Some?
  {
    err.Some? && (Contains(err.value, "SSH_AUTH_SOCK") || Contains(err.value, "SSH agent"))
  }

  /** Wrapping an error with context (as `fmt.Errorf("...: %w", err)` does) keeps it
      recognisable. */
  lemma SSHAgentErrorSurvivesWrapping(context: string, msg: string)
    requires IsSSHAgentError(Some(msg))
    ensures IsSSHAgentError(Some(context + msg))
  {
    if Contains(msg, "SSH_AUTH_SOCK") {
      ContainsInRight(context, msg, "SSH_AUTH_SOCK");
    } else {
      ContainsInRight(context, msg, "SSH agent");
    }
  }

  /** The path `RemoveFile` works on: an absolute path starting with the repository
      path is kept; any other loses one leading separator and is placed under the
      repository's `files` directory. */
  function RemoveFilePath(repoPath: string, file: string): string {
    if GoPaths.IsAbs(file) && HasPrefix(file, repoPath) then file
    else GoPaths.Join2(GoPaths.Join2(repoPath, "files"), TrimPrefix(file, "/"))
  }

  /** A path outside the repository, whatever run of separators it starts with,
      names the file its separator-free rest names under `files`. */
  lemma RemoveFileLeadingSeparators(repoPath: string, n: nat, rel: string)
    requires !GoPaths.IsAbs(rel)
    requires n > 0 ==> !HasPrefix(GoPaths.Separators(n) + rel, repoPath)
    ensures RemoveFilePath(repoPath, GoPaths.Separators(n) + rel)
         == GoPaths.Join2(GoPaths.Join2(repoPath, "files"), rel)
  {
    var file := GoPaths.Separators(n) + rel;
    if n == 0 {
      assert file == rel;
      RemoveFileOutside(repoPath, rel);
      assert TrimPrefix(rel, "/") == rel;
    } else {
      var t := GoPaths.Separators(n - 1) + rel;
      assert file == "/" + t;
      RemoveFileOutside(repoPath, file);
      assert TrimPrefix(file, "/") == t;
      GoPaths.JoinIgnoresLeadingSeparators(GoPaths.Join2(repoPath, "files"), n - 1, rel);
    }
  }

  /** A path that is not absolute under the repository is joined under `files`. */
  lemma RemoveFileOutside(repoPath: string, file: string)
    requires !(GoPaths.IsAbs(file) && HasPrefix(file, repoPath))
    ensures RemoveFilePath(repoPath, file) == GoPaths.Join2(GoPaths.Join2(repoPath, "files"), TrimPrefix(file, "/"))
  {
  }
}
