/**
 * Version and branch management: the `settings` key/value table, the branch
 * a deployment follows, picking the newest GitHub release for that branch,
 * and the git/pip update sequence. The GitHub response and the outcome of
 * each command are inputs.
 */
module Versioning {
  import opened Optional
  import opened Text
  import opened Json
  import opened Catalog
  import opened Config

  // ----------------------------------------------------------------------
  // The settings table

  /** `get_setting`: the stored value, or the default when the key is absent or the database fails. */
  function Lookup(values: map<string, Value>, reachable: bool, key: string, default: Value): (r: Value)
    ensures reachable && key in values ==> r == values[key]
    ensures !reachable || key !in values ==> r == default
  {
    if reachable && key in values then values[key] else default
  }

  /** `set_setting`'s effect: `INSERT OR REPLACE` when the database can be written, nothing otherwise. */
  function Store(values: map<string, Value>, reachable: bool, key: string, value: Value): (r: map<string, Value>)
    ensures reachable ==> r.Keys == values.Keys + {key} && r[key] == value
    ensures forall k :: k in values && k != key ==> k in r && r[k] == values[k]
    ensures !reachable ==> r == values
  {
    if reachable then values[key := value] else values
  }

  /** The settings behave as a map: a stored value is read back, and no other key changes. */
  lemma LookupAfterStore(values: map<string, Value>, key: string, value: Value, other: string, default: Value)
    ensures Lookup(Store(values, true, key, value), true, key, default) == value
    ensures other != key ==>
      Lookup(Store(values, true, key, value), true, other, default) == Lookup(values, true, other, default)
  {
  }

  /** The `settings` table, and whether the database can be opened and written. */
  class SettingsStore {
    var values: map<string, Value>
    var reachable: bool

    constructor (values: map<string, Value>, reachable: bool)
      ensures this.values == values && this.reachable == reachable
    {
      this.values := values;
      this.reachable := reachable;
    }

    /** `get_setting` on this store: the stored value, or the default when absent or unreachable. */
    function Get(key: string, default: Value): (r: Value)
      reads this
      ensures reachable && key in values ==> r == values[key]
      ensures !reachable || key !in values ==> r == default
    {
      Lookup(values, reachable, key, default)
    }

    /** `set_setting`: insert or replace the key; reports whether the write happened. */
    method Set(key: string, value: Value) returns (ok: bool)
      modifies this
      ensures ok == reachable && reachable == old(reachable)
      ensures values == Store(old(values), reachable, key, value)
      ensures ok ==> forall d :: Get(key, d) == value
    {
      ok := reachable;
      if reachable {
        values := values[key := value];
      }
    }
  }

  // ----------------------------------------------------------------------
  // Branches and versions

  const BranchVariable := "MEMELET_BRANCH"

  /** `get_current_branch`: a non-empty `MEMELET_BRANCH`, else the stored branch, else `main`. */
  function CurrentBranch(env: Env, values: map<string, Value>, reachable: bool): (r: Value)
    ensures BranchVariable in env && env[BranchVariable] != "" ==> r == Str(env[BranchVariable])
    ensures (BranchVariable !in env || env[BranchVariable] == "") && reachable && "current_branch" in values ==>
      r == values["current_branch"]
    ensures (BranchVariable !in env || env[BranchVariable] == "") && (!reachable || "current_branch" !in values) ==>
      r == Str("main")
  {
    if BranchVariable in env && env[BranchVariable] != "" then Str(env[BranchVariable])
    else Lookup(values, reachable, "current_branch", Str("main"))
  }

  /** `can_switch_branch`: the variable's presence alone, even when empty, pins the branch. */
  predicate CanSwitchBranch(env: Env)
  {
    BranchVariable !in env
  }

  /** A set but empty variable pins the branch without choosing it: the stored branch still applies. */
  lemma EmptyOverridePinsStoredBranch(env: Env, values: map<string, Value>, reachable: bool)
    requires BranchVariable in env && env[BranchVariable] == ""
    ensures !CanSwitchBranch(env)
    ensures CurrentBranch(env, values, reachable) == Lookup(values, reachable, "current_branch", Str("main"))
  {
  }

  /** `set_current_branch`: refused, with nothing written, while the environment pins the branch. */
  method SetCurrentBranch(store: SettingsStore, env: Env, branch: Value) returns (ok: bool)
    modifies store
    ensures !CanSwitchBranch(env) ==> !ok && store.values == old(store.values)
    ensures CanSwitchBranch(env) ==>
      && ok == store.reachable
      && store.values == Store(old(store.values), store.reachable, "current_branch", branch)
    ensures store.reachable == old(store.reachable)
  {
    if !CanSwitchBranch(env) {
      return false;
    }
    ok := store.Set("current_branch", branch);
  }

  /** After a permitted switch to a non-empty name the store reports that branch. */
  lemma SwitchedBranchIsCurrent(env: Env, values: map<string, Value>, branch: Value)
    requires CanSwitchBranch(env)
    ensures CurrentBranch(env, Store(values, true, "current_branch", branch), true) == branch
  {
  }

  /** `get_current_version`: the stored version, defaulting to `v1.0`. */
  function CurrentVersion(values: map<string, Value>, reachable: bool): (r: Value)
    ensures reachable && "current_version" in values ==> r == values["current_version"]
    ensures !reachable || "current_version" !in values ==> r == Str("v1.0")
  {
    Lookup(values, reachable, "current_version", Str("v1.0"))
  }

  /** `get_available_version`: the cached version, defaulting to the current version. */
  function AvailableVersion(values: map<string, Value>, reachable: bool): (r: Value)
    ensures reachable && "available_version" in values ==> r == values["available_version"]
    ensures !reachable || "available_version" !in values ==> r == CurrentVersion(values, reachable)
  {
    Lookup(values, reachable, "available_version", CurrentVersion(values, reachable))
  }

  /** `get_release_notes`: defaults to the empty text. */
  function ReleaseNotes(values: map<string, Value>, reachable: bool): Value
  {
    Lookup(values, reachable, "release_notes", Str(""))
  }

  // ----------------------------------------------------------------------
  // Release selection

  /** How a value prints inside an f-string. */
  function ValueText(v: Value): string
  {
    match v
    case Null => "None"
    case Str(s) => s
    case Int(i) => IntToString(i)
  }

  /** The tag prefix the non-`main` branches use: the branch name and a dash. */
  function BranchPrefix(branch: Value): (p: string)
    ensures |p| >= 1 && p[|p| - 1] == '-'
    ensures |p| == |ValueText(branch)| + 1 && forall i :: 0 <= i < |p| - 1 ==> p[i] == ValueText(branch)[i]
  {
    ValueText(branch) + "-"
  }

  /**
   * Whether a release tag belongs to the branch: on `main` a tag starting with
   * `v` and with neither `dev-` nor `beta-` in front, elsewhere a tag starting
   * with the branch's prefix.
   */
  predicate TagMatches(branch: Value, tag: string)
  {
    if branch == Str("main") then !StartsWith(tag, "dev-") && !StartsWith(tag, "beta-") && StartsWith(tag, "v")
    else StartsWith(tag, BranchPrefix(branch))
  }

  /** A release without `tag_name` reads as the empty tag, which no branch accepts. */
  lemma EmptyTagNeverMatches(branch: Value)
    ensures !TagMatches(branch, "")
  {
    var p := BranchPrefix(branch);
    assert |p| >= 1;
  }

  /** The naming convention: `vX` is a `main` release, `beta-vX` a beta one, `dev-vX` a dev one, and no more. */
  lemma ReleaseNamingConvention(version: string)
    requires StartsWith(version, "v")
    ensures TagMatches(Str("main"), version)
    ensures TagMatches(Str("beta"), "beta-" + version) && !TagMatches(Str("main"), "beta-" + version)
    ensures TagMatches(Str("dev"), "dev-" + version) && !TagMatches(Str("main"), "dev-" + version)
    ensures !TagMatches(Str("beta"), "dev-" + version) && !TagMatches(Str("dev"), "beta-" + version)
  {
    assert version[0] == 'v';
    ConcatEnds("beta-", version);
    ConcatEnds("dev-", version);
    assert ("beta-" + version)[0] == 'b';
    assert ("dev-" + version)[0] == 'd';
    assert !StartsWith(version, "dev-") by { assert "dev-"[0] == 'd'; }
    assert !StartsWith(version, "beta-") by { assert "beta-"[0] == 'b'; }
  }

  /** `release.get('tag_name', '')`. */
  function TagOf(fields: map<string, Json>): Json
  {
    if "tag_name" in fields then fields["tag_name"] else JString("")
  }

  /** `release.get('body', '')`. */
  function BodyOf(fields: map<string, Json>): Json
  {
    if "body" in fields then fields["body"] else JString("")
  }

  /** A release the loop passes over: an object whose tag is text of another branch. */
  predicate Skipped(branch: Value, release: Json)
  {
    release.JObject? && TagOf(release.fields).JString? && !TagMatches(branch, TagOf(release.fields).s)
  }

  /** Where the release loop stops: at a match, at the end, or at an exception. */
  datatype Selection = Chosen(index: nat, tag: string, body: Json) | NoRelease | Crashed

  /** The loop over `releases` from position `k` on: the first match in list order. */
  function SelectFrom(branch: Value, releases: seq<Json>, k: nat): (r: Selection)
    requires k <= |releases|
    ensures r.Chosen? ==>
      && k <= r.index < |releases| && releases[r.index].JObject?
      && TagOf(releases[r.index].fields) == JString(r.tag) && TagMatches(branch, r.tag)
      && r.body == BodyOf(releases[r.index].fields)
    ensures r.Chosen? ==> forall j :: k <= j < r.index ==> Skipped(branch, releases[j])
    ensures r.NoRelease? <==> forall j :: k <= j < |releases| ==> Skipped(branch, releases[j])
    decreases |releases| - k
  {
    if k == |releases| then NoRelease
    else if !Skipped(branch, releases[k]) then
      match releases[k]
      case JObject(fields) =>
        (match TagOf(fields)
         case JString(tag) => Chosen(k, tag, BodyOf(fields))
         case _ => Crashed)
      case _ => Crashed
    else SelectFrom(branch, releases, k + 1)
  }

  /** What `requests.get` gives: an exception, or a status code and the decoded body. */
  datatype Fetch = RequestFailed(error: string) | Response(statusCode: int, body: Decoded)

  /**
   * `check_github_for_updates`' search: a failed request crashes, any status
   * but 200 finds nothing, and a 200 answer holding a list is searched in
   * order; only such an answer can yield a release.
   */
  function SelectRelease(branch: Value, fetch: Fetch): (r: Selection)
    ensures fetch.RequestFailed? ==> r == Crashed
    ensures fetch.Response? && fetch.statusCode != 200 ==> r == NoRelease
    ensures fetch.Response? && fetch.statusCode == 200 && fetch.body.Decoded? && fetch.body.value.JArray? ==>
      r == SelectFrom(branch, fetch.body.value.items, 0)
    ensures r.Chosen? ==>
      && fetch.Response? && fetch.statusCode == 200 && fetch.body.Decoded?
      && fetch.body.value.JArray? && r == SelectFrom(branch, fetch.body.value.items, 0)
  {
    match fetch
    case RequestFailed(_) => Crashed
    case Response(code, body) =>
      if code != 200 then NoRelease
      else
        match body
        case DecodeError(_) => Crashed
        case Decoded(JArray(items)) => SelectFrom(branch, items, 0)
        // Iterating an empty dict or string ends at once; any other value fails on `.get` or on iteration.
        case Decoded(v) => if v == JObject(map[]) || v == JString("") then NoRelease else Crashed
  }

  /** The keys a matching release writes. */
  const CacheKeys: set<string> := {"available_version", "release_notes", "last_update_check"}

  /** The settings after a matching release: its tag, its notes if the driver can bind them, the check time. */
  function CacheRelease(values: map<string, Value>, reachable: bool, tag: string, body: Json, checkedAt: int)
    : (r: map<string, Value>)
    ensures reachable ==> "available_version" in r && r["available_version"] == Str(tag)
    ensures reachable && Bind(body).Some? ==> "release_notes" in r && r["release_notes"] == Bind(body).value
    // A body the driver refuses makes that write fail: the notes stay as they were, or absent.
    ensures Bind(body).None? ==> ("release_notes" in r <==> "release_notes" in values)
    ensures Bind(body).None? && "release_notes" in values ==> r["release_notes"] == values["release_notes"]
    ensures reachable ==> "last_update_check" in r && r["last_update_check"] == Str(IntToString(checkedAt))
    ensures forall k :: k in values && k !in CacheKeys ==> k in r && r[k] == values[k]
    ensures r.Keys <= values.Keys + CacheKeys
    ensures !reachable ==> r == values
  {
    var withVersion := Store(values, reachable, "available_version", Str(tag));
    var withNotes := if Bind(body).Some? then Store(withVersion, reachable, "release_notes", Bind(body).value)
      else withVersion;
    Store(withNotes, reachable, "last_update_check", Str(IntToString(checkedAt)))
  }

  /**
   * `check_github_for_updates`: writes the first matching release into the
   * cache and reports whether one was found; anything else leaves the
   * settings unchanged. `checkedAt` is the integer `st_mtime` the source
   * stores as the check time.
   */
  method CheckGithubForUpdates(store: SettingsStore, env: Env, fetch: Fetch, checkedAt: int) returns (found: bool)
    modifies store
    ensures store.reachable == old(store.reachable)
    ensures var sel := SelectRelease(CurrentBranch(env, old(store.values), old(store.reachable)), fetch);
      && (found <==> sel.Chosen?)
      && store.values == (if sel.Chosen? then CacheRelease(old(store.values), store.reachable, sel.tag, sel.body, checkedAt)
                          else old(store.values))
  {
    var branch := CurrentBranch(env, store.values, store.reachable);
    if fetch.RequestFailed? || fetch.statusCode != 200 || fetch.body.DecodeError? || !fetch.body.value.JArray? {
      return false;
    }
    var releases := fetch.body.value.items;
    for i := 0 to |releases|
      invariant SelectFrom(branch, releases, i) == SelectFrom(branch, releases, 0)
      invariant store.values == old(store.values) && store.reachable == old(store.reachable)
    {
      var release := releases[i];
      if !release.JObject? {
        return false;
      }
      var tag := TagOf(release.fields);
      if !tag.JString? {
        return false;
      }
      if TagMatches(branch, tag.s) {
        var notes := BodyOf(release.fields);
        var _ := store.Set("available_version", Str(tag.s));
        match Bind(notes) {
          case Some(v) => var _ := store.Set("release_notes", v);
          case None =>
        }
        var _ := store.Set("last_update_check", Str(IntToString(checkedAt)));
        return true;
      }
    }
    return false;
  }

  /** The first release of the branch wins, whatever follows it in the list. */
  lemma {:induction false} FirstMatchWins(branch: Value, releases: seq<Json>, k: nat, i: nat)
    requires k <= i < |releases| && releases[i].JObject? && TagOf(releases[i].fields).JString?
    requires TagMatches(branch, TagOf(releases[i].fields).s)
    requires forall j :: k <= j < i ==> Skipped(branch, releases[j])
    ensures SelectFrom(branch, releases, k) == Chosen(i, TagOf(releases[i].fields).s, BodyOf(releases[i].fields))
    decreases i - k
  {
    if k < i {
      FirstMatchWins(branch, releases, k + 1, i);
    }
  }

  // ----------------------------------------------------------------------
  // The update summary

  /** The dictionary `check_for_updates` returns. */
  datatype UpdateInfo = UpdateInfo(
    currentBranch: Value,
    currentVersion: Value,
    latestVersion: Value,
    updateAvailable: bool,
    releaseNotes: Value,
    canSwitchBranch: bool)

  /** The summary read from the cached settings. */
  function Info(env: Env, values: map<string, Value>, reachable: bool): (r: UpdateInfo)
    ensures r.currentVersion == CurrentVersion(values, reachable)
    ensures r.latestVersion == AvailableVersion(values, reachable)
    ensures r.updateAvailable <==> r.latestVersion != r.currentVersion
    ensures r.canSwitchBranch <==> CanSwitchBranch(env)
  {
    var current := CurrentVersion(values, reachable);
    var available := AvailableVersion(values, reachable);
    UpdateInfo(CurrentBranch(env, values, reachable), current, available, available != current,
      ReleaseNotes(values, reachable), CanSwitchBranch(env))
  }

  /** A fresh installation runs `v1.0` and has no update pending. */
  lemma FreshInstallHasNoUpdate(env: Env, reachable: bool)
    ensures Info(env, map[], reachable).currentVersion == Str("v1.0")
    ensures !Info(env, map[], reachable).updateAvailable
    ensures Info(env, map[], reachable).releaseNotes == Str("")
  {
  }

  /** Without a cached available version there is never an update. */
  lemma NoCacheNoUpdate(env: Env, values: map<string, Value>, reachable: bool)
    requires "available_version" !in values
    ensures !Info(env, values, reachable).updateAvailable
  {
  }

  /** After a release is cached, an update is pending exactly when its tag differs from the running version. */
  lemma CachedReleaseDecidesUpdate(env: Env, values: map<string, Value>, tag: string, body: Json, checkedAt: int)
    requires "current_version" in values
    ensures var after := CacheRelease(values, true, tag, body, checkedAt);
      Info(env, after, true).updateAvailable <==> Str(tag) != values["current_version"]
  {
    var after := CacheRelease(values, true, tag, body, checkedAt);
    assert after["current_version"] == values["current_version"];
  }

  /** `check_for_updates`: refresh the cache from GitHub, then summarise the cached settings. */
  method CheckForUpdates(store: SettingsStore, env: Env, fetch: Fetch, checkedAt: int) returns (info: UpdateInfo)
    modifies store
    ensures store.reachable == old(store.reachable)
    ensures var sel := SelectRelease(CurrentBranch(env, old(store.values), old(store.reachable)), fetch);
      store.values == (if sel.Chosen? then CacheRelease(old(store.values), store.reachable, sel.tag, sel.body, checkedAt)
                       else old(store.values))
    ensures info == Info(env, store.values, store.reachable)
  {
    var _ := CheckGithubForUpdates(store, env, fetch, checkedAt);
    var current := CurrentVersion(store.values, store.reachable);
    var available := AvailableVersion(store.values, store.reachable);
    info := UpdateInfo(CurrentBranch(env, store.values, store.reachable), current, available, available != current,
      ReleaseNotes(store.values, store.reachable), CanSwitchBranch(env));
  }

  // ----------------------------------------------------------------------
  // The update sequence

  /** What `subprocess.run` gives: a finished process, a timeout, a missing program or another exception. */
  datatype StepOutcome =
    | Completed(returnCode: int, stdout: string, stderr: string)
    | TimedOut
    | NotFound(message: string)
    | Raised(message: string)

  /**
   * What `request_update` returns: a failure dictionary (with the step's
   * stdout as details when a command failed), "already up to date", a
   * finished install, or the `FileNotFoundError` it re-raises.
   */
  datatype UpdateResult =
    | UpdateFailed(error: string, details: Option<string>)
    | UpToDate
    | Installed(gitOutput: string, pipOutput: string, newVersion: Value)
    | Propagated(message: string)

  function FetchCommand(branch: Value): seq<Value>
  {
    [Str("git"), Str("fetch"), Str("origin"), branch]
  }

  function CheckoutCommand(branch: Value): seq<Value>
  {
    [Str("git"), Str("checkout"), branch]
  }

  function PullCommand(branch: Value): seq<Value>
  {
    [Str("git"), Str("pull"), Str("origin"), branch]
  }

  /** The install command as the source writes it: the interpreter with `install` as its first argument. */
  function PipCommandAsWritten(python: string): seq<Value>
  {
    [Str(python), Str("install"), Str("-r"), Str("requirements.txt"), Str("--upgrade")]
  }

  /** The install command as intended: pip run as a module of the interpreter. */
  function PipCommand(python: string): seq<Value>
  {
    [Str(python), Str("-m"), Str("pip"), Str("install"), Str("-r"), Str("requirements.txt"), Str("--upgrade")]
  }

  /**
   * How the interpreter reads its arguments: `-m mod` runs a module, and a
   * first argument not starting with `-` names a script file to run.
   */
  predicate RunsPipInstall(command: seq<Value>)
  {
    |command| >= 4 && command[1] == Str("-m") && command[2] == Str("pip") && command[3] == Str("install")
  }

  predicate RunsScriptFile(command: seq<Value>, script: string)
  {
    |command| >= 2 && command[1] == Str(script) && !StartsWith(script, "-")
  }

  /** As written, the install step asks the interpreter to run a script file named `install`, not pip. */
  lemma PipCommandAsWrittenRunsScript(python: string)
    ensures RunsScriptFile(PipCommandAsWritten(python), "install")
    ensures !RunsPipInstall(PipCommandAsWritten(python))
  {
    assert "install"[0] == 'i';
  }

  /** The corrected install step runs pip's install with the requirements file. */
  lemma PipCommandRunsPip(python: string)
    ensures RunsPipInstall(PipCommand(python))
    ensures PipCommand(python)[4..] == [Str("-r"), Str("requirements.txt"), Str("--upgrade")]
  {
  }

  const TimeoutError := "Update timed out. Please try again or update manually."
  const GitMissingError := "Git not found. Please install git or update manually."

  /** The `except` clauses: a timeout, a missing git, any other exception; a missing program other than git propagates. */
  function StepException(o: StepOutcome): (r: UpdateResult)
    requires !o.Completed?
    ensures r.UpdateFailed? || r.Propagated?
    ensures r.Propagated? <==> o.NotFound? && !Contains(Lower(o.message), "git")
  {
    match o
    case TimedOut => UpdateFailed(TimeoutError, None)
    case NotFound(m) => if Contains(Lower(m), "git") then UpdateFailed(GitMissingError, None) else Propagated(m)
    case Raised(m) => UpdateFailed("Update failed: " + m, None)
  }

  /** Whether a step ran to completion with exit code 0. */
  predicate Succeeded(o: StepOutcome)
  {
    o.Completed? && o.returnCode == 0
  }

  /** The result of one step that did not succeed. */
  function StepFailure(o: StepOutcome, step: string): (r: UpdateResult)
    requires !Succeeded(o)
    ensures r.UpdateFailed? || r.Propagated?
  {
    if o.Completed? then UpdateFailed(step + " failed: " + o.stderr, Some(o.stdout)) else StepException(o)
  }

  /** Whether `git pull`'s stripped output reports nothing to pull. */
  predicate AlreadyUpToDate(pullOutput: string)
  {
    Contains(Strip(pullOutput), "Already up to date") || Contains(Strip(pullOutput), "Already up-to-date")
  }

  /**
   * `request_update`'s result: fetch, checkout and pull the branch, stop if
   * nothing was pulled, install the requirements; each step runs only when
   * every earlier one succeeded.
   */
  function UpdatePlan(branch: Value, available: Value, install: seq<Value>, run: seq<Value> -> StepOutcome)
    : (r: UpdateResult)
  {
    var fetch := run(FetchCommand(branch));
    if !Succeeded(fetch) then StepFailure(fetch, "Git fetch")
    else
      var checkout := run(CheckoutCommand(branch));
      if !Succeeded(checkout) then StepFailure(checkout, "Git checkout")
      else
        var pull := run(PullCommand(branch));
        if !Succeeded(pull) then StepFailure(pull, "Git pull")
        else if AlreadyUpToDate(pull.stdout) then UpToDate
        else
          var pip := run(install);
          if !Succeeded(pip) then StepFailure(pip, "Pip install")
          else Installed(Strip(pull.stdout), Strip(pip.stdout), available)
  }

  /** The install finishes exactly when all four steps succeed and the pull brought something new. */
  lemma InstalledIffAllStepsSucceed(branch: Value, available: Value, install: seq<Value>, run: seq<Value> -> StepOutcome)
    ensures UpdatePlan(branch, available, install, run).Installed? <==>
      && Succeeded(run(FetchCommand(branch)))
      && Succeeded(run(CheckoutCommand(branch)))
      && Succeeded(run(PullCommand(branch)))
      && !AlreadyUpToDate(run(PullCommand(branch)).stdout)
      && Succeeded(run(install))
    ensures UpdatePlan(branch, available, install, run).Installed? ==>
      UpdatePlan(branch, available, install, run).newVersion == available
  {
  }

  /** A failed fetch ends the sequence: what the later commands would do does not matter. */
  lemma FailedFetchStopsUpdate(branch: Value, available: Value, install: seq<Value>, run1: seq<Value> -> StepOutcome,
                               run2: seq<Value> -> StepOutcome)
    requires run1(FetchCommand(branch)) == run2(FetchCommand(branch))
    requires !Succeeded(run1(FetchCommand(branch)))
    ensures UpdatePlan(branch, available, install, run1) == UpdatePlan(branch, available, install, run2)
    ensures !UpdatePlan(branch, available, install, run1).Installed?
  {
  }

  /** When the pull reports nothing new, pip is never consulted. */
  lemma UpToDateSkipsInstall(branch: Value, available: Value, install: seq<Value>, run1: seq<Value> -> StepOutcome,
                             run2: seq<Value> -> StepOutcome)
    requires run1(FetchCommand(branch)) == run2(FetchCommand(branch))
    requires run1(CheckoutCommand(branch)) == run2(CheckoutCommand(branch))
    requires run1(PullCommand(branch)) == run2(PullCommand(branch))
    requires Succeeded(run1(PullCommand(branch))) && AlreadyUpToDate(run1(PullCommand(branch)).stdout)
    ensures UpdatePlan(branch, available, install, run1) == UpdatePlan(branch, available, install, run2)
  {
    var fetch := run1(FetchCommand(branch));
    var checkout := run1(CheckoutCommand(branch));
    if Succeeded(fetch) && Succeeded(checkout) {
      assert UpdatePlan(branch, available, install, run1) == UpToDate;
      assert UpdatePlan(branch, available, install, run2) == UpToDate;
    }
  }

  /**
   * As written, no update ever installs when the interpreter fails on a script
   * file named `install` that does not exist.
   */
  lemma AsWrittenNeverInstalls(branch: Value, available: Value, python: string, run: seq<Value> -> StepOutcome)
    requires forall command :: RunsScriptFile(command, "install") ==> !Succeeded(run(command))
    ensures !UpdatePlan(branch, available, PipCommandAsWritten(python), run).Installed?
  {
    PipCommandAsWrittenRunsScript(python);
    InstalledIffAllStepsSucceed(branch, available, PipCommandAsWritten(python), run);
  }

  /**
   * `request_update`: runs the steps in order and records the available
   * version as the running one only after a full install.
   */
  method RequestUpdate(store: SettingsStore, env: Env, python: string, run: seq<Value> -> StepOutcome)
    returns (r: UpdateResult)
    modifies store
    ensures store.reachable == old(store.reachable)
    ensures r == UpdatePlan(CurrentBranch(env, old(store.values), old(store.reachable)),
      AvailableVersion(old(store.values), old(store.reachable)), PipCommandAsWritten(python), run)
    ensures store.values == (if r.Installed? then Store(old(store.values), store.reachable, "current_version", r.newVersion)
                             else old(store.values))
  {
    var branch := CurrentBranch(env, store.values, store.reachable);
    var available := AvailableVersion(store.values, store.reachable);
    var result := run(FetchCommand(branch));
    if !Succeeded(result) {
      return StepFailure(result, "Git fetch");
    }
    result := run(CheckoutCommand(branch));
    if !Succeeded(result) {
      return StepFailure(result, "Git checkout");
    }
    result := run(PullCommand(branch));
    if !Succeeded(result) {
      return StepFailure(result, "Git pull");
    }
    var gitOutput := Strip(result.stdout);
    if AlreadyUpToDate(result.stdout) {
      return UpToDate;
    }
    result := run(PipCommandAsWritten(python));
    if !Succeeded(result) {
      return StepFailure(result, "Pip install");
    }
    var pipOutput := Strip(result.stdout);
    var _ := store.Set("current_version", available);
    return Installed(gitOutput, pipOutput, available);
  }

  /** After a full install the running version is the available one, so no update is pending. */
  lemma InstallSettlesVersion(env: Env, values: map<string, Value>)
    ensures var after := Store(values, true, "current_version", AvailableVersion(values, true));
      !Info(env, after, true).updateAvailable
  {
    var available := AvailableVersion(values, true);
    var after := Store(values, true, "current_version", available);
    if "available_version" in values {
      assert after["available_version"] == values["available_version"];
    }
  }
}
