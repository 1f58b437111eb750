/**
 * Start-up bookkeeping of the application: the one-shot first-install hook
 * that registers the default repository, the in-memory event channel it
 * reports to, and the wiring of the migrator to the persisted version code.
 *
 * `CreateExtensionRepo` and the migrator are collaborators whose behaviour
 * is an input here: the repository creation is a function from the URL to
 * its outcome, and whether the migrator reaches its completion callback is a
 * function of the old and new version codes.
 */
module AppStartup {
  import opened Wrappers
  import opened RepoDto
  import RepoService

  /** What `CreateExtensionRepo.await` can answer. */
  datatype CreateRepoResult =
    | Success
    | Error
    | InvalidUrl
    | RepoAlreadyExists
    | DuplicateFingerprint(oldRepo: ExtensionRepo, newRepo: ExtensionRepo)

  /** A suspending call either returns a result or throws. */
  datatype CallOutcome = Returned(result: CreateRepoResult) | Threw

  /** The events the start-up code sends to its channel. */
  datatype RepoEvent = InvalidUrlEvent | RepoAlreadyExistsEvent

  /** The repository registered on first install. */
  const KareaditaRepoUrl: string := "https://raw.githubusercontent.com/Kareadita/tachiyomi-extensions/repo/index.min.json"

  /** `ManifestUrl` of the first-install URL. */
  lemma FirstInstallManifestUrl()
    ensures RepoService.ManifestUrl(KareaditaRepoUrl) ==
      "https://raw.githubusercontent.com/Kareadita/tachiyomi-extensions/repo/index.min.json/repo.json"
  {
  }

  const HasRunBeforeKey: string := "hasRunBefore"
  const LastVersionCodeKey: string := "last_version_code"

  /** `getBoolean(key, default)` on a preference file. */
  function GetBoolean(preferences: map<string, bool>, key: string, default: bool): bool
  {
    if key in preferences then preferences[key] else default
  }

  /** `getInt(key, default).get()` on the preference store. */
  function GetInt(preferences: map<string, int>, key: string, default: int): int
  {
    if key in preferences then preferences[key] else default
  }

  /** The first-install flag: false until it has been written. */
  function HasRunBefore(preferences: map<string, bool>): (r: bool)
    ensures HasRunBeforeKey !in preferences ==> !r
    ensures HasRunBeforeKey in preferences ==> r == preferences[HasRunBeforeKey]
  {
    GetBoolean(preferences, HasRunBeforeKey, false)
  }

  /**
   * The events `runFirstInstallMethod` sends for a result: one event for an
   * invalid URL, one for an existing repository, none for anything else
   * (the duplicate-fingerprint case included).
   */
  function EventsFor(result: CreateRepoResult): (events: seq<RepoEvent>)
    ensures |events| <= 1
    ensures events == [InvalidUrlEvent] <==> result == CreateRepoResult.InvalidUrl
    ensures events == [RepoAlreadyExistsEvent] <==> result == CreateRepoResult.RepoAlreadyExists
  {
    match result
    case InvalidUrl => [InvalidUrlEvent]
    case RepoAlreadyExists => [RepoAlreadyExistsEvent]
    case _ => []
  }

  /** What the first-install hook reads and writes: the preference file and the channel. */
  datatype FirstInstallState = FirstInstallState(preferences: map<string, bool>, events: seq<RepoEvent>)

  /**
   * One call of `executeOnFirstInstall`, given the outcome of the repository
   * creation. The flag is written only once the action has returned; a
   * thrown call leaves everything as it was.
   */
  function FirstInstall(s: FirstInstallState, outcome: CallOutcome): (t: FirstInstallState)
    ensures HasRunBefore(s.preferences) ==> t == s
    ensures outcome.Threw? ==> t == s
    ensures HasRunBefore(t.preferences) <==> HasRunBefore(s.preferences) || outcome.Returned?
    ensures !HasRunBefore(s.preferences) && outcome.Returned? ==>
      t.events == s.events + EventsFor(outcome.result)
    ensures s.preferences.Keys <= t.preferences.Keys <= s.preferences.Keys + {HasRunBeforeKey}
    ensures forall k :: k in s.preferences && k != HasRunBeforeKey ==> t.preferences[k] == s.preferences[k]
  {
    if HasRunBefore(s.preferences) || outcome.Threw? then s
    else FirstInstallState(s.preferences[HasRunBeforeKey := true], s.events + EventsFor(outcome.result))
  }

  /** Successive calls of `executeOnFirstInstall`, one outcome per call. */
  function FirstInstallCalls(s: FirstInstallState, outcomes: seq<CallOutcome>): FirstInstallState
    decreases |outcomes|
  {
    if outcomes == [] then s else FirstInstallCalls(FirstInstall(s, outcomes[0]), outcomes[1..])
  }

  /** The result of the first call in `outcomes` that returned, if any. */
  function FirstReturned(outcomes: seq<CallOutcome>): Option<CreateRepoResult>
    decreases |outcomes|
  {
    if outcomes == [] then None
    else if outcomes[0].Returned? then Some(outcomes[0].result)
    else FirstReturned(outcomes[1..])
  }

  /**
   * However often the hook is called, the action completes at most once:
   * calls after a set flag change nothing, thrown calls change nothing, and
   * only the first call that returns has its events sent and the flag set.
   */
  lemma {:induction false} FirstInstallCompletesAtMostOnce(s: FirstInstallState, outcomes: seq<CallOutcome>)
    ensures FirstInstallCalls(s, outcomes) ==
      if HasRunBefore(s.preferences) then s
      else match FirstReturned(outcomes)
        case None => s
        case Some(result) =>
          FirstInstallState(s.preferences[HasRunBeforeKey := true], s.events + EventsFor(result))
    ensures |FirstInstallCalls(s, outcomes).events| <= |s.events| + 1
    decreases |outcomes|
  {
    if outcomes != [] {
      var t := FirstInstall(s, outcomes[0]);
      FirstInstallCompletesAtMostOnce(t, outcomes[1..]);
      if !HasRunBefore(s.preferences) && outcomes[0].Returned? {
        assert HasRunBefore(t.preferences);
      }
    }
  }

  /** A completed first install is not repeated by the next call. */
  lemma FirstInstallIdempotent(s: FirstInstallState, result: CreateRepoResult, next: CallOutcome)
    ensures FirstInstall(FirstInstall(s, Returned(result)), next) == FirstInstall(s, Returned(result))
  {
  }

  /** The version the migrator starts from: `last_version_code`, or 0 when unset. */
  function LastVersionCode(appState: map<string, int>): (v: int)
    ensures LastVersionCodeKey !in appState ==> v == 0
    ensures LastVersionCodeKey in appState ==> v == appState[LastVersionCodeKey]
  {
    GetInt(appState, LastVersionCodeKey, 0)
  }

  /** The completion callback's write: `last_version_code` becomes the build's version, nothing else changes. */
  function CompleteMigration(appState: map<string, int>, versionCode: int): (r: map<string, int>)
    ensures LastVersionCode(r) == versionCode
    ensures r.Keys == appState.Keys + {LastVersionCodeKey}
    ensures forall k :: k in appState && k != LastVersionCodeKey ==> r[k] == appState[k]
  {
    appState[LastVersionCodeKey := versionCode]
  }

  /** Committing the same version twice is committing it once. */
  lemma CompleteMigrationIdempotent(appState: map<string, int>, versionCode: int)
    ensures CompleteMigration(CompleteMigration(appState, versionCode), versionCode) ==
      CompleteMigration(appState, versionCode)
  {
  }

  /** The application object: its two preference stores and its event channel. */
  class App {
    /** The `app_preferences` shared-preference file. */
    var appPreferences: map<string, bool>
    /** The integer entries of the preference store. */
    var appState: map<string, int>
    /** The unbounded channel `_events`: everything sent and not yet received, oldest first. */
    var events: seq<RepoEvent>
    /** `BuildConfig.VERSION_CODE` of the running build. */
    const versionCode: int

    constructor (appPreferences: map<string, bool>, appState: map<string, int>, versionCode: int)
      ensures this.appPreferences == appPreferences && this.appState == appState
      ensures this.versionCode == versionCode
      ensures events == []
    {
      this.appPreferences := appPreferences;
      this.appState := appState;
      this.versionCode := versionCode;
      events := [];
    }

    function FirstInstallView(): FirstInstallState
      reads this
    {
      FirstInstallState(appPreferences, events)
    }

    /** `_events.send`: the channel has no capacity bound, so the event is appended and never dropped. */
    method Send(event: RepoEvent)
      modifies this
      ensures events == old(events) + [event]
      ensures appPreferences == old(appPreferences) && appState == old(appState)
    {
      events := events + [event];
    }

    /**
     * `runFirstInstallMethod`: submits the fixed repository URL and sends the
     * events its result maps to; `returned` is false when the call threw, in
     * which case nothing was sent.
     */
    method RunFirstInstallMethod(createRepo: string -> CallOutcome) returns (returned: bool)
      modifies this
      ensures returned <==> createRepo(KareaditaRepoUrl).Returned?
      ensures events == old(events) + (if returned then EventsFor(createRepo(KareaditaRepoUrl).result) else [])
      ensures appPreferences == old(appPreferences) && appState == old(appState)
    {
      var outcome := createRepo(KareaditaRepoUrl);
      if outcome.Threw? {
        return false;
      }
      match outcome.result {
        case InvalidUrl => Send(InvalidUrlEvent);
        case RepoAlreadyExists => Send(RepoAlreadyExistsEvent);
        case _ =>
      }
      returned := true;
    }

    /**
     * `executeOnFirstInstall`: runs the action only when the stored flag is
     * false, and writes the flag only after the action has returned.
     * `threw` is true exactly when the action ran and threw: in the
     * application that exception escapes the hook to the launching coroutine.
     */
    method ExecuteOnFirstInstall(createRepo: string -> CallOutcome) returns (ran: bool, threw: bool)
      modifies this
      ensures ran <==> !HasRunBefore(old(appPreferences))
      ensures threw <==> ran && createRepo(KareaditaRepoUrl).Threw?
      ensures FirstInstallView() == FirstInstall(old(FirstInstallView()), createRepo(KareaditaRepoUrl))
      ensures appState == old(appState)
    {
      ran := !GetBoolean(appPreferences, HasRunBeforeKey, false);
      threw := false;
      if ran {
        var returned := RunFirstInstallMethod(createRepo);
        threw := !returned;
        if returned {
          appPreferences := appPreferences[HasRunBeforeKey := true];
        }
      }
    }

    /** The migrator's `onMigrationComplete` callback. */
    method OnMigrationComplete()
      modifies this
      ensures appState == CompleteMigration(old(appState), versionCode)
      ensures appPreferences == old(appPreferences) && events == old(events)
    {
      appState := appState[LastVersionCodeKey := versionCode];
    }

    /**
     * `initializeMigrator`: hands the stored version (0 when unset) and the
     * build's version to the migrator, which either completes, and then the
     * stored version becomes the build's, or does not, and then App.kt itself
     * writes nothing. The writes made by the migration steps themselves are
     * not modelled; the frame covers only what App.kt writes.
     */
    method InitializeMigrator(migratorCompletes: (int, int) -> bool) returns (oldVersion: int)
      modifies this
      ensures oldVersion == LastVersionCode(old(appState))
      ensures appState ==
        if migratorCompletes(oldVersion, versionCode) then CompleteMigration(old(appState), versionCode)
        else old(appState)
      ensures appPreferences == old(appPreferences) && events == old(events)
    {
      oldVersion := GetInt(appState, LastVersionCodeKey, 0);
      if migratorCompletes(oldVersion, versionCode) {
        OnMigrationComplete();
      }
    }
  }
}
