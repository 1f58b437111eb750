# Extension-repository fetch, Kavita login and start-up bookkeeping

A Dafny model of a small layer of the Mihon-based reader app
(`Alen-QK/mihon-vanislord`). This layer turns untrusted remote data into
typed results. It also covers the one-time start-up work the application
object does:

- **Manifest mapping** (`RepoDto`). The `repo.json` manifest
  (`ExtensionRepoMetaDto` / `ExtensionRepoDto`) becomes an `ExtensionRepo`
  record, keyed by the caller's base URL. A Kavita `LoginResponse` becomes a
  `KavitaOpds` capability URL: the API key is put into a fixed template.
  As a Kotlin string template does, a null key is printed as the text `null`.
- **Repository service** (`RepoService`). `FetchRepoDetails` sends a GET for
  `repo + "/repo.json"`. `FetchKavitaOpds` POSTs
  `{username, password, apiKey = ""}` as JSON to the fixed login endpoint.
  The HTTP client, `awaitSuccess` and the JSON parser together are one client
  function, passed in as a parameter. It gives the parsed body, or `None`
  where the Kotlin code would throw. Every such failure becomes `None`.
- **Interactor** (`GetKavitaUserOpds.Await`). It returns the OPDS URL, or the
  literal `"Error"` when the service gave `None`.
- **Start-up** (`AppStartup`). Class `App` holds three things:
  - the `app_preferences` boolean file;
  - the integer preference store;
  - the unbounded `_events` channel, as a sequence.

  `ExecuteOnFirstInstall` is guarded by the persisted `hasRunBefore` flag, which
  defaults to false. It submits the fixed Kareadita repository URL to
  `CreateExtensionRepo`. That collaborator is a parameter here: it returns a
  result or throws. The result becomes zero or one event. The flag is written
  only after the action has returned. `InitializeMigrator` reads
  `last_version_code`, defaulting to 0. Its completion callback writes the
  build's version code to that key and to nothing else. Whether the migrator
  reaches that callback is a parameter too.

One pure function, `FirstInstall`, models a single call of the first-install
hook on the preference file and the channel. `FirstInstallCalls` folds it
over repeated calls. The lemma `FirstInstallCompletesAtMostOnce` proves the
one-shot property over any number of calls.

Two behaviours of the code worth stating outright:

- A login response whose `apiKey` is null is not an error: `toOpds` yields
  `http://aijiangsb.com:7776/api/opds/null` (`NullApiKeyRendersAsText`,
  `NullApiKeyIsNotAnError`).
- Migration-step selection and repository conflict checks live in
  `Migrator` and `CreateExtensionRepo`, which appear only through their
  call sites.

## Model

| member | source | states |
|---|---|---|
| RepoDto.ToExtensionRepo | domain/src/main/java/mihon/domain/extensionrepo/service/ExtensionRepoDto.kt:23-31 | the record's `baseUrl` is exactly the caller's URL, whatever the manifest says; name, shortName (null stays null), website and fingerprint are the manifest's, unchanged |
| RepoDto.ToExtensionRepoInjective | domain/src/main/java/mihon/domain/extensionrepo/service/ExtensionRepoDto.kt:23-31 | two records are equal exactly when their manifests and base URLs are: nothing else feeds a record and nothing is dropped |
| RepoDto.ToExtensionRepoOfManifest | domain/src/main/java/mihon/domain/extensionrepo/service/ExtensionRepoDto.kt:12-31 | every record is the mapping of its own manifest fields under its own key |
| RepoDto.ToOpds | domain/src/main/java/mihon/domain/extensionrepo/service/ExtensionRepoDto.kt:33-37 | the URL always starts with `http://aijiangsb.com:7776/api/opds/`, and stripping that prefix recovers the key as the template prints it; there is no failure path |
| RepoDto.ToOpdsInjective | domain/src/main/java/mihon/domain/extensionrepo/service/ExtensionRepoDto.kt:35 | distinct non-null API keys give distinct capability URLs, and equal keys give equal URLs |
| RepoDto.NullApiKeyRendersAsText | domain/src/main/java/mihon/domain/extensionrepo/service/ExtensionRepoDto.kt:21-35 | a null key yields the prefix followed by `null`, the same URL as the key text `"null"` |
| RepoService.ManifestUrl | domain/src/main/java/mihon/domain/extensionrepo/service/ExtensionRepoService.kt:31 | the manifest URL is the repository URL followed by `/repo.json` |
| RepoService.ManifestUrlInjective | domain/src/main/java/mihon/domain/extensionrepo/service/ExtensionRepoService.kt:31 | distinct repositories are fetched from distinct manifest URLs |
| RepoService.FetchRepoDetails | domain/src/main/java/mihon/domain/extensionrepo/service/ExtensionRepoService.kt:27-45 | fetches exactly `repo/repo.json`; gives `None` exactly when the fetch, status check or parse failed; otherwise a record keyed by `repo`, not by the manifest URL, carrying the manifest's fields |
| RepoService.KavitaLoginRequest | domain/src/main/java/mihon/domain/extensionrepo/service/ExtensionRepoService.kt:52-59 | a JSON POST to the fixed `https://aijiangsb.com:7776/api/Account/login`, whatever the inputs, with the username and password unchanged and an empty API key |
| RepoService.FetchKavitaOpds | domain/src/main/java/mihon/domain/extensionrepo/service/ExtensionRepoService.kt:47-72 | gives `None` exactly when the login call or its parse failed; otherwise an OPDS URL with the fixed prefix whose tail is the response's key as printed |
| GetKavitaUserOpds.Await | domain/src/main/java/mihon/domain/extensionrepo/interactor/GetKavitaUserOpds.kt:8-13 | returns exactly `"Error"` if and only if the service gave no value, and otherwise the service's OPDS URL unchanged; it always returns a string |
| GetKavitaUserOpds.AwaitForwardsCredentials | domain/src/main/java/mihon/domain/extensionrepo/interactor/GetKavitaUserOpds.kt:9-12 | credentials, blank or empty ones included, are not rejected: the result depends only on the server's answer to the unchanged credentials |
| GetKavitaUserOpds.NullApiKeyIsNotAnError | domain/src/main/java/mihon/domain/extensionrepo/interactor/GetKavitaUserOpds.kt:12 | a successful login whose `apiKey` is null yields the URL ending in `null`, not `"Error"` |
| AppStartup.FirstInstallManifestUrl | app/src/main/java/eu/kanade/tachiyomi/App.kt:284 | `ManifestUrl` of the first-install URL is `https://raw.githubusercontent.com/Kareadita/tachiyomi-extensions/repo/index.min.json/repo.json` |
| AppStartup.HasRunBefore | app/src/main/java/eu/kanade/tachiyomi/App.kt:267 | the flag is false while unset and the stored value once written |
| AppStartup.EventsFor | app/src/main/java/eu/kanade/tachiyomi/App.kt:286-293 | at most one event per result: `InvalidUrl` for an invalid URL, `RepoAlreadyExists` for an existing repository, nothing for any other result, the duplicate-fingerprint case included |
| AppStartup.FirstInstall | app/src/main/java/eu/kanade/tachiyomi/App.kt:262-279 | one call: a no-op when the flag is set or the action threw; otherwise the flag becomes true and the result's events are appended; no other preference changes |
| AppStartup.FirstInstallCompletesAtMostOnce | app/src/main/java/eu/kanade/tachiyomi/App.kt:262-279 | over any number of calls, only the first call that returns has an effect (flag set, its events sent once, in order); with the flag already set nothing changes; at most one event is added |
| AppStartup.FirstInstallIdempotent | app/src/main/java/eu/kanade/tachiyomi/App.kt:267-277 | after a completed first install, another call changes nothing |
| AppStartup.LastVersionCode | app/src/main/java/eu/kanade/tachiyomi/App.kt:158 | the migrator's old version is `last_version_code`, or 0 when unset |
| AppStartup.CompleteMigration | app/src/main/java/eu/kanade/tachiyomi/App.kt:164-167 | after the callback the stored version reads back as the build's version code; every other key keeps its value and no other key appears |
| AppStartup.CompleteMigrationIdempotent | app/src/main/java/eu/kanade/tachiyomi/App.kt:164-167 | running the completion callback twice is the same as running it once |
| AppStartup.App.constructor | app/src/main/java/eu/kanade/tachiyomi/App.kt:82 | the event channel starts empty |
| AppStartup.App.Send | app/src/main/java/eu/kanade/tachiyomi/App.kt:82 | the channel has no capacity bound: a sent event is appended in FIFO order and never dropped; nothing else changes |
| AppStartup.App.RunFirstInstallMethod | app/src/main/java/eu/kanade/tachiyomi/App.kt:281-294 | submits the fixed Kareadita URL; if creation returned, the events of its result are appended; if it threw, nothing is sent |
| AppStartup.App.ExecuteOnFirstInstall | app/src/main/java/eu/kanade/tachiyomi/App.kt:262-279 | runs the action exactly when the stored flag is false; `threw` is true exactly when the action ran and threw; the resulting preferences and channel are those of `FirstInstall` on the outcome for the fixed URL, so the flag is written only after the action returned |
| AppStartup.App.OnMigrationComplete | app/src/main/java/eu/kanade/tachiyomi/App.kt:164-167 | the completion callback sets `last_version_code` to `VERSION_CODE` and changes nothing else |
| AppStartup.App.InitializeMigrator | app/src/main/java/eu/kanade/tachiyomi/App.kt:156-169 | passes the stored version (0 when unset) and the build's version to the migrator; the stored version becomes the build's only if the migrator completes, otherwise App.kt itself writes nothing |

## Left out

- The migration step catalogue, the migrator's step selection and `CreateExtensionRepo`'s URL validation, conflict and fingerprint checks: they live in `Migrator`, `migrations` and `CreateExtensionRepo`, which are not part of this model. Their outcomes are inputs, namely `migratorCompletes` and `createRepo`.
- AppStartup.App.InitializeMigrator: runs the completion callback before returning; the source only hands the callback to `Migrator.initialize`, which may call it later, so the callback's timing is not modelled. The writes made by the migration steps themselves are not modelled either; the frame covers only what App.kt writes.
- AppStartup.FirstInstallManifestUrl: evaluates `ManifestUrl` on the first-install URL only; what `CreateExtensionRepo` passes on to the repository service is not modelled, so the URL actually fetched on first install is not established.
- AppStartup.App.ExecuteOnFirstInstall: a thrown repository creation is modelled as a return with `threw` true and the state left as it was, not as an exception escaping to the launching coroutine and the uncaught-exception handler; `FirstInstallCalls` likewise goes on to further calls after a thrown one.
- The variants of `CreateExtensionRepo.Result`: the code names `InvalidUrl`, `RepoAlreadyExists` and `DuplicateFingerprint`. `Success` and `Error` stand for the remaining results, which all fall into the `else` branch.
- HTTP and JSON machinery: OkHttp calls, `awaitSuccess`, kotlinx serialization (`encodeToString`, `parseAs`) and the request builder are foreign library calls. They are abstracted as a client function from the request to an optional parsed body. The JSON text of the login body is modelled as the `LoginRequest` value it encodes.
- `toUri()` normalisation of the manifest URL: the URL is modelled as plain concatenation.
- `withIOContext`, coroutine scopes, dispatchers, suspension and the channel's internals: these are concurrency machinery. The channel is an append-only sequence. Nothing in `App.kt` receives from `_events`, so the model has no receive.
- Logging (`logcat`) is not modelled.
- `Preference.appStateKey` prefixing: its definition is not part of this model, so the store is keyed by the bare name `last_version_code`.
- `SharedPreferences.Editor.apply()` writes to disk asynchronously. The model treats the write as immediate.
- Persistence across process restarts: `FirstInstallCalls` folds repeated calls over one preference file and one channel. In the app, a new process has a new, empty channel but the same preference file.
- The rest of the application class: notification channels, the incognito receiver, the image loader and its `crossfade` floating-point duration, TLS provider set-up, the WebView data directory, package-name spoofing, dependency-injection set-up, theme and widget set-up. All are OS or library plumbing.
- The extensions tab screen: it is UI state (dialog visibility, navigation) with no logic modelled here.
