/**
 * The extension-repository service: builds the two HTTP requests and turns
 * whatever comes back into a typed value, collapsing every failure to `None`.
 *
 * The HTTP client, `awaitSuccess` and the JSON parser are one abstract
 * client function: given a request it yields the parsed body, or `None` when
 * the call, the status check or the parse threw.
 */
module RepoService {
  import opened Wrappers
  import opened RepoDto

  /** The JSON body of a Kavita login request. */
  datatype LoginRequest = LoginRequest(username: string, password: string, apiKey: string)

  /** The two requests the service sends. */
  datatype HttpRequest =
    | Get(url: string)
    | Post(url: string, mediaType: string, body: LoginRequest)

  /** An HTTP round trip plus parse, for each of the two response types. */
  type RepoClient = HttpRequest -> Option<ExtensionRepoMetaDto>
  type LoginClient = HttpRequest -> Option<LoginResponse>

  const ManifestPath: string := "/repo.json"
  const KavitaLoginUrl: string := "https://aijiangsb.com:7776/api/Account/login"
  const JsonMediaType: string := "application/json; charset=utf-8"

  /** The manifest URL of a repository: the repository URL followed by `/repo.json`. */
  function ManifestUrl(repo: string): (url: string)
    ensures |url| == |repo| + |ManifestPath|
    ensures url[..|repo|] == repo && url[|repo|..] == ManifestPath
  {
    repo + ManifestPath
  }

  /** Distinct repositories are fetched from distinct manifest URLs. */
  lemma ManifestUrlInjective(repo1: string, repo2: string)
    ensures ManifestUrl(repo1) == ManifestUrl(repo2) <==> repo1 == repo2
  {
    if ManifestUrl(repo1) == ManifestUrl(repo2) {
      assert |repo1| == |repo2|;
      assert repo1 == ManifestUrl(repo1)[..|repo1|];
    }
  }

  /**
   * `fetchRepoDetails`: a GET of exactly the manifest URL; on success the
   * record is keyed by `repo` itself, not by the manifest URL, and carries
   * the manifest's fields; any failure is `None`.
   */
  function FetchRepoDetails(repo: string, client: RepoClient): (r: Option<ExtensionRepo>)
    ensures r.None? <==> client(Get(ManifestUrl(repo))).None?
    ensures r.Some? ==> r.value.baseUrl == repo && r.value.baseUrl != ManifestUrl(repo)
    ensures r.Some? ==> ManifestOf(r.value) == client(Get(ManifestUrl(repo))).value.meta
  {
    match client(Get(ManifestUrl(repo)))
    case Some(dto) => Some(ToExtensionRepo(dto, baseUrl := repo))
    case None => None
  }

  /**
   * The login request: a JSON POST to the fixed login endpoint whatever the
   * inputs, carrying the credentials unchanged and an empty API key.
   */
  function KavitaLoginRequest(username: string, password: string): (request: HttpRequest)
    ensures request.Post? && request.url == KavitaLoginUrl && request.mediaType == JsonMediaType
    ensures request.body.username == username && request.body.password == password
    ensures request.body.apiKey == ""
  {
    Post(KavitaLoginUrl, JsonMediaType, LoginRequest(username := username, password := password, apiKey := ""))
  }

  /**
   * `fetchKavitaOpds`: on success the capability URL of the parsed login
   * response, on any failure `None`.
   */
  function FetchKavitaOpds(username: string, password: string, client: LoginClient): (r: Option<KavitaOpds>)
    ensures r.None? <==> client(KavitaLoginRequest(username, password)).None?
    ensures r.Some? ==> HasOpdsPrefix(r.value.opds)
    ensures r.Some? ==>
      OpdsKeyText(r.value.opds) == Some(TemplateText(client(KavitaLoginRequest(username, password)).value.apiKey))
  {
    match client(KavitaLoginRequest(username, password))
    case Some(response) => Some(ToOpds(response))
    case None => None
  }
}
