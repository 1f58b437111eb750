/**
 * The wire objects of the extension-repository manifest and of the Kavita
 * login exchange, and their mappings to domain values.
 */
module RepoDto {
  import opened Wrappers

  /** The `meta` object of a repository's `repo.json` manifest. */
  datatype ExtensionRepoDto = ExtensionRepoDto(
    name: string,
    shortName: Option<string>,
    website: string,
    signingKeyFingerprint: string)

  /** The whole manifest document: `{ "meta": { ... } }`. */
  datatype ExtensionRepoMetaDto = ExtensionRepoMetaDto(meta: ExtensionRepoDto)

  /** The body of a Kavita login response; the key may be null. */
  datatype LoginResponse = LoginResponse(apiKey: Option<string>)

  /** A registered extension repository, keyed by its base URL. */
  datatype ExtensionRepo = ExtensionRepo(
    baseUrl: string,
    name: string,
    shortName: Option<string>,
    website: string,
    signingKeyFingerprint: string)

  /** A capability URL for a Kavita user's OPDS feed. */
  datatype KavitaOpds = KavitaOpds(opds: string)

  /** The manifest part of a record: every field except the key. */
  function ManifestOf(repo: ExtensionRepo): ExtensionRepoDto
  {
    ExtensionRepoDto(repo.name, repo.shortName, repo.website, repo.signingKeyFingerprint)
  }

  /** `toExtensionRepo`: the record is keyed by the caller's URL and carries the manifest's fields. */
  function ToExtensionRepo(dto: ExtensionRepoMetaDto, baseUrl: string): (r: ExtensionRepo)
    ensures r.baseUrl == baseUrl
    ensures ManifestOf(r) == dto.meta
  {
    ExtensionRepo(
      baseUrl := baseUrl,
      name := dto.meta.name,
      shortName := dto.meta.shortName,
      website := dto.meta.website,
      signingKeyFingerprint := dto.meta.signingKeyFingerprint)
  }

  /** Nothing but the manifest and the base URL feeds a record, and nothing of them is lost. */
  lemma ToExtensionRepoInjective(d1: ExtensionRepoMetaDto, b1: string, d2: ExtensionRepoMetaDto, b2: string)
    ensures ToExtensionRepo(d1, b1) == ToExtensionRepo(d2, b2) <==> d1 == d2 && b1 == b2
  {
  }

  /** Every record is the mapping of its own manifest under its own key. */
  lemma ToExtensionRepoOfManifest(repo: ExtensionRepo)
    ensures ToExtensionRepo(ExtensionRepoMetaDto(ManifestOf(repo)), repo.baseUrl) == repo
  {
  }

  /** How a Kotlin string template renders a `String?`: a null prints as the text "null". */
  function TemplateText(s: Option<string>): string
  {
    match s
    case Some(text) => text
    case None => "null"
  }

  /** The fixed template into which `toOpds` puts the API key. */
  const OpdsPrefix: string := "http://aijiangsb.com:7776/api/opds/"

  predicate HasOpdsPrefix(url: string)
  {
    |OpdsPrefix| <= |url| && url[..|OpdsPrefix|] == OpdsPrefix
  }

  /** The inverse of the template: what follows the prefix of an OPDS URL. */
  function OpdsKeyText(url: string): (key: Option<string>)
    ensures key.Some? <==> HasOpdsPrefix(url)
  {
    if HasOpdsPrefix(url) then Some(url[|OpdsPrefix|..]) else None
  }

  /**
   * `toOpds`: the URL always carries the fixed prefix, and stripping the
   * prefix gives back the key as the template printed it. There is no
   * failure path: a null key gives the prefix followed by "null".
   */
  function ToOpds(response: LoginResponse): (r: KavitaOpds)
    ensures HasOpdsPrefix(r.opds)
    ensures OpdsKeyText(r.opds) == Some(TemplateText(response.apiKey))
  {
    KavitaOpds(OpdsPrefix + TemplateText(response.apiKey))
  }

  /** Distinct non-null keys give distinct capability URLs. */
  lemma ToOpdsInjective(k1: string, k2: string)
    ensures ToOpds(LoginResponse(Some(k1))) == ToOpds(LoginResponse(Some(k2))) <==> k1 == k2
  {
    if ToOpds(LoginResponse(Some(k1))) == ToOpds(LoginResponse(Some(k2))) {
      assert Some(k1) == OpdsKeyText(ToOpds(LoginResponse(Some(k1))).opds);
    }
  }

  /**
   * A null key is not an error: it yields the prefix followed by "null", the
   * very URL a server that sent the key "null" would yield.
   */
  lemma NullApiKeyRendersAsText()
    ensures ToOpds(LoginResponse(None)).opds == OpdsPrefix + "null"
    ensures ToOpds(LoginResponse(None)) == ToOpds(LoginResponse(Some("null")))
  {
  }
}
