/** The interactor that hands a Kavita OPDS URL, or an error marker, to the screen. */
module GetKavitaUserOpds {
  import opened Wrappers
  import opened RepoDto
  import opened RepoService

  /** What the interactor returns when the login exchange failed. */
  const ErrorText: string := "Error"

  /**
   * `await`: the OPDS URL when the service produced one, otherwise exactly
   * "Error". The two cannot be confused: every OPDS URL carries the prefix.
   */
  function Await(username: string, password: string, client: LoginClient): (r: string)
    ensures r == ErrorText <==> FetchKavitaOpds(username, password, client).None?
    ensures FetchKavitaOpds(username, password, client).Some? ==>
      r == FetchKavitaOpds(username, password, client).value.opds
  {
    match FetchKavitaOpds(username, password, client)
    case Some(kavita) => kavita.opds
    case None => ErrorText
  }

  /**
   * No credential is rejected, blank or empty ones included: the result is
   * decided by the server's answer to the unchanged credentials alone.
   */
  lemma AwaitForwardsCredentials(username: string, password: string, client: LoginClient)
    ensures Await(username, password, client) ==
      match client(Post(KavitaLoginUrl, JsonMediaType, LoginRequest(username, password, "")))
      case Some(response) => OpdsPrefix + TemplateText(response.apiKey)
      case None => ErrorText
  {
  }

  /** A successful login whose `apiKey` is null gives the URL ending in "null", not "Error". */
  lemma NullApiKeyIsNotAnError(username: string, password: string, client: LoginClient)
    requires client(KavitaLoginRequest(username, password)) == Some(LoginResponse(None))
    ensures Await(username, password, client) == OpdsPrefix + "null"
    ensures Await(username, password, client) != ErrorText
  {
  }
}
