/** The two fetchers and the fallback between them (`fetchUserGraphQL`, `fetchUserREST`,
    `fetchGitHubProfile`). The network is replaced by what each request came back with. */
module GitHubFetch {
  import opened Wrappers
  import opened Js
  import opened Strings
  import opened GitHubTypes
  import opened GitHubNormalize

  /** What a `fetch` call came to: it threw, or a response arrived whose `json()` either parsed
      to a body or threw. */
  datatype HttpOutcome<T> =
    | Threw(thrown: Thrown)
    | Responded(status: int, statusText: string, body: Result<T, Thrown>)

  predicate IsOk(status: int) { 200 <= status < 300 }

  /** The parts of a GraphQL response body the code reads: the `errors` array when present, and
      `data.user`, which is None when `data` or `user` is missing or null. */
  datatype GraphQLBody = GraphQLBody(errors: Option<seq<string>>, user: Option<GraphQLUser>)

  const NoTokenMessage: string := "GitHub token not configured. Using REST API fallback."
  const InvalidTokenMessage: string := "Invalid GitHub token"
  const RateLimitMessage: string := "GitHub API rate limit exceeded"
  const UnknownErrorMessage: string := "Unknown error occurred"
  const ApiErrorPrefix: string := "GitHub API error: "
  const NotResolvedMarker: string := "Could not resolve"

  /** The message of the TypeError raised by reading `message` off `errors[0]` of an empty
      `errors` array (the wording V8 uses). */
  const EmptyErrorsMessage: string := "Cannot read properties of undefined (reading 'message')"

  function NotFoundMessage(username: string): string {
    "User \"" + username + "\" not found"
  }

  /** `!GITHUB_TOKEN`: no token, or an empty one. */
  predicate HasToken(token: Option<string>) {
    token.Some? && token.value != []
  }

  /** `username.trim().replace(/^@/, '')` */
  function CleanUsername(username: string): (r: string)
    ensures var t := Trim(username);
      && |r| <= |t| <= |r| + 1
      && r == t[|t| - |r|..]
      && (|r| < |t| <==> t != [] && t[0] == '@')
  {
    var t := Trim(username);
    if t != [] && t[0] == '@' then t[1..] else t
  }

  function Failure<T>(kind: ErrorType, message: string, status: Option<int>): GitHubResult<T> {
    Err(GitHubError(kind, message, status))
  }

  /** `catch (error)`: every throw becomes an UNKNOWN error. */
  function Caught<T>(e: Thrown): GitHubResult<T> {
    Failure(Unknown, MessageOr(e, UnknownErrorMessage), None)
  }

  predicate MentionsNotResolved(errors: seq<string>) {
    exists i :: 0 <= i < |errors| && Contains(errors[i], NotResolvedMarker)
  }

  /** `fetchUserGraphQL`, given the token and what the POST to the GraphQL endpoint came to. */
  function FetchUserGraphQL(token: Option<string>, username: string, outcome: HttpOutcome<GraphQLBody>,
                            dateMs: string -> Option<int>, nowMs: int): GitHubResult<GitHubProfile>
  {
    if !HasToken(token) then Failure(Unauthorized, NoTokenMessage, None)
    else match outcome
      case Threw(e) => Caught(e)
      case Responded(status, statusText, body) =>
        if !IsOk(status) then
          if status == 401 then Failure(Unauthorized, InvalidTokenMessage, Some(401))
          else if status == 403 then Failure(RateLimit, RateLimitMessage, Some(403))
          else Failure(Unknown, ApiErrorPrefix + statusText, Some(status))
        else match body
          case Err(e) => Caught(e)
          case Ok(json) =>
            if json.errors.Some? then
              var errors := json.errors.value;
              if MentionsNotResolved(errors) then Failure(NotFound, NotFoundMessage(username), None)
              else if errors == [] then Failure(Unknown, EmptyErrorsMessage, None)
              else Failure(Unknown, errors[0], None)
            else match json.user
              case None => Failure(NotFound, NotFoundMessage(username), None)
              case Some(u) => Ok(TransformGraphQL(u, dateMs, nowMs))
  }

  /** `fetchUserREST`, given what the user request and the repository-list request came to
      (the second is made only when the first succeeds). */
  function FetchUserREST(username: string, userOutcome: HttpOutcome<RESTUser>, reposOutcome: HttpOutcome<seq<RESTRepo>>,
                         colors: map<string, string>, dateMs: string -> Option<int>, nowMs: int): GitHubResult<GitHubProfile>
  {
    match userOutcome
    case Threw(e) => Caught(e)
    case Responded(status, statusText, body) =>
      if !IsOk(status) then
        if status == 404 then Failure(NotFound, NotFoundMessage(username), Some(404))
        else if status == 403 then Failure(RateLimit, RateLimitMessage, Some(403))
        else Failure(Unknown, ApiErrorPrefix + statusText, Some(status))
      else match body
        case Err(e) => Caught(e)
        case Ok(user) =>
          match reposOutcome
          case Threw(e) => Caught(e)
          case Responded(reposStatus, _, reposBody) =>
            if !IsOk(reposStatus) then Ok(TransformREST(user, [], colors, dateMs, nowMs))
            else match reposBody
              case Err(e) => Caught(e)
              case Ok(repos) => Ok(TransformREST(user, repos, colors, dateMs, nowMs))
  }

  /** A request the profile fetch makes, with the handle it asks for. */
  datatype ApiCall = GraphQLCall(username: string) | RESTCall(username: string)

  /** The outcomes of every request the fetch may make, and the inputs the transforms need. */
  datatype Environment = Environment(
    token: Option<string>, graphql: HttpOutcome<GraphQLBody>,
    restUser: HttpOutcome<RESTUser>, restRepos: HttpOutcome<seq<RESTRepo>>,
    colors: map<string, string>, dateMs: string -> Option<int>, nowMs: int)

  datatype Fetched = Fetched(result: GitHubResult<GitHubProfile>, calls: seq<ApiCall>)

  function GraphQLResult(env: Environment, username: string): GitHubResult<GitHubProfile> {
    FetchUserGraphQL(env.token, username, env.graphql, env.dateMs, env.nowMs)
  }

  function RESTResult(env: Environment, username: string): GitHubResult<GitHubProfile> {
    FetchUserREST(username, env.restUser, env.restRepos, env.colors, env.dateMs, env.nowMs)
  }

  /** `fetchGitHubProfile`: GraphQL first when there is a token, REST when there is none or
      GraphQL answered UNAUTHORIZED; the result, and the requests made in order. */
  function FetchGitHubProfile(username: string, env: Environment): Fetched {
    var clean := CleanUsername(username);
    if HasToken(env.token) then
      var g := GraphQLResult(env, clean);
      if g.Ok? || g.error.kind != Unauthorized then Fetched(g, [GraphQLCall(clean)])
      else Fetched(RESTResult(env, clean), [GraphQLCall(clean), RESTCall(clean)])
    else Fetched(RESTResult(env, clean), [RESTCall(clean)])
  }

  // ---------------------------------------------------------------- what the fetchers promise

  /** A GraphQL response with a failing status maps 401 to UNAUTHORIZED, 403 to RATE_LIMIT and
      any other status to UNKNOWN, keeping the status. */
  lemma GraphQLStatusErrors(token: Option<string>, username: string, outcome: HttpOutcome<GraphQLBody>,
                            dateMs: string -> Option<int>, nowMs: int)
    requires HasToken(token) && outcome.Responded? && !IsOk(outcome.status)
    ensures var r := FetchUserGraphQL(token, username, outcome, dateMs, nowMs);
      && r.Err?
      && r.error.status == Some(outcome.status)
      && r.error.kind == (if outcome.status == 401 then Unauthorized
                          else if outcome.status == 403 then RateLimit else Unknown)
  {
  }

  /** GraphQL reports NOT_FOUND exactly when an error mentions "Could not resolve", or when there
      are no errors and no user. */
  lemma GraphQLNotFound(token: Option<string>, username: string, outcome: HttpOutcome<GraphQLBody>,
                        dateMs: string -> Option<int>, nowMs: int)
    ensures var r := FetchUserGraphQL(token, username, outcome, dateMs, nowMs);
      (r.Err? && r.error.kind == NotFound) <==>
        && HasToken(token) && outcome.Responded? && IsOk(outcome.status) && outcome.body.Ok?
        && var json := outcome.body.value;
           (json.errors.Some? && MentionsNotResolved(json.errors.value)) || (json.errors.None? && json.user.None?)
  {
  }

  /** GraphQL succeeds exactly on an ok response without errors that holds a user, and then
      returns that user's normalised profile. */
  lemma GraphQLSuccess(token: Option<string>, username: string, outcome: HttpOutcome<GraphQLBody>,
                       dateMs: string -> Option<int>, nowMs: int)
    ensures var r := FetchUserGraphQL(token, username, outcome, dateMs, nowMs);
      r.Ok? <==>
        && HasToken(token) && outcome.Responded? && IsOk(outcome.status) && outcome.body.Ok?
        && outcome.body.value.errors.None? && outcome.body.value.user.Some?
    ensures var r := FetchUserGraphQL(token, username, outcome, dateMs, nowMs);
      r.Ok? ==> r.value == TransformGraphQL(outcome.body.value.user.value, dateMs, nowMs)
  {
  }

  /** GraphQL answers UNAUTHORIZED only without a token or on a 401. */
  lemma GraphQLUnauthorized(token: Option<string>, username: string, outcome: HttpOutcome<GraphQLBody>,
                            dateMs: string -> Option<int>, nowMs: int)
    ensures var r := FetchUserGraphQL(token, username, outcome, dateMs, nowMs);
      (r.Err? && r.error.kind == Unauthorized) <==>
        !HasToken(token) || (outcome.Responded? && outcome.status == 401)
  {
  }

  /** The REST fetcher maps 404 to NOT_FOUND and 403 to RATE_LIMIT, and never answers UNAUTHORIZED. */
  lemma RESTErrors(username: string, userOutcome: HttpOutcome<RESTUser>, reposOutcome: HttpOutcome<seq<RESTRepo>>,
                   colors: map<string, string>, dateMs: string -> Option<int>, nowMs: int)
    ensures var r := FetchUserREST(username, userOutcome, reposOutcome, colors, dateMs, nowMs);
      && (r.Err? ==> r.error.kind != Unauthorized)
      && (userOutcome.Responded? && userOutcome.status == 404 ==> r == Failure(NotFound, NotFoundMessage(username), Some(404)))
      && (userOutcome.Responded? && userOutcome.status == 403 ==> r == Failure(RateLimit, RateLimitMessage, Some(403)))
  {
  }

  /** A failing repository-list request yields a profile with no repositories, not an error. */
  lemma RESTReposFailure(username: string, user: RESTUser, userStatus: int, userText: string,
                         reposOutcome: HttpOutcome<seq<RESTRepo>>,
                         colors: map<string, string>, dateMs: string -> Option<int>, nowMs: int)
    requires IsOk(userStatus) && reposOutcome.Responded? && !IsOk(reposOutcome.status)
    ensures var r := FetchUserREST(username, Responded(userStatus, userText, Ok(user)), reposOutcome, colors, dateMs, nowMs);
      r.Ok? && r.value.repositories == [] && r.value.pinnedRepositories == [] && r.value.contributions.None?
  {
    assert GitHubNormalize.FromRESTRepos(colors, []) == [];
  }

  /** The fallback: with a token, a GraphQL success or any error other than UNAUTHORIZED is
      returned as it is and REST is not asked; without a token, or after UNAUTHORIZED, the REST
      result is returned. */
  lemma FetchFallback(username: string, env: Environment)
    ensures var f, clean := FetchGitHubProfile(username, env), CleanUsername(username);
      var g := GraphQLResult(env, clean);
      && (HasToken(env.token) && (g.Ok? || g.error.kind != Unauthorized) ==>
            f.result == g && f.calls == [GraphQLCall(clean)])
      && (!HasToken(env.token) ==> f.result == RESTResult(env, clean) && f.calls == [RESTCall(clean)])
      && (HasToken(env.token) && g.Err? && g.error.kind == Unauthorized ==>
            f.result == RESTResult(env, clean) && f.calls == [GraphQLCall(clean), RESTCall(clean)])
  {
  }

  /** The profile fetch never reports UNAUTHORIZED: GraphQL's is replaced by the REST result,
      and REST has no such error. */
  lemma FetchNeverUnauthorized(username: string, env: Environment)
    ensures var f := FetchGitHubProfile(username, env);
      f.result.Err? ==> f.result.error.kind != Unauthorized
  {
    var clean := CleanUsername(username);
    var f := FetchGitHubProfile(username, env);
    var rest := RESTResult(env, clean);
    RESTErrors(clean, env.restUser, env.restRepos, env.colors, env.dateMs, env.nowMs);
    assert rest.Err? ==> rest.error.kind != Unauthorized;
    if HasToken(env.token) {
      var g := GraphQLResult(env, clean);
      if g.Ok? || g.error.kind != Unauthorized {
        assert f.result == g;
      } else {
        assert f.result == rest;
      }
    } else {
      assert f.result == rest;
    }
  }

  /** REST is asked exactly when there is no token or GraphQL answered UNAUTHORIZED. */
  lemma FetchAsksREST(username: string, env: Environment)
    ensures var f, clean := FetchGitHubProfile(username, env), CleanUsername(username);
      var g := GraphQLResult(env, clean);
      RESTCall(clean) in f.calls <==> !HasToken(env.token) || (g.Err? && g.error.kind == Unauthorized)
  {
    var clean := CleanUsername(username);
    var f := FetchGitHubProfile(username, env);
    if HasToken(env.token) {
      var g := GraphQLResult(env, clean);
      if g.Ok? || g.error.kind != Unauthorized {
        assert f.calls == [GraphQLCall(clean)];
      }
    }
  }
}
