/** The two transforms that turn a GraphQL or a REST response into the normalised profile
    (`transformGraphQLResponse`, `transformRESTResponse`), and `calculateYearsActive`. */
module GitHubNormalize {
  import opened Wrappers
  import opened Js
  import opened Seqs
  import opened GitHubTypes
  import opened LanguageStats
  import opened ExternalContributions

  /** A repository of the GraphQL response, which always carries its byte breakdown. */
  function FromGraphQLRepo(g: GraphQLRepo): Repository {
    Repository(g.name, g.description, g.url, g.homepageUrl, g.stargazerCount, g.forkCount,
               g.primaryLanguage, g.isPrivate, g.isFork, g.isArchived, g.topicNames, g.pushedAt,
               g.createdAt, Some(g.languageEdges))
  }

  function FromGraphQLRepos(gs: seq<GraphQLRepo>): (rs: seq<Repository>)
    ensures |rs| == |gs| && forall i :: 0 <= i < |gs| ==> rs[i] == FromGraphQLRepo(gs[i])
  {
    seq(|gs|, i requires 0 <= i < |gs| => FromGraphQLRepo(gs[i]))
  }

  /** The grey of a language the colour table has no (non-empty) colour for. */
  const DefaultLanguageColor: string := "#8b949e"

  /** `LANGUAGE_COLORS[language] || '#8b949e'`; the colour table is a parameter of the model. */
  function LanguageColor(colors: map<string, string>, language: string): (c: string)
    ensures c != []
    ensures language in colors && colors[language] != [] ==> c == colors[language]
  {
    if language in colors && colors[language] != [] then colors[language] else DefaultLanguageColor
  }

  /** A REST language name becomes a primary language unless it is null or empty. */
  function RESTLanguage(colors: map<string, string>, language: Option<string>): (l: Option<Language>)
    ensures l.Some? <==> language.Some? && language.value != []
    ensures l.Some? ==> l.value.name == language.value
  {
    match language
    case Some(name) => if name == [] then None else Some(Language(name, LanguageColor(colors, name)))
    case None => None
  }

  /** A repository of the REST list: no byte breakdown, and missing topics read as none. */
  function FromRESTRepo(colors: map<string, string>, r: RESTRepo): Repository {
    Repository(r.name, r.description, r.htmlUrl, r.homepage, r.stargazersCount, r.forksCount,
               RESTLanguage(colors, r.language), r.isPrivate, r.fork, r.archived, r.topics.GetOr([]),
               r.pushedAt, r.createdAt, None)
  }

  function IsPublic(r: RESTRepo): bool { !r.isPrivate }

  function IsOriginal(r: Repository): bool { !r.isFork }

  /** The public repositories of a REST list, normalised, in their original order. */
  function FromRESTRepos(colors: map<string, string>, rs: seq<RESTRepo>): (out: seq<Repository>)
    ensures |out| <= |rs|
    ensures forall i :: 0 <= i < |out| ==> !out[i].isPrivate && out[i].languages.None?
  {
    var pub := Filter(rs, IsPublic);
    seq(|pub|, i requires 0 <= i < |pub| => FromRESTRepo(colors, pub[i]))
  }

  function RepoStars(r: Repository): int { r.stargazerCount }

  function RepoForks(r: Repository): int { r.forkCount }

  /** `originalRepos.slice(0, 6)`: the first six non-fork repositories. */
  function FallbackPinned(repositories: seq<Repository>): seq<Repository> {
    var originals := Filter(repositories, IsOriginal);
    originals[..SliceEnd(|originals|, 6)]
  }

  // ---------------------------------------------------------------- years active

  /** The milliseconds of a 365-day year. */
  const MsPerYear: int := 1000 * 60 * 60 * 24 * 365

  /** `Math.max(1, Math.round((now - created) / year))`, with the date parse and the clock as
      parameters: `createdMs` is None when the date does not parse, and NaN then propagates. */
  function YearsActive(createdMs: Option<int>, nowMs: int): (y: JsNumber)
    ensures y.NaN? <==> createdMs.None?
    ensures y.Int? ==> y.value >= 1
    ensures createdMs.Some? ==>
      (y.value > 1 <==> 2 * (nowMs - createdMs.value) + MsPerYear >= 4 * MsPerYear)
    ensures y.Int? && y.value > 1 ==>
      var d := nowMs - createdMs.value;
      2 * MsPerYear * y.value <= 2 * d + MsPerYear < 2 * MsPerYear * (y.value + 1)
  {
    match createdMs
    case None => NaN
    case Some(created) =>
      var rounded := (2 * (nowMs - created) + MsPerYear) / (2 * MsPerYear);
      Int(if rounded < 1 then 1 else rounded)
  }

  // ---------------------------------------------------------------- the transforms

  function StatsOf(repositories: seq<Repository>, totalRepos: nat, followers: nat, following: nat, years: JsNumber): Stats {
    var originals := Filter(repositories, IsOriginal);
    SumByNonNegative(repositories, RepoStars);
    SumByNonNegative(originals, RepoStars);
    SumByNonNegative(repositories, RepoForks);
    Stats(totalRepos, SumBy(repositories, RepoStars), SumBy(originals, RepoStars), SumBy(repositories, RepoForks),
          followers, following, years)
  }

  function ContributionsOf(login: string, c: GraphQLContributions): ContributionsCollection {
    var external := ExternalContributionsOf(login, c.pullRequests, c.commits);
    SumByNonNegative(external, EntryPr);
    SumByNonNegative(external, EntryCommit);
    ContributionsCollection(
      c.totalCommitContributions, c.totalIssueContributions, c.totalPullRequestContributions,
      c.totalPullRequestReviewContributions, c.contributionCalendar, external,
      SumBy(external, EntryPr), SumBy(external, EntryCommit))
  }

  /** `transformGraphQLResponse`; `dateMs` stands for `new Date(...).getTime()` and `nowMs` for the clock. */
  function TransformGraphQL(u: GraphQLUser, dateMs: string -> Option<int>, nowMs: int): GitHubProfile {
    var repositories := FromGraphQLRepos(u.repositories);
    var pinned := FromGraphQLRepos(u.pinnedItems);
    var originals := Filter(repositories, IsOriginal);
    GitHubProfile(
      GitHubUser(u.login, u.name, u.bio, u.avatarUrl, u.location, u.company, u.websiteUrl,
                 u.twitterUsername, u.email, u.followers, u.following, u.createdAt, u.updatedAt),
      repositories,
      if |pinned| > 0 then pinned else FallbackPinned(repositories),
      Some(ContributionsOf(u.login, u.contributionsCollection)),
      LanguageStatsOf(originals),
      StatsOf(repositories, u.repositoryCount, u.followers, u.following, YearsActive(dateMs(u.createdAt), nowMs)))
  }

  /** `transformRESTResponse`; `colors` is the language colour table. */
  function TransformREST(u: RESTUser, repos: seq<RESTRepo>, colors: map<string, string>,
                         dateMs: string -> Option<int>, nowMs: int): GitHubProfile
  {
    var repositories := FromRESTRepos(colors, repos);
    var originals := Filter(repositories, IsOriginal);
    GitHubProfile(
      GitHubUser(u.login, u.name, u.bio, u.avatarUrl, u.location, u.company, u.blog,
                 u.twitterUsername, u.email, u.followers, u.following, u.createdAt, u.updatedAt),
      repositories,
      FallbackPinned(repositories),
      None,
      LanguageStatsOf(originals),
      StatsOf(repositories, u.publicRepos, u.followers, u.following, YearsActive(dateMs(u.createdAt), nowMs)))
  }

  // ---------------------------------------------------------------- what the profiles promise

  /** The fallback pinned list holds at most six repositories, none of them a fork, all of them
      from the list; when it holds fewer than six, it holds every non-fork repository. */
  lemma FallbackPinnedShape(repositories: seq<Repository>)
    ensures var p := FallbackPinned(repositories);
      && |p| <= 6
      && (forall i :: 0 <= i < |p| ==> !p[i].isFork && p[i] in repositories)
      && (|p| < 6 ==> forall r :: r in repositories && !r.isFork ==> r in p)
  {
    var originals := Filter(repositories, IsOriginal);
    var p := FallbackPinned(repositories);
    assert forall i :: 0 <= i < |p| ==> p[i] == originals[i];
    if |p| < 6 {
      assert p == originals;
      forall r | r in repositories && !r.isFork ensures r in p {
        var i :| 0 <= i < |repositories| && repositories[i] == r;
        assert IsOriginal(repositories[i]);
      }
    }
  }

  /** Stars of non-fork repositories never exceed the stars of all repositories. */
  lemma {:induction false} OriginalStarsBounded(repositories: seq<Repository>, totalRepos: nat, followers: nat,
                                                following: nat, years: JsNumber)
    ensures var s := StatsOf(repositories, totalRepos, followers, following, years);
      s.originalStars <= s.totalStars
  {
    SumByFilterLe(repositories, IsOriginal, RepoStars);
  }

  /** A GraphQL profile: the pinned list is the user's own when it has any entries and the
      fallback otherwise; the contribution totals are those of the records not owned by the user;
      the language breakdown is that of the non-fork repositories; stars satisfy their bound. */
  lemma TransformGraphQLShape(u: GraphQLUser, dateMs: string -> Option<int>, nowMs: int)
    ensures var p := TransformGraphQL(u, dateMs, nowMs);
      var ul := Strings.ToLower(u.login);
      var rs := Records(u.contributionsCollection.pullRequests, u.contributionsCollection.commits);
      && |p.repositories| == |u.repositories|
      && (|u.pinnedItems| > 0 ==> p.pinnedRepositories == FromGraphQLRepos(u.pinnedItems))
      && (|u.pinnedItems| == 0 ==> p.pinnedRepositories == FallbackPinned(p.repositories))
      && p.contributions.Some?
      && p.contributions.value.externalPRCount == TotalPr(ul, rs)
      && p.contributions.value.externalCommitCount == TotalCommit(ul, rs)
      && p.languages == LanguageStatsOf(Filter(p.repositories, IsOriginal))
      && p.stats.originalStars <= p.stats.totalStars
      && (p.stats.yearsActive.Int? ==> p.stats.yearsActive.value >= 1)
  {
    var p := TransformGraphQL(u, dateMs, nowMs);
    var c := u.contributionsCollection;
    ExternalOrderAndTotals(u.login, c.pullRequests, c.commits);
    OriginalStarsBounded(p.repositories, u.repositoryCount, u.followers, u.following, p.stats.yearsActive);
  }

  /** A REST profile holds only public repositories, none with a byte breakdown, no contribution
      data, and always the fallback pinned list. */
  lemma TransformRESTShape(u: RESTUser, repos: seq<RESTRepo>, colors: map<string, string>,
                           dateMs: string -> Option<int>, nowMs: int)
    ensures var p := TransformREST(u, repos, colors, dateMs, nowMs);
      && (forall i :: 0 <= i < |p.repositories| ==> !p.repositories[i].isPrivate && p.repositories[i].languages.None?)
      && (forall r :: r in repos && !r.isPrivate ==> FromRESTRepo(colors, r) in p.repositories)
      && p.contributions.None?
      && p.pinnedRepositories == FallbackPinned(p.repositories)
      && p.stats.totalRepos == u.publicRepos
      && p.stats.originalStars <= p.stats.totalStars
  {
    var p := TransformREST(u, repos, colors, dateMs, nowMs);
    var pub := Filter(repos, IsPublic);
    forall r | r in repos && !r.isPrivate ensures FromRESTRepo(colors, r) in p.repositories {
      var i :| 0 <= i < |repos| && repos[i] == r;
      assert IsPublic(repos[i]);
      var j :| 0 <= j < |pub| && pub[j] == r;
      assert p.repositories[j] == FromRESTRepo(colors, r);
    }
    OriginalStarsBounded(p.repositories, u.publicRepos, u.followers, u.following, p.stats.yearsActive);
  }
}
