/** The shapes of the GitHub data the profile code works on: the normalised profile the app
    uses, and the parts of the GraphQL and REST responses it reads. Counts are natural numbers;
    fields the code only copies are kept as strings. */
module GitHubTypes {
  import opened Wrappers
  import opened Js

  datatype Language = Language(name: string, color: string)

  datatype LanguageEdge = LanguageEdge(size: nat, node: Language)

  datatype GitHubUser = GitHubUser(
    login: string, name: Option<string>, bio: Option<string>, avatarUrl: string,
    location: Option<string>, company: Option<string>, websiteUrl: Option<string>,
    twitterUsername: Option<string>, email: Option<string>,
    followers: nat, following: nat, createdAt: string, updatedAt: string)

  /** A repository of the normalised profile; `languages` is the GraphQL byte breakdown and is
      absent for repositories that came from the REST API. */
  datatype Repository = Repository(
    name: string, description: Option<string>, url: string, homepageUrl: Option<string>,
    stargazerCount: nat, forkCount: nat, primaryLanguage: Option<Language>,
    isPrivate: bool, isFork: bool, isArchived: bool, topics: seq<string>,
    pushedAt: Option<string>, createdAt: string, languages: Option<seq<LanguageEdge>>)

  datatype ContributionDay = ContributionDay(date: string, contributionCount: nat, color: string)

  datatype ContributionCalendar = ContributionCalendar(totalContributions: nat, weeks: seq<seq<ContributionDay>>)

  datatype ExternalContribution = ExternalContribution(
    repoName: string, owner: string, prCount: nat, commitCount: nat,
    language: Option<Language>, stargazerCount: nat)

  /** The contribution summary; the three `external` fields are always present on a profile
      built from GraphQL data. */
  datatype ContributionsCollection = ContributionsCollection(
    totalCommitContributions: nat, totalIssueContributions: nat,
    totalPullRequestContributions: nat, totalPullRequestReviewContributions: nat,
    contributionCalendar: ContributionCalendar,
    externalContributions: seq<ExternalContribution>,
    externalPRCount: nat, externalCommitCount: nat)

  datatype LanguageStat = LanguageStat(name: string, color: string, percentage: int, size: nat)

  /** `yearsActive` is NaN when the account's creation date does not parse. */
  datatype Stats = Stats(
    totalRepos: nat, totalStars: nat, originalStars: nat, totalForks: nat,
    followers: nat, following: nat, yearsActive: JsNumber)

  datatype GitHubProfile = GitHubProfile(
    user: GitHubUser, repositories: seq<Repository>, pinnedRepositories: seq<Repository>,
    contributions: Option<ContributionsCollection>, languages: seq<LanguageStat>, stats: Stats)

  // ---------------------------------------------------------------- GraphQL response

  datatype GraphQLRepo = GraphQLRepo(
    name: string, description: Option<string>, url: string, homepageUrl: Option<string>,
    stargazerCount: nat, forkCount: nat, primaryLanguage: Option<Language>,
    languageEdges: seq<LanguageEdge>, isPrivate: bool, isFork: bool, isArchived: bool,
    topicNames: seq<string>, pushedAt: Option<string>, createdAt: string)

  /** An entry of `pullRequestContributionsByRepository`. */
  datatype PRContribution = PRContribution(
    nameWithOwner: string, ownerLogin: string, primaryLanguage: Option<Language>,
    stargazerCount: nat, totalCount: nat)

  /** An entry of `commitContributionsByRepository`, which carries no star count. */
  datatype CommitContribution = CommitContribution(
    nameWithOwner: string, ownerLogin: string, primaryLanguage: Option<Language>, totalCount: nat)

  datatype GraphQLContributions = GraphQLContributions(
    totalCommitContributions: nat, totalIssueContributions: nat,
    totalPullRequestContributions: nat, totalPullRequestReviewContributions: nat,
    contributionCalendar: ContributionCalendar,
    pullRequests: seq<PRContribution>, commits: seq<CommitContribution>)

  datatype GraphQLUser = GraphQLUser(
    login: string, name: Option<string>, bio: Option<string>, avatarUrl: string,
    location: Option<string>, company: Option<string>, websiteUrl: Option<string>,
    twitterUsername: Option<string>, email: Option<string>,
    followers: nat, following: nat, createdAt: string, updatedAt: string,
    repositoryCount: nat, repositories: seq<GraphQLRepo>, pinnedItems: seq<GraphQLRepo>,
    contributionsCollection: GraphQLContributions)

  // ---------------------------------------------------------------- REST response

  datatype RESTUser = RESTUser(
    login: string, name: Option<string>, bio: Option<string>, avatarUrl: string,
    location: Option<string>, company: Option<string>, blog: Option<string>,
    twitterUsername: Option<string>, email: Option<string>,
    followers: nat, following: nat, createdAt: string, updatedAt: string, publicRepos: nat)

  /** A repository of the REST list; `topics` may be missing from the response. */
  datatype RESTRepo = RESTRepo(
    name: string, description: Option<string>, htmlUrl: string, homepage: Option<string>,
    stargazersCount: nat, forksCount: nat, language: Option<string>,
    isPrivate: bool, fork: bool, archived: bool, topics: Option<seq<string>>,
    pushedAt: Option<string>, createdAt: string)

  // ---------------------------------------------------------------- errors

  datatype ErrorType = NotFound | RateLimit | Unauthorized | Unknown

  datatype GitHubError = GitHubError(kind: ErrorType, message: string, status: Option<int>)

  type GitHubResult<T> = Result<T, GitHubError>
}
