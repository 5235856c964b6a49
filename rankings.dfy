/** The rankings: the top repositories and the top users of a GitHub search, ranked from 1,
    and `formatCount`, which writes a count with a `k` or `M` suffix. */
module Rankings {
  import opened Wrappers
  import opened Js
  import opened Strings
  import opened Seqs
  import opened GitHubTypes
  import opened GitHubFetch

  // ---------------------------------------------------------------- shapes

  datatype Owner = Owner(login: string, avatarUrl: string)

  /** A repository node of the search response. */
  datatype RepoNode = RepoNode(nameWithOwner: string, description: Option<string>, url: string,
                               stargazerCount: int, forkCount: int, primaryLanguage: Option<Language>,
                               owner: Owner)

  datatype RankedRepository = RankedRepository(rank: int, nameWithOwner: string, description: Option<string>,
                                               url: string, stargazerCount: int, forkCount: int,
                                               primaryLanguage: Option<Language>, owner: Owner)

  /** One of the (at most ten) repositories returned with a user. */
  datatype StarNode = StarNode(stargazerCount: int)

  /** A user node of the search response. */
  datatype UserNode = UserNode(login: string, name: Option<string>, avatarUrl: string, bio: Option<string>,
                               followers: int, totalRepos: int, repositories: seq<StarNode>)

  datatype RankedUser = RankedUser(rank: int, login: string, name: Option<string>, avatarUrl: string,
                                   bio: Option<string>, followers: int, totalRepos: int, totalStars: int)

  /** An entry of `search.nodes`: `null`, an object without the field that marks the expected type,
      or a node of that type. */
  datatype SearchNode<T> = NullNode | OtherNode | Hit(node: T)

  /** What the code reads from the JSON body: `errors` when present, the message of each error,
      and `data.search.nodes`, None when any step of that path is missing. */
  datatype SearchBody<T> = SearchBody(errors: Option<seq<string>>, nodes: Option<seq<SearchNode<T>>>)

  /** The variables posted with the GraphQL query. */
  datatype SearchRequest = SearchRequest(query: string, first: int)

  datatype RankingsResult<T> = RankingsResult(success: bool, data: seq<T>, error: Option<string>)

  datatype UserSort = ByFollowers | ByStars

  const TokenMissingMessage: string := "GitHub token not configured"
  const NoDataMessage: string := "No data returned from GitHub"
  const CaughtFallbackMessage: string := "Unknown error"

  function Failed<T>(message: string): RankingsResult<T> {
    RankingsResult(false, [], Some(message))
  }

  // ---------------------------------------------------------------- the search

  /** The repository search: `stars:>1000 sort:stars`, with a language qualifier when a
      non-empty language is given. */
  function RepoSearchQuery(language: Option<string>): (q: string)
    ensures language.Some? && language.value != [] ==> q == "stars:>1000 language:" + language.value + " sort:stars"
    ensures language.None? || language.value == [] ==> q == "stars:>1000 sort:stars"
  {
    if language.Some? && language.value != [] then "stars:>1000 language:" + language.value + " sort:stars"
    else "stars:>1000 sort:stars"
  }

  const UserSearchQuery: string := "followers:>1000 sort:followers type:user"

  /** The handling the two fetchers share once the request is sent: what was thrown, a status
      outside 200..299, a body that does not parse, a present `errors` array, and missing nodes
      each become the error message of a failed result; otherwise the nodes. */
  function SearchNodes<T>(outcome: HttpOutcome<SearchBody<T>>): (r: Result<seq<SearchNode<T>>, string>)
    ensures outcome.Threw? ==> r == Err(MessageOr(outcome.thrown, CaughtFallbackMessage))
    ensures outcome.Responded? && !IsOk(outcome.status) ==>
      r == Err(if outcome.status == 403 then RateLimitMessage else ApiErrorPrefix + outcome.statusText)
    ensures outcome.Responded? && IsOk(outcome.status) && outcome.body.Err? ==>
      r == Err(MessageOr(outcome.body.error, CaughtFallbackMessage))
    ensures outcome.Responded? && IsOk(outcome.status) && outcome.body.Ok? && outcome.body.value.errors.Some? ==>
      var errors := outcome.body.value.errors.value;
      r == Err(if errors == [] then EmptyErrorsMessage else errors[0])
    ensures outcome.Responded? && IsOk(outcome.status) && outcome.body.Ok?
            && outcome.body.value.errors.None? && outcome.body.value.nodes.None? ==>
      r == Err(NoDataMessage)
    ensures r.Ok? <==> (outcome.Responded? && IsOk(outcome.status) && outcome.body.Ok?
                        && outcome.body.value.errors.None? && outcome.body.value.nodes.Some?)
    ensures r.Ok? ==> r.value == outcome.body.value.nodes.value
  {
    match outcome
    case Threw(e) => Err(MessageOr(e, CaughtFallbackMessage))
    case Responded(status, statusText, body) =>
      if !IsOk(status) then Err(if status == 403 then RateLimitMessage else ApiErrorPrefix + statusText)
      else match body
        case Err(e) => Err(MessageOr(e, CaughtFallbackMessage))
        case Ok(json) =>
          match json.errors
          // `json.errors[0].message` of an empty array throws, and the catch keeps the message.
          case Some(errors) => Err(if errors == [] then EmptyErrorsMessage else errors[0])
          case None =>
            match json.nodes
            case None => Err(NoDataMessage)
            case Some(nodes) => Ok(nodes)
  }

  predicate IsHit<T>(n: SearchNode<T>) { n.Hit? }

  /** The nodes of the expected type, in their order. */
  function Hits<T>(nodes: seq<SearchNode<T>>): (hs: seq<T>)
    ensures |hs| <= |nodes|
    ensures forall i :: 0 <= i < |hs| ==> Hit(hs[i]) in nodes
  {
    var kept := Filter(nodes, IsHit);
    seq(|kept|, i requires 0 <= i < |kept| => kept[i].node)
  }

  /** No node of the expected type is dropped. */
  lemma HitsKeepsAll<T>(nodes: seq<SearchNode<T>>, x: T)
    requires Hit(x) in nodes
    ensures x in Hits(nodes)
  {
    var kept := Filter(nodes, IsHit);
    var k :| 0 <= k < |nodes| && nodes[k] == Hit(x);
    assert IsHit(nodes[k]);
    var j :| 0 <= j < |kept| && kept[j] == Hit(x);
    assert Hits(nodes)[j] == x;
  }

  /** The hits of a concatenation are the hits of its parts. */
  lemma HitsAppend<T>(a: seq<SearchNode<T>>, b: seq<SearchNode<T>>)
    ensures Hits(a + b) == Hits(a) + Hits(b)
  {
    FilterAppend(a, b, IsHit);
  }

  /** Null nodes and nodes of another type leave no trace. */
  lemma HitsIgnoresOthers<T>(a: seq<SearchNode<T>>, b: seq<SearchNode<T>>)
    ensures Hits(a + [NullNode] + b) == Hits(a + b)
    ensures Hits(a + [OtherNode] + b) == Hits(a + b)
  {
    HitsAppend(a, [NullNode]);
    HitsAppend(a + [NullNode], b);
    HitsAppend(a, [OtherNode]);
    HitsAppend(a + [OtherNode], b);
    HitsAppend(a, b);
    var none: SearchNode<T> := NullNode;
    var other: SearchNode<T> := OtherNode;
    assert Filter([none], IsHit) == [] by { assert !IsHit(none); }
    assert Filter([other], IsHit) == [] by { assert !IsHit(other); }
  }

  // ---------------------------------------------------------------- the repositories

  function RankRepo(rank: int, n: RepoNode): RankedRepository {
    RankedRepository(rank, n.nameWithOwner, n.description, n.url, n.stargazerCount, n.forkCount,
                     n.primaryLanguage, n.owner)
  }

  /** The ranked list: the repositories in the order of the response, numbered from 1, each
      keeping every field of its node. */
  function RankRepos(hs: seq<RepoNode>): (rs: seq<RankedRepository>)
    ensures |rs| == |hs|
    ensures forall i :: 0 <= i < |rs| ==> rs[i].rank == i + 1 && rs[i] == RankRepo(i + 1, hs[i])
  {
    seq(|hs|, i requires 0 <= i < |hs| => RankRepo(i + 1, hs[i]))
  }

  /** `fetchTopRepositories`; `respond` stands for the POST to the GraphQL endpoint and the read
      of its JSON body, as a function of the posted variables. */
  function FetchTopRepositories(token: Option<string>, language: Option<string>, limit: int,
                                respond: SearchRequest -> HttpOutcome<SearchBody<RepoNode>>): (r: RankingsResult<RankedRepository>)
    ensures !HasToken(token) ==> r == Failed(TokenMissingMessage)
    ensures HasToken(token) ==>
      var nodes := SearchNodes(respond(SearchRequest(RepoSearchQuery(language), limit)));
      && (nodes.Err? ==> r == Failed(nodes.error))
      && (nodes.Ok? ==> r == RankingsResult(true, RankRepos(Hits(nodes.value)), None))
    ensures r.success <==> r.error.None?
    ensures !r.success ==> r.data == []
  {
    if !HasToken(token) then Failed(TokenMissingMessage)
    else match SearchNodes(respond(SearchRequest(RepoSearchQuery(language), limit)))
      case Err(message) => Failed(message)
      case Ok(nodes) => RankingsResult(true, RankRepos(Hits(nodes)), None)
  }

  /** A successful repository ranking numbers its entries 1..n, and they are exactly the
      repository nodes of the response in order: null and foreign nodes are dropped. */
  lemma RepositoriesRanked(token: Option<string>, language: Option<string>, limit: int,
                           respond: SearchRequest -> HttpOutcome<SearchBody<RepoNode>>)
    requires FetchTopRepositories(token, language, limit, respond).success
    ensures var nodes := SearchNodes(respond(SearchRequest(RepoSearchQuery(language), limit)));
      var data := FetchTopRepositories(token, language, limit, respond).data;
      && nodes.Ok?
      && |data| == |Hits(nodes.value)|
      && (forall i :: 0 <= i < |data| ==> data[i].rank == i + 1)
      && (forall i :: 0 <= i < |data| ==> data[i] == RankRepo(i + 1, Hits(nodes.value)[i]))
      && (forall i :: 0 <= i < |data| ==> Hit(RepoNode(data[i].nameWithOwner, data[i].description, data[i].url,
                                                        data[i].stargazerCount, data[i].forkCount,
                                                        data[i].primaryLanguage, data[i].owner)) in nodes.value)
  {
    var nodes := SearchNodes(respond(SearchRequest(RepoSearchQuery(language), limit))).value;
    var data := FetchTopRepositories(token, language, limit, respond).data;
    forall i | 0 <= i < |data|
      ensures Hit(RepoNode(data[i].nameWithOwner, data[i].description, data[i].url, data[i].stargazerCount,
                           data[i].forkCount, data[i].primaryLanguage, data[i].owner)) in nodes
    {
      var h := Hits(nodes)[i];
      assert data[i] == RankRepo(i + 1, h);
      assert RepoNode(data[i].nameWithOwner, data[i].description, data[i].url, data[i].stargazerCount,
                      data[i].forkCount, data[i].primaryLanguage, data[i].owner) == h;
    }
  }

  // ---------------------------------------------------------------- the users

  function StarsOf(n: StarNode): int { n.stargazerCount }

  function TotalStarsOf(u: RankedUser): int { u.totalStars }

  /** A user node before ranking: rank 0, and the stars of its returned repositories summed. */
  function UserOf(n: UserNode): (u: RankedUser)
    ensures u.rank == 0 && u.login == n.login && u.followers == n.followers && u.totalRepos == n.totalRepos
    ensures u.totalStars == SumBy(n.repositories, StarsOf)
  {
    RankedUser(0, n.login, n.name, n.avatarUrl, n.bio, n.followers, n.totalRepos, SumBy(n.repositories, StarsOf))
  }

  /** The user nodes of the response as unranked users, in their order. */
  function Users(nodes: seq<SearchNode<UserNode>>): (us: seq<RankedUser>)
    ensures |us| == |Hits(nodes)|
    ensures forall i :: 0 <= i < |us| ==> us[i] == UserOf(Hits(nodes)[i])
  {
    var hs := Hits(nodes);
    seq(|hs|, i requires 0 <= i < |hs| => UserOf(hs[i]))
  }

  /** `map((user, index) => ({...user, rank: index + 1}))`. */
  function Reranked(us: seq<RankedUser>): (rs: seq<RankedUser>)
    ensures |rs| == |us|
    ensures forall i :: 0 <= i < |rs| ==> rs[i] == us[i].(rank := i + 1)
  {
    seq(|us|, i requires 0 <= i < |us| => us[i].(rank := i + 1))
  }

  /** Whether `data` is a ranking of users drawn from `pool`: numbered 1..n, each entry a user of
      the pool with only its rank changed. */
  ghost predicate RankedFrom(data: seq<RankedUser>, pool: seq<RankedUser>) {
    forall i :: 0 <= i < |data| ==> data[i].rank == i + 1 && data[i].(rank := 0) in pool
  }

  /** The unranked list the ranking of `fetchTopUsers` is cut from: the response order, or a
      stable sort by total stars, highest first. */
  function Ordered(users: seq<RankedUser>, sortBy: UserSort): seq<RankedUser> {
    if sortBy == ByStars then SortDesc(users, TotalStarsOf) else users
  }

  /** `fetchTopUsers`; `respond` stands for the POST and the read of its JSON body. The list is
      sorted when asked to, cut to `limit` entries as `slice(0, limit)` does, and ranked. */
  method FetchTopUsers(token: Option<string>, sortBy: UserSort, limit: int,
                       respond: SearchRequest -> HttpOutcome<SearchBody<UserNode>>) returns (r: RankingsResult<RankedUser>)
    ensures !HasToken(token) ==> r == Failed(TokenMissingMessage)
    ensures HasToken(token) ==>
      var nodes := SearchNodes(respond(SearchRequest(UserSearchQuery, limit)));
      && (nodes.Err? ==> r == Failed(nodes.error))
      && (nodes.Ok? ==>
            var ordered := Ordered(Users(nodes.value), sortBy);
            r == RankingsResult(true, Reranked(ordered[..SliceEnd(|ordered|, limit)]), None))
  {
    if !HasToken(token) {
      return Failed(TokenMissingMessage);
    }
    var outcome := respond(SearchRequest(UserSearchQuery, limit));
    var nodes := SearchNodes(outcome);
    if nodes.Err? {
      return Failed(nodes.error);
    }
    var users := Users(nodes.value);
    if sortBy == ByStars {
      users := SortDesc(users, TotalStarsOf);
    }
    users := users[..SliceEnd(|users|, limit)];
    users := Reranked(users);
    return RankingsResult(true, users, None);
  }

  /** A prefix of a list sorted by descending key is sorted. */
  lemma SortedDescPrefix<T>(s: seq<T>, n: nat, key: T -> int)
    requires n <= |s| && SortedDesc(s, key)
    ensures SortedDesc(s[..n], key)
  {
    assert forall i :: 0 <= i < n ==> s[..n][i] == s[i];
  }

  /** What a successful user ranking promises: ranks exactly 1..n, at most `limit` entries when
      `limit` is not negative, every entry a user of the response whose total is the sum of its
      repositories' stars, and, when sorted by stars, totals that never increase. In the
      response order, the ranking is the first users of the response. */
  lemma UsersRanked(nodes: seq<SearchNode<UserNode>>, sortBy: UserSort, limit: int)
    ensures var ordered := Ordered(Users(nodes), sortBy);
      var data := Reranked(ordered[..SliceEnd(|ordered|, limit)]);
      && |data| <= |Users(nodes)|
      && (limit >= 0 ==> |data| <= limit)
      && RankedFrom(data, Users(nodes))
      && (sortBy == ByStars ==> forall i, j :: 0 <= i < j < |data| ==> data[i].totalStars >= data[j].totalStars)
      && (sortBy == ByFollowers ==> forall i :: 0 <= i < |data| ==> data[i].(rank := 0) == Users(nodes)[i])
  {
    var users := Users(nodes);
    var ordered := Ordered(users, sortBy);
    var cut := ordered[..SliceEnd(|ordered|, limit)];
    var data := Reranked(cut);
    if sortBy == ByStars {
      SortDescSortsAndPermutes(users, TotalStarsOf);
      SortDescMembers(users, TotalStarsOf);
      SortedDescPrefix(ordered, |cut|, TotalStarsOf);
      forall i, j | 0 <= i < j < |data| ensures data[i].totalStars >= data[j].totalStars {
        assert TotalStarsOf(cut[i]) >= TotalStarsOf(cut[j]);
      }
    }
    forall i | 0 <= i < |data| ensures data[i].rank == i + 1 && data[i].(rank := 0) in users {
      assert cut[i] == ordered[i];
      assert ordered[i] in users;
      assert cut[i].rank == 0;
      assert data[i].(rank := 0) == cut[i];
    }
  }

  /** Every ranked user's total is the sum of the stars of some user node of the response. */
  lemma UserTotals(nodes: seq<SearchNode<UserNode>>, u: RankedUser)
    requires u in Users(nodes)
    ensures exists n :: Hit(n) in nodes && u.totalStars == SumBy(n.repositories, StarsOf) && u.login == n.login
  {
    var i :| 0 <= i < |Users(nodes)| && Users(nodes)[i] == u;
    var n := Hits(nodes)[i];
    assert Hit(n) in nodes;
  }

  // ---------------------------------------------------------------- formatCount

  /** `x.toFixed(1).replace(/\.0$/, '')` for a non-negative `x` given in tenths: the whole part,
      then the tenths digit after a point unless it is zero. */
  function TenthsText(tenths: nat): string {
    NatToString(tenths / 10) + (if tenths % 10 == 0 then "" else "." + [DigitChar(tenths % 10)])
  }

  /** `count / unit` rounded to the nearest tenth, halves up. */
  function RoundedTenths(count: nat, unit: nat): (t: nat)
    requires unit > 0
    ensures 2 * unit * t <= 20 * count + unit < 2 * unit * (t + 1)
  {
    (20 * count + unit) / (2 * unit)
  }

  /** `formatCount`, with `toFixed(1)` read as exact decimal rounding. */
  function FormatCount(count: int): string {
    if count >= 1000000 then TenthsText(RoundedTenths(count, 1000000)) + "M"
    else if count >= 1000 then TenthsText(RoundedTenths(count, 1000)) + "k"
    else IntToString(count)
  }

  /** Whether a text ends in `.0`, the ending `replace(/\.0$/, '')` removes. */
  predicate EndsInPointZero(s: string) {
    |s| >= 2 && s[|s| - 2..] == ".0"
  }

  /** A text of whole part and tenths never ends in `.0`: the tenths digit is written only when
      it is not zero, and otherwise the text is the digits of the whole part. */
  lemma TenthsTextShape(tenths: nat)
    ensures var s := TenthsText(tenths);
      && s != []
      && !EndsInPointZero(s)
      && (tenths % 10 == 0 ==> s == NatToString(tenths / 10))
      && (tenths % 10 != 0 ==> s == NatToString(tenths / 10) + "." + [DigitChar(tenths % 10)])
  {
    var s := TenthsText(tenths);
    if tenths % 10 == 0 {
      if |s| >= 2 {
        assert IsDigit(s[|s| - 2]);
        assert s[|s| - 2..][0] == s[|s| - 2];
      }
    } else {
      assert s[|s| - 1] == DigitChar(tenths % 10);
      assert s[|s| - 2..][1] == s[|s| - 1];
    }
  }

  /** Below 1000 a count is its plain decimal text. From 1000 on its text is a number followed
      by `k` below a million and by `M` from a million on; the number is the count in thousands
      or in millions, rounded to a tenth, and it never ends in `.0`. */
  lemma FormatCountShape(count: int)
    ensures count < 1000 ==> FormatCount(count) == IntToString(count)
    ensures 1000 <= count < 1000000 ==>
      var t := RoundedTenths(count, 1000);
      && FormatCount(count) == TenthsText(t) + "k"
      && 2000 * t <= 20 * count + 1000 < 2000 * (t + 1)
      && !EndsInPointZero(TenthsText(t))
    ensures count >= 1000000 ==>
      var t := RoundedTenths(count, 1000000);
      && FormatCount(count) == TenthsText(t) + "M"
      && 2000000 * t <= 20 * count + 1000000 < 2000000 * (t + 1)
      && !EndsInPointZero(TenthsText(t))
  {
    if count >= 1000000 {
      TenthsTextShape(RoundedTenths(count, 1000000));
    } else if count >= 1000 {
      TenthsTextShape(RoundedTenths(count, 1000));
    }
  }

  /** A count just under a million rounds up to a thousand thousands, and the text then reads
      `1000k` where a million is meant. */
  lemma FormatCountThousandK()
    ensures FormatCount(999950) == "1000k"
    ensures FormatCount(999999) == "1000k"
  {
    assert RoundedTenths(999950, 1000) == 10000;
    assert RoundedTenths(999999, 1000) == 10000;
    assert NatToString(1000) == "1000";
  }

  /** `formatCount` with the suffix chosen after rounding: a count that rounds to a thousand
      thousands is written in millions. */
  function FormatCountPromoted(count: int): string {
    if count >= 1000000 || (count >= 1000 && RoundedTenths(count, 1000) >= 10000) then
      TenthsText(RoundedTenths(count, 1000000)) + "M"
    else if count >= 1000 then TenthsText(RoundedTenths(count, 1000)) + "k"
    else IntToString(count)
  }

  /** With the suffix chosen after rounding, a `k` text never shows a thousand or more, the
      counts just under a million read `1M`, and every other count is written as before. */
  lemma FormatCountPromotedShape(count: int)
    ensures 1000 <= count && RoundedTenths(count, 1000) < 10000 ==>
      FormatCountPromoted(count) == TenthsText(RoundedTenths(count, 1000)) + "k"
      && RoundedTenths(count, 1000) / 10 < 1000
    ensures 999950 <= count < 1000000 ==> FormatCountPromoted(count) == "1M"
    ensures count < 999950 || count >= 1000000 ==> FormatCountPromoted(count) == FormatCount(count)
  {
    if 999950 <= count < 1000000 {
      assert RoundedTenths(count, 1000) >= 10000;
      assert RoundedTenths(count, 1000000) == 10;
      assert NatToString(1) == "1";
    }
    if 1000 <= count < 999950 {
      assert RoundedTenths(count, 1000) < 10000;
    }
  }
}
