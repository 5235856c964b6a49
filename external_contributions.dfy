/** The external contributions of a profile: the pull-request and commit contributions to
    repositories the user does not own, merged per repository in a Map keyed by `nameWithOwner`
    that keeps first-insertion order, then ranked by their combined count. */
module ExternalContributions {
  import opened Wrappers
  import opened Strings
  import opened Seqs
  import opened GitHubTypes

  /** A contribution record, as the two loops visit them: every pull-request record, then every
      commit record. */
  datatype Record = PullRequests(pr: PRContribution) | Commits(commit: CommitContribution)

  function Key(r: Record): string {
    match r
    case PullRequests(p) => p.nameWithOwner
    case Commits(c) => c.nameWithOwner
  }

  function Owner(r: Record): string {
    match r
    case PullRequests(p) => p.ownerLogin
    case Commits(c) => c.ownerLogin
  }

  function PrTotal(r: Record): nat {
    match r
    case PullRequests(p) => p.totalCount
    case Commits(_) => 0
  }

  function CommitTotal(r: Record): nat {
    match r
    case PullRequests(_) => 0
    case Commits(c) => c.totalCount
  }

  function RecordLanguage(r: Record): Option<Language> {
    match r
    case PullRequests(p) => p.primaryLanguage
    case Commits(c) => c.primaryLanguage
  }

  /** A commit record carries no star count: an entry it opens starts at 0 stars. */
  function RecordStars(r: Record): nat {
    match r
    case PullRequests(p) => p.stargazerCount
    case Commits(_) => 0
  }

  /** The entry a record opens when its repository has none yet. */
  function NewEntry(r: Record): ExternalContribution {
    ExternalContribution(Key(r), Owner(r), PrTotal(r), CommitTotal(r), RecordLanguage(r), RecordStars(r))
  }

  function PrRecords(prs: seq<PRContribution>): seq<Record> {
    seq(|prs|, i requires 0 <= i < |prs| => PullRequests(prs[i]))
  }

  function CommitRecords(commits: seq<CommitContribution>): seq<Record> {
    seq(|commits|, i requires 0 <= i < |commits| => Commits(commits[i]))
  }

  function Records(prs: seq<PRContribution>, commits: seq<CommitContribution>): seq<Record> {
    PrRecords(prs) + CommitRecords(commits)
  }

  /** A record counts when its owner differs from the user, both lower-cased; `userLogin` is
      the user's login already lower-cased. */
  predicate Counted(userLogin: string, r: Record) {
    ToLower(Owner(r)) != userLogin
  }

  /** The position of the entry for `key`, or -1 (`externalContributionsMap.get` returning undefined). */
  function FindEntry(entries: seq<ExternalContribution>, key: string): (k: int)
    ensures -1 <= k < |entries|
    ensures k >= 0 ==> entries[k].repoName == key
    ensures k < 0 ==> forall i :: 0 <= i < |entries| ==> entries[i].repoName != key
  {
    if entries == [] then -1
    else if entries[|entries| - 1].repoName == key then |entries| - 1
    else FindEntry(entries[..|entries| - 1], key)
  }

  /** One iteration of either loop: skip the user's own repositories, add to an existing entry,
      or open a new one at the end. */
  function Step(userLogin: string, entries: seq<ExternalContribution>, r: Record): seq<ExternalContribution> {
    if !Counted(userLogin, r) then entries
    else
      var k := FindEntry(entries, Key(r));
      if k >= 0 then entries[k := Bumped(entries[k], r)] else entries + [NewEntry(r)]
  }

  /** The Map after both loops. */
  function Merge(userLogin: string, rs: seq<Record>): seq<ExternalContribution> {
    if rs == [] then [] else Step(userLogin, Merge(userLogin, rs[..|rs| - 1]), rs[|rs| - 1])
  }

  function EntryKey(e: ExternalContribution): string { e.repoName }

  function EntryPr(e: ExternalContribution): int { e.prCount }

  function EntryCommit(e: ExternalContribution): int { e.commitCount }

  function EntryTotal(e: ExternalContribution): int { e.prCount + e.commitCount }

  /** The list of the profile: the entries of the Map, largest combined count first. */
  function ExternalContributionsOf(login: string, prs: seq<PRContribution>, commits: seq<CommitContribution>)
    : seq<ExternalContribution>
  {
    SortDesc(Merge(ToLower(login), Records(prs, commits)), EntryTotal)
  }

  // ---------------------------------------------------------------- what the records add up to

  predicate KeyAppears(userLogin: string, rs: seq<Record>, key: string) {
    exists i :: 0 <= i < |rs| && Counted(userLogin, rs[i]) && Key(rs[i]) == key
  }

  /** The pull requests the counted records give one repository. */
  function PrSum(userLogin: string, rs: seq<Record>, key: string): nat {
    if rs == [] then 0
    else
      var r := rs[|rs| - 1];
      PrSum(userLogin, rs[..|rs| - 1], key) + (if Counted(userLogin, r) && Key(r) == key then PrTotal(r) else 0)
  }

  function CommitSum(userLogin: string, rs: seq<Record>, key: string): nat {
    if rs == [] then 0
    else
      var r := rs[|rs| - 1];
      CommitSum(userLogin, rs[..|rs| - 1], key) + (if Counted(userLogin, r) && Key(r) == key then CommitTotal(r) else 0)
  }

  /** The pull requests of all counted records. */
  function TotalPr(userLogin: string, rs: seq<Record>): nat {
    if rs == [] then 0
    else
      var r := rs[|rs| - 1];
      TotalPr(userLogin, rs[..|rs| - 1]) + (if Counted(userLogin, r) then PrTotal(r) else 0)
  }

  function TotalCommit(userLogin: string, rs: seq<Record>): nat {
    if rs == [] then 0
    else
      var r := rs[|rs| - 1];
      TotalCommit(userLogin, rs[..|rs| - 1]) + (if Counted(userLogin, r) then CommitTotal(r) else 0)
  }

  /** The first counted record of a repository: the one that opened its entry. */
  function FirstRecord(userLogin: string, rs: seq<Record>, key: string): Record
    requires KeyAppears(userLogin, rs, key)
  {
    var init := rs[..|rs| - 1];
    if KeyAppears(userLogin, init, key) then FirstRecord(userLogin, init, key) else rs[|rs| - 1]
  }

  ghost predicate DistinctKeys(es: seq<ExternalContribution>) {
    forall i, j :: 0 <= i < j < |es| ==> es[i].repoName != es[j].repoName
  }

  /** An entry holds the summed counts of a repository that was counted, and the owner, language
      and star count of the record that opened it. */
  ghost predicate Tallies(userLogin: string, rs: seq<Record>, e: ExternalContribution) {
    && KeyAppears(userLogin, rs, e.repoName)
    && e.prCount == PrSum(userLogin, rs, e.repoName)
    && e.commitCount == CommitSum(userLogin, rs, e.repoName)
    && var f := FirstRecord(userLogin, rs, e.repoName);
       e.owner == Owner(f) && e.language == RecordLanguage(f) && e.stargazerCount == RecordStars(f)
  }

  ghost predicate Covers(userLogin: string, rs: seq<Record>, es: seq<ExternalContribution>) {
    forall key :: KeyAppears(userLogin, rs, key) ==> FindEntry(es, key) >= 0
  }

  ghost predicate Summarises(userLogin: string, rs: seq<Record>, es: seq<ExternalContribution>) {
    && DistinctKeys(es)
    && (forall i :: 0 <= i < |es| ==> Tallies(userLogin, rs, es[i]))
    && Covers(userLogin, rs, es)
    && SumBy(es, EntryPr) == TotalPr(userLogin, rs)
    && SumBy(es, EntryCommit) == TotalCommit(userLogin, rs)
  }

  /** How appending one record changes what is known about each repository. */
  lemma {:induction false} RecordSnoc(u: string, init: seq<Record>, r: Record, key: string)
    ensures var hit := Counted(u, r) && Key(r) == key;
      && PrSum(u, init + [r], key) == PrSum(u, init, key) + (if hit then PrTotal(r) else 0)
      && CommitSum(u, init + [r], key) == CommitSum(u, init, key) + (if hit then CommitTotal(r) else 0)
      && (KeyAppears(u, init + [r], key) <==> KeyAppears(u, init, key) || hit)
      && (KeyAppears(u, init + [r], key) ==>
            FirstRecord(u, init + [r], key) == if KeyAppears(u, init, key) then FirstRecord(u, init, key) else r)
  {
    var rs := init + [r];
    assert rs[..|rs| - 1] == init;
    if KeyAppears(u, rs, key) && !KeyAppears(u, init, key) {
      var i :| 0 <= i < |rs| && Counted(u, rs[i]) && Key(rs[i]) == key;
      assert i == |init|;
    }
    if KeyAppears(u, init, key) {
      var i :| 0 <= i < |init| && Counted(u, init[i]) && Key(init[i]) == key;
      assert rs[i] == init[i];
    }
    if Counted(u, r) && Key(r) == key {
      assert rs[|init|] == r;
    }
  }

  lemma TotalsSnoc(u: string, init: seq<Record>, r: Record)
    ensures TotalPr(u, init + [r]) == TotalPr(u, init) + (if Counted(u, r) then PrTotal(r) else 0)
    ensures TotalCommit(u, init + [r]) == TotalCommit(u, init) + (if Counted(u, r) then CommitTotal(r) else 0)
  {
    assert (init + [r])[..|init|] == init;
  }

  /** An entry for another repository, or any entry when the record is skipped, still tallies. */
  lemma {:induction false} TalliesOther(u: string, init: seq<Record>, r: Record, e: ExternalContribution)
    requires Tallies(u, init, e)
    requires !Counted(u, r) || Key(r) != e.repoName
    ensures Tallies(u, init + [r], e)
  {
    RecordSnoc(u, init, r, e.repoName);
  }

  lemma {:induction false} StepSkipped(u: string, es: seq<ExternalContribution>, init: seq<Record>, r: Record)
    requires Summarises(u, init, es) && !Counted(u, r)
    ensures Summarises(u, init + [r], Step(u, es, r))
  {
    TotalsSnoc(u, init, r);
    forall i | 0 <= i < |es| ensures Tallies(u, init + [r], es[i]) {
      TalliesOther(u, init, r, es[i]);
    }
    forall key | KeyAppears(u, init + [r], key) ensures FindEntry(es, key) >= 0 {
      RecordSnoc(u, init, r, key);
    }
  }

  /** The entry of the record's repository after it is added to. */
  function Bumped(e: ExternalContribution, r: Record): ExternalContribution {
    e.(prCount := e.prCount + PrTotal(r), commitCount := e.commitCount + CommitTotal(r))
  }

  lemma {:induction false} StepFoundTotals(u: string, es: seq<ExternalContribution>, init: seq<Record>, r: Record, k: nat)
    requires k < |es| && Counted(u, r)
    requires SumBy(es, EntryPr) == TotalPr(u, init) && SumBy(es, EntryCommit) == TotalCommit(u, init)
    ensures SumBy(es[k := Bumped(es[k], r)], EntryPr) == TotalPr(u, init + [r])
    ensures SumBy(es[k := Bumped(es[k], r)], EntryCommit) == TotalCommit(u, init + [r])
  {
    SumByUpdate(es, k, Bumped(es[k], r), EntryPr);
    SumByUpdate(es, k, Bumped(es[k], r), EntryCommit);
    TotalsSnoc(u, init, r);
  }

  lemma {:induction false} StepFoundTallies(u: string, es: seq<ExternalContribution>, init: seq<Record>, r: Record,
                                            k: nat, out: seq<ExternalContribution>)
    requires k < |es| && Counted(u, r) && es[k].repoName == Key(r) && out == es[k := Bumped(es[k], r)]
    requires DistinctKeys(es) && forall i :: 0 <= i < |es| ==> Tallies(u, init, es[i])
    ensures forall i :: 0 <= i < |out| ==> Tallies(u, init + [r], out[i])
  {
    forall i | 0 <= i < |out| ensures Tallies(u, init + [r], out[i]) {
      if i == k {
        assert Tallies(u, init, es[k]);
        RecordSnoc(u, init, r, Key(r));
      } else {
        assert out[i] == es[i] && Tallies(u, init, es[i]) && es[i].repoName != es[k].repoName;
        TalliesOther(u, init, r, es[i]);
      }
    }
  }

  lemma {:induction false} StepFound(u: string, es: seq<ExternalContribution>, init: seq<Record>, r: Record)
    requires Summarises(u, init, es) && Counted(u, r) && FindEntry(es, Key(r)) >= 0
    ensures Summarises(u, init + [r], Step(u, es, r))
  {
    var rs := init + [r];
    var k := FindEntry(es, Key(r));
    var out := es[k := Bumped(es[k], r)];
    assert Step(u, es, r) == out;
    assert DistinctKeys(out) by {
      assert forall i :: 0 <= i < |out| ==> out[i].repoName == es[i].repoName;
    }
    StepFoundTotals(u, es, init, r, k);
    StepFoundTallies(u, es, init, r, k, out);
    StepFoundCovers(u, es, init, r, k, out);
  }

  lemma {:induction false} StepFoundCovers(u: string, es: seq<ExternalContribution>, init: seq<Record>, r: Record,
                                           k: nat, out: seq<ExternalContribution>)
    requires k < |es| && es[k].repoName == Key(r) && out == es[k := Bumped(es[k], r)]
    requires Covers(u, init, es)
    ensures Covers(u, init + [r], out)
  {
    forall key | KeyAppears(u, init + [r], key) ensures FindEntry(out, key) >= 0 {
      RecordSnoc(u, init, r, key);
      var j := FindEntry(es, key);
      assert out[j].repoName == key;
    }
  }

  lemma {:induction false} StepNewTotals(u: string, es: seq<ExternalContribution>, init: seq<Record>, r: Record)
    requires Counted(u, r)
    requires SumBy(es, EntryPr) == TotalPr(u, init) && SumBy(es, EntryCommit) == TotalCommit(u, init)
    ensures SumBy(es + [NewEntry(r)], EntryPr) == TotalPr(u, init + [r])
    ensures SumBy(es + [NewEntry(r)], EntryCommit) == TotalCommit(u, init + [r])
  {
    var e := NewEntry(r);
    SumByAppend(es, [e], EntryPr);
    SumByAppend(es, [e], EntryCommit);
    SumBySingleton(e, EntryPr);
    SumBySingleton(e, EntryCommit);
    TotalsSnoc(u, init, r);
  }

  lemma {:induction false} StepNewTallies(u: string, es: seq<ExternalContribution>, init: seq<Record>, r: Record)
    requires Counted(u, r) && !KeyAppears(u, init, Key(r))
    requires forall i :: 0 <= i < |es| ==> Tallies(u, init, es[i]) && es[i].repoName != Key(r)
    ensures forall i :: 0 <= i < |es| + 1 ==> Tallies(u, init + [r], (es + [NewEntry(r)])[i])
  {
    var out := es + [NewEntry(r)];
    forall i | 0 <= i < |out| ensures Tallies(u, init + [r], out[i]) {
      if i == |es| {
        SumsAbsent(u, init, Key(r));
        RecordSnoc(u, init, r, Key(r));
      } else {
        assert out[i] == es[i];
        TalliesOther(u, init, r, es[i]);
      }
    }
  }

  lemma {:induction false} StepNew(u: string, es: seq<ExternalContribution>, init: seq<Record>, r: Record)
    requires Summarises(u, init, es) && Counted(u, r) && FindEntry(es, Key(r)) < 0
    ensures Summarises(u, init + [r], Step(u, es, r))
  {
    var rs := init + [r];
    var out := es + [NewEntry(r)];
    assert Step(u, es, r) == out;
    assert !KeyAppears(u, init, Key(r)) by {
      if KeyAppears(u, init, Key(r)) { var j := FindEntry(es, Key(r)); }
    }
    assert DistinctKeys(out) by {
      assert forall i :: 0 <= i < |es| ==> out[i] == es[i] && es[i].repoName != Key(r);
    }
    StepNewTotals(u, es, init, r);
    StepNewTallies(u, es, init, r);
    StepNewCovers(u, es, init, r);
  }

  lemma {:induction false} StepNewCovers(u: string, es: seq<ExternalContribution>, init: seq<Record>, r: Record)
    requires Covers(u, init, es)
    ensures Covers(u, init + [r], es + [NewEntry(r)])
  {
    var out := es + [NewEntry(r)];
    forall key | KeyAppears(u, init + [r], key) ensures FindEntry(out, key) >= 0 {
      RecordSnoc(u, init, r, key);
      if key != Key(r) {
        assert out[FindEntry(es, key)].repoName == key;
      } else {
        assert out[|out| - 1].repoName == key;
      }
    }
  }

  lemma {:induction false} SumsAbsent(u: string, rs: seq<Record>, key: string)
    requires !KeyAppears(u, rs, key)
    ensures PrSum(u, rs, key) == 0 && CommitSum(u, rs, key) == 0
  {
    if rs != [] {
      var init := rs[..|rs| - 1];
      forall i | 0 <= i < |init| ensures !(Counted(u, init[i]) && Key(init[i]) == key) {
        assert init[i] == rs[i];
      }
      SumsAbsent(u, init, key);
    }
  }

  lemma MergeSnoc(u: string, rs: seq<Record>, r: Record)
    ensures Merge(u, rs + [r]) == Step(u, Merge(u, rs), r)
  {
    assert (rs + [r])[..|rs|] == rs;
  }

  /** The merged Map holds one entry per counted repository, and nothing else. */
  lemma {:induction false} MergeSummarises(u: string, rs: seq<Record>)
    ensures Summarises(u, rs, Merge(u, rs))
  {
    if rs != [] {
      var init := rs[..|rs| - 1];
      var r := rs[|rs| - 1];
      MergeSummarises(u, init);
      assert rs == init + [r];
      var es := Merge(u, init);
      if !Counted(u, r) {
        StepSkipped(u, es, init, r);
      } else if FindEntry(es, Key(r)) >= 0 {
        StepFound(u, es, init, r);
      } else {
        StepNew(u, es, init, r);
      }
    }
  }

  // ---------------------------------------------------------------- the loops

  lemma PrRecordsSnoc(prs: seq<PRContribution>, i: nat)
    requires i < |prs|
    ensures PrRecords(prs[..i + 1]) == PrRecords(prs[..i]) + [PullRequests(prs[i])]
  {
  }

  lemma CommitRecordsSnoc(commits: seq<CommitContribution>, i: nat)
    requires i < |commits|
    ensures CommitRecords(commits[..i + 1]) == CommitRecords(commits[..i]) + [Commits(commits[i])]
  {
  }

  /** The body of the pull-request loop. */
  method AddPullRequest(entries: seq<ExternalContribution>, userLogin: string, pr: PRContribution)
    returns (updated: seq<ExternalContribution>)
    ensures updated == Step(userLogin, entries, PullRequests(pr))
  {
    updated := entries;
    var ownerLogin := ToLower(pr.ownerLogin);
    if ownerLogin != userLogin {
      var k := FindEntry(entries, pr.nameWithOwner);
      if k >= 0 {
        updated := entries[k := entries[k].(prCount := entries[k].prCount + pr.totalCount)];
      } else {
        updated := entries + [ExternalContribution(pr.nameWithOwner, pr.ownerLogin, pr.totalCount, 0,
                                                   pr.primaryLanguage, pr.stargazerCount)];
      }
    }
  }

  /** The body of the commit loop: a new entry starts with no pull requests and no stars. */
  method AddCommit(entries: seq<ExternalContribution>, userLogin: string, commit: CommitContribution)
    returns (updated: seq<ExternalContribution>)
    ensures updated == Step(userLogin, entries, Commits(commit))
  {
    updated := entries;
    var ownerLogin := ToLower(commit.ownerLogin);
    if ownerLogin != userLogin {
      var k := FindEntry(entries, commit.nameWithOwner);
      if k >= 0 {
        updated := entries[k := entries[k].(commitCount := entries[k].commitCount + commit.totalCount)];
      } else {
        updated := entries + [ExternalContribution(commit.nameWithOwner, commit.ownerLogin, 0, commit.totalCount,
                                                   commit.primaryLanguage, 0)];
      }
    }
  }

  /** The two loops of `transformGraphQLResponse` that fill the Map of external contributions. */
  method MergeExternalContributions(login: string, prs: seq<PRContribution>, commits: seq<CommitContribution>)
    returns (entries: seq<ExternalContribution>)
    ensures entries == Merge(ToLower(login), Records(prs, commits))
  {
    var userLogin := ToLower(login);
    entries := [];
    assert prs[..0] == [];
    for i := 0 to |prs|
      invariant entries == Merge(userLogin, PrRecords(prs[..i]))
    {
      entries := AddPullRequest(entries, userLogin, prs[i]);
      PrRecordsSnoc(prs, i);
      MergeSnoc(userLogin, PrRecords(prs[..i]), PullRequests(prs[i]));
    }
    ghost var before := PrRecords(prs);
    assert prs[..|prs|] == prs;
    assert commits[..0] == [] && before + CommitRecords(commits[..0]) == before;
    for j := 0 to |commits|
      invariant entries == Merge(userLogin, before + CommitRecords(commits[..j]))
    {
      entries := AddCommit(entries, userLogin, commits[j]);
      CommitRecordsSnoc(commits, j);
      assert before + CommitRecords(commits[..j + 1]) == (before + CommitRecords(commits[..j])) + [Commits(commits[j])];
      MergeSnoc(userLogin, before + CommitRecords(commits[..j]), Commits(commits[j]));
    }
    assert commits[..|commits|] == commits;
  }

  // ---------------------------------------------------------------- what the list promises

  /** Each entry of the list is a repository of a counted record, with the summed pull-request
      and commit counts of that repository and the owner, language and stars of its first record;
      no entry belongs to the user, compared case-insensitively. */
  lemma {:induction false} ExternalEntries(login: string, prs: seq<PRContribution>, commits: seq<CommitContribution>)
    ensures var u, rs, r := ToLower(login), Records(prs, commits), ExternalContributionsOf(login, prs, commits);
      forall i :: 0 <= i < |r| ==> Tallies(u, rs, r[i]) && ToLower(r[i].owner) != u
  {
    var u, rs := ToLower(login), Records(prs, commits);
    var m := Merge(u, rs);
    var r := ExternalContributionsOf(login, prs, commits);
    MergeSummarises(u, rs);
    SortDescMembers(m, EntryTotal);
    forall i | 0 <= i < |r| ensures Tallies(u, rs, r[i]) && ToLower(r[i].owner) != u {
      assert r[i] in m;
      var k :| 0 <= k < |m| && m[k] == r[i];
      FirstRecordCounted(u, rs, r[i].repoName);
    }
  }

  lemma {:induction false} FirstRecordCounted(u: string, rs: seq<Record>, key: string)
    requires KeyAppears(u, rs, key)
    ensures Counted(u, FirstRecord(u, rs, key)) && Key(FirstRecord(u, rs, key)) == key
  {
    var init := rs[..|rs| - 1];
    if KeyAppears(u, init, key) {
      FirstRecordCounted(u, init, key);
    } else {
      assert forall j :: 0 <= j < |init| ==> init[j] == rs[j];
    }
  }

  /** A repository has an entry exactly when some counted record names it, and at most one. */
  lemma {:induction false} ExternalKeys(login: string, prs: seq<PRContribution>, commits: seq<CommitContribution>, key: string)
    ensures var r := ExternalContributionsOf(login, prs, commits);
      && DistinctBy(r, EntryKey)
      && ((exists i :: 0 <= i < |r| && r[i].repoName == key) <==> KeyAppears(ToLower(login), Records(prs, commits), key))
  {
    var u, rs := ToLower(login), Records(prs, commits);
    var m := Merge(u, rs);
    var r := ExternalContributionsOf(login, prs, commits);
    MergeSummarises(u, rs);
    assert DistinctBy(m, EntryKey) by {
      forall i, j | 0 <= i < j < |m| ensures EntryKey(m[i]) != EntryKey(m[j]) {
      }
    }
    SortDescDistinct(m, EntryTotal, EntryKey);
    SortDescMembers(m, EntryTotal);
    if exists i :: 0 <= i < |r| && r[i].repoName == key {
      var i :| 0 <= i < |r| && r[i].repoName == key;
      assert r[i] in m;
      var k :| 0 <= k < |m| && m[k] == r[i];
      assert Tallies(u, rs, m[k]);
    }
    if KeyAppears(u, rs, key) {
      var k := FindEntry(m, key);
      assert m[k] in r;
    }
  }

  /** The list runs from the largest combined count down, and the two profile totals are the
      pull requests and commits of all counted records. */
  lemma {:induction false} ExternalOrderAndTotals(login: string, prs: seq<PRContribution>, commits: seq<CommitContribution>)
    ensures var r := ExternalContributionsOf(login, prs, commits);
      && SortedDesc(r, EntryTotal)
      && SumBy(r, EntryPr) == TotalPr(ToLower(login), Records(prs, commits))
      && SumBy(r, EntryCommit) == TotalCommit(ToLower(login), Records(prs, commits))
  {
    var u, rs := ToLower(login), Records(prs, commits);
    var m := Merge(u, rs);
    MergeSummarises(u, rs);
    SortDescSortsAndPermutes(m, EntryTotal);
    SumBySortDesc(m, EntryTotal, EntryPr);
    SumBySortDesc(m, EntryTotal, EntryCommit);
  }

  /** When only commit records are counted for a repository, its first record is a commit
      record and it holds no pull requests. */
  lemma {:induction false} CommitOnlyRecords(u: string, rs: seq<Record>, key: string)
    requires KeyAppears(u, rs, key)
    requires forall i :: 0 <= i < |rs| && Counted(u, rs[i]) && Key(rs[i]) == key ==> rs[i].Commits?
    ensures FirstRecord(u, rs, key).Commits? && PrSum(u, rs, key) == 0
  {
    var init := rs[..|rs| - 1];
    var r := rs[|rs| - 1];
    assert forall i :: 0 <= i < |init| ==> init[i] == rs[i];
    if KeyAppears(u, init, key) {
      CommitOnlyRecords(u, init, key);
    } else {
      SumsAbsent(u, init, key);
    }
  }

  /** A repository the user contributed to only by commits has an entry with 0 pull requests
      and 0 stars: the commit records carry no star count. */
  lemma {:induction false} CommitOnlyEntry(login: string, prs: seq<PRContribution>, commits: seq<CommitContribution>, e: ExternalContribution)
    requires e in ExternalContributionsOf(login, prs, commits)
    requires forall i :: 0 <= i < |prs| ==> prs[i].nameWithOwner != e.repoName || ToLower(prs[i].ownerLogin) == ToLower(login)
    ensures e.prCount == 0 && e.stargazerCount == 0
  {
    var u, rs := ToLower(login), Records(prs, commits);
    var r := ExternalContributionsOf(login, prs, commits);
    ExternalEntries(login, prs, commits);
    var k :| 0 <= k < |r| && r[k] == e;
    assert Tallies(u, rs, e);
    assert forall i :: 0 <= i < |prs| ==> rs[i] == PullRequests(prs[i]);
    CommitOnlyRecords(u, rs, e.repoName);
  }
}
