/** The language breakdown of a profile (`calculateLanguageStats`): weights are bucketed per
    language name in a Map that keeps first-insertion order, the buckets are ranked by weight,
    the ten heaviest kept, and the rounded percentages patched so they add up to 100. */
module LanguageStats {
  import opened Wrappers
  import opened Seqs
  import opened GitHubTypes

  /** One contribution of weight to a language: an edge of a repository's byte breakdown,
      or a weight of 1 for the primary language of a repository that has no breakdown. */
  datatype Mention = Mention(name: string, color: string, weight: nat)

  /** An entry of the Map from language name to accumulated weight and first-seen colour. */
  datatype Bucket = Bucket(name: string, color: string, bytes: nat)

  function EdgeMention(e: LanguageEdge): Mention {
    Mention(e.node.name, e.node.color, e.size)
  }

  /** The mentions one repository contributes. A present breakdown is used even when it is
      empty; only a repository without one falls back to its primary language. */
  function RepoMentions(r: Repository): seq<Mention> {
    match r.languages
    case Some(edges) => seq(|edges|, i requires 0 <= i < |edges| => EdgeMention(edges[i]))
    case None =>
      match r.primaryLanguage
      case Some(l) => [Mention(l.name, l.color, 1)]
      case None => []
  }

  /** The mentions of a list of repositories, in the order the loops visit them. */
  function Mentions(repos: seq<Repository>): seq<Mention> {
    if repos == [] then [] else Mentions(repos[..|repos| - 1]) + RepoMentions(repos[|repos| - 1])
  }

  // ---------------------------------------------------------------- what the Map ends up holding

  predicate Appears(ms: seq<Mention>, name: string) {
    exists i :: 0 <= i < |ms| && ms[i].name == name
  }

  /** The summed weight of the mentions of one language. */
  function Weight(ms: seq<Mention>, name: string): nat {
    if ms == [] then 0
    else Weight(ms[..|ms| - 1], name) + (if ms[|ms| - 1].name == name then ms[|ms| - 1].weight else 0)
  }

  /** The colour of the first mention of a language. */
  function FirstColor(ms: seq<Mention>, name: string): string
    requires Appears(ms, name)
  {
    var init := ms[..|ms| - 1];
    if Appears(init, name) then FirstColor(init, name)
    else ms[|ms| - 1].color
  }

  function MentionWeight(m: Mention): int { m.weight }

  function TotalWeight(ms: seq<Mention>): int {
    SumBy(ms, MentionWeight)
  }

  function BucketBytes(b: Bucket): int { b.bytes }

  /** The position of the bucket for `name`, or -1 (`languageBytes.get` returning undefined). */
  function FindBucket(buckets: seq<Bucket>, name: string): (k: int)
    ensures -1 <= k < |buckets|
    ensures k >= 0 ==> buckets[k].name == name
    ensures k < 0 ==> forall i :: 0 <= i < |buckets| ==> buckets[i].name != name
  {
    if buckets == [] then -1
    else if buckets[|buckets| - 1].name == name then |buckets| - 1
    else FindBucket(buckets[..|buckets| - 1], name)
  }

  /** One step of the accumulation loop: add to an existing bucket, or open a new one at the end. */
  function Accumulate(buckets: seq<Bucket>, m: Mention): seq<Bucket> {
    var k := FindBucket(buckets, m.name);
    if k >= 0 then buckets[k := buckets[k].(bytes := buckets[k].bytes + m.weight)]
    else buckets + [Bucket(m.name, m.color, m.weight)]
  }

  function Buckets(ms: seq<Mention>): seq<Bucket> {
    if ms == [] then [] else Accumulate(Buckets(ms[..|ms| - 1]), ms[|ms| - 1])
  }

  ghost predicate DistinctNames(b: seq<Bucket>) {
    forall i, j :: 0 <= i < j < |b| ==> b[i].name != b[j].name
  }

  /** The Map after the loops matches the mentions: one bucket per language mentioned, holding
      its summed weight and the colour it was first seen with, and the weights add up. */
  ghost predicate Summarises(b: seq<Bucket>, ms: seq<Mention>) {
    && DistinctNames(b)
    && (forall i :: 0 <= i < |b| ==> Tallies(b[i], ms))
    && Covers(b, ms)
    && SumBy(b, BucketBytes) == TotalWeight(ms)
  }

  /** A bucket holds the summed weight and the first colour of a language that was mentioned. */
  ghost predicate Tallies(bk: Bucket, ms: seq<Mention>) {
    Appears(ms, bk.name) && bk.bytes == Weight(ms, bk.name) && bk.color == FirstColor(ms, bk.name)
  }

  /** Every language mentioned has a bucket. */
  ghost predicate Covers(b: seq<Bucket>, ms: seq<Mention>) {
    forall n :: Appears(ms, n) ==> FindBucket(b, n) >= 0
  }

  lemma {:induction false} WeightAbsent(ms: seq<Mention>, name: string)
    requires !Appears(ms, name)
    ensures Weight(ms, name) == 0
  {
    if ms != [] {
      var init := ms[..|ms| - 1];
      forall i | 0 <= i < |init| ensures init[i].name != name {
        assert init[i] == ms[i];
      }
      WeightAbsent(init, name);
    }
  }

  lemma {:induction false} AppearsInit(ms: seq<Mention>, name: string)
    requires ms != [] && Appears(ms[..|ms| - 1], name)
    ensures Appears(ms, name)
  {
    var i :| 0 <= i < |ms| - 1 && ms[..|ms| - 1][i].name == name;
    assert ms[i].name == name;
  }

  /** How appending one mention changes what is known about each language. */
  lemma {:induction false} SnocFacts(init: seq<Mention>, m: Mention, n: string)
    ensures Weight(init + [m], n) == Weight(init, n) + (if m.name == n then m.weight else 0)
    ensures Appears(init + [m], n) <==> Appears(init, n) || m.name == n
    ensures Appears(init + [m], n) ==>
      FirstColor(init + [m], n) == if Appears(init, n) then FirstColor(init, n) else m.color
  {
    var ms := init + [m];
    assert ms[..|ms| - 1] == init;
    if Appears(ms, n) && !Appears(init, n) {
      var i :| 0 <= i < |ms| && ms[i].name == n;
      assert i == |init|;
    }
    if Appears(init, n) {
      var i :| 0 <= i < |init| && init[i].name == n;
      assert ms[i].name == n;
    }
    if m.name == n {
      assert ms[|init|].name == n;
    }
  }

  /** A bucket for a language other than the one just mentioned still tallies. */
  lemma {:induction false} TalliesOther(bk: Bucket, init: seq<Mention>, m: Mention)
    requires Tallies(bk, init) && bk.name != m.name
    ensures Tallies(bk, init + [m])
  {
    SnocFacts(init, m, bk.name);
  }

  lemma {:induction false} AccumulateFound(b: seq<Bucket>, init: seq<Mention>, m: Mention)
    requires Summarises(b, init) && FindBucket(b, m.name) >= 0
    ensures Summarises(Accumulate(b, m), init + [m])
  {
    var ms := init + [m];
    var k := FindBucket(b, m.name);
    var bk := b[k].(bytes := b[k].bytes + m.weight);
    var r := b[k := bk];
    assert Accumulate(b, m) == r;
    assert DistinctNames(r) by {
      assert forall i :: 0 <= i < |r| ==> r[i].name == b[i].name;
    }
    assert SumBy(r, BucketBytes) == TotalWeight(ms) by {
      SumByUpdate(b, k, bk, BucketBytes);
      SumByAppend(init, [m], MentionWeight);
      assert ms[..|ms| - 1] == init;
    }
    forall i | 0 <= i < |r| ensures Tallies(r[i], ms) {
      if i == k {
        SnocFacts(init, m, m.name);
      } else {
        assert r[i] == b[i] && Tallies(b[i], init) && b[i].name != b[k].name;
        TalliesOther(b[i], init, m);
      }
    }
    forall n | Appears(ms, n) ensures FindBucket(r, n) >= 0 {
      SnocFacts(init, m, n);
      var j := FindBucket(b, n);
      assert r[j].name == n;
    }
  }

  lemma {:induction false} AccumulateNew(b: seq<Bucket>, init: seq<Mention>, m: Mention)
    requires Summarises(b, init) && FindBucket(b, m.name) < 0
    ensures Summarises(Accumulate(b, m), init + [m])
  {
    var ms := init + [m];
    var bk := Bucket(m.name, m.color, m.weight);
    var r := b + [bk];
    assert Accumulate(b, m) == r;
    assert !Appears(init, m.name) by {
      if Appears(init, m.name) { var j := FindBucket(b, m.name); }
    }
    assert DistinctNames(r) by {
      assert forall i :: 0 <= i < |b| ==> r[i] == b[i] && b[i].name != m.name;
    }
    assert SumBy(r, BucketBytes) == TotalWeight(ms) by {
      WeightAbsent(init, m.name);
      SumByAppend(b, [bk], BucketBytes);
      SumByAppend(init, [m], MentionWeight);
    }
    forall i | 0 <= i < |r| ensures Tallies(r[i], ms) {
      if i == |b| {
        WeightAbsent(init, m.name);
        SnocFacts(init, m, m.name);
      } else {
        assert r[i] == b[i] && Tallies(b[i], init) && b[i].name != m.name;
        TalliesOther(b[i], init, m);
      }
    }
    forall n | Appears(ms, n) ensures FindBucket(r, n) >= 0 {
      SnocFacts(init, m, n);
      if n != m.name {
        assert r[FindBucket(b, n)].name == n;
      } else {
        assert r[|r| - 1].name == n;
      }
    }
  }

  lemma BucketsSnoc(xs: seq<Mention>, m: Mention)
    ensures Buckets(xs + [m]) == Accumulate(Buckets(xs), m)
  {
    assert (xs + [m])[..|xs|] == xs;
  }

  lemma {:induction false} BucketsSummarise(ms: seq<Mention>)
    ensures Summarises(Buckets(ms), ms)
  {
    if ms != [] {
      var init := ms[..|ms| - 1];
      var m := ms[|ms| - 1];
      BucketsSummarise(init);
      assert ms == init + [m];
      if FindBucket(Buckets(init), m.name) >= 0 {
        AccumulateFound(Buckets(init), init, m);
      } else {
        AccumulateNew(Buckets(init), init, m);
      }
    }
  }

  // ---------------------------------------------------------------- ranking and rounding

  /** `Math.round(bytes / total * 100)`, computed exactly: the nearest integer, halves rounded up. */
  function Percent(bytes: nat, total: int): (p: int)
    requires total > 0
    ensures 2 * total * p <= 200 * bytes + total < 2 * total * (p + 1)
  {
    (200 * bytes + total) / (2 * total)
  }

  function ToStat(b: Bucket, total: int): LanguageStat
    requires total > 0
  {
    LanguageStat(b.name, b.color, Percent(b.bytes, total), b.bytes)
  }

  function StatSize(s: LanguageStat): int { s.size }

  function StatPercentage(s: LanguageStat): int { s.percentage }

  function StatName(s: LanguageStat): string { s.name }

  /** The entries of the Map as stats, heaviest first; ties keep insertion order. */
  function Ranked(b: seq<Bucket>, total: int): seq<LanguageStat>
    requires total > 0
  {
    SortDesc(seq(|b|, i requires 0 <= i < |b| => ToStat(b[i], total)), StatSize)
  }

  /** `slice(0, 10)` */
  function TopTen(s: seq<LanguageStat>): (r: seq<LanguageStat>)
    ensures |r| <= 10 && |r| <= |s| && r == s[..|r|]
    ensures |r| == 10 || r == s
  {
    if |s| <= 10 then s else s[..10]
  }

  /** Adds what the percentages lack from 100 to the first entry. */
  function FixRounding(s: seq<LanguageStat>): (r: seq<LanguageStat>)
    ensures |r| == |s|
    ensures forall i :: 0 <= i < |s| ==> r[i].name == s[i].name && r[i].color == s[i].color && r[i].size == s[i].size
    ensures forall i :: 0 < i < |s| ==> r[i] == s[i]
  {
    var sum := SumBy(s, StatPercentage);
    if |s| > 0 && sum != 100 then s[0 := s[0].(percentage := s[0].percentage + 100 - sum)] else s
  }

  /** What `calculateLanguageStats` returns for a list of repositories. */
  function LanguageStatsOf(repos: seq<Repository>): seq<LanguageStat> {
    StatsOfBuckets(Buckets(Mentions(repos)))
  }

  /** The stats built from the filled Map. */
  function StatsOfBuckets(b: seq<Bucket>): seq<LanguageStat> {
    var total := SumBy(b, BucketBytes);
    SumByNonNegative(b, BucketBytes);
    if total == 0 then [] else FixRounding(TopTen(Ranked(b, total)))
  }

  // ---------------------------------------------------------------- the loops

  /** `existing.bytes += weight` on the entry for the mention's language, or `set` a new entry. */
  method AddBytes(languageBytes: seq<Bucket>, m: Mention) returns (updated: seq<Bucket>)
    ensures updated == Accumulate(languageBytes, m)
  {
    var k := FindBucket(languageBytes, m.name);
    if k >= 0 {
      updated := languageBytes[k := languageBytes[k].(bytes := languageBytes[k].bytes + m.weight)];
    } else {
      updated := languageBytes + [Bucket(m.name, m.color, m.weight)];
    }
  }

  /** The body of the outer loop of `calculateLanguageStats`: the mentions of one repository
      added to the Map, an edge at a time. */
  method AddRepositoryBytes(languageBytes: seq<Bucket>, ghost before: seq<Mention>, repo: Repository)
    returns (updated: seq<Bucket>)
    requires languageBytes == Buckets(before)
    ensures updated == Buckets(before + RepoMentions(repo))
  {
    updated := languageBytes;
    var ms := RepoMentions(repo);
    if repo.languages.Some? {
      var edges := repo.languages.value;
      var j := 0;
      assert before + ms[..0] == before;
      while j < |edges|
        invariant 0 <= j <= |edges|
        invariant updated == Buckets(before + ms[..j])
      {
        var edge := edges[j];
        assert ms[j] == EdgeMention(edge);
        BucketsPrefixStep(before, ms, j);
        updated := AddBytes(updated, EdgeMention(edge));
        j := j + 1;
      }
      assert ms[..j] == ms;
    } else if repo.primaryLanguage.Some? {
      var lang := repo.primaryLanguage.value;
      assert ms == [Mention(lang.name, lang.color, 1)];
      updated := AddBytes(updated, Mention(lang.name, lang.color, 1));
      BucketsSnoc(before, ms[0]);
    } else {
      assert before + ms == before;
    }
  }

  lemma BucketsPrefixStep(before: seq<Mention>, ms: seq<Mention>, j: nat)
    requires j < |ms|
    ensures Buckets(before + ms[..j + 1]) == Accumulate(Buckets(before + ms[..j]), ms[j])
  {
    assert before + ms[..j + 1] == (before + ms[..j]) + [ms[j]];
    BucketsSnoc(before + ms[..j], ms[j]);
  }

  lemma MentionsSnoc(repos: seq<Repository>, i: nat)
    requires i < |repos|
    ensures Mentions(repos[..i + 1]) == Mentions(repos[..i]) + RepoMentions(repos[i])
  {
    assert repos[..i + 1][..i] == repos[..i];
  }

  /** The accumulation loops of `calculateLanguageStats`, which fill the Map. */
  method AccumulateLanguageBytes(repositories: seq<Repository>) returns (languageBytes: seq<Bucket>)
    ensures languageBytes == Buckets(Mentions(repositories))
  {
    languageBytes := [];
    var i := 0;
    assert repositories[..0] == [];
    while i < |repositories|
      invariant 0 <= i <= |repositories|
      invariant languageBytes == Buckets(Mentions(repositories[..i]))
    {
      MentionsSnoc(repositories, i);
      languageBytes := AddRepositoryBytes(languageBytes, Mentions(repositories[..i]), repositories[i]);
      i := i + 1;
    }
    assert repositories[..i] == repositories;
  }

  method CalculateLanguageStats(repositories: seq<Repository>) returns (stats: seq<LanguageStat>)
    ensures stats == LanguageStatsOf(repositories)
  {
    var languageBytes := AccumulateLanguageBytes(repositories);
    var totalBytes := SumBy(languageBytes, BucketBytes);
    SumByNonNegative(languageBytes, BucketBytes);
    if totalBytes == 0 {
      return [];
    }
    stats := TopTen(Ranked(languageBytes, totalBytes));
    stats := AdjustFirstPercentage(stats);
  }

  /** The rounding fix-up: the first stat's percentage absorbs the difference from 100. */
  method AdjustFirstPercentage(top: seq<LanguageStat>) returns (stats: seq<LanguageStat>)
    ensures stats == FixRounding(top)
  {
    stats := top;
    var sum := SumBy(stats, StatPercentage);
    if |stats| > 0 && sum != 100 {
      stats := stats[0 := stats[0].(percentage := stats[0].percentage + 100 - sum)];
    }
  }

  // ---------------------------------------------------------------- what the result promises

  /** Entry 0 absorbs the rounding error; every other entry carries its own rounded share. */
  lemma {:induction false} FixRoundingSum(s: seq<LanguageStat>)
    requires |s| > 0
    ensures SumBy(FixRounding(s), StatPercentage) == 100
  {
    var sum := SumBy(s, StatPercentage);
    if sum != 100 {
      SumByUpdate(s, 0, s[0].(percentage := s[0].percentage + 100 - sum), StatPercentage);
    }
  }

  lemma {:induction false} RankedFacts(b: seq<Bucket>, total: int)
    requires total > 0
    requires DistinctNames(b)
    ensures |Ranked(b, total)| == |b|
    ensures SortedDesc(Ranked(b, total), StatSize)
    ensures DistinctBy(Ranked(b, total), StatName)
    ensures forall x :: x in Ranked(b, total) <==> exists i :: 0 <= i < |b| && x == ToStat(b[i], total)
  {
    var u := seq(|b|, i requires 0 <= i < |b| => ToStat(b[i], total));
    assert DistinctBy(u, StatName) by {
      forall i, j | 0 <= i < j < |u| ensures StatName(u[i]) != StatName(u[j]) {
        assert u[i].name == b[i].name && u[j].name == b[j].name;
      }
    }
    SortDescDistinct(u, StatSize, StatName);
    SortDescSortsAndPermutes(u, StatSize);
    SortDescMembers(u, StatSize);
    forall x ensures x in u <==> exists i :: 0 <= i < |b| && x == ToStat(b[i], total) {
      if x in u {
        var i :| 0 <= i < |u| && u[i] == x;
        assert x == ToStat(b[i], total);
      }
      if exists i :: 0 <= i < |b| && x == ToStat(b[i], total) {
        var i :| 0 <= i < |b| && x == ToStat(b[i], total);
        assert u[i] == x;
      }
    }
  }

  ghost predicate LanguageOfRepos(repos: seq<Repository>, s: LanguageStat) {
    var ms := Mentions(repos);
    Appears(ms, s.name) && s.size == Weight(ms, s.name) && s.color == FirstColor(ms, s.name)
  }

  /** The stats are at most ten distinct languages of the repositories, heaviest first, each with
      its summed weight and first-seen colour; they are empty exactly when the total weight is 0,
      and otherwise their percentages add up to 100. */
  lemma {:induction false} LanguageStatsShape(repos: seq<Repository>)
    ensures var r := LanguageStatsOf(repos);
      && |r| <= 10
      && SortedDesc(r, StatSize)
      && DistinctBy(r, StatName)
      && (forall i :: 0 <= i < |r| ==> LanguageOfRepos(repos, r[i]))
      && (r == [] <==> TotalWeight(Mentions(repos)) == 0)
      && (r != [] ==> SumBy(r, StatPercentage) == 100)
      && (r != [] ==> r[0].percentage == 100 - SumBy(r[1..], StatPercentage))
      && (TotalWeight(Mentions(repos)) > 0 ==>
            forall i :: 0 < i < |r| ==> r[i].percentage == Percent(r[i].size, TotalWeight(Mentions(repos))))
  {
    var ms := Mentions(repos);
    BucketsSummarise(ms);
    StatsOfBucketsShape(Buckets(ms), ms);
  }

  /** The same facts about the stats built from any Map that summarises the mentions. */
  lemma {:induction false} StatsOfBucketsShape(b: seq<Bucket>, ms: seq<Mention>)
    requires Summarises(b, ms)
    ensures var r := StatsOfBuckets(b);
      && |r| <= 10
      && SortedDesc(r, StatSize)
      && DistinctBy(r, StatName)
      && (forall i :: 0 <= i < |r| ==> Tallies(Bucket(r[i].name, r[i].color, r[i].size), ms))
      && (r == [] <==> TotalWeight(ms) == 0)
      && (r != [] ==> SumBy(r, StatPercentage) == 100)
      && (r != [] ==> r[0].percentage == 100 - SumBy(r[1..], StatPercentage))
      && (TotalWeight(ms) > 0 ==>
            forall i :: 0 < i < |r| ==> r[i].percentage == Percent(r[i].size, TotalWeight(ms)))
  {
    StatsOfBucketsPercentages(b);
    var total := SumBy(b, BucketBytes);
    var r := StatsOfBuckets(b);
    if total > 0 {
      RankedFacts(b, total);
      var sorted := Ranked(b, total);
      var top := TopTen(sorted);
      assert |b| > 0;
      assert r == FixRounding(top);
      FixRoundingSum(top);
      forall i | 0 <= i < |r| ensures Tallies(Bucket(r[i].name, r[i].color, r[i].size), ms) {
        assert top[i] == sorted[i];
        assert sorted[i] in sorted;
        var k :| 0 <= k < |b| && sorted[i] == ToStat(b[k], total);
        assert Tallies(b[k], ms);
      }
    }
  }

  /** Each entry after the first carries its own rounded share of the total; the first carries
      what the others leave of 100. */
  lemma {:induction false} StatsOfBucketsPercentages(b: seq<Bucket>)
    ensures var r := StatsOfBuckets(b);
      && (r != [] ==> r[0].percentage == 100 - SumBy(r[1..], StatPercentage))
      && (SumBy(b, BucketBytes) > 0 ==>
            forall i :: 0 < i < |r| ==> r[i].percentage == Percent(r[i].size, SumBy(b, BucketBytes)))
  {
    var total := SumBy(b, BucketBytes);
    var r := StatsOfBuckets(b);
    if total > 0 {
      var u := seq(|b|, i requires 0 <= i < |b| => ToStat(b[i], total));
      var sorted := Ranked(b, total);
      var top := TopTen(sorted);
      assert r == FixRounding(top);
      SortDescMembers(u, StatSize);
      forall i | 0 < i < |r| ensures r[i].percentage == Percent(r[i].size, total) {
        assert r[i] == top[i] == sorted[i];
        assert sorted[i] in u;
        var k :| 0 <= k < |u| && u[k] == sorted[i];
      }
      if r != [] {
        assert r == [r[0]] + r[1..];
        SumByAppend([r[0]], r[1..], StatPercentage);
        SumBySingleton(r[0], StatPercentage);
        FixRoundingSum(top);
      }
    }
  }

  /** An entry of a ranked list that the cut to ten drops sits below ten entries at least as heavy. */
  lemma {:induction false} MissingFromTopTen(sorted: seq<LanguageStat>, j: nat)
    requires SortedDesc(sorted, StatSize) && j < |sorted|
    requires forall i :: 0 <= i < |TopTen(sorted)| ==> TopTen(sorted)[i].name != sorted[j].name
    ensures |TopTen(sorted)| == 10
    ensures forall i :: 0 <= i < 10 ==> TopTen(sorted)[i].size >= sorted[j].size
  {
    var top := TopTen(sorted);
    assert forall i :: 0 <= i < |top| ==> top[i] == sorted[i];
    assert j < |top| ==> top[j].name == sorted[j].name;
    assert j >= |top|;
    forall i | 0 <= i < 10 ensures top[i].size >= sorted[j].size {
      assert StatSize(sorted[i]) >= StatSize(sorted[j]);
    }
  }

  /** A language of the repositories that is not in the stats lost out on weight: the stats are
      full, and every entry weighs at least as much as it does. */
  lemma {:induction false} LanguageStatsTopTen(repos: seq<Repository>, name: string)
    requires Appears(Mentions(repos), name)
    requires TotalWeight(Mentions(repos)) > 0
    requires forall i :: 0 <= i < |LanguageStatsOf(repos)| ==> LanguageStatsOf(repos)[i].name != name
    ensures |LanguageStatsOf(repos)| == 10
    ensures forall i :: 0 <= i < 10 ==> LanguageStatsOf(repos)[i].size >= Weight(Mentions(repos), name)
  {
    var ms := Mentions(repos);
    var b := Buckets(ms);
    BucketsSummarise(ms);
    var total := SumBy(b, BucketBytes);
    RankedFacts(b, total);
    var sorted := Ranked(b, total);
    var top := TopTen(sorted);
    assert LanguageStatsOf(repos) == FixRounding(top);
    var k := FindBucket(b, name);
    assert ToStat(b[k], total) in sorted;
    var j :| 0 <= j < |sorted| && sorted[j] == ToStat(b[k], total);
    MissingFromTopTen(sorted, j);
  }
}
