/** The cookie that remembers which profiles a visitor has seen in the last 24 hours
    (`parseSeenCookie`, `shouldCountView`, `updateSeenCookie`, `handleDeduplication`) and the
    keyed hash of the visitor's IP address (`getIpHash`). */
module Deduplication {
  import opened Wrappers
  import opened Js
  import opened Strings
  import opened Seqs
  import opened Base64
  import opened KvConstants

  /** One remembered view: a lower-cased handle and the second it was seen at. */
  datatype SeenProfile = SeenProfile(username: string, timestamp: int)

  // ---------------------------------------------------------------- reading the cookie

  /** An entry of the decoded cookie after `split(':')`: the lower-cased first piece and
      `parseInt` of the second, NaN when there is no second piece. */
  datatype Candidate = Candidate(username: string, timestamp: JsNumber)

  function NonEmpty(s: string): bool { s != [] }

  function ToCandidate(entry: string): Candidate {
    var parts := Split(entry, ':');
    Candidate(ToLower(parts[0]), if |parts| >= 2 then ParseIntNumber(parts[1]) else NaN)
  }

  /** A candidate survives when its timestamp is a number and its handle is not empty. */
  function IsValid(c: Candidate): bool { c.timestamp.Int? && c.username != [] }

  function ToSeen(c: Candidate): SeenProfile
    requires c.timestamp.Int?
  {
    SeenProfile(c.username, c.timestamp.value)
  }

  /** The entries of a decoded cookie: comma-separated `name:seconds` pairs. */
  function ParseDecoded(decoded: string): seq<SeenProfile> {
    var entries := Filter(Split(decoded, ','), NonEmpty);
    var candidates := seq(|entries|, i requires 0 <= i < |entries| => ToCandidate(entries[i]));
    var valid := Filter(candidates, IsValid);
    seq(|valid|, i requires 0 <= i < |valid| => ToSeen(valid[i]))
  }

  /** `parseSeenCookie`: nothing for a missing or empty cookie or one that is not base64. */
  function ParseSeenCookie(cookie: Option<string>): seq<SeenProfile> {
    if cookie.None? || cookie.value == [] then []
    else
      match Atob(cookie.value)
      case None => []
      case Some(decoded) => ParseDecoded(decoded)
  }

  /** A handle the cookie can carry through a round trip. */
  predicate Storable(name: string) {
    name != [] && ':' !in name && ',' !in name && IsLatin1(name)
  }

  /** Every entry read from a cookie has a non-empty, lower-cased handle; a missing, empty or
      undecodable cookie reads as no entries. */
  lemma ParsedEntries(cookie: Option<string>)
    ensures var seen := ParseSeenCookie(cookie);
      forall i :: 0 <= i < |seen| ==> Storable(seen[i].username) && ToLower(seen[i].username) == seen[i].username
    ensures cookie.None? || cookie == Some("") || (cookie.Some? && Atob(cookie.value).None?) ==>
      ParseSeenCookie(cookie) == []
  {
    var seen := ParseSeenCookie(cookie);
    forall i | 0 <= i < |seen|
      ensures Storable(seen[i].username) && ToLower(seen[i].username) == seen[i].username
    {
      var decoded := Atob(cookie.value).value;
      var entries := Filter(Split(decoded, ','), NonEmpty);
      var candidates := seq(|entries|, i requires 0 <= i < |entries| => ToCandidate(entries[i]));
      var valid := Filter(candidates, IsValid);
      assert seen[i] == ToSeen(valid[i]);
      assert valid[i] in candidates;
      var j :| 0 <= j < |candidates| && candidates[j] == valid[i];
      EntryHandle(decoded, entries[j]);
    }
  }

  /** The handle read from an entry of a decoded cookie is lower-cased, Latin-1 and free of
      either separator. */
  lemma EntryHandle(decoded: string, entry: string)
    requires IsLatin1(decoded) && entry in Split(decoded, ',')
    ensures var name := ToCandidate(entry).username;
      ':' !in name && ',' !in name && IsLatin1(name) && ToLower(name) == name
  {
    SplitPieces(decoded, ',');
    var k :| 0 <= k < |Split(decoded, ',')| && Split(decoded, ',')[k] == entry;
    var piece := Split(entry, ':')[0];
    SplitPieces(entry, ':');
    assert forall j :: 0 <= j < |piece| ==> piece[j] in entry;
    assert ',' !in piece && IsLatin1(piece);
    ToLowerKeepsOut(piece, ':');
    ToLowerKeepsOut(piece, ',');
    ToLowerIdempotent(piece);
  }

  // ---------------------------------------------------------------- deciding whether to count

  /** `Math.floor(Date.now() / 1000)` for a clock reading in milliseconds. */
  function NowSeconds(nowMs: int): int { nowMs / 1000 }

  /** The index of the first entry for `name`, or -1 (`seen.find`). */
  function FindSeen(seen: seq<SeenProfile>, name: string): (k: int)
    ensures -1 <= k < |seen|
    ensures k >= 0 ==> seen[k].username == name && forall i :: 0 <= i < k ==> seen[i].username != name
    ensures k < 0 ==> forall i :: 0 <= i < |seen| ==> seen[i].username != name
  {
    if seen == [] then -1
    else if seen[0].username == name then 0
    else
      var k := FindSeen(seen[1..], name);
      if k < 0 then -1 else k + 1
  }

  /** `shouldCountView`: count unless the first entry for the lower-cased handle is younger
      than the 24-hour window. */
  function ShouldCountView(seen: seq<SeenProfile>, username: string, nowMs: int): (b: bool)
    ensures b <==>
      (forall i :: 0 <= i < |seen| ==> seen[i].username != ToLower(username)) ||
      (exists k :: 0 <= k < |seen| && seen[k].username == ToLower(username)
         && (forall i :: 0 <= i < k ==> seen[i].username != ToLower(username))
         && (NowSeconds(nowMs) - seen[k].timestamp) * 1000 >= DedupWindowMs)
  {
    var k := FindSeen(seen, ToLower(username));
    k < 0 || (NowSeconds(nowMs) - seen[k].timestamp) * 1000 >= DedupWindowMs
  }

  // ---------------------------------------------------------------- writing the cookie

  /** The filter of `updateSeenCookie`: drop the viewed handle and every entry at least a
      window old, keeping the others in their order. */
  predicate Recent(s: SeenProfile, name: string, nowSeconds: int) {
    s.username != name && (nowSeconds - s.timestamp) * 1000 < DedupWindowMs
  }

  function KeepRecent(seen: seq<SeenProfile>, name: string, nowSeconds: int): (r: seq<SeenProfile>)
    ensures |r| <= |seen|
  {
    if seen == [] then []
    else
      var rest := KeepRecent(seen[1..], name, nowSeconds);
      if Recent(seen[0], name, nowSeconds) then [seen[0]] + rest else rest
  }

  /** The list `updateSeenCookie` encodes: the viewed handle at the current second in front of
      the recent others, cut to the fifty most recent. */
  function UpdatedSeen(seen: seq<SeenProfile>, username: string, nowMs: int): seq<SeenProfile> {
    var name := ToLower(username);
    var list := [SeenProfile(name, NowSeconds(nowMs))] + KeepRecent(seen, name, NowSeconds(nowMs));
    list[..SliceEnd(|list|, MaxTrackedProfiles)]
  }

  /** `` `${username}:${timestamp}` `` */
  function Token(s: SeenProfile): string {
    s.username + ":" + IntToString(s.timestamp)
  }

  function Tokens(list: seq<SeenProfile>): (ts: seq<string>)
    ensures |ts| == |list| && forall i :: 0 <= i < |list| ==> ts[i] == Token(list[i])
  {
    seq(|list|, i requires 0 <= i < |list| => Token(list[i]))
  }

  /** The cookie text of a list, before base64. */
  function Serialise(list: seq<SeenProfile>): string {
    Join(Tokens(list), ',')
  }

  /** `updateSeenCookie`: None where `btoa` throws, on a handle outside Latin-1. */
  method UpdateSeenCookie(seen: seq<SeenProfile>, username: string, nowMs: int) returns (cookie: Option<string>)
    ensures cookie == Btoa(Serialise(UpdatedSeen(seen, username, nowMs)))
  {
    var normalized := ToLower(username);
    var nowSeconds := nowMs / 1000;
    var filtered := KeepRecent(seen, normalized, nowSeconds);
    filtered := [SeenProfile(normalized, nowSeconds)] + filtered;
    var limited := filtered[..SliceEnd(|filtered|, MaxTrackedProfiles)];
    cookie := Btoa(Serialise(limited));
  }

  /** A subsequence: `a` is `b` with some elements left out, the rest in their order. */
  ghost predicate Subsequence<T>(a: seq<T>, b: seq<T>)
    decreases |b|
  {
    a == [] || (b != [] && if a[0] == b[0] then Subsequence(a[1..], b[1..]) else Subsequence(a, b[1..]))
  }

  lemma {:induction false} KeepRecentSubsequence(seen: seq<SeenProfile>, name: string, nowSeconds: int)
    ensures Subsequence(KeepRecent(seen, name, nowSeconds), seen)
  {
    if seen != [] {
      KeepRecentSubsequence(seen[1..], name, nowSeconds);
      var rest := KeepRecent(seen[1..], name, nowSeconds);
      if KeepRecent(seen, name, nowSeconds) != rest {
        assert KeepRecent(seen, name, nowSeconds) == [seen[0]] + rest;
        assert ([seen[0]] + rest)[1..] == rest;
      } else if rest != [] && rest[0] == seen[0] {
        KeepRecentFacts(seen[1..], name, nowSeconds);
        SubsequenceTail(rest, seen[1..]);
      }
    }
  }

  /** The survivors of the filter are exactly the recent entries of the list: each survivor is
      one, none is for `name`, and every recent entry survives. */
  lemma {:induction false} KeepRecentFacts(seen: seq<SeenProfile>, name: string, nowSeconds: int)
    ensures forall i :: 0 <= i < |KeepRecent(seen, name, nowSeconds)| ==>
      KeepRecent(seen, name, nowSeconds)[i] in seen && Recent(KeepRecent(seen, name, nowSeconds)[i], name, nowSeconds)
    ensures forall s :: s in seen && Recent(s, name, nowSeconds) ==> s in KeepRecent(seen, name, nowSeconds)
  {
    if seen != [] {
      KeepRecentFacts(seen[1..], name, nowSeconds);
      var rest := KeepRecent(seen[1..], name, nowSeconds);
      var r := KeepRecent(seen, name, nowSeconds);
      assert forall x :: x in seen[1..] ==> x in seen;
      assert forall x :: x in seen ==> x == seen[0] || x in seen[1..];
      if Recent(seen[0], name, nowSeconds) {
        assert r == [seen[0]] + rest;
        assert forall i :: 1 <= i < |r| ==> r[i] == rest[i - 1];
      }
    }
  }

  /** Dropping the head of a subsequence leaves a subsequence. */
  lemma {:induction false} SubsequenceTail<T>(a: seq<T>, b: seq<T>)
    requires a != [] && Subsequence(a, b)
    ensures Subsequence(a[1..], b)
    decreases |b|, 1
  {
    if a[0] == b[0] {
      SubsequenceExtend(a[1..], b);
    } else {
      SubsequenceTail(a, b[1..]);
      SubsequenceExtend(a[1..], b);
    }
  }

  /** A subsequence of the tail of `b` is a subsequence of `b`. */
  lemma {:induction false} SubsequenceExtend<T>(a: seq<T>, b: seq<T>)
    requires b != [] && Subsequence(a, b[1..])
    ensures Subsequence(a, b)
    decreases |b|, 0
  {
    if a != [] && a[0] == b[0] {
      SubsequenceTail(a, b[1..]);
    }
  }

  /** A prefix of a subsequence is a subsequence. */
  lemma {:induction false} SubsequencePrefix<T>(a: seq<T>, b: seq<T>, k: nat)
    requires k <= |a| && Subsequence(a, b)
    ensures Subsequence(a[..k], b)
    decreases |b|
  {
    if k > 0 {
      assert a[..k][0] == a[0];
      if a[0] == b[0] {
        SubsequencePrefix(a[1..], b[1..], k - 1);
        assert a[..k][1..] == a[1..][..k - 1];
      } else {
        SubsequencePrefix(a, b[1..], k);
      }
    }
  }

  /** The updated list starts with the viewed handle at the current second, holds at most fifty
      entries, and after its head holds only entries of the old list, in their old order, that
      are for other handles and younger than the window. */
  lemma UpdatedSeenShape(seen: seq<SeenProfile>, username: string, nowMs: int)
    ensures var r := UpdatedSeen(seen, username, nowMs);
      && 1 <= |r| <= MaxTrackedProfiles
      && r[0] == SeenProfile(ToLower(username), NowSeconds(nowMs))
      && Subsequence(r[1..], seen)
      && (forall i :: 1 <= i < |r| ==>
           r[i] in seen && r[i].username != ToLower(username) && (NowSeconds(nowMs) - r[i].timestamp) * 1000 < DedupWindowMs)
      && (|r| < MaxTrackedProfiles ==>
           forall s :: s in seen && Recent(s, ToLower(username), NowSeconds(nowMs)) ==> s in r[1..])
  {
    var name := ToLower(username);
    var kept := KeepRecent(seen, name, NowSeconds(nowMs));
    var list := [SeenProfile(name, NowSeconds(nowMs))] + kept;
    var r := UpdatedSeen(seen, username, nowMs);
    var n := SliceEnd(|list|, MaxTrackedProfiles);
    assert r == list[..n] && 1 <= n <= MaxTrackedProfiles;
    assert r[0] == list[0];
    assert r[1..] == kept[..|r| - 1] by {
      assert |r[1..]| == |kept[..|r| - 1]|;
      forall i | 0 <= i < |r| - 1 ensures r[1..][i] == kept[..|r| - 1][i] {
        assert r[1..][i] == list[i + 1] == kept[i];
      }
    }
    KeepRecentFacts(seen, name, NowSeconds(nowMs));
    KeepRecentSubsequence(seen, name, NowSeconds(nowMs));
    SubsequencePrefix(kept, seen, |r| - 1);
    forall i | 1 <= i < |r|
      ensures r[i] in seen && r[i].username != name && (NowSeconds(nowMs) - r[i].timestamp) * 1000 < DedupWindowMs
    {
      assert r[i] == kept[i - 1];
    }
    if |r| < MaxTrackedProfiles {
      assert r[1..] == kept;
    }
  }

  // ---------------------------------------------------------------- the round trip

  /** The decimal form of a timestamp holds neither separator and is Latin-1. */
  lemma TimestampText(n: int)
    ensures ':' !in IntToString(n) && ',' !in IntToString(n) && IsLatin1(IntToString(n))
  {
    IntToStringCharacters(n);
  }

  /** One token splits at its colon into the handle and the timestamp. */
  lemma TokenCandidate(s: SeenProfile)
    requires Storable(s.username) && ToLower(s.username) == s.username
    ensures Token(s) != [] && ToCandidate(Token(s)) == Candidate(s.username, Int(s.timestamp))
  {
    var digits := IntToString(s.timestamp);
    TimestampText(s.timestamp);
    assert Join([s.username, digits], ':') == Token(s);
    SplitJoin([s.username, digits], ':');
    ParseIntOfIntToString(s.timestamp);
  }

  /** The tokens of a list of storable entries: separator-free and Latin-1. */
  lemma TokensText(list: seq<SeenProfile>)
    requires forall i :: 0 <= i < |list| ==> Storable(list[i].username)
    ensures forall i :: 0 <= i < |list| ==> ',' !in Tokens(list)[i] && IsLatin1(Tokens(list)[i]) && Tokens(list)[i] != []
  {
    forall i | 0 <= i < |list|
      ensures ',' !in Tokens(list)[i] && IsLatin1(Tokens(list)[i]) && Tokens(list)[i] != []
    {
      TimestampText(list[i].timestamp);
    }
  }

  /** Splitting the text of a list at its commas gives its tokens, none of them empty. */
  lemma SplitSerialise(list: seq<SeenProfile>)
    requires |list| >= 1
    requires forall i :: 0 <= i < |list| ==> Storable(list[i].username)
    ensures Filter(Split(Serialise(list), ','), NonEmpty) == Tokens(list)
  {
    TokensText(list);
    SplitJoin(Tokens(list), ',');
    FilterKeepsAll(Tokens(list), NonEmpty);
  }

  /** Each token reads back as a valid candidate for its entry. */
  lemma CandidatesOfTokens(list: seq<SeenProfile>)
    requires forall i :: 0 <= i < |list| ==> Storable(list[i].username) && ToLower(list[i].username) == list[i].username
    ensures var tokens := Tokens(list);
      seq(|tokens|, i requires 0 <= i < |tokens| => ToCandidate(tokens[i]))
        == seq(|list|, i requires 0 <= i < |list| => Candidate(list[i].username, Int(list[i].timestamp)))
  {
    forall i | 0 <= i < |list|
      ensures ToCandidate(Tokens(list)[i]) == Candidate(list[i].username, Int(list[i].timestamp))
    {
      TokenCandidate(list[i]);
    }
  }

  /** Reading back the text of a non-empty list of storable, lower-cased entries gives the list. */
  lemma ParseSerialise(list: seq<SeenProfile>)
    requires |list| >= 1
    requires forall i :: 0 <= i < |list| ==> Storable(list[i].username) && ToLower(list[i].username) == list[i].username
    ensures ParseDecoded(Serialise(list)) == list
  {
    var tokens := Tokens(list);
    SplitSerialise(list);
    CandidatesOfTokens(list);
    var candidates := seq(|list|, i requires 0 <= i < |list| => Candidate(list[i].username, Int(list[i].timestamp)));
    FilterKeepsAll(candidates, IsValid);
    var parsed := ParseDecoded(Serialise(list));
    assert |parsed| == |list|;
    forall i | 0 <= i < |list| ensures parsed[i] == list[i] {
      assert parsed[i] == ToSeen(candidates[i]);
    }
  }

  /** The entries of the updated list are storable when the old ones and the handle are. */
  lemma UpdatedSeenStorable(seen: seq<SeenProfile>, username: string, nowMs: int)
    requires Storable(username)
    requires forall i :: 0 <= i < |seen| ==> Storable(seen[i].username) && ToLower(seen[i].username) == seen[i].username
    ensures var r := UpdatedSeen(seen, username, nowMs);
      forall i :: 0 <= i < |r| ==> Storable(r[i].username) && ToLower(r[i].username) == r[i].username
  {
    UpdatedSeenShape(seen, username, nowMs);
    ToLowerKeepsOut(username, ':');
    ToLowerKeepsOut(username, ',');
    ToLowerIdempotent(username);
  }

  /** A cookie written for storable handles decodes and parses back to the list that was written,
      capped at fifty entries. */
  lemma ParseUpdatedCookie(seen: seq<SeenProfile>, username: string, nowMs: int)
    requires Storable(username)
    requires forall i :: 0 <= i < |seen| ==> Storable(seen[i].username) && ToLower(seen[i].username) == seen[i].username
    ensures Btoa(Serialise(UpdatedSeen(seen, username, nowMs))).Some?
    ensures ParseSeenCookie(Btoa(Serialise(UpdatedSeen(seen, username, nowMs)))) == UpdatedSeen(seen, username, nowMs)
  {
    var r := UpdatedSeen(seen, username, nowMs);
    UpdatedSeenShape(seen, username, nowMs);
    UpdatedSeenStorable(seen, username, nowMs);
    var text := Serialise(r);
    TokensText(r);
    JoinLatin1(Tokens(r), ',');
    JoinNonEmpty(Tokens(r), ',');
    AtobBtoa(text);
    BtoaNonEmpty(text);
    ParseSerialise(r);
  }

  // ---------------------------------------------------------------- handleDeduplication

  /** What reading the cookie jar gave: the cookie's value, if any, or a thrown error. */
  datatype CookieRead = CookieValue(value: Option<string>) | CookieThrows(error: Thrown)

  datatype CookieOptions = CookieOptions(path: string, maxAge: int, httpOnly: bool, sameSite: string)

  /** A cookie the response sets. */
  datatype SetCookie = SetCookie(name: string, value: string, options: CookieOptions)

  /** Valid at the root path for 24 hours, hidden from scripts, sent on top-level navigation. */
  const DedupCookieOptions: CookieOptions := CookieOptions("/", 86400, true, "lax")

  /** Whether to count the view, and the cookie set on the response if one was. */
  datatype DedupResult = DedupResult(shouldCount: bool, cookieSet: Option<SetCookie>)

  /** `handleDeduplication`; `setSucceeds` says whether `cookies.set` returns normally. */
  function HandleDeduplication(cookie: CookieRead, username: string, nowMs: int, setSucceeds: bool): DedupResult {
    match cookie
    case CookieThrows(_) => DedupResult(true, None)
    case CookieValue(value) =>
      var seen := ParseSeenCookie(value);
      if !ShouldCountView(seen, username, nowMs) then DedupResult(false, None)
      else
        match Btoa(Serialise(UpdatedSeen(seen, username, nowMs)))
        case None => DedupResult(true, None)
        case Some(encoded) =>
          DedupResult(true, if setSucceeds then Some(SetCookie(DedupCookieName, encoded, DedupCookieOptions)) else None)
  }

  /** Deduplication fails open: an unreadable cookie jar counts the view; the decision never
      depends on whether the cookie could be written; a cookie is written only for a counted
      view, under the fixed name and options, holding the updated list. */
  lemma DeduplicationFailsOpen(cookie: CookieRead, username: string, nowMs: int, setSucceeds: bool)
    ensures var d := HandleDeduplication(cookie, username, nowMs, setSucceeds);
      && (cookie.CookieThrows? ==> d == DedupResult(true, None))
      && d.shouldCount == HandleDeduplication(cookie, username, nowMs, !setSucceeds).shouldCount
      && (cookie.CookieValue? ==> d.shouldCount == ShouldCountView(ParseSeenCookie(cookie.value), username, nowMs))
      && (d.cookieSet.Some? ==>
            && d.shouldCount && setSucceeds && cookie.CookieValue?
            && d.cookieSet.value.name == DedupCookieName
            && d.cookieSet.value.options == DedupCookieOptions
            && Some(d.cookieSet.value.value) == Btoa(Serialise(UpdatedSeen(ParseSeenCookie(cookie.value), username, nowMs))))
  {
  }

  /** A counted view of a storable handle sets its cookie; a later visit with that cookie reads
      the handle back and counts again exactly when a full window has passed, in whole seconds. */
  lemma RevisitCountedAfterWindow(cookie: Option<string>, username: string, nowMs: int, laterMs: int)
    requires Storable(username)
    requires ShouldCountView(ParseSeenCookie(cookie), username, nowMs)
    ensures var d := HandleDeduplication(CookieValue(cookie), username, nowMs, true);
      && d.cookieSet.Some?
      && var elapsedMs := (NowSeconds(laterMs) - NowSeconds(nowMs)) * 1000;
         (ShouldCountView(ParseSeenCookie(Some(d.cookieSet.value.value)), username, laterMs) <==> elapsedMs >= DedupWindowMs)
  {
    var seen := ParseSeenCookie(cookie);
    var r := UpdatedSeen(seen, username, nowMs);
    var d := HandleDeduplication(CookieValue(cookie), username, nowMs, true);
    ParsedEntries(cookie);
    ParseUpdatedCookie(seen, username, nowMs);
    assert Btoa(Serialise(r)) == Some(d.cookieSet.value.value);
    UpdatedSeenShape(seen, username, nowMs);
    assert ParseSeenCookie(Some(d.cookieSet.value.value)) == r;
    assert FindSeen(r, ToLower(username)) == 0;
  }

  /** The window on the clock: a visit 23 hours 59 minutes later is not counted, one 24 hours
      1 minute later is. */
  lemma RevisitWindowBoundary(cookie: Option<string>, username: string, nowMs: int)
    requires Storable(username)
    requires ShouldCountView(ParseSeenCookie(cookie), username, nowMs)
    ensures var d := HandleDeduplication(CookieValue(cookie), username, nowMs, true);
      && d.cookieSet.Some?
      && var next := d.cookieSet.value.value;
      && !ShouldCountView(ParseSeenCookie(Some(next)), username, nowMs + (23 * 60 + 59) * 60 * 1000)
      && ShouldCountView(ParseSeenCookie(Some(next)), username, nowMs + (24 * 60 + 1) * 60 * 1000)
  {
    RevisitCountedAfterWindow(cookie, username, nowMs, nowMs + (23 * 60 + 59) * 60 * 1000);
    RevisitCountedAfterWindow(cookie, username, nowMs, nowMs + (24 * 60 + 1) * 60 * 1000);
    assert NowSeconds(nowMs + (23 * 60 + 59) * 60 * 1000) == NowSeconds(nowMs) + (23 * 60 + 59) * 60;
    assert NowSeconds(nowMs + (24 * 60 + 1) * 60 * 1000) == NowSeconds(nowMs) + (24 * 60 + 1) * 60;
  }

  // ---------------------------------------------------------------- getIpHash

  const SecretMinLength: int := 32

  const SecretMessage: string := "IP_HASH_SECRET is not configured or is too short (min 32 chars)."

  /** `getIpHash`; `hmac(secret, ip)` stands for the hex HMAC-SHA256 digest. The secret is
      checked before the address. */
  function GetIpHash(secret: Option<string>, ip: string, hmac: (string, string) -> string): (r: Result<string, Thrown>)
    ensures r.Err? <==> secret.None? || Utf16Length(secret.value) < SecretMinLength
    ensures r.Err? ==> r.error == ErrorObject(SecretMessage)
    ensures r.Ok? ==> r.value == if ip == [] then [] else hmac(secret.value, ip)
  {
    if secret.None? || secret.value == [] || Utf16Length(secret.value) < SecretMinLength then Err(ErrorObject(SecretMessage))
    else if ip == [] then Ok([])
    else Ok(hmac(secret.value, ip))
  }

  /** The length test counts UTF-16 code units: sixteen astral code points make a secret of
      length 32, which is accepted, and the address is hashed with it. */
  lemma AstralSecretAccepted(ip: string, hmac: (string, string) -> string)
    requires ip != []
    ensures var secret := seq(16, _ => '\U{1F600}');
      && |secret| == 16
      && GetIpHash(Some(secret), ip, hmac) == Ok(hmac(secret, ip))
  {
    var secret := seq(16, _ => '\U{1F600}');
    var k := 0;
    while k < 16
      invariant 0 <= k <= 16
      invariant Utf16Length(secret[..k]) == 2 * k
    {
      assert secret[..k + 1][..k] == secret[..k];
      k := k + 1;
    }
    assert secret[..16] == secret;
  }
}
