/** The client-side state holders of the portfolio generator: the generator's options with their
    URL-parameter form, the toast list, and the in-memory profile cache. */
module GeneratorStore {
  import opened Wrappers
  import opened Strings
  import opened Seqs
  import opened GitHubTypes

  // ---------------------------------------------------------------- templates and themes

  datatype Template = GitHubTemplate | BentoTemplate | MinimalTemplate

  datatype Theme = Dark | Light

  function TemplateName(t: Template): string {
    match t
    case GitHubTemplate => "github"
    case BentoTemplate => "bento"
    case MinimalTemplate => "minimal"
  }

  function ThemeName(t: Theme): string {
    match t
    case Dark => "dark"
    case Light => "light"
  }

  /** The template a parameter value names, if it is one of `github`, `bento`, `minimal`. */
  function TemplateNamed(s: string): (t: Option<Template>)
    ensures t.Some? <==> s in {"github", "bento", "minimal"}
    ensures t.Some? ==> TemplateName(t.value) == s
  {
    if s == "github" then Some(GitHubTemplate)
    else if s == "bento" then Some(BentoTemplate)
    else if s == "minimal" then Some(MinimalTemplate)
    else None
  }

  /** The theme a parameter value names, if it is `dark` or `light`. */
  function ThemeNamed(s: string): (t: Option<Theme>)
    ensures t.Some? <==> s in {"dark", "light"}
    ensures t.Some? ==> ThemeName(t.value) == s
  {
    if s == "dark" then Some(Dark)
    else if s == "light" then Some(Light)
    else None
  }

  /** Every template and every theme is read back from its name. */
  lemma NamesRoundTrip(t: Template, th: Theme)
    ensures TemplateNamed(TemplateName(t)) == Some(t)
    ensures ThemeNamed(ThemeName(th)) == Some(th)
  {
  }

  // ---------------------------------------------------------------- URL parameters

  /** A query string as its list of name and value pairs. */
  type Params = seq<(string, string)>

  /** `params.get(name)`: the value of the first pair with that name. */
  function Get(params: Params, name: string): (v: Option<string>)
    ensures v.None? <==> forall i :: 0 <= i < |params| ==> params[i].0 != name
  {
    if params == [] then None
    else if params[0].0 == name then Some(params[0].1)
    else Get(params[1..], name)
  }

  /** The value found is that of the first pair with the name. */
  lemma {:induction false} GetFirst(params: Params, name: string)
    requires Get(params, name).Some?
    ensures exists i :: 0 <= i < |params| && params[i] == (name, Get(params, name).value)
                        && forall j :: 0 <= j < i ==> params[j].0 != name
  {
    if params[0].0 != name {
      GetFirst(params[1..], name);
      var i :| 0 <= i < |params[1..]| && params[1..][i] == (name, Get(params, name).value)
               && forall j :: 0 <= j < i ==> params[1..][j].0 != name;
      assert params[i + 1] == (name, Get(params, name).value);
      forall j | 0 <= j < i + 1 ensures params[j].0 != name {
        if j > 0 {
          assert params[j] == params[1..][j - 1];
        }
      }
    } else {
      assert params[0] == (name, Get(params, name).value);
    }
  }

  /** The template `loadFromParams` takes from the parameters: none when the parameter is absent,
      empty or not a template name. */
  function ParamTemplate(params: Params): Option<Template> {
    match Get(params, "template")
    case None => None
    case Some(s) => TemplateNamed(s)
  }

  function ParamTheme(params: Params): Option<Theme> {
    match Get(params, "theme")
    case None => None
    case Some(s) => ThemeNamed(s)
  }

  /** The parameters `toParams` writes: the template unless it is the default, then the theme
      unless it is the default. */
  function ParamsOf(t: Template, th: Theme): Params {
    (if t != GitHubTemplate then [("template", TemplateName(t))] else [])
    + (if th != Dark then [("theme", ThemeName(th))] else [])
  }

  /** The defaults are left out of the parameters and everything else is written under its name. */
  lemma ParamsOfShape(t: Template, th: Theme)
    ensures |ParamsOf(t, th)| <= 2
    ensures Get(ParamsOf(t, th), "template") == (if t == GitHubTemplate then None else Some(TemplateName(t)))
    ensures Get(ParamsOf(t, th), "theme") == (if th == Dark then None else Some(ThemeName(th)))
  {
    var p := ParamsOf(t, th);
    if t != GitHubTemplate {
      assert p[0] == ("template", TemplateName(t));
    }
    if th != Dark && t != GitHubTemplate {
      assert p[1] == ("theme", ThemeName(th));
      assert p[1..] == [("theme", ThemeName(th))];
    }
  }

  /** Loading the parameters of a template and a theme gives that template and theme back over
      a state holding the defaults, and over any state it gives them back except that a default
      leaves the current value in place. */
  lemma {:induction false} ParamsRoundTrip(t: Template, th: Theme, current: Template, currentTheme: Theme)
    ensures ParamTemplate(ParamsOf(t, th)).GetOr(current) == (if t == GitHubTemplate then current else t)
    ensures ParamTheme(ParamsOf(t, th)).GetOr(currentTheme) == (if th == Dark then currentTheme else th)
    ensures ParamTemplate(ParamsOf(t, th)).GetOr(GitHubTemplate) == t
    ensures ParamTheme(ParamsOf(t, th)).GetOr(Dark) == th
  {
    ParamsOfShape(t, th);
    NamesRoundTrip(t, th);
  }

  // ---------------------------------------------------------------- the generator state

  /** The derived `options` object. */
  datatype PortfolioOptions = PortfolioOptions(template: Template, theme: Theme, showContributions: bool,
                                               showLanguages: bool, showProjects: bool, showStats: bool,
                                               accentColor: string)

  /** The fields outside `options`: export and share state. */
  datatype SessionState = SessionState(isExporting: bool, isExportMode: bool, exportFormat: string,
                                       shareUrl: string, isSharing: bool)

  const DefaultAccentColor: string := "#58a6ff"

  /** What `reset` restores. */
  const DefaultOptions: PortfolioOptions :=
    PortfolioOptions(GitHubTemplate, Dark, true, true, true, true, DefaultAccentColor)

  /** The four display flags the toggles flip. */
  datatype Flag = ContributionsFlag | LanguagesFlag | ProjectsFlag | StatsFlag

  function Shown(o: PortfolioOptions, f: Flag): bool {
    match f
    case ContributionsFlag => o.showContributions
    case LanguagesFlag => o.showLanguages
    case ProjectsFlag => o.showProjects
    case StatsFlag => o.showStats
  }

  /** The options with one flag flipped. */
  function Toggled(o: PortfolioOptions, f: Flag): PortfolioOptions {
    match f
    case ContributionsFlag => o.(showContributions := !o.showContributions)
    case LanguagesFlag => o.(showLanguages := !o.showLanguages)
    case ProjectsFlag => o.(showProjects := !o.showProjects)
    case StatsFlag => o.(showStats := !o.showStats)
  }

  /** A toggle flips its own flag and no other, leaves template, theme and colour alone, and
      undoes itself. */
  lemma ToggledShape(o: PortfolioOptions, f: Flag)
    ensures forall g :: Shown(Toggled(o, f), g) == (if g == f then !Shown(o, g) else Shown(o, g))
    ensures Toggled(o, f).template == o.template && Toggled(o, f).theme == o.theme
    ensures Toggled(o, f).accentColor == o.accentColor
    ensures Toggled(Toggled(o, f), f) == o
  {
  }

  class GeneratorState {
    var template: Template
    var theme: Theme
    var showContributions: bool
    var showLanguages: bool
    var showProjects: bool
    var showStats: bool
    var accentColor: string
    var isExporting: bool
    var isExportMode: bool
    var exportFormat: string
    var shareUrl: string
    var isSharing: bool

    function Options(): PortfolioOptions
      reads this
    {
      PortfolioOptions(template, theme, showContributions, showLanguages, showProjects, showStats, accentColor)
    }

    function Session(): SessionState
      reads this
    {
      SessionState(isExporting, isExportMode, exportFormat, shareUrl, isSharing)
    }

    /** The initial state: the default options, not exporting, `png`, nothing shared. */
    constructor ()
      ensures Options() == DefaultOptions
      ensures Session() == SessionState(false, false, "png", "", false)
    {
      template := GitHubTemplate;
      theme := Dark;
      showContributions := true;
      showLanguages := true;
      showProjects := true;
      showStats := true;
      accentColor := DefaultAccentColor;
      isExporting := false;
      isExportMode := false;
      exportFormat := "png";
      shareUrl := "";
      isSharing := false;
    }

    method SetTemplate(t: Template)
      modifies this
      ensures Options() == old(Options()).(template := t)
      ensures Session() == old(Session())
    {
      template := t;
    }

    method SetTheme(th: Theme)
      modifies this
      ensures Options() == old(Options()).(theme := th)
      ensures Session() == old(Session())
    {
      theme := th;
    }

    method ToggleContributions()
      modifies this
      ensures Options() == Toggled(old(Options()), ContributionsFlag)
      ensures Session() == old(Session())
    {
      showContributions := !showContributions;
    }

    method ToggleLanguages()
      modifies this
      ensures Options() == Toggled(old(Options()), LanguagesFlag)
      ensures Session() == old(Session())
    {
      showLanguages := !showLanguages;
    }

    method ToggleProjects()
      modifies this
      ensures Options() == Toggled(old(Options()), ProjectsFlag)
      ensures Session() == old(Session())
    {
      showProjects := !showProjects;
    }

    method ToggleStats()
      modifies this
      ensures Options() == Toggled(old(Options()), StatsFlag)
      ensures Session() == old(Session())
    {
      showStats := !showStats;
    }

    method SetAccentColor(color: string)
      modifies this
      ensures Options() == old(Options()).(accentColor := color)
      ensures Session() == old(Session())
    {
      accentColor := color;
    }

    method SetExportFormat(format: string)
      modifies this
      ensures Options() == old(Options())
      ensures Session() == old(Session()).(exportFormat := format)
    {
      exportFormat := format;
    }

    /** Export mode and the exporting flag go on together; nothing else changes. */
    method EnterExportMode()
      modifies this
      ensures Options() == old(Options())
      ensures Session() == old(Session()).(isExportMode := true, isExporting := true)
    {
      isExportMode := true;
      isExporting := true;
    }

    /** Export mode and the exporting flag go off together; nothing else changes. */
    method ExitExportMode()
      modifies this
      ensures Options() == old(Options())
      ensures Session() == old(Session()).(isExportMode := false, isExporting := false)
    {
      isExportMode := false;
      isExporting := false;
    }

    /** The seven display fields return to their defaults; export and share state stay. */
    method Reset()
      modifies this
      ensures Options() == DefaultOptions
      ensures Session() == old(Session())
    {
      template := GitHubTemplate;
      theme := Dark;
      showContributions := true;
      showLanguages := true;
      showProjects := true;
      showStats := true;
      accentColor := DefaultAccentColor;
    }

    /** `loadFromParams`: a valid template or theme in the parameters replaces the current one;
      an absent or invalid value, and every other field, stays as it was. */
    method LoadFromParams(params: Params)
      modifies this
      ensures Options() == old(Options()).(template := ParamTemplate(params).GetOr(old(template)),
                                           theme := ParamTheme(params).GetOr(old(theme)))
      ensures Session() == old(Session())
    {
      var t := Get(params, "template");
      var th := Get(params, "theme");
      assert ParamTemplate(params) == if t.Some? then TemplateNamed(t.value) else None;
      assert ParamTheme(params) == if th.Some? then ThemeNamed(th.value) else None;
      if t.Some? && t.value != [] && TemplateNamed(t.value).Some? {
        template := TemplateNamed(t.value).value;
      }
      if th.Some? && th.value != [] && ThemeNamed(th.value).Some? {
        theme := ThemeNamed(th.value).value;
      }
    }

    /** `toParams`: the template and the theme, each only when it is not the default. */
    method ToParams() returns (params: Params)
      ensures params == ParamsOf(template, theme)
      ensures Get(params, "template") == (if template == GitHubTemplate then None else Some(TemplateName(template)))
      ensures Get(params, "theme") == (if theme == Dark then None else Some(ThemeName(theme)))
    {
      params := [];
      if template != GitHubTemplate {
        params := params + [("template", TemplateName(template))];
      }
      if theme != Dark {
        params := params + [("theme", ThemeName(theme))];
      }
      ParamsOfShape(template, theme);
    }
  }

  // ---------------------------------------------------------------- toasts

  datatype ToastType = SuccessToast | ErrorToast | InfoToast | WarningToast

  datatype Toast = Toast(id: string, kind: ToastType, message: string)

  const DefaultToastDuration: int := 3000

  /** `toasts.filter((t) => t.id !== id)`. */
  function Without(toasts: seq<Toast>, id: string): seq<Toast> {
    Filter(toasts, (t: Toast) => t.id != id)
  }

  /** Removing an id leaves no toast with it, keeps every toast with another id, keeps their order
      (removing from a concatenation removes from each part), changes nothing the second time, and
      changes nothing when no toast has the id. */
  lemma WithoutShape(toasts: seq<Toast>, more: seq<Toast>, id: string)
    ensures forall i :: 0 <= i < |Without(toasts, id)| ==> Without(toasts, id)[i].id != id
    ensures forall t :: t in toasts && t.id != id ==> t in Without(toasts, id)
    ensures forall t :: t in Without(toasts, id) ==> t in toasts
    ensures Without(toasts + more, id) == Without(toasts, id) + Without(more, id)
    ensures Without(Without(toasts, id), id) == Without(toasts, id)
    ensures (forall i :: 0 <= i < |toasts| ==> toasts[i].id != id) ==> Without(toasts, id) == toasts
  {
    var p := (t: Toast) => t.id != id;
    forall t | t in toasts && t.id != id ensures t in Without(toasts, id) {
      var i :| 0 <= i < |toasts| && toasts[i] == t;
      assert p(toasts[i]);
    }
    FilterAppend(toasts, more, p);
    FilterKeepsAll(Without(toasts, id), p);
    if forall i :: 0 <= i < |toasts| ==> toasts[i].id != id {
      FilterKeepsAll(toasts, p);
    }
  }

  /** A toast added under a fresh id and then removed leaves the list as it was. */
  lemma {:induction false} AddThenRemove(toasts: seq<Toast>, t: Toast)
    requires forall i :: 0 <= i < |toasts| ==> toasts[i].id != t.id
    ensures Without(toasts + [t], t.id) == toasts
  {
    WithoutShape(toasts, [t], t.id);
    assert Without([t], t.id) == [] by {
      assert [t][1..] == [];
    }
  }

  class ToastState {
    var toasts: seq<Toast>

    constructor ()
      ensures toasts == []
    {
      toasts := [];
    }

    /** `add`: the toast is appended under `id` (the fresh identifier the caller draws) and the id
        is returned; `removeAfter` is the delay of the scheduled removal, None when the duration
        (3000 when not given) is not positive. */
    method Add(kind: ToastType, message: string, duration: Option<int>, id: string)
      returns (r: string, removeAfter: Option<int>)
      modifies this
      ensures toasts == old(toasts) + [Toast(id, kind, message)]
      ensures r == id
      ensures removeAfter == (if duration.GetOr(DefaultToastDuration) > 0 then Some(duration.GetOr(DefaultToastDuration)) else None)
    {
      var d := duration.GetOr(DefaultToastDuration);
      toasts := toasts + [Toast(id, kind, message)];
      removeAfter := if d > 0 then Some(d) else None;
      r := id;
    }

    method Remove(id: string)
      modifies this
      ensures toasts == Without(old(toasts), id)
    {
      toasts := Without(toasts, id);
    }

    method Success(message: string, duration: Option<int>, id: string) returns (r: string, removeAfter: Option<int>)
      modifies this
      ensures toasts == old(toasts) + [Toast(id, SuccessToast, message)] && r == id
      ensures removeAfter == (if duration.GetOr(DefaultToastDuration) > 0 then Some(duration.GetOr(DefaultToastDuration)) else None)
    {
      r, removeAfter := Add(SuccessToast, message, duration, id);
    }

    method Error(message: string, duration: Option<int>, id: string) returns (r: string, removeAfter: Option<int>)
      modifies this
      ensures toasts == old(toasts) + [Toast(id, ErrorToast, message)] && r == id
      ensures removeAfter == (if duration.GetOr(DefaultToastDuration) > 0 then Some(duration.GetOr(DefaultToastDuration)) else None)
    {
      r, removeAfter := Add(ErrorToast, message, duration, id);
    }

    method Info(message: string, duration: Option<int>, id: string) returns (r: string, removeAfter: Option<int>)
      modifies this
      ensures toasts == old(toasts) + [Toast(id, InfoToast, message)] && r == id
      ensures removeAfter == (if duration.GetOr(DefaultToastDuration) > 0 then Some(duration.GetOr(DefaultToastDuration)) else None)
    {
      r, removeAfter := Add(InfoToast, message, duration, id);
    }

    method Warning(message: string, duration: Option<int>, id: string) returns (r: string, removeAfter: Option<int>)
      modifies this
      ensures toasts == old(toasts) + [Toast(id, WarningToast, message)] && r == id
      ensures removeAfter == (if duration.GetOr(DefaultToastDuration) > 0 then Some(duration.GetOr(DefaultToastDuration)) else None)
    {
      r, removeAfter := Add(WarningToast, message, duration, id);
    }

    method Clear()
      modifies this
      ensures toasts == []
    {
      toasts := [];
    }
  }

  // ---------------------------------------------------------------- the profile cache

  /** Five minutes, in milliseconds. */
  const ProfileTtlMs: int := 5 * 60 * 1000

  datatype CacheEntry = CacheEntry(profile: GitHubProfile, timestamp: int)

  /** Whether the entry under `key` is older than the time to live at `nowMs`. */
  predicate Expired(cache: map<string, CacheEntry>, key: string, nowMs: int) {
    key in cache && nowMs - cache[key].timestamp > ProfileTtlMs
  }

  /** What `get(username)` returns at `nowMs`, before any deletion. */
  function Lookup(cache: map<string, CacheEntry>, username: string, nowMs: int): Option<GitHubProfile> {
    var key := ToLower(username);
    if key !in cache || Expired(cache, key, nowMs) then None else Some(cache[key].profile)
  }

  /** Lookups ignore case: a name and its lower-case form find the same entry. */
  lemma {:induction false} LookupIgnoresCase(cache: map<string, CacheEntry>, username: string, nowMs: int)
    ensures Lookup(cache, username, nowMs) == Lookup(cache, ToLower(username), nowMs)
  {
    ToLowerIdempotent(username);
  }

  /** After `set(u, p)` at time `t`, any name with the same lower-case form finds `p` until the
      entry is more than five minutes old (an age of exactly five minutes still finds it), and
      nothing from then on once it is older; other names find what they found before. */
  lemma SetThenLookup(cache: map<string, CacheEntry>, u: string, p: GitHubProfile, t: int, other: string, nowMs: int)
    ensures ToLower(other) == ToLower(u) && nowMs - t <= ProfileTtlMs ==>
      Lookup(cache[ToLower(u) := CacheEntry(p, t)], other, nowMs) == Some(p)
    ensures ToLower(other) == ToLower(u) && nowMs - t > ProfileTtlMs ==>
      Lookup(cache[ToLower(u) := CacheEntry(p, t)], other, nowMs) == None
    ensures ToLower(other) != ToLower(u) ==>
      Lookup(cache[ToLower(u) := CacheEntry(p, t)], other, nowMs) == Lookup(cache, other, nowMs)
  {
  }

  class ProfileCache {
    var cache: map<string, CacheEntry>

    constructor ()
      ensures cache == map[]
    {
      cache := map[];
    }

    /** `get`: the profile stored under the lower-cased name while it is at most five minutes
        old; an older entry is deleted and nothing is returned. `nowMs` stands for `Date.now()`. */
    method Get(username: string, nowMs: int) returns (p: Option<GitHubProfile>)
      modifies this
      ensures p == Lookup(old(cache), username, nowMs)
      ensures cache == (if Expired(old(cache), ToLower(username), nowMs) then old(cache) - {ToLower(username)} else old(cache))
    {
      var key := ToLower(username);
      if key !in cache {
        return None;
      }
      var entry := cache[key];
      if nowMs - entry.timestamp > ProfileTtlMs {
        cache := cache - {key};
        return None;
      }
      return Some(entry.profile);
    }

    /** `set`: the entry under the lower-cased name is replaced and stamped with `nowMs`. */
    method Set(username: string, profile: GitHubProfile, nowMs: int)
      modifies this
      ensures cache == old(cache)[ToLower(username) := CacheEntry(profile, nowMs)]
    {
      cache := cache[ToLower(username) := CacheEntry(profile, nowMs)];
    }

    method Clear()
      modifies this
      ensures cache == map[]
    {
      cache := map[];
    }
  }

  /** A `get` that deleted an expired entry leaves nothing to be found under that name later. */
  lemma ExpiredStaysGone(cache: map<string, CacheEntry>, username: string, nowMs: int, laterMs: int)
    requires Expired(cache, ToLower(username), nowMs)
    ensures Lookup(cache - {ToLower(username)}, username, laterMs) == None
  {
  }
}
