/**
 * The GitHub project feed of the portfolio page, as a pure pipeline from
 * the configured username and the outcome of the two GitHub requests to
 * what the page ends up showing: the status label's successive texts, the
 * project cards, and the three summary statistics.
 *
 * The network is abstracted: `FetchOutcome` is the joined result of the
 * user request and the repository-list request (all-or-nothing).
 */
module Feed {
  import opened JsStrings
  import opened JsValues
  import opened Text

  /** The username shipped in the page template, meaning "not configured". */
  const Placeholder := "ton-username-github"
  /** At most this many projects are shown. */
  const MaxProjects := 9

  const LoadingStatus := "Chargement..."
  const ErrorStatus := "Erreur GitHub"
  const DemoStatus := "Mode démo"

  /** The fields of a repository record that the page reads. */
  datatype Repo = Repo(
    name: JsValue, description: JsValue, language: JsValue, stars: JsValue,
    pushedAt: JsValue, htmlUrl: JsValue, fork: JsValue, archived: JsValue)

  /** An element of the repository array: a falsy value, or a truthy one.
      A truthy primitive reads as a record whose fields are all undefined. */
  datatype Entry = Falsy | Record(repo: Repo)

  /** The parsed body of the repository-list request. */
  datatype ReposBody = NotArray | Array(entries: seq<Entry>)

  /** The parsed body of the user request. */
  datatype UserBody = NullUser | User(publicRepos: JsValue)

  /** Both requests succeeded (with their bodies), or at least one failed. */
  datatype FetchOutcome = Failure | Success(user: UserBody, repos: ReposBody)

  /** The ISO timestamp of the instant the given number of days before now. */
  type Clock = nat -> string

  function Min(a: int, b: int): int { if a <= b then a else b }
  function Max(a: int, b: int): int { if a <= b then b else a }

  // ---------------------------------------------------------------------
  // Configuration gate
  // ---------------------------------------------------------------------

  /** `(root.dataset.githubUsername || '').trim()`; None when the attribute
      is absent. The name is the trim of the attribute: it never has
      surrounding whitespace, is empty without the attribute, and is the
      attribute itself when that is already trimmed. */
  function Username(attr: Option<string>): (u: string)
    ensures attr.Some? ==> u == Trim(attr.value)
    ensures IsTrimmed(u)
    ensures attr.None? ==> u == []
    ensures attr.Some? && IsTrimmed(attr.value) ==> u == attr.value
  {
    var raw := if attr.Some? then attr.value else "";
    TrimOfTrimmed(raw);
    Trim(raw)
  }

  /** The loader fetches only for a non-empty, non-placeholder username. */
  predicate Configured(username: string) {
    username != "" && username != Placeholder
  }

  lemma ConfiguredIff(attr: Option<string>)
    ensures Configured(Username(attr)) <==>
      attr.Some? && !AllWhitespace(attr.value) && Trim(attr.value) != Placeholder
  {
    if attr.Some? {
      TrimEmptyIff(attr.value);
    }
  }

  // ---------------------------------------------------------------------
  // Repository selection
  // ---------------------------------------------------------------------

  /** `!r.fork && !r.archived` */
  predicate Listed(r: Repo) {
    !Truthy(r.fork) && !Truthy(r.archived)
  }

  /** `r && !r.fork && !r.archived`: a record whose `fork` and `archived`
      flags are each missing, null, false, 0 or the empty string. */
  predicate Eligible(e: Entry): (b: bool)
    ensures b <==> e.Record? && e.repo.fork in FalsyValues && e.repo.archived in FalsyValues
  {
    e.Record? && Listed(e.repo)
  }

  /** How many entries pass the filter. */
  function CountEligible(xs: seq<Entry>): nat {
    if xs == [] then 0
    else (if Eligible(xs[0]) then 1 else 0) + CountEligible(xs[1..])
  }

  /** `.filter((r) => r && !r.fork && !r.archived)`: only listed records, all
      taken from the input. */
  function Filter(xs: seq<Entry>): (r: seq<Repo>)
    ensures |r| <= |xs|
    ensures forall k :: 0 <= k < |r| ==> Listed(r[k]) && Record(r[k]) in xs
  {
    if xs == [] then []
    else (if Eligible(xs[0]) then [xs[0].repo] else []) + Filter(xs[1..])
  }

  /** `Array.isArray(repos) ? repos : []` */
  function Entries(body: ReposBody): seq<Entry> {
    if body.Array? then body.entries else []
  }

  lemma {:induction false} FilterLength(xs: seq<Entry>)
    ensures |Filter(xs)| == CountEligible(xs)
  {
    if xs != [] {
      FilterLength(xs[1..]);
    }
  }

  lemma {:induction false} FilterAppend(xs: seq<Entry>, ys: seq<Entry>)
    ensures Filter(xs + ys) == Filter(xs) + Filter(ys)
  {
    if xs == [] {
      assert xs + ys == ys;
    } else {
      assert (xs + ys)[0] == xs[0] && (xs + ys)[1..] == xs[1..] + ys;
      FilterAppend(xs[1..], ys);
    }
  }

  lemma CountAppend(xs: seq<Entry>, ys: seq<Entry>)
    ensures CountEligible(xs + ys) == CountEligible(xs) + CountEligible(ys)
  {
    FilterAppend(xs, ys);
    FilterLength(xs + ys);
    FilterLength(xs);
    FilterLength(ys);
  }

  /** The eligible entries in input order, cut to the first nine:
      `.filter(...).slice(0, 9)` on the array (or on `[]`). */
  function Select(body: ReposBody): (r: seq<Repo>)
    ensures |r| == Min(MaxProjects, CountEligible(Entries(body)))
    ensures |r| <= |Filter(Entries(body))| && r == Filter(Entries(body))[..|r|]
    ensures forall k :: 0 <= k < |r| ==> Listed(r[k])
  {
    var f := Filter(Entries(body));
    FilterLength(Entries(body));
    if |f| <= MaxProjects then f else f[..MaxProjects]
  }

  /** An eligible entry that has `c` eligible entries before it is element
      `c` of the filtered list: the filter keeps every eligible entry, in order. */
  lemma FilterAt(xs: seq<Entry>, i: nat)
    requires i < |xs| && Eligible(xs[i])
    ensures CountEligible(xs[..i]) < |Filter(xs)|
    ensures Filter(xs)[CountEligible(xs[..i])] == xs[i].repo
  {
    assert xs == xs[..i] + ([xs[i]] + xs[i + 1..]);
    FilterAppend(xs[..i], [xs[i]] + xs[i + 1..]);
    FilterAppend([xs[i]], xs[i + 1..]);
    FilterLength(xs[..i]);
    assert Filter([xs[i]]) == [xs[i].repo];
  }

  /** The selection holds each eligible entry that has fewer than nine
      eligible entries before it, at the position given by that count. */
  lemma SelectedAt(xs: seq<Entry>, i: nat)
    requires i < |xs| && Eligible(xs[i]) && CountEligible(xs[..i]) < MaxProjects
    ensures CountEligible(xs[..i]) < |Select(Array(xs))|
    ensures Select(Array(xs))[CountEligible(xs[..i])] == xs[i].repo
  {
    FilterAt(xs, i);
    FilterLength(xs);
  }

  /** Once nine eligible entries have been seen, nothing after them matters. */
  lemma SelectBeyondCap(xs: seq<Entry>, ys: seq<Entry>)
    requires CountEligible(xs) >= MaxProjects
    ensures Select(Array(xs + ys)) == Select(Array(xs))
  {
    FilterAppend(xs, ys);
    FilterLength(xs);
    CountAppend(xs, ys);
    var f := Filter(xs);
    assert (f + Filter(ys))[..MaxProjects] == f[..MaxProjects];
  }

  /** An entry the filter rejects (falsy, fork or archived) can be inserted
      anywhere without changing the selection. */
  lemma SelectSkipsIneligible(xs: seq<Entry>, e: Entry, ys: seq<Entry>)
    requires !Eligible(e)
    ensures Select(Array(xs + [e] + ys)) == Select(Array(xs + ys))
  {
    FilterAppend(xs + [e], ys);
    FilterAppend(xs, [e]);
    FilterAppend(xs, ys);
    assert Filter([e]) == [];
    assert Filter(xs + [e] + ys) == Filter(xs + ys);
    FilterLength(xs + [e] + ys);
    FilterLength(xs + ys);
  }

  // ---------------------------------------------------------------------
  // Aggregates
  // ---------------------------------------------------------------------

  /** `rs.reduce((acc, r) => acc + (Number(r.stargazers_count) || 0), 0)`,
      a left fold. Counts that read as NaN add nothing, so a list of them
      totals 0; non-negative counts give a non-negative total. */
  function StarTotal(rs: seq<Repo>): (t: int)
    ensures (forall k :: 0 <= k < |rs| ==> ToNumber(rs[k].stars).None?) ==> t == 0
    ensures (forall k :: 0 <= k < |rs| ==> NumberOrZero(rs[k].stars) >= 0) ==> t >= 0
  {
    if rs == [] then 0 else StarTotal(rs[..|rs| - 1]) + NumberOrZero(rs[|rs| - 1].stars)
  }

  /** Reference sum: the star counts of the eligible entries of `xs`. */
  function EligibleStars(xs: seq<Entry>): int {
    if xs == [] then 0
    else (if Eligible(xs[0]) then NumberOrZero(xs[0].repo.stars) else 0) + EligibleStars(xs[1..])
  }

  lemma {:induction false} StarTotalAppend(a: seq<Repo>, b: seq<Repo>)
    ensures StarTotal(a + b) == StarTotal(a) + StarTotal(b)
  {
    if b == [] {
      assert a + b == a;
    } else {
      assert (a + b)[..|a + b| - 1] == a + b[..|b| - 1];
      StarTotalAppend(a, b[..|b| - 1]);
    }
  }

  lemma {:induction false} StarTotalOfFilter(xs: seq<Entry>)
    ensures StarTotal(Filter(xs)) == EligibleStars(xs)
  {
    if xs != [] {
      var head := if Eligible(xs[0]) then [xs[0].repo] else [];
      StarTotalAppend(head, Filter(xs[1..]));
      StarTotalOfFilter(xs[1..]);
      if Eligible(xs[0]) {
        assert head[..0] == [];
      }
    }
  }

  /** The star total is the sum over exactly the selected repositories:
      cutting the input at any point `k` that has seen all the selected
      entries and no further eligible one, it is the eligible star sum of
      `xs[..k]`. Entries the filter drops, and eligible entries beyond the
      ninth, contribute nothing. */
  lemma StarTotalOfSelection(xs: seq<Entry>, k: nat)
    requires k <= |xs|
    requires CountEligible(xs[..k]) == Min(MaxProjects, CountEligible(xs))
    ensures StarTotal(Select(Array(xs))) == EligibleStars(xs[..k])
  {
    assert xs == xs[..k] + xs[k..];
    FilterAppend(xs[..k], xs[k..]);
    FilterLength(xs[..k]);
    var sel := Select(Array(xs));
    assert sel == Filter(xs[..k]);
    StarTotalOfFilter(xs[..k]);
  }

  /** `filtered[0]?.pushed_at` */
  function Latest(rs: seq<Repo>): JsValue {
    if rs == [] then Undefined else rs[0].pushedAt
  }

  lemma {:induction false} NoneEligible(xs: seq<Entry>)
    requires forall j :: 0 <= j < |xs| ==> !Eligible(xs[j])
    ensures CountEligible(xs) == 0
  {
    if xs != [] {
      NoneEligible(xs[1..]);
    }
  }

  /** The latest-update date comes from the first eligible entry of the
      input; with no eligible entry there is no date. */
  lemma LatestIsFirstEligible(xs: seq<Entry>, i: nat)
    requires i < |xs| && Eligible(xs[i])
    requires forall j :: 0 <= j < i ==> !Eligible(xs[j])
    ensures Latest(Select(Array(xs))) == xs[i].repo.pushedAt
  {
    NoneEligible(xs[..i]);
    SelectedAt(xs, i);
  }

  lemma NoEligibleNoLatest(xs: seq<Entry>)
    requires forall j :: 0 <= j < |xs| ==> !Eligible(xs[j])
    ensures Select(Array(xs)) == [] && Latest(Select(Array(xs))) == Undefined
  {
    NoneEligible(xs);
  }

  // ---------------------------------------------------------------------
  // Cards
  // ---------------------------------------------------------------------

  /** A rendered card: a project card linking to the repository, or a status
      card with a fixed message. */
  datatype Card =
    | ProjectCard(href: JsValue, title: string, badge: string, description: string,
                  stars: string, updated: string)
    | StatusCard(title: string, badge: string, message: string)

  const NoProjectsCard := StatusCard("Aucun projet trouvé", "GitHub",
                                     "Vérifie ton username ou ajoute des repos publics.")

  /** `createProjectCard(repo)`: each displayed text falls back to a default;
      the star count uses `?? 0` and is shown as `${...}`. The card links to
      the repository, never shows an empty title, badge or description,
      shows a present star count as `${}` spells it (0 when missing), and
      shows the formatted push date (a dash when missing). */
  function CardOf(r: Repo, format: DateFormat): (c: Card)
    ensures c.ProjectCard? && c.href == r.htmlUrl
    ensures c.title != [] && c.badge != [] && c.description != []
    ensures r.stars !in {Undefined, Null} ==> c.stars == ToDisplayString(r.stars)
    ensures c.updated == FormatDate(r.pushedAt, format)
    ensures !Truthy(r.pushedAt) ==> c.updated == Dash
  {
    ProjectCard(
      r.htmlUrl,
      SafeText(r.name, "Projet"),
      SafeText(r.language, "Repo"),
      SafeText(r.description, "Pas de description."),
      ToDisplayString(Coalesce(r.stars, Num(0))),
      FormatDate(r.pushedAt, format))
  }

  /** `xs.map(f)`: `f` applied to each element, in order. */
  function Map<A, B>(f: A -> B, xs: seq<A>): (ys: seq<B>)
    ensures |ys| == |xs|
    ensures forall k :: 0 <= k < |xs| ==> ys[k] == f(xs[k])
  {
    if xs == [] then [] else [f(xs[0])] + Map(f, xs[1..])
  }

  /** Mapping one more element of a prefix appends its image. */
  lemma MapPrefix<A, B>(f: A -> B, xs: seq<A>, i: nat)
    requires i < |xs|
    ensures Map(f, xs[..i + 1]) == Map(f, xs[..i]) + [f(xs[i])]
  {
    var ys, zs := Map(f, xs[..i + 1]), Map(f, xs[..i]) + [f(xs[i])];
    assert forall k :: 0 <= k < |ys| ==> ys[k] == zs[k] by {
      forall k | 0 <= k < |ys| ensures ys[k] == zs[k] {
        assert xs[..i + 1][k] == if k < i then xs[..i][k] else xs[i];
      }
    }
  }

  /** `createProjectCard` with the date formatter fixed. */
  function CardMaker(format: DateFormat): Repo -> Card {
    r => CardOf(r, format)
  }

  /** One card per repository, in order. */
  function CardsOf(rs: seq<Repo>, format: DateFormat): (cs: seq<Card>)
    ensures |cs| == |rs|
    ensures forall k :: 0 <= k < |rs| ==> cs[k] == CardOf(rs[k], format)
  {
    Map(CardMaker(format), rs)
  }

  /** Extending a prefix of the repositories by one extends its cards by
      that repository's card. */
  lemma CardsOfPrefix(rs: seq<Repo>, i: nat, format: DateFormat)
    requires i < |rs|
    ensures CardsOf(rs[..i + 1], format) == CardsOf(rs[..i], format) + [CardOf(rs[i], format)]
  {
    MapPrefix(CardMaker(format), rs, i);
  }

  /** What `renderProjects(repos)` leaves in the grid: the "no projects"
      card alone for an empty list, one project card per repository otherwise. */
  function Cards(rs: seq<Repo>, format: DateFormat): (cs: seq<Card>)
    ensures |cs| == Max(1, |rs|)
    ensures rs == [] ==> cs == [NoProjectsCard]
    ensures forall k :: 0 <= k < |rs| ==> cs[k].ProjectCard? && cs[k] == CardOf(rs[k], format)
  {
    if rs == [] then [NoProjectsCard] else CardsOf(rs, format)
  }

  /** The card's defaults: title, badge and description are the trimmed
      texts when present and non-blank, "Projet", "Repo" and
      "Pas de description." otherwise; a missing star count shows 0. */
  lemma CardDefaults(r: Repo, format: DateFormat)
    ensures var c := CardOf(r, format);
      && (c.title == if HasContent(r.name) then Trim(r.name.s) else "Projet")
      && (c.badge == if HasContent(r.language) then Trim(r.language.s) else "Repo")
      && (c.description == if HasContent(r.description) then Trim(r.description.s) else "Pas de description.")
      && (r.stars in {Undefined, Null} ==> c.stars == "0")
  {
  }

  /** The text "abc" reads as NaN. */
  lemma AbcIsNaN()
    ensures StringToNumber("abc").None?
  {
    TrimOfTrimmed("abc");
    assert !AllDigits("abc") by { assert !IsDigit("abc"[0]); }
  }

  /** The card and the star total read the star count differently
      (`?? 0` versus `Number(...) || 0`). They agree on numbers and on a
      missing count, and disagree on a string such as "abc" (shown as is,
      counted 0) and on `true` (shown "true", counted 1). */
  lemma CardStarsVersusTotal(r: Repo, format: DateFormat)
    ensures r.stars.Num? ==> NumberOrZero(Str(CardOf(r, format).stars)) == NumberOrZero(r.stars)
    ensures r.stars in {Undefined, Null} ==> CardOf(r, format).stars == "0" && NumberOrZero(r.stars) == 0
    ensures r.stars == Str("abc") ==> CardOf(r, format).stars == "abc" && NumberOrZero(r.stars) == 0
    ensures r.stars == Bool(true) ==> CardOf(r, format).stars == "true" && NumberOrZero(r.stars) == 1
  {
    if r.stars == Str("abc") {
      AbcIsNaN();
    } else if r.stars.Num? {
      DecimalRoundTrip(r.stars.n);
    }
  }

  // ---------------------------------------------------------------------
  // Fallback and the whole load
  // ---------------------------------------------------------------------

  /** One record of the demonstration list of `renderFallback()`: its texts,
      how many days before now it was pushed, and its link. */
  datatype DemoProject = DemoProject(name: string, description: string, language: string,
                                     daysAgo: nat, url: string)

  /** The three demonstration projects, pushed now, a week ago and 18 days
      ago. */
  const DemoProjects: seq<DemoProject> := [
    DemoProject("Projet Démo", "Remplace ce repo par tes " + "vrais projets (API GitHub).",
                "JavaScript", 0, "https://github.com/"),
    DemoProject("Landing Page", "Une page responsive " + "avec animations (exemple).",
                "HTML/CSS", 7, "https://github.com/"),
    DemoProject("API & CRUD", "Une app CRUD connectée " + "à une API (exemple).",
                "Node", 18, "https://github.com/")]

  /** The repository record a demonstration project is written as: zero
      stars, and neither `fork` nor `archived` present. */
  function DemoRepo(p: DemoProject, clock: Clock): Repo {
    Repo(Str(p.name), Str(p.description), Str(p.language), Num(0), Str(clock(p.daysAgo)),
         Str(p.url), Undefined, Undefined)
  }

  /** The records `renderFallback()` passes to `renderProjects`: one per
      demonstration project, in order, each eligible, with no stars, the
      project's texts and link, and the clock's date for its age. */
  function DemoRepos(demo: seq<DemoProject>, clock: Clock): (rs: seq<Repo>)
    ensures |rs| == |demo|
    ensures forall k :: 0 <= k < |demo| ==> rs[k] == DemoRepo(demo[k], clock)
    ensures forall k :: 0 <= k < |demo| ==> Eligible(Record(rs[k])) && rs[k].stars == Num(0)
    ensures forall k :: 0 <= k < |demo| ==>
      && rs[k].name == Str(demo[k].name) && rs[k].description == Str(demo[k].description)
      && rs[k].language == Str(demo[k].language) && rs[k].htmlUrl == Str(demo[k].url)
      && rs[k].pushedAt == Str(clock(demo[k].daysAgo))
  {
    seq(|demo|, k requires 0 <= k < |demo| => DemoRepo(demo[k], clock))
  }

  /** How a demonstration project is meant to look: its own texts and
      link, "0" stars, and its push date. */
  function DemoCardOf(p: DemoProject, clock: Clock, format: DateFormat): Card {
    ProjectCard(Str(p.url), p.name, p.language, p.description, "0",
                FormatDate(Str(clock(p.daysAgo)), format))
  }

  /** A demonstration project whose texts are non-blank and trimmed is
      shown exactly as written. */
  lemma DemoCard(p: DemoProject, clock: Clock, format: DateFormat)
    requires PlainTexts(p)
    ensures CardOf(DemoRepo(p, clock), format) == DemoCardOf(p, clock, format)
  {
    TrimOfTrimmed(p.name);
    TrimOfTrimmed(p.description);
    TrimOfTrimmed(p.language);
    assert HasContent(Str(p.name)) && HasContent(Str(p.description)) && HasContent(Str(p.language));
  }

  /** A demonstration project whose texts are non-blank and trimmed. */
  predicate PlainTexts(p: DemoProject) {
    && p.name != [] && IsTrimmed(p.name)
    && p.description != [] && IsTrimmed(p.description)
    && p.language != [] && IsTrimmed(p.language)
  }

  /** The three demonstration projects have plain texts. */
  lemma DemoTextsPlain()
    ensures PlainTexts(DemoProjects[0])
    ensures PlainTexts(DemoProjects[1])
    ensures PlainTexts(DemoProjects[2])
  {
  }

  /** The demo grid holds the three demonstration projects, in order, each
      shown exactly as written. */
  lemma DemoGrid(clock: Clock, format: DateFormat)
    ensures Cards(DemoRepos(DemoProjects, clock), format)
         == [DemoCardOf(DemoProjects[0], clock, format),
             DemoCardOf(DemoProjects[1], clock, format),
             DemoCardOf(DemoProjects[2], clock, format)]
  {
    var rs := DemoRepos(DemoProjects, clock);
    DemoTextsPlain();
    DemoCard(DemoProjects[0], clock, format);
    DemoCard(DemoProjects[1], clock, format);
    DemoCard(DemoProjects[2], clock, format);
  }

  /** The three summary statistics as displayed: repository count, star
      total, latest update. */
  datatype Stats = Stats(repos: string, stars: string, updated: string)

  const DashStats := Stats(Dash, Dash, Dash)

  /** What a load leaves on the page: whether the network was used, every
      text the status label was given (in order), the cards, the statistics. */
  datatype View = View(fetched: bool, statusLog: seq<string>, cards: seq<Card>, stats: Stats)

  /** `renderFallback()` after the status texts `log`: the demo status, the
      demonstration cards and a dash in each statistic. */
  function Fallback(fetched: bool, log: seq<string>, demo: seq<DemoProject>,
                    format: DateFormat, clock: Clock): (v: View)
    ensures v.fetched == fetched && v.statusLog == log + [DemoStatus]
    ensures v.cards == Cards(DemoRepos(demo, clock), format) && v.stats == DashStats
  {
    View(fetched, log + [DemoStatus], Cards(DemoRepos(demo, clock), format), DashStats)
  }

  /** The live data reaches the page: configured, both requests succeeded,
      and the user body can be read. */
  predicate Live(username: string, outcome: FetchOutcome) {
    Configured(username) && outcome.Success? && outcome.user.User?
  }

  /** The success path of the `try` block: the selected projects, the
      username as status, and the three statistics. */
  function LiveView(username: string, publicRepos: JsValue, body: ReposBody, format: DateFormat): (v: View)
    ensures v.fetched && v.statusLog == [username]
    ensures v.cards == Cards(Select(body), format)
    ensures |v.cards| == Max(1, Min(MaxProjects, CountEligible(Entries(body))))
    ensures v.stats.repos == ToDisplayString(Coalesce(publicRepos, Num(0)))
    ensures v.stats.stars == DecimalString(StarTotal(Select(body)))
    ensures v.stats.updated == FormatDate(Latest(Select(body)), format)
  {
    var selected := Select(body);
    View(true, [username], Cards(selected, format),
         Stats(ToDisplayString(Coalesce(publicRepos, Num(0))),
               DecimalString(StarTotal(selected)),
               FormatDate(Latest(selected), format)))
  }

  /** The `try`/`catch` of `loadGithub()` once both responses have been
      awaited: a failed request runs the catch handler; a null user body
      makes reading `public_repos` throw after the cards and the username
      status were set, so the catch handler runs too; otherwise the live
      view stays. */
  function Settle(username: string, outcome: FetchOutcome, demo: seq<DemoProject>,
                  format: DateFormat, clock: Clock): (v: View)
    ensures v.fetched
    ensures outcome.Failure? ==> v.statusLog == [ErrorStatus, DemoStatus]
    ensures outcome.Success? && outcome.user.NullUser? ==> v.statusLog == [username, ErrorStatus, DemoStatus]
    ensures outcome.Success? && outcome.user.User? ==> v.statusLog == [username]
  {
    match outcome
    case Failure => Fallback(true, [ErrorStatus], demo, format, clock)
    case Success(NullUser, _) => Fallback(true, [username, ErrorStatus], demo, format, clock)
    case Success(User(publicRepos), body) => LiveView(username, publicRepos, body, format)
  }

  /** `loadGithub()` for the (trimmed) configured username: the demo without
      a request; otherwise the loading status, then what the requests settle to. */
  function Load(username: string, outcome: FetchOutcome, demo: seq<DemoProject>,
                format: DateFormat, clock: Clock): (v: View)
    ensures v.fetched <==> Configured(username)
  {
    if !Configured(username) then Fallback(false, [], demo, format, clock)
    else
      var settled := Settle(username, outcome, demo, format, clock);
      View(true, [LoadingStatus] + settled.statusLog, settled.cards, settled.stats)
  }

  /** When the live data arrives, the status ends on the username, and the
      grid and star total come from the selected repositories. */
  lemma LoadLive(username: string, outcome: FetchOutcome, demo: seq<DemoProject>,
                 format: DateFormat, clock: Clock)
    requires Live(username, outcome)
    ensures var v := Load(username, outcome, demo, format, clock);
      && v.statusLog == [LoadingStatus, username]
      && v.cards == Cards(Select(outcome.repos), format)
      && |v.cards| == Max(1, Min(MaxProjects, CountEligible(Entries(outcome.repos))))
      && v.stats.repos == ToDisplayString(Coalesce(outcome.user.publicRepos, Num(0)))
      && v.stats.stars == DecimalString(StarTotal(Select(outcome.repos)))
      && v.stats.updated == FormatDate(Latest(Select(outcome.repos)), format)
  {
    assert Settle(username, outcome, demo, format, clock)
        == LiveView(username, outcome.user.publicRepos, outcome.repos, format);
  }

  /** With the script's own demonstration list, `renderFallback()` ends on
      the demo status and shows exactly its three projects, in order, each
      as written, with a dash in every statistic. */
  lemma FallbackShowsDemo(fetched: bool, log: seq<string>, format: DateFormat, clock: Clock)
    ensures var v := Fallback(fetched, log, DemoProjects, format, clock);
      && v.statusLog == log + [DemoStatus]
      && v.cards == [DemoCardOf(DemoProjects[0], clock, format),
                     DemoCardOf(DemoProjects[1], clock, format),
                     DemoCardOf(DemoProjects[2], clock, format)]
      && v.stats == DashStats
  {
    DemoGrid(clock, format);
  }

  /** When the live data arrives, and the first eligible entry of the list
      is `xs[i]`, the latest-update statistic is that entry's push date and
      the grid opens with its card. */
  lemma LiveUpdated(username: string, publicRepos: JsValue, xs: seq<Entry>, i: nat,
                    demo: seq<DemoProject>, format: DateFormat, clock: Clock)
    requires Configured(username)
    requires i < |xs| && Eligible(xs[i])
    requires forall j :: 0 <= j < i ==> !Eligible(xs[j])
    ensures var v := Load(username, Success(User(publicRepos), Array(xs)), demo, format, clock);
      && v.stats.updated == FormatDate(xs[i].repo.pushedAt, format)
      && v.cards[0] == CardOf(xs[i].repo, format)
  {
    LoadLive(username, Success(User(publicRepos), Array(xs)), demo, format, clock);
    NoneEligible(xs[..i]);
    SelectedAt(xs, i);
  }

  /** When the repository body is not an array, or holds no eligible entry,
      a successful load shows the "no projects" card, 0 stars and a dash
      for the latest update. */
  lemma LiveEmpty(username: string, publicRepos: JsValue, body: ReposBody,
                  demo: seq<DemoProject>, format: DateFormat, clock: Clock)
    requires Configured(username)
    requires body.NotArray? || forall j :: 0 <= j < |body.entries| ==> !Eligible(body.entries[j])
    ensures var v := Load(username, Success(User(publicRepos), body), demo, format, clock);
      && v.cards == [NoProjectsCard] && v.stats.stars == "0" && v.stats.updated == Dash
  {
    LoadLive(username, Success(User(publicRepos), body), demo, format, clock);
    if body.Array? {
      NoneEligible(body.entries);
    }
  }

  /** Otherwise (not configured, a failed request, or a null user) the page
      ends in demo mode: the last status is the demo status, the grid holds
      the demonstration projects and every statistic is a dash. */
  lemma LoadDemo(username: string, outcome: FetchOutcome, demo: seq<DemoProject>,
                 format: DateFormat, clock: Clock)
    requires !Live(username, outcome)
    ensures var v := Load(username, outcome, demo, format, clock);
      && v.statusLog != [] && v.statusLog[|v.statusLog| - 1] == DemoStatus
      && v.cards == Cards(DemoRepos(demo, clock), format) && v.stats == DashStats
  {
  }

  /** Every path into demo mode shows the script's three demonstration
      projects, in order, each as written. */
  lemma LoadDemoCards(username: string, outcome: FetchOutcome, format: DateFormat, clock: Clock)
    requires !Live(username, outcome)
    ensures var v := Load(username, outcome, DemoProjects, format, clock);
      && |v.cards| == 3
      && v.cards == [DemoCardOf(DemoProjects[0], clock, format),
                     DemoCardOf(DemoProjects[1], clock, format),
                     DemoCardOf(DemoProjects[2], clock, format)]
  {
    LoadDemo(username, outcome, DemoProjects, format, clock);
    DemoGrid(clock, format);
  }

  /** Without a configured username nothing is requested, so the outcome
      cannot matter, and the page is the demo with the demo status alone. */
  lemma UnconfiguredIsDemo(attr: Option<string>, o1: FetchOutcome, o2: FetchOutcome,
                           demo: seq<DemoProject>, format: DateFormat, clock: Clock)
    requires attr.None? || AllWhitespace(attr.value) || Trim(attr.value) == Placeholder
    ensures Load(Username(attr), o1, demo, format, clock) == Load(Username(attr), o2, demo, format, clock)
    ensures Load(Username(attr), o1, demo, format, clock).statusLog == [DemoStatus]
    ensures !Load(Username(attr), o1, demo, format, clock).fetched
  {
    ConfiguredIff(attr);
  }

  /** A failed request shows the error status and immediately overwrites it
      with the demo status. */
  lemma FailureEndsInDemo(username: string, demo: seq<DemoProject>, format: DateFormat, clock: Clock)
    requires Configured(username)
    ensures Load(username, Failure, demo, format, clock).statusLog
         == [LoadingStatus, ErrorStatus, DemoStatus]
  {
    var failed := Settle(username, Failure, demo, format, clock);
    assert [LoadingStatus] + failed.statusLog == [LoadingStatus, ErrorStatus, DemoStatus];
  }

  /** A null user body also ends in demo mode, after the username was
      briefly shown. */
  lemma NullUserEndsInDemo(username: string, body: ReposBody, demo: seq<DemoProject>,
                           format: DateFormat, clock: Clock)
    requires Configured(username)
    ensures Load(username, Success(NullUser, body), demo, format, clock).statusLog
         == [LoadingStatus, username, ErrorStatus, DemoStatus]
  {
    var threw := Settle(username, Success(NullUser, body), demo, format, clock);
    assert [LoadingStatus] + threw.statusLog == [LoadingStatus, username, ErrorStatus, DemoStatus];
  }

  /** On success the star statistic is the eligible star sum up to any
      cut that covers exactly the selected entries, and the repository
      count is the account's `public_repos ?? 0`, whatever the list holds. */
  lemma LiveStats(username: string, publicRepos: JsValue, xs: seq<Entry>, k: nat,
                  demo: seq<DemoProject>, format: DateFormat, clock: Clock)
    requires Configured(username)
    requires k <= |xs| && CountEligible(xs[..k]) == Min(MaxProjects, CountEligible(xs))
    ensures var v := Load(username, Success(User(publicRepos), Array(xs)), demo, format, clock);
      && v.stats.stars == DecimalString(EligibleStars(xs[..k]))
      && v.stats.repos == ToDisplayString(Coalesce(publicRepos, Num(0)))
  {
    assert Settle(username, Success(User(publicRepos), Array(xs)), demo, format, clock)
        == LiveView(username, publicRepos, Array(xs), format);
    StarTotalOfSelection(xs, k);
  }
}
