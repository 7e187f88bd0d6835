/**
 * The GitHub section of the page as mutable state: the status label (every
 * text it is given, in order), the project grid, and the three statistic
 * fields. The methods follow the script's statements one by one and are
 * proved to leave exactly the view that `Feed.Load` describes.
 */
module Page {
  import opened JsValues
  import opened Text
  import opened Feed

  class GithubPanel {
    /** Every text `setStatus` has written into the status pill. */
    var statusLog: seq<string>
    /** The children of `#projectsGrid`. */
    var grid: seq<Card>
    /** The text of `#statRepos`, `#statStars` and `#statUpdated`. */
    var statRepos: string
    var statStars: string
    var statUpdated: string
    /** The demonstration list `renderFallback` shows. */
    const demo: seq<DemoProject>

    function CurrentStats(): Stats
      reads this
    {
      Stats(statRepos, statStars, statUpdated)
    }

    /** The panel as the page's markup ships it: the given statistic texts,
        no card and no status written yet. */
    constructor (initial: Stats)
      ensures statusLog == [] && grid == [] && CurrentStats() == initial
      ensures demo == DemoProjects
    {
      statusLog := [];
      grid := [];
      statRepos, statStars, statUpdated := initial.repos, initial.stars, initial.updated;
      demo := DemoProjects;
    }

    /** `setStatus(text)` */
    method SetStatus(text: string)
      modifies this
      ensures statusLog == old(statusLog) + [text]
      ensures grid == old(grid) && CurrentStats() == old(CurrentStats())
    {
      statusLog := statusLog + [text];
    }

    /** `renderProjects(repos)`: clear the grid, then append the "no projects"
        card, or one card per repository in order. */
    method RenderProjects(repos: seq<Repo>, format: DateFormat)
      modifies this
      ensures grid == Cards(repos, format)
      ensures statusLog == old(statusLog) && CurrentStats() == old(CurrentStats())
    {
      grid := [];
      if |repos| == 0 {
        grid := grid + [NoProjectsCard];
        return;
      }
      AppendCards(repos, format);
    }

    /** `repos.forEach(...)`: one `createProjectCard` appended per repository. */
    method AppendCards(repos: seq<Repo>, format: DateFormat)
      modifies this
      ensures grid == old(grid) + CardsOf(repos, format)
      ensures statusLog == old(statusLog) && CurrentStats() == old(CurrentStats())
    {
      var i := 0;
      while i < |repos|
        invariant 0 <= i <= |repos|
        invariant grid == old(grid) + CardsOf(repos[..i], format)
        invariant statusLog == old(statusLog) && CurrentStats() == old(CurrentStats())
      {
        var card := CardOf(repos[i], format);
        CardsOfPrefix(repos, i, format);
        assert old(grid) + CardsOf(repos[..i + 1], format) == grid + [card];
        grid := grid + [card];
        i := i + 1;
      }
      assert repos[..i] == repos;
    }

    /** Writes the three statistic texts (each counter ends on its target). */
    method ShowStats(stats: Stats)
      modifies this
      ensures CurrentStats() == stats
      ensures statusLog == old(statusLog) && grid == old(grid)
    {
      statRepos, statStars, statUpdated := stats.repos, stats.stars, stats.updated;
    }

    /** `renderFallback()`: demo status, the demonstration cards, dashes. */
    method RenderFallback(format: DateFormat, clock: Clock)
      modifies this
      ensures statusLog == old(statusLog) + [DemoStatus]
      ensures grid == Cards(DemoRepos(demo, clock), format) && CurrentStats() == DashStats
    {
      SetStatus(DemoStatus);
      RenderProjects(DemoRepos(demo, clock), format);
      ShowStats(DashStats);
    }

    /** The `catch` block of `loadGithub()`: error status, then the fallback. */
    method HandleError(format: DateFormat, clock: Clock)
      modifies this
      ensures statusLog == old(statusLog) + [ErrorStatus, DemoStatus]
      ensures grid == Cards(DemoRepos(demo, clock), format) && CurrentStats() == DashStats
    {
      SetStatus(ErrorStatus);
      RenderFallback(format, clock);
    }

    /** The `try` block once both bodies arrived and the user body is an
        object: the selected cards, the username, the three statistics. */
    method ShowProjects(username: string, publicRepos: JsValue, body: ReposBody, format: DateFormat)
      modifies this
      ensures statusLog == old(statusLog) + [username]
      ensures grid == LiveView(username, publicRepos, body, format).cards
      ensures CurrentStats() == LiveView(username, publicRepos, body, format).stats
    {
      var filtered := Select(body);
      RenderProjects(filtered, format);
      SetStatus(username);
      var repoCount := Coalesce(publicRepos, Num(0));
      var totalStars := StarTotal(filtered);
      var latest := Latest(filtered);
      ShowStats(Stats(ToDisplayString(repoCount), DecimalString(totalStars), FormatDate(latest, format)));
    }

    /** The `try` block with a null user body: `renderProjects` and
        `setStatus` run; reading `public_repos` of null then throws and the
        catch handler overwrites both. */
    method ShowThenFail(username: string, body: ReposBody, format: DateFormat, clock: Clock)
      modifies this
      ensures statusLog == old(statusLog) + [username, ErrorStatus, DemoStatus]
      ensures grid == Cards(DemoRepos(demo, clock), format) && CurrentStats() == DashStats
    {
      ghost var log := statusLog;
      RenderProjects(Select(body), format);
      SetStatus(username);
      HandleError(format, clock);
      assert statusLog == log + [username] + [ErrorStatus, DemoStatus];
    }

    /** Everything after the loading status, for each outcome of the two
        requests. */
    method Settled(username: string, outcome: FetchOutcome, format: DateFormat, clock: Clock)
      modifies this
      ensures statusLog == old(statusLog) + Settle(username, outcome, demo, format, clock).statusLog
      ensures grid == Settle(username, outcome, demo, format, clock).cards
      ensures CurrentStats() == Settle(username, outcome, demo, format, clock).stats
    {
      match outcome {
        case Failure =>
          HandleError(format, clock);
        case Success(NullUser, body) =>
          ShowThenFail(username, body, format, clock);
        case Success(User(publicRepos), body) =>
          ShowProjects(username, publicRepos, body, format);
      }
    }

    /** `loadGithub()`, with the joined outcome of the two requests given.
        Returns whether the requests were issued. */
    method LoadGithub(username: string, outcome: FetchOutcome, format: DateFormat, clock: Clock)
      returns (fetched: bool)
      modifies this
      ensures fetched == Load(username, outcome, demo, format, clock).fetched
      ensures statusLog == old(statusLog) + Load(username, outcome, demo, format, clock).statusLog
      ensures grid == Load(username, outcome, demo, format, clock).cards
      ensures CurrentStats() == Load(username, outcome, demo, format, clock).stats
    {
      if !Configured(username) {
        RenderFallback(format, clock);
        return false;
      }
      ghost var log := statusLog;
      SetStatus(LoadingStatus);
      Settled(username, outcome, format, clock);
      fetched := true;
      ghost var settled := Settle(username, outcome, demo, format, clock);
      assert statusLog == log + ([LoadingStatus] + settled.statusLog);
    }
  }
}
