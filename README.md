# Portfolio script: GitHub feed, text guards, typewriter and header

This project models the logic in the portfolio site's single script,
`script.js`, and proves properties of it in Dafny. The modelled parts are:

- **The GitHub project feed** (`loadGithub`, `renderProjects`, `renderFallback`,
  `createProjectCard`):
  - the configuration gate on the trimmed `data-github-username` attribute;
  - the repository selection: keep truthy, non-fork, non-archived entries, then the first nine;
  - the three statistics: `public_repos ?? 0`, the star sum with `Number(x) || 0`,
    and the first selected repository's `pushed_at`;
  - the cards and their text defaults;
  - the demonstration fallback;
  - every text the status label receives, in order.
- **The text guards** `safeText` and `formatDate`.
- **The typewriter scanner** (`typeWriter`). It writes a text one character at a
  time, but a `<` that a later `>` closes is written as one whole tag.
- **The header scroll handler**. It toggles the scrolled style and hides or shows
  the header by scroll direction.

Modules:

| file | module | what it holds |
|---|---|---|
| `js_strings.dfy` | `JsStrings` | ECMAScript whitespace and `String.prototype.trim`, with a reference characterisation of the trim |
| `js_values.dfy` | `JsValues` | JSON-derived values, truthiness, `??`, `Number(x)`, the template-literal string of a value, and the round trip between the last two |
| `text.dfy` | `Text` | `safeText` and the guard of `formatDate` |
| `feed.dfy` | `Feed` | the feed as pure functions from the username and the request outcome to a `View`: status texts, cards, statistics |
| `page.dfy` | `Page` | the GitHub section as a class whose methods follow the script statement by statement, each proved against the `Feed` functions |
| `typewriter.dfy` | `Typewriter` | the `type()` step as a class with a `Tick` method, the timer chain as a loop, and the characterisation of where typing stops |
| `header.dfy` | `Header` | the scroll listener as a class holding `lastScrollY` and the three inline style properties |

Two requests fetch the user and the repository list. They are joined into one
`FetchOutcome`: either both succeeded, carrying their parsed bodies, or the
request failed. Four things are parameters rather than part of the model:

- the date parser and the `fr-FR` formatter (`DateFormat`);
- the clock that stamps the demonstration projects (`Clock`);
- `prefers-reduced-motion`;
- `window.scrollY`.

The model follows the code as written. Three behaviours are easy to misread:

- **The final status after a failure.** It is not an error text. The catch handler sets
  `Erreur GitHub`, then `renderFallback()` immediately overwrites it with
  `Mode démo`. So the last status is `Mode démo`, and the status log records
  both texts (`Feed.FailureEndsInDemo`).
- **The first demonstration title.** It is `Projet Démo`.
- **A user body of `null`.** When both requests succeed but the user body is
  `null`, the code has already rendered the live cards and the username status.
  Reading `public_repos` then throws, and the catch handler replaces everything
  with the demo (`Feed.NullUserEndsInDemo`).

`typeWriter` is defined in the script but never called there. It is modelled
as defined.

## Model

| member | source | states |
|---|---|---|
| JsStrings.Trim | script.js:12 | the trim of any string starts and ends with a non-whitespace character (or is empty) |
| JsStrings.TrimInfix | script.js:194 | the trim is the infix left after cutting a whitespace-only prefix and suffix, and it neither starts nor ends with whitespace |
| JsStrings.TrimUnique | script.js:194 | reference characterisation: any infix with only whitespace outside it and no whitespace at its ends is the trim |
| JsStrings.TrimOfTrimmed | script.js:194 | trimming a string with no leading or trailing whitespace returns it unchanged |
| JsStrings.TrimEmptyIff | script.js:194 | the trim is empty exactly when every character is whitespace (both directions) |
| JsStrings.TrimIdempotent | script.js:194 | trimming twice equals trimming once |
| JsValues.Truthy | script.js:348 | a value is falsy exactly when it is `undefined`, `null`, `false`, `0` or `""` |
| JsValues.Coalesce | script.js:356 | `v ?? d` is `d` exactly when `v` is null, undefined or already `d`; otherwise it is `v` |
| JsValues.DecimalString | script.js:236 | the decimal spelling of an integer is non-empty and has no whitespace at either end |
| JsValues.StringToNumber | script.js:360 | `Number` of a blank string is 0 |
| JsValues.ToNumber | script.js:360 | `Number(v)` is NaN exactly for `undefined` and unreadable strings; `null`, `false` and blank strings give 0; a number gives itself |
| JsValues.NumberOrZero | script.js:360 | `Number(v) \|\| 0` is 0 for `undefined`, `null`, `false`, blank and unreadable strings; 1 for `true`; the number itself for a number; the value read for a readable string |
| JsValues.ToDisplayString | script.js:236 | `${v}` shows a string as is, `undefined` and `null` by name, and a number as a text that `Number` reads back to it |
| JsValues.NatDigitsValue | script.js:236 | reading the digits of a natural number back gives the number |
| JsValues.DigitsNumber | script.js:360 | `Number` of a digit string is its decimal value |
| JsValues.NegatedDigitsNumber | script.js:360 | `Number` of a minus sign followed by digits is the negated value |
| JsValues.DecimalRoundTrip | script.js:236 | `Number(String(n)) === n` for every integer `n` |
| JsValues.NumberOfDisplayedNumber | script.js:236 | for a numeric star count, `Number(x) \|\| 0` of the card's text `${x}` equals the total's `Number(x) \|\| 0` of the value |
| Text.SafeText | script.js:193-196 | a string with a non-whitespace character gives its non-empty trim; anything else gives the fallback |
| Text.SafeTextIdempotent | script.js:193-196 | applying `safeText` again, with the same trimmed fallback, changes nothing |
| Text.FormatDate | script.js:186-191 | a falsy argument or an invalid date gives a dash; otherwise the formatter's text |
| Feed.Username | script.js:12 | the username is the trim of the attribute (empty without it): it has no surrounding whitespace, and is the attribute itself when that is already trimmed |
| Feed.ConfiguredIff | script.js:12 | the loader fetches exactly when the attribute is present, not blank, and its trim is not the placeholder `ton-username-github` |
| Feed.Eligible | script.js:348 | an entry passes the filter exactly when it is a record whose `fork` and `archived` are each missing, `null`, `false`, `0` or `""` |
| Feed.Filter | script.js:347-348 | every kept repository is listed (neither fork nor archived) and comes from the input; none is added |
| Feed.FilterLength | script.js:347-348 | the filter keeps as many entries as there are eligible ones |
| Feed.FilterAppend | script.js:347-348 | filtering distributes over concatenation |
| Feed.CountAppend | script.js:347-348 | the eligible count of a concatenation is the sum of the counts |
| Feed.Select | script.js:347-349 | the selection holds min(9, number of eligible entries) repositories; it is a prefix of the filtered list; every element is listed; a body that is not an array selects nothing |
| Feed.FilterAt | script.js:348 | an eligible entry with `c` eligible entries before it is element `c` of the filtered list |
| Feed.SelectedAt | script.js:347-349 | an eligible entry with fewer than nine eligible entries before it is selected, at the position given by that count |
| Feed.SelectBeyondCap | script.js:349 | once nine eligible entries have been seen, nothing appended after them changes the selection |
| Feed.SelectSkipsIneligible | script.js:348 | inserting a falsy, fork or archived entry anywhere leaves the selection unchanged |
| Feed.StarTotal | script.js:360 | counts that read as NaN add nothing (a list of them totals 0); non-negative counts give a non-negative total |
| Feed.StarTotalAppend | script.js:360 | the star fold distributes over concatenation |
| Feed.StarTotalOfFilter | script.js:360 | the fold over the filtered list equals the reference sum of the eligible entries' stars |
| Feed.StarTotalOfSelection | script.js:347-360 | the star total is the eligible star sum up to any cut that covers exactly the selected entries |
| Feed.NoneEligible | script.js:348 | with no eligible entry the eligible count is 0 |
| Feed.LatestIsFirstEligible | script.js:365 | the latest-update value is the `pushed_at` of the first eligible entry of the input |
| Feed.NoEligibleNoLatest | script.js:365 | with no eligible entry nothing is selected and the latest-update value is undefined |
| Feed.Map | script.js:278-280 | mapping preserves the length and applies the function to each element in place |
| Feed.MapPrefix | script.js:278-280 | mapping one more element of a prefix appends that element's image |
| Feed.CardsOf | script.js:278-280 | one card per repository, in order, each built by `createProjectCard` |
| Feed.CardsOfPrefix | script.js:278-280 | extending the repositories by one extends the cards by that repository's card |
| Feed.CardOf | script.js:198-240 | a card links to the repository's `html_url`, never has an empty title, badge or description, shows a present star count as `${}` spells it, and shows `formatDate(pushed_at)` (a dash for a missing push date) |
| Feed.Cards | script.js:258-280 | `renderProjects` leaves only the "no projects" card for an empty list; otherwise exactly one project card per repository, in order |
| Feed.CardDefaults | script.js:198-240 | title, badge and description are the trimmed texts when present, else `Projet`, `Repo`, `Pas de description.`; a missing star count shows `0` |
| Feed.CardStarsVersusTotal | script.js:236 | the card (`?? 0`) and the total (`Number(x) \|\| 0`) agree on numbers and missing counts, and disagree on `"abc"` and `true` |
| Feed.DemoRepos | script.js:284-309 | one record per demonstration project, in order: each passes the filter, has `stargazers_count: 0`, and carries the project's name, description, language, link and the clock's date for its age |
| Feed.DemoCard | script.js:284-310 | a demonstration project with plain texts is shown exactly as written, with `0` stars and its link |
| Feed.DemoTextsPlain | script.js:284-309 | the names, descriptions and languages of the three demonstration projects are non-blank and trimmed |
| Feed.DemoGrid | script.js:282-310 | the fallback grid is exactly the three demonstration cards, in order |
| Feed.FallbackShowsDemo | script.js:282-316 | `renderFallback` appends the demo status, shows exactly the three demonstration projects in order, each as written, and sets every statistic to a dash |
| Feed.LiveView | script.js:347-366 | on success the status is the username, the grid holds min(9, eligible) cards (at least one) from the selection, the repository statistic is `${public_repos ?? 0}`, the star statistic is the selection's star total, and the update statistic is the formatted `pushed_at` of the first selected repository |
| Feed.Settle | script.js:340-372 | a failed request logs the error then the demo status; a null user logs the username, the error, then the demo status; otherwise only the username |
| Feed.Load | script.js:333-338 | the requests are made exactly when the username is configured |
| Feed.LoadLive | script.js:339-366 | with live data the status log is the loading text then the username; the grid, the star total and the update date come from the selection, and the repository count from `public_repos ?? 0` |
| Feed.LiveUpdated | script.js:365-366 | with live data the update statistic is the formatted `pushed_at` of the first eligible entry of the list, and the grid opens with that entry's card |
| Feed.LiveEmpty | script.js:347-366 | with live data but a body that is not an array, or no eligible entry, the grid is the "no projects" card, the star statistic `0` and the update statistic a dash |
| Feed.LoadDemo | script.js:333-372 | in every other case the page ends in demo mode: the last status is the demo status, the grid is the demonstration cards, every statistic is a dash |
| Feed.LoadDemoCards | script.js:333-372 | every path into demo mode shows exactly the script's three demonstration projects, in order, each as written |
| Feed.UnconfiguredIsDemo | script.js:12 | without a configured username the outcome of the requests is irrelevant: only the demo status, and no request |
| Feed.FailureEndsInDemo | script.js:368-371 | a failed request logs loading, error, then demo status |
| Feed.NullUserEndsInDemo | script.js:351-371 | a null user body logs loading, the username, error, then demo status |
| Feed.LiveStats | script.js:354-362 | the repository statistic is `public_repos ?? 0` whatever the list holds; the star statistic is the eligible star sum over the selected entries |
| Page.GithubPanel.constructor | script.js:172-174 | the panel starts with no status written, an empty grid, the given statistics, and the three demonstration projects |
| Page.GithubPanel.SetStatus | script.js:176-184 | appends one text to the status log and changes nothing else |
| Page.GithubPanel.RenderProjects | script.js:258-280 | the grid becomes `Feed.Cards(repos)`; status and statistics unchanged |
| Page.GithubPanel.AppendCards | script.js:278-280 | the loop appends one card per repository, in order, to the grid |
| Page.GithubPanel.ShowStats | script.js:353-366 | sets the three statistic texts and nothing else |
| Page.GithubPanel.RenderFallback | script.js:282-316 | logs the demo status, shows the demonstration cards, sets dashes |
| Page.GithubPanel.HandleError | script.js:368-371 | logs the error and demo statuses and leaves the fallback page |
| Page.GithubPanel.ShowProjects | script.js:347-366 | logs the username and leaves exactly the grid and statistics of `Feed.LiveView` |
| Page.GithubPanel.ShowThenFail | script.js:351-371 | after cards and username, the throw on a null user leaves the fallback page and logs username, error, demo |
| Page.GithubPanel.Settled | script.js:340-372 | for every outcome, the log grows by exactly `Feed.Settle`'s texts and the grid and statistics equal its view |
| Page.GithubPanel.LoadGithub | script.js:333-372 | the method returns whether requests were made and leaves exactly the view of `Feed.Load` (all its log, cards and statistics) |
| Typewriter.IndexOf | script.js:479 | `indexOf('>', i)` returns the first index at or after `i` holding the character, or -1 when there is none |
| Typewriter.Next | script.js:477-487 | one step advances exactly when the current position is not an unclosed `<`, and what it passes over is one character other than `<` or one whole tag ending at its first `>` |
| Typewriter.NextPassesNoUnclosed | script.js:478-483 | no position a step passes over is an unclosed `<` |
| Typewriter.Typing.constructor | script.js:473-474 | typing starts at index 0 with an empty element |
| Typewriter.Typing.Tick | script.js:476-490 | one `type()` call keeps `innerHTML == text[..i]`, made of whole chunks, advances `i` to the next index and schedules another call exactly when `i` was short of the end |
| Typewriter.Typing.Run | script.js:476-492 | the timer chain reaches the end of the text exactly when the text has no unclosed `<`, and otherwise stops at one |
| Typewriter.TypeWriter | script.js:467-493 | with reduced motion the whole text is written at once; otherwise the text is written completely exactly when no `<` lacks a later `>`, else up to the first such `<` |
| Header.Header.constructor | script.js:131 | `lastScrollY` starts at 0 with no inline style |
| Header.Header.OnScroll | script.js:133-154 | the scrolled style is on exactly when `scrollY > 100`; with motion allowed the header is hidden exactly when it moved down past 200; `lastScrollY` becomes the new position; a hidden header always follows a downward scroll past 200 |

## Left out

- Network I/O and JSON parsing (`fetchJson`, `fetch`, HTTP status checks) are not modelled. Their result is the `FetchOutcome` parameter: a failure of either request, or both parsed bodies.
- The error object, `console.error` and the HTTP error message are left out, because only the diagnostic log sees them.
- `new Date(...)` and `Intl.DateTimeFormat('fr-FR', ...)` are left out, because date parsing and locale formatting are library code. They are the `DateFormat` parameter.
- `Date.now()` and `toISOString()` for the demonstration timestamps are left out, because they read the clock. They are the `Clock` parameter.
- `animateCounter` is modelled only by its final text. Its easing and intermediate frames are left out, because they are floating-point and frame-timing behaviour.
- Only the integral-decimal syntax of `Number(string)` is modelled (an optional sign and digits after trimming). Decimals, exponents, hexadecimal, `Infinity` and fractional star counts are left out, because GitHub reports integer counts.
- Object- and array-valued fields are not modelled, because the script only reads primitive fields. A truthy primitive entry in the repository array is modelled as a record whose fields are all undefined.
- `public_repos` of an object user body is read as a primitive value.
- The card's link attributes, the star icon markup, the stagger delays, the mouse-glow listener and the status pill's inner element choice are left out, because they are presentation only.
- DOM elements are assumed present. A missing element mostly skips only the writes to it, but a missing `#statRepos` also skips the read of `user.public_repos` (script.js:355-358). With a null user body that read is what throws, so the script would then keep the live cards and the username status. `Feed.Settle`'s null-user case, `Feed.NullUserEndsInDemo` and `Page.GithubPanel.ShowThenFail` assume `#statRepos` exists.
- JavaScript numbers are doubles; the model's numbers are unbounded integers. Two effects are left out: `${n}` is written in exponent form from 10^21 on (`1e+21`), and the star sum rounds once it passes 2^53. GitHub's repository and star counts stay far below both bounds.
- The other visual effects of the script are left out: scroll reveal, parallax shapes, cursor glow, magnetic buttons, tilt cards, glitch text, smooth scroll and the footer year. They change only styles and have no logic to verify.
- Strings are sequences of characters, not of UTF-16 code units, so `text.length` and indices differ from the script for characters outside the Basic Multilingual Plane.
- `innerHTML` is modelled as the string of everything appended to it. The browser's parsing and re-serialisation after each `+=` is left out.
- Typewriter.Typing.Run: at an unclosed `<` the script reschedules `type()` forever without progress. The model stops at the first call that makes no progress. The timer delay (`speed`) is left out.
- Header.Header.OnScroll: `window.scrollY` is a floating-point number in browsers. It is modelled as an integer.
- Page.GithubPanel.constructor: the demonstration list is a field set to the script's three projects rather than a literal rebuilt on each call. The clock supplies each project's timestamp.
