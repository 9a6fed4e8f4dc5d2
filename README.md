# Basketball roster scraper — a verified model

This project models the data handling of a Next.js service. The service scrapes the Mongolian basketball player roster and individual player profiles from a basketball statistics site, serves them through API routes, and shows them in a filterable, paginated list. The model covers nine areas:

- **Roster scrape** (`RosterScrape`). The `GET` handler of the roster route does the following:
  - checks the caller's key;
  - serves a one-hour cache;
  - attempts to launch a browser up to three times, falling back to a stale cache;
  - reads the "of N Players" total;
  - walks the later pages at offsets of 15 until one fails;
  - writes the cache.

  Row extraction (`scrapePlayersFromHtml`) turns table rows into player records. The browser is replaced by oracles:
  - a launch oracle, indexed by attempt;
  - the first page as a value;
  - the later pages, looked up by their offset.

  The clock is passed in as parameters.
- **Profile extractors** (`PlayerDetailsScrape`). These are the player-details scraper utilities:
  - safe text and attribute reads;
  - label stripping;
  - name cleaning;
  - image-URL absolutisation;
  - the career, game-log, summary, average and advanced-statistics tables;
  - the combined record.
- **Player list page** (`PlayersView`):
  - the multi-criteria filter;
  - the sorted, de-duplicated dropdown values;
  - page slicing, the footer counts and the 7-slot page-button window;
  - the page state, with its previous/next/paginate handlers and the reset to page 1 when a filter changes.
- **API-key gate** (`ApiAuth`): `verifyApiKey`.
- **Route guard** (`RouteGuard`): which paths need a signed-in user, and the sign-in and home redirects.
- **Retry combinator** (`Retry`): recursive, with a doubling delay.
- **External API proxy** (`ExternalApi`):
  - config lookup and the default method;
  - the cache key;
  - the ten-minute GET cache;
  - header construction.
- **API-key generator** (`ApiKeys`): 32 characters drawn from a 62-letter alphabet.
- **Shared support**:
  - `Text`: JavaScript string operations (trim, includes, split/join, first-occurrence replace, ASCII lower-casing, decimal numerals, code-unit order);
  - `Collect`: the "keep the rows a mapper accepts, in order" loop used by every table scraper;
  - `Maths`: ceiling division, minimum, maximum and powers of two;
  - `Wrappers`: the Option and Result types;
  - `Types`: the record types of the player data.

Behaviour worth noting (the model follows the code):

- A roster row whose profile URL ends in `/` is kept with the identifier `unknown-<row index>`; it is not dropped (`RosterScrape.PlayerIdFromUrl`).
- A later page that yields no rows only logs a warning, and pagination goes on. Only a page that fails to load stops it.
- The two early replies (total unreadable; a single page) carry only `players`, with no `partial`, `expected` or `source`, and they do not write the cache (`RosterScrape.BareRepliesArePageOne`).
- Advanced statistics are eight value/team/percentage triples read from cells 0–23.
- An absent `Host` header makes every referer count as internal, so the key check passes (`ApiAuth.AbsentHostPasses`).

## Model

| member | source | states |
|---|---|---|
| Text.Trim | app/api/scrape/route.ts:21 | `trim()`: the result has no leading or trailing white space, is no longer than the input, and is empty exactly when the input is all white space |
| Text.TrimBothEnds | app/api/player-details/scraperUtils.ts:33 | trimming equals stripping the leading white space, then the trailing white space |
| Text.IndexOf | app/api/player-details/scraperUtils.ts:75 | finds the first occurrence of the pattern: it occurs at the index, at no earlier one, and the result is None exactly when the pattern does not occur |
| Text.ReplaceFirst | app/middleware/api-auth.ts:40 | `replace` with a string pattern: the input is unchanged when the pattern is absent, and otherwise the text is what precedes the first occurrence followed by what follows it |
| Text.ReplaceFirstEmpty | app/middleware/api-auth.ts:40-42 | removing the first "Bearer " leaves an empty token exactly when the header is empty or is "Bearer " itself |
| Text.ReplaceFirstIgnoreCase | app/api/player-details/scraperUtils.ts:75 | `replace(/…/i)`: the input is unchanged when its lower-cased text lacks the lower-cased pattern; otherwise the text at the first case-insensitive match is cut out |
| Text.FoundIgnoringCase | app/api/player-details/scraperUtils.ts:75 | where the lower-cased pattern is found in the lower-cased text, the text holds the pattern up to letter case, within bounds |
| Text.LowerAscii | app/players/page.tsx:57 | `toLowerCase` on ASCII: the length is kept, and each character maps to its lower-case form |
| Text.Split | app/api/player-details/scraperUtils.ts:49 | `split`: at least one part; more than one exactly when the separator occurs; no part contains it |
| Text.JoinSplit | app/api/player-details/scraperUtils.ts:49-50 | `split(':')` followed by `join(':')` gives back the input |
| Text.SplitTail | app/api/player-details/scraperUtils.ts:50 | joining every part after the first gives the text after the first separator |
| Text.LastPart | app/api/scrape/route.ts:26-27 | the last part is a separator-free suffix, preceded by the separator unless it is the whole text |
| Text.LastPartUnique | app/api/scrape/route.ts:26-27 | exactly one suffix has those properties |
| Text.LastPartOfSplit | app/api/scrape/route.ts:26-27 | `parts[parts.length - 1]` of `split('/')` is that last part |
| Text.JoinLast | app/api/scrape/route.ts:26-27 | the last part of a join is a suffix of it, preceded by the separator when there are several parts |
| Text.ContainsAt | app/players/page.tsx:57 | `includes` holds exactly when the pattern occurs at some index |
| Text.NatToString | app/api/scrape/route.ts:27 | a decimal numeral is a non-empty string of digits |
| Text.DigitsRoundTrip | app/api/scrape/route.ts:168 | reading back the decimal numeral of n gives n |
| Text.LessIrreflexive | app/players/page.tsx:39 | the order `sort()` uses is irreflexive |
| Text.LessTransitive | app/players/page.tsx:39 | the order `sort()` uses is transitive |
| Text.LessTotal | app/players/page.tsx:39 | the order `sort()` uses is total |
| Maths.CeilDiv | app/players/page.tsx:78 | `Math.ceil(n / d)`: the least q with q·d ≥ n; the list page's `totalPages` is this with 15 per page |
| Collect.Kept | app/api/scrape/route.ts:17-41 | the rows a mapper accepts, in order; never more than the rows |
| Collect.KeptMembers | app/api/player-details/scraperUtils.ts:126-138 | a record is collected exactly when some row maps to it |
| Collect.KeptEmpty | app/api/player-details/scraperUtils.ts:143 | nothing is collected exactly when every row is rejected |
| Collect.KeptPrefix | app/api/scrape/route.ts:17-41 | the records of a prefix of the rows are a prefix of the records of all rows |
| Collect.KeptAll | app/api/scrape/route.ts:17-41 | when every row is accepted, record i comes from row i |
| Collect.KeptSnoc | app/api/scrape/route.ts:40 | one more row adds its record, if any, at the end |
| Collect.NonEmpty | app/api/player-details/scraperUtils.ts:143 | `list.length > 0 ? list : undefined`: Some only for a non-empty list |
| Collect.CollectRows | app/api/player-details/scraperUtils.ts:126-138 | the `each`/`push` loop collects exactly the kept records |
| ApiAuth.VerifyApiKey | app/middleware/api-auth.ts:15-65 | valid always comes with status 200 and no error; invalid always comes with 401 and an error message |
| ApiAuth.AbsentHostPasses | app/middleware/api-auth.ts:18-25 | with no Host header every request counts as internal: valid, 200 |
| ApiAuth.ExternalVerdict | app/middleware/api-auth.ts:28-55 | a request that is not internal is accepted exactly when its Authorization header is present, not empty, and not exactly "Bearer " |
| ApiAuth.ExternalRefusals | app/middleware/api-auth.ts:30-48 | a missing or empty header gives 401 "Authorization header is required"; a bare "Bearer " gives 401 with the format message |
| RosterScrape.PlayerId | app/api/scrape/route.ts:26-27 | an identifier is never empty |
| RosterScrape.PlayerIdFromUrl | app/api/scrape/route.ts:26-27 | the identifier is the profile URL's final '/'-segment; when that segment is empty, it is "unknown-" followed by the numeral of the row index |
| RosterScrape.FallbackIdsDistinct | app/api/scrape/route.ts:27 | fallback identifiers of different rows differ |
| RosterScrape.RowKept | app/api/scrape/route.ts:18-23 | a row is kept exactly when it has no header cell, at least 7 cells, and a non-empty trimmed link text and href |
| RosterScrape.RowFields | app/api/scrape/route.ts:29-39 | a kept row's player has a non-empty id and name, the href as its profile URL, and every text field trimmed |
| RosterScrape.ExtractedIds | app/api/scrape/route.ts:14-43 | every extracted player has an identifier |
| RosterScrape.IdFromUrl | app/api/scrape/route.ts:26-27 | taking the last element of `split('/')`, with the `unknown-<index>` fallback, gives the row's identifier |
| RosterScrape.ReadRow | app/api/scrape/route.ts:18-39 | reading one row gives the player its specification defines, or none |
| RosterScrape.ScrapePlayersFromHtml | app/api/scrape/route.ts:14-43 | the loop returns exactly the kept rows' players, in table order |
| RosterScrape.DigitRun | app/api/scrape/route.ts:166 | `\d+`: the longest run of digits at the start of the text |
| RosterScrape.DigitRunOfNumeral | app/api/scrape/route.ts:166 | the digit run of a numeral followed by a non-digit is the whole numeral |
| RosterScrape.ParseTotalReadsMarker | app/api/scrape/route.ts:166-168 | a showing text "… of N Players" parses to N |
| RosterScrape.PageCount | app/api/scrape/route.ts:178 | the page count is ⌈total / 15⌉ |
| RosterScrape.Stop | app/api/scrape/route.ts:186-241 | the first page from k on that failed to load (or one past the last); every page before it loaded |
| RosterScrape.PagesRowsStep | app/api/scrape/route.ts:229 | one more loaded page appends its players |
| RosterScrape.PagesRowsIds | app/api/scrape/route.ts:186-243 | every player collected from later pages has an identifier |
| RosterScrape.AllPagesLoaded | app/api/scrape/route.ts:186-243 | when every page 2..pages loads, the loop runs to the end |
| RosterScrape.FirstLaunch | app/api/scrape/route.ts:95-123 | the first successful launch attempt among the three, with every earlier attempt failed, or None when all three fail |
| RosterScrape.Gate | app/api/scrape/route.ts:55-67 | a refusal is always a 401 error reply |
| RosterScrape.InternalRequestsPass | app/api/scrape/route.ts:55-58 | a referer mentioning the site URL passes without a key, and so does every request when no site URL is configured |
| RosterScrape.RefusalTouchesNothing | app/api/scrape/route.ts:58-67 | a refused request gets the 401 and neither reads the cache nor launches a browser |
| RosterScrape.FreshCacheServed | app/api/scrape/route.ts:69-79 | within the hour (strictly), the cached players, partial flag and total are served from the cache without a launch |
| RosterScrape.CachedRepliesRepeatEntry | app/api/scrape/route.ts:71-115 | a cache-sourced reply repeats the entry; it is the browser fallback exactly when the entry is stale, and then it is partial and non-empty after three launches |
| RosterScrape.LaunchesBounded | app/api/scrape/route.ts:95-123 | at most three launches are attempted, and none exactly when the request was refused or the cache was fresh |
| RosterScrape.LaunchFailureFallsBack | app/api/scrape/route.ts:102-117 | after three failed launches, a cache entry with players is served as partial, and otherwise the reply is a 500; the cache stays as it was |
| RosterScrape.BareRepliesArePageOne | app/api/scrape/route.ts:166-183 | a players-only reply is page 1 alone, sent when the total is unreadable (page 1 non-empty) or fits one page; the cache is not written |
| RosterScrape.PageOneReplies | app/api/scrape/route.ts:150-183 | with a browser at hand: a failed page 1 gives the 500; an unreadable total gives the 500 for an empty page 1 and page 1's entries otherwise; a total fitting one page gives page 1's entries; the cache is untouched in each case |
| RosterScrape.ScrapedPayload | app/api/scrape/route.ts:178-265 | a scraped reply holds page 1, then every later page up to the first that failed; it is partial exactly when some page of 2..pages failed, and expected is the parsed total |
| RosterScrape.CacheWrites | app/api/scrape/route.ts:245-254 | every non-empty scraped reply is stored with the write time, total and partial flag; otherwise the cache changes only when closing the page failed after the write |
| RosterScrape.CloseFailureKeepsEntry | app/api/scrape/route.ts:245-275 | when `page.close()` throws after the cache write, the reply is the 500 error but the new entry stays cached, as on a clean close |
| RosterScrape.EntriesHaveIds | app/api/scrape/route.ts:245-265 | every player replied with or cached has an identifier |
| RosterScrape.ScrapeIds | app/api/scrape/route.ts:150-265 | a scrape with a browser at hand replies with and caches only players that have identifiers |
| RosterScrape.RepeatWithinHour | app/api/scrape/route.ts:69-79 | a request within the hour after a cache write gets the same reply, now sourced from the cache, with no launch |
| RosterScrape.StaleCacheRescraped | app/api/scrape/route.ts:71-100 | once the entry is an hour old and a browser launches, the reply is not served from the cache |
| RosterScrape.ScrapeRemainingPages | app/api/scrape/route.ts:186-243 | the page loop appends pages 2.. until the first failure and raises the error flag exactly when one failed |
| RosterScrape.LaunchBrowser | app/api/scrape/route.ts:94-123 | the retry loop acquires a browser exactly when some attempt succeeds, after first-success + 1 attempts, or three attempts otherwise, with a 1000 ms pause between consecutive attempts |
| RosterScrape.RosterService.constructor | app/api/scrape/route.ts:10 | the cache starts empty |
| RosterScrape.RosterService.Get | app/api/scrape/route.ts:52-276 | the handler's reply, new cache and launch count are those of its specification on the old cache |
| RosterScrape.RosterService.ScrapeWithBrowser | app/api/scrape/route.ts:145-265 | the scrape with a browser at hand follows its specification on the old cache |
| PlayerDetailsScrape.SafeGetText | app/api/player-details/scraperUtils.ts:31-34 | the result is trimmed, and empty exactly when the element is missing or all white space |
| PlayerDetailsScrape.SafeGetAttr | app/api/player-details/scraperUtils.ts:39-43 | defined exactly when the element has the attribute with a non-empty value; the value is trimmed |
| PlayerDetailsScrape.CellText | app/api/player-details/scraperUtils.ts:130-132 | a cell's trimmed text, or "" past the last cell |
| PlayerDetailsScrape.ValueAfterFirstColon | app/api/player-details/scraperUtils.ts:48-51 | the trimmed text after the first ':' (later colons kept), or the trimmed whole text when there is no colon |
| PlayerDetailsScrape.LabelledValue | app/api/player-details/scraperUtils.ts:48-51 | "Label:value" with a colon-free label gives the trimmed value |
| PlayerDetailsScrape.ParseNumberSafe | app/api/player-details/scraperUtils.ts:56-60 | an empty text gives undefined; any other text gives what the number parser gives |
| PlayerDetailsScrape.NumberOrZero | app/api/player-details/scraperUtils.ts:285 | `|| 0`: an unreadable number becomes 0 |
| PlayerDetailsScrape.CleanName | app/api/player-details/scraperUtils.ts:72-76 | the cleaned name is trimmed |
| PlayerDetailsScrape.TitleGivesName | app/api/player-details/scraperUtils.ts:72-76 | a title made of a trimmed name followed by " basketball profile", in any letter case, gives back the name |
| PlayerDetailsScrape.FoundWhereAppended | app/api/player-details/scraperUtils.ts:75 | a self-overlap-free pattern appended to a text that lacks it is first found where it was appended |
| PlayerDetailsScrape.Absolutize | app/api/player-details/scraperUtils.ts:84-85 | the address always starts with "http"; an "http…" source is kept, and any other is the site origin, a '/' only when missing, then the source |
| PlayerDetailsScrape.AbsolutizeSlash | app/api/player-details/scraperUtils.ts:85 | "/path" and "path" give the same address |
| PlayerDetailsScrape.InfoField | app/api/player-details/scraperUtils.ts:92-110 | an info field is set exactly when its element is present |
| PlayerDetailsScrape.ImageUrl | app/api/player-details/scraperUtils.ts:79-87 | an image address, when set, starts with "http" |
| PlayerDetailsScrape.ScrapeBasicInfo | app/api/player-details/scraperUtils.ts:67-116 | the field-by-field fill gives the specified record: name set iff a title exists, position set iff its element exists, image absolute |
| PlayerDetailsScrape.CareerRow | app/api/player-details/scraperUtils.ts:127-136 | a career row is accepted exactly when it has at least 2 cells and a non-empty year and team; league is cell 3, or "" with two cells |
| PlayerDetailsScrape.GameLogRow | app/api/player-details/scraperUtils.ts:155-178 | a game-log row is accepted exactly when it has at least 18 cells; date, rank and the result link's text and href are read positionally |
| PlayerDetailsScrape.StatsRows | app/api/player-details/scraperUtils.ts:197-243 | summary and average rows are accepted exactly when they have at least 16 cells, fields read positionally |
| PlayerDetailsScrape.ScrapeCareerHistory | app/api/player-details/scraperUtils.ts:121-144 | the loop gives the accepted career rows in order, or undefined when there are none |
| PlayerDetailsScrape.ScrapeGameLogs | app/api/player-details/scraperUtils.ts:149-186 | the loop gives the accepted game-log rows in order, or undefined when there are none |
| PlayerDetailsScrape.ScrapeSummaryAndAverageStats | app/api/player-details/scraperUtils.ts:191-253 | both loops give their accepted rows in order, each undefined when empty |
| PlayerDetailsScrape.RowTriples | app/api/player-details/scraperUtils.ts:283-330 | the data row yields eight triples |
| PlayerDetailsScrape.Triples | app/api/player-details/scraperUtils.ts:283-330 | the eight triples of the advanced-stats record, in order |
| PlayerDetailsScrape.TriplesAssemble | app/api/player-details/scraperUtils.ts:283-330 | placing eight triples into the record and reading them back gives them unchanged |
| PlayerDetailsScrape.AdvancedPresence | app/api/player-details/scraperUtils.ts:260-280 | advanced statistics are present exactly when the table and its data row exist and the row has at least 24 cells |
| PlayerDetailsScrape.AdvancedLayout | app/api/player-details/scraperUtils.ts:283-330 | triple k is read from cells 3k, 3k+1, 3k+2 |
| PlayerDetailsScrape.UnreadableIsZero | app/api/player-details/scraperUtils.ts:285-328 | an empty or unparsable cell counts as 0; any other cell counts as its parsed value |
| PlayerDetailsScrape.DetailsSections | app/api/player-details/scraperUtils.ts:342-357 | the record's id is the requested one; each list section is absent or non-empty, and present exactly when some row was accepted |
| PlayerDetailsScrape.DetailsImageAbsolute | app/api/player-details/scraperUtils.ts:84-85 | the merged record's image address, when set, is absolute |
| PlayersView.FilterPlayers | app/players/page.tsx:53-70 | filtering never lengthens the list |
| PlayersView.FilterMembers | app/players/page.tsx:53-70 | a player survives exactly when listed and matching every criterion: the lower-cased name contains the lower-cased search (or the search is empty), and each non-empty filter equals its field |
| PlayersView.FilterAppend | app/players/page.tsx:54 | filtering distributes over concatenation, so survivors keep their order |
| PlayersView.FilterKeepsAll | app/players/page.tsx:54 | the list is unchanged exactly when every player matches |
| PlayersView.NoCriteriaShowsAll | app/players/page.tsx:56-66 | with all four criteria empty the whole list is shown |
| PlayersView.FilterIdempotent | app/players/page.tsx:53-70 | filtering twice is filtering once |
| PlayersView.InsertSorted | app/players/page.tsx:38-39 | inserting into a strictly sorted list keeps it strictly sorted and adds exactly the value |
| PlayersView.DistinctSortedSpec | app/players/page.tsx:38-39 | the distinct values are strictly sorted and hold exactly the non-empty values given |
| PlayersView.SortedUnique | app/players/page.tsx:38-39 | two strictly sorted lists with the same members are equal, so the dropdown is determined by its value set |
| PlayersView.FieldValues | app/players/page.tsx:38 | one value per player |
| PlayersView.Dropdown | app/players/page.tsx:39 | a dropdown list always starts with the "" option |
| PlayersView.DropdownSpec | app/players/page.tsx:37-50 | a dropdown list is strictly sorted, and after "" it holds exactly the non-empty values some player has |
| PlayersView.SliceIndex | app/players/page.tsx:75 | `slice` clamps an index into 0..length |
| PlayersView.PageSlice | app/players/page.tsx:73-75 | page p shows filtered entries (p−1)·15 up to p·15, clamped, and at most 15 of them |
| PlayersView.PagesCover | app/players/page.tsx:73-75 | pages 1..k together show the first 15·k entries |
| PlayersView.AllPagesShowAll | app/players/page.tsx:73-78 | pages 1..totalPages together show every filtered entry once, in order |
| PlayersView.FooterCountsShown | app/players/page.tsx:307-309 | the footer's "A to B of N" satisfies 1 ≤ A ≤ B ≤ N, and entries A..B are exactly those shown |
| PlayersView.PageWindow | app/players/page.tsx:329 | the button strip has min(totalPages, 7) slots |
| PlayersView.WindowShowsAllFewPages | app/players/page.tsx:331-333 | with at most 7 pages, the strip is 1..totalPages |
| PlayersView.WindowEnds | app/players/page.tsx:336-349 | with more than 7 pages, the strip starts with 1 and ends with totalPages |
| PlayersView.WindowEntries | app/players/page.tsx:329-351 | each slot is the ellipsis marker −1 or a page in 1..totalPages |
| PlayersView.WindowOrder | app/players/page.tsx:329-351 | the page numbers in the strip strictly increase |
| PlayersView.WindowGaps | app/players/page.tsx:329-351 | neighbouring page numbers are consecutive, and an ellipsis sits between two pages that are not |
| PlayersView.WindowHasCurrent | app/players/page.tsx:329-351 | the current page, when in range, has a button |
| PlayersView.ButtonKeepsInRange | app/players/page.tsx:329-351 | pressing a numbered button goes to a page in range |
| PlayersView.PlayersPage.constructor | app/players/page.tsx:28 | no players, no criteria, page 1 |
| PlayersView.PlayersPage.Load | app/players/page.tsx:12-18 | the list becomes the reply's players, or empty with no reply; criteria and page are kept |
| PlayersView.PlayersPage.SetCriteria | app/players/page.tsx:32-34 | changing the criteria resets the page to 1; setting the same criteria changes nothing; the page stays in range |
| PlayersView.PlayersPage.SetSearchTerm | app/players/page.tsx:32-34 | a new search term resets the page to 1 |
| PlayersView.PlayersPage.SetFilterPosition | app/players/page.tsx:32-34 | a new position filter resets the page to 1 |
| PlayersView.PlayersPage.SetFilterTeam | app/players/page.tsx:32-34 | a new team filter resets the page to 1 |
| PlayersView.PlayersPage.SetFilterNationality | app/players/page.tsx:32-34 | a new nationality filter resets the page to 1 |
| PlayersView.PlayersPage.GoToPreviousPage | app/players/page.tsx:84-88 | steps back only above page 1, and keeps the page in 1..max(1, totalPages) |
| PlayersView.PlayersPage.GoToNextPage | app/players/page.tsx:90-94 | steps forward only below totalPages, and keeps the page in range |
| PlayersView.PlayersPage.Paginate | app/players/page.tsx:81 | sets the page to the number given |
| RouteGuard.AnyRoute | middleware.ts:49-51 | `some`: holds exactly when the path is one of the routes or lies below one of them |
| RouteGuard.ProtectedExamples | middleware.ts:49-51 | "/protected" and "/dashboard/settings" are guarded; "/protectedX" and "/" are not |
| RouteGuard.SubpathsProtected | middleware.ts:49-51 | everything below a guarded path is guarded |
| RouteGuard.SignedOut | middleware.ts:54-66 | signed out, a guarded path redirects to sign-in with itself as callbackUrl, and every other path passes |
| RouteGuard.SignedIn | middleware.ts:62-66 | signed in, exactly /sign-in and /sign-up redirect home, and every other path passes |
| RouteGuard.TargetsPass | middleware.ts:54-66 | the redirect targets themselves pass, so there are no redirect loops |
| RouteGuard.MatcherChangesNothing | middleware.ts:70-80 | every path that would be redirected is matched by the configured matcher |
| Retry.Retry | app/utils/retry.ts:8-30 | fn is called at most max(retriesLeft, 0) + 1 times; the result is the last call's; every earlier call failed; a failure is returned only after all calls; one wait per retry |
| Retry.WaitsDouble | app/utils/retry.ts:25-28 | the i-th wait is delay·2^i |
| Retry.RetryStep | app/utils/retry.ts:25-28 | a failed call with retries left waits `delay`, then retries with one retry fewer and twice the delay |
| Retry.WaitsCons | app/utils/retry.ts:25-28 | a first wait of `delay`, followed by waits doubling from twice the delay, doubles from `delay` |
| Retry.FirstSuccessWins | app/utils/retry.ts:14-15 | the first success is returned and fn is not called again |
| Retry.NoRetriesRethrows | app/utils/retry.ts:17-20 | with no retries left, the failure is returned unchanged after one call |
| Retry.DefaultsAllFail | app/utils/retry.ts:10-28 | with the defaults, a function that always fails is called 4 times, with waits 1000, 2000, 4000 ms |
| ExternalApi.ApiConfigs | app/utils/external-api.ts:12-30 | exactly the basketball-api and stats-api configurations exist |
| ExternalApi.MethodOf | app/utils/external-api.ts:51 | the method is never empty: a given non-empty method, else "GET" |
| ExternalApi.CacheKeyInjective | app/utils/external-api.ts:62 | "<api>:<method>:<url>" identifies the API, method and URL when the first two are colon-free |
| ExternalApi.HeadersSpec | app/utils/external-api.ts:72-84 | bearer auth sets Authorization to "Bearer <key>"; api-key auth sets its header name (default X-API-Key) to the key; every other header comes from the config, or else Content-Type: application/json |
| ExternalApi.ShippedHeaders | app/utils/external-api.ts:12-30 | the two shipped configurations send their key under X-API-Key and as a Bearer token |
| ExternalApi.CachedAnswer | app/utils/external-api.ts:63-69 | the cache answers exactly for GET without skipCache, with an entry younger than ten minutes, and returns its data with source cache |
| ExternalApi.UnknownApi | app/utils/external-api.ts:46-52 | an API that is not configured fails before any cache or network access: with the configuration error, or with `Invalid URL` for a name inherited from `Object.prototype` |
| ExternalApi.InheritedNameFails | app/utils/external-api.ts:46-52 | a request for the API "constructor" fails with `Invalid URL`, sends nothing and leaves the cache |
| ExternalApi.CacheHits | app/utils/external-api.ts:61-69 | a known API is answered from the cache exactly when the cache answers, and then nothing is sent and the cache is unchanged |
| ExternalApi.CacheWrites | app/utils/external-api.ts:93-102 | a failed request leaves the cache unchanged; the cache changes exactly when a GET reached the network and succeeded, under its key, stamped with the store time |
| ExternalApi.SentRequest | app/utils/external-api.ts:72-91 | a sent request goes to base URL + endpoint with the chosen method and the built headers |
| ExternalApi.ExternalApiClient.constructor | app/utils/external-api.ts:33 | the cache starts empty |
| ExternalApi.ExternalApiClient.FetchExternalApi | app/utils/external-api.ts:36-109 | the result, the request sent and the new cache are those of its specification on the old cache |
| ApiKeys.PickInRange | app/utils/supabase/client.ts:45 | `Math.floor(Math.random() * 62)` is always in 0..61 |
| ApiKeys.CharAt | app/utils/supabase/client.ts:46 | `charAt` gives one character inside the string and "" outside it |
| ApiKeys.KeyOf | app/utils/supabase/client.ts:38-50 | a key has exactly 32 characters |
| ApiKeys.KeyAlphabet | app/utils/supabase/client.ts:39-46 | every character of a key is from the 62-letter alphabet |
| ApiKeys.GenerateApiKey | app/utils/supabase/client.ts:38-50 | the loop appends one character per draw, giving the specified 32-character key over the alphabet |
| ApiKeys.EveryKeyReachable | app/utils/supabase/client.ts:39-47 | every 32-character string over the alphabet is produced by some draws |

## Left out

- Browser automation is replaced by oracles for the launch, the first page, the later pages and closing the page. This covers `browserService`, `page.goto`, selector and update waits, the `xSUBMITPage` call and request interception (a failure of any of these before page 1 is read is a failed first page). The waits' timeouts are covered only as "the page failed to load".
- HTML parsing and selector evaluation are replaced by rows of cell texts and optional elements.
- Time: `Date.now` becomes the parameters `now` and `storeTime`. The 1 s pauses between launch attempts (returned by `RosterScrape.LaunchBrowser`) and the retry combinator's waits are recorded, never slept. `RosterScrape.Handle` keeps only the number of launch attempts, from which the pauses follow.
- RosterScrape.LaunchBrowser: the stale-cache fallback is decided after the launch loop returns, not inside its last iteration. The reply is the same.
- RosterScrape.RosterService.Get: the reply's `browserError` message and the verifier's extra `headers` are not modelled. The unreachable "browser undefined" throw is omitted.
- Requests are modelled one at a time. Both module-level caches (the roster entry and the external-API map) are read and written across `await`s, so two interleaved requests could see or overwrite each other's entries; that interleaving is not modelled.
- ExternalApi.UnknownApi: a name inherited from `Object.prototype` is modelled as failing at `new URL` with `Invalid URL`. An endpoint beginning with `:` would make `undefined<endpoint>` a valid URL with the scheme `undefined`, and the request would then reach `fetch`; URL parsing is not modelled, so that case is not distinguished.
- ApiAuth.VerifyApiKey: the 500 "Authentication error occurred" branch is not modelled, because nothing in the `try` block can throw. The contract therefore states only 200 and 401.
- `parseFloat` stays an uninterpreted parameter from text to an optional number, and floating-point arithmetic is left out.
- `parseInt` of the total is read as an unbounded natural number, so precision loss on very long digit runs is not modelled.
- Text.LowerAscii: only ASCII letters are lower-cased. This is exact for the ` basketball profile` pattern, but a name search with non-ASCII letters is compared without Unicode case folding.
- PlayersView.DistinctSortedSpec: `sort()` compares UTF-16 code units; the model compares characters, which agree on the basic multilingual plane.
- PlayersView.PlayersPage.Load: loading new players does not reset the page, as in the source; the page may then be out of range until the next handler.
- PlayersView.PlayersPage.Paginate: the page is set to any number given, as in the source. Only the window's buttons are proved to stay in range (`PlayersView.ButtonKeepsInRange`).
- RouteGuard.SignedOut: the sign-in redirect is reduced to its `callbackUrl`. The Supabase client, its cookie callbacks and the user lookup become a "signed in" flag.
- External API: URL construction and query encoding, the request body and JSON decoding are left out. The `params` option and the `rateLimit` field are not used in the model, and the source never uses `rateLimit` either.
- ApiKeys.GenerateApiKey: the `Math.random()` draws are given as an input sequence of reals in [0, 1).
- The environment keys (`BASKETBALL_API_KEY`, `STATS_API_KEY`, `NEXT_PUBLIC_SITE_URL`) are parameters.
- Logging is left out everywhere.
- The player-details route handler, the browser services and the UI components are not part of this model.
